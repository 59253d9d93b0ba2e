/** normalize_class_name and class_grade: free-form class labels reduced to a
    canonical form. Text is ASCII; the regular expressions are spelled out. */
module ClassNames {
  import opened Common

  // ------------------------------------------------------ preparation

  predicate IsSpace(c: char) {
    c == ' ' || c == '\t' || c == '\n' || c == '\r'
  }

  predicate IsSeparator(c: char) {
    IsSpace(c) || c == '-'
  }

  predicate IsSection(c: char) {
    'A' <= c <= 'F'
  }

  predicate IsWord(c: char) {
    'A' <= c <= 'Z' || 'a' <= c <= 'z' || '0' <= c <= '9' || c == '_'
  }

  function UpperChar(c: char): char {
    if 'a' <= c <= 'z' then (c as int - 32) as char else c
  }

  /** Upper case, en and em dashes as '-', runs of white space as one blank,
      no white space at the end. */
  function Squeeze(s: string): string {
    if s == "" then ""
    else
      var rest := Squeeze(s[1..]);
      if IsSpace(s[0]) then (if rest == "" || rest[0] == ' ' then rest else " " + rest)
      else [if s[0] == '\U{2013}' || s[0] == '\U{2014}' then '-' else UpperChar(s[0])] + rest
  }

  function Clean(value: string): string {
    var s := Squeeze(value);
    if s != "" && s[0] == ' ' then s[1..] else s
  }

  /** Without white space and dashes. */
  function Compact(raw: string): string {
    if raw == "" then ""
    else if IsSeparator(raw[0]) then Compact(raw[1..])
    else [raw[0]] + Compact(raw[1..])
  }

  // ------------------------------------------------------ the patterns

  datatype Grade = X | XI | XII

  function Numeral(g: Grade): string {
    match g case X => "X" case XI => "XI" case XII => "XII"
  }

  predicate StartsWith(s: string, prefix: string) {
    |prefix| <= |s| && s[..|prefix|] == prefix
  }

  predicate AllSeparators(s: string) {
    forall i | 0 <= i < |s| :: IsSeparator(s[i])
  }

  /** (X|XI|XII)[\s\-]*([A-F]) on the whole text, for one grade. */
  predicate IsSectionLabel(s: string, g: Grade) {
    var n := |Numeral(g)|;
    n < |s| && StartsWith(s, Numeral(g)) && AllSeparators(s[n..|s| - 1]) && IsSection(s[|s| - 1])
  }

  /** (X|XI|XII)(?:[\s\-].*)? on the whole text, for one grade. */
  predicate IsGradeLabel(s: string, g: Grade) {
    StartsWith(s, Numeral(g)) && (|s| == |Numeral(g)| || IsSeparator(s[|Numeral(g)|]))
  }

  /** \b between positions k - 1 and k. */
  predicate IsBoundary(s: string, k: nat)
    requires k <= |s|
  {
    (k > 0 && IsWord(s[k - 1])) != (k < |s| && IsWord(s[k]))
  }

  /** The first section letter at or after from that ends a word. */
  function FirstSection(s: string, from: nat): (r: Option<nat>)
    ensures r.Some? ==> from <= r.value < |s| && IsSection(s[r.value]) && IsBoundary(s, r.value + 1)
    ensures r.None? ==> forall j | from <= j < |s| :: !(IsSection(s[j]) && IsBoundary(s, j + 1))
    ensures r.Some? ==> forall j | from <= j < r.value :: !(IsSection(s[j]) && IsBoundary(s, j + 1))
    decreases |s| - from
  {
    if from >= |s| then None
    else if IsSection(s[from]) && IsBoundary(s, from + 1) then Some(from)
    else FirstSection(s, from + 1)
  }

  /** The search for (X|XI|XII).*?([A-F])\b from position i on: leftmost start,
      alternatives in the written order, shortest gap. */
  function SearchSection(s: string, i: nat): Option<(Grade, char)>
    decreases |s| - i
  {
    if i >= |s| then None
    else if StartsWith(s[i..], "X") && FirstSection(s, i + 1).Some? then Some((X, s[FirstSection(s, i + 1).value]))
    else if StartsWith(s[i..], "XI") && FirstSection(s, i + 2).Some? then Some((XI, s[FirstSection(s, i + 2).value]))
    else if StartsWith(s[i..], "XII") && FirstSection(s, i + 3).Some? then Some((XII, s[FirstSection(s, i + 3).value]))
    else SearchSection(s, i + 1)
  }

  predicate HasWord(s: string, word: string) {
    exists k | 0 <= k <= |s| - |word| :: s[k..k + |word|] == word && IsBoundary(s, k) && IsBoundary(s, k + |word|)
  }

  predicate NamesMajor(s: string) {
    HasWord(s, "IPA") || HasWord(s, "IPS") || HasWord(s, "IIS") || HasWord(s, "MIA")
  }

  // ------------------------------------------------------ normalize_class_name

  function Label(g: Grade, section: char): string {
    Numeral(g) + " " + [section]
  }

  /** ROSTER_SHEET_ALIASES. */
  function Alias(compact: string): Option<string> {
    if compact == "XA" then Some("X A") else if compact == "XB" then Some("X B")
    else if compact == "XC" then Some("X C") else if compact == "XD" then Some("X D")
    else if compact == "XE" then Some("X E") else if compact == "XF" then Some("X F")
    else if compact == "XIA" then Some("XI A") else if compact == "XIB" then Some("XI B")
    else if compact == "XIC" then Some("XI C") else if compact == "XID" then Some("XI D")
    else if compact == "XIE" then Some("XI E") else None
  }

  /** The grade of a text that carries one section letter, if it has that form. */
  function SectionGrade(s: string): (r: Option<Grade>)
    ensures r.Some? ==> IsSectionLabel(s, r.value)
    ensures r.None? ==> forall g :: !IsSectionLabel(s, g)
  {
    if IsSectionLabel(s, X) then Some(X)
    else if IsSectionLabel(s, XI) then Some(XI)
    else if IsSectionLabel(s, XII) then Some(XII)
    else None
  }

  function GradeOnly(s: string): (r: Option<Grade>)
    ensures r.Some? ==> IsGradeLabel(s, r.value)
    ensures r.None? ==> forall g :: !IsGradeLabel(s, g)
  {
    if IsGradeLabel(s, X) then Some(X)
    else if IsGradeLabel(s, XI) then Some(XI)
    else if IsGradeLabel(s, XII) then Some(XII)
    else None
  }

  /** The last pattern: a grade followed by anything. */
  function NormalizeMajor(raw: string, g: Grade): string {
    var section := SearchSection(raw, 0);
    if section.Some? && !NamesMajor(raw) then Label(section.value.0, section.value.1) else Numeral(g)
  }

  function NormalizeRaw(raw: string): Option<string> {
    var compact := Compact(raw);
    if Alias(compact).Some? then Alias(compact)
    else if SectionGrade(raw).Some? then Some(Label(SectionGrade(raw).value, raw[|raw| - 1]))
    else if SectionGrade(compact).Some? then Some(Label(SectionGrade(compact).value, compact[|compact| - 1]))
    else if GradeOnly(raw).Some? then Some(NormalizeMajor(raw, GradeOnly(raw).value))
    else None
  }

  function Text(value: Option<string>): string {
    if value.Some? then value.value else ""
  }

  function NormalizeClassName(value: Option<string>): Option<string> {
    var raw := Clean(Text(value));
    if raw == "" then None else NormalizeRaw(raw)
  }

  /** class_grade: the first word of the canonical form, else a bare prefix of
      the text. */
  function ClassGrade(value: Option<string>): Option<Grade> {
    match NormalizeClassName(value)
    case Some(canonical) => GradeOnly(canonical)
    case None =>
      var compact := Compact(Clean(Text(value)));
      if StartsWith(compact, "XII") then Some(XII)
      else if StartsWith(compact, "XI") then Some(XI)
      else if StartsWith(compact, "X") then Some(X)
      else None
  }

  predicate IsClassTwelve(value: Option<string>) {
    ClassGrade(value) == Some(XII)
  }

  predicate IsClassTenOrEleven(value: Option<string>) {
    ClassGrade(value) == Some(X) || ClassGrade(value) == Some(XI)
  }

  // ------------------------------------------------------ what it promises

  /** A grade alone, or a grade, one blank and a section letter. */
  ghost predicate Canonical(s: string) {
    (exists g :: s == Numeral(g)) || (exists g, c :: IsSection(c) && s == Label(g, c))
  }

  /** The search never reports the grade it found first: the alternative X is
      tried first and always matches where XI and XII would. */
  lemma {:induction false} SearchSaysX(s: string, i: nat)
    ensures SearchSection(s, i).Some? ==> SearchSection(s, i).value.0 == X && IsSection(SearchSection(s, i).value.1)
    decreases |s| - i
  {
    if i < |s| {
      SearchSaysX(s, i + 1);
      if StartsWith(s[i..], "XI") || StartsWith(s[i..], "XII") {
        assert StartsWith(s[i..], "X") by { assert s[i..][..1] == s[i..][..2][..1] == "X"; }
      }
    }
  }

  /** Every result is canonical. */
  lemma NormalizedIsCanonical(value: Option<string>)
    ensures NormalizeClassName(value).Some? ==> Canonical(NormalizeClassName(value).value)
  {
    var raw := Clean(Text(value));
    if raw != "" {
      var compact := Compact(raw);
      SearchSaysX(raw, 0);
      if Alias(compact).Some? {
        var r := Alias(compact).value;
        assert r == Label(X, r[|r| - 1]) || r == Label(XI, r[|r| - 1]);
      }
    }
  }

  /** Cleaning and compacting leave a canonical label recognisable. */
  lemma CanonicalIsClean(g: Grade, c: char)
    requires IsSection(c)
    ensures Clean(Numeral(g)) == Compact(Numeral(g)) == Numeral(g)
    ensures Clean(Label(g, c)) == Label(g, c)
    ensures Compact(Label(g, c)) == Numeral(g) + [c]
  {
    SqueezeLetters(Numeral(g), "");
    SqueezeLetters(Numeral(g), " " + [c]);
    assert Squeeze([c]) == [c] by { assert [c][1..] == ""; }
    assert (" " + [c])[1..] == [c];
    assert Numeral(g) + "" == Numeral(g);
    CompactLetters(Numeral(g), "");
    CompactLetters(Numeral(g), " " + [c]);
    assert Compact([c]) == [c] by { assert [c][1..] == ""; }
    assert Label(g, c) == Numeral(g) + (" " + [c]);
  }

  lemma {:induction false} SqueezeLetters(letters: string, rest: string)
    requires forall i | 0 <= i < |letters| :: 'A' <= letters[i] <= 'Z'
    ensures Squeeze(letters + rest) == letters + Squeeze(rest)
  {
    if letters == "" {
      assert letters + rest == rest;
    } else {
      SqueezeLetters(letters[1..], rest);
      assert (letters + rest)[1..] == letters[1..] + rest;
    }
  }

  lemma {:induction false} CompactLetters(letters: string, rest: string)
    requires forall i | 0 <= i < |letters| :: 'A' <= letters[i] <= 'Z'
    ensures Compact(letters + rest) == letters + Compact(rest)
  {
    if letters == "" {
      assert letters + rest == rest;
    } else {
      CompactLetters(letters[1..], rest);
      assert (letters + rest)[1..] == letters[1..] + rest;
    }
  }

  lemma GradeIsFixed(g: Grade)
    ensures NormalizeClassName(Some(Numeral(g))) == Some(Numeral(g))
    ensures GradeOnly(Numeral(g)) == Some(g)
  {
    CanonicalIsClean(g, 'A');
    var s := Numeral(g);
    assert !IsSection(s[|s| - 1]);
    assert FirstSection(s, 1).None?;
    NoSectionNoSearch(s, 0, 1);
    assert SearchSection(s, 0).None?;
    assert StartsWith("XI", "X") && StartsWith("XII", "X") && StartsWith("XII", "XI");
  }

  lemma LabelIsFixed(g: Grade, c: char)
    requires IsSection(c)
    ensures NormalizeClassName(Some(Label(g, c))) == Some(Label(g, c))
    ensures GradeOnly(Label(g, c)) == Some(g)
  {
    CanonicalIsClean(g, c);
    var s, n := Label(g, c), |Numeral(g)|;
    assert s[..n] == Numeral(g) && s[n] == ' ' && s[n..|s| - 1] == " " && s[n + 1] == c;
    assert IsSectionLabel(s, g) && IsGradeLabel(s, g);
    forall h | h != g ensures !IsSectionLabel(s, h) && !IsGradeLabel(s, h) {
      OneGrade(s, g, h);
    }
    AliasIsLabel(g, c);
  }

  /** The separator after the numeral decides the grade. */
  lemma OneGrade(s: string, g: Grade, h: Grade)
    requires g != h && StartsWith(s, Numeral(g)) && |s| > |Numeral(g)| && IsSeparator(s[|Numeral(g)|])
    ensures !IsGradeLabel(s, h) && !IsSectionLabel(s, h)
  {
    var n, m := |Numeral(g)|, |Numeral(h)|;
    assert forall i | 0 <= i < n :: s[i] == Numeral(g)[i];
    if StartsWith(s, Numeral(h)) {
      assert forall i | 0 <= i < m :: s[i] == Numeral(h)[i];
      assert m < n;
      assert s[m] == Numeral(g)[m] == 'I';
      assert |s| - 1 > m && s[m..|s| - 1][0] == s[m];
    }
  }

  lemma AliasIsLabel(g: Grade, c: char)
    ensures Alias(Numeral(g) + [c]).Some? ==> Alias(Numeral(g) + [c]) == Some(Label(g, c))
  {
    var s := Numeral(g) + [c];
    AliasSplits(s);
    assert s[..|s| - 1] == Numeral(g) && s[|s| - 1] == c;
  }

  lemma AliasSplits(s: string)
    ensures Alias(s).Some? ==> |s| > 0 && Alias(s).value == s[..|s| - 1] + " " + [s[|s| - 1]]
  {
  }

  /** Normalising twice is normalising once. */
  lemma NormalizeIsIdempotent(value: Option<string>)
    requires NormalizeClassName(value).Some?
    ensures NormalizeClassName(NormalizeClassName(value)) == NormalizeClassName(value)
  {
    NormalizedIsCanonical(value);
    CanonicalIsFixed(NormalizeClassName(value).value);
  }

  lemma CanonicalIsFixed(s: string)
    requires Canonical(s)
    ensures NormalizeClassName(Some(s)) == Some(s)
  {
    if g :| s == Numeral(g) {
      GradeIsFixed(g);
    } else {
      var g, c :| IsSection(c) && s == Label(g, c);
      LabelIsFixed(g, c);
    }
  }

  /** Upper case, without white space. */
  function Unspaced(s: string): string {
    if s == "" then ""
    else if IsSpace(s[0]) then Unspaced(s[1..])
    else [UpperChar(s[0])] + Unspaced(s[1..])
  }

  /** sheet_to_class_label: the class a worksheet of the roster stands for. */
  function SheetLabel(sheet: string): Option<string> {
    var compact := Unspaced(sheet);
    if StartsWith(compact, "XII") then None
    else if Alias(compact).Some? then Alias(compact)
    else NormalizeClassName(Some(sheet))
  }

  /** A class taken from a sheet name is a fixed point of normalize_class_name. */
  lemma SheetLabelIsFixed(sheet: string)
    requires SheetLabel(sheet).Some?
    ensures NormalizeClassName(SheetLabel(sheet)) == SheetLabel(sheet)
  {
    var compact := Unspaced(sheet);
    if Alias(compact).Some? {
      var r := Alias(compact).value;
      assert r == Label(X, r[|r| - 1]) || r == Label(XI, r[|r| - 1]);
      CanonicalIsFixed(r);
    } else {
      NormalizeIsIdempotent(Some(sheet));
    }
  }

  lemma {:induction false} NoSectionNoSearch(s: string, i: nat, from: nat)
    requires from <= i + 1 && FirstSection(s, from).None?
    ensures SearchSection(s, i).None?
    decreases |s| - i
  {
    if i < |s| {
      NoSectionNoSearch(s, i + 1, from);
    }
  }

  /** Separators leave nothing behind. */
  lemma {:induction false} CompactSeparators(gap: string, rest: string)
    requires AllSeparators(gap)
    ensures Compact(gap + rest) == Compact(rest)
  {
    if gap == "" {
      assert gap + rest == rest;
    } else {
      assert (gap + rest)[1..] == gap[1..] + rest;
      CompactSeparators(gap[1..], rest);
    }
  }

  lemma SectionParts(s: string, numeral: string)
    requires |numeral| < |s| && StartsWith(s, numeral)
    ensures s == numeral + (s[|numeral|..|s| - 1] + [s[|s| - 1]])
  {
  }

  lemma CompactLetter(c: char)
    requires IsSection(c)
    ensures Compact([c]) == [c]
  {
    assert [c][1..] == "";
  }

  /** The compact form of a text with one section letter. */
  lemma SectionCompact(s: string, g: Grade)
    requires IsSectionLabel(s, g)
    ensures Compact(s) == Numeral(g) + [s[|s| - 1]]
  {
    var gap, c := s[|Numeral(g)|..|s| - 1], s[|s| - 1];
    SectionParts(s, Numeral(g));
    CompactLetters(Numeral(g), gap + [c]);
    CompactSeparators(gap, [c]);
    CompactLetter(c);
  }

  /** A numeral and a section letter, with nothing in between, are read so. */
  lemma NumeralAndSection(g: Grade, c: char)
    requires IsSection(c)
    ensures SectionGrade(Numeral(g) + [c]) == Some(g)
  {
    var s, n := Numeral(g) + [c], |Numeral(g)|;
    assert s[..n] == Numeral(g) && s[n..|s| - 1] == "";
    forall h | h != g ensures !IsSectionLabel(s, h) {
      if IsSectionLabel(s, h) {
        SectionNumeral(s, g, h);
      }
    }
  }

  lemma GapSeparators(s: string, from: nat)
    requires from < |s| && AllSeparators(s[from..|s| - 1])
    ensures from < |s| - 1 ==> IsSeparator(s[from])
  {
    if from < |s| - 1 {
      assert s[from..|s| - 1][0] == s[from];
    }
  }

  lemma SectionNumeral(s: string, g: Grade, h: Grade)
    requires |s| == |Numeral(g)| + 1 && StartsWith(s, Numeral(g)) && IsSection(s[|s| - 1]) && IsSectionLabel(s, h)
    ensures h == g
  {
    var n, m := |Numeral(g)|, |Numeral(h)|;
    assert forall i | 0 <= i < n :: s[i] == Numeral(g)[i];
    assert forall i | 0 <= i < m :: s[i] == Numeral(h)[i];
    assert forall i | 1 <= i < n :: s[i] == 'I';
    GapSeparators(s, m);
  }

  /** The branches before the last one read the compact form as a section. */
  lemma SectionBranches(value: Option<string>, h: Grade)
    requires var raw := Clean(Text(value)); raw != "" && SectionGrade(Compact(raw)) == Some(h)
    ensures ClassGrade(value) == Some(h)
  {
    var raw := Clean(Text(value));
    var compact := Compact(raw);
    var c := compact[|compact| - 1];
    if Alias(compact).Some? {
      AliasSplits(compact);
      AliasNumeral(compact, h);
    } else if SectionGrade(raw).Some? {
      SectionCompact(raw, SectionGrade(raw).value);
      NumeralAndSection(SectionGrade(raw).value, raw[|raw| - 1]);
    }
    LabelIsFixed(h, c);
  }

  lemma AliasNumeral(compact: string, h: Grade)
    requires Alias(compact).Some? && SectionGrade(compact) == Some(h)
    ensures Alias(compact) == Some(Label(h, compact[|compact| - 1]))
  {
    var g, c := if |compact| == 2 then X else XI, compact[|compact| - 1];
    assert compact == Numeral(g) + [c];
    NumeralAndSection(g, c);
    AliasIsLabel(g, c);
  }

  lemma AliasIsSection(compact: string)
    ensures Alias(compact).Some? ==> SectionGrade(compact).Some?
  {
    if Alias(compact).Some? {
      AliasSplits(compact);
      var g := if |compact| == 2 then X else XI;
      assert compact == Numeral(g) + [compact[|compact| - 1]];
      NumeralAndSection(g, compact[|compact| - 1]);
    }
  }

  /** Whatever the alias table and the section pattern accept has a compact form
      of that kind. */
  lemma NoSectionBranch(raw: string)
    requires SectionGrade(Compact(raw)).None?
    ensures Alias(Compact(raw)).None? && SectionGrade(raw).None?
  {
    AliasIsSection(Compact(raw));
    if SectionGrade(raw).Some? {
      SectionCompact(raw, SectionGrade(raw).value);
      NumeralAndSection(SectionGrade(raw).value, raw[|raw| - 1]);
    }
  }

  /** The last branch keeps the grade when that is X, when the text names one of
      the four known majors, or when no word in it ends with a letter A to F. */
  lemma MajorBranch(value: Option<string>, g: Grade)
    requires var raw := Clean(Text(value)); SectionGrade(Compact(raw)).None? && GradeOnly(raw) == Some(g)
    ensures var raw := Clean(Text(value));
            ClassGrade(value) == Some(g) <==> g == X || NamesMajor(raw) || FirstSection(raw, 1).None?
  {
    var raw := Clean(Text(value));
    NoSectionBranch(raw);
    SearchSaysX(raw, 0);
    GradeIsFixed(g);
    if FirstSection(raw, 1).None? {
      NoSectionNoSearch(raw, 0, 1);
    } else {
      assert raw[0] == 'X' by { assert StartsWith(raw, Numeral(g)); assert raw[..|Numeral(g)|][0] == raw[0]; }
      assert raw[0..][..1] == "X";
      assert SearchSection(raw, 0).Some?;
      LabelIsFixed(X, SearchSection(raw, 0).value.1);
    }
  }

  /** Exactly when a label keeps the grade it starts with: if its compact form is
      a numeral and a section letter, when that numeral is the grade; otherwise
      when the grade is X, a known major is named, or no word ends with A to F. */
  lemma GradeKeptIff(value: Option<string>, g: Grade)
    requires GradeOnly(Clean(Text(value))) == Some(g)
    ensures var raw := Clean(Text(value));
            var section := SectionGrade(Compact(raw));
            ClassGrade(value) == Some(g)
            <==> if section.Some? then section.value == g else g == X || NamesMajor(raw) || FirstSection(raw, 1).None?
  {
    var raw := Clean(Text(value));
    if SectionGrade(Compact(raw)).Some? {
      SectionBranches(value, SectionGrade(Compact(raw)).value);
    } else {
      MajorBranch(value, g);
    }
  }

  lemma GluedIsClean(g: Grade)
    ensures Clean(Numeral(g) + " IA") == Numeral(g) + " IA" && Compact(Numeral(g) + " IA") == Numeral(g) + "IA"
  {
    assert Squeeze(" IA") == " IA" && Compact(" IA") == "IA" by {
      assert " IA"[1..] == "IA" && "IA"[1..] == "A" && "A"[1..] == "";
    }
    SqueezeLetters(Numeral(g), " IA");
    CompactLetters(Numeral(g), " IA");
  }

  lemma GluedIsGrade(g: Grade)
    ensures GradeOnly(Numeral(g) + " IA") == Some(g) && SectionGrade(Numeral(g) + " IA").None?
  {
    var s, n := Numeral(g) + " IA", |Numeral(g)|;
    assert s[..n] == Numeral(g) && s[n] == ' ' && s[n..|s| - 1][1] == 'I';
    forall k | k != g ensures !IsGradeLabel(s, k) && !IsSectionLabel(s, k) {
      OneGrade(s, g, k);
    }
  }

  /** Compacting can glue the numeral to the next word: "X IA" of class ten reads
      as "XI A", and "XI IA" of class eleven as "XII A". */
  lemma NumeralGlued(g: Grade, h: Grade)
    requires g != XII && Numeral(h) == Numeral(g) + "I"
    ensures var value := Some(Numeral(g) + " IA");
            && GradeOnly(Clean(Text(value))) == Some(g)
            && NormalizeClassName(value) == Some(Label(h, 'A')) && ClassGrade(value) == Some(h)
  {
    var s := Numeral(g) + " IA";
    GluedIsClean(g);
    GluedIsGrade(g);
    assert Compact(s) == Numeral(h) + ['A'];
    NumeralAndSection(h, 'A');
    AliasIsLabel(h, 'A');
    LabelIsFixed(h, 'A');
  }

  /** So a class-eleven student of "XI IA" counts as class twelve. */
  lemma ElevenTakenForTwelve()
    ensures GradeOnly(Clean("XI" + " IA")) == Some(XI) && IsClassTwelve(Some("XI" + " IA"))
    ensures GradeOnly(Clean("X" + " IA")) == Some(X) && ClassGrade(Some("X" + " IA")) == Some(XI)
  {
    NumeralGlued(XI, XII);
    NumeralGlued(X, XI);
  }

  /** So a class-twelve student of "XII 2B" counts as class ten. */
  lemma TwelveTakenForTen()
    ensures var value := Some("XII" + " 2B");
            NormalizeClassName(value) == Some(Label(X, 'B')) && !IsClassTwelve(value) && IsClassTenOrEleven(value)
  {
    var s := "XII" + " 2B";
    Class2BIsClean();
    Class2BIsMajor(s);
    LabelIsFixed(X, 'B');
    assert NormalizeRaw(s) == Some(NormalizeMajor(s, XII));
  }

  lemma NoWord(s: string, word: string)
    requires |word| == 3 && forall j | 2 <= j < |s| :: s[j] != word[2]
    ensures !HasWord(s, word)
  {
    if k :| 0 <= k <= |s| - |word| && s[k..k + |word|] == word && IsBoundary(s, k) && IsBoundary(s, k + |word|) {
      assert false;
    }
  }

  lemma Class2BIsMajor(s: string)
    requires |s| == 6 && s[..3] == "XII" && s[3] == ' ' && s[4] == '2' && s[5] == 'B'
    ensures SectionGrade(s).None? && GradeOnly(s) == Some(XII) && !NamesMajor(s)
    ensures SearchSection(s, 0) == Some((X, 'B'))
  {
    assert StartsWith(s, "XII") && IsGradeLabel(s, XII);
    OneGrade(s, XII, X);
    OneGrade(s, XII, XI);
    assert s[3..5][1] == '2';
    assert s[0] == 'X' && s[1] == 'I' && s[2] == 'I' by {
      assert s[..3][0] == 'X' && s[..3][1] == 'I' && s[..3][2] == 'I';
    }
    NoWord(s, "IPA");
    NoWord(s, "IPS");
    NoWord(s, "IIS");
    NoWord(s, "MIA");
    assert FirstSection(s, 4) == Some(5);
    assert FirstSection(s, 1) == FirstSection(s, 2) == FirstSection(s, 3) == FirstSection(s, 4);
    assert s[0..][..1] == s[..3][..1] == "X";
  }

  lemma Class2BIsClean()
    ensures Clean("XII" + " 2B") == "XII" + " 2B"
    ensures Alias(Compact("XII" + " 2B")).None? && SectionGrade(Compact("XII" + " 2B")).None?
  {
    assert Squeeze(" 2B") == " 2B" && Compact(" 2B") == "2B" by {
      assert " 2B"[1..] == "2B" && "2B"[1..] == "B" && "B"[1..] == "";
    }
    SqueezeLetters("XII", " 2B");
    CompactLetters("XII", " 2B");
    TwoGapsNoSection("XII" + "2B");
  }

  lemma TwoGapsNoSection(s: string)
    requires |s| == 5 && s[0] == 'X' && s[1] == 'I' && s[2] == 'I' && s[3] == '2'
    ensures Alias(s).None? && SectionGrade(s).None?
  {
    forall g ensures !IsSectionLabel(s, g) {
      assert s[|Numeral(g)|..|s| - 1][|s| - 2 - |Numeral(g)|] == s[3];
    }
  }

  // ------------------------------------------------------ labels, letter by letter

  lemma {:induction false} CompactHasNoGaps(s: string)
    ensures forall i | 0 <= i < |Compact(s)| :: !IsSeparator(Compact(s)[i])
  {
    if s != "" {
      CompactHasNoGaps(s[1..]);
    }
  }

  /** A compact text is a section label only as a numeral and one letter. */
  lemma CompactSection(s: string, h: Grade)
    requires IsSectionLabel(s, h) && forall i | 0 <= i < |s| :: !IsSeparator(s[i])
    ensures s == Numeral(h) + [s[|s| - 1]]
  {
    var n := |Numeral(h)|;
    GapSeparators(s, n);
    assert s[..n] == Numeral(h) && s == s[..n] + s[n..];
  }

  /** The four majors, letter by letter. */
  predicate IsMajor(word: string) {
    |word| == 3 && (|| (word[0] == 'I' && word[1] == 'P' && (word[2] == 'A' || word[2] == 'S'))
                    || (word[0] == 'I' && word[1] == 'I' && word[2] == 'S')
                    || (word[0] == 'M' && word[1] == 'I' && word[2] == 'A'))
  }

  /** Text that does not go on with a letter, a digit or an underscore. */
  predicate EndsWord(rest: string) {
    rest == "" || !('A' <= rest[0] <= 'Z' || 'a' <= rest[0] <= 'z' || '0' <= rest[0] <= '9' || rest[0] == '_')
  }

  lemma MajorChars(g: Grade, word: string, rest: string)
    requires |word| == 3
    ensures var s, n := Numeral(g) + " " + word + rest, |Numeral(g)|;
            && |s| == n + 4 + |rest| && s[..n] == Numeral(g) && s[n] == ' '
            && s[n + 1..n + 4] == word && s[n + 1] == word[0] && s[n + 3] == word[2]
            && (rest != "" ==> s[n + 4] == rest[0])
  {
  }

  lemma MajorNamed(g: Grade, word: string, rest: string)
    requires IsMajor(word) && EndsWord(rest)
    ensures NamesMajor(Numeral(g) + " " + word + rest)
  {
    var s, k := Numeral(g) + " " + word + rest, |Numeral(g)| + 1;
    MajorChars(g, word, rest);
    assert s[k..k + 3] == word && IsBoundary(s, k) && IsBoundary(s, k + 3);
    assert word == "IPA" || word == "IPS" || word == "IIS" || word == "MIA";
    assert HasWord(s, word);
  }

  lemma MajorNoSection(g: Grade, word: string, rest: string)
    requires IsMajor(word)
    ensures SectionGrade(Compact(Numeral(g) + " " + word + rest)).None?
  {
    var s := Numeral(g) + " " + word + rest;
    var compact := Compact(s);
    assert s == Numeral(g) + (" " + (word + rest));
    CompactLetters(Numeral(g), " " + (word + rest));
    CompactSeparators(" ", word + rest);
    CompactLetters(word, rest);
    assert compact == Numeral(g) + (word + Compact(rest));
    CompactHasNoGaps(s);
    forall h ensures !IsSectionLabel(compact, h) {
      if IsSectionLabel(compact, h) {
        CompactSection(compact, h);
        NotASection(g, h, word, Compact(rest), compact);
      }
    }
  }

  lemma NotASection(g: Grade, h: Grade, word: string, rest: string, compact: string)
    requires IsMajor(word) && compact == Numeral(g) + (word + rest)
    ensures !(compact == Numeral(h) + [compact[|compact| - 1]] && IsSection(compact[|compact| - 1]))
  {
    var n := |Numeral(g)|;
    assert compact[n] == word[0] && compact[n + 1] == word[1] && compact[n + 2] == word[2];
  }

  /** A label with one of the four majors, such as "XII IPA 1", is its grade. */
  lemma MajorIsGrade(g: Grade, word: string, rest: string)
    requires IsMajor(word) && EndsWord(rest)
    requires Clean(Numeral(g) + " " + word + rest) == Numeral(g) + " " + word + rest
    ensures var value := Some(Numeral(g) + " " + word + rest);
            NormalizeClassName(value) == Some(Numeral(g)) && ClassGrade(value) == Some(g)
  {
    var s := Numeral(g) + " " + word + rest;
    MajorNoSection(g, word, rest);
    NoSectionBranch(s);
    MajorChars(g, word, rest);
    assert IsGradeLabel(s, g);
    forall h | h != g ensures !IsGradeLabel(s, h) {
      OneGrade(s, g, h);
    }
    MajorNamed(g, word, rest);
    GradeIsFixed(g);
  }

  /** A grade, any blanks and dashes, and a letter from A to F are read so. */
  lemma SectionIsRead(g: Grade, gap: string, c: char)
    requires 'A' <= c <= 'F' && forall i | 0 <= i < |gap| :: gap[i] == ' ' || gap[i] == '-'
    requires Clean(Numeral(g) + gap + [c]) == Numeral(g) + gap + [c]
    ensures NormalizeClassName(Some(Numeral(g) + gap + [c])) == Some(Numeral(g) + " " + [c])
    ensures var value := Some(Numeral(g) + gap + [c]);
            && ClassGrade(value) == Some(g)
            && (IsClassTwelve(value) <==> g == XII) && (IsClassTenOrEleven(value) <==> g == X || g == XI)
  {
    var s := Numeral(g) + gap + [c];
    var n := |Numeral(g)|;
    assert s[..n] == Numeral(g) && s[n..|s| - 1] == gap;
    assert IsSectionLabel(s, g);
    SectionCompact(s, g);
    AliasIsLabel(g, c);
    NumeralAndSection(g, c);
    if SectionGrade(s).Some? {
      SectionCompact(s, SectionGrade(s).value);
      NumeralAndSection(SectionGrade(s).value, c);
    }
    LabelIsFixed(g, c);
  }

  /** Another letter is no section: only the grade is kept. */
  lemma OtherLetterIsNot(g: Grade, c: char)
    requires 'G' <= c <= 'Z'
    ensures NormalizeClassName(Some(Numeral(g) + " " + [c])) == Some(Numeral(g))
  {
    var s, n := Numeral(g) + " " + [c], |Numeral(g)|;
    LetterIsClean(g, c);
    assert s[..n] == Numeral(g) && s[n] == ' ' && s[n + 1] == c && |s| == n + 2;
    forall h | h != g ensures !IsGradeLabel(s, h) {
      OneGrade(s, g, h);
    }
    assert IsGradeLabel(s, g);
    LastNoSection(Compact(s));
    NoSectionBranch(s);
    NowhereASection(s);
    NoSectionNoSearch(s, 0, 1);
  }

  lemma LastNoSection(s: string)
    requires s != "" && !IsSection(s[|s| - 1])
    ensures SectionGrade(s).None?
  {
  }

  lemma NowhereASection(s: string)
    requires forall i | 0 <= i < |s| :: !IsSection(s[i])
    ensures FirstSection(s, 1).None?
  {
  }

  lemma LetterIsClean(g: Grade, c: char)
    requires 'A' <= c <= 'Z'
    ensures Clean(Numeral(g) + " " + [c]) == Numeral(g) + " " + [c]
    ensures Compact(Numeral(g) + " " + [c]) == Numeral(g) + [c]
  {
    assert Squeeze([c]) == [c] && Compact([c]) == [c] by { assert [c][1..] == ""; }
    assert (" " + [c])[1..] == [c];
    SqueezeLetters(Numeral(g), " " + [c]);
    CompactLetters(Numeral(g), " " + [c]);
    assert Numeral(g) + " " + [c] == Numeral(g) + (" " + [c]);
  }

  /** Without a canonical form the grade is the longest numeral the compact text
      starts with. */
  lemma FallbackGrade(value: Option<string>)
    requires NormalizeClassName(value).None?
    ensures var compact := Compact(Clean(Text(value)));
            && (ClassGrade(value) == Some(XII) <==> |compact| >= 3 && compact[..3] == "XII")
            && (ClassGrade(value) == Some(XI)
                <==> |compact| >= 2 && compact[..2] == "XI" && !(|compact| >= 3 && compact[..3] == "XII"))
            && (ClassGrade(value) == Some(X)
                <==> |compact| >= 1 && compact[0] == 'X' && !(|compact| >= 2 && compact[..2] == "XI"))
  {
    var compact := Compact(Clean(Text(value)));
    if |compact| >= 1 {
      assert compact[..1] == [compact[0]];
    }
    if |compact| >= 2 {
      assert compact[..2][0] == compact[0] && compact[..2][1] == compact[1];
    }
    if |compact| >= 3 {
      assert compact[..3][0] == compact[0] && compact[..3][1] == compact[1];
      assert compact[..3][..2] == compact[..2];
    }
  }

  /** What cleaning does: the letters of the text, in upper case and order, with
      no blank at either end, no two in a row, and no other white space. */
  lemma {:induction false} SqueezeShape(s: string)
    ensures forall i | 0 <= i < |Squeeze(s)| ::
              var c := Squeeze(s)[i];
              !('a' <= c <= 'z') && c != '\t' && c != '\n' && c != '\r' && c != '\U{2013}' && c != '\U{2014}'
    ensures forall i | 0 <= i < |Squeeze(s)| - 1 :: !(Squeeze(s)[i] == ' ' && Squeeze(s)[i + 1] == ' ')
    ensures Squeeze(s) != "" ==> Squeeze(s)[|Squeeze(s)| - 1] != ' '
  {
    if s != "" {
      SqueezeShape(s[1..]);
    }
  }

  lemma CleanShape(s: string)
    ensures forall i | 0 <= i < |Clean(s)| ::
              var c := Clean(s)[i];
              !('a' <= c <= 'z') && c != '\t' && c != '\n' && c != '\r' && c != '\U{2013}' && c != '\U{2014}'
    ensures forall i | 0 <= i < |Clean(s)| - 1 :: !(Clean(s)[i] == ' ' && Clean(s)[i + 1] == ' ')
    ensures Clean(s) != "" ==> Clean(s)[0] != ' ' && Clean(s)[|Clean(s)| - 1] != ' '
  {
    SqueezeShape(s);
  }

  /** The text without blanks, in upper case, dashes as '-'. */
  function Letters(s: string): string {
    if s == "" then ""
    else if s[0] == ' ' || s[0] == '\t' || s[0] == '\n' || s[0] == '\r' then Letters(s[1..])
    else if s[0] == '\U{2013}' || s[0] == '\U{2014}' then ['-'] + Letters(s[1..])
    else if 'a' <= s[0] <= 'z' then [(s[0] as int - 32) as char] + Letters(s[1..])
    else [s[0]] + Letters(s[1..])
  }

  lemma {:induction false} SqueezeKeepsLetters(s: string)
    ensures Letters(Squeeze(s)) == Letters(s)
  {
    if s != "" {
      SqueezeKeepsLetters(s[1..]);
      var rest, t := Squeeze(s[1..]), Squeeze(s);
      if IsSpace(s[0]) {
        assert t == rest || (t == " " + rest && t[1..] == rest);
      } else {
        assert t[1..] == rest;
      }
    }
  }

  lemma CleanKeepsLetters(s: string)
    ensures Letters(Clean(s)) == Letters(s)
  {
    SqueezeKeepsLetters(s);
  }

  /** A major must be a word of its own: "XII MIPA 1" reads as "X A". */
  lemma LongerMajorIsNot()
    ensures NormalizeClassName(Some("XII" + " MIPA 1")) == Some(Label(X, 'A'))
  {
    MipaIsClean();
    MipaIsMajor("XII" + " MIPA 1");
    LabelIsFixed(X, 'A');
  }

  lemma MipaIsMajor(s: string)
    requires |s| == 10 && s[..3] == "XII" && s[3] == ' ' && s[4] == 'M' && s[5] == 'I' && s[6] == 'P'
    requires s[7] == 'A' && s[8] == ' ' && s[9] == '1'
    ensures SectionGrade(s).None? && GradeOnly(s) == Some(XII) && !NamesMajor(s)
    ensures SearchSection(s, 0) == Some((X, 'A'))
  {
    assert StartsWith(s, "XII") && IsGradeLabel(s, XII);
    OneGrade(s, XII, X);
    OneGrade(s, XII, XI);
    assert s[3..9][1] == 'M';
    assert s[0] == 'X' && s[1] == 'I' && s[2] == 'I' by {
      assert s[..3][0] == 'X' && s[..3][1] == 'I' && s[..3][2] == 'I';
    }
    NoWord(s, "IPS");
    NoWord(s, "IIS");
    MipaNoWord(s);
    assert FirstSection(s, 7) == Some(7);
    assert FirstSection(s, 4) == FirstSection(s, 5) == FirstSection(s, 6) == FirstSection(s, 7);
    assert FirstSection(s, 1) == FirstSection(s, 2) == FirstSection(s, 3) == FirstSection(s, 4);
    assert s[0..][..1] == s[..3][..1] == "X";
  }

  lemma MipaNoWord(s: string)
    requires |s| == 10 && s[..3] == "XII" && s[3] == ' ' && s[4] == 'M' && s[5] == 'I' && s[6] == 'P'
    requires s[7] == 'A' && s[8] == ' ' && s[9] == '1'
    ensures !HasWord(s, "IPA") && !HasWord(s, "MIA")
  {
    assert s[0] == 'X' && s[1] == 'I' && s[2] == 'I' by {
      assert s[..3][0] == 'X' && s[..3][1] == 'I' && s[..3][2] == 'I';
    }
    forall k | 0 <= k <= |s| - 3 && (s[k..k + 3] == "IPA" || s[k..k + 3] == "MIA") ensures !IsBoundary(s, k) {
      assert s[k + 2] == s[k..k + 3][2] == 'A';
    }
  }

  lemma MipaIsClean()
    ensures Clean("XII" + " MIPA 1") == "XII" + " MIPA 1"
    ensures Alias(Compact("XII" + " MIPA 1")).None? && SectionGrade(Compact("XII" + " MIPA 1")).None?
  {
    MipaTail();
    SqueezeLetters("XII", " MIPA 1");
    CompactLetters("XII", " MIPA 1");
    assert Compact("XII" + " MIPA 1") == "XII" + "MIPA1";
    NumberNoSection("XII" + "MIPA1");
  }

  lemma OneTail()
    ensures Squeeze(" 1") == " 1" && Compact(" 1") == "1"
  {
    assert " 1"[1..] == "1" && "1"[1..] == "";
  }

  lemma MipaSqueezed(s: string)
    requires s != "" && s[0] == ' ' && s[1..] == "MIPA" + " 1"
    ensures Squeeze(s) == s
  {
    OneTail();
    SqueezeLetters("MIPA", " 1");
    assert s == " " + s[1..];
  }

  lemma MipaCompacted(s: string)
    requires s != "" && s[0] == ' ' && s[1..] == "MIPA" + " 1"
    ensures Compact(s) == "MIPA" + "1"
  {
    OneTail();
    CompactLetters("MIPA", " 1");
  }

  lemma MipaTail()
    ensures Squeeze(" MIPA 1") == " MIPA 1" && Compact(" MIPA 1") == "MIPA1"
  {
    assert " MIPA 1"[1..] == "MIPA" + " 1";
    MipaSqueezed(" MIPA 1");
    MipaCompacted(" MIPA 1");
  }

  lemma NumberNoSection(s: string)
    requires |s| == 8 && s[7] == '1'
    ensures Alias(s).None? && SectionGrade(s).None?
  {
  }

  lemma UnspacedUpper(s: string)
    requires s != "" && 'A' <= s[0] <= 'Z'
    ensures Unspaced(s) == [s[0]] + Unspaced(s[1..])
  {
  }

  lemma RegroupFirst(a: string, b: string)
    requires a != ""
    ensures [a[0]] + (a[1..] + b) == a + b
  {
    assert a == [a[0]] + a[1..];
  }

  lemma {:induction false} UnspacedLetters(letters: string, rest: string)
    requires forall i | 0 <= i < |letters| :: 'A' <= letters[i] <= 'Z'
    ensures Unspaced(letters + rest) == letters + Unspaced(rest)
  {
    if letters == "" {
      assert letters + rest == rest;
    } else {
      var s := letters + rest;
      assert s[0] == letters[0] && s[1..] == letters[1..] + rest;
      UnspacedUpper(s);
      UnspacedLetters(letters[1..], rest);
      RegroupFirst(letters, Unspaced(rest));
    }
  }

  /** Sheets of grades X and XI stand for their class, those of XII for none. */
  lemma SheetIsRead(g: Grade, c: char)
    requires 'A' <= c <= 'F'
    ensures SheetLabel(Numeral(g) + " " + [c]) == if g == XII then None else Some(Numeral(g) + " " + [c])
  {
    var sheet := Numeral(g) + " " + [c];
    assert sheet == Numeral(g) + (" " + [c]) && (" " + [c])[1..] == [c] && [c][1..] == "";
    UnspacedLetters(Numeral(g), " " + [c]);
    assert Unspaced([c]) == [c];
    var compact := Numeral(g) + [c];
    assert Unspaced(sheet) == compact;
    LabelIsFixed(g, c);
    AliasIsLabel(g, c);
    assert g == XII ==> compact[..3] == "XII";
    assert g != XII && |compact| >= 3 ==> compact[2] == c;
    assert |compact| >= 3 ==> compact[..3][2] == compact[2];
  }
}
