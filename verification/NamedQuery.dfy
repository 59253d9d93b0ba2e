/** execute_named: SQL text with :name parameters rewritten to numbered ones.
    Statements and values are text; a query means its text with every parameter
    replaced by its value. */
module NamedQuery {
  import opened Common
  import opened Decimals

  // ------------------------------------------------------ the pattern

  predicate IsNameStart(c: char) {
    'a' <= c <= 'z' || 'A' <= c <= 'Z' || c == '_'
  }

  predicate IsNameChar(c: char) {
    IsNameStart(c) || IsDigit(c)
  }

  /** The length of the longest run of name characters at the front. */
  function NameRun(s: string): (n: nat)
    ensures n <= |s| && (forall i | 0 <= i < n :: IsNameChar(s[i])) && (n < |s| ==> !IsNameChar(s[n]))
  {
    if s != "" && IsNameChar(s[0]) then 1 + NameRun(s[1..]) else 0
  }

  /** The pattern :([a-zA-Z_][a-zA-Z0-9_]*) matches at the front. */
  predicate ParamAt(s: string) {
    |s| > 1 && s[0] == ':' && IsNameStart(s[1])
  }

  function NameAt(s: string): (name: string)
    requires ParamAt(s)
    ensures 0 < |name| < |s|
  {
    s[1..1 + NameRun(s[1..])]
  }

  function AfterParam(s: string): string
    requires ParamAt(s)
  {
    s[1 + |NameAt(s)|..]
  }

  // ------------------------------------------------------ names and numbers

  function AddName(names: seq<string>, name: string): seq<string> {
    if name in names then names else names + [name]
  }

  /** The names met from here on, in order of first occurrence. */
  function NamesFrom(s: string, names: seq<string>): seq<string>
    decreases |s|
  {
    if s == "" then names
    else if ParamAt(s) then NamesFrom(AfterParam(s), AddName(names, NameAt(s)))
    else NamesFrom(s[1..], names)
  }

  /** names.index(name) */
  function IndexOf(names: seq<string>, name: string): (i: nat)
    requires name in names
    ensures i < |names| && names[i] == name && forall j | 0 <= j < i :: names[j] != name
  {
    if names[0] == name then 0 else 1 + IndexOf(names[1..], name)
  }

  /** The final list extends the current one, without repetition. */
  lemma {:induction false} NamesExtend(s: string, names: seq<string>)
    ensures names <= NamesFrom(s, names)
    ensures Distinct(names) ==> Distinct(NamesFrom(s, names))
    decreases |s|
  {
    if s != "" {
      if ParamAt(s) {
        NamesExtend(AfterParam(s), AddName(names, NameAt(s)));
      } else {
        NamesExtend(s[1..], names);
      }
    }
  }

  lemma IndexStable(names: seq<string>, more: seq<string>, name: string)
    requires name in names && names <= more
    ensures name in more && IndexOf(more, name) == IndexOf(names, name)
  {
    assert more[IndexOf(names, name)] == name;
  }

  /** The text with each :name replaced by $k, k its place in names. */
  function Converted(s: string, names: seq<string>): string
    decreases |s|
  {
    if s == "" then ""
    else if ParamAt(s) && NameAt(s) in names then
      "$" + Decimal(IndexOf(names, NameAt(s)) + 1) + Converted(AfterParam(s), names)
    else [s[0]] + Converted(s[1..], names)
  }

  // ------------------------------------------------------ execute_named

  datatype Call = Call(sql: string, values: seq<string>)
  datatype KeyError = KeyError(name: string)

  function ValuesOf(names: seq<string>, params: map<string, string>): seq<string>
    requires forall i | 0 <= i < |names| :: names[i] in params
  {
    seq(|names|, i requires 0 <= i < |names| => params[names[i]])
  }

  /** The replacer: what a match turns into, and the names seen so far. */
  method Replacer(name: string, names: seq<string>) returns (text: string, seen: seq<string>)
    ensures seen == AddName(names, name) && text == "$" + Decimal(IndexOf(seen, name) + 1)
  {
    seen := names;
    if name !in seen {
      seen := seen + [name];
    }
    text := "$" + Decimal(IndexOf(seen, name) + 1);
  }

  lemma ConvertParam(s: string, names: seq<string>)
    requires ParamAt(s)
    ensures var all, seen, name := NamesFrom(s, names), AddName(names, NameAt(s)), NameAt(s);
            && all == NamesFrom(AfterParam(s), seen)
            && Converted(s, all) == "$" + Decimal(IndexOf(seen, name) + 1) + Converted(AfterParam(s), all)
  {
    var seen := AddName(names, NameAt(s));
    NamesExtend(AfterParam(s), seen);
    IndexStable(seen, NamesFrom(s, names), NameAt(s));
  }

  lemma ConvertLiteral(s: string, names: seq<string>, all: seq<string>)
    requires s != "" && !ParamAt(s)
    ensures NamesFrom(s, names) == NamesFrom(s[1..], names) && Converted(s, all) == [s[0]] + Converted(s[1..], all)
  {
  }

  /** The substitution loop: names grows while the text is rewritten, yet every
      number is the name's place in the final list. */
  method Convert(sql: string) returns (converted: string, names: seq<string>)
    ensures names == NamesFrom(sql, []) && Distinct(names)
    ensures converted == Converted(sql, names)
  {
    converted, names := "", [];
    var rest := sql;
    ghost var all := NamesFrom(sql, []);
    NamesExtend(sql, []);
    while rest != ""
      invariant all == NamesFrom(rest, names)
      invariant converted + Converted(rest, all) == Converted(sql, all)
      decreases |rest|
    {
      if ParamAt(rest) {
        ConvertParam(rest, names);
        var text;
        text, names := Replacer(NameAt(rest), names);
        Regroup(converted, text, Converted(AfterParam(rest), all));
        converted := converted + text;
        rest := AfterParam(rest);
      } else {
        ConvertLiteral(rest, names, all);
        Regroup(converted, [rest[0]], Converted(rest[1..], all));
        converted := converted + [rest[0]];
        rest := rest[1..];
      }
    }
  }

  /** execute_named, up to the driver: the rewritten text and its arguments, or
      the KeyError of a name that was not given. */
  method ExecuteNamed(sql: string, params: map<string, string>) returns (r: Result<Call, KeyError>)
    ensures r.Ok? <==> forall i | 0 <= i < |NamesFrom(sql, [])| :: NamesFrom(sql, [])[i] in params
    ensures r.Ok? ==> r.value == Call(Converted(sql, NamesFrom(sql, [])), ValuesOf(NamesFrom(sql, []), params))
    ensures r.Err? ==> r.error.name in NamesFrom(sql, []) && r.error.name !in params
  {
    var converted, names := Convert(sql);
    var values := [];
    for i := 0 to |names|
      invariant forall j | 0 <= j < i :: names[j] in params
      invariant |values| == i && forall j | 0 <= j < i :: values[j] == params[names[j]]
    {
      if names[i] !in params {
        return Err(KeyError(names[i]));
      }
      values := values + [params[names[i]]];
    }
    assert values == ValuesOf(names, params);
    r := Ok(Call(converted, values));
  }

  // ------------------------------------------------------ what a query means

  /** The text with every :name replaced by its value. */
  function MeaningNamed(s: string, params: map<string, string>): Option<string>
    decreases |s|
  {
    if s == "" then Some("")
    else if ParamAt(s) then
      var rest := MeaningNamed(AfterParam(s), params);
      if NameAt(s) in params && rest.Some? then Some(params[NameAt(s)] + rest.value) else None
    else
      var rest := MeaningNamed(s[1..], params);
      if rest.Some? then Some([s[0]] + rest.value) else None
  }

  function DigitRun(s: string): (n: nat)
    ensures n <= |s| && (forall i | 0 <= i < n :: IsDigit(s[i])) && (n < |s| ==> !IsDigit(s[n]))
  {
    if s != "" && IsDigit(s[0]) then 1 + DigitRun(s[1..]) else 0
  }

  predicate NumberAt(s: string) {
    |s| > 1 && s[0] == '$' && IsDigit(s[1])
  }

  /** The text with every $n replaced by the n-th value; None when there is no
      n-th value. */
  function MeaningNumbered(s: string, values: seq<string>): Option<string>
    decreases |s|
  {
    if s == "" then Some("")
    else if NumberAt(s) then
      var n := DigitRun(s[1..]);
      var k := Value(s[1..][..n]);
      var rest := MeaningNumbered(s[1..][n..], values);
      if 1 <= k <= |values| && rest.Some? then Some(values[k - 1] + rest.value) else None
    else
      var rest := MeaningNumbered(s[1..], values);
      if rest.Some? then Some([s[0]] + rest.value) else None
  }

  /** The text itself holds a dollar sign followed by a digit. */
  predicate HasNumber(s: string) {
    exists i | 0 <= i < |s| :: NumberAt(s[i..])
  }

  lemma HasNumberTail(s: string, k: nat)
    requires k <= |s|
    ensures HasNumber(s[k..]) ==> HasNumber(s)
    ensures HasNumber(s) && !HasNumber(s[k..]) ==> exists i | 0 <= i < k :: NumberAt(s[i..])
  {
    forall i | 0 <= i < |s[k..]| ensures s[k..][i..] == s[k + i..] {}
    forall i | k <= i < |s| && NumberAt(s[i..]) ensures HasNumber(s[k..]) {
      assert NumberAt(s[k..][i - k..]);
    }
  }

  /** Every name met from here on is in names. */
  predicate AllNamed(s: string, names: seq<string>)
    decreases |s|
  {
    s == "" || (if ParamAt(s) then NameAt(s) in names && AllNamed(AfterParam(s), names) else AllNamed(s[1..], names))
  }

  lemma {:induction false} AllNamedMore(s: string, names: seq<string>)
    ensures AllNamed(s, NamesFrom(s, names))
    decreases |s|
  {
    if s != "" {
      if ParamAt(s) {
        AllNamedMore(AfterParam(s), AddName(names, NameAt(s)));
        NamesExtend(AfterParam(s), AddName(names, NameAt(s)));
        IndexStable(AddName(names, NameAt(s)), NamesFrom(s, names), NameAt(s));
      } else {
        AllNamedMore(s[1..], names);
      }
    }
  }

  lemma SplitDigits(d: string, rest: string)
    ensures ("$" + (d + rest))[1..] == d + rest && (d + rest)[..|d|] == d && (d + rest)[|d|..] == rest
    ensures d != "" ==> ("$" + (d + rest))[1] == d[0]
  {
  }

  /** Digits after a dollar sign are read whole when no digit follows them. */
  lemma ReadDigits(d: string, rest: string, values: seq<string>)
    requires d != "" && (forall i | 0 <= i < |d| :: IsDigit(d[i])) && (rest == "" || !IsDigit(rest[0]))
    ensures var k, m := Value(d), MeaningNumbered(rest, values);
            MeaningNumbered("$" + (d + rest), values)
            == if 1 <= k <= |values| && m.Some? then Some(values[k - 1] + m.value) else None
  {
    SplitDigits(d, rest);
    RunOfDigits(d, rest);
    NumberUnfold("$" + (d + rest), d + rest, d, rest, values);
  }

  lemma NumberUnfold(s: string, t: string, d: string, rest: string, values: seq<string>)
    requires NumberAt(s) && t == s[1..] && d == t[..DigitRun(t)] && rest == t[DigitRun(t)..]
    ensures var k, m := Value(d), MeaningNumbered(rest, values);
            MeaningNumbered(s, values) == if 1 <= k <= |values| && m.Some? then Some(values[k - 1] + m.value) else None
  {
  }

  lemma ReadNumber(k: nat, rest: string, values: seq<string>)
    requires rest == "" || !IsDigit(rest[0])
    ensures var m := MeaningNumbered(rest, values);
            MeaningNumbered("$" + Decimal(k) + rest, values)
            == if 1 <= k <= |values| && m.Some? then Some(values[k - 1] + m.value) else None
  {
    ReadDigits(Decimal(k), rest, values);
    ValueOfDecimal(k);
    assert "$" + Decimal(k) + rest == "$" + (Decimal(k) + rest);
  }

  lemma {:induction false} RunOfDigits(d: string, rest: string)
    requires (forall i | 0 <= i < |d| :: IsDigit(d[i])) && (rest == "" || !IsDigit(rest[0]))
    ensures DigitRun(d + rest) == |d|
  {
    if d == "" {
      assert d + rest == rest;
    } else {
      RunOfDigits(d[1..], rest);
      assert (d + rest)[1..] == d[1..] + rest;
    }
  }

  lemma ConvertedFront(s: string, names: seq<string>)
    ensures s == "" ==> Converted(s, names) == ""
    ensures s != "" ==> Converted(s, names) != "" && (Converted(s, names)[0] == '$' || Converted(s, names)[0] == s[0])
  {
  }

  /** The rewrite keeps the meaning of a text without $n of its own. */
  lemma {:induction false} RewriteKeepsMeaning(s: string, names: seq<string>, params: map<string, string>)
    requires AllNamed(s, names) && !HasNumber(s)
    requires forall i | 0 <= i < |names| :: names[i] in params
    ensures MeaningNumbered(Converted(s, names), ValuesOf(names, params)) == MeaningNamed(s, params)
    decreases |s|
  {
    var values := ValuesOf(names, params);
    if s == "" {
    } else if ParamAt(s) {
      var rest := AfterParam(s);
      HasNumberTail(s, 1 + |NameAt(s)|);
      RewriteKeepsMeaning(rest, names, params);
      ConvertedFront(rest, names);
      assert rest == "" || !IsDigit(rest[0]);
      ReadNumber(IndexOf(names, NameAt(s)) + 1, Converted(rest, names), values);
    } else {
      HasNumberTail(s, 1);
      RewriteKeepsMeaning(s[1..], names, params);
      ConvertedFront(s[1..], names);
      var t := Converted(s, names);
      assert t == [s[0]] + Converted(s[1..], names) && t[1..] == Converted(s[1..], names);
      assert !NumberAt(t) by {
        assert !NumberAt(s) by { assert s[0..] == s; }
      }
    }
  }

  // ------------------------------------------------------ exactly when

  /** Digits are rewritten to themselves. */
  lemma {:induction false} DigitsStay(d: string, rest: string, names: seq<string>, params: map<string, string>)
    requires forall i | 0 <= i < |d| :: IsDigit(d[i])
    ensures Converted(d + rest, names) == d + Converted(rest, names)
    ensures var m := MeaningNamed(rest, params);
            MeaningNamed(d + rest, params) == if m.Some? then Some(d + m.value) else None
  {
    if d == "" {
      assert d + rest == rest;
      var m := MeaningNamed(rest, params);
      assert m.Some? ==> d + m.value == m.value;
    } else {
      var s := d + rest;
      assert s[1..] == d[1..] + rest && !ParamAt(s);
      DigitsStay(d[1..], rest, names, params);
      var m := MeaningNamed(rest, params);
      assert m.Some? ==> d + m.value == [d[0]] + (d[1..] + m.value);
    }
  }

  ghost predicate AllEmpty(names: seq<string>, params: map<string, string>) {
    forall i | 0 <= i < |names| :: names[i] in params && params[names[i]] == ""
  }

  function ValuesOrNone(names: seq<string>, params: map<string, string>): (values: seq<string>)
    ensures |values| == |names|
  {
    seq(|names|, i requires 0 <= i < |names| => if names[i] in params then params[names[i]] else "")
  }

  /** A $n of the text's own stays in the text, and keeps its meaning. */
  lemma OwnNumberStays(d: string, rest: string, names: seq<string>, params: map<string, string>)
    requires d != "" && forall i | 0 <= i < |d| :: IsDigit(d[i])
    ensures Converted("$" + (d + rest), names) == "$" + (d + Converted(rest, names))
    ensures var m := MeaningNamed(rest, params);
            MeaningNamed("$" + (d + rest), params) == if m.Some? then Some("$" + (d + m.value)) else None
    ensures AllNamed("$" + (d + rest), names) == AllNamed(rest, names)
  {
    var s := "$" + (d + rest);
    assert s[1..] == d + rest;
    DigitsStay(d, rest, names, params);
    DigitsNamed(d, rest, names);
  }

  /** With empty values everywhere, a rewritten text with a $n of its own comes
      out shorter than it should, or not at all. */
  ghost predicate Shortens(s: string, names: seq<string>, params: map<string, string>) {
    var m, u := MeaningNumbered(Converted(s, names), ValuesOrNone(names, params)), MeaningNamed(s, params);
    && u.Some?
    && (m.Some? ==> |m.value| <= |u.value| && (HasNumber(s) ==> |m.value| < |u.value|))
  }

  lemma ParamShortens(s: string, names: seq<string>, params: map<string, string>)
    requires ParamAt(s) && AllNamed(s, names) && AllEmpty(names, params) && Shortens(AfterParam(s), names, params)
    ensures Shortens(s, names, params)
  {
    var rest := AfterParam(s);
    HasNumberTail(s, 1 + |NameAt(s)|);
    forall i | 0 <= i < 1 + |NameAt(s)| ensures !NumberAt(s[i..]) {
      assert s[i] == ':' || IsNameChar(s[1..][i - 1]);
    }
    ConvertedFront(rest, names);
    ReadNumber(IndexOf(names, NameAt(s)) + 1, Converted(rest, names), ValuesOrNone(names, params));
  }

  lemma NumberShortens(d: string, rest: string, names: seq<string>, params: map<string, string>)
    requires d != "" && (forall i | 0 <= i < |d| :: IsDigit(d[i])) && (rest == "" || !IsDigit(rest[0]))
    requires AllEmpty(names, params) && Shortens(rest, names, params)
    ensures Shortens("$" + (d + rest), names, params)
  {
    OwnNumberStays(d, rest, names, params);
    ConvertedFront(rest, names);
    ReadDigits(d, Converted(rest, names), ValuesOrNone(names, params));
    var k, values := Value(d), ValuesOrNone(names, params);
    assert 1 <= k <= |values| ==> values[k - 1] == "";
  }

  lemma LiteralShortens(s: string, names: seq<string>, params: map<string, string>)
    requires s != "" && !ParamAt(s) && !NumberAt(s) && Shortens(s[1..], names, params)
    ensures Shortens(s, names, params)
  {
    HasNumberTail(s, 1);
    assert s[0..] == s;
    ConvertedFront(s[1..], names);
    var t := Converted(s, names);
    assert t == [s[0]] + Converted(s[1..], names) && t[1..] == Converted(s[1..], names);
    assert !NumberAt(t);
  }

  lemma {:induction false} EmptyValuesShorten(s: string, names: seq<string>, params: map<string, string>)
    requires AllNamed(s, names) && AllEmpty(names, params)
    ensures Shortens(s, names, params)
    decreases |s|
  {
    if s == "" {
    } else if ParamAt(s) {
      EmptyValuesShorten(AfterParam(s), names, params);
      ParamShortens(s, names, params);
    } else if NumberAt(s) {
      var n := DigitRun(s[1..]);
      var d, rest := s[1..][..n], s[1..][n..];
      assert s == "$" + (d + rest);
      OwnNumberStays(d, rest, names, params);
      EmptyValuesShorten(rest, names, params);
      NumberShortens(d, rest, names, params);
    } else {
      EmptyValuesShorten(s[1..], names, params);
      LiteralShortens(s, names, params);
    }
  }

  lemma {:induction false} DigitsNamed(d: string, rest: string, names: seq<string>)
    requires forall i | 0 <= i < |d| :: IsDigit(d[i])
    ensures AllNamed(d + rest, names) == AllNamed(rest, names)
  {
    if d == "" {
      assert d + rest == rest;
    } else {
      assert (d + rest)[1..] == d[1..] + rest && !ParamAt(d + rest);
      DigitsNamed(d[1..], rest, names);
    }
  }

  ghost predicate Given(names: seq<string>, params: map<string, string>) {
    forall i | 0 <= i < |names| :: names[i] in params
  }

  /** The call execute_named makes means what the named query means, for every
      choice of values, if and only if the query text has no $n of its own. */
  lemma RewriteSoundIff(s: string)
    ensures var names := NamesFrom(s, []);
            !HasNumber(s) <==>
            forall params | Given(names, params) ::
              MeaningNumbered(Converted(s, names), ValuesOrNone(names, params)) == MeaningNamed(s, params)
  {
    var names := NamesFrom(s, []);
    AllNamedMore(s, []);
    if HasNumber(s) {
      var params := map n | n in names :: "";
      assert Given(names, params) && AllEmpty(names, params);
      EmptyValuesShorten(s, names, params);
      assert MeaningNumbered(Converted(s, names), ValuesOrNone(names, params)) != MeaningNamed(s, params);
    } else {
      forall params | Given(names, params)
        ensures MeaningNumbered(Converted(s, names), ValuesOrNone(names, params)) == MeaningNamed(s, params)
      {
        assert ValuesOrNone(names, params) == ValuesOf(names, params);
        RewriteKeepsMeaning(s, names, params);
      }
    }
  }

  lemma NoColonInName(s: string)
    requires ParamAt(s)
    ensures forall i | 0 < i < 1 + |NameAt(s)| :: s[i] != ':'
  {
    forall i | 0 < i < 1 + |NameAt(s)| ensures s[i] != ':' {
      assert IsNameChar(s[1..][i - 1]);
    }
  }

  /** A PostgreSQL cast is taken for a parameter: wherever a colon is followed
      by a name, also after another colon, that name must be given. */
  lemma {:induction false} EveryColonNameCounts(s: string, names: seq<string>, i: nat)
    requires i < |s| && ParamAt(s[i..]) && AllNamed(s, names)
    ensures NameAt(s[i..]) in names
    decreases |s|
  {
    assert s[0..] == s;
    if i > 0 {
      if ParamAt(s) {
        var n := 1 + |NameAt(s)|;
        NoColonInName(s);
        assert s[i] == s[i..][0];
        assert AfterParam(s)[i - n..] == s[i..];
        EveryColonNameCounts(AfterParam(s), names, i - n);
      } else {
        assert s[1..][i - 1..] == s[i..];
        EveryColonNameCounts(s[1..], names, i - 1);
      }
    }
  }

  // ------------------------------------------------------ the pattern, letter by letter

  /** A name is read to its end: letters, digits and underscores, the first of
      them no digit. */
  lemma NameIsRead(name: string, rest: string)
    requires name != "" && ('a' <= name[0] <= 'z' || 'A' <= name[0] <= 'Z' || name[0] == '_')
    requires forall i | 0 <= i < |name| ::
               'a' <= name[i] <= 'z' || 'A' <= name[i] <= 'Z' || name[i] == '_' || '0' <= name[i] <= '9'
    requires rest == "" || !('a' <= rest[0] <= 'z' || 'A' <= rest[0] <= 'Z' || rest[0] == '_' || '0' <= rest[0] <= '9')
    ensures var s := ":" + (name + rest); ParamAt(s) && NameAt(s) == name && AfterParam(s) == rest
  {
    var s := ":" + (name + rest);
    RunOfName(name, rest);
    assert s[1..] == name + rest && s[1] == name[0];
    assert s[1..1 + |name|] == name && s[1 + |name|..] == rest;
  }

  lemma {:induction false} RunOfName(name: string, rest: string)
    requires forall i | 0 <= i < |name| :: IsNameChar(name[i])
    requires rest == "" || !IsNameChar(rest[0])
    ensures NameRun(name + rest) == |name|
  {
    if name == "" {
      assert name + rest == rest;
    } else {
      RunOfName(name[1..], rest);
      assert (name + rest)[1..] == name[1..] + rest;
    }
  }

  /** So the named query means the value, then what the rest means. */
  lemma ParameterMeans(name: string, rest: string, params: map<string, string>)
    requires name != "" && ('a' <= name[0] <= 'z' || 'A' <= name[0] <= 'Z' || name[0] == '_')
    requires forall i | 0 <= i < |name| ::
               'a' <= name[i] <= 'z' || 'A' <= name[i] <= 'Z' || name[i] == '_' || '0' <= name[i] <= '9'
    requires rest == "" || !('a' <= rest[0] <= 'z' || 'A' <= rest[0] <= 'Z' || rest[0] == '_' || '0' <= rest[0] <= '9')
    ensures MeaningNamed(":" + (name + rest), params)
            == if name in params && MeaningNamed(rest, params).Some? then
                 Some(params[name] + MeaningNamed(rest, params).value)
               else None
  {
    NameIsRead(name, rest);
  }

  /** Any other character means itself, a colon without a name included. */
  lemma OtherMeansItself(s: string, params: map<string, string>)
    requires s != ""
    requires s[0] != ':' || |s| == 1 || !('a' <= s[1] <= 'z' || 'A' <= s[1] <= 'Z' || s[1] == '_')
    ensures MeaningNamed(s, params)
            == if MeaningNamed(s[1..], params).Some? then Some([s[0]] + MeaningNamed(s[1..], params).value) else None
  {
  }
}
