/** Decoding of stored quote entities: six ordered replacements that amount to
    one scan, in whatever order they run. */
module QuoteEntities {
  import opened Common

  datatype Rule = Rule(source: string, target: char)

  /** QUOTE_ENTITY_REPLACEMENTS. */
  const REPLACEMENTS: seq<Rule> := [
    Rule("&amp;quot;", '"'), Rule("&amp;#x27;", '\''), Rule("&amp;#39;", '\''),
    Rule("&quot;", '"'), Rule("&#x27;", '\''), Rule("&#39;", '\'')]

  predicate IsQuote(c: char) {
    c == '"' || c == '\''
  }

  /** No ampersand and no quote in the text. */
  predicate Plain(w: string) {
    forall i | 0 <= i < |w| :: w[i] != '&' && !IsQuote(w[i])
  }

  /** An entity: an ampersand, then plain text; it stands for a quote. */
  predicate IsEntity(r: Rule) {
    |r.source| > 0 && r.source[0] == '&' && Plain(r.source[1..]) && IsQuote(r.target)
  }

  /** Entities only, none of them the beginning of another. */
  ghost predicate GoodRules(rs: seq<Rule>) {
    && (forall i | 0 <= i < |rs| :: IsEntity(rs[i]))
    && (forall i, j | 0 <= i < |rs| && 0 <= j < |rs| && rs[i] != rs[j] :: !(rs[i].source <= rs[j].source))
  }

  lemma Apart(a: string, b: string, k: nat)
    requires k < |a| && k < |b| && a[k] != b[k]
    ensures !(a <= b) && !(b <= a)
  {
  }

  lemma PlainTails()
    ensures Plain("amp;quot;") && Plain("amp;#x27;") && Plain("amp;#39;")
    ensures Plain("quot;") && Plain("#x27;") && Plain("#39;")
  {
  }

  lemma EntityFromTail(tail: string, target: char)
    requires Plain(tail) && IsQuote(target) && tail != ""
    ensures IsEntity(Rule("&" + tail, target)) && |"&" + tail| > 1
  {
    assert ("&" + tail)[1..] == tail;
  }

  lemma EachIsEntity()
    ensures forall i | 0 <= i < |REPLACEMENTS| :: IsEntity(REPLACEMENTS[i]) && |REPLACEMENTS[i].source| > 1
  {
    PlainTails();
    EntityFromTail("amp;quot;", '"');
    EntityFromTail("amp;#x27;", '\'');
    EntityFromTail("amp;#39;", '\'');
    EntityFromTail("quot;", '"');
    EntityFromTail("#x27;", '\'');
    EntityFromTail("#39;", '\'');
    assert "&" + "amp;quot;" == "&amp;quot;" && "&" + "amp;#x27;" == "&amp;#x27;" && "&" + "amp;#39;" == "&amp;#39;";
    assert "&" + "quot;" == "&quot;" && "&" + "#x27;" == "&#x27;" && "&" + "#39;" == "&#39;";
  }

  lemma DoubleEncodedApart()
    ensures var r := REPLACEMENTS;
            forall i, j | 0 <= i < 3 && 0 <= j < 3 && i != j :: !(r[i].source <= r[j].source)
  {
    var r := REPLACEMENTS;
    Apart(r[0].source, r[1].source, 5);
    Apart(r[0].source, r[2].source, 5);
    Apart(r[1].source, r[2].source, 6);
  }

  lemma SingleEncodedApart()
    ensures var r := REPLACEMENTS;
            forall i, j | 3 <= i < 6 && 3 <= j < 6 && i != j :: !(r[i].source <= r[j].source)
  {
    var r := REPLACEMENTS;
    Apart(r[3].source, r[4].source, 1);
    Apart(r[3].source, r[5].source, 1);
    Apart(r[4].source, r[5].source, 2);
  }

  lemma GroupsApart(i: nat, j: nat)
    requires i < 3 <= j < 6
    ensures !(REPLACEMENTS[i].source <= REPLACEMENTS[j].source) && !(REPLACEMENTS[j].source <= REPLACEMENTS[i].source)
  {
    Apart(REPLACEMENTS[i].source, REPLACEMENTS[j].source, 1);
  }

  lemma ReplacementsAreGood()
    ensures GoodRules(REPLACEMENTS)
    ensures forall i | 0 <= i < |REPLACEMENTS| :: |REPLACEMENTS[i].source| > 1
  {
    var rs := REPLACEMENTS;
    EachIsEntity();
    DoubleEncodedApart();
    SingleEncodedApart();
    forall i, j | 0 <= i < |rs| && 0 <= j < |rs| && rs[i] != rs[j] ensures !(rs[i].source <= rs[j].source) {
      if i < 3 && 3 <= j {
        GroupsApart(i, j);
      } else if j < 3 && 3 <= i {
        GroupsApart(j, i);
      }
    }
  }

  // ------------------------------------------------------ str.replace

  /** value.replace(source, target): leftmost, not overlapping. */
  function ReplaceAll(s: string, r: Rule): string
    requires IsEntity(r)
    decreases |s|
  {
    if s == "" then ""
    else if r.source <= s then [r.target] + ReplaceAll(s[|r.source|..], r)
    else [s[0]] + ReplaceAll(s[1..], r)
  }

  /** One pass: the replacements in turn. */
  function ReplaceInTurn(s: string, rs: seq<Rule>): string
    requires forall i | 0 <= i < |rs| :: IsEntity(rs[i])
  {
    if rs == [] then s else ReplaceAll(ReplaceInTurn(s, rs[..|rs| - 1]), rs[|rs| - 1])
  }

  // ------------------------------------------------------ one scan

  function MatchAt(s: string, rs: seq<Rule>): (m: Option<Rule>)
    ensures m.Some? ==> m.value in rs && m.value.source <= s
    ensures m.None? ==> forall i | 0 <= i < |rs| :: !(rs[i].source <= s)
  {
    if rs == [] then None
    else if MatchAt(s, rs[..|rs| - 1]).Some? then MatchAt(s, rs[..|rs| - 1])
    else if rs[|rs| - 1].source <= s then Some(rs[|rs| - 1])
    else None
  }

  /** A single left-to-right scan that decodes every entity it meets. */
  function Scan(s: string, rs: seq<Rule>): string
    requires forall i | 0 <= i < |rs| :: IsEntity(rs[i])
    decreases |s|
  {
    if s == "" then ""
    else
      match MatchAt(s, rs)
      case Some(r) => [r.target] + Scan(s[|r.source|..], rs)
      case None => [s[0]] + Scan(s[1..], rs)
  }

  lemma NoMatchInside(s: string, rs: seq<Rule>)
    requires (forall i | 0 <= i < |rs| :: IsEntity(rs[i])) && s != "" && s[0] != '&'
    ensures MatchAt(s, rs).None?
  {
  }

  /** Text without ampersands passes through. */
  lemma {:induction false} ScanThrough(w: string, rest: string, rs: seq<Rule>)
    requires (forall i | 0 <= i < |rs| :: IsEntity(rs[i])) && Plain(w)
    ensures Scan(w + rest, rs) == w + Scan(rest, rs)
  {
    if w == "" {
      assert w + rest == rest;
    } else {
      var s := w + rest;
      NoMatchInside(s, rs);
      ScanThrough(w[1..], rest, rs);
      assert s[1..] == w[1..] + rest;
      assert Scan(s, rs) == [w[0]] + Scan(s[1..], rs);
    }
  }

  /** Plain text at the front of the result was at the front of the input. */
  lemma {:induction false} PlainFront(w: string, s: string, rs: seq<Rule>)
    requires (forall i | 0 <= i < |rs| :: IsEntity(rs[i])) && Plain(w)
    requires w <= Scan(s, rs)
    ensures w <= s
  {
    if w != "" {
      assert w[0] == Scan(s, rs)[0];
      assert MatchAt(s, rs).None?;
      assert w[1..] <= Scan(s, rs)[1..];
      PlainFront(w[1..], s[1..], rs);
      assert w == [w[0]] + w[1..] && s == [s[0]] + s[1..];
    }
  }

  /** An entity stands at the front of a scan's result only where it stood at
      the front of the text. */
  lemma EntityFront(s: string, rs: seq<Rule>, r: Rule)
    requires (forall i | 0 <= i < |rs| :: IsEntity(rs[i])) && IsEntity(r)
    requires s != "" && r.source <= Scan(s, rs)
    ensures r.source <= s && MatchAt(s, rs).None?
  {
    var t := Scan(s, rs);
    assert t[0] == r.source[0] == '&';
    assert MatchAt(s, rs).None?;
    assert r.source[1..] <= t[1..];
    PlainFront(r.source[1..], s[1..], rs);
    assert s == [s[0]] + s[1..] && r.source == [r.source[0]] + r.source[1..];
  }

  lemma ScanStep(s: string, rs: seq<Rule>)
    requires (forall i | 0 <= i < |rs| :: IsEntity(rs[i])) && s != "" && MatchAt(s, rs).None?
    ensures Scan(s, rs) == [s[0]] + Scan(s[1..], rs)
  {
  }

  lemma SplitFront(s: string, w: string)
    requires w != "" && w <= s
    ensures s[0] == w[0] && s[1..] == w[1..] + s[|w|..] && w == [s[0]] + w[1..]
  {
  }

  lemma ScanPast(s: string, rs: seq<Rule>, r: Rule)
    requires (forall i | 0 <= i < |rs| :: IsEntity(rs[i])) && IsEntity(r)
    requires r.source <= s && MatchAt(s, rs).None?
    ensures Scan(s, rs) == r.source + Scan(s[|r.source|..], rs)
  {
    var tail, rest := r.source[1..], s[|r.source|..];
    SplitFront(s, r.source);
    ScanThrough(tail, rest, rs);
    ScanStep(s, rs);
    Regroup([s[0]], tail, Scan(rest, rs));
  }

  lemma MatchSnoc(s: string, rs: seq<Rule>, r: Rule)
    ensures MatchAt(s, rs + [r])
            == if MatchAt(s, rs).Some? then MatchAt(s, rs) else if r.source <= s then Some(r) else None
  {
    assert (rs + [r])[..|rs|] == rs;
  }

  /** Replacing one more entity after a scan is scanning for it as well. */
  lemma {:induction false} ReplaceAfterScan(s: string, rs: seq<Rule>, r: Rule)
    requires (forall i | 0 <= i < |rs| :: IsEntity(rs[i])) && IsEntity(r)
    requires forall i | 0 <= i < |rs + [r]| :: IsEntity((rs + [r])[i])
    ensures ReplaceAll(Scan(s, rs), r) == Scan(s, rs + [r])
    decreases |s|
  {
    if s != "" {
      var m, t := MatchAt(s, rs), Scan(s, rs);
      MatchSnoc(s, rs, r);
      if m.Some? {
        ReplaceAfterScan(s[|m.value.source|..], rs, r);
        assert t[0] != '&' && !(r.source <= t);
        assert t[1..] == Scan(s[|m.value.source|..], rs);
      } else if r.source <= s {
        ReplaceAfterScan(s[|r.source|..], rs, r);
        ScanPast(s, rs, r);
        assert t[|r.source|..] == Scan(s[|r.source|..], rs);
      } else {
        ReplaceAfterScan(s[1..], rs, r);
        if r.source <= t {
          EntityFront(s, rs, r);
        }
        assert t[1..] == Scan(s[1..], rs);
      }
    }
  }

  /** The replacements in turn are one scan. */
  lemma {:induction false} InTurnIsScan(s: string, rs: seq<Rule>)
    requires GoodRules(rs)
    ensures ReplaceInTurn(s, rs) == Scan(s, rs)
  {
    if rs == [] {
      ScanNothing(s);
    } else {
      var init, last := rs[..|rs| - 1], rs[|rs| - 1];
      assert rs == init + [last];
      InTurnIsScan(s, init);
      ReplaceAfterScan(s, init, last);
    }
  }

  lemma {:induction false} ScanNothing(s: string)
    ensures Scan(s, []) == s
  {
    if s != "" {
      ScanNothing(s[1..]);
    }
  }

  /** Whatever the order, and with repetitions or not, the same entities give
      the same scan. */
  lemma {:induction false} ScanOrder(s: string, rs: seq<Rule>, qs: seq<Rule>)
    requires GoodRules(rs) && GoodRules(qs)
    requires (forall i | 0 <= i < |rs| :: rs[i] in qs) && (forall i | 0 <= i < |qs| :: qs[i] in rs)
    ensures Scan(s, rs) == Scan(s, qs)
    decreases |s|
  {
    if s != "" {
      SameMatch(s, rs, qs);
      var m := MatchAt(s, rs);
      ScanOrder(if m.Some? then s[|m.value.source|..] else s[1..], rs, qs);
    }
  }

  lemma SameMatch(s: string, rs: seq<Rule>, qs: seq<Rule>)
    requires GoodRules(rs)
    requires (forall i | 0 <= i < |rs| :: rs[i] in qs) && (forall i | 0 <= i < |qs| :: qs[i] in rs)
    ensures MatchAt(s, rs) == MatchAt(s, qs)
  {
    var m, n := MatchAt(s, rs), MatchAt(s, qs);
    if m.Some? && n.Some? {
      assert n.value in rs;
      assert m.value.source <= n.value.source || n.value.source <= m.value.source;
    }
  }

  /** The replacements can run in any order. */
  lemma AnyOrder(s: string, rs: seq<Rule>)
    requires (forall i | 0 <= i < |rs| :: rs[i] in REPLACEMENTS)
    requires forall i | 0 <= i < |REPLACEMENTS| :: REPLACEMENTS[i] in rs
    ensures GoodRules(rs) && ReplaceInTurn(s, rs) == Scan(s, REPLACEMENTS)
  {
    ReplacementsAreGood();
    InTurnIsScan(s, rs);
    ScanOrder(s, rs, REPLACEMENTS);
  }

  // ------------------------------------------------------ markers

  /** any(marker in value): some entity occurs somewhere. */
  predicate HasMarker(s: string, rs: seq<Rule>) {
    exists i | 0 <= i < |s| :: MatchAt(s[i..], rs).Some?
  }

  lemma MarkerInTail(s: string, rs: seq<Rule>)
    requires s != ""
    ensures HasMarker(s, rs) <==> MatchAt(s, rs).Some? || HasMarker(s[1..], rs)
  {
    assert s[0..] == s;
    if HasMarker(s[1..], rs) {
      var i :| 0 <= i < |s[1..]| && MatchAt(s[1..][i..], rs).Some?;
      assert s[1..][i..] == s[i + 1..];
    }
    if HasMarker(s, rs) && MatchAt(s, rs).None? {
      var i :| 0 <= i < |s| && MatchAt(s[i..], rs).Some?;
      assert s[1..][i - 1..] == s[i..];
    }
  }

  /** The result of a scan holds no marker. */
  lemma {:induction false} ScanLeavesNone(s: string, rs: seq<Rule>)
    requires GoodRules(rs)
    ensures !HasMarker(Scan(s, rs), rs)
    decreases |s|
  {
    if s != "" {
      var m, t := MatchAt(s, rs), Scan(s, rs);
      ScanLeavesNone(if m.Some? then s[|m.value.source|..] else s[1..], rs);
      MarkerInTail(t, rs);
      assert t[1..] == Scan(if m.Some? then s[|m.value.source|..] else s[1..], rs);
      if MatchAt(t, rs).Some? {
        EntityFront(s, rs, MatchAt(t, rs).value);
      }
    }
  }

  /** A scan changes a text exactly when it holds a marker, and then it
      shortens it. */
  lemma {:induction false} ScanChangesIff(s: string, rs: seq<Rule>)
    requires GoodRules(rs)
    requires forall i | 0 <= i < |rs| :: |rs[i].source| > 1
    ensures !HasMarker(s, rs) ==> Scan(s, rs) == s
    ensures HasMarker(s, rs) ==> |Scan(s, rs)| < |s|
    ensures |Scan(s, rs)| <= |s|
    decreases |s|
  {
    if s != "" {
      var m := MatchAt(s, rs);
      MarkerInTail(s, rs);
      ScanChangesIff(if m.Some? then s[|m.value.source|..] else s[1..], rs);
    }
  }

  // ------------------------------------------------------ the program

  function Decoded(s: string): string {
    ReplacementsAreGood();
    Scan(s, REPLACEMENTS)
  }

  /** normalize_quote_entities, with its two passes and its early exit: it is a
      single scan, so the second pass never changes anything. */
  method NormalizeQuoteEntities(value: Option<string>) returns (normalized: Option<string>)
    ensures normalized == if value.Some? then Some(Decoded(value.value)) else None
  {
    if value.None? {
      return None;
    }
    ReplacementsAreGood();
    var text := TwoPasses(value.value, REPLACEMENTS);
    normalized := Some(text);
  }

  method TwoPasses(value: string, rs: seq<Rule>) returns (text: string)
    requires GoodRules(rs) && forall i | 0 <= i < |rs| :: |rs[i].source| > 1
    ensures text == Scan(value, rs)
  {
    text := value;
    for pass := 0 to 2
      invariant text == if pass == 0 then value else Scan(value, rs)
    {
      var before := text;
      for k := 0 to |rs|
        invariant text == ReplaceInTurn(before, rs[..k])
      {
        text := ReplaceAll(text, rs[k]);
        assert rs[..k + 1][..k] == rs[..k];
      }
      assert rs[..|rs|] == rs;
      InTurnIsScan(before, rs);
      ScanLeavesNone(value, rs);
      ScanChangesIff(Scan(value, rs), rs);
      if text == before {
        break;
      }
    }
  }

  /** contains_quote_entity, and the LIKE filter on one column. */
  predicate ContainsQuoteEntity(value: Option<string>) {
    value.Some? && HasMarker(value.value, REPLACEMENTS)
  }

  /** Decoding removes every marker, changes nothing else, and changes a value
      exactly when it holds a marker. */
  lemma DecodedFacts(s: string)
    ensures !HasMarker(Decoded(s), REPLACEMENTS)
    ensures Decoded(Decoded(s)) == Decoded(s)
    ensures Decoded(s) != s <==> HasMarker(s, REPLACEMENTS)
  {
    ReplacementsAreGood();
    ScanLeavesNone(s, REPLACEMENTS);
    ScanChangesIff(s, REPLACEMENTS);
    ScanChangesIff(Decoded(s), REPLACEMENTS);
  }

  datatype Question = Question(text: string, stimulus: Option<string>)

  lemma RuleDecodes(i: nat, rest: string)
    requires i < |REPLACEMENTS|
    ensures var r := REPLACEMENTS[i]; Decoded(r.source + rest) == [r.target] + Decoded(rest)
  {
    var r := REPLACEMENTS[i];
    var s := r.source + rest;
    ReplacementsAreGood();
    assert r.source <= s;
    var k := MatchedRule(s, REPLACEMENTS, i);
    OneIsPrefix(REPLACEMENTS[k].source, r.source, s);
    assert s[|r.source|..] == rest;
  }

  lemma MatchedRule(s: string, rs: seq<Rule>, i: nat) returns (k: nat)
    requires i < |rs| && rs[i].source <= s
    ensures k < |rs| && MatchAt(s, rs) == Some(rs[k]) && rs[k].source <= s
  {
    var m := MatchAt(s, rs);
    var j :| 0 <= j < |rs| && rs[j] == m.value;
    k := j;
  }

  lemma OneIsPrefix(a: string, b: string, s: string)
    requires a <= s && b <= s
    ensures a <= b || b <= a
  {
  }

  /** Which quote each entity stands for, whatever follows it. */
  lemma DoubleQuotes(rest: string)
    ensures Decoded("&quot;" + rest) == "\"" + Decoded(rest)
    ensures Decoded("&amp;quot;" + rest) == "\"" + Decoded(rest)
  {
    RuleDecodes(3, rest);
    RuleDecodes(0, rest);
  }

  lemma SingleQuotes(rest: string)
    ensures Decoded("&#x27;" + rest) == "'" + Decoded(rest) && Decoded("&#39;" + rest) == "'" + Decoded(rest)
    ensures Decoded("&amp;#x27;" + rest) == "'" + Decoded(rest) && Decoded("&amp;#39;" + rest) == "'" + Decoded(rest)
  {
    RuleDecodes(4, rest);
    RuleDecodes(5, rest);
    RuleDecodes(1, rest);
    RuleDecodes(2, rest);
  }

  /** Everything else stays, an ampersand that starts no entity included. */
  lemma OtherCharsStay(s: string)
    requires s != ""
    requires !("&quot;" <= s) && !("&#x27;" <= s) && !("&#39;" <= s)
    requires !("&amp;quot;" <= s) && !("&amp;#x27;" <= s) && !("&amp;#39;" <= s)
    ensures Decoded(s) == [s[0]] + Decoded(s[1..])
  {
    ReplacementsAreGood();
    NoneMatches(s, REPLACEMENTS);
    ScanStep(s, REPLACEMENTS);
  }

  lemma NoneMatches(s: string, rs: seq<Rule>)
    requires forall i | 0 <= i < |rs| :: !(rs[i].source <= s)
    ensures MatchAt(s, rs).None?
  {
  }

  predicate IsCandidate(q: Question) {
    ContainsQuoteEntity(Some(q.text)) || ContainsQuoteEntity(q.stimulus)
  }

  function DecodedQuestion(q: Question): Question {
    Question(Decoded(q.text), if q.stimulus.Some? then Some(Decoded(q.stimulus.value)) else None)
  }

  lemma QuestionFacts(q: Question)
    ensures DecodedQuestion(q) != q <==> IsCandidate(q)
    ensures !IsCandidate(DecodedQuestion(q))
  {
    DecodedFacts(q.text);
    if q.stimulus.Some? {
      DecodedFacts(q.stimulus.value);
    }
  }

  /** The table after the rows in done were decoded. */
  ghost function DecodedFor(rows: map<int, Question>, done: seq<int>): map<int, Question> {
    map id | id in rows :: if id in done then DecodedQuestion(rows[id]) else rows[id]
  }

  lemma DecodedNone(rows: map<int, Question>)
    ensures DecodedFor(rows, []) == rows
  {
  }

  lemma DecodedNext(rows: map<int, Question>, ids: seq<int>, k: nat)
    requires k < |ids| && ids[k] in rows
    ensures DecodedFor(rows, ids[..k + 1]) == DecodedFor(rows, ids[..k])[ids[k] := DecodedQuestion(rows[ids[k]])]
  {
    assert ids[..k + 1] == ids[..k] + [ids[k]];
  }

  /** Decoding the candidates decodes every row. */
  lemma DecodedAll(rows: map<int, Question>, ids: seq<int>)
    requires forall id :: id in ids <==> id in rows && IsCandidate(rows[id])
    ensures DecodedFor(rows, ids) == map id | id in rows :: DecodedQuestion(rows[id])
    ensures forall id | id in rows :: !IsCandidate(DecodedQuestion(rows[id]))
  {
    forall id | id in rows
      ensures id !in ids ==> DecodedQuestion(rows[id]) == rows[id]
      ensures !IsCandidate(DecodedQuestion(rows[id]))
    {
      QuestionFacts(rows[id]);
    }
  }

  method NormalizeQuestion(row: Question) returns (decoded: Question)
    ensures decoded == DecodedQuestion(row)
  {
    var text := NormalizeQuoteEntities(Some(row.text));
    var stimulus := NormalizeQuoteEntities(row.stimulus);
    decoded := Question(text.value, stimulus);
  }

  /** The questions table. */
  class QuestionTable {
    var rows: map<int, Question>

    constructor (rows: map<int, Question>)
      ensures this.rows == rows
    {
      this.rows := rows;
    }

    /** _normalize_questions on the ids its SELECT returns. Every candidate is
        counted as changed; a dry run writes nothing, an apply run decodes
        every row of the table, so no candidate is left. */
    method NormalizeQuestions(ids: seq<int>, apply: bool) returns (candidates: nat, changed: nat)
      requires forall i, j | 0 <= i < j < |ids| :: ids[i] != ids[j]
      requires forall id :: id in ids <==> id in rows && IsCandidate(rows[id])
      modifies this
      ensures candidates == |ids| && changed == candidates
      ensures !apply ==> rows == old(rows)
      ensures apply ==> rows == map id | id in old(rows) :: DecodedQuestion(old(rows)[id])
      ensures apply ==> forall id | id in rows :: !IsCandidate(rows[id])
    {
      candidates, changed := |ids|, 0;
      ghost var before := rows;
      DecodedNone(before);
      for k := 0 to |ids|
        invariant changed == k && rows == if apply then DecodedFor(before, ids[..k]) else before
      {
        var id := ids[k];
        assert id in ids && id !in ids[..k];
        var row := rows[id];
        QuestionFacts(row);
        var decoded := NormalizeQuestion(row);
        if decoded == row {
          continue;
        }
        changed := changed + 1;
        DecodedNext(before, ids, k);
        if apply {
          rows := rows[id := decoded];
        }
      }
      assert ids[..|ids|] == ids;
      DecodedAll(before, ids);
    }
  }
}
