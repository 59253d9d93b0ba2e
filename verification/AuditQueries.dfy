/** The two zero-answer checks of the read-only audit
    (scripts/post_exam_audit_readonly.py): a grouped, ordered and limited count
    of answers per session, and an outer join for sessions without any. */
module AuditQueries {
  import opened Common

  datatype Status = Submitted | Completed | InProgress | Abandoned

  datatype Session = Session(exam: int, status: Status)

  /** Answers by id, with the session they belong to. */
  datatype Db = Db(exams: set<int>, sessions: map<int, Session>, answers: map<int, int>)

  predicate Terminal(db: Db, exam: int, sid: int) {
    sid in db.sessions && db.sessions[sid].exam == exam && db.sessions[sid].status in {Submitted, Completed}
  }

  function TerminalSessions(db: Db, exam: int): set<int> {
    set sid | sid in db.sessions && Terminal(db, exam, sid)
  }

  function AnswersOf(db: Db, sid: int): set<int> {
    set a | a in db.answers && db.answers[a] == sid
  }

  function ZeroSessions(db: Db, exam: int): set<int> {
    set sid | sid in TerminalSessions(db, exam) && AnswersOf(db, sid) == {}
  }

  /** A submitted or completed session of the exam that no answer belongs to. */
  predicate NeverAnswered(db: Db, exam: int, sid: int)
    requires sid in db.sessions
  {
    && db.sessions[sid].exam == exam
    && (db.sessions[sid].status == Submitted || db.sessions[sid].status == Completed)
    && forall a | a in db.answers :: db.answers[a] != sid
  }

  lemma NobodyAnswered(db: Db, sid: int)
    requires forall a | a in db.answers :: db.answers[a] != sid
    ensures AnswersOf(db, sid) == {}
  {
    if AnswersOf(db, sid) != {} {
      var a := Pick(AnswersOf(db, sid));
      assert false;
    }
  }

  lemma ZeroSessionsIff(db: Db, exam: int)
    ensures forall sid :: sid in ZeroSessions(db, exam) <==> sid in db.sessions && NeverAnswered(db, exam, sid)
    ensures ZeroSessions(db, exam) != {} <==> exists sid :: sid in db.sessions && NeverAnswered(db, exam, sid)
  {
    forall sid ensures sid in ZeroSessions(db, exam) <==> sid in db.sessions && NeverAnswered(db, exam, sid) {
      if sid in db.sessions && NeverAnswered(db, exam, sid) {
        NobodyAnswered(db, sid);
      }
      if sid in db.sessions && !NeverAnswered(db, exam, sid) && Terminal(db, exam, sid) {
        var a :| a in db.answers && db.answers[a] == sid;
        assert a in AnswersOf(db, sid);
      }
    }
    if ZeroSessions(db, exam) != {} {
      var sid := Pick(ZeroSessions(db, exam));
      assert sid in db.sessions && NeverAnswered(db, exam, sid);
    }
  }

  // ------------------------------------------------------ the queries

  /** One row of sessions LEFT JOIN answers; no answer id where there is none. */
  datatype Joined = Joined(sid: int, answer: Option<int>)

  function LeftJoin(db: Db, exam: int): set<Joined> {
    (set a | a in db.answers && Terminal(db, exam, db.answers[a]) :: Joined(db.answers[a], Some(a)))
    + (set sid | sid in TerminalSessions(db, exam) && AnswersOf(db, sid) == {} :: Joined(sid, None))
  }

  /** COUNT(a.id) in the group of sid. */
  function CountAnswers(db: Db, exam: int, sid: int): nat {
    |Group(db, exam, sid)|
  }

  datatype CountRow = CountRow(sid: int, answers: nat)

  function SidsOf(rows: seq<CountRow>): seq<int> {
    seq(|rows|, i requires 0 <= i < |rows| => rows[i].sid)
  }

  function Least(m: nat, n: nat): nat {
    if m <= n then m else n
  }

  /** rows may be the answer to the count query: the groups in ascending order
      of count, ties in any order, cut at the limit. */
  ghost predicate IsCountQuery(rows: seq<CountRow>, db: Db, exam: int, limit: nat) {
    && Distinct(SidsOf(rows))
    && (forall i | 0 <= i < |rows| ::
        rows[i].sid in TerminalSessions(db, exam) && rows[i].answers == CountAnswers(db, exam, rows[i].sid))
    && (forall i, j | 0 <= i < j < |rows| :: rows[i].answers <= rows[j].answers)
    && |rows| == Least(limit, |TerminalSessions(db, exam)|)
    && (forall i, sid | 0 <= i < |rows| && sid in TerminalSessions(db, exam) && sid !in SidsOf(rows) ::
          rows[i].answers <= CountAnswers(db, exam, sid))
  }

  function Unanswered(db: Db, exam: int): set<Joined> {
    set j | j in LeftJoin(db, exam) && j.answer.None?
  }

  /** rows may be the answer to the explicit query: joined rows without an
      answer id, in any order, cut at the limit. */
  ghost predicate IsZeroQuery(rows: seq<Joined>, db: Db, exam: int, limit: nat) {
    && (forall i | 0 <= i < |rows| :: rows[i] in Unanswered(db, exam))
    && (forall i, j | 0 <= i < j < |rows| :: rows[i] != rows[j])
    && |rows| == Least(limit, |Unanswered(db, exam)|)
  }

  // ------------------------------------------------------ agreement

  function ZeroRows(rows: seq<CountRow>): seq<CountRow> {
    if rows == [] then []
    else ZeroRows(rows[..|rows| - 1]) + if rows[|rows| - 1].answers == 0 then [rows[|rows| - 1]] else []
  }

  function Group(db: Db, exam: int, sid: int): set<Joined> {
    set j | j in LeftJoin(db, exam) && j.sid == sid && j.answer.Some?
  }

  lemma InGroup(db: Db, exam: int, sid: int, j: Joined)
    requires j in Group(db, exam, sid)
    ensures AnswersOf(db, sid) != {}
  {
    assert j.answer.value in AnswersOf(db, sid);
  }

  lemma CountIsZero(db: Db, exam: int, sid: int)
    requires Terminal(db, exam, sid)
    ensures CountAnswers(db, exam, sid) == 0 <==> AnswersOf(db, sid) == {}
  {
    if Group(db, exam, sid) != {} {
      var j := Pick(Group(db, exam, sid));
      InGroup(db, exam, sid, j);
    }
    if AnswersOf(db, sid) != {} {
      var a := Pick(AnswersOf(db, sid));
      assert Joined(sid, Some(a)) in Group(db, exam, sid);
    }
  }

  function ZeroSids(rows: seq<CountRow>): set<int> {
    set i | 0 <= i < |rows| && rows[i].answers == 0 :: rows[i].sid
  }

  lemma ZeroSidsNext(init: seq<CountRow>, last: CountRow)
    ensures ZeroSids(init + [last]) == ZeroSids(init) + if last.answers == 0 then {last.sid} else {}
  {
    var rows := init + [last];
    assert rows[|init|] == last;
    forall sid | sid in ZeroSids(init) ensures sid in ZeroSids(rows) {
      var i :| 0 <= i < |init| && init[i].answers == 0 && init[i].sid == sid;
      assert rows[i] == init[i];
    }
  }

  lemma LastIsFresh(init: seq<CountRow>, last: CountRow)
    requires Distinct(SidsOf(init + [last]))
    ensures Distinct(SidsOf(init)) && last.sid !in ZeroSids(init)
  {
    var sids := SidsOf(init + [last]);
    assert SidsOf(init) == sids[..|init|];
    forall i | 0 <= i < |init| ensures init[i].sid != last.sid {
      assert sids[i] != sids[|init|];
    }
  }

  lemma {:induction false} ZeroRowsSize(rows: seq<CountRow>)
    requires Distinct(SidsOf(rows))
    ensures |ZeroRows(rows)| == |ZeroSids(rows)|
  {
    if rows == [] {
      assert ZeroSids(rows) == {};
    } else {
      var init, last := rows[..|rows| - 1], rows[|rows| - 1];
      assert rows == init + [last];
      LastIsFresh(init, last);
      ZeroRowsSize(init);
      ZeroSidsNext(init, last);
    }
  }

  lemma ZeroSidsAreZero(rows: seq<CountRow>, db: Db, exam: int, limit: nat)
    requires IsCountQuery(rows, db, exam, limit)
    ensures ZeroSids(rows) <= ZeroSessions(db, exam)
  {
    forall i | 0 <= i < |rows| && rows[i].answers == 0 ensures rows[i].sid in ZeroSessions(db, exam) {
      CountIsZero(db, exam, rows[i].sid);
    }
  }

  /** A row with answers means that no zero session was cut off. */
  lemma NothingCutOff(rows: seq<CountRow>, db: Db, exam: int, limit: nat, k: nat)
    requires IsCountQuery(rows, db, exam, limit) && k < |rows| && rows[k].answers > 0
    ensures ZeroSids(rows) == ZeroSessions(db, exam)
    ensures |ZeroSids(rows)| < |rows|
  {
    ZeroSidsAreZero(rows, db, exam, limit);
    forall sid | sid in ZeroSessions(db, exam) ensures sid in ZeroSids(rows) {
      CountIsZero(db, exam, sid);
      assert sid in SidsOf(rows);
      var i :| 0 <= i < |rows| && rows[i].sid == sid;
    }
    DistinctSize(SidsOf(rows));
    assert rows[k].sid == SidsOf(rows)[k];
    CountIsZero(db, exam, rows[k].sid);
    assert ZeroSids(rows) <= ToSet(SidsOf(rows)) - {rows[k].sid} by {
      assert forall i | 0 <= i < |rows| :: SidsOf(rows)[i] in ToSet(SidsOf(rows));
    }
    SubsetSize(ZeroSids(rows), ToSet(SidsOf(rows)) - {rows[k].sid});
  }

  /** Only zero rows: as many as the limit lets through. */
  lemma OnlyZeroRows(rows: seq<CountRow>, db: Db, exam: int, limit: nat)
    requires IsCountQuery(rows, db, exam, limit) && forall k | 0 <= k < |rows| :: rows[k].answers == 0
    ensures |ZeroSids(rows)| == Least(limit, |ZeroSessions(db, exam)|)
  {
    assert ZeroSids(rows) == ToSet(SidsOf(rows)) by {
      assert forall i | 0 <= i < |rows| :: SidsOf(rows)[i] == rows[i].sid;
    }
    DistinctSize(SidsOf(rows));
    ZeroSidsAreZero(rows, db, exam, limit);
    SubsetSize(ZeroSids(rows), ZeroSessions(db, exam));
    SubsetSize(ZeroSessions(db, exam), TerminalSessions(db, exam));
  }

  /** The zero-count rows of the count query: all zero sessions up to the limit. */
  lemma CountQueryFindsZeros(rows: seq<CountRow>, db: Db, exam: int, limit: nat)
    requires IsCountQuery(rows, db, exam, limit)
    ensures |ZeroRows(rows)| == Least(limit, |ZeroSessions(db, exam)|)
  {
    ZeroRowsSize(rows);
    if k :| 0 <= k < |rows| && rows[k].answers > 0 {
      NothingCutOff(rows, db, exam, limit, k);
    } else {
      OnlyZeroRows(rows, db, exam, limit);
    }
  }

  lemma {:induction false} TaggedSize(s: set<int>)
    ensures |set sid | sid in s :: Joined(sid, None)| == |s|
  {
    if s != {} {
      var x := Pick(s);
      TaggedSize(s - {x});
      assert (set sid | sid in s :: Joined(sid, None))
          == (set sid | sid in s - {x} :: Joined(sid, None)) + {Joined(x, None)};
    }
  }

  /** Both queries find the same number of zero-answer sessions. */
  lemma QueriesAgree(rows: seq<CountRow>, zeros: seq<Joined>, db: Db, exam: int, limit: nat)
    requires IsCountQuery(rows, db, exam, limit) && IsZeroQuery(zeros, db, exam, limit)
    ensures |ZeroRows(rows)| == |zeros| == Least(limit, |ZeroSessions(db, exam)|)
  {
    CountQueryFindsZeros(rows, db, exam, limit);
    assert Unanswered(db, exam) == set sid | sid in ZeroSessions(db, exam) :: Joined(sid, None);
    TaggedSize(ZeroSessions(db, exam));
  }

  // ------------------------------------------------------ the audit

  datatype Severity = HighRisk | NeedsReview

  datatype Finding =
    | ExamNotFound
    | StuckSessions(n: nat)
    | ZeroAnswers(n: nat)
    | ZeroAnswersExplicit(n: nat)
    | DuplicateAnswers(n: nat)
    | SubmitTimes(n: nat)
    | AnswersAfterSubmit(n: nat)
    | ScoreNull(n: nat)
    | Ungraded(n: nat)
    | SyntheticUsers(n: nat)

  datatype Anomaly = Anomaly(severity: Severity, finding: Finding)

  /** Row counts of the queries that only ask for a review. */
  datatype Reviews = Reviews(stuck: nat, duplicates: nat, submitTimes: nat, afterSubmit: nat, scoreNull: nat,
      ungraded: nat, synthetic: nat)

  ghost predicate HasHighRisk(anomalies: seq<Anomaly>) {
    exists i :: 0 <= i < |anomalies| && anomalies[i].severity == HighRisk
  }

  ghost predicate HasFinding(anomalies: seq<Anomaly>, f: Finding) {
    exists i :: 0 <= i < |anomalies| && anomalies[i].finding == f
  }

  function Noted(anomalies: seq<Anomaly>, n: nat, severity: Severity, finding: Finding): seq<Anomaly> {
    if n > 0 then anomalies + [Anomaly(severity, finding)] else anomalies
  }

  /** What the checks before and at the zero-answer queries note. */
  function ExpectedFirst(z: nat, r: Reviews): seq<Anomaly> {
    Noted(Noted([], r.stuck, NeedsReview, StuckSessions(r.stuck)), z, HighRisk, ZeroAnswers(z))
  }

  /** What the checks after them add. */
  function ExpectedRest(first: seq<Anomaly>, r: Reviews): seq<Anomaly> {
    var a := Noted(first, r.duplicates, NeedsReview, DuplicateAnswers(r.duplicates));
    var b := Noted(a, r.submitTimes, NeedsReview, SubmitTimes(r.submitTimes));
    var c := Noted(b, r.afterSubmit, NeedsReview, AnswersAfterSubmit(r.afterSubmit));
    var d := Noted(c, r.scoreNull, NeedsReview, ScoreNull(r.scoreNull));
    var e := Noted(d, r.ungraded, NeedsReview, Ungraded(r.ungraded));
    Noted(e, r.synthetic, NeedsReview, SyntheticUsers(r.synthetic))
  }

  class PostExamAuditor {
    const exam: int
    var anomalies: seq<Anomaly>

    constructor (exam: int)
      ensures this.exam == exam && anomalies == []
    {
      this.exam := exam;
      anomalies := [];
    }

    method Note(n: nat, severity: Severity, finding: Finding)
      modifies this
      ensures anomalies == Noted(old(anomalies), n, severity, finding)
    {
      if n > 0 {
        anomalies := anomalies + [Anomaly(severity, finding)];
      }
    }

    method NoteExplicit(zeroAnswers: nat, zeros: nat)
      modifies this
      ensures anomalies == Noted(old(anomalies), if zeroAnswers == 0 then zeros else 0, HighRisk,
          ZeroAnswersExplicit(zeros))
    {
      if zeros > 0 && zeroAnswers == 0 {
        anomalies := anomalies + [Anomaly(HighRisk, ZeroAnswersExplicit(zeros))];
      }
    }

    method NoteRest(reviews: Reviews)
      modifies this
      ensures anomalies == ExpectedRest(old(anomalies), reviews)
    {
      Note(reviews.duplicates, NeedsReview, DuplicateAnswers(reviews.duplicates));
      Note(reviews.submitTimes, NeedsReview, SubmitTimes(reviews.submitTimes));
      Note(reviews.afterSubmit, NeedsReview, AnswersAfterSubmit(reviews.afterSubmit));
      Note(reviews.scoreNull, NeedsReview, ScoreNull(reviews.scoreNull));
      Note(reviews.ungraded, NeedsReview, Ungraded(reviews.ungraded));
      Note(reviews.synthetic, NeedsReview, SyntheticUsers(reviews.synthetic));
    }

    /** The whole audit of a fixed database; the result is the report's
        data_safety_concern. */
    method Run(db: Db, rows: seq<CountRow>, zeros: seq<Joined>, reviews: Reviews) returns (concern: bool)
      requires anomalies == []
      requires IsCountQuery(rows, db, exam, 50) && IsZeroQuery(zeros, db, exam, 50)
      modifies this
      ensures exam in db.exams ==>
                anomalies == ExpectedRest(ExpectedFirst(Least(50, |ZeroSessions(db, exam)|), reviews), reviews)
      ensures exam !in db.exams ==> anomalies == [Anomaly(HighRisk, ExamNotFound)]
      ensures concern <==> exam !in db.exams || ZeroSessions(db, exam) != {}
      ensures concern <==> exam !in db.exams || exists sid :: sid in db.sessions && NeverAnswered(db, exam, sid)
      ensures forall n :: !HasFinding(anomalies, ZeroAnswersExplicit(n))
      ensures exam in db.exams ==>
                forall f :: HasFinding(anomalies, f) <==> Found(f, Least(50, |ZeroSessions(db, exam)|), reviews)
    {
      if exam !in db.exams {
        anomalies := anomalies + [Anomaly(HighRisk, ExamNotFound)];
        concern := BuildReport();
        assert concern by { assert anomalies[0].severity == HighRisk; }
        return;
      }
      Note(reviews.stuck, NeedsReview, StuckSessions(reviews.stuck));
      var zeroAnswers := |ZeroRows(rows)|;
      Note(zeroAnswers, HighRisk, ZeroAnswers(zeroAnswers));
      QueriesAgree(rows, zeros, db, exam, 50);
      NoteExplicit(zeroAnswers, |zeros|);
      NoteRest(reviews);
      ZeroSessionsIff(db, exam);
      ConcernIffZero(zeroAnswers, reviews);
      FindingsIff(zeroAnswers, reviews);
      concern := BuildReport();
    }

    method BuildReport() returns (concern: bool)
      ensures concern <==> HasHighRisk(anomalies)
    {
      concern := false;
      for i := 0 to |anomalies|
        invariant concern <==> HasHighRisk(anomalies[..i])
      {
        assert anomalies[..i + 1][i] == anomalies[i];
        assert HasHighRisk(anomalies[..i]) ==> HasHighRisk(anomalies[..i + 1]);
        if anomalies[i].severity == HighRisk {
          concern := true;
        }
      }
      assert anomalies[..|anomalies|] == anomalies;
    }
  }

  lemma NotedRisk(p: seq<Anomaly>, n: nat, severity: Severity, finding: Finding)
    ensures HasHighRisk(Noted(p, n, severity, finding)) <==> HasHighRisk(p) || (n > 0 && severity == HighRisk)
    ensures forall f :: HasFinding(Noted(p, n, severity, finding), f) <==> HasFinding(p, f) || (n > 0 && f == finding)
  {
    var q := Noted(p, n, severity, finding);
    assert forall i | 0 <= i < |p| :: q[i] == p[i];
    if n > 0 {
      assert q[|p|] == Anomaly(severity, finding);
    }
    if HasHighRisk(p) {
      var i :| 0 <= i < |p| && p[i].severity == HighRisk;
      assert q[i].severity == HighRisk;
    }
    forall f | HasFinding(p, f) ensures HasFinding(q, f) {
      var i :| 0 <= i < |p| && p[i].finding == f;
      assert q[i].finding == f;
    }
  }

  lemma RestRisk(first: seq<Anomaly>, r: Reviews)
    ensures HasHighRisk(ExpectedRest(first, r)) <==> HasHighRisk(first)
    ensures forall n ::
              HasFinding(ExpectedRest(first, r), ZeroAnswersExplicit(n)) <==> HasFinding(first, ZeroAnswersExplicit(n))
  {
    var a := Noted(first, r.duplicates, NeedsReview, DuplicateAnswers(r.duplicates));
    var b := Noted(a, r.submitTimes, NeedsReview, SubmitTimes(r.submitTimes));
    var c := Noted(b, r.afterSubmit, NeedsReview, AnswersAfterSubmit(r.afterSubmit));
    var d := Noted(c, r.scoreNull, NeedsReview, ScoreNull(r.scoreNull));
    var e := Noted(d, r.ungraded, NeedsReview, Ungraded(r.ungraded));
    NotedRisk(first, r.duplicates, NeedsReview, DuplicateAnswers(r.duplicates));
    NotedRisk(a, r.submitTimes, NeedsReview, SubmitTimes(r.submitTimes));
    NotedRisk(b, r.afterSubmit, NeedsReview, AnswersAfterSubmit(r.afterSubmit));
    NotedRisk(c, r.scoreNull, NeedsReview, ScoreNull(r.scoreNull));
    NotedRisk(d, r.ungraded, NeedsReview, Ungraded(r.ungraded));
    NotedRisk(e, r.synthetic, NeedsReview, SyntheticUsers(r.synthetic));
  }

  /** High risk is noted exactly for zero-answer sessions, and never by the
      explicit check. */
  lemma ConcernIffZero(z: nat, r: Reviews)
    ensures HasHighRisk(ExpectedRest(ExpectedFirst(z, r), r)) <==> z > 0
    ensures forall n :: !HasFinding(ExpectedRest(ExpectedFirst(z, r), r), ZeroAnswersExplicit(n))
  {
    NotedRisk([], r.stuck, NeedsReview, StuckSessions(r.stuck));
    NotedRisk(Noted([], r.stuck, NeedsReview, StuckSessions(r.stuck)), z, HighRisk, ZeroAnswers(z));
    RestRisk(ExpectedFirst(z, r), r);
  }

  /** The findings, each noted exactly when its query has rows, with their number. */
  predicate Found(f: Finding, z: nat, r: Reviews) {
    match f
    case ExamNotFound => false
    case StuckSessions(n) => n == r.stuck > 0
    case ZeroAnswers(n) => n == z > 0
    case ZeroAnswersExplicit(n) => false
    case DuplicateAnswers(n) => n == r.duplicates > 0
    case SubmitTimes(n) => n == r.submitTimes > 0
    case AnswersAfterSubmit(n) => n == r.afterSubmit > 0
    case ScoreNull(n) => n == r.scoreNull > 0
    case Ungraded(n) => n == r.ungraded > 0
    case SyntheticUsers(n) => n == r.synthetic > 0
  }

  lemma FindingsIff(z: nat, r: Reviews)
    ensures forall f :: HasFinding(ExpectedRest(ExpectedFirst(z, r), r), f) <==> Found(f, z, r)
  {
    forall f ensures HasFinding(ExpectedRest(ExpectedFirst(z, r), r), f) <==> Found(f, z, r) {
      FirstFindings(z, r, f);
      RestFindings(ExpectedFirst(z, r), r, f);
    }
  }

  lemma FirstFindings(z: nat, r: Reviews, f: Finding)
    ensures HasFinding(ExpectedFirst(z, r), f)
            <==> (f == StuckSessions(r.stuck) && r.stuck > 0) || (f == ZeroAnswers(z) && z > 0)
  {
    NotedRisk([], r.stuck, NeedsReview, StuckSessions(r.stuck));
    NotedRisk(Noted([], r.stuck, NeedsReview, StuckSessions(r.stuck)), z, HighRisk, ZeroAnswers(z));
  }

  lemma RestFindings(first: seq<Anomaly>, r: Reviews, f: Finding)
    ensures HasFinding(ExpectedRest(first, r), f)
            <==> HasFinding(first, f)
                 || (f == DuplicateAnswers(r.duplicates) && r.duplicates > 0)
                 || (f == SubmitTimes(r.submitTimes) && r.submitTimes > 0)
                 || (f == AnswersAfterSubmit(r.afterSubmit) && r.afterSubmit > 0)
                 || (f == ScoreNull(r.scoreNull) && r.scoreNull > 0)
                 || (f == Ungraded(r.ungraded) && r.ungraded > 0)
                 || (f == SyntheticUsers(r.synthetic) && r.synthetic > 0)
  {
    var a := Noted(first, r.duplicates, NeedsReview, DuplicateAnswers(r.duplicates));
    var b := Noted(a, r.submitTimes, NeedsReview, SubmitTimes(r.submitTimes));
    var c := Noted(b, r.afterSubmit, NeedsReview, AnswersAfterSubmit(r.afterSubmit));
    var d := Noted(c, r.scoreNull, NeedsReview, ScoreNull(r.scoreNull));
    var e := Noted(d, r.ungraded, NeedsReview, Ungraded(r.ungraded));
    NotedRisk(first, r.duplicates, NeedsReview, DuplicateAnswers(r.duplicates));
    NotedRisk(a, r.submitTimes, NeedsReview, SubmitTimes(r.submitTimes));
    NotedRisk(b, r.afterSubmit, NeedsReview, AnswersAfterSubmit(r.afterSubmit));
    NotedRisk(c, r.scoreNull, NeedsReview, ScoreNull(r.scoreNull));
    NotedRisk(d, r.ungraded, NeedsReview, Ungraded(r.ungraded));
    NotedRisk(e, r.synthetic, NeedsReview, SyntheticUsers(r.synthetic));
  }
}
