/** The database check after a lifecycle run (scripts/go_hotpath_lifecycle.py):
    what the answers, sessions and log tables hold for a list of sessions, read
    through grouped queries whose row order is not fixed. */
module SessionChecker {
  import opened Common

  datatype Status = InProgress | Submitted | OtherStatus

  datatype Session = Session(user: int, exam: int, status: Status, score: Option<real>)

  datatype Answer = Answer(session: int, question: int, option: Option<int>)

  datatype LogType = SessionStart | ExamSubmitted | ScoreBreakdown | OtherType

  datatype Log = Log(session: int, eventType: LogType)

  datatype Db = Db(sessions: map<int, Session>, answers: map<int, Answer>, logs: map<int, Log>)

  // ------------------------------------------------------ query results

  /** One row of the answers grouped by session, question and option. */
  datatype AnswerRow = AnswerRow(key: Answer, n: nat)

  datatype LogRow = LogRow(key: Log, n: nat)

  function SameAnswer(db: Db, key: Answer): set<int> {
    set a | a in db.answers && db.answers[a] == key
  }

  ghost predicate IsGroupedAnswers(rows: seq<AnswerRow>, db: Db, ids: seq<int>) {
    && (forall i | 0 <= i < |rows| :: rows[i].key.session in ids && rows[i].n == |SameAnswer(db, rows[i].key)| >= 1)
    && (forall i, j | 0 <= i < j < |rows| :: rows[i].key != rows[j].key)
    && (forall a | a in db.answers && db.answers[a].session in ids :: HasAnswerRow(rows, db.answers[a]))
  }

  ghost predicate HasAnswerRow(rows: seq<AnswerRow>, key: Answer) {
    exists i :: 0 <= i < |rows| && rows[i].key == key
  }

  ghost predicate IsLogged(db: Db, key: Log) {
    exists e :: e in db.logs && db.logs[e] == key
  }

  ghost predicate IsGroupedLogs(rows: seq<LogRow>, db: Db, ids: seq<int>) {
    && (forall i | 0 <= i < |rows| :: rows[i].n >= 1 && IsLogged(db, rows[i].key))
    && (forall e | e in db.logs && db.logs[e].session in ids && db.logs[e].eventType != OtherType ::
          exists i :: 0 <= i < |rows| && rows[i].key == db.logs[e])
  }

  /** Users with two sessions in progress for the exam. */
  ghost predicate LiveTwice(db: Db, exam: int, user: int) {
    exists s, t :: s in db.sessions && t in db.sessions && s != t
                   && db.sessions[s] == db.sessions[s].(user := user, exam := exam, status := InProgress)
                   && db.sessions[t] == db.sessions[t].(user := user, exam := exam, status := InProgress)
  }

  // ------------------------------------------------------ what a clean database is

  function OptionOr0(o: Option<int>): int {
    match o case None => 0 case Some(v) => v
  }

  predicate ScoreFine(score: Option<real>) {
    score.Some? && 99.99 <= score.value <= 100.01
  }

  /** Submitted, with full score. */
  predicate SessionFine(db: Db, sid: int) {
    sid in db.sessions && db.sessions[sid].status == Submitted && ScoreFine(db.sessions[sid].score)
  }

  /** Each question of the session has at most one answer row. */
  ghost predicate NoDuplicates(db: Db, sid: int) {
    forall a, b | a in db.answers && b in db.answers && db.answers[a].session == sid && db.answers[b].session == sid
                  && db.answers[a].question == db.answers[b].question :: a == b
  }

  ghost predicate Kept(db: Db, sid: int, q: int, o: int) {
    exists a :: a in db.answers && db.answers[a].session == sid && db.answers[a].question == q
                && (db.answers[a].option == Some(o) || (db.answers[a].option == None && o == 0))
  }

  ghost predicate Audited(db: Db, sid: int) {
    IsLogged(db, Log(sid, SessionStart)) && IsLogged(db, Log(sid, ExamSubmitted))
        && IsLogged(db, Log(sid, ScoreBreakdown))
  }

  datatype Expected = Expected(qid: int, qid2: int, oid: int, oid2: int, exam: int)

  ghost predicate Clean(db: Db, ids: seq<int>, want: Expected) {
    && ids != []
    && (forall i | 0 <= i < |ids| :: SessionFine(db, ids[i]))
    && (forall i | 0 <= i < |ids| :: NoDuplicates(db, ids[i]))
    && (forall i | 0 <= i < |ids| :: Kept(db, ids[i], want.qid, want.oid) && Kept(db, ids[i], want.qid2, want.oid2))
    && (forall user :: !LiveTwice(db, want.exam, user))
    && (forall i | 0 <= i < |ids| :: Audited(db, ids[i]))
  }

  /** How many entries of ids satisfy p. */
  ghost function Tally(p: int -> bool, ids: seq<int>): nat {
    if ids == [] then 0 else Tally(p, ids[..|ids| - 1]) + if p(ids[|ids| - 1]) then 1 else 0
  }

  lemma {:induction false} TallyNone(p: int -> bool, ids: seq<int>)
    ensures Tally(p, ids) == 0 <==> forall i | 0 <= i < |ids| :: !p(ids[i])
  {
    if ids != [] {
      TallyNone(p, ids[..|ids| - 1]);
    }
  }

  lemma {:induction false} TallySame(p: int -> bool, q: int -> bool, ids: seq<int>)
    requires forall i | 0 <= i < |ids| :: p(ids[i]) == q(ids[i])
    ensures Tally(p, ids) == Tally(q, ids)
  {
    if ids != [] {
      TallySame(p, q, ids[..|ids| - 1]);
    }
  }

  lemma TallyNext(p: int -> bool, ids: seq<int>, i: nat)
    requires i < |ids|
    ensures Tally(p, ids[..i + 1]) == Tally(p, ids[..i]) + if p(ids[i]) then 1 else 0
  {
    assert ids[..i + 1][..i] == ids[..i];
  }

  function ScoredWrong(db: Db): int -> bool {
    sid => sid in db.sessions && !ScoreFine(db.sessions[sid].score)
  }

  ghost predicate Answered(db: Db, sid: int, q: int) {
    exists a :: a in db.answers && db.answers[a].session == sid && db.answers[a].question == q
  }

  /** Sessions without an answer to one of the questions. */
  ghost function LostIn(db: Db, want: Expected): int -> bool {
    sid => !(Answered(db, sid, want.qid) && Answered(db, sid, want.qid2))
  }

  /** Sessions that answered both questions, one of them not as expected. */
  ghost function StaleIn(db: Db, want: Expected): int -> bool {
    sid => Answered(db, sid, want.qid) && Answered(db, sid, want.qid2)
           && !(Kept(db, sid, want.qid, want.oid) && Kept(db, sid, want.qid2, want.oid2))
  }

  ghost function UnauditedIn(db: Db): int -> bool {
    sid => !Audited(db, sid)
  }

  // ------------------------------------------------------ the checker

  datatype Error =
    | NoSessions
    | MissingSession(sid: int)
    | BadStatus(sid: int, status: Status)
    | WrongScores(n: nat)
    | DuplicateAnswers(n: nat)
    | LostAnswers(n: nat)
    | StaleUpdates(n: nat)
    | LiveSessions(n: nat)
    | MissingAudit(n: nat)

  /** The score, with -1 for none and for a score of 0. */
  function ScoreOrMinus1(score: Option<real>): real {
    match score case None => -1.0 case Some(v) => if v == 0.0 then -1.0 else v
  }

  function Abs(x: real): real {
    if x < 0.0 then -x else x
  }

  method CheckSessions(db: Db, ids: seq<int>) returns (errors: seq<Error>, wrong: nat)
    ensures errors == [] <==> forall i | 0 <= i < |ids| ::
        ids[i] in db.sessions && db.sessions[ids[i]].status == Submitted
    ensures wrong == Tally(ScoredWrong(db), ids)
  {
    errors, wrong := [], 0;
    for i := 0 to |ids|
      invariant errors == [] <==> forall j | 0 <= j < i ::
          ids[j] in db.sessions && db.sessions[ids[j]].status == Submitted
      invariant wrong == Tally(ScoredWrong(db), ids[..i])
    {
      var sid := ids[i];
      TallyNext(ScoredWrong(db), ids, i);
      if sid !in db.sessions {
        errors := errors + [MissingSession(sid)];
      } else {
        var row := db.sessions[sid];
        if row.status != Submitted {
          errors := errors + [BadStatus(sid, row.status)];
        }
        if Abs(ScoreOrMinus1(row.score) - 100.0) > 0.01 {
          wrong := wrong + 1;
        }
      }
    }
    assert ids[..|ids|] == ids;
  }

  type Pair = (int, int)

  function PairOf(row: AnswerRow): Pair {
    (row.key.session, row.key.question)
  }

  /** Two answers of one pair show up as one row with n > 1 or as two rows. */
  ghost predicate RowsRepeat(rows: seq<AnswerRow>, k: Pair) {
    (exists i :: 0 <= i < |rows| && PairOf(rows[i]) == k && rows[i].n > 1)
    || (exists i, j :: 0 <= i < j < |rows| && PairOf(rows[i]) == k && PairOf(rows[j]) == k)
  }

  ghost predicate HasPair(rows: seq<AnswerRow>, k: Pair) {
    exists i :: 0 <= i < |rows| && PairOf(rows[i]) == k
  }

  ghost predicate Collected(rows: seq<AnswerRow>, seen: map<Pair, int>, counts: map<Pair, nat>) {
    && (forall k :: k in seen <==> HasPair(rows, k))
    && (forall k :: k in counts <==> HasPair(rows, k))
    && (forall k | k in counts :: counts[k] >= 1 && (counts[k] > 1 <==> RowsRepeat(rows, k)))
    && (forall k | k in seen :: SeenFrom(rows, k, seen[k]))
  }

  ghost predicate SeenFrom(rows: seq<AnswerRow>, k: Pair, o: int) {
    exists i :: 0 <= i < |rows| && PairOf(rows[i]) == k && OptionOr0(rows[i].key.option) == o
  }

  lemma HasPairNext(rows: seq<AnswerRow>, row: AnswerRow, k: Pair)
    ensures HasPair(rows + [row], k) <==> HasPair(rows, k) || PairOf(row) == k
  {
    var all := rows + [row];
    if HasPair(rows, k) {
      var i :| 0 <= i < |rows| && PairOf(rows[i]) == k;
      assert PairOf(all[i]) == k;
    }
    if PairOf(row) == k {
      assert PairOf(all[|rows|]) == k;
    }
  }

  lemma RowsRepeatNext(rows: seq<AnswerRow>, row: AnswerRow, k: Pair)
    ensures RowsRepeat(rows + [row], k)
        <==> RowsRepeat(rows, k) || (PairOf(row) == k && (row.n > 1 || HasPair(rows, k)))
  {
    var all := rows + [row];
    assert forall i | 0 <= i < |rows| :: all[i] == rows[i];
    assert all[|rows|] == row;
    if RowsRepeat(rows, k) {
      if i :| 0 <= i < |rows| && PairOf(rows[i]) == k && rows[i].n > 1 {
        assert PairOf(all[i]) == k && all[i].n > 1;
      } else {
        var i, j :| 0 <= i < j < |rows| && PairOf(rows[i]) == k && PairOf(rows[j]) == k;
        assert PairOf(all[i]) == k && PairOf(all[j]) == k;
      }
    }
    if PairOf(row) == k && HasPair(rows, k) {
      var i :| 0 <= i < |rows| && PairOf(rows[i]) == k;
      assert PairOf(all[i]) == k && PairOf(all[|rows|]) == k;
    }
  }

  lemma SeenFromNext(rows: seq<AnswerRow>, row: AnswerRow, k: Pair, o: int)
    ensures SeenFrom(rows, k, o) ==> SeenFrom(rows + [row], k, o)
    ensures PairOf(row) == k && OptionOr0(row.key.option) == o ==> SeenFrom(rows + [row], k, o)
  {
    var all := rows + [row];
    assert all[|rows|] == row;
    if SeenFrom(rows, k, o) {
      var i :| 0 <= i < |rows| && PairOf(rows[i]) == k && OptionOr0(rows[i].key.option) == o;
      assert all[i] == rows[i];
    }
  }

  lemma CollectedNext(rows: seq<AnswerRow>, seen: map<Pair, int>, counts: map<Pair, nat>, row: AnswerRow)
    requires Collected(rows, seen, counts) && row.n >= 1
    ensures var k := PairOf(row);
            Collected(rows + [row], seen[k := OptionOr0(row.key.option)],
                      counts[k := (if k in counts then counts[k] else 0) + row.n])
  {
    var all, k := rows + [row], PairOf(row);
    var seen', counts' := seen[k := OptionOr0(row.key.option)],
        counts[k := (if k in counts then counts[k] else 0) + row.n];
    forall p ensures p in seen' <==> HasPair(all, p) {
      HasPairNext(rows, row, p);
    }
    forall p ensures p in counts' <==> HasPair(all, p) {
      HasPairNext(rows, row, p);
    }
    forall p | p in counts' ensures counts'[p] >= 1 && (counts'[p] > 1 <==> RowsRepeat(all, p)) {
      RowsRepeatNext(rows, row, p);
      NoPairNoRepeat(rows, p);
    }
    forall p | p in seen' ensures SeenFrom(all, p, seen'[p]) {
      SeenFromNext(rows, row, p, seen'[p]);
    }
  }

  lemma NoPairNoRepeat(rows: seq<AnswerRow>, k: Pair)
    ensures RowsRepeat(rows, k) ==> HasPair(rows, k)
  {
  }

  method CollectAnswers(rows: seq<AnswerRow>) returns (seen: map<Pair, int>, counts: map<Pair, nat>)
    requires forall i | 0 <= i < |rows| :: rows[i].n >= 1
    ensures Collected(rows, seen, counts)
  {
    seen, counts := map[], map[];
    for i := 0 to |rows|
      invariant Collected(rows[..i], seen, counts)
    {
      var row := rows[i];
      CollectedNext(rows[..i], seen, counts, row);
      assert rows[..i + 1] == rows[..i] + [row];
      var k := PairOf(row);
      counts := counts[k := (if k in counts then counts[k] else 0) + row.n];
      seen := seen[k := OptionOr0(row.key.option)];
    }
    assert rows[..|rows|] == rows;
  }

  // ------------------------------------------------------ what the rows say about the table

  lemma TwoMembers(s: set<int>) returns (a: int, b: int)
    requires |s| > 1
    ensures a in s && b in s && a != b
  {
    a := Pick(s);
    assert s - {a} != {} by {
      assert s - {a} == {} ==> s == {a};
    }
    b := Pick(s - {a});
  }

  lemma AtMostOne(s: set<int>, a: int, b: int)
    requires a in s && b in s && a != b
    ensures |s| > 1
  {
    assert |s - {a}| > 0 by {
      assert b in s - {a};
    }
  }

  /** A repeating pair has two answers in the table. */
  lemma RepeatHasTwo(rows: seq<AnswerRow>, db: Db, ids: seq<int>, k: Pair) returns (a: int, b: int)
    requires IsGroupedAnswers(rows, db, ids) && RowsRepeat(rows, k)
    ensures k.0 in ids && a in db.answers && b in db.answers && a != b
    ensures db.answers[a].session == k.0 && db.answers[a].question == k.1
    ensures db.answers[b].session == k.0 && db.answers[b].question == k.1
  {
    if i :| 0 <= i < |rows| && PairOf(rows[i]) == k && rows[i].n > 1 {
      a, b := TwoMembers(SameAnswer(db, rows[i].key));
    } else {
      var i, j :| 0 <= i < j < |rows| && PairOf(rows[i]) == k && PairOf(rows[j]) == k;
      a := Pick(SameAnswer(db, rows[i].key));
      b := Pick(SameAnswer(db, rows[j].key));
    }
  }

  lemma TwoMakeRepeat(rows: seq<AnswerRow>, db: Db, ids: seq<int>, a: int, b: int)
    requires IsGroupedAnswers(rows, db, ids) && a in db.answers && b in db.answers && a != b
    requires db.answers[a].session in ids && db.answers[a].session == db.answers[b].session
    requires db.answers[a].question == db.answers[b].question
    ensures RowsRepeat(rows, (db.answers[a].session, db.answers[a].question))
  {
    assert HasAnswerRow(rows, db.answers[a]) && HasAnswerRow(rows, db.answers[b]);
    var i :| 0 <= i < |rows| && rows[i].key == db.answers[a];
    var j :| 0 <= j < |rows| && rows[j].key == db.answers[b];
    if i == j {
      AtMostOne(SameAnswer(db, rows[i].key), a, b);
    } else if j < i {
      assert PairOf(rows[j]) == PairOf(rows[i]);
    }
  }

  lemma TwoAreCounted(rows: seq<AnswerRow>, db: Db, ids: seq<int>, seen: map<Pair, int>, counts: map<Pair, nat>,
      a: int, b: int)
    requires IsGroupedAnswers(rows, db, ids) && a in db.answers && b in db.answers && a != b
    requires db.answers[a].session in ids && db.answers[a].session == db.answers[b].session
    requires db.answers[a].question == db.answers[b].question && Collected(rows, seen, counts)
    ensures (db.answers[a].session, db.answers[a].question) in Repeated(counts)
  {
    TwoMakeRepeat(rows, db, ids, a, b);
    var k := (db.answers[a].session, db.answers[a].question);
    NoPairNoRepeat(rows, k);
    assert k in Repeated(counts);
  }

  function Repeated(counts: map<Pair, nat>): set<Pair> {
    set k | k in counts && counts[k] > 1
  }

  /** Another answer row has the session and question of a. */
  ghost predicate Doubled(db: Db, a: int)
    requires a in db.answers
  {
    exists b :: b in db.answers && b != a
                && db.answers[b].session == db.answers[a].session && db.answers[b].question == db.answers[a].question
  }

  /** The (session, question) pairs of ids with two answer rows or more. */
  ghost function DoubledPairs(db: Db, ids: seq<int>): set<Pair> {
    set a | a in db.answers && db.answers[a].session in ids && Doubled(db, a) ::
        (db.answers[a].session, db.answers[a].question)
  }

  /** What is counted more than once is what the table holds more than once. */
  lemma RepeatedAreDoubled(rows: seq<AnswerRow>, db: Db, ids: seq<int>, seen: map<Pair, int>, counts: map<Pair, nat>)
    requires IsGroupedAnswers(rows, db, ids) && Collected(rows, seen, counts)
    ensures Repeated(counts) == DoubledPairs(db, ids)
  {
    forall k | k in Repeated(counts) ensures k in DoubledPairs(db, ids) {
      var a, b := RepeatHasTwo(rows, db, ids, k);
      assert Doubled(db, a);
    }
    forall a | a in db.answers && db.answers[a].session in ids && Doubled(db, a)
      ensures (db.answers[a].session, db.answers[a].question) in Repeated(counts)
    {
      var b :| b in db.answers && b != a
               && db.answers[b].session == db.answers[a].session && db.answers[b].question == db.answers[a].question;
      TwoAreCounted(rows, db, ids, seen, counts, a, b);
    }
  }

  lemma TwoAreDoubled(db: Db, ids: seq<int>, a: int, b: int)
    requires a in db.answers && b in db.answers && a != b && db.answers[a].session in ids
    requires db.answers[a].session == db.answers[b].session && db.answers[a].question == db.answers[b].question
    ensures |DoubledPairs(db, ids)| != 0
  {
    assert Doubled(db, a);
    assert (db.answers[a].session, db.answers[a].question) in DoubledPairs(db, ids);
  }

  /** There is no such pair exactly when every question of a session has one row
      at most. */
  lemma DoubledNone(db: Db, ids: seq<int>)
    ensures |DoubledPairs(db, ids)| == 0 <==> forall i | 0 <= i < |ids| :: NoDuplicates(db, ids[i])
  {
    if |DoubledPairs(db, ids)| == 0 {
      forall i, a, b | 0 <= i < |ids| && a in db.answers && b in db.answers
                       && db.answers[a].session == ids[i] && db.answers[b].session == ids[i]
                       && db.answers[a].question == db.answers[b].question
        ensures a == b
      {
        if a != b {
          TwoAreDoubled(db, ids, a, b);
        }
      }
    } else {
      var k := PickPair(DoubledPairs(db, ids));
      var a :| a in db.answers && db.answers[a].session in ids && Doubled(db, a)
          && k == (db.answers[a].session, db.answers[a].question);
      var i :| 0 <= i < |ids| && ids[i] == db.answers[a].session;
      assert !NoDuplicates(db, ids[i]);
    }
  }

  lemma PickPair(s: set<Pair>) returns (k: Pair)
    requires |s| != 0
    ensures k in s
  {
    k := Pick(s);
  }

  /** Without duplicates seen holds what the table holds, whatever the order of
      the rows. */
  lemma SeenIsKept(rows: seq<AnswerRow>, db: Db, ids: seq<int>, seen: map<Pair, int>, counts: map<Pair, nat>, sid: int,
      q: int, o: int)
    requires IsGroupedAnswers(rows, db, ids) && Collected(rows, seen, counts) && sid in ids && NoDuplicates(db, sid)
    ensures (sid, q) in seen && seen[(sid, q)] == o <==> Kept(db, sid, q, o)
  {
    var k := (sid, q);
    if k in seen && seen[k] == o {
      SeenAnswer(rows, db, ids, k, o);
    }
    if Kept(db, sid, q, o) {
      var a :| a in db.answers && db.answers[a].session == sid && db.answers[a].question == q
          && OptionOr0(db.answers[a].option) == o;
      assert HasAnswerRow(rows, db.answers[a]);
      var i :| 0 <= i < |rows| && rows[i].key == db.answers[a];
      assert PairOf(rows[i]) == k && HasPair(rows, k);
      SeenAnswer(rows, db, ids, k, seen[k]);
    }
  }

  /** A seen option is the option of some answer. */
  lemma SeenAnswer(rows: seq<AnswerRow>, db: Db, ids: seq<int>, k: Pair, o: int)
    requires IsGroupedAnswers(rows, db, ids) && SeenFrom(rows, k, o)
    ensures Kept(db, k.0, k.1, o)
  {
    var i :| 0 <= i < |rows| && PairOf(rows[i]) == k && OptionOr0(rows[i].key.option) == o;
    var a := Pick(SameAnswer(db, rows[i].key));
    assert db.answers[a] == rows[i].key;
  }

  lemma SeenIsAnswered(rows: seq<AnswerRow>, db: Db, ids: seq<int>, seen: map<Pair, int>, counts: map<Pair, nat>,
      sid: int, q: int)
    requires IsGroupedAnswers(rows, db, ids) && Collected(rows, seen, counts) && sid in ids
    ensures (sid, q) in seen <==> Answered(db, sid, q)
  {
    var k := (sid, q);
    if k in seen {
      SeenAnswer(rows, db, ids, k, seen[k]);
    }
    if Answered(db, sid, q) {
      var a :| a in db.answers && db.answers[a].session == sid && db.answers[a].question == q;
      assert HasAnswerRow(rows, db.answers[a]);
      var i :| 0 <= i < |rows| && rows[i].key == db.answers[a];
      assert PairOf(rows[i]) == k;
    }
  }

  predicate SeenBoth(seen: map<Pair, int>, sid: int, want: Expected) {
    (sid, want.qid) in seen && (sid, want.qid2) in seen
  }

  function NotSeen(seen: map<Pair, int>, want: Expected): int -> bool {
    sid => !SeenBoth(seen, sid, want)
  }

  function SeenOther(seen: map<Pair, int>, want: Expected): int -> bool {
    sid => SeenBoth(seen, sid, want) && (seen[(sid, want.qid)] != want.oid || seen[(sid, want.qid2)] != want.oid2)
  }

  method CheckAnswers(ids: seq<int>, seen: map<Pair, int>, want: Expected) returns (lost: nat, stale: nat)
    ensures lost == Tally(NotSeen(seen, want), ids)
    ensures stale == Tally(SeenOther(seen, want), ids)
  {
    lost, stale := 0, 0;
    for i := 0 to |ids|
      invariant lost == Tally(NotSeen(seen, want), ids[..i])
      invariant stale == Tally(SeenOther(seen, want), ids[..i])
    {
      var sid := ids[i];
      TallyNext(NotSeen(seen, want), ids, i);
      TallyNext(SeenOther(seen, want), ids, i);
      if (sid, want.qid) !in seen || (sid, want.qid2) !in seen {
        lost := lost + 1;
      } else if seen[(sid, want.qid)] != want.oid || seen[(sid, want.qid2)] != want.oid2 {
        stale := stale + 1;
      }
    }
    assert ids[..|ids|] == ids;
  }

  // ------------------------------------------------------ the log

  ghost predicate HasLogRow(rows: seq<LogRow>, key: Log) {
    exists i :: 0 <= i < |rows| && rows[i].key == key
  }

  method CollectLogs(rows: seq<LogRow>) returns (logMap: map<Log, nat>)
    requires forall i | 0 <= i < |rows| :: rows[i].n >= 1
    ensures forall k :: k in logMap <==> HasLogRow(rows, k)
    ensures forall k | k in logMap :: logMap[k] >= 1
  {
    logMap := map[];
    for i := 0 to |rows|
      invariant forall k :: k in logMap <==> HasLogRow(rows[..i], k)
      invariant forall k | k in logMap :: logMap[k] >= 1
    {
      HasLogRowNext(rows, i);
      logMap := logMap[rows[i].key := rows[i].n];
    }
    assert rows[..|rows|] == rows;
  }

  lemma HasLogRowNext(rows: seq<LogRow>, i: nat)
    requires i < |rows|
    ensures forall k :: HasLogRow(rows[..i + 1], k) <==> HasLogRow(rows[..i], k) || rows[i].key == k
  {
    forall k ensures HasLogRow(rows[..i + 1], k) <==> HasLogRow(rows[..i], k) || rows[i].key == k {
      var less, more := rows[..i], rows[..i + 1];
      assert more[i] == rows[i];
      if HasLogRow(less, k) {
        var j :| 0 <= j < |less| && less[j].key == k;
        assert more[j].key == k;
      }
      if HasLogRow(more, k) && rows[i].key != k {
        var j :| 0 <= j < |more| && more[j].key == k;
        assert less[j].key == k;
      }
    }
  }

  predicate LogsThere(logMap: map<Log, nat>, sid: int) {
    Log(sid, SessionStart) in logMap && Log(sid, ExamSubmitted) in logMap && Log(sid, ScoreBreakdown) in logMap
  }

  lemma LogsShow(rows: seq<LogRow>, db: Db, ids: seq<int>, logMap: map<Log, nat>, sid: int)
    requires IsGroupedLogs(rows, db, ids) && sid in ids && forall k :: k in logMap <==> HasLogRow(rows, k)
    ensures LogsThere(logMap, sid) <==> Audited(db, sid)
  {
    forall t: LogType | t != OtherType ensures Log(sid, t) in logMap <==> IsLogged(db, Log(sid, t)) {
      if HasLogRow(rows, Log(sid, t)) {
        var i :| 0 <= i < |rows| && rows[i].key == Log(sid, t);
        assert IsLogged(db, rows[i].key);
      }
      if IsLogged(db, Log(sid, t)) {
        var e :| e in db.logs && db.logs[e] == Log(sid, t);
      }
    }
  }

  function LogCount(logMap: map<Log, nat>, key: Log): nat {
    if key in logMap then logMap[key] else 0
  }

  function NoLogs(logMap: map<Log, nat>): int -> bool {
    sid => !LogsThere(logMap, sid)
  }

  method CheckLogs(ids: seq<int>, logMap: map<Log, nat>) returns (missing: nat)
    requires forall k | k in logMap :: logMap[k] >= 1
    ensures missing == Tally(NoLogs(logMap), ids)
  {
    missing := 0;
    for i := 0 to |ids|
      invariant missing == Tally(NoLogs(logMap), ids[..i])
    {
      var sid := ids[i];
      TallyNext(NoLogs(logMap), ids, i);
      if LogCount(logMap, Log(sid, SessionStart)) < 1 || LogCount(logMap, Log(sid, ExamSubmitted)) < 1
         || LogCount(logMap, Log(sid, ScoreBreakdown)) < 1 {
        missing := missing + 1;
      }
    }
    assert ids[..|ids|] == ids;
  }

  // ------------------------------------------------------ the verdict

  ghost function LiveUsers(db: Db, exam: int): set<int> {
    set s | s in db.sessions && LiveTwice(db, exam, db.sessions[s].user) :: db.sessions[s].user
  }

  lemma LiveNone(db: Db, exam: int)
    ensures |LiveUsers(db, exam)| == 0 <==> forall user :: !LiveTwice(db, exam, user)
  {
    if user :| LiveTwice(db, exam, user) {
      var s, t :| s in db.sessions && t in db.sessions && s != t
                  && db.sessions[s] == db.sessions[s].(user := user, exam := exam, status := InProgress)
                  && db.sessions[t] == db.sessions[t].(user := user, exam := exam, status := InProgress);
      assert db.sessions[s].user == user;
      assert user in LiveUsers(db, exam);
    } else if |LiveUsers(db, exam)| != 0 {
      var user := Pick(LiveUsers(db, exam));
    }
  }

  datatype Report = Report(errors: seq<Error>, lost: nat, dups: nat, live: nat, wrongScores: nat, missingAudit: nat,
      staleUpdate: nat)

  /** The figures as facts about the tables. */
  ghost predicate Counted(out: Report, db: Db, ids: seq<int>, want: Expected) {
    && out.wrongScores == Tally(ScoredWrong(db), ids)
    && out.lost == Tally(LostIn(db, want), ids)
    && out.missingAudit == Tally(UnauditedIn(db), ids)
    && out.dups == |DoubledPairs(db, ids)|
    && out.live == |LiveUsers(db, want.exam)|
    && (out.dups == 0 ==> out.staleUpdate == Tally(StaleIn(db, want), ids))
  }

  /** No error is reported exactly when the tables are clean. As the right-hand
      side speaks of the tables only, the verdict does not depend on the order
      in which the grouped rows arrive; nor do the figures, except that of stale
      answers where a question has two of them. */
  method AssertSessions(db: Db, ids: seq<int>, want: Expected, answers: seq<AnswerRow>, live: nat, logs: seq<LogRow>)
      returns (out: Report)
    requires IsGroupedAnswers(answers, db, ids) && live == |LiveUsers(db, want.exam)| && IsGroupedLogs(logs, db, ids)
    ensures out.errors == [] <==> Clean(db, ids, want)
    ensures ids != [] ==> Counted(out, db, ids, want)
  {
    if ids == [] {
      return Report([NoSessions], 0, 0, 0, 0, 0, 0);
    }
    var errors, wrong := CheckSessions(db, ids);
    var seen, counts := CollectAnswers(answers);
    var dups := |Repeated(counts)|;
    var lost, stale := CheckAnswers(ids, seen, want);
    var logMap := CollectLogs(logs);
    var missing := CheckLogs(ids, logMap);
    Figures(db, ids, want, answers, seen, counts, logs, logMap);
    CleanFigures(db, ids, want);
    LiveNone(db, want.exam);
    if wrong != 0 {
      errors := errors + [WrongScores(wrong)];
    }
    if dups != 0 {
      errors := errors + [DuplicateAnswers(dups)];
    }
    if lost != 0 {
      errors := errors + [LostAnswers(lost)];
    }
    if stale != 0 {
      errors := errors + [StaleUpdates(stale)];
    }
    if live != 0 {
      errors := errors + [LiveSessions(live)];
    }
    if missing != 0 {
      errors := errors + [MissingAudit(missing)];
    }
    out := Report(errors, lost, dups, live, wrong, missing, stale);
  }

  /** What the loops count is what the tables hold. */
  lemma Figures(db: Db, ids: seq<int>, want: Expected, answers: seq<AnswerRow>, seen: map<Pair, int>,
                counts: map<Pair, nat>,
                logs: seq<LogRow>, logMap: map<Log, nat>)
    requires IsGroupedAnswers(answers, db, ids) && Collected(answers, seen, counts)
    requires IsGroupedLogs(logs, db, ids) && forall k :: k in logMap <==> HasLogRow(logs, k)
    ensures Repeated(counts) == DoubledPairs(db, ids)
    ensures |Repeated(counts)| == 0 <==> forall i | 0 <= i < |ids| :: NoDuplicates(db, ids[i])
    ensures Tally(NotSeen(seen, want), ids) == Tally(LostIn(db, want), ids)
    ensures Tally(NoLogs(logMap), ids) == Tally(UnauditedIn(db), ids)
    ensures |Repeated(counts)| == 0 ==> Tally(SeenOther(seen, want), ids) == Tally(StaleIn(db, want), ids)
  {
    RepeatedAreDoubled(answers, db, ids, seen, counts);
    DoubledNone(db, ids);
    forall i | 0 <= i < |ids| ensures NoLogs(logMap)(ids[i]) == UnauditedIn(db)(ids[i]) {
      LogsShow(logs, db, ids, logMap, ids[i]);
    }
    TallySame(NoLogs(logMap), UnauditedIn(db), ids);
    forall i | 0 <= i < |ids| ensures NotSeen(seen, want)(ids[i]) == LostIn(db, want)(ids[i]) {
      SeenIsAnswered(answers, db, ids, seen, counts, ids[i], want.qid);
      SeenIsAnswered(answers, db, ids, seen, counts, ids[i], want.qid2);
    }
    TallySame(NotSeen(seen, want), LostIn(db, want), ids);
    if |Repeated(counts)| == 0 {
      forall i | 0 <= i < |ids| ensures SeenOther(seen, want)(ids[i]) == StaleIn(db, want)(ids[i]) {
        SeenIsAnswered(answers, db, ids, seen, counts, ids[i], want.qid);
        SeenIsAnswered(answers, db, ids, seen, counts, ids[i], want.qid2);
        SeenIsKept(answers, db, ids, seen, counts, ids[i], want.qid, want.oid);
        SeenIsKept(answers, db, ids, seen, counts, ids[i], want.qid2, want.oid2);
      }
      TallySame(SeenOther(seen, want), StaleIn(db, want), ids);
    }
  }

  /** Clean means that every figure is zero. */
  lemma CleanFigures(db: Db, ids: seq<int>, want: Expected)
    ensures Clean(db, ids, want) <==>
            && ids != []
            && (forall i | 0 <= i < |ids| :: ids[i] in db.sessions && db.sessions[ids[i]].status == Submitted)
            && Tally(ScoredWrong(db), ids) == 0
            && (forall i | 0 <= i < |ids| :: NoDuplicates(db, ids[i]))
            && Tally(LostIn(db, want), ids) == 0
            && Tally(StaleIn(db, want), ids) == 0
            && (forall user :: !LiveTwice(db, want.exam, user))
            && Tally(UnauditedIn(db), ids) == 0
  {
    TallyNone(ScoredWrong(db), ids);
    TallyNone(LostIn(db, want), ids);
    TallyNone(StaleIn(db, want), ids);
    TallyNone(UnauditedIn(db), ids);
    forall i | 0 <= i < |ids|
      ensures Kept(db, ids[i], want.qid, want.oid) && Kept(db, ids[i], want.qid2, want.oid2)
              <==> !LostIn(db, want)(ids[i]) && !StaleIn(db, want)(ids[i])
    {
    }
    forall i | 0 <= i < |ids|
      ensures SessionFine(db, ids[i])
              <==> ids[i] in db.sessions && db.sessions[ids[i]].status == Submitted && !ScoredWrong(db)(ids[i])
    {
    }
  }
}
