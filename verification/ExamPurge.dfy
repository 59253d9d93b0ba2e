/** The exam half of the year rollover: which exams are purged, the eleven
    ordered statements that purge a batch, and the batched, resumable run.
    Tables are finite maps from primary key to row; SQL NULL is None. */
module ExamPurge {
  import opened Common

  // ---------------------------------------------------------------- tables

  datatype Exam = Exam(isPublished: Option<bool>, startTime: Option<real>, endTime: Option<real>)
  datatype Session = Session(examId: int, userId: int, status: string)
  datatype Question = Question(examId: int, text: string)
  datatype QuestionOption = QuestionOption(questionId: int, text: string)
  datatype Answer = Answer(sessionId: int, questionId: int, selectedOptionId: Option<int>, text: string)
  datatype ExamLog = ExamLog(sessionId: int, eventType: string)
  datatype SecurityEvent = SecurityEvent(sessionId: Option<int>, eventType: string)
  datatype Publication = Publication(examId: int, publishAt: real)

  datatype Db = Db(
    exams: map<int, Exam>,
    sessions: map<int, Session>,
    questions: map<int, Question>,
    options: map<int, QuestionOption>,
    answers: map<int, Answer>,
    logs: map<int, ExamLog>,
    events: map<int, SecurityEvent>,
    tagsMap: set<(int, int)>,  // (question_id, tag_id)
    publications: map<int, Publication>)

  /** No row refers to a row that is not there. */
  ghost predicate Integrity(db: Db) {
    && (forall s | s in db.sessions :: db.sessions[s].examId in db.exams)
    && (forall q | q in db.questions :: db.questions[q].examId in db.exams)
    && (forall p | p in db.publications :: db.publications[p].examId in db.exams)
    && (forall o | o in db.options :: db.options[o].questionId in db.questions)
    && (forall t | t in db.tagsMap :: t.0 in db.questions)
    && (forall l | l in db.logs :: db.logs[l].sessionId in db.sessions)
    && (forall e | e in db.events :: db.events[e].sessionId.Some? ==> db.events[e].sessionId.value in db.sessions)
    && (forall a | a in db.answers ::
          && db.answers[a].sessionId in db.sessions
          && db.answers[a].questionId in db.questions
          && (db.answers[a].selectedOptionId.Some? ==> db.answers[a].selectedOptionId.value in db.options))
  }

  // ---------------------------------------------- the sub-selects of the SQL

  /** id IN (SELECT id FROM exam_sessions WHERE exam_id = ANY(ids)) */
  predicate SessionHit(db: Db, s: int, ids: set<int>) {
    s in db.sessions && db.sessions[s].examId in ids
  }

  /** id IN (SELECT id FROM questions WHERE exam_id = ANY(ids)) */
  predicate QuestionHit(db: Db, q: int, ids: set<int>) {
    q in db.questions && db.questions[q].examId in ids
  }

  /** id IN (question_options joined with the questions of ids) */
  predicate OptionHit(db: Db, o: int, ids: set<int>) {
    o in db.options && QuestionHit(db, db.options[o].questionId, ids)
  }

  predicate EventHit(db: Db, e: SecurityEvent, ids: set<int>) {
    e.sessionId.Some? && SessionHit(db, e.sessionId.value, ids)
  }

  function ClearOption(db: Db, a: Answer, ids: set<int>): Answer {
    if a.selectedOptionId.Some? && OptionHit(db, a.selectedOptionId.value, ids) then a.(selectedOptionId := None) else a
  }

  // ------------------------------------------------- the eleven statements

  datatype Statement =
    | EventsBySession | ExamLogs | Answers | AnswersByQuestion | NullSelectedOption
    | ExamSessions | QuestionTagsMap | QuestionOptions | Questions | ScheduledPublications | Exams

  const COUNT: nat := 11

  /** The position of a statement in the list of exam_delete_statements. */
  function Rank(stmt: Statement): nat {
    match stmt
    case EventsBySession => 0
    case ExamLogs => 1
    case Answers => 2
    case AnswersByQuestion => 3
    case NullSelectedOption => 4
    case ExamSessions => 5
    case QuestionTagsMap => 6
    case QuestionOptions => 7
    case Questions => 8
    case ScheduledPublications => 9
    case Exams => 10
  }

  function StatementAt(k: nat): (stmt: Statement)
    requires k < COUNT
    ensures Rank(stmt) == k
  {
    if k == 0 then EventsBySession else if k == 1 then ExamLogs else if k == 2 then Answers
    else if k == 3 then AnswersByQuestion else if k == 4 then NullSelectedOption else if k == 5 then ExamSessions
    else if k == 6 then QuestionTagsMap else if k == 7 then QuestionOptions else if k == 8 then Questions
    else if k == 9 then ScheduledPublications else Exams
  }

  /** exam_delete_statements: the statements for one batch, in order. */
  function DeleteStatements(ids: seq<int>): seq<Statement> {
    if ids == [] then [] else seq(COUNT, k requires 0 <= k < COUNT => StatementAt(k))
  }

  function KeptExams(db: Db, ids: set<int>): map<int, Exam> {
    map e | e in db.exams && e !in ids :: db.exams[e]
  }

  function KeptSessions(db: Db, ids: set<int>): map<int, Session> {
    map s | s in db.sessions && db.sessions[s].examId !in ids :: db.sessions[s]
  }

  function KeptQuestions(db: Db, ids: set<int>): map<int, Question> {
    map q | q in db.questions && db.questions[q].examId !in ids :: db.questions[q]
  }

  function KeptOptions(db: Db, ids: set<int>): map<int, QuestionOption> {
    map o | o in db.options && !QuestionHit(db, db.options[o].questionId, ids) :: db.options[o]
  }

  function KeptLogs(db: Db, ids: set<int>): map<int, ExamLog> {
    map l | l in db.logs && !SessionHit(db, db.logs[l].sessionId, ids) :: db.logs[l]
  }

  function KeptEvents(db: Db, ids: set<int>): map<int, SecurityEvent> {
    map e | e in db.events && !EventHit(db, db.events[e], ids) :: db.events[e]
  }

  function KeptTags(db: Db, ids: set<int>): set<(int, int)> {
    set t | t in db.tagsMap && !QuestionHit(db, t.0, ids)
  }

  function KeptPublications(db: Db, ids: set<int>): map<int, Publication> {
    map p | p in db.publications && db.publications[p].examId !in ids :: db.publications[p]
  }

  /** What one statement does to the database. */
  function Apply(stmt: Statement, db: Db, ids: set<int>): Db {
    match stmt
    case EventsBySession => db.(events := KeptEvents(db, ids))
    case ExamLogs => db.(logs := KeptLogs(db, ids))
    case Answers =>
      db.(answers := map a | a in db.answers && !SessionHit(db, db.answers[a].sessionId, ids) :: db.answers[a])
    case AnswersByQuestion =>
      db.(answers := map a | a in db.answers && !QuestionHit(db, db.answers[a].questionId, ids) :: db.answers[a])
    case NullSelectedOption =>
      db.(answers := map a | a in db.answers :: ClearOption(db, db.answers[a], ids))
    case ExamSessions => db.(sessions := KeptSessions(db, ids))
    case QuestionTagsMap => db.(tagsMap := KeptTags(db, ids))
    case QuestionOptions => db.(options := KeptOptions(db, ids))
    case Questions => db.(questions := KeptQuestions(db, ids))
    case ScheduledPublications => db.(publications := KeptPublications(db, ids))
    case Exams => db.(exams := KeptExams(db, ids))
  }

  /** The database after the first k statements. */
  function Run(k: nat, db: Db, ids: set<int>): Db
    requires k <= COUNT
  {
    if k == 0 then db else Apply(StatementAt(k - 1), Run(k - 1, db, ids), ids)
  }

  // --------------------------------------- referential integrity, step by step

  /** What the statement has made true once it ran: the rows it deletes, or
      the references it nulls, are gone. */
  ghost predicate Cleared(stmt: Statement, db: Db, ids: set<int>) {
    match stmt
    case EventsBySession => forall e | e in db.events :: !EventHit(db, db.events[e], ids)
    case ExamLogs => forall l | l in db.logs :: !SessionHit(db, db.logs[l].sessionId, ids)
    case Answers => forall a | a in db.answers :: !SessionHit(db, db.answers[a].sessionId, ids)
    case AnswersByQuestion => forall a | a in db.answers :: !QuestionHit(db, db.answers[a].questionId, ids)
    case NullSelectedOption =>
      forall a | a in db.answers && db.answers[a].selectedOptionId.Some? ::
        !OptionHit(db, db.answers[a].selectedOptionId.value, ids)
    case ExamSessions => forall s | s in db.sessions :: db.sessions[s].examId !in ids
    case QuestionTagsMap => forall t | t in db.tagsMap :: !QuestionHit(db, t.0, ids)
    case QuestionOptions => forall o | o in db.options :: !QuestionHit(db, db.options[o].questionId, ids)
    case Questions => forall q | q in db.questions :: db.questions[q].examId !in ids
    case ScheduledPublications => forall p | p in db.publications :: db.publications[p].examId !in ids
    case Exams => forall e | e in db.exams :: e !in ids
  }

  /** A statement never brings back what an earlier one cleared. */
  lemma ClearedStays(earlier: Statement, stmt: Statement, db: Db, ids: set<int>)
    requires Cleared(earlier, db, ids)
    ensures Cleared(earlier, Apply(stmt, db, ids), ids)
  {
  }

  /** Deleting rows nothing refers to, or nulling references, is always safe. */
  lemma LeavesKeepIntegrity(stmt: Statement, db: Db, ids: set<int>)
    requires Integrity(db)
    requires stmt !in {ExamSessions, QuestionOptions, Questions, Exams}
    ensures Integrity(Apply(stmt, db, ids))
  {
    if stmt == NullSelectedOption {
      var after := Apply(stmt, db, ids);
      forall a | a in after.answers ensures after.answers[a] == ClearOption(db, db.answers[a], ids) {}
    }
  }

  lemma SessionsKeepIntegrity(db: Db, ids: set<int>)
    requires Integrity(db)
    requires Cleared(EventsBySession, db, ids) && Cleared(ExamLogs, db, ids) && Cleared(Answers, db, ids)
    ensures Integrity(Apply(ExamSessions, db, ids))
  {
    var after := Apply(ExamSessions, db, ids);
    assert forall s | s in db.sessions && !SessionHit(db, s, ids) :: s in after.sessions;
    assert forall e | e in db.events :: !EventHit(db, db.events[e], ids);
  }

  lemma OptionsKeepIntegrity(db: Db, ids: set<int>)
    requires Integrity(db)
    requires Cleared(NullSelectedOption, db, ids)
    ensures Integrity(Apply(QuestionOptions, db, ids))
  {
    var after := Apply(QuestionOptions, db, ids);
    assert forall o | o in db.options && !OptionHit(db, o, ids) :: o in after.options;
  }

  lemma QuestionsKeepIntegrity(db: Db, ids: set<int>)
    requires Integrity(db)
    requires Cleared(AnswersByQuestion, db, ids) && Cleared(QuestionTagsMap, db, ids)
        && Cleared(QuestionOptions, db, ids)
    ensures Integrity(Apply(Questions, db, ids))
  {
    var after := Apply(Questions, db, ids);
    assert forall q | q in db.questions && !QuestionHit(db, q, ids) :: q in after.questions;
  }

  lemma ExamsKeepIntegrity(db: Db, ids: set<int>)
    requires Integrity(db)
    requires Cleared(ExamSessions, db, ids) && Cleared(Questions, db, ids) && Cleared(ScheduledPublications, db, ids)
    ensures Integrity(Apply(Exams, db, ids))
  {
  }

  /** Everything listed before stmt has run. */
  ghost predicate EarlierCleared(stmt: Statement, db: Db, ids: set<int>) {
    forall e: Statement | Rank(e) < Rank(stmt) :: Cleared(e, db, ids)
  }

  lemma SessionsInTurn(stmt: Statement, db: Db, ids: set<int>)
    requires stmt == ExamSessions && Integrity(db) && EarlierCleared(stmt, db, ids)
    ensures Integrity(Apply(stmt, db, ids))
  {
    assert Cleared(EventsBySession, db, ids) && Cleared(ExamLogs, db, ids) && Cleared(Answers, db, ids);
    SessionsKeepIntegrity(db, ids);
  }

  lemma OptionsInTurn(stmt: Statement, db: Db, ids: set<int>)
    requires stmt == QuestionOptions && Integrity(db) && EarlierCleared(stmt, db, ids)
    ensures Integrity(Apply(stmt, db, ids))
  {
    assert Cleared(NullSelectedOption, db, ids);
    OptionsKeepIntegrity(db, ids);
  }

  lemma QuestionsInTurn(stmt: Statement, db: Db, ids: set<int>)
    requires stmt == Questions && Integrity(db) && EarlierCleared(stmt, db, ids)
    ensures Integrity(Apply(stmt, db, ids))
  {
    assert Cleared(AnswersByQuestion, db, ids) && Cleared(QuestionTagsMap, db, ids)
        && Cleared(QuestionOptions, db, ids);
    QuestionsKeepIntegrity(db, ids);
  }

  lemma ExamsInTurn(stmt: Statement, db: Db, ids: set<int>)
    requires stmt == Exams && Integrity(db) && EarlierCleared(stmt, db, ids)
    ensures Integrity(Apply(stmt, db, ids))
  {
    assert Cleared(ExamSessions, db, ids) && Cleared(Questions, db, ids) && Cleared(ScheduledPublications, db, ids);
    ExamsKeepIntegrity(db, ids);
  }

  /** A statement leaves no dangling reference when the rows that refer to
      what it deletes were cleared by the statements listed before it. */
  lemma StatementKeepsIntegrity(stmt: Statement, db: Db, ids: set<int>)
    requires Integrity(db)
    requires EarlierCleared(stmt, db, ids)
    ensures Integrity(Apply(stmt, db, ids))
  {
    match stmt
    case ExamSessions => SessionsInTurn(stmt, db, ids);
    case QuestionOptions => OptionsInTurn(stmt, db, ids);
    case Questions => QuestionsInTurn(stmt, db, ids);
    case Exams => ExamsInTurn(stmt, db, ids);
    case _ => LeavesKeepIntegrity(stmt, db, ids);
  }

  /** After any number of the listed statements no reference dangles, and
      whatever those statements delete is gone. */
  lemma {:induction false} IntegrityAtEveryStep(k: nat, db: Db, ids: set<int>)
    requires k <= COUNT && Integrity(db)
    ensures Integrity(Run(k, db, ids))
    ensures forall e: Statement | Rank(e) < k :: Cleared(e, Run(k, db, ids), ids)
  {
    if k > 0 {
      IntegrityAtEveryStep(k - 1, db, ids);
      var stmt, mid := StatementAt(k - 1), Run(k - 1, db, ids);
      StatementKeepsIntegrity(stmt, mid, ids);
      forall e: Statement | Rank(e) < k ensures Cleared(e, Run(k, db, ids), ids) {
        if Rank(e) < k - 1 {
          ClearedStays(e, stmt, mid, ids);
        } else {
          assert e == stmt;
        }
      }
    }
  }

  /** Deleting the options keeps integrity exactly when the nulling listed before
      it has run: selected_option_id does not cascade. */
  lemma OptionsNeedNulls(db: Db, ids: set<int>)
    requires Integrity(db)
    ensures Integrity(Apply(QuestionOptions, db, ids)) <==> Cleared(NullSelectedOption, db, ids)
  {
    if Cleared(NullSelectedOption, db, ids) {
      OptionsKeepIntegrity(db, ids);
    } else {
      var a :| a in db.answers && db.answers[a].selectedOptionId.Some?
          && OptionHit(db, db.answers[a].selectedOptionId.value, ids);
      assert db.answers[a].selectedOptionId.value !in Apply(QuestionOptions, db, ids).options;
    }
  }

  /** Deleting the sessions before anything else: the schema takes their answers
      and logs along, but not the security events. */
  function SessionsFirst(db: Db, ids: set<int>): Db {
    db.(sessions := KeptSessions(db, ids), answers := Apply(Answers, db, ids).answers, logs := KeptLogs(db, ids))
  }

  /** That keeps integrity exactly when the events listed before are gone. */
  lemma SessionsNeedEvents(db: Db, ids: set<int>)
    requires Integrity(db)
    ensures Integrity(SessionsFirst(db, ids)) <==> Cleared(EventsBySession, db, ids)
  {
    var after := SessionsFirst(db, ids);
    assert forall s | s in db.sessions && !SessionHit(db, s, ids) :: s in after.sessions;
    if !Cleared(EventsBySession, db, ids) {
      var e :| e in db.events && EventHit(db, db.events[e], ids);
      assert db.events[e].sessionId.value !in after.sessions;
    }
  }

  /** So the order matters: an event of a target session would be left dangling,
      and the database refuses the delete. */
  lemma SessionsFirstDangles() returns (db: Db, ids: set<int>)
    ensures Integrity(db) && !Integrity(SessionsFirst(db, ids))
  {
    db := Db(map[1 := Exam(None, None, None)], map[2 := Session(1, 7, "submitted")],
             map[], map[], map[], map[], map[3 := SecurityEvent(Some(2), "started")], {}, map[]);
    ids := {1};
    assert 3 in db.events && EventHit(db, db.events[3], ids);
    SessionsNeedEvents(db, ids);
  }

  // ------------------------------------------------------ one-shot purge

  /** The database without anything that hangs off an exam in ids. */
  function Purged(db: Db, ids: set<int>): Db {
    Db(KeptExams(db, ids), KeptSessions(db, ids), KeptQuestions(db, ids), KeptOptions(db, ids), PurgedAnswers(db, ids),
       KeptLogs(db, ids), KeptEvents(db, ids), KeptTags(db, ids), KeptPublications(db, ids))
  }

  function PurgedAnswers(db: Db, ids: set<int>): map<int, Answer> {
    map a | a in db.answers
            && !SessionHit(db, db.answers[a].sessionId, ids) && !QuestionHit(db, db.answers[a].questionId, ids)
      :: ClearOption(db, db.answers[a], ids)
  }

  /** The first three statements look at tables they do not change. */
  lemma RunThree(db: Db, ids: set<int>)
    ensures Run(3, db, ids) ==
            Apply(Answers, db, ids).(events := KeptEvents(db, ids), logs := KeptLogs(db, ids))
  {
    var r1 := Apply(EventsBySession, db, ids);
    var r2 := Apply(ExamLogs, r1, ids);
    assert Run(1, db, ids) == r1 by { assert Run(0, db, ids) == db; }
    assert Run(2, db, ids) == r2;
    assert Run(3, db, ids) == Apply(Answers, r2, ids);
    assert forall s :: SessionHit(r1, s, ids) == SessionHit(db, s, ids);
    assert forall s :: SessionHit(r2, s, ids) == SessionHit(db, s, ids);
    assert KeptLogs(r1, ids) == KeptLogs(db, ids);
    assert Apply(Answers, r2, ids).answers == Apply(Answers, db, ids).answers;
  }

  /** Statements three to five together. */
  lemma AnswersInThreeSteps(db: Db, ids: set<int>)
    ensures Apply(NullSelectedOption, Apply(AnswersByQuestion, Apply(Answers, db, ids), ids), ids)
            == db.(answers := PurgedAnswers(db, ids))
  {
    var r3 := Apply(Answers, db, ids);
    var r4 := Apply(AnswersByQuestion, r3, ids);
    assert forall q :: QuestionHit(r3, q, ids) == QuestionHit(db, q, ids);
    assert forall a: Answer :: ClearOption(r4, a, ids) == ClearOption(db, a, ids);
    assert Apply(NullSelectedOption, r4, ids).answers == PurgedAnswers(db, ids);
  }

  /** A statement on answers does not look at events or logs. */
  lemma AnswersFrame(stmt: Statement, db: Db, ids: set<int>, events: map<int, SecurityEvent>, logs: map<int, ExamLog>)
    requires stmt in {Answers, AnswersByQuestion, NullSelectedOption}
    ensures Apply(stmt, db.(events := events, logs := logs), ids)
        == Apply(stmt, db, ids).(events := events, logs := logs)
  {
    var other := db.(events := events, logs := logs);
    assert forall s :: SessionHit(other, s, ids) == SessionHit(db, s, ids);
    assert forall q :: QuestionHit(other, q, ids) == QuestionHit(db, q, ids);
    assert forall a: Answer :: ClearOption(other, a, ids) == ClearOption(db, a, ids);
    assert Apply(stmt, other, ids).answers == Apply(stmt, db, ids).answers;
  }

  /** Statements one to five change events, logs and answers only. */
  lemma RunFive(db: Db, ids: set<int>)
    ensures Run(5, db, ids) ==
            db.(events := KeptEvents(db, ids), logs := KeptLogs(db, ids), answers := PurgedAnswers(db, ids))
  {
    var events, logs := KeptEvents(db, ids), KeptLogs(db, ids);
    RunThree(db, ids);
    AnswersFrame(AnswersByQuestion, Apply(Answers, db, ids), ids, events, logs);
    AnswersFrame(NullSelectedOption, Apply(AnswersByQuestion, Apply(Answers, db, ids), ids), ids, events, logs);
    AnswersInThreeSteps(db, ids);
    assert Run(4, db, ids) == Apply(AnswersByQuestion, Run(3, db, ids), ids);
    assert Run(5, db, ids) == Apply(NullSelectedOption, Run(4, db, ids), ids);
  }

  lemma SameQuestionHits(db: Db, other: Db, ids: set<int>)
    requires db.questions == other.questions
    ensures db.tagsMap == other.tagsMap ==> KeptTags(db, ids) == KeptTags(other, ids)
    ensures db.options == other.options ==> KeptOptions(db, ids) == KeptOptions(other, ids)
  {
    assert forall q :: QuestionHit(db, q, ids) == QuestionHit(other, q, ids);
  }

  /** The eleven statements together are the one-shot purge. */
  lemma RunIsPurged(db: Db, ids: set<int>)
    ensures Run(COUNT, db, ids) == Purged(db, ids)
  {
    RunFive(db, ids);
    var r6, r7 := Run(6, db, ids), Run(7, db, ids);
    assert r6 == Apply(ExamSessions, Run(5, db, ids), ids);
    SameQuestionHits(db, r6, ids);
    assert r7 == Apply(QuestionTagsMap, r6, ids);
    SameQuestionHits(db, r7, ids);
    assert Run(8, db, ids) == Apply(QuestionOptions, r7, ids);
    assert Run(9, db, ids) == Apply(Questions, Run(8, db, ids), ids);
    assert Run(10, db, ids) == Apply(ScheduledPublications, Run(9, db, ids), ids);
    assert Run(11, db, ids) == Apply(Exams, Run(10, db, ids), ids);
  }

  /** What the eleven statements leave, in terms of the columns: the rows that
      refer to no exam in ids, directly or through a row that is there. */
  lemma RowsLeft(db: Db, ids: set<int>)
    ensures var left := Run(COUNT, db, ids);
            && left.exams == (map e | e in db.exams && e !in ids :: db.exams[e])
            && left.sessions == (map s | s in db.sessions && db.sessions[s].examId !in ids :: db.sessions[s])
            && left.questions == (map q | q in db.questions && db.questions[q].examId !in ids :: db.questions[q])
            && left.publications
               == (map p | p in db.publications && db.publications[p].examId !in ids :: db.publications[p])
  {
    RunIsPurged(db, ids);
  }

  lemma QuestionPartsLeft(db: Db, ids: set<int>)
    ensures Run(COUNT, db, ids).options.Keys
            == set o | o in db.options
                       && (db.options[o].questionId in db.questions
                           ==> db.questions[db.options[o].questionId].examId !in ids)
    ensures forall o | o in Run(COUNT, db, ids).options :: Run(COUNT, db, ids).options[o] == db.options[o]
    ensures Run(COUNT, db, ids).tagsMap
            == set t | t in db.tagsMap && (t.0 in db.questions ==> db.questions[t.0].examId !in ids)
  {
    RunIsPurged(db, ids);
    assert forall o | o in db.options ::
        QuestionHit(db, db.options[o].questionId, ids)
        == (db.options[o].questionId in db.questions && db.questions[db.options[o].questionId].examId in ids);
  }

  lemma SessionPartsLeft(db: Db, ids: set<int>)
    ensures Run(COUNT, db, ids).logs.Keys
            == set l | l in db.logs
                       && (db.logs[l].sessionId in db.sessions ==> db.sessions[db.logs[l].sessionId].examId !in ids)
    ensures forall l | l in Run(COUNT, db, ids).logs :: Run(COUNT, db, ids).logs[l] == db.logs[l]
    ensures Run(COUNT, db, ids).events.Keys
            == set e | e in db.events
                       && (db.events[e].sessionId.Some? && db.events[e].sessionId.value in db.sessions ==>
                             db.sessions[db.events[e].sessionId.value].examId !in ids)
    ensures forall e | e in Run(COUNT, db, ids).events :: Run(COUNT, db, ids).events[e] == db.events[e]
  {
    RunIsPurged(db, ids);
    assert forall l | l in db.logs ::
        SessionHit(db, db.logs[l].sessionId, ids)
        == (db.logs[l].sessionId in db.sessions && db.sessions[db.logs[l].sessionId].examId in ids);
    assert forall e | e in db.events ::
        EventHit(db, db.events[e], ids)
        == (db.events[e].sessionId.Some? && db.events[e].sessionId.value in db.sessions
            && db.sessions[db.events[e].sessionId.value].examId in ids);
  }

  /** And the answers, with the selected options of such exams nulled. */
  lemma AnswersLeft(db: Db, ids: set<int>)
    ensures Run(COUNT, db, ids).answers.Keys
            == set a | a in db.answers
                       && (db.answers[a].sessionId in db.sessions
                           ==> db.sessions[db.answers[a].sessionId].examId !in ids)
                       && (db.answers[a].questionId in db.questions ==>
                             db.questions[db.answers[a].questionId].examId !in ids)
    ensures forall a | a in Run(COUNT, db, ids).answers ::
              Run(COUNT, db, ids).answers[a] == db.answers[a].(selectedOptionId := OptionLeft(db, db.answers[a], ids))
  {
    RunIsPurged(db, ids);
    assert forall a | a in db.answers ::
        SessionHit(db, db.answers[a].sessionId, ids)
        == (db.answers[a].sessionId in db.sessions && db.sessions[db.answers[a].sessionId].examId in ids);
    assert forall a | a in db.answers ::
        QuestionHit(db, db.answers[a].questionId, ids)
        == (db.answers[a].questionId in db.questions && db.questions[db.answers[a].questionId].examId in ids);
  }

  /** The selected option of a, unless it is there with its question, which is of
      an exam in ids. */
  function OptionLeft(db: Db, a: Answer, ids: set<int>): Option<int> {
    match a.selectedOptionId
    case None => None
    case Some(o) =>
      if o in db.options && db.options[o].questionId in db.questions
         && db.questions[db.options[o].questionId].examId in ids
      then None
      else Some(o)
  }

  /** A purge leaves no dangling reference and no row of a target exam. */
  lemma PurgeComplete(db: Db, ids: set<int>)
    requires Integrity(db)
    ensures Integrity(Purged(db, ids))
    ensures forall stmt :: Cleared(stmt, Purged(db, ids), ids)
  {
    IntegrityAtEveryStep(COUNT, db, ids);
    RunIsPurged(db, ids);
  }

  // ------------------------------------------------------ batches

  /** Purging in two goes is purging once, whatever the database and the sets. */
  lemma PurgeTwice(db: Db, first: set<int>, second: set<int>)
    ensures Purged(Purged(db, first), second) == Purged(db, first + second)
  {
    var left, right := Purged(Purged(db, first), second), Purged(db, first + second);
    PurgeAnswersTwice(db, first, second);
    PurgeRowsTwice(db, first, second);
    PurgeOptionsTwice(db, first, second);
    PurgeEventsTwice(db, first, second);
    assert left.answers == right.answers;
  }

  lemma PurgeRowsTwice(db: Db, first: set<int>, second: set<int>)
    ensures var left, right := Purged(Purged(db, first), second), Purged(db, first + second);
            && left.exams == right.exams && left.sessions == right.sessions && left.questions == right.questions
            && left.publications == right.publications
  {
  }

  lemma PurgeOptionsTwice(db: Db, first: set<int>, second: set<int>)
    ensures var left, right := Purged(Purged(db, first), second), Purged(db, first + second);
            left.options == right.options && left.tagsMap == right.tagsMap
  {
    HitsTwice(db, first, second);
  }

  lemma PurgeEventsTwice(db: Db, first: set<int>, second: set<int>)
    ensures var left, right := Purged(Purged(db, first), second), Purged(db, first + second);
            left.logs == right.logs && left.events == right.events
  {
    HitsTwice(db, first, second);
  }

  lemma HitsTwice(db: Db, first: set<int>, second: set<int>)
    ensures forall s ::
              SessionHit(db, s, first + second)
              <==> (SessionHit(db, s, first) || SessionHit(Purged(db, first), s, second))
    ensures forall q ::
              QuestionHit(db, q, first + second)
              <==> (QuestionHit(db, q, first) || QuestionHit(Purged(db, first), q, second))
    ensures forall o ::
              OptionHit(db, o, first + second)
              <==> (OptionHit(db, o, first) || OptionHit(Purged(db, first), o, second))
    ensures forall e: SecurityEvent ::
              EventHit(db, e, first + second) <==> EventHit(db, e, first) || EventHit(Purged(db, first), e, second)
    ensures forall a: Answer ::
              ClearOption(Purged(db, first), ClearOption(db, a, first), second) == ClearOption(db, a, first + second)
  {
  }

  lemma PurgeAnswersTwice(db: Db, first: set<int>, second: set<int>)
    ensures PurgedAnswers(Purged(db, first), second) == PurgedAnswers(db, first + second)
  {
    HitsTwice(db, first, second);
  }

  /** chunked: consecutive slices of the given size, one slice when size <= 0. */
  function Chunked(values: seq<int>, size: int): (chunks: seq<seq<int>>)
    decreases |values|
  {
    if size <= 0 then [values]
    else if values == [] then []
    else if |values| <= size then [values]
    else [values[..size]] + Chunked(values[size..], size)
  }

  function Flatten(chunks: seq<seq<int>>): seq<int> {
    if chunks == [] then [] else chunks[0] + Flatten(chunks[1..])
  }

  /** The chunks are the values, cut into pieces of the right size. */
  lemma {:induction false} ChunkedIsACut(values: seq<int>, size: int)
    ensures Flatten(Chunked(values, size)) == values
    ensures size > 0 ==> forall c | c in Chunked(values, size) :: 0 < |c| <= size
    ensures size > 0 ==> forall i | 0 <= i < |Chunked(values, size)| - 1 :: |Chunked(values, size)[i]| == size
    decreases |values|
  {
    if size > 0 && |values| > size {
      ChunkedIsACut(values[size..], size);
      assert Chunked(values, size)[1..] == Chunked(values[size..], size);
    } else if size <= 0 || values != [] {
      assert Chunked(values, size) == [values];
      assert [values][1..] == [];
    }
  }

  function PurgeChunks(db: Db, chunks: seq<seq<int>>): Db {
    if chunks == [] then db
    else Purged(PurgeChunks(db, chunks[..|chunks| - 1]), ToSet(chunks[|chunks| - 1]))
  }

  lemma PurgeNextChunk(db: Db, chunks: seq<seq<int>>, i: nat)
    requires i < |chunks|
    ensures PurgeChunks(db, chunks[..i + 1]) == Purged(PurgeChunks(db, chunks[..i]), ToSet(chunks[i]))
  {
    assert chunks[..i + 1][..i] == chunks[..i];
  }

  lemma {:induction false} FlattenAppend(chunks: seq<seq<int>>, last: seq<int>)
    ensures Flatten(chunks + [last]) == Flatten(chunks) + last
  {
    if chunks == [] {
      assert [last][1..] == [];
    } else {
      FlattenAppend(chunks[1..], last);
      assert (chunks + [last])[1..] == chunks[1..] + [last];
    }
  }

  lemma PurgeNothing(db: Db)
    ensures Purged(db, {}) == db
  {
    var p := Purged(db, {});
    assert forall q :: !QuestionHit(db, q, {});
    assert forall s :: !SessionHit(db, s, {});
    assert forall e: SecurityEvent :: !EventHit(db, e, {});
    assert forall a: Answer :: ClearOption(db, a, {}) == a;
    assert p.exams == db.exams && p.sessions == db.sessions && p.questions == db.questions && p.options == db.options;
    assert p.answers == db.answers;
    assert p.logs == db.logs && p.events == db.events && p.tagsMap == db.tagsMap && p.publications == db.publications;
  }

  /** Any cut into batches purges what one go would. */
  lemma {:induction false} PurgeChunksIsPurged(db: Db, chunks: seq<seq<int>>)
    ensures PurgeChunks(db, chunks) == Purged(db, ToSet(Flatten(chunks)))
  {
    if chunks == [] {
      PurgeNothing(db);
      assert ToSet(Flatten(chunks)) == {};
    } else {
      var init, last := chunks[..|chunks| - 1], chunks[|chunks| - 1];
      assert chunks == init + [last];
      PurgeChunksIsPurged(db, init);
      FlattenAppend(init, last);
      PurgeTwice(db, ToSet(Flatten(init)), ToSet(last));
      assert ToSet(Flatten(chunks)) == ToSet(Flatten(init)) + ToSet(last);
    }
  }

  // ------------------------------------------------------ which exams

  datatype Lifecycle = Draft | Finished | Active | OtherPublished

  /** The CASE expression of EXAM_TARGET_SQL, with SQL's three-valued logic. */
  function LifecycleOf(exam: Exam, capturedAt: real): Lifecycle {
    if exam.isPublished != Some(true) then Draft
    else if exam.endTime.Some? && exam.endTime.value <= capturedAt then Finished
    else if exam.startTime.Some? && exam.endTime.Some?
         && exam.startTime.value <= capturedAt && exam.endTime.value > capturedAt then Active
    else OtherPublished
  }

  predicate Targeted(l: Lifecycle, includeOther: bool) {
    l.Draft? || l.Finished? || (includeOther && l.OtherPublished?)
  }

  function Targets(db: Db, capturedAt: real, includeOther: bool): set<int> {
    set e | e in db.exams && Targeted(LifecycleOf(db.exams[e], capturedAt), includeOther)
  }

  datatype ExamPlan = ExamPlan(
    draftIds: seq<int>, finishedIds: seq<int>, activeIds: seq<int>, otherIds: seq<int>, targetIds: seq<int>)

  type ExamRow = (int, Lifecycle)

  function IdsWith(rows: seq<ExamRow>, l: Lifecycle): seq<int> {
    if rows == [] then []
    else IdsWith(rows[..|rows| - 1], l) + (if rows[|rows| - 1].1 == l then [rows[|rows| - 1].0] else [])
  }

  predicate StrictlySorted(s: seq<int>) {
    forall i, j | 0 <= i < j < |s| :: s[i] < s[j]
  }

  /** sorted(set(values)). */
  method SortedSet(values: seq<int>) returns (sorted: seq<int>)
    ensures StrictlySorted(sorted) && ToSet(sorted) == ToSet(values)
  {
    sorted := [];
    for i := 0 to |values|
      invariant StrictlySorted(sorted) && ToSet(sorted) == ToSet(values[..i])
    {
      var x, k := values[i], 0;
      while k < |sorted| && sorted[k] < x
        invariant 0 <= k <= |sorted| && forall j | 0 <= j < k :: sorted[j] < x
      {
        k := k + 1;
      }
      ghost var before := sorted;
      if k == |sorted| || sorted[k] != x {
        sorted := sorted[..k] + [x] + sorted[k..];
        assert ToSet(sorted) == ToSet(before) + {x};
      }
      assert values[..i + 1] == values[..i] + [x];
      assert ToSet(values[..i + 1]) == ToSet(values[..i]) + {x};
    }
    assert values[..|values|] == values;
  }

  lemma {:induction false} IdsWithMembers(rows: seq<ExamRow>, l: Lifecycle, id: int)
    ensures id in IdsWith(rows, l) <==> (id, l) in rows
  {
    if rows != [] {
      IdsWithMembers(rows[..|rows| - 1], l, id);
      assert rows == rows[..|rows| - 1] + [rows[|rows| - 1]];
    }
  }

  /** classify_exams. The four lists partition the rows in row order; the
      targets are the drafts and the finished exams, and the other published
      ones only on request, sorted and without duplicates. */
  method ClassifyExams(rows: seq<ExamRow>, includeOther: bool) returns (plan: ExamPlan)
    ensures plan.draftIds == IdsWith(rows, Draft) && plan.finishedIds == IdsWith(rows, Finished)
    ensures plan.activeIds == IdsWith(rows, Active) && plan.otherIds == IdsWith(rows, OtherPublished)
    ensures StrictlySorted(plan.targetIds)
    ensures forall id :: id in plan.targetIds <==> exists l :: (id, l) in rows && Targeted(l, includeOther)
  {
    var draftIds, finishedIds, activeIds, otherIds: seq<int> := [], [], [], [];
    for i := 0 to |rows|
      invariant draftIds == IdsWith(rows[..i], Draft) && finishedIds == IdsWith(rows[..i], Finished)
      invariant activeIds == IdsWith(rows[..i], Active) && otherIds == IdsWith(rows[..i], OtherPublished)
    {
      assert rows[..i + 1][..i] == rows[..i];
      match rows[i].1
      case Draft => draftIds := draftIds + [rows[i].0];
      case Finished => finishedIds := finishedIds + [rows[i].0];
      case Active => activeIds := activeIds + [rows[i].0];
      case OtherPublished => otherIds := otherIds + [rows[i].0];
    }
    assert rows[..|rows|] == rows;
    var targetIds := draftIds + finishedIds;
    if includeOther {
      targetIds := targetIds + otherIds;
    }
    var sorted := SortedSet(targetIds);
    forall id ensures id in sorted <==> exists l :: (id, l) in rows && Targeted(l, includeOther) {
      IdsWithMembers(rows, Draft, id);
      IdsWithMembers(rows, Finished, id);
      IdsWithMembers(rows, OtherPublished, id);
      assert id in sorted <==> id in ToSet(sorted);
      assert id in targetIds <==> id in ToSet(targetIds);
      if l :| (id, l) in rows && Targeted(l, includeOther) {
        assert l == Draft || l == Finished || l == OtherPublished;
      }
      if id in sorted {
        assert (id, Draft) in rows || (id, Finished) in rows || (includeOther && (id, OtherPublished) in rows);
      }
    }
    plan := ExamPlan(draftIds, finishedIds, activeIds, otherIds, sorted);
  }

  /** The rows of EXAM_TARGET_SQL, ordered by id. */
  ghost predicate RowsListExams(rows: seq<ExamRow>, db: Db, capturedAt: real) {
    && (forall e | e in db.exams :: (e, LifecycleOf(db.exams[e], capturedAt)) in rows)
    && (forall r | r in rows :: r.0 in db.exams && r.1 == LifecycleOf(db.exams[r.0], capturedAt))
    && (forall i, j | 0 <= i < j < |rows| :: rows[i].0 < rows[j].0)
  }

  // In terms of the columns, published being NULL or false counting as not.

  predicate IsFinished(x: Exam, at: real) {
    x.isPublished == Some(true) && x.endTime.Some? && x.endTime.value <= at
  }

  predicate IsRunning(x: Exam, at: real) {
    x.isPublished == Some(true) && x.startTime.Some? && x.startTime.value <= at && x.endTime.Some?
        && at < x.endTime.value
  }

  /** The CASE of the query, column by column. */
  lemma LifecycleIff(x: Exam, at: real)
    ensures LifecycleOf(x, at) == Draft <==> x.isPublished != Some(true)
    ensures LifecycleOf(x, at) == Finished <==> IsFinished(x, at)
    ensures LifecycleOf(x, at) == Active <==> IsRunning(x, at)
    ensures LifecycleOf(x, at) == OtherPublished
            <==> x.isPublished == Some(true) && !IsFinished(x, at) && !IsRunning(x, at)
  {
  }

  /** An exam is a target iff it is not published, or has ended, or on request
      is published and neither ended nor running. */
  predicate IsTarget(x: Exam, at: real, includeOther: bool) {
    || x.isPublished != Some(true)
    || (x.endTime.Some? && x.endTime.value <= at)
    || (includeOther && !(x.startTime.Some? && x.startTime.value <= at && x.endTime.Some? && at < x.endTime.value))
  }

  lemma TargetIff(db: Db, at: real, includeOther: bool, id: int)
    ensures id in Targets(db, at, includeOther) <==> id in db.exams && IsTarget(db.exams[id], at, includeOther)
    ensures id in db.exams && IsRunning(db.exams[id], at) ==> id !in Targets(db, at, includeOther)
  {
    if id in db.exams {
      LifecycleIff(db.exams[id], at);
    }
  }

  /** classify_exams on the fetched rows plans exactly the targets, and lists
      every exam by its columns. */
  method PlanPurge(rows: seq<ExamRow>, ghost db: Db, ghost capturedAt: real, includeOther: bool)
    returns (plan: ExamPlan)
    requires RowsListExams(rows, db, capturedAt)
    ensures StrictlySorted(plan.targetIds) && ToSet(plan.targetIds) == Targets(db, capturedAt, includeOther)
    ensures forall id :: id in plan.targetIds <==> id in db.exams && IsTarget(db.exams[id], capturedAt, includeOther)
    ensures forall id | id in db.exams && IsRunning(db.exams[id], capturedAt) :: id !in plan.targetIds
    ensures StrictlySorted(plan.draftIds) && StrictlySorted(plan.finishedIds)
    ensures StrictlySorted(plan.activeIds) && StrictlySorted(plan.otherIds)
    ensures forall id :: id in plan.draftIds <==> id in db.exams && db.exams[id].isPublished != Some(true)
    ensures forall id :: id in plan.finishedIds <==> id in db.exams && IsFinished(db.exams[id], capturedAt)
    ensures forall id :: id in plan.activeIds <==> id in db.exams && IsRunning(db.exams[id], capturedAt)
    ensures forall id ::
              id in plan.otherIds
              <==> (id in db.exams && db.exams[id].isPublished == Some(true)
                  && !IsFinished(db.exams[id], capturedAt) && !IsRunning(db.exams[id], capturedAt))
  {
    plan := ClassifyExams(rows, includeOther);
    forall id ensures id in plan.targetIds <==> id in Targets(db, capturedAt, includeOther) {
      if id in Targets(db, capturedAt, includeOther) {
        assert (id, LifecycleOf(db.exams[id], capturedAt)) in rows;
      }
    }
    forall id ensures id in plan.targetIds <==> id in db.exams && IsTarget(db.exams[id], capturedAt, includeOther) {
      TargetIff(db, capturedAt, includeOther, id);
    }
    forall id | id in db.exams && IsRunning(db.exams[id], capturedAt) ensures id !in plan.targetIds {
      TargetIff(db, capturedAt, includeOther, id);
    }
    ListsByColumns(rows, db, capturedAt);
  }

  lemma ListsByColumns(rows: seq<ExamRow>, db: Db, at: real)
    requires RowsListExams(rows, db, at)
    ensures StrictlySorted(IdsWith(rows, Draft)) && StrictlySorted(IdsWith(rows, Finished))
    ensures StrictlySorted(IdsWith(rows, Active)) && StrictlySorted(IdsWith(rows, OtherPublished))
    ensures forall id :: id in IdsWith(rows, Draft) <==> id in db.exams && db.exams[id].isPublished != Some(true)
    ensures forall id :: id in IdsWith(rows, Finished) <==> id in db.exams && IsFinished(db.exams[id], at)
    ensures forall id :: id in IdsWith(rows, Active) <==> id in db.exams && IsRunning(db.exams[id], at)
    ensures forall id ::
              id in IdsWith(rows, OtherPublished)
              <==> (id in db.exams && db.exams[id].isPublished == Some(true)
                  && !IsFinished(db.exams[id], at) && !IsRunning(db.exams[id], at))
  {
    IdsWithSorted(rows, Draft);
    IdsWithSorted(rows, Finished);
    IdsWithSorted(rows, Active);
    IdsWithSorted(rows, OtherPublished);
    forall id
      ensures id in IdsWith(rows, Draft) <==> id in db.exams && db.exams[id].isPublished != Some(true)
      ensures id in IdsWith(rows, Finished) <==> id in db.exams && IsFinished(db.exams[id], at)
      ensures id in IdsWith(rows, Active) <==> id in db.exams && IsRunning(db.exams[id], at)
    {
      ListedByColumns(rows, db, at, Draft, id);
      ListedByColumns(rows, db, at, Finished, id);
      ListedByColumns(rows, db, at, Active, id);
    }
    forall id
      ensures id in IdsWith(rows, OtherPublished)
              <==> (id in db.exams && db.exams[id].isPublished == Some(true)
                    && !IsFinished(db.exams[id], at) && !IsRunning(db.exams[id], at))
    {
      ListedByColumns(rows, db, at, OtherPublished, id);
    }
  }

  lemma ListedByColumns(rows: seq<ExamRow>, db: Db, at: real, l: Lifecycle, id: int)
    requires RowsListExams(rows, db, at)
    ensures id in IdsWith(rows, l) <==> id in db.exams && LifecycleOf(db.exams[id], at) == l
    ensures id in db.exams ==>
              && (LifecycleOf(db.exams[id], at) == Draft <==> db.exams[id].isPublished != Some(true))
              && (LifecycleOf(db.exams[id], at) == Finished <==> IsFinished(db.exams[id], at))
              && (LifecycleOf(db.exams[id], at) == Active <==> IsRunning(db.exams[id], at))
  {
    IdsWithMembers(rows, l, id);
    if id in db.exams {
      assert (id, LifecycleOf(db.exams[id], at)) in rows;
      var i :| 0 <= i < |rows| && rows[i] == (id, LifecycleOf(db.exams[id], at));
      LifecycleIff(db.exams[id], at);
    }
  }

  lemma {:induction false} IdsWithSorted(rows: seq<ExamRow>, l: Lifecycle)
    requires forall i, j | 0 <= i < j < |rows| :: rows[i].0 < rows[j].0
    ensures StrictlySorted(IdsWith(rows, l))
  {
    if rows != [] {
      var n := |rows| - 1;
      IdsWithSorted(rows[..n], l);
      var before := IdsWith(rows[..n], l);
      forall k | 0 <= k < |before| ensures before[k] < rows[n].0 {
        IdsWithMembers(rows[..n], l, before[k]);
        var i :| 0 <= i < n && rows[..n][i] == (before[k], l);
        assert rows[i].0 < rows[n].0;
      }
    }
  }

  // ------------------------------------------------------ stop and resume

  lemma TargetsAfterPurge(db: Db, done: set<int>, capturedAt: real, includeOther: bool)
    ensures Targets(Purged(db, done), capturedAt, includeOther) == Targets(db, capturedAt, includeOther) - done
  {
  }

  /** A run that stops after any number of committed batches, followed by a
      new run that plans again at its own time and uses its own batch size,
      ends as one purge of what both planned; with the default flag and a
      clock that does not go back, that is one purge of the second plan. */
  lemma ResumeCompletes(db: Db, firstAt: real, secondAt: real, includeOther: bool, first: seq<int>, second: seq<int>,
                        firstSize: int, secondSize: int, k: nat)
    requires firstAt <= secondAt
    requires ToSet(first) == Targets(db, firstAt, includeOther)
    requires k <= |Chunked(first, firstSize)|
    requires ToSet(second) == Targets(PurgeChunks(db, Chunked(first, firstSize)[..k]), secondAt, includeOther)
    ensures var done := ToSet(Flatten(Chunked(first, firstSize)[..k]));
            && done <= ToSet(first)
            && PurgeChunks(PurgeChunks(db, Chunked(first, firstSize)[..k]), Chunked(second, secondSize))
               == Purged(db, done + Targets(db, secondAt, includeOther))
    ensures !includeOther || firstAt == secondAt ==>
              PurgeChunks(PurgeChunks(db, Chunked(first, firstSize)[..k]), Chunked(second, secondSize))
              == Purged(db, Targets(db, secondAt, includeOther))
  {
    var chunks := Chunked(first, firstSize);
    var done := ToSet(Flatten(chunks[..k]));
    var mid := PurgeChunks(db, chunks[..k]);
    FlattenPrefix(chunks, k);
    ChunkedIsACut(first, firstSize);
    ChunkedIsACut(second, secondSize);
    PurgeChunksIsPurged(db, chunks[..k]);
    TargetsAfterPurge(db, done, secondAt, includeOther);
    PurgeChunksIsPurged(mid, Chunked(second, secondSize));
    PurgeTwice(db, done, ToSet(second));
    assert done + ToSet(second) == done + Targets(db, secondAt, includeOther);
    if !includeOther || firstAt == secondAt {
      forall e | e in Targets(db, firstAt, includeOther) ensures e in Targets(db, secondAt, includeOther) {
        assert LifecycleOf(db.exams[e], firstAt) == LifecycleOf(db.exams[e], secondAt);
      }
      assert done + Targets(db, secondAt, includeOther) == Targets(db, secondAt, includeOther);
    }
  }

  lemma {:induction false} FlattenPrefix(chunks: seq<seq<int>>, k: nat)
    requires k <= |chunks|
    ensures ToSet(Flatten(chunks[..k])) <= ToSet(Flatten(chunks))
  {
    if k > 0 {
      FlattenPrefix(chunks[1..], k - 1);
      assert chunks[..k][1..] == chunks[1..][..k - 1];
      forall x | x in Flatten(chunks[..k]) ensures x in Flatten(chunks) {
        assert x in chunks[0] || x in ToSet(Flatten(chunks[1..][..k - 1]));
      }
    }
  }

  // ------------------------------------------------------ what is left alone

  /** The answer has a session, question or selected option of an exam in ids. */
  predicate AnswerHit(db: Db, ids: set<int>, a: int)
    requires a in db.answers
  {
    || SessionHit(db, db.answers[a].sessionId, ids)
    || QuestionHit(db, db.answers[a].questionId, ids)
    || (db.answers[a].selectedOptionId.Some? && OptionHit(db, db.answers[a].selectedOptionId.value, ids))
  }

  /** No answer of exam e touches an exam in ids. */
  ghost predicate NoAnswerHit(db: Db, ids: set<int>, e: int) {
    forall a | a in AnswersOf(db, e) :: !AnswerHit(db, ids, a)
  }

  /** Each answer of exam e stays within one exam and picks an option of its
      question. */
  ghost predicate Consistent(db: Db, e: int) {
    forall a | a in AnswersOf(db, e) ::
      && (db.answers[a].sessionId in db.sessions && db.answers[a].questionId in db.questions ==>
            db.sessions[db.answers[a].sessionId].examId == db.questions[db.answers[a].questionId].examId)
      && (db.answers[a].selectedOptionId.Some? && db.answers[a].selectedOptionId.value in db.options ==>
            db.options[db.answers[a].selectedOptionId.value].questionId == db.answers[a].questionId)
  }

  /** The rows that belong to exam e, directly or through a parent row. */
  function RowsOf(db: Db, e: int): Db {
    Db(
      map x | x in db.exams && x == e :: db.exams[x],
      map s | s in db.sessions && db.sessions[s].examId == e :: db.sessions[s],
      map q | q in db.questions && db.questions[q].examId == e :: db.questions[q],
      OptionsOf(db, e), AnswersOf(db, e), LogsOf(db, e), EventsOf(db, e), TagsOf(db, e),
      map p | p in db.publications && db.publications[p].examId == e :: db.publications[p])
  }

  function OptionsOf(db: Db, e: int): map<int, QuestionOption> {
    map o | o in db.options && QuestionHit(db, db.options[o].questionId, {e}) :: db.options[o]
  }

  function LogsOf(db: Db, e: int): map<int, ExamLog> {
    map l | l in db.logs && SessionHit(db, db.logs[l].sessionId, {e}) :: db.logs[l]
  }

  function EventsOf(db: Db, e: int): map<int, SecurityEvent> {
    map v | v in db.events && EventHit(db, db.events[v], {e}) :: db.events[v]
  }

  function TagsOf(db: Db, e: int): set<(int, int)> {
    set t | t in db.tagsMap && QuestionHit(db, t.0, {e})
  }

  function AnswersOf(db: Db, e: int): map<int, Answer> {
    map a | a in db.answers
            && (SessionHit(db, db.answers[a].sessionId, {e}) || QuestionHit(db, db.answers[a].questionId, {e}))
      :: db.answers[a]
  }

  lemma OtherHitsUntouched(db: Db, ids: set<int>, e: int)
    requires e !in ids
    ensures var p := Purged(db, ids);
            && (forall q :: QuestionHit(p, q, {e}) == QuestionHit(db, q, {e}))
            && (forall s :: SessionHit(p, s, {e}) == SessionHit(db, s, {e}))
            && (forall v: SecurityEvent :: EventHit(p, v, {e}) == EventHit(db, v, {e}))
    ensures forall q :: QuestionHit(db, q, {e}) ==> !QuestionHit(db, q, ids)
    ensures forall s :: SessionHit(db, s, {e}) ==> !SessionHit(db, s, ids)
    ensures forall v: SecurityEvent :: EventHit(db, v, {e}) ==> !EventHit(db, v, ids)
  {
  }

  /** A purge leaves every row of another exam exactly as it was iff no answer of
      that exam touches a purged one. */
  lemma ExamUntouchedIff(db: Db, ids: set<int>, e: int)
    requires e !in ids
    ensures RowsOf(Purged(db, ids), e) == RowsOf(db, e) <==> NoAnswerHit(db, ids, e)
  {
    AnswersUntouchedIff(db, ids, e);
    OtherChildrenUntouched(db, ids, e);
    OtherOwnUntouched(db, ids, e);
  }

  lemma ConsistentNotHit(db: Db, ids: set<int>, e: int)
    requires Consistent(db, e) && e !in ids
    ensures NoAnswerHit(db, ids, e)
  {
  }

  /** In particular when its answers are consistent. */
  lemma OtherExamsUntouched(db: Db, ids: set<int>, e: int)
    requires Consistent(db, e) && e !in ids
    ensures RowsOf(Purged(db, ids), e) == RowsOf(db, e)
  {
    ConsistentNotHit(db, ids, e);
    ExamUntouchedIff(db, ids, e);
  }

  lemma OtherOwnUntouched(db: Db, ids: set<int>, e: int)
    requires e !in ids
    ensures var before, after := RowsOf(db, e), RowsOf(Purged(db, ids), e);
            && after.exams == before.exams && after.sessions == before.sessions
            && after.questions == before.questions && after.publications == before.publications
  {
  }

  lemma OtherChildrenUntouched(db: Db, ids: set<int>, e: int)
    requires e !in ids
    ensures var p := Purged(db, ids);
            && OptionsOf(p, e) == OptionsOf(db, e) && LogsOf(p, e) == LogsOf(db, e)
            && EventsOf(p, e) == EventsOf(db, e) && TagsOf(p, e) == TagsOf(db, e)
  {
    OtherHitsUntouched(db, ids, e);
  }

  lemma AnswersUntouchedIff(db: Db, ids: set<int>, e: int)
    requires e !in ids
    ensures AnswersOf(Purged(db, ids), e) == AnswersOf(db, e) <==> NoAnswerHit(db, ids, e)
  {
    var p := Purged(db, ids);
    OtherHitsUntouched(db, ids, e);
    if NoAnswerHit(db, ids, e) {
      forall a | a in AnswersOf(db, e) ensures a in p.answers && p.answers[a] == db.answers[a] {
      }
      forall a | a in AnswersOf(p, e) ensures a in AnswersOf(db, e) {
        assert a in p.answers && p.answers[a] == ClearOption(db, db.answers[a], ids);
      }
    } else {
      var a :| a in AnswersOf(db, e) && AnswerHit(db, ids, a);
      AnswerUntouchedIff(db, ids, a);
    }
  }

  /** An answer stays exactly as it is iff it does not touch a purged exam. */
  lemma AnswerUntouchedIff(db: Db, ids: set<int>, a: int)
    requires a in db.answers
    ensures (a in Purged(db, ids).answers && Purged(db, ids).answers[a] == db.answers[a]) <==> !AnswerHit(db, ids, a)
  {
    assert db.answers[a].selectedOptionId.Some? && OptionHit(db, db.answers[a].selectedOptionId.value, ids) ==>
             ClearOption(db, db.answers[a], ids).selectedOptionId == None;
  }

  /** An exam running at the planning time is never a target: all its rows
      survive the purge unless one of its answers touches a target, and so they
      do when its answers are consistent. */
  lemma ActiveExamsSurvive(db: Db, capturedAt: real, includeOther: bool, e: int)
    requires e in db.exams && IsRunning(db.exams[e], capturedAt)
    ensures var ids := Targets(db, capturedAt, includeOther);
            && e !in ids
            && (RowsOf(Purged(db, ids), e) == RowsOf(db, e) <==> NoAnswerHit(db, ids, e))
            && (Consistent(db, e) ==> NoAnswerHit(db, ids, e))
  {
    var ids := Targets(db, capturedAt, includeOther);
    TargetIff(db, capturedAt, includeOther, e);
    ExamUntouchedIff(db, ids, e);
    if Consistent(db, e) {
      ConsistentNotHit(db, ids, e);
    }
  }

  /** Referential integrity alone does not protect a running exam: an answer
      filed in its session under a draft exam's question is deleted. */
  lemma ForeignQuestionLosesAnswer() returns (db: Db, at: real, e: int)
    ensures Integrity(db) && e in db.exams && IsRunning(db.exams[e], at)
    ensures RowsOf(Purged(db, Targets(db, at, false)), e) != RowsOf(db, e)
  {
    db := Db(map[1 := Exam(Some(true), Some(0.0), Some(9.0)), 2 := Exam(Some(false), None, None)],
             map[10 := Session(1, 7, "in_progress")], map[20 := Question(2, "?")], map[],
             map[30 := Answer(10, 20, None, "")], map[], map[], {}, map[]);
    at, e := 5.0, 1;
    var ids := Targets(db, 5.0, false);
    assert 2 in ids && QuestionHit(db, 20, ids);
    assert 30 in AnswersOf(db, 1) && 30 !in PurgedAnswers(db, ids);
    assert 30 !in AnswersOf(Purged(db, ids), 1);
  }

  // ------------------------------------------------------ the batched run

  datatype Table =
    | TSecurityEvents | TExamLogs | TAnswers | TExamSessions | TQuestionTagsMap
    | TQuestionOptions | TQuestions | TScheduledPublications | TExams

  /** primary_by_label. */
  function Primary(stmt: Statement): Table {
    match stmt
    case EventsBySession => TSecurityEvents
    case ExamLogs => TExamLogs
    case Answers => TAnswers
    case AnswersByQuestion => TAnswers
    case NullSelectedOption => TAnswers
    case ExamSessions => TExamSessions
    case QuestionTagsMap => TQuestionTagsMap
    case QuestionOptions => TQuestionOptions
    case Questions => TQuestions
    case ScheduledPublications => TScheduledPublications
    case Exams => TExams
  }

  /** A table that does not exist has no rows. */
  ghost predicate OnlyIn(db: Db, tables: set<Table>) {
    && (TSecurityEvents !in tables ==> db.events == map[])
    && (TExamLogs !in tables ==> db.logs == map[])
    && (TAnswers !in tables ==> db.answers == map[])
    && (TExamSessions !in tables ==> db.sessions == map[])
    && (TQuestionTagsMap !in tables ==> db.tagsMap == {})
    && (TQuestionOptions !in tables ==> db.options == map[])
    && (TQuestions !in tables ==> db.questions == map[])
    && (TScheduledPublications !in tables ==> db.publications == map[])
    && (TExams !in tables ==> db.exams == map[])
  }

  lemma SkippingIsHarmless(stmt: Statement, db: Db, ids: set<int>, tables: set<Table>)
    requires OnlyIn(db, tables)
    ensures OnlyIn(Apply(stmt, db, ids), tables)
    ensures Primary(stmt) !in tables ==> Apply(stmt, db, ids) == db
  {
    var after := Apply(stmt, db, ids);
    assert after.answers.Keys <= db.answers.Keys;
    assert after.sessions.Keys <= db.sessions.Keys && after.questions.Keys <= db.questions.Keys;
    assert after.options.Keys <= db.options.Keys && after.exams.Keys <= db.exams.Keys;
  }

  datatype StepResult = Executed(stmt: Statement) | Skipped(stmt: Statement)
  datatype BatchResult = BatchResult(batch: nat, examIds: seq<int>, steps: seq<StepResult>)

  function StepOf(stmt: Statement, tables: set<Table>): StepResult {
    StepWhen(stmt, Primary(stmt) in tables)
  }

  /** The steps of one batch: every statement in order, executed or skipped. */
  function StepsOf(ids: seq<int>, tables: set<Table>): seq<StepResult> {
    if ids == [] then [] else seq(COUNT, k requires 0 <= k < COUNT => StepOf(StatementAt(k), tables))
  }

  /** The statements in the order of the list, each with the table it needs. */
  lemma StatementsInOrder(ids: seq<int>, tables: set<Table>)
    requires ids != []
    ensures DeleteStatements(ids)
            == [EventsBySession, ExamLogs, Answers, AnswersByQuestion, NullSelectedOption, ExamSessions,
                QuestionTagsMap,
                QuestionOptions, Questions, ScheduledPublications, Exams]
    ensures StepsOf(ids, tables)
            == [StepWhen(EventsBySession, TSecurityEvents in tables), StepWhen(ExamLogs, TExamLogs in tables),
                StepWhen(Answers, TAnswers in tables), StepWhen(AnswersByQuestion, TAnswers in tables),
                StepWhen(NullSelectedOption, TAnswers in tables), StepWhen(ExamSessions, TExamSessions in tables),
                StepWhen(QuestionTagsMap, TQuestionTagsMap in tables),
                StepWhen(QuestionOptions, TQuestionOptions in tables), StepWhen(Questions, TQuestions in tables),
                StepWhen(ScheduledPublications, TScheduledPublications in tables), StepWhen(Exams, TExams in tables)]
  {
  }

  function StepWhen(stmt: Statement, there: bool): StepResult {
    if there then Executed(stmt) else Skipped(stmt)
  }

  /** One numbered result a batch, in order, with its steps. */
  predicate Reported(results: seq<BatchResult>, chunks: seq<seq<int>>, tables: set<Table>) {
    |results| == |chunks|
    && forall i | 0 <= i < |results| :: results[i] == BatchResult(i + 1, chunks[i], StepsOf(chunks[i], tables))
  }

  /** An open database connection. */
  class Connection {
    var db: Db

    constructor (db: Db)
      ensures this.db == db
    {
      this.db := db;
    }

    /** execute_named on one of the purge statements. */
    method Execute(stmt: Statement, ids: seq<int>)
      modifies this
      ensures db == Apply(stmt, old(db), ToSet(ids))
    {
      db := Apply(stmt, db, ToSet(ids));
    }

    /** One statement of a batch, skipped when its table does not exist. */
    method Step(stmt: Statement, ids: seq<int>, tables: set<Table>) returns (step: StepResult)
      requires OnlyIn(db, tables)
      modifies this
      ensures db == Apply(stmt, old(db), ToSet(ids)) && OnlyIn(db, tables)
      ensures step == StepOf(stmt, tables)
    {
      SkippingIsHarmless(stmt, db, ToSet(ids), tables);
      if Primary(stmt) !in tables {
        step := Skipped(stmt);
      } else {
        Execute(stmt, ids);
        step := Executed(stmt);
      }
    }

    /** One transaction of hard_delete_exams. */
    method DeleteBatch(ids: seq<int>, tables: set<Table>) returns (steps: seq<StepResult>)
      requires OnlyIn(db, tables)
      modifies this
      ensures db == Purged(old(db), ToSet(ids)) && OnlyIn(db, tables)
      ensures steps == StepsOf(ids, tables)
    {
      steps := [];
      var stmts := DeleteStatements(ids);
      if ids == [] {
        assert ToSet(ids) == {};
        PurgeNothing(db);
        return;
      }
      ghost var before, targets := db, ToSet(ids);
      for k := 0 to |stmts|
        invariant |steps| == k && forall j | 0 <= j < k :: steps[j] == StepOf(StatementAt(j), tables)
        invariant OnlyIn(db, tables) && db == Run(k, before, targets)
      {
        var step := Step(stmts[k], ids, tables);
        steps := steps + [step];
      }
      RunIsPurged(before, targets);
    }

    method CommitBatch(batch: nat, ids: seq<int>, tables: set<Table>) returns (result: BatchResult)
      requires OnlyIn(db, tables)
      modifies this
      ensures db == Purged(old(db), ToSet(ids)) && OnlyIn(db, tables)
      ensures result == BatchResult(batch, ids, StepsOf(ids, tables))
    {
      var steps := DeleteBatch(ids, tables);
      result := BatchResult(batch, ids, steps);
    }

    /** hard_delete_exams: whatever the batch size and the missing tables, the
        committed batches leave the one-shot purge of the requested exams. */
    method HardDeleteExams(examIds: seq<int>, tables: set<Table>, batchSize: int) returns (results: seq<BatchResult>)
      requires OnlyIn(db, tables)
      modifies this
      ensures db == Purged(old(db), ToSet(examIds))
      ensures examIds == [] ==> results == []
      ensures examIds != [] ==> Reported(results, Chunked(examIds, batchSize), tables)
    {
      results := [];
      if examIds == [] {
        assert ToSet(examIds) == {};
        PurgeNothing(db);
        return;
      }
      var chunks := Chunked(examIds, batchSize);
      ghost var before := db;
      for i := 0 to |chunks|
        invariant Reported(results, chunks[..i], tables)
        invariant OnlyIn(db, tables) && db == PurgeChunks(before, chunks[..i])
      {
        var result := CommitBatch(i + 1, chunks[i], tables);
        results := results + [result];
        PurgeNextChunk(before, chunks, i);
      }
      assert chunks[..|chunks|] == chunks;
      PurgeChunksIsPurged(before, chunks);
      ChunkedIsACut(examIds, batchSize);
    }
  }
}
