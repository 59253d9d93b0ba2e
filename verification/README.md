# Models of the exam platform's maintenance and grading logic

This project models the self-contained logic of an exam platform and proves what it promises: the year-rollover engine
that purges exams and synchronises student accounts, the activity-log pruner and its interval guard, norm-referenced
grading, the release gate of the load generator, an HTML-entity repair, and three small checkers.
`dafny verify dfyconfig.toml` checks all of it.

Code that computes values is modelled by functions; code that changes tables, globals, lists or counters step by step by
classes and loops, each tied to a specification function about which the laws are then proved. Two protocols (auto-prune
and release gate) are step systems whose theorems hold after every finite run of events, in any interleaving.

| module | what it models |
|---|---|
| `ExamPurge` | exam classification, the eleven delete statements, batches, resuming; one finite map a table |
| `ClassNames` | class names, grades and the patterns behind them |
| `StudentSync` | matching a roster against accounts, applying the plan, planning again |
| `Usernames`, `Decimals` | fresh user names with decimal suffixes |
| `NamedQuery` | `:name` SQL rewritten to `$n` SQL |
| `ActivityPrune`, `AutoPruneGuard` | batched pruning by age and cap; the double-checked interval guard |
| `Statistics`, `PanGrading` | mean, deviation, tail inequalities; letters, 0-10 grades, T-scores, UM scores |
| `ReleaseGate` | concurrent exam workers and the coordinator that releases them |
| `QuoteEntities` | decoding quote entities |
| `SessionChecker` | the database check after a lifecycle run |
| `AuditQueries` | the two zero-answer queries of the audit and its verdict |
| `Percentile` | the three percentile helpers |
| `Common` | options, results, finite sets |

## What turned out false

* `normalize_class_name` can change the grade a label starts with, in two ways. Its search for a section tries the
  alternatives X, XI, XII in that order and without anchors, so X always wins: "XII 2B" becomes "X B" and a class-twelve
  student counts as class ten (`ClassNames.TwelveTakenForTen`; so does one of "XII MIPA 1", `ClassNames.LongerMajorIsNot`).
  And its compact form glues the numeral to the next word:
  "X IA" becomes "XI A", and "XI IA" becomes "XII A", so a class-eleven student counts as class twelve and is among those
  to be deleted (`ClassNames.NumeralGlued`, `ClassNames.ElevenTakenForTwelve`). `ClassNames.GradeKeptIff` says, of every
  label that starts with a grade, exactly when that grade is kept.
* `execute_named` also rewrites the name of a `::cast`, which then must be given as a parameter
  (`NamedQuery.EveryColonNameCounts`), and the rewrite keeps the meaning of a text exactly when the text has no `$n` of its
  own (`NamedQuery.RewriteSoundIff`).
* The comment in `normalize_quote_entities` says that two passes are needed for double-encoded values. One pass is a
  complete scan; the second never changes anything (`QuoteEntities.NormalizeQuoteEntities`).
* A prune that is running while the log is reset can set the shared timestamp back behind the reset, so the next prune
  can start seconds after it (`AutoPruneGuard.ResetSetBack`). A reset holds the next prune off exactly when no prune that
  started before it is still in progress (`AutoPruneGuard.ResetHoldsIff`; `AutoPruneGuard.HeldOffIff` for any later
  moment). The spacing between successful prunes holds all the same.
* The wait loop of the release gate adds a ready count and a finished count read at different moments. For two workers or
  more and a positive start timeout, every early break at time t is truthful exactly when t is less than the workers' own
  timeout; for one worker it always is (`ReleaseGate.TruthfulIff`).
* Referential integrity alone does not protect a running exam from the purge: an answer filed under another exam's
  question is deleted with it (`ExamPurge.ForeignQuestionLosesAnswer`). All rows of an exam survive the purge of others
  exactly when none of its answers has a session, question or selected option of a purged exam
  (`ExamPurge.ExamUntouchedIff`).
* After a plan has been applied, planning again never updates, creates or deactivates, but it leaves every entry
  unchanged exactly when the first plan had no ambiguous entry and the roster repeats no name
  (`StudentSync.ReplanConvergesIff`).
* The `started_before_release` check of a phase is implied by its other checks (`ReleaseGate.PassesIffAllCompleted`), and
  the second zero-answer branch of the audit can never be taken (`AuditQueries.PostExamAuditor.Run`).

## Conventions

* Scores, times and deviations are reals. `sqrt` is not computed: a deviation is any real `sd >= 0` with
  `n * sd^2` equal to the sum of squared deviations (`Statistics.IsDeviation`).
* SQL is modelled as operations on finite maps and sets, one table a map; a limited query without a total order is any
  result its text allows. Ids handed out by the database grow.
* Text handling of class names and user names is on ASCII. `normalize_person_name` and `str.lower` are arbitrary functions,
  the latter with the one law that lower-case slugs are fixed.
* References that the schema deletes along with their parent (answers and logs of a session, options and tags of a
  question) are checked like the others; `ExamPurge.SessionsNeedEvents` and `ExamPurge.OptionsNeedNulls` speak of two that
  it does not delete along. A delete that would leave one of these dangling is refused by the database.
* The clock never goes back. Nothing else writes to the tables a method works on.

## Model

| member | source | states |
|---|---|---|
| `ExamPurge.IntegrityAtEveryStep` | scripts/maintenance_year_rollover_cleanup.py:564-654 | from a database without dangling references, any number of the eleven statements, in order, for any id set, leaves none; all that the executed ones delete or null is gone |
| `ExamPurge.StatementKeepsIntegrity` | scripts/maintenance_year_rollover_cleanup.py:564-654 | one statement is safe once the statements listed before it have cleared what refers to its rows |
| `ExamPurge.SessionsFirstDangles` | scripts/maintenance_year_rollover_cleanup.py:571-623 | the order is needed: even with the answers and logs that the schema deletes along, sessions first would leave a security event dangling |
| `ExamPurge.SessionsNeedEvents` | scripts/maintenance_year_rollover_cleanup.py:571-623 | deleting sessions with their answers and logs keeps integrity iff the security events listed before are gone |
| `ExamPurge.OptionsNeedNulls` | scripts/maintenance_year_rollover_cleanup.py:568-640 | deleting options keeps integrity iff the selections listed to be nulled before are |
| `ExamPurge.RunIsPurged` | scripts/maintenance_year_rollover_cleanup.py:564-654 | the eleven statements in sequence, each reading what the earlier ones left, equal a one-shot purge defined on the original tables |
| `ExamPurge.RowsLeft` | scripts/maintenance_year_rollover_cleanup.py:564-654 | which exams, sessions, questions and publications the statements leave, by their columns |
| `ExamPurge.QuestionPartsLeft` | scripts/maintenance_year_rollover_cleanup.py:624-640 | which options and tags they leave, by the exam of their question |
| `ExamPurge.SessionPartsLeft` | scripts/maintenance_year_rollover_cleanup.py:571-588 | which logs and events they leave, by the exam of their session; events without one stay |
| `ExamPurge.AnswersLeft` | scripts/maintenance_year_rollover_cleanup.py:589-619 | which answers they leave, and which of their selected options they null |
| `ExamPurge.StatementsInOrder` | scripts/maintenance_year_rollover_cleanup.py:570-654 | the eleven statements in the order of the list, each with the table it is skipped without |
| `ExamPurge.PurgeComplete` | scripts/maintenance_year_rollover_cleanup.py:564-654 | after a purge no reference dangles and no row of any table hangs off a target exam |
| `ExamPurge.PurgeTwice` | scripts/maintenance_year_rollover_cleanup.py:761-814 | purging two sets one after the other is purging their union, on any database |
| `ExamPurge.ChunkedIsACut` | scripts/maintenance_year_rollover_cleanup.py:754-758 | the chunks are the values in order; for a positive size in non-empty pieces, all but the last of that size |
| `ExamPurge.PurgeChunksIsPurged` | scripts/maintenance_year_rollover_cleanup.py:761-814 | any cut into batches ends in the database of one purge |
| `ExamPurge.Connection.DeleteBatch` | scripts/maintenance_year_rollover_cleanup.py:778-812 | one transaction, also with tables missing, leaves the one-shot purge of its ids and reports each statement as executed or skipped |
| `ExamPurge.Connection.HardDeleteExams` | scripts/maintenance_year_rollover_cleanup.py:761-814 | for every batch size the committed batches leave the one-shot purge of all ids; the results number them and list their ids and steps |
| `ExamPurge.SkippingIsHarmless` | scripts/maintenance_year_rollover_cleanup.py:790-799 | skipping the statement of a missing table loses nothing |
| `ExamPurge.ClassifyExams` | scripts/maintenance_year_rollover_cleanup.py:456-473 | the four lists partition the rows in order; the targets are the drafts, the finished and on request the other published exams, sorted, without duplicates |
| `ExamPurge.PlanPurge` | scripts/maintenance_year_rollover_cleanup.py:56-76 | an exam is in the plan iff it is not published, or has ended, or on request is published and not running; a running one never is; the four lists by the columns of the exam |
| `ExamPurge.LifecycleIff` | scripts/maintenance_year_rollover_cleanup.py:64-72 | the four cases of the CASE by published flag, start and end |
| `ExamPurge.TargetIff` | scripts/maintenance_year_rollover_cleanup.py:56-76 | the targets of the purge by the same columns |
| `ExamPurge.ResumeCompletes` | scripts/maintenance_year_rollover_cleanup.py:761-814 | a run stopped after any committed batch and planned again later, with any batch size, ends as one purge; by default the purge of the second plan |
| `ExamPurge.AnswerUntouchedIff` | scripts/maintenance_year_rollover_cleanup.py:590-618 | an answer is unchanged iff its session, question and selected option all belong to no purged exam |
| `ExamPurge.ExamUntouchedIff` | scripts/maintenance_year_rollover_cleanup.py:564-654 | on any database, every row of a non-target exam is unchanged in all tables iff none of its answers touches a target |
| `ExamPurge.OtherExamsUntouched` | scripts/maintenance_year_rollover_cleanup.py:564-654 | so they are when the answers of that exam stay within one exam and pick options of their questions |
| `ExamPurge.ActiveExamsSurvive` | scripts/maintenance_year_rollover_cleanup.py:456-473 | the same of every exam active at planning time, for the exam purge of the planned targets |
| `ExamPurge.ForeignQuestionLosesAnswer` | scripts/maintenance_year_rollover_cleanup.py:599-606 | without that proviso a running exam loses an answer |
| `ClassNames.NormalizedIsCanonical` | scripts/maintenance_year_rollover_cleanup.py:264-293 | every result is a grade, or a grade, a blank and a section letter A-F |
| `ClassNames.NormalizeIsIdempotent` | scripts/maintenance_year_rollover_cleanup.py:264-293 | normalising twice is normalising once |
| `ClassNames.SearchSaysX` | scripts/maintenance_year_rollover_cleanup.py:264-293 | the unanchored section search can only report grade X |
| `ClassNames.GradeKeptIff` | scripts/maintenance_year_rollover_cleanup.py:264-307 | of every label that starts with a grade, exactly when class_grade keeps it |
| `ClassNames.MajorIsGrade` | scripts/maintenance_year_rollover_cleanup.py:279-292 | a grade, a blank, one of the words IPA, IPS, IIS, MIA and anything after it is that grade |
| `ClassNames.LongerMajorIsNot` | scripts/maintenance_year_rollover_cleanup.py:285-292 | the major must be a word: "XII MIPA 1" reads as X A |
| `ClassNames.SectionIsRead` | scripts/maintenance_year_rollover_cleanup.py:273-282 | a grade, any blanks and dashes and a letter from A to F are read as that class, and as its grade |
| `ClassNames.OtherLetterIsNot` | scripts/maintenance_year_rollover_cleanup.py:273-292 | another letter is dropped |
| `ClassNames.FallbackGrade` | scripts/maintenance_year_rollover_cleanup.py:296-307 | without a canonical form the grade is the longest numeral the compact text starts with |
| `ClassNames.CleanShape` | scripts/maintenance_year_rollover_cleanup.py:265-269 | cleaned text has no lower case, no white space but single inner blanks, and plain dashes |
| `ClassNames.CleanKeepsLetters` | scripts/maintenance_year_rollover_cleanup.py:265-269 | cleaning keeps the other characters, in upper case and order |
| `ClassNames.TwelveTakenForTen` | scripts/maintenance_year_rollover_cleanup.py:310-315 | "XII 2B" is taken for class ten |
| `ClassNames.NumeralGlued` | scripts/maintenance_year_rollover_cleanup.py:273-286 | "X IA" is taken for XI A and "XI IA" for XII A |
| `ClassNames.ElevenTakenForTwelve` | scripts/maintenance_year_rollover_cleanup.py:310-311 | so "XI IA" counts as class twelve |
| `ClassNames.SheetLabelIsFixed` | scripts/maintenance_year_rollover_cleanup.py:372-377 | a class read from a sheet name is a fixed point of the normalisation |
| `ClassNames.SheetIsRead` | scripts/maintenance_year_rollover_cleanup.py:372-377 | sheets of X and XI stand for their class, sheets of XII for none |
| `StudentSync.PlanStudentSync` | scripts/maintenance_year_rollover_cleanup.py:476-546 | the loops with their growing used_ids set compute the closed form, for every roster and all accounts |
| `StudentSync.MatchEntries` | scripts/maintenance_year_rollover_cleanup.py:486-529 | used_ids holds exactly the accounts alone under a name met so far |
| `StudentSync.EachEntryOnce` | scripts/maintenance_year_rollover_cleanup.py:476-546 | the items of the four lists stand for the roster entries, in order, each entry in exactly one list: by the number of accounts with its name, by earlier entries, and unchanged iff the account is active and its class normalises to that of the entry |
| `StudentSync.ClosedFormPerName` | scripts/maintenance_year_rollover_cleanup.py:476-546 | with c accounts and r entries of a name: r creations for c = 0, r - 1 for c = 1, r ambiguities for c >= 2 |
| `StudentSync.MatchedOnceIff` | scripts/maintenance_year_rollover_cleanup.py:476-546 | an account is matched at most once, and once iff it is alone under a name of the roster |
| `StudentSync.AmbiguousIds` | scripts/maintenance_year_rollover_cleanup.py:520-545 | the ids listed as ambiguous are those of accounts sharing a roster name |
| `StudentSync.LeaversMember` | scripts/maintenance_year_rollover_cleanup.py:531-546 | an account of the pool is deactivated iff it is active and its name is not in the roster |
| `StudentSync.RosterOrderIrrelevant` | scripts/maintenance_year_rollover_cleanup.py:476-546 | who is matched, ambiguous or deactivated depends only on the set of roster names |
| `StudentSync.Users.ApplyPlan` | scripts/maintenance_year_rollover_cleanup.py:1041-1131 | class updates with reactivation, deactivations and insertions leave the specified table, ids distinct |
| `StudentSync.MatchedRowAfter` | scripts/maintenance_year_rollover_cleanup.py:1041-1062 | the account matched by an entry ends active in the class of the entry, or as it was when it was so |
| `StudentSync.LeavingRowAfter` | scripts/maintenance_year_rollover_cleanup.py:1068-1081 | an account of the pool whose name the roster lacks ends inactive, otherwise as it was |
| `StudentSync.OtherRowAfter` | scripts/maintenance_year_rollover_cleanup.py:1041-1081 | accounts outside the pool or sharing a roster name end as they were |
| `StudentSync.NewRowAfter` | scripts/maintenance_year_rollover_cleanup.py:1090-1115 | the k-th account created has the k-th user name, the next id, the name and class of its entry, and is active |
| `StudentSync.AccountsMatchRoster` | scripts/maintenance_year_rollover_cleanup.py:1041-1131 | after any plan a roster name has as many accounts as roster entries, or the two or more accounts it had before |
| `StudentSync.NoSecondLeavers` | scripts/maintenance_year_rollover_cleanup.py:531-546 | planning again after any plan deactivates nobody |
| `StudentSync.ReplanConvergesIff` | scripts/maintenance_year_rollover_cleanup.py:476-546 | planning again after any plan updates, creates and deactivates nothing, and leaves every entry unchanged iff the plan had no ambiguous entry and no two entries share a normalised name |
| `StudentSync.SettledAfter` | scripts/maintenance_year_rollover_cleanup.py:1041-1131 | after any plan an entry that shares its name with nobody has one account, active and in its class |
| `StudentSync.TwelvesAreNotInPool` | scripts/maintenance_year_rollover_cleanup.py:1034-1039 | deleting accounts of class twelve in between does not change the pool the plan was made for |
| `StudentSync.SheetClassesFit` | scripts/maintenance_year_rollover_cleanup.py:380-453 | classes taken from sheet names meet what convergence asks of the roster |
| `Usernames.Pigeonhole` | scripts/maintenance_year_rollover_cleanup.py:549-561 | k taken candidates of one base are k different taken names |
| `Usernames.FreshName` | scripts/maintenance_year_rollover_cleanup.py:553-560 | the inner loop ends within the number of taken names plus one, at the first free candidate |
| `Usernames.UniqueUsernames` | scripts/maintenance_year_rollover_cleanup.py:549-561 | each name is the first free candidate of its base; the names differ from each other and from every existing one, ignoring case |
| `Usernames.SlugOfName` | scripts/maintenance_year_rollover_cleanup.py:318-323 | a base is the first 40 slug characters of the normalised name in lower case, or "siswa" |
| `Usernames.SlugLetters` | scripts/maintenance_year_rollover_cleanup.py:318-323 | slug characters are a to z and the digits, kept in order |
| `Usernames.CandidateIs` | scripts/maintenance_year_rollover_cleanup.py:555-558 | the candidates are the base, then the base with the numerals from 2 |
| `Usernames.CandidateIsCut` | scripts/maintenance_year_rollover_cleanup.py:558 | longer candidates are cut at 100 characters |
| `Usernames.CandidatesDiffer` | scripts/maintenance_year_rollover_cleanup.py:553-560 | the cut at 100 characters is inert, so different suffixes give different names |
| `NamedQuery.Convert` | scripts/maintenance_year_rollover_cleanup.py:709-735 | the substitution with its growing list numbers each name by its place in the final, duplicate-free list |
| `NamedQuery.ExecuteNamed` | scripts/maintenance_year_rollover_cleanup.py:709-721 | a call is made iff every name is given, with the values in list order; otherwise the error names a missing one |
| `NamedQuery.RewriteKeepsMeaning` | scripts/maintenance_year_rollover_cleanup.py:709-735 | substituting by number in the rewritten text gives the text of substituting by name in the original |
| `NamedQuery.RewriteSoundIff` | scripts/maintenance_year_rollover_cleanup.py:709-735 | that holds for all values iff the text has no `$n` of its own |
| `NamedQuery.EveryColonNameCounts` | scripts/maintenance_year_rollover_cleanup.py:709-735 | every colon followed by a name counts as a parameter, casts included |
| `NamedQuery.NameIsRead` | scripts/maintenance_year_rollover_cleanup.py:709-721 | a name is letters, digits and underscores, not starting with a digit, read to its end |
| `NamedQuery.ParameterMeans` | scripts/maintenance_year_rollover_cleanup.py:709-735 | a parameter means its value, then what follows |
| `NamedQuery.OtherMeansItself` | scripts/maintenance_year_rollover_cleanup.py:709-735 | any other character means itself, a colon without a name included |
| `QuoteEntities.ReplaceAfterScan` | scripts/fix_question_quote_entities.py:48-60 | replacing one more entity after a scan equals scanning for it too |
| `QuoteEntities.InTurnIsScan` | scripts/fix_question_quote_entities.py:48-60 | replacing in turn equals one left-to-right scan |
| `QuoteEntities.AnyOrder` | scripts/fix_question_quote_entities.py:25-32 | the six replacements can run in any order |
| `QuoteEntities.NormalizeQuoteEntities` | scripts/fix_question_quote_entities.py:48-60 | with its two passes and early exit it is a single scan; None stays None |
| `QuoteEntities.DoubleQuotes` | scripts/fix_question_quote_entities.py:25-32 | which entities stand for a double quote |
| `QuoteEntities.SingleQuotes` | scripts/fix_question_quote_entities.py:25-32 | which stand for an apostrophe |
| `QuoteEntities.OtherCharsStay` | scripts/fix_question_quote_entities.py:48-60 | everything else stays |
| `QuoteEntities.DecodedFacts` | scripts/fix_question_quote_entities.py:48-64 | the result holds no marker, decoding is idempotent, and it changes a value iff the value holds a marker |
| `QuoteEntities.QuestionTable.NormalizeQuestions` | scripts/fix_question_quote_entities.py:67-106 | every candidate counts as changed; a dry run writes nothing; an apply run decodes every row and leaves no candidate |
| `ActivityPrune.OneShotIsLast` | app/api/activity.py:99-159 | keeping rows that are not stale and have fewer than cap newer ones is keeping the newest min(n - s, cap) by time and id |
| `ActivityPrune.ActivityTable.DeleteOlderThan` | app/api/activity.py:57-78 | a limited age delete removes min(limit, stale) rows and leaves a suffix of the order |
| `ActivityPrune.ActivityTable.DeleteOldest` | app/api/activity.py:81-96 | a limited cap delete removes the oldest rows |
| `ActivityPrune.ActivityTable.Round` | app/api/activity.py:122-144 | a round removes at most two batches, at least one until the target is reached, and never part of the target |
| `ActivityPrune.ActivityTable.PruneLoop` | app/api/activity.py:122-144 | survivors are always a suffix containing the target; the loop ends at the target unless the rounds run out |
| `ActivityPrune.ActivityTable.SmartPrune` | app/api/activity.py:99-159 | a row of the last so many days with fewer than cap newer rows is kept, and what goes is older than what stays; with enough rounds no older row is left and the batched prune is the one-shot prune; the counters add up and count expired and surplus rows |
| `AutoPruneGuard.RunKeepsInv` | app/api/activity.py:162-202 | the invariant of the guard holds after every run of requests, prunes, failures and resets |
| `AutoPruneGuard.AutoPruneSpacing` | app/api/activity.py:162-202 | at most one automatic prune is in progress, and successful ones start at least max(60, interval) seconds apart, in every interleaving |
| `AutoPruneGuard.IntervalIsSetting` | app/api/activity.py:170-188 | the interval is the setting, at least 60 seconds: with the lock free a prune can start at the very end of it, and none before |
| `AutoPruneGuard.FirstCheckIff` | app/api/activity.py:173-178 | a request before that is turned away at once, a later one waits for the lock |
| `AutoPruneGuard.HeldOffIff` | app/api/activity.py:173-194 | from any reachable state, prunes stay away for the interval after an instant r iff that interval is over, or the timestamp is set and neither it nor the start of a prune in progress is before r |
| `AutoPruneGuard.ResetHoldsIff` | app/api/activity.py:288-289 | a reset holds the next automatic prune off for the interval iff no prune started before it is in progress |
| `AutoPruneGuard.ResetSetBack` | app/api/activity.py:307 | a run in which one is: a prune ten seconds after a reset |
| `AutoPruneGuard.Guard.SecondCheck` | app/api/activity.py:179-188 | the locked check takes the step of the system |
| `Statistics.StandardsAreStandard` | app/api/analytics.py:508-509 | standard scores of a class sum to 0 and their squares to its size |
| `Statistics.RescaleDeviation` | app/api/analytics.py:508-509 | the deviation scales with the unit of the scores |
| `PanGrading.FewGetA` | app/api/analytics.py:285-297 | at most 4 in 13 of any class get an A |
| `PanGrading.BoundReached` | app/api/analytics.py:285-297 | a class of 13 in which 4 do, so the bound is sharp |
| `PanGrading.NotAllAboveC` | app/api/analytics.py:285-297 | at most 4 in 5 get an A or a B |
| `PanGrading.FewExtremeLetters` | app/api/analytics.py:285-297 | at most 4 in 9 get an A or an E |
| `PanGrading.FewExtremeGrades` | app/api/analytics.py:300-324 | at most 16 in 81 get a 10 or a 0 |
| `PanGrading.LetterCutoffs` | app/api/analytics.py:260-297 | the letters are cut at T = 65, 55, 45 and 35, exactly |
| `PanGrading.Scale10Cutoffs` | app/api/analytics.py:269-324 | grade g or more is exactly T at least 22.5 + 5 g |
| `PanGrading.UmInBand` | app/api/analytics.py:371-418 | a UM score lies in the band of its letter, whatever the score, the thresholds and the extremes |
| `PanGrading.UmKeepsOrder` | app/api/analytics.py:371-418 | a higher score gets no lower UM score, within and across letters, with clamping, degenerate intervals and half-even rounding |
| `PanGrading.MiddleBandsFollowT` | app/api/analytics.py:371-418 | within B, C and D the UM score is the T-score in other units, rounded: 0.4 points of UM a point of T above the cut-off |
| `PanGrading.UmOfA` | app/api/analytics.py:395-418 | an A is the rounded point of the line from 90 at the A threshold to 95 at the best score, and 92 when these coincide |
| `PanGrading.UmOfE` | app/api/analytics.py:406-418 | an E is the rounded point of the line from 70 at the worst score to 74 at the D threshold |
| `PanGrading.UmOfMiddle` | app/api/analytics.py:398-418 | in B, C and D a deviation is worth four points from 85, 80 and 75 on |
| `PanGrading.ClassUmOfA` | app/api/analytics.py:505-546 | so for the members of a class, with its best score |
| `PanGrading.ClassUmOfE` | app/api/analytics.py:505-546 | and with its worst |
| `PanGrading.LetterByScore` | app/api/analytics.py:285-297 | the letters by the thresholds |
| `PanGrading.Scale10ByScore` | app/api/analytics.py:300-324 | the 0-10 grade by the thresholds, half a deviation a grade |
| `PanGrading.TScoreToTwoPlaces` | app/api/analytics.py:528-532 | the T-score of a row is 50 + 10 z rounded to two places |
| `PanGrading.GradesFollowScores` | app/api/analytics.py:525-546 | the same for all four columns of a row |
| `PanGrading.ScoreInItsInterval` | app/api/analytics.py:390-418 | for a score of the class the clamp is inert |
| `PanGrading.TopAndFlat` | app/api/analytics.py:371-418 | a best score above the A threshold is worth 95, a worst one below the D threshold 70; a class without spread is C, 5, 50 and 82 throughout |
| `PanGrading.GradeClass` | app/api/analytics.py:505-546 | the ranking loop fills non-increasing rows and one count a letter, which sum to the class and obey the bounds |
| `PanGrading.UnitDoesNotMatter` | app/api/analytics.py:260-418 | replacing every score x by a x + b with a > 0 changes no letter, 0-10 grade, T-score or UM score |
| `ReleaseGate.RunKeeps` | scripts/prod_concurrent_exam_load.py:1421-1749 | the invariant of the phase holds after every run of steps of workers, coordinator and clock |
| `ReleaseGate.NoAnswerBeforeRelease` | scripts/prod_concurrent_exam_load.py:1481-1483 | before the release, and for good after an aborted hold, nobody answers or submits |
| `ReleaseGate.FlagsArePrefix` | scripts/prod_concurrent_exam_load.py:1511-1542 | the replies of a worker are always a prefix of start, status, remaining, answer, submit |
| `ReleaseGate.BreakIsTruthful` | scripts/prod_concurrent_exam_load.py:1688-1702 | at an early break every worker is at the gate or has failed, if one counter alone reached n, n is at most one, or no worker can have waited out its timeout |
| `ReleaseGate.PromptLoopIsTruthful` | scripts/prod_concurrent_exam_load.py:1671-1702 | the same from durations the coordinator can measure, by the slack between the two timeouts |
| `ReleaseGate.SlowScanMiscounts` | scripts/prod_concurrent_exam_load.py:1690-1700 | otherwise, for every configuration with a positive start timeout, every n >= 2 and every later time, a run that breaks on a worker still starting |
| `ReleaseGate.TruthfulIff` | scripts/prod_concurrent_exam_load.py:1671-1702 | so early breaks at time t are truthful iff t is below the release wait timeout, n <= 1 or there is no wait loop |
| `ReleaseGate.PassesIffAllCompleted` | scripts/prod_concurrent_exam_load.py:1793-1844 | a phase passes iff it has all its workers, all were ready at the snapshot, every one completed all five requests and the four server and database figures agree |
| `ReleaseGate.RunExamFlow` | scripts/prod_concurrent_exam_load.py:1421-1542 | the first missing reply ends a flow; its flags and its entries in the lists of users and sessions are those a run of its worker leaves in the step system |
| `ReleaseGate.FlowIsRun` | scripts/prod_concurrent_exam_load.py:1421-1542 | from any state, every sequence of replies is a run of the worker that ends with these flags and changes nothing but the worker, its list entries and the clock |
| `SessionChecker.AssertSessions` | scripts/go_hotpath_lifecycle.py:346-450 | no error is reported iff the tables are clean, for any order of the grouped rows; each counter is the number of sessions, pairs or users it stands for, the stale one in the absence of duplicates |
| `SessionChecker.CollectAnswers` | scripts/go_hotpath_lifecycle.py:390-399 | a pair is counted more than once iff its grouped rows show two answers; the option kept is that of one of its rows |
| `SessionChecker.RepeatedAreDoubled` | scripts/go_hotpath_lifecycle.py:390-399 | the pairs counted more than once are the (session, question) pairs with two answers in the table |
| `SessionChecker.Figures` | scripts/go_hotpath_lifecycle.py:400-437 | lost, stale and unaudited sessions as facts about the tables |
| `AuditQueries.CountQueryFindsZeros` | scripts/post_exam_audit_readonly.py:158-170 | the zero rows of the ordered, limited count query number min(limit, Z) |
| `AuditQueries.QueriesAgree` | scripts/post_exam_audit_readonly.py:184-196 | and so do the rows of the explicit outer-join query |
| `AuditQueries.PostExamAuditor.Run` | scripts/post_exam_audit_readonly.py:412-536 | the exact list of anomalies, each noted iff its query has rows; high risk iff the exam is missing or some submitted or completed session of it has no answer; the explicit branch never fires |
| `AuditQueries.PostExamAuditor.BuildReport` | scripts/post_exam_audit_readonly.py:538-544 | concern iff some anomaly is high risk |
| `Percentile.PercentilesAgree` | scripts/load_test_answer_sync.py:48-58 | the three helpers agree on every non-empty list and every p in [0, 1] |
| `Percentile.LoadFailsAbove` | scripts/load_test_answer_sync.py:53-58 | for p >= 0 the unclamped helper fails iff its rank is at least the length of the list |
| `Percentile.InputOrderIrrelevant` | scripts/synthetic_runtime_guard.py:46-58 | the order of the input does not matter |
| `Percentile.PercentileKeepsOrder` | scripts/synthetic_runtime_guard.py:46-58 | a higher p never gives a lower percentile, across segments |
| `Percentile.PercentileBetween` | scripts/prod_concurrent_exam_load.py:138-150 | percentiles stay between the least and the greatest value, which are those of p = 0 and p = 1 |
| `Percentile.PercentileIsLinear` | scripts/synthetic_runtime_guard.py:46-58 | between two neighbours in order the percentile is on the straight line through them |
| `Percentile.PercentileEdges` | scripts/prod_concurrent_exam_load.py:138-150 | p is clamped to [0, 1]; without values the helpers give 0 or nothing |

## Left out

- HTTP, drivers, subprocesses, spreadsheets, document generation, argument parsing and the graphical interface: plumbing.
- The student routes served by Go, the answer-sync service and final submit: their bodies are not part of this model.
- The function `hard_delete_users`, with one transaction a user and a fallback that deactivates, and the snapshot of `apply_changes`. It also deletes the sessions and answers of class-twelve accounts in exams that are active, so what survives is stated of the exam purge only.
- The function `_normalize_options`: the same loop as `_normalize_questions` with one column.
- The function `_pick_latest_session_with_score_per_user`; criterion-referenced letters, pass counts and score intervals: easy members.
- PanGrading.GradeClass: takes scores already rounded and sorted by the ranking sort, with names and ties left out.
- PanGrading.UnitDoesNotMatter: floating-point rounding is not modelled; arithmetic is on reals, and the rounding of raw scores to two places comes before.
- Usernames.UniqueUsernames: asks that the number of names has at most 60 decimal digits, which no set in memory exceeds; beyond that the cut at 100 characters could make the loop endless.
- ClassNames.NormalizeIsIdempotent: text is ASCII; blanks and case mapping outside ASCII are not modelled.
- StudentSync.PlanStudentSync: user names, row numbers and student numbers that plan entries carry along unread are left out.
- StudentSync.Users.ApplyPlan: transactions of 100 rows only delimit what is committed together and are not modelled; passwords and file outputs are left out.
- NamedQuery.ExecuteNamed: the driver and the types of values are left out; values are their text.
- AutoPruneGuard.AutoPruneSpacing: is about automatic prunes; the prune of a smart reset runs outside the lock.
- ReleaseGate.RunKeeps: the limit on worker threads is not modelled; a queued worker may start at any time, which allows more runs.
- ReleaseGate.RunExamFlow: takes one flow in one go; flows that interleave are the step system itself.
- SessionChecker.AssertSessions: where a question has two answers the stale counter depends on the row order; nothing is claimed of it then.
- AuditQueries.PostExamAuditor.Run: queries that only ask for a review enter as row counts.
- Percentile.PercentilesAgree: is about p in [0, 1] and non-empty lists; outside, one helper neither clamps nor checks (see `Percentile.LoadFailsAbove`), and on an empty list one returns nothing where the others return 0.
- The functions `pace_post` and `select_final_submit_rows`: small helpers without a law that spans operations.
