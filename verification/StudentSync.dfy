/** The student half of the year rollover: matching a class roster against the
    accounts, applying the plan, and planning again. */
module StudentSync {
  import opened Common
  import ClassNames

  datatype RosterStudent = RosterStudent(
    fullName: string, studentClass: string, sourceSheet: string, rowNumber: int, nisn: Option<string>)

  datatype DbStudent = DbStudent(
    id: int, username: string, fullName: string, studentClass: Option<string>, isActive: bool)

  datatype Match = Match(userId: int, oldClass: Option<string>, newClass: string, sourceSheet: string)

  datatype Ambiguity = Ambiguity(fullName: string, studentClass: string, sourceSheet: string, candidateIds: seq<int>)

  datatype MatchPlan = MatchPlan(
    matchedUpdates: seq<Match>, createNew: seq<RosterStudent>, ambiguous: seq<Ambiguity>,
    deactivate: seq<DbStudent>, upToDate: seq<Match>)

  /** The three functions the matching leans on: normalize_person_name,
      normalize_class_name and is_class_ten_or_eleven. */
  datatype Rules = Rules(
    norm: string -> string, canon: Option<string> -> Option<string>, eligible: Option<string> -> bool)

  /** The program's own rules for classes; names go through any normaliser. */
  function ProgramRules(norm: string -> string): Rules {
    Rules(norm, v => ClassNames.NormalizeClassName(v), v => ClassNames.IsClassTenOrEleven(v))
  }

  // ------------------------------------------------------ the pool, by name

  predicate InPool(rules: Rules, s: DbStudent) {
    rules.eligible(s.studentClass)
  }

  function Pool(rules: Rules, rows: seq<DbStudent>): seq<DbStudent> {
    if rows == [] then []
    else
      var last := rows[|rows| - 1];
      Pool(rules, rows[..|rows| - 1]) + (if InPool(rules, last) then [last] else [])
  }

  function Named(rules: Rules, rows: seq<DbStudent>, name: string): seq<DbStudent> {
    if rows == [] then []
    else
      var last := rows[|rows| - 1];
      Named(rules, rows[..|rows| - 1], name) + (if rules.norm(last.fullName) == name then [last] else [])
  }

  function Ids(rows: seq<DbStudent>): seq<int> {
    seq(|rows|, i requires 0 <= i < |rows| => rows[i].id)
  }

  ghost predicate DistinctIds(rows: seq<DbStudent>) {
    forall i, j | 0 <= i < j < |rows| :: rows[i].id != rows[j].id
  }

  predicate InRoster(rules: Rules, roster: seq<RosterStudent>, name: string) {
    exists i | 0 <= i < |roster| :: rules.norm(roster[i].fullName) == name
  }

  lemma {:induction false} PoolMember(rules: Rules, rows: seq<DbStudent>, s: DbStudent)
    ensures s in Pool(rules, rows) <==> s in rows && InPool(rules, s)
  {
    if rows != [] {
      PoolMember(rules, rows[..|rows| - 1], s);
      assert rows == rows[..|rows| - 1] + [rows[|rows| - 1]];
    }
  }

  lemma {:induction false} NamedMember(rules: Rules, rows: seq<DbStudent>, name: string, s: DbStudent)
    ensures s in Named(rules, rows, name) <==> s in rows && rules.norm(s.fullName) == name
  {
    if rows != [] {
      NamedMember(rules, rows[..|rows| - 1], name, s);
      assert rows == rows[..|rows| - 1] + [rows[|rows| - 1]];
    }
  }

  // ------------------------------------------------------ the closed form

  datatype Outcome = Create | Matched(student: DbStudent) | Ambiguous(candidates: seq<DbStudent>)

  /** What becomes of roster entry i: it depends on the number of accounts with
      its name and on whether an earlier entry has the same name. */
  function OutcomeAt(rules: Rules, roster: seq<RosterStudent>, pool: seq<DbStudent>, i: nat): Outcome
    requires i < |roster|
  {
    var name := rules.norm(roster[i].fullName);
    var accounts := Named(rules, pool, name);
    if |accounts| >= 2 then Ambiguous(accounts)
    else if |accounts| == 1 && !InRoster(rules, roster[..i], name) then Matched(accounts[0])
    else Create
  }

  function MatchOf(s: DbStudent, entry: RosterStudent): Match {
    Match(s.id, s.studentClass, entry.studentClass, entry.sourceSheet)
  }

  predicate NeedsNothing(rules: Rules, s: DbStudent, entry: RosterStudent) {
    rules.canon(s.studentClass) == Some(entry.studentClass) && s.isActive
  }

  function AmbiguityOf(candidates: seq<DbStudent>, entry: RosterStudent): Ambiguity {
    Ambiguity(entry.fullName, entry.studentClass, entry.sourceSheet, Ids(candidates))
  }

  /** The plan with one more roster entry in the list its outcome calls for. */
  function AddEntry(rules: Rules, plan: MatchPlan, entry: RosterStudent, o: Outcome): MatchPlan {
    match o
    case Create => plan.(createNew := plan.createNew + [entry])
    case Matched(s) =>
      if NeedsNothing(rules, s, entry) then plan.(upToDate := plan.upToDate + [MatchOf(s, entry)])
      else plan.(matchedUpdates := plan.matchedUpdates + [MatchOf(s, entry)])
    case Ambiguous(candidates) => plan.(ambiguous := plan.ambiguous + [AmbiguityOf(candidates, entry)])
  }

  /** The plan after the first k roster entries, without the deactivations. */
  function PlanUpTo(rules: Rules, roster: seq<RosterStudent>, pool: seq<DbStudent>, k: nat): MatchPlan
    requires k <= |roster|
  {
    if k == 0 then MatchPlan([], [], [], [], [])
    else AddEntry(rules, PlanUpTo(rules, roster, pool, k - 1), roster[k - 1], OutcomeAt(rules, roster, pool, k - 1))
  }

  /** The pool students that are active and whose name the roster lacks. */
  function Leavers(rules: Rules, roster: seq<RosterStudent>, pool: seq<DbStudent>): seq<DbStudent> {
    if pool == [] then []
    else
      var last := pool[|pool| - 1];
      Leavers(rules, roster, pool[..|pool| - 1])
      + (if last.isActive && !InRoster(rules, roster, rules.norm(last.fullName)) then [last] else [])
  }

  function PlanOf(rules: Rules, roster: seq<RosterStudent>, rows: seq<DbStudent>): MatchPlan {
    PlanUpTo(rules, roster, Pool(rules, rows), |roster|).(deactivate := Leavers(rules, roster, Pool(rules, rows)))
  }

  // ------------------------------------------------------ plan_student_sync

  /** The candidates not used yet, in account order. */
  function Unused(rows: seq<DbStudent>, used: set<int>): seq<DbStudent> {
    if rows == [] then []
    else
      var last := rows[|rows| - 1];
      Unused(rows[..|rows| - 1], used) + (if last.id !in used then [last] else [])
  }

  /** used_ids after k entries: the accounts that are alone under a name some
      earlier entry has. */
  ghost predicate UsedAfter(rules: Rules, roster: seq<RosterStudent>, pool: seq<DbStudent>, k: nat, used: set<int>)
    requires k <= |roster|
  {
    forall s | s in pool ::
      s.id in used
      <==> (|Named(rules, pool, rules.norm(s.fullName))| == 1
            && InRoster(rules, roster[..k], rules.norm(s.fullName)))
  }

  lemma {:induction false} DistinctPool(rules: Rules, rows: seq<DbStudent>)
    requires DistinctIds(rows)
    ensures DistinctIds(Pool(rules, rows))
  {
    if rows != [] {
      var init, last := rows[..|rows| - 1], rows[|rows| - 1];
      DistinctPool(rules, init);
      forall s | s in Pool(rules, init) ensures s.id != last.id {
        PoolMember(rules, init, s);
      }
    }
  }

  lemma {:induction false} AllUnused(rows: seq<DbStudent>, used: set<int>)
    requires forall s | s in rows :: s.id !in used
    ensures Unused(rows, used) == rows
  {
    if rows != [] {
      AllUnused(rows[..|rows| - 1], used);
      assert rows == rows[..|rows| - 1] + [rows[|rows| - 1]];
    }
  }

  /** What the growing used_ids set leaves of the candidates is what the closed
      form says. */
  lemma UnusedCandidates(rules: Rules, roster: seq<RosterStudent>, pool: seq<DbStudent>, k: nat, used: set<int>)
    requires k < |roster| && UsedAfter(rules, roster, pool, k, used)
    ensures var candidates := Unused(Named(rules, pool, rules.norm(roster[k].fullName)), used);
            OutcomeAt(rules, roster, pool, k) == OutcomeOf(candidates)
  {
    var name := rules.norm(roster[k].fullName);
    var accounts := Named(rules, pool, name);
    if |accounts| == 1 {
      var s := accounts[0];
      NamedMember(rules, pool, name, s);
      assert accounts == [s] && accounts[..0] == [];
      assert Unused(accounts, used) == if s.id in used then [] else [s];
    } else {
      forall s | s in accounts ensures s.id !in used {
        NamedMember(rules, pool, name, s);
      }
      AllUnused(accounts, used);
    }
  }

  lemma InRosterSnoc(rules: Rules, roster: seq<RosterStudent>, k: nat, name: string)
    requires k < |roster|
    ensures InRoster(rules, roster[..k + 1], name)
        <==> InRoster(rules, roster[..k], name) || rules.norm(roster[k].fullName) == name
  {
    var longer := roster[..k + 1];
    if InRoster(rules, longer, name) {
      var i :| 0 <= i < |longer| && rules.norm(longer[i].fullName) == name;
      assert i == k || rules.norm(roster[..k][i].fullName) == name;
    }
    if InRoster(rules, roster[..k], name) {
      var i :| 0 <= i < k && rules.norm(roster[..k][i].fullName) == name;
      assert rules.norm(longer[i].fullName) == name;
    }
    assert longer[k] == roster[k];
  }

  lemma UsedGrows(rules: Rules, roster: seq<RosterStudent>, pool: seq<DbStudent>, k: nat, used: set<int>)
    requires k < |roster| && DistinctIds(pool) && UsedAfter(rules, roster, pool, k, used)
    ensures var o := OutcomeAt(rules, roster, pool, k);
            UsedAfter(rules, roster, pool, k + 1, if o.Matched? then used + {o.student.id} else used)
  {
    var name := rules.norm(roster[k].fullName);
    var accounts, o := Named(rules, pool, name), OutcomeAt(rules, roster, pool, k);
    forall s | s in pool
      ensures s.id in (if o.Matched? then used + {o.student.id} else used)
              <==> (|Named(rules, pool, rules.norm(s.fullName))| == 1
                    && InRoster(rules, roster[..k + 1], rules.norm(s.fullName)))
    {
      InRosterSnoc(rules, roster, k, rules.norm(s.fullName));
      if |accounts| == 1 {
        NamedMember(rules, pool, name, accounts[0]);
        NamedMember(rules, pool, name, s);
        assert s.id == accounts[0].id ==> s == accounts[0];
      }
    }
  }

  lemma CandidateIds(pool: seq<DbStudent>, candidates: seq<DbStudent>, s: DbStudent)
    requires s in pool && DistinctIds(pool) && forall c | c in candidates :: c in pool
    ensures s.id in Ids(candidates) <==> s in candidates
  {
    if s.id in Ids(candidates) {
      var j :| 0 <= j < |candidates| && Ids(candidates)[j] == s.id;
      assert candidates[j] in pool;
    }
    if s in candidates {
      var j :| 0 <= j < |candidates| && candidates[j] == s;
      assert Ids(candidates)[j] == s.id;
    }
  }

  predicate ListedAmbiguous(plan: MatchPlan, id: int) {
    exists a | a in plan.ambiguous :: id in a.candidateIds
  }

  lemma ListedSnoc(plan: MatchPlan, before: MatchPlan, a: Ambiguity, id: int)
    requires plan.ambiguous == before.ambiguous + [a]
    ensures ListedAmbiguous(plan, id) <==> ListedAmbiguous(before, id) || id in a.candidateIds
  {
    assert a in plan.ambiguous;
    if ListedAmbiguous(before, id) {
      var b :| b in before.ambiguous && id in b.candidateIds;
      assert b in plan.ambiguous;
    }
  }

  /** The listed candidate ids are the ids of accounts sharing a roster name. */
  lemma {:induction false} AmbiguousIds(rules: Rules, roster: seq<RosterStudent>, pool: seq<DbStudent>, k: nat,
      s: DbStudent)
    requires k <= |roster| && s in pool && DistinctIds(pool)
    ensures ListedAmbiguous(PlanUpTo(rules, roster, pool, k), s.id)
            <==> (|Named(rules, pool, rules.norm(s.fullName))| >= 2
                  && InRoster(rules, roster[..k], rules.norm(s.fullName)))
  {
    if k > 0 {
      AmbiguousIds(rules, roster, pool, k - 1, s);
      InRosterSnoc(rules, roster, k - 1, rules.norm(s.fullName));
      var plan, before := PlanUpTo(rules, roster, pool, k), PlanUpTo(rules, roster, pool, k - 1);
      var entry, o := roster[k - 1], OutcomeAt(rules, roster, pool, k - 1);
      if o.Ambiguous? {
        var name := rules.norm(entry.fullName);
        NamedMember(rules, pool, name, s);
        forall c | c in o.candidates ensures c in pool {
          NamedMember(rules, pool, name, c);
        }
        CandidateIds(pool, o.candidates, s);
        ListedSnoc(plan, before, AmbiguityOf(o.candidates, entry), s.id);
      } else {
        assert plan.ambiguous == before.ambiguous;
      }
    }
  }

  /** by_name.get(name, []) */
  function Lookup(byName: map<string, seq<DbStudent>>, name: string): seq<DbStudent> {
    if name in byName then byName[name] else []
  }

  lemma MatchNext(rules: Rules, roster: seq<RosterStudent>, pool: seq<DbStudent>, k: nat, used: set<int>,
      candidates: seq<DbStudent>)
    requires k < |roster| && DistinctIds(pool) && UsedAfter(rules, roster, pool, k, used)
    requires candidates == Unused(Named(rules, pool, rules.norm(roster[k].fullName)), used)
    ensures PlanUpTo(rules, roster, pool, k + 1)
            == AddEntry(rules, PlanUpTo(rules, roster, pool, k), roster[k], OutcomeOf(candidates))
    ensures UsedAfter(rules, roster, pool, k + 1, if |candidates| == 1 then used + {candidates[0].id} else used)
  {
    UnusedCandidates(rules, roster, pool, k, used);
    UsedGrows(rules, roster, pool, k, used);
  }

  /** by_name: the pool grouped by normalised name, in pool order. */
  method GroupByName(rules: Rules, pool: seq<DbStudent>) returns (byName: map<string, seq<DbStudent>>)
    ensures forall n :: Lookup(byName, n) == Named(rules, pool, n)
  {
    byName := map[];
    for i := 0 to |pool|
      invariant forall n | n in byName :: byName[n] == Named(rules, pool[..i], n)
      invariant forall n | n !in byName :: Named(rules, pool[..i], n) == []
    {
      var name := rules.norm(pool[i].fullName);
      assert pool[..i + 1][..i] == pool[..i];
      byName := byName[name := (if name in byName then byName[name] else []) + [pool[i]]];
    }
    assert pool[..|pool|] == pool;
  }

  /** What a list of unused candidates means for an entry. */
  function OutcomeOf(candidates: seq<DbStudent>): Outcome {
    if |candidates| == 0 then Create
    else if |candidates| == 1 then Matched(candidates[0])
    else Ambiguous(candidates)
  }

  /** The body of that loop. */
  method PlaceEntry(rules: Rules, before: MatchPlan, used: set<int>, entry: RosterStudent, candidates: seq<DbStudent>)
    returns (plan: MatchPlan, usedIds: set<int>)
    ensures plan == AddEntry(rules, before, entry, OutcomeOf(candidates))
    ensures usedIds == if |candidates| == 1 then used + {candidates[0].id} else used
  {
    plan, usedIds := before, used;
    if |candidates| == 1 {
      var student := candidates[0];
      usedIds := usedIds + {student.id};
      if rules.canon(student.studentClass) == Some(entry.studentClass) && student.isActive {
        plan := plan.(upToDate := plan.upToDate + [MatchOf(student, entry)]);
      } else {
        plan := plan.(matchedUpdates := plan.matchedUpdates + [MatchOf(student, entry)]);
      }
    } else if |candidates| == 0 {
      plan := plan.(createNew := plan.createNew + [entry]);
    } else {
      plan := plan.(ambiguous := plan.ambiguous + [AmbiguityOf(candidates, entry)]);
    }
  }

  /** The first loop of plan_student_sync. */
  method MatchEntries(rules: Rules, roster: seq<RosterStudent>, pool: seq<DbStudent>)
    returns (plan: MatchPlan, usedIds: set<int>)
    requires DistinctIds(pool)
    ensures plan == PlanUpTo(rules, roster, pool, |roster|)
    ensures UsedAfter(rules, roster, pool, |roster|, usedIds)
  {
    var byName := GroupByName(rules, pool);
    usedIds := {};
    plan := MatchPlan([], [], [], [], []);
    for k := 0 to |roster|
      invariant plan == PlanUpTo(rules, roster, pool, k)
      invariant UsedAfter(rules, roster, pool, k, usedIds)
    {
      var entry := roster[k];
      var name := rules.norm(entry.fullName);
      var candidates := Unused(Lookup(byName, name), usedIds);
      MatchNext(rules, roster, pool, k, usedIds, candidates);
      plan, usedIds := PlaceEntry(rules, plan, usedIds, entry, candidates);
    }
  }

  /** plan_student_sync. The growing used_ids set and the lists it fills give
      exactly the closed form, whatever the roster and the accounts. */
  method PlanStudentSync(rules: Rules, roster: seq<RosterStudent>, dbStudents: seq<DbStudent>)
    returns (plan: MatchPlan)
    requires DistinctIds(dbStudents)
    ensures plan == PlanOf(rules, roster, dbStudents)
  {
    var pool := Pool(rules, dbStudents);
    DistinctPool(rules, dbStudents);
    var usedIds: set<int>;
    plan, usedIds := MatchEntries(rules, roster, pool);
    ghost var matched := plan;
    NoDeactivations(rules, roster, pool, |roster|);
    assert roster[..|roster|] == roster;
    for i := 0 to |pool|
      invariant plan == matched.(deactivate := Leavers(rules, roster, pool[..i]))
    {
      var student := pool[i];
      assert pool[..i + 1][..i] == pool[..i];
      AmbiguousIds(rules, roster, pool, |roster|, student);
      NamedMember(rules, pool, rules.norm(student.fullName), student);
      if student.id !in usedIds && !ListedAmbiguous(plan, student.id) && student.isActive {
        plan := plan.(deactivate := plan.deactivate + [student]);
      }
    }
    assert pool[..|pool|] == pool;
  }

  lemma {:induction false} NoDeactivations(rules: Rules, roster: seq<RosterStudent>, pool: seq<DbStudent>, k: nat)
    requires k <= |roster|
    ensures PlanUpTo(rules, roster, pool, k).deactivate == []
  {
    if k > 0 {
      NoDeactivations(rules, roster, pool, k - 1);
    }
  }

  // ------------------------------------------------------ counts per name

  function CountNamed(rules: Rules, entries: seq<RosterStudent>, name: string): nat {
    if entries == [] then 0
    else
      CountNamed(rules, entries[..|entries| - 1], name)
      + (if rules.norm(entries[|entries| - 1].fullName) == name then 1 else 0)
  }

  function CountAmbiguous(rules: Rules, list: seq<Ambiguity>, name: string): nat {
    if list == [] then 0
    else
      CountAmbiguous(rules, list[..|list| - 1], name) + (if rules.norm(list[|list| - 1].fullName) == name then 1 else 0)
  }

  function CountUser(matches: seq<Match>, id: int): nat {
    if matches == [] then 0
    else CountUser(matches[..|matches| - 1], id) + (if matches[|matches| - 1].userId == id then 1 else 0)
  }

  lemma {:induction false} CountPositiveIff(rules: Rules, entries: seq<RosterStudent>, name: string)
    ensures CountNamed(rules, entries, name) > 0 <==> InRoster(rules, entries, name)
  {
    if entries != [] {
      var k := |entries| - 1;
      CountPositiveIff(rules, entries[..k], name);
      InRosterSnoc(rules, entries, k, name);
      assert entries[..k + 1] == entries;
    }
  }

  /** For each list of a plan, which roster entry its items were made for. */
  datatype Places = Places(upToDate: seq<nat>, updates: seq<nat>, created: seq<nat>, ambiguous: seq<nat>)

  ghost predicate Increasing(ixs: seq<nat>, k: nat) {
    && (forall j | 0 <= j < |ixs| :: ixs[j] < k)
    && (forall a, b | 0 <= a < b < |ixs| :: ixs[a] < ixs[b])
  }

  lemma IncreasingSnoc(ixs: seq<nat>, k: nat)
    requires Increasing(ixs, k)
    ensures Increasing(ixs, k + 1) && Increasing(ixs + [k], k + 1)
    ensures k !in ixs && forall i | 0 <= i < k :: i in ixs + [k] <==> i in ixs
  {
  }

  /** m carries the only account with the name of the entry, and its classes. */
  ghost predicate MatchesEntry(rules: Rules, pool: seq<DbStudent>, m: Match, entry: RosterStudent) {
    var accounts := Named(rules, pool, rules.norm(entry.fullName));
    |accounts| == 1 && m == Match(accounts[0].id, accounts[0].studentClass, entry.studentClass, entry.sourceSheet)
  }

  ghost predicate MatchesFor(rules: Rules, pool: seq<DbStudent>, list: seq<Match>, ixs: seq<nat>,
                             roster: seq<RosterStudent>, k: nat) {
    && Increasing(ixs, k) && k <= |roster| && |list| == |ixs|
    && forall j | 0 <= j < |list| :: MatchesEntry(rules, pool, list[j], roster[ixs[j]])
  }

  ghost predicate CreatedFor(list: seq<RosterStudent>, ixs: seq<nat>, roster: seq<RosterStudent>, k: nat) {
    && Increasing(ixs, k) && k <= |roster| && |list| == |ixs|
    && forall j | 0 <= j < |list| :: list[j] == roster[ixs[j]]
  }

  /** a carries the entry and the ids of all accounts with its name. */
  ghost predicate AmbiguousEntry(rules: Rules, pool: seq<DbStudent>, a: Ambiguity, entry: RosterStudent) {
    var accounts := Named(rules, pool, rules.norm(entry.fullName));
    && a.fullName == entry.fullName && a.studentClass == entry.studentClass && a.sourceSheet == entry.sourceSheet
    && |a.candidateIds| == |accounts|
    && forall j | 0 <= j < |accounts| :: a.candidateIds[j] == accounts[j].id
  }

  ghost predicate AmbiguousFor(rules: Rules, pool: seq<DbStudent>, list: seq<Ambiguity>, ixs: seq<nat>,
                               roster: seq<RosterStudent>, k: nat) {
    && Increasing(ixs, k) && k <= |roster| && |list| == |ixs|
    && forall j | 0 <= j < |list| :: AmbiguousEntry(rules, pool, list[j], roster[ixs[j]])
  }

  /** In how many of the lists entry i is placed. */
  function PlacedIn(at: Places, i: nat): nat {
    One(i in at.upToDate) + One(i in at.updates) + One(i in at.created) + One(i in at.ambiguous)
  }

  /** The items of the lists, in order, stand for the first k roster entries,
      each in exactly one list. */
  ghost predicate Placed(rules: Rules, pool: seq<DbStudent>, plan: MatchPlan, at: Places, roster: seq<RosterStudent>,
                         k: nat) {
    && MatchesFor(rules, pool, plan.upToDate, at.upToDate, roster, k)
    && MatchesFor(rules, pool, plan.matchedUpdates, at.updates, roster, k)
    && CreatedFor(plan.createNew, at.created, roster, k)
    && AmbiguousFor(rules, pool, plan.ambiguous, at.ambiguous, roster, k)
    && forall i | 0 <= i < k :: PlacedIn(at, i) == 1
  }

  function PlaceNext(at: Places, k: nat, settled: bool, o: Outcome): Places {
    match o
    case Create => at.(created := at.created + [k])
    case Matched(_) => if settled then at.(upToDate := at.upToDate + [k]) else at.(updates := at.updates + [k])
    case Ambiguous(_) => at.(ambiguous := at.ambiguous + [k])
  }

  lemma PlacedOnce(at: Places, k: nat, settled: bool, o: Outcome)
    requires Increasing(at.upToDate, k) && Increasing(at.updates, k) && Increasing(at.created, k)
        && Increasing(at.ambiguous, k)
    requires forall i | 0 <= i < k :: PlacedIn(at, i) == 1
    ensures forall i | 0 <= i < k + 1 :: PlacedIn(PlaceNext(at, k, settled, o), i) == 1
  {
    IncreasingSnoc(at.upToDate, k);
    IncreasingSnoc(at.updates, k);
    IncreasingSnoc(at.created, k);
    IncreasingSnoc(at.ambiguous, k);
    var next := PlaceNext(at, k, settled, o);
    forall i | 0 <= i < k + 1 ensures PlacedIn(next, i) == 1 {
      if i == k {
        assert k !in at.upToDate && k !in at.updates && k !in at.created && k !in at.ambiguous;
        SnocHas(at.upToDate, k);
        SnocHas(at.updates, k);
        SnocHas(at.created, k);
        SnocHas(at.ambiguous, k);
      } else {
        assert PlacedIn(at, i) == 1;
        assert (i in next.upToDate <==> i in at.upToDate) && (i in next.updates <==> i in at.updates);
        assert (i in next.created <==> i in at.created) && (i in next.ambiguous <==> i in at.ambiguous);
      }
    }
  }

  lemma SnocHas(ixs: seq<nat>, k: nat)
    ensures k in ixs + [k]
  {
  }

  lemma PlacedNext(rules: Rules, pool: seq<DbStudent>, plan: MatchPlan, at: Places, roster: seq<RosterStudent>, k: nat,
                   o: Outcome)
    requires k < |roster| && Placed(rules, pool, plan, at, roster, k) && o == OutcomeAt(rules, roster, pool, k)
    ensures var settled := o.Matched? && NeedsNothing(rules, o.student, roster[k]);
            Placed(rules, pool, AddEntry(rules, plan, roster[k], o), PlaceNext(at, k, settled, o), roster, k + 1)
  {
    PlacedOnce(at, k, o.Matched? && NeedsNothing(rules, o.student, roster[k]), o);
    IncreasingSnoc(at.upToDate, k);
    IncreasingSnoc(at.updates, k);
    IncreasingSnoc(at.created, k);
    IncreasingSnoc(at.ambiguous, k);
  }

  lemma PlacedEntry(rules: Rules, roster: seq<RosterStudent>, pool: seq<DbStudent>, k: nat, at: Places)
    returns (next: Places)
    requires k < |roster| && Placed(rules, pool, PlanUpTo(rules, roster, pool, k), at, roster, k)
    ensures Placed(rules, pool, PlanUpTo(rules, roster, pool, k + 1), next, roster, k + 1)
    ensures var o := OutcomeAt(rules, roster, pool, k);
            next == PlaceNext(at, k, o.Matched? && NeedsNothing(rules, o.student, roster[k]), o)
  {
    var o := OutcomeAt(rules, roster, pool, k);
    PlacedNext(rules, pool, PlanUpTo(rules, roster, pool, k), at, roster, k, o);
    next := PlaceNext(at, k, o.Matched? && NeedsNothing(rules, o.student, roster[k]), o);
  }

  /** Which list entry i is in, by the fields: ambiguous for two accounts or more
      with its name; created for none, or when an earlier entry took the only
      one; else unchanged when that account is active and its class normalises
      to the class of the entry, and updated when not. */
  ghost predicate ListedByFields(rules: Rules, roster: seq<RosterStudent>, pool: seq<DbStudent>, at: Places, i: nat)
    requires i < |roster|
  {
    var accounts := Named(rules, pool, rules.norm(roster[i].fullName));
    var taken := exists j | 0 <= j < i :: rules.norm(roster[j].fullName) == rules.norm(roster[i].fullName);
    && (i in at.ambiguous <==> |accounts| >= 2)
    && (i in at.created <==> |accounts| == 0 || (|accounts| == 1 && taken))
    && (i in at.upToDate <==> (|accounts| == 1 && !taken && accounts[0].isActive
                               && rules.canon(accounts[0].studentClass) == Some(roster[i].studentClass)))
    && (i in at.updates <==> (|accounts| == 1 && !taken
                              && !(accounts[0].isActive
                                   && rules.canon(accounts[0].studentClass) == Some(roster[i].studentClass))))
  }

  lemma TakenBefore(rules: Rules, roster: seq<RosterStudent>, i: nat, name: string)
    requires i < |roster|
    ensures InRoster(rules, roster[..i], name) <==> exists j | 0 <= j < i :: rules.norm(roster[j].fullName) == name
  {
    if j :| 0 <= j < i && rules.norm(roster[j].fullName) == name {
      assert rules.norm(roster[..i][j].fullName) == name;
    }
    if InRoster(rules, roster[..i], name) {
      var j :| 0 <= j < i && rules.norm(roster[..i][j].fullName) == name;
      assert rules.norm(roster[j].fullName) == name;
    }
  }

  lemma LastByFields(rules: Rules, roster: seq<RosterStudent>, pool: seq<DbStudent>, at: Places, i: nat)
    requires i < |roster|
    requires Increasing(at.upToDate, i) && Increasing(at.updates, i) && Increasing(at.created, i)
    requires Increasing(at.ambiguous, i)
    ensures var o := OutcomeAt(rules, roster, pool, i);
            var settled := o.Matched? && NeedsNothing(rules, o.student, roster[i]);
            ListedByFields(rules, roster, pool, PlaceNext(at, i, settled, o), i)
  {
    TakenBefore(rules, roster, i, rules.norm(roster[i].fullName));
    IncreasingSnoc(at.upToDate, i);
    IncreasingSnoc(at.updates, i);
    IncreasingSnoc(at.created, i);
    IncreasingSnoc(at.ambiguous, i);
    SnocHas(at.upToDate, i);
    SnocHas(at.updates, i);
    SnocHas(at.created, i);
    SnocHas(at.ambiguous, i);
  }

  lemma SameByFields(rules: Rules, roster: seq<RosterStudent>, pool: seq<DbStudent>, at: Places, next: Places, i: nat)
    requires i < |roster| && ListedByFields(rules, roster, pool, at, i)
    requires (i in at.upToDate <==> i in next.upToDate) && (i in at.updates <==> i in next.updates)
    requires (i in at.created <==> i in next.created) && (i in at.ambiguous <==> i in next.ambiguous)
    ensures ListedByFields(rules, roster, pool, next, i)
  {
  }

  /** Every roster entry lands in exactly one list, in roster order: in the one
      that the fields call for. */
  lemma {:induction false} EachEntryOnce(rules: Rules, roster: seq<RosterStudent>, pool: seq<DbStudent>, k: nat)
    returns (at: Places)
    requires k <= |roster|
    ensures Placed(rules, pool, PlanUpTo(rules, roster, pool, k), at, roster, k)
    ensures forall i | 0 <= i < k :: ListedByFields(rules, roster, pool, at, i)
  {
    if k == 0 {
      at := Places([], [], [], []);
    } else {
      var before := EachEntryOnce(rules, roster, pool, k - 1);
      at := PlacedEntry(rules, roster, pool, k - 1, before);
      forall i | 0 <= i < k ensures ListedByFields(rules, roster, pool, at, i) {
        if i == k - 1 {
          LastByFields(rules, roster, pool, before, i);
        } else {
          NextHas(before, k - 1, at, i);
          SameByFields(rules, roster, pool, before, at, i);
        }
      }
    }
  }

  lemma NextHas(at: Places, k: nat, next: Places, i: nat)
    requires Increasing(at.upToDate, k) && Increasing(at.updates, k) && Increasing(at.created, k)
    requires Increasing(at.ambiguous, k) && i < k
    requires exists settled, o :: next == PlaceNext(at, k, settled, o)
    ensures (i in at.upToDate <==> i in next.upToDate) && (i in at.updates <==> i in next.updates)
    ensures (i in at.created <==> i in next.created) && (i in at.ambiguous <==> i in next.ambiguous)
  {
    IncreasingSnoc(at.upToDate, k);
    IncreasingSnoc(at.updates, k);
    IncreasingSnoc(at.created, k);
    IncreasingSnoc(at.ambiguous, k);
  }

  function One(b: bool): nat {
    if b then 1 else 0
  }

  lemma AddCountsNames(rules: Rules, plan: MatchPlan, entry: RosterStudent, o: Outcome, name: string)
    ensures var p, hit := AddEntry(rules, plan, entry, o), rules.norm(entry.fullName) == name;
            && CountNamed(rules, p.createNew, name) == CountNamed(rules, plan.createNew, name) + One(hit && o.Create?)
            && CountAmbiguous(rules, p.ambiguous, name)
                == CountAmbiguous(rules, plan.ambiguous, name) + One(hit && o.Ambiguous?)
  {
  }

  lemma AddCountsUsers(rules: Rules, plan: MatchPlan, entry: RosterStudent, o: Outcome, id: int)
    ensures var p := AddEntry(rules, plan, entry, o);
            CountUser(p.matchedUpdates, id) + CountUser(p.upToDate, id)
            == CountUser(plan.matchedUpdates, id) + CountUser(plan.upToDate, id) + One(o.Matched? && o.student.id == id)
  {
  }

  lemma OutcomeShape(rules: Rules, roster: seq<RosterStudent>, pool: seq<DbStudent>, k: nat)
    requires k < |roster|
    ensures var name, o := rules.norm(roster[k].fullName), OutcomeAt(rules, roster, pool, k);
            && (o.Ambiguous? <==> |Named(rules, pool, name)| >= 2)
            && (o.Matched? <==> |Named(rules, pool, name)| == 1 && !InRoster(rules, roster[..k], name))
  {
  }

  lemma CreatedGrows(rules: Rules, roster: seq<RosterStudent>, pool: seq<DbStudent>, k: nat, name: string)
    requires 0 < k <= |roster|
    ensures CountNamed(rules, PlanUpTo(rules, roster, pool, k).createNew, name)
            == CountNamed(rules, PlanUpTo(rules, roster, pool, k - 1).createNew, name)
               + One(rules.norm(roster[k - 1].fullName) == name && OutcomeAt(rules, roster, pool, k - 1).Create?)
  {
    var before := PlanUpTo(rules, roster, pool, k - 1);
    AddCountsNames(rules, before, roster[k - 1], OutcomeAt(rules, roster, pool, k - 1), name);
  }

  lemma UnclearGrows(rules: Rules, roster: seq<RosterStudent>, pool: seq<DbStudent>, k: nat, name: string)
    requires 0 < k <= |roster|
    ensures CountAmbiguous(rules, PlanUpTo(rules, roster, pool, k).ambiguous, name)
            == CountAmbiguous(rules, PlanUpTo(rules, roster, pool, k - 1).ambiguous, name)
               + One(rules.norm(roster[k - 1].fullName) == name && OutcomeAt(rules, roster, pool, k - 1).Ambiguous?)
  {
    var before := PlanUpTo(rules, roster, pool, k - 1);
    AddCountsNames(rules, before, roster[k - 1], OutcomeAt(rules, roster, pool, k - 1), name);
  }

  /** How many of r entries with a name that c accounts have are created. */
  function Created(c: nat, r: nat): nat {
    if c == 0 then r else if c == 1 && r > 0 then r - 1 else 0
  }

  lemma ClosedFormStep(rules: Rules, roster: seq<RosterStudent>, pool: seq<DbStudent>, k: nat, name: string)
    requires 0 < k <= |roster|
    ensures var o, hit := OutcomeAt(rules, roster, pool, k - 1), rules.norm(roster[k - 1].fullName) == name;
            var c, r := |Named(rules, pool, name)|, CountNamed(rules, roster[..k - 1], name);
            && CountNamed(rules, roster[..k], name) == r + One(hit)
            && Created(c, r + One(hit)) == Created(c, r) + One(hit && o.Create?)
            && (hit ==> (o.Ambiguous? <==> c >= 2))
  {
    assert roster[..k][..k - 1] == roster[..k - 1];
    CountPositiveIff(rules, roster[..k - 1], name);
    OutcomeShape(rules, roster, pool, k - 1);
  }

  /** How many of the first k entries have the name and are created. */
  function CountCreates(rules: Rules, roster: seq<RosterStudent>, pool: seq<DbStudent>, k: nat, name: string): nat
    requires k <= |roster|
  {
    if k == 0 then 0
    else
      CountCreates(rules, roster, pool, k - 1, name)
      + One(rules.norm(roster[k - 1].fullName) == name && OutcomeAt(rules, roster, pool, k - 1).Create?)
  }

  /** How many of the first k entries have the name and are ambiguous. */
  function CountUnclear(rules: Rules, roster: seq<RosterStudent>, pool: seq<DbStudent>, k: nat, name: string): nat
    requires k <= |roster|
  {
    if k == 0 then 0
    else
      CountUnclear(rules, roster, pool, k - 1, name)
      + One(rules.norm(roster[k - 1].fullName) == name && OutcomeAt(rules, roster, pool, k - 1).Ambiguous?)
  }

  lemma {:induction false} CreatesAreListed(rules: Rules, roster: seq<RosterStudent>, pool: seq<DbStudent>, k: nat,
                                            name: string)
    requires k <= |roster|
    ensures CountNamed(rules, PlanUpTo(rules, roster, pool, k).createNew, name)
            == CountCreates(rules, roster, pool, k, name)
  {
    if k > 0 {
      CreatesAreListed(rules, roster, pool, k - 1, name);
      CreatedGrows(rules, roster, pool, k, name);
    }
  }

  lemma {:induction false} UnclearAreListed(rules: Rules, roster: seq<RosterStudent>, pool: seq<DbStudent>, k: nat,
                                            name: string)
    requires k <= |roster|
    ensures CountAmbiguous(rules, PlanUpTo(rules, roster, pool, k).ambiguous, name)
            == CountUnclear(rules, roster, pool, k, name)
  {
    if k > 0 {
      UnclearAreListed(rules, roster, pool, k - 1, name);
      UnclearGrows(rules, roster, pool, k, name);
    }
  }

  lemma {:induction false} CountsAreClosed(rules: Rules, roster: seq<RosterStudent>, pool: seq<DbStudent>, k: nat,
      name: string)
    requires k <= |roster|
    ensures var c, r := |Named(rules, pool, name)|, CountNamed(rules, roster[..k], name);
            && CountCreates(rules, roster, pool, k, name) == Created(c, r)
            && CountUnclear(rules, roster, pool, k, name) == (if c >= 2 then r else 0)
  {
    if k > 0 {
      CountsAreClosed(rules, roster, pool, k - 1, name);
      ClosedFormStep(rules, roster, pool, k, name);
    }
  }

  /** For a name with c accounts and r roster entries: c = 0 gives r creations,
      c = 1 gives one match and r - 1 creations, c >= 2 gives r ambiguities. */
  lemma ClosedFormPerName(rules: Rules, roster: seq<RosterStudent>, pool: seq<DbStudent>, k: nat, name: string)
    requires k <= |roster|
    ensures var plan, c, r := PlanUpTo(rules, roster, pool, k), |Named(rules, pool, name)|,
        CountNamed(rules, roster[..k], name);
            && CountNamed(rules, plan.createNew, name) == Created(c, r)
            && CountAmbiguous(rules, plan.ambiguous, name) == (if c >= 2 then r else 0)
  {
    CreatesAreListed(rules, roster, pool, k, name);
    UnclearAreListed(rules, roster, pool, k, name);
    CountsAreClosed(rules, roster, pool, k, name);
  }

  predicate AloneInRoster(rules: Rules, entries: seq<RosterStudent>, pool: seq<DbStudent>, s: DbStudent) {
    |Named(rules, pool, rules.norm(s.fullName))| == 1 && InRoster(rules, entries, rules.norm(s.fullName))
  }

  lemma MatchStep(rules: Rules, roster: seq<RosterStudent>, pool: seq<DbStudent>, k: nat, s: DbStudent)
    requires 0 < k <= |roster| && s in pool && DistinctIds(pool)
    ensures var o := OutcomeAt(rules, roster, pool, k - 1);
            One(AloneInRoster(rules, roster[..k - 1], pool, s)) + One(o.Matched? && o.student.id == s.id)
            == One(AloneInRoster(rules, roster[..k], pool, s))
  {
    InRosterSnoc(rules, roster, k - 1, rules.norm(s.fullName));
    var name, o := rules.norm(roster[k - 1].fullName), OutcomeAt(rules, roster, pool, k - 1);
    NamedMember(rules, pool, name, s);
    if o.Matched? {
      NamedMember(rules, pool, name, o.student);
      assert s.id == o.student.id ==> s == o.student;
    }
  }

  lemma MatchesGrow(rules: Rules, roster: seq<RosterStudent>, pool: seq<DbStudent>, k: nat, id: int)
    requires 0 < k <= |roster|
    ensures var p, q := PlanUpTo(rules, roster, pool, k - 1), PlanUpTo(rules, roster, pool, k);
            var o := OutcomeAt(rules, roster, pool, k - 1);
            CountUser(q.matchedUpdates, id) + CountUser(q.upToDate, id)
            == CountUser(p.matchedUpdates, id) + CountUser(p.upToDate, id) + One(o.Matched? && o.student.id == id)
  {
    AddCountsUsers(rules, PlanUpTo(rules, roster, pool, k - 1), roster[k - 1], OutcomeAt(rules, roster, pool, k - 1),
        id);
  }

  /** An account is matched once or never, and once exactly when it is alone
      under a name of the roster; a name shared by accounts matches none. */
  lemma {:induction false} MatchedOnceIff(rules: Rules, roster: seq<RosterStudent>, pool: seq<DbStudent>, k: nat,
      s: DbStudent)
    requires k <= |roster| && s in pool && DistinctIds(pool)
    ensures var plan := PlanUpTo(rules, roster, pool, k);
            CountUser(plan.matchedUpdates, s.id) + CountUser(plan.upToDate, s.id)
            == One(AloneInRoster(rules, roster[..k], pool, s))
  {
    if k > 0 {
      MatchedOnceIff(rules, roster, pool, k - 1, s);
      MatchStep(rules, roster, pool, k, s);
      MatchesGrow(rules, roster, pool, k, s.id);
    }
  }

  /** The order of the roster, and repetitions in it, change neither which
      accounts are matched, nor which are listed as ambiguous, nor who leaves. */
  lemma RosterOrderIrrelevant(rules: Rules, roster: seq<RosterStudent>, other: seq<RosterStudent>, rows: seq<DbStudent>)
    requires DistinctIds(rows)
    requires forall name :: InRoster(rules, roster, name) <==> InRoster(rules, other, name)
    ensures var p, q := PlanOf(rules, roster, rows), PlanOf(rules, other, rows);
            && p.deactivate == q.deactivate
            && forall s | s in Pool(rules, rows) ::
                 && CountUser(p.matchedUpdates, s.id) + CountUser(p.upToDate, s.id)
                    == CountUser(q.matchedUpdates, s.id) + CountUser(q.upToDate, s.id)
                 && (ListedAmbiguous(p, s.id) <==> ListedAmbiguous(q, s.id))
  {
    var pool := Pool(rules, rows);
    DistinctPool(rules, rows);
    SameLeavers(rules, roster, other, pool);
    assert roster[..|roster|] == roster && other[..|other|] == other;
    var p, q := PlanOf(rules, roster, rows), PlanOf(rules, other, rows);
    var p0, q0 := PlanUpTo(rules, roster, pool, |roster|), PlanUpTo(rules, other, pool, |other|);
    forall s | s in pool
      ensures CountUser(p.matchedUpdates, s.id) + CountUser(p.upToDate, s.id)
              == CountUser(q.matchedUpdates, s.id) + CountUser(q.upToDate, s.id)
      ensures ListedAmbiguous(p, s.id) <==> ListedAmbiguous(q, s.id)
    {
      MatchedOnceIff(rules, roster, pool, |roster|, s);
      MatchedOnceIff(rules, other, pool, |other|, s);
      AmbiguousIds(rules, roster, pool, |roster|, s);
      AmbiguousIds(rules, other, pool, |other|, s);
      assert ListedAmbiguous(p, s.id) == ListedAmbiguous(p0, s.id)
          && ListedAmbiguous(q, s.id) == ListedAmbiguous(q0, s.id);
    }
  }

  lemma {:induction false} SameLeavers(rules: Rules, roster: seq<RosterStudent>, other: seq<RosterStudent>,
      pool: seq<DbStudent>)
    requires forall name :: InRoster(rules, roster, name) <==> InRoster(rules, other, name)
    ensures Leavers(rules, roster, pool) == Leavers(rules, other, pool)
  {
    if pool != [] {
      SameLeavers(rules, roster, other, pool[..|pool| - 1]);
    }
  }

  // ------------------------------------------------------ applying a plan

  function SetClass(s: DbStudent, m: Match): DbStudent {
    if s.id == m.userId then s.(studentClass := Some(m.newClass), isActive := true) else s
  }

  /** t is s after update m, which is for s. */
  predicate Renewed(s: DbStudent, m: Match, t: DbStudent) {
    m.userId == s.id && t == s.(studentClass := Some(m.newClass), isActive := true)
  }

  function UpdateRow(s: DbStudent, updates: seq<Match>): DbStudent {
    if updates == [] then s else SetClass(UpdateRow(s, updates[..|updates| - 1]), updates[|updates| - 1])
  }

  function RetireRow(s: DbStudent, leavers: seq<DbStudent>): DbStudent {
    if exists l | l in leavers :: l.id == s.id then s.(isActive := false) else s
  }

  function Account(entry: RosterStudent, username: string, id: int): DbStudent {
    DbStudent(id, username, entry.fullName, Some(entry.studentClass), true)
  }

  function NewRows(entries: seq<RosterStudent>, usernames: seq<string>, firstId: int): seq<DbStudent>
    requires |usernames| >= |entries|
  {
    if entries == [] then []
    else
      var n := |entries| - 1;
      NewRows(entries[..n], usernames, firstId) + [Account(entries[n], usernames[n], firstId + n)]
  }

  function KeptRows(rows: seq<DbStudent>, plan: MatchPlan): seq<DbStudent> {
    seq(|rows|, i requires 0 <= i < |rows| => RetireRow(UpdateRow(rows[i], plan.matchedUpdates), plan.deactivate))
  }

  /** The student rows, in id order, after the plan has been applied. */
  function Applied(rows: seq<DbStudent>, plan: MatchPlan, usernames: seq<string>, firstId: int): seq<DbStudent>
    requires |usernames| >= |plan.createNew|
  {
    KeptRows(rows, plan) + NewRows(plan.createNew, usernames, firstId)
  }

  /** The student accounts of the users table, listed by id. */
  class Users {
    var rows: seq<DbStudent>
    var nextId: int  // the id sequence

    ghost predicate Valid()
      reads this
    {
      DistinctIds(rows) && forall s | s in rows :: s.id < nextId
    }

    constructor (rows: seq<DbStudent>, nextId: int)
      requires DistinctIds(rows) && forall s | s in rows :: s.id < nextId
      ensures Valid() && this.rows == rows && this.nextId == nextId
    {
      this.rows, this.nextId := rows, nextId;
    }

    /** UPDATE users SET student_class, is_active = TRUE WHERE id. */
    method UpdateClass(m: Match)
      modifies this`rows
      ensures |rows| == |old(rows)| && forall i | 0 <= i < |rows| :: rows[i] == SetClass(old(rows)[i], m)
    {
      var current := rows;
      rows := seq(|current|, i requires 0 <= i < |current| => SetClass(current[i], m));
    }

    /** UPDATE users SET is_active = FALSE WHERE id. */
    method Deactivate(leaver: DbStudent)
      modifies this`rows
      ensures |rows| == |old(rows)| && forall i | 0 <= i < |rows| :: rows[i] == RetireRow(old(rows)[i], [leaver])
    {
      var current := rows;
      rows := seq(|current|, i requires 0 <= i < |current| => RetireRow(current[i], [leaver]));
    }

    /** INSERT INTO users ... RETURNING id. */
    method Insert(entry: RosterStudent, username: string) returns (id: int)
      modifies this
      ensures id == old(nextId) && nextId == id + 1 && rows == old(rows) + [Account(entry, username, id)]
    {
      id := nextId;
      rows, nextId := rows + [Account(entry, username, id)], nextId + 1;
    }

    method UpdateClasses(updates: seq<Match>)
      modifies this`rows
      ensures |rows| == |old(rows)| && forall i | 0 <= i < |rows| :: rows[i] == UpdateRow(old(rows)[i], updates)
    {
      ghost var before := rows;
      for k := 0 to |updates|
        invariant |rows| == |before| && forall i | 0 <= i < |rows| :: rows[i] == UpdateRow(before[i], updates[..k])
      {
        assert updates[..k + 1][..k] == updates[..k];
        UpdateClass(updates[k]);
      }
      assert updates[..|updates|] == updates;
    }

    method DeactivateAll(leavers: seq<DbStudent>)
      modifies this`rows
      ensures |rows| == |old(rows)| && forall i | 0 <= i < |rows| :: rows[i] == RetireRow(old(rows)[i], leavers)
    {
      ghost var before := rows;
      for k := 0 to |leavers|
        invariant |rows| == |before| && forall i | 0 <= i < |rows| :: rows[i] == RetireRow(before[i], leavers[..k])
      {
        Deactivate(leavers[k]);
        forall i | 0 <= i < |rows| ensures rows[i] == RetireRow(before[i], leavers[..k + 1]) {
          RetireSnoc(before[i], leavers, k);
        }
      }
      assert leavers[..|leavers|] == leavers;
    }

    method CreateAll(entries: seq<RosterStudent>, usernames: seq<string>)
      requires Valid() && |usernames| == |entries|
      modifies this
      ensures Valid() && rows == old(rows) + NewRows(entries, usernames, old(nextId))
    {
      ghost var before, firstId := rows, nextId;
      for k := 0 to |entries|
        invariant Valid() && nextId == firstId + k
        invariant rows == before + NewRows(entries[..k], usernames, firstId)
      {
        assert entries[..k + 1][..k] == entries[..k];
        var id := Insert(entries[k], usernames[k]);
      }
      assert entries[..|entries|] == entries;
    }

    /** The student part of apply_changes. */
    method ApplyPlan(plan: MatchPlan, usernames: seq<string>)
      requires Valid() && |usernames| == |plan.createNew|
      modifies this
      ensures Valid() && rows == Applied(old(rows), plan, usernames, old(nextId))
    {
      ghost var before := rows;
      UpdateClasses(plan.matchedUpdates);
      DeactivateAll(plan.deactivate);
      assert rows == KeptRows(before, plan);
      KeptIds(before, plan);
      CreateAll(plan.createNew, usernames);
    }
  }

  lemma KeptIds(rows: seq<DbStudent>, plan: MatchPlan)
    ensures forall i | 0 <= i < |rows| ::
        KeptRows(rows, plan)[i].id == rows[i].id && KeptRows(rows, plan)[i].fullName == rows[i].fullName
  {
    forall i | 0 <= i < |rows|
      ensures KeptRows(rows, plan)[i].id == rows[i].id && KeptRows(rows, plan)[i].fullName == rows[i].fullName
    {
      UpdateRowKeeps(rows[i], plan.matchedUpdates);
    }
  }

  lemma RetireSnoc(s: DbStudent, leavers: seq<DbStudent>, k: nat)
    requires k < |leavers|
    ensures RetireRow(RetireRow(s, leavers[..k]), [leavers[k]]) == RetireRow(s, leavers[..k + 1])
  {
    assert leavers[..k + 1] == leavers[..k] + [leavers[k]];
    assert leavers[k] in leavers[..k + 1] && leavers[k] in [leavers[k]];
    if l :| l in leavers[..k] && l.id == s.id {
      assert l in leavers[..k + 1];
    }
  }

  /** An update changes the class and the activity of a row it names, and
      nothing else. */
  lemma {:induction false} UpdateRowKeeps(s: DbStudent, updates: seq<Match>)
    ensures var t := UpdateRow(s, updates);
            && t.id == s.id && t.fullName == s.fullName
            && ((t == s && (forall m | m in updates :: m.userId != s.id))
                || exists m | m in updates :: Renewed(s, m, t))
  {
    if updates != [] {
      var init, last := updates[..|updates| - 1], updates[|updates| - 1];
      UpdateRowKeeps(s, init);
      assert updates == init + [last] && last in updates;
      var t := UpdateRow(s, init);
      if m :| m in init && Renewed(s, m, t) {
        assert m in updates;
      }
    }
  }

  // ------------------------------------------------------ planning again

  /** What load_excel_roster guarantees: the classes are canonical already and
      belong to grades X and XI. */
  ghost predicate FromSheets(rules: Rules, roster: seq<RosterStudent>) {
    forall e | e in roster :: rules.canon(Some(e.studentClass)) == Some(e.studentClass)
        && rules.eligible(Some(e.studentClass))
  }

  ghost predicate DistinctNames(rules: Rules, roster: seq<RosterStudent>) {
    forall i, j | 0 <= i < j < |roster| :: rules.norm(roster[i].fullName) != rules.norm(roster[j].fullName)
  }

  function CountHits(rules: Rules, rows: seq<DbStudent>, name: string): nat {
    |Named(rules, Pool(rules, rows), name)|
  }

  lemma PoolSnoc(rules: Rules, rows: seq<DbStudent>, last: DbStudent)
    ensures Pool(rules, rows + [last]) == Pool(rules, rows) + (if InPool(rules, last) then [last] else [])
  {
    assert (rows + [last])[..|rows|] == rows;
  }

  lemma NamedSnoc(rules: Rules, rows: seq<DbStudent>, last: DbStudent, name: string)
    ensures Named(rules, rows + [last], name)
        == Named(rules, rows, name) + (if rules.norm(last.fullName) == name then [last] else [])
  {
    assert (rows + [last])[..|rows|] == rows;
  }

  lemma HitsSnoc(rules: Rules, rows: seq<DbStudent>, last: DbStudent, name: string)
    ensures CountHits(rules, rows + [last], name)
            == CountHits(rules, rows, name) + One(InPool(rules, last) && rules.norm(last.fullName) == name)
  {
    PoolSnoc(rules, rows, last);
    NamedSnoc(rules, Pool(rules, rows), last, name);
    assert Pool(rules, rows) + [] == Pool(rules, rows);
  }

  lemma {:induction false} HitsAppend(rules: Rules, a: seq<DbStudent>, b: seq<DbStudent>, name: string)
    ensures CountHits(rules, a + b, name) == CountHits(rules, a, name) + CountHits(rules, b, name)
  {
    if b == [] {
      assert a + b == a;
    } else {
      var init, last := b[..|b| - 1], b[|b| - 1];
      HitsAppend(rules, a, init, name);
      HitsSnoc(rules, a + init, last, name);
      HitsSnoc(rules, init, last, name);
      assert a + b == a + init + [last] && b == init + [last];
    }
  }

  lemma {:induction false} SameHitsPointwise(rules: Rules, a: seq<DbStudent>, b: seq<DbStudent>, name: string)
    requires |a| == |b|
    requires forall i | 0 <= i < |a| :: a[i].fullName == b[i].fullName && InPool(rules, a[i]) == InPool(rules, b[i])
    ensures CountHits(rules, a, name) == CountHits(rules, b, name)
  {
    if a != [] {
      var n := |a| - 1;
      SameHitsPointwise(rules, a[..n], b[..n], name);
      HitsSnoc(rules, a[..n], a[n], name);
      HitsSnoc(rules, b[..n], b[n], name);
      assert a == a[..n] + [a[n]] && b == b[..n] + [b[n]];
    }
  }

  /** Every created account is in the pool under its roster name. */
  lemma {:induction false} NewHits(rules: Rules, entries: seq<RosterStudent>, usernames: seq<string>, firstId: int,
      name: string)
    requires |usernames| >= |entries|
    requires forall e | e in entries :: rules.eligible(Some(e.studentClass))
    ensures CountHits(rules, NewRows(entries, usernames, firstId), name) == CountNamed(rules, entries, name)
  {
    if entries != [] {
      var n := |entries| - 1;
      NewHits(rules, entries[..n], usernames, firstId, name);
      HitsSnoc(rules, NewRows(entries[..n], usernames, firstId), Account(entries[n], usernames[n], firstId + n), name);
    }
  }

  /** Entry j is in the list its outcome calls for. */
  ghost predicate InLists(rules: Rules, roster: seq<RosterStudent>, pool: seq<DbStudent>, plan: MatchPlan, j: nat)
    requires j < |roster|
  {
    match OutcomeAt(rules, roster, pool, j)
    case Create => roster[j] in plan.createNew
    case Matched(s) => NeedsNothing(rules, s, roster[j]) || MatchOf(s, roster[j]) in plan.matchedUpdates
    case Ambiguous(_) => plan.ambiguous != []
  }

  lemma {:induction false} EntryListed(rules: Rules, roster: seq<RosterStudent>, pool: seq<DbStudent>, k: nat, j: nat)
    requires j < k <= |roster|
    ensures InLists(rules, roster, pool, PlanUpTo(rules, roster, pool, k), j)
  {
    if j < k - 1 {
      EntryListed(rules, roster, pool, k - 1, j);
    }
  }

  /** Where the entries of the lists come from. */
  lemma {:induction false} ListOrigins(rules: Rules, roster: seq<RosterStudent>, pool: seq<DbStudent>, k: nat)
    requires k <= |roster|
    ensures var plan := PlanUpTo(rules, roster, pool, k);
            && (forall m | m in plan.matchedUpdates :: UpdateOrigin(rules, roster, pool, m))
            && (forall e | e in plan.createNew :: e in roster)
  {
    if k > 0 {
      ListOrigins(rules, roster, pool, k - 1);
      var o := OutcomeAt(rules, roster, pool, k - 1);
      if o.Matched? && !NeedsNothing(rules, o.student, roster[k - 1]) {
        assert OriginAt(rules, roster, pool, MatchOf(o.student, roster[k - 1]), k - 1);
      }
    }
  }

  ghost predicate OriginAt(rules: Rules, roster: seq<RosterStudent>, pool: seq<DbStudent>, m: Match, j: nat)
    requires j < |roster|
  {
    var o := OutcomeAt(rules, roster, pool, j);
    o.Matched? && !NeedsNothing(rules, o.student, roster[j]) && m == MatchOf(o.student, roster[j])
  }

  ghost predicate UpdateOrigin(rules: Rules, roster: seq<RosterStudent>, pool: seq<DbStudent>, m: Match) {
    exists j | 0 <= j < |roster| :: OriginAt(rules, roster, pool, m, j)
  }

  /** The situation between the plan and its effect: rows is the table when the
      plan is applied; since planning it may have lost rows, but no pool row. */
  ghost predicate Situation(rules: Rules, roster: seq<RosterStudent>, rows: seq<DbStudent>, plan: MatchPlan) {
    && DistinctIds(rows) && FromSheets(rules, roster)
    && plan == PlanOf(rules, roster, rows)
  }

  /** Entry i is the only one with its name, and so is the account, if any. */
  predicate Unshared(rules: Rules, roster: seq<RosterStudent>, rows: seq<DbStudent>, i: nat)
    requires i < |roster|
  {
    var name := rules.norm(roster[i].fullName);
    CountNamed(rules, roster, name) == 1 && CountHits(rules, rows, name) < 2
  }

  /** A match names a pool row, and the row of that id is that row. */
  lemma OriginRow(rules: Rules, roster: seq<RosterStudent>, rows: seq<DbStudent>, m: Match, j: nat, i: nat)
    requires DistinctIds(rows) && j < |roster| && i < |rows|
    requires OriginAt(rules, roster, Pool(rules, rows), m, j) && m.userId == rows[i].id
    ensures InPool(rules, rows[i]) && rules.norm(rows[i].fullName) == rules.norm(roster[j].fullName)
    ensures OutcomeAt(rules, roster, Pool(rules, rows), j) == Matched(rows[i]) && m.newClass == roster[j].studentClass
  {
    var s := OutcomeAt(rules, roster, Pool(rules, rows), j).student;
    NamedMember(rules, Pool(rules, rows), rules.norm(roster[j].fullName), s);
    PoolMember(rules, rows, s);
    var q :| 0 <= q < |rows| && rows[q] == s;
    assert q == i;
  }

  /** A row keeps its name, and stays in or out of the pool. */
  lemma KeptRowShape(rules: Rules, roster: seq<RosterStudent>, rows: seq<DbStudent>, plan: MatchPlan, i: nat)
    requires Situation(rules, roster, rows, plan) && i < |rows|
    ensures KeptRows(rows, plan)[i].fullName == rows[i].fullName
        && InPool(rules, KeptRows(rows, plan)[i]) == InPool(rules, rows[i])
  {
    ListOrigins(rules, roster, Pool(rules, rows), |roster|);
    UpdateRowKeeps(rows[i], plan.matchedUpdates);
    var t := UpdateRow(rows[i], plan.matchedUpdates);
    if t != rows[i] {
      var m :| m in plan.matchedUpdates && Renewed(rows[i], m, t);
      assert UpdateOrigin(rules, roster, Pool(rules, rows), m);
      var j: nat :| j < |roster| && OriginAt(rules, roster, Pool(rules, rows), m, j);
      OriginRow(rules, roster, rows, m, j, i);
    }
  }

  /** The account alone under the name of entry i, which no earlier entry has,
      gets its class and becomes active, or stays as it is when it is so. */
  lemma MatchedRowAfter(rules: Rules, roster: seq<RosterStudent>, rows: seq<DbStudent>, plan: MatchPlan,
                        usernames: seq<string>, firstId: int, i: nat, q: nat)
    requires Situation(rules, roster, rows, plan) && |usernames| == |plan.createNew| && i < |roster| && q < |rows|
    requires var name := rules.norm(roster[i].fullName);
             && rules.eligible(rows[q].studentClass) && rules.norm(rows[q].fullName) == name
             && |Named(rules, Pool(rules, rows), name)| == 1
             && forall j | 0 <= j < i :: rules.norm(roster[j].fullName) != name
    ensures Applied(rows, plan, usernames, firstId)[q]
            == if rows[q].isActive && rules.canon(rows[q].studentClass) == Some(roster[i].studentClass) then rows[q]
               else rows[q].(studentClass := Some(roster[i].studentClass), isActive := true)
  {
    var pool, name, s := Pool(rules, rows), rules.norm(roster[i].fullName), rows[q];
    ListOrigins(rules, roster, pool, |roster|);
    EntryListed(rules, roster, pool, |roster|, i);
    PoolMember(rules, rows, s);
    NamedMember(rules, pool, name, s);
    assert !InRoster(rules, roster[..i], name) by { TakenBefore(rules, roster, i, name); }
    assert OutcomeAt(rules, roster, pool, i) == Matched(s);
    UpdateRowKeeps(s, plan.matchedUpdates);
    var t := UpdateRow(s, plan.matchedUpdates);
    if m :| m in plan.matchedUpdates && Renewed(s, m, t) {
      MatchedBy(rules, roster, rows, plan, m, i, q);
    } else {
      assert MatchOf(s, roster[i]) !in plan.matchedUpdates;
    }
    NotRetired(rules, roster, rows, t, q);
  }

  /** Only the first entry with its name updates an account. */
  lemma MatchedBy(rules: Rules, roster: seq<RosterStudent>, rows: seq<DbStudent>, plan: MatchPlan, m: Match, i: nat,
      q: nat)
    requires Situation(rules, roster, rows, plan) && i < |roster| && q < |rows|
    requires OutcomeAt(rules, roster, Pool(rules, rows), i) == Matched(rows[q])
    requires rules.norm(rows[q].fullName) == rules.norm(roster[i].fullName)
    requires m in plan.matchedUpdates && m.userId == rows[q].id
    ensures m.newClass == roster[i].studentClass && !NeedsNothing(rules, rows[q], roster[i])
  {
    var pool := Pool(rules, rows);
    ListOrigins(rules, roster, pool, |roster|);
    assert UpdateOrigin(rules, roster, pool, m);
    var j: nat :| j < |roster| && OriginAt(rules, roster, pool, m, j);
    OriginRow(rules, roster, rows, m, j, q);
    var name := rules.norm(roster[i].fullName);
    TakenBefore(rules, roster, i, name);
    TakenBefore(rules, roster, j, name);
  }

  /** An account of the pool whose name the roster lacks becomes inactive. */
  lemma LeavingRowAfter(rules: Rules, roster: seq<RosterStudent>, rows: seq<DbStudent>, plan: MatchPlan,
                        usernames: seq<string>, firstId: int, q: nat)
    requires Situation(rules, roster, rows, plan) && |usernames| == |plan.createNew| && q < |rows|
    requires rules.eligible(rows[q].studentClass)
    requires forall j | 0 <= j < |roster| :: rules.norm(roster[j].fullName) != rules.norm(rows[q].fullName)
    ensures Applied(rows, plan, usernames, firstId)[q] == rows[q].(isActive := false)
  {
    var s := rows[q];
    NoUpdateFor(rules, roster, rows, plan, q);
    PoolMember(rules, rows, s);
    LeaversMember(rules, roster, Pool(rules, rows), s);
    if s.isActive {
      assert s in plan.deactivate && RetireRow(s, plan.deactivate) == s.(isActive := false);
    } else {
      assert RetireRow(s, plan.deactivate) == s;
    }
  }

  lemma NoUpdateFor(rules: Rules, roster: seq<RosterStudent>, rows: seq<DbStudent>, plan: MatchPlan, q: nat)
    requires Situation(rules, roster, rows, plan) && q < |rows|
    requires !InPool(rules, rows[q]) || |Named(rules, Pool(rules, rows), rules.norm(rows[q].fullName))| != 1
             || !InRoster(rules, roster, rules.norm(rows[q].fullName))
    ensures UpdateRow(rows[q], plan.matchedUpdates) == rows[q]
  {
    var pool := Pool(rules, rows);
    ListOrigins(rules, roster, pool, |roster|);
    UpdateRowKeeps(rows[q], plan.matchedUpdates);
    forall m | m in plan.matchedUpdates ensures m.userId != rows[q].id {
      if m.userId == rows[q].id {
        MatchedRowIsAlone(rules, roster, rows, plan, m, q);
      }
    }
  }

  lemma MatchedRowIsAlone(rules: Rules, roster: seq<RosterStudent>, rows: seq<DbStudent>, plan: MatchPlan, m: Match,
      q: nat)
    requires Situation(rules, roster, rows, plan) && q < |rows|
    requires m in plan.matchedUpdates && m.userId == rows[q].id
    ensures InPool(rules, rows[q]) && |Named(rules, Pool(rules, rows), rules.norm(rows[q].fullName))| == 1
    ensures InRoster(rules, roster, rules.norm(rows[q].fullName))
  {
    var pool := Pool(rules, rows);
    ListOrigins(rules, roster, pool, |roster|);
    assert UpdateOrigin(rules, roster, pool, m);
    var j: nat :| j < |roster| && OriginAt(rules, roster, pool, m, j);
    OriginRow(rules, roster, rows, m, j, q);
  }

  /** Accounts outside the pool, and those that share a roster name, stay. */
  lemma OtherRowAfter(rules: Rules, roster: seq<RosterStudent>, rows: seq<DbStudent>, plan: MatchPlan,
                      usernames: seq<string>, firstId: int, q: nat)
    requires Situation(rules, roster, rows, plan) && |usernames| == |plan.createNew| && q < |rows|
    requires var name := rules.norm(rows[q].fullName);
             || !rules.eligible(rows[q].studentClass)
             || (|Named(rules, Pool(rules, rows), name)| >= 2 && InRoster(rules, roster, name))
    ensures Applied(rows, plan, usernames, firstId)[q] == rows[q]
  {
    NoUpdateFor(rules, roster, rows, plan, q);
    forall l | l in plan.deactivate ensures l.id != rows[q].id {
      LeaversMember(rules, roster, Pool(rules, rows), l);
      PoolMember(rules, rows, l);
      var p :| 0 <= p < |rows| && rows[p] == l;
      assert rows[p].id == rows[q].id ==> p == q;
    }
  }

  /** The accounts created: the k-th entry to create gets the k-th name and the
      next id, its own class, and is active. */
  lemma {:induction false} NewRowAfter(entries: seq<RosterStudent>, usernames: seq<string>, firstId: int, k: nat)
    requires |usernames| >= |entries| && k < |entries|
    ensures var rows := NewRows(entries, usernames, firstId);
            && |rows| == |entries|
            && rows[k] == DbStudent(firstId + k, usernames[k], entries[k].fullName, Some(entries[k].studentClass), true)
  {
    var n := |entries| - 1;
    NewRowsLength(entries[..n], usernames, firstId);
    if k < n {
      NewRowAfter(entries[..n], usernames, firstId, k);
    }
  }

  lemma {:induction false} NewRowsLength(entries: seq<RosterStudent>, usernames: seq<string>, firstId: int)
    requires |usernames| >= |entries|
    ensures |NewRows(entries, usernames, firstId)| == |entries|
  {
    if entries != [] {
      NewRowsLength(entries[..|entries| - 1], usernames, firstId);
    }
  }

  /** The plan adds the accounts it creates and takes none away. */
  lemma HitsAfter(rules: Rules, roster: seq<RosterStudent>, rows: seq<DbStudent>, plan: MatchPlan,
                  usernames: seq<string>, firstId: int, name: string)
    requires Situation(rules, roster, rows, plan) && |usernames| == |plan.createNew|
    ensures CountHits(rules, Applied(rows, plan, usernames, firstId), name)
            == CountHits(rules, rows, name) + CountNamed(rules, plan.createNew, name)
  {
    forall i | 0 <= i < |rows|
      ensures KeptRows(rows, plan)[i].fullName == rows[i].fullName
          && InPool(rules, KeptRows(rows, plan)[i]) == InPool(rules, rows[i])
    {
      KeptRowShape(rules, roster, rows, plan, i);
    }
    SameHitsPointwise(rules, KeptRows(rows, plan), rows, name);
    ListOrigins(rules, roster, Pool(rules, rows), |roster|);
    NewHits(rules, plan.createNew, usernames, firstId, name);
    HitsAppend(rules, KeptRows(rows, plan), NewRows(plan.createNew, usernames, firstId), name);
  }

  /** After the plan a roster name has as many accounts as it has roster entries;
      a name that two accounts shared before keeps the accounts it had. */
  lemma AccountsMatchRoster(rules: Rules, roster: seq<RosterStudent>, rows: seq<DbStudent>, plan: MatchPlan,
                            usernames: seq<string>, firstId: int, name: string)
    requires Situation(rules, roster, rows, plan) && |usernames| == |plan.createNew|
    requires InRoster(rules, roster, name)
    ensures CountHits(rules, Applied(rows, plan, usernames, firstId), name)
            == if CountHits(rules, rows, name) >= 2 then CountHits(rules, rows, name)
                else CountNamed(rules, roster, name)
  {
    HitsAfter(rules, roster, rows, plan, usernames, firstId, name);
    ClosedFormPerName(rules, roster, Pool(rules, rows), |roster|, name);
    assert roster[..|roster|] == roster;
    CountPositiveIff(rules, roster, name);
  }

  lemma {:induction false} CountTwice(rules: Rules, entries: seq<RosterStudent>, i: nat, j: nat)
    requires i < j < |entries| && rules.norm(entries[i].fullName) == rules.norm(entries[j].fullName)
    ensures CountNamed(rules, entries, rules.norm(entries[i].fullName)) >= 2
  {
    var n := |entries| - 1;
    if j < n {
      CountTwice(rules, entries[..n], i, j);
    } else {
      assert rules.norm(entries[..n][i].fullName) == rules.norm(entries[i].fullName);
      CountPositiveIff(rules, entries[..n], rules.norm(entries[i].fullName));
    }
  }

  /** A name counted once belongs to one entry, and no earlier one has it. */
  lemma OnlyEntry(rules: Rules, roster: seq<RosterStudent>, i: nat)
    requires i < |roster| && CountNamed(rules, roster, rules.norm(roster[i].fullName)) == 1
    ensures forall j | 0 <= j < |roster| && rules.norm(roster[j].fullName) == rules.norm(roster[i].fullName) :: j == i
    ensures !InRoster(rules, roster[..i], rules.norm(roster[i].fullName))
  {
    var name := rules.norm(roster[i].fullName);
    forall j | 0 <= j < |roster| && rules.norm(roster[j].fullName) == name ensures j == i {
      if j < i { CountTwice(rules, roster, j, i); } else if i < j { CountTwice(rules, roster, i, j); }
    }
    CountPositiveIff(rules, roster[..i], name);
    assert forall j | 0 <= j < i :: roster[..i][j] == roster[j];
  }

  /** The kept row of a once-named roster entry has the roster class and is active. */
  lemma KeptRowSettled(rules: Rules, roster: seq<RosterStudent>, rows: seq<DbStudent>, plan: MatchPlan, i: nat, q: nat)
    requires Situation(rules, roster, rows, plan) && i < |roster| && q < |rows| && Unshared(rules, roster, rows, i)
    requires InPool(rules, rows[q]) && rules.norm(rows[q].fullName) == rules.norm(roster[i].fullName)
    ensures NeedsNothing(rules, KeptRows(rows, plan)[q], roster[i])
  {
    var pool, name, s := Pool(rules, rows), rules.norm(roster[i].fullName), rows[q];
    ListOrigins(rules, roster, pool, |roster|);
    OnlyEntry(rules, roster, i);
    PoolMember(rules, rows, s);
    NamedMember(rules, pool, name, s);
    assert OutcomeAt(rules, roster, pool, i) == Matched(s) by {
      assert !OutcomeAt(rules, roster, pool, i).Ambiguous?;
      assert |Named(rules, pool, name)| == 1 && s in Named(rules, pool, name);
    }
    EntryListed(rules, roster, pool, |roster|, i);
    UpdateRowKeeps(s, plan.matchedUpdates);
    var t := UpdateRow(s, plan.matchedUpdates);
    if m :| m in plan.matchedUpdates && Renewed(s, m, t) {
      assert UpdateOrigin(rules, roster, pool, m);
      var j: nat :| j < |roster| && OriginAt(rules, roster, pool, m, j);
      OriginRow(rules, roster, rows, m, j, q);
      assert j == i;
    } else {
      assert NeedsNothing(rules, s, roster[i]);
    }
    assert t.id == s.id;
    NotRetired(rules, roster, rows, t, q);
  }

  lemma NotRetired(rules: Rules, roster: seq<RosterStudent>, rows: seq<DbStudent>, t: DbStudent, q: nat)
    requires DistinctIds(rows) && q < |rows| && t.id == rows[q].id
        && InRoster(rules, roster, rules.norm(rows[q].fullName))
    ensures RetireRow(t, Leavers(rules, roster, Pool(rules, rows))) == t
  {
    forall l | l in Leavers(rules, roster, Pool(rules, rows)) ensures l.id != rows[q].id {
      LeaversMember(rules, roster, Pool(rules, rows), l);
      PoolMember(rules, rows, l);
      var p :| 0 <= p < |rows| && rows[p] == l;
      assert p != q;
    }
  }

  lemma {:induction false} LeaversMember(rules: Rules, roster: seq<RosterStudent>, pool: seq<DbStudent>, s: DbStudent)
    ensures s in Leavers(rules, roster, pool)
        <==> s in pool && s.isActive && !InRoster(rules, roster, rules.norm(s.fullName))
  {
    if pool != [] {
      LeaversMember(rules, roster, pool[..|pool| - 1], s);
      assert pool == pool[..|pool| - 1] + [pool[|pool| - 1]];
    }
  }

  lemma {:induction false} NewRowOrigin(entries: seq<RosterStudent>, usernames: seq<string>, firstId: int, s: DbStudent)
    requires |usernames| >= |entries| && s in NewRows(entries, usernames, firstId)
    ensures exists e | e in entries :: s.fullName == e.fullName && s.studentClass == Some(e.studentClass) && s.isActive
  {
    var n := |entries| - 1;
    if s in NewRows(entries[..n], usernames, firstId) {
      NewRowOrigin(entries[..n], usernames, firstId, s);
      var e :| e in entries[..n] && s.fullName == e.fullName && s.studentClass == Some(e.studentClass) && s.isActive;
      assert e in entries;
    } else {
      assert entries[n] in entries;
    }
  }

  /** What the second plan says about each entry: settled when its name is not
      shared, ambiguous otherwise. */
  lemma SecondOutcome(rules: Rules, roster: seq<RosterStudent>, rows: seq<DbStudent>, plan: MatchPlan,
                      usernames: seq<string>, firstId: int, i: nat)
    requires Situation(rules, roster, rows, plan) && |usernames| == |plan.createNew| && i < |roster|
    ensures var o := OutcomeAt(rules, roster, Pool(rules, Applied(rows, plan, usernames, firstId)), i);
            if Unshared(rules, roster, rows, i) then o.Matched?
                && NeedsNothing(rules, o.student, roster[i]) else o.Ambiguous?
  {
    var after, name := Applied(rows, plan, usernames, firstId), rules.norm(roster[i].fullName);
    AccountsMatchRoster(rules, roster, rows, plan, usernames, firstId, name);
    CountPositiveIff(rules, roster, name);
    if Unshared(rules, roster, rows, i) {
      OnlyEntry(rules, roster, i);
      var s := Named(rules, Pool(rules, after), name)[0];
      NamedMember(rules, Pool(rules, after), name, s);
      PoolMember(rules, after, s);
      HitSettled(rules, roster, rows, plan, usernames, firstId, i, s);
    }
  }

  /** After the plan an entry that shares its name with nobody has one account,
      active and in its class. */
  lemma SettledAfter(rules: Rules, roster: seq<RosterStudent>, rows: seq<DbStudent>, plan: MatchPlan,
                     usernames: seq<string>, firstId: int, i: nat)
    requires Situation(rules, roster, rows, plan) && |usernames| == |plan.createNew| && i < |roster|
    requires Unshared(rules, roster, rows, i)
    ensures var hits := Named(rules, Pool(rules, Applied(rows, plan, usernames, firstId)),
        rules.norm(roster[i].fullName));
            && |hits| == 1 && hits[0].isActive
            && rules.canon(hits[0].studentClass) == Some(roster[i].studentClass)
  {
    var after, name := Applied(rows, plan, usernames, firstId), rules.norm(roster[i].fullName);
    AccountsMatchRoster(rules, roster, rows, plan, usernames, firstId, name);
    CountPositiveIff(rules, roster, name);
    var s := Named(rules, Pool(rules, after), name)[0];
    NamedMember(rules, Pool(rules, after), name, s);
    PoolMember(rules, after, s);
    HitSettled(rules, roster, rows, plan, usernames, firstId, i, s);
  }

  /** Any account of a once-named roster entry is settled after the plan. */
  lemma HitSettled(rules: Rules, roster: seq<RosterStudent>, rows: seq<DbStudent>, plan: MatchPlan,
                   usernames: seq<string>, firstId: int, i: nat, s: DbStudent)
    requires Situation(rules, roster, rows, plan) && |usernames| == |plan.createNew| && i < |roster|
    requires Unshared(rules, roster, rows, i)
    requires s in Applied(rows, plan, usernames, firstId) && InPool(rules, s)
    requires rules.norm(s.fullName) == rules.norm(roster[i].fullName)
    ensures NeedsNothing(rules, s, roster[i])
  {
    if s in KeptRows(rows, plan) {
      var q :| 0 <= q < |rows| && KeptRows(rows, plan)[q] == s;
      KeptRowShape(rules, roster, rows, plan, q);
      KeptRowSettled(rules, roster, rows, plan, i, q);
    } else {
      NewRowSettled(rules, roster, rows, plan, usernames, firstId, i, s);
    }
  }

  /** A created account was made for a roster entry. */
  lemma NewRowEntry(rules: Rules, roster: seq<RosterStudent>, rows: seq<DbStudent>, plan: MatchPlan,
                    usernames: seq<string>, firstId: int, s: DbStudent) returns (j: nat)
    requires Situation(rules, roster, rows, plan) && |usernames| == |plan.createNew|
    requires s in NewRows(plan.createNew, usernames, firstId)
    ensures j < |roster| && s.fullName == roster[j].fullName && s.studentClass == Some(roster[j].studentClass)
        && s.isActive
  {
    NewRowOrigin(plan.createNew, usernames, firstId, s);
    var e :| e in plan.createNew && s.fullName == e.fullName && s.studentClass == Some(e.studentClass) && s.isActive;
    ListOrigins(rules, roster, Pool(rules, rows), |roster|);
    j := IndexIn(roster, e);
  }

  lemma IndexIn(roster: seq<RosterStudent>, e: RosterStudent) returns (j: nat)
    requires e in roster
    ensures j < |roster| && roster[j] == e
  {
    var i :| 0 <= i < |roster| && roster[i] == e;
    j := i;
  }

  lemma NewRowSettled(rules: Rules, roster: seq<RosterStudent>, rows: seq<DbStudent>, plan: MatchPlan,
                      usernames: seq<string>, firstId: int, i: nat, s: DbStudent)
    requires Situation(rules, roster, rows, plan) && |usernames| == |plan.createNew| && i < |roster|
    requires CountNamed(rules, roster, rules.norm(roster[i].fullName)) == 1
    requires s in NewRows(plan.createNew, usernames, firstId)
        && rules.norm(s.fullName) == rules.norm(roster[i].fullName)
    ensures NeedsNothing(rules, s, roster[i])
  {
    var j := NewRowEntry(rules, roster, rows, plan, usernames, firstId, s);
    SameEntry(rules, roster, i, j);
    assert roster[i] in roster;
  }

  lemma SameEntry(rules: Rules, roster: seq<RosterStudent>, i: nat, j: nat)
    requires i < |roster| && j < |roster| && rules.norm(roster[j].fullName) == rules.norm(roster[i].fullName)
    requires CountNamed(rules, roster, rules.norm(roster[i].fullName)) == 1
    ensures j == i
  {
    OnlyEntry(rules, roster, i);
  }

  /** Nobody leaves twice: the second plan deactivates no account. */
  lemma NoSecondLeavers(rules: Rules, roster: seq<RosterStudent>, rows: seq<DbStudent>, plan: MatchPlan,
                        usernames: seq<string>, firstId: int)
    requires Situation(rules, roster, rows, plan) && |usernames| == |plan.createNew|
    ensures Leavers(rules, roster, Pool(rules, Applied(rows, plan, usernames, firstId))) == []
  {
    var after := Applied(rows, plan, usernames, firstId);
    var leavers := Leavers(rules, roster, Pool(rules, after));
    if leavers != [] {
      var s := leavers[0];
      LeaversMember(rules, roster, Pool(rules, after), s);
      PoolMember(rules, after, s);
      var q :| 0 <= q < |after| && after[q] == s;
      if q < |rows| {
        KeptRowLeaves(rules, roster, rows, plan, q);
      } else {
        NewRowStays(rules, roster, rows, plan, usernames, firstId, s);
      }
      assert false;
    }
  }

  lemma NewRowStays(rules: Rules, roster: seq<RosterStudent>, rows: seq<DbStudent>, plan: MatchPlan,
                    usernames: seq<string>, firstId: int, s: DbStudent)
    requires Situation(rules, roster, rows, plan) && |usernames| == |plan.createNew|
    requires s in NewRows(plan.createNew, usernames, firstId)
    ensures InRoster(rules, roster, rules.norm(s.fullName))
  {
    var j := NewRowEntry(rules, roster, rows, plan, usernames, firstId, s);
  }

  lemma KeptRowLeaves(rules: Rules, roster: seq<RosterStudent>, rows: seq<DbStudent>, plan: MatchPlan, q: nat)
    requires Situation(rules, roster, rows, plan) && q < |rows|
    requires InPool(rules, KeptRows(rows, plan)[q])
        && !InRoster(rules, roster, rules.norm(KeptRows(rows, plan)[q].fullName))
    ensures !KeptRows(rows, plan)[q].isActive
  {
    var s := rows[q];
    KeptRowShape(rules, roster, rows, plan, q);
    ListOrigins(rules, roster, Pool(rules, rows), |roster|);
    UpdateRowKeeps(s, plan.matchedUpdates);
    if m :| m in plan.matchedUpdates && m.userId == s.id {
      assert UpdateOrigin(rules, roster, Pool(rules, rows), m);
      var j: nat :| j < |roster| && OriginAt(rules, roster, Pool(rules, rows), m, j);
      OriginRow(rules, roster, rows, m, j, q);
      assert InRoster(rules, roster, rules.norm(s.fullName));
    }
    PoolMember(rules, rows, s);
    LeaversMember(rules, roster, Pool(rules, rows), s);
    assert s.isActive ==> s in plan.deactivate;
  }

  lemma {:induction false} NoneAmbiguousIff(rules: Rules, roster: seq<RosterStudent>, pool: seq<DbStudent>, k: nat)
    requires k <= |roster|
    ensures PlanUpTo(rules, roster, pool, k).ambiguous == []
            <==> forall i | 0 <= i < k :: !OutcomeAt(rules, roster, pool, i).Ambiguous?
  {
    if k > 0 {
      NoneAmbiguousIff(rules, roster, pool, k - 1);
    }
  }

  /** The lists of a plan in which every entry is settled or ambiguous. */
  lemma {:induction false} SettledPlan(rules: Rules, roster: seq<RosterStudent>, pool: seq<DbStudent>, k: nat)
    requires k <= |roster|
    requires forall i | 0 <= i < k ::
               var o := OutcomeAt(rules, roster, pool, i);
               o.Ambiguous? || (o.Matched? && NeedsNothing(rules, o.student, roster[i]))
    ensures var p := PlanUpTo(rules, roster, pool, k);
            p.matchedUpdates == [] && p.createNew == [] && |p.upToDate| + |p.ambiguous| == k
  {
    if k > 0 {
      SettledPlan(rules, roster, pool, k - 1);
    }
  }

  /** No entry shares its name with another or with two accounts, exactly when
      the names are distinct and the plan has no ambiguous entry. */
  lemma UnsharedIff(rules: Rules, roster: seq<RosterStudent>, rows: seq<DbStudent>)
    ensures (forall i | 0 <= i < |roster| :: Unshared(rules, roster, rows, i))
            <==> PlanOf(rules, roster, rows).ambiguous == [] && DistinctNames(rules, roster)
  {
    NoneAmbiguousIff(rules, roster, Pool(rules, rows), |roster|);
    if DistinctNames(rules, roster) {
      forall i | 0 <= i < |roster|
        ensures Unshared(rules, roster, rows, i) == !OutcomeAt(rules, roster, Pool(rules, rows), i).Ambiguous?
      {
        CountDistinct(rules, roster, i);
      }
    } else {
      var i, j :| 0 <= i < j < |roster| && rules.norm(roster[i].fullName) == rules.norm(roster[j].fullName);
      CountTwice(rules, roster, i, j);
      assert !Unshared(rules, roster, rows, i);
    }
  }

  /** Convergence. After any plan has been applied, planning again with the same
      roster updates, creates and deactivates nothing; and it leaves every entry
      unchanged exactly when the first plan had no ambiguous entry and no two
      roster entries share a normalised name. */
  lemma ReplanConvergesIff(rules: Rules, roster: seq<RosterStudent>, rows: seq<DbStudent>, plan: MatchPlan,
                           usernames: seq<string>, firstId: int)
    requires Situation(rules, roster, rows, plan) && |usernames| == |plan.createNew|
    ensures var again := PlanOf(rules, roster, Applied(rows, plan, usernames, firstId));
            && again.matchedUpdates == [] && again.createNew == [] && again.deactivate == []
            && |again.upToDate| + |again.ambiguous| == |roster|
            && (again.ambiguous == [] <==> plan.ambiguous == [] && DistinctNames(rules, roster))
  {
    var after := Applied(rows, plan, usernames, firstId);
    forall i | 0 <= i < |roster|
      ensures var o := OutcomeAt(rules, roster, Pool(rules, after), i);
              if Unshared(rules, roster, rows, i) then o.Matched?
                  && NeedsNothing(rules, o.student, roster[i]) else o.Ambiguous?
    {
      SecondOutcome(rules, roster, rows, plan, usernames, firstId, i);
    }
    SettledPlan(rules, roster, Pool(rules, after), |roster|);
    NoneAmbiguousIff(rules, roster, Pool(rules, after), |roster|);
    NoSecondLeavers(rules, roster, rows, plan, usernames, firstId);
    UnsharedIff(rules, roster, rows);
  }

  lemma {:induction false} CountDistinct(rules: Rules, entries: seq<RosterStudent>, i: nat)
    requires DistinctNames(rules, entries) && i < |entries|
    ensures CountNamed(rules, entries, rules.norm(entries[i].fullName)) == 1
  {
    var n := |entries| - 1;
    if i < n {
      CountDistinct(rules, entries[..n], i);
    } else {
      CountPositiveIff(rules, entries[..n], rules.norm(entries[n].fullName));
      assert forall j | 0 <= j < n :: entries[..n][j] == entries[j];
    }
  }

  lemma {:induction false} GoneFromOutside(rules: Rules, rows: seq<DbStudent>, gone: set<int>)
    requires forall s | s in rows && s.id in gone :: !InPool(rules, s)
    ensures Pool(rules, Unused(rows, gone)) == Pool(rules, rows)
  {
    if rows != [] {
      var init, last := rows[..|rows| - 1], rows[|rows| - 1];
      GoneFromOutside(rules, init, gone);
      assert last in rows;
      if last.id !in gone {
        PoolSnoc(rules, Unused(init, gone), last);
        assert Unused(rows, gone) == Unused(init, gone) + [last];
      } else {
        assert Unused(rows, gone) == Unused(init, gone) && Pool(rules, rows) == Pool(rules, init);
      }
    }
  }

  /** Deleting class-twelve students between planning and applying does not
      change the pool the plan was made for. */
  lemma TwelvesAreNotInPool(norm: string -> string, rows: seq<DbStudent>, gone: set<int>)
    requires forall s | s in rows && s.id in gone :: ClassNames.IsClassTwelve(s.studentClass)
    ensures Pool(ProgramRules(norm), Unused(rows, gone)) == Pool(ProgramRules(norm), rows)
  {
    forall s | s in rows && s.id in gone ensures !InPool(ProgramRules(norm), s) {
      TwelveNotEligible(norm, s);
    }
    GoneFromOutside(ProgramRules(norm), rows, gone);
  }

  lemma TwelveNotEligible(norm: string -> string, s: DbStudent)
    requires ClassNames.IsClassTwelve(s.studentClass)
    ensures !InPool(ProgramRules(norm), s)
  {
  }

  /** Classes taken from the sheet names of the roster file are as FromSheets
      asks, under the program's own rules. */
  lemma SheetClassesFit(norm: string -> string, roster: seq<RosterStudent>)
    requires forall e | e in roster ::
               ClassNames.SheetLabel(e.sourceSheet) == Some(e.studentClass)
                   && ClassNames.IsClassTenOrEleven(Some(e.studentClass))
    ensures FromSheets(ProgramRules(norm), roster)
  {
    forall e | e in roster ensures ClassNames.NormalizeClassName(Some(e.studentClass)) == Some(e.studentClass) {
      ClassNames.SheetLabelIsFixed(e.sourceSheet);
    }
  }
}
