/** The activity-log pruner: a bounded loop of batched deletes by age and by
    row cap, compared with pruning in one shot. The table maps a row's id to
    its created_at; rows are ordered by (created_at, id). */
module ActivityPrune {
  import opened Common

  type Rows = map<int, real>

  function Min(a: int, b: int): (r: int)
    ensures r <= a && r <= b && (r == a || r == b)
  {
    if a <= b then a else b
  }

  function Max(a: int, b: int): (r: int)
    ensures r >= a && r >= b && (r == a || r == b)
  {
    if a >= b then a else b
  }

  predicate Before(m: Rows, a: int, b: int)
    requires a in m && b in m
  {
    m[a] < m[b] || (m[a] == m[b] && a < b)
  }

  function Older(m: Rows, id: int): set<int>
    requires id in m
  {
    set x | x in m && Before(m, x, id)
  }

  function Newer(m: Rows, id: int): set<int>
    requires id in m
  {
    set x | x in m && Before(m, id, x)
  }

  /** SELECT id ... ORDER BY created_at, id LIMIT k: the rows with fewer than k
      rows before them. */
  function FirstIds(m: Rows, k: int): set<int> {
    set id | id in m && |Older(m, id)| < k
  }

  /** The newest r rows. */
  function LastRows(m: Rows, r: int): Rows {
    map id | id in m && |Newer(m, id)| < r :: m[id]
  }

  function StaleRows(m: Rows, cutoff: real): Rows {
    map id | id in m && m[id] < cutoff :: m[id]
  }

  // ------------------------------------------------------ ranks

  /** The rows before it, the row, and the rows after it are all the rows. */
  lemma RankSum(m: Rows, id: int)
    requires id in m
    ensures |Older(m, id)| + |Newer(m, id)| + 1 == |m|
  {
    var o, n := Older(m, id), Newer(m, id);
    assert m.Keys == o + n + {id};
    assert o !! n && id !in o && id !in n;
    assert |o + n| == |o| + |n|;
    assert |m| == |m.Keys|;
  }

  lemma {:induction false} Latest(m: Rows) returns (last: int)
    requires |m| > 0
    ensures last in m && forall x | x in m && x != last :: Before(m, x, last)
  {
    var y := Pick(m.Keys);
    var rest := m - {y};
    if |rest| == 0 {
      last := y;
      forall x | x in m ensures x == y { assert x != y ==> x in rest; }
    } else {
      var z := Latest(rest);
      last := if Before(m, y, z) then z else y;
      forall x | x in m && x != last ensures Before(m, x, last) {
        if x != y && x != z {
          assert x in rest && Before(rest, x, z);
        }
      }
    }
  }

  /** ORDER BY ... LIMIT k returns min(k, n) rows. */
  lemma {:induction false} FirstIdsSize(m: Rows, k: nat)
    ensures |FirstIds(m, k)| == if k <= |m| then k else |m|
    decreases |m|
  {
    if |m| == 0 {
      assert FirstIds(m, k) == {};
    } else {
      var last := Latest(m);
      var rest := m - {last};
      assert |rest| == |m| - 1 by {
        assert rest.Keys == m.Keys - {last};
        assert |rest| == |rest.Keys| && |m| == |m.Keys|;
      }
      FirstIdsSize(rest, k);
      forall x | x in rest ensures Older(rest, x) == Older(m, x) {}
      assert Newer(m, last) == {};
      RankSum(m, last);
      var here := if |m| - 1 < k then {last} else {};
      assert FirstIds(m, k) == FirstIds(rest, k) + here;
    }
  }

  /** Dropping the oldest k rows leaves the newest n - k. */
  lemma DropOldest(m: Rows, k: nat)
    requires k <= |m|
    ensures m - FirstIds(m, k) == LastRows(m, |m| - k)
    ensures |LastRows(m, |m| - k)| == |m| - k
  {
    var left := m - FirstIds(m, k);
    forall id | id in m ensures id in FirstIds(m, k) <==> id !in LastRows(m, |m| - k) {
      RankSum(m, id);
    }
    FirstIdsSize(m, k);
    assert left.Keys == m.Keys - FirstIds(m, k) && FirstIds(m, k) <= m.Keys;
    assert |left| == |left.Keys| && |m| == |m.Keys|;
  }

  /** The newest q of the newest r are the newest q. */
  lemma LastOfLast(m: Rows, r: nat, q: nat)
    requires q <= r
    ensures LastRows(LastRows(m, r), q) == LastRows(m, q)
  {
    var l := LastRows(m, r);
    forall id | id in l ensures Newer(l, id) == Newer(m, id) {
      forall x | x in Newer(m, id) ensures x in l {
        assert Newer(m, x) <= Newer(m, id);
        SubsetSize(Newer(m, x), Newer(m, id));
      }
    }
  }

  lemma AllRows(m: Rows)
    ensures LastRows(m, |m|) == m
  {
    forall id | id in m ensures |Newer(m, id)| < |m| {
      RankSum(m, id);
    }
  }

  // ------------------------------------------------------ stale rows

  function StaleCount(m: Rows, cutoff: real): nat {
    |StaleRows(m, cutoff)|
  }

  /** The stale rows are the oldest ones. */
  lemma StaleAreOldest(m: Rows, cutoff: real)
    ensures StaleCount(m, cutoff) <= |m|
    ensures FirstIds(m, StaleCount(m, cutoff)) == StaleRows(m, cutoff).Keys
    ensures forall k: nat | k <= StaleCount(m, cutoff) :: FirstIds(StaleRows(m, cutoff), k) == FirstIds(m, k)
  {
    var st := StaleRows(m, cutoff);
    assert |st| == |st.Keys| && |m| == |m.Keys| && st.Keys <= m.Keys;
    SubsetSize(st.Keys, m.Keys);
    forall id | id in st ensures Older(st, id) == Older(m, id) && |Older(m, id)| < |st| {
      assert Older(m, id) <= st.Keys - {id};
      SubsetSize(Older(m, id), st.Keys - {id});
    }
    forall id | id in m && id !in st ensures |Older(m, id)| >= |st| {
      assert st.Keys <= Older(m, id);
      SubsetSize(st.Keys, Older(m, id));
    }
  }

  /** A row is stale iff it is not among the newest n - s. */
  lemma FreshAreLast(m: Rows, cutoff: real)
    ensures StaleCount(m, cutoff) <= |m|
    ensures StaleRows(m, cutoff).Keys == m.Keys - LastRows(m, |m| - StaleCount(m, cutoff)).Keys
  {
    StaleAreOldest(m, cutoff);
    DropOldest(m, StaleCount(m, cutoff));
  }

  lemma LastNested(m: Rows, q: int, r: int)
    requires q <= r
    ensures LastRows(m, q).Keys <= LastRows(m, r).Keys <= m.Keys
  {
  }

  lemma StaleOfLast(m: Rows, cutoff: real, r: int)
    ensures StaleRows(LastRows(m, r), cutoff).Keys == LastRows(m, r).Keys * StaleRows(m, cutoff).Keys
  {
  }

  lemma LastSize(m: Rows, r: nat)
    requires r <= |m|
    ensures |LastRows(m, r).Keys| == r
  {
    DropOldest(m, |m| - r);
    assert |LastRows(m, r)| == |LastRows(m, r).Keys|;
  }

  lemma DifferenceSize(whole: set<int>, last: set<int>, fresh': set<int>)
    requires last <= whole && fresh' <= whole
    ensures fresh' <= last ==> |last * (whole - fresh')| == |last| - |fresh'|
    ensures last <= fresh' ==> |last * (whole - fresh')| == 0
  {
    assert last * (whole - fresh') == last - fresh';
    if fresh' <= last {
      assert last == (last - fresh') + fresh';
    } else if last <= fresh' {
      assert last - fresh' == {};
    }
  }

  /** How many of the newest r rows are stale. */
  lemma StaleAmongLast(m: Rows, cutoff: real, r: nat)
    requires r <= |m|
    ensures StaleCount(m, cutoff) <= |m|
    ensures StaleCount(LastRows(m, r), cutoff) == Max(0, r - (|m| - StaleCount(m, cutoff)))
  {
    FreshAreLast(m, cutoff);
    var f := |m| - StaleCount(m, cutoff);
    StaleOfLast(m, cutoff, r);
    LastSize(m, r);
    LastSize(m, f);
    LastNested(m, Min(r, f), Max(r, f));
    DifferenceSize(m.Keys, LastRows(m, r).Keys, LastRows(m, f).Keys);
    assert |StaleRows(LastRows(m, r), cutoff)| == |StaleRows(LastRows(m, r), cutoff).Keys|;
  }

  // ------------------------------------------------------ one shot

  predicate IsStale(m: Rows, cutoff: Option<real>, id: int)
    requires id in m
  {
    cutoff.Some? && m[id] < cutoff.value
  }

  /** Pruning in one shot: keep a row iff it is not stale and fewer than cap
      rows are newer. */
  function OneShot(m: Rows, cutoff: Option<real>, cap: nat): Rows {
    map id | id in m && !IsStale(m, cutoff, id) && |Newer(m, id)| < cap :: m[id]
  }

  function FreshCount(m: Rows, cutoff: Option<real>): int {
    |m| - (if cutoff.Some? then StaleCount(m, cutoff.value) else 0)
  }

  function Target(m: Rows, cutoff: Option<real>, cap: nat): int {
    if FreshCount(m, cutoff) <= cap then FreshCount(m, cutoff) else cap
  }

  /** The one-shot result is the newest min(n - s, cap) rows. */
  lemma OneShotIsLast(m: Rows, cutoff: Option<real>, cap: nat)
    ensures 0 <= Target(m, cutoff, cap) <= FreshCount(m, cutoff) <= |m|
    ensures OneShot(m, cutoff, cap) == LastRows(m, Target(m, cutoff, cap))
  {
    if cutoff.Some? {
      FreshAreLast(m, cutoff.value);
      forall id | id in m ensures IsStale(m, cutoff, id) <==> |Newer(m, id)| >= FreshCount(m, cutoff) {
        assert IsStale(m, cutoff, id) <==> id in StaleRows(m, cutoff.value).Keys;
      }
    } else {
      forall id | id in m ensures |Newer(m, id)| < |m| {
        RankSum(m, id);
      }
    }
  }

  // ------------------------------------------------------ the pruner

  datatype PruneReport = PruneReport(
    deletedTotal: int, deletedByAge: int, deletedByCap: int, beforeTotal: int, remainingTotal: int,
    retentionDays: int, maxRows: int, batchSize: int, rounds: int)

  function Cutoff(retentionDays: int, now: real): Option<real> {
    if Max(0, retentionDays) > 0 then Some(now - 86400.0 * Max(0, retentionDays) as real) else None
  }

  // ------------------------------------------------------ in days and rows

  /** The rows older than the retention of so many days; none for no days. */
  ghost function Expired(m: Rows, days: int, now: real): set<int> {
    set id | id in m && days > 0 && m[id] < now - 86400.0 * days as real
  }

  /** A row within the retention with fewer than cap newer rows is kept. */
  ghost predicate KeepsFresh(m: Rows, kept: Rows, days: int, now: real, cap: int) {
    forall id | id in m && (days <= 0 || m[id] >= now - 86400.0 * days as real)
                && |set x | x in m && (m[x] > m[id] || (m[x] == m[id] && x > id))| < cap ::
      id in kept && kept[id] == m[id]
  }

  /** What is left comes from m, and is newer than all that is gone. */
  ghost predicate KeepsNewest(m: Rows, kept: Rows) {
    && (forall id | id in kept :: id in m && kept[id] == m[id])
    && (forall x, y | x in m && x !in kept && y in kept :: m[x] < m[y] || (m[x] == m[y] && x < y))
  }

  lemma CutoffInDays(m: Rows, days: int, now: real, cap: nat)
    ensures FreshCount(m, Cutoff(days, now)) == |m| - |Expired(m, days, now)|
    ensures Target(m, Cutoff(days, now), cap) == Min(|m| - |Expired(m, days, now)|, cap)
    ensures forall id | id in m :: IsStale(m, Cutoff(days, now), id) <==> id in Expired(m, days, now)
  {
    if days > 0 {
      var cutoff := now - 86400.0 * days as real;
      assert StaleRows(m, cutoff).Keys == Expired(m, days, now);
      assert |StaleRows(m, cutoff)| == |StaleRows(m, cutoff).Keys|;
    } else {
      assert Expired(m, days, now) == {};
    }
  }

  lemma LastKeepsFresh(m: Rows, r: nat, days: int, now: real, cap: nat)
    requires r >= Target(m, Cutoff(days, now), cap)
    ensures KeepsFresh(m, LastRows(m, r), days, now, cap)
  {
    var target := Target(m, Cutoff(days, now), cap);
    OneShotIsLast(m, Cutoff(days, now), cap);
    CutoffInDays(m, days, now, cap);
    LastNested(m, target, r);
    forall id | id in m && (days <= 0 || m[id] >= now - 86400.0 * days as real)
                && |set x | x in m && (m[x] > m[id] || (m[x] == m[id] && x > id))| < cap
      ensures id in LastRows(m, r)
    {
      assert Newer(m, id) == set x | x in m && (m[x] > m[id] || (m[x] == m[id] && x > id));
      assert id in OneShot(m, Cutoff(days, now), cap);
      assert id in LastRows(m, target).Keys;
    }
  }

  lemma LastKeepsNewest(m: Rows, r: int)
    ensures KeepsNewest(m, LastRows(m, r))
  {
    forall x, y | x in m && x !in LastRows(m, r) && y in LastRows(m, r)
      ensures m[x] < m[y] || (m[x] == m[y] && x < y)
    {
      if Before(m, y, x) {
        assert Newer(m, x) <= Newer(m, y);
        SubsetSize(Newer(m, x), Newer(m, y));
      }
    }
  }

  lemma OneShotNoneExpired(m: Rows, days: int, now: real, cap: nat)
    ensures forall id | id in OneShot(m, Cutoff(days, now), cap) :: id !in Expired(m, days, now)
    ensures |OneShot(m, Cutoff(days, now), cap)| == Min(|m| - |Expired(m, days, now)|, cap)
  {
    OneShotIsLast(m, Cutoff(days, now), cap);
    CutoffInDays(m, days, now, cap);
    DropOldest(m, |m| - Target(m, Cutoff(days, now), cap));
  }

  /** The subquery of _delete_activity_logs_older_than: deleting what it selects
      keeps the newest rows. */
  method SelectStale(m: Rows, cutoff: real, limit: nat) returns (ids: set<int>)
    ensures |ids| == Min(limit, StaleCount(m, cutoff)) <= |m|
    ensures m - ids == LastRows(m, |m| - |ids|)
  {
    ids := FirstIds(StaleRows(m, cutoff), limit);
    StaleAreOldest(m, cutoff);
    FirstIdsSize(StaleRows(m, cutoff), limit);
    StaleSelection(m, cutoff, limit);
    DropOldest(m, Min(limit, StaleCount(m, cutoff)));
  }

  /** The subquery of _delete_oldest_activity_logs. */
  method SelectOldest(m: Rows, limit: nat) returns (ids: set<int>)
    ensures |ids| == Min(limit, |m|)
    ensures m - ids == LastRows(m, |m| - |ids|)
  {
    ids := FirstIds(m, limit);
    FirstIdsSize(m, limit);
    OldestSelection(m, limit);
    DropOldest(m, Min(limit, |m|));
  }

  class ActivityTable {
    var rows: Rows

    constructor (rows: Rows)
      ensures this.rows == rows
    {
      this.rows := rows;
    }

    method Count() returns (n: int)
      ensures n == |rows|
    {
      n := |rows|;
    }

    /** _delete_activity_logs_older_than: the oldest stale rows, at most limit;
        what is left is a suffix of the order. */
    method DeleteOlderThan(cutoff: real, limit: int) returns (deleted: int)
      modifies this
      ensures deleted == Min(Max(limit, 0), StaleCount(old(rows), cutoff))
      ensures 0 <= deleted <= |old(rows)| && rows == LastRows(old(rows), |old(rows)| - deleted)
    {
      if limit <= 0 {
        AllRows(rows);
        return 0;
      }
      var ids := SelectStale(rows, cutoff, limit);
      deleted := |ids|;
      rows := rows - ids;
    }

    /** _delete_oldest_activity_logs. */
    method DeleteOldest(limit: int) returns (deleted: int)
      modifies this
      ensures deleted == Min(Max(limit, 0), |old(rows)|)
      ensures rows == LastRows(old(rows), |old(rows)| - deleted)
    {
      if limit <= 0 {
        AllRows(rows);
        return 0;
      }
      var ids := SelectOldest(rows, limit);
      deleted := |ids|;
      rows := rows - ids;
    }

    /** The age step of a round. */
    method AgeStep(ghost all: Rows, cutoff: Option<real>, batch: nat) returns (byAge: int)
      requires |rows| <= |all| && rows == LastRows(all, |rows|)
      modifies this
      ensures rows == LastRows(all, |rows|) && |rows| == |old(rows)| - byAge
      ensures byAge == Max(0, Min(batch, |old(rows)| - FreshCount(all, cutoff)))
    {
      byAge := 0;
      if cutoff.Some? {
        StaleAmongLast(all, cutoff.value, |rows|);
        byAge := DeleteOlderThan(cutoff.value, batch);
        SuffixOfSuffix(all, |old(rows)|, |old(rows)| - byAge);
      } else {
        assert |rows| <= FreshCount(all, cutoff);
      }
    }

    /** The cap step of a round. */
    method CapStep(ghost all: Rows, cap: nat, batch: nat) returns (byCap: int)
      requires |rows| <= |all| && rows == LastRows(all, |rows|)
      modifies this
      ensures rows == LastRows(all, |rows|) && |rows| == |old(rows)| - byCap
      ensures byCap == Max(0, Min(batch, |old(rows)| - cap))
    {
      byCap := 0;
      var overflow := Max(0, |rows| - cap);
      if overflow > 0 {
        byCap := DeleteOldest(Min(batch, overflow));
        SuffixOfSuffix(all, |old(rows)|, |old(rows)| - byCap);
      }
    }

    /** One round: at most two batches go, at least one as long as the target is
        not reached, and never part of the target. */
    method Round(ghost all: Rows, cutoff: Option<real>, cap: nat, batch: nat) returns (byAge: int, byCap: int)
      requires batch > 0 && |rows| <= |all| && rows == LastRows(all, |rows|) && |rows| >= Target(all, cutoff, cap)
      modifies this
      ensures 0 <= byAge <= batch && 0 <= byCap <= batch && |rows| == |old(rows)| - byAge - byCap
      ensures rows == LastRows(all, |rows|) && |rows| >= Target(all, cutoff, cap)
      ensures |rows| == Target(all, cutoff, cap) || byAge + byCap >= batch
      ensures byAge > 0 ==> |old(rows)| - byAge >= FreshCount(all, cutoff)
      ensures byCap > 0 ==> |rows| >= cap
    {
      byAge := AgeStep(all, cutoff, batch);
      byCap := CapStep(all, cap, batch);
    }

    /** The loop: each round removes at most two batches, at least one batch
        until the target is reached, and never cuts into the target. */
    method PruneLoop(cutoff: Option<real>, cap: nat, batch: nat, maxRounds: nat)
      returns (deletedByAge: int, deletedByCap: int, rounds: nat)
      requires batch > 0 && maxRounds > 0
      modifies this
      ensures deletedByAge >= 0 && deletedByCap >= 0 && |rows| == |old(rows)| - deletedByAge - deletedByCap
      ensures 1 <= rounds <= maxRounds && deletedByAge + deletedByCap <= 2 * (batch * rounds)
      ensures rows == LastRows(old(rows), |rows|) && |rows| >= Target(old(rows), cutoff, cap)
      ensures deletedByAge <= |old(rows)| - FreshCount(old(rows), cutoff)
      ensures deletedByCap <= Max(0, |old(rows)| - cap)
      ensures |rows| == Target(old(rows), cutoff, cap)
          || (rounds == maxRounds && |old(rows)| - |rows| >= batch * maxRounds)
    {
      ghost var all := rows;
      OneShotIsLast(all, cutoff, cap);
      AllRows(all);
      deletedByAge, deletedByCap, rounds := 0, 0, 0;
      ghost var budget := 0;
      while rounds < maxRounds
        invariant rounds <= maxRounds && deletedByAge >= 0 && deletedByCap >= 0
        invariant |rows| == |all| - deletedByAge - deletedByCap
        invariant rows == LastRows(all, |rows|) && |rows| >= Target(all, cutoff, cap)
        invariant deletedByAge <= |all| - FreshCount(all, cutoff)
        invariant deletedByCap <= Max(0, |all| - cap)
        invariant budget == batch * rounds
        invariant deletedByAge + deletedByCap <= 2 * budget
        invariant |rows| == Target(all, cutoff, cap) || |all| - |rows| >= budget
      {
        NextRound(batch, rounds);
        rounds, budget := rounds + 1, budget + batch;
        var byAge, byCap := Round(all, cutoff, cap, batch);
        deletedByAge, deletedByCap := deletedByAge + byAge, deletedByCap + byCap;
        if byAge + byCap == 0 {
          break;
        }
      }
    }

    /** _smart_prune_activity_logs. Whatever the number of rounds, the rows left
        are a suffix of the order that contains the one-shot result; when the
        rounds suffice, or the loop stops early, they are the one-shot result.
        A fresh row is removed only while more than cap rows remain. Said in days:
        a row of the last so many days with fewer than cap newer ones is kept,
        and when the rounds suffice no older row is left. */
    method SmartPrune(retentionDays: int, maxRows: int, batchSize: int, maxRounds: int, now: real)
      returns (report: PruneReport)
      modifies this
      ensures report.beforeTotal == |old(rows)| && report.remainingTotal == |rows|
      ensures report.deletedTotal == report.deletedByAge + report.deletedByCap
          == report.beforeTotal - report.remainingTotal
      ensures report.deletedByAge >= 0 && report.deletedByCap >= 0
      ensures report.deletedByAge <= |Expired(old(rows), retentionDays, now)|
      ensures report.deletedByCap <= Max(0, |old(rows)| - Max(1000, maxRows))
      ensures KeepsFresh(old(rows), rows, retentionDays, now, Max(1000, maxRows)) && KeepsNewest(old(rows), rows)
      ensures var target := Min(|old(rows)| - |Expired(old(rows), retentionDays, now)|, Max(1000, maxRows));
              report.batchSize * Max(1, maxRounds) >= |old(rows)| - target || report.rounds < Max(1, maxRounds)
              ==> |rows| == target && forall id | id in rows :: id !in Expired(old(rows), retentionDays, now)
      ensures report.retentionDays == Max(0, retentionDays)
      ensures report.maxRows == Max(1000, maxRows) && report.batchSize == Max(100, batchSize)
      ensures 1 <= report.rounds <= Max(1, maxRounds) && report.deletedTotal <= 2 * (report.batchSize * report.rounds)
      ensures var cutoff, cap := Cutoff(retentionDays, now), Max(1000, maxRows);
              && rows == LastRows(old(rows), |rows|) && |rows| >= Target(old(rows), cutoff, cap)
              && (|rows| < FreshCount(old(rows), cutoff) ==> |rows| >= cap)
              && (report.batchSize * Max(1, maxRounds) >= |old(rows)| - Target(old(rows), cutoff, cap)
                  || report.rounds < Max(1, maxRounds)
                  ==> rows == OneShot(old(rows), cutoff, cap))
    {
      var cap, batch, rounds := Max(1000, maxRows), Max(100, batchSize), Max(1, maxRounds);
      var cutoff := Cutoff(retentionDays, now);
      OneShotIsLast(rows, cutoff, cap);
      CutoffInDays(rows, retentionDays, now, cap);
      OneShotNoneExpired(rows, retentionDays, now, cap);
      ghost var all := rows;
      var before := Count();
      var deletedByAge, deletedByCap, done := PruneLoop(cutoff, cap, batch, rounds);
      var remaining := Count();
      LastKeepsFresh(all, |rows|, retentionDays, now, cap);
      LastKeepsNewest(all, |rows|);
      report := PruneReport(deletedByAge + deletedByCap, deletedByAge, deletedByCap, before, remaining,
                            Max(0, retentionDays), cap, batch, done);
    }
  }

  lemma SuffixOfSuffix(all: Rows, r: nat, q: nat)
    requires q <= r
    ensures LastRows(LastRows(all, r), q) == LastRows(all, q)
    ensures q <= |all| ==> |LastRows(all, q)| == q
  {
    LastOfLast(all, r, q);
    if q <= |all| {
      DropOldest(all, |all| - q);
    }
  }

  lemma NextRound(batch: nat, rounds: nat)
    ensures batch * (rounds + 1) == batch * rounds + batch
  {
  }

  lemma StaleSelection(m: Rows, cutoff: real, limit: nat)
    ensures FirstIds(StaleRows(m, cutoff), limit) == FirstIds(m, Min(limit, StaleCount(m, cutoff)))
  {
    var st := StaleRows(m, cutoff);
    StaleAreOldest(m, cutoff);
    if limit > |st| {
      OldestSelection(st, limit);
    }
  }

  /** A limit beyond the number of rows selects all of them. */
  lemma OldestSelection(m: Rows, limit: nat)
    ensures FirstIds(m, limit) == FirstIds(m, Min(limit, |m|))
  {
    forall id | id in m ensures |Older(m, id)| < |m| {
      RankSum(m, id);
    }
  }
}
