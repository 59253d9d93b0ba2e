/** The double-checked interval guard around the automatic prune, run by any
    number of request coroutines of one worker, with log resets in between.
    Between two awaits a coroutine runs undisturbed; each such segment is one
    event here. */
module AutoPruneGuard {
  import opened Common

  /** interval_seconds */
  function Interval(setting: int): int {
    if setting >= 60 then setting else 60
  }

  /** The guard: is it too early to prune at now? */
  predicate TooEarly(last: Option<real>, now: real, interval: int) {
    last.Some? && now - last.value < interval as real
  }

  /** A coroutine inside _maybe_auto_prune_activity_logs. */
  datatype Stage =
    | Waiting                // past the first check, awaiting the lock
    | Pruning(start: real)   // inside the lock, awaiting the prune

  datatype State = State(
    clock: real,
    last: Option<real>,          // _last_auto_prune_run_utc
    holder: Option<int>,         // the coroutine in _auto_prune_lock
    stages: map<int, Stage>,
    successes: seq<real>)        // start instants of the prunes that succeeded, in order of completion

  datatype Event =
    | Tick(now: real)
    | Enter(c: int)              // a request comes in and makes the first check
    | Acquire(c: int)            // gets the lock, makes the second check, starts
    | Finish(c: int, ok: bool)   // the prune returns or raises; the lock is released
    | Reset                      // reset_activity_logs writes the timestamp

  const INITIAL := State(0.0, None, None, map[], [])

  /** One event, where it can happen. */
  function Next(s: State, e: Event, interval: int): Option<State> {
    match e
    case Tick(now) => if s.clock <= now then Some(s.(clock := now)) else None
    case Enter(c) =>
      if c in s.stages then None
      else if TooEarly(s.last, s.clock, interval) then Some(s)
      else Some(s.(stages := s.stages[c := Waiting]))
    case Acquire(c) =>
      if c !in s.stages || !s.stages[c].Waiting? || s.holder.Some? then None
      else if TooEarly(s.last, s.clock, interval) then Some(s.(stages := s.stages - {c}))
      else Some(s.(holder := Some(c), stages := s.stages[c := Pruning(s.clock)]))
    case Finish(c, ok) =>
      if c !in s.stages || !s.stages[c].Pruning? then None
      else
        var start := s.stages[c].start;
        var released := s.(holder := None, stages := s.stages - {c});
        if !ok then Some(released)
        else Some(released.(last := Some(start), successes := s.successes + [start]))
    case Reset => Some(s.(last := Some(s.clock)))
  }

  /** The state after a run of events from s, None when some event could not
      happen. */
  function ExecFrom(s: State, events: seq<Event>, interval: int): Option<State> {
    if events == [] then Some(s)
    else
      var before := ExecFrom(s, events[..|events| - 1], interval);
      if before.None? then None else Next(before.value, events[|events| - 1], interval)
  }

  function Exec(events: seq<Event>, interval: int): Option<State> {
    ExecFrom(INITIAL, events, interval)
  }

  function LastSuccess(s: State): real
    requires s.successes != []
  {
    s.successes[|s.successes| - 1]
  }

  /** What every event keeps: only the lock holder prunes; the timestamp is not
      older than the last success; a prune in progress started far enough from
      that success. */
  ghost predicate Inv(s: State, interval: int) {
    && (forall c | c in s.stages && s.stages[c].Pruning? :: s.holder == Some(c))
    && (s.holder.Some? ==> s.holder.value in s.stages && s.stages[s.holder.value].Pruning?)
    && (s.last.Some? ==> s.last.value <= s.clock)
    && (forall c | c in s.stages && s.stages[c].Pruning? ::
          && s.stages[c].start <= s.clock
          && (s.successes != [] ==> s.stages[c].start - LastSuccess(s) >= interval as real))
    && (s.successes != [] ==> s.last.Some? && s.last.value >= LastSuccess(s))
  }

  ghost predicate Spaced(starts: seq<real>, interval: int) {
    forall i, j | 0 <= i < j < |starts| :: starts[j] - starts[i] >= interval as real
  }

  lemma SpacedSnoc(starts: seq<real>, next: real, interval: int)
    requires interval > 0 && Spaced(starts, interval)
    requires starts != [] ==> next - starts[|starts| - 1] >= interval as real
    ensures Spaced(starts + [next], interval)
  {
    var longer := starts + [next];
    forall i, j | 0 <= i < j < |longer| ensures longer[j] - longer[i] >= interval as real {
      if j == |starts| && i < j - 1 {
        assert starts[j - 1] - starts[i] >= interval as real;
      }
    }
  }

  lemma FinishKeepsInv(s: State, c: int, ok: bool, interval: int)
    requires interval > 0 && Inv(s, interval) && Spaced(s.successes, interval) && Next(s, Finish(c, ok), interval).Some?
    ensures var t := Next(s, Finish(c, ok), interval).value; Inv(t, interval) && Spaced(t.successes, interval)
  {
    var t := Next(s, Finish(c, ok), interval).value;
    assert forall d | d in t.stages :: d in s.stages && d != c && t.stages[d] == s.stages[d];
    if ok {
      SpacedSnoc(s.successes, s.stages[c].start, interval);
      assert LastSuccess(t) == s.stages[c].start;
    }
  }

  lemma AcquireKeepsInv(s: State, c: int, interval: int)
    requires interval > 0 && Inv(s, interval) && Next(s, Acquire(c), interval).Some?
    ensures Inv(Next(s, Acquire(c), interval).value, interval)
  {
    var t := Next(s, Acquire(c), interval).value;
    assert forall d | d in t.stages && d != c :: d in s.stages && t.stages[d] == s.stages[d];
  }

  lemma EventKeepsInv(s: State, e: Event, interval: int)
    requires interval > 0 && Inv(s, interval) && Spaced(s.successes, interval) && Next(s, e, interval).Some?
    ensures var t := Next(s, e, interval).value; Inv(t, interval) && Spaced(t.successes, interval)
  {
    match e
    case Finish(c, ok) => FinishKeepsInv(s, c, ok, interval);
    case Acquire(c) => AcquireKeepsInv(s, c, interval);
    case _ =>
  }

  lemma {:induction false} RunKeepsInv(events: seq<Event>, interval: int)
    requires interval > 0 && Exec(events, interval).Some?
    ensures Inv(Exec(events, interval).value, interval) && Spaced(Exec(events, interval).value.successes, interval)
  {
    if events != [] {
      RunKeepsInv(events[..|events| - 1], interval);
      EventKeepsInv(Exec(events[..|events| - 1], interval).value, events[|events| - 1], interval);
    }
  }

  /** In every run, whatever the interleaving of requests and resets and
      whichever prunes fail: at most one prune is in progress, and the prunes
      that succeed start at least the interval apart. */
  lemma AutoPruneSpacing(events: seq<Event>, setting: int)
    requires Exec(events, Interval(setting)).Some?
    ensures var s := Exec(events, Interval(setting)).value;
            && (forall c, d | c in s.stages && d in s.stages && s.stages[c].Pruning? && s.stages[d].Pruning? :: c == d)
            && (forall i, j | 0 <= i < j < |s.successes| ::
                  && s.successes[j] - s.successes[i] >= Interval(setting) as real
                  && s.successes[j] - s.successes[i] >= 60.0)
  {
    RunKeepsInv(events, Interval(setting));
    var s := Exec(events, Interval(setting)).value;
    assert forall i, j | 0 <= i < j < |s.successes| :: s.successes[j] - s.successes[i] >= Interval(setting) as real;
  }

  // ------------------------------------------------------ resets

  /** After the given events coroutine c gets the lock and starts to prune. */
  ghost predicate Starts(s: State, events: seq<Event>, c: int, interval: int) {
    && ExecFrom(s, events, interval).Some?
    && var t := ExecFrom(s, events, interval).value;
       Next(t, Acquire(c), interval).Some? && c in Next(t, Acquire(c), interval).value.stages
  }

  /** Whatever happens from s on, no prune starts before the given instant. */
  ghost predicate HeldOff(s: State, until: real, interval: int) {
    forall events, c | Starts(s, events, c, interval) :: ExecFrom(s, events, interval).value.clock >= until
  }

  /** Neither the timestamp nor a prune in progress, which would write its start
      there, is older than r. */
  ghost predicate NotOlder(s: State, r: real) {
    && s.last.Some? && s.last.value >= r
    && forall c | c in s.stages && s.stages[c].Pruning? :: s.stages[c].start >= r
  }

  lemma EventKeepsNotOlder(s: State, e: Event, r: real, interval: int)
    requires NotOlder(s, r) && s.clock >= r && Next(s, e, interval).Some?
    ensures NotOlder(Next(s, e, interval).value, r) && Next(s, e, interval).value.clock >= s.clock
  {
  }

  lemma {:induction false} RunKeepsNotOlder(s: State, events: seq<Event>, r: real, interval: int)
    requires NotOlder(s, r) && s.clock >= r && ExecFrom(s, events, interval).Some?
    ensures NotOlder(ExecFrom(s, events, interval).value, r) && ExecFrom(s, events, interval).value.clock >= s.clock
  {
    if events != [] {
      RunKeepsNotOlder(s, events[..|events| - 1], r, interval);
      EventKeepsNotOlder(ExecFrom(s, events[..|events| - 1], interval).value, events[|events| - 1], r, interval);
    }
  }

  lemma {:induction false} ClockGoesOn(s: State, events: seq<Event>, interval: int)
    requires ExecFrom(s, events, interval).Some?
    ensures ExecFrom(s, events, interval).value.clock >= s.clock
  {
    if events != [] {
      ClockGoesOn(s, events[..|events| - 1], interval);
    }
  }

  lemma ExecSnoc(s: State, events: seq<Event>, e: Event, interval: int)
    ensures ExecFrom(s, events + [e], interval)
            == if ExecFrom(s, events, interval).None? then None
               else Next(ExecFrom(s, events, interval).value, e, interval)
  {
    assert (events + [e])[..|events|] == events;
  }

  lemma FreshCoroutine(stages: map<int, Stage>) returns (c: int)
    ensures c !in stages
  {
    c := FreshAbove(stages.Keys);
  }

  lemma {:induction false} FreshAbove(s: set<int>) returns (k: int)
    ensures forall x | x in s :: x < k
  {
    k := 0;
    if s != {} {
      var x := Pick(s);
      var above := FreshAbove(s - {x});
      k := if x < above then above else x + 1;
      forall y | y in s ensures y < k {
        assert y == x || y in s - {x};
      }
    }
  }

  /** The first instant from clock on at which it is not too early. */
  function Due(last: Option<real>, clock: real, interval: int): real {
    if last.Some? && clock <= last.value + interval as real then last.value + interval as real else clock
  }

  /** With the lock free the next request prunes as soon as it is due. */
  lemma FreeLockStarts(s: State, interval: int) returns (events: seq<Event>, c: int)
    requires interval > 0 && s.holder.None?
    ensures Starts(s, events, c, interval)
    ensures ExecFrom(s, events, interval).value.clock == Due(s.last, s.clock, interval)
  {
    c := FreshCoroutine(s.stages);
    var t := Due(s.last, s.clock, interval);
    var e1 := [Tick(t)];
    events := e1 + [Enter(c)];
    assert [] + [Tick(t)] == e1;
    ExecSnoc(s, [], Tick(t), interval);
    ExecSnoc(s, e1, Enter(c), interval);
  }

  lemma {:induction false} RunsJoin(s: State, before: seq<Event>, after: seq<Event>, interval: int)
    requires ExecFrom(s, before, interval).Some?
    ensures ExecFrom(s, before + after, interval) == ExecFrom(ExecFrom(s, before, interval).value, after, interval)
  {
    if after == [] {
      assert before + after == before;
    } else {
      var n := |after| - 1;
      RunsJoin(s, before, after[..n], interval);
      assert before + after == (before + after[..n]) + [after[n]];
      ExecSnoc(s, before + after[..n], after[n], interval);
    }
  }

  /** The interval is a setting of 60 seconds or more, and 60 for less: with the
      lock free a prune starts at the very end of it, and none before. */
  lemma IntervalIsSetting(events: seq<Event>, setting: int) returns (more: seq<Event>, c: int)
    requires Exec(events, Interval(setting)).Some?
    requires var s := Exec(events, Interval(setting)).value;
             && s.holder.None? && s.last.Some?
             && s.clock <= s.last.value + (if setting > 60 then setting as real else 60.0)
    ensures var s := Exec(events, Interval(setting)).value;
            var due := s.last.value + (if setting > 60 then setting as real else 60.0);
            && Starts(s, more, c, Interval(setting))
            && ExecFrom(s, more, Interval(setting)).value.clock == due
            && HeldOff(s, due, Interval(setting))
  {
    RunKeepsInv(events, Interval(setting));
    var s := Exec(events, Interval(setting)).value;
    assert forall d | d in s.stages :: !s.stages[d].Pruning?;
    more, c := FreeLockStarts(s, Interval(setting));
    HoldingOff(s, s.last.value, Interval(setting));
  }

  /** The first check turns a request away at once, or lets it wait. */
  lemma FirstCheckIff(s: State, c: int, setting: int)
    requires c !in s.stages
    ensures var early := s.last.Some? && s.clock < s.last.value + (if setting > 60 then setting as real else 60.0);
            Next(s, Enter(c), Interval(setting)) == Some(if early then s else s.(stages := s.stages[c := Waiting]))
  {
  }

  /** And a prune in progress can come to its end first, one way or the other. */
  lemma BusyLockStarts(s: State, c: int, ok: bool, interval: int) returns (events: seq<Event>, d: int)
    requires interval > 0 && Inv(s, interval) && c in s.stages && s.stages[c].Pruning?
    ensures Starts(s, events, d, interval)
    ensures ExecFrom(s, events, interval).value.clock
            == Due(if ok then Some(s.stages[c].start) else s.last, s.clock, interval)
  {
    var first := [Finish(c, ok)];
    assert [] + [Finish(c, ok)] == first;
    ExecSnoc(s, [], Finish(c, ok), interval);
    var rest;
    rest, d := FreeLockStarts(ExecFrom(s, first, interval).value, interval);
    RunsJoin(s, first, rest, interval);
    events := first + rest;
  }

  lemma HoldingOff(s: State, r: real, interval: int)
    requires interval > 0 && r <= s.clock && (s.clock >= r + interval as real || NotOlder(s, r))
    ensures HeldOff(s, r + interval as real, interval)
  {
    forall events, c | Starts(s, events, c, interval)
      ensures ExecFrom(s, events, interval).value.clock >= r + interval as real
    {
      ClockGoesOn(s, events, interval);
      if NotOlder(s, r) {
        RunKeepsNotOlder(s, events, r, interval);
      }
    }
  }

  lemma NotHoldingOff(s: State, r: real, interval: int)
    requires interval > 0 && Inv(s, interval) && s.clock < r + interval as real && !NotOlder(s, r)
    ensures !HeldOff(s, r + interval as real, interval)
  {
    var events, d;
    if s.holder.None? {
      assert forall c | c in s.stages :: !s.stages[c].Pruning?;
      events, d := FreeLockStarts(s, interval);
    } else {
      var c := s.holder.value;
      events, d := BusyLockStarts(s, c, s.last.Some? && s.last.value >= r, interval);
    }
    assert Starts(s, events, d, interval);
  }

  /** From any reachable state, prunes stay away for the interval after an instant
      r exactly when that interval is over, or the timestamp is set and neither it
      nor the start of a prune in progress is before r. */
  lemma HeldOffIff(events: seq<Event>, r: real, setting: int)
    requires Exec(events, Interval(setting)).Some?
    requires r <= Exec(events, Interval(setting)).value.clock
    ensures var s := Exec(events, Interval(setting)).value;
            HeldOff(s, r + Interval(setting) as real, Interval(setting))
            <==> s.clock >= r + Interval(setting) as real || NotOlder(s, r)
  {
    RunKeepsInv(events, Interval(setting));
    var s := Exec(events, Interval(setting)).value;
    if s.clock >= r + Interval(setting) as real || NotOlder(s, r) {
      HoldingOff(s, r, Interval(setting));
    } else {
      NotHoldingOff(s, r, Interval(setting));
    }
  }

  /** A reset holds the next prune off for the interval exactly when no prune
      that started before it is still in progress. */
  lemma ResetHoldsIff(events: seq<Event>, setting: int)
    requires Exec(events, Interval(setting)).Some?
    ensures var s := Exec(events, Interval(setting)).value;
            HeldOff(Next(s, Reset, Interval(setting)).value, s.clock + Interval(setting) as real, Interval(setting))
            <==> forall c | c in s.stages && s.stages[c].Pruning? :: s.stages[c].start >= s.clock
  {
    var s := Exec(events, Interval(setting)).value;
    ExecSnoc(INITIAL, events, Reset, Interval(setting));
    HeldOffIff(events + [Reset], s.clock, setting);
  }

  /** The exception is real: a prune starts at 0, the log is reset at 50, and the
      prune's end lets the next one start at 60. */
  lemma ResetSetBack() returns (events: seq<Event>, after: seq<Event>, c: int)
    ensures Exec(events + [Reset], 60).Some? && Exec(events + [Reset], 60).value.clock == 50.0
    ensures Starts(Exec(events + [Reset], 60).value, after, c, 60)
    ensures ExecFrom(Exec(events + [Reset], 60).value, after, 60).value.clock == 60.0
  {
    var e1 := [Enter(7)];
    var e2 := e1 + [Acquire(7)];
    events := e2 + [Tick(50.0)];
    assert [] + [Enter(7)] == e1;
    ExecSnoc(INITIAL, [], Enter(7), 60);
    ExecSnoc(INITIAL, e1, Acquire(7), 60);
    ExecSnoc(INITIAL, e2, Tick(50.0), 60);
    ExecSnoc(INITIAL, events, Reset, 60);
    RunKeepsInv(events + [Reset], 60);
    after, c := BusyLockStarts(Exec(events + [Reset], 60).value, 7, true, 60);
  }

  // ------------------------------------------------------ the module state

  /** The module's globals, as the undisturbed segments of the two routes change
      them; world is the state of the step system they stand in. */
  class Guard {
    var last: Option<real>
    var lockedBy: Option<int>
    ghost var world: State

    ghost predicate Valid()
      reads this
    {
      last == world.last && lockedBy == world.holder
    }

    constructor ()
      ensures Valid() && world == INITIAL
    {
      last, lockedBy, world := None, None, INITIAL;
    }

    /** A request up to the lock; true to go on. */
    method FirstCheck(c: int, now: real, interval: int) returns (goOn: bool)
      requires Valid() && now == world.clock && c !in world.stages
      modifies this`world
      ensures Valid() && Next(old(world), Enter(c), interval) == Some(world)
      ensures goOn <==> c in world.stages
    {
      goOn := !(last.Some? && now - last.value < interval as real);
      if goOn {
        world := world.(stages := world.stages[c := Waiting]);
      }
    }

    /** From taking the free lock to awaiting the prune, true; or giving the
        lock back at once, when it is too early after all. */
    method SecondCheck(c: int, now: real, interval: int) returns (prune: bool)
      requires Valid() && now == world.clock && lockedBy.None?
      requires c in world.stages && world.stages[c].Waiting?
      modifies this
      ensures Valid() && Next(old(world), Acquire(c), interval) == Some(world)
      ensures prune <==> c in world.stages
      ensures last == old(last)
    {
      lockedBy := Some(c);
      if last.Some? && now - last.value < interval as real {
        lockedBy := None;
        world := world.(stages := world.stages - {c});
        return false;
      }
      world := world.(holder := Some(c), stages := world.stages[c := Pruning(now)]);
      prune := true;
    }

    /** From the end of the prune to the release of the lock. */
    method AfterPrune(c: int, start: real, ok: bool, ghost interval: int)
      requires Valid() && c in world.stages && world.stages[c] == Pruning(start)
      modifies this
      ensures Valid() && Next(old(world), Finish(c, ok), interval) == Some(world)
    {
      if ok {
        last := Some(start);
      }
      lockedBy := None;
      world := Next(world, Finish(c, ok), interval).value;
    }

    /** reset_activity_logs, outside the lock. */
    method AfterReset(now: real, ghost interval: int)
      requires Valid() && now == world.clock
      modifies this
      ensures Valid() && Next(old(world), Reset, interval) == Some(world)
    {
      last := Some(now);
      world := Next(world, Reset, interval).value;
    }
  }
}
