/** One exam phase of the load generator (scripts/prod_concurrent_exam_load.py):
    workers start, become ready, wait for the gate, answer and submit, while a
    coordinator watches two counters and opens the gate. Every worker and the
    coordinator move one step at a time, in any order. */
module ReleaseGate {
  import opened Common

  datatype Config = Config(startTimeout: real, holdSeconds: real, timeout: real)

  /** How long a worker waits for the gate. */
  function ReleaseWaitTimeout(cfg: Config): real {
    var t := cfg.startTimeout + cfg.holdSeconds + cfg.timeout + 60.0;
    if t >= 300.0 then t else 300.0
  }

  // ------------------------------------------------------ workers

  /** Which of the five requests of a flow got their reply. */
  datatype Flags = Flags(start: bool, status: bool, remaining: bool, answer: bool, submit: bool)

  datatype At =
    | Unsubmitted
    | Queued
    | Starting
    | Recording
    | AskingStatus
    | AskingRemaining
    | Marking
    | Marked
    | Waiting(since: real)
    | Answering
    | Submitting
    | Done

  datatype Worker = Worker(at: At, flags: Flags)

  datatype Action =
    | Begin
    | StartReply
    | Record
    | StatusReply
    | RemainingReply
    | Mark
    | Wait
    | Pass
    | TimeOut
    | AnswerReply
    | SubmitReply
    | Fail

  /** One step of run_exam_flow; None when the worker is not there. */
  function WorkerNext(k: Worker, a: Action, now: real, gate: bool, wait: real): Option<Worker> {
    match a
    case Begin => if k.at == Queued then Some(k.(at := Starting)) else None
    case StartReply => if k.at == Starting then Some(Worker(Recording, k.flags.(start := true))) else None
    case Record => if k.at == Recording then Some(k.(at := AskingStatus)) else None
    case StatusReply => if k.at == AskingStatus then Some(Worker(AskingRemaining, k.flags.(status := true))) else None
    case RemainingReply => if k.at == AskingRemaining then Some(Worker(Marking, k.flags.(remaining := true))) else None
    case Mark => if k.at == Marking then Some(k.(at := Marked)) else None
    case Wait => if k.at == Marked then Some(k.(at := Waiting(now))) else None
    case Pass => if k.at.Waiting? && gate then Some(k.(at := Answering)) else None
    case TimeOut => if k.at.Waiting? && now >= k.at.since + wait then Some(k.(at := Done)) else None
    case AnswerReply => if k.at == Answering then Some(Worker(Submitting, k.flags.(answer := true))) else None
    case SubmitReply => if k.at == Submitting then Some(Worker(Done, k.flags.(submit := true))) else None
    case Fail => if CanFail(k.at) then Some(k.(at := Done)) else None
  }

  /** A request can fail, and so can reading the session id of a start reply. */
  predicate CanFail(at: At) {
    at in {Starting, Recording, AskingStatus, AskingRemaining, Answering, Submitting}
  }

  // ------------------------------------------------------ the coordinator

  datatype Coordinator =
    | Opening(next: nat)
    | Polling(deadline: real)
    | Snapshotting(deadline: real, checkedAt: real)
    | Scanning(deadline: real, checkedAt: real, ready: nat, next: nat, finished: nat)
    | Gathering
    | Holding(started: nat, ready: nat)
    | Released(started: nat, ready: nat)
    | Aborted

  datatype State = State(cfg: Config, openedAt: real, now: real, workers: seq<Worker>, started: seq<nat>,
                         ready: seq<nat>,
                         coord: Coordinator)

  /** release_event is set. */
  predicate Gate(s: State) {
    s.coord.Released?
  }

  datatype Event =
    | Tick(d: real)
    | Open
    | CheckClock
    | Snapshot
    | ScanOne
    | Decide
    | Gather
    | Release
    | Abort
    | Act(w: nat, a: Action)

  /** The three conditions on which the wait loop is left early. */
  predicate Breaks(n: nat, ready: nat, finished: nat) {
    ready >= n || ready + finished >= n || finished >= n
  }

  function Initial(cfg: Config, n: nat, now: real): State {
    State(cfg, now, now, seq(n, i => Worker(Unsubmitted, Flags(false, false, false, false, false))), [], [], Opening(0))
  }

  function OpenNext(s: State): Option<State> {
    if !s.coord.Opening? then None
    else if s.coord.next < |s.workers| then
      Some(s.(workers := s.workers[s.coord.next := s.workers[s.coord.next].(at := Queued)],
          coord := Opening(s.coord.next + 1)))
    else Some(s.(coord := Polling(s.now + s.cfg.startTimeout)))
  }

  function ScanNext(s: State): Option<State> {
    if s.coord.Scanning? && s.coord.next < |s.workers| then
      var done := s.workers[s.coord.next].at == Done;
      Some(s.(coord := s.coord.(next := s.coord.next + 1, finished := s.coord.finished + if done then 1 else 0)))
    else None
  }

  function ActNext(s: State, w: nat, a: Action): Option<State> {
    if w >= |s.workers| then None else
    match WorkerNext(s.workers[w], a, s.now, Gate(s), ReleaseWaitTimeout(s.cfg))
    case None => None
    case Some(k) =>
      Some(s.(workers := s.workers[w := k],
              started := if a == Record then s.started + [w] else s.started,
              ready := if a == Mark then s.ready + [w] else s.ready))
  }

  /** One step of anyone; None when it cannot happen. */
  function Next(s: State, e: Event): Option<State> {
    match e
    case Tick(d) => if d >= 0.0 then Some(s.(now := s.now + d)) else None
    case Open => OpenNext(s)
    case CheckClock =>
      if !s.coord.Polling? then None
      else if s.now < s.coord.deadline then Some(s.(coord := Snapshotting(s.coord.deadline, s.now)))
      else Some(s.(coord := Gathering))
    case Snapshot =>
      if s.coord.Snapshotting? then
        Some(s.(coord := Scanning(s.coord.deadline, s.coord.checkedAt, |s.ready|, 0, 0)))
      else None
    case ScanOne => ScanNext(s)
    case Decide =>
      if s.coord.Scanning? && s.coord.next == |s.workers| then
        Some(s.(coord := if Breaks(|s.workers|, s.coord.ready, s.coord.finished) then Gathering
            else Polling(s.coord.deadline)))
      else None
    case Gather => if s.coord.Gathering? then Some(s.(coord := Holding(|s.started|, |s.ready|))) else None
    case Release => if s.coord.Holding? then Some(s.(coord := Released(s.coord.started, s.coord.ready))) else None
    case Abort => if s.coord.Holding? then Some(s.(coord := Aborted)) else None
    case Act(w, a) => ActNext(s, w, a)
  }

  function Run(s: State, es: seq<Event>): Option<State> {
    if es == [] then Some(s) else
    match Run(s, es[..|es| - 1])
    case None => None
    case Some(t) => Next(t, es[|es| - 1])
  }

  // ------------------------------------------------------ what every step keeps

  predicate Prefix(f: Flags) {
    (f.status ==> f.start) && (f.remaining ==> f.status) && (f.answer ==> f.remaining) && (f.submit ==> f.answer)
  }

  /** The flags of a worker still under way. */
  function FlagsAt(at: At): Flags {
    match at
    case Unsubmitted => Flags(false, false, false, false, false)
    case Queued => Flags(false, false, false, false, false)
    case Starting => Flags(false, false, false, false, false)
    case Recording => Flags(true, false, false, false, false)
    case AskingStatus => Flags(true, false, false, false, false)
    case AskingRemaining => Flags(true, true, false, false, false)
    case Marking => Flags(true, true, true, false, false)
    case Marked => Flags(true, true, true, false, false)
    case Waiting(_) => Flags(true, true, true, false, false)
    case Answering => Flags(true, true, true, false, false)
    case Submitting => Flags(true, true, true, true, false)
    case Done => Flags(true, true, true, true, true)
  }

  predicate PastGate(k: Worker) {
    k.at == Answering || k.at == Submitting || k.flags.answer
  }

  predicate IsRecorded(k: Worker) {
    k.at in {AskingStatus, AskingRemaining, Marking, Marked, Answering, Submitting} || k.at.Waiting?
        || (k.at == Done && k.flags.status)
  }

  /** What is always true of one worker. */
  predicate WorkerOk(k: Worker, started: bool, ready: bool, gate: bool, openedAt: real, now: real, wait: real) {
    && Prefix(k.flags)
    && (k.at != Done ==> k.flags == FlagsAt(k.at))
    && (ready <==> k.flags.remaining && k.at != Marking)
    && (IsRecorded(k) ==> started)
    && (started ==> IsRecorded(k) || k.at == Done)
    && (PastGate(k) ==> gate)
    && (k.at.Waiting? ==> k.at.since >= openedAt)
    && (ready && k.at == Done && !gate ==> now >= openedAt + wait)
  }

  /** Every action keeps that. */
  lemma ActionKeeps(k: Worker, a: Action, started: bool, ready: bool, gate: bool, openedAt: real, now: real, wait: real)
    requires WorkerOk(k, started, ready, gate, openedAt, now, wait) && now >= openedAt
    ensures match WorkerNext(k, a, now, gate, wait)
            case None => true
            case Some(k') =>
              WorkerOk(k', started || a == Record, ready || a == Mark, gate, openedAt, now, wait)
              && (a == Record ==> !started) && (a == Mark ==> !ready)
  {
  }

  ghost predicate AllOk(s: State) {
    forall w | 0 <= w < |s.workers| ::
      WorkerOk(s.workers[w], w in s.started, w in s.ready, Gate(s), s.openedAt, s.now, ReleaseWaitTimeout(s.cfg))
  }

  ghost predicate DistinctBelow(ws: seq<nat>, n: nat) {
    (forall i | 0 <= i < |ws| :: ws[i] < n) && Distinct(ws)
  }

  /** How many of the first i workers are done. */
  function DoneBelow(workers: seq<Worker>, i: nat): (c: nat)
    requires i <= |workers|
    ensures c <= i
  {
    if i == 0 then 0 else DoneBelow(workers, i - 1) + if workers[i - 1].at == Done then 1 else 0
  }

  ghost predicate CoordOk(s: State) {
    match s.coord
    case Opening(next) => next <= |s.workers| && forall w | next <= w < |s.workers| :: s.workers[w].at == Unsubmitted
    case Polling(d) => s.openedAt <= d - s.cfg.startTimeout <= s.now
    case Snapshotting(d, c) =>
      && s.openedAt <= d - s.cfg.startTimeout <= c
      && s.openedAt <= c <= s.now && c < d
    case Scanning(d, c, ready, next, finished) =>
      && s.openedAt <= d - s.cfg.startTimeout <= c
      && s.openedAt <= c <= s.now && c < d
      && ready <= |s.ready| && next <= |s.workers| && finished <= DoneBelow(s.workers, next)
    case Holding(started, ready) => ready <= started <= |s.workers| && ready <= |s.ready|
    case Released(started, ready) => ready <= started <= |s.workers| && ready <= |s.ready|
    case _ => true
  }

  ghost predicate Inv(s: State) {
    && s.now >= s.openedAt
    && AllOk(s)
    && DistinctBelow(s.started, |s.workers|)
    && DistinctBelow(s.ready, |s.workers|)
    && CoordOk(s)
  }

  // ------------------------------------------------------ lists without repetition

  function Range(n: nat): (r: set<nat>)
    ensures |r| == n && forall i: nat :: i in r <==> i < n
  {
    if n == 0 then {} else Range(n - 1) + {n - 1}
  }

  lemma DistinctBounded(ws: seq<nat>, n: nat)
    requires DistinctBelow(ws, n)
    ensures |ws| <= n
    ensures |ws| == n ==> forall w | 0 <= w < n :: w in ws
  {
    DistinctSize(ws);
    SubsetSize(ToSet(ws), Range(n));
    if |ws| == n {
      forall w | 0 <= w < n ensures w in ws {
        assert w in ToSet(ws);
      }
    }
  }

  lemma ReadyWereStarted(s: State)
    requires Inv(s)
    ensures |s.ready| <= |s.started| <= |s.workers|
  {
    forall w | w in s.ready ensures w in s.started {
      assert w < |s.workers|;
    }
    DistinctBounded(s.started, |s.workers|);
    DistinctSize(s.started);
    DistinctSize(s.ready);
    SubsetSize(ToSet(s.ready), ToSet(s.started));
  }

  // ------------------------------------------------------ every step keeps the invariant

  lemma {:induction false} DoneNeverShrinks(p: seq<Worker>, q: seq<Worker>, i: nat)
    requires i <= |p| <= |q|
    requires forall w | 0 <= w < i :: p[w].at == Done ==> q[w].at == Done
    ensures DoneBelow(p, i) <= DoneBelow(q, i)
  {
    if i > 0 {
      DoneNeverShrinks(p, q, i - 1);
    }
  }

  lemma DistinctMore(ws: seq<nat>, w: nat, n: nat)
    requires DistinctBelow(ws, n) && w < n && w !in ws
    ensures DistinctBelow(ws + [w], n)
  {
  }

  lemma TickKeeps(s: State, d: real)
    requires Inv(s) && d >= 0.0
    ensures Inv(s.(now := s.now + d))
  {
  }

  lemma OpenKeeps(s: State)
    requires Inv(s) && OpenNext(s).Some?
    ensures Inv(OpenNext(s).value)
  {
    var t := OpenNext(s).value;
    forall w | 0 <= w < |t.workers|
      ensures WorkerOk(t.workers[w], w in t.started, w in t.ready, Gate(t), t.openedAt, t.now,
          ReleaseWaitTimeout(t.cfg))
    {
    }
  }

  lemma ScanKeeps(s: State)
    requires Inv(s) && ScanNext(s).Some?
    ensures Inv(ScanNext(s).value)
  {
  }

  lemma ActKeepsAll(s: State, w: nat, a: Action)
    requires Inv(s) && ActNext(s, w, a).Some?
    ensures AllOk(ActNext(s, w, a).value)
  {
    var t := ActNext(s, w, a).value;
    ActionKeeps(s.workers[w], a, w in s.started, w in s.ready, Gate(s), s.openedAt, s.now, ReleaseWaitTimeout(s.cfg));
    forall v | 0 <= v < |t.workers|
      ensures WorkerOk(t.workers[v], v in t.started, v in t.ready, Gate(t), t.openedAt, t.now,
          ReleaseWaitTimeout(t.cfg))
    {
      if v != w {
        assert WorkerOk(s.workers[v], v in s.started, v in s.ready, Gate(s), s.openedAt, s.now,
            ReleaseWaitTimeout(s.cfg));
      }
    }
  }

  lemma ActKeepsLists(s: State, w: nat, a: Action)
    requires Inv(s) && ActNext(s, w, a).Some?
    ensures var t := ActNext(s, w, a).value;
            DistinctBelow(t.started, |t.workers|) && DistinctBelow(t.ready, |t.workers|)
  {
    ActionKeeps(s.workers[w], a, w in s.started, w in s.ready, Gate(s), s.openedAt, s.now, ReleaseWaitTimeout(s.cfg));
    if a == Record {
      DistinctMore(s.started, w, |s.workers|);
    }
    if a == Mark {
      DistinctMore(s.ready, w, |s.workers|);
    }
  }

  /** Done is final, and a worker not yet submitted does nothing. */
  lemma ActKeepsCoord(s: State, w: nat, a: Action)
    requires CoordOk(s) && ActNext(s, w, a).Some?
    ensures CoordOk(ActNext(s, w, a).value)
  {
    var t := ActNext(s, w, a).value;
    if s.coord.Scanning? {
      DoneNeverShrinks(s.workers, t.workers, s.coord.next);
    }
  }

  lemma ActKeeps(s: State, w: nat, a: Action)
    requires Inv(s) && ActNext(s, w, a).Some?
    ensures Inv(ActNext(s, w, a).value)
  {
    ActKeepsAll(s, w, a);
    ActKeepsLists(s, w, a);
    ActKeepsCoord(s, w, a);
  }

  lemma NextKeeps(s: State, e: Event)
    requires Inv(s) && Next(s, e).Some?
    ensures Inv(Next(s, e).value)
    ensures Next(s, e).value.cfg == s.cfg && |Next(s, e).value.workers| == |s.workers|
  {
    match e
    case Tick(d) => TickKeeps(s, d);
    case Open => OpenKeeps(s);
    case ScanOne => ScanKeeps(s);
    case Gather => ReadyWereStarted(s);
    case Act(w, a) => ActKeeps(s, w, a);
    case _ =>
  }

  lemma {:induction false} RunKeeps(s: State, es: seq<Event>)
    requires Inv(s) && Run(s, es).Some?
    ensures Inv(Run(s, es).value)
    ensures Run(s, es).value.cfg == s.cfg && |Run(s, es).value.workers| == |s.workers|
  {
    if es != [] {
      RunKeeps(s, es[..|es| - 1]);
      NextKeeps(Run(s, es[..|es| - 1]).value, es[|es| - 1]);
    }
  }

  /** s comes about in a phase of n workers. */
  ghost predicate Reachable(cfg: Config, n: nat, s: State) {
    |s.workers| == n && exists now, es :: Run(Initial(cfg, n, now), es) == Some(s)
  }

  lemma ReachableInv(cfg: Config, n: nat, s: State)
    requires Reachable(cfg, n, s)
    ensures Inv(s) && s.cfg == cfg
  {
    var now, es :| Run(Initial(cfg, n, now), es) == Some(s);
    RunKeeps(Initial(cfg, n, now), es);
  }

  // ------------------------------------------------------ main results

  /** Before the gate opens nobody answers or submits, and with an aborted hold
      nobody ever does. */
  lemma NoAnswerBeforeRelease(cfg: Config, n: nat, s: State, w: nat)
    requires Reachable(cfg, n, s) && w < n && !s.coord.Released?
    ensures !s.workers[w].flags.answer && !s.workers[w].flags.submit
    ensures s.workers[w].at != Answering && s.workers[w].at != Submitting
  {
    ReachableInv(cfg, n, s);
    assert WorkerOk(s.workers[w], w in s.started, w in s.ready, Gate(s), s.openedAt, s.now, ReleaseWaitTimeout(s.cfg));
  }

  /** The replies a worker got are always an initial part of the five. */
  lemma FlagsArePrefix(cfg: Config, n: nat, s: State, w: nat)
    requires Reachable(cfg, n, s) && w < n
    ensures Prefix(s.workers[w].flags)
  {
    ReachableInv(cfg, n, s);
    assert WorkerOk(s.workers[w], w in s.started, w in s.ready, Gate(s), s.openedAt, s.now, ReleaseWaitTimeout(s.cfg));
  }

  /** Marked ready and held at the gate. */
  predicate IsReady(k: Worker) {
    k.at == Marked || k.at.Waiting?
  }

  function DoneSet(workers: seq<Worker>, i: nat): (r: set<nat>)
    requires i <= |workers|
  {
    set w: nat | w < i && workers[w].at == Done
  }

  lemma {:induction false} DoneSetSize(workers: seq<Worker>, i: nat)
    requires i <= |workers|
    ensures |DoneSet(workers, i)| == DoneBelow(workers, i)
  {
    if i == 0 {
      assert DoneSet(workers, i) == {};
    } else {
      DoneSetSize(workers, i - 1);
      if workers[i - 1].at == Done {
        assert DoneSet(workers, i) == DoneSet(workers, i - 1) + {i - 1};
      } else {
        assert DoneSet(workers, i) == DoneSet(workers, i - 1);
      }
    }
  }

  /** Two disjoint sets of numbers below n with n elements between them cover
      the numbers below n. */
  lemma CoverAll(a: set<nat>, b: set<nat>, n: nat)
    requires a <= Range(n) && b <= Range(n) && a !! b && |a| + |b| >= n
    ensures a + b == Range(n)
  {
    SubsetSize(a + b, Range(n));
  }

  lemma ReadyIsNotDone(s: State, w: nat)
    requires Inv(s) && !Gate(s) && s.now < s.openedAt + ReleaseWaitTimeout(s.cfg) && w in s.ready
    ensures w < |s.workers| && IsReady(s.workers[w])
  {
    assert w < |s.workers|;
    assert WorkerOk(s.workers[w], w in s.started, w in s.ready, Gate(s), s.openedAt, s.now, ReleaseWaitTimeout(s.cfg));
  }

  lemma CountersCover(s: State)
    requires Inv(s) && s.coord.Scanning? && s.coord.next == |s.workers|
    requires s.coord.ready + s.coord.finished >= |s.workers|
    requires s.now < s.openedAt + ReleaseWaitTimeout(s.cfg)
    ensures forall w: nat | w < |s.workers| :: IsReady(s.workers[w]) || s.workers[w].at == Done
  {
    var n := |s.workers|;
    var ready, done := ToSet(s.ready), DoneSet(s.workers, n);
    DistinctSize(s.ready);
    DoneSetSize(s.workers, n);
    forall w | w in ready ensures w in Range(n) && w !in done {
      ReadyIsNotDone(s, w);
    }
    CoverAll(ready, done, n);
    forall w: nat | w < n ensures IsReady(s.workers[w]) || s.workers[w].at == Done {
      assert w in ready + done;
      if w in ready {
        ReadyIsNotDone(s, w);
      }
    }
  }

  /** The scan is over and the wait loop is about to be left early. */
  predicate EarlyBreak(s: State) {
    s.coord.Scanning? && s.coord.next == |s.workers| && Breaks(|s.workers|, s.coord.ready, s.coord.finished)
  }

  /** What the loop takes a break to mean: every worker is at the gate or has
      failed. */
  predicate Truthful(s: State) {
    forall w | 0 <= w < |s.workers| ::
      IsReady(s.workers[w]) || (s.workers[w].at == Done && !s.workers[w].flags.answer)
  }

  lemma DoneOrReady(s: State)
    requires Inv(s) && !Gate(s)
    requires forall w: nat | w < |s.workers| :: IsReady(s.workers[w]) || s.workers[w].at == Done
    ensures Truthful(s)
  {
    forall w | 0 <= w < |s.workers|
      ensures IsReady(s.workers[w]) || (s.workers[w].at == Done && !s.workers[w].flags.answer)
    {
      var k := s.workers[w];
      assert WorkerOk(k, w in s.started, w in s.ready, Gate(s), s.openedAt, s.now, ReleaseWaitTimeout(s.cfg));
    }
  }

  /** A break is truthful although the two counters were read at different
      moments. Breaking on their sum needs the scan to end before a worker can
      have waited out its own timeout, or a phase of one worker. */
  lemma BreakIsTruthful(cfg: Config, n: nat, s: State)
    requires Reachable(cfg, n, s) && EarlyBreak(s)
    requires s.coord.ready >= n || s.coord.finished >= n || n <= 1 || s.now < s.openedAt + ReleaseWaitTimeout(cfg)
    ensures Truthful(s)
  {
    ReachableInv(cfg, n, s);
    if s.coord.ready >= n {
      AllWereReady(s);
    } else if s.coord.finished >= n {
      AllDone(s.workers, n);
    } else {
      CountersCover(s);
    }
    DoneOrReady(s);
  }

  lemma AllWereReady(s: State)
    requires Inv(s) && !Gate(s) && |s.ready| >= |s.workers|
    ensures forall w: nat | w < |s.workers| :: IsReady(s.workers[w]) || s.workers[w].at == Done
  {
    DistinctBounded(s.ready, |s.workers|);
    forall w: nat | w < |s.workers| ensures IsReady(s.workers[w]) || s.workers[w].at == Done {
      var k := s.workers[w];
      assert WorkerOk(k, w in s.started, w in s.ready, Gate(s), s.openedAt, s.now, ReleaseWaitTimeout(s.cfg));
    }
  }

  lemma {:induction false} AllDone(workers: seq<Worker>, n: nat)
    requires n <= |workers| && DoneBelow(workers, n) >= n
    ensures forall w: nat | w < n :: workers[w].at == Done
  {
    if n > 0 {
      AllDone(workers, n - 1);
    }
  }

  /** The same from what the coordinator can see: submitting the workers and
      going once round the loop together take no longer than the slack between
      the two timeouts. */
  lemma PromptLoopIsTruthful(cfg: Config, n: nat, s: State)
    requires Reachable(cfg, n, s) && EarlyBreak(s)
    requires (s.coord.deadline - cfg.startTimeout - s.openedAt) + (s.now - s.coord.checkedAt)
             <= cfg.holdSeconds + cfg.timeout + 60.0
    ensures Truthful(s)
  {
    ReachableInv(cfg, n, s);
    BreakIsTruthful(cfg, n, s);
  }

  lemma OneMore(cfg: Config, s: State, e: Event) returns (t: State)
    requires Reachable(cfg, |s.workers|, s) && Next(s, e).Some?
    ensures Some(t) == Next(s, e) && |t.workers| == |s.workers| && Reachable(cfg, |t.workers|, t)
  {
    var now, es :| Run(Initial(cfg, |s.workers|, now), es) == Some(s);
    assert (es + [e])[..|es|] == es;
    t := Next(s, e).value;
    assert Run(Initial(cfg, |s.workers|, now), es + [e]) == Some(t);
  }

  // ------------------------------------------------------ when a break is not truthful

  /** A phase that opened at 0. */
  function Phase(cfg: Config, workers: seq<Worker>, tracked: seq<nat>, ready: seq<nat>, now: real,
      coord: Coordinator): State {
    State(cfg, 0.0, now, workers, tracked, ready, coord)
  }

  function Fresh(at: At): Worker {
    Worker(at, FlagsAt(Queued))
  }

  function QueuedUpTo(n: nat, k: nat): (r: seq<Worker>)
    ensures |r| == n && forall i | 0 <= i < n :: r[i] == Fresh(if i < k then Queued else Unsubmitted)
  {
    seq(n, i => Fresh(if i < k then Queued else Unsubmitted))
  }

  lemma {:induction false} OpenAll(cfg: Config, n: nat, k: nat) returns (s: State)
    requires k <= n
    ensures s == Phase(cfg, QueuedUpTo(n, k), [], [], 0.0, Opening(k)) && Reachable(cfg, n, s)
  {
    if k == 0 {
      s := Initial(cfg, n, 0.0);
      assert s.workers == QueuedUpTo(n, 0);
      assert Run(s, []) == Some(s);
    } else {
      s := OpenAll(cfg, n, k - 1);
      s := OneMore(cfg, s, Open);
      assert QueuedUpTo(n, k - 1)[k - 1 := Fresh(Queued)] == QueuedUpTo(n, k);
    }
  }

  /** The workers from 2 to k - 1 have failed at once. */
  function FailedUpTo(n: nat, k: nat): (r: seq<Worker>)
    ensures |r| == n && forall i | 0 <= i < n :: r[i] == Fresh(if 2 <= i < k then Done else Queued)
  {
    seq(n, i => Fresh(if 2 <= i < k then Done else Queued))
  }

  lemma {:induction false} FailOthers(cfg: Config, n: nat, k: nat) returns (s: State)
    requires 2 <= k <= n
    ensures s == Phase(cfg, FailedUpTo(n, k), [], [], 0.0, Polling(cfg.startTimeout)) && Reachable(cfg, n, s)
  {
    if k == 2 {
      s := OpenAll(cfg, n, n);
      s := OneMore(cfg, s, Open);
      assert QueuedUpTo(n, n) == FailedUpTo(n, 2);
    } else {
      s := FailOthers(cfg, n, k - 1);
      assert s.workers[k - 1] == Fresh(Queued);
      s := OneMore(cfg, s, Act(k - 1, Begin));
      assert s.workers[k - 1] == Fresh(Starting);
      s := OneMore(cfg, s, Act(k - 1, Fail));
      assert s.workers == FailedUpTo(n, k);
    }
  }

  /** Two workers, and n - 2 that have failed. */
  function Crowd(n: nat, first: Worker, second: Worker): seq<Worker>
    requires n >= 2
  {
    [first, second] + seq(n - 2, i => Fresh(Done))
  }

  lemma CrowdStep(n: nat, first: Worker, second: Worker, next: Worker)
    requires n >= 2
    ensures Crowd(n, first, second)[0 := next] == Crowd(n, next, second)
    ensures Crowd(n, first, second)[1 := next] == Crowd(n, first, next)
  {
  }

  lemma TwoStart(cfg: Config, n: nat) returns (s: State)
    requires n >= 2
    ensures s == Phase(cfg, Crowd(n, Fresh(Starting), Fresh(Starting)), [], [], 0.0, Polling(cfg.startTimeout))
    ensures Reachable(cfg, n, s)
  {
    s := FailOthers(cfg, n, n);
    assert FailedUpTo(n, n) == Crowd(n, Fresh(Queued), Fresh(Queued));
    s := OneMore(cfg, s, Act(0, Begin));
    CrowdStep(n, Fresh(Queued), Fresh(Queued), Fresh(Starting));
    s := OneMore(cfg, s, Act(1, Begin));
    CrowdStep(n, Fresh(Starting), Fresh(Queued), Fresh(Starting));
  }

  /** The first worker takes a step, the others stay. */
  lemma FirstMoves(s: State, k: Worker, a: Action) returns (t: State)
    requires |s.workers| >= 2 && s.workers == Crowd(|s.workers|, k, Fresh(Starting)) && Reachable(s.cfg, |s.workers|, s)
    requires WorkerNext(k, a, s.now, Gate(s), ReleaseWaitTimeout(s.cfg)).Some?
    ensures var k' := WorkerNext(k, a, s.now, Gate(s), ReleaseWaitTimeout(s.cfg)).value;
            t == s.(workers := Crowd(|s.workers|, k', Fresh(Starting)),
                    started := if a == Record then s.started + [0] else s.started,
                    ready := if a == Mark then s.ready + [0] else s.ready)
    ensures |t.workers| == |s.workers| && Reachable(t.cfg, |t.workers|, t)
  {
    CrowdStep(|s.workers|, k, Fresh(Starting), WorkerNext(k, a, s.now, Gate(s), ReleaseWaitTimeout(s.cfg)).value);
    t := OneMore(s.cfg, s, Act(0, a));
  }

  function At0(at: At): Worker {
    Worker(at, FlagsAt(at))
  }

  lemma OneIsAsking(cfg: Config, n: nat) returns (s: State)
    requires n >= 2
    ensures s == Phase(cfg, Crowd(n, At0(AskingStatus), Fresh(Starting)), [0], [], 0.0, Polling(cfg.startTimeout))
    ensures Reachable(cfg, n, s)
  {
    s := TwoStart(cfg, n);
    s := FirstMoves(s, At0(Starting), StartReply);
    s := FirstMoves(s, At0(Recording), Record);
  }

  lemma OneIsMarking(cfg: Config, n: nat) returns (s: State)
    requires n >= 2
    ensures s == Phase(cfg, Crowd(n, At0(Marking), Fresh(Starting)), [0], [], 0.0, Polling(cfg.startTimeout))
    ensures Reachable(cfg, n, s)
  {
    s := OneIsAsking(cfg, n);
    s := FirstMoves(s, At0(AskingStatus), StatusReply);
    s := FirstMoves(s, At0(AskingRemaining), RemainingReply);
  }

  lemma OneIsWaiting(cfg: Config, n: nat) returns (s: State)
    requires n >= 2
    ensures s == Phase(cfg, Crowd(n, At0(Waiting(0.0)), Fresh(Starting)), [0], [0], 0.0, Polling(cfg.startTimeout))
    ensures Reachable(cfg, n, s)
  {
    s := OneIsMarking(cfg, n);
    s := FirstMoves(s, At0(Marking), Mark);
    s := FirstMoves(s, At0(Marked), Wait);
  }

  lemma OneIsDone(cfg: Config, n: nat, t: real) returns (s: State)
    requires n >= 2 && cfg.startTimeout > 0.0 && t >= ReleaseWaitTimeout(cfg)
    ensures s == Phase(cfg, Crowd(n, Worker(Done, FlagsAt(Marked)), Fresh(Starting)), [0], [0], t,
                       Scanning(cfg.startTimeout, 0.0, 1, 0, 0))
    ensures Reachable(cfg, n, s)
  {
    s := OneIsWaiting(cfg, n);
    s := OneMore(cfg, s, CheckClock);
    s := OneMore(cfg, s, Snapshot);
    s := OneMore(cfg, s, Tick(t));
    s := FirstMoves(s, At0(Waiting(0.0)), TimeOut);
  }

  /** How many of the first k workers of the crowd are done. */
  function CrowdDone(k: nat): nat {
    if k <= 1 then k else k - 1
  }

  lemma {:induction false} ScanCrowd(cfg: Config, n: nat, t: real, k: nat) returns (s: State)
    requires n >= 2 && cfg.startTimeout > 0.0 && t >= ReleaseWaitTimeout(cfg) && k <= n
    ensures s == Phase(cfg, Crowd(n, Worker(Done, FlagsAt(Marked)), Fresh(Starting)), [0], [0], t,
                       Scanning(cfg.startTimeout, 0.0, 1, k, CrowdDone(k)))
    ensures Reachable(cfg, n, s)
  {
    if k == 0 {
      s := OneIsDone(cfg, n, t);
    } else {
      s := ScanCrowd(cfg, n, t, k - 1);
      s := OneMore(cfg, s, ScanOne);
    }
  }

  /** From that moment on, in every configuration and for any number of workers
      above one: a ready worker that times out between the two readings is
      counted twice, and the loop breaks on a worker that is still starting. */
  lemma SlowScanMiscounts(cfg: Config, n: nat, t: real) returns (s: State)
    requires n >= 2 && cfg.startTimeout > 0.0 && t >= ReleaseWaitTimeout(cfg)
    ensures Reachable(cfg, n, s) && EarlyBreak(s) && s.now - s.openedAt == t && !Truthful(s)
  {
    s := ScanCrowd(cfg, n, t, n);
    assert s.workers[1] == Fresh(Starting);
  }

  /** Every early break at time t after the opening is truthful. */
  ghost predicate TruthfulAt(cfg: Config, n: nat, t: real) {
    forall s | Reachable(cfg, n, s) && EarlyBreak(s) && s.now - s.openedAt == t :: Truthful(s)
  }

  /** Early breaks can be trusted exactly until a worker can have waited out its
      own timeout, but for a phase of one worker or one without a wait loop. */
  lemma TruthfulIff(cfg: Config, n: nat, t: real)
    ensures TruthfulAt(cfg, n, t)
            <==> t < cfg.startTimeout + cfg.holdSeconds + cfg.timeout + 60.0 || t < 300.0
                 || n <= 1 || cfg.startTimeout <= 0.0
  {
    if t < ReleaseWaitTimeout(cfg) || n <= 1 || cfg.startTimeout <= 0.0 {
      forall s | Reachable(cfg, n, s) && EarlyBreak(s) && s.now - s.openedAt == t ensures Truthful(s) {
        ReachableInv(cfg, n, s);
        BreakIsTruthful(cfg, n, s);
      }
    } else {
      var s := SlowScanMiscounts(cfg, n, t);
    }
  }

  // ------------------------------------------------------ a passing phase

  /** How many results have the submit flag. */
  function Submits(workers: seq<Worker>): nat {
    if workers == [] then 0
    else Submits(workers[..|workers| - 1]) + if workers[|workers| - 1].flags.submit then 1 else 0
  }

  /** What the database reports during the hold; None without a database. */
  datatype DuringHold = DuringHold(idleStale: int, inProgress: int)

  /** The figures of the server and the database. */
  datatype Figures = Figures(active: int, during: Option<DuringHold>, submittedAfter: Option<int>, completedAfter: int)

  /** The four checks on these figures; the database ones are optional. */
  predicate ServerAgrees(f: Figures, size: nat) {
    && f.active == size
    && (f.during.Some? ==> f.during.value.idleStale == 0 && f.during.value.inProgress == size)
    && (if f.submittedAfter.Some? then f.submittedAfter.value == size else f.completedAfter == size)
  }

  /** pass_checks, for a phase meant to have `size` workers. */
  predicate Passes(s: State, size: nat, f: Figures)
    requires s.coord.Released?
  {
    && |s.workers| == size
    && s.coord.started == size
    && s.coord.ready == size
    && Submits(s.workers) == size
    && ServerAgrees(f, size)
  }

  lemma {:induction false} SubmitsAll(workers: seq<Worker>)
    ensures Submits(workers) <= |workers|
    ensures Submits(workers) == |workers| <==> forall w | 0 <= w < |workers| :: workers[w].flags.submit
  {
    if workers != [] {
      var init := workers[..|workers| - 1];
      SubmitsAll(init);
      if forall w | 0 <= w < |init| :: init[w].flags.submit {
        forall w | 0 <= w < |workers| - 1 ensures workers[w].flags.submit {
          assert init[w].flags.submit;
        }
      } else {
        var w :| 0 <= w < |init| && !init[w].flags.submit;
        assert !workers[w].flags.submit;
      }
    }
  }

  /** A phase passes exactly when it has all its workers, all were ready at the
      snapshot, and every one completed all five requests; the check on the
      number started follows from the one on the number ready. */
  lemma PassesIffAllCompleted(cfg: Config, n: nat, s: State, size: nat, f: Figures)
    requires Reachable(cfg, n, s) && s.coord.Released?
    ensures Passes(s, size, f)
            <==> n == size && s.coord.ready == size
                 && f.active == size
                 && (f.during.Some? ==> f.during.value == DuringHold(0, size))
                 && (match f.submittedAfter case Some(k) => k == size case None => f.completedAfter == size)
                 && forall w | 0 <= w < n :: s.workers[w].flags == Flags(true, true, true, true, true)
  {
    ReachableInv(cfg, n, s);
    SubmitsAll(s.workers);
    forall w | 0 <= w < n && s.workers[w].flags.submit
      ensures s.workers[w].flags == Flags(true, true, true, true, true)
    {
      FlagsArePrefix(cfg, n, s, w);
    }
  }

  // ------------------------------------------------------ one flow, in sequence

  /** What the server and the gate answer one flow. A start reply may lack a
      readable session id. */
  datatype Replies = Replies(start: Option<Option<int>>, status: bool, remaining: bool, released: bool, answer: bool,
      submit: bool)

  datatype FlowResult = FlowResult(session: Option<int>, flags: Flags)

  /** Which replies a flow gets: each needs all the ones before it. */
  function FlowFlags(replies: Replies): Flags {
    var checking := HasSession(replies);
    var ready := checking && replies.status && replies.remaining;
    var answered := ready && replies.released && replies.answer;
    Flags(replies.start.Some?, checking && replies.status, ready, answered, answered && replies.submit)
  }

  class StartTracker {
    var startedUsers: seq<int>
    var startedSessions: seq<int>
    var readyUsers: seq<int>
    var readySessions: seq<int>

    constructor ()
      ensures startedUsers == [] && startedSessions == [] && readyUsers == [] && readySessions == []
    {
      startedUsers, startedSessions, readyUsers, readySessions := [], [], [], [];
    }

    method Add(user: int, session: int)
      modifies this
      ensures startedUsers == old(startedUsers) + [user] && startedSessions == old(startedSessions) + [session]
      ensures readyUsers == old(readyUsers) && readySessions == old(readySessions)
    {
      startedUsers := startedUsers + [user];
      startedSessions := startedSessions + [session];
    }

    method MarkReady(user: int, session: int)
      modifies this
      ensures readyUsers == old(readyUsers) + [user] && readySessions == old(readySessions) + [session]
      ensures startedUsers == old(startedUsers) && startedSessions == old(startedSessions)
    {
      readyUsers := readyUsers + [user];
      readySessions := readySessions + [session];
    }
  }

  // ------------------------------------------------------ a flow as a run of the step system

  /** Events of worker w only, and time passing. */
  ghost predicate OnlyWorker(events: seq<Event>, w: nat) {
    forall i | 0 <= i < |events| :: events[i].Tick? || (events[i].Act? && events[i].w == w)
  }

  function If(b: bool, w: nat): seq<nat> {
    if b then [w] else []
  }

  /** The events lead from s to t, in which worker w is k and is listed or not,
      and nothing else has changed but the clock. */
  ghost predicate Led(s: State, events: seq<Event>, t: State, w: nat, k: Worker, recorded: bool, marked: bool) {
    && w < |s.workers| && OnlyWorker(events, w)
    && Run(s, events) == Some(t)
    && t == s.(now := t.now, workers := s.workers[w := k],
               started := s.started + If(recorded, w), ready := s.ready + If(marked, w))
  }

  lemma LedNext(s: State, events: seq<Event>, t: State, w: nat, k: Worker, recorded: bool, marked: bool, a: Action)
    returns (more: seq<Event>, u: State)
    requires Led(s, events, t, w, k, recorded, marked)
    requires (a == Record ==> !recorded) && (a == Mark ==> !marked)
    requires WorkerNext(k, a, t.now, Gate(s), ReleaseWaitTimeout(s.cfg)).Some?
    ensures var k' := WorkerNext(k, a, t.now, Gate(s), ReleaseWaitTimeout(s.cfg)).value;
            Led(s, more, u, w, k', recorded || a == Record, marked || a == Mark) && u.now == t.now
  {
    more := events + [Act(w, a)];
    assert more[..|events|] == events;
    u := Next(t, Act(w, a)).value;
  }

  lemma LedTick(s: State, events: seq<Event>, t: State, w: nat, k: Worker, recorded: bool, marked: bool, d: real)
    returns (more: seq<Event>, u: State)
    requires Led(s, events, t, w, k, recorded, marked) && d >= 0.0
    ensures Led(s, more, u, w, k, recorded, marked) && u.now == t.now + d
  {
    more := events + [Tick(d)];
    assert more[..|events|] == events;
    u := Next(t, Tick(d)).value;
  }

  /** Worker w of s stands before its flow. */
  ghost predicate Before(s: State, w: nat) {
    w < |s.workers| && s.workers[w] == Fresh(Queued)
  }

  lemma LedStart(s: State, w: nat)
    requires Before(s, w)
    ensures Led(s, [], s, w, Fresh(Queued), false, false)
  {
    assert s.workers[w := s.workers[w]] == s.workers;
  }

  /** A flow that goes wrong before its session is recorded. */
  lemma LedUnrecorded(s: State, w: nat, replied: bool) returns (events: seq<Event>, t: State)
    requires Before(s, w)
    ensures Led(s, events, t, w, Worker(Done, FlagsAt(if replied then Recording else Starting)), false, false)
  {
    LedStart(s, w);
    events, t := LedNext(s, [], s, w, Fresh(Queued), false, false, Begin);
    if replied {
      events, t := LedNext(s, events, t, w, At0(Starting), false, false, StartReply);
      events, t := LedNext(s, events, t, w, At0(Recording), false, false, Fail);
    } else {
      events, t := LedNext(s, events, t, w, At0(Starting), false, false, Fail);
    }
  }

  lemma LedToStatus(s: State, w: nat) returns (events: seq<Event>, t: State)
    requires Before(s, w)
    ensures Led(s, events, t, w, At0(AskingStatus), true, false)
  {
    LedStart(s, w);
    events, t := LedNext(s, [], s, w, Fresh(Queued), false, false, Begin);
    events, t := LedNext(s, events, t, w, At0(Starting), false, false, StartReply);
    events, t := LedNext(s, events, t, w, At0(Recording), false, false, Record);
  }

  /** A flow that goes wrong between recording its session and being ready. */
  lemma LedUnready(s: State, w: nat, replied: bool) returns (events: seq<Event>, t: State)
    requires Before(s, w)
    ensures Led(s, events, t, w, Worker(Done, FlagsAt(if replied then AskingRemaining else AskingStatus)), true, false)
  {
    events, t := LedToStatus(s, w);
    if replied {
      events, t := LedNext(s, events, t, w, At0(AskingStatus), true, false, StatusReply);
      events, t := LedNext(s, events, t, w, At0(AskingRemaining), true, false, Fail);
    } else {
      events, t := LedNext(s, events, t, w, At0(AskingStatus), true, false, Fail);
    }
  }

  lemma LedToGate(s: State, w: nat) returns (events: seq<Event>, t: State)
    requires Before(s, w)
    ensures Led(s, events, t, w, At0(Waiting(t.now)), true, true)
  {
    events, t := LedToStatus(s, w);
    events, t := LedNext(s, events, t, w, At0(AskingStatus), true, false, StatusReply);
    events, t := LedNext(s, events, t, w, At0(AskingRemaining), true, false, RemainingReply);
    events, t := LedNext(s, events, t, w, At0(Marking), true, false, Mark);
    events, t := LedNext(s, events, t, w, At0(Marked), true, true, Wait);
  }

  /** A flow that reaches the gate, and whatever comes then. */
  lemma LedPastGate(s: State, w: nat, replies: Replies) returns (events: seq<Event>, t: State)
    requires Before(s, w) && Gate(s) == replies.released
    requires replies.start.Some? && replies.start.value.Some? && replies.status && replies.remaining
    ensures Led(s, events, t, w, Worker(Done, FlowFlags(replies)), true, true)
  {
    events, t := LedToGate(s, w);
    var since := t.now;
    if !replies.released {
      events, t := LedTick(s, events, t, w, At0(Waiting(since)), true, true, ReleaseWaitTimeout(s.cfg));
      events, t := LedNext(s, events, t, w, At0(Waiting(since)), true, true, TimeOut);
    } else {
      events, t := LedNext(s, events, t, w, At0(Waiting(since)), true, true, Pass);
      if !replies.answer {
        events, t := LedNext(s, events, t, w, At0(Answering), true, true, Fail);
      } else {
        events, t := LedNext(s, events, t, w, At0(Answering), true, true, AnswerReply);
        events, t := LedNext(s, events, t, w, At0(Submitting), true, true,
            if replies.submit then SubmitReply else Fail);
      }
    }
  }

  /** Every flow is a run of its worker: it ends with the flags of its replies,
      and it is listed as started or ready as far as it came. */
  lemma FlowIsRun(s: State, w: nat, replies: Replies) returns (events: seq<Event>, t: State)
    requires Before(s, w) && Gate(s) == replies.released
    ensures Led(s, events, t, w, Worker(Done, FlowFlags(replies)), HasSession(replies), FlowFlags(replies).remaining)
  {
    if !HasSession(replies) {
      events, t := LedUnrecorded(s, w, replies.start.Some?);
    } else if !replies.status || !replies.remaining {
      events, t := LedUnready(s, w, replies.status);
    } else {
      events, t := LedPastGate(s, w, replies);
    }
  }

  predicate HasSession(replies: Replies) {
    replies.start.Some? && replies.start.value.Some?
  }

  /** The users of the workers in a list. */
  function UsersOf(ws: seq<nat>, users: seq<int>): (r: seq<int>)
    requires forall i | 0 <= i < |ws| :: ws[i] < |users|
    ensures |r| == |ws|
  {
    seq(|ws|, i requires 0 <= i < |ws| => users[ws[i]])
  }

  /** The tracker's user lists are those of the state. */
  ghost predicate Tracks(started: seq<int>, ready: seq<int>, s: State, users: seq<int>) {
    && (forall i | 0 <= i < |s.started| :: s.started[i] < |users|)
    && (forall i | 0 <= i < |s.ready| :: s.ready[i] < |users|)
    && started == UsersOf(s.started, users) && ready == UsersOf(s.ready, users)
  }

  lemma UsersSnoc(ws: seq<nat>, w: nat, users: seq<int>)
    requires (forall i | 0 <= i < |ws| :: ws[i] < |users|) && w < |users|
    ensures UsersOf(ws + [w], users) == UsersOf(ws, users) + [users[w]]
    ensures UsersOf(ws + [], users) == UsersOf(ws, users)
  {
    assert ws + [] == ws;
  }

  lemma TracksNext(started: seq<int>, ready: seq<int>, s: State, t: State, users: seq<int>, w: nat, recorded: bool,
      marked: bool)
    requires Tracks(started, ready, s, users) && w < |users|
    requires t.started == s.started + If(recorded, w) && t.ready == s.ready + If(marked, w)
    ensures Tracks(started + (if recorded then [users[w]] else []),
                   ready + (if marked then [users[w]] else []), t, users)
  {
    UsersSnoc(s.started, w, users);
    UsersSnoc(s.ready, w, users);
    assert s.started + [] == s.started && s.ready + [] == s.ready;
  }

  /** run_exam_flow of worker w: the first reply that does not come ends it. What
      it returns and lists is what a run of its worker, from the state s it is
      taken up in, leaves in the step system. */
  method RunExamFlow(users: seq<int>, w: nat, tracker: StartTracker, replies: Replies, ghost s: State)
    returns (r: FlowResult, ghost events: seq<Event>, ghost t: State)
    requires Before(s, w) && w < |users| && Gate(s) == replies.released
    requires Tracks(tracker.startedUsers, tracker.readyUsers, s, users)
    modifies tracker
    ensures OnlyWorker(events, w) && Run(s, events) == Some(t)
    ensures t.workers == s.workers[w := Worker(Done, r.flags)] && r.flags == FlowFlags(replies)
    ensures Tracks(tracker.startedUsers, tracker.readyUsers, t, users)
    ensures r.session == (if HasSession(replies) then replies.start.value else None)
    ensures tracker.startedSessions
        == old(tracker.startedSessions) + (if r.session.Some? then [r.session.value] else [])
    ensures tracker.readySessions
            == old(tracker.readySessions) + (if r.flags.remaining && r.session.Some? then [r.session.value] else [])
  {
    events, t := FlowIsRun(s, w, replies);
    TracksNext(tracker.startedUsers, tracker.readyUsers, s, t, users, w, HasSession(replies),
        FlowFlags(replies).remaining);
    r := Flow(users[w], tracker, replies);
  }

  /** The requests of the flow. */
  method Flow(user: int, tracker: StartTracker, replies: Replies) returns (r: FlowResult)
    modifies tracker
    ensures r.flags == FlowFlags(replies)
    ensures r.session == (if HasSession(replies) then replies.start.value else None)
    ensures tracker.startedUsers == old(tracker.startedUsers) + (if HasSession(replies) then [user] else [])
    ensures tracker.readyUsers == old(tracker.readyUsers) + (if r.flags.remaining then [user] else [])
    ensures tracker.startedSessions
        == old(tracker.startedSessions) + (if r.session.Some? then [r.session.value] else [])
    ensures tracker.readySessions
            == old(tracker.readySessions) + (if r.flags.remaining && r.session.Some? then [r.session.value] else [])
  {
    var f := FlagsAt(Queued);
    if replies.start.None? {
      return FlowResult(None, f);
    }
    f := f.(start := true);
    if replies.start.value.None? {
      return FlowResult(None, f);
    }
    var session := replies.start.value.value;
    tracker.Add(user, session);
    if !replies.status {
      return FlowResult(Some(session), f);
    }
    f := f.(status := true);
    if !replies.remaining {
      return FlowResult(Some(session), f);
    }
    f := f.(remaining := true);
    tracker.MarkReady(user, session);
    if !replies.released || !replies.answer {
      return FlowResult(Some(session), f);
    }
    f := f.(answer := true);
    if replies.submit {
      f := f.(submit := true);
    }
    return FlowResult(Some(session), f);
  }
}
