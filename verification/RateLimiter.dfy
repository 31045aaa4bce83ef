/** The beacon client's request rate limiter (internal/source/beaconapi/client.go).

    `wait` appends a waiter to a FIFO queue and starts a runner goroutine when none is live;
    `run` drops cancelled heads, sleeps until the next permitted instant, grants the head and
    stops when the queue is empty.  The model is a step system: each critical section under
    the mutex is one step, and waiters, cancellations, timers and the clock interleave freely.
    A grant is two steps, because a context may be cancelled (and its waiter may leave) between
    the runner's last check of `ctx.Err()` and the close of `ready`; the mutex is held between.
 */
module RateLimiter {

  type WaiterId = nat

  /** Where a runner goroutine is between two critical sections. */
  datatype Phase =
    | AtTop                                  // about to lock and look at the queue
    | Sleeping(head: WaiterId, until: int)   // timer armed for `until`
    | AtGrant(head: WaiterId)                // about to lock and re-check the head
    | Committing(head: WaiterId)             // holds the mutex, head re-checked

  datatype Grant = Grant(waiter: WaiterId, at: int)

  datatype State = State(
    minInterval: int,
    now: int,
    next: int,                    // earliest instant of the next grant
    queue: seq<WaiterId>,
    running: bool,
    runners: map<nat, Phase>,     // every live runner goroutine
    spawned: nat,                 // runners ever started
    arrived: nat,                 // waiters ever enqueued; ids are arrival ranks
    cancelled: set<WaiterId>,     // waiters whose context is done
    grants: seq<Grant>,           // every close of a `ready` channel, in order
    gaveUp: set<WaiterId>)        // waiters whose `wait` returned ctx.Err()

  datatype Step =
    | Tick(dt: nat)
    | Cancel(waiters: set<WaiterId>)
    | Enter
    | Top(runner: nat)
    | TimerFires(runner: nat)
    | SleepCancelled(runner: nat)
    | Recheck(runner: nat)
    | Commit(runner: nat)
    | GiveUp(waiter: WaiterId)

  predicate Initial(s: State) {
    && s.queue == [] && !s.running && s.runners == map[] && s.spawned == 0
    && s.arrived == 0 && s.cancelled == {} && s.grants == [] && s.gaveUp == {}
    && s.next <= s.now
  }

  /** The loop at the top of `run`: cancelled waiters at the head are dropped. */
  function DropCancelled(queue: seq<WaiterId>, cancelled: set<WaiterId>): seq<WaiterId> {
    if queue != [] && queue[0] in cancelled then DropCancelled(queue[1..], cancelled) else queue
  }

  predicate Granted(s: State, w: WaiterId) {
    exists i | 0 <= i < |s.grants| :: s.grants[i].waiter == w
  }

  predicate MutexFree(s: State) {
    forall r | r in s.runners :: !s.runners[r].Committing?
  }

  predicate Enabled(s: State, step: Step) {
    match step
    case Tick(_) => true
    case Cancel(_) => true
    case Enter => MutexFree(s)
    case Top(r) => r in s.runners && s.runners[r].AtTop? && MutexFree(s)
    case TimerFires(r) => r in s.runners && s.runners[r].Sleeping? && s.runners[r].until <= s.now
    case SleepCancelled(r) => r in s.runners && s.runners[r].Sleeping? && s.runners[r].head in s.cancelled
    case Recheck(r) => r in s.runners && s.runners[r].AtGrant? && MutexFree(s)
    case Commit(r) => r in s.runners && s.runners[r].Committing? && s.queue != []
    case GiveUp(w) => w < s.arrived && w in s.cancelled && !Granted(s, w)
  }

  function EnterSection(s: State): State {
    var q := s.(queue := s.queue + [s.arrived], arrived := s.arrived + 1);
    if s.running then q
    else q.(running := true, runners := s.runners[s.spawned := AtTop], spawned := s.spawned + 1)
  }

  function TopSection(s: State, r: nat): State {
    var queue := DropCancelled(s.queue, s.cancelled);
    if queue == [] then s.(queue := [], running := false, runners := s.runners - {r})
    else
      var wait := s.next - s.now;
      s.(queue := queue,
         runners := s.runners[r := if wait > 0 then Sleeping(queue[0], s.now + wait) else AtGrant(queue[0])])
  }

  function RecheckSection(s: State, r: nat, w: WaiterId): State {
    if s.queue == [] || s.queue[0] != w || w in s.cancelled
    then s.(runners := s.runners[r := AtTop])
    else s.(runners := s.runners[r := Committing(w)])
  }

  function CommitSection(s: State, r: nat, w: WaiterId): State
    requires s.queue != []
  {
    s.(queue := s.queue[1..], next := s.now + s.minInterval,
       grants := s.grants + [Grant(w, s.now)], runners := s.runners[r := AtTop])
  }

  function Apply(s: State, step: Step): State
    requires Enabled(s, step)
  {
    match step
    case Tick(dt) => s.(now := s.now + dt)
    case Cancel(ws) => s.(cancelled := s.cancelled + ws)
    case Enter => EnterSection(s)
    case Top(r) => TopSection(s, r)
    case TimerFires(r) => s.(runners := s.runners[r := AtGrant(s.runners[r].head)])
    case SleepCancelled(r) => s.(runners := s.runners[r := AtTop])
    case Recheck(r) => RecheckSection(s, r, s.runners[r].head)
    case Commit(r) => CommitSection(s, r, s.runners[r].head)
    case GiveUp(w) => s.(gaveUp := s.gaveUp + {w})
  }

  /** A run is any sequence of enabled steps: every interleaving of waiters, cancellations,
      timers and runner goroutines. */
  predicate IsRun(s: State, steps: seq<Step>)
    decreases |steps|
  {
    steps != [] ==> Enabled(s, steps[0]) && IsRun(Apply(s, steps[0]), steps[1..])
  }

  function RunFrom(s: State, steps: seq<Step>): State
    requires IsRun(s, steps)
    decreases |steps|
  {
    if steps == [] then s else RunFrom(Apply(s, steps[0]), steps[1..])
  }

  // ---------------------------------------------------------------- safety

  /** At most one runner is live, `running` says exactly whether one is, and a non-empty queue
      always has one. */
  predicate OneRunner(s: State) {
    && (forall r1, r2 | r1 in s.runners && r2 in s.runners :: r1 == r2)
    && (s.running <==> s.runners != map[])
    && (s.queue != [] ==> s.running)
    && (forall r | r in s.runners :: r < s.spawned)
  }

  /** The head a runner saw when it looked is still the head while it sleeps and re-checks, and
      once past the timer the next permitted instant has been reached. */
  predicate HeadHeld(s: State) {
    forall r | r in s.runners ::
      match s.runners[r]
      case AtTop => true
      case Sleeping(w, until) => s.queue != [] && s.queue[0] == w && until == s.next
      case AtGrant(w) => s.queue != [] && s.queue[0] == w && s.next <= s.now
      case Committing(w) => s.queue != [] && s.queue[0] == w && s.next <= s.now
  }

  /** Waiters queue in arrival order, behind everyone already granted. */
  predicate Fifo(s: State) {
    && (forall i, j | 0 <= i < j < |s.queue| :: s.queue[i] < s.queue[j])
    && (forall i | 0 <= i < |s.queue| :: s.queue[i] < s.arrived)
    && (forall i, j | 0 <= i < j < |s.grants| :: s.grants[i].waiter < s.grants[j].waiter)
    && (forall i, j | 0 <= i < |s.grants| && 0 <= j < |s.queue| :: s.grants[i].waiter < s.queue[j])
    && (forall i | 0 <= i < |s.grants| :: s.grants[i].waiter < s.arrived)
  }

  predicate Spaced(s: State) {
    && (forall i | 0 <= i < |s.grants| - 1 :: s.grants[i].at + s.minInterval <= s.grants[i + 1].at)
    && (s.grants != [] ==> s.next == s.grants[|s.grants| - 1].at + s.minInterval)
  }

  /** Nobody is lost: every waiter ever enqueued is queued, granted, or had its context cancelled;
      and only a cancelled waiter ever gives up. */
  predicate Conserved(s: State) {
    && (forall w: WaiterId | w < s.arrived :: w in s.queue || Granted(s, w) || w in s.cancelled)
    && s.gaveUp <= s.cancelled
  }

  predicate Inv(s: State) {
    OneRunner(s) && HeadHeld(s) && Fifo(s) && Spaced(s) && Conserved(s)
  }

  lemma {:induction false} DropCancelledKeeps(queue: seq<WaiterId>, cancelled: set<WaiterId>)
    ensures var q := DropCancelled(queue, cancelled);
            && |q| <= |queue|
            && q == queue[|queue| - |q|..]
            && (forall i | 0 <= i < |queue| - |q| :: queue[i] in cancelled)
            && (q != [] ==> q[0] !in cancelled)
  {
    if queue != [] && queue[0] in cancelled {
      DropCancelledKeeps(queue[1..], cancelled);
      var q := DropCancelled(queue[1..], cancelled);
      forall i | 0 <= i < |queue| - |q| ensures queue[i] in cancelled {
        if i > 0 { assert queue[i] == queue[1..][i - 1]; }
      }
    }
  }

  /** Conservation survives any step that only dequeues cancelled or newly granted waiters. */
  lemma StaysConserved(s: State, t: State, k: nat)
    requires Conserved(s) && t.arrived == s.arrived && s.cancelled <= t.cancelled && t.gaveUp == s.gaveUp
    requires k <= |s.queue| && t.queue == s.queue[k..] && s.grants <= t.grants
    requires forall i | 0 <= i < k :: s.queue[i] in t.cancelled || Granted(t, s.queue[i])
    ensures Conserved(t)
  {
    forall w: WaiterId | w < t.arrived ensures w in t.queue || Granted(t, w) || w in t.cancelled {
      if w in s.queue {
        var i :| 0 <= i < |s.queue| && s.queue[i] == w;
        if i >= k { assert t.queue[i - k] == w; }
      } else if Granted(s, w) {
        var i :| 0 <= i < |s.grants| && s.grants[i].waiter == w;
        assert t.grants[i].waiter == w;
      }
    }
  }

  lemma StaysFifo(s: State, t: State, k: nat)
    requires Fifo(s) && t.arrived == s.arrived && t.grants == s.grants
    requires k <= |s.queue| && t.queue == s.queue[k..]
    ensures Fifo(t)
  {
    assert forall j | 0 <= j < |t.queue| :: t.queue[j] == s.queue[j + k];
  }

  lemma TopKeeps(s: State, r: nat)
    requires Inv(s) && Enabled(s, Top(r))
    ensures Inv(Apply(s, Top(r)))
  {
    DropCancelledKeeps(s.queue, s.cancelled);
    var t := Apply(s, Top(r));
    var k := |s.queue| - |t.queue|;
    assert t.queue == s.queue[k..];
    StaysConserved(s, t, k);
    StaysFifo(s, t, k);
  }

  lemma CommitKeeps(s: State, r: nat)
    requires Inv(s) && Enabled(s, Commit(r))
    ensures Inv(Apply(s, Commit(r)))
  {
    var g := Grant(s.runners[r].head, s.now);
    var t := Apply(s, Commit(r));
    assert t.grants[|s.grants|] == g && Granted(t, g.waiter);
    StaysConserved(s, t, 1);
  }

  lemma EnterKeeps(s: State)
    requires Inv(s) && Enabled(s, Enter)
    ensures Inv(Apply(s, Enter))
  {
    var t := Apply(s, Enter);
    assert t.queue[|s.queue|] == s.arrived;
    assert !s.running ==> s.spawned in t.runners;
    forall v: WaiterId | v < t.arrived ensures v in t.queue || Granted(t, v) || v in t.cancelled {
      if v < s.arrived {
        if v in s.queue {
          var i :| 0 <= i < |s.queue| && s.queue[i] == v;
          assert t.queue[i] == v;
        } else if Granted(s, v) {
          assert t.grants == s.grants;
        }
      }
    }
  }

  lemma PhaseKeeps(s: State, r: nat, phase: Phase)
    requires Inv(s) && r in s.runners
    requires phase.AtTop? || (s.queue != [] && s.queue[0] == phase.head && !phase.Sleeping? && s.next <= s.now)
    ensures Inv(s.(runners := s.runners[r := phase]))
  {
    var t := s.(runners := s.runners[r := phase]);
    assert r in t.runners;
    assert forall v: WaiterId :: Granted(s, v) ==> Granted(t, v);
  }

  lemma EnvironmentKeeps(s: State, step: Step)
    requires Inv(s) && Enabled(s, step) && (step.Tick? || step.Cancel? || step.GiveUp?)
    ensures Inv(Apply(s, step))
  {
    var t := Apply(s, step);
    StaysFifo(s, t, 0);
    assert Spaced(t);
  }

  lemma StepKeeps(s: State, step: Step)
    requires Inv(s) && Enabled(s, step)
    ensures Inv(Apply(s, step))
  {
    match step
    case Top(r) => TopKeeps(s, r);
    case Commit(r) => CommitKeeps(s, r);
    case Enter => EnterKeeps(s);
    case TimerFires(r) => PhaseKeeps(s, r, AtGrant(s.runners[r].head));
    case SleepCancelled(r) => PhaseKeeps(s, r, AtTop);
    case Recheck(r) =>
      PhaseKeeps(s, r, AtTop);
      PhaseKeeps(s, r, Committing(s.runners[r].head));
    case _ => EnvironmentKeeps(s, step);
  }

  /** Every reachable state satisfies the invariant, in every interleaving. */
  lemma {:induction false} RunKeeps(s: State, steps: seq<Step>)
    requires Inv(s) && IsRun(s, steps)
    ensures Inv(RunFrom(s, steps))
    decreases |steps|
  {
    if steps != [] {
      StepKeeps(s, steps[0]);
      RunKeeps(Apply(s, steps[0]), steps[1..]);
    }
  }

  /** The state before step n of a run. */
  function StateAt(s: State, steps: seq<Step>, n: nat): State
    requires IsRun(s, steps) && n <= |steps|
    decreases n
  {
    if n == 0 then s else StateAt(Apply(s, steps[0]), steps[1..], n - 1)
  }

  lemma {:induction false} StateAtStep(s: State, steps: seq<Step>, n: nat)
    requires IsRun(s, steps) && n < |steps|
    ensures Enabled(StateAt(s, steps, n), steps[n])
    ensures StateAt(s, steps, n + 1) == Apply(StateAt(s, steps, n), steps[n])
    decreases n
  {
    if n > 0 { StateAtStep(Apply(s, steps[0]), steps[1..], n - 1); }
  }

  lemma {:induction false} StateAtEnd(s: State, steps: seq<Step>)
    requires IsRun(s, steps)
    ensures StateAt(s, steps, |steps|) == RunFrom(s, steps)
    decreases |steps|
  {
    if steps != [] { StateAtEnd(Apply(s, steps[0]), steps[1..]); }
  }

  lemma {:induction false} SpacingAccumulates(s: State, i: nat, j: nat)
    requires Spaced(s) && s.minInterval >= 0
    requires i <= j < |s.grants|
    ensures s.grants[i].at + (j - i) * s.minInterval <= s.grants[j].at
    decreases j
  {
    if i < j {
      SpacingAccumulates(s, i, j - 1);
      assert (j - i) * s.minInterval == (j - 1 - i) * s.minInterval + s.minInterval;
    }
  }

  /** What a client relies on, stated over whole runs from a new limiter: grants are FIFO, a
      waiter's `ready` closes at most once, and n grants take at least n-1 intervals, however
      often the runner stopped and restarted in between. */
  lemma GrantsOfAnyRun(s: State, steps: seq<Step>, i: nat, j: nat)
    requires Initial(s) && s.minInterval >= 0 && IsRun(s, steps)
    requires i < j < |RunFrom(s, steps).grants|
    ensures var g := RunFrom(s, steps).grants;
            && g[i].waiter < g[j].waiter
            && g[i].at + (j - i) * s.minInterval <= g[j].at
  {
    RunKeeps(s, steps);
    SameInterval(s, steps);
    SpacingAccumulates(RunFrom(s, steps), i, j);
  }

  lemma {:induction false} SameInterval(s: State, steps: seq<Step>)
    requires IsRun(s, steps)
    ensures RunFrom(s, steps).minInterval == s.minInterval
    decreases |steps|
  {
    if steps != [] { SameInterval(Apply(s, steps[0]), steps[1..]); }
  }

  /** The re-check after the sleep can only fail on cancellation: the queue is never empty there
      and the head never changed, so those two tests are dead. */
  lemma RecheckFailsOnlyOnCancel(s: State, steps: seq<Step>, r: nat)
    requires Initial(s) && IsRun(s, steps) && Enabled(RunFrom(s, steps), Recheck(r))
    ensures var t := RunFrom(s, steps);
            var w := t.runners[r].head;
            && t.queue != [] && t.queue[0] == w
            && (Apply(t, Recheck(r)).runners[r] == AtTop <==> w in t.cancelled)
  {
    RunKeeps(s, steps);
  }

  // ----------------------------------------------------- termination measure

  predicate RunnerStep(step: Step) {
    step.Top? || step.TimerFires? || step.SleepCancelled? || step.Recheck? || step.Commit?
  }

  /** How far a runner in this phase is from its next dequeue or exit. */
  function Distance(s: State, phase: Phase): nat {
    match phase
    case AtTop => if s.queue != [] && s.queue[0] !in s.cancelled then 6 else 1
    case Sleeping(w, _) => if w in s.cancelled then 4 else 5
    case AtGrant(w) => if w in s.cancelled then 3 else 4
    case Committing(_) => 2
  }

  /** Queue length first, then the live runner's distance. */
  ghost function Measure(s: State): nat
    requires OneRunner(s)
  {
    if s.runners == map[] then 7 * |s.queue|
    else var r :| r in s.runners; 7 * |s.queue| + Distance(s, s.runners[r])
  }

  lemma MeasureIs(s: State, r: nat)
    requires OneRunner(s) && r in s.runners
    ensures Measure(s) == 7 * |s.queue| + Distance(s, s.runners[r])
  {
    assert forall q | q in s.runners :: q == r;
  }

  lemma TopMeasure(s: State, r: nat)
    requires Inv(s) && Enabled(s, Top(r))
    ensures Inv(Apply(s, Top(r))) && Measure(Apply(s, Top(r))) < Measure(s)
  {
    TopKeeps(s, r);
    MeasureIs(s, r);
    DropCancelledKeeps(s.queue, s.cancelled);
    var t := Apply(s, Top(r));
    if t.queue == [] {
      assert t.runners == map[] by { assert forall q | q in s.runners :: q == r; }
    } else {
      MeasureIs(t, r);
      if |t.queue| == |s.queue| { assert t.queue == s.queue; }
    }
  }

  /** Every step of the runner strictly decreases the measure, and no step other than a new
      arrival increases it. */
  lemma StepMeasure(s: State, step: Step)
    requires Inv(s) && Enabled(s, step)
    ensures Inv(Apply(s, step))
    ensures RunnerStep(step) ==> Measure(Apply(s, step)) < Measure(s)
    ensures !step.Enter? ==> Measure(Apply(s, step)) <= Measure(s)
  {
    StepKeeps(s, step);
    var t := Apply(s, step);
    if step.Top? {
      TopMeasure(s, step.runner);
    } else if RunnerStep(step) {
      MeasureIs(s, step.runner);
      MeasureIs(t, step.runner);
    } else if !step.Enter? && s.runners != map[] {
      var r :| r in s.runners;
      MeasureIs(s, r);
      MeasureIs(t, r);
    }
  }

  function CountRunnerSteps(steps: seq<Step>): nat {
    if steps == [] then 0 else (if RunnerStep(steps[0]) then 1 else 0) + CountRunnerSteps(steps[1..])
  }

  /** With no new arrivals a runner takes at most seven steps per queued waiter (plus the last
      look at the empty queue), whatever the cancellations and the clock do. */
  lemma {:induction false} RunnerStepsBounded(s: State, steps: seq<Step>)
    requires Inv(s) && IsRun(s, steps)
    requires forall i | 0 <= i < |steps| :: !steps[i].Enter?
    ensures CountRunnerSteps(steps) <= 7 * |s.queue| + 6
  {
    assert Measure(s) <= 7 * |s.queue| + 6;
    RunnerStepsUseMeasure(s, steps);
  }

  lemma {:induction false} RunnerStepsUseMeasure(s: State, steps: seq<Step>)
    requires Inv(s) && IsRun(s, steps)
    requires forall i | 0 <= i < |steps| :: !steps[i].Enter?
    ensures Inv(RunFrom(s, steps))
    ensures CountRunnerSteps(steps) + Measure(RunFrom(s, steps)) <= Measure(s)
    decreases |steps|
  {
    if steps != [] {
      StepMeasure(s, steps[0]);
      RunnerStepsUseMeasure(Apply(s, steps[0]), steps[1..]);
    }
  }

  /** A live runner is never stuck: once the clock reaches `next` one of its steps is enabled. */
  lemma RunnerNeverStuck(s: State) returns (step: Step)
    requires Inv(s) && s.running && s.next <= s.now
    ensures RunnerStep(step) && Enabled(s, step)
  {
    var r :| r in s.runners;
    assert forall q | q in s.runners :: q == r;
    step := match s.runners[r]
      case AtTop => Top(r)
      case Sleeping(_, _) => TimerFires(r)
      case AtGrant(_) => Recheck(r)
      case Committing(_) => Commit(r);
  }

  /** Only the runner and the clock move. */
  predicate Undisturbed(steps: seq<Step>) {
    forall i | 0 <= i < |steps| :: RunnerStep(steps[i]) || steps[i].Tick?
  }

  lemma UndisturbedCons(step: Step, rest: seq<Step>)
    requires Undisturbed(rest) && (RunnerStep(step) || step.Tick?)
    ensures Undisturbed([step] + rest)
  {
  }

  lemma QuietStep(s: State, step: Step)
    requires Enabled(s, step) && (RunnerStep(step) || step.Tick?)
    ensures Apply(s, step).cancelled == s.cancelled && Apply(s, step).arrived == s.arrived
  {
  }

  /** A run of runner steps and ticks that empties the queue, from any state of the invariant. */
  lemma {:induction false} DrainingRun(s: State) returns (steps: seq<Step>)
    requires Inv(s)
    ensures IsRun(s, steps) && Undisturbed(steps) && Inv(RunFrom(s, steps))
    ensures var t := RunFrom(s, steps);
            t.queue == [] && !t.running && t.cancelled == s.cancelled && t.arrived == s.arrived
    decreases Measure(s), if s.next <= s.now then 0 else 1
  {
    steps := [];
    if s.running {
      var step := Tick(0);
      if s.next <= s.now { step := RunnerNeverStuck(s); } else { step := Tick(s.next - s.now); }
      StepMeasure(s, step);
      QuietStep(s, step);
      var rest := DrainingRun(Apply(s, step));
      RunCons(s, step, rest);
      UndisturbedCons(step, rest);
      steps := [step] + rest;
    }
  }

  /** Every queue drains: from every reachable state the runner and the clock alone reach an empty
      queue, and every waiter then queued whose context is not cancelled has been granted. */
  lemma QueueDrains(s: State, before: seq<Step>) returns (steps: seq<Step>)
    requires Initial(s) && IsRun(s, before)
    ensures var t := RunFrom(s, before);
            && IsRun(t, steps) && Undisturbed(steps)
            && RunFrom(t, steps).queue == []
            && forall w | w in t.queue && w !in t.cancelled :: Granted(RunFrom(t, steps), w)
  {
    RunKeeps(s, before);
    var t := RunFrom(s, before);
    steps := DrainingRun(t);
    var u := RunFrom(t, steps);
    forall w | w in t.queue && w !in t.cancelled ensures Granted(u, w) {
      assert w < u.arrived && w !in u.queue;
    }
  }

  // ----------------------------------------------------------- wasted grants

  /** A grant was spent on a waiter that had returned its context error. */
  predicate Wasted(s: State, w: WaiterId) {
    w in s.gaveUp && Granted(s, w)
  }

  predicate CommittingTo(s: State, r: nat, w: WaiterId) {
    r in s.runners && s.runners[r] == Committing(w)
  }

  /** At step i the waiter gives up while runner r holds the mutex about to grant it, and at step j
      that runner grants it. */
  predicate GivesUpBetween(s: State, steps: seq<Step>, w: WaiterId, i: nat, j: nat, r: nat)
    requires IsRun(s, steps)
  {
    && i < j < |steps| && steps[i] == GiveUp(w) && CommittingTo(StateAt(s, steps, i), r, w)
    && steps[j] == Commit(r) && CommittingTo(StateAt(s, steps, j), r, w)
  }

  lemma {:induction false} GaveUpIsCancelled(s: State, steps: seq<Step>, n: nat)
    requires s.gaveUp == {} && IsRun(s, steps) && n <= |steps|
    ensures StateAt(s, steps, n).gaveUp <= StateAt(s, steps, n).cancelled
    decreases n
  {
    if n > 0 {
      GaveUpIsCancelled(s, steps, n - 1);
      StateAtStep(s, steps, n - 1);
    }
  }

  /** A waiter that gave up while a runner is committing to it did so during that commitment. */
  lemma {:induction false} GaveUpWhileCommitting(s: State, steps: seq<Step>, w: WaiterId, r: nat, n: nat)
    returns (i: nat)
    requires s.gaveUp == {} && IsRun(s, steps) && n <= |steps|
    requires w in StateAt(s, steps, n).gaveUp && CommittingTo(StateAt(s, steps, n), r, w)
    ensures i < n && steps[i] == GiveUp(w) && CommittingTo(StateAt(s, steps, i), r, w)
    decreases n
  {
    StateAtStep(s, steps, n - 1);
    GaveUpIsCancelled(s, steps, n - 1);
    GaveUpStep(StateAt(s, steps, n - 1), steps[n - 1], r, w);
    if w in StateAt(s, steps, n - 1).gaveUp {
      i := GaveUpWhileCommitting(s, steps, w, r, n - 1);
    } else {
      i := n - 1;
    }
  }

  lemma GaveUpStep(s: State, step: Step, r: nat, w: WaiterId)
    requires s.gaveUp <= s.cancelled && Enabled(s, step) && w in Apply(s, step).gaveUp &&
             CommittingTo(Apply(s, step), r, w)
    ensures CommittingTo(s, r, w) && (w in s.gaveUp || step == GiveUp(w))
  {
    if w in s.gaveUp { CommitmentIsOlder(s, step, r, w); }
  }

  /** No step starts committing to a cancelled waiter. */
  lemma CommitmentIsOlder(s: State, step: Step, r: nat, w: WaiterId)
    requires Enabled(s, step) && w in s.cancelled && CommittingTo(Apply(s, step), r, w)
    ensures CommittingTo(s, r, w)
  {
  }

  /** A step wastes a grant exactly when it commits one to a waiter that gave up. */
  lemma WasteStep(s: State, step: Step, w: WaiterId)
    requires Enabled(s, step)
    ensures Wasted(Apply(s, step), w) <==>
            Wasted(s, w) || (w in s.gaveUp && step.Commit? && CommittingTo(s, step.runner, w))
  {
    var t := Apply(s, step);
    if step.Commit? {
      var g := Grant(s.runners[step.runner].head, s.now);
      assert t.grants == s.grants + [g];
      GrantedAppend(s, t, g, w);
    } else {
      assert t.grants == s.grants;
      assert Granted(t, w) <==> Granted(s, w);
    }
  }

  lemma GrantedAppend(s: State, t: State, g: Grant, w: WaiterId)
    requires t.grants == s.grants + [g]
    ensures Granted(t, w) <==> Granted(s, w) || g.waiter == w
  {
    if Granted(s, w) {
      var i :| 0 <= i < |s.grants| && s.grants[i].waiter == w;
      assert t.grants[i].waiter == w;
    }
    if g.waiter == w { assert t.grants[|s.grants|].waiter == w; }
  }

  lemma {:induction false} WasteHasOrigin(s: State, steps: seq<Step>, w: WaiterId, n: nat)
    returns (i: nat, j: nat, r: nat)
    requires s.gaveUp == {} && IsRun(s, steps) && n <= |steps| && Wasted(StateAt(s, steps, n), w)
    ensures j < n && GivesUpBetween(s, steps, w, i, j, r)
    decreases n
  {
    StateAtStep(s, steps, n - 1);
    var before := StateAt(s, steps, n - 1);
    WasteStep(before, steps[n - 1], w);
    if Wasted(before, w) {
      i, j, r := WasteHasOrigin(s, steps, w, n - 1);
    } else {
      j, r := n - 1, steps[n - 1].runner;
      i := GaveUpWhileCommitting(s, steps, w, r, n - 1);
    }
  }

  lemma {:induction false} GaveUpStays(s: State, steps: seq<Step>, w: WaiterId, i: nat, n: nat)
    requires IsRun(s, steps) && i < n <= |steps| && steps[i] == GiveUp(w)
    ensures w in StateAt(s, steps, n).gaveUp
    decreases n
  {
    StateAtStep(s, steps, n - 1);
    if i < n - 1 { GaveUpStays(s, steps, w, i, n - 1); }
  }

  lemma {:induction false} WasteStays(s: State, steps: seq<Step>, w: WaiterId, m: nat, n: nat)
    requires IsRun(s, steps) && m <= n <= |steps| && Wasted(StateAt(s, steps, m), w)
    ensures Wasted(StateAt(s, steps, n), w)
    decreases n
  {
    if m < n {
      WasteStays(s, steps, w, m, n - 1);
      StateAtStep(s, steps, n - 1);
      WasteStep(StateAt(s, steps, n - 1), steps[n - 1], w);
    }
  }

  /** In every run from a new limiter, a grant is spent on a waiter that gave up exactly when that
      waiter gave up between a runner's last check of it and that runner's grant. */
  lemma WastedIff(s: State, steps: seq<Step>, w: WaiterId)
    requires Initial(s) && IsRun(s, steps)
    ensures Wasted(RunFrom(s, steps), w) <==> exists i: nat, j: nat, r: nat :: GivesUpBetween(s, steps, w, i, j, r)
  {
    StateAtEnd(s, steps);
    if Wasted(RunFrom(s, steps), w) {
      var i, j, r := WasteHasOrigin(s, steps, w, |steps|);
    }
    forall i: nat, j: nat, r: nat | GivesUpBetween(s, steps, w, i, j, r) ensures Wasted(RunFrom(s, steps), w) {
      GivingUpWastes(s, steps, w, i, j, r);
    }
  }

  lemma GivingUpWastes(s: State, steps: seq<Step>, w: WaiterId, i: nat, j: nat, r: nat)
    requires IsRun(s, steps) && GivesUpBetween(s, steps, w, i, j, r)
    ensures Wasted(StateAt(s, steps, |steps|), w)
  {
    GaveUpStays(s, steps, w, i, j);
    StateAtStep(s, steps, j);
    WasteStep(StateAt(s, steps, j), steps[j], w);
    WasteStays(s, steps, w, j + 1, |steps|);
  }

  /** No cancellation lands on a waiter while a runner holds the mutex to grant it. */
  predicate CommitsUndisturbed(s: State, steps: seq<Step>)
    requires IsRun(s, steps)
  {
    forall n: nat | n < |steps| && steps[n].Cancel? ::
      forall r | r in StateAt(s, steps, n).runners && StateAt(s, steps, n).runners[r].Committing? ::
        StateAt(s, steps, n).runners[r].head !in steps[n].waiters
  }

  /** Runners commit only to waiters not cancelled. */
  predicate CommitsLive(s: State) {
    forall r | r in s.runners && s.runners[r].Committing? :: s.runners[r].head !in s.cancelled
  }

  lemma {:induction false} UndisturbedStaysLive(s: State, steps: seq<Step>, n: nat)
    requires CommitsLive(s) && IsRun(s, steps) && CommitsUndisturbed(s, steps) && n <= |steps|
    ensures CommitsLive(StateAt(s, steps, n))
    decreases n
  {
    if n > 0 {
      UndisturbedStaysLive(s, steps, n - 1);
      StateAtStep(s, steps, n - 1);
    }
  }

  /** In a run where no cancellation lands between a runner's last check and its grant, no grant is
      wasted. */
  lemma UndisturbedWastesNothing(s: State, steps: seq<Step>, w: WaiterId)
    requires Initial(s) && IsRun(s, steps) && CommitsUndisturbed(s, steps)
    ensures !Wasted(RunFrom(s, steps), w)
  {
    WastedIff(s, steps, w);
    if Wasted(RunFrom(s, steps), w) {
      var i: nat, j: nat, r: nat :| GivesUpBetween(s, steps, w, i, j, r);
      UndisturbedStaysLive(s, steps, i);
      StateAtStep(s, steps, i);
      assert false;
    }
  }

  /** A grant can be spent on a waiter that already returned its context error: the cancellation
      lands between the runner's check and the close of `ready`. */
  lemma GrantMayBeWasted() returns (s: State, steps: seq<Step>)
    ensures Initial(s) && IsRun(s, steps)
    ensures var t := RunFrom(s, steps);
            exists w: WaiterId :: Wasted(t, w)
  {
    s := State(5, 0, 0, [], false, map[], 0, 0, {}, [], {});
    var s1 := Apply(s, Enter);
    assert DropCancelled(s1.queue, s1.cancelled) == [0];
    var s2 := Apply(s1, Top(0));
    var s3 := Apply(s2, Recheck(0));
    var s4 := Apply(s3, Cancel({0}));
    var s5 := Apply(s4, GiveUp(0));
    var s6 := Apply(s5, Commit(0));
    assert s6.grants[0].waiter == 0 && Granted(s6, 0) && 0 in s6.gaveUp && Wasted(s6, 0);
    RunCons(s5, Commit(0), []);
    steps := [Commit(0)] + [];
    RunCons(s4, GiveUp(0), steps);
    steps := [GiveUp(0)] + steps;
    RunCons(s3, Cancel({0}), steps);
    steps := [Cancel({0})] + steps;
    RunCons(s2, Recheck(0), steps);
    steps := [Recheck(0)] + steps;
    RunCons(s1, Top(0), steps);
    steps := [Top(0)] + steps;
    RunCons(s, Enter, steps);
    steps := [Enter] + steps;
  }

  lemma RunCons(s: State, step: Step, rest: seq<Step>)
    requires Enabled(s, step) && IsRun(Apply(s, step), rest)
    ensures IsRun(s, [step] + rest) && RunFrom(s, [step] + rest) == RunFrom(Apply(s, step), rest)
  {
    assert ([step] + rest)[1..] == rest;
  }

  // -------------------------------------------------- the critical sections

  /** The limiter object: its three fields and the critical sections that update them.  Each
      method does to the fields what the matching step does to the state. */
  class Limiter {
    const minInterval: int
    var next: int
    var queue: seq<WaiterId>
    var running: bool

    constructor (minInterval: int, start: int)
      ensures this.minInterval == minInterval && next == start && queue == [] && !running
    {
      this.minInterval := minInterval;
      next, queue, running := start, [], false;
    }

    /** This object holds the shared fields of `s`. */
    ghost predicate Holds(s: State) reads this {
      next == s.next && queue == s.queue && running == s.running && minInterval == s.minInterval
    }

    method EnterSection(w: WaiterId, ghost s: State) returns (spawn: bool)
      requires Holds(s) && Enabled(s, Enter) && w == s.arrived
      modifies this
      ensures Holds(Apply(s, Enter))
      ensures spawn <==> Apply(s, Enter).spawned == s.spawned + 1
    {
      queue := queue + [w];
      spawn := !running;
      if !running { running := true; }
    }

    /** Drops cancelled heads in a loop; the result tells the runner to exit, sleep or grant. */
    method TopSection(cancelled: set<WaiterId>, now: int, ghost s: State, ghost r: nat)
      returns (exit: bool, phase: Phase)
      requires Holds(s) && Enabled(s, Top(r)) && cancelled == s.cancelled && now == s.now
      modifies this
      ensures Holds(Apply(s, Top(r)))
      ensures exit <==> r !in Apply(s, Top(r)).runners
      ensures !exit ==> phase == Apply(s, Top(r)).runners[r]
    {
      while queue != [] && queue[0] in cancelled
        invariant DropCancelled(queue, cancelled) == DropCancelled(s.queue, cancelled)
        invariant next == s.next && running == s.running
        decreases |queue|
      {
        queue := queue[1..];
      }
      phase := AtTop;
      exit := queue == [];
      if exit {
        running := false;
      } else {
        var wait := next - now;
        phase := if wait > 0 then Sleeping(queue[0], now + wait) else AtGrant(queue[0]);
      }
    }

    method RecheckSection(w: WaiterId, cancelled: set<WaiterId>, ghost s: State, ghost r: nat) returns (grant: bool)
      requires Holds(s) && Enabled(s, Recheck(r)) && cancelled == s.cancelled && w == s.runners[r].head
      ensures Holds(Apply(s, Recheck(r)))
      ensures grant <==> Apply(s, Recheck(r)).runners[r] == Committing(w)
    {
      grant := !(|queue| == 0 || queue[0] != w || w in cancelled);
    }

    method CommitSection(now: int, ghost s: State, ghost r: nat)
      requires Holds(s) && Enabled(s, Commit(r)) && now == s.now
      modifies this
      ensures Holds(Apply(s, Commit(r)))
    {
      queue := queue[1..];
      next := now + minInterval;
    }
  }
}
