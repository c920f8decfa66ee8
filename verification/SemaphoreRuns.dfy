/** Semaphores over whole runs of the kernel: no signal is lost or counted twice, and threads that block are woken in
    the order in which they blocked. */
module SemaphoreRuns {
  import opened Common
  import opened Scheduler
  import opened SchedulerPlaces
  import opened SchedulerSteps
  import opened SchedulerRuns

  predicate Waits(e: Event, q: nat) {
    e.Wait? && e.q == q
  }

  predicate Signals(e: Event, q: nat) {
    e.Signal? && e.q == q
  }

  /** The thread that kernel entry `e` blocks on semaphore `q`, if it does. */
  function Blocks(s: State, e: Event, q: nat): seq<nat>
    requires Enabled(s, e)
  {
    if Waits(e, q) && e.block && s.sems[q].count == 0 then [s.current[e.c].value] else []
  }

  /** The thread that it takes off the waiting list, if it does. */
  function Wakes(s: State, e: Event, q: nat): seq<nat>
    requires Enabled(s, e)
  {
    if Signals(e, q) && s.sems[q].waiting != [] then [s.sems[q].waiting[0]] else []
  }

  /** All of these over a run, in order. */
  function Blocked(s: State, es: seq<Event>, q: nat): seq<nat>
    requires Legal(s, es)
    decreases |es|
  {
    if es == [] then [] else Blocks(s, es[0], q) + Blocked(Step(s, es[0]), es[1..], q)
  }

  function Woken(s: State, es: seq<Event>, q: nat): seq<nat>
    requires Legal(s, es)
    decreases |es|
  {
    if es == [] then [] else Wakes(s, es[0], q) + Woken(Step(s, es[0]), es[1..], q)
  }

  /** How many waits of the run find a count and take it. */
  function Passed(s: State, es: seq<Event>, q: nat): nat
    requires Legal(s, es)
    decreases |es|
  {
    if es == [] then 0
    else (if Waits(es[0], q) && s.sems[q].count > 0 then 1 else 0) + Passed(Step(s, es[0]), es[1..], q)
  }

  function Posted(es: seq<Event>, q: nat): nat {
    if es == [] then 0 else (if Signals(es[0], q) then 1 else 0) + Posted(es[1..], q)
  }

  // ----------------------------------------------------------------------------------------- one step

  lemma SchedSems(s: State, c: nat)
    requires s.Cpu(c)
    ensures Sched(s, c).sems == s.sems
  {
  }

  /** What a kernel entry does to semaphore `q`, whose record is `x` before and `y` after it. */
  predicate SemMoves(s: State, e: Event, q: nat, x: Sem, y: Sem)
    requires Enabled(s, e)
  {
    && x.waiting + Blocks(s, e, q) == Wakes(s, e, q) + y.waiting
    && y.count + |Wakes(s, e, q)| + (if Waits(e, q) && x.count > 0 then 1 else 0) == x.count + if Signals(e, q) then 1
         else 0
  }

  lemma StepSem(s: State, e: Event, q: nat)
    requires Inv(s) && Enabled(s, e) && q < |s.sems|
    ensures |Step(s, e).sems| == |s.sems| && SemMoves(s, e, q, s.sems[q], Step(s, e).sems[q])
  {
    SemFree(s, q);
    if Reschedules(s, e) {
      PreStep(s, e);
      SchedSems(Pre(s, e), e.c);
      PreSem(s, e, q);
    } else {
      OtherSem(s, e, q);
    }
  }

  lemma PreSem(s: State, e: Event, q: nat)
    requires Enabled(s, e) && Reschedules(s, e) && q < |s.sems|
    ensures |Pre(s, e).sems| == |s.sems| && SemMoves(s, e, q, s.sems[q], Pre(s, e).sems[q])
  {
  }

  lemma OtherSem(s: State, e: Event, q: nat)
    requires Enabled(s, e) && !Reschedules(s, e) && q < |s.sems| && s.sems[q].waitingCount == |s.sems[q].waiting|
    ensures |Step(s, e).sems| == |s.sems| && SemMoves(s, e, q, s.sems[q], Step(s, e).sems[q])
  {
  }

  lemma SemFree(s: State, q: nat)
    requires Inv(s) && q < |s.sems|
    ensures s.sems[q].waitingCount == |s.sems[q].waiting| && (s.sems[q].count == 0 || s.sems[q].waiting == [])
  {
    var at :| Located(s, at);
    assert SemOk(s, at, q);
  }

  // --------------------------------------------------------------------------------------------- runs

  lemma Chained(x: seq<nat>, b: seq<nat>, w: seq<nat>, m: seq<nat>, bs: seq<nat>, ws: seq<nat>, y: seq<nat>)
    requires x + b == w + m && m + bs == ws + y
    ensures x + (b + bs) == (w + ws) + y
  {
    assert x + (b + bs) == (x + b) + bs;
    assert (w + m) + bs == w + (m + bs);
    assert w + (ws + y) == (w + ws) + y;
  }

  /** Threads leave the waiting list in the order in which they came; every signal lets exactly one wait through, now or
      later; and nobody waits while there is a count to take. */
  lemma {:induction false} SemaphoreRun(s: State, es: seq<Event>, q: nat)
    requires Inv(s) && Legal(s, es) && q < |s.sems|
    ensures |After(s, es).sems| == |s.sems|
    ensures var x, y := s.sems[q], After(s, es).sems[q];
            && x.waiting + Blocked(s, es, q) == Woken(s, es, q) + y.waiting
            && y.count + |Woken(s, es, q)| + Passed(s, es, q) == x.count + Posted(es, q)
            && (y.count == 0 || y.waiting == [])
    decreases |es|
  {
    if es == [] {
      SemFree(s, q);
    } else {
      var e, s' := es[0], Step(s, es[0]);
      StepSem(s, e, q);
      StepInv(s, e);
      SemaphoreRun(s', es[1..], q);
      Chained(s.sems[q].waiting, Blocks(s, e, q), Wakes(s, e, q), s'.sems[q].waiting,
              Blocked(s', es[1..], q), Woken(s', es[1..], q), After(s', es[1..]).sems[q].waiting);
    }
  }

  /** From start-up, the threads woken so far are the first of those that blocked, and waits that went through are
      as many as the signals, less what is left to take. */
  lemma WokenInOrder(s0: State, es: seq<Event>, q: nat)
    requires Initial(s0) && Legal(s0, es) && q < |s0.sems|
    ensures |After(s0, es).sems| == |s0.sems|
    ensures var y := After(s0, es).sems[q];
            && Blocked(s0, es, q) == Woken(s0, es, q) + y.waiting
            && Passed(s0, es, q) + |Woken(s0, es, q)| == Posted(es, q) - y.count
            && (y.count > 0 ==> Woken(s0, es, q) == Blocked(s0, es, q))
  {
    InitialInv(s0);
    SemaphoreRun(s0, es, q);
    assert s0.sems[q].waiting == [];
    assert [] + Blocked(s0, es, q) == Blocked(s0, es, q);
  }
}
