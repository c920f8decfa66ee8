/** How long a ready thread waits under the round-robin policy. */
module SchedulerWaiting {
  import opened Common
  import opened Scheduler
  import opened SchedulerPlaces
  import opened SchedulerSteps
  import opened SchedulerRuns

  /** How many threads are ahead of `x`. */
  function Pos(list: seq<nat>, x: nat): (i: nat)
    requires x in list
    ensures i < |list| && list[i] == x
  {
    if list[0] == x then 0 else 1 + Pos(list[1..], x)
  }

  lemma {:induction false} PosPrefix(list: seq<nat>, more: seq<nat>, x: nat)
    requires x in list && list <= more
    ensures x in more && Pos(more, x) == Pos(list, x)
  {
    assert list[0] == more[0];
    if list[0] != x {
      assert list[1..] <= more[1..];
      PosPrefix(list[1..], more[1..], x);
    }
  }

  /** The budget left on CPU `c`. */
  function Left(s: State, c: nat): nat
    requires s.Cpu(c)
  {
    match s.current[c]
    case None => DEFAULT_BUDGET
    case Some(t) => if t < |s.threads| then BudgetOf(s, t) else 0
  }

  /** Ticks after which thread `x` runs on `c` at the latest, if nobody returns from a call there. */
  function Ticks(s: State, c: nat, x: nat): nat
    requires s.Cpu(c) && x in s.queues[c].list
  {
    DEFAULT_BUDGET * Pos(s.queues[c].list, x) + Left(s, c)
  }

  /** Thread `x` has got CPU `c`, or is at least `n` ticks nearer to it than in `s`. */
  ghost predicate Nearer(s: State, s': State, c: nat, x: nat, n: int)
    requires s.Cpu(c) && x in s.queues[c].list
  {
    s'.Cpu(c) && (s'.current[c] == Some(x) || (x in s'.queues[c].list && Ticks(s', c, x) + n <= Ticks(s, c, x)))
  }

  // ---------------------------------------------------------------------------- what rr_sched changes

  /** Queues only grow at their ends, scheduling contexts stay with their threads, and only the budget of context `x`
      changes. */
  ghost predicate Calm(s: State, s': State, x: Option<nat>) {
    && |s'.threads| == |s.threads| && |s'.queues| == |s.queues| && |s'.current| == |s.current|
       && |s'.budgets| == |s.budgets|
    && (forall t :: 0 <= t < |s.threads| ==> s'.threads[t].sc == s.threads[t].sc)
    && (forall c :: 0 <= c < |s.queues| ==> s.queues[c].list <= s'.queues[c].list)
    && (forall b :: 0 <= b < |s.budgets| && x != Some(b) ==> s'.budgets[b] == s.budgets[b])
  }

  lemma ParkCalm(s: State, c: nat, t: nat)
    requires s.Runs(c, t)
    ensures Calm(s, Park(s, c), s.threads[t].sc) && Park(s, c).current == s.current
  {
  }

  /** Dispatching on `d` takes the first thread off the queue of `d`. */
  lemma DispatchEffect(s: State, at: seq<Place>, d: nat)
    requires s.Cpu(d) && Located(Off(s, d), at)
    ensures var s' := Dispatch(s, d);
            && Chosen(s, d) < |s.threads| && s'.current == s.current[d := Some(Chosen(s, d))] && s'.budgets == s.budgets
            && |s'.threads| == |s.threads| && (forall t :: 0 <= t < |s.threads| ==> s'.threads[t].sc == s.threads[t].sc)
            && |s'.queues| == |s.queues| && (forall c :: 0 <= c < |s.queues| && c != d ==> s'.queues[c] == s.queues[c])
            && (s.queues[d].list == [] ==> Chosen(s, d) == d && s'.queues[d].list == [])
            && (s.queues[d].list != [] ==>
                  Chosen(s, d) == s.queues[d].list[0] && s'.queues[d].list == s.queues[d].list[1..])
  {
    var o, t := Off(s, d), Chosen(s, d);
    assert QueueOk(o, at, d);
    if s.queues[d].list != [] {
      assert t in o.queues[d].list;
      assert ThreadOk(o, at[t], t);
      RemovedFirst(s.queues[d].list);
    }
    assert s.current[d] == Some(t) ==> s.current[d := Some(t)] == s.current;
  }

  // -------------------------------------------------------------------------- scheduling on this CPU

  lemma HereSwitches(s: State, m: State, at: seq<Place>, c: nat, x: nat)
    requires s.Cpu(c) && x in s.queues[c].list && Left(s, c) >= 1 && m.queues == s.queues && m.current == s.current
    requires Located(Off(m, c), at) && Leaving(m, at, c) && !Stays(m, c) && BudgetsBut(m, c)
    ensures Nearer(s, Sched(m, c), c, x, 1)
  {
    var p, s' := Park(m, c), Sched(m, c);
    var at1 := ParkLocated(m, at, c);
    if m.current[c].Some? {
      ParkCalm(m, c, m.current[c].value);
    }
    DispatchEffect(p, at1, c);
    PosPrefix(s.queues[c].list, p.queues[c].list, x);
    SchedBudgets(m, c);
    assert Left(s', c) <= DEFAULT_BUDGET;
    if s'.current[c] != Some(x) {
      assert p.queues[c].list[0] != x;
      assert Pos(p.queues[c].list, x) == 1 + Pos(s'.queues[c].list, x);
    }
  }

  /** rr_sched on `c` after the running thread's budget went from `Left(s, c)` to that in `m`. */
  lemma HereSched(s: State, m: State, at: seq<Place>, c: nat, x: nat, n: nat)
    requires s.Cpu(c) && x in s.queues[c].list && Left(s, c) >= 1 && m.queues == s.queues && m.current == s.current
    requires Located(Off(m, c), at) && Leaving(m, at, c) && BudgetsBut(m, c) && n <= 1
    requires Stays(m, c) ==> Left(m, c) + n <= Left(s, c)
    ensures Nearer(s, Sched(m, c), c, x, n)
  {
    if Stays(m, c) {
      var at' := StayLocated(m, at, c);
    } else {
      HereSwitches(s, m, at, c, x);
    }
  }

  // ------------------------------------------------------------------------- scheduling on another CPU

  /** Nothing that matters to `x` on `c` has changed. */
  ghost predicate Untouched(s: State, s': State, c: nat) {
    s.Cpu(c) && s'.Cpu(c) && s.queues[c].list <= s'.queues[c].list && s'.current[c] == s.current[c]
    && Left(s', c) == Left(s, c)
  }

  lemma UntouchedNearer(s: State, s': State, c: nat, x: nat)
    requires Untouched(s, s', c) && x in s.queues[c].list
    ensures Nearer(s, s', c, x, 0)
  {
    PosPrefix(s.queues[c].list, s'.queues[c].list, x);
  }

  /** Threads running on two CPUs have different scheduling contexts. */
  lemma ContextsApart(s: State, at: seq<Place>, c: nat, d: nat)
    requires Located(s, at) && s.Cpu(c) && s.Cpu(d) && c != d && s.current[c].Some? && s.current[d].Some?
    ensures s.current[c].value < |s.threads| && s.current[d].value < |s.threads|
    ensures s.threads[s.current[c].value].sc != s.threads[s.current[d].value].sc
  {
    var t, u := s.current[c].value, s.current[d].value;
    assert CpuOk(s, at, c) && CpuOk(s, at, d);
    RunningLoose(s, at, c, t);
    RunningLoose(s, at, d, u);
    assert Live(s, at, t) && Live(s, at, u);
  }

  lemma ThereSched(s: State, at: seq<Place>, e: Event, c: nat)
    requires Located(s, at) && Enabled(s, e) && Reschedules(s, e) && s.Cpu(c) && c != e.c
    ensures Untouched(s, Step(s, e), c)
  {
    PreStep(s, e);
    var at1 := PreLocated(s, at, e);
    if s.current[c].Some? && s.current[e.c].Some? {
      ContextsApart(s, at, c, e.c);
    }
    assert CpuOk(s, at, c);
    PreLeft(s, e, c);
    SchedThere(Pre(s, e), at1, e.c, c);
  }

  /** rr_sched on `d` does not touch what runs on `c`, and only adds to its queue. */
  lemma SchedThere(m: State, at: seq<Place>, d: nat, c: nat)
    requires m.Cpu(c) && m.Cpu(d) && c != d && Located(Off(m, d), at) && Leaving(m, at, d)
    requires m.current[c].Some? ==> m.current[c].value < |m.threads|
    requires m.current[c].Some? && m.current[d].Some? ==>
               m.threads[m.current[c].value].sc != m.threads[m.current[d].value].sc
    ensures Untouched(m, Sched(m, d), c)
  {
    if Stays(m, d) {
      var at' := StayLocated(m, at, d);
    } else {
      var at' := ParkLocated(m, at, d);
      if m.current[d].Some? {
        ParkCalm(m, d, m.current[d].value);
      }
      DispatchEffect(Park(m, d), at', d);
    }
  }

  lemma PreLeft(s: State, e: Event, c: nat)
    requires Enabled(s, e) && Reschedules(s, e) && s.Cpu(c) && c != e.c
    requires s.current[c].Some? ==> s.current[c].value < |s.threads|
    requires s.current[c].Some? && s.current[e.c].Some? ==>
               s.threads[s.current[c].value].sc != s.threads[s.current[e.c].value].sc
    ensures Pre(s, e).Cpu(c) && Left(Pre(s, e), c) == Left(s, c)
    ensures |Pre(s, e).threads| == |s.threads|
            && forall t :: 0 <= t < |s.threads| ==> Pre(s, e).threads[t].sc == s.threads[t].sc
  {
  }

  // --------------------------------------------------------------------------- entries without rr_sched

  /** Signalling and starting a thread only append to a queue. */
  lemma EnqueueUntouched(s: State, d: nat, t: nat, c: nat)
    requires s.Cpu(c) && t < |s.threads|
    ensures Untouched(s, Enqueue(s, d, t), c)
  {
  }

  lemma SignalUntouched(s: State, d: nat, q: nat, c: nat)
    requires s.Cpu(c) && q < |s.sems|
    ensures Untouched(s, SignalSem(s, d, q), c)
  {
    var sem := s.sems[q];
    if sem.waitingCount != 0 && sem.waiting != [] && sem.waiting[0] < |s.threads| {
      var s' := s.(sems := s.sems[q := sem.(waiting := sem.waiting[1..], waitingCount := sem.waitingCount - 1)]);
      EnqueueUntouched(s', d, sem.waiting[0], c);
    }
  }

  /** A call on another CPU is not noticed; one on this CPU goes on with the same budget. */
  lemma CallNearer(s: State, at: seq<Place>, d: nat, k: nat, c: nat, x: nat)
    requires Located(s, at) && Enabled(s, Call(d, k)) && s.Cpu(c) && x in s.queues[c].list
    ensures Nearer(s, Step(s, Call(d, k)), c, x, 0)
  {
    var t, y := s.current[d].value, s.conns[k].target;
    Idling(s, at, y, k);
    RunningLoose(s, at, d, t);
    assert CpuOk(s, at, c);
    var s' := Step(s, Call(d, k));
    assert s'.queues == s.queues && s'.budgets == s.budgets;
    assert c != d ==> Untouched(s, s', c);
    if c != d {
      UntouchedNearer(s, s', c, x);
    }
  }

  /** A return gives the CPU to the caller, which has the same scheduling context. */
  lemma ReturnEffect(s: State, at: seq<Place>, d: nat, t: nat, k: nat)
    requires Located(s, at) && s.Runs(d, t) && s.threads[t].active == Some(k)
    ensures k < |s.conns| && s.conns[k].source < |s.threads|
    ensures var u, s' := s.conns[k].source, MigrateToClient(s, d, t);
            && s'.queues == s.queues && s'.current == s.current[d := Some(u)] && |s'.threads| == |s.threads|
            && (forall v :: 0 <= v < |s.threads| ==> s'.threads[v].sc == s.threads[v].sc)
               && s.threads[u].sc == s.threads[t].sc
            && s.threads[t].sc.Some? && s.threads[t].sc.value < |s.budgets|
            && s'.budgets == s.budgets[s.threads[t].sc.value := DEFAULT_BUDGET]
  {
    RunningLoose(s, at, d, t);
    assert ThreadOk(s, at[t], t);
    assert s.InFlight(k) && ConnOk(s, at, k);
  }

  /** A return on another CPU is not noticed; one on this CPU fills the budget up. */
  lemma ReturnNearer(s: State, at: seq<Place>, d: nat, c: nat, x: nat)
    requires Located(s, at) && Budgets(s) && Enabled(s, Return(d)) && s.Cpu(c) && x in s.queues[c].list
    ensures Nearer(s, Step(s, Return(d)), c, x, if c == d then 1 - DEFAULT_BUDGET else 0)
  {
    var t, s' := s.current[d].value, Step(s, Return(d));
    assert CpuOk(s, at, c);
    if s.threads[t].active.Some? {
      ReturnEffect(s, at, d, t, s.threads[t].active.value);
      if c != d {
        if s.current[c].Some? {
          ContextsApart(s, at, c, d);
        }
        UntouchedNearer(s, s', c, x);
      } else {
        LeftPositive(s, at, c);
      }
    }
  }

  // -------------------------------------------------------------------------------------- every entry

  /** How many ticks nearer an entry brings a thread waiting for `c`, or further if negative. */
  function Gain(e: Event, c: nat): int {
    if e == Timer(c) then 1 else if e == Return(c) then 1 - DEFAULT_BUDGET else 0
  }

  lemma HereNearer(s: State, at: seq<Place>, e: Event, x: nat)
    requires Located(s, at) && Budgets(s) && Enabled(s, e) && Reschedules(s, e) && s.Cpu(e.c) && x in s.queues[e.c].list
    ensures Nearer(s, Step(s, e), e.c, x, Gain(e, e.c))
  {
    var m, c := Pre(s, e), e.c;
    PreStep(s, e);
    PreBudgets(s, at, e);
    var at1 := PreLocated(s, at, e);
    PreHere(s, at, e);
    HereSched(s, m, at1, c, x, if e.Timer? then 1 else 0);
  }

  /** What the entry itself does to the budget of the thread that goes on. */
  lemma PreHere(s: State, at: seq<Place>, e: Event)
    requires Located(s, at) && Budgets(s) && Enabled(s, e) && Reschedules(s, e)
    ensures s.Cpu(e.c) && Pre(s, e).Cpu(e.c) && Left(s, e.c) >= 1
    ensures Stays(Pre(s, e), e.c) ==> Left(Pre(s, e), e.c) + (if e.Timer? then 1 else 0) <= Left(s, e.c)
  {
    if !e.Boot? {
      RunningLoose(s, at, e.c, s.current[e.c].value);
    }
  }

  lemma StepNearer(s: State, at: seq<Place>, e: Event, c: nat, x: nat)
    requires Located(s, at) && Budgets(s) && Enabled(s, e) && s.Cpu(c) && x in s.queues[c].list
    ensures Nearer(s, Step(s, e), c, x, Gain(e, c))
  {
    if Reschedules(s, e) {
      if e.c == c {
        HereNearer(s, at, e, x);
      } else {
        ThereSched(s, at, e, c);
        UntouchedNearer(s, Step(s, e), c, x);
      }
    } else {
      match e {
        case Call(d, k) => CallNearer(s, at, d, k, c, x);
        case Return(d) => ReturnNearer(s, at, d, c, x);
        case Start(d, t) =>
          EnqueueUntouched(s, d, t, c);
          UntouchedNearer(s, Step(s, e), c, x);
        case Signal(d, q) =>
          SignalUntouched(s, d, q, c);
          UntouchedNearer(s, Step(s, e), c, x);
        case Wait(d, q, block) => UntouchedNearer(s, Step(s, e), c, x);
        case SetAffinity(d, t, a) => UntouchedNearer(s, Step(s, e), c, x);
      }
    }
  }

  function Count(es: seq<Event>, e: Event): nat {
    if es == [] then 0 else (if es[0] == e then 1 else 0) + Count(es[1..], e)
  }

  /** Thread `x` gets CPU `c` at some point of the run. */
  predicate Served(s: State, es: seq<Event>, c: nat, x: nat)
    requires Legal(s, es)
    decreases |es|
  {
    s.Runs(c, x) || (es != [] && Served(Step(s, es[0]), es[1..], c, x))
  }

  lemma {:induction false} ServedInTime(s: State, es: seq<Event>, c: nat, x: nat)
    requires Inv(s) && Legal(s, es) && s.Cpu(c) && x in s.queues[c].list
    requires Count(es, Timer(c)) >= Ticks(s, c, x) + (DEFAULT_BUDGET - 1) * Count(es, Return(c))
    ensures Served(s, es, c, x)
    decreases |es|
  {
    var at :| Located(s, at);
    assert QueueOk(s, at, c) && CpuOk(s, at, c);
    if es == [] {
      LeftPositive(s, at, c);
    } else {
      var e, s' := es[0], Step(s, es[0]);
      StepNearer(s, at, e, c, x);
      StepInv(s, e);
      if s'.current[c] == Some(x) {
        var at' :| Located(s', at');
        assert CpuOk(s', at', c);
        assert Served(s', es[1..], c, x);
      } else {
        ServedInTime(s', es[1..], c, x);
      }
    }
  }

  lemma LeftPositive(s: State, at: seq<Place>, c: nat)
    requires Located(s, at) && Budgets(s) && s.Cpu(c)
    ensures 1 <= Left(s, c) <= DEFAULT_BUDGET
  {
    assert CpuOk(s, at, c);
    if s.current[c].Some? {
      RunningLoose(s, at, c, s.current[c].value);
    }
  }

  /** A thread with `k` threads ahead of it on CPU `c` is dispatched there within DEFAULT_BUDGET * (k + 1 + r)
      timer interrupts on `c`, where `r` is the number of IPC returns on `c`. */
  lemma RoundRobinBound(s0: State, before: seq<Event>, s: State, es: seq<Event>, c: nat, x: nat, k: nat)
    requires Initial(s0) && Legal(s0, before) && s == After(s0, before) && Legal(s, es)
    requires s.Cpu(c) && k < |s.queues[c].list| && s.queues[c].list[k] == x
    requires Count(es, Timer(c)) >= DEFAULT_BUDGET * (k + 1 + Count(es, Return(c)))
    ensures Served(s, es, c, x)
  {
    InitialInv(s0);
    RunInv(s0, before);
    var at :| Located(s, at);
    LeftPositive(s, at, c);
    PosAtMost(s.queues[c].list, k);
    ServedInTime(s, es, c, x);
  }

  lemma {:induction false} PosAtMost(list: seq<nat>, k: nat)
    requires k < |list|
    ensures Pos(list, list[k]) <= k
  {
    if k > 0 && list[0] != list[k] {
      PosAtMost(list[1..], k - 1);
    }
  }
}
