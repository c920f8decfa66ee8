/** Runs that the results about the scheduler speak of: from every start-up state user threads get to run, block and
    call servers, and every thread on a queue can be waited for. */
module SchedulerWitness {
  import opened Common
  import opened Scheduler
  import opened SchedulerPlaces
  import opened SchedulerSteps
  import opened SchedulerRuns
  import opened SchedulerWaiting

  // ------------------------------------------------------------------------- timer interrupts go on

  function Timers(c: nat, n: nat): seq<Event> {
    if n == 0 then [] else [Timer(c)] + Timers(c, n - 1)
  }

  lemma {:induction false} TimersCount(c: nat, n: nat)
    ensures Count(Timers(c, n), Timer(c)) == n && Count(Timers(c, n), Return(c)) == 0
  {
    if n > 0 {
      assert Timers(c, n)[1..] == Timers(c, n - 1);
      TimersCount(c, n - 1);
    }
  }

  /** A CPU that has begun to schedule always runs something. */
  lemma SchedRuns(s: State, at: seq<Place>, e: Event)
    requires Located(s, at) && Enabled(s, e) && Reschedules(s, e)
    ensures Step(s, e).Cpu(e.c) && Step(s, e).current[e.c].Some? && Step(s, e).current[e.c].value < |Step(s, e).threads|
  {
    PreStep(s, e);
    var m, c := Pre(s, e), e.c;
    var at1 := PreLocated(s, at, e);
    if Stays(m, c) {
      var at' := StayLocated(m, at1, c);
    } else {
      var at' := ParkLocated(m, at1, c);
      DispatchEffect(Park(m, c), at', c);
    }
  }

  ghost predicate Going(s: State, c: nat) {
    Inv(s) && s.Cpu(c) && s.current[c].Some?
  }

  /** Kernel entry `e` is possible and leads to `s'`. */
  predicate Leads(s: State, e: Event, s': State) {
    Enabled(s, e) && Step(s, e) == s'
  }

  lemma LegalCons(s: State, e: Event, s': State, es: seq<Event>)
    requires Leads(s, e, s') && Legal(s', es)
    ensures Legal(s, [e] + es)
  {
    assert ([e] + es)[1..] == es;
  }

  lemma TimerStep(s: State, c: nat, es: seq<Event>) returns (s': State)
    requires Going(s, c)
    ensures Going(s', c) && (Legal(s', es) ==> Legal(s, [Timer(c)] + es))
  {
    s' := s;
    var at :| Located(s, at);
    assert CpuOk(s, at, c);
    SchedRuns(s, at, Timer(c));
    StepInv(s, Timer(c));
    s' := Step(s, Timer(c));
    if Legal(s', es) {
      LegalCons(s, Timer(c), s', es);
    }
  }

  /** So any number of timer interrupts can follow. */
  lemma {:induction false} TimersLegal(s: State, c: nat, n: nat)
    requires Going(s, c)
    ensures Legal(s, Timers(c, n))
    decreases n
  {
    if n == 0 {
      assert Timers(c, n) == [];
    } else {
      var s' := TimerStep(s, c, Timers(c, n - 1));
      TimersLegal(s', c, n - 1);
    }
  }

  /** Whatever happened before: a thread on the queue of a CPU that schedules is dispatched there if only timer
      interrupts come. */
  lemma QueuedIsServable(s0: State, before: seq<Event>, s: State, c: nat, x: nat, k: nat) returns (es: seq<Event>)
    requires Initial(s0) && Legal(s0, before) && s == After(s0, before)
    requires s.Cpu(c) && s.current[c].Some? && k < |s.queues[c].list| && s.queues[c].list[k] == x
    ensures Legal(s, es) && Count(es, Timer(c)) >= DEFAULT_BUDGET * (k + 1 + Count(es, Return(c)))
            && Served(s, es, c, x)
  {
    es := Timers(c, DEFAULT_BUDGET * (k + 1));
    TimersCount(c, DEFAULT_BUDGET * (k + 1));
    InitialInv(s0);
    RunInv(s0, before);
    TimersLegal(s, c, DEFAULT_BUDGET * (k + 1));
    RoundRobinBound(s0, before, s, es, c, x, k);
  }

  // --------------------------------------------------------------------------------- from start-up

  lemma {:induction false} AfterConcat(s: State, es: seq<Event>, fs: seq<Event>)
    requires Legal(s, es) && Legal(After(s, es), fs)
    ensures Legal(s, es + fs) && After(s, es + fs) == After(After(s, es), fs)
    decreases |es|
  {
    if es == [] {
      assert es + fs == fs;
    } else {
      assert (es + fs)[0] == es[0] && (es + fs)[1..] == es[1..] + fs;
      AfterConcat(Step(s, es[0]), es[1..], fs);
    }
  }

  /** One entry more. */
  lemma Then(s0: State, es: seq<Event>, s: State, e: Event, s': State)
    requires Legal(s0, es) && s == After(s0, es) && Leads(s, e, s')
    ensures Legal(s0, es + [e]) && After(s0, es + [e]) == s'
  {
    assert [e][0] == e && [e][1..] == [];
    assert Legal(s', []) && After(s', []) == s';
    assert Legal(s, [e]) && After(s, [e]) == s';
    AfterConcat(s0, es, [e]);
  }

  lemma InTurn(s: State, e: Event, s1: State, f: Event, s2: State, g: Event, s3: State)
    requires Leads(s, e, s1) && Leads(s1, f, s2) && Leads(s2, g, s3)
    ensures Legal(s, [e] + [f] + [g]) && After(s, [e] + [f] + [g]) == s3
  {
    assert [] + [e] == [e];
    Then(s, [], s, e, s1);
    Then(s, [e], s1, f, s2);
    Then(s, [e] + [f], s2, g, s3);
  }

  /** Two user threads are enqueued on CPU `c` before anything runs, and the first scheduling dispatches the first. */
  ghost predicate Begun(s0: State, s: State, c: nat, t: nat, u: nat) {
    && s.Runs(c, t) && u < |s.threads| == |s0.threads| && u != t && s.queues[c] == Queue([u], 1)
    && s.threads[t].kind == Kind.User && s.threads[u].kind == Kind.User && s.threads[u].state == Ready
       && s.threads[u].cpuid == c
    && s.threads[u].affinity < |s.queues| && HomeCpu(s.threads[t], c) == c && s.threads[t].affinity < |s.queues|
    && s.sems == s0.sems && s.conns == s0.conns
    && (forall v: nat :: v < |s.threads| && v != t && v != u ==> s.threads[v] == s0.threads[v])
  }

  function Opening(c: nat, t: nat, u: nat): seq<Event> {
    [Start(c, t)] + [Start(c, u)] + [Boot(c)]
  }

  /** Thread `t` can be started on CPU `c`, where nothing runs yet. */
  predicate Startable(s: State, c: nat, t: nat) {
    && s.Cpu(c) && s.current[c].None? && t < |s.threads| && s.threads[t].state == Init && s.threads[t].kind == Kind.User
    && !s.threads[t].exiting && s.threads[t].affinity < |s.queues| && HomeCpu(s.threads[t], c) == c
  }

  function Started(s: State, c: nat, t: nat): State
    requires s.Cpu(c) && t < |s.threads|
  {
    s.Put(t, s.threads[t].(state := Ready, cpuid := c))
    .(queues := s.queues[c := Queue(s.queues[c].list + [t], s.queues[c].len + 1)])
  }

  lemma StartStep(s: State, c: nat, t: nat)
    requires Startable(s, c, t)
    ensures Leads(s, Start(c, t), Started(s, c, t))
  {
  }

  function Booted(s: State, c: nat, t: nat, u: nat): State
    requires s.Cpu(c) && t < |s.threads|
  {
    s.Put(t, s.threads[t].(state := Running)).(queues := s.queues[c := Queue([u], 1)],
                                               current := s.current[c := Some(t)])
  }

  lemma BootStep(s: State, c: nat, t: nat, u: nat)
    requires s.Cpu(c) && s.current[c].None? && t < |s.threads| && s.queues[c] == Queue([t, u], 2)
    requires s.threads[t].state == Ready && s.threads[t].kind == Kind.User && s.threads[t].cpuid == c
             && s.threads[t].affinity < |s.queues|
    ensures Leads(s, Boot(c), Booted(s, c, t, u))
  {
    assert Remove([t, u], t) == [u];
  }

  /** The states on the way. */
  lemma Starting(s0: State, c: nat, t: nat, u: nat)
    requires Initial(s0) && s0.Cpu(c) && t < |s0.threads| && u < |s0.threads| && t != u
    requires s0.threads[t].kind == Kind.User && s0.threads[u].kind == Kind.User
    requires HomeCpu(s0.threads[t], c) == c && HomeCpu(s0.threads[u], c) == c
    ensures Startable(s0, c, t) && Startable(Started(s0, c, t), c, u)
    ensures var s := Started(Started(s0, c, t), c, u);
            && s.Cpu(c) && s.current[c].None? && t < |s.threads| && s.queues[c] == Queue([t, u], 2)
            && s.threads[t].state == Ready && s.threads[t].kind == Kind.User && s.threads[t].cpuid == c
               && s.threads[t].affinity < |s.queues|
            && Begun(s0, Booted(s, c, t, u), c, t, u)
  {
    assert InitialThread(s0, t) && InitialThread(s0, u);
  }

  lemma Opens(s0: State, c: nat, t: nat, u: nat)
    requires Initial(s0) && s0.Cpu(c) && t < |s0.threads| && u < |s0.threads| && t != u
    requires s0.threads[t].kind == Kind.User && s0.threads[u].kind == Kind.User
    requires HomeCpu(s0.threads[t], c) == c && HomeCpu(s0.threads[u], c) == c
    ensures Legal(s0, Opening(c, t, u)) && Begun(s0, After(s0, Opening(c, t, u)), c, t, u)
  {
    Starting(s0, c, t, u);
    var s1 := Started(s0, c, t);
    var s2 := Started(s1, c, u);
    StartStep(s0, c, t);
    StartStep(s1, c, u);
    BootStep(s2, c, t, u);
    InTurn(s0, Start(c, t), s1, Start(c, u), s2, Boot(c), Booted(s2, c, t, u));
  }

  /** The second one then waits on a queue, and all that the bound on waiting asks for can be had. */
  lemma RootsQueue(s0: State, c: nat, t: nat, u: nat) returns (es: seq<Event>)
    requires Initial(s0) && s0.Cpu(c) && t < |s0.threads| && u < |s0.threads| && t != u
    requires s0.threads[t].kind == Kind.User && s0.threads[u].kind == Kind.User
    requires HomeCpu(s0.threads[t], c) == c && HomeCpu(s0.threads[u], c) == c
    ensures Legal(s0, Opening(c, t, u))
    ensures var s := After(s0, Opening(c, t, u));
            && s.Cpu(c) && s.queues[c].list == [u] && s.Runs(c, t) && Legal(s, es)
            && Count(es, Timer(c)) >= DEFAULT_BUDGET * (1 + Count(es, Return(c))) && Served(s, es, c, u)
  {
    Opens(s0, c, t, u);
    es := QueuedIsServable(s0, Opening(c, t, u), After(s0, Opening(c, t, u)), c, u, 0);
  }

  lemma BlockStep(s0: State, s: State, c: nat, t: nat, u: nat, q: nat)
    requires Begun(s0, s, c, t, u) && q < |s.sems| && s.sems[q] == Sem(0, [], 0)
    ensures Enabled(s, Wait(c, q, true))
    ensures var s1 := Step(s, Wait(c, q, true));
            && s1.Runs(c, u) && s1.threads[u].kind == Kind.User && s1.sems == s.sems[q := Sem(0, [t], 1)]
            && |s1.threads| == |s.threads| && s1.threads[t] == s.threads[t].(state := Waiting)
               && s1.queues == s.queues[c := Queue([], 0)]
  {
    var m := BlockOn(s, t, q);
    assert Remove([u], u) == [];
    assert [] + [t] == [t];
    assert !Stays(m, c) && Park(m, c) == m;
    assert Chosen(m, c) == u && ChooseThread(m, c).queues == s.queues[c := Queue([], 0)];
  }

  lemma WakeStep(s: State, c: nat, t: nat, q: nat)
    requires UserRuns(s, c) && q < |s.sems| && s.sems[q] == Sem(0, [t], 1) && t < |s.threads|
             && HomeCpu(s.threads[t], c) == c
    requires s.threads[t].state == Waiting && s.threads[t].kind == Kind.User && s.threads[t].affinity < |s.queues|
    ensures Enabled(s, Signal(c, q))
    ensures var s1 := Step(s, Signal(c, q));
            s1.sems == s.sems[q := Sem(0, [], 0)] && s1.Cpu(c) && t in s1.queues[c].list
  {
    assert [t][1..] == [];
    var list := s.queues[c].list;
    assert (list + [t])[|list|] == t;
  }

  /** The first one can block on any semaphore, and the second one then wakes it. */
  lemma RootBlocks(s0: State, c: nat, t: nat, u: nat, q: nat)
    requires Initial(s0) && s0.Cpu(c) && t < |s0.threads| && u < |s0.threads| && t != u && q < |s0.sems|
    requires s0.threads[t].kind == Kind.User && s0.threads[u].kind == Kind.User
    requires HomeCpu(s0.threads[t], c) == c && HomeCpu(s0.threads[u], c) == c
    ensures var es := Opening(c, t, u) + [Wait(c, q, true)];
            && Legal(s0, es) && OnSemList(After(s0, es), q, t) && After(s0, es).Runs(c, u)
            && Legal(s0, es + [Signal(c, q)])
            && var s := After(s0, es + [Signal(c, q)]); !OnSemList(s, q, t) && s.Cpu(c) && t in s.queues[c].list
  {
    var es := Opening(c, t, u);
    Opens(s0, c, t, u);
    var s := After(s0, es);
    BlockStep(s0, s, c, t, u, q);
    var s1 := Step(s, Wait(c, q, true));
    Then(s0, es, s, Wait(c, q, true), s1);
    WakeStep(s1, c, t, q);
    Then(s0, es + [Wait(c, q, true)], s1, Signal(c, q), Step(s1, Signal(c, q)));
  }

  /** It can call any server. */
  lemma RootCalls(s0: State, c: nat, t: nat, u: nat, k: nat)
    requires Initial(s0) && s0.Cpu(c) && t < |s0.threads| && u < |s0.threads| && t != u && k < |s0.conns|
    requires s0.threads[t].kind == Kind.User && s0.threads[u].kind == Kind.User
    requires HomeCpu(s0.threads[t], c) == c && HomeCpu(s0.threads[u], c) == c
    ensures var es := Opening(c, t, u) + [Call(c, k)];
            Legal(s0, es) && Calls(After(s0, es), k, t) && After(s0, es).Runs(c, s0.conns[k].target)
  {
    var es := Opening(c, t, u);
    Opens(s0, c, t, u);
    var s := After(s0, es);
    assert InitialThread(s0, s0.conns[k].target);
    assert !s.InFlight(k);
    Then(s0, es, s, Call(c, k), Step(s, Call(c, k)));
  }

  /** A start-up state to which all of this applies: one CPU, two user threads, a server thread, a semaphore and a
      connection. */
  const SAMPLE: State :=
    State([Thread(Init, false, Kind.Idle, 0, 0, Some(0), None),
           Thread(Init, false, Kind.User, NO_AFF, 0, Some(1), None),
           Thread(Init, false, Kind.User, NO_AFF, 0, Some(2), None),
           Thread(Init, false, Kind.Shadow, NO_AFF, 0, None, None)],
          [Queue([], 0)], [None], [DEFAULT_BUDGET, DEFAULT_BUDGET, DEFAULT_BUDGET], [Sem(0, [], 0)], [Conn(3, 0)])

  lemma SampleInitial()
    ensures Initial(SAMPLE) && SAMPLE.Cpu(0) && |SAMPLE.threads| == 4 && |SAMPLE.sems| == |SAMPLE.conns| == 1
    ensures SAMPLE.threads[1].kind == SAMPLE.threads[2].kind == Kind.User
    ensures HomeCpu(SAMPLE.threads[1], 0) == HomeCpu(SAMPLE.threads[2], 0) == 0
  {
  }
}
