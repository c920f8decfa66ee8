/** Every kernel entry keeps each thread in exactly one place. */
module SchedulerSteps {
  import opened Common
  import opened Scheduler
  import opened SchedulerPlaces

  // ------------------------------------------------------------------------------------- semaphores

  lemma CountLocated(s: State, at: seq<Place>, q: nat, n: nat)
    requires Located(s, at) && q < |s.sems| && s.sems[q].waiting == []
    ensures Located(s.(sems := s.sems[q := s.sems[q].(count := n)]), at)
  {
    var s' := s.(sems := s.sems[q := s.sems[q].(count := n)]);
    assert SemOk(s, at, q);
    SameButSems(s, s', at);
    forall p: nat | p < |s.sems|
      ensures SemOk(s', at, p)
    {
      assert SemOk(s, at, p);
    }
  }

  lemma SameButSems(s: State, s': State, at: seq<Place>)
    requires Located(s, at) && s' == s.(sems := s'.sems) && |s'.sems| == |s.sems|
    ensures forall t: nat :: t < |at| ==> ThreadOk(s', at[t], t)
    ensures forall c: nat :: c < |s.queues| ==> QueueOk(s', at, c)
    ensures forall c: nat :: c < |s.queues| ==> CpuOk(s', at, c)
    ensures forall k: nat :: k < |s.conns| ==> ConnOk(s', at, k)
    ensures TargetsDiffer(s') && ContextsDiffer(s', at)
  {
    forall t: nat | t < |at|
      ensures ThreadOk(s', at[t], t)
    {
      assert ThreadOk(s, at[t], t);
    }
    forall c: nat | c < |s.queues|
      ensures QueueOk(s', at, c) && CpuOk(s', at, c)
    {
      assert QueueOk(s, at, c) && CpuOk(s, at, c);
    }
    forall k: nat | k < |s.conns|
      ensures ConnOk(s', at, k)
    {
      assert ConnOk(s, at, k);
      assert s'.InFlight(k) == s.InFlight(k);
    }
    forall t: nat, u: nat | t < u < |at| && Live(s', at, t) && Live(s', at, u)
      ensures s'.threads[t].sc != s'.threads[u].sc
    {
      assert Live(s, at, t) && Live(s, at, u);
    }
  }

  lemma BlockLocated(s: State, at: seq<Place>, t: nat, q: nat)
    requires Located(s, at) && Loose(s, at, t) && q < |s.sems| && s.sems[q].count == 0
    ensures Located(BlockOn(s, t, q), at[t := OnSem(q)])
  {
    var s', at' := BlockOn(s, t, q), at[t := OnSem(q)];
    assert ThreadOk(s, at[t], t) && SemOk(s, at, q);
    Appended(s.sems[q].waiting, t);
    assert SemOk(s', at', q);
    Moved(s, s', at, at', t);
  }

  lemma WakeLocated(s: State, at: seq<Place>, c: nat, q: nat) returns (at': seq<Place>)
    requires Located(s, at) && s.Cpu(c) && q < |s.sems| && s.sems[q].waiting != []
    ensures var t := s.sems[q].waiting[0];
            t < |at| && at[t] == OnSem(q) && at' == at[t := Queued(HomeCpu(s.threads[t], c))]
    ensures Located(SignalSem(s, c, q), at')
  {
    var t := s.sems[q].waiting[0];
    assert SemOk(s, at, q);
    assert t in s.sems[q].waiting;
    assert ThreadOk(s, at[t], t);
    RemovedFirst(s.sems[q].waiting);
    var s', d := SignalSem(s, c, q), HomeCpu(s.threads[t], c);
    at' := at[t := Queued(d)];
    assert QueueOk(s, at, d);
    Appended(s.queues[d].list, t);
    assert SemOk(s', at', q) && QueueOk(s', at', d);
    Moved(s, s', at, at', t);
  }

  // -------------------------------------------------------------------------------------- migration

  /** The caller waits on connection `k`, and its server thread holds the scheduling context. */
  function Link(s: State, t: nat, x: nat, k: nat): State
    requires t < |s.threads| && x < |s.threads| && k < |s.conns|
  {
    s.(conns := s.conns[k := Conn(x, t)],
       threads := s.threads[t := s.threads[t].(state := Waiting)]
                           [x := s.threads[x].(active := Some(k), sc := s.threads[t].sc)])
  }

  lemma LinkLocated(s: State, at: seq<Place>, t: nat, x: nat, k: nat)
    requires Located(s, at) && Loose(s, at, t) && k < |s.conns| && x == s.conns[k].target && x < |at| && !s.InFlight(k)
    ensures x != t && at[x] == Nowhere && !s.threads[x].exiting && s.threads[x].kind == Shadow
    ensures Located(Link(s, t, x, k), at[t := OnCall(k)])
  {
    var s', at' := Link(s, t, x, k), at[t := OnCall(k)];
    Idling(s, at, x, k);
    Linked(s, at, t, x, k);
    forall c: nat | c < |s.queues|
      ensures QueueOk(s', at', c)
    {
      assert QueueOk(s, at, c);
    }
    forall c: nat | c < |s.queues|
      ensures CpuOk(s', at', c)
    {
      assert CpuOk(s, at, c);
    }
    forall q: nat | q < |s.sems|
      ensures SemOk(s', at', q)
    {
      assert SemOk(s, at, q);
    }
  }

  /** The server thread of a connection that is not in flight is nowhere. */
  lemma Idling(s: State, at: seq<Place>, x: nat, k: nat)
    requires Located(s, at) && k < |s.conns| && x == s.conns[k].target && !s.InFlight(k)
    ensures x < |at| && at[x] == Nowhere && s.threads[x].kind == Shadow && s.threads[x].active.None?
            && !s.threads[x].exiting
  {
    assert ConnOk(s, at, k);
    assert ThreadOk(s, at[x], x);
  }

  lemma Linked(s: State, at: seq<Place>, t: nat, x: nat, k: nat)
    requires Located(s, at) && Loose(s, at, t) && k < |s.conns| && x == s.conns[k].target && x < |at| && x != t
    requires at[x] == Nowhere && s.threads[x].kind == Shadow && s.threads[x].active.None? && !s.threads[x].exiting
    ensures var s', at' := Link(s, t, x, k), at[t := OnCall(k)];
            && (forall u: nat :: u < |at'| ==> ThreadOk(s', at'[u], u))
            && (forall l: nat :: l < |s'.conns| ==> ConnOk(s', at', l))
            && TargetsDiffer(s') && ContextsDiffer(s', at')
  {
    var s', at' := Link(s, t, x, k), at[t := OnCall(k)];
    assert ThreadOk(s, at[t], t) && ThreadOk(s, at[x], x) && ConnOk(s, at, k);
    forall u: nat | u < |at'|
      ensures ThreadOk(s', at'[u], u)
    {
      assert ThreadOk(s, at[u], u);
    }
    forall l: nat | l < |s'.conns|
      ensures ConnOk(s', at', l)
    {
      assert ConnOk(s, at, l);
      assert l != k ==> s'.InFlight(l) == s.InFlight(l) && s'.conns[l] == s.conns[l];
    }
    forall u: nat, v: nat | u < v < |at'| && Live(s', at', u) && Live(s', at', v)
      ensures s'.threads[u].sc != s'.threads[v].sc
    {
      assert u != t && v != t && Live(s, at, t);
      assert u != x ==> Live(s, at, u);
      assert v != x ==> Live(s, at, v);
    }
  }

  /** The caller of connection `k` is taken off it, and the server thread has nothing to do. */
  function Unlink(s: State, t: nat, u: nat): State
    requires t < |s.threads| && u < |s.threads|
  {
    s.(threads := s.threads[u := s.threads[u].(state := Running)][t := s.threads[t].(active := None)])
  }

  lemma UnlinkLocated(s: State, at: seq<Place>, t: nat, k: nat, u: nat)
    requires Located(s, at) && Loose(s, at, t) && s.threads[t].active == Some(k) && k < |s.conns|
             && u == s.conns[k].source
    ensures u < |at| && u != t && at[u] == OnCall(k) && !s.threads[u].exiting && s.threads[u].kind != Kind.Idle
    ensures s.threads[u].kind == Shadow ==> s.threads[u].active.Some?
    ensures Located(Unlink(s, t, u), at[u := Nowhere])
  {
    assert ThreadOk(s, at[t], t) && ConnOk(s, at, k) && s.InFlight(k);
    assert ThreadOk(s, at[u], u);
    var s', at' := Unlink(s, t, u), at[u := Nowhere];
    Unlinked(s, at, t, k, u);
    forall c: nat | c < |s.queues|
      ensures QueueOk(s', at', c)
    {
      assert QueueOk(s, at, c);
    }
    forall c: nat | c < |s.queues|
      ensures CpuOk(s', at', c)
    {
      assert CpuOk(s, at, c);
    }
    forall q: nat | q < |s.sems|
      ensures SemOk(s', at', q)
    {
      assert SemOk(s, at, q);
    }
  }

  lemma Unlinked(s: State, at: seq<Place>, t: nat, k: nat, u: nat)
    requires Located(s, at) && Loose(s, at, t) && s.threads[t].active == Some(k) && s.InFlight(k)
             && t == s.conns[k].target
    requires u == s.conns[k].source && u < |at| && u != t && at[u] == OnCall(k)
    ensures var s', at' := Unlink(s, t, u), at[u := Nowhere];
            && (forall v: nat :: v < |at'| ==> ThreadOk(s', at'[v], v))
            && (forall l: nat :: l < |s'.conns| ==> ConnOk(s', at', l))
            && TargetsDiffer(s') && ContextsDiffer(s', at')
  {
    var s', at' := Unlink(s, t, u), at[u := Nowhere];
    assert ThreadOk(s, at[t], t) && ThreadOk(s, at[u], u) && ConnOk(s, at, k);
    forall v: nat | v < |at'|
      ensures ThreadOk(s', at'[v], v)
    {
      assert ThreadOk(s, at[v], v);
    }
    forall l: nat | l < |s'.conns|
      ensures ConnOk(s', at', l)
    {
      assert ConnOk(s, at, l);
      assert l != k ==> s'.InFlight(l) == s.InFlight(l);
    }
    forall v: nat, w: nat | v < w < |at'| && Live(s', at', v) && Live(s', at', w)
      ensures s'.threads[v].sc != s'.threads[w].sc
    {
      assert v != t && w != t && Live(s, at, t);
      assert v != u ==> Live(s, at, v);
      assert w != u ==> Live(s, at, w);
    }
  }

  // ------------------------------------------------------------------------------- each kernel entry

  /** A current thread that is taken off its CPU. */
  lemma RunningLoose(s: State, at: seq<Place>, c: nat, t: nat)
    requires Located(s, at) && s.Runs(c, t)
    ensures Located(Off(s, c), at[t := Nowhere]) && at[t] == OnCpu(c)
    ensures s.threads[t].state == Running && s.threads[t].cpuid == c && !s.threads[t].exiting
    ensures (s.threads[t].kind == Kind.Idle ==> t == c) && (s.threads[t].kind == Shadow ==> s.threads[t].active.Some?)
    ensures s.threads[t].sc.Some? && s.threads[t].sc.value < |s.budgets|
  {
    OffLocated(s, at, c, t);
    assert ThreadOk(s, at[t], t);
  }

  /** The entries that end in rr_sched, and the state in which they call it. */
  predicate Reschedules(s: State, e: Event)
    requires Enabled(s, e)
  {
    e.Boot? || e.Timer? || e.Irq? || e.Yield? || e.Leave? || (e.Wait? && e.block && s.sems[e.q].count == 0)
  }

  function Pre(s: State, e: Event): State
    requires Enabled(s, e) && Reschedules(s, e)
  {
    match e {
      case Boot(c) => s
      case Irq(c) => s
      case Timer(c) => TimerIrq(s, s.current[c].value)
      case Yield(c) => SetBudget(s, s.current[c].value, 0)
      case Wait(c, q, block) => BlockOn(s, s.current[c].value, q)
      case Leave(c) => s.Put(s.current[c].value, s.threads[s.current[c].value].(exiting := true))
    }
  }

  lemma PreStep(s: State, e: Event)
    requires Enabled(s, e) && Reschedules(s, e)
    ensures Pre(s, e).Cpu(e.c) && Step(s, e) == Sched(Pre(s, e), e.c)
    ensures Pre(s, e).queues == s.queues && Pre(s, e).current == s.current
  {
  }

  /** Where rr_sched finds the threads. */
  lemma PreLocated(s: State, at: seq<Place>, e: Event) returns (at': seq<Place>)
    requires Located(s, at) && Enabled(s, e) && Reschedules(s, e)
    ensures Pre(s, e).Cpu(e.c) && Located(Off(Pre(s, e), e.c), at') && Leaving(Pre(s, e), at', e.c)
  {
    var m, c := Pre(s, e), e.c;
    if e.Boot? {
      assert s.current[c := None] == s.current;
      at' := at;
    } else {
      var t, o := s.current[c].value, Off(s, c);
      RunningLoose(s, at, c, t);
      at' := at[t := Nowhere];
      if e.Wait? {
        BlockLocated(o, at', t, e.q);
        assert BlockOn(o, t, e.q) == Off(m, c);
        at' := at'[t := OnSem(e.q)];
      } else if e.Leave? {
        assert ThreadOk(o, at'[t], t);
        Moved(o, Off(m, c), at', at', t);
      } else {
        BudgetsLocated(o, at', m.budgets);
        assert Off(m, c) == o.(budgets := m.budgets);
      }
    }
  }

  lemma CallLocated(s: State, at: seq<Place>, c: nat, t: nat, k: nat) returns (at': seq<Place>)
    requires Located(s, at) && s.Runs(c, t) && s.threads[t].kind != Kind.Idle && k < |s.conns|
             && s.conns[k].target < |at| && !s.InFlight(k)
    ensures s.conns[k].target != t && at' == at[t := OnCall(k)][s.conns[k].target := OnCpu(c)]
    ensures Located(MigrateToServer(s, c, t, k), at')
  {
    var x := s.conns[k].target;
    RunningLoose(s, at, c, t);
    var o, at1 := Off(s, c), at[t := Nowhere];
    LinkLocated(o, at1, t, x, k);
    var l, at2 := Link(o, t, x, k), at1[t := OnCall(k)];
    var u := l.threads[x].(state := Running, cpuid := c);
    OnLocated(l, at2, c, x, u);
    at' := at2[x := OnCpu(c)];
    assert MigrateToServer(s, c, t, k).threads == l.threads[x := u];
    assert l.current[c := Some(x)] == s.current[c := Some(x)];
  }

  lemma ReturnLocated(s: State, at: seq<Place>, c: nat, t: nat, k: nat) returns (at': seq<Place>)
    requires Located(s, at) && s.Runs(c, t) && s.threads[t].active == Some(k)
    ensures k < |s.conns| && s.conns[k].source < |at| && s.conns[k].source != t && at[s.conns[k].source] == OnCall(k)
    ensures at' == at[t := Nowhere][s.conns[k].source := OnCpu(c)]
    ensures Located(MigrateToClient(s, c, t), at')
            && BudgetOf(MigrateToClient(s, c, t), s.conns[k].source) == DEFAULT_BUDGET
  {
    RunningLoose(s, at, c, t);
    assert ThreadOk(s, at[t], t);
    var o, at1, u := Off(s, c), at[t := Nowhere], s.conns[k].source;
    UnlinkLocated(o, at1, t, k, u);
    var l, at2 := Unlink(o, t, u), at1[u := Nowhere];
    var v := l.threads[u].(state := Running, cpuid := c);
    OnLocated(l, at2, c, u, v);
    at' := at2[u := OnCpu(c)];
    var s' := MigrateToClient(s, c, t);
    var m := l.(threads := l.threads[u := v], current := l.current[c := Some(u)]);
    BudgetsLocated(m, at', s'.budgets);
    assert s'.threads == m.threads;
    assert m.current == s.current[c := Some(u)];
  }

  lemma AffinityLocated(s: State, at: seq<Place>, t: nat, a: int)
    requires Located(s, at) && t < |at| && s.threads[t].kind != Kind.Idle && NO_AFF <= a < |s.queues|
    ensures Located(s.Put(t, s.threads[t].(affinity := a)), at)
  {
    var s' := s.Put(t, s.threads[t].(affinity := a));
    forall u: nat | u < |at|
      ensures ThreadOk(s', at[u], u)
    {
      assert ThreadOk(s, at[u], u);
    }
    forall c: nat | c < |s.queues|
      ensures QueueOk(s', at, c) && CpuOk(s', at, c)
    {
      assert QueueOk(s, at, c) && CpuOk(s, at, c);
    }
    forall q: nat | q < |s.sems|
      ensures SemOk(s', at, q)
    {
      assert SemOk(s, at, q);
    }
    forall k: nat | k < |s.conns|
      ensures ConnOk(s', at, k)
    {
      assert ConnOk(s, at, k);
      assert s'.InFlight(k) == s.InFlight(k);
    }
    forall u: nat, v: nat | u < v < |at| && Live(s', at, u) && Live(s', at, v)
      ensures s'.threads[u].sc != s'.threads[v].sc
    {
      assert Live(s, at, u) && Live(s, at, v);
    }
  }

  /** Every kernel entry leaves every thread in exactly one place. */
  lemma StepLocated(s: State, at: seq<Place>, e: Event) returns (at': seq<Place>)
    requires Located(s, at) && Enabled(s, e)
    ensures Located(Step(s, e), at')
  {
    if Reschedules(s, e) {
      var at1 := PreLocated(s, at, e);
      at' := SchedLocated(Pre(s, e), at1, e.c);
      PreStep(s, e);
    } else {
      at' := OtherLocated(s, at, e);
    }
  }

  lemma OtherLocated(s: State, at: seq<Place>, e: Event) returns (at': seq<Place>)
    requires Located(s, at) && Enabled(s, e) && !Reschedules(s, e)
    ensures Located(Step(s, e), at')
  {
    at' := at;
    match e {
      case Start(c, t) =>
        assert ThreadOk(s, at[t], t);
        EnqueueLocated(s, at, c, t);
        at' := at[t := Queued(HomeCpu(s.threads[t], c))];
      case Wait(c, q, block) =>
        assert SemOk(s, at, q);
        if s.sems[q].count > 0 {
          CountLocated(s, at, q, s.sems[q].count - 1);
        }
      case Signal(c, q) =>
        assert SemOk(s, at, q);
        if s.sems[q].waiting == [] {
          CountLocated(s, at, q, s.sems[q].count + 1);
        } else {
          at' := WakeLocated(s, at, c, q);
        }
      case Call(c, k) => at' := CallLocated(s, at, c, s.current[c].value, k);
      case Return(c) =>
        var t := s.current[c].value;
        assert CpuOk(s, at, c) && ThreadOk(s, at[t], t);
        if s.threads[t].active.Some? {
          at' := ReturnLocated(s, at, c, t, s.threads[t].active.value);
        }
      case SetAffinity(c, t, a) => AffinityLocated(s, at, t, a);
    }
  }
}
