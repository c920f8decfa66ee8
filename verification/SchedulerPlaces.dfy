/** Every thread is in exactly one place, and the queues, the current threads, the semaphores and the
    connections agree on which. */
module SchedulerPlaces {
  import opened Common
  import opened Scheduler

  datatype Place = Nowhere | Queued(c: nat) | OnCpu(c: nat) | OnSem(q: nat) | OnCall(k: nat)

  /** The thread's own record fits its place. */
  predicate ThreadOk(s: State, p: Place, t: nat)
    requires t < |s.threads|
  {
    var u := s.threads[t];
    && (u.kind == Kind.Idle <==> t < |s.queues|) && NO_AFF <= u.affinity < |s.queues|
       && (u.kind == Kind.Idle ==> u.affinity == t)
    && (match p
        case Nowhere => u.state == Init || u.state == Running
        case Queued(c) => u.state == Ready && c < |s.queues| && u.cpuid == c && u.kind != Kind.Idle
        case OnCpu(c) => u.state == Running && c < |s.queues| && u.cpuid == c && (u.kind == Kind.Idle ==> t == c)
        case OnSem(q) => u.state == Waiting && q < |s.sems| && u.kind != Kind.Idle
        case OnCall(k) => u.state == Waiting && k < |s.conns| && u.kind != Kind.Idle)
    && (u.exiting ==> p == Nowhere && u.state == Running && u.kind != Kind.Idle)
    && (u.kind == Shadow && u.active.None? ==> p == Nowhere && !u.exiting)
    && (u.active.Some? ==> u.kind == Shadow && u.active.value < |s.conns| && s.conns[u.active.value].target == t)
    && ((u.kind == Shadow ==> u.active.Some?) ==> u.sc.Some? && u.sc.value < |s.budgets|)
  }

  ghost predicate QueueOk(s: State, at: seq<Place>, c: nat)
    requires c < |s.queues|
  {
    && s.queues[c].len == |s.queues[c].list| && NoDup(s.queues[c].list)
    && forall t: nat :: t in s.queues[c].list <==> t < |at| && at[t] == Queued(c)
  }

  ghost predicate CpuOk(s: State, at: seq<Place>, c: nat)
    requires c < |s.current|
  {
    && (s.current[c].Some? ==> s.current[c].value < |at| && at[s.current[c].value] == OnCpu(c))
    && forall t: nat :: t < |at| && at[t] == OnCpu(c) ==> s.current[c] == Some(t)
  }

  ghost predicate SemOk(s: State, at: seq<Place>, q: nat)
    requires q < |s.sems|
  {
    && s.sems[q].waitingCount == |s.sems[q].waiting| && NoDup(s.sems[q].waiting)
    && (s.sems[q].count > 0 ==> s.sems[q].waiting == [])
    && forall t: nat :: t in s.sems[q].waiting <==> t < |at| && at[t] == OnSem(q)
  }

  ghost predicate ConnOk(s: State, at: seq<Place>, k: nat)
    requires k < |s.conns|
  {
    var n := s.conns[k];
    && n.target < |s.threads| && s.threads[n.target].kind == Shadow
    && (s.InFlight(k) ==>
          n.source < |s.threads| && n.source < |at| && at[n.source] == OnCall(k)
          && s.threads[n.source].sc == s.threads[n.target].sc)
    && (forall t: nat :: t < |at| && at[t] == OnCall(k) ==> s.InFlight(k) && n.source == t)
  }

  /** Thread `t` runs, or will run, on its scheduling context. */
  predicate Live(s: State, at: seq<Place>, t: nat)
    requires |at| == |s.threads| && t < |s.threads|
  {
    !s.threads[t].exiting && !at[t].OnCall? && (s.threads[t].kind == Shadow ==> s.threads[t].active.Some?)
  }

  ghost predicate ContextsDiffer(s: State, at: seq<Place>)
    requires |at| == |s.threads|
  {
    forall t: nat, u: nat :: t < u < |at| && Live(s, at, t) && Live(s, at, u) ==> s.threads[t].sc != s.threads[u].sc
  }

  ghost predicate TargetsDiffer(s: State) {
    forall k: nat, l: nat :: k < l < |s.conns| ==> s.conns[k].target != s.conns[l].target
  }

  ghost predicate Located(s: State, at: seq<Place>) {
    && |s.current| == |s.queues| <= |s.threads| == |at|
    && (forall t: nat :: t < |at| ==> ThreadOk(s, at[t], t))
    && (forall c: nat :: c < |s.queues| ==> QueueOk(s, at, c))
    && (forall c: nat :: c < |s.queues| ==> CpuOk(s, at, c))
    && (forall q: nat :: q < |s.sems| ==> SemOk(s, at, q))
    && (forall k: nat :: k < |s.conns| ==> ConnOk(s, at, k))
    && TargetsDiffer(s) && ContextsDiffer(s, at)
  }

  // ----------------------------------------------------------------------------- moving one thread

  /** Only thread `t` changes its record and its place. */
  ghost predicate Moves(s: State, s': State, at: seq<Place>, at': seq<Place>, t: nat) {
    && |at| == |s.threads| && t < |at| && |s'.threads| == |s.threads| && |at'| == |at|
    && |s'.queues| == |s.queues| && |s'.current| == |s.current| && |s'.budgets| == |s.budgets| && |s'.sems| == |s.sems|
    && s'.conns == s.conns
    && (forall u :: 0 <= u < |at| && u != t ==> s'.threads[u] == s.threads[u] && at'[u] == at[u])
    && (forall c :: 0 <= c < |s.queues| && at[t] != Queued(c) && at'[t] != Queued(c) ==> s'.queues[c] == s.queues[c])
    && (forall c :: 0 <= c < |s.current| && at[t] != OnCpu(c) && at'[t] != OnCpu(c) ==> s'.current[c] == s.current[c])
    && (forall q :: 0 <= q < |s.sems| && at[t] != OnSem(q) && at'[t] != OnSem(q) ==> s'.sems[q] == s.sems[q])
    && !at[t].OnCall? && !at'[t].OnCall?
    && s'.threads[t].active == s.threads[t].active && s'.threads[t].kind == s.threads[t].kind
       && s'.threads[t].sc == s.threads[t].sc
  }

  /** What the structures that `t` leaves and enters have to satisfy for everything to agree again. */
  lemma Moved(s: State, s': State, at: seq<Place>, at': seq<Place>, t: nat)
    requires Located(s, at) && Moves(s, s', at, at', t) && ThreadOk(s', at'[t], t)
    requires s.threads[t].exiting ==> s'.threads[t].exiting
    requires forall c: nat :: c < |s.queues| && (at[t] == Queued(c) || at'[t] == Queued(c)) ==> QueueOk(s', at', c)
    requires forall c: nat :: c < |s.queues| && (at[t] == OnCpu(c) || at'[t] == OnCpu(c)) ==> CpuOk(s', at', c)
    requires forall q: nat :: q < |s.sems| && (at[t] == OnSem(q) || at'[t] == OnSem(q)) ==> SemOk(s', at', q)
    ensures Located(s', at')
  {
    forall u: nat | u < |at'|
      ensures ThreadOk(s', at'[u], u)
    {
      assert u != t ==> ThreadOk(s, at[u], u);
    }
    forall c: nat | c < |s.queues|
      ensures QueueOk(s', at', c)
    {
      assert QueueOk(s, at, c);
    }
    forall c: nat | c < |s.queues|
      ensures CpuOk(s', at', c)
    {
      assert CpuOk(s, at, c);
    }
    forall q: nat | q < |s.sems|
      ensures SemOk(s', at', q)
    {
      assert SemOk(s, at, q);
    }
    MovedRest(s, s', at, at', t);
  }

  lemma MovedRest(s: State, s': State, at: seq<Place>, at': seq<Place>, t: nat)
    requires Located(s, at) && Moves(s, s', at, at', t)
    requires s.threads[t].exiting ==> s'.threads[t].exiting
    ensures forall k: nat :: k < |s'.conns| ==> ConnOk(s', at', k)
    ensures TargetsDiffer(s') && ContextsDiffer(s', at')
  {
    forall k: nat | k < |s'.conns|
      ensures ConnOk(s', at', k)
    {
      assert ConnOk(s, at, k);
      assert s'.InFlight(k) == s.InFlight(k);
    }
    forall u: nat, v: nat | u < v < |at'| && Live(s', at', u) && Live(s', at', v)
      ensures s'.threads[u].sc != s'.threads[v].sc
    {
      assert Live(s, at, u) && Live(s, at, v);
    }
  }

  // ------------------------------------------------------------------------------- the policy's parts

  lemma Appended(list: seq<nat>, t: nat)
    requires NoDup(list) && t !in list
    ensures NoDup(list + [t]) && forall u :: u in list + [t] <==> u in list || u == t
  {
  }

  lemma RemovedFirst(list: seq<nat>)
    requires NoDup(list) && list != []
    ensures Remove(list, list[0]) == list[1..] && NoDup(list[1..]) && forall u ::
              u in list[1..] <==> u in list && u != list[0]
  {
    assert forall u :: u in list <==> u == list[0] || u in list[1..];
  }

  /** A thread that has no place yet, and may get one. */
  predicate Loose(s: State, at: seq<Place>, t: nat) {
    |at| == |s.threads| && t < |at| && at[t] == Nowhere && !s.threads[t].exiting && s.threads[t].kind != Kind.Idle
    && (s.threads[t].kind == Shadow ==> s.threads[t].active.Some?)
  }

  lemma EnqueueLocated(s: State, at: seq<Place>, c: nat, t: nat)
    requires Located(s, at) && Loose(s, at, t) && c < |s.queues|
    ensures HomeCpu(s.threads[t], c) < |s.queues| && Enqueues(s, t)
    ensures Located(Enqueue(s, c, t), at[t := Queued(HomeCpu(s.threads[t], c))])
  {
    assert ThreadOk(s, at[t], t);
    var d := HomeCpu(s.threads[t], c);
    var s', at' := Enqueue(s, c, t), at[t := Queued(d)];
    assert QueueOk(s, at, d);
    Appended(s.queues[d].list, t);
    assert QueueOk(s', at', d);
    Moved(s, s', at, at', t);
  }

  /** CPU `c` has no current thread. */
  function Off(s: State, c: nat): State
    requires s.Cpu(c)
  {
    s.(current := s.current[c := None])
  }

  /** The dispatched thread gets the CPU. */
  lemma DispatchLocated(s: State, at: seq<Place>, c: nat)
    requires Located(s, at) && s.Cpu(c) && s.current[c].None?
    ensures Chosen(s, c) < |s.threads|
    ensures Located(Dispatch(s, c), at[Chosen(s, c) := OnCpu(c)]) && Dispatch(s, c).current[c] == Some(Chosen(s, c))
  {
    var t := Chosen(s, c);
    assert QueueOk(s, at, c) && CpuOk(s, at, c);
    if s.queues[c].len == 0 {
      assert ThreadOk(s, at[c], c);
      assert at[c] != OnCpu(c);
      IdleNowhere(s, at, c);
    } else {
      assert t in s.queues[c].list;
      assert ThreadOk(s, at[t], t);
      RemovedFirst(s.queues[c].list);
    }
    var s', at' := Dispatch(s, c), at[t := OnCpu(c)];
    assert s.queues[c].len > 0 ==> QueueOk(s', at', c);
    assert CpuOk(s', at', c);
    Moved(s, s', at, at', t);
  }

  /** The idle thread of a CPU is on that CPU or nowhere. */
  lemma IdleNowhere(s: State, at: seq<Place>, c: nat)
    requires Located(s, at) && c < |s.queues|
    ensures at[c] == Nowhere || at[c] == OnCpu(c)
  {
    assert ThreadOk(s, at[c], c);
  }

  /** Taking the current thread off its CPU. */
  lemma OffLocated(s: State, at: seq<Place>, c: nat, t: nat)
    requires Located(s, at) && s.Runs(c, t)
    ensures Located(Off(s, c), at[t := Nowhere]) && at[t] == OnCpu(c)
  {
    var s', at' := Off(s, c), at[t := Nowhere];
    assert CpuOk(s, at, c) && ThreadOk(s, at[t], t);
    assert CpuOk(s', at', c);
    Moved(s, s', at, at', t);
  }

  /** And putting one there. */
  lemma OnLocated(s: State, at: seq<Place>, c: nat, t: nat, u: Thread)
    requires Located(s, at) && s.Cpu(c) && s.current[c].None? && t < |at| && at[t] == Nowhere
    requires u == s.threads[t].(state := Running, cpuid := c) && !u.exiting && (u.kind == Kind.Idle ==> t == c)
    requires u.kind == Shadow ==> u.active.Some?
    ensures Located(s.(threads := s.threads[t := u], current := s.current[c := Some(t)]), at[t := OnCpu(c)])
  {
    var s', at' := s.(threads := s.threads[t := u], current := s.current[c := Some(t)]), at[t := OnCpu(c)];
    assert CpuOk(s, at, c) && ThreadOk(s, at[t], t);
    assert CpuOk(s', at', c);
    Moved(s, s', at, at', t);
  }

  lemma BudgetsLocated(s: State, at: seq<Place>, b: seq<nat>)
    requires Located(s, at) && |b| == |s.budgets|
    ensures Located(s.(budgets := b), at)
  {
    var s' := s.(budgets := b);
    forall t: nat | t < |at|
      ensures ThreadOk(s', at[t], t)
    {
      assert ThreadOk(s, at[t], t);
    }
    forall c: nat | c < |s.queues|
      ensures QueueOk(s', at, c)
    {
      assert QueueOk(s, at, c);
    }
    forall c: nat | c < |s.queues|
      ensures CpuOk(s', at, c)
    {
      assert CpuOk(s, at, c);
    }
    forall q: nat | q < |s.sems|
      ensures SemOk(s', at, q)
    {
      assert SemOk(s, at, q);
    }
    forall k: nat | k < |s.conns|
      ensures ConnOk(s', at, k)
    {
      assert ConnOk(s, at, k);
      assert s'.InFlight(k) == s.InFlight(k);
    }
    forall t: nat, u: nat | t < u < |at| && Live(s', at, t) && Live(s', at, u)
      ensures s'.threads[t].sc != s'.threads[u].sc
    {
      assert Live(s, at, t) && Live(s, at, u);
    }
  }

  // ----------------------------------------------------------------------------------------- rr_sched

  /** The thread that rr_sched finds as the current one, whose place is already the one it will have
      off the CPU: none if it may run on, or is exiting. */
  predicate Leaving(s: State, at: seq<Place>, c: nat)
    requires s.Cpu(c)
  {
    s.current[c].Some? ==>
      var t := s.current[c].value;
      && t < |s.threads| == |at|
      && (s.threads[t].exiting || s.threads[t].state == Waiting
          || (at[t] == Nowhere && s.threads[t].state == Running && s.threads[t].cpuid == c
              && (s.threads[t].kind == Shadow ==> s.threads[t].active.Some?)
                 && (s.threads[t].kind == Kind.Idle ==> t == c)))
  }

  /** Dispatching does not depend on who ran before. */
  lemma DispatchOff(s: State, at: seq<Place>, c: nat)
    requires s.Cpu(c) && Located(Off(s, c), at) && (s.current[c] == Some(c) ==> s.threads[c].cpuid == c)
    ensures Dispatch(s, c) == Dispatch(Off(s, c), c)
  {
    var o, t := Off(s, c), Chosen(s, c);
    assert QueueOk(o, at, c);
    if s.queues[c].len != 0 {
      assert t in o.queues[c].list;
      assert ThreadOk(o, at[t], t);
    }
    SwitchOff(ChooseThread(s, c), c, t);
  }

  lemma SwitchOff(s: State, c: nat, t: nat)
    requires s.Cpu(c) && t < |s.threads| && (s.threads[t].cpuid == c || s.current[c] != Some(t))
    ensures SwitchTo(s, c, t) == SwitchTo(Off(s, c), c, t)
  {
    assert Off(s, c).current[c := Some(t)] == s.current[c := Some(t)];
    assert s.current[c] == Some(t) ==> s.current[c := Some(t)] == s.current;
  }

  lemma SchedLocated(s: State, at: seq<Place>, c: nat) returns (at': seq<Place>)
    requires s.Cpu(c) && Located(Off(s, c), at) && Leaving(s, at, c)
    ensures Located(Sched(s, c), at')
  {
    if Stays(s, c) {
      at' := StayLocated(s, at, c);
    } else {
      var at1 := ParkLocated(s, at, c);
      DispatchOff(Park(s, c), at1, c);
      DispatchLocated(Off(Park(s, c), c), at1, c);
      at' := at1[Chosen(Off(Park(s, c), c), c) := OnCpu(c)];
    }
  }

  lemma StayLocated(s: State, at: seq<Place>, c: nat) returns (at': seq<Place>)
    requires s.Cpu(c) && Located(Off(s, c), at) && Leaving(s, at, c) && Stays(s, c)
    ensures Located(Sched(s, c), at') && Sched(s, c) == s
  {
    var t := s.current[c].value;
    OnLocated(Off(s, c), at, c, t, s.threads[t]);
    at' := at[t := OnCpu(c)];
    assert s.threads[t := s.threads[t]] == s.threads && s.current[c := None][c := Some(t)] == s.current;
  }

  lemma ParkLocated(s: State, at: seq<Place>, c: nat) returns (at': seq<Place>)
    requires s.Cpu(c) && Located(Off(s, c), at) && Leaving(s, at, c) && !Stays(s, c)
    ensures Located(Off(Park(s, c), c), at') && Park(s, c).current == s.current
    ensures s.current[c] == Some(c) ==> Park(s, c).threads[c].cpuid == c
  {
    at' := at;
    if s.current[c].Some? {
      var t, o := s.current[c].value, Off(s, c);
      assert ThreadOk(o, at[t], t);
      if !s.threads[t].exiting && s.threads[t].state != Waiting {
        var o1 := Enqueue(o, c, t);
        if s.threads[t].kind != Kind.Idle {
          EnqueueLocated(o, at, c, t);
          at' := at[t := Queued(HomeCpu(s.threads[t], c))];
        }
        var o2 := SetBudget(o1, t, DEFAULT_BUDGET);
        BudgetsLocated(o1, at', o2.budgets);
        assert Off(Park(s, c), c) == o2;
      }
    }
  }
}
