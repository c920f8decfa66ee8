/** The producer/consumer program ends: it can always go on, and not for ever. */
module BoundedBufferProgress {
  import opened BoundedBuffer
  import opened BoundedBufferSafety
  import opened BoundedBufferRuns

  // ------------------------------------------------------------------------------------- the totals

  /** The items that the producers (consumers) are to write (read). */
  function Items(roles: seq<(bool, nat)>, producer: bool): nat {
    if roles == [] then 0
    else Items(roles[..|roles| - 1], producer) + if roles[|roles| - 1].0 == producer then roles[|roles| - 1].1 else 0
  }

  lemma {:induction false} GoalsSame(cs: seq<Counts>, ds: seq<Counts>)
    requires |cs| == |ds| && forall a :: 0 <= a < |cs| ==> cs[a].goalP == ds[a].goalP && cs[a].goalC == ds[a].goalC
    ensures Total(cs).goalP == Total(ds).goalP && Total(cs).goalC == Total(ds).goalC
  {
    if cs != [] {
      GoalsSame(cs[..|cs| - 1], ds[..|ds| - 1]);
    }
  }

  lemma {:induction false} InitGoals(size: nat, roles: seq<(bool, nat)>)
    requires size > 0
    ensures Tally(Init(size, roles).threads).goalP == Items(roles, true)
    ensures Tally(Init(size, roles).threads).goalC == Items(roles, false)
    decreases |roles|
  {
    if roles != [] {
      var n := |roles| - 1;
      var ts := Init(size, roles).threads;
      InitGoals(size, roles[..n]);
      assert Init(size, roles[..n]).threads == ts[..n];
      assert Each(ts)[..n] == Each(ts[..n]);
    }
  }

  /** Threads keep their part and their number of items. */
  ghost predicate RolesSame(ts: seq<Thread>, ts': seq<Thread>) {
    |ts'| == |ts| && forall a :: 0 <= a < |ts| ==> ts'[a].producer == ts[a].producer && ts'[a].goal == ts[a].goal
  }

  lemma NextRoles(s: State, t: nat)
    requires Inv(s)
    ensures RolesSame(s.threads, Next(s, t).threads)
  {
    if t < |s.threads| {
      if s.threads[t].pc.Signal? {
        if Target(s, s.threads[t]).waiting != [] {
          SignalLists(s, t, Target(s, s.threads[t]).waiting[0]);
        }
      } else {
        NextOwn(s, t);
      }
    }
  }

  lemma {:induction false} RunRoles(s: State, sched: seq<nat>)
    requires Inv(s)
    ensures RolesSame(s.threads, Run(s, sched).threads)
  {
    if sched != [] {
      var init := sched[..|sched| - 1];
      RunRoles(s, init);
      RunInv(s, init);
      NextRoles(Run(s, init), sched[|sched| - 1]);
    }
  }

  lemma RunGoals(s: State, sched: seq<nat>)
    requires Inv(s)
    ensures Tally(Run(s, sched).threads).goalP == Tally(s.threads).goalP
    ensures Tally(Run(s, sched).threads).goalC == Tally(s.threads).goalC
  {
    RunRoles(s, sched);
    GoalsSame(Each(Run(s, sched).threads), Each(s.threads));
  }

  // --------------------------------------------------------------------------------------- the work

  /** Thread `t` does something that it will not have to do again. */
  predicate Moves(s: State, t: nat) {
    CanMove(s, t) && !s.threads[t].pc.Spin?
  }

  lemma OwnWork(s: State, t: nat)
    requires t < |s.threads| && LoopOk(s.threads[t]) && !s.threads[t].pc.Signal? && |Next(s, t).threads| == |s.threads|
    ensures Moves(s, t) ==> Of(Next(s, t).threads[t]).work < Of(s.threads[t]).work
    ensures !Moves(s, t) ==> Of(Next(s, t).threads[t]).work == Of(s.threads[t]).work
  {
  }

  lemma WakeWork(u: Thread, v: Thread, rest: Counts, rest': Counts)
    requires LoopOk(u) && u.pc.Signal? && v.pc.Blocked?
    requires Plus(rest, Of(AfterSignal(u))) == Plus(rest', Of(v))
    ensures Plus(rest', Of(AfterWait(v))).work < Plus(rest, Of(u)).work
  {
  }

  lemma SignalWork(s: State, t: nat)
    requires Loops(s) && Queues(s) && t < |s.threads| && s.threads[t].pc.Signal?
    ensures Tally(SignalSem(s, t).threads).work < Tally(s.threads).work
  {
    var u := s.threads[t];
    assert LoopOk(u);
    var rest := TallySplit(s.threads, t, AfterSignal(u));
    if Target(s, u).waiting != [] {
      var a := Target(s, u).waiting[0];
      SignalLists(s, t, a);
      var rest' := TallySplit(s.threads[t := AfterSignal(u)], a, AfterWait(s.threads[a]));
      WakeWork(u, s.threads[a], rest, rest');
    }
  }

  /** A move takes work away; any other step leaves it. */
  lemma NextWork(s: State, t: nat)
    requires Inv(s)
    ensures Moves(s, t) ==> Tally(Next(s, t).threads).work < Tally(s.threads).work
    ensures !Moves(s, t) ==> Tally(Next(s, t).threads).work == Tally(s.threads).work
  {
    if t < |s.threads| {
      if s.threads[t].pc.Signal? {
        SignalWork(s, t);
      } else {
        NextOwn(s, t);
        OwnWork(s, t);
        var rest := TallySplit(s.threads, t, Next(s, t).threads[t]);
      }
    }
  }

  function MovesIn(s: State, sched: seq<nat>): nat {
    if sched == [] then 0
    else
      var init := sched[..|sched| - 1];
      MovesIn(s, init) + if Moves(Run(s, init), sched[|sched| - 1]) then 1 else 0
  }

  /** However the threads interleave, they make only so many moves. */
  lemma {:induction false} MovesBounded(s: State, sched: seq<nat>)
    requires Inv(s)
    ensures MovesIn(s, sched) + Tally(Run(s, sched).threads).work <= Tally(s.threads).work
  {
    if sched != [] {
      var init := sched[..|sched| - 1];
      MovesBounded(s, init);
      RunInv(s, init);
      NextWork(Run(s, init), sched[|sched| - 1]);
    }
  }

  // ------------------------------------------------------------------------------------ termination

  lemma {:induction false} RunConcat(s: State, x: seq<nat>, y: seq<nat>)
    ensures Run(s, x + y) == Run(Run(s, x), y)
    decreases |y|
  {
    if y == [] {
      assert x + y == x;
    } else {
      assert (x + y)[..|x + y| - 1] == x + y[..|y| - 1];
      RunConcat(s, x, y[..|y| - 1]);
    }
  }

  /** From a state where the totals fit, the threads can all be brought to the end. */
  lemma {:induction false} CanFinish(s: State) returns (more: seq<nat>)
    requires Inv(s) && var c := Tally(s.threads); c.goalC <= c.goalP <= c.goalC + s.size
    ensures Final(Run(s, more))
    decreases Tally(s.threads).work
  {
    if Final(s) {
      more := [];
    } else {
      var t := NoDeadlock(s);
      var first := if Moves(s, t) then [t] else [t, t];
      FirstMoves(s, t, first);
      var s' := Run(s, first);
      RunInv(s, first);
      RunGoals(s, first);
      RunSize(s, first);
      more := CanFinish(s');
      RunConcat(s, first, more);
      more := first + more;
    }
  }

  lemma FirstMoves(s: State, t: nat, first: seq<nat>)
    requires Inv(s) && CanMove(s, t) && first == if Moves(s, t) then [t] else [t, t]
    ensures Tally(Run(s, first).threads).work < Tally(s.threads).work
  {
    NextWork(s, t);
    assert Run(s, [t]) == Next(s, t);
    if !Moves(s, t) {
      NextInv(s, t);
      assert [t, t][..1] == [t];
      assert Run(s, [t, t]) == Next(Next(s, t), t);
      NextWork(Next(s, t), t);
    }
  }

  /** The totals fit the buffer: what is written and not read in the end has room. */
  predicate Fits(size: nat, roles: seq<(bool, nat)>) {
    Items(roles, false) <= Items(roles, true) <= Items(roles, false) + size
  }

  /** In the end all items are written and read, and every thread has left. */
  lemma FinalTotals(size: nat, roles: seq<(bool, nat)>, sched: seq<nat>, s: State)
    requires size > 0 && s == Run(Init(size, roles), sched) && Final(s)
    ensures |s.log| == s.cnt == Items(roles, true) && |s.out| == Items(roles, false) && Fits(size, roles)
  {
    InitInv(size, roles);
    RunInv(Init(size, roles), sched);
    InitGoals(size, roles);
    RunGoals(Init(size, roles), sched);
    RunSize(Init(size, roles), sched);
    GoalsAhead(s);
  }

  /** Every interleaving can be continued to the end if and only if the totals fit the buffer. */
  lemma FinishIff(size: nat, roles: seq<(bool, nat)>, sched: seq<nat>)
    requires size > 0
    ensures (exists more :: Final(Run(Init(size, roles), sched + more))) <==> Fits(size, roles)
  {
    var s0 := Init(size, roles);
    if Fits(size, roles) {
      InitInv(size, roles);
      RunInv(s0, sched);
      InitGoals(size, roles);
      RunGoals(s0, sched);
      RunSize(s0, sched);
      var more := CanFinish(Run(s0, sched));
      RunConcat(s0, sched, more);
    } else {
      forall more
        ensures !Final(Run(s0, sched + more))
      {
        if Final(Run(s0, sched + more)) {
          FinalTotals(size, roles, sched + more, Run(s0, sched + more));
        }
      }
    }
  }

  /** With equal totals every message that was drawn has been consumed in the end, in the order written. */
  lemma AllConsumed(size: nat, roles: seq<(bool, nat)>, sched: seq<nat>, s: State)
    requires size > 0 && s == Run(Init(size, roles), sched) && Final(s) && Items(roles, true) == Items(roles, false)
    ensures s.out == s.log && |s.seen| == Items(roles, true) && forall m: nat :: m < |s.seen| ==> s.seen[m]
  {
    FinalTotals(size, roles, sched, s);
    InitInv(size, roles);
    RunInv(Init(size, roles), sched);
    InitGoals(size, roles);
    RunGoals(Init(size, roles), sched);
    AllSeen(s);
  }

  lemma AllSeen(s: State)
    requires Messages(s) && Consumed(s) && Final(s) && s.out == s.log && |s.seen| == s.cnt
    ensures forall m: nat :: m < |s.seen| ==> s.seen[m]
  {
    assert forall a :: 0 <= a < |s.threads| ==> !Carries(s.threads[a]) && !Eats(s.threads[a]);
    assert forall m: nat :: m < s.cnt ==> m in s.log;
  }
}
