/** Safety and progress of the producer/consumer program over whole runs. */
module BoundedBufferRuns {
  import opened BoundedBuffer
  import opened BoundedBufferSafety

  // ------------------------------------------------------------------------------------- the ring

  /** Within one lap no two messages share a slot. */
  lemma SlotsDiffer(size: nat, k: nat, j: nat)
    requires k < j < k + size
    ensures Slot(size, k) != Slot(size, j)
  {
    SlotAhead(size, k, j - k);
  }

  /** No unread message is in the slot at the write index. */
  ghost predicate WriteSlotFree(s: State) {
    s.size > 0 && forall k: nat {:trigger s.log[k]} :: |s.out| <= k < |s.log| ==> Slot(s.size, k) != s.w
  }

  ghost predicate UnreadInBuffer(s: State) {
    s.size == |s.buffer| > 0
    && forall k: nat {:trigger s.log[k]} :: |s.out| <= k < |s.log| ==> s.buffer[Slot(s.size, k)] == s.log[k]
  }

  /** What a thread about to access the buffer finds: a producer, a slot that holds no unread message;
      a consumer, the oldest unread message. */
  lemma SafeAccess(s: State, t: nat)
    requires Tokens(s) && Ring(s) && t < |s.threads| && s.threads[t].pc.Access?
    ensures s.threads[t].producer ==>
              && |s.log| - |s.out| < s.size && s.w == Slot(s.size, |s.log|)
              && WriteSlotFree(s)
    ensures !s.threads[t].producer ==>
              && |s.out| < |s.log| && s.r == Slot(s.size, |s.out|) && s.buffer[s.r] == s.log[|s.out|]
  {
    LateAlone(s, t);
    var rest := TallySplit(s.threads, t, s.threads[t]);
    if s.threads[t].producer {
      forall k: nat | |s.out| <= k < |s.log|
        ensures Slot(s.size, k) != s.w
      {
        SlotsDiffer(s.size, k, |s.log|);
      }
    }
  }

  lemma OnlyIndexer(s: State, t: nat)
    requires Tokens(s) && t < |s.threads| && Of(s.threads[t]).inside == 1
    ensures forall b :: 0 <= b < |s.threads| && s.threads[b].pc.IdxStore? ==> b == t
  {
    forall b | 0 <= b < |s.threads| && s.threads[b].pc.IdxStore?
      ensures b == t
    {
      Alone(s, t, b);
    }
  }

  lemma AccessRing(s: State, t: nat)
    requires t < |s.threads| && s.threads[t].pc.Access? && Tokens(s) && Tokens(AccessSlot(s, t)) && Ring(s)
    ensures Ring(AccessSlot(s, t))
  {
    var s' := AccessSlot(s, t);
    SafeAccess(s, t);
    LateAlone(s, t);
    LateAlone(s', t);
    OnlyIndexer(s', t);
    if s.threads[t].producer {
      WriteRing(s, t);
    } else {
      ReadRing(s, t);
    }
  }

  lemma WriteRing(s: State, t: nat)
    requires t < |s.threads| && s.threads[t].producer && RingOf(s, 0, 0) && |s.log| - |s.out| < s.size
    requires WriteSlotFree(s)
    ensures RingOf(AccessSlot(s, t), 1, 0)
  {
  }

  lemma ReadRing(s: State, t: nat)
    requires t < |s.threads| && !s.threads[t].producer && RingOf(s, 0, 0) && |s.out| < |s.log|
             && s.buffer[s.r] == s.log[|s.out|]
    ensures RingOf(AccessSlot(s, t), 0, 1)
  {
  }

  lemma LoadIndexRing(s: State, t: nat)
    requires t < |s.threads| && s.threads[t].pc.IdxLoad? && Tokens(s) && Tokens(LoadIndex(s, t)) && Ring(s)
    ensures Ring(LoadIndex(s, t))
  {
    var s', u := LoadIndex(s, t), s.threads[t];
    LateAlone(s, t);
    LateAlone(s', t);
    OnlyIndexer(s', t);
    LoadRing(s, t, Bit(u.producer), Bit(!u.producer));
  }

  lemma LoadRing(s: State, t: nat, p: nat, c: nat)
    requires t < |s.threads| && RingOf(s, p, c) && p == Bit(s.threads[t].producer) && c == Bit(!s.threads[t].producer)
    requires forall b :: 0 <= b < |s.threads| && LoadIndex(s, t).threads[b].pc.IdxStore? ==> b == t
    ensures RingOf(LoadIndex(s, t), p, c) && Indices(LoadIndex(s, t))
  {
  }

  lemma StoreIndexRing(s: State, t: nat)
    requires t < |s.threads| && s.threads[t].pc.IdxStore? && Tokens(s) && Tokens(StoreIndex(s, t)) && Ring(s)
    ensures Ring(StoreIndex(s, t))
  {
    var s', u := StoreIndex(s, t), s.threads[t];
    LateAlone(s, t);
    LateAlone(s', t);
    OnlyIndexer(s', t);
    StoreRing(s, t, Bit(u.producer), Bit(!u.producer));
  }

  lemma StoreRing(s: State, t: nat, p: nat, c: nat)
    requires t < |s.threads| && s.threads[t].pc.IdxStore? && RingOf(s, p, c) && Indices(s)
    requires p == Bit(s.threads[t].producer) && c == Bit(!s.threads[t].producer)
    requires forall b :: 0 <= b < |s.threads| && StoreIndex(s, t).threads[b].pc.IdxStore? ==> b == t
    ensures RingOf(StoreIndex(s, t), 0, 0) && Indices(StoreIndex(s, t))
  {
  }

  // ------------------------------------------------------------------------------------- messages

  lemma DrawMessages(s: State, t: nat)
    requires Messages(s) && t < |s.threads| && s.threads[t].pc.New? && LoopOk(s.threads[t])
    ensures Messages(Draw(s, t))
  {
    var s' := Draw(s, t);
    assert Carries(s'.threads[t]) && s'.threads[t].msg == s.cnt;
    forall m: nat | m < s.cnt && m !in s.log
      ensures exists a :: 0 <= a < |s'.threads| && Carries(s'.threads[a]) && s'.threads[a].msg == m
    {
      var a :| 0 <= a < |s.threads| && Carries(s.threads[a]) && s.threads[a].msg == m;
      assert Carries(s'.threads[a]) && s'.threads[a].msg == m;
    }
  }

  lemma AccessMessages(s: State, t: nat)
    requires Messages(s) && t < |s.threads| && s.threads[t].pc.Access?
    ensures Messages(AccessSlot(s, t))
  {
    var s' := AccessSlot(s, t);
    if !s.threads[t].producer {
      MessagesKept(s, s', t);
    } else {
      assert Carries(s.threads[t]) && s'.log[|s.log|] == s.threads[t].msg;
      forall m: nat | m < s.cnt && m !in s'.log
        ensures exists a :: 0 <= a < |s'.threads| && Carries(s'.threads[a]) && s'.threads[a].msg == m
      {
        assert m !in s.log;
        var a :| 0 <= a < |s.threads| && Carries(s.threads[a]) && s.threads[a].msg == m;
        assert m == s.threads[t].msg ==> m in s'.log;
        assert Carries(s'.threads[a]) && s'.threads[a].msg == m;
      }
    }
  }

  lemma AccessConsumed(s: State, t: nat)
    requires Tokens(s) && Ring(s) && Messages(s) && Consumed(s) && t < |s.threads| && s.threads[t].pc.Access?
    ensures Consumed(AccessSlot(s, t))
  {
    SafeAccess(s, t);
    if s.threads[t].producer {
      ConsumedKept(s, AccessSlot(s, t), t);
    } else {
      assert s.log[|s.out|] !in s.out;
      FetchConsumed(s, t, s.log[|s.out|]);
    }
  }

  lemma FetchConsumed(s: State, t: nat, m: nat)
    requires Consumed(s) && t < |s.threads| && s.threads[t].pc.Access? && !s.threads[t].producer
    requires s.r < |s.buffer| && s.buffer[s.r] == m && m !in s.out
    ensures Consumed(AccessSlot(s, t))
  {
    var s' := AccessSlot(s, t);
    assert s'.out[|s.out|] == m && Eats(s'.threads[t]) && s'.threads[t].msg == m;
    forall k | k in s'.out && k < |s.seen| && !s.seen[k]
      ensures exists a :: 0 <= a < |s'.threads| && Eats(s'.threads[a]) && s'.threads[a].msg == k
    {
      if k != m {
        assert k in s.out;
        var a :| 0 <= a < |s.threads| && Eats(s.threads[a]) && s.threads[a].msg == k;
        assert Eats(s'.threads[a]) && s'.threads[a].msg == k;
      }
    }
  }

  lemma NoteConsumed(s: State, t: nat)
    requires Consumed(s) && t < |s.threads| && s.threads[t].pc.Note? && LoopOk(s.threads[t])
    ensures Consumed(NoteMsg(s, t))
  {
    var s' := NoteMsg(s, t);
    assert Eats(s.threads[t]);
    forall k | k in s'.out && k < |s'.seen| && !s'.seen[k]
      ensures exists a :: 0 <= a < |s'.threads| && Eats(s'.threads[a]) && s'.threads[a].msg == k
    {
      var a :| 0 <= a < |s.threads| && Eats(s.threads[a]) && s.threads[a].msg == k;
      assert Eats(s'.threads[a]) && s'.threads[a].msg == k;
    }
  }

  // --------------------------------------------------------------------------------- waiting lists

  lemma WaitQueues(s: State, t: nat)
    requires Queues(s) && t < |s.threads| && s.threads[t].pc.Wait?
    ensures Queues(WaitSem(s, t))
  {
    var s' := WaitSem(s, t);
    assert t !in s.empty.waiting && t !in s.filled.waiting;
  }

  lemma SignalQueues(s: State, t: nat)
    requires Queues(s) && t < |s.threads| && s.threads[t].pc.Signal?
    ensures Queues(SignalSem(s, t))
  {
    var s', q := SignalSem(s, t), Target(s, s.threads[t]);
    assert t !in s.empty.waiting && t !in s.filled.waiting;
    if q.waiting != [] {
      var a := q.waiting[0];
      SignalLists(s, t, a);
      assert forall b :: b in q.waiting <==> b == a || b in q.waiting[1..];
      assert a !in q.waiting[1..];
    }
  }

  /** Signalling, seen from the ring and the messages, is one or two moves that leave them alone. */
  lemma SignalSame(s: State, t: nat, v: State, a: nat)
    requires Queues(s) && t < |s.threads| && s.threads[t].pc.Signal? && LoopOk(s.threads[t])
    requires v == Put(s, t, AfterSignal(s.threads[t]))
    requires Target(s, s.threads[t]).waiting != [] ==> a == Target(s, s.threads[t]).waiting[0]
    requires Target(s, s.threads[t]).waiting == [] ==> a == t
    ensures RingSame(s, v, t) && MessagesSame(s, v, t) && ConsumedSame(s, v, t)
    ensures a < |v.threads| && RingSame(v, SignalSem(s, t), a) && MessagesSame(v, SignalSem(s, t), a)
            && ConsumedSame(v, SignalSem(s, t), a)
  {
    if a != t {
      SignalLists(s, t, a);
    }
  }

  lemma SignalRest(s: State, t: nat)
    requires Queues(s) && Ring(s) && Messages(s) && Consumed(s) && t < |s.threads| && s.threads[t].pc.Signal?
             && LoopOk(s.threads[t])
    ensures Ring(SignalSem(s, t)) && Messages(SignalSem(s, t)) && Consumed(SignalSem(s, t))
  {
    var s', q := SignalSem(s, t), Target(s, s.threads[t]);
    var v := Put(s, t, AfterSignal(s.threads[t]));
    var a := if q.waiting == [] then t else q.waiting[0];
    SignalSame(s, t, v, a);
    RingKept(s, v, t);
    RingKept(v, s', a);
    MessagesKept(s, v, t);
    MessagesKept(v, s', a);
    ConsumedKept(s, v, t);
    ConsumedKept(v, s', a);
  }

  // ---------------------------------------------------------------------------------- every run

  lemma NextRing(s: State, t: nat)
    requires Inv(s) && Tokens(Next(s, t)) && t < |s.threads|
    ensures Ring(Next(s, t))
  {
    match s.threads[t].pc {
      case Access => AccessRing(s, t);
      case IdxLoad => LoadIndexRing(s, t);
      case IdxStore => StoreIndexRing(s, t);
      case Signal => SignalRest(s, t);
      case Blocked | Done =>
      case _ =>
        SameParts(s, t);
        RingKept(s, Next(s, t), t);
    }
  }

  lemma NextMessages(s: State, t: nat)
    requires Inv(s) && t < |s.threads|
    ensures Messages(Next(s, t)) && Consumed(Next(s, t))
  {
    match s.threads[t].pc {
      case Access =>
        AccessMessages(s, t);
        AccessConsumed(s, t);
      case New =>
        DrawMessages(s, t);
        SameParts(s, t);
        ConsumedKept(s, Next(s, t), t);
      case Note =>
        NoteConsumed(s, t);
        SameParts(s, t);
        MessagesKept(s, Next(s, t), t);
      case Signal => SignalRest(s, t);
      case Blocked | Done =>
      case _ =>
        SameParts(s, t);
        MessagesKept(s, Next(s, t), t);
        ConsumedKept(s, Next(s, t), t);
    }
  }

  lemma NextQueues(s: State, t: nat)
    requires Inv(s) && t < |s.threads|
    ensures Queues(Next(s, t))
  {
    match s.threads[t].pc {
      case Wait => WaitQueues(s, t);
      case Signal => SignalQueues(s, t);
      case Blocked | Done =>
      case _ =>
        SameParts(s, t);
        QueuesKept(s, Next(s, t), t);
    }
  }

  lemma NextInv(s: State, t: nat)
    requires Inv(s)
    ensures Inv(Next(s, t))
  {
    if t < |s.threads| {
      NextTokens(s, t);
      NextRing(s, t);
      NextMessages(s, t);
      NextQueues(s, t);
    }
  }

  predicate Fresh(c: Counts) {
    && c.holdsP == 0 && c.holdsC == 0 && c.owesP == 0 && c.owesC == 0 && c.lateP == 0 && c.lateC == 0
    && c.written == 0 && c.fetched == 0 && c.drawn == 0 && c.inside == 0 && c.left == 0
  }

  lemma {:induction false} AllFresh(cs: seq<Counts>)
    requires forall a :: 0 <= a < |cs| ==> Fresh(cs[a])
    ensures Fresh(Total(cs))
  {
    if cs != [] {
      AllFresh(cs[..|cs| - 1]);
    }
  }

  lemma InitInv(size: nat, roles: seq<(bool, nat)>)
    requires size > 0
    ensures Inv(Init(size, roles))
  {
    AllFresh(Each(Init(size, roles).threads));
  }

  /** Every interleaving keeps the invariant. */
  lemma {:induction false} RunInv(s: State, sched: seq<nat>)
    requires Inv(s)
    ensures Inv(Run(s, sched))
  {
    if sched != [] {
      RunInv(s, sched[..|sched| - 1]);
      NextInv(Run(s, sched[..|sched| - 1]), sched[|sched| - 1]);
    }
  }

  /** No unread slot is overwritten and no empty slot is read, in any interleaving. */
  lemma BufferSafe(size: nat, roles: seq<(bool, nat)>, sched: seq<nat>, s: State, t: nat)
    requires size > 0 && s == Run(Init(size, roles), sched) && t < |s.threads| && s.threads[t].pc.Access?
    ensures if s.threads[t].producer then
              s.w < |s.buffer| == s.size && WriteSlotFree(s) && UnreadInBuffer(s)
            else
              s.r < |s.buffer| && |s.out| < |s.log| && s.buffer[s.r] == s.log[|s.out|]
  {
    InitInv(size, roles);
    RunInv(Init(size, roles), sched);
    SafeAccess(s, t);
  }

  /** Messages come out in the order in which they went in, and none is written twice. */
  lemma Fifo(size: nat, roles: seq<(bool, nat)>, sched: seq<nat>, s: State)
    requires size > 0 && s == Run(Init(size, roles), sched)
    ensures |s.out| <= |s.log| <= |s.out| + size && s.out == s.log[..|s.out|]
    ensures forall i, j :: 0 <= i < j < |s.log| ==> s.log[i] != s.log[j]
  {
    InitInv(size, roles);
    RunInv(Init(size, roles), sched);
    RunSize(Init(size, roles), sched);
  }

  lemma {:induction false} RunSize(s: State, sched: seq<nat>)
    ensures Run(s, sched).size == s.size
  {
    if sched != [] {
      RunSize(s, sched[..|sched| - 1]);
    }
  }

  /** The assertion of consume_msg holds whenever it is reached, and its index is within the array. */
  lemma ConsumeOnce(size: nat, roles: seq<(bool, nat)>, sched: seq<nat>, s: State, t: nat)
    requires size > 0 && s == Run(Init(size, roles), sched)
    requires t < |s.threads| && (s.threads[t].pc.Check? || s.threads[t].pc.Note?)
    ensures s.threads[t].msg < |s.seen| && !s.seen[s.threads[t].msg]
  {
    InitInv(size, roles);
    RunInv(Init(size, roles), sched);
    assert LoopOk(s.threads[t]) && Eats(s.threads[t]);
    assert s.threads[t].msg in s.log;
    GoalsAhead(s);
  }

  /** At most one thread is in the critical section. */
  lemma MutualExclusion(size: nat, roles: seq<(bool, nat)>, sched: seq<nat>, s: State, a: nat, b: nat)
    requires size > 0 && s == Run(Init(size, roles), sched) && a < b < |s.threads|
    ensures Of(s.threads[a]).inside == 0 || Of(s.threads[b]).inside == 0
  {
    InitInv(size, roles);
    RunInv(Init(size, roles), sched);
    if Of(s.threads[a]).inside == 1 {
      Alone(s, a, b);
    }
  }

  // ------------------------------------------------------------------------------------ progress

  /** No more is drawn, written or read than is to be. */
  predicate Ahead(c: Counts) {
    c.drawn <= c.goalP && c.written <= c.goalP && c.fetched <= c.goalC
  }

  lemma {:induction false} AllAhead(cs: seq<Counts>)
    requires forall a :: 0 <= a < |cs| ==> Ahead(cs[a])
    ensures Ahead(Total(cs))
    ensures Total(cs).written == Total(cs).goalP <==> forall a :: 0 <= a < |cs| ==> cs[a].written == cs[a].goalP
    ensures Total(cs).fetched == Total(cs).goalC <==> forall a :: 0 <= a < |cs| ==> cs[a].fetched == cs[a].goalC
    ensures Total(cs).drawn == Total(cs).goalP <==> forall a :: 0 <= a < |cs| ==> cs[a].drawn == cs[a].goalP
  {
    if cs != [] {
      var n := |cs| - 1;
      AllAhead(cs[..n]);
      assert forall a :: 0 <= a < n ==> cs[..n][a] == cs[a];
    }
  }

  lemma GoalsAhead(s: State)
    requires Loops(s)
    ensures Ahead(Tally(s.threads))
    ensures forall a ::
              0 <= a < |s.threads| && s.threads[a].producer && Tally(s.threads).written == Tally(s.threads).goalP ==>
              Of(s.threads[a]).written == s.threads[a].goal
    ensures forall a ::
              0 <= a < |s.threads| && !s.threads[a].producer && Tally(s.threads).fetched == Tally(s.threads).goalC ==>
              Of(s.threads[a]).fetched == s.threads[a].goal
    ensures (forall a :: 0 <= a < |s.threads| && s.threads[a].producer ==> s.threads[a].pc.Done?) ==>
              Tally(s.threads).written == Tally(s.threads).goalP && Tally(s.threads).drawn == Tally(s.threads).goalP
    ensures (forall a :: 0 <= a < |s.threads| && !s.threads[a].producer ==> s.threads[a].pc.Done?) ==>
              Tally(s.threads).fetched == Tally(s.threads).goalC
  {
    assert forall a :: 0 <= a < |s.threads| ==> LoopOk(s.threads[a]);
    AllAhead(Each(s.threads));
  }

  /** All threads are through; main's loop on the exit counter ends. */
  ghost predicate Final(s: State) {
    forall a :: 0 <= a < |s.threads| ==> s.threads[a].pc.Done?
  }

  /** Thread `t` has a step to take other than finding the spinlock taken. */
  predicate CanMove(s: State, t: nat) {
    t < |s.threads| && var pc := s.threads[t].pc; !pc.Blocked? && !pc.Done? && (pc.Lock? || pc.Spin? ==> !s.locked)
  }

  lemma {:induction false} SomeInside(cs: seq<Counts>) returns (a: nat)
    requires Total(cs).inside > 0
    ensures a < |cs| && cs[a].inside > 0
  {
    var n := |cs| - 1;
    if cs[n].inside > 0 {
      a := n;
    } else {
      a := SomeInside(cs[..n]);
    }
  }

  lemma {:induction false} AllIdle(cs: seq<Counts>)
    requires forall a :: 0 <= a < |cs| ==> var c: Counts := cs[a];
             c.holdsP == 0 && c.holdsC == 0 && c.owesP == 0 && c.owesC == 0
    ensures var c := Total(cs); c.holdsP == 0 && c.holdsC == 0 && c.owesP == 0 && c.owesC == 0
  {
    if cs != [] {
      AllIdle(cs[..|cs| - 1]);
    }
  }

  /** If everybody is blocked or through, and somebody is blocked, the totals do not fit the buffer. */
  lemma StuckTotals(s: State, b: nat)
    requires Inv(s) && forall a :: 0 <= a < |s.threads| ==> s.threads[a].pc.Blocked? || s.threads[a].pc.Done?
    requires b < |s.threads| && s.threads[b].pc.Blocked?
    ensures var c := Tally(s.threads); c.goalP < c.goalC || c.goalP > c.goalC + s.size
  {
    AllIdle(Each(s.threads));
    GoalsAhead(s);
    assert LoopOk(s.threads[b]);
    if s.threads[b].producer {
      assert b in s.empty.waiting;
      assert s.filled.waiting == [];
      forall a | 0 <= a < |s.threads| && !s.threads[a].producer
        ensures s.threads[a].pc.Done?
      {
        assert a !in s.filled.waiting;
      }
    } else {
      assert b in s.filled.waiting;
      assert s.empty.waiting == [];
      forall a | 0 <= a < |s.threads| && s.threads[a].producer
        ensures s.threads[a].pc.Done?
      {
        assert a !in s.empty.waiting;
      }
    }
  }

  /** While not everybody is through, somebody can move, if the totals fit the buffer. */
  lemma NoDeadlock(s: State) returns (t: nat)
    requires Inv(s) && !Final(s) && var c := Tally(s.threads); c.goalC <= c.goalP <= c.goalC + s.size
    ensures CanMove(s, t)
  {
    if s.locked {
      t := SomeInside(Each(s.threads));
    } else if a :| 0 <= a < |s.threads| && !s.threads[a].pc.Blocked? && !s.threads[a].pc.Done? {
      t := a;
    } else {
      var b :| 0 <= b < |s.threads| && !s.threads[b].pc.Done?;
      StuckTotals(s, b);
    }
  }
}
