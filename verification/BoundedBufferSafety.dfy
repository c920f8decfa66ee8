/** What every interleaving of the producer/consumer program keeps. */
module BoundedBufferSafety {
  import opened BoundedBuffer

  // ------------------------------------------------------------------------------- the invariant

  /** Loop counters stay within the number of items, and inside a round below it. */
  ghost predicate Loops(s: State) {
    forall a :: 0 <= a < |s.threads| ==> LoopOk(s.threads[a])
  }

  predicate LoopOk(u: Thread) {
    && (if u.pc.Loop? then u.i <= u.goal else if (u.pc.Exit? || u.pc.Done?) then u.i == u.goal else u.i < u.goal)
    && (u.producer ==> !u.pc.Check? && !u.pc.Note?) && (!u.producer ==> !u.pc.New?)
  }

  /** Semaphore counts, slots and message numbers are accounted for by the threads' positions. */
  predicate TokensOf(s: State, c: Counts) {
    && |s.out| <= |s.log|
    && s.empty.count + c.holdsP + (|s.log| - |s.out|) + c.owesC == s.size
    && s.filled.count + c.holdsC + c.owesP == |s.log| - |s.out|
    && |s.log| == c.written && |s.out| == c.fetched && s.cnt == c.drawn && |s.seen| == c.goalP && s.exits == c.left
    && c.inside == Bit(s.locked)
  }

  ghost predicate Tokens(s: State) {
    TokensOf(s, Tally(s.threads))
  }

  /** The waiting lists hold exactly the blocked threads, once each, and only while the count is 0. */
  ghost predicate Queues(s: State) {
    && Queue(s, s.empty, true) && Queue(s, s.filled, false)
  }

  ghost predicate Queue(s: State, q: Sem, producer: bool) {
    && (q.count > 0 ==> q.waiting == [])
    && (forall i, j :: 0 <= i < j < |q.waiting| ==> q.waiting[i] != q.waiting[j])
    && (forall a: nat ::
          a in q.waiting <==> a < |s.threads| && s.threads[a].producer == producer && s.threads[a].pc == Blocked)
  }

  /** The unread messages are in the buffer, in order, and the two indices are where they should be,
      given how many threads have still to advance them. */
  ghost predicate RingOf(s: State, lateP: nat, lateC: nat) {
    && s.size > 0 && |s.buffer| == s.size && |s.out| <= |s.log| <= |s.out| + s.size
    && s.out == s.log[..|s.out|]
    && (forall k: nat {:trigger s.log[k]} :: |s.out| <= k < |s.log| ==> s.buffer[Slot(s.size, k)] == s.log[k])
    && lateP <= |s.log| && lateC <= |s.out| && s.w == Slot(s.size, |s.log| - lateP)
       && s.r == Slot(s.size, |s.out| - lateC)
  }

  /** An index about to be stored is the right one. */
  ghost predicate Indices(s: State) {
    s.size > 0 && forall a :: 0 <= a < |s.threads| && s.threads[a].pc.IdxStore? ==>
        s.threads[a].tmp == Slot(s.size, if s.threads[a].producer then |s.log| else |s.out|)
  }

  ghost predicate Ring(s: State) {
    RingOf(s, Tally(s.threads).lateP, Tally(s.threads).lateC) && Indices(s)
  }

  /** Producer `u` has a number that it has not yet written. */
  predicate Carries(u: Thread) {
    u.producer && (u.pc.Lock? || u.pc.Spin? || u.pc.Access?)
  }

  /** Consumer `u` has a message that it has not yet recorded as consumed. */
  predicate Eats(u: Thread) {
    !u.producer && (u.pc.IdxLoad? || u.pc.IdxStore? || u.pc.Unlock? || u.pc.Signal? || u.pc.Check? || u.pc.Note?)
  }

  /** Every number drawn so far is carried by one producer or was written once; every message read is
      held by one consumer or recorded, not both. */
  ghost predicate Messages(s: State) {
    && (forall i, j :: 0 <= i < j < |s.log| ==> s.log[i] != s.log[j])
    && (forall i :: 0 <= i < |s.log| ==> s.log[i] < s.cnt)
    && (forall a :: 0 <= a < |s.threads| && Carries(s.threads[a]) ==>
          s.threads[a].msg < s.cnt && s.threads[a].msg !in s.log)
    && (forall a, b :: 0 <= a < b < |s.threads| && Carries(s.threads[a]) && Carries(s.threads[b]) ==>
          s.threads[a].msg != s.threads[b].msg)
    && (forall m: nat :: m < s.cnt ==> m in s.log || exists a ::
          0 <= a < |s.threads| && Carries(s.threads[a]) && s.threads[a].msg == m)
  }

  ghost predicate Consumed(s: State) {
    && (forall a :: 0 <= a < |s.threads| && Eats(s.threads[a]) ==> s.threads[a].msg in s.out)
    && (forall a, b :: 0 <= a < b < |s.threads| && Eats(s.threads[a]) && Eats(s.threads[b]) ==>
          s.threads[a].msg != s.threads[b].msg)
    && (forall m :: 0 <= m < |s.seen| && s.seen[m] ==> m in s.out)
    && (forall a :: 0 <= a < |s.threads| && Eats(s.threads[a]) && s.threads[a].msg < |s.seen| ==>
          !s.seen[s.threads[a].msg])
    && (forall m :: m in s.out && m < |s.seen| ==> s.seen[m] || exists a ::
          0 <= a < |s.threads| && Eats(s.threads[a]) && s.threads[a].msg == m)
  }

  ghost predicate Inv(s: State) {
    Loops(s) && Tokens(s) && Queues(s) && Ring(s) && Messages(s) && Consumed(s)
  }

  // ---------------------------------------------------------------------------------- each step

  /** A step other than signalling moves thread `t` only, and keeps the counting right. */
  ghost predicate OwnStep(s: State, s': State, t: nat)
    requires t < |s.threads|
  {
    && |s'.threads| == |s.threads| && s'.threads == s.threads[t := s'.threads[t]] && LoopOk(s'.threads[t])
    && s'.threads[t].producer == s.threads[t].producer && s'.threads[t].goal == s.threads[t].goal
    && forall rest :: TokensOf(s, Plus(rest, Of(s.threads[t]))) ==> TokensOf(s', Plus(rest, Of(s'.threads[t])))
  }

  lemma TestLoopStep(s: State, t: nat)
    requires t < |s.threads| && LoopOk(s.threads[t]) && s.threads[t].pc.Loop?
    ensures OwnStep(s, TestLoop(s, t), t)
  {
  }

  lemma WaitSemStep(s: State, t: nat)
    requires t < |s.threads| && LoopOk(s.threads[t]) && s.threads[t].pc.Wait?
    ensures OwnStep(s, WaitSem(s, t), t)
  {
  }

  lemma DrawStep(s: State, t: nat)
    requires t < |s.threads| && LoopOk(s.threads[t]) && s.threads[t].pc.New?
    ensures OwnStep(s, Draw(s, t), t)
  {
  }

  lemma TryLockStep(s: State, t: nat)
    requires t < |s.threads| && LoopOk(s.threads[t]) && s.threads[t].pc.Lock?
    ensures OwnStep(s, TryLock(s, t), t)
  {
  }

  lemma ReadLockStep(s: State, t: nat)
    requires t < |s.threads| && LoopOk(s.threads[t]) && s.threads[t].pc.Spin?
    ensures OwnStep(s, ReadLock(s, t), t)
  {
  }

  lemma AccessSlotStep(s: State, t: nat)
    requires t < |s.threads| && LoopOk(s.threads[t]) && s.threads[t].pc.Access?
    ensures OwnStep(s, AccessSlot(s, t), t)
  {
  }

  lemma LoadIndexStep(s: State, t: nat)
    requires t < |s.threads| && LoopOk(s.threads[t]) && s.threads[t].pc.IdxLoad?
    ensures OwnStep(s, LoadIndex(s, t), t)
  {
  }

  lemma StoreIndexStep(s: State, t: nat)
    requires t < |s.threads| && LoopOk(s.threads[t]) && s.threads[t].pc.IdxStore?
    ensures OwnStep(s, StoreIndex(s, t), t)
  {
  }

  lemma ReleaseStep(s: State, t: nat)
    requires t < |s.threads| && LoopOk(s.threads[t]) && s.threads[t].pc.Unlock?
    ensures OwnStep(s, Release(s, t), t)
  {
  }

  lemma CheckMsgStep(s: State, t: nat)
    requires t < |s.threads| && LoopOk(s.threads[t]) && s.threads[t].pc.Check?
    ensures OwnStep(s, CheckMsg(s, t), t)
  {
  }

  lemma NoteMsgStep(s: State, t: nat)
    requires t < |s.threads| && LoopOk(s.threads[t]) && s.threads[t].pc.Note?
    ensures OwnStep(s, NoteMsg(s, t), t)
  {
  }

  lemma LeaveStep(s: State, t: nat)
    requires t < |s.threads| && LoopOk(s.threads[t]) && s.threads[t].pc.Exit?
    ensures OwnStep(s, Leave(s, t), t)
  {
  }

  lemma NextOwn(s: State, t: nat)
    requires t < |s.threads| && LoopOk(s.threads[t]) && !s.threads[t].pc.Signal?
    ensures OwnStep(s, Next(s, t), t)
  {
    match s.threads[t].pc {
      case Loop => TestLoopStep(s, t);
      case Wait => WaitSemStep(s, t);
      case New => DrawStep(s, t);
      case Lock => TryLockStep(s, t);
      case Spin => ReadLockStep(s, t);
      case Access => AccessSlotStep(s, t);
      case IdxLoad => LoadIndexStep(s, t);
      case IdxStore => StoreIndexStep(s, t);
      case Unlock => ReleaseStep(s, t);
      case Check => CheckMsgStep(s, t);
      case Note => NoteMsgStep(s, t);
      case Exit => LeaveStep(s, t);
      case Blocked | Done =>
    }
  }

  /** The semaphore that thread `u` signals. */
  function Target(s: State, u: Thread): Sem {
    if u.producer then s.filled else s.empty
  }

  lemma SignalNone(s: State, t: nat, rest: Counts)
    requires t < |s.threads| && LoopOk(s.threads[t]) && s.threads[t].pc.Signal?
             && TokensOf(s, Plus(rest, Of(s.threads[t])))
    requires Target(s, s.threads[t]).waiting == []
    ensures TokensOf(SignalSem(s, t), Plus(rest, Of(AfterSignal(s.threads[t]))))
  {
  }

  lemma MovesCount(u: Thread, v: Thread, rest: Counts, rest': Counts)
    requires LoopOk(u) && u.pc.Signal? && v.pc.Blocked? && v.producer != u.producer
    requires Plus(rest, Of(AfterSignal(u))) == Plus(rest', Of(v))
    ensures var c, c' := Plus(rest, Of(u)), Plus(rest', Of(AfterWait(v)));
            && c'.written == c.written && c'.fetched == c.fetched && c'.drawn == c.drawn && c'.goalP == c.goalP
            && c'.left == c.left && c'.inside == c.inside
            && c'.owesP + Bit(u.producer) == c.owesP && c'.owesC + Bit(!u.producer) == c.owesC
            && c'.holdsC == c.holdsC + Bit(u.producer) && c'.holdsP == c.holdsP + Bit(!u.producer)
  {
  }

  /** The two moves of a signalling thread: its own, and that of the thread it wakes. */
  lemma SignalOne(s: State, t: nat, v: Thread, rest: Counts, rest': Counts)
    requires t < |s.threads| && LoopOk(s.threads[t]) && s.threads[t].pc.Signal?
             && TokensOf(s, Plus(rest, Of(s.threads[t])))
    requires Target(s, s.threads[t]).waiting != [] && v.pc.Blocked? && v.producer != s.threads[t].producer
    requires Plus(rest, Of(AfterSignal(s.threads[t]))) == Plus(rest', Of(v))
    ensures TokensOf(SignalSem(s, t), Plus(rest', Of(AfterWait(v))))
  {
    MovesCount(s.threads[t], v, rest, rest');
  }

  lemma SignalLists(s: State, t: nat, a: nat)
    requires Queues(s) && t < |s.threads| && s.threads[t].pc.Signal?
    requires Target(s, s.threads[t]).waiting != [] && a == Target(s, s.threads[t]).waiting[0]
    ensures a < |s.threads| && a != t && s.threads[a].pc.Blocked? && s.threads[a].producer != s.threads[t].producer
    ensures SignalSem(s, t).threads == s.threads[t := AfterSignal(s.threads[t])][a := AfterWait(s.threads[a])]
  {
    assert a in Target(s, s.threads[t]).waiting;
  }

  lemma SignalTokens(s: State, t: nat)
    requires Loops(s) && Tokens(s) && Queues(s) && t < |s.threads| && s.threads[t].pc.Signal?
    ensures Tokens(SignalSem(s, t))
  {
    var u := s.threads[t];
    var rest := TallySplit(s.threads, t, AfterSignal(u));
    if Target(s, u).waiting == [] {
      SignalNone(s, t, rest);
    } else {
      var a := Target(s, u).waiting[0];
      SignalLists(s, t, a);
      var rest' := TallySplit(s.threads[t := AfterSignal(u)], a, AfterWait(s.threads[a]));
      SignalOne(s, t, s.threads[a], rest, rest');
    }
  }

  lemma SignalLoops(s: State, t: nat)
    requires Loops(s) && Queues(s) && t < |s.threads| && s.threads[t].pc.Signal?
    ensures Loops(SignalSem(s, t)) && |SignalSem(s, t).threads| == |s.threads|
  {
    if Target(s, s.threads[t]).waiting != [] {
      SignalLists(s, t, Target(s, s.threads[t]).waiting[0]);
    }
  }

  lemma NextTokens(s: State, t: nat)
    requires Loops(s) && Tokens(s) && Queues(s) && t < |s.threads|
    ensures Loops(Next(s, t)) && Tokens(Next(s, t))
  {
    if s.threads[t].pc.Signal? {
      SignalTokens(s, t);
      SignalLoops(s, t);
    } else {
      NextOwn(s, t);
      var rest := TallySplit(s.threads, t, Next(s, t).threads[t]);
    }
  }

  // ------------------------------------------------------------------ parts that a step leaves alone

  /** The ring is as before, and so is what thread `t` has to do with it. */
  ghost predicate RingSame(s: State, s': State, t: nat)
    requires t < |s.threads|
  {
    && s'.size == s.size && s'.buffer == s.buffer && s'.w == s.w && s'.r == s.r && s'.log == s.log && s'.out == s.out
    && |s'.threads| == |s.threads| && s'.threads == s.threads[t := s'.threads[t]]
    && Of(s'.threads[t]).lateP == Of(s.threads[t]).lateP && Of(s'.threads[t]).lateC == Of(s.threads[t]).lateC
    && !s'.threads[t].pc.IdxStore?
  }

  ghost predicate MessagesSame(s: State, s': State, t: nat)
    requires t < |s.threads|
  {
    && s'.log == s.log && s'.cnt == s.cnt
    && |s'.threads| == |s.threads| && s'.threads == s.threads[t := s'.threads[t]]
    && Carries(s'.threads[t]) == Carries(s.threads[t])
       && (Carries(s.threads[t]) ==> s'.threads[t].msg == s.threads[t].msg)
  }

  ghost predicate ConsumedSame(s: State, s': State, t: nat)
    requires t < |s.threads|
  {
    && s'.out == s.out && s'.seen == s.seen
    && |s'.threads| == |s.threads| && s'.threads == s.threads[t := s'.threads[t]]
    && Eats(s'.threads[t]) == Eats(s.threads[t]) && (Eats(s.threads[t]) ==> s'.threads[t].msg == s.threads[t].msg)
  }

  ghost predicate QueuesSame(s: State, s': State, t: nat)
    requires t < |s.threads|
  {
    && s'.empty == s.empty && s'.filled == s.filled
    && |s'.threads| == |s.threads| && s'.threads == s.threads[t := s'.threads[t]]
    && !s'.threads[t].pc.Blocked? && !s.threads[t].pc.Blocked?
  }

  lemma SameParts(s: State, t: nat)
    requires t < |s.threads| && LoopOk(s.threads[t])
    requires var pc := s.threads[t].pc; !pc.Signal? && !pc.Blocked? && !pc.Done?
    ensures var pc := s.threads[t].pc;
            && (!pc.Access? && !pc.IdxLoad? && !pc.IdxStore? ==> RingSame(s, Next(s, t), t))
            && (!pc.Access? && !pc.New? ==> MessagesSame(s, Next(s, t), t))
            && (!pc.Access? && !pc.Note? ==> ConsumedSame(s, Next(s, t), t))
            && (!pc.Wait? ==> QueuesSame(s, Next(s, t), t))
  {
  }

  lemma RingKept(s: State, s': State, t: nat)
    requires t < |s.threads| && RingSame(s, s', t) && Ring(s)
    ensures Ring(s')
  {
    var rest := TallySplit(s.threads, t, s'.threads[t]);
    LateSame(s.threads[t], s'.threads[t], rest);
  }

  lemma LateSame(u: Thread, v: Thread, rest: Counts)
    requires Of(v).lateP == Of(u).lateP && Of(v).lateC == Of(u).lateC
    ensures Plus(rest, Of(v)).lateP == Plus(rest, Of(u)).lateP && Plus(rest, Of(v)).lateC == Plus(rest, Of(u)).lateC
  {
  }

  lemma MessagesKept(s: State, s': State, t: nat)
    requires t < |s.threads| && MessagesSame(s, s', t) && Messages(s)
    ensures Messages(s')
  {
    forall m: nat | m < s.cnt && m !in s.log
      ensures exists a :: 0 <= a < |s'.threads| && Carries(s'.threads[a]) && s'.threads[a].msg == m
    {
      var a :| 0 <= a < |s.threads| && Carries(s.threads[a]) && s.threads[a].msg == m;
      assert Carries(s'.threads[a]) && s'.threads[a].msg == m;
    }
  }

  lemma ConsumedKept(s: State, s': State, t: nat)
    requires t < |s.threads| && ConsumedSame(s, s', t) && Consumed(s)
    ensures Consumed(s')
  {
    forall m | m in s.out && m < |s.seen| && !s.seen[m]
      ensures exists a :: 0 <= a < |s'.threads| && Eats(s'.threads[a]) && s'.threads[a].msg == m
    {
      var a :| 0 <= a < |s.threads| && Eats(s.threads[a]) && s.threads[a].msg == m;
      assert Eats(s'.threads[a]) && s'.threads[a].msg == m;
    }
  }

  lemma QueuesKept(s: State, s': State, t: nat)
    requires t < |s.threads| && QueuesSame(s, s', t) && Queues(s)
    ensures Queues(s')
  {
  }

  // -------------------------------------------------------------------------- the critical section

  lemma {:induction false} LateInside(cs: seq<Counts>)
    requires forall a :: 0 <= a < |cs| ==> cs[a].lateP + cs[a].lateC <= cs[a].inside
    ensures Total(cs).lateP + Total(cs).lateC <= Total(cs).inside
  {
    if cs != [] {
      LateInside(cs[..|cs| - 1]);
    }
  }

  /** A thread in the critical section is alone there. */
  lemma Alone(s: State, t: nat, b: nat)
    requires Tokens(s) && t < |s.threads| && b < |s.threads| && Of(s.threads[t]).inside == 1
    ensures b != t ==> Of(s.threads[b]).inside == 0
  {
    if b != t {
      var rest := TotalTwo(Each(s.threads), if b < t then b else t, if b < t then t else b);
    }
  }

  lemma LateAlone(s: State, t: nat)
    requires Tokens(s) && t < |s.threads| && Of(s.threads[t]).inside == 1
    ensures Tally(s.threads).lateP == Of(s.threads[t]).lateP && Tally(s.threads).lateC == Of(s.threads[t]).lateC
  {
    var v := s.threads[t].(pc := Loop);
    var rest := TallySplit(s.threads, t, v);
    LateInside(Each(s.threads[t := v]));
  }
}
