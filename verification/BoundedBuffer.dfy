/** The producer/consumer program: any number of producer and consumer threads around a ring buffer,
    two kernel semaphores and a test-and-set spinlock, as a transition system over single memory
    accesses and kernel entries. */
module BoundedBuffer {

  /** Where a thread is in its loop. */
  datatype Pc =
    | Loop      // about to test i against the number of items
    | Wait      // about to enter wait_sem
    | Blocked   // on the waiting list of its semaphore
    | New       // producer: about to draw a message number
    | Lock      // about to test-and-set the spinlock
    | Spin      // found it taken; about to read it again
    | Access    // holds the lock; about to write (read) the slot at the write (read) index
    | IdxLoad   // about to load that index
    | IdxStore  // about to store the advanced index
    | Unlock
    | Signal    // about to enter signal_sem
    | Check     // consumer: about to assert that the message was not consumed before
    | Note      // consumer: about to record that it was
    | Exit
    | Done

  datatype Thread = Thread(producer: bool, goal: nat, i: nat, pc: Pc, msg: nat, tmp: nat)

  datatype Sem = Sem(count: nat, waiting: seq<nat>)

  /** `log` and `out` record the messages in the order in which they were written and read. */
  datatype State = State(size: nat, threads: seq<Thread>, locked: bool, buffer: seq<nat>, w: nat, r: nat,
                         empty: Sem, filled: Sem, cnt: nat, seen: seq<bool>, exits: nat,
                         log: seq<nat>, out: seq<nat>)

  // ------------------------------------------------------------------------------------- the program

  /** signal_sem on a semaphore on which nobody waits, `n` times: the loop in main. */
  function SignalTimes(s: Sem, n: nat): (r: Sem)
    requires s.waiting == []
    ensures r == Sem(s.count + n, [])
    decreases n
  {
    if n == 0 then s else SignalTimes(Sem(s.count + 1, []), n - 1)
  }

  function Init(size: nat, roles: seq<(bool, nat)>): State
    requires size > 0
  {
    var ts := seq(|roles|, a requires 0 <= a < |roles| => Thread(roles[a].0, roles[a].1, 0, Loop, 0, 0));
    State(size, ts, false, seq(size, _ => 0), 0, 0, SignalTimes(Sem(0, []), size), Sem(0, []),
          0, seq(Tally(ts).goalP, _ => false), 0, [], [])
  }

  function Put(s: State, t: nat, u: Thread): State
    requires t < |s.threads|
  {
    s.(threads := s.threads[t := u])
  }

  function TestLoop(s: State, t: nat): State
    requires t < |s.threads|
  {
    var u := s.threads[t];
    Put(s, t, u.(pc := if u.i < u.goal then Wait else Exit))
  }

  function AfterWait(u: Thread): Thread {
    u.(pc := if u.producer then New else Lock)
  }

  /** wait_sem with is_block; a producer waits on `empty`, a consumer on `filled`. */
  function WaitSem(s: State, t: nat): State
    requires t < |s.threads|
  {
    var u := s.threads[t];
    var sem := if u.producer then s.empty else s.filled;
    var sem' := if sem.count > 0 then sem.(count := sem.count - 1) else sem.(waiting := sem.waiting + [t]);
    var u' := if sem.count > 0 then AfterWait(u) else u.(pc := Blocked);
    var s' := Put(s, t, u');
    if u.producer then s'.(empty := sem') else s'.(filled := sem')
  }

  /** produce_new: an atomic fetch-and-add. */
  function Draw(s: State, t: nat): State
    requires t < |s.threads|
  {
    Put(s, t, s.threads[t].(pc := Lock, msg := s.cnt)).(cnt := s.cnt + 1)
  }

  /** The atomic test-and-set of spinlock_lock. */
  function TryLock(s: State, t: nat): State
    requires t < |s.threads|
  {
    if s.locked then Put(s, t, s.threads[t].(pc := Spin)) else Put(s, t, s.threads[t].(pc := Access)).(locked := true)
  }

  function ReadLock(s: State, t: nat): State
    requires t < |s.threads|
  {
    if s.locked then s else Put(s, t, s.threads[t].(pc := Lock))
  }

  /** A producer writes its message into the slot at the write index, a consumer reads the one at the read index. */
  function AccessSlot(s: State, t: nat): State
    requires t < |s.threads|
  {
    var u := s.threads[t];
    if u.producer then
      Put(s, t, u.(pc := IdxLoad))
      .(buffer := if s.w < |s.buffer| then s.buffer[s.w := u.msg] else s.buffer, log := s.log + [u.msg])
    else
      var m := if s.r < |s.buffer| then s.buffer[s.r] else 0;
      Put(s, t, u.(pc := IdxLoad, msg := m)).(out := s.out + [m])
  }

  function LoadIndex(s: State, t: nat): State
    requires t < |s.threads|
  {
    var u := s.threads[t];
    Put(s, t, u.(pc := IdxStore, tmp := Advance(s.size, if u.producer then s.w else s.r)))
  }

  function StoreIndex(s: State, t: nat): State
    requires t < |s.threads|
  {
    var u := s.threads[t];
    var s' := Put(s, t, u.(pc := Unlock));
    if u.producer then s'.(w := u.tmp) else s'.(r := u.tmp)
  }

  function Release(s: State, t: nat): State
    requires t < |s.threads|
  {
    Put(s, t, s.threads[t].(pc := Signal)).(locked := false)
  }

  function AfterSignal(u: Thread): Thread {
    if u.producer then u.(pc := Loop, i := u.i + 1) else u.(pc := Check)
  }

  /** signal_sem, by a producer on `filled` and by a consumer on `empty`: wakes the first waiting
      thread, or counts up if there is none. */
  function SignalSem(s: State, t: nat): State
    requires t < |s.threads|
  {
    var u := s.threads[t];
    var s' := Put(s, t, AfterSignal(u));
    var sem := if u.producer then s.filled else s.empty;
    if sem.waiting == [] then
      var sem' := sem.(count := sem.count + 1);
      if u.producer then s'.(filled := sem') else s'.(empty := sem')
    else
      var a, sem' := sem.waiting[0], sem.(waiting := sem.waiting[1..]);
      var s'' := if a < |s.threads| then Put(s', a, AfterWait(s'.threads[a])) else s';
      if u.producer then s''.(filled := sem') else s''.(empty := sem')
  }

  /** The assertion of consume_msg: the state does not change. */
  function CheckMsg(s: State, t: nat): State
    requires t < |s.threads|
  {
    Put(s, t, s.threads[t].(pc := Note))
  }

  function NoteMsg(s: State, t: nat): State
    requires t < |s.threads|
  {
    var u := s.threads[t];
    Put(s, t, u.(pc := Loop, i := u.i + 1)).(seen := if u.msg < |s.seen| then s.seen[u.msg := true] else s.seen)
  }

  function Leave(s: State, t: nat): State
    requires t < |s.threads|
  {
    Put(s, t, s.threads[t].(pc := Done)).(exits := s.exits + 1)
  }

  /** One step of thread `t`; a blocked or finished thread takes none. */
  function Next(s: State, t: nat): State {
    if t >= |s.threads| then s
    else
      match s.threads[t].pc {
        case Loop => TestLoop(s, t)
        case Wait => WaitSem(s, t)
        case Blocked => s
        case New => Draw(s, t)
        case Lock => TryLock(s, t)
        case Spin => ReadLock(s, t)
        case Access => AccessSlot(s, t)
        case IdxLoad => LoadIndex(s, t)
        case IdxStore => StoreIndex(s, t)
        case Unlock => Release(s, t)
        case Signal => SignalSem(s, t)
        case Check => CheckMsg(s, t)
        case Note => NoteMsg(s, t)
        case Exit => Leave(s, t)
        case Done => s
      }
  }

  /** The state after the threads named in `sched` have taken one step each, in that order. */
  function Run(s: State, sched: seq<nat>): State {
    if sched == [] then s else Next(Run(s, sched[..|sched| - 1]), sched[|sched| - 1])
  }

  /** (x + 1) % size for an index below size. */
  function Advance(size: nat, x: nat): nat {
    if x + 1 == size then 0 else x + 1
  }

  /** The slot of the k-th message, counting from 0. */
  function Slot(size: nat, k: nat): (r: nat)
    requires size > 0
    ensures r < size
  {
    if k == 0 then 0 else Advance(size, Slot(size, k - 1))
  }

  lemma {:induction false} SlotAhead(size: nat, k: nat, d: nat)
    requires d < size
    ensures Slot(size, k + d) == if Slot(size, k) + d < size then Slot(size, k) + d else Slot(size, k) + d - size
  {
    if d > 0 {
      SlotAhead(size, k, d - 1);
    }
  }

  // ------------------------------------------------------------------------------ counting threads

  /** What a thread, or all threads together, count for; the index p is for producers, c for consumers. */
  datatype Counts = Counts(
    holdsP: nat, holdsC: nat,   // passed the semaphore, not yet at the slot
    owesP: nat, owesC: nat,     // was at the slot, has not yet signalled
    lateP: nat, lateC: nat,     // was at the slot, has not yet advanced the index
    written: nat, fetched: nat, // items written and read
    goalP: nat, goalC: nat,     // items to be written and read
    drawn: nat,                 // message numbers drawn
    inside: nat,                // in the critical section
    left: nat,
    work: nat)

  function Rank(pc: Pc): nat {
    match pc {
      case Loop => 14
      case Wait => 13
      case Blocked => 12
      case New => 11
      case Lock => 10
      case Spin => 10
      case Access => 9
      case IdxLoad => 8
      case IdxStore => 7
      case Unlock => 6
      case Signal => 5
      case Check => 4
      case Note => 3
      case Exit => 1
      case Done => 0
    }
  }

  function Bit(b: bool): nat {
    if b then 1 else 0
  }

  function Of(u: Thread): Counts {
    var holds := Bit(u.pc.New? || u.pc.Lock? || u.pc.Spin? || u.pc.Access?);
    var late := Bit(u.pc.IdxLoad? || u.pc.IdxStore?);
    var owes := late + Bit(u.pc.Unlock? || u.pc.Signal?);
    var inside := late + Bit(u.pc.Access? || u.pc.Unlock?);
    var left := Bit(u.pc.Done?);
    var work := (if u.i <= u.goal then 15 * (u.goal - u.i) else 0) + Rank(u.pc);
    if u.producer then
      Counts(holds, 0, owes, 0, late, 0, u.i + owes, 0, u.goal, 0,
             u.i + owes + Bit(u.pc.Lock? || u.pc.Spin? || u.pc.Access?), inside, left, work)
    else
      Counts(0, holds, 0, owes, 0, late, 0, u.i + owes + Bit(u.pc.Check? || u.pc.Note?), 0, u.goal, 0, inside, left,
             work)
  }

  function Plus(c: Counts, d: Counts): Counts {
    Counts(c.holdsP + d.holdsP, c.holdsC + d.holdsC, c.owesP + d.owesP, c.owesC + d.owesC, c.lateP + d.lateP,
           c.lateC + d.lateC,
           c.written + d.written, c.fetched + d.fetched, c.goalP + d.goalP, c.goalC + d.goalC, c.drawn + d.drawn,
           c.inside + d.inside, c.left + d.left, c.work + d.work)
  }

  function Total(cs: seq<Counts>): Counts {
    if cs == [] then Counts(0, 0, 0, 0, 0, 0, 0, 0, 0, 0, 0, 0, 0, 0)
    else Plus(Total(cs[..|cs| - 1]), cs[|cs| - 1])
  }

  function Each(ts: seq<Thread>): (r: seq<Counts>)
    ensures |r| == |ts| && forall a :: 0 <= a < |ts| ==> r[a] == Of(ts[a])
  {
    seq(|ts|, a requires 0 <= a < |ts| => Of(ts[a]))
  }

  function Tally(ts: seq<Thread>): Counts {
    Total(Each(ts))
  }

  lemma PlusSwap(c: Counts, d: Counts, e: Counts)
    ensures Plus(Plus(c, d), e) == Plus(Plus(c, e), d)
  {
  }

  lemma {:induction false} TotalSplit(cs: seq<Counts>, a: nat, v: Counts) returns (rest: Counts)
    requires a < |cs|
    ensures Total(cs) == Plus(rest, cs[a]) && Total(cs[a := v]) == Plus(rest, v)
  {
    var n := |cs| - 1;
    if a == n {
      assert cs[a := v][..n] == cs[..n];
      rest := Total(cs[..n]);
    } else {
      assert cs[a := v][..n] == cs[..n][a := v];
      var r := TotalSplit(cs[..n], a, v);
      rest := Plus(r, cs[n]);
      PlusSwap(r, cs[a], cs[n]);
      PlusSwap(r, v, cs[n]);
    }
  }

  lemma {:induction false} TotalTwo(cs: seq<Counts>, a: nat, b: nat) returns (rest: Counts)
    requires a < b < |cs|
    ensures Total(cs) == Plus(Plus(rest, cs[a]), cs[b])
  {
    var n := |cs| - 1;
    if b == n {
      rest := TotalSplit(cs[..n], a, cs[a]);
    } else {
      var r := TotalTwo(cs[..n], a, b);
      rest := Plus(r, cs[n]);
      PlusSwap(Plus(r, cs[a]), cs[b], cs[n]);
      PlusSwap(r, cs[a], cs[n]);
    }
  }

  /** The threads other than `a` count for the same, whatever `a` does. */
  lemma TallySplit(ts: seq<Thread>, a: nat, v: Thread) returns (rest: Counts)
    requires a < |ts|
    ensures Tally(ts) == Plus(rest, Of(ts[a])) && Tally(ts[a := v]) == Plus(rest, Of(v))
  {
    rest := TotalSplit(Each(ts), a, Of(v));
    assert Each(ts[a := v]) == Each(ts)[a := Of(v)];
  }
}
