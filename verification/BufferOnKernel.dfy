/** The producer/consumer program on the semaphores of the kernel: its waits and signals are system calls of the kernel
    threads that run it, among all other kernel entries. */
module BufferOnKernel {
  import opened Common
  import B = BoundedBuffer
  import BoundedBufferSafety
  import BoundedBufferRuns
  import BoundedBufferProgress
  import K = Scheduler
  import SchedulerPlaces
  import SchedulerRuns
  import SemaphoreRuns

  /** Which kernel thread runs each thread of the program, and which kernel semaphores it uses. */
  datatype Binding = Binding(id: seq<nat>, empty: nat, filled: nat)

  /** The kernel threads that run the threads in `w`. */
  function Ids(id: seq<nat>, w: seq<nat>): (r: seq<nat>)
    ensures |r| == |w|
  {
    seq(|w|, i requires 0 <= i < |w| => if w[i] < |id| then id[w[i]] else 0)
  }

  predicate SameSem(x: K.Sem, y: B.Sem, id: seq<nat>) {
    x.count == y.count && x.waiting == Ids(id, y.waiting)
  }

  /** The kernel semaphores are in the state that the program has for them. */
  ghost predicate Related(k: K.State, b: B.State, m: Binding) {
    && |m.id| == |b.threads| && NoDup(m.id) && m.empty < |k.sems| && m.filled < |k.sems| && m.empty != m.filled
    && SameSem(k.sems[m.empty], b.empty, m.id) && SameSem(k.sems[m.filled], b.filled, m.id)
  }

  /** A step of the program that is a system call on CPU `c`, one that is none, or any other kernel entry. */
  datatype Joint = Call(c: nat, t: nat) | User(t: nat) | Entry(e: K.Event)

  predicate AtCall(b: B.State, t: nat) {
    t < |b.threads| && (b.threads[t].pc.Wait? || b.threads[t].pc.Signal?)
  }

  /** The system call of thread `t`. */
  function CallOf(b: B.State, m: Binding, c: nat, t: nat): K.Event
    requires AtCall(b, t)
  {
    var u := b.threads[t];
    if u.pc.Wait? then K.Wait(c, if u.producer then m.empty else m.filled, true)
    else K.Signal(c, if u.producer then m.filled else m.empty)
  }

  /** No other program uses the two semaphores. */
  predicate Foreign(e: K.Event, m: Binding) {
    !((e.Wait? || e.Signal?) && (e.q == m.empty || e.q == m.filled))
  }

  predicate Possible(k: K.State, b: B.State, m: Binding, j: Joint) {
    match j
    case Call(c, t) =>
      AtCall(b, t) && t < |m.id| && K.Enabled(k, CallOf(b, m, c, t)) && k.current[c].value == m.id[t]
    case User(t) => !AtCall(b, t)
    case Entry(e) => K.Enabled(k, e) && Foreign(e, m)
  }

  function KernelStep(k: K.State, b: B.State, m: Binding, j: Joint): K.State
    requires Possible(k, b, m, j)
  {
    match j
    case Call(c, t) => K.Step(k, CallOf(b, m, c, t))
    case User(_) => k
    case Entry(e) => K.Step(k, e)
  }

  function ProgramStep(b: B.State, j: Joint): B.State {
    match j
    case Call(_, t) => B.Next(b, t)
    case User(t) => B.Next(b, t)
    case Entry(_) => b
  }

  // -------------------------------------------------------------------------------------------- one step

  lemma IdsAppend(id: seq<nat>, w: seq<nat>, t: nat)
    requires t < |id|
    ensures Ids(id, w + [t]) == Ids(id, w) + [id[t]]
  {
  }

  lemma IdsTail(id: seq<nat>, w: seq<nat>)
    requires w != [] && w[0] < |id|
    ensures Ids(id, w[1..]) == Ids(id, w)[1..] && Ids(id, w)[0] == id[w[0]]
  {
  }

  /** wait_sem does to the record what the program expects. */
  lemma WaitRefines(s: K.State, c: nat, q: nat, x: K.Sem, y: K.Sem, sem: B.Sem, id: seq<nat>, t: nat)
    requires K.Enabled(s, K.Wait(c, q, true)) && t < |id| && s.current[c].value == id[t] && x == s.sems[q]
    requires SemaphoreRuns.SemMoves(s, K.Wait(c, q, true), q, x, y) && SameSem(x, sem, id)
    ensures SameSem(y, if sem.count > 0 then sem.(count := sem.count - 1) else sem.(waiting := sem.waiting + [t]), id)
  {
    IdsAppend(id, sem.waiting, t);
    assert x.waiting + [] == x.waiting && [] + y.waiting == y.waiting;
  }

  /** So does signal_sem. */
  lemma SignalRefines(s: K.State, c: nat, q: nat, x: K.Sem, y: K.Sem, sem: B.Sem, id: seq<nat>)
    requires K.Enabled(s, K.Signal(c, q)) && x == s.sems[q] && forall a :: a in sem.waiting ==> a < |id|
    requires SemaphoreRuns.SemMoves(s, K.Signal(c, q), q, x, y) && SameSem(x, sem, id)
    ensures SameSem(y, if sem.waiting == [] then sem.(count := sem.count + 1)
                      else sem.(waiting := sem.waiting[1..]), id)
  {
    assert x.waiting + [] == x.waiting && [] + y.waiting == y.waiting;
    if sem.waiting != [] {
      assert sem.waiting[0] in sem.waiting;
      IdsTail(id, sem.waiting);
      assert ([x.waiting[0]] + y.waiting)[1..] == y.waiting;
    }
  }

  lemma OtherSame(s: K.State, e: K.Event, q: nat, x: K.Sem, y: K.Sem, sem: B.Sem, id: seq<nat>)
    requires K.Enabled(s, e) && SemaphoreRuns.SemMoves(s, e, q, x, y) && SameSem(x, sem, id)
             && !SemaphoreRuns.Waits(e, q) && !SemaphoreRuns.Signals(e, q)
    ensures SameSem(y, sem, id)
  {
    assert x.waiting + [] == x.waiting && [] + y.waiting == y.waiting;
  }

  /** What a wait of the program does to its semaphores. */
  lemma ProgramWait(b: B.State, t: nat)
    requires t < |b.threads| && b.threads[t].pc.Wait?
    ensures var s, u := B.Next(b, t), b.threads[t];
            var sem := if u.producer then b.empty else b.filled;
            var sem' := if sem.count > 0 then sem.(count := sem.count - 1) else sem.(waiting := sem.waiting + [t]);
            |s.threads| == |b.threads| && s.empty == (if u.producer then sem' else b.empty)
            && s.filled == (if u.producer then b.filled else sem')
  {
  }

  lemma ProgramSignal(b: B.State, t: nat)
    requires t < |b.threads| && b.threads[t].pc.Signal?
    ensures var s, u := B.Next(b, t), b.threads[t];
            var sem := if u.producer then b.filled else b.empty;
            var sem' := if sem.waiting == [] then sem.(count := sem.count + 1) else sem.(waiting := sem.waiting[1..]);
            |s.threads| == |b.threads| && s.filled == (if u.producer then sem' else b.filled)
            && s.empty == (if u.producer then b.empty else sem')
  {
  }

  lemma ProgramOther(b: B.State, t: nat)
    requires !AtCall(b, t)
    ensures B.Next(b, t).empty == b.empty && B.Next(b, t).filled == b.filled
            && |B.Next(b, t).threads| == |b.threads|
  {
  }

  lemma WaitersKnown(b: B.State, m: Binding)
    requires BoundedBufferSafety.Inv(b) && |m.id| == |b.threads|
    ensures forall a :: a in b.empty.waiting || a in b.filled.waiting ==> a < |m.id|
  {
  }

  lemma CallRefines(k: K.State, b: B.State, m: Binding, c: nat, t: nat)
    requires SchedulerRuns.Inv(k) && BoundedBufferSafety.Inv(b) && Related(k, b, m) && Possible(k, b, m, Call(c, t))
    ensures Related(K.Step(k, CallOf(b, m, c, t)), B.Next(b, t), m)
  {
    var e, u := CallOf(b, m, c, t), b.threads[t];
    var k' := K.Step(k, e);
    SemaphoreRuns.StepSem(k, e, m.empty);
    SemaphoreRuns.StepSem(k, e, m.filled);
    WaitersKnown(b, m);
    var other, sem := if e.q == m.empty then m.filled else m.empty, if e.q == m.empty then b.empty else b.filled;
    OtherSame(k, e, other, k.sems[other], k'.sems[other], if e.q == m.empty then b.filled else b.empty, m.id);
    if u.pc.Wait? {
      ProgramWait(b, t);
      WaitRefines(k, c, e.q, k.sems[e.q], k'.sems[e.q], sem, m.id, t);
    } else {
      ProgramSignal(b, t);
      SignalRefines(k, c, e.q, k.sems[e.q], k'.sems[e.q], sem, m.id);
    }
  }

  lemma EntryRefines(k: K.State, b: B.State, m: Binding, e: K.Event)
    requires SchedulerRuns.Inv(k) && Related(k, b, m) && K.Enabled(k, e) && Foreign(e, m)
    ensures Related(K.Step(k, e), b, m)
  {
    var k' := K.Step(k, e);
    SemaphoreRuns.StepSem(k, e, m.empty);
    SemaphoreRuns.StepSem(k, e, m.filled);
    OtherSame(k, e, m.empty, k.sems[m.empty], k'.sems[m.empty], b.empty, m.id);
    OtherSame(k, e, m.filled, k.sems[m.filled], k'.sems[m.filled], b.filled, m.id);
  }

  /** Every step of the two together is one of the program and keeps the semaphores in step. */
  lemma JointRefines(k: K.State, b: B.State, m: Binding, j: Joint)
    requires SchedulerRuns.Inv(k) && BoundedBufferSafety.Inv(b) && Related(k, b, m) && Possible(k, b, m, j)
    ensures SchedulerRuns.Inv(KernelStep(k, b, m, j)) && BoundedBufferSafety.Inv(ProgramStep(b, j))
            && Related(KernelStep(k, b, m, j), ProgramStep(b, j), m)
  {
    match j
    case Call(c, t) =>
      SchedulerRuns.StepInv(k, CallOf(b, m, c, t));
      BoundedBufferRuns.NextInv(b, t);
      CallRefines(k, b, m, c, t);
    case User(t) =>
      BoundedBufferRuns.NextInv(b, t);
      ProgramOther(b, t);
    case Entry(e) =>
      SchedulerRuns.StepInv(k, e);
      EntryRefines(k, b, m, e);
  }

  // ----------------------------------------------------------------------------------------------- runs

  predicate LegalRun(k: K.State, b: B.State, m: Binding, js: seq<Joint>)
    decreases |js|
  {
    js == [] || (Possible(k, b, m, js[0]) && LegalRun(KernelStep(k, b, m, js[0]), ProgramStep(b, js[0]), m, js[1..]))
  }

  function KernelAfter(k: K.State, b: B.State, m: Binding, js: seq<Joint>): K.State
    requires LegalRun(k, b, m, js)
    decreases |js|
  {
    if js == [] then k else KernelAfter(KernelStep(k, b, m, js[0]), ProgramStep(b, js[0]), m, js[1..])
  }

  /** The threads of the program in the order of their steps. */
  function Turns(js: seq<Joint>): seq<nat> {
    if js == [] then []
    else match js[0] { case Call(_, t) => [t] case User(t) => [t] case Entry(_) => [] } + Turns(js[1..])
  }

  /** Whatever else the kernel does in between, the program goes through one of its interleavings, and its semaphores
      are those of the kernel. */
  lemma {:induction false} RunRefines(k: K.State, b: B.State, m: Binding, js: seq<Joint>)
    requires SchedulerRuns.Inv(k) && BoundedBufferSafety.Inv(b) && Related(k, b, m) && LegalRun(k, b, m, js)
    ensures SchedulerRuns.Inv(KernelAfter(k, b, m, js)) && Related(KernelAfter(k, b, m, js), B.Run(b, Turns(js)), m)
    decreases |js|
  {
    if js != [] {
      var k', b' := KernelStep(k, b, m, js[0]), ProgramStep(b, js[0]);
      JointRefines(k, b, m, js[0]);
      RunRefines(k', b', m, js[1..]);
      FirstTurn(b, js);
    }
  }

  lemma FirstTurn(b: B.State, js: seq<Joint>)
    requires js != []
    ensures B.Run(b, Turns(js)) == B.Run(ProgramStep(b, js[0]), Turns(js[1..]))
  {
    match js[0]
    case Call(_, t) =>
      BoundedBufferProgress.RunConcat(b, [t], Turns(js[1..]));
      OneStep(b, t);
    case User(t) =>
      BoundedBufferProgress.RunConcat(b, [t], Turns(js[1..]));
      OneStep(b, t);
    case Entry(_) =>
      assert Turns(js) == Turns(js[1..]);
  }

  lemma OneStep(b: B.State, t: nat)
    ensures B.Run(b, [t]) == B.Next(b, t)
  {
    assert [t][..0] == [];
    assert B.Run(b, []) == b;
  }

  /** A thread is blocked in the program exactly if its kernel thread is on one of the waiting lists, and then no CPU
      runs it. */
  lemma BlockedIff(k: K.State, b: B.State, m: Binding, t: nat)
    requires SchedulerRuns.Inv(k) && BoundedBufferSafety.Inv(b) && Related(k, b, m) && t < |b.threads|
    ensures b.threads[t].pc.Blocked? <==> m.id[t] in k.sems[m.empty].waiting || m.id[t] in k.sems[m.filled].waiting
    ensures b.threads[t].pc.Blocked? ==> forall c :: 0 <= c < |k.current| ==> k.current[c] != Some(m.id[t])
  {
    IdsHas(m.id, b.empty.waiting, t);
    IdsHas(m.id, b.filled.waiting, t);
    if b.threads[t].pc.Blocked? {
      WaitingNotRunning(k, if b.threads[t].producer then m.empty else m.filled, m.id[t]);
    }
  }

  lemma WaitingNotRunning(k: K.State, q: nat, t: nat)
    requires SchedulerRuns.Inv(k) && q < |k.sems| && t in k.sems[q].waiting
    ensures forall c :: 0 <= c < |k.current| ==> k.current[c] != Some(t)
  {
    var at :| SchedulerPlaces.Located(k, at);
    assert SchedulerPlaces.SemOk(k, at, q);
    forall c | 0 <= c < |k.current|
      ensures k.current[c] != Some(t)
    {
      assert SchedulerPlaces.CpuOk(k, at, c);
    }
  }

  lemma IdsHas(id: seq<nat>, w: seq<nat>, t: nat)
    requires NoDup(id) && t < |id| && forall a :: a in w ==> a < |id|
    ensures id[t] in Ids(id, w) <==> t in w
  {
    if t in w {
      var i :| 0 <= i < |w| && w[i] == t;
      assert Ids(id, w)[i] == id[t];
    }
    if id[t] in Ids(id, w) {
      var i :| 0 <= i < |w| && Ids(id, w)[i] == id[t];
      assert w[i] in w;
    }
  }
}
