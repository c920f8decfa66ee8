/** Threads, ready queues, semaphores and IPC connections of the kernel, and what each kernel entry
    does to them.  An entry runs under the big kernel lock, so it is one step.

    The idle thread of CPU c is thread c.  A connection is in flight while its server thread names it
    as its active connection. */
module Scheduler {
  import opened Common

  const DEFAULT_BUDGET: nat := 10
  const NO_AFF: int := -1

  datatype ThreadState = Init | Ready | Inter | Running | Exit | Waiting

  datatype Kind = Idle | User | Shadow

  /** struct thread with its context; `sc` is the number of its scheduling context, `active` its active_conn. */
  datatype Thread = Thread(state: ThreadState, exiting: bool, kind: Kind, affinity: int, cpuid: nat, sc: Option<nat>,
                           active: Option<nat>)

  datatype Queue = Queue(list: seq<nat>, len: int)

  datatype Sem = Sem(count: nat, waiting: seq<nat>, waitingCount: int)

  datatype Conn = Conn(target: nat, source: nat)

  datatype State = State(threads: seq<Thread>, queues: seq<Queue>, current: seq<Option<nat>>, budgets: seq<nat>,
                         sems: seq<Sem>, conns: seq<Conn>)
  {
    predicate Cpu(c: nat) {
      c < |queues| && c < |current|
    }

    /** CPU `c` runs thread `t`. */
    predicate Runs(c: nat, t: nat) {
      Cpu(c) && t < |threads| && current[c] == Some(t)
    }

    predicate InFlight(k: nat) {
      k < |conns| && conns[k].target < |threads| && threads[conns[k].target].active == Some(k)
    }

    function Put(t: nat, u: Thread): State
      requires t < |threads|
    {
      this.(threads := threads[t := u])
    }
  }

  // ------------------------------------------------------------------------------------ policy_rr.c

  /** rr_sched_enqueue succeeds. */
  predicate Enqueues(s: State, t: nat)
    requires t < |s.threads|
  {
    var u := s.threads[t];
    u.state != Ready && u.kind != Idle && u.affinity < |s.queues|
  }

  /** The CPU whose queue a thread goes to when CPU `c` enqueues it. */
  function HomeCpu(u: Thread, c: nat): nat {
    if u.affinity < 0 then c else u.affinity
  }

  /** rr_sched_enqueue on CPU `c`; it does nothing to an idle thread, and fails for a queued thread or a bad
      affinity. */
  function Enqueue(s: State, c: nat, t: nat): State
    requires t < |s.threads|
  {
    var u := s.threads[t];
    var d := HomeCpu(u, c);
    if !Enqueues(s, t) || d >= |s.queues| then s
    else
      s.Put(t, u.(state := Ready,
                  cpuid := d)).(queues := s.queues[d := Queue(s.queues[d].list + [t], s.queues[d].len + 1)])
  }

  /** rr_sched_dequeue on CPU `c`: unlinks the thread from the queue it is in, but counts down the queue of `c`. */
  function Dequeue(s: State, c: nat, t: nat): State
    requires t < |s.threads| && c < |s.queues|
  {
    var u := s.threads[t];
    var d := u.cpuid;
    if u.kind == Idle || u.state != Ready || u.affinity >= |s.queues| || d >= |s.queues| then s
    else
      var qs := s.queues[d := s.queues[d].(list := Remove(s.queues[d].list, t))];
      s.Put(t, u.(state := Inter, cpuid := c)).(queues := qs[c := qs[c].(len := qs[c].len - 1)])
  }

  /** The thread that rr_sched_choose_thread returns on CPU `c`: the first of the queue, or the idle thread. */
  function Chosen(s: State, c: nat): nat
    requires c < |s.queues|
  {
    if s.queues[c].len == 0 || s.queues[c].list == [] then c else s.queues[c].list[0]
  }

  function ChooseThread(s: State, c: nat): State
    requires c < |s.queues| && Chosen(s, c) < |s.threads|
  {
    if s.queues[c].len == 0 then s else Dequeue(s, c, Chosen(s, c))
  }

  /** switch_to_thread on CPU `c`. */
  function SwitchTo(s: State, c: nat, t: nat): State
    requires s.Cpu(c) && t < |s.threads|
  {
    if s.current[c] == Some(t) then s.Put(t, s.threads[t].(state := Running))
    else s.Put(t, s.threads[t].(state := Running, cpuid := c)).(current := s.current[c := Some(t)])
  }

  function SetBudget(s: State, t: nat, b: nat): State
    requires t < |s.threads|
  {
    match s.threads[t].sc
    case None => s
    case Some(x) => if x < |s.budgets| then s.(budgets := s.budgets[x := b]) else s
  }

  function BudgetOf(s: State, t: nat): nat
    requires t < |s.threads|
  {
    match s.threads[t].sc
    case None => 0
    case Some(x) => if x < |s.budgets| then s.budgets[x] else 0
  }

  /** The current thread goes on: it is neither exiting nor waiting, has budget left and may run here. */
  predicate Stays(s: State, c: nat)
    requires s.Cpu(c)
  {
    match s.current[c]
    case None => false
    case Some(t) =>
      && t < |s.threads| && !s.threads[t].exiting && s.threads[t].state != Waiting
      && BudgetOf(s, t) != 0 && (s.threads[t].affinity == c || s.threads[t].affinity == NO_AFF)
  }

  /** What rr_sched does to a current thread that does not go on. */
  function Park(s: State, c: nat): State
    requires s.Cpu(c)
  {
    match s.current[c]
    case None => s
    case Some(t) =>
      if t >= |s.threads| || s.threads[t].exiting || s.threads[t].state == Waiting then s
      else SetBudget(Enqueue(s, c, t), t, DEFAULT_BUDGET)
  }

  function Dispatch(s: State, c: nat): State
    requires s.Cpu(c)
  {
    var t := Chosen(s, c);
    if t >= |s.threads| then s else SwitchTo(ChooseThread(s, c), c, t)
  }

  /** rr_sched on CPU `c`. */
  function Sched(s: State, c: nat): State
    requires s.Cpu(c)
  {
    if Stays(s, c) then SwitchTo(s, c, s.current[c].value) else Dispatch(Park(s, c), c)
  }

  // ---------------------------------------------------------------------------------- kernel entries

  datatype Event =
    | Boot(c: nat)                     // the first sched of a CPU
    | Start(c: nat, t: nat)            // a thread is created and enqueued: the root thread at boot, others by user code
    | Timer(c: nat)
    | Irq(c: nat)                      // any other interrupt
    | Yield(c: nat)
    | Wait(c: nat, q: nat, block: bool)
    | Signal(c: nat, q: nat)
    | Call(c: nat, k: nat)
    | Return(c: nat)
    | Leave(c: nat)                    // sys_thread_exit
    | SetAffinity(c: nat, t: nat, affinity: int)

  /** The calling thread: user code runs only in threads that are not idle. */
  predicate UserRuns(s: State, c: nat) {
    s.Cpu(c) && s.current[c].Some? && s.current[c].value < |s.threads|
    && s.threads[s.current[c].value].kind != Kind.Idle
  }

  predicate Enabled(s: State, e: Event) {
    match e {
      case Boot(c) => s.Cpu(c) && s.current[c].None?
      case Start(c, t) =>
        && s.Cpu(c) && (s.current[c].None? || UserRuns(s, c))
        && t < |s.threads| && s.threads[t].state == Init && s.threads[t].kind == Kind.User
      case Timer(c) => s.Cpu(c) && s.current[c].Some? && s.current[c].value < |s.threads|
      case Irq(c) => s.Cpu(c) && s.current[c].Some? && s.current[c].value < |s.threads|
      case Yield(c) => UserRuns(s, c)
      case Wait(c, q, block) => UserRuns(s, c) && q < |s.sems|
      case Signal(c, q) => UserRuns(s, c) && q < |s.sems|
      case Call(c, k) => UserRuns(s, c) && k < |s.conns| && s.conns[k].target < |s.threads| && !s.InFlight(k)
      case Return(c) => UserRuns(s, c)
      case Leave(c) => UserRuns(s, c)
      case SetAffinity(c, t, affinity) =>
        UserRuns(s, c) && t < |s.threads| && s.threads[t].kind != Kind.Idle
        && (affinity == NO_AFF || 0 <= affinity < |s.queues|)
    }
  }

  function TimerIrq(s: State, t: nat): State
    requires t < |s.threads|
  {
    if BudgetOf(s, t) != 0 then SetBudget(s, t, BudgetOf(s, t) - 1) else s
  }

  /** wait_sem by thread `t` on CPU `c`. */
  function WaitSem(s: State, c: nat, t: nat, q: nat, block: bool): State
    requires s.Cpu(c) && t < |s.threads| && q < |s.sems|
  {
    var sem := s.sems[q];
    if sem.count > 0 then s.(sems := s.sems[q := sem.(count := sem.count - 1)])
    else if !block then s
    else Sched(BlockOn(s, t, q), c)
  }

  function BlockOn(s: State, t: nat, q: nat): State
    requires t < |s.threads| && q < |s.sems|
  {
    s.Put(t, s.threads[t].(state := Waiting))
    .(sems := s.sems[q := s.sems[q].(waiting := s.sems[q].waiting + [t], waitingCount := s.sems[q].waitingCount + 1)])
  }

  /** signal_sem on CPU `c`: counts up if nobody waits, else makes the first waiting thread ready. */
  function SignalSem(s: State, c: nat, q: nat): State
    requires q < |s.sems|
  {
    var sem := s.sems[q];
    if sem.waitingCount == 0 || sem.waiting == [] then s.(sems := s.sems[q := sem.(count := sem.count + 1)])
    else
      var s' := s.(sems := s.sems[q := sem.(waiting := sem.waiting[1..], waitingCount := sem.waitingCount - 1)]);
      if sem.waiting[0] < |s.threads| then Enqueue(s', c, sem.waiting[0]) else s'
  }

  /** thread_migrate_to_server by thread `t` over connection `k`: the server thread takes over the CPU
      and the scheduling context. */
  function MigrateToServer(s: State, c: nat, t: nat, k: nat): State
    requires s.Cpu(c) && t < |s.threads| && k < |s.conns| && s.conns[k].target < |s.threads|
  {
    var target := s.conns[k].target;
    var s1 := s.(conns := s.conns[k := Conn(target, t)]).Put(t, s.threads[t].(state := Waiting));
    var s2 := s1.Put(target, s1.threads[target].(active := Some(k), sc := s.threads[t].sc));
    SwitchTo(s2, c, target)
  }

  /** sys_ipc_return by thread `t`: the caller of its active connection gets the CPU back, with a full budget. */
  function MigrateToClient(s: State, c: nat, t: nat): State
    requires s.Cpu(c) && t < |s.threads|
  {
    match s.threads[t].active
    case None => s
    case Some(k) =>
      if k >= |s.conns| || s.conns[k].source >= |s.threads| then s
      else
        var u := s.conns[k].source;
        var s1 := SetBudget(s.Put(u, s.threads[u].(state := Inter)), u, DEFAULT_BUDGET);
        SwitchTo(s1.Put(t, s1.threads[t].(active := None)), c, u)
  }

  function Step(s: State, e: Event): State
    requires Enabled(s, e)
  {
    match e {
      case Boot(c) => Sched(s, c)
      case Start(c, t) => Enqueue(s, c, t)
      case Timer(c) => Sched(TimerIrq(s, s.current[c].value), c)
      case Irq(c) => Sched(s, c)
      case Yield(c) => Sched(SetBudget(s, s.current[c].value, 0), c)
      case Wait(c, q, block) => WaitSem(s, c, s.current[c].value, q, block)
      case Signal(c, q) => SignalSem(s, c, q)
      case Call(c, k) => MigrateToServer(s, c, s.current[c].value, k)
      case Return(c) => MigrateToClient(s, c, s.current[c].value)
      case Leave(c) =>
        var t := s.current[c].value;
        Sched(s.Put(t, s.threads[t].(exiting := true)), c)
      case SetAffinity(c, t, affinity) => s.Put(t, s.threads[t].(affinity := affinity))
    }
  }
}
