/** Round-robin scheduling told once more, with lists only: who is on which ready list in which order, who
    runs where, and what is left of the budgets.  Every kernel entry is shown to do exactly this. */
module SchedulerExact {
  import opened Common
  import opened Scheduler
  import opened SchedulerPlaces
  import opened SchedulerSteps
  import opened SchedulerRuns
  import opened SchedulerWaiting
  import opened SchedulerWitness

  datatype Board = Board(ready: seq<seq<nat>>, current: seq<Option<nat>>, budgets: seq<nat>, counts: seq<nat>,
                         waiting: seq<seq<nat>>)

  function Lists(queues: seq<Queue>): seq<seq<nat>> {
    seq(|queues|, d requires 0 <= d < |queues| => queues[d].list)
  }

  function BoardOf(s: State): Board {
    Board(Lists(s.queues), s.current, s.budgets, seq(|s.sems|, q requires 0 <= q < |s.sems| => s.sems[q].count),
          seq(|s.sems|, q requires 0 <= q < |s.sems| => s.sems[q].waiting))
  }

  // -------------------------------------------------------------------------------- the policy on lists

  /** Thread `t` gets in line on CPU `d`. */
  function Behind(x: Board, d: nat, t: nat): Board
    requires d < |x.ready|
  {
    x.(ready := x.ready[d := x.ready[d] + [t]])
  }

  /** CPU `c` takes the first in line, or its idle thread if there is none. */
  function Front(x: Board, c: nat): Board
    requires c < |x.ready| && c < |x.current|
  {
    if x.ready[c] == [] then x.(current := x.current[c := Some(c)])
    else x.(current := x.current[c := Some(x.ready[c][0])], ready := x.ready[c := x.ready[c][1..]])
  }

  /** The CPU a thread has to run on, as seen from CPU `c`. */
  function Home(u: Thread, c: nat): nat
    requires NO_AFF <= u.affinity
  {
    if u.affinity == NO_AFF then c else u.affinity
  }

  predicate Fits(x: Board, u: Thread, c: nat) {
    c < |x.ready| == |x.current| && NO_AFF <= u.affinity < |x.ready| && u.sc.Some? && u.sc.value < |x.budgets|
  }

  function Budget(x: Board, u: Thread, b: nat): Board
    requires u.sc.Some? && u.sc.value < |x.budgets|
  {
    x.(budgets := x.budgets[u.sc.value := b])
  }

  /** A thread with budget left stays where it may run.  Any other gets a full budget, gets in line on the CPU it has to
      run on unless it is an idle thread, and gives way to the first in line. */
  function Turn(x: Board, u: Thread, t: nat, c: nat): Board
    requires Fits(x, u, c)
  {
    if x.budgets[u.sc.value] > 0 && Home(u, c) == c then x
    else
      var y := Budget(x, u, DEFAULT_BUDGET);
      Front(if u.kind == Kind.Idle then y else Behind(y, Home(u, c), t), c)
  }

  /** What kernel entry `e` makes of the board. */
  predicate Does(s: State, e: Event, s': State)
    requires Enabled(s, e)
  {
    var c, x, y := e.c, BoardOf(s), BoardOf(s');
    match e
    case Boot(_) => y == Front(x, c)
    case Start(_, t) => Fits(x, s.threads[t], c) && y == Behind(x, Home(s.threads[t], c), t)
    case Timer(_) =>
      var t := s.current[c].value;
      var u := s.threads[t];
      Fits(x, u, c) && x.budgets[u.sc.value] > 0 && y == Turn(Budget(x, u, x.budgets[u.sc.value] - 1), u, t, c)
    case Irq(_) =>
      var t := s.current[c].value;
      Fits(x, s.threads[t], c) && y == Turn(x, s.threads[t], t, c)
    case Yield(_) =>
      var t := s.current[c].value;
      Fits(x, s.threads[t], c) && y == Turn(Budget(x, s.threads[t], 0), s.threads[t], t, c)
    case Wait(_, q, block) =>
      if x.counts[q] > 0 then y == x.(counts := x.counts[q := x.counts[q] - 1])
      else if !block then y == x
      else y == Front(x.(waiting := x.waiting[q := x.waiting[q] + [s.current[c].value]]), c)
    case Signal(_, q) =>
      if x.waiting[q] == [] then y == x.(counts := x.counts[q := x.counts[q] + 1])
      else
        var t := x.waiting[q][0];
        && t < |s.threads| && Fits(x, s.threads[t], c)
        && y == Behind(x.(waiting := x.waiting[q := x.waiting[q][1..]]), Home(s.threads[t], c), t)
    case Call(_, k) => y == x.(current := x.current[c := Some(s.conns[k].target)])
    case Return(_) =>
      var u := s.threads[s.current[c].value];
      if u.active.None? then y == x
      else
        && u.active.value < |s.conns| && Fits(x, u, c)
        && y == Budget(x.(current := x.current[c := Some(s.conns[u.active.value].source)]), u, DEFAULT_BUDGET)
    case Leave(_) => y == Front(x, c)
    case SetAffinity(_, _, _) => y == x
  }

  // ------------------------------------------------------------------------------ the parts of rr_sched

  lemma EnqueueBehind(s: State, c: nat, t: nat)
    requires t < |s.threads| && c < |s.queues| && NO_AFF <= s.threads[t].affinity < |s.queues|
    requires s.threads[t].state != Ready && s.threads[t].kind != Kind.Idle
    ensures BoardOf(Enqueue(s, c, t)) == Behind(BoardOf(s), Home(s.threads[t], c), t)
  {
    var d := Home(s.threads[t], c);
    var s' := Enqueue(s, c, t);
    assert Lists(s'.queues) == Lists(s.queues)[d := s.queues[d].list + [t]];
  }

  lemma DispatchFront(s: State, at: seq<Place>, c: nat)
    requires s.Cpu(c) && Located(Off(s, c), at)
    ensures BoardOf(Dispatch(s, c)) == Front(BoardOf(s), c)
  {
    var o, t := Off(s, c), Chosen(s, c);
    assert QueueOk(o, at, c);
    if s.queues[c].len != 0 {
      assert t in o.queues[c].list;
      assert ThreadOk(o, at[t], t);
      RemovedFirst(s.queues[c].list);
      var qs := Dispatch(s, c).queues;
      assert Lists(qs) == Lists(s.queues)[c := s.queues[c].list[1..]];
    }
    assert s.current[c] == Some(t) ==> s.current[c := Some(t)] == s.current;
  }

  /** rr_sched for a thread that has left: it exits, waits, or there is none. */
  lemma SchedGone(s: State, at: seq<Place>, c: nat)
    requires s.Cpu(c) && Located(Off(s, c), at)
    requires s.current[c].Some? ==>
               s.current[c].value < |s.threads|
               && (s.threads[s.current[c].value].exiting || s.threads[s.current[c].value].state == Waiting)
    ensures BoardOf(Sched(s, c)) == Front(BoardOf(s), c)
  {
    DispatchFront(s, at, c);
  }

  /** rr_sched for a running thread. */
  lemma SchedTurn(s: State, at: seq<Place>, c: nat, t: nat)
    requires s.Runs(c, t) && Located(Off(s, c), at) && Leaving(s, at, c)
    requires !s.threads[t].exiting && s.threads[t].state == Running
    ensures Fits(BoardOf(s), s.threads[t], c) && BoardOf(Sched(s, c)) == Turn(BoardOf(s), s.threads[t], t, c)
  {
    var x, u := BoardOf(s), s.threads[t];
    assert ThreadOk(Off(s, c), at[t], t);
    if Stays(s, c) {
      assert s.current[c := Some(t)] == s.current;
    } else {
      var at1 := ParkLocated(s, at, c);
      DispatchFront(Park(s, c), at1, c);
      if u.kind != Kind.Idle {
        EnqueueBehind(s, c, t);
      }
      assert BoardOf(Park(s, c)).budgets == x.budgets[u.sc.value := DEFAULT_BUDGET];
    }
  }

  // ------------------------------------------------------------------------------------- every entry

  /** Every kernel entry does to lists, CPUs and budgets what the policy says. */
  lemma EntryExact(s: State, e: Event)
    requires Inv(s) && Enabled(s, e)
    ensures Does(s, e, Step(s, e))
  {
    var at :| Located(s, at);
    if Reschedules(s, e) {
      var at1 := PreLocated(s, at, e);
      if e.Boot? {
        SchedGone(s, at1, e.c);
      } else {
        var t := s.current[e.c].value;
        RunningLoose(s, at, e.c, t);
        if e.Leave? || e.Wait? {
          GoneExact(s, at1, e, t);
        } else {
          TurnExact(s, at1, e, t);
        }
      }
    } else {
      OtherExact(s, at, e);
    }
  }

  /** What rr_sched is given to decide about. */
  ghost predicate Comes(s: State, at: seq<Place>, c: nat, t: nat) {
    && s.Runs(c, t) && Located(Off(s, c), at) && Leaving(s, at, c)
    && s.threads[t].sc.Some? && s.threads[t].sc.value < |s.budgets|
  }

  /** The entries after which the current thread may go on. */
  lemma TurnExact(s: State, at: seq<Place>, e: Event, t: nat)
    requires Enabled(s, e) && (e.Timer? || e.Irq? || e.Yield?) && Comes(Pre(s, e), at, e.c, t) && Budgets(s)
             && s.Runs(e.c, t)
    requires s.threads[t].state == Running && !s.threads[t].exiting
    ensures Does(s, e, Step(s, e))
  {
    SchedTurn(Pre(s, e), at, e.c, t);
    PreStep(s, e);
  }

  /** The entries that the current thread leaves by. */
  lemma GoneExact(s: State, at: seq<Place>, e: Event, t: nat)
    requires Enabled(s, e) && Reschedules(s, e) && (e.Leave? || e.Wait?) && Comes(Pre(s, e), at, e.c, t)
             && s.Runs(e.c, t)
    ensures Does(s, e, Step(s, e))
  {
    var m, x := Pre(s, e), BoardOf(s);
    SchedGone(m, at, e.c);
    PreStep(s, e);
    if e.Wait? {
      assert BoardOf(m) == x.(waiting := x.waiting[e.q := x.waiting[e.q] + [t]]);
    } else {
      assert BoardOf(m) == x;
    }
  }

  lemma SignalExact(s: State, at: seq<Place>, c: nat, q: nat)
    requires Located(s, at) && Enabled(s, Signal(c, q))
    ensures Does(s, Signal(c, q), Step(s, Signal(c, q)))
  {
    var x, y := BoardOf(s), BoardOf(SignalSem(s, c, q));
    assert SemOk(s, at, q);
    if s.sems[q].waiting == [] {
      assert y.counts == x.counts[q := x.counts[q] + 1] && y.waiting == x.waiting;
    } else {
      var t := s.sems[q].waiting[0];
      assert t in s.sems[q].waiting;
      assert ThreadOk(s, at[t], t);
      var sem := s.sems[q].(waiting := s.sems[q].waiting[1..], waitingCount := s.sems[q].waitingCount - 1);
      var s1 := s.(sems := s.sems[q := sem]);
      EnqueueBehind(s1, c, t);
      assert BoardOf(s1) == x.(waiting := x.waiting[q := x.waiting[q][1..]]);
    }
  }

  lemma ReturnExact(s: State, at: seq<Place>, c: nat, t: nat)
    requires Located(s, at) && Enabled(s, Return(c)) && t == s.current[c].value
    ensures Does(s, Return(c), Step(s, Return(c)))
  {
    RunningLoose(s, at, c, t);
    assert ThreadOk(s, at[t], t);
    if s.threads[t].active.Some? {
      var k := s.threads[t].active.value;
      assert s.InFlight(k) && ConnOk(s, at, k);
      var u := s.conns[k].source;
      assert CpuOk(s, at, c);
      assert u != t;
    }
  }

  lemma OtherExact(s: State, at: seq<Place>, e: Event)
    requires Located(s, at) && Enabled(s, e) && !Reschedules(s, e)
    ensures Does(s, e, Step(s, e))
  {
    var c, x, y := e.c, BoardOf(s), BoardOf(Step(s, e));
    match e {
      case Start(_, t) =>
        assert ThreadOk(s, at[t], t);
        EnqueueBehind(s, c, t);
      case Wait(_, q, _) => assert y.counts[q] == Step(s, e).sems[q].count;
      case Signal(_, q) => SignalExact(s, at, c, q);
      case Call(_, k) => assert y.current == x.current[c := Some(s.conns[k].target)];
      case Return(_) => ReturnExact(s, at, c, s.current[c].value);
      case SetAffinity(_, _, _) =>
    }
  }

  // ---------------------------------------------------------------------------------------- consequences

  lemma FirstOther(s: State, c: nat)
    requires Inv(s) && s.Cpu(c) && s.queues[c].list != []
    ensures s.current[c] != Some(s.queues[c].list[0])
  {
    var at :| Located(s, at);
    assert QueueOk(s, at, c) && CpuOk(s, at, c);
    assert s.queues[c].list[0] in s.queues[c].list;
  }

  lemma TurnGives(x: Board, u: Thread, t: nat, c: nat)
    requires Fits(x, u, c) && x.budgets[u.sc.value] == 0 && x.ready[c] != []
    ensures Turn(x, u, t, c).current == x.current[c := Some(x.ready[c][0])]
  {
  }

  /** A thread that yields while another is ready on its CPU gives way to the first in line. */
  lemma YieldGives(s: State, c: nat)
    requires Inv(s) && UserRuns(s, c) && s.queues[c].list != []
    ensures Step(s, Yield(c)).Cpu(c)
    ensures Step(s, Yield(c)).current[c] == Some(s.queues[c].list[0]) != s.current[c]
  {
    var x, t := BoardOf(s), s.current[c].value;
    EntryExact(s, Yield(c));
    assert x.ready[c] == s.queues[c].list;
    TurnGives(Budget(x, s.threads[t], 0), s.threads[t], t, c);
    FirstOther(s, c);
  }

  /** A ready thread is on the list of the CPU it is bound to, if it is bound to one. */
  predicate AtHome(s: State, d: nat, t: nat)
    requires d < |s.queues|
  {
    t in s.queues[d].list && t < |s.threads| ==> s.threads[t].affinity == NO_AFF || s.threads[t].affinity == d
  }

  /** On list `d` of `y` there are those on list `d` of `x`, and perhaps `t`. */
  predicate Joins(x: Board, y: Board, d: nat, t: nat) {
    d < |x.ready| == |y.ready| && forall v :: v in y.ready[d] ==> v in x.ready[d] || v == t
  }

  predicate Only(x: Board, y: Board, d: nat) {
    d < |x.ready| == |y.ready| && forall v :: v in y.ready[d] ==> v in x.ready[d]
  }

  lemma FrontOnly(x: Board, c: nat, d: nat)
    requires c < |x.ready| && c < |x.current| && d < |x.ready|
    ensures Only(x, Front(x, c), d)
  {
  }

  lemma TurnJoins(x: Board, u: Thread, t: nat, c: nat, d: nat)
    requires Fits(x, u, c) && d < |x.ready|
    ensures if d == Home(u, c) then Joins(x, Turn(x, u, t, c), d, t) else Only(x, Turn(x, u, t, c), d)
  {
    var y := Budget(x, u, DEFAULT_BUDGET);
    FrontOnly(y, c, d);
    FrontOnly(Behind(y, Home(u, c), t), c, d);
  }

  lemma SchedJoins(s: State, e: Event, d: nat, t: nat)
    requires Enabled(s, e) && Reschedules(s, e) && Does(s, e, Step(s, e))
    requires d < |s.queues| == |Step(s, e).queues| && t < |s.threads|
    requires t in BoardOf(Step(s, e)).ready[d] && t !in BoardOf(s).ready[d]
    ensures NO_AFF <= s.threads[t].affinity && d == Home(s.threads[t], e.c)
  {
    var x, c := BoardOf(s), e.c;
    if e.Boot? || e.Leave? {
      FrontOnly(x, c, d);
    } else {
      var v := s.current[c].value;
      var u := s.threads[v];
      match e {
        case Wait(_, q, _) => FrontOnly(x.(waiting := x.waiting[q := x.waiting[q] + [v]]), c, d);
        case Timer(_) => TurnJoins(Budget(x, u, x.budgets[u.sc.value] - 1), u, v, c, d);
        case Yield(_) => TurnJoins(Budget(x, u, 0), u, v, c, d);
        case Irq(_) => TurnJoins(x, u, v, c, d);
      }
    }
  }

  /** Who gets in line with entry `e` does so on the CPU it is bound to, or on the CPU of the entry if it is bound to
      none. */
  lemma JoinsHome(s: State, e: Event, d: nat, t: nat)
    requires Inv(s) && Enabled(s, e) && d < |s.queues| == |Step(s, e).queues| && t < |s.threads|
    requires t in Step(s, e).queues[d].list && t !in s.queues[d].list
    ensures NO_AFF <= s.threads[t].affinity && d == Home(s.threads[t], e.c)
  {
    EntryExact(s, e);
    var x, y := BoardOf(s), BoardOf(Step(s, e));
    assert y.ready[d] == Step(s, e).queues[d].list && x.ready[d] == s.queues[d].list;
    if Reschedules(s, e) {
      SchedJoins(s, e, d, t);
    }
  }

  lemma StepSettings(s: State, e: Event)
    requires Enabled(s, e)
    ensures |Step(s, e).threads| == |s.threads| && |Step(s, e).queues| == |s.queues|
    ensures forall t: nat :: t < |s.threads| ==>
              && Step(s, e).threads[t].kind == s.threads[t].kind
              && Step(s, e).threads[t].affinity ==
                 if e.SetAffinity? && e.t == t then e.affinity else s.threads[t].affinity
  {
    if Reschedules(s, e) {
      PreStep(s, e);
      SchedSettings(Pre(s, e), e.c);
    }
  }

  predicate SameSettings(s: State, s': State) {
    && |s'.threads| == |s.threads| && |s'.queues| == |s.queues|
    && forall t :: 0 <= t < |s.threads| ==>
         s'.threads[t].kind == s.threads[t].kind && s'.threads[t].affinity == s.threads[t].affinity
  }

  lemma ParkSettings(s: State, c: nat)
    requires s.Cpu(c)
    ensures SameSettings(s, Park(s, c))
  {
  }

  lemma DispatchSettings(s: State, c: nat)
    requires s.Cpu(c)
    ensures SameSettings(s, Dispatch(s, c))
  {
  }

  lemma SchedSettings(s: State, c: nat)
    requires s.Cpu(c)
    ensures SameSettings(s, Sched(s, c))
  {
    if !Stays(s, c) {
      ParkSettings(s, c);
      DispatchSettings(Park(s, c), c);
    }
  }

  /** As long as no affinity is changed, threads only ever get in line where they are bound to. */
  lemma {:induction false} QueuedAtHome(s: State, es: seq<Event>)
    requires Inv(s) && Legal(s, es) && (forall e :: e in es ==> !e.SetAffinity?)
    requires forall d: nat, t: nat :: d < |s.queues| ==> AtHome(s, d, t)
    ensures forall d: nat, t: nat :: d < |After(s, es).queues| ==> AtHome(After(s, es), d, t)
    decreases |es|
  {
    if es != [] {
      var s', e := Step(s, es[0]), es[0];
      StepInv(s, e);
      StepSettings(s, e);
      forall d: nat, t: nat | d < |s'.queues|
        ensures AtHome(s', d, t)
      {
        if t in s'.queues[d].list && t < |s'.threads| {
          assert AtHome(s, d, t);
          if t !in s.queues[d].list {
            JoinsHome(s, e, d, t);
          }
        }
      }
      QueuedAtHome(s', es[1..]);
    }
  }

  /** Thread `t` runs on CPU `c`, where it may run, on scheduling context `x`. */
  ghost predicate RunsOn(s: State, c: nat, t: nat, x: nat) {
    && Inv(s) && s.Runs(c, t) && (s.threads[t].affinity == NO_AFF || s.threads[t].affinity == c)
    && s.threads[t].sc == Some(x) && x < |s.budgets|
  }

  function WithBudget(s: State, x: nat, b: nat): State
    requires x < |s.budgets|
  {
    s.(budgets := s.budgets[x := b])
  }

  lemma TickStays(s: State, c: nat, t: nat, x: nat)
    requires RunsOn(s, c, t, x) && s.budgets[x] > 1
    ensures Enabled(s, Timer(c)) && Step(s, Timer(c)) == WithBudget(s, x, s.budgets[x] - 1)
    ensures RunsOn(Step(s, Timer(c)), c, t, x)
  {
    var at :| Located(s, at);
    RunningLoose(s, at, c, t);
    var at1 := PreLocated(s, at, Timer(c));
    var at' := StayLocated(Pre(s, Timer(c)), at1, c);
    StepInv(s, Timer(c));
  }

  lemma TimersCons(s: State, c: nat, n: nat)
    requires n > 0 && Enabled(s, Timer(c)) && Legal(Step(s, Timer(c)), Timers(c, n - 1))
    ensures Legal(s, Timers(c, n)) && After(s, Timers(c, n)) == After(Step(s, Timer(c)), Timers(c, n - 1))
  {
    assert Timers(c, n)[1..] == Timers(c, n - 1);
  }

  /** With the budget `b` a thread keeps its CPU for `b` - 1 timer interrupts, each of which takes one unit and changes
      nothing else. */
  lemma {:induction false} KeepsCpu(s: State, c: nat, t: nat, x: nat, n: nat)
    requires RunsOn(s, c, t, x) && n < s.budgets[x]
    ensures Legal(s, Timers(c, n)) && After(s, Timers(c, n)) == WithBudget(s, x, s.budgets[x] - n)
    decreases n
  {
    if n > 0 {
      TickStays(s, c, t, x);
      var m := Step(s, Timer(c));
      KeepsCpu(m, c, t, x, n - 1);
      TimersCons(s, c, n);
      assert WithBudget(m, x, m.budgets[x] - (n - 1)) == WithBudget(s, x, s.budgets[x] - n);
    } else {
      assert s.budgets[x := s.budgets[x]] == s.budgets;
    }
  }

  /** From `s` to `s'` the turn of `t` on CPU `c` has ended: with a full budget it is last in line, and the first in
      line runs. */
  predicate TurnOver(s: State, s': State, c: nat, t: nat, x: nat)
    requires s.Cpu(c) && s'.Cpu(c) && x < |s.budgets|
  {
    var list := s.queues[c].list + [t];
    s'.current == s.current[c := Some(list[0])] && s'.queues[c].list == list[1..]
    && s'.budgets == s.budgets[x := DEFAULT_BUDGET]
  }

  lemma LastTick(s: State, c: nat, t: nat, x: nat)
    requires RunsOn(s, c, t, x) && s.threads[t].kind != Kind.Idle && s.budgets[x] == 1
    ensures Enabled(s, Timer(c)) && Step(s, Timer(c)).Cpu(c) && TurnOver(s, Step(s, Timer(c)), c, t, x)
  {
    EntryExact(s, Timer(c));
    var y := BoardOf(Step(s, Timer(c)));
    assert BoardOf(s).ready[c] == s.queues[c].list;
    assert y.ready[c] == Step(s, Timer(c)).queues[c].list;
    assert s.budgets[x := 0][x := DEFAULT_BUDGET] == s.budgets[x := DEFAULT_BUDGET];
  }

  /** The interrupt after that ends its turn. */
  lemma {:induction false} TurnEnds(s: State, c: nat, t: nat, x: nat, b: nat)
    requires RunsOn(s, c, t, x) && s.threads[t].kind != Kind.Idle && b == s.budgets[x]
    ensures Legal(s, Timers(c, b)) && After(s, Timers(c, b)).Cpu(c) && TurnOver(s, After(s, Timers(c, b)), c, t, x)
    decreases b
  {
    if b == 1 {
      LastTick(s, c, t, x);
      assert Timers(c, 0) == [];
    } else {
      TickStays(s, c, t, x);
      TurnEnds(Step(s, Timer(c)), c, t, x, b - 1);
      assert s.budgets[x := b - 1][x := DEFAULT_BUDGET] == s.budgets[x := DEFAULT_BUDGET];
    }
    TimersCons(s, c, b);
  }
}
