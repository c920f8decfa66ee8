/** The ticket lock, one memory access at a time, on any number of CPUs below 2^32. */
module TicketLock {

  const LIMIT: nat := 0x1_0000_0000

  function Wrap(x: nat): (r: nat)
    ensures r < LIMIT
  {
    x % LIMIT
  }

  /** Where a CPU is; the arguments are the registers it will still use. */
  datatype Pc =
    | Out
    | LoadNext                        // lock: ldaxr of next
    | StoreNext(val: nat)             // lock: stxr of val + 1 to next
    | Poll(val: nat)                  // lock: ldar of owner, compared with val
    | TryLoadNext                     // try_lock: ldaxr of next
    | TryLoadOwner(val: nat)          // try_lock: ldar of owner, compared with val
    | TryStoreNext(val: nat)          // try_lock: stxr of val + 1 to next
    | Critical                        // holds the lock
    | UnlockLoad                      // unlock: load of owner
    | UnlockStore(val: nat)           // unlock: store of val + 1 to owner

  /** `reserved` is the exclusive monitor for next; `turn` is the ticket that the CPU has drawn, counted
      without wrap-around, and matters only while it has one. */
  datatype Cpu = Cpu(pc: Pc, reserved: bool, turn: nat)
  {
    predicate HasTicket() {
      pc.Poll? || Holds()
    }

    predicate Holds() {
      pc.Critical? || pc.UnlockLoad? || pc.UnlockStore?
    }
  }

  /** The two words of the lock; and, counted without wrap-around, the tickets drawn and the tickets served,
      and the tickets in the order in which the lock was granted. */
  datatype State = State(owner: nat, next: nat, cpus: seq<Cpu>, drawn: nat, served: nat, granted: seq<nat>)
  {
    function Put(c: nat, u: Cpu): State
      requires c < |cpus|
    {
      this.(cpus := cpus[c := u])
    }
  }

  function Init(n: nat): State {
    State(0, 0, seq(n, _ => Cpu(Out, false, 0)), 0, 0, [])
  }

  datatype Event =
    | Lock(c: nat)
    | TryLock(c: nat)
    | Unlock(c: nat)
    | Step(c: nat, fails: bool)   // `fails`: a store-exclusive may fail for no reason

  predicate Enabled(s: State, e: Event) {
    e.c < |s.cpus| && match e
      case Lock(c) => s.cpus[c].pc.Out?
      case TryLock(c) => s.cpus[c].pc.Out?
      case Unlock(c) => s.cpus[c].pc.Critical?
      case Step(c, fails) => !s.cpus[c].pc.Out? && !s.cpus[c].pc.Critical?
  }

  /** A successful store to next: it ends every other reservation. */
  function Take(s: State, c: nat, val: nat, pc: Pc): State
    requires c < |s.cpus|
  {
    var cpus := seq(|s.cpus|, d requires 0 <= d < |s.cpus| => s.cpus[d].(reserved := false));
    s.(next := Wrap(val + 1), drawn := s.drawn + 1, cpus := cpus[c := Cpu(pc, false, s.drawn)])
  }

  function Next(s: State, e: Event): State
    requires Enabled(s, e)
  {
    var c := e.c;
    var u := s.cpus[c];
    match e
    case Lock(_) => s.Put(c, u.(pc := LoadNext))
    case TryLock(_) => s.Put(c, u.(pc := TryLoadNext))
    case Unlock(_) => s.Put(c, u.(pc := UnlockLoad))
    case Step(_, fails) =>
      match u.pc
      case LoadNext => s.Put(c, u.(pc := StoreNext(s.next), reserved := true))
      case StoreNext(val) =>
        if u.reserved && !fails then Take(s, c, val, Poll(val)) else s.Put(c, u.(pc := LoadNext, reserved := false))
      case Poll(val) =>
        if s.owner == val then s.Put(c, u.(pc := Critical)).(granted := s.granted + [u.turn]) else s
      case TryLoadNext => s.Put(c, u.(pc := TryLoadOwner(s.next), reserved := true))
      case TryLoadOwner(val) => s.Put(c, u.(pc := if s.owner == val then TryStoreNext(val) else Out))
      case TryStoreNext(val) =>
        if u.reserved && !fails then Take(s, c, val, Critical).(granted := s.granted + [s.drawn])
        else s.Put(c, u.(pc := TryLoadNext, reserved := false))
      case UnlockLoad => s.Put(c, u.(pc := UnlockStore(s.owner)))
      case UnlockStore(val) => s.Put(c, u.(pc := Out)).(owner := Wrap(val + 1), served := s.served + 1)
      case Out => s
      case Critical => s
  }

  /** is_locked. */
  function IsLocked(s: State): bool {
    s.owner != s.next
  }

  // -------------------------------------------------------------------------------------- the invariant

  function Count(cpus: seq<Cpu>): nat {
    if cpus == [] then 0 else Count(cpus[..|cpus| - 1]) + if cpus[|cpus| - 1].HasTicket() then 1 else 0
  }

  /** What one CPU's registers say about the lock. */
  predicate CpuOk(s: State, u: Cpu) {
    && (u.HasTicket() ==> s.served <= u.turn < s.drawn)
    && (u.Holds() ==> u.turn == s.served)
    && (u.pc.Poll? ==> u.pc.val == Wrap(u.turn))
    && (u.reserved && (u.pc.StoreNext? || u.pc.TryLoadOwner? || u.pc.TryStoreNext?) ==> u.pc.val == s.next)
    && (u.reserved && u.pc.TryStoreNext? ==> s.served == s.drawn)
    && (u.pc.UnlockStore? ==> u.pc.val == s.owner)
  }

  /** Some CPU has ticket `k`. */
  ghost predicate Issued(cpus: seq<Cpu>, k: nat) {
    exists c :: 0 <= c < |cpus| && cpus[c].HasTicket() && cpus[c].turn == k
  }

  ghost predicate Held(cpus: seq<Cpu>) {
    exists c :: 0 <= c < |cpus| && cpus[c].Holds()
  }

  /** Tickets not yet served are with exactly one CPU each. */
  ghost predicate Tickets(s: State) {
    && s.served <= s.drawn && s.drawn - s.served == Count(s.cpus)
    && (forall c, d :: 0 <= c < d < |s.cpus| && s.cpus[c].HasTicket() && s.cpus[d].HasTicket() ==>
          s.cpus[c].turn != s.cpus[d].turn)
    && (forall k: nat :: s.served <= k < s.drawn ==> Issued(s.cpus, k))
  }

  /** The lock was granted in the order of the tickets, to all that are served and to the holder. */
  ghost predicate Grants(s: State) {
    && (forall i :: 0 <= i < |s.granted| ==> s.granted[i] == i)
    && |s.granted| == s.served + if Held(s.cpus) then 1 else 0
  }

  ghost predicate Inv(s: State) {
    && |s.cpus| < LIMIT && s.owner == Wrap(s.served) && s.next == Wrap(s.drawn)
    && (forall c :: 0 <= c < |s.cpus| ==> CpuOk(s, s.cpus[c]))
    && Tickets(s) && Grants(s)
  }

  // ---------------------------------------------------------------------------------------- counting

  /** Numbers less than 2^32 apart are told apart by their low 32 bits. */
  lemma WrapApart(x: nat, y: nat)
    requires x <= y < x + LIMIT
    ensures Wrap(x) == Wrap(y) <==> x == y
  {
  }

  lemma WrapNext(x: nat)
    ensures Wrap(Wrap(x) + 1) == Wrap(x + 1)
  {
  }

  lemma {:induction false} CountUpdate(cpus: seq<Cpu>, c: nat, u: Cpu)
    requires c < |cpus|
    ensures Count(cpus[c := u]) + (if cpus[c].HasTicket() then 1 else 0) == Count(cpus) + if u.HasTicket() then 1 else 0
  {
    var n := |cpus| - 1;
    if c == n {
      assert cpus[c := u][..n] == cpus[..n];
    } else {
      assert cpus[c := u][..n] == cpus[..n][c := u];
      CountUpdate(cpus[..n], c, u);
    }
  }

  lemma {:induction false} CountSame(cpus: seq<Cpu>, cpus': seq<Cpu>)
    requires |cpus'| == |cpus| && forall c :: 0 <= c < |cpus| ==> cpus'[c].HasTicket() == cpus[c].HasTicket()
    ensures Count(cpus') == Count(cpus)
  {
    if cpus != [] {
      CountSame(cpus[..|cpus| - 1], cpus'[..|cpus| - 1]);
    }
  }

  lemma {:induction false} CountBound(cpus: seq<Cpu>)
    ensures Count(cpus) <= |cpus|
  {
    if cpus != [] {
      CountBound(cpus[..|cpus| - 1]);
    }
  }

  /** Fewer than 2^32 tickets are out. */
  lemma FewOut(s: State)
    requires Inv(s)
    ensures s.drawn - s.served < LIMIT
  {
    CountBound(s.cpus);
  }

  // -------------------------------------------------------------------------------------- each step

  /** A step that neither draws nor serves a ticket. */
  lemma QuietInv(s: State, s': State, c: nat, u: Cpu)
    requires Inv(s) && c < |s.cpus| && s' == s.Put(c, u) && CpuOk(s, u)
    requires u.HasTicket() == s.cpus[c].HasTicket() && u.Holds() == s.cpus[c].Holds()
             && (u.HasTicket() ==> u.turn == s.cpus[c].turn)
    ensures Inv(s')
  {
    CountUpdate(s.cpus, c, u);
    forall d | 0 <= d < |s'.cpus|
      ensures CpuOk(s', s'.cpus[d])
    {
      assert CpuOk(s, s.cpus[d]);
    }
    SameTickets(s.cpus, s'.cpus);
  }

  lemma SameTickets(cpus: seq<Cpu>, cpus': seq<Cpu>)
    requires |cpus'| == |cpus|
    requires forall d :: 0 <= d < |cpus| ==>
               cpus'[d].HasTicket() == cpus[d].HasTicket() && cpus'[d].Holds() == cpus[d].Holds()
                                             && (cpus[d].HasTicket() ==> cpus'[d].turn == cpus[d].turn)
    ensures forall k: nat :: Issued(cpus', k) == Issued(cpus, k)
    ensures Held(cpus') == Held(cpus)
  {
    forall k: nat
      ensures Issued(cpus', k) == Issued(cpus, k)
    {
      if Issued(cpus, k) {
        var d :| 0 <= d < |cpus| && cpus[d].HasTicket() && cpus[d].turn == k;
        assert cpus'[d].HasTicket();
      }
      if Issued(cpus', k) {
        var d :| 0 <= d < |cpus'| && cpus'[d].HasTicket() && cpus'[d].turn == k;
        assert cpus[d].HasTicket();
      }
    }
    if Held(cpus) {
      var d :| 0 <= d < |cpus| && cpus[d].Holds();
      assert cpus'[d].Holds();
    }
    if Held(cpus') {
      var d :| 0 <= d < |cpus'| && cpus'[d].Holds();
      assert cpus[d].Holds();
    }
  }

  /** The lock is free or its holder has the ticket that is served. */
  lemma OneHolder(s: State, c: nat, d: nat)
    requires Inv(s) && c < |s.cpus| && d < |s.cpus| && s.cpus[c].HasTicket() && s.cpus[c].turn == s.served
             && s.cpus[d].Holds()
    ensures c == d
  {
    assert CpuOk(s, s.cpus[d]);
  }

  /** A CPU that sees its number gets the lock, which was free. */
  lemma EnterInv(s: State, c: nat, s': State)
    requires Inv(s) && c < |s.cpus| && s.cpus[c].pc.Poll? && s.owner == s.cpus[c].pc.val
    requires s' == s.Put(c, s.cpus[c].(pc := Critical)).(granted := s.granted + [s.cpus[c].turn])
    ensures Inv(s') && s.cpus[c].turn == s.served && !Held(s.cpus)
  {
    assert CpuOk(s, s.cpus[c]);
    FewOut(s);
    WrapApart(s.served, s.cpus[c].turn);
    if Held(s.cpus) {
      var d :| 0 <= d < |s.cpus| && s.cpus[d].Holds();
      OneHolder(s, c, d);
    }
    CountUpdate(s.cpus, c, s'.cpus[c]);
    forall d | 0 <= d < |s'.cpus|
      ensures CpuOk(s', s'.cpus[d])
    {
      assert CpuOk(s, s.cpus[d]);
    }
    assert s'.cpus[c].Holds();
    forall k: nat | s.served <= k < s.drawn
      ensures Issued(s'.cpus, k)
    {
      assert Issued(s.cpus, k);
      var d :| 0 <= d < |s.cpus| && s.cpus[d].HasTicket() && s.cpus[d].turn == k;
      assert s'.cpus[d].HasTicket() && s'.cpus[d].turn == k;
    }
  }

  lemma TakeTickets(s: State, c: nat, val: nat, pc: Pc)
    requires Inv(s) && c < |s.cpus| && !s.cpus[c].HasTicket() && Cpu(pc, false, 0).HasTicket()
    ensures Tickets(Take(s, c, val, pc))
  {
    var s' := Take(s, c, val, pc);
    var cpus := seq(|s.cpus|, d requires 0 <= d < |s.cpus| => s.cpus[d].(reserved := false));
    CountSame(s.cpus, cpus);
    CountUpdate(cpus, c, s'.cpus[c]);
    forall k: nat | s'.served <= k < s'.drawn
      ensures Issued(s'.cpus, k)
    {
      if k == s.drawn {
        assert s'.cpus[c].HasTicket() && s'.cpus[c].turn == k;
      } else {
        assert Issued(s.cpus, k);
        var d :| 0 <= d < |s.cpus| && s.cpus[d].HasTicket() && s.cpus[d].turn == k;
        assert s'.cpus[d].HasTicket() && s'.cpus[d].turn == k;
      }
    }
    forall a, b | 0 <= a < b < |s'.cpus| && s'.cpus[a].HasTicket() && s'.cpus[b].HasTicket()
      ensures s'.cpus[a].turn != s'.cpus[b].turn
    {
      assert CpuOk(s, s.cpus[a]) && CpuOk(s, s.cpus[b]);
    }
  }

  lemma TakeCpus(s: State, c: nat, val: nat, pc: Pc)
    requires Inv(s) && c < |s.cpus| && val == s.next && (pc == Poll(val) || (pc == Critical && s.served == s.drawn))
    ensures var s' := Take(s, c, val, pc);
            s'.next == Wrap(s'.drawn) && forall d :: 0 <= d < |s'.cpus| ==> CpuOk(s', s'.cpus[d])
  {
    var s' := Take(s, c, val, pc);
    WrapNext(s.drawn);
    forall d | 0 <= d < |s'.cpus|
      ensures CpuOk(s', s'.cpus[d])
    {
      assert CpuOk(s, s.cpus[d]);
    }
  }

  /** A successful store-exclusive of lock draws the next ticket. */
  lemma DrawInv(s: State, c: nat, val: nat)
    requires Inv(s) && c < |s.cpus| && s.cpus[c].pc == StoreNext(val) && s.cpus[c].reserved
    ensures Inv(Take(s, c, val, Poll(val)))
  {
    assert CpuOk(s, s.cpus[c]);
    var s' := Take(s, c, val, Poll(val));
    TakeTickets(s, c, val, Poll(val));
    TakeCpus(s, c, val, Poll(val));
    HeldSame(s.cpus, s'.cpus);
  }

  lemma HeldSame(cpus: seq<Cpu>, cpus': seq<Cpu>)
    requires |cpus'| == |cpus| && forall d :: 0 <= d < |cpus| ==> cpus'[d].Holds() == cpus[d].Holds()
    ensures Held(cpus') == Held(cpus)
  {
    if Held(cpus) {
      var d :| 0 <= d < |cpus| && cpus[d].Holds();
      assert cpus'[d].Holds();
    }
    if Held(cpus') {
      var d :| 0 <= d < |cpus'| && cpus'[d].Holds();
      assert cpus[d].Holds();
    }
  }

  /** try_lock takes a ticket only if all drawn tickets are served: nobody holds the lock or waits for it. */
  lemma TryInv(s: State, c: nat, val: nat)
    requires Inv(s) && c < |s.cpus| && s.cpus[c].pc == TryStoreNext(val) && s.cpus[c].reserved
    ensures Inv(Take(s, c, val, Critical).(granted := s.granted + [s.drawn]))
    ensures forall d :: 0 <= d < |s.cpus| ==> !s.cpus[d].HasTicket()
  {
    assert CpuOk(s, s.cpus[c]);
    forall d | 0 <= d < |s.cpus|
      ensures !s.cpus[d].HasTicket()
    {
      assert CpuOk(s, s.cpus[d]);
    }
    var t := Take(s, c, val, Critical);
    var s' := t.(granted := s.granted + [s.drawn]);
    TakeTickets(s, c, val, Critical);
    TakeCpus(s, c, val, Critical);
    forall d | 0 <= d < |s'.cpus|
      ensures CpuOk(s', s'.cpus[d])
    {
      assert CpuOk(t, t.cpus[d]);
    }
    assert s'.cpus[c].Holds();
  }

  /** Unlocking serves the next ticket. */
  lemma ReleaseInv(s: State, c: nat, val: nat)
    requires Inv(s) && c < |s.cpus| && s.cpus[c].pc == UnlockStore(val)
    ensures Inv(s.Put(c, s.cpus[c].(pc := Out)).(owner := Wrap(val + 1), served := s.served + 1))
  {
    assert CpuOk(s, s.cpus[c]);
    var s' := s.Put(c, s.cpus[c].(pc := Out)).(owner := Wrap(val + 1), served := s.served + 1);
    WrapNext(s.served);
    CountUpdate(s.cpus, c, s'.cpus[c]);
    forall d: nat | d < |s'.cpus|
      ensures CpuOk(s', s'.cpus[d]) && !s'.cpus[d].Holds()
    {
      ReleaseCpu(s, c, s', d);
    }
    assert s.cpus[c].Holds();
    ReleaseTickets(s, c, s');
  }

  lemma ReleaseCpu(s: State, c: nat, s': State, d: nat)
    requires Inv(s) && c < |s.cpus| && s.cpus[c].Holds()
             && s' == s.Put(c, s.cpus[c].(pc := Out)).(owner := s'.owner, served := s.served + 1)
    requires d < |s.cpus|
    ensures CpuOk(s', s'.cpus[d]) && !s'.cpus[d].Holds()
  {
    assert CpuOk(s, s.cpus[c]) && CpuOk(s, s.cpus[d]);
    if d != c && s.cpus[d].HasTicket() {
      assert s.cpus[d].turn != s.cpus[c].turn;
    }
  }

  lemma ReleaseTickets(s: State, c: nat, s': State)
    requires Inv(s) && c < |s.cpus| && s.cpus[c].Holds()
             && s' == s.Put(c, s.cpus[c].(pc := Out)).(owner := s'.owner, served := s.served + 1)
    ensures forall k: nat :: s'.served <= k < s'.drawn ==> Issued(s'.cpus, k)
  {
    assert CpuOk(s, s.cpus[c]);
    forall k: nat | s'.served <= k < s'.drawn
      ensures Issued(s'.cpus, k)
    {
      assert Issued(s.cpus, k);
      var d :| 0 <= d < |s.cpus| && s.cpus[d].HasTicket() && s.cpus[d].turn == k;
      assert s'.cpus[d].HasTicket() && s'.cpus[d].turn == k;
    }
  }

  lemma NextInv(s: State, e: Event)
    requires Inv(s) && Enabled(s, e)
    ensures Inv(Next(s, e))
  {
    var c, u, s' := e.c, s.cpus[e.c], Next(s, e);
    assert CpuOk(s, u);
    if e.Step? && u.pc.StoreNext? && u.reserved && !e.fails {
      DrawInv(s, c, u.pc.val);
    } else if e.Step? && u.pc.TryStoreNext? && u.reserved && !e.fails {
      TryInv(s, c, u.pc.val);
    } else if e.Step? && u.pc.Poll? {
      if s.owner == u.pc.val {
        EnterInv(s, c, s');
      }
    } else if e.Step? && u.pc.UnlockStore? {
      ReleaseInv(s, c, u.pc.val);
    } else {
      if e.Step? && u.pc.TryLoadOwner? && u.reserved && s.owner == u.pc.val {
        FewOut(s);
        WrapApart(s.served, s.drawn);
      }
      QuietInv(s, s', c, s'.cpus[c]);
    }
  }

  // ------------------------------------------------------------------------------------------- runs

  predicate Legal(s: State, es: seq<Event>)
    decreases |es|
  {
    es == [] || (Enabled(s, es[0]) && Legal(Next(s, es[0]), es[1..]))
  }

  function After(s: State, es: seq<Event>): State
    requires Legal(s, es)
    decreases |es|
  {
    if es == [] then s else After(Next(s, es[0]), es[1..])
  }

  lemma {:induction false} RunInv(s: State, es: seq<Event>)
    requires Inv(s) && Legal(s, es)
    ensures Inv(After(s, es))
    decreases |es|
  {
    if es != [] {
      NextInv(s, es[0]);
      RunInv(Next(s, es[0]), es[1..]);
    }
  }

  lemma InitInv(n: nat)
    requires n < LIMIT
    ensures Inv(Init(n))
  {
    NoneOut(Init(n).cpus);
  }

  lemma {:induction false} NoneOut(cpus: seq<Cpu>)
    requires forall c :: 0 <= c < |cpus| ==> !cpus[c].HasTicket()
    ensures Count(cpus) == 0
  {
    if cpus != [] {
      NoneOut(cpus[..|cpus| - 1]);
    }
  }

  /** At most one CPU holds the lock, in every interleaving, also when the counters have wrapped around. */
  lemma MutualExclusion(n: nat, es: seq<Event>, s: State, c: nat, d: nat)
    requires n < LIMIT && Legal(Init(n), es) && s == After(Init(n), es) && c < |s.cpus| && d < |s.cpus|
    requires s.cpus[c].Holds() && s.cpus[d].Holds()
    ensures c == d
  {
    InitInv(n);
    RunInv(Init(n), es);
    assert CpuOk(s, s.cpus[c]);
    OneHolder(s, c, d);
  }

  /** The lock is granted in the order in which the tickets were drawn. */
  lemma TicketOrder(n: nat, es: seq<Event>, s: State, i: nat)
    requires n < LIMIT && Legal(Init(n), es) && s == After(Init(n), es) && i < |s.granted|
    ensures s.granted[i] == i
  {
    InitInv(n);
    RunInv(Init(n), es);
  }

  /** try_lock gets the lock only when nobody holds it or waits for it. */
  lemma TryLockFree(n: nat, es: seq<Event>, s: State, c: nat, d: nat)
    requires n < LIMIT && Legal(Init(n), es) && s == After(Init(n), es) && c < |s.cpus| && d < |s.cpus|
    requires s.cpus[c].pc.TryStoreNext? && s.cpus[c].reserved
    ensures !s.cpus[d].HasTicket()
  {
    InitInv(n);
    RunInv(Init(n), es);
    TryInv(s, c, s.cpus[c].pc.val);
  }

  /** Somebody holds the lock or waits for it. */
  ghost predicate InUse(s: State) {
    exists c :: 0 <= c < |s.cpus| && s.cpus[c].HasTicket()
  }

  lemma WordsDiffer(s: State)
    requires Inv(s)
    ensures s.owner != s.next <==> InUse(s)
    ensures s.served < s.drawn <==> InUse(s)
  {
    FewOut(s);
    WrapApart(s.served, s.drawn);
    if s.served < s.drawn {
      assert Issued(s.cpus, s.served);
    } else {
      forall c | 0 <= c < |s.cpus|
        ensures !s.cpus[c].HasTicket()
      {
        assert CpuOk(s, s.cpus[c]);
      }
    }
  }

  /** is_locked tells whether somebody holds the lock or waits for it. */
  lemma IsLockedExact(n: nat, es: seq<Event>, s: State)
    requires n < LIMIT && Legal(Init(n), es) && s == After(Init(n), es)
    ensures IsLocked(s) <==> InUse(s)
  {
    InitInv(n);
    RunInv(Init(n), es);
    WordsDiffer(s);
  }

  // ------------------------------------------------------------------------------- calls that go through

  /** Steps of `c` in a row, in which no store-exclusive fails without reason. */
  function Steps(c: nat, n: nat): seq<Event> {
    if n == 0 then [] else [Step(c, false)] + Steps(c, n - 1)
  }

  /** After one step there are `n` more. */
  lemma StepsCons(s: State, c: nat, n: nat)
    requires Enabled(s, Step(c, false)) && Legal(Next(s, Step(c, false)), Steps(c, n))
    ensures Legal(s, Steps(c, n + 1)) && After(s, Steps(c, n + 1)) == After(Next(s, Step(c, false)), Steps(c, n))
  {
    assert Steps(c, n + 1)[1..] == Steps(c, n);
  }

  /** On a lock that nobody holds or waits for, lock takes it in three steps. */
  lemma LockGets(n: nat, es: seq<Event>, s: State, c: nat)
    requires n < LIMIT && Legal(Init(n), es) && s == After(Init(n), es) && Enabled(s, Lock(c)) && !InUse(s)
    ensures Legal(Next(s, Lock(c)), Steps(c, 3)) && |After(Next(s, Lock(c)), Steps(c, 3)).cpus| == |s.cpus|
    ensures After(Next(s, Lock(c)), Steps(c, 3)).cpus[c].Holds()
  {
    InitInv(n);
    RunInv(Init(n), es);
    WordsDiffer(s);
    var s0, e := Next(s, Lock(c)), Step(c, false);
    var s1 := Next(s0, e);
    var s2 := Next(s1, e);
    StepsCons(s2, c, 0);
    StepsCons(s1, c, 1);
    StepsCons(s0, c, 2);
  }

  /** So does try_lock. */
  lemma TryLockGets(n: nat, es: seq<Event>, s: State, c: nat)
    requires n < LIMIT && Legal(Init(n), es) && s == After(Init(n), es) && Enabled(s, TryLock(c)) && !InUse(s)
    ensures Legal(Next(s, TryLock(c)), Steps(c, 3)) && |After(Next(s, TryLock(c)), Steps(c, 3)).cpus| == |s.cpus|
    ensures After(Next(s, TryLock(c)), Steps(c, 3)).cpus[c].Holds()
  {
    InitInv(n);
    RunInv(Init(n), es);
    WordsDiffer(s);
    var s0, e := Next(s, TryLock(c)), Step(c, false);
    var s1 := Next(s0, e);
    var s2 := Next(s1, e);
    StepsCons(s2, c, 0);
    StepsCons(s1, c, 1);
    StepsCons(s0, c, 2);
  }

  /** When try_lock has loaded the owner, and next still is what it has loaded before, it gives up if and only if
      somebody holds the lock or waits for it; the lock stays as it is. */
  lemma TryLockRefuses(n: nat, es: seq<Event>, s: State, c: nat, fails: bool)
    requires n < LIMIT && Legal(Init(n), es) && s == After(Init(n), es) && c < |s.cpus|
    requires s.cpus[c].pc == TryLoadOwner(s.next)
    ensures Enabled(s, Step(c, fails)) && |Next(s, Step(c, fails)).cpus| == |s.cpus|
    ensures Next(s, Step(c, fails)).cpus[c].pc == if InUse(s) then Out else TryStoreNext(s.next)
    ensures Next(s, Step(c, fails)).owner == s.owner && Next(s, Step(c, fails)).next == s.next
  {
    InitInv(n);
    RunInv(Init(n), es);
    WordsDiffer(s);
  }

  /** unlock ends in two steps, with the next number in the owner word. */
  lemma UnlockEnds(s: State, c: nat)
    requires Enabled(s, Unlock(c))
    ensures Legal(Next(s, Unlock(c)), Steps(c, 2))
    ensures After(Next(s, Unlock(c)), Steps(c, 2))
         == s.Put(c, s.cpus[c].(pc := Out)).(owner := Wrap(s.owner + 1), served := s.served + 1)
  {
    var s0, e := Next(s, Unlock(c)), Step(c, false);
    var s1 := Next(s0, e);
    StepsCons(s1, c, 0);
    StepsCons(s0, c, 1);
    var u := s.cpus[c];
    assert s.cpus[c := u.(pc := UnlockLoad)][c := u.(pc := UnlockStore(s.owner))][c := u.(pc := Out)]
        == s.cpus[c := u.(pc := Out)];
  }

  predicate Locking(u: Cpu) {
    u.pc.LoadNext? || u.pc.StoreNext? || u.pc.Poll?
  }

  /** CPU `c` holds the lock at some time of the run. */
  predicate HoldsOnce(s: State, es: seq<Event>, c: nat)
    requires Legal(s, es)
    decreases |es|
  {
    (c < |s.cpus| && s.cpus[c].Holds()) || (es != [] && HoldsOnce(Next(s, es[0]), es[1..], c))
  }

  lemma {:induction false} SameCpus(s: State, es: seq<Event>)
    requires Legal(s, es)
    ensures |After(s, es).cpus| == |s.cpus|
    decreases |es|
  {
    if es != [] {
      SameCpus(Next(s, es[0]), es[1..]);
    }
  }

  /** Whatever the other CPUs do: lock does not return without having got the lock. */
  lemma {:induction false} LockReturnsHeld(s: State, es: seq<Event>, c: nat)
    requires Legal(s, es) && c < |s.cpus| && Locking(s.cpus[c])
    ensures |After(s, es).cpus| == |s.cpus| && (Locking(After(s, es).cpus[c]) || HoldsOnce(s, es, c))
    decreases |es|
  {
    SameCpus(s, es);
    if es != [] {
      var s' := Next(s, es[0]);
      if Locking(s'.cpus[c]) {
        LockReturnsHeld(s', es[1..], c);
      } else {
        assert HoldsOnce(s', es[1..], c);
      }
    }
  }

  predicate Trying(u: Cpu) {
    u.pc.TryLoadNext? || u.pc.TryLoadOwner? || u.pc.TryStoreNext?
  }

  /** A CPU other than `c` holds the lock or waits for it. */
  ghost predicate InUseBut(s: State, c: nat) {
    exists d :: 0 <= d < |s.cpus| && d != c && s.cpus[d].HasTicket()
  }

  /** At some time of the run. */
  ghost predicate InUseOnce(s: State, es: seq<Event>, c: nat)
    requires Legal(s, es)
    decreases |es|
  {
    InUseBut(s, c) || (es != [] && InUseOnce(Next(s, es[0]), es[1..], c))
  }

  /** What `c` has loaded still is the owner, or another CPU is in the way. */
  ghost predicate Chance(s: State, c: nat)
    requires c < |s.cpus|
  {
    Trying(s.cpus[c]) && (s.cpus[c].pc.TryLoadOwner? ==> s.cpus[c].pc.val == s.owner || InUseBut(s, c))
  }

  lemma TryStep(s: State, e: Event, c: nat)
    requires Inv(s) && Enabled(s, e) && c < |s.cpus| && Chance(s, c) && !InUseBut(s, c)
    ensures |Next(s, e).cpus| == |s.cpus| && (Next(s, e).cpus[c].Holds() || Chance(Next(s, e), c))
  {
    WordsDiffer(s);
  }

  lemma {:induction false} TryRun(s: State, es: seq<Event>, c: nat)
    requires Inv(s) && Legal(s, es) && c < |s.cpus| && Chance(s, c)
    ensures |After(s, es).cpus| == |s.cpus|
    ensures Trying(After(s, es).cpus[c]) || HoldsOnce(s, es, c) || InUseOnce(s, es, c)
    decreases |es|
  {
    SameCpus(s, es);
    if es != [] && !InUseBut(s, c) {
      var s' := Next(s, es[0]);
      TryStep(s, es[0], c);
      NextInv(s, es[0]);
      if s'.cpus[c].Holds() {
        assert HoldsOnce(s', es[1..], c);
      } else {
        TryRun(s', es[1..], c);
      }
    }
  }

  /** Whatever the other CPUs do: try_lock fails only if another CPU held the lock or waited for it during the call. */
  lemma TryLockFailsInUse(n: nat, es: seq<Event>, s: State, c: nat, fs: seq<Event>)
    requires n < LIMIT && Legal(Init(n), es) && s == After(Init(n), es) && Enabled(s, TryLock(c))
    requires Legal(Next(s, TryLock(c)), fs) && |After(Next(s, TryLock(c)), fs).cpus| == |s.cpus|
    requires After(Next(s, TryLock(c)), fs).cpus[c].pc.Out? && !HoldsOnce(Next(s, TryLock(c)), fs, c)
    ensures InUseOnce(Next(s, TryLock(c)), fs, c)
  {
    InitInv(n);
    RunInv(Init(n), es);
    NextInv(s, TryLock(c));
    TryRun(Next(s, TryLock(c)), fs, c);
  }

  /** The lock is never lost: while somebody has a ticket, one CPU has the ticket that is served, and either holds the
      lock or gets it with its next look at the owner word. */
  lemma NeverLost(n: nat, es: seq<Event>, s: State, w: nat) returns (c: nat)
    requires n < LIMIT && Legal(Init(n), es) && s == After(Init(n), es) && w < |s.cpus| && s.cpus[w].HasTicket()
    ensures c < |s.cpus| && s.cpus[c].HasTicket() && s.cpus[c].turn == s.served
    ensures s.cpus[c].Holds() || (Enabled(s, Step(c, false)) && Next(s, Step(c, false)).cpus[c].Holds())
  {
    InitInv(n);
    RunInv(Init(n), es);
    assert CpuOk(s, s.cpus[w]);
    assert Issued(s.cpus, s.served);
    c :| 0 <= c < |s.cpus| && s.cpus[c].HasTicket() && s.cpus[c].turn == s.served;
    assert CpuOk(s, s.cpus[c]);
  }
}
