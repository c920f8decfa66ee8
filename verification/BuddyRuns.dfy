/** Whole runs of the buddy allocator.  A step is what the contracts of GetPages and FreePages
    promise; a run starts from the pool that the constructor leaves behind. */
module BuddyRuns {
  import opened Common
  import opened Blocks
  import opened BuddyState
  import opened BuddySteps
  import opened Buddy

  datatype Event = Got(a: nat, k: nat) | Refused(k: nat) | Gave(a: nat, k: nat)

  ghost predicate Step(s: PoolState, e: Event, t: PoolState) {
    t.Valid() &&
    match e
    case Got(a, k) => k < MAX_ORDER && Claims(s.m, t.m, a, k)
    case Refused(k) => t == s && (k >= MAX_ORDER || forall a: nat :: !s.m.AllFree(a, k))
    case Gave(a, k) => s.m.UsedChunk(a, k) && Releases(s.m, t.m, a, k)
  }

  /** A run from the all-free pool of n frames at lo. */
  ghost predicate Run(ts: seq<PoolState>, es: seq<Event>, lo: nat, n: nat) {
    && |ts| == |es| + 1 && ts[0].Valid() && ts[0].m.lo == lo && |ts[0].m.order| == n
    && (forall p: nat :: ts[0].m.Free(p) <==> lo <= p < lo + n)
    && (forall i :: 0 <= i < |es| ==> Step(ts[i], es[i], ts[i + 1]))
  }

  /** The chunks handed out and not yet given back, from the events alone. */
  function Ledger(es: seq<Event>): (r: set<(nat, nat)>) {
    if es == [] then {}
    else
      var l := Ledger(es[..|es| - 1]);
      match es[|es| - 1]
      case Got(a, k) => l + {(a, k)}
      case Refused(_) => l
      case Gave(a, k) => l - {(a, k)}
  }

  /** Frames handed out minus frames given back. */
  function Held(es: seq<Event>): (r: int) {
    if es == [] then 0
    else
      var h := Held(es[..|es| - 1]);
      match es[|es| - 1]
      case Got(_, k) => h + Pow2(k)
      case Refused(_) => h
      case Gave(_, k) => h - Pow2(k)
  }

  lemma RunPrefix(ts: seq<PoolState>, es: seq<Event>, lo: nat, n: nat)
    requires Run(ts, es, lo, n) && es != []
    ensures Run(ts[..|es|], es[..|es| - 1], lo, n)
    ensures Step(ts[|es| - 1], es[|es| - 1], ts[|es|])
  {
  }

  lemma StepChunks(s: PoolState, e: Event, t: PoolState, b: nat, j: nat)
    requires s.Valid() && Step(s, e, t)
    ensures t.m.UsedChunk(b, j) <==>
            match e
            case Got(a, k) => s.m.UsedChunk(b, j) || (b, j) == (a, k)
            case Refused(_) => s.m.UsedChunk(b, j)
            case Gave(a, k) => s.m.UsedChunk(b, j) && (b, j) != (a, k)
  {
    AncOfBase(b, j);
    if e.Gave? {
      AncOfBase(e.a, e.k);
      BlockIn(s.m, Base(e.a, e.k), e.k);
    }
  }

  /** At the end of every run the outstanding chunks in the metadata are the ones in the ledger, each
      frame of the pool is free or in exactly one of them, and the free memory is what is not held. */
  lemma {:induction false} RunInvariant(ts: seq<PoolState>, es: seq<Event>, lo: nat, n: nat)
    requires Run(ts, es, lo, n)
    ensures var t := ts[|es|];
            && t.Valid() && t.m.lo == lo && |t.m.order| == n
            && (forall b: nat, j: nat :: t.m.UsedChunk(b, j) <==> (b, j) in Ledger(es))
            && |FreeFrames(t.m)| + Held(es) == n
  {
    if es == [] {
      NoneUsed(ts[0].m);
      assert FreeFrames(ts[0].m) == Span(lo, n);
    } else {
      RunPrefix(ts, es, lo, n);
      RunInvariant(ts[..|es|], es[..|es| - 1], lo, n);
      var s, e, t := ts[|es| - 1], es[|es| - 1], ts[|es|];
      assert ts[..|es|][|es| - 1] == s;
      forall b: nat, j: nat
        ensures t.m.UsedChunk(b, j) <==> (b, j) in Ledger(es)
      {
        StepChunks(s, e, t, b, j);
      }
      match e
      case Got(a, k) => ClaimSize(s.m, t.m, a, k);
      case Refused(_) =>
      case Gave(a, k) =>
        AncOfBase(a, k);
        BlockIn(s.m, Base(a, k), k);
        ReleaseIsClaim(s.m, t.m, a, k);
        ClaimSize(t.m, s.m, a, k);
    }
  }

  lemma NoneUsed(m: Meta)
    requires forall p: nat :: m.In(p) ==> m.Free(p)
    ensures forall b: nat, j: nat :: !m.UsedChunk(b, j)
  {
  }

  /** Outstanding chunks never overlap, and a chunk being handed out overlaps none of them. */
  lemma OutstandingDisjoint(ts: seq<PoolState>, es: seq<Event>, lo: nat, n: nat, b: nat, j: nat, c: nat, i: nat, p: nat)
    requires Run(ts, es, lo, n)
    requires (b, j) in Ledger(es) && (c, i) in Ledger(es) && Anc(p, j) == b && Anc(p, i) == c
    ensures (b, j) == (c, i) && lo <= p < lo + n
  {
    RunInvariant(ts, es, lo, n);
    var m := ts[|es|].m;
    assert m.UsedChunk(b, j) && m.UsedChunk(c, i);
    AncOfBase(b, j);
    AncOfBase(c, i);
    BlockIn(m, Base(b, j), j);
    BlockIn(m, Base(c, i), i);
    assert m.UsedAt(p, j) && m.UsedAt(p, i);
  }

  lemma NewChunkDisjoint(ts: seq<PoolState>, es: seq<Event>, lo: nat, n: nat, b: nat, j: nat, p: nat)
    requires Run(ts, es, lo, n) && es != [] && es[|es| - 1].Got?
    requires (b, j) in Ledger(es[..|es| - 1]) && Anc(p, j) == b
    ensures Anc(p, es[|es| - 1].k) != es[|es| - 1].a
  {
    RunPrefix(ts, es, lo, n);
    RunInvariant(ts[..|es|], es[..|es| - 1], lo, n);
    var m := ts[..|es|][|es| - 1].m;
    assert m.UsedChunk(b, j);
    AncOfBase(b, j);
    BlockIn(m, Base(b, j), j);
    assert m.UsedAt(p, j) && !m.Free(p);
  }

  /** A frame is free exactly when it is in the pool and in no outstanding chunk. */
  lemma FreeByLedger(ts: seq<PoolState>, es: seq<Event>, lo: nat, n: nat, p: nat)
    requires Run(ts, es, lo, n)
    ensures ts[|es|].m.Free(p) <==> lo <= p < lo + n && forall k: nat :: (Anc(p, k), k) !in Ledger(es)
  {
    RunInvariant(ts, es, lo, n);
    var m := ts[|es|].m;
    if m.Free(p) {
      forall k: nat
        ensures (Anc(p, k), k) !in Ledger(es)
      {
        assert m.UsedChunk(Anc(p, k), k) <==> (Anc(p, k), k) in Ledger(es);
        AncOfBase(Anc(p, k), k);
        if m.UsedChunk(Anc(p, k), k) {
          BlockIn(m, Base(Anc(p, k), k), k);
        }
      }
    } else if lo <= p < lo + n {
      var k := m.order[p - lo];
      assert m.UsedAt(p, k);
      AncOfBase(Anc(p, k), k);
      BlockIn(m, p, k);
      assert m.UsedChunk(Anc(p, k), k);
      assert (Anc(p, k), k) in Ledger(es);
    }
  }

  /** Two runs on the same pool that end with the same outstanding chunks end with the same free
      lists: neither the order of the requests nor anything since returned leaves a trace. */
  lemma LedgerDeterminesLists(ts: seq<PoolState>, es: seq<Event>, us: seq<PoolState>, fs: seq<Event>, lo: nat, n: nat)
    requires Run(ts, es, lo, n) && Run(us, fs, lo, n) && Ledger(es) == Ledger(fs)
    ensures forall k :: 0 <= k < MAX_ORDER ==> multiset(ts[|es|].lists[k]) == multiset(us[|fs|].lists[k])
    ensures forall k :: 0 <= k < MAX_ORDER ==> ts[|es|].nrFree[k] == us[|fs|].nrFree[k]
  {
    var t, u := ts[|es|], us[|fs|];
    RunInvariant(ts, es, lo, n);
    RunInvariant(us, fs, lo, n);
    forall p: nat
      ensures t.m.Free(p) <==> u.m.Free(p)
    {
      FreeByLedger(ts, es, lo, n, p);
      FreeByLedger(us, fs, lo, n, p);
    }
    SameFramesSameLists(t, u);
  }

  /** Giving back a chunk right after getting it restores every free list. */
  lemma RoundTrip(s: PoolState, t: PoolState, u: PoolState, a: nat, k: nat)
    requires s.Valid() && Step(s, Got(a, k), t) && Step(t, Gave(a, k), u)
    ensures forall j :: 0 <= j < MAX_ORDER ==>
              multiset(u.lists[j]) == multiset(s.lists[j]) && u.nrFree[j] == s.nrFree[j]
    ensures forall p: nat, j: nat :: u.m.UsedAt(p, j) <==> s.m.UsedAt(p, j)
  {
    forall p: nat
      ensures u.m.Free(p) <==> s.m.Free(p)
    {
      assert Anc(p, k) == a ==> s.m.Free(p);
    }
    forall p: nat, j: nat
      ensures u.m.UsedAt(p, j) <==> s.m.UsedAt(p, j)
    {
      assert Anc(p, k) == a ==> s.m.Free(p);
    }
    SameFramesSameLists(s, u);
  }

  // ---------------------------------------------------------------------------- the code makes such runs

  /** buddy_get_pages takes a step. */
  method Request(pool: Pool, k: nat) returns (r: Option<nat>, ghost e: Event)
    requires pool.Valid()
    modifies pool.order, pool.taken, pool.freeList, pool.nrFree
    ensures pool.Valid() && Step(old(pool.View()), e, pool.View())
    ensures r.None? ==> e == Refused(k)
    ensures r.Some? ==> IsHead(r.value, k) && e == Got(Anc(r.value, k), k)
  {
    r := pool.GetPages(k);
    e := if r.Some? then Got(Anc(r.value, k), k) else Refused(k);
  }

  /** So does buddy_free_pages, for a chunk that is out. */
  method Return(pool: Pool, h: nat, ghost k: nat) returns (ghost e: Event)
    requires pool.Valid() && IsHead(h, k) && pool.View().m.UsedAt(h, k)
    modifies pool.order, pool.taken, pool.freeList, pool.nrFree
    ensures pool.Valid() && e == Gave(Anc(h, k), k) && Step(old(pool.View()), e, pool.View())
  {
    e := Gave(Anc(h, k), k);
    pool.FreePages(h);
  }

  /** What a client may ask for: pages of some order, or to give back the chunk that it has got as number `i`. */
  datatype Command = Ask(k: nat) | GiveBack(i: nat)

  /** The chunks that a client holds are out, and no chunk is listed twice. */
  ghost predicate Holds(s: PoolState, held: seq<(nat, nat)>) {
    NoDup(held) && forall x :: x in held ==> IsHead(x.0, x.1) && s.m.UsedAt(x.0, x.1)
  }

  lemma HoldsMore(s: PoolState, t: PoolState, held: seq<(nat, nat)>, h: nat, k: nat)
    requires s.Valid() && Holds(s, held) && IsHead(h, k) && Step(s, Got(Anc(h, k), k), t)
    ensures Holds(t, held + [(h, k)])
  {
    forall x | x in held
      ensures t.m.UsedAt(x.0, x.1) && x != (h, k)
    {
      assert s.m.UsedAt(x.0, x.1);
    }
  }

  lemma HoldsLess(s: PoolState, t: PoolState, held: seq<(nat, nat)>, i: nat)
    requires s.Valid() && Holds(s, held) && i < |held| && Step(s, Gave(Anc(held[i].0, held[i].1), held[i].1), t)
    ensures Holds(t, held[..i] + held[i + 1..])
  {
    var h, k := held[i].0, held[i].1;
    forall j | 0 <= j < |held| && j != i
      ensures t.m.UsedAt(held[j].0, held[j].1)
    {
      var x := held[j];
      assert x in held && held[i] in held;
      assert s.m.UsedAt(h, k) && (s.m.UsedAt(x.0, k) ==> x.1 == k);
      assert Anc(x.0, k) != Anc(h, k);
    }
  }

  /** Whatever a client of a new pool asks for, in whatever order: the calls make a run. */
  method Drive(lo: nat, n: nat, commands: seq<Command>)
      returns (pool: Pool, held: seq<(nat, nat)>, ghost ts: seq<PoolState>, ghost es: seq<Event>)
    ensures pool.Valid() && Run(ts, es, lo, n) && ts[|es|] == pool.View() && Holds(pool.View(), held)
  {
    pool := new Pool(lo, n);
    held, ts, es := [], [pool.View()], [];
    for c := 0 to |commands|
      invariant fresh(pool.order) && fresh(pool.taken) && fresh(pool.freeList) && fresh(pool.nrFree)
      invariant pool.Valid() && Run(ts, es, lo, n) && ts[|es|] == pool.View() && Holds(pool.View(), held)
    {
      ghost var s := pool.View();
      match commands[c] {
        case Ask(k) =>
          var r;
          ghost var e;
          r, e := Request(pool, k);
          if r.Some? {
            HoldsMore(s, pool.View(), held, r.value, k);
            held := held + [(r.value, k)];
          }
          RunMore(ts, es, lo, n, e, pool.View());
          ts, es := ts + [pool.View()], es + [e];
        case GiveBack(i) =>
          if i < |held| {
            assert held[i] in held;
            ghost var e := Return(pool, held[i].0, held[i].1);
            HoldsLess(s, pool.View(), held, i);
            held := held[..i] + held[i + 1..];
            RunMore(ts, es, lo, n, e, pool.View());
            ts, es := ts + [pool.View()], es + [e];
          }
      }
    }
  }

  lemma RunMore(ts: seq<PoolState>, es: seq<Event>, lo: nat, n: nat, e: Event, t: PoolState)
    requires Run(ts, es, lo, n) && Step(ts[|es|], e, t)
    ensures Run(ts + [t], es + [e], lo, n)
  {
  }
}
