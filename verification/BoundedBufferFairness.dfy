/** The producer/consumer program under a scheduler that leaves out no thread for ever: every such run ends. */
module BoundedBufferFairness {
  import opened BoundedBuffer
  import opened BoundedBufferSafety
  import opened BoundedBufferRuns
  import opened BoundedBufferProgress

  /** The state after the first `n` steps of an endless run, in which thread f(k) takes step k. */
  function At(s: State, f: nat -> nat, n: nat): State {
    Run(s, seq(n, k requires 0 <= k < n => f(k)))
  }

  /** A thread that can move gets another turn. */
  ghost predicate Fair(s: State, f: nat -> nat) {
    forall n: nat, t: nat {:trigger CanMove(At(s, f, n), t)} :: CanMove(At(s, f, n), t) ==> TurnAfter(f, n, t)
  }

  ghost predicate TurnAfter(f: nat -> nat, n: nat, t: nat) {
    exists m: nat :: m >= n && f(m) == t
  }

  lemma AtNext(s: State, f: nat -> nat, n: nat, n': nat)
    requires n' == n + 1
    ensures At(s, f, n') == Next(At(s, f, n), f(n))
  {
    var more := seq(n + 1, k requires 0 <= k < n + 1 => f(k));
    assert more[..n] == seq(n, k requires 0 <= k < n => f(k));
  }

  lemma AtKeeps(s: State, f: nat -> nat, n: nat)
    requires Inv(s)
    ensures Inv(At(s, f, n)) && At(s, f, n).size == s.size && |At(s, f, n).threads| == |s.threads|
    ensures Tally(At(s, f, n).threads).goalP == Tally(s.threads).goalP
            && Tally(At(s, f, n).threads).goalC == Tally(s.threads).goalC
  {
    var sched := seq(n, k requires 0 <= k < n => f(k));
    RunInv(s, sched);
    RunSize(s, sched);
    RunGoals(s, sched);
    RunRoles(s, sched);
  }

  /** A step that is no move, by another thread, leaves a thread that can move able to do so. */
  lemma StillCanMove(s: State, t: nat, u: nat)
    requires CanMove(s, t) && u != t && !Moves(s, u)
    ensures CanMove(Next(s, u), t) && Next(s, u).threads[t] == s.threads[t]
  {
  }

  /** The turn of a thread that can move is a move, or shows it that the lock is free. */
  lemma OwnTurn(s: State, t: nat)
    requires CanMove(s, t) && !Moves(s, t)
    ensures s.threads[t].pc.Spin? && CanMove(Next(s, t), t) && Next(s, t).threads[t].pc.Lock?
  {
  }

  lemma OneTurn(s: State, f: nat -> nat, n: nat, n': nat, t: nat)
    requires CanMove(At(s, f, n), t) && !Moves(At(s, f, n), f(n)) && n' == n + 1
    ensures CanMove(At(s, f, n'), t)
    ensures if f(n) == t then At(s, f, n).threads[t].pc.Spin? && At(s, f, n').threads[t].pc.Lock?
              else At(s, f, n').threads[t] == At(s, f, n).threads[t]
  {
    var now, next, u := At(s, f, n), At(s, f, n'), f(n);
    AtNext(s, f, n, n');
    if u == t {
      OwnTurn(now, t);
    } else {
      StillCanMove(now, t, u);
    }
  }

  /** Some thread moves at step k, or thread `t` finds the lock free there. */
  predicate GoesOn(s: State, f: nat -> nat, k: nat, k': nat, t: nat) {
    k' == k + 1 &&
    (Moves(At(s, f, k), f(k)) || (CanMove(At(s, f, k'), t) && At(s, f, k').threads[t].pc.Lock?))
  }

  /** Up to the next turn of a thread that can move, some thread moves, unless that one has still to see that the lock
      is free. */
  lemma {:induction false} UntilTurn(s: State, f: nat -> nat, n: nat, m: nat, t: nat) returns (k: nat, k': nat)
    requires CanMove(At(s, f, n), t) && n <= m && f(m) == t
    ensures n <= k && GoesOn(s, f, k, k', t)
    ensures !At(s, f, n).threads[t].pc.Spin? ==> Moves(At(s, f, k), f(k))
    decreases m - n
  {
    var n' := n + 1;
    if Moves(At(s, f, n), f(n)) {
      k, k' := n, n';
    } else {
      OneTurn(s, f, n, n', t);
      if f(n) == t {
        k, k' := n, n';
      } else {
        k, k' := UntilTurn(s, f, n', m, t);
      }
    }
  }

  /** In a fair run some thread moves again as long as not all have left. */
  lemma NextMove(s: State, f: nat -> nat, n: nat) returns (k: nat)
    requires Inv(s) && Fair(s, f) && !Final(At(s, f, n))
    requires var c := Tally(s.threads); c.goalC <= c.goalP <= c.goalC + s.size
    ensures n <= k && Moves(At(s, f, k), f(k))
  {
    AtKeeps(s, f, n);
    var t := NoDeadlock(At(s, f, n));
    k := MoveAfter(s, f, n, t);
  }

  lemma MoveAfter(s: State, f: nat -> nat, n: nat, t: nat) returns (k: nat)
    requires Fair(s, f) && CanMove(At(s, f, n), t)
    ensures n <= k && Moves(At(s, f, k), f(k))
  {
    assert TurnAfter(f, n, t);
    var m: nat :| m >= n && f(m) == t;
    var k';
    k, k' := UntilTurn(s, f, n, m, t);
    if !Moves(At(s, f, k), f(k)) {
      assert TurnAfter(f, k', t);
      m :| m >= k' && f(m) == t;
      k, k' := UntilTurn(s, f, k', m, t);
    }
  }

  lemma StepWork(s: State, f: nat -> nat, n: nat, n': nat)
    requires Inv(s) && n' == n + 1
    ensures Tally(At(s, f, n').threads).work <= Tally(At(s, f, n).threads).work
    ensures Moves(At(s, f, n), f(n)) ==> Tally(At(s, f, n').threads).work < Tally(At(s, f, n).threads).work
  {
    AtKeeps(s, f, n);
    AtNext(s, f, n, n');
    NextWork(At(s, f, n), f(n));
  }

  lemma {:induction false} WorkFalls(s: State, f: nat -> nat, n: nat, m: nat)
    requires Inv(s) && n <= m
    ensures Tally(At(s, f, m).threads).work <= Tally(At(s, f, n).threads).work
    decreases m - n
  {
    if n < m {
      var l := m - 1;
      WorkFalls(s, f, n, l);
      StepWork(s, f, l, m);
    }
  }

  lemma {:induction false} EndsFrom(s: State, f: nat -> nat, n: nat) returns (k: nat)
    requires Inv(s) && Fair(s, f)
    requires var c := Tally(s.threads); c.goalC <= c.goalP <= c.goalC + s.size
    ensures n <= k && Final(At(s, f, k))
    decreases Tally(At(s, f, n).threads).work
  {
    if Final(At(s, f, n)) {
      k := n;
    } else {
      var m := NextMove(s, f, n);
      var m' := m + 1;
      WorkFalls(s, f, n, m);
      StepWork(s, f, m, m');
      k := EndsFrom(s, f, m');
    }
  }

  lemma FinalNext(s: State, t: nat)
    requires Final(s)
    ensures Next(s, t) == s
  {
  }

  /** When all threads have left nothing happens any more. */
  lemma {:induction false} FinalStays(s: State, f: nat -> nat, n: nat, m: nat)
    requires Final(At(s, f, n)) && n <= m
    ensures At(s, f, m) == At(s, f, n)
    decreases m - n
  {
    if n < m {
      var l := m - 1;
      FinalStays(s, f, n, l);
      AtNext(s, f, l, m);
      FinalNext(At(s, f, l), f(l));
    }
  }

  /** Every fair run comes to its end, and stays there, if and only if the totals fit the buffer. */
  lemma FairEndsIff(size: nat, roles: seq<(bool, nat)>, f: nat -> nat)
    requires size > 0 && Fair(Init(size, roles), f)
    ensures Fits(size, roles) <==> exists n: nat :: Final(At(Init(size, roles), f, n))
    ensures forall n: nat, m: nat :: Final(At(Init(size, roles), f, n)) && n <= m ==>
              At(Init(size, roles), f, m) == At(Init(size, roles), f, n)
  {
    var s := Init(size, roles);
    InitInv(size, roles);
    InitGoals(size, roles);
    if Fits(size, roles) {
      var n := EndsFrom(s, f, 0);
    }
    forall n: nat | Final(At(s, f, n))
      ensures Fits(size, roles)
    {
      FinalTotals(size, roles, seq(n, k requires 0 <= k < n => f(k)), At(s, f, n));
    }
    forall n: nat, m: nat | Final(At(s, f, n)) && n <= m
      ensures At(s, f, m) == At(s, f, n)
    {
      FinalStays(s, f, n, m);
    }
  }

  /** Taking turns is fair. */
  lemma RoundRobinFair(s: State, f: nat -> nat)
    requires Inv(s) && |s.threads| > 0 && forall n: nat :: f(n) == n % |s.threads|
    ensures Fair(s, f)
  {
    forall n: nat, t: nat | CanMove(At(s, f, n), t)
      ensures TurnAfter(f, n, t)
    {
      AtKeeps(s, f, n);
      NextTurn(n, |s.threads|, t);
      assert f(n * |s.threads| + t) == t;
    }
  }

  lemma NextTurn(n: nat, k: nat, t: nat)
    requires t < k
    ensures n * k + t >= n && (n * k + t) % k == t
  {
    var x := n * k + t;
    var q := x / k;
    assert x == q * k + x % k;
    if q < n {
      Times(q + 1, n, k);
    } else if n < q {
      Times(n + 1, q, k);
    }
    Times(n, n, k);
  }

  lemma Times(a: nat, b: nat, k: nat)
    requires a <= b && k > 0
    ensures a * k <= b * k && a <= a * k
  {
  }
}
