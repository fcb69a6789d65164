/** A pool of connections (pyon/datastore/pool.py). */
module Pools {

  type Conn = nat

  datatype Reply = Got(conn: Conn) | Begun | Returned | ServerError | BadRequest | ValueError | Blocked

  /**
   * The pool, and its past: all connections created, those destroyed, and the calls of the close operation
   * in order, on check-in (closed) and by an interrupting shutdown (cut). A check-out that has passed its test
   * for a shutdown is pending: it holds the lock, which a shutdown does not take.
   */
  datatype State = State(
    used: seq<Conn>, unused: seq<Conn>, closing: bool, pending: bool,
    created: set<Conn>, destroyed: seq<Conn>, closed: seq<Conn>, cut: seq<Conn>)

  const Empty := State([], [], false, false, {}, [], [], [])

  datatype Step =
    | BeginCheckOut
    | EndCheckOut(made: Conn)
    | CheckIn(conn: Conn)
    | Destroy(conn: Conn)
    | ShutDown(hasOp: bool, interrupt: bool)

  function Remove(s: seq<Conn>, c: Conn): seq<Conn>
    requires c in s
  {
    if s[0] == c then s[1..] else [s[0]] + Remove(s[1..], c)
  }

  lemma {:induction false} RemoveOne(s: seq<Conn>, c: Conn)
    requires c in s
    ensures multiset(Remove(s, c)) == multiset(s) - multiset{c} && |Remove(s, c)| == |s| - 1
    decreases |s|
  {
    assert s == [s[0]] + s[1..];
    if s[0] != c { RemoveOne(s[1..], c); }
  }

  /** Everything but the end of a pending check-out and a shutdown waits for the lock. */
  predicate Enabled(s: State, step: Step) { step.ShutDown? || s.pending == step.EndCheckOut? }

  /** One step of a pool of at most max connections, whose factory makes the connection made if it is asked. */
  function Next(max: nat, s: State, step: Step): (State, Reply) {
    if !Enabled(s, step) then (s, Blocked)
    else match step
      case BeginCheckOut => if s.closing then (s, ServerError) else (s.(pending := true), Begun)
      case EndCheckOut(made) => Ended(max, s.(pending := false), made)
      case CheckIn(c) =>
        if c !in s.used then (s, ValueError)
        else
          var less := s.(used := Remove(s.used, c));
          (if s.closing then less.(closed := s.closed + [c]) else less.(unused := s.unused + [c]), Returned)
      case Destroy(c) =>
        if c !in s.used then (s, ValueError)
        else (s.(used := Remove(s.used, c), destroyed := s.destroyed + [c]), Returned)
      case ShutDown(hasOp, interrupt) =>
        (s.(closing := hasOp, cut := if interrupt && hasOp then s.cut + s.used else s.cut), Returned)
  }

  /** A check-out past its test takes the oldest unused connection, or a new one if there is room. */
  function Ended(max: nat, s: State, made: Conn): (State, Reply) {
    if s.unused != [] then (s.(used := s.used + [s.unused[0]], unused := s.unused[1..]), Got(s.unused[0]))
    else if |s.used| >= max then (s, BadRequest)
    else (s.(used := s.used + [made], created := s.created + {made}), Got(made))
  }

  predicate FactoryFresh(s: State, step: Step) { step.EndCheckOut? ==> step.made !in s.created }

  /** Every connection created is in exactly one place, once, and there are never too many. */
  ghost predicate Inv(max: nat, s: State) {
    && multiset(s.used) + multiset(s.unused) + multiset(s.destroyed) + multiset(s.closed) == multiset(s.created)
    && |s.used| + |s.unused| <= max
  }

  lemma AddMade(s: set<Conn>, c: Conn)
    requires c !in s
    ensures multiset(s + {c}) == multiset(s) + multiset{c}
  {
    assert forall x :: multiset(s + {c})[x] == multiset(s)[x] + multiset{c}[x];
  }

  lemma EndKeeps(max: nat, s: State, made: Conn)
    requires Inv(max, s) && made !in s.created
    ensures Inv(max, Ended(max, s, made).0)
  {
    if s.unused != [] {
      assert s.unused == [s.unused[0]] + s.unused[1..];
      assert multiset(s.unused) == multiset{s.unused[0]} + multiset(s.unused[1..]);
    } else {
      AddMade(s.created, made);
    }
  }

  lemma ReturnKeeps(max: nat, s: State, c: Conn, step: Step)
    requires Inv(max, s) && (step == CheckIn(c) || step == Destroy(c))
    ensures Inv(max, Next(max, s, step).0)
  {
    if c in s.used { RemoveOne(s.used, c); }
  }

  lemma StepKeeps(max: nat, s: State, step: Step)
    requires Inv(max, s) && FactoryFresh(s, step)
    ensures Inv(max, Next(max, s, step).0)
  {
    match step
    case EndCheckOut(made) => EndKeeps(max, s.(pending := false), made);
    case CheckIn(c) => ReturnKeeps(max, s, c, step);
    case Destroy(c) => ReturnKeeps(max, s, c, step);
    case BeginCheckOut =>
    case ShutDown(_, _) =>
  }

  function Run(max: nat, s: State, steps: seq<Step>): State
    decreases |steps|
  {
    if steps == [] then s else Run(max, Next(max, s, steps[0]).0, steps[1..])
  }

  ghost predicate AllFresh(max: nat, s: State, steps: seq<Step>)
    decreases |steps|
  {
    steps != [] ==> FactoryFresh(s, steps[0]) && AllFresh(max, Next(max, s, steps[0]).0, steps[1..])
  }

  lemma {:induction false} RunKeeps(max: nat, s: State, steps: seq<Step>)
    requires Inv(max, s) && AllFresh(max, s, steps)
    ensures Inv(max, Run(max, s, steps))
    decreases |steps|
  {
    if steps != [] {
      StepKeeps(max, s, steps[0]);
      RunKeeps(max, Next(max, s, steps[0]).0, steps[1..]);
    }
  }

  /** Over every run: at most max connections are open, and each one created is in exactly one of four places. */
  lemma EveryConnectionAccounted(max: nat, steps: seq<Step>, c: Conn)
    requires AllFresh(max, Empty, steps)
    ensures var s := Run(max, Empty, steps);
      && |s.used| + |s.unused| <= max
      && multiset(s.used)[c] + multiset(s.unused)[c] + multiset(s.destroyed)[c] + multiset(s.closed)[c]
           == if c in s.created then 1 else 0
  {
    RunKeeps(max, Empty, steps);
    var s := Run(max, Empty, steps);
    assert multiset(s.created)[c]
        == multiset(s.used)[c] + multiset(s.unused)[c] + multiset(s.destroyed)[c] + multiset(s.closed)[c];
  }

  // ------------------------------------------------- what goes where

  /** What has no lock to wait for does: a connection that is out comes back to the unused ones, or is closed. */
  lemma ReturnDoes(max: nat, s: State, c: Conn)
    requires !s.pending
    ensures var (t, r) := Next(max, s, CheckIn(c)); var (u, q) := Next(max, s, Destroy(c));
      if c !in s.used then t == u == s && r == q == ValueError
      else
        && r == q == Returned && multiset(t.used) == multiset(u.used) == multiset(s.used) - multiset{c}
        && t == s.(used := t.used, unused := if s.closing then s.unused else s.unused + [c],
                   closed := if s.closing then s.closed + [c] else s.closed)
        && u == s.(used := u.used, destroyed := s.destroyed + [c])
  {
    if c in s.used { RemoveOne(s.used, c); }
  }

  /** A check-out is refused after a shutdown, else gives the oldest unused connection or a new one if there is room. */
  lemma CheckOutDoes(max: nat, s: State, made: Conn)
    requires !s.pending
    ensures var (begun, b) := Next(max, s, BeginCheckOut); var (t, r) := Next(max, begun, EndCheckOut(made));
      if s.closing then begun == s && b == ServerError
      else
        && b == Begun && begun == s.(pending := true)
        && (s.unused != [] ==>
              r == Got(s.unused[0]) && t == s.(unused := s.unused[1..], used := s.used + [s.unused[0]]))
        && (s.unused == [] && |s.used| < max ==>
              r == Got(made) && t == s.(used := s.used + [made], created := s.created + {made}))
        && (s.unused == [] && |s.used| >= max ==> r == BadRequest && t == s)
  {
  }

  function CheckOuts(n: nat, made: Conn): seq<Step> {
    if n == 0 then [] else [BeginCheckOut, EndCheckOut(made)] + CheckOuts(n - 1, made)
  }

  /** Check-outs hand out the unused connections in the order in which they came. */
  lemma {:induction false} HandedOutInTurn(max: nat, s: State, n: nat, made: Conn)
    requires !s.closing && !s.pending && n <= |s.unused|
    ensures Run(max, s, CheckOuts(n, made)) == s.(used := s.used + s.unused[..n], unused := s.unused[n..])
    decreases n
  {
    if n == 0 {
      assert s.used + s.unused[..0] == s.used && s.unused[0..] == s.unused;
    } else {
      var steps, rest := CheckOuts(n, made), CheckOuts(n - 1, made);
      assert steps[0] == BeginCheckOut && steps[1..][0] == EndCheckOut(made) && steps[1..][1..] == rest;
      var t := Next(max, Next(max, s, BeginCheckOut).0, EndCheckOut(made)).0;
      assert t == s.(used := s.used + [s.unused[0]], unused := s.unused[1..]);
      HandedOutInTurn(max, t, n - 1, made);
      assert t.used + t.unused[..n - 1] == s.used + s.unused[..n];
      assert t.unused[n - 1..] == s.unused[n..];
    }
  }

  /** So a connection that is returned is handed out again, after those that were unused before. */
  lemma ReturnedIsReused(max: nat, s: State, c: Conn, made: Conn)
    requires !s.closing && !s.pending && c in s.used
    ensures var t := Run(max, Next(max, s, CheckIn(c)).0, CheckOuts(|s.unused|, made));
      t.unused == [c] && Next(max, Next(max, t, BeginCheckOut).0, EndCheckOut(made)).1 == Got(c)
  {
    HandedOutInTurn(max, Next(max, s, CheckIn(c)).0, |s.unused|, made);
  }

  // ------------------------------------------------- after a shutdown

  predicate Reopens(step: Step) { step.ShutDown? && !step.hasOp }

  /** Between two moments nothing is handed out; what is out may come back to be closed or destroyed. */
  ghost predicate Shut(s: State, t: State) {
    && t.closing && !t.pending && t.unused == s.unused && t.created == s.created
    && multiset(t.used) + multiset(t.closed) + multiset(t.destroyed)
         == multiset(s.used) + multiset(s.closed) + multiset(s.destroyed)
    && multiset(t.used) <= multiset(s.used)
  }

  lemma ShutStep(max: nat, s: State, step: Step)
    requires s.closing && !s.pending && !Reopens(step)
    ensures Shut(s, Next(max, s, step).0)
  {
    if (step.CheckIn? || step.Destroy?) && step.conn in s.used {
      LeavesUsed(s, step.conn);
      assert step.CheckIn? ==> multiset(s.closed + [step.conn]) == multiset(s.closed) + multiset{step.conn};
      assert step.Destroy? ==> multiset(s.destroyed + [step.conn]) == multiset(s.destroyed) + multiset{step.conn};
    }
  }

  lemma LeavesUsed(s: State, c: Conn)
    requires c in s.used
    ensures multiset(Remove(s.used, c)) + multiset{c} == multiset(s.used)
    ensures multiset(Remove(s.used, c)) <= multiset(s.used)
  {
    RemoveOne(s.used, c);
  }

  /**
   * After a shutdown with a close operation, and until one without, no check-out begun gets a connection: if
   * none was pending, nothing is handed out or made available, and the unused ones stay where they are.
   */
  lemma {:induction false} StaysShut(max: nat, s: State, steps: seq<Step>)
    requires s.closing && !s.pending && forall i | 0 <= i < |steps| :: !Reopens(steps[i])
    ensures Shut(s, Run(max, s, steps))
    decreases |steps|
  {
    if steps != [] {
      ShutStep(max, s, steps[0]);
      StaysShut(max, Next(max, s, steps[0]).0, steps[1..]);
    }
  }

  /** How many connections have been handed out and not come back to the pool. */
  function HandedOut(s: State): nat { |s.used| + |s.closed| + |s.destroyed| }

  /** A check-out that was pending at the shutdown may still get one connection, and that is all. */
  lemma {:induction false} OneMayOverlap(max: nat, s: State, steps: seq<Step>)
    requires s.closing && forall i | 0 <= i < |steps| :: !Reopens(steps[i])
    ensures HandedOut(Run(max, s, steps)) <= HandedOut(s) + if s.pending then 1 else 0
    decreases |steps|
  {
    if steps != [] {
      var step := steps[0];
      if (step.CheckIn? || step.Destroy?) && step.conn in s.used { RemoveOne(s.used, step.conn); }
      OneMayOverlap(max, Next(max, s, step).0, steps[1..]);
    }
  }

  /**
   * A check-out is decided when it begins: with a shutdown in between it still returns a connection if there is
   * room.
   */
  lemma OverlappingCheckOut(max: nat, s: State, interrupt: bool, made: Conn)
    requires !s.pending
    ensures var begun := Next(max, s, BeginCheckOut).0;
      var shut := Next(max, begun, ShutDown(true, interrupt)).0;
      var (t, reply) := Next(max, shut, EndCheckOut(made));
      t.closing && (reply.Got? <==> !s.closing && (s.unused != [] || |s.used| < max))
  {
  }

  // ------------------------------------------------- how often a connection is closed

  predicate Interrupts(step: Step) { step.ShutDown? && step.interrupt && step.hasOp }

  /** How often the close operation is called on a connection, over the whole run. */
  function Closes(s: State, c: Conn): nat { multiset(s.closed)[c] + multiset(s.cut)[c] }

  /** How many interrupting shutdowns find a connection out. */
  function Cuts(max: nat, s: State, steps: seq<Step>, c: Conn): nat
    decreases |steps|
  {
    if steps == [] then 0
    else (if Interrupts(steps[0]) then multiset(s.used)[c] else 0) + Cuts(max, Next(max, s, steps[0]).0, steps[1..], c)
  }

  lemma {:induction false} CutsCounted(max: nat, s: State, steps: seq<Step>, c: Conn)
    ensures multiset(Run(max, s, steps).cut)[c] == multiset(s.cut)[c] + Cuts(max, s, steps, c)
    decreases |steps|
  {
    if steps != [] { CutsCounted(max, Next(max, s, steps[0]).0, steps[1..], c); }
  }

  /**
   * Over every run, the operation is called once for the return, if it closed, and once for each interrupt while
   * out.
   */
  lemma ClosedExactly(max: nat, steps: seq<Step>, c: Conn)
    requires AllFresh(max, Empty, steps)
    ensures var s := Run(max, Empty, steps);
      Closes(s, c) == (if c in s.closed then 1 else 0) + Cuts(max, Empty, steps, c)
  {
    CutsCounted(max, Empty, steps, c);
    EveryConnectionAccounted(max, steps, c);
  }

  lemma {:induction false} NoCuts(max: nat, s: State, steps: seq<Step>, c: Conn)
    requires forall i | 0 <= i < |steps| :: !Interrupts(steps[i])
    ensures Cuts(max, s, steps, c) == 0
    decreases |steps|
  {
    if steps != [] { NoCuts(max, Next(max, s, steps[0]).0, steps[1..], c); }
  }

  /** Without interrupting shutdowns the close operation is called on exactly the connections closed, once each. */
  lemma ClosedOnce(max: nat, steps: seq<Step>, c: Conn)
    requires AllFresh(max, Empty, steps) && forall i | 0 <= i < |steps| :: !Interrupts(steps[i])
    ensures var s := Run(max, Empty, steps);
      Closes(s, c) == if c in s.closed then 1 else 0
  {
    NoCuts(max, Empty, steps, c);
    ClosedExactly(max, steps, c);
  }

  /** A connection out at a shutdown and returned after it is closed once exactly if the shutdown does not interrupt. */
  lemma InterruptedCloseTwice(max: nat, s: State, c: Conn, interrupt: bool)
    requires Inv(max, s) && !s.pending && c in s.used && Closes(s, c) == 0
    ensures var t := Run(max, s, [ShutDown(true, interrupt), CheckIn(c)]);
      Closes(t, c) >= 1 && (Closes(t, c) == 1 <==> !interrupt)
  {
    var steps := [ShutDown(true, interrupt), CheckIn(c)];
    var first := Next(max, s, steps[0]).0;
    var second := Next(max, first, CheckIn(c)).0;
    assert steps[1..] == [CheckIn(c)];
    assert Run(max, first, [CheckIn(c)]) == second;
    assert multiset(s.created)[c] >= multiset(s.used)[c] >= 1;
    assert second.closed == s.closed + [c] && multiset(second.closed)[c] == 1;
    assert multiset(second.cut)[c] == multiset(s.cut)[c] + if interrupt then multiset(s.used)[c] else 0;
  }

  class Pool {
    const max: nat
    var unused: seq<Conn>
    var used: seq<Conn>
    var closing: bool
    /** A check-out holds the lock. */
    var pending: bool
    ghost var created: set<Conn>
    ghost var destroyed: seq<Conn>
    ghost var closed: seq<Conn>
    ghost var cut: seq<Conn>

    ghost function View(): State
      reads this
    {
      State(used, unused, closing, pending, created, destroyed, closed, cut)
    }

    constructor (max: nat)
      ensures View() == Empty && this.max == max && Inv(max, View())
      ensures used == unused == [] && !closing && !pending
    {
      this.max := max;
      used, unused, closing, pending := [], [], false, false;
      created, destroyed, closed, cut := {}, [], [], [];
    }

    /** The first half of a check-out: the lock is taken and a shutdown tested for. */
    method BeginCheckingOut() returns (r: Reply)
      requires Inv(max, View()) && !pending
      modifies this
      ensures (View(), r) == Next(max, old(View()), BeginCheckOut) && Inv(max, View())
    {
      if closing { return ServerError; }
      pending := true;
      return Begun;
    }

    /** The second half, during which the factory may wait and a shutdown may come in between. */
    method EndCheckingOut(made: Conn) returns (r: Reply)
      requires Inv(max, View()) && pending && made !in created
      modifies this
      ensures (View(), r) == Next(max, old(View()), EndCheckOut(made)) && Inv(max, View())
    {
      StepKeeps(max, View(), EndCheckOut(made));
      pending := false;
      var out: Conn;
      if unused != [] {
        out := unused[0];
        unused := unused[1..];
      } else {
        if |used| >= max { return BadRequest; }
        out := made;
        created := created + {made};
      }
      used := used + [out];
      return Got(out);
    }

    /** Takes the first occurrence out of the list of used connections. */
    method RemoveUsed(c: Conn) returns (found: bool)
      modifies this`used
      ensures found == (c in old(used))
      ensures used == if found then Remove(old(used), c) else old(used)
    {
      for i := 0 to |used|
        invariant used == old(used) && c !in used[..i]
      {
        if used[i] == c {
          RemoveAt(used, c, i);
          used := used[..i] + used[i + 1..];
          return true;
        }
      }
      assert used[..|used|] == used;
      return false;
    }

    method CheckInConn(c: Conn) returns (r: Reply)
      requires Inv(max, View()) && !pending
      modifies this
      ensures (View(), r) == Next(max, old(View()), CheckIn(c)) && Inv(max, View())
    {
      StepKeeps(max, View(), CheckIn(c));
      var found := RemoveUsed(c);
      if !found { return ValueError; }
      if closing {
        closed := closed + [c];
      } else {
        unused := unused + [c];
      }
      return Returned;
    }

    method DestroyObject(c: Conn) returns (r: Reply)
      requires Inv(max, View()) && !pending
      modifies this
      ensures (View(), r) == Next(max, old(View()), Destroy(c)) && Inv(max, View())
    {
      StepKeeps(max, View(), Destroy(c));
      var found := RemoveUsed(c);
      if !found { return ValueError; }
      destroyed := destroyed + [c];
      return Returned;
    }

    method ShutDownPool(hasOp: bool, interrupt: bool) returns (r: Reply)
      requires Inv(max, View())
      modifies this
      ensures (View(), r) == Next(max, old(View()), ShutDown(hasOp, interrupt)) && Inv(max, View())
    {
      closing := hasOp;
      if interrupt && hasOp { cut := cut + used; }
      return Returned;
    }
  }

  lemma {:induction false} RemoveAt(s: seq<Conn>, c: Conn, i: nat)
    requires i < |s| && s[i] == c && c !in s[..i]
    ensures c in s && Remove(s, c) == s[..i] + s[i + 1..]
    decreases i
  {
    if i > 0 {
      assert s[0] == s[..i][0];
      assert s[1..][..i - 1] == s[..i][1..];
      RemoveAt(s[1..], c, i - 1);
      assert s[1..][i..] == s[i + 1..];
    }
  }
}
