/** The application's seven locks, the code paths that take them, and why no thread waits for ever.

    The locks are not recursive. A thread may also wait for another thread to end. */
module Locks {

  datatype Lock = StopLock | MapLock | MsgLock | ReqLock | CallLock | MgrLock | SipLock

  /** What a thread does as far as other threads can tell. */
  datatype Op = Acquire(l: Lock) | Release(l: Lock) | Join(t: nat)

  /** Code as it is nested in the source. */
  datatype Code = Skip | Then(a: Code, b: Code) | Under(l: Lock, body: Code) | Await(t: nat)

  function Ops(c: Code): seq<Op> {
    match c
    case Skip => []
    case Then(a, b) => Ops(a) + Ops(b)
    case Under(l, body) => [Acquire(l)] + Ops(body) + [Release(l)]
    case Await(t) => [Join(t)]
  }

  // ---------------------------------------------------------------- the order

  datatype Role = Main | Work | Alive | Media

  function Level(l: Lock): int {
    match l
    case StopLock => 0
    case MapLock => 2
    case MsgLock => 4
    case ReqLock => 6
    case CallLock => 8
    case MgrLock => 10
    case SipLock => 12
  }

  const TOP := 12

  /** All a thread of this role ever waits for lies above this level; waiting for the thread itself
      counts as waiting at it. */
  function Base(role: Role): int {
    match role
    case Main => -1
    case Work => 1
    case Alive => 1
    case Media => 9
  }

  /** Nested code waits only upwards. */
  predicate Ordered(c: Code, level: int, roles: seq<Role>) {
    match c
    case Skip => true
    case Then(a, b) => Ordered(a, level, roles) && Ordered(b, level, roles)
    case Under(l, body) => Level(l) > level && Ordered(body, Level(l), roles)
    case Await(t) => t < |roles| && Base(roles[t]) > level
  }

  // ---------------------------------------------------------------- threads

  datatype Thread = Thread(role: Role, held: seq<Lock>, rest: seq<Op>)

  type State = seq<Thread>

  predicate Done(t: Thread) { t.rest == [] }

  predicate Free(s: State, l: Lock) { forall t <- s :: l !in t.held }

  predicate Enabled(s: State, t: nat) {
    t < |s| && !Done(s[t]) &&
    match s[t].rest[0]
    case Acquire(l) => Free(s, l)
    case Release(_) => true
    case Join(u) => u >= |s| || Done(s[u])
  }

  function Moved(t: Thread): Thread
    requires !Done(t)
  {
    match t.rest[0]
    case Acquire(l) => t.(held := t.held + [l], rest := t.rest[1..])
    case Release(_) => t.(held := if t.held == [] then [] else t.held[..|t.held| - 1], rest := t.rest[1..])
    case Join(_) => t.(rest := t.rest[1..])
  }

  function Step(s: State, t: nat): State
    requires Enabled(s, t)
  {
    s[t := Moved(s[t])]
  }

  /** A schedule that only ever picks threads that can go on. */
  predicate Feasible(s: State, schedule: seq<nat>)
    decreases schedule
  {
    schedule == [] || (Enabled(s, schedule[0]) && Feasible(Step(s, schedule[0]), schedule[1..]))
  }

  function Run(s: State, schedule: seq<nat>): State
    requires Feasible(s, schedule)
    decreases schedule
  {
    if schedule == [] then s else Run(Step(s, schedule[0]), schedule[1..])
  }

  // ---------------------------------------------------------------- the invariant

  function Roles(s: State): seq<Role> { seq(|s|, i requires 0 <= i < |s| => s[i].role) }

  function Height(base: int, held: seq<Lock>): int { if held == [] then base else Level(held[|held| - 1]) }

  predicate Ascending(base: int, held: seq<Lock>) {
    held == [] || (Ascending(base, held[..|held| - 1]) && Level(held[|held| - 1]) > Height(base, held[..|held| - 1]))
  }

  /** From these locks on, the rest of the program is well nested and waits only upwards. */
  predicate Nested(base: int, held: seq<Lock>, rest: seq<Op>, roles: seq<Role>)
    decreases rest
  {
    if rest == [] then held == []
    else
      match rest[0]
      case Acquire(l) => Level(l) > Height(base, held) && Nested(base, held + [l], rest[1..], roles)
      case Release(l) =>
        held != [] && held[|held| - 1] == l && Nested(base, held[..|held| - 1], rest[1..], roles)
      case Join(u) =>
        u < |roles| && Base(roles[u]) > Height(base, held) && Nested(base, held, rest[1..], roles)
  }

  predicate Good(t: Thread, roles: seq<Role>) {
    Ascending(Base(t.role), t.held) && Nested(Base(t.role), t.held, t.rest, roles)
  }

  /** No lock has two holders, and every thread keeps to the order. */
  predicate Inv(s: State) {
    && (forall t <- s :: Good(t, Roles(s)))
    && (forall i, j :: 0 <= i < j < |s| ==> forall l <- s[i].held :: l !in s[j].held)
  }

  lemma {:induction false} AllBelow(base: int, held: seq<Lock>, l: Lock)
    requires Ascending(base, held)
    ensures Height(base, held) >= base
    ensures l in held ==> Level(l) <= Height(base, held)
  {
    if held == [] {
    } else {
      AllBelow(base, held[..|held| - 1], l);
      assert l in held ==> l == held[|held| - 1] || l in held[..|held| - 1];
    }
  }

  lemma StepInv(s: State, t: nat)
    requires Inv(s) && Enabled(s, t)
    ensures Inv(Step(s, t)) && Roles(Step(s, t)) == Roles(s)
  {
    var n := Step(s, t);
    assert Roles(n) == Roles(s);
    assert s[t] in s;
    MovedGood(s[t], Roles(s));
    forall u <- n ensures Good(u, Roles(n)) {
      if u != Moved(s[t]) {
        assert u in s;
      }
    }
    forall i, j | 0 <= i < j < |n| ensures forall l <- n[i].held :: l !in n[j].held {
      MovedHolds(s[t]);
    }
  }

  lemma MovedGood(t: Thread, roles: seq<Role>)
    requires Good(t, roles) && !Done(t)
    ensures Good(Moved(t), roles)
  {
    if t.rest[0].Acquire? {
      assert Moved(t).held[..|t.held|] == t.held;
    }
  }

  lemma MovedHolds(t: Thread)
    requires !Done(t)
    ensures forall l <- Moved(t).held :: l in t.held || t.rest[0] == Acquire(l)
  {
  }

  // ---------------------------------------------------------------- waiting

  /** Thread `t` cannot go on before thread `u` has moved. */
  predicate Waits(s: State, t: nat, u: nat) {
    t < |s| && u < |s| && !Done(s[t]) &&
    match s[t].rest[0]
    case Acquire(l) => l in s[u].held
    case Release(_) => false
    case Join(v) => v == u && !Done(s[u])
  }

  /** How high a thread's next operation waits; a release waits for nothing. */
  function WaitLevel(t: Thread, roles: seq<Role>): int
    requires !Done(t)
  {
    match t.rest[0]
    case Acquire(l) => Level(l)
    case Release(_) => TOP + 1
    case Join(u) => if u < |roles| then Base(roles[u]) else TOP + 1
  }

  lemma WaitAbove(s: State, t: nat)
    requires Inv(s) && t < |s| && !Done(s[t])
    ensures s[t].rest[0].Release? || WaitLevel(s[t], Roles(s)) > Height(Base(s[t].role), s[t].held)
    ensures WaitLevel(s[t], Roles(s)) <= TOP + 1
  {
    assert s[t] in s;
  }

  /** Who is waited for is not done and waits, if at all, higher up. */
  lemma WaitRises(s: State, t: nat, u: nat)
    requires Inv(s) && Waits(s, t, u)
    ensures !Done(s[u]) && WaitLevel(s[u], Roles(s)) > WaitLevel(s[t], Roles(s))
  {
    assert s[u] in s && Good(s[u], Roles(s));
    assert s[t] in s && Good(s[t], Roles(s));
    AllBelow(Base(s[u].role), s[u].held, if s[t].rest[0].Acquire? then s[t].rest[0].l else StopLock);
    WaitAbove(s, u);
    assert Roles(s)[u] == s[u].role;
    assert WaitLevel(s[t], Roles(s)) <= TOP;
  }

  /** No threads wait for each other in a circle, however long. */
  lemma {:induction false} NoWaitCycle(s: State, circle: seq<nat>)
    requires Inv(s) && |circle| >= 2 && forall i :: 0 <= i < |circle| - 1 ==> Waits(s, circle[i], circle[i + 1])
    ensures circle[0] != circle[|circle| - 1]
  {
    ChainRises(s, circle);
  }

  lemma {:induction false} ChainRises(s: State, chain: seq<nat>)
    requires Inv(s) && |chain| >= 2 && forall i :: 0 <= i < |chain| - 1 ==> Waits(s, chain[i], chain[i + 1])
    ensures var a, b := chain[0], chain[|chain| - 1];
            a < |s| && b < |s| && !Done(s[a]) && !Done(s[b]) && WaitLevel(s[b], Roles(s)) > WaitLevel(s[a], Roles(s))
  {
    assert Waits(s, chain[0], chain[1]);
    WaitRises(s, chain[0], chain[1]);
    if |chain| > 2 {
      var tail := chain[1..];
      forall i | 0 <= i < |tail| - 1 ensures Waits(s, tail[i], tail[i + 1]) {
        assert Waits(s, chain[i + 1], chain[i + 1 + 1]);
      }
      ChainRises(s, tail);
    }
  }

  /** From any thread that is not done, a chain of waiting leads to one that can go on. */
  lemma {:induction false} SomeoneMoves(s: State, t: nat) returns (chain: seq<nat>)
    requires Inv(s) && t < |s| && !Done(s[t])
    ensures chain != [] && chain[0] == t && Enabled(s, chain[|chain| - 1])
    ensures forall i :: 0 <= i < |chain| - 1 ==> Waits(s, chain[i], chain[i + 1])
    decreases TOP + 1 - WaitLevel(s[t], Roles(s))
  {
    if Enabled(s, t) {
      return [t];
    }
    assert s[t] in s && Good(s[t], Roles(s));
    var u :| Waits(s, t, u) by {
      match s[t].rest[0]
      case Acquire(l) =>
        var h :| h in s && l in h.held;
        var k :| 0 <= k < |s| && s[k] == h;
        assert Waits(s, t, k);
      case Join(v) => assert Waits(s, t, v);
      case Release(_) =>
    }
    WaitRises(s, t, u);
    WaitAbove(s, u);
    var rest := SomeoneMoves(s, u);
    chain := [t] + rest;
  }

  // ---------------------------------------------------------------- whole runs

  function Left(s: State): nat { if s == [] then 0 else Left(s[..|s| - 1]) + |s[|s| - 1].rest| }

  lemma {:induction false} LeftAfter(s: State, i: nat, t: Thread)
    requires i < |s|
    ensures Left(s[i := t]) == Left(s) - |s[i].rest| + |t.rest|
  {
    var n := s[i := t];
    if i == |s| - 1 {
      assert n[..|s| - 1] == s[..|s| - 1];
    } else {
      LeftAfter(s[..|s| - 1], i, t);
      assert n[..|s| - 1] == s[..|s| - 1][i := t];
    }
  }

  predicate AllDone(s: State) { forall t <- s :: Done(t) }

  /** Whatever the schedule: the order is kept; the schedule is no longer than the programs; and
      either every thread is done and no lock is held, or some thread can go on. */
  lemma {:induction false} RunsOn(s: State, schedule: seq<nat>)
    requires Inv(s) && Feasible(s, schedule)
    ensures var n := Run(s, schedule);
            && Inv(n) && |schedule| + Left(n) == Left(s)
            && (if AllDone(n) then forall t <- n :: t.held == [] else exists r :: Enabled(n, r))
    decreases schedule
  {
    if schedule == [] {
      if AllDone(s) {
        assert forall t <- s :: Good(t, Roles(s));
      } else {
        var t :| t in s && !Done(t);
        var i :| 0 <= i < |s| && s[i] == t;
        var chain := SomeoneMoves(s, i);
      }
    } else {
      StepInv(s, schedule[0]);
      LeftAfter(s, schedule[0], Moved(s[schedule[0]]));
      RunsOn(Step(s, schedule[0]), schedule[1..]);
    }
  }

  lemma StepMoves(s: State, r: nat, t: nat)
    requires Enabled(s, r) && t < |s|
    ensures var n := Step(s, r);
            |n| == |s| && n[t].rest == (if t == r then s[t].rest[1..] else s[t].rest)
  {
  }

  lemma {:induction false} DoneStays(s: State, schedule: seq<nat>, u: nat)
    requires Feasible(s, schedule) && u < |s| && s[u].rest == []
    ensures var n := Run(s, schedule); |n| == |s| && n[u].rest == []
    decreases schedule
  {
    hide Enabled, Step;
    if schedule == [] {
    } else {
      StepMoves(s, schedule[0], u);
      OthersMove(s, schedule[0], u);
      DoneStays(Step(s, schedule[0]), schedule[1..], u);
    }
  }

  lemma OthersMove(s: State, r: nat, u: nat)
    requires Enabled(s, r) && u < |s| && s[u].rest == []
    ensures r != u
  {
  }

  lemma JoinNeedsDone(s: State, t: nat, u: nat)
    requires Enabled(s, t) && s[t].rest[0] == Join(u) && u < |s|
    ensures s[u].rest == [] && u != t && Step(s, t)[u] == s[u]
  {
  }

  /** Whatever the schedule, a thread that is past the point where it waits for another thread finds
      that thread ended, with all its operations done. */
  lemma {:induction false} JoinedIsDone(s: State, schedule: seq<nat>, t: nat, k: nat, u: nat)
    requires Feasible(s, schedule) && t < |s| && u < |s| && k < |s[t].rest| && s[t].rest[k] == Join(u)
    ensures var n := Run(s, schedule); |n| == |s| && (|n[t].rest| < |s[t].rest| - k ==> n[u].rest == [])
    decreases schedule
  {
    hide Enabled, Step;
    if schedule == [] {
    } else {
      var r := schedule[0];
      StepMoves(s, r, t);
      StepMoves(s, r, u);
      if r == t && k == 0 {
        JoinNeedsDone(s, t, u);
        DoneStays(Step(s, r), schedule[1..], u);
      } else {
        JoinedIsDone(Step(s, r), schedule[1..], t, if r == t then k - 1 else k, u);
      }
    }
  }

  lemma ReleaseNested(l: Lock, base: int, held: seq<Lock>, rest: seq<Op>, roles: seq<Role>)
    requires Nested(base, held, rest, roles)
    ensures Nested(base, held + [l], [Release(l)] + rest, roles) && Height(base, held + [l]) == Level(l)
  {
    var inner, after := held + [l], [Release(l)] + rest;
    assert inner[..|inner| - 1] == held && after[1..] == rest;
  }

  lemma AcquireNested(l: Lock, base: int, held: seq<Lock>, rest: seq<Op>, roles: seq<Role>)
    requires Level(l) > Height(base, held) && Nested(base, held + [l], rest, roles)
    ensures Nested(base, held, [Acquire(l)] + rest, roles)
  {
    assert ([Acquire(l)] + rest)[1..] == rest;
  }

  lemma JoinNested(t: nat, base: int, held: seq<Lock>, rest: seq<Op>, roles: seq<Role>)
    requires t < |roles| && Base(roles[t]) > Height(base, held) && Nested(base, held, rest, roles)
    ensures Nested(base, held, [Join(t)] + rest, roles)
  {
    assert ([Join(t)] + rest)[1..] == rest;
  }

  lemma Regrouped(a: seq<Op>, b: seq<Op>, c: seq<Op>)
    ensures a + b + c == a + (b + c)
  {
  }

  /** Nested code that is ordered runs in order, whatever comes after it. */
  lemma {:induction false} OpsNested(c: Code, base: int, held: seq<Lock>, rest: seq<Op>, roles: seq<Role>)
    requires Ordered(c, Height(base, held), roles) && Nested(base, held, rest, roles)
    ensures Nested(base, held, Ops(c) + rest, roles)
  {
    hide Height, Level, Base, Nested;
    match c
    case Skip =>
      assert Ops(c) + rest == rest;
    case Then(a, b) =>
      Regrouped(Ops(a), Ops(b), rest);
      OpsNested(b, base, held, rest, roles);
      OpsNested(a, base, held, Ops(b) + rest, roles);
    case Under(l, body) =>
      ReleaseNested(l, base, held, rest, roles);
      OpsNested(body, base, held + [l], [Release(l)] + rest, roles);
      AcquireNested(l, base, held, Ops(body) + ([Release(l)] + rest), roles);
      Regrouped([Acquire(l)] + Ops(body), [Release(l)], rest);
      Regrouped([Acquire(l)], Ops(body), [Release(l)] + rest);
    case Await(t) =>
      JoinNested(t, base, held, rest, roles);
  }

  /** Threads about to start. */
  function Launch(roles: seq<Role>, programs: seq<Code>): State
    requires |roles| == |programs|
  {
    seq(|roles|, i requires 0 <= i < |roles| => Thread(roles[i], [], Ops(programs[i])))
  }

  lemma LaunchInv(roles: seq<Role>, programs: seq<Code>)
    requires |roles| == |programs|
    requires forall i :: 0 <= i < |roles| ==> Ordered(programs[i], Base(roles[i]), roles)
    ensures Inv(Launch(roles, programs))
  {
    var s := Launch(roles, programs);
    assert Roles(s) == roles;
    forall t <- s ensures Good(t, roles) {
      var i :| 0 <= i < |s| && s[i] == t;
      OpsNested(programs[i], Base(roles[i]), [], [], roles);
      assert Ops(programs[i]) + [] == Ops(programs[i]);
    }
  }
}
