/** Both halves of the application together: what the SIP side does to the channel map, and what
    then holds of calls, channels and recordings over every run from start to shutdown. */
module Application {
  import opened Bytes
  import opened Keys
  import R = Registry
  import C = Channels
  import D = ChannelRuns
  import K = Keepalive
  import Rec = Recorder

  /** `udp` if cameras send over UDP; a call over TCP leaves its channel behind when it is stopped. */
  datatype Config = Config(udp: bool, portStep: int)

  datatype Event =
    | Sip(event: R.Event)
    | Packet(i: nat, now: int, payload: seq<byte>)
    | LiveStart(url: string, connects: bool)
    | LiveStop(url: string)
    | Replan(url: string, dir: string, limit: real, flag: int, plan: string)
    | PlanDel(url: string)
    | NewDir(url: string, dir: string)
    | Rename(from: string, to: string)

  // ---------------------------------------------------------------- what a step does on each side

  /** What it is for the register; a live client receives on the next port. */
  function Registered(e: Event): seq<R.Event> {
    match e
    case Sip(event) => [event]
    case Packet(i, now, _) => [R.Rtp(i, now)]
    case LiveStart(_, _) => [R.DrawPort]
    case _ => []
  }

  /** A call stopped over UDP takes its channel with it. */
  function Stopped(g: Config, addr: string, port: int): seq<C.Event> { if g.udp then [C.Remove(addr, port)] else [] }

  /** Destroying the call with an index stops it, if one is listed. */
  function Ended(g: Config, calls: seq<R.Call>, index: nat): seq<C.Event> {
    var j := R.ByIndex(calls, index);
    if j < |calls| then Stopped(g, calls[j].addr, calls[j].port) else []
  }

  /** A call that is made for a camera adds its channel; if the INVITE fails the call is stopped, if
      its media fail it is only deleted. */
  function Called(g: Config, r: R.Reg, addr: string, port: int, outcome: R.Outcome): seq<C.Event> {
    [C.Add(addr, port, "")]
    + match outcome
      case InviteFails(terminates) =>
        (if terminates then Ended(g, r.calls, r.issued % R.SERIALS) else []) + Stopped(g, addr, port)
      case _ => []
  }

  /** What a SIP event does to the channels. */
  function SipEmits(g: Config, r: R.Reg, e: R.Event): seq<C.Event> {
    match e
    case Message(addr, port, _, outcome) =>
      if R.ByAddress(r.calls, addr, port) < |r.calls| then [] else Called(g, r, addr, port, outcome)
    case Disconnected(i) => if i < |r.calls| && r.calls[i].back then Ended(g, r.calls, R.Index(r.calls[i])) else []
    case Alive(now, timeout) =>
      var i := R.FirstExpired(r.calls, now, timeout);
      if i < |r.calls| && r.calls[i].session && r.calls[i].back then Ended(g, r.calls, R.Index(r.calls[i])) else []
    case MediaUpdate(i, _, up, _) =>
      if i < |r.calls| && r.calls[i].back && up && g.udp
      then
        var j := R.ByIndex(r.calls, R.Index(r.calls[i]));
        if j < |r.calls| then [C.SetFmt(r.calls[j].addr, r.calls[j].port, "ps")] else []
      else []
    case _ => []
  }

  function Emits(g: Config, r: R.Reg, e: Event): seq<C.Event> {
    match e
    case Sip(event) => SipEmits(g, r, event)
    case Packet(i, _, payload) => if i < |r.calls| then [C.Rtp(r.calls[i].addr, r.calls[i].port, payload)] else []
    case LiveStart(url, connects) => [C.LiveStart(url, connects)]
    case LiveStop(url) => [C.LiveStop(url)]
    case Replan(url, dir, limit, flag, plan) => [C.Replan(url, dir, limit, flag, plan)]
    case PlanDel(url) => [C.PlanDel(url)]
    case NewDir(url, dir) => [C.NewDir(url, dir)]
    case Rename(from, to) => [C.Rename(from, to)]
  }

  function RegAfter(g: Config, r: R.Reg, e: Event): R.Reg { R.Run(r, Registered(e), g.portStep) }

  // ---------------------------------------------------------------- the keys of the channel map

  function KeysStep(keys: set<string>, e: C.Event): set<string> {
    match e
    case Add(addr, port, _) => keys + {IpcUrl(addr, port)}
    case Remove(addr, port) => keys - {IpcUrl(addr, port)}
    case LiveStart(url, connects) => if connects then keys + {url} else keys
    case Rename(from, to) => if from in keys then keys - {from} + {to} else keys
    case Uninit => {}
    case _ => keys
  }

  function KeysRun(keys: set<string>, es: seq<C.Event>): set<string>
    decreases |es|
  {
    if es == [] then keys else KeysRun(KeysStep(keys, es[0]), es[1..])
  }

  lemma StepKeys(w: Rec.World, m: C.Mgr, e: C.Event)
    requires C.Linked(m)
    ensures C.Step(w, m, e).chans.Keys == KeysStep(m.chans.Keys, e)
  {
    C.StepRoutes(w, m, e);
    C.RoutesKeys(m.chans);
    C.RoutesKeys(C.Step(w, m, e).chans);
    hide C.Step, IpcUrl, C.Routes, Rec.Tape;
  }

  // ---------------------------------------------------------------- one step

  /** Every listed call has a channel for its payloads. */
  predicate Covered(calls: seq<R.Call>, keys: set<string>) { forall c <- calls :: R.Key(c) in keys }

  /** The cameras with a channel are exactly the cameras with a listed call. */
  predicate Exact(calls: seq<R.Call>, keys: set<string>) {
    Covered(calls, keys) && forall key <- keys :: R.Listed(calls, key)
  }

  /** A rename takes the channel away from a call that is still listed under the old address. */
  predicate Displaces(r: R.Reg, keys: set<string>, e: Event) {
    e.Rename? && e.from != e.to && e.from in keys && R.Listed(r.calls, e.from)
  }

  /** Nothing gets a channel without a call, or keeps one longer than its call. */
  predicate Tidy(g: Config, r: R.Reg, keys: set<string>, e: Event) {
    match e
    case Sip(Message(addr, port, _, outcome)) =>
      R.ByAddress(r.calls, addr, port) < |r.calls| || outcome.Invited? || (outcome.InviteFails? && g.udp)
    case Sip(Disconnected(i)) => g.udp || i >= |r.calls|
    case Sip(Alive(now, timeout)) => g.udp || R.FirstExpired(r.calls, now, timeout) == |r.calls|
    case LiveStart(url, connects) => connects ==> url in keys
    case Rename(from, to) => from in keys ==> from == to
    case _ => true
  }

  predicate Addressed(e: Event) { e.Sip? ==> R.Addressed(e.event) }

  lemma CoveredListed(calls: seq<R.Call>, keys: set<string>)
    ensures Covered(calls, keys) <==> forall key :: R.Listed(calls, key) ==> key in keys
  {
    hide IpcUrl;
    if forall key :: R.Listed(calls, key) ==> key in keys {
      forall c <- calls ensures R.Key(c) in keys {
        assert R.Listed(calls, R.Key(c));
      }
    }
  }

  lemma StoppedKeys(g: Config, keys: set<string>, addr: string, port: int)
    ensures KeysRun(keys, Stopped(g, addr, port)) == if g.udp then keys - {IpcUrl(addr, port)} else keys
  {
  }

  /** Destroying a call, and removing its channel over UDP. */
  lemma EndedKeys(g: Config, r: R.Reg, keys: set<string>, index: nat)
    requires R.DistinctCalls(r.calls) && Covered(r.calls, keys)
    ensures Covered(R.Destroy(r, index).calls, KeysRun(keys, Ended(g, r.calls, index)))
    ensures Exact(r.calls, keys)
            ==> (Exact(R.Destroy(r, index).calls, KeysRun(keys, Ended(g, r.calls, index)))
                 <==> g.udp || R.ByIndex(r.calls, index) == |r.calls|)
  {
    hide IpcUrl, R.Listed;
    var j := R.ByIndex(r.calls, index);
    if j < |r.calls| {
      var rest, less := R.Without(r.calls, j), KeysRun(keys, Ended(g, r.calls, index));
      StoppedKeys(g, keys, r.calls[j].addr, r.calls[j].port);
      assert less == if g.udp then keys - {R.Key(r.calls[j])} else keys;
      R.ListedWithout(r.calls, j);
      CoveredListed(r.calls, keys);
      CoveredListed(rest, less);
    }
  }

  lemma {:induction false} KeysAppend(keys: set<string>, a: seq<C.Event>, b: seq<C.Event>)
    ensures KeysRun(keys, a + b) == KeysRun(KeysRun(keys, a), b)
    decreases |a|
  {
    hide KeysStep;
    if a == [] {
      assert a + b == b;
    } else {
      assert (a + b)[0] == a[0] && (a + b)[1..] == a[1..] + b;
      KeysAppend(KeysStep(keys, a[0]), a[1..], b);
    }
  }

  /** A call that was not listed is listed now, or not, after its channel was added. */
  lemma CalledKeys(g: Config, r: R.Reg, keys: set<string>, addr: string, port: int, now: int, outcome: R.Outcome)
    requires R.Apart(r) && Covered(r.calls, keys) && Fits(addr, port)
    requires R.ByAddress(r.calls, addr, port) == |r.calls|
    ensures var calls := R.OnMessage(r, addr, port, now, outcome, g.portStep).calls;
            var after := KeysRun(keys, Called(g, r, addr, port, outcome));
            Covered(calls, after)
            && (Exact(r.calls, keys) ==> (Exact(calls, after) <==> outcome.Invited? || (outcome.InviteFails? && g.udp)))
  {
    var key := IpcUrl(addr, port);
    R.NotListed(r, addr, port);
    var more := keys + {key};
    assert Covered(r.calls, more);
    hide IpcUrl, R.Destroy;
    match outcome
    case StartFails =>
      assert KeysRun(keys, Called(g, r, addr, port, outcome)) == more;
    case Invited =>
      assert KeysRun(keys, Called(g, r, addr, port, outcome)) == more;
      var c := R.Call(addr, port, r.issued, r.nextPort, true, true, now, now);
      assert R.Key(c) == key && c in r.calls + [c];
      R.ListedMore(r.calls, c);
    case InviteFails(terminates) =>
      var ended := if terminates then Ended(g, r.calls, r.issued % R.SERIALS) else [];
      KeysAppend(keys, [C.Add(addr, port, "")], ended + Stopped(g, addr, port));
      assert KeysRun(keys, [C.Add(addr, port, "")]) == more;
      KeysAppend(more, ended, Stopped(g, addr, port));
      assert Called(g, r, addr, port, outcome) == [C.Add(addr, port, "")] + (ended + Stopped(g, addr, port));
      FailedKeys(g, R.PortTaken(R.Drawn(r), g.portStep), keys, addr, port, r.issued % R.SERIALS, terminates);
  }

  /** After a failed INVITE the camera's channel is gone again over UDP, and stays over TCP. */
  lemma FailedKeys(g: Config, r: R.Reg, keys: set<string>, addr: string, port: int, index: nat, terminates: bool)
    requires R.DistinctCalls(r.calls) && Covered(r.calls, keys) && !R.Listed(r.calls, IpcUrl(addr, port))
    ensures var calls := if terminates then R.Destroy(r, index).calls else r.calls;
            var ended := if terminates then Ended(g, r.calls, index) else [];
            var after := KeysRun(KeysRun(keys + {IpcUrl(addr, port)}, ended), Stopped(g, addr, port));
            Covered(calls, after) && (Exact(r.calls, keys) ==> (Exact(calls, after) <==> g.udp))
  {
    hide IpcUrl, R.Destroy;
    var key := IpcUrl(addr, port);
    var calls := if terminates then R.Destroy(r, index).calls else r.calls;
    var ended := if terminates then Ended(g, r.calls, index) else [];
    var less := KeysRun(keys, ended);
    EndedKeys(g, r, keys, index);
    EndedFew(g, r, keys, key, index);
    var after := KeysRun(KeysRun(keys + {key}, ended), Stopped(g, addr, port));
    assert KeysRun(keys + {key}, ended) == less + {key};
    StoppedKeys(g, less + {key}, addr, port);
    assert after == if g.udp then less - {key} else less + {key};
    assert !R.Listed(calls, key);
    CoveredListed(calls, less);
    CoveredListed(calls, after);
  }

  lemma EndedFew(g: Config, r: R.Reg, keys: set<string>, key: string, index: nat)
    requires R.DistinctCalls(r.calls) && !R.Listed(r.calls, key)
    ensures KeysRun(keys, Ended(g, r.calls, index)) <= keys
    ensures KeysRun(keys + {key}, Ended(g, r.calls, index)) == KeysRun(keys, Ended(g, r.calls, index)) + {key}
    ensures !R.Listed(R.Destroy(r, index).calls, key)
    ensures !g.udp ==> Ended(g, r.calls, index) == []
  {
    hide IpcUrl;
    var j := R.ByIndex(r.calls, index);
    if j < |r.calls| {
      R.ListedWithout(r.calls, j);
      assert r.calls[j] in r.calls;
    }
  }

  lemma SameKeys(a: seq<R.Call>, b: seq<R.Call>, keys: set<string>)
    requires |a| == |b| && forall i :: 0 <= i < |a| ==> R.Key(a[i]) == R.Key(b[i])
    ensures Covered(a, keys) ==> Covered(b, keys)
    ensures Exact(a, keys) ==> Exact(b, keys)
  {
    hide IpcUrl;
    forall c <- b ensures R.Listed(a, R.Key(c)) {
      var i :| 0 <= i < |b| && b[i] == c;
      assert a[i] in a;
    }
    forall c <- a ensures R.Listed(b, R.Key(c)) {
      var i :| 0 <= i < |a| && a[i] == c;
      assert b[i] in b;
    }
    forall key | R.Listed(a, key) ensures R.Listed(b, key) {
      var c :| c in a && R.Key(c) == key;
    }
    CoveredListed(a, keys);
  }

  /** The events that neither make nor end a call keep the cameras listed and the channels there. */
  lemma QuietKeys(g: Config, r: R.Reg, keys: set<string>, e: R.Event)
    requires !e.Message? && !e.Disconnected? && !e.Alive?
    ensures var n := R.Step(r, e, g.portStep);
            |n.calls| == |r.calls| && (forall i :: 0 <= i < |r.calls| ==> R.Key(n.calls[i]) == R.Key(r.calls[i]))
            && KeysRun(keys, SipEmits(g, r, e)) == keys
  {
    hide IpcUrl;
  }

  lemma MessageKeys(g: Config, r: R.Reg, keys: set<string>, e: R.Event)
    requires R.Apart(r) && Covered(r.calls, keys) && e.Message? && R.Addressed(e)
    ensures var calls := R.Step(r, e, g.portStep).calls;
            var after := KeysRun(keys, SipEmits(g, r, e));
            Covered(calls, after)
            && (Exact(r.calls, keys) ==> (Exact(calls, after) <==> Tidy(g, r, keys, Sip(e))))
  {
    hide IpcUrl, Covered, Exact, Called;
    var i := R.ByAddress(r.calls, e.addr, e.port);
    if i < |r.calls| {
      var touched := r.calls[i := r.calls[i].(connected := e.now)];
      SameKeys(r.calls, touched, keys);
      SameKeys(touched, r.calls, keys);
    } else {
      CalledKeys(g, r, keys, e.addr, e.port, e.now, e.outcome);
    }
  }

  /** A call that is listed is found by its index, itself or another. */
  lemma IndexListed(calls: seq<R.Call>, i: nat)
    requires i < |calls|
    ensures R.ByIndex(calls, R.Index(calls[i])) <= i
  {
  }

  lemma SipKeys(g: Config, r: R.Reg, keys: set<string>, e: R.Event)
    requires R.Apart(r) && Covered(r.calls, keys) && R.Addressed(e)
    ensures var calls := R.Step(r, e, g.portStep).calls;
            var after := KeysRun(keys, SipEmits(g, r, e));
            Covered(calls, after)
            && (Exact(r.calls, keys) ==> (Exact(calls, after) <==> Tidy(g, r, keys, Sip(e))))
  {
    hide IpcUrl, Covered, Exact, R.Destroy, Ended, R.OnMessage, Called;
    match e
    case Message(_, _, _, _) => MessageKeys(g, r, keys, e);
    case Disconnected(i) =>
      if i < |r.calls| {
        assert r.calls[i] in r.calls;
        IndexListed(r.calls, i);
        EndedKeys(g, r, keys, R.Index(r.calls[i]));
      }
    case Alive(now, timeout) =>
      var i := R.FirstExpired(r.calls, now, timeout);
      if i < |r.calls| {
        assert r.calls[i] in r.calls;
        IndexListed(r.calls, i);
        var said := R.Report(r, r.calls[i], false);
        EndedKeys(g, r, keys, R.Index(r.calls[i]));
        EndedKeys(g, said, keys, R.Index(r.calls[i]));
      }
    case _ =>
      QuietKeys(g, r, keys, e);
      SameKeys(r.calls, R.Step(r, e, g.portStep).calls, keys);
  }

  lemma RegAfterIs(g: Config, r: R.Reg, e: Event)
    ensures e.Sip? ==> RegAfter(g, r, e) == R.Step(r, e.event, g.portStep)
    ensures e.Packet? ==> RegAfter(g, r, e) == R.Step(r, R.Rtp(e.i, e.now), g.portStep)
    ensures !e.Sip? && !e.Packet? ==> RegAfter(g, r, e).calls == r.calls
  {
    hide R.Step;
    RunOne(r, if e.Sip? then e.event else if e.Packet? then R.Rtp(e.i, e.now) else R.DrawPort, g.portStep);
    PortKeepsCalls(r, g.portStep);
  }

  lemma RunOne(r: R.Reg, e: R.Event, step: int)
    ensures R.Run(r, [e], step) == R.Step(r, e, step)
  {
    hide R.Step;
    assert R.Run(r, [e], step) == R.Run(R.Step(r, e, step), [], step);
  }

  lemma PortKeepsCalls(r: R.Reg, step: int)
    ensures R.Step(r, R.DrawPort, step).calls == r.calls
  {
  }

  lemma KeysOne(keys: set<string>, e: C.Event)
    ensures KeysRun(keys, [e]) == KeysStep(keys, e)
  {
    hide KeysStep;
    assert KeysRun(keys, [e]) == KeysRun(KeysStep(keys, e), []);
  }

  lemma ManagerKeys(g: Config, r: R.Reg, keys: set<string>, e: Event)
    requires Covered(r.calls, keys) && !e.Sip? && !e.Packet?
    ensures var after := KeysRun(keys, Emits(g, r, e));
            && (Covered(r.calls, after) <==> !Displaces(r, keys, e))
            && (Exact(r.calls, keys) ==> (Exact(r.calls, after) <==> Tidy(g, r, keys, e)))
  {
    hide IpcUrl, R.Listed;
    var after := KeysRun(keys, Emits(g, r, e));
    CoveredListed(r.calls, keys);
    CoveredListed(r.calls, after);
    KeysOne(keys, Emits(g, r, e)[0]);
  }

  /** Calls keep their channels in every step but one that renames a listed camera; and calls and
      channels keep matching exactly if the step is tidy. */
  lemma StepKeysAgree(g: Config, r: R.Reg, keys: set<string>, e: Event)
    requires R.Apart(r) && Covered(r.calls, keys) && Addressed(e)
    ensures var calls := RegAfter(g, r, e).calls;
            var after := KeysRun(keys, Emits(g, r, e));
            && (Covered(calls, after) <==> !Displaces(r, keys, e))
            && (Exact(r.calls, keys) ==> (Exact(calls, after) <==> Tidy(g, r, keys, e)))
  {
    hide IpcUrl, RegAfter, SipEmits, R.Step, Covered, Exact;
    RegAfterIs(g, r, e);
    if e.Sip? {
      SipKeys(g, r, keys, e.event);
    } else if e.Packet? {
      QuietKeys(g, r, keys, R.Rtp(e.i, e.now));
      SameKeys(r.calls, RegAfter(g, r, e).calls, keys);
    } else {
      ManagerKeys(g, r, keys, e);
    }
  }

  // ---------------------------------------------------------------- runs

  /** All that a run is for the register. */
  function AllRegistered(es: seq<Event>): seq<R.Event>
    decreases |es|
  {
    if es == [] then [] else Registered(es[0]) + AllRegistered(es[1..])
  }

  function RegRun(g: Config, r: R.Reg, es: seq<Event>): R.Reg
    decreases |es|
  {
    if es == [] then r else RegRun(g, RegAfter(g, r, es[0]), es[1..])
  }

  /** Everything a run does to the channels. */
  function Emitted(g: Config, r: R.Reg, es: seq<Event>): seq<C.Event>
    decreases |es|
  {
    if es == [] then [] else Emits(g, r, es[0]) + Emitted(g, RegAfter(g, r, es[0]), es[1..])
  }

  predicate NoneDisplaced(g: Config, r: R.Reg, keys: set<string>, es: seq<Event>)
    decreases |es|
  {
    es == [] || (!Displaces(r, keys, es[0])
                 && NoneDisplaced(g, RegAfter(g, r, es[0]), KeysRun(keys, Emits(g, r, es[0])), es[1..]))
  }

  predicate AllTidy(g: Config, r: R.Reg, keys: set<string>, es: seq<Event>)
    decreases |es|
  {
    es == [] || (Tidy(g, r, keys, es[0])
                 && AllTidy(g, RegAfter(g, r, es[0]), KeysRun(keys, Emits(g, r, es[0])), es[1..]))
  }

  /** In every state of the run, from the first to the last. */
  predicate AlwaysCovered(g: Config, r: R.Reg, keys: set<string>, es: seq<Event>)
    decreases |es|
  {
    Covered(r.calls, keys)
    && (es != [] ==> AlwaysCovered(g, RegAfter(g, r, es[0]), KeysRun(keys, Emits(g, r, es[0])), es[1..]))
  }

  predicate AlwaysExact(g: Config, r: R.Reg, keys: set<string>, es: seq<Event>)
    decreases |es|
  {
    Exact(r.calls, keys)
    && (es != [] ==> AlwaysExact(g, RegAfter(g, r, es[0]), KeysRun(keys, Emits(g, r, es[0])), es[1..]))
  }

  lemma {:induction false} RegisteredAddressed(es: seq<Event>)
    requires forall e <- es :: Addressed(e)
    ensures forall e <- AllRegistered(es) :: R.Addressed(e)
    decreases |es|
  {
    hide R.Addressed;
    if es == [] {
    } else {
      RegisteredAddressed(es[1..]);
      OneAddressed(es[0]);
    }
  }

  lemma OneAddressed(e: Event)
    requires Addressed(e)
    ensures forall f <- Registered(e) :: R.Addressed(f)
  {
    hide Fits;
  }

  lemma RegAfterCautious(g: Config, r: R.Reg, e: Event)
    requires R.Cautious(r) && Addressed(e)
    ensures R.Cautious(RegAfter(g, r, e))
  {
    hide R.Step, R.Cautious, R.Run;
    OneAddressed(e);
    R.RunCautious(r, Registered(e), g.portStep);
  }

  lemma {:induction false} RegRunIs(g: Config, r: R.Reg, es: seq<Event>)
    ensures RegRun(g, r, es) == R.Run(r, AllRegistered(es), g.portStep)
    decreases |es|
  {
    hide R.Step, Registered;
    if es == [] {
    } else {
      RegRunIs(g, RegAfter(g, r, es[0]), es[1..]);
      R.RunConcat(r, Registered(es[0]), AllRegistered(es[1..]), g.portStep);
    }
  }

  lemma CautiousApart(r: R.Reg)
    requires R.Cautious(r)
    ensures R.Apart(r) && R.Linked(r.calls)
  {
    hide IpcUrl;
  }

  /** Over every run: calls have their channels throughout if and only if no rename takes one away. */
  lemma {:induction false} CoveredThroughout(g: Config, r: R.Reg, keys: set<string>, es: seq<Event>)
    requires R.Cautious(r) && Covered(r.calls, keys) && forall e <- es :: Addressed(e)
    ensures AlwaysCovered(g, r, keys, es) <==> NoneDisplaced(g, r, keys, es)
    decreases |es|
  {
    hide R.Cautious, R.Apart, RegAfter, Emits, Addressed, Covered, Displaces, KeysRun, Exact, Tidy;
    if es == [] {
    } else {
      CautiousApart(r);
      RegAfterCautious(g, r, es[0]);
      StepKeysAgree(g, r, keys, es[0]);
      if !Displaces(r, keys, es[0]) {
        CoveredThroughout(g, RegAfter(g, r, es[0]), KeysRun(keys, Emits(g, r, es[0])), es[1..]);
      }
    }
  }

  /** And calls and channels match exactly throughout if and only if every step is tidy. */
  lemma {:induction false} ExactThroughout(g: Config, r: R.Reg, keys: set<string>, es: seq<Event>)
    requires R.Cautious(r) && Exact(r.calls, keys) && forall e <- es :: Addressed(e)
    ensures AlwaysExact(g, r, keys, es) <==> AllTidy(g, r, keys, es)
    decreases |es|
  {
    ExactCovered(r.calls, keys);
    hide R.Cautious, R.Apart, RegAfter, Emits, Addressed, Covered, Displaces, KeysRun, Exact, Tidy;
    if es == [] {
    } else {
      CautiousApart(r);
      RegAfterCautious(g, r, es[0]);
      StepKeysAgree(g, r, keys, es[0]);
      if Tidy(g, r, keys, es[0]) {
        ExactThroughout(g, RegAfter(g, r, es[0]), KeysRun(keys, Emits(g, r, es[0])), es[1..]);
      }
    }
  }

  lemma ExactCovered(calls: seq<R.Call>, keys: set<string>)
    requires Exact(calls, keys)
    ensures Covered(calls, keys)
  {
  }

  /** The channel map that a run leaves has the keys computed above. */
  lemma {:induction false} RunKeys(w: Rec.World, m: C.Mgr, es: seq<C.Event>)
    requires C.Owned(m) && D.Legal(w, m, es)
    ensures D.Run(w, m, es).chans.Keys == KeysRun(m.chans.Keys, es)
    decreases |es|
  {
    hide C.Step, C.Owned, C.Defined, KeysStep;
    if es == [] {
    } else {
      C.OwnedLinked(m);
      C.StepOwned(w, m, es[0]);
      StepKeys(w, m, es[0]);
      RunKeys(w, C.Step(w, m, es[0]), es[1..]);
    }
  }

  lemma {:induction false} LastState(g: Config, r: R.Reg, keys: set<string>, es: seq<Event>)
    ensures AlwaysCovered(g, r, keys, es) ==> Covered(RegRun(g, r, es).calls, KeysRun(keys, Emitted(g, r, es)))
    ensures AlwaysExact(g, r, keys, es) ==> Exact(RegRun(g, r, es).calls, KeysRun(keys, Emitted(g, r, es)))
    decreases |es|
  {
    hide RegAfter, Emits, Covered, Exact, KeysRun;
    if es == [] {
      NoKeys(keys);
    } else {
      var n, more := RegAfter(g, r, es[0]), Emits(g, r, es[0]);
      KeysAppend(keys, more, Emitted(g, n, es[1..]));
      LastState(g, n, KeysRun(keys, more), es[1..]);
    }
  }

  lemma NoKeys(keys: set<string>)
    ensures KeysRun(keys, []) == keys
  {
  }

  /** Every run of the application from its start: calls are pairwise different, none is reported as
      present that is not, and all are reported as they are unless a keepalive pass removed the wrong
      one; a payload of a listed camera finds a channel unless a rename took it away; and there are no
      other channels unless a call failed, a viewer asked for an unknown camera, or calls over TCP ended. */
  lemma CallsAndChannels(w: Rec.World, configured: int, g: Config, startPort: int, es: seq<Event>)
    requires forall e <- es :: Addressed(e)
    requires D.Legal(w, C.Init(configured), Emitted(g, R.Init(startPort), es))
    ensures var r0 := R.Init(startPort);
            var r := RegRun(g, r0, es);
            var m := D.Run(w, C.Init(configured), Emitted(g, r0, es));
            && R.Cautious(r)
            && (R.AlwaysSure(r0, AllRegistered(es), g.portStep) ==> R.Inv(r))
            && (NoneDisplaced(g, r0, {}, es) ==> Covered(r.calls, m.chans.Keys))
            && (AllTidy(g, r0, {}, es) ==> Exact(r.calls, m.chans.Keys))
  {
    var r0 := R.Init(startPort);
    R.InitInv(startPort);
    assert Exact(r0.calls, {});
    hide *;
    RegisteredAddressed(es);
    RegRunIs(g, r0, es);
    R.RunCautious(r0, AllRegistered(es), g.portStep);
    R.RunInv(r0, AllRegistered(es), g.portStep);
    RunKeys(w, C.Init(configured), Emitted(g, r0, es));
    InitKeys(configured);
    ExactCovered(r0.calls, {});
    CoveredThroughout(g, r0, {}, es);
    ExactThroughout(g, r0, {}, es);
    LastState(g, r0, {}, es);
  }

  lemma InitKeys(configured: int)
    ensures C.Init(configured).chans.Keys == {}
  {
  }

  // ---------------------------------------------------------------- shutdown

  /** Stopping every listed call; after each, whatever the manager still hears meanwhile. */
  function Farewells(g: Config, calls: seq<R.Call>, heard: seq<seq<C.Event>>): seq<C.Event>
    requires |heard| == |calls|
  {
    if calls == [] then []
    else Stopped(g, calls[0].addr, calls[0].port) + heard[0] + Farewells(g, calls[1..], heard[1..])
  }

  /** Stopping every listed call, in order. */
  function StopAll(g: Config, calls: seq<R.Call>): seq<C.Event> {
    if calls == [] then [] else Stopped(g, calls[0].addr, calls[0].port) + StopAll(g, calls[1..])
  }

  /** That is what farewells are if nothing is heard in between. */
  lemma {:induction false} QuietFarewells(g: Config, calls: seq<R.Call>, heard: seq<seq<C.Event>>)
    requires |heard| == |calls| && forall h <- heard :: h == []
    ensures Farewells(g, calls, heard) == StopAll(g, calls)
    decreases |calls|
  {
    if calls == [] {
    } else {
      assert heard[0] in heard && forall h <- heard[1..] :: h in heard;
      QuietFarewells(g, calls[1..], heard[1..]);
    }
  }

  /** Destroying the head of the list stops the head. */
  lemma HeadStops(g: Config, calls: seq<R.Call>)
    requires calls != []
    ensures StopAll(g, calls) == Ended(g, calls, R.Index(calls[0])) + StopAll(g, calls[1..])
  {
  }

  lemma LastOff(log: seq<R.Status>, c: R.Call, calls: seq<R.Call>)
    requires calls != [] && calls[0] == c && forall key :: R.On(log, key) ==> R.Listed(calls, key)
    ensures forall key :: R.On(log + [R.Status(R.Key(c), false)], key) ==> R.Listed(calls[1..], key)
  {
    hide R.Key, R.On;
    R.OnReports(log, R.Status(R.Key(c), false));
    forall key | R.Listed(calls, key) && key != R.Key(c) ensures R.Listed(calls[1..], key) {
      var d :| d in calls && R.Key(d) == key;
      assert d in calls[1..];
    }
  }

  lemma {:induction false} AllOff(log: seq<R.Status>, calls: seq<R.Call>)
    requires forall key :: R.On(log, key) ==> R.Listed(calls, key)
    ensures forall key :: !R.On(log + R.Goodbyes(calls), key)
    decreases |calls|
  {
    hide R.Key, R.On, R.Listed;
    if calls == [] {
      assert log + R.Goodbyes(calls) == log;
      NoneListed();
    } else {
      var bye := R.Status(R.Key(calls[0]), false);
      LastOff(log, calls[0], calls);
      AllOff(log + [bye], calls[1..]);
      assert log + R.Goodbyes(calls) == log + [bye] + R.Goodbyes(calls[1..]);
    }
  }

  lemma NoneListed()
    ensures forall key :: !R.Listed([], key)
  {
  }

  lemma HangupReports(r: R.Reg)
    requires R.Cautious(r)
    ensures R.Linked(r.calls) && R.HangupAll(r).calls == []
    ensures forall key :: !R.On(R.HangupAll(r).log, key)
  {
    CautiousApart(r);
    hide IpcUrl, R.HangupAll, R.On, R.Listed;
    R.HangupEmpties(r);
    AllOff(r.log, r.calls);
  }

  /** All that a run and the shutdown after it do to the channels. */
  function Lifetime(g: Config, r: R.Reg, es: seq<Event>, heard: seq<seq<C.Event>>): seq<C.Event>
    requires |heard| == |RegRun(g, r, es).calls|
  {
    Emitted(g, r, es) + Farewells(g, RegRun(g, r, es).calls, heard)
  }

  /** Any run, then shutdown, with payloads and broker messages still coming in while calls are hung
      up: no call is left, every camera was last reported as gone, no channel is left, and the files
      hold all that was ever accepted, in order, if and only if no rename ever displaced a camera with
      something in its buffer and every fopen with something to write succeeded. */
  lemma Shutdown(w: Rec.World, configured: int, g: Config, startPort: int, es: seq<Event>, heard: seq<seq<C.Event>>)
    requires (forall e <- es :: Addressed(e)) && |heard| == |RegRun(g, R.Init(startPort), es).calls|
    requires D.Legal(w, C.Init(configured), Lifetime(g, R.Init(startPort), es, heard))
    ensures var r, m0 := RegRun(g, R.Init(startPort), es), C.Init(configured);
            var all := Lifetime(g, R.Init(startPort), es, heard);
            && R.Linked(r.calls) && R.HangupAll(r).calls == [] && (forall key :: !R.On(R.HangupAll(r).log, key))
            && (var m := C.Step(w, D.Run(w, m0, all), C.Uninit);
                var tapes := D.TapeRun(C.View(m0), all).tapes;
                m.chans == map[] && |m.files| == |tapes|
                && ((forall i :: 0 <= i < |m.files| ==> Rec.InFiles(m.files[i]) == tapes[i])
                    <==> D.Careful(w, m0, all)))
  {
    R.InitInv(startPort);
    hide *;
    var all := Lifetime(g, R.Init(startPort), es, heard);
    RegisteredAddressed(es);
    RegRunIs(g, R.Init(startPort), es);
    R.RunCautious(R.Init(startPort), AllRegistered(es), g.portStep);
    HangupReports(RegRun(g, R.Init(startPort), es));
    D.ShutdownWritesAll(w, configured, all);
    UninitUnmaps(w, D.Run(w, C.Init(configured), all));
  }

  lemma UninitUnmaps(w: Rec.World, m: C.Mgr)
    requires C.Owned(m)
    ensures C.Linked(m) && C.Step(w, m, C.Uninit).chans == map[]
  {
    hide C.DrainAll;
  }

  // ---------------------------------------------------------------- payloads and ends of calls

  /** A payload of a listed camera reaches the tape of that camera's channel exactly if the channel
      records, under the camera's address and the channel's directory, and no other tape. */
  lemma PacketRecorded(w: Rec.World, g: Config, r: R.Reg, m: C.Mgr, e: Event)
    requires C.Owned(m) && Covered(r.calls, m.chans.Keys) && e.Packet? && e.i < |r.calls|
    ensures var key := R.Key(r.calls[e.i]);
            var c := m.chans[key];
            var n := C.Step(w, m, Emits(g, r, e)[0]);
            |n.files| == |m.files|
            && forall k :: 0 <= k < |m.files| ==>
                 Rec.Tape(n.files[k]) == Rec.Tape(m.files[k])
                   + if k == c.file && e.payload != [] && c.dir != "" && c.flag != 0
                       then [Rec.Payload(key, c.dir, e.payload)] else []
  {
    assert r.calls[e.i] in r.calls;
    var event := C.Rtp(r.calls[e.i].addr, r.calls[e.i].port, e.payload);
    C.StepTapes(w, m, event);
    hide C.Step, Rec.Tape, IpcUrl;
    var key, n := R.Key(r.calls[e.i]), C.Step(w, m, event);
    assert key in C.View(m).routes;
    forall k | 0 <= k < |m.files|
      ensures |n.files| == |m.files| && Rec.Tape(n.files[k]) == C.TapeStep(C.View(m), event).tapes[k]
    {
      assert |C.View(n).tapes| == |n.files| && |C.TapeStep(C.View(m), event).tapes| == |m.files|;
    }
  }

  lemma RunOfOne(w: Rec.World, m: C.Mgr, e: C.Event)
    requires C.Owned(m) && C.Defined(m, e)
    ensures C.Linked(m) && D.Legal(w, m, [e]) && D.Run(w, m, [e]) == C.Step(w, m, e)
  {
    hide C.Step, C.Owned;
    C.OwnedLinked(m);
    C.StepOwned(w, m, e);
    assert [e][1..] == [];
  }

  /** Media that come up over UDP are recorded as program stream from then on; nothing else about any
      channel changes. */
  lemma MediaArePs(w: Rec.World, g: Config, r: R.Reg, m: C.Mgr, i: nat, j: nat, now: int, keyFrame: bool)
    requires C.Owned(m) && g.udp && R.Apart(r) && Covered(r.calls, m.chans.Keys)
    requires i < |r.calls| && K.FirstWithSerialOf(r.calls, j, r.calls[i])
    ensures var e := Sip(R.MediaUpdate(i, now, true, keyFrame));
            var key := IpcUrl(r.calls[j].addr, r.calls[j].port);
            && D.Legal(w, m, Emits(g, r, e)) && key in m.chans
            && D.Run(w, m, Emits(g, r, e)) == m.(chans := m.chans[key := m.chans[key].(fmt := "ps")])
  {
    var e := Sip(R.MediaUpdate(i, now, true, keyFrame));
    assert r.calls[i] in r.calls && r.calls[j] in r.calls;
    K.FirstIs(r.calls, r.calls[i], j);
    var event := C.SetFmt(r.calls[j].addr, r.calls[j].port, "ps");
    hide IpcUrl, C.Owned, R.ByIndex, D.Run, D.Legal;
    assert Emits(g, r, e) == [event];
    RunOfOne(w, m, event);
  }

  /** A call that is made gives its camera a channel that records nothing before a plan comes; a channel
      that is there keeps everything but the format. */
  lemma CallGetsChannel(w: Rec.World, g: Config, r: R.Reg, m: C.Mgr, addr: string, port: int, now: int)
    requires C.Owned(m) && R.ByAddress(r.calls, addr, port) == |r.calls|
    ensures var e := Sip(R.Message(addr, port, now, R.Invited));
            var key := IpcUrl(addr, port);
            && D.Legal(w, m, Emits(g, r, e))
            && D.Run(w, m, Emits(g, r, e)).chans == m.chans[key :=
                 if key in m.chans then m.chans[key].(fmt := "")
                 else C.Channel(|m.files|, false, C.NoViewer, "", "", "", 0.0, 0)]
  {
    var e := Sip(R.Message(addr, port, now, R.Invited));
    hide IpcUrl, C.Owned, R.ByAddress, D.Run, D.Legal, Rec.New;
    assert Emits(g, r, e) == [C.Add(addr, port, "")];
    RunOfOne(w, m, C.Add(addr, port, ""));
  }

  /** What the backend says about a registered camera's recording takes effect at once, and on that
      camera only. */
  lemma PlansTakeEffect(w: Rec.World, g: Config, r: R.Reg, m: C.Mgr, e: Event)
    requires C.Owned(m) && (e.Replan? || e.PlanDel? || e.NewDir?) && e.url in m.chans
    ensures D.Legal(w, m, Emits(g, r, e))
    ensures D.Run(w, m, Emits(g, r, e)) == m.(chans := m.chans[e.url :=
              match e
              case Replan(_, dir, limit, flag, plan) =>
                m.chans[e.url].(dir := dir, limit := limit, flag := flag, plan := plan)
              case NewDir(_, dir) => m.chans[e.url].(dir := dir)
              case _ => m.chans[e.url].(flag := 0)])
  {
    assert C.Linked(m);
    hide C.Owned, C.Step, D.Run, D.Legal;
    RunOfOne(w, m, Emits(g, r, e)[0]);
    SettingTaken(w, m, Emits(g, r, e)[0]);
  }

  lemma SettingTaken(w: Rec.World, m: C.Mgr, e: C.Event)
    requires C.Linked(m) && (e.Replan? || e.PlanDel? || e.NewDir?) && e.url in m.chans
    ensures C.Step(w, m, e) == m.(chans := m.chans[e.url :=
              match e
              case Replan(_, dir, limit, flag, plan) =>
                m.chans[e.url].(dir := dir, limit := limit, flag := flag, plan := plan)
              case NewDir(_, dir) => m.chans[e.url].(dir := dir)
              case _ => m.chans[e.url].(flag := 0)])
  {
  }

  /** A viewer who asks for a camera takes a port, whether the client connects or not; if it does, the
      camera is watched by that client, and if not, by nobody, as when a viewer leaves. */
  lemma ViewersComeAndGo(w: Rec.World, g: Config, r: R.Reg, m: C.Mgr, e: Event)
    requires C.Owned(m) && (e.LiveStart? || e.LiveStop?)
    ensures D.Legal(w, m, Emits(g, r, e))
    ensures RegAfter(g, r, e).ports == r.ports + (if e.LiveStart? then [r.nextPort] else [])
    ensures var n := D.Run(w, m, Emits(g, r, e));
            if e.LiveStart? && e.connects
            then e.url in n.chans && n.chans[e.url].viewer == C.Viewer(|m.clients|)
            else n.chans.Keys == m.chans.Keys && (e.url in n.chans ==> n.chans[e.url].viewer.NoViewer?)
  {
    var event := if e.LiveStart? then C.LiveStart(e.url, e.connects) else C.LiveStop(e.url);
    RunOfOne(w, m, event);
    RunOne(r, R.DrawPort, g.portStep);
    assert Emits(g, r, e) == [event];
    ViewerRoutes(w, m, event, e.url);
    hide D.Run, D.Legal, C.Step, C.Owned;
  }

  lemma ViewerRoutes(w: Rec.World, m: C.Mgr, e: C.Event, url: string)
    requires C.Linked(m) && ((e.LiveStart? && e.url == url) || (e.LiveStop? && e.url == url))
    ensures var n := C.Step(w, m, e);
            if e.LiveStart? && e.connects
            then url in n.chans && n.chans[url].viewer == C.Viewer(|m.clients|)
            else n.chans.Keys == m.chans.Keys && (url in n.chans ==> n.chans[url].viewer.NoViewer?)
  {
    var n := C.Step(w, m, e);
    C.StepRoutes(w, m, e);
    C.RoutesKeys(m.chans);
    C.RoutesKeys(n.chans);
    assert url in n.chans ==> C.View(n).routes[url].viewer == n.chans[url].viewer;
    hide C.Step, Rec.Tape;
  }

  /** Hanging up over UDP takes the channels of exactly the listed calls. */
  lemma {:induction false} HangupKeys(g: Config, calls: seq<R.Call>, keys: set<string>)
    requires g.udp
    ensures forall key :: key in KeysRun(keys, StopAll(g, calls))
                          <==> key in keys && forall c <- calls :: key != IpcUrl(c.addr, c.port)
    decreases |calls|
  {
    if calls == [] {
    } else {
      hide IpcUrl;
      var gone := C.Remove(calls[0].addr, calls[0].port);
      assert StopAll(g, calls) == [gone] + StopAll(g, calls[1..]);
      KeysAppend(keys, [gone], StopAll(g, calls[1..]));
      KeysOne(keys, gone);
      HangupKeys(g, calls[1..], keys - {IpcUrl(calls[0].addr, calls[0].port)});
      assert calls == [calls[0]] + calls[1..];
    }
  }

  /** The listed call that a disconnect or a keepalive pass ends, or the length of the list. */
  function EndsCall(calls: seq<R.Call>, e: R.Event): nat {
    match e
    case Disconnected(i) => if i < |calls| && calls[i].back then R.ByIndex(calls, R.Index(calls[i])) else |calls|
    case Alive(now, timeout) =>
      var i := R.FirstExpired(calls, now, timeout);
      if i < |calls| && calls[i].session && calls[i].back then R.ByIndex(calls, R.Index(calls[i])) else |calls|
    case _ => |calls|
  }

  lemma EndIs(g: Config, r: R.Reg, e: R.Event)
    requires EndsCall(r.calls, e) < |r.calls|
    ensures var j := EndsCall(r.calls, e);
            && SipEmits(g, r, e) == Stopped(g, r.calls[j].addr, r.calls[j].port)
            && R.Step(r, e, g.portStep).calls == R.Without(r.calls, j)
  {
    hide IpcUrl, R.Expired;
  }

  /** When a call over UDP ends, by a disconnect or a timeout, it leaves the list, its channel goes, and
      all that the channel accepted is in files if and only if nothing had been dropped and the fopen
      for what is still buffered, if any, succeeds. */
  lemma EndWrites(w: Rec.World, g: Config, r: R.Reg, m: C.Mgr, e: R.Event)
    requires D.Healthy(m, D.NoLimits()) && g.udp && EndsCall(r.calls, e) < |r.calls|
    requires Covered(r.calls, m.chans.Keys)
    ensures var j := EndsCall(r.calls, e);
            var key := R.Key(r.calls[j]);
            && key in m.chans && C.Linked(m) && D.Legal(w, m, Emits(g, r, Sip(e)))
            && (var f, n := m.chans[key].file, D.Run(w, m, Emits(g, r, Sip(e)));
                && RegAfter(g, r, Sip(e)).calls == R.Without(r.calls, j) && key !in n.chans && |n.files| == |m.files|
                && (Rec.InFiles(n.files[f]) == Rec.Tape(m.files[f])
                    <==> Rec.NothingLost(m.files[f].log) && Rec.StepOpens(w, m.files[f], Rec.Drain)))
  {
    var j := EndsCall(r.calls, e);
    assert r.calls[j] in r.calls;
    EndIs(g, r, e);
    RegAfterIs(g, r, Sip(e));
    assert C.Owned(m) && Stopped(g, r.calls[j].addr, r.calls[j].port) == [C.Remove(r.calls[j].addr, r.calls[j].port)];
    hide *;
    var gone := C.Remove(r.calls[j].addr, r.calls[j].port);
    RunOfOne(w, m, gone);
    StepKeys(w, m, gone);
    RemovedFile(w, m, gone);
    RemovedKey(m.chans.Keys, gone);
  }

  lemma RemovedKey(keys: set<string>, e: C.Event)
    requires e.Remove?
    ensures IpcUrl(e.addr, e.port) !in KeysStep(keys, e)
  {
  }

  lemma RemovedFile(w: Rec.World, m: C.Mgr, e: C.Event)
    requires D.Healthy(m, D.NoLimits()) && C.Linked(m) && e.Remove? && IpcUrl(e.addr, e.port) in m.chans
    ensures var f, n := m.chans[IpcUrl(e.addr, e.port)].file, C.Step(w, m, e);
            |n.files| == |m.files|
            && (Rec.InFiles(n.files[f]) == Rec.Tape(m.files[f])
                <==> Rec.NothingLost(m.files[f].log) && Rec.StepOpens(w, m.files[f], Rec.Drain))
  {
    C.StepFiles(w, m, e);
    hide C.Step, Rec.Tape, Rec.InFiles, Rec.Step, IpcUrl, Rec.Sound, Rec.StepOpens, Rec.NothingLost;
    var s := m.files[m.chans[IpcUrl(e.addr, e.port)].file];
    Rec.StepKeepsAll(w, s, Rec.Drain);
    Rec.StepLoses(w, s, Rec.Drain);
    D.DrainIdle(w, s, Rec.AnyLimit);
    Rec.InFilesIsTape(Rec.Step(w, s, Rec.Drain));
  }
}
