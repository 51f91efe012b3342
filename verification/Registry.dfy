/** The register of camera calls: who is listed, what has been reported, who has to go. */
module Registry {
  import opened Keys

  /** Serial numbers run from 0 to UINT_MAX - 1 and start again. */
  const SERIALS: nat := 0xffff_ffff

  /** A call holds the running number of its serial; times are in milliseconds. `session` says that
      it has a SIP session and `back` that the session points back to it. */
  datatype Call = Call(addr: string, port: int, ord: nat, rtpPort: int, session: bool, back: bool,
                       connected: int, active: int)

  datatype Status = Status(key: string, on: bool)

  /** `ports` lists the RTP ports taken so far, by calls and by live clients. */
  datatype Reg = Reg(calls: seq<Call>, issued: nat, nextPort: int, log: seq<Status>, ports: seq<int>)

  datatype Outcome = StartFails | InviteFails(terminates: bool) | Invited

  datatype Event =
    | Message(addr: string, port: int, now: int, outcome: Outcome)
    | Disconnected(i: nat)
    | Confirmed(i: nat, now: int)
    | MediaUpdate(i: nat, now: int, up: bool, keyFrame: bool)
    | Rtp(i: nat, now: int)
    | Alive(now: int, timeout: int)
    | DrawSerial
    | DrawPort

  function Init(startPort: int): Reg { Reg([], 0, startPort, [], []) }

  function Key(c: Call): string { IpcUrl(c.addr, c.port) }

  /** The serial a call is found by. */
  function Index(c: Call): nat { c.ord % SERIALS }

  // ---------------------------------------------------------------- lookups

  /** The first position with a property, or the length. */
  function First(calls: seq<Call>, p: Call -> bool): (i: nat)
    ensures i <= |calls|
    ensures forall j :: 0 <= j < i ==> !p(calls[j])
    ensures i < |calls| ==> p(calls[i])
  {
    if calls == [] then 0 else if p(calls[0]) then 0 else 1 + First(calls[1..], p)
  }

  function ByAddress(calls: seq<Call>, addr: string, port: int): (i: nat)
    ensures i <= |calls|
  {
    First(calls, (c: Call) => c.addr == addr && c.port == port)
  }

  function ByUri(calls: seq<Call>, uri: string): (i: nat)
    ensures i <= |calls|
  {
    First(calls, (c: Call) => Key(c) == uri)
  }

  function ByIndex(calls: seq<Call>, index: nat): (i: nat)
    ensures i <= |calls|
  {
    First(calls, (c: Call) => Index(c) == index)
  }

  // ---------------------------------------------------------------- handlers

  function Report(r: Reg, c: Call, on: bool): Reg { r.(log := r.log + [Status(Key(c), on)]) }

  function Without(calls: seq<Call>, i: nat): seq<Call>
    requires i < |calls|
  {
    calls[..i] + calls[i + 1..]
  }

  /** destroyCallMedia: the first call with the index is reported, stopped and deleted. */
  function Destroy(r: Reg, index: nat): Reg {
    var i := ByIndex(r.calls, index);
    if i < |r.calls| then Report(r, r.calls[i], false).(calls := Without(r.calls, i)) else r
  }

  /** Terminating a session runs the disconnect handler, which needs the way back to the call. */
  function Terminate(r: Reg, c: Call): Reg {
    if c.session && c.back then Destroy(r, Index(c)) else r
  }

  function Drawn(r: Reg): Reg { r.(issued := r.issued + 1) }

  function PortTaken(r: Reg, step: int): Reg { r.(nextPort := r.nextPort + step, ports := r.ports + [r.nextPort]) }

  /** A MESSAGE with a device id. */
  function OnMessage(r: Reg, addr: string, port: int, now: int, outcome: Outcome, step: int): Reg {
    var i := ByAddress(r.calls, addr, port);
    if i < |r.calls|
    then Report(r, r.calls[i], true).(calls := r.calls[i := r.calls[i].(connected := now)])
    else
      var n := PortTaken(Drawn(r), step);
      var c := Call(addr, port, r.issued, r.nextPort, true, true, now, now);
      match outcome
      case StartFails => n
      case InviteFails(terminates) => if terminates then Destroy(n, Index(c)) else n
      case Invited => Report(n.(calls := n.calls + [c]), c, true)
  }

  function Limit(timeout: int): int { 1000 * if timeout < 0 then 120 else timeout }

  /** Neither a MESSAGE nor a confirmation for too long. */
  predicate Stale(c: Call, now: int, timeout: int) { now - c.connected > Limit(timeout) }

  predicate Silent(c: Call, now: int, timeout: int) { now - c.active > Limit(timeout) }

  predicate Expired(c: Call, now: int, timeout: int) {
    Stale(c, now, timeout) || (Silent(c, now, timeout) && c.session)
  }

  function FirstExpired(calls: seq<Call>, now: int, timeout: int): (i: nat)
    ensures i <= |calls|
  {
    First(calls, (c: Call) => Expired(c, now, timeout))
  }

  /** One pass of the keepalive thread: the first expired call is terminated, a stale one after an
      extra report. */
  function AlivePass(r: Reg, now: int, timeout: int): Reg {
    var i := FirstExpired(r.calls, now, timeout);
    if i == |r.calls| then r
    else
      var c := r.calls[i];
      Terminate(if Stale(c, now, timeout) then Report(r, c, false) else r, c)
  }

  function Step(r: Reg, e: Event, step: int): Reg {
    match e
    case Message(addr, port, now, outcome) => OnMessage(r, addr, port, now, outcome, step)
    case Disconnected(i) => if i < |r.calls| && r.calls[i].back then Destroy(r, Index(r.calls[i])) else r
    case Confirmed(i, now) =>
      if i < |r.calls| && r.calls[i].back then r.(calls := r.calls[i := r.calls[i].(connected := now)]) else r
    case MediaUpdate(i, now, up, keyFrame) =>
      if i < |r.calls| && r.calls[i].back
      then
        var j := ByIndex(r.calls, Index(r.calls[i]));
        var n := if j < |r.calls| && up then r.(calls := r.calls[j := r.calls[j].(active := now)]) else r;
        if keyFrame then Drawn(n) else n
      else r
    case Rtp(i, now) => if i < |r.calls| then r.(calls := r.calls[i := r.calls[i].(active := now)]) else r
    case Alive(now, timeout) => AlivePass(r, now, timeout)
    case DrawSerial => Drawn(r)
    case DrawPort => PortTaken(r, step)
  }

  // ---------------------------------------------------------------- serial numbers

  /** Every listed call drew its serial fewer than 2^32 - 1 draws ago. */
  predicate InWindow(r: Reg) { forall c <- r.calls :: r.issued - c.ord < 0xffff_ffff }

  /** Of any 2^32 - 1 consecutive draws no two give one serial; one more repeats the first. */
  lemma SerialsDistinct(i: nat, j: nat)
    ensures i < j < i + 0xffff_ffff ==> i % SERIALS != j % SERIALS
    ensures (i + 0xffff_ffff) % SERIALS == i % SERIALS
    ensures i < 0xffff_ffff ==> i % SERIALS == i
  {
  }

  // ---------------------------------------------------------------- the invariant

  /** The latest report about a camera says that it is there. */
  predicate On(log: seq<Status>, key: string) {
    log != [] && (if log[|log| - 1].key == key then log[|log| - 1].on else On(log[..|log| - 1], key))
  }

  predicate Listed(calls: seq<Call>, key: string) { exists c <- calls :: Key(c) == key }

  predicate DistinctCalls(calls: seq<Call>) {
    forall i, j :: 0 <= i < j < |calls| ==> Key(calls[i]) != Key(calls[j]) && calls[i].ord != calls[j].ord
  }

  predicate Sound(c: Call, issued: nat) { c.ord < issued && c.session && c.back && Fits(c.addr, c.port) }

  /** Every camera last reported as present is listed and, if `exact`, the other way round. */
  ghost predicate Agrees(r: Reg, exact: bool) {
    forall key :: (On(r.log, key) ==> Listed(r.calls, key)) && (exact && Listed(r.calls, key) ==> On(r.log, key))
  }

  predicate Apart(r: Reg) { DistinctCalls(r.calls) && forall c <- r.calls :: Sound(c, r.issued) }

  ghost predicate Keeps(r: Reg, exact: bool) { Apart(r) && Agrees(r, exact) }

  /** Calls are pairwise different cameras with a live session each, and exactly the cameras listed
      were last reported as present. */
  ghost predicate Inv(r: Reg) { Keeps(r, true) }

  /** Calls are pairwise different cameras with a live session each, and no camera was last reported
      as present that is not listed. */
  ghost predicate Cautious(r: Reg) { Keeps(r, false) }

  predicate Addressed(e: Event) { e.Message? ==> Fits(e.addr, e.port) }

  lemma OnReport(log: seq<Status>, s: Status, key: string)
    ensures On(log + [s], key) <==> if s.key == key then s.on else On(log, key)
  {
    assert (log + [s])[..|log|] == log;
  }

  lemma OnReports(log: seq<Status>, s: Status)
    ensures forall key :: On(log + [s], key) <==> if s.key == key then s.on else On(log, key)
  {
    forall key ensures On(log + [s], key) <==> if s.key == key then s.on else On(log, key) {
      OnReport(log, s, key);
    }
  }

  /** With all serials in the window, a call's serial finds that call. */
  lemma IndexFinds(r: Reg, i: nat)
    requires DistinctCalls(r.calls) && InWindow(r) && i < |r.calls| && forall c <- r.calls :: c.ord < r.issued
    ensures ByIndex(r.calls, Index(r.calls[i])) == i
  {
    var j := ByIndex(r.calls, Index(r.calls[i]));
    var a, b := r.calls[i].ord, r.calls[j].ord;
    SerialsDistinct(a, b);
    SerialsDistinct(b, a);
  }

  // ---------------------------------------------------------------- lists of calls

  lemma ListedAt(calls: seq<Call>, key: string)
    ensures Listed(calls, key) <==> exists i :: 0 <= i < |calls| && Key(calls[i]) == key
  {
    hide Key;
    if Listed(calls, key) {
      var c :| c in calls && Key(c) == key;
      var i :| 0 <= i < |calls| && calls[i] == c;
      assert Key(calls[i]) == key;
    }
  }

  lemma ListedBefore(calls: seq<Call>, i: nat, key: string)
    requires i < |calls| && Listed(Without(calls, i), key) && DistinctCalls(calls)
    ensures Listed(calls, key) && key != Key(calls[i])
  {
    hide Key;
    ListedAt(Without(calls, i), key);
    var j :| 0 <= j < |calls| - 1 && Key(Without(calls, i)[j]) == key;
    assert Without(calls, i)[j] == calls[if j < i then j else j + 1];
  }

  lemma ListedAfter(calls: seq<Call>, i: nat, key: string)
    requires i < |calls| && Listed(calls, key) && key != Key(calls[i])
    ensures Listed(Without(calls, i), key)
  {
    hide Key;
    ListedAt(calls, key);
    var j :| 0 <= j < |calls| && Key(calls[j]) == key;
    assert Without(calls, i)[if j < i then j else j - 1] == calls[j];
    ListedAt(Without(calls, i), key);
  }

  /** The keys of the calls without one of them. */
  lemma ListedWithout(calls: seq<Call>, i: nat)
    requires i < |calls| && DistinctCalls(calls)
    ensures forall key :: Listed(Without(calls, i), key) <==> Listed(calls, key) && key != Key(calls[i])
  {
    hide *;
    forall key ensures Listed(Without(calls, i), key) <==> Listed(calls, key) && key != Key(calls[i]) {
      if Listed(Without(calls, i), key) {
        ListedBefore(calls, i, key);
      } else if Listed(calls, key) && key != Key(calls[i]) {
        ListedAfter(calls, i, key);
      }
    }
  }

  lemma ListedMore(calls: seq<Call>, c: Call)
    ensures forall key :: Listed(calls + [c], key) <==> Listed(calls, key) || key == Key(c)
  {
    hide Key;
    forall key ensures Listed(calls + [c], key) <==> Listed(calls, key) || key == Key(c) {
      if d :| d in calls && Key(d) == key {
        assert d in calls + [c];
      }
      assert c in calls + [c];
    }
  }

  /** New times leave the cameras listed as they are. */
  lemma ListedTouched(calls: seq<Call>, i: nat, c: Call)
    requires i < |calls| && Key(c) == Key(calls[i])
    ensures forall key :: Listed(calls[i := c], key) <==> Listed(calls, key)
  {
    hide Key;
    forall key ensures Listed(calls[i := c], key) <==> Listed(calls, key) {
      ListedAt(calls, key);
      ListedAt(calls[i := c], key);
      assert forall j :: 0 <= j < |calls| ==> Key(calls[i := c][j]) == Key(calls[j]);
    }
  }

  /** A call that is not found by its address is not found by its key either. */
  lemma NotListed(r: Reg, addr: string, port: int)
    requires (forall c <- r.calls :: Fits(c.addr, c.port)) && Fits(addr, port)
    requires ByAddress(r.calls, addr, port) == |r.calls|
    ensures !Listed(r.calls, IpcUrl(addr, port))
  {
    hide IpcUrl;
    forall c <- r.calls ensures Key(c) != IpcUrl(addr, port) {
      IpcUrlInjective(c.addr, c.port, addr, port);
      var i :| 0 <= i < |r.calls| && r.calls[i] == c;
      assert !(r.calls[i].addr == addr && r.calls[i].port == port);
    }
  }

  // ---------------------------------------------------------------- what each part of a step keeps

  lemma WithoutApart(r: Reg, i: nat)
    requires Apart(r) && i < |r.calls|
    ensures Apart(r.(calls := Without(r.calls, i)))
  {
    hide Key, Sound;
    var rest := Without(r.calls, i);
    assert forall j :: 0 <= j < |rest| ==> rest[j] == r.calls[if j < i then j else j + 1];
  }

  lemma RemoveKeeps(r: Reg, i: nat, exact: bool)
    requires Keeps(r, exact) && i < |r.calls|
    ensures Keeps(Report(r, r.calls[i], false).(calls := Without(r.calls, i)), exact)
  {
    hide Key, On, Listed, DistinctCalls, Sound, Without;
    OnReports(r.log, Status(Key(r.calls[i]), false));
    ListedWithout(r.calls, i);
    WithoutApart(r, i);
  }

  lemma ReportKeeps(r: Reg, i: nat, exact: bool)
    requires Keeps(r, exact) && i < |r.calls|
    ensures Keeps(Report(r, r.calls[i], true), exact)
  {
    hide Key, On, DistinctCalls, Sound;
    OnReports(r.log, Status(Key(r.calls[i]), true));
    assert Listed(r.calls, Key(r.calls[i]));
  }

  lemma AddKeeps(r: Reg, c: Call, exact: bool)
    requires Keeps(r, exact)
    requires Sound(c, r.issued) && !Listed(r.calls, Key(c)) && forall d <- r.calls :: d.ord != c.ord
    ensures Keeps(Report(r.(calls := r.calls + [c]), c, true), exact)
  {
    hide Key, On, Sound;
    OnReports(r.log, Status(Key(c), true));
    ListedMore(r.calls, c);
    assert forall d <- r.calls :: Key(d) != Key(c);
  }

  /** New times change nothing that matters here. */
  lemma TouchKeeps(r: Reg, i: nat, c: Call, exact: bool)
    requires Keeps(r, exact) && i < |r.calls| && c == r.calls[i].(connected := c.connected, active := c.active)
    ensures Keeps(r.(calls := r.calls[i := c]), exact)
  {
    hide IpcUrl, On, Listed;
    ListedTouched(r.calls, i, c);
    var n := r.calls[i := c];
    forall j | 0 <= j < |n| ensures Key(n[j]) == Key(r.calls[j]) && n[j].ord == r.calls[j].ord && Sound(n[j], r.issued) {
      assert r.calls[j] in r.calls;
    }
  }

  lemma DrawKeeps(r: Reg, exact: bool)
    requires Keeps(r, exact)
    ensures Keeps(Drawn(r), exact)
  {
    hide Key, On, Listed;
  }

  lemma PortKeeps(r: Reg, step: int, exact: bool)
    requires Keeps(r, exact)
    ensures Keeps(PortTaken(r, step), exact)
  {
    hide Key, On, Listed;
  }

  lemma DestroyKeeps(r: Reg, index: nat, exact: bool)
    requires Keeps(r, exact)
    ensures Keeps(Destroy(r, index), exact)
  {
    hide Keeps, Report, Without;
    var j := ByIndex(r.calls, index);
    if j < |r.calls| {
      RemoveKeeps(r, j, exact);
    }
  }

  lemma MessageKeeps(r: Reg, addr: string, port: int, now: int, outcome: Outcome, step: int, exact: bool)
    requires Keeps(r, exact) && Fits(addr, port)
    ensures Keeps(OnMessage(r, addr, port, now, outcome, step), exact)
  {
    KeepsSound(r, exact);
    hide IpcUrl, Keeps, Destroy;
    var i := ByAddress(r.calls, addr, port);
    if i < |r.calls| {
      ReportKeeps(r, i, exact);
      TouchKeeps(Report(r, r.calls[i], true), i, r.calls[i].(connected := now), exact);
    } else {
      DrawKeeps(r, exact);
      PortKeeps(Drawn(r), step, exact);
      NotListed(r, addr, port);
      var n := PortTaken(Drawn(r), step);
      var c := Call(addr, port, r.issued, r.nextPort, true, true, now, now);
      DestroyKeeps(n, Index(c), exact);
      AddKeeps(n, c, exact);
    }
  }

  lemma KeepsSound(r: Reg, exact: bool)
    requires Keeps(r, exact)
    ensures (forall c <- r.calls :: Sound(c, r.issued)) && Linked(r.calls)
  {
  }

  /** A pass that reports a stale call removes that call, and not another with its serial. */
  predicate PassSure(calls: seq<Call>, now: int, timeout: int) {
    var i := FirstExpired(calls, now, timeout);
    i == |calls| || !Stale(calls[i], now, timeout) || ByIndex(calls, Index(calls[i])) == i
  }

  /** Reporting one call as gone and removing another leaves the first listed, but not reported. */
  lemma StaleKeeps(r: Reg, i: nat, j: nat, exact: bool)
    requires Keeps(r, exact) && j <= i < |r.calls|
    ensures Keeps(Report(Report(r, r.calls[i], false), r.calls[j], false).(calls := Without(r.calls, j)), exact)
            <==> !exact || j == i
  {
    hide IpcUrl, On, Listed, Sound, Without;
    var once := Report(r, r.calls[i], false);
    OnReports(r.log, Status(Key(r.calls[i]), false));
    OnReports(once.log, Status(Key(r.calls[j]), false));
    ListedWithout(r.calls, j);
    WithoutApart(r, j);
    assert Listed(r.calls, Key(r.calls[i])) by {
      assert r.calls[i] in r.calls;
      ListedAt(r.calls, Key(r.calls[i]));
    }
  }

  lemma AliveKeeps(r: Reg, now: int, timeout: int, exact: bool)
    requires Keeps(r, exact)
    ensures Keeps(AlivePass(r, now, timeout), exact) <==> !exact || PassSure(r.calls, now, timeout)
  {
    KeepsSound(r, exact);
    hide IpcUrl, Keeps, Stale, Without;
    var i := FirstExpired(r.calls, now, timeout);
    if i < |r.calls| {
      assert r.calls[i] in r.calls;
      StaleKeeps(r, i, ByIndex(r.calls, Index(r.calls[i])), exact);
      DestroyKeeps(r, Index(r.calls[i]), exact);
    }
  }

  /** The only step that may part registry and reports is a keepalive pass. */
  predicate Sure(r: Reg, e: Event) { e.Alive? ==> PassSure(r.calls, e.now, e.timeout) }

  lemma MediaKeeps(r: Reg, i: nat, now: int, up: bool, keyFrame: bool, step: int, exact: bool)
    requires Keeps(r, exact) && i < |r.calls|
    ensures Keeps(Step(r, MediaUpdate(i, now, up, keyFrame), step), exact)
  {
    hide IpcUrl, Keeps, First;
    var j := ByIndex(r.calls, Index(r.calls[i]));
    var n := if j < |r.calls| && up then r.(calls := r.calls[j := r.calls[j].(active := now)]) else r;
    if j < |r.calls| {
      TouchKeeps(r, j, r.calls[j].(active := now), exact);
    }
    DrawKeeps(n, exact);
  }

  lemma OtherKeeps(r: Reg, e: Event, step: int, exact: bool)
    requires Keeps(r, exact) && Addressed(e) && !e.Alive?
    ensures Keeps(Step(r, e, step), exact)
  {
    hide IpcUrl, First, Destroy, AlivePass, OnMessage, Keeps, PortTaken, Sound, Report, Fits;
    match e
    case Message(addr, port, now, outcome) => MessageKeeps(r, addr, port, now, outcome, step, exact);
    case Disconnected(i) => if i < |r.calls| { DestroyKeeps(r, Index(r.calls[i]), exact); }
    case Confirmed(i, now) => if i < |r.calls| { TouchKeeps(r, i, r.calls[i].(connected := now), exact); }
    case MediaUpdate(i, now, up, keyFrame) =>
      if i < |r.calls| { MediaKeeps(r, i, now, up, keyFrame, step, exact); }
    case Rtp(i, now) => if i < |r.calls| { TouchKeeps(r, i, r.calls[i].(active := now), exact); }
    case DrawSerial => DrawKeeps(r, exact);
    case DrawPort => PortKeeps(r, step, exact);
  }

  lemma StepKeeps(r: Reg, e: Event, step: int, exact: bool)
    requires Keeps(r, exact) && Addressed(e)
    ensures Keeps(Step(r, e, step), exact) <==> !exact || Sure(r, e)
  {
    hide Destroy, AlivePass, OnMessage, Keeps, PassSure, PortTaken, Addressed, First, Report;
    if e.Alive? {
      AliveKeeps(r, e.now, e.timeout, exact);
    } else {
      OtherKeeps(r, e, step, exact);
    }
  }

  /** Registry and reports agree after a step exactly if it is not a keepalive pass that reports one
      call as stale and removes another. */
  lemma StepInv(r: Reg, e: Event, step: int)
    requires Inv(r) && Addressed(e)
    ensures Inv(Step(r, e, step)) <==> Sure(r, e)
  {
    hide Keeps, Step, Sure;
    StepKeeps(r, e, step, true);
  }

  /** A MESSAGE lists its camera, refreshes it or fails, and registry and reports agree. */
  lemma MessageInv(r: Reg, addr: string, port: int, now: int, outcome: Outcome, step: int)
    requires Inv(r) && Fits(addr, port)
    ensures Inv(OnMessage(r, addr, port, now, outcome, step))
  {
    hide Keeps, OnMessage;
    MessageKeeps(r, addr, port, now, outcome, step, true);
  }

  /** A keepalive pass leaves registry and reports in agreement exactly if the call that it reports as
      stale, if any, is the first with its serial. */
  lemma AliveAgreesExactly(r: Reg, now: int, timeout: int)
    requires Inv(r)
    ensures var i := FirstExpired(r.calls, now, timeout);
            Inv(AlivePass(r, now, timeout))
            <==> i == |r.calls| || !Stale(r.calls[i], now, timeout) || ByIndex(r.calls, Index(r.calls[i])) == i
  {
    hide Keeps, AlivePass, ByIndex;
    AliveKeeps(r, now, timeout, true);
  }

  /** A pass removes the first expired call and no other exactly if that is the first with its serial;
      then registry and reports agree although a stale call is reported twice. */
  lemma AliveInv(r: Reg, now: int, timeout: int)
    requires Inv(r) && FirstExpired(r.calls, now, timeout) < |r.calls|
    ensures var i := FirstExpired(r.calls, now, timeout);
            AlivePass(r, now, timeout).calls == Without(r.calls, i) <==> ByIndex(r.calls, Index(r.calls[i])) == i
    ensures var i := FirstExpired(r.calls, now, timeout);
            ByIndex(r.calls, Index(r.calls[i])) == i ==> Inv(AlivePass(r, now, timeout))
  {
    KeepsSound(r, true);
    AliveKeeps(r, now, timeout, true);
    PassRemoves(r, now, timeout);
    var i := FirstExpired(r.calls, now, timeout);
    var j := ByIndex(r.calls, Index(r.calls[i]));
    WithoutDiffers(r.calls, j, i);
    hide AlivePass, Keeps, Without, FirstExpired, ByIndex;
  }

  lemma WithoutDiffers(calls: seq<Call>, j: nat, i: nat)
    requires j <= i < |calls| && DistinctCalls(calls)
    ensures Without(calls, j) == Without(calls, i) <==> j == i
  {
    hide Key;
    if j < i {
      assert Without(calls, i)[j] == calls[j] && Without(calls, j)[j] == calls[j + 1];
    }
  }

  // ---------------------------------------------------------------- runs

  function Run(r: Reg, es: seq<Event>, step: int): Reg
    decreases es
  {
    if es == [] then r else Run(Step(r, es[0], step), es[1..], step)
  }

  lemma {:induction false} RunConcat(r: Reg, a: seq<Event>, b: seq<Event>, step: int)
    ensures Run(r, a + b, step) == Run(Run(r, a, step), b, step)
    decreases |a|
  {
    hide Step;
    if a == [] {
      assert a + b == b;
    } else {
      assert (a + b)[0] == a[0] && (a + b)[1..] == a[1..] + b;
      RunConcat(Step(r, a[0], step), a[1..], b, step);
    }
  }

  /** Registry and reports agree in every state of the run, from the first to the last. */
  ghost predicate AlwaysInv(r: Reg, es: seq<Event>, step: int)
    decreases es
  {
    Inv(r) && (es != [] ==> AlwaysInv(Step(r, es[0], step), es[1..], step))
  }

  /** No pass of the run reports one call as stale and removes another. */
  predicate AlwaysSure(r: Reg, es: seq<Event>, step: int)
    decreases es
  {
    es == [] || (Sure(r, es[0]) && AlwaysSure(Step(r, es[0], step), es[1..], step))
  }

  /** Over every run: pairwise different cameras, each with a session that knows it, and the latest
      report about any camera says that it is there exactly if it is listed; all of that in every
      state, if and only if no keepalive pass reports one call as stale and removes another. */
  lemma {:induction false} RunInv(r: Reg, es: seq<Event>, step: int)
    requires Inv(r) && forall e <- es :: Addressed(e)
    ensures AlwaysInv(r, es, step) <==> AlwaysSure(r, es, step)
    ensures AlwaysSure(r, es, step) ==> Inv(Run(r, es, step))
    decreases es
  {
    hide Step, Inv, Addressed, Sure;
    if es == [] {
    } else {
      StepInv(r, es[0], step);
      if Sure(r, es[0]) {
        RunInv(Step(r, es[0], step), es[1..], step);
      }
    }
  }

  /** Over every run whatever: no camera was last reported as present that is not listed. */
  lemma {:induction false} RunCautious(r: Reg, es: seq<Event>, step: int)
    requires Cautious(r) && forall e <- es :: Addressed(e)
    ensures Cautious(Run(r, es, step))
    decreases es
  {
    hide Step, Keeps, Addressed;
    if es == [] {
    } else {
      StepKeeps(r, es[0], step, false);
      RunCautious(Step(r, es[0], step), es[1..], step);
    }
  }

  lemma InitInv(startPort: int)
    ensures Inv(Init(startPort)) && Cautious(Init(startPort))
  {
  }

  /** No listed call lives through 2^32 - 1 further draws. */
  predicate Windowed(r: Reg, es: seq<Event>, step: int)
    decreases es
  {
    es == [] || (InWindow(r) && Windowed(Step(r, es[0], step), es[1..], step))
  }

  lemma WindowSure(r: Reg, e: Event)
    requires Inv(r) && InWindow(r)
    ensures Sure(r, e)
  {
    hide IpcUrl, On;
    if e.Alive? {
      var i := FirstExpired(r.calls, e.now, e.timeout);
      if i < |r.calls| {
        IndexFinds(r, i);
      }
    }
  }

  /** In particular it holds as long as no listed call lives through 2^32 - 1 serials. */
  lemma {:induction false} WindowedInv(r: Reg, es: seq<Event>, step: int)
    requires Inv(r) && Windowed(r, es, step) && forall e <- es :: Addressed(e)
    ensures AlwaysInv(r, es, step) && Inv(Run(r, es, step))
    decreases es
  {
    hide Step, Inv, InWindow, Addressed, Sure;
    if es == [] {
    } else {
      WindowSure(r, es[0]);
      StepInv(r, es[0], step);
      WindowedInv(Step(r, es[0], step), es[1..], step);
    }
  }

  // ---------------------------------------------------------------- what each event reports and draws

  /** The report that the first call with a serial is gone. */
  function Gone(calls: seq<Call>, ord: nat): seq<Status> {
    if calls == [] then []
    else if calls[0].ord % 0xffff_ffff == ord % 0xffff_ffff then [Status(IpcUrl(calls[0].addr, calls[0].port), false)]
    else Gone(calls[1..], ord)
  }

  /** The reports of a pass over `calls`, a tail of `all`: a camera that has not spoken within the limit
      is reported once for that and once for being hung up. */
  function PassSays(all: seq<Call>, calls: seq<Call>, now: int, limit: int): seq<Status> {
    if calls == [] then []
    else
      var c := calls[0];
      if now - c.connected > limit then [Status(IpcUrl(c.addr, c.port), false)] + Gone(all, c.ord)
      else if now - c.active > limit then Gone(all, c.ord)
      else PassSays(all, calls[1..], now, limit)
  }

  predicate Known(r: Reg, addr: string, port: int) { exists c <- r.calls :: c.addr == addr && c.port == port }

  function Says(r: Reg, e: Event): seq<Status> {
    match e
    case Message(addr, port, _, outcome) =>
      if Known(r, addr, port) || outcome.Invited? then [Status(IpcUrl(addr, port), true)]
      else if outcome.InviteFails? && outcome.terminates then Gone(r.calls, r.issued)
      else []
    case Disconnected(i) => if i < |r.calls| then Gone(r.calls, r.calls[i].ord) else []
    case Alive(now, timeout) => PassSays(r.calls, r.calls, now, 1000 * (if timeout < 0 then 120 else timeout))
    case _ => []
  }

  lemma {:induction false} GoneIs(calls: seq<Call>, ord: nat)
    ensures var i := ByIndex(calls, ord % 0xffff_ffff);
            Gone(calls, ord) == if i < |calls| then [Status(Key(calls[i]), false)] else []
  {
    hide IpcUrl;
    if calls == [] {
    } else {
      GoneIs(calls[1..], ord);
    }
  }

  lemma {:induction false} PassSaysIs(all: seq<Call>, calls: seq<Call>, now: int, timeout: int)
    requires Linked(calls)
    ensures var i := FirstExpired(calls, now, timeout);
            PassSays(all, calls, now, 1000 * (if timeout < 0 then 120 else timeout))
            == if i == |calls| then []
               else (if Stale(calls[i], now, timeout) then [Status(Key(calls[i]), false)] else [])
                    + Gone(all, calls[i].ord)
  {
    hide IpcUrl, Gone;
    if calls == [] {
    } else {
      assert calls[0] in calls;
      PassSaysIs(all, calls[1..], now, timeout);
    }
  }

  lemma KnownIs(r: Reg, addr: string, port: int)
    ensures Known(r, addr, port) <==> ByAddress(r.calls, addr, port) < |r.calls|
  {
    var i := ByAddress(r.calls, addr, port);
    if c :| c in r.calls && c.addr == addr && c.port == port {
      var k :| 0 <= k < |r.calls| && r.calls[k] == c;
    }
    assert i < |r.calls| ==> r.calls[i] in r.calls;
  }

  lemma DestroySays(r: Reg, ord: nat)
    ensures Destroy(r, ord % 0xffff_ffff).log == r.log + Gone(r.calls, ord)
  {
    GoneIs(r.calls, ord);
    hide IpcUrl, Gone, ByIndex;
  }

  lemma TerminateSays(r: Reg, c: Call)
    requires c.session && c.back
    ensures Terminate(r, c).log == r.log + Gone(r.calls, c.ord)
  {
    hide Destroy, Gone;
    DestroySays(r, c.ord);
  }

  lemma AliveIs(r: Reg, now: int, timeout: int)
    ensures var i := FirstExpired(r.calls, now, timeout);
            AlivePass(r, now, timeout)
            == if i == |r.calls| then r
               else Terminate(if Stale(r.calls[i], now, timeout) then Report(r, r.calls[i], false) else r, r.calls[i])
  {
    hide Terminate, Report, Stale, FirstExpired;
  }

  lemma ReportIs(r: Reg, c: Call, on: bool)
    ensures Report(r, c, on).calls == r.calls && Report(r, c, on).log == r.log + [Status(Key(c), on)]
  {
  }

  lemma LinkedAt(calls: seq<Call>, i: nat)
    requires Linked(calls) && i < |calls|
    ensures calls[i].session && calls[i].back
  {
    assert calls[i] in calls;
  }

  lemma AliveSays(r: Reg, now: int, timeout: int)
    requires Linked(r.calls)
    ensures AlivePass(r, now, timeout).log
            == r.log + PassSays(r.calls, r.calls, now, 1000 * (if timeout < 0 then 120 else timeout))
  {
    hide *;
    var i := FirstExpired(r.calls, now, timeout);
    PassSaysIs(r.calls, r.calls, now, timeout);
    AliveIs(r, now, timeout);
    if i < |r.calls| {
      var c := r.calls[i];
      LinkedAt(r.calls, i);
      ReportIs(r, c, false);
      TerminateSays(r, c);
      TerminateSays(Report(r, c, false), c);
    }
  }

  lemma MessageSays(r: Reg, e: Event, step: int)
    requires e.Message?
    ensures Step(r, e, step).log == r.log + Says(r, e)
  {
    KnownIs(r, e.addr, e.port);
    ByAddressIs(r.calls, e.addr, e.port);
    DestroySays(PortTaken(Drawn(r), step), r.issued);
    hide IpcUrl, Destroy, Gone, ByAddress, Known;
  }

  /** Which reports an event makes, and in which order. */
  lemma StepReports(r: Reg, e: Event, step: int)
    requires Apart(r)
    ensures Step(r, e, step).log == r.log + Says(r, e)
  {
    assert Linked(r.calls);
    hide IpcUrl, Destroy, AlivePass, Gone, PassSays, First, Sound, Apart;
    match e
    case Message(_, _, _, _) => MessageSays(r, e, step);
    case Disconnected(i) =>
      if i < |r.calls| {
        assert r.calls[i] in r.calls;
        DestroySays(r, r.calls[i].ord);
      }
    case Alive(now, timeout) => AliveSays(r, now, timeout);
    case _ =>
  }

  lemma ByAddressIs(calls: seq<Call>, addr: string, port: int)
    ensures var i := ByAddress(calls, addr, port); i < |calls| ==> calls[i].addr == addr && calls[i].port == port
  {
  }

  lemma DestroyDraws(r: Reg, index: nat)
    ensures var n := Destroy(r, index); n.issued == r.issued && n.ports == r.ports
  {
    hide IpcUrl, ByIndex;
  }

  lemma AliveDraws(r: Reg, now: int, timeout: int)
    ensures var n := AlivePass(r, now, timeout); n.issued == r.issued && n.ports == r.ports
  {
    hide IpcUrl, Destroy, FirstExpired, Stale;
    var i := FirstExpired(r.calls, now, timeout);
    if i < |r.calls| {
      DestroyDraws(r, Index(r.calls[i]));
      DestroyDraws(Report(r, r.calls[i], false), Index(r.calls[i]));
    }
  }

  lemma MessageDraws(r: Reg, e: Event, step: int)
    requires e.Message?
    ensures var n := Step(r, e, step);
            && n.issued == r.issued + (if Known(r, e.addr, e.port) then 0 else 1)
            && n.ports == (if Known(r, e.addr, e.port) then r.ports else r.ports + [r.nextPort])
            && (!Known(r, e.addr, e.port) && e.outcome.Invited? ==>
                  n.calls == r.calls + [Call(e.addr, e.port, r.issued, r.nextPort, true, true, e.now, e.now)])
  {
    KnownIs(r, e.addr, e.port);
    DestroyDraws(PortTaken(Drawn(r), step), r.issued % SERIALS);
    hide IpcUrl, Destroy, ByAddress, Known;
  }

  /** Which events draw a serial and which take a port; a call that is made has the serial and the port
      that were next. */
  lemma StepDraws(r: Reg, e: Event, step: int)
    requires Apart(r)
    ensures var n := Step(r, e, step);
            && n.issued == r.issued + (match e
                 case Message(addr, port, _, _) => if Known(r, addr, port) then 0 else 1
                 case MediaUpdate(i, _, _, keyFrame) => if i < |r.calls| && keyFrame then 1 else 0
                 case DrawSerial => 1
                 case _ => 0)
            && n.ports == r.ports + (match e
                 case Message(addr, port, _, _) => if Known(r, addr, port) then [] else [r.nextPort]
                 case DrawPort => [r.nextPort]
                 case _ => [])
            && (e.Message? && !Known(r, e.addr, e.port) && e.outcome.Invited? ==>
                  n.calls == r.calls + [Call(e.addr, e.port, r.issued, r.nextPort, true, true, e.now, e.now)])
  {
    assert forall c <- r.calls :: c.back;
    hide IpcUrl, ByIndex, Sound, Known, Destroy, AlivePass, OnMessage, DistinctCalls;
    match e
    case Message(_, _, _, _) => MessageDraws(r, e, step);
    case MediaUpdate(i, _, _, _) => if i < |r.calls| { assert r.calls[i] in r.calls; }
    case Disconnected(i) => if i < |r.calls| { DestroyDraws(r, Index(r.calls[i])); }
    case Alive(now, timeout) => AliveDraws(r, now, timeout);
    case _ =>
  }

  // ---------------------------------------------------------------- keepalive draining

  function Passes(r: Reg, now: int, timeout: int, n: nat): Reg
    decreases n
  {
    if n == 0 then r else Passes(AlivePass(r, now, timeout), now, timeout, n - 1)
  }

  function Unexpired(calls: seq<Call>, now: int, timeout: int): seq<Call> {
    if calls == [] then []
    else (if Expired(calls[0], now, timeout) then [] else [calls[0]]) + Unexpired(calls[1..], now, timeout)
  }

  /** No call that has not expired stands before an expired one with its serial. */
  predicate NoneShadowed(calls: seq<Call>, now: int, timeout: int) {
    forall j, i :: 0 <= j < i < |calls| && Expired(calls[i], now, timeout) && Index(calls[j]) == Index(calls[i])
                   ==> Expired(calls[j], now, timeout)
  }

  lemma {:induction false} UnexpiredWithout(calls: seq<Call>, i: nat, now: int, timeout: int)
    requires i < |calls|
    ensures var rest := Unexpired(Without(calls, i), now, timeout);
            if Expired(calls[i], now, timeout) then rest == Unexpired(calls, now, timeout)
            else |rest| == |Unexpired(calls, now, timeout)| - 1
  {
    hide Expired;
    if i == 0 {
      assert Without(calls, 0) == calls[1..];
    } else {
      UnexpiredWithout(calls[1..], i - 1, now, timeout);
      assert Without(calls, i)[0] == calls[0] && Without(calls, i)[1..] == Without(calls[1..], i - 1);
    }
  }

  lemma {:induction false} UnexpiredAll(calls: seq<Call>, now: int, timeout: int)
    ensures |Unexpired(calls, now, timeout)| <= |calls|
    ensures |Unexpired(calls, now, timeout)| == |calls| <==> forall c <- calls :: !Expired(c, now, timeout)
    ensures |Unexpired(calls, now, timeout)| == |calls| ==> Unexpired(calls, now, timeout) == calls
    ensures forall c <- Unexpired(calls, now, timeout) :: !Expired(c, now, timeout)
  {
    hide Expired;
    if calls == [] {
    } else {
      UnexpiredAll(calls[1..], now, timeout);
      assert calls == [calls[0]] + calls[1..];
    }
  }

  lemma ExpiredIs(c: Call, now: int, timeout: int)
    requires c.session
    ensures Expired(c, now, timeout)
            <==> now - c.connected > 1000 * (if timeout < 0 then 120 else timeout)
                 || now - c.active > 1000 * (if timeout < 0 then 120 else timeout)
  {
  }

  lemma FirstLate(calls: seq<Call>, now: int, timeout: int)
    requires Linked(calls)
    ensures var i, limit := FirstExpired(calls, now, timeout), 1000 * (if timeout < 0 then 120 else timeout);
            && (forall k :: 0 <= k < i ==> now - calls[k].connected <= limit && now - calls[k].active <= limit)
            && (i < |calls| ==> now - calls[i].connected > limit || now - calls[i].active > limit)
  {
    FirstExpiredIs(calls, now, timeout);
    hide Expired, FirstExpired;
    forall k | 0 <= k < |calls| ensures calls[k].session {
      assert calls[k] in calls;
    }
    forall k | 0 <= k < |calls|
      ensures Expired(calls[k], now, timeout)
              <==> now - calls[k].connected > 1000 * (if timeout < 0 then 120 else timeout)
                   || now - calls[k].active > 1000 * (if timeout < 0 then 120 else timeout)
    {
      ExpiredIs(calls[k], now, timeout);
    }
  }

  /** A pass removes the first call that has the serial of the first one that was not heard, or whose
      media were not seen, within the timeout. */
  lemma PassRemoves(r: Reg, now: int, timeout: int)
    requires Linked(r.calls)
    ensures var i := FirstExpired(r.calls, now, timeout);
            if i == |r.calls| then AlivePass(r, now, timeout) == r
            else
              var j := ByIndex(r.calls, Index(r.calls[i]));
              j <= i && AlivePass(r, now, timeout).calls == Without(r.calls, j)
    ensures var i, limit := FirstExpired(r.calls, now, timeout), 1000 * (if timeout < 0 then 120 else timeout);
            && (forall k :: 0 <= k < i ==> now - r.calls[k].connected <= limit && now - r.calls[k].active <= limit)
            && (i < |r.calls| ==> now - r.calls[i].connected > limit || now - r.calls[i].active > limit)
    ensures Linked(AlivePass(r, now, timeout).calls)
  {
    FirstLate(r.calls, now, timeout);
    hide IpcUrl, Expired;
    var i := FirstExpired(r.calls, now, timeout);
    if i < |r.calls| {
      assert r.calls[i] in r.calls;
    }
  }

  lemma {:induction false} FewerUnexpired(r: Reg, now: int, timeout: int, n: nat)
    requires Linked(r.calls)
    ensures |Unexpired(Passes(r, now, timeout, n).calls, now, timeout)| <= |Unexpired(r.calls, now, timeout)|
    decreases n
  {
    hide AlivePass, Expired, Without, Unexpired, FirstExpired, ByIndex;
    if n == 0 {
    } else {
      PassRemoves(r, now, timeout);
      var i := FirstExpired(r.calls, now, timeout);
      if i < |r.calls| {
        UnexpiredWithout(r.calls, ByIndex(r.calls, Index(r.calls[i])), now, timeout);
      }
      FewerUnexpired(AlivePass(r, now, timeout), now, timeout, n - 1);
    }
  }

  /** Removing a call found by its own serial shadows none and uncovers none. */
  lemma ShadowsStay(calls: seq<Call>, i: nat, now: int, timeout: int)
    requires i < |calls| && Expired(calls[i], now, timeout) && ByIndex(calls, Index(calls[i])) == i
    ensures NoneShadowed(Without(calls, i), now, timeout) <==> NoneShadowed(calls, now, timeout)
  {
    hide Expired, Index;
    var rest := Without(calls, i);
    assert forall k :: 0 <= k < |rest| ==> rest[k] == calls[if k < i then k else k + 1];
    if NoneShadowed(rest, now, timeout) {
      forall j, k | 0 <= j < k < |calls| && Expired(calls[k], now, timeout) && Index(calls[j]) == Index(calls[k])
        ensures Expired(calls[j], now, timeout)
      {
        if j != i && k != i {
          assert rest[if j < i then j else j - 1] == calls[j] && rest[if k < i then k else k - 1] == calls[k];
        }
      }
    }
  }

  lemma FirstExpiredIs(calls: seq<Call>, now: int, timeout: int)
    ensures var i := FirstExpired(calls, now, timeout);
            && (forall j :: 0 <= j < i ==> !Expired(calls[j], now, timeout))
            && (i < |calls| ==> Expired(calls[i], now, timeout))
  {
  }

  lemma ByIndexIs(calls: seq<Call>, i: nat)
    requires i < |calls|
    ensures var j := ByIndex(calls, Index(calls[i])); j <= i && Index(calls[j]) == Index(calls[i])
  {
  }

  lemma FirstIsShadowed(calls: seq<Call>, now: int, timeout: int)
    requires var i := FirstExpired(calls, now, timeout);
             i < |calls| && ByIndex(calls, Index(calls[i])) != i
    ensures !NoneShadowed(calls, now, timeout)
  {
    var i := FirstExpired(calls, now, timeout);
    FirstExpiredIs(calls, now, timeout);
    ByIndexIs(calls, i);
    hide Expired, Index;
    assert !Expired(calls[ByIndex(calls, Index(calls[i]))], now, timeout);
  }

  /** If a call that has not expired is removed, later passes do not bring it back. */
  lemma LostForGood(calls: seq<Call>, p: Reg, j: nat, now: int, timeout: int, n: nat)
    requires j < |calls| && !Expired(calls[j], now, timeout) && p.calls == Without(calls, j) && Linked(p.calls)
    ensures Passes(p, now, timeout, n).calls != Unexpired(calls, now, timeout)
  {
    hide *;
    UnexpiredWithout(calls, j, now, timeout);
    FewerUnexpired(p, now, timeout, n);
    UnexpiredTwice(calls, now, timeout);
  }

  lemma ShadowedIsLost(r: Reg, now: int, timeout: int, n: nat)
    requires Linked(r.calls) && n > 0
    requires var i := FirstExpired(r.calls, now, timeout);
             i < |r.calls| && ByIndex(r.calls, Index(r.calls[i])) != i
    ensures Passes(r, now, timeout, n).calls != Unexpired(r.calls, now, timeout)
  {
    hide First, Expired, Index, AlivePass, Unexpired, Linked;
    var i := FirstExpired(r.calls, now, timeout);
    FirstExpiredIs(r.calls, now, timeout);
    ByIndexIs(r.calls, i);
    PassRemoves(r, now, timeout);
    OnePass(r, now, timeout, n);
    LostForGood(r.calls, AlivePass(r, now, timeout), ByIndex(r.calls, Index(r.calls[i])), now, timeout, n - 1);
  }

  lemma UnexpiredTwice(calls: seq<Call>, now: int, timeout: int)
    ensures Unexpired(Unexpired(calls, now, timeout), now, timeout) == Unexpired(calls, now, timeout)
  {
    hide Expired, Unexpired;
    UnexpiredAll(calls, now, timeout);
    UnexpiredAll(Unexpired(calls, now, timeout), now, timeout);
  }

  lemma OnePass(r: Reg, now: int, timeout: int, n: nat)
    requires n > 0
    ensures Passes(r, now, timeout, n) == Passes(AlivePass(r, now, timeout), now, timeout, n - 1)
  {
  }

  lemma {:induction false} RoundsDrain(r: Reg, now: int, timeout: int, n: nat)
    requires Linked(r.calls) && n >= |r.calls| - |Unexpired(r.calls, now, timeout)|
    ensures Passes(r, now, timeout, n).calls == Unexpired(r.calls, now, timeout)
            <==> NoneShadowed(r.calls, now, timeout)
    decreases n
  {
    hide AlivePass, Unexpired, Expired, FirstExpired, ByIndex, Without, Index, NoneShadowed;
    var i := FirstExpired(r.calls, now, timeout);
    UnexpiredAll(r.calls, now, timeout);
    FirstExpiredIs(r.calls, now, timeout);
    PassRemoves(r, now, timeout);
    FirstBound(r.calls, now, timeout);
    if i == |r.calls| {
      NoneExpired(r, now, timeout, n);
    } else {
      assert r.calls[i] in r.calls;
      if ByIndex(r.calls, Index(r.calls[i])) == i {
        UnexpiredWithout(r.calls, i, now, timeout);
        ShadowsStay(r.calls, i, now, timeout);
        WithoutOne(r.calls, i);
        RoundsDrain(AlivePass(r, now, timeout), now, timeout, n - 1);
      } else {
        FirstIsShadowed(r.calls, now, timeout);
        ShadowedIsLost(r, now, timeout, n);
      }
    }
  }

  lemma {:induction false} UnexpiredIs(calls: seq<Call>, now: int, timeout: int)
    requires Linked(calls)
    ensures var limit := 1000 * (if timeout < 0 then 120 else timeout);
            forall c :: c in Unexpired(calls, now, timeout)
                        <==> c in calls && now - c.connected <= limit && now - c.active <= limit
  {
    if calls == [] {
    } else {
      assert calls[0] in calls;
      ExpiredIs(calls[0], now, timeout);
      UnexpiredIs(calls[1..], now, timeout);
      hide Expired;
      assert calls == [calls[0]] + calls[1..];
    }
  }

  /** At one instant, as many passes as there are expired calls, or more, remove exactly those, if and
      only if none of them is shadowed by a call that has not expired. */
  lemma PassesDrain(r: Reg, now: int, timeout: int, n: nat)
    requires Linked(r.calls) && n >= |r.calls| - |Unexpired(r.calls, now, timeout)|
    ensures Passes(r, now, timeout, n).calls == Unexpired(r.calls, now, timeout)
            <==> NoneShadowed(r.calls, now, timeout)
    ensures var limit := 1000 * (if timeout < 0 then 120 else timeout);
            forall c :: c in Unexpired(r.calls, now, timeout)
                        <==> c in r.calls && now - c.connected <= limit && now - c.active <= limit
  {
    hide *;
    RoundsDrain(r, now, timeout, n);
    UnexpiredIs(r.calls, now, timeout);
  }

  lemma FirstBound(calls: seq<Call>, now: int, timeout: int)
    ensures FirstExpired(calls, now, timeout) <= |calls|
  {
  }

  lemma WithoutOne(calls: seq<Call>, i: nat)
    requires i < |calls|
    ensures |Without(calls, i)| == |calls| - 1
  {
  }

  lemma {:induction false} NoneExpired(r: Reg, now: int, timeout: int, n: nat)
    requires FirstExpired(r.calls, now, timeout) == |r.calls|
    ensures Passes(r, now, timeout, n) == r && NoneShadowed(r.calls, now, timeout)
    ensures forall c <- r.calls :: !Expired(c, now, timeout)
    decreases n
  {
    hide Expired, Index;
    if n == 0 {
    } else {
      NoneExpired(r, now, timeout, n - 1);
    }
  }

  // ---------------------------------------------------------------- shutdown

  predicate Linked(calls: seq<Call>) { forall c <- calls :: c.session && c.back }

  /** hangupAll: while a call is listed, the head's session is terminated. */
  function HangupAll(r: Reg): Reg
    requires Linked(r.calls)
    decreases |r.calls|
  {
    if r.calls == [] then r else HeadGoes(r); HangupAll(Terminate(r, r.calls[0]))
  }

  /** Whatever its serial, a head that is terminated removes itself. */
  lemma HeadGoes(r: Reg)
    requires Linked(r.calls) && r.calls != []
    ensures Terminate(r, r.calls[0]) == Report(r, r.calls[0], false).(calls := r.calls[1..])
    ensures Linked(r.calls[1..])
  {
    hide IpcUrl;
    assert Without(r.calls, 0) == r.calls[1..];
  }

  /** Shutdown ends with an empty list, having stopped and reported each call once, in order. */
  lemma {:induction false} HangupEmpties(r: Reg)
    requires Linked(r.calls)
    ensures HangupAll(r) == r.(calls := [], log := r.log + Goodbyes(r.calls))
    decreases |r.calls|
  {
    hide IpcUrl, Terminate;
    if r.calls == [] {
    } else {
      HeadGoes(r);
      HangupEmpties(Terminate(r, r.calls[0]));
    }
  }

  function Goodbyes(calls: seq<Call>): seq<Status> {
    if calls == [] then [] else [Status(Key(calls[0]), false)] + Goodbyes(calls[1..])
  }

  // ---------------------------------------------------------------- lookups agree

  /** Looking a camera up by the text of its address finds what looking up its address finds. */
  lemma ByUriIsByAddress(calls: seq<Call>, addr: string, port: int)
    requires (forall c <- calls :: Fits(c.addr, c.port)) && Fits(addr, port)
    ensures ByUri(calls, IpcUrl(addr, port)) == ByAddress(calls, addr, port)
  {
    hide IpcUrl;
    forall c <- calls ensures Key(c) == IpcUrl(addr, port) <==> c.addr == addr && c.port == port {
      IpcUrlInjective(c.addr, c.port, addr, port);
    }
    var i, j := ByUri(calls, IpcUrl(addr, port)), ByAddress(calls, addr, port);
    assert i < |calls| ==> calls[i] in calls;
    assert j < |calls| ==> calls[j] in calls;
  }

  // ---------------------------------------------------------------- ports

  /** All ports ever taken, by calls and live clients, are first ports of disjoint pairs, RTP and RTCP,
      below the next one to be taken; listed calls have different ones of them. */
  predicate PortsApart(r: Reg) {
    && (forall i, j :: 0 <= i < j < |r.ports| ==> r.ports[i] + 1 < r.ports[j])
    && (forall p <- r.ports :: p + 1 < r.nextPort)
    && (forall i, j :: 0 <= i < j < |r.calls| ==> r.calls[i].rtpPort < r.calls[j].rtpPort)
    && (forall c <- r.calls :: c.rtpPort in r.ports)
  }

  lemma DestroyPorts(r: Reg, index: nat)
    requires PortsApart(r)
    ensures PortsApart(Destroy(r, index))
  {
    hide IpcUrl;
  }

  lemma TouchPorts(r: Reg, i: nat, c: Call)
    requires PortsApart(r) && i < |r.calls| && c.rtpPort == r.calls[i].rtpPort
    ensures PortsApart(r.(calls := r.calls[i := c]))
  {
  }

  lemma TakePorts(r: Reg, step: int)
    requires PortsApart(r) && step >= 2
    ensures PortsApart(PortTaken(r, step))
    ensures r.nextPort in PortTaken(r, step).ports && forall c <- r.calls :: c.rtpPort < r.nextPort
  {
    assert forall i :: 0 <= i < |r.ports| ==> r.ports[i] in r.ports;
    assert forall p <- r.ports :: p in PortTaken(r, step).ports;
    assert PortTaken(r, step).ports[|r.ports|] == r.nextPort;
  }

  /** A call that is made on a port just taken. */
  lemma AddPorts(r: Reg, c: Call)
    requires PortsApart(r) && c.rtpPort in r.ports && forall d <- r.calls :: d.rtpPort < c.rtpPort
    ensures PortsApart(Report(r.(calls := r.calls + [c]), c, true))
  {
    hide Key;
    assert forall i :: 0 <= i < |r.calls| ==> r.calls[i] in r.calls;
  }

  lemma MessagePorts(r: Reg, addr: string, port: int, now: int, outcome: Outcome, step: int)
    requires PortsApart(r) && step >= 2
    ensures PortsApart(OnMessage(r, addr, port, now, outcome, step))
  {
    hide Destroy, Key, PortTaken, PortsApart, ByAddress;
    var i := ByAddress(r.calls, addr, port);
    if i < |r.calls| {
      TouchPorts(r, i, r.calls[i].(connected := now));
      var t := r.(calls := r.calls[i := r.calls[i].(connected := now)]);
      SamePorts(t, Report(r, r.calls[i], true).(calls := t.calls));
    } else {
      SamePorts(r, Drawn(r));
      TakePorts(Drawn(r), step);
      DestroyPorts(PortTaken(Drawn(r), step), r.issued % SERIALS);
      TakenFields(Drawn(r), step);
      AddPorts(PortTaken(Drawn(r), step), Call(addr, port, r.issued, r.nextPort, true, true, now, now));
    }
  }

  lemma TakenFields(r: Reg, step: int)
    ensures var n := PortTaken(r, step);
            n.calls == r.calls && n.nextPort == r.nextPort + step && n.ports == r.ports + [r.nextPort]
  {
  }

  /** A port step of two or more keeps them apart, whatever the order of events. */
  lemma StepPorts(r: Reg, e: Event, step: int)
    requires PortsApart(r) && step >= 2
    ensures PortsApart(Step(r, e, step))
  {
    hide Destroy, IpcUrl, OnMessage, PortsApart, PortTaken;
    match e
    case Message(addr, port, now, outcome) => MessagePorts(r, addr, port, now, outcome, step);
    case Disconnected(i) => if i < |r.calls| { DestroyPorts(r, Index(r.calls[i])); }
    case Confirmed(i, now) => if i < |r.calls| { TouchPorts(r, i, r.calls[i].(connected := now)); }
    case MediaUpdate(i, now, up, keyFrame) =>
      if i < |r.calls| {
        var j := ByIndex(r.calls, Index(r.calls[i]));
        var n := if j < |r.calls| && up then r.(calls := r.calls[j := r.calls[j].(active := now)]) else r;
        if j < |r.calls| { TouchPorts(r, j, r.calls[j].(active := now)); }
        SamePorts(n, Drawn(n));
      }
    case Rtp(i, now) => if i < |r.calls| { TouchPorts(r, i, r.calls[i].(active := now)); }
    case Alive(now, timeout) =>
      var i := FirstExpired(r.calls, now, timeout);
      if i < |r.calls| {
        DestroyPorts(r, Index(r.calls[i]));
        SamePorts(r, Report(r, r.calls[i], false));
        DestroyPorts(Report(r, r.calls[i], false), Index(r.calls[i]));
      }
    case DrawSerial => SamePorts(r, Drawn(r));
    case DrawPort => TakePorts(r, step);
  }

  lemma SamePorts(r: Reg, n: Reg)
    requires PortsApart(r) && n.calls == r.calls && n.nextPort == r.nextPort && n.ports == r.ports
    ensures PortsApart(n)
  {
  }

  lemma {:induction false} RunPorts(r: Reg, es: seq<Event>, step: int)
    requires PortsApart(r) && step >= 2
    ensures PortsApart(Run(r, es, step))
    decreases es
  {
    hide Step, PortsApart;
    if es == [] {
    } else {
      StepPorts(r, es[0], step);
      RunPorts(Step(r, es[0], step), es[1..], step);
    }
  }

  /** The n-th port taken is the first one and n steps more. */
  predicate PortsInSteps(r: Reg, startPort: int, step: int) {
    && r.nextPort == startPort + step * |r.ports|
    && forall n :: 0 <= n < |r.ports| ==> r.ports[n] == startPort + step * n
  }

  lemma StepTakesPorts(r: Reg, e: Event, startPort: int, step: int)
    requires PortsInSteps(r, startPort, step)
    ensures PortsInSteps(Step(r, e, step), startPort, step)
  {
    hide IpcUrl;
    assert step * |r.ports| + step == step * (|r.ports| + 1);
  }

  lemma {:induction false} RunTakesPorts(r: Reg, es: seq<Event>, startPort: int, step: int)
    requires PortsInSteps(r, startPort, step)
    ensures PortsInSteps(Run(r, es, step), startPort, step)
    decreases es
  {
    hide Step, PortsInSteps;
    if es == [] {
    } else {
      StepTakesPorts(r, es[0], startPort, step);
      RunTakesPorts(Step(r, es[0], step), es[1..], startPort, step);
    }
  }

  /** The RTP and RTCP ports of every call and live client of a run are real ports as long as all that
      were taken fit below 65536. */
  lemma PortsFit(startPort: int, es: seq<Event>, step: int)
    requires step >= 2 && startPort + step * |Run(Init(startPort), es, step).ports| <= 0x1_0000
    ensures forall p <- Run(Init(startPort), es, step).ports :: startPort <= p && p + 1 <= 0xffff
  {
    hide Step, Run;
    RunPorts(Init(startPort), es, step);
    RunTakesPorts(Init(startPort), es, startPort, step);
  }
}
