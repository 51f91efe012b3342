/** When a camera was last heard, and what a keepalive pass makes of it.

    Which events count as hearing a camera is said here once more, apart from the handlers that set
    the two times of a call, and in milliseconds and seconds as a camera's owner would count them. */
module Keepalive {
  import opened Keys
  import opened Registry

  /** What stays the same about a call as long as it is listed. */
  datatype Name = Name(addr: string, port: int, ord: nat)

  function NameOf(c: Call): Name { Name(c.addr, c.port, c.ord) }

  /** Two calls have one serial number. */
  predicate SameSerial(a: Call, b: Call) { a.ord % 0xffff_ffff == b.ord % 0xffff_ffff }

  /** The first of the calls with the serial of another one. */
  predicate FirstWithSerialOf(calls: seq<Call>, j: int, c: Call) {
    0 <= j < |calls| && SameSerial(calls[j], c) && forall k :: 0 <= k < j ==> !SameSerial(calls[k], c)
  }

  /** The camera speaks SIP: a MESSAGE from its address, or its session is confirmed. */
  predicate Speaks(r: Reg, e: Event, c: Name) {
    match e
    case Message(addr, port, _, _) => c.addr == addr && c.port == port
    case Confirmed(i, _) => i < |r.calls| && NameOf(r.calls[i]) == c
    case _ => false
  }

  /** The camera's media show: it is called, a packet comes in, or media come up, which is noted with
      the first call that has the session's serial. */
  predicate Streams(r: Reg, e: Event, c: Name) {
    match e
    case Message(addr, port, _, _) => c.addr == addr && c.port == port && forall d <- r.calls :: NameOf(d) != c
    case Rtp(i, _) => i < |r.calls| && NameOf(r.calls[i]) == c
    case MediaUpdate(i, _, up, _) =>
      up && i < |r.calls|
      && exists j :: 0 <= j < |r.calls| && FirstWithSerialOf(r.calls, j, r.calls[i]) && NameOf(r.calls[j]) == c
    case _ => false
  }

  function Time(e: Event): int {
    match e
    case Message(_, _, now, _) => now
    case Confirmed(_, now) => now
    case MediaUpdate(_, now, _, _) => now
    case Rtp(_, now) => now
    case _ => 0
  }

  /** When the camera last spoke in a run from the start. */
  function LastSpoke(startPort: int, es: seq<Event>, step: int, c: Name): int
    decreases |es|
  {
    if es == [] then 0
    else
      var k := |es| - 1;
      if Speaks(Run(Init(startPort), es[..k], step), es[k], c) then Time(es[k])
      else LastSpoke(startPort, es[..k], step, c)
  }

  /** When its media last showed. */
  function LastStreamed(startPort: int, es: seq<Event>, step: int, c: Name): int
    decreases |es|
  {
    if es == [] then 0
    else
      var k := |es| - 1;
      if Streams(Run(Init(startPort), es[..k], step), es[k], c) then Time(es[k])
      else LastStreamed(startPort, es[..k], step, c)
  }

  // ---------------------------------------------------------------- one step

  lemma FirstIs(calls: seq<Call>, c: Call, j: nat)
    ensures FirstWithSerialOf(calls, j, c) <==> j == ByIndex(calls, Index(c)) && j < |calls|
  {
  }

  lemma InRest(calls: seq<Call>, i: nat, c: Call)
    requires i < |calls| && c in Without(calls, i)
    ensures c in calls
  {
  }

  lemma InDestroyed(r: Reg, index: nat, c: Call)
    requires c in Destroy(r, index).calls
    ensures c in r.calls
  {
    hide IpcUrl;
    var i := ByIndex(r.calls, index);
    if i < |r.calls| {
      InRest(r.calls, i, c);
    }
  }

  /** Of pairwise different cameras, an update touches the one at its place. */
  lemma Touched(calls: seq<Call>, i: nat, d: Call, c: Call) returns (o: Call)
    requires DistinctCalls(calls) && i < |calls| && NameOf(d) == NameOf(calls[i]) && c in calls[i := d]
    ensures o in calls && NameOf(o) == NameOf(c)
    ensures if NameOf(c) == NameOf(calls[i]) then c == d && o == calls[i] else o == c
  {
    hide IpcUrl;
    var k :| 0 <= k < |calls| && calls[i := d][k] == c;
    o := calls[k];
  }

  lemma MessageClocks(r: Reg, e: Event, step: int, c: Call) returns (o: Call)
    requires Apart(r) && e.Message? && Addressed(e) && c in Step(r, e, step).calls
    ensures Speaks(r, e, NameOf(c)) ==> c.connected == e.now
    ensures Streams(r, e, NameOf(c)) ==> c.active == e.now
    ensures !Speaks(r, e, NameOf(c)) ==> o in r.calls && NameOf(o) == NameOf(c) && o.connected == c.connected
    ensures !Streams(r, e, NameOf(c)) ==> o in r.calls && NameOf(o) == NameOf(c) && o.active == c.active
  {
    var i := ByAddress(r.calls, e.addr, e.port);
    assert forall d <- r.calls :: d.ord < r.issued;
    hide IpcUrl, Destroy, Sound;
    o := c;
    if i < |r.calls| {
      o := Touched(r.calls, i, r.calls[i].(connected := e.now), c);
      if Speaks(r, e, NameOf(c)) {
        SameCamera(r.calls, o, r.calls[i]);
      }
    } else {
      var n := PortTaken(Drawn(r), step);
      NoneAt(r.calls, e.addr, e.port);
      if e.outcome.InviteFails? && e.outcome.terminates && c !in r.calls {
        InDestroyed(n, r.issued % SERIALS, c);
      }
    }
  }

  lemma SameCamera(calls: seq<Call>, a: Call, b: Call)
    requires DistinctCalls(calls) && a in calls && b in calls && a.addr == b.addr && a.port == b.port
    ensures a == b
  {
  }

  lemma NoneAt(calls: seq<Call>, addr: string, port: int)
    requires ByAddress(calls, addr, port) == |calls|
    ensures forall c <- calls :: !(c.addr == addr && c.port == port)
  {
  }

  lemma MediaClocks(r: Reg, e: Event, step: int, c: Call) returns (o: Call)
    requires Apart(r) && e.MediaUpdate? && c in Step(r, e, step).calls
    ensures o in r.calls && NameOf(o) == NameOf(c) && o.connected == c.connected
    ensures c.active == if Streams(r, e, NameOf(c)) then e.now else o.active
  {
    assert forall d <- r.calls :: d.back;
    hide IpcUrl, Sound, First;
    o := c;
    if e.i < |r.calls| {
      assert r.calls[e.i] in r.calls;
      var j := ByIndex(r.calls, Index(r.calls[e.i]));
      forall k: nat ensures FirstWithSerialOf(r.calls, k, r.calls[e.i]) <==> k == j && j < |r.calls| {
        FirstIs(r.calls, r.calls[e.i], k);
      }
      if j < |r.calls| && e.up {
        o := Touched(r.calls, j, r.calls[j].(active := e.now), c);
      }
    }
  }

  /** One step sets the time of whoever it hears, and no other; who is listed after it and was not
      heard was listed before, with the same times. */
  lemma StepClocks(r: Reg, e: Event, step: int, c: Call) returns (o: Call)
    requires Apart(r) && Addressed(e) && c in Step(r, e, step).calls
    ensures Speaks(r, e, NameOf(c)) ==> c.connected == Time(e)
    ensures Streams(r, e, NameOf(c)) ==> c.active == Time(e)
    ensures !Speaks(r, e, NameOf(c)) ==> o in r.calls && NameOf(o) == NameOf(c) && o.connected == c.connected
    ensures !Streams(r, e, NameOf(c)) ==> o in r.calls && NameOf(o) == NameOf(c) && o.active == c.active
  {
    hide IpcUrl, Destroy, First;
    assert forall d <- r.calls :: d.back;
    o := c;
    match e
    case Message(_, _, _, _) => o := MessageClocks(r, e, step, c);
    case MediaUpdate(_, _, _, _) => o := MediaClocks(r, e, step, c);
    case Confirmed(i, now) =>
      if i < |r.calls| {
        assert r.calls[i] in r.calls;
        o := Touched(r.calls, i, r.calls[i].(connected := now), c);
      }
    case Rtp(i, now) =>
      if i < |r.calls| {
        o := Touched(r.calls, i, r.calls[i].(active := now), c);
      }
    case Disconnected(i) =>
      if i < |r.calls| && r.calls[i].back {
        InDestroyed(r, Index(r.calls[i]), c);
      }
    case Alive(now, timeout) =>
      var i := FirstExpired(r.calls, now, timeout);
      if i < |r.calls| && r.calls[i].session && r.calls[i].back {
        var said := if Stale(r.calls[i], now, timeout) then Report(r, r.calls[i], false) else r;
        InDestroyed(said, Index(r.calls[i]), c);
      }
    case DrawSerial =>
    case DrawPort =>
  }

  // ---------------------------------------------------------------- whole runs

  lemma RunLast(r: Reg, es: seq<Event>, step: int)
    requires es != []
    ensures Run(r, es, step) == Step(Run(r, es[..|es| - 1], step), es[|es| - 1], step)
  {
    hide Step;
    var k := |es| - 1;
    assert es == es[..k] + [es[k]];
    RunConcat(r, es[..k], [es[k]], step);
    var n := Run(r, es[..k], step);
    assert Run(n, [es[k]], step) == Run(Step(n, es[k], step), [], step);
  }

  lemma RunApart(startPort: int, es: seq<Event>, step: int)
    requires forall e <- es :: Addressed(e)
    ensures Apart(Run(Init(startPort), es, step))
  {
    InitInv(startPort);
    hide Run, Agrees, Apart, Addressed;
    RunCautious(Init(startPort), es, step);
  }

  /** After every run the two times of a listed call are when its camera last spoke and when its media
      last showed. */
  lemma {:induction false} ClocksTell(startPort: int, es: seq<Event>, step: int, c: Call)
    requires (forall e <- es :: Addressed(e)) && c in Run(Init(startPort), es, step).calls
    ensures c.connected == LastSpoke(startPort, es, step, NameOf(c))
    ensures c.active == LastStreamed(startPort, es, step, NameOf(c))
    decreases |es|
  {
    if es == [] {
    } else {
      hide Step, Run, Speaks, Streams, Apart, Addressed;
      var k := |es| - 1;
      var r := Run(Init(startPort), es[..k], step);
      assert es[k] in es && forall e <- es[..k] :: e in es;
      RunLast(Init(startPort), es, step);
      RunApart(startPort, es[..k], step);
      var o := StepClocks(r, es[k], step, c);
      if !(Speaks(r, es[k], NameOf(c)) && Streams(r, es[k], NameOf(c))) {
        ClocksTell(startPort, es[..k], step, o);
      }
    }
  }

  // ---------------------------------------------------------------- the pass

  /** The camera has not spoken, or its media have not shown, for longer than the timeout in seconds;
      a negative timeout is one of 120 seconds. */
  predicate TooOld(startPort: int, es: seq<Event>, step: int, c: Call, now: int, timeout: int) {
    var limit := 1000 * (if timeout < 0 then 120 else timeout);
    now - LastSpoke(startPort, es, step, NameOf(c)) > limit || now - LastStreamed(startPort, es, step, NameOf(c)) > limit
  }

  lemma ExpiredTells(startPort: int, es: seq<Event>, step: int, now: int, timeout: int)
    requires forall e <- es :: Addressed(e)
    ensures var r := Run(Init(startPort), es, step);
            Linked(r.calls)
            && forall c <- r.calls :: Expired(c, now, timeout) <==> TooOld(startPort, es, step, c, now, timeout)
  {
    var r := Run(Init(startPort), es, step);
    RunApart(startPort, es, step);
    assert forall c <- r.calls :: c.session && c.back;
    hide Run, Apart, LastSpoke, LastStreamed, Addressed;
    forall c <- r.calls ensures Expired(c, now, timeout) <==> TooOld(startPort, es, step, c, now, timeout) {
      ClocksTell(startPort, es, step, c);
    }
  }

  lemma PassIs(r: Reg, now: int, timeout: int, i: nat, j: nat)
    requires Linked(r.calls) && i < |r.calls| && Expired(r.calls[i], now, timeout)
    requires forall k :: 0 <= k < i ==> !Expired(r.calls[k], now, timeout)
    requires FirstWithSerialOf(r.calls, j, r.calls[i])
    ensures AlivePass(r, now, timeout).calls == r.calls[..j] + r.calls[j + 1..]
  {
    FirstExpiredIs(r.calls, now, timeout);
    PassRemoves(r, now, timeout);
    FirstIs(r.calls, r.calls[i], j);
    hide Expired, AlivePass, FirstExpired, ByIndex, Linked;
    assert FirstExpired(r.calls, now, timeout) == i;
  }

  lemma PassIdle(r: Reg, now: int, timeout: int)
    requires Linked(r.calls) && forall c <- r.calls :: !Expired(c, now, timeout)
    ensures AlivePass(r, now, timeout) == r
  {
    FirstExpiredIs(r.calls, now, timeout);
    hide Expired, FirstExpired;
    assert forall k :: 0 <= k < |r.calls| ==> r.calls[k] in r.calls;
  }

  /** After any run, a keepalive pass takes no call off the list if every camera spoke and streamed
      within the timeout. Otherwise it takes one off: the first call that has the serial of the first
      camera that did not. */
  lemma PassByClock(startPort: int, es: seq<Event>, step: int, now: int, timeout: int)
    requires forall e <- es :: Addressed(e)
    ensures var calls := Run(Init(startPort), es, step).calls;
            var after := Step(Run(Init(startPort), es, step), Alive(now, timeout), step).calls;
            && ((forall c <- calls :: !TooOld(startPort, es, step, c, now, timeout)) ==> after == calls)
            && (forall i, j ::
                  0 <= i < |calls| && TooOld(startPort, es, step, calls[i], now, timeout)
                  && (forall k :: 0 <= k < i ==> !TooOld(startPort, es, step, calls[k], now, timeout))
                  && FirstWithSerialOf(calls, j, calls[i])
                  ==> after == calls[..j] + calls[j + 1..])
  {
    var r := Run(Init(startPort), es, step);
    ExpiredTells(startPort, es, step, now, timeout);
    hide *;
    PassStep(r, now, timeout, step);
    if forall c <- r.calls :: !TooOld(startPort, es, step, c, now, timeout) {
      PassIdle(r, now, timeout);
    }
    assert forall k :: 0 <= k < |r.calls| ==> r.calls[k] in r.calls;
    forall i, j | 0 <= i < |r.calls| && TooOld(startPort, es, step, r.calls[i], now, timeout)
                  && (forall k :: 0 <= k < i ==> !TooOld(startPort, es, step, r.calls[k], now, timeout))
                  && FirstWithSerialOf(r.calls, j, r.calls[i])
      ensures 0 <= j < |r.calls| && Step(r, Alive(now, timeout), step).calls == r.calls[..j] + r.calls[j + 1..]
    {
      FirstAt(r.calls, j, r.calls[i]);
      PassIs(r, now, timeout, i, j);
    }
  }

  lemma PassStep(r: Reg, now: int, timeout: int, step: int)
    ensures Step(r, Alive(now, timeout), step) == AlivePass(r, now, timeout)
  {
  }

  lemma FirstAt(calls: seq<Call>, j: int, c: Call)
    requires FirstWithSerialOf(calls, j, c)
    ensures 0 <= j < |calls|
  {
  }

  lemma FreshInPass(r: Reg, now: int, timeout: int, c: Call)
    requires Linked(r.calls) && c in r.calls && !Expired(c, now, timeout)
    requires forall d <- r.calls :: SameSerial(d, c) ==> d == c
    ensures c in AlivePass(r, now, timeout).calls
  {
    var i := FirstExpired(r.calls, now, timeout);
    FirstExpiredIs(r.calls, now, timeout);
    PassRemoves(r, now, timeout);
    hide Expired, AlivePass, FirstExpired, Linked, ByIndex;
    if i < |r.calls| {
      assert r.calls[i] in r.calls;
      ByIndexIs(r.calls, i);
      var j := ByIndex(r.calls, Index(r.calls[i]));
      assert r.calls[j] in r.calls && SameSerial(r.calls[j], r.calls[i]);
      assert r.calls[j] != c;
      InWithout(r.calls, j, c);
    }
  }

  lemma InWithout(calls: seq<Call>, j: nat, c: Call)
    requires j < |calls| && c in calls && calls[j] != c
    ensures c in Without(calls, j)
  {
    var k :| 0 <= k < |calls| && calls[k] == c;
    assert Without(calls, j)[if k < j then k else k - 1] == c;
  }

  /** In particular a camera that spoke and streamed within the timeout stays listed if no other listed
      call has its serial, as is the case while no call lives through 2^32 - 1 serials. */
  lemma FreshStays(startPort: int, es: seq<Event>, step: int, now: int, timeout: int, c: Call)
    requires (forall e <- es :: Addressed(e)) && c in Run(Init(startPort), es, step).calls
    requires !TooOld(startPort, es, step, c, now, timeout)
    requires forall d <- Run(Init(startPort), es, step).calls :: SameSerial(d, c) ==> d == c
    ensures c in Step(Run(Init(startPort), es, step), Alive(now, timeout), step).calls
  {
    var r := Run(Init(startPort), es, step);
    ExpiredTells(startPort, es, step, now, timeout);
    hide *;
    PassStep(r, now, timeout, step);
    FreshInPass(r, now, timeout, c);
  }

  lemma NoneShadow(r: Reg, now: int, timeout: int)
    requires Apart(r) && InWindow(r)
    ensures NoneShadowed(r.calls, now, timeout)
  {
    hide Expired, Key;
    forall j, i | 0 <= j < i < |r.calls| ensures Index(r.calls[j]) != Index(r.calls[i]) {
      assert r.calls[j] in r.calls && r.calls[i] in r.calls;
      SerialsDistinct(r.calls[i].ord, r.calls[j].ord);
      SerialsDistinct(r.calls[j].ord, r.calls[i].ord);
    }
  }

  /** While no listed call has lived through 2^32 - 1 serials, as many passes at one instant as there
      are calls take exactly those off the list that did not speak or did not stream within the timeout. */
  lemma PassesByClock(startPort: int, es: seq<Event>, step: int, now: int, timeout: int, n: nat)
    requires (forall e <- es :: Addressed(e)) && InWindow(Run(Init(startPort), es, step))
    requires n >= |Run(Init(startPort), es, step).calls|
    ensures var r := Run(Init(startPort), es, step);
            forall c :: c in Passes(r, now, timeout, n).calls
                        <==> c in r.calls && !TooOld(startPort, es, step, c, now, timeout)
  {
    var r := Run(Init(startPort), es, step);
    hide *;
    RunApart(startPort, es, step);
    NoneShadow(r, now, timeout);
    ExpiredTells(startPort, es, step, now, timeout);
    PassesDrain(r, now, timeout, n);
    FreshIs(r.calls, now, timeout);
  }

  lemma FreshIs(calls: seq<Call>, now: int, timeout: int)
    requires Linked(calls)
    ensures var limit := 1000 * (if timeout < 0 then 120 else timeout);
            forall c <- calls :: Expired(c, now, timeout) <==> !(now - c.connected <= limit && now - c.active <= limit)
  {
    forall c <- calls ensures c.session {
    }
  }
}
