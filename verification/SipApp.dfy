/** The SIP side as it runs: a list of calls, a map of prepared responses and two counters. */
module SipApplication {
  import Bytes
  import opened Keys
  import opened Registry
  import A = Application
  import C = Channels
  import P = Registrations

  class IpcCall {
    const index: nat
    const ipcAddr: string
    const ipcPort: int
    const localRtpPort: int
    /** Whether the call has a SIP session, and whether that session points back to the call. */
    var inv: bool
    var back: bool
    var connectTime: int
    var activeTm: int

    constructor (ipcAddr: string, ipcPort: int, localRtpPort: int, index: nat, now: int)
      ensures this.ipcAddr == ipcAddr && this.ipcPort == ipcPort
      ensures this.localRtpPort == localRtpPort && this.index == index
      ensures !inv && !back && connectTime == 0 && activeTm == now
    {
      this.ipcAddr, this.ipcPort, this.localRtpPort, this.index := ipcAddr, ipcPort, localRtpPort, index;
      inv, back, connectTime, activeTm := false, false, 0, now;
    }

    ghost predicate Is(c: Call)
      reads this
    {
      && ipcAddr == c.addr && ipcPort == c.port && localRtpPort == c.rtpPort && index == Index(c)
      && inv == c.session && back == c.back && connectTime == c.connected && activeTm == c.active
    }
  }

  /** The list of objects is the list of calls, no object twice. */
  ghost predicate CallsOk(objs: seq<IpcCall>, calls: seq<Call>)
    reads objs
  {
    && |objs| == |calls|
    && (forall i :: 0 <= i < |objs| ==> objs[i].Is(calls[i]))
    && (forall i, j :: 0 <= i < j < |objs| ==> objs[i] != objs[j])
  }

  lemma CallsWithout(objs: seq<IpcCall>, calls: seq<Call>, i: nat)
    requires CallsOk(objs, calls) && i < |objs|
    ensures CallsOk(objs[..i] + objs[i + 1..], Without(calls, i))
  {
    var o, c := objs[..i] + objs[i + 1..], Without(calls, i);
    forall j | 0 <= j < |o| ensures o[j].Is(c[j]) {
      assert objs[if j < i then j else j + 1].Is(calls[if j < i then j else j + 1]);
    }
  }

  /** A loop that stops at a position has found the first one. */
  lemma FirstIs(calls: seq<Call>, p: Call -> bool, i: nat)
    requires i <= |calls| && (forall j :: 0 <= j < i ==> !p(calls[j])) && (i < |calls| ==> p(calls[i]))
    ensures First(calls, p) == i
  {
    var _ := First(calls, p);
  }

  /** How calling a camera ends. */
  function Result(starts: bool, invited: bool, terminates: bool): Outcome {
    if !starts then StartFails else if invited then Invited else InviteFails(terminates)
  }

  class SipApp {
    const portStep: int
    /** Whether cameras send over UDP. */
    const udp: bool
    var lstCall: seq<IpcCall>
    /** Prepared registration responses, by serial; each knows the address it goes to. */
    var mapRspData: map<nat, string>
    var snVal: nat
    var rtpNextPort: int
    /** What has been published and sent: status reports, registration requests, responses. */
    var statusLog: seq<Status>
    var requestLog: seq<(nat, string)>
    var responses: seq<(string, int)>
    /** What the channel manager has been asked to do, call by call. */
    var toMgr: seq<C.Event>
    ghost var reg: Reg
    ghost var pend: P.Pend

    ghost function Config(): A.Config { A.Config(udp, portStep) }

    ghost predicate Valid()
      reads this, lstCall
    {
      && CallsOk(lstCall, reg.calls)
      && snVal == reg.issued % SERIALS && reg.issued == pend.issued
      && rtpNextPort == reg.nextPort && statusLog == reg.log
      && PendingOk()
    }

    ghost predicate PendingOk()
      reads this
    {
      && mapRspData.Keys == pend.store.Keys && (forall sn <- mapRspData :: mapRspData[sn] == pend.store[sn].addr)
      && |requestLog| == |pend.published| && |responses| == |pend.answers|
      && (forall i :: 0 <= i < |requestLog| ==>
            requestLog[i] == (P.Serial(pend.published[i]), pend.published[i].addr))
      && (forall i :: 0 <= i < |responses| ==> responses[i] == (pend.answers[i].addr, pend.answers[i].status))
    }

    constructor (startPort: int, portStep: int, udp: bool)
      ensures Valid() && reg == Init(startPort) && pend == P.Start(0) && lstCall == [] && toMgr == []
      ensures this.portStep == portStep && this.udp == udp
    {
      this.portStep, this.udp := portStep, udp;
      lstCall, mapRspData, snVal, rtpNextPort := [], map[], 0, startPort;
      statusLog, requestLog, responses, toMgr := [], [], [], [];
      reg, pend := Init(startPort), P.Start(0);
    }

    // -------------------------------------------------------------- counters

    /** Draws the next serial, for a registration or for something else; the counter never shows
        UINT_MAX. */
    method CreateSn(ghost use: P.Act) returns (val: nat)
      requires Valid() && (use.OtherDraw? || (use.Draw? && pend.flight.Ready?))
      modifies this`snVal, this`reg, this`pend
      ensures Valid()
      ensures val == old(reg.issued) % 0xffff_ffff && reg == Drawn(old(reg)) && pend == P.Do(old(pend), use)
      ensures reg.issued == old(reg.issued) + 1
    {
      val := snVal;
      snVal := (snVal + 1) % 0x1_0000_0000;
      if snVal >= 0xffff_ffff {
        snVal := 0;
      }
      reg, pend := Drawn(reg), P.Do(pend, use);
    }

    method CreateNextRtpPort() returns (port: int)
      requires Valid()
      modifies this`rtpNextPort, this`reg
      ensures Valid()
      ensures port == old(reg.nextPort) && reg == Step(old(reg), DrawPort, portStep)
    {
      port := rtpNextPort;
      rtpNextPort := rtpNextPort + portStep;
      reg := Step(reg, DrawPort, portStep);
    }

    // -------------------------------------------------------------- lookups

    method FindCallByAddrAndPort(addr: string, port: int) returns (call: IpcCall?)
      requires Valid()
      ensures var i := ByAddress(reg.calls, addr, port); call == if i < |lstCall| then lstCall[i] else null
    {
      ghost var p := (c: Call) => c.addr == addr && c.port == port;
      for i := 0 to |lstCall|
        invariant forall j :: 0 <= j < i ==> !p(reg.calls[j])
      {
        assert lstCall[i].Is(reg.calls[i]);
        if lstCall[i].ipcAddr == addr && lstCall[i].ipcPort == port {
          FirstIs(reg.calls, p, i);
          return lstCall[i];
        }
      }
      FirstIs(reg.calls, p, |lstCall|);
      return null;
    }

    method FindCallByUri(uri: string) returns (call: IpcCall?)
      requires Valid()
      ensures var i := ByUri(reg.calls, uri); call == if i < |lstCall| then lstCall[i] else null
    {
      hide IpcUrl;
      ghost var p := (c: Call) => Key(c) == uri;
      for i := 0 to |lstCall|
        invariant forall j :: 0 <= j < i ==> !p(reg.calls[j])
      {
        assert lstCall[i].Is(reg.calls[i]);
        if IpcUrl(lstCall[i].ipcAddr, lstCall[i].ipcPort) == uri {
          FirstIs(reg.calls, p, i);
          return lstCall[i];
        }
      }
      FirstIs(reg.calls, p, |lstCall|);
      return null;
    }

    method FindCallByIndex(index: nat) returns (call: IpcCall?)
      requires Valid()
      ensures var i := ByIndex(reg.calls, index); call == if i < |lstCall| then lstCall[i] else null
    {
      ghost var p := (c: Call) => Index(c) == index;
      for i := 0 to |lstCall|
        invariant forall j :: 0 <= j < i ==> !p(reg.calls[j])
      {
        assert lstCall[i].Is(reg.calls[i]);
        if lstCall[i].index == index {
          FirstIs(reg.calls, p, i);
          return lstCall[i];
        }
      }
      FirstIs(reg.calls, p, |lstCall|);
      return null;
    }

    // -------------------------------------------------------------- the end of a call

    method ReportIpcStatus(addr: string, port: int, on: bool)
      modifies this`statusLog
      ensures statusLog == old(statusLog) + [Status(IpcUrl(addr, port), on)]
    {
      statusLog := statusLog + [Status(IpcUrl(addr, port), on)];
    }

    /** Stops a call: over UDP its channel goes. */
    method StopCall(call: IpcCall)
      modifies this`toMgr
      ensures toMgr == old(toMgr) + A.Stopped(Config(), call.ipcAddr, call.ipcPort)
    {
      if udp {
        toMgr := toMgr + [C.Remove(call.ipcAddr, call.ipcPort)];
      }
    }

    /** Takes a call out of the list, once it is reported and stopped. */
    method Unlist(i: nat)
      requires Valid() && i < |lstCall|
      modifies this`lstCall, this`statusLog, this`toMgr, this`reg
      ensures Valid() && reg == Report(old(reg), old(reg).calls[i], false).(calls := Without(old(reg).calls, i))
      ensures toMgr == old(toMgr) + A.Stopped(Config(), old(reg).calls[i].addr, old(reg).calls[i].port)
      ensures forall c <- lstCall :: c in old(lstCall)
    {
      hide IpcUrl, Without, A.Stopped;
      assert lstCall[i].Is(reg.calls[i]);
      CallsWithout(lstCall, reg.calls, i);
      ReportIpcStatus(lstCall[i].ipcAddr, lstCall[i].ipcPort, false);
      StopCall(lstCall[i]);
      lstCall := lstCall[..i] + lstCall[i + 1..];
      reg := Report(reg, reg.calls[i], false).(calls := Without(reg.calls, i));
    }

    /** Reports, stops and deletes the first call with the index. */
    method DestroyCallMedia(index: nat)
      requires Valid()
      modifies this`lstCall, this`statusLog, this`toMgr, this`reg
      ensures Valid() && reg == Destroy(old(reg), index)
      ensures toMgr == old(toMgr) + A.Ended(Config(), old(reg).calls, index)
      ensures forall c <- lstCall :: c in old(lstCall)
    {
      hide IpcUrl, Without, A.Stopped;
      ghost var p := (c: Call) => Index(c) == index;
      var i := 0;
      while i < |lstCall| && lstCall[i].index != index
        invariant i <= |lstCall|
        invariant forall j :: 0 <= j < i ==> !p(reg.calls[j])
      {
        assert lstCall[i].Is(reg.calls[i]);
        i := i + 1;
      }
      FirstIs(reg.calls, p, i);
      if i < |lstCall| {
        assert lstCall[i].Is(reg.calls[i]);
        Unlist(i);
      }
    }

    /** A session has ended: the disconnect handler goes from the session to the call. */
    method OnDisconnected(call: IpcCall, ghost i: nat)
      requires Valid() && i < |lstCall| && call == lstCall[i]
      modifies this`lstCall, this`statusLog, this`toMgr, this`reg
      ensures Valid() && reg == Step(old(reg), Disconnected(i), portStep)
      ensures toMgr == old(toMgr) + A.SipEmits(Config(), old(reg), Disconnected(i))
      ensures forall c <- lstCall :: c in old(lstCall)
    {
      hide IpcUrl, Destroy, A.Ended;
      assert call.Is(reg.calls[i]);
      if call.back {
        DestroyCallMedia(call.index);
      }
    }

    /** pjsip_inv_terminate, which runs the disconnect handler before it returns. */
    method TerminateSession(call: IpcCall, ghost i: nat)
      requires Valid() && i < |lstCall| && call == lstCall[i]
      modifies this`lstCall, this`statusLog, this`toMgr, this`reg
      ensures Valid() && reg == Terminate(old(reg), old(reg).calls[i])
      ensures var c := old(reg).calls[i];
              toMgr == old(toMgr) + if c.session && c.back then A.Ended(Config(), old(reg).calls, Index(c)) else []
      ensures forall c <- lstCall :: c in old(lstCall)
    {
      hide IpcUrl, Destroy, A.Ended;
      assert call.Is(reg.calls[i]);
      if call.inv && call.back {
        DestroyCallMedia(call.index);
      }
    }

    /** The first expired call goes, a stale one after an extra report. */
    method Expire(call: IpcCall, ghost i: nat, stale: bool, ghost now: int, ghost configured: int)
      requires Valid() && i < |lstCall| && call == lstCall[i] && i == FirstExpired(reg.calls, now, configured)
      requires stale == Stale(reg.calls[i], now, configured)
      modifies this`lstCall, this`statusLog, this`toMgr, this`reg
      ensures Valid() && reg == AlivePass(old(reg), now, configured)
      ensures toMgr == old(toMgr) + A.SipEmits(Config(), old(reg), Alive(now, configured))
    {
      hide IpcUrl, Terminate, A.Ended, First, Stale;
      assert call.Is(reg.calls[i]);
      if stale {
        ReportIpcStatus(call.ipcAddr, call.ipcPort, false);
        reg := Report(reg, reg.calls[i], false);
      }
      TerminateSession(call, i);
    }

    /** One pass of the keepalive thread: at most one call goes. */
    method CheckAlive(now: int, configured: int)
      requires Valid()
      modifies this`lstCall, this`statusLog, this`toMgr, this`reg
      ensures Valid() && reg == AlivePass(old(reg), now, configured)
      ensures toMgr == old(toMgr) + A.SipEmits(Config(), old(reg), Alive(now, configured))
    {
      hide Key, Terminate, A.Ended;
      var timeOut := if configured < 0 then 120 else configured;
      ghost var p := (c: Call) => Expired(c, now, configured);
      var i := 0;
      while i < |lstCall|
        invariant i <= |lstCall| && Valid() && reg == old(reg) && lstCall == old(lstCall) && toMgr == old(toMgr)
        invariant forall j :: 0 <= j < i ==> !p(reg.calls[j])
      {
        var call := lstCall[i];
        assert call.Is(reg.calls[i]);
        var stale := now - call.connectTime > timeOut * 1000;
        if stale || (now - call.activeTm > timeOut * 1000 && call.inv) {
          FirstIs(reg.calls, p, i);
          Expire(call, i, stale, now, configured);
          return;
        }
        i := i + 1;
      }
      FirstIs(reg.calls, p, |lstCall|);
    }

    /** Terminates the head of the list until the list is empty. */
    method Hangup()
      requires Valid() && Linked(reg.calls)
      modifies this`lstCall, this`statusLog, this`toMgr, this`reg
      ensures Valid() && lstCall == [] && toMgr == old(toMgr) + A.StopAll(Config(), old(reg).calls)
      ensures reg == old(reg).(calls := [], log := old(reg).log + Goodbyes(old(reg).calls))
    {
      hide IpcUrl, Terminate, A.Ended, A.Stopped;
      HangupEmpties(reg);
      while |lstCall| > 0
        invariant Valid() && Linked(reg.calls)
        invariant HangupAll(reg) == HangupAll(old(reg))
        invariant toMgr + A.StopAll(Config(), reg.calls) == old(toMgr) + A.StopAll(Config(), old(reg).calls)
        decreases |lstCall|
      {
        HeadGoes(reg);
        assert lstCall[0].Is(reg.calls[0]) && reg.calls[0] in reg.calls;
        A.HeadStops(Config(), reg.calls);
        if lstCall[0].inv {
          TerminateSession(lstCall[0], 0);
        }
      }
    }

    // -------------------------------------------------------------- the life of a call

    /** New times for the call at a position. */
    ghost method Touch(i: nat, c: Call)
      requires i < |lstCall| == |reg.calls| && lstCall[i].Is(c)
      requires c == reg.calls[i].(connected := c.connected, active := c.active)
      requires forall j :: 0 <= j < |lstCall| && j != i ==> lstCall[j].Is(reg.calls[j])
      requires forall j, k :: 0 <= j < k < |lstCall| ==> lstCall[j] != lstCall[k]
      requires snVal == reg.issued % SERIALS && reg.issued == pend.issued
      requires rtpNextPort == reg.nextPort && statusLog == reg.log && PendingOk()
      modifies this`reg
      ensures Valid() && reg == old(reg).(calls := old(reg).calls[i := c])
    {
      reg := reg.(calls := reg.calls[i := c]);
    }

    /** A MESSAGE with a device id: a listed camera is refreshed, a new one is called. `starts` says
        whether its media come up, `invited` whether the INVITE goes out and, if not, `terminates`
        whether its session has to be terminated. */
    method HandleOtherMessageRequest(addr: string, port: int, now: int, starts: bool, invited: bool, terminates: bool)
      requires Valid()
      modifies this, lstCall
      ensures Valid() && mapRspData == old(mapRspData)
      ensures var e := Message(addr, port, now, Result(starts, invited, terminates));
              reg == Step(old(reg), e, portStep) && toMgr == old(toMgr) + A.SipEmits(Config(), old(reg), e)
      ensures pend == if ByAddress(old(reg).calls, addr, port) < |old(reg).calls| then old(pend)
                      else P.Do(old(pend), P.OtherDraw)
    {
      hide IpcUrl, A.Called;
      var obj := FindCallByAddrAndPort(addr, port);
      if obj == null {
        Call(addr, port, now, starts, invited, terminates);
      } else {
        Refresh(addr, port, now, obj);
      }
    }

    method Refresh(addr: string, port: int, now: int, obj: IpcCall)
      requires Valid() && ByAddress(reg.calls, addr, port) < |lstCall|
      requires obj == lstCall[ByAddress(reg.calls, addr, port)]
      modifies this`reg, this`statusLog, lstCall
      ensures Valid()
      ensures var i := ByAddress(old(reg).calls, addr, port);
              i < |old(reg).calls| && reg == Report(old(reg), old(reg).calls[i], true)
                .(calls := old(reg).calls[i := old(reg).calls[i].(connected := now)])
    {
      hide IpcUrl;
      ghost var i := ByAddress(reg.calls, addr, port);
      assert forall j :: 0 <= j < |lstCall| ==> lstCall[j].Is(reg.calls[j]);
      obj.connectTime := now;
      Touch(i, reg.calls[i].(connected := now));
      ReportIpcStatus(obj.ipcAddr, obj.ipcPort, true);
      reg := Report(reg, reg.calls[i], true);
    }

    method Call(addr: string, port: int, now: int, starts: bool, invited: bool, terminates: bool)
      requires Valid() && ByAddress(reg.calls, addr, port) == |reg.calls|
      modifies this
      ensures Valid() && mapRspData == old(mapRspData)
      ensures reg == OnMessage(old(reg), addr, port, now, Result(starts, invited, terminates), portStep)
      ensures toMgr == old(toMgr) + A.Called(Config(), old(reg), addr, port, Result(starts, invited, terminates))
      ensures pend == P.Do(old(pend), P.OtherDraw)
    {
      hide IpcUrl, Destroy, A.Ended, A.Stopped, P.Do;
      var obj := NewCall(addr, port, now);
      if starts {
        if invited {
          List(obj, now);
        } else {
          if terminates {
            DestroyCallMedia(obj.index);
          }
          StopCall(obj);
        }
      }
    }

    /** A call on the next port with the next serial; constructing it adds the camera's channel. */
    method NewCall(addr: string, port: int, now: int) returns (obj: IpcCall)
      requires Valid()
      modifies this`rtpNextPort, this`snVal, this`toMgr, this`reg, this`pend
      ensures Valid() && fresh(obj) && reg == PortTaken(Drawn(old(reg)), portStep)
      ensures pend == P.Do(old(pend), P.OtherDraw) && toMgr == old(toMgr) + [C.Add(addr, port, "")]
      ensures obj.ipcAddr == addr && obj.ipcPort == port && obj.localRtpPort == old(reg).nextPort
      ensures obj.index == old(reg).issued % SERIALS && obj.activeTm == now && !obj.inv && !obj.back
    {
      hide P.Do;
      var rtpPort := CreateNextRtpPort();
      var sn := CreateSn(P.OtherDraw);
      toMgr := toMgr + [C.Add(addr, port, "")];
      obj := new IpcCall(addr, port, rtpPort, sn, now);
    }

    /** The INVITE is out: the call has its session and joins the list. */
    method List(obj: IpcCall, now: int)
      requires Valid() && obj !in lstCall && reg.issued > 0 && obj.index == (reg.issued - 1) % SERIALS
      modifies this`lstCall, this`statusLog, this`reg, obj
      ensures Valid()
      ensures var c := Registry.Call(obj.ipcAddr, obj.ipcPort, old(reg).issued - 1, obj.localRtpPort, true, true,
                                     now, old(obj.activeTm));
              reg == Report(old(reg).(calls := old(reg).calls + [c]), c, true)
    {
      hide IpcUrl;
      obj.inv, obj.back, obj.connectTime := true, true, now;
      ghost var c := Registry.Call(obj.ipcAddr, obj.ipcPort, reg.issued - 1, obj.localRtpPort, true, true,
                                   now, obj.activeTm);
      lstCall := lstCall + [obj];
      ReportIpcStatus(obj.ipcAddr, obj.ipcPort, true);
      reg := Report(reg.(calls := reg.calls + [c]), c, true);
    }

    method OnConfirmed(call: IpcCall, ghost i: nat, now: int)
      requires Valid() && i < |lstCall| && call == lstCall[i]
      modifies this`reg, lstCall
      ensures Valid() && reg == Step(old(reg), Confirmed(i, now), portStep)
    {
      assert forall j :: 0 <= j < |lstCall| ==> lstCall[j].Is(reg.calls[j]);
      if call.back {
        call.connectTime := now;
        Touch(i, reg.calls[i].(connected := now));
      }
    }

    /** A packet renews the call's activity; its payload, if it can be decoded, goes to the channels. */
    method OnVideoRxRtp(call: IpcCall, ghost i: nat, now: int, decoded: bool, payload: seq<Bytes.byte>)
      requires Valid() && i < |lstCall| && call == lstCall[i]
      modifies this`reg, this`toMgr, lstCall
      ensures Valid()
      ensures var e := if decoded then A.Packet(i, now, payload) else A.Sip(Rtp(i, now));
              reg == Step(old(reg), Rtp(i, now), portStep) && toMgr == old(toMgr) + A.Emits(Config(), old(reg), e)
    {
      assert forall j :: 0 <= j < |lstCall| ==> lstCall[j].Is(reg.calls[j]);
      call.activeTm := now;
      Touch(i, reg.calls[i].(active := now));
      if decoded {
        toMgr := toMgr + [C.Rtp(call.ipcAddr, call.ipcPort, payload)];
      }
    }

    /** Media have been negotiated for a session: if they are `up` the call with its serial counts as
        active, and a key frame may be asked for, which draws a serial. */
    method OnMediaUpdate(call: IpcCall, ghost i: nat, now: int, up: bool, keyFrame: bool)
      requires Valid() && i < |lstCall| && call == lstCall[i]
      modifies this`reg, this`pend, this`snVal, this`toMgr, lstCall
      ensures Valid() && reg == Step(old(reg), MediaUpdate(i, now, up, keyFrame), portStep)
      ensures toMgr == old(toMgr) + A.SipEmits(Config(), old(reg), MediaUpdate(i, now, up, keyFrame))
      ensures pend == if old(call.back) && keyFrame then P.Do(old(pend), P.OtherDraw) else old(pend)
    {
      hide IpcUrl, P.Do;
      assert forall j :: 0 <= j < |lstCall| ==> lstCall[j].Is(reg.calls[j]);
      if call.back {
        var obj := FindCallByIndex(call.index);
        if obj != null && up {
          MediaUp(obj, ByIndex(reg.calls, call.index), now);
        }
        if keyFrame {
          var _ := CreateSn(P.OtherDraw);
        }
      }
    }

    /** A call's media are up: over UDP its format is set. */
    method MediaUp(obj: IpcCall, ghost j: nat, now: int)
      requires Valid() && j < |lstCall| && obj == lstCall[j]
      modifies this`reg, this`toMgr, lstCall
      ensures Valid() && reg == old(reg).(calls := old(reg).calls[j := old(reg).calls[j].(active := now)])
      ensures toMgr == old(toMgr) + if udp then [C.SetFmt(old(reg).calls[j].addr, old(reg).calls[j].port, "ps")] else []
      ensures forall c <- lstCall :: c.back == old(c.back)
    {
      assert forall k :: 0 <= k < |lstCall| ==> lstCall[k].Is(reg.calls[k]);
      obj.activeTm := now;
      Touch(j, reg.calls[j].(active := now));
      if udp {
        toMgr := toMgr + [C.SetFmt(obj.ipcAddr, obj.ipcPort, "ps")];
      }
    }

    // -------------------------------------------------------------- live clients

    /** A viewer's client receives on the next port, and replaces the camera's old one if it connects. */
    method MakeLiveRtpClient(url: string, connects: bool) returns (port: int)
      requires Valid()
      modifies this`rtpNextPort, this`toMgr, this`reg
      ensures Valid() && port == old(reg).nextPort && reg == Step(old(reg), DrawPort, portStep)
      ensures toMgr == old(toMgr) + A.Emits(Config(), old(reg), A.LiveStart(url, connects))
    {
      port := CreateNextRtpPort();
      toMgr := toMgr + [C.LiveStart(url, connects)];
    }

    method RemoveLiveRtpClient(url: string)
      requires Valid()
      modifies this`toMgr
      ensures Valid() && toMgr == old(toMgr) + A.Emits(Config(), reg, A.LiveStop(url))
    {
      toMgr := toMgr + [C.LiveStop(url)];
    }

    // -------------------------------------------------------------- registrations

    /** A REGISTER with credentials; without a sip: address in its URI it is dropped. */
    method HandleAuthEvent(addr: string, hasSip: bool)
      requires Valid() && pend.flight.Ready?
      modifies this`snVal, this`mapRspData, this`requestLog, this`reg, this`pend
      ensures Valid()
      ensures pend == if hasSip then P.Do(P.Do(P.Do(old(pend), P.Draw(addr)), P.Store), P.Publish) else old(pend)
      ensures reg == if hasSip then Drawn(old(reg)) else old(reg)
    {
      if hasSip {
        var sn := DrawForAuth(addr);
        StoreResponse(sn, addr);
        PublishRequest(sn, addr);
      }
    }

    /** Draws the serial of a registration request. */
    method DrawForAuth(addr: string) returns (sn: nat)
      requires Valid() && pend.flight.Ready?
      modifies this`snVal, this`reg, this`pend
      ensures Valid() && reg == Drawn(old(reg))
      ensures pend == P.Do(old(pend), P.Draw(addr)) && sn == P.Serial(pend.flight.q)
    {
      sn := CreateSn(P.Draw(addr));
    }

    /** Stores the prepared response; a map's insert leaves an entry that is there already. */
    method StoreResponse(sn: nat, addr: string)
      requires Valid() && pend.flight.HasSerial? && sn == P.Serial(pend.flight.q) && addr == pend.flight.q.addr
      modifies this`mapRspData, this`pend
      ensures Valid() && pend == P.Do(old(pend), P.Store)
    {
      if sn !in mapRspData {
        mapRspData := mapRspData[sn := addr];
      }
      pend := P.Do(pend, P.Store);
    }

    method PublishRequest(sn: nat, addr: string)
      requires Valid() && pend.flight.HasStored? && sn == P.Serial(pend.flight.q) && addr == pend.flight.q.addr
      modifies this`requestLog, this`pend
      ensures Valid() && pend == P.Do(old(pend), P.Publish)
    {
      requestLog := requestLog + [(sn, addr)];
      pend := P.Do(pend, P.Publish);
    }

    /** An answer of the backend. */
    method OnRegisterResponse(sn: nat, code: int)
      requires Valid()
      modifies this`mapRspData, this`responses, this`pend
      ensures Valid() && pend == P.Do(old(pend), P.Respond(sn, code))
      ensures sn in old(mapRspData) ==>
                responses == old(responses) + [(old(mapRspData)[sn], if code == 200 then 200 else 401)]
      ensures sn !in old(mapRspData) ==> responses == old(responses)
      ensures mapRspData == old(mapRspData) - {sn}
    {
      if sn in mapRspData {
        var status := if code == 200 then 200 else 401;
        responses := responses + [(mapRspData[sn], status)];
        mapRspData := mapRspData - {sn};
      }
      pend := P.Do(pend, P.Respond(sn, code));
    }
  }
}
