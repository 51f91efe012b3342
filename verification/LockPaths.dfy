/** Which locks each code path of the application takes, function by function, and the theorem that
    threads running these paths in any number and any interleaving never block one another. */
module LockPaths {
  import opened Locks

  function All(cs: seq<Code>): Code { if cs == [] then Skip else Then(cs[0], All(cs[1..])) }

  // ---------------------------------------------------------------- stream_mgr.cpp

  /** Adding, looking up, changing or feeding a channel. */
  function WithChannels(): Code { Under(MgrLock, Skip) }

  /** uninit: the callbacks of five topics are removed, then the map is cleared. */
  function MgrUninit(): Code { Then(FiveTopics(), WithChannels()) }

  // ---------------------------------------------------------------- mqinf.cpp

  /** Inserting or removing one callback. */
  function MapTouched(): Code { Under(MapLock, Skip) }

  /** Both components register for five topics when they start, and leave them when they stop. */
  function FiveTopics(): Code { All([MapTouched(), MapTouched(), MapTouched(), MapTouched(), MapTouched()]) }

  datatype Topic = RegisterResp | LiveStart(opens: bool) | LiveStop | PtzSend(found: bool, answered: bool) | Plans

  /** A message is handled by its callbacks while the callback map is locked. */
  function OnMessage(topic: Topic): Code { Under(MapLock, HandlerOf(topic)) }

  // ---------------------------------------------------------------- sipapp.cpp

  /** createSn, createNextRtpPort, and the insertion of a prepared response. */
  function WithCounter(): Code { Under(SipLock, Skip) }

  function FindCall(): Code { Under(CallLock, Skip) }

  function HandlerOf(topic: Topic): Code {
    match topic
    case RegisterResp => Under(SipLock, Skip)
    case LiveStart(opens) =>
      Under(MsgLock, All([WithChannels(), WithCounter()] + if opens then [WithChannels(), WithChannels()] else []))
    case LiveStop => Under(MsgLock, WithChannels())
    case PtzSend(found, answered) =>
      if !found then FindCall()
      else All([FindCall(), WithCounter()] + if answered then [PtzStop()] else [])
    case Plans => WithChannels()
  }

  function PtzStop(): Code { Then(FindCall(), WithCounter()) }

  /** Stopping a call: over UDP its channel is removed, over TCP its two threads are waited for. */
  datatype Call = Udp | Tcp(acceptor: nat, receiver: nat)

  function StopCall(call: Call): Code {
    match call
    case Udp => WithChannels()
    case Tcp(a, r) => Then(Await(a), Await(r))
  }

  /** Called from the disconnect handler; `found` if the call is listed. */
  function DestroyCallMedia(found: bool, call: Call): Code { Under(CallLock, if found then StopCall(call) else Skip) }

  datatype Invite = NotStarted | NotSent(terminated: bool) | Sent

  function HandleMessage(known: bool, invite: Invite, call: Call): Code {
    if known then FindCall()
    else
      All([FindCall(), WithCounter(), WithCounter(), WithChannels()]
          + match invite
            case NotStarted => []
            case NotSent(terminated) =>
              (if terminated then [DestroyCallMedia(false, call)] else []) + [StopCall(call)]
            case Sent => [Under(CallLock, Skip)])
  }

  function HandleRegister(credentials: bool): Code {
    if credentials then Then(WithCounter(), WithCounter()) else FindCall()
  }

  function HangupAll(calls: seq<Call>, topics: seq<Topic>): Code
    decreases |calls|
  {
    if calls == [] then Skip
    else All([DestroyCallMedia(true, calls[0]), LoopMessages(topics), HangupAll(calls[1..], topics)])
  }

  /** loopMqMsg, which may handle any messages that have come in. */
  function LoopMessages(topics: seq<Topic>): Code
    decreases |topics|
  {
    if topics == [] then Skip else Then(OnMessage(topics[0]), LoopMessages(topics[1..]))
  }

  function StopApp(work: nat, alive: nat, calls: seq<Call>, topics: seq<Topic>): Code {
    Under(StopLock, All([FiveTopics(), Await(work), Await(alive), HangupAll(calls, topics)]))
  }

  /** Everything a thread can be doing. */
  datatype Path =
    | Start
    | Message(topic: Topic)
    | Stop(work: nat, alive: nat, calls: seq<Call>, topics: seq<Topic>)
    | Uninit
    | SipRegister(credentials: bool)
    | SipMessage(known: bool, invite: Invite, call: Call)
    | Disconnected(found: bool, call: Call)
    | MediaUpdate(found: bool, udp: bool, keyFrame: bool)
    | Offer
    | PtzAnswered
    | AlivePass(found: bool, call: Call)
    | Packet
    | Accept

  function CodeOf(p: Path): Code {
    match p
    case Start => FiveTopics()
    case Message(topic) => OnMessage(topic)
    case Stop(work, alive, calls, topics) => StopApp(work, alive, calls, topics)
    case Uninit => MgrUninit()
    case SipRegister(credentials) => Under(ReqLock, HandleRegister(credentials))
    case SipMessage(known, invite, call) => Under(ReqLock, HandleMessage(known, invite, call))
    case Disconnected(found, call) => DestroyCallMedia(found, call)
    case MediaUpdate(found, udp, keyFrame) =>
      Then(Under(CallLock, if found && udp then WithChannels() else Skip),
           if keyFrame then Then(FindCall(), if found then WithCounter() else Skip) else Skip)
    case Offer => FindCall()
    case PtzAnswered => PtzStop()
    case AlivePass(found, call) => DestroyCallMedia(found, call)
    case Packet => WithChannels()
    case Accept => Skip
  }

  // ---------------------------------------------------------------- the paths, operation by operation

  function Once(l: Lock): seq<Op> { [Acquire(l), Release(l)] }

  lemma OnceIs(l: Lock)
    ensures Ops(Under(l, Skip)) == Once(l)
  {
  }

  lemma {:induction false} RowOps(a: seq<Code>, b: seq<Code>)
    ensures Ops(All(a + b)) == Ops(All(a)) + Ops(All(b))
  {
    if a == [] {
      assert a + b == b;
    } else {
      assert (a + b)[0] == a[0] && (a + b)[1..] == a[1..] + b;
      RowOps(a[1..], b);
    }
  }

  lemma RowOfOne(a: Code)
    ensures Ops(All([])) == [] && Ops(All([a])) == Ops(a)
  {
    assert [a][1..] == [];
  }

  lemma RowOfTwo(a: Code, b: Code)
    ensures Ops(All([a, b])) == Ops(a) + Ops(b)
  {
    hide Ops, All;
    RowOfOne(a);
    RowOfOne(b);
    RowOps([a], [b]);
    assert [a] + [b] == [a, b];
  }

  lemma RowOfFour(a: Code, b: Code, c: Code, d: Code)
    ensures Ops(All([a, b, c, d])) == Ops(a) + Ops(b) + Ops(c) + Ops(d)
  {
    hide Ops, All;
    RowOfTwo(a, b);
    RowOfTwo(c, d);
    RowOps([a, b], [c, d]);
    assert [a, b] + [c, d] == [a, b, c, d];
  }

  lemma SmallOps()
    ensures Ops(FindCall()) == Once(CallLock) && Ops(WithCounter()) == Once(SipLock)
    ensures Ops(WithChannels()) == Once(MgrLock) && Ops(MapTouched()) == Once(MapLock)
    ensures Ops(PtzStop()) == Once(CallLock) + Once(SipLock)
  {
    OnceIs(CallLock);
    OnceIs(SipLock);
    OnceIs(MgrLock);
    OnceIs(MapLock);
  }

  lemma UnderOps(l: Lock, c: Code)
    ensures Ops(Under(l, c)) == [Acquire(l)] + Ops(c) + [Release(l)]
  {
  }

  /** What a thread does at the locks for a message of the broker. */
  function Heard(topic: Topic): seq<Op> {
    [Acquire(MapLock)]
    + (match topic
       case RegisterResp => Once(SipLock)
       case LiveStart(opens) =>
         [Acquire(MsgLock)] + Once(MgrLock) + Once(SipLock)
         + (if opens then Once(MgrLock) + Once(MgrLock) else []) + [Release(MsgLock)]
       case LiveStop => [Acquire(MsgLock)] + Once(MgrLock) + [Release(MsgLock)]
       case PtzSend(found, answered) =>
         Once(CallLock) + (if found then Once(SipLock) else [])
         + (if found && answered then Once(CallLock) + Once(SipLock) else [])
       case Plans => Once(MgrLock))
    + [Release(MapLock)]
  }

  function Stops(call: Call): seq<Op> {
    match call
    case Udp => Once(MgrLock)
    case Tcp(a, r) => [Join(a), Join(r)]
  }

  function AllHeard(topics: seq<Topic>): seq<Op> { if topics == [] then [] else Heard(topics[0]) + AllHeard(topics[1..]) }

  /** Every call is stopped under the call lock; after each, messages are heard. */
  function Hangs(calls: seq<Call>, topics: seq<Topic>): seq<Op>
    decreases |calls|
  {
    if calls == [] then []
    else [Acquire(CallLock)] + Stops(calls[0]) + [Release(CallLock)] + AllHeard(topics) + Hangs(calls[1..], topics)
  }

  function FiveTimes(): seq<Op> {
    Once(MapLock) + Once(MapLock) + Once(MapLock) + Once(MapLock) + Once(MapLock)
  }

  /** Every path as the locks see it, one operation after the other. */
  function Trace(p: Path): seq<Op> {
    match p
    case Start => FiveTimes()
    case Message(topic) => Heard(topic)
    case Stop(work, alive, calls, topics) =>
      [Acquire(StopLock)] + FiveTimes() + [Join(work)] + [Join(alive)] + Hangs(calls, topics) + [Release(StopLock)]
    case Uninit => FiveTimes() + Once(MgrLock)
    case SipRegister(credentials) =>
      [Acquire(ReqLock)] + (if credentials then Once(SipLock) + Once(SipLock) else Once(CallLock)) + [Release(ReqLock)]
    case SipMessage(known, invite, call) =>
      [Acquire(ReqLock)]
      + (if known then Once(CallLock)
         else Once(CallLock) + Once(SipLock) + Once(SipLock) + Once(MgrLock)
              + match invite
                case NotStarted => []
                case NotSent(terminated) => (if terminated then Once(CallLock) else []) + Stops(call)
                case Sent => Once(CallLock))
      + [Release(ReqLock)]
    case Disconnected(found, call) => [Acquire(CallLock)] + (if found then Stops(call) else []) + [Release(CallLock)]
    case MediaUpdate(found, udp, keyFrame) =>
      [Acquire(CallLock)] + (if found && udp then Once(MgrLock) else []) + [Release(CallLock)]
      + (if keyFrame then Once(CallLock) else []) + (if keyFrame && found then Once(SipLock) else [])
    case Offer => Once(CallLock)
    case PtzAnswered => Once(CallLock) + Once(SipLock)
    case AlivePass(found, call) => [Acquire(CallLock)] + (if found then Stops(call) else []) + [Release(CallLock)]
    case Packet => Once(MgrLock)
    case Accept => []
  }

  lemma HandlerTrace(topic: Topic)
    ensures [Acquire(MapLock)] + Ops(HandlerOf(topic)) + [Release(MapLock)] == Heard(topic)
  {
    SmallOps();
    hide Ops, All;
    match topic
    case RegisterResp => assert HandlerOf(topic) == WithCounter();
    case LiveStart(opens) =>
      var head := [WithChannels(), WithCounter()];
      var tail := if opens then [WithChannels(), WithChannels()] else [];
      RowOps(head, tail);
      RowOfTwo(WithChannels(), WithCounter());
      RowOfTwo(WithChannels(), WithChannels());
      RowOfOne(WithChannels());
      UnderOps(MsgLock, All(head + tail));
    case LiveStop => UnderOps(MsgLock, WithChannels());
    case PtzSend(found, answered) =>
      var head := [FindCall(), WithCounter()];
      var tail := if answered then [PtzStop()] else [];
      RowOps(head, tail);
      RowOfTwo(FindCall(), WithCounter());
      RowOfOne(PtzStop());
    case Plans =>
  }

  lemma HeardTrace(topic: Topic)
    ensures Ops(OnMessage(topic)) == Heard(topic)
  {
    hide HandlerOf, Heard;
    HandlerTrace(topic);
  }

  lemma {:induction false} LoopTrace(topics: seq<Topic>)
    ensures Ops(LoopMessages(topics)) == AllHeard(topics)
    decreases |topics|
  {
    hide OnMessage, Heard;
    if topics == [] {
    } else {
      HeardTrace(topics[0]);
      LoopTrace(topics[1..]);
    }
  }

  lemma StopTrace(call: Call)
    ensures Ops(StopCall(call)) == Stops(call)
  {
    SmallOps();
  }

  lemma DestroyTrace(found: bool, call: Call)
    ensures Ops(DestroyCallMedia(found, call))
            == [Acquire(CallLock)] + (if found then Stops(call) else []) + [Release(CallLock)]
  {
    hide StopCall, Stops;
    StopTrace(call);
  }

  lemma RowOfThree(a: Code, b: Code, c: Code)
    ensures Ops(All([a, b, c])) == Ops(a) + Ops(b) + Ops(c)
  {
    hide Ops, All;
    RowOfTwo(a, b);
    RowOfOne(c);
    RowOps([a, b], [c]);
    assert [a, b] + [c] == [a, b, c];
  }

  lemma HangupHead(calls: seq<Call>, topics: seq<Topic>)
    requires calls != []
    ensures HangupAll(calls, topics)
            == All([DestroyCallMedia(true, calls[0]), LoopMessages(topics), HangupAll(calls[1..], topics)])
    ensures Hangs(calls, topics)
            == [Acquire(CallLock)] + Stops(calls[0]) + [Release(CallLock)] + AllHeard(topics) + Hangs(calls[1..], topics)
  {
  }

  lemma {:induction false} HangupTrace(calls: seq<Call>, topics: seq<Topic>)
    ensures Ops(HangupAll(calls, topics)) == Hangs(calls, topics)
    decreases |calls|
  {
    if calls == [] {
    } else {
      hide *;
      HangupHead(calls, topics);
      DestroyTrace(true, calls[0]);
      LoopTrace(topics);
      HangupTrace(calls[1..], topics);
      RowOfThree(DestroyCallMedia(true, calls[0]), LoopMessages(topics), HangupAll(calls[1..], topics));
    }
  }

  lemma FiveTrace()
    ensures Ops(FiveTopics()) == FiveTimes()
  {
    SmallOps();
    hide Ops, All, Once, MapTouched;
    var m := MapTouched();
    RowOfOne(m);
    RowOfFour(m, m, m, m);
    RowOps([m], [m, m, m, m]);
    assert [m] + [m, m, m, m] == [m, m, m, m, m];
  }

  lemma StopAppTrace(p: Path)
    requires p.Stop?
    ensures Ops(CodeOf(p)) == Trace(p)
  {
    AwaitOps(p.work);
    AwaitOps(p.alive);
    var rest := All([FiveTopics(), Await(p.work), Await(p.alive), HangupAll(p.calls, p.topics)]);
    UnderOps(StopLock, rest);
    assert CodeOf(p) == Under(StopLock, rest);
    hide Ops, All, HangupAll, Hangs, FiveTopics, FiveTimes;
    FiveTrace();
    HangupTrace(p.calls, p.topics);
    RowOfFour(FiveTopics(), Await(p.work), Await(p.alive), HangupAll(p.calls, p.topics));
  }

  lemma AwaitOps(t: nat)
    ensures Ops(Await(t)) == [Join(t)]
  {
  }

  lemma InviteTrace(invite: Invite, call: Call)
    ensures Ops(All(match invite
                    case NotStarted => []
                    case NotSent(terminated) =>
                      (if terminated then [DestroyCallMedia(false, call)] else []) + [StopCall(call)]
                    case Sent => [Under(CallLock, Skip)]))
            == match invite
               case NotStarted => []
               case NotSent(terminated) => (if terminated then Once(CallLock) else []) + Stops(call)
               case Sent => Once(CallLock)
  {
    OnceIs(CallLock);
    DestroyTrace(false, call);
    StopTrace(call);
    var gone, stop := DestroyCallMedia(false, call), StopCall(call);
    hide Ops, All, DestroyCallMedia, StopCall, Stops;
    RowOfOne(Under(CallLock, Skip));
    RowOfOne(stop);
    RowOfTwo(gone, stop);
    assert [gone] + [stop] == [gone, stop] && [] + [stop] == [stop];
  }

  lemma SipTrace(known: bool, invite: Invite, call: Call)
    ensures Ops(CodeOf(SipMessage(known, invite, call))) == Trace(SipMessage(known, invite, call))
  {
    SmallOps();
    InviteTrace(invite, call);
    UnderOps(ReqLock, HandleMessage(known, invite, call));
    hide Ops, All, StopCall, Stops, DestroyCallMedia, FindCall, WithCounter, WithChannels, Once;
    RowOfFour(FindCall(), WithCounter(), WithCounter(), WithChannels());
    RowOps([FindCall(), WithCounter(), WithCounter(), WithChannels()],
           match invite
           case NotStarted => []
           case NotSent(terminated) =>
             (if terminated then [DestroyCallMedia(false, call)] else []) + [StopCall(call)]
           case Sent => [Under(CallLock, Skip)]);
  }

  lemma MediaTrace(found: bool, udp: bool, keyFrame: bool)
    ensures Ops(CodeOf(MediaUpdate(found, udp, keyFrame))) == Trace(MediaUpdate(found, udp, keyFrame))
  {
    SmallOps();
    OnceIs(CallLock);
    hide FindCall, WithCounter, WithChannels;
  }

  lemma RegisterTrace(credentials: bool)
    ensures Ops(CodeOf(SipRegister(credentials))) == Trace(SipRegister(credentials))
  {
    SmallOps();
    hide FindCall, WithCounter;
  }

  /** The nested code of every path takes and releases locks and waits for threads in this order. */
  lemma PathTrace(p: Path)
    ensures Ops(CodeOf(p)) == Trace(p)
  {
    SmallOps();
    hide All, HandleMessage, HandlerOf, Heard, FiveTopics, FiveTimes, StopCall, Stops, OnMessage, HangupAll, Hangs;
    match p
    case Start => FiveTrace();
    case Message(topic) => HeardTrace(topic);
    case Stop(_, _, _, _) => StopAppTrace(p);
    case Uninit => FiveTrace();
    case SipMessage(known, invite, call) => SipTrace(known, invite, call);
    case Disconnected(found, call) => DestroyTrace(found, call);
    case AlivePass(found, call) => DestroyTrace(found, call);
    case MediaUpdate(found, udp, keyFrame) => MediaTrace(found, udp, keyFrame);
    case SipRegister(credentials) => RegisterTrace(credentials);
    case _ =>
  }

  // ---------------------------------------------------------------- the order

  /** The threads a call is waited for are media threads. */
  predicate RealCall(call: Call, roles: seq<Role>) {
    call.Tcp? ==> call.acceptor < |roles| && call.receiver < |roles|
                  && roles[call.acceptor].Media? && roles[call.receiver].Media?
  }

  /** What each kind of thread runs. */
  predicate RunBy(p: Path, role: Role, roles: seq<Role>) {
    match role
    case Main =>
      p.Start? || p.Message? || p.Uninit?
      || (p.Stop? && p.work < |roles| && roles[p.work].Work? && p.alive < |roles| && roles[p.alive].Alive?
          && forall c <- p.calls :: RealCall(c, roles))
    case Work =>
      p.SipRegister? || (p.SipMessage? && RealCall(p.call, roles)) || (p.Disconnected? && RealCall(p.call, roles))
      || p.MediaUpdate? || p.Offer? || p.PtzAnswered?
    case Alive => p.AlivePass? && RealCall(p.call, roles)
    case Media => p.Packet? || p.Accept?
  }

  lemma {:induction false} AllOrdered(cs: seq<Code>, level: int, roles: seq<Role>)
    requires forall c <- cs :: Ordered(c, level, roles)
    ensures Ordered(All(cs), level, roles)
  {
    if cs == [] {
    } else {
      AllOrdered(cs[1..], level, roles);
    }
  }

  lemma SimpleOrdered(level: int, roles: seq<Role>)
    requires level < Level(CallLock)
    ensures Ordered(FindCall(), level, roles) && Ordered(WithCounter(), level, roles)
    ensures Ordered(WithChannels(), level, roles) && Ordered(PtzStop(), level, roles)
  {
    assert Ordered(Skip, Level(CallLock), roles) && Ordered(Skip, Level(SipLock), roles);
    assert Ordered(Skip, Level(MgrLock), roles);
    assert Ordered(Under(CallLock, Skip), level, roles) && Ordered(Under(SipLock, Skip), level, roles);
  }

  lemma HandlerOrdered(topic: Topic, roles: seq<Role>)
    ensures Ordered(HandlerOf(topic), Level(MapLock), roles)
  {
    match topic
    case LiveStart(opens) =>
      AllOrdered([WithChannels(), WithCounter()] + if opens then [WithChannels(), WithChannels()] else [],
                 Level(MsgLock), roles);
    case PtzSend(found, answered) =>
      SimpleOrdered(Level(MapLock), roles);
      AllOrdered([FindCall(), WithCounter()] + if answered then [PtzStop()] else [], Level(MapLock), roles);
    case _ =>
  }

  lemma DestroyOrdered(found: bool, call: Call, level: int, roles: seq<Role>)
    requires RealCall(call, roles) && level < Level(CallLock)
    ensures Ordered(DestroyCallMedia(found, call), level, roles)
    ensures Ordered(StopCall(call), level, roles)
  {
  }

  lemma MessageOrdered(known: bool, invite: Invite, call: Call, roles: seq<Role>)
    requires RealCall(call, roles)
    ensures Ordered(HandleMessage(known, invite, call), Level(ReqLock), roles)
  {
    DestroyOrdered(false, call, Level(ReqLock), roles);
    AllOrdered([FindCall(), WithCounter(), WithCounter(), WithChannels()]
               + match invite
                 case NotStarted => []
                 case NotSent(terminated) =>
                   (if terminated then [DestroyCallMedia(false, call)] else []) + [StopCall(call)]
                 case Sent => [Under(CallLock, Skip)],
               Level(ReqLock), roles);
  }

  lemma CallbacksOrdered(level: int, roles: seq<Role>)
    requires level < Level(MapLock)
    ensures Ordered(FiveTopics(), level, roles)
  {
    AllOrdered([MapTouched(), MapTouched(), MapTouched(), MapTouched(), MapTouched()], level, roles);
  }

  lemma {:induction false} LoopOrdered(topics: seq<Topic>, level: int, roles: seq<Role>)
    requires level < Level(MapLock)
    ensures Ordered(LoopMessages(topics), level, roles)
    decreases |topics|
  {
    if topics == [] {
    } else {
      HandlerOrdered(topics[0], roles);
      LoopOrdered(topics[1..], level, roles);
    }
  }

  lemma {:induction false} HangupOrdered(calls: seq<Call>, topics: seq<Topic>, level: int, roles: seq<Role>)
    requires level < Level(MapLock) && forall c <- calls :: RealCall(c, roles)
    ensures Ordered(HangupAll(calls, topics), level, roles)
    decreases |calls|
  {
    if calls == [] {
    } else {
      DestroyOrdered(true, calls[0], level, roles);
      LoopOrdered(topics, level, roles);
      HangupOrdered(calls[1..], topics, level, roles);
      AllOrdered([DestroyCallMedia(true, calls[0]), LoopMessages(topics), HangupAll(calls[1..], topics)], level, roles);
    }
  }

  lemma StopOrdered(p: Path, roles: seq<Role>)
    requires p.Stop? && RunBy(p, Main, roles)
    ensures Ordered(CodeOf(p), Base(Main), roles)
  {
    CallbacksOrdered(Level(StopLock), roles);
    HangupOrdered(p.calls, p.topics, Level(StopLock), roles);
    AllOrdered([FiveTopics(), Await(p.work), Await(p.alive), HangupAll(p.calls, p.topics)], Level(StopLock), roles);
  }

  /** Every path of every kind of thread takes its locks in the one order, and waits for threads only
      where that order allows. */
  lemma PathOrdered(p: Path, role: Role, roles: seq<Role>)
    requires RunBy(p, role, roles)
    ensures Ordered(CodeOf(p), Base(role), roles)
  {
    match p
    case Stop(_, _, _, _) => StopOrdered(p, roles);
    case Start => CallbacksOrdered(Base(Main), roles);
    case Uninit => CallbacksOrdered(Base(Main), roles);
    case Message(topic) => HandlerOrdered(topic, roles);
    case SipMessage(known, invite, call) => MessageOrdered(known, invite, call, roles);
    case Disconnected(found, call) => DestroyOrdered(found, call, Base(role), roles);
    case AlivePass(found, call) => DestroyOrdered(found, call, Base(role), roles);
    case SipRegister(_) => SimpleOrdered(Level(ReqLock), roles);
    case MediaUpdate(_, _, _) => SimpleOrdered(Base(role), roles);
    case PtzAnswered => SimpleOrdered(Base(role), roles);
    case Offer => SimpleOrdered(Base(role), roles);
    case Packet =>
    case Accept =>
  }

  /** A thread's life: any finite sequence of paths. */
  function Program(paths: seq<Path>): Code {
    All(seq(|paths|, i requires 0 <= i < |paths| => CodeOf(paths[i])))
  }

  ghost predicate WellTyped(roles: seq<Role>, lives: seq<seq<Path>>) {
    |lives| == |roles|
    && forall i :: 0 <= i < |roles| ==> forall p <- lives[i] :: RunBy(p, roles[i], roles)
  }

  function Programs(lives: seq<seq<Path>>): seq<Code> {
    seq(|lives|, i requires 0 <= i < |lives| => Program(lives[i]))
  }

  lemma ProgramsOrdered(roles: seq<Role>, lives: seq<seq<Path>>)
    requires WellTyped(roles, lives)
    ensures Inv(Launch(roles, Programs(lives)))
  {
    forall i | 0 <= i < |roles| ensures Ordered(Programs(lives)[i], Base(roles[i]), roles) {
      var cs := seq(|lives[i]|, k requires 0 <= k < |lives[i]| => CodeOf(lives[i][k]));
      forall c <- cs ensures Ordered(c, Base(roles[i]), roles) {
        var k :| 0 <= k < |cs| && cs[k] == c;
        assert lives[i][k] in lives[i];
        PathOrdered(lives[i][k], roles[i], roles);
      }
      AllOrdered(cs, Base(roles[i]), roles);
    }
    LaunchInv(roles, Programs(lives));
  }

  /** Any number of threads, any lives, any schedule: in every state that is reached some thread can
      go on, unless all are done and all locks free; no threads wait in a circle; and no schedule
      is longer than the programs. */
  lemma NoDeadlock(roles: seq<Role>, lives: seq<seq<Path>>, schedule: seq<nat>)
    requires WellTyped(roles, lives) && Feasible(Launch(roles, Programs(lives)), schedule)
    ensures var n := Run(Launch(roles, Programs(lives)), schedule);
            && (if AllDone(n) then forall t <- n :: t.held == [] else exists r :: Enabled(n, r))
            && (forall circle: seq<nat> ::
                  |circle| >= 2 && (forall i :: 0 <= i < |circle| - 1 ==> Waits(n, circle[i], circle[i + 1]))
                  ==> circle[0] != circle[|circle| - 1])
            && |schedule| + Left(n) == Left(Launch(roles, Programs(lives)))
  {
    ProgramsOrdered(roles, lives);
    RunsOn(Launch(roles, Programs(lives)), schedule);
    var n := Run(Launch(roles, Programs(lives)), schedule);
    forall circle: seq<nat> | |circle| >= 2 && (forall i :: 0 <= i < |circle| - 1 ==> Waits(n, circle[i], circle[i + 1]))
      ensures circle[0] != circle[|circle| - 1]
    {
      NoWaitCycle(n, circle);
    }
  }
}
