/** How messages from the broker find their handlers: the callback multimap of the message interface,
    and what the components that register and unregister themselves get to see. */
module Dispatch {
  type Handler = nat

  /** For each topic its handlers, in the order in which they were inserted. */
  type Callbacks = map<string, seq<Handler>>

  datatype Handled = Handled(handler: Handler, topic: string, payload: string)

  function Of(m: Callbacks, topic: string): seq<Handler> { if topic in m then m[topic] else [] }

  function DropFirst(hs: seq<Handler>, h: Handler): seq<Handler> {
    if hs == [] then [] else if hs[0] == h then hs[1..] else [hs[0]] + DropFirst(hs[1..], h)
  }

  function Inserted(m: Callbacks, key: string, h: Handler): Callbacks { m[key := Of(m, key) + [h]] }

  function Erased(m: Callbacks, key: string, h: Handler): Callbacks { m[key := DropFirst(Of(m, key), h)] }

  /** The topics whose messages are turned into objects; others, SDPSendReq among them, are dropped. */
  const DECODED := {"IPCRegisterResp", "PZTSendReq", "SDSInfoResp", "LiveMediaStream", "LiveMediaStartReq",
                    "LiveMediaStopReq", "PlanChgReq", "PlanDelReq", "IpcChangeReq", "SdsChangeReq"}

  function HandedTo(hs: seq<Handler>, topic: string, payload: string): seq<Handled> {
    if hs == [] then [] else [Handled(hs[0], topic, payload)] + HandedTo(hs[1..], topic, payload)
  }

  function Deliveries(m: Callbacks, topic: string, payload: string): seq<Handled> {
    if topic in DECODED then HandedTo(Of(m, topic), topic, payload) else []
  }

  /** Exactly the ten topics of the broker's messages are decoded. */
  lemma DecodedTopics()
    ensures DECODED == {"IPCRegisterResp", "PZTSendReq", "SDSInfoResp", "LiveMediaStream", "LiveMediaStartReq",
                        "LiveMediaStopReq", "PlanChgReq", "PlanDelReq", "IpcChangeReq", "SdsChangeReq"}
    ensures "SDPSendReq" !in DECODED
  {
    var sdp := "SDPSendReq";
    assert |sdp| == 10 && sdp[1] == 'D' && "PZTSendReq"[1] == 'Z' && "PlanChgReq"[1] == 'l' && "PlanDelReq"[1] == 'l';
    assert |"IPCRegisterResp"| == 15 && |"SDSInfoResp"| == 11 && |"LiveMediaStream"| == 15 && |"LiveMediaStartReq"| == 17;
    assert |"LiveMediaStopReq"| == 16 && |"IpcChangeReq"| == 12 && |"SdsChangeReq"| == 12;
  }

  /** Every handler is called once, in order, with the message. */
  lemma {:induction false} HandedToIs(hs: seq<Handler>, topic: string, payload: string)
    ensures |HandedTo(hs, topic, payload)| == |hs|
    ensures forall i :: 0 <= i < |hs| ==> HandedTo(hs, topic, payload)[i] == Handled(hs[i], topic, payload)
  {
    if hs == [] {
    } else {
      HandedToIs(hs[1..], topic, payload);
    }
  }

  lemma {:induction false} HandedOneMore(hs: seq<Handler>, topic: string, payload: string, i: nat)
    requires i < |hs|
    ensures HandedTo(hs[..i + 1], topic, payload) == HandedTo(hs[..i], topic, payload) + [Handled(hs[i], topic, payload)]
  {
    if i > 0 {
      HandedOneMore(hs[1..], topic, payload, i - 1);
      assert hs[..i + 1][1..] == hs[1..i + 1] == hs[1..][..i];
      assert hs[..i][1..] == hs[1..i] == hs[1..][..i - 1];
    }
  }

  lemma {:induction false} DropsAt(hs: seq<Handler>, h: Handler, i: nat)
    requires i <= |hs| && h !in hs[..i] && (i < |hs| ==> hs[i] == h)
    ensures DropFirst(hs, h) == if i < |hs| then hs[..i] + hs[i + 1..] else hs
  {
    if i > 0 {
      assert hs[0] == hs[..i][0] && forall x :: x in hs[1..][..i - 1] ==> x in hs[..i];
      DropsAt(hs[1..], h, i - 1);
    }
  }

  class MqInf {
    var mapMsgCallback: Callbacks
    /** Every call of a handler so far. */
    var handled: seq<Handled>

    constructor ()
      ensures mapMsgCallback == map[] && handled == []
    {
      mapMsgCallback, handled := map[], [];
    }

    method SetCallbackObject(key: string, obj: Handler)
      modifies this`mapMsgCallback
      ensures mapMsgCallback == Inserted(old(mapMsgCallback), key, obj)
    {
      var range := if key in mapMsgCallback then mapMsgCallback[key] else [];
      mapMsgCallback := mapMsgCallback[key := range + [obj]];
    }

    /** Removes one insertion of the handler, the earliest. */
    method RemoveCallbackObject(key: string, obj: Handler)
      modifies this`mapMsgCallback
      ensures mapMsgCallback == Erased(old(mapMsgCallback), key, obj)
    {
      var range := if key in mapMsgCallback then mapMsgCallback[key] else [];
      var i := 0;
      while i < |range| && range[i] != obj
        invariant i <= |range| && obj !in range[..i]
      {
        i := i + 1;
      }
      DropsAt(range, obj, i);
      mapMsgCallback := mapMsgCallback[key := if i < |range| then range[..i] + range[i + 1..] else range];
    }

    method OnMessageCallback(topic: string, payload: string)
      modifies this`handled
      ensures handled == old(handled) + Deliveries(mapMsgCallback, topic, payload)
      ensures topic == "SDPSendReq" ==> handled == old(handled)
    {
      DecodedTopics();
      if topic in DECODED {
        var range := if topic in mapMsgCallback then mapMsgCallback[topic] else [];
        for i := 0 to |range|
          invariant handled == old(handled) + HandedTo(range[..i], topic, payload)
        {
          handled := handled + [Handled(range[i], topic, payload)];
          HandedOneMore(range, topic, payload, i);
        }
        assert range[..|range|] == range;
      }
    }
  }

  // ---------------------------------------------------------------- components that come and go

  /** A component starts by registering for its topics and stops by removing itself from them; a flag
      makes a second start, and a stop without a start, do nothing. */
  datatype Op = Start(h: Handler) | Stop(h: Handler) | Message(topic: string, payload: string)

  datatype Bus = Bus(callbacks: Callbacks, started: set<Handler>, handled: seq<Handled>)

  function InsertAll(m: Callbacks, topics: seq<string>, h: Handler): Callbacks
    decreases |topics|
  {
    if topics == [] then m else InsertAll(Inserted(m, topics[0], h), topics[1..], h)
  }

  function EraseAll(m: Callbacks, topics: seq<string>, h: Handler): Callbacks
    decreases |topics|
  {
    if topics == [] then m else EraseAll(Erased(m, topics[0], h), topics[1..], h)
  }

  function Step(topicsOf: Handler -> seq<string>, b: Bus, op: Op): Bus {
    match op
    case Start(h) =>
      if h in b.started then b
      else b.(started := b.started + {h}, callbacks := InsertAll(b.callbacks, topicsOf(h), h))
    case Stop(h) =>
      if h in b.started
      then b.(started := b.started - {h}, callbacks := EraseAll(b.callbacks, topicsOf(h), h))
      else b
    case Message(topic, payload) => b.(handled := b.handled + Deliveries(b.callbacks, topic, payload))
  }

  function Run(topicsOf: Handler -> seq<string>, b: Bus, ops: seq<Op>): Bus
    decreases |ops|
  {
    if ops == [] then b else Run(topicsOf, Step(topicsOf, b, ops[0]), ops[1..])
  }

  /** Without any map: the running components in the order they were started, and who hears what. */
  datatype Roster = Roster(running: seq<Handler>, handled: seq<Handled>)

  function Listening(topicsOf: Handler -> seq<string>, running: seq<Handler>, topic: string): seq<Handler> {
    if running == [] then []
    else (if topic in topicsOf(running[0]) then [running[0]] else []) + Listening(topicsOf, running[1..], topic)
  }

  function RosterStep(topicsOf: Handler -> seq<string>, r: Roster, op: Op): Roster {
    match op
    case Start(h) => if h in r.running then r else r.(running := r.running + [h])
    case Stop(h) => r.(running := DropFirst(r.running, h))
    case Message(topic, payload) =>
      if topic in DECODED
      then r.(handled := r.handled + HandedTo(Listening(topicsOf, r.running, topic), topic, payload))
      else r
  }

  function RosterRun(topicsOf: Handler -> seq<string>, r: Roster, ops: seq<Op>): Roster
    decreases |ops|
  {
    if ops == [] then r else RosterRun(topicsOf, RosterStep(topicsOf, r, ops[0]), ops[1..])
  }

  predicate Distinct<T(==)>(s: seq<T>) { forall i, j :: 0 <= i < j < |s| ==> s[i] != s[j] }

  /** The map lists for every topic the running components that listen to it. */
  ghost predicate Matches(topicsOf: Handler -> seq<string>, b: Bus, r: Roster) {
    && b.handled == r.handled && Distinct(r.running) && (forall h :: h in b.started <==> h in r.running)
    && forall topic :: Of(b.callbacks, topic) == Listening(topicsOf, r.running, topic)
  }

  lemma {:induction false} InsertsAll(m: Callbacks, topics: seq<string>, h: Handler, topic: string)
    requires Distinct(topics)
    ensures Of(InsertAll(m, topics, h), topic) == Of(m, topic) + if topic in topics then [h] else []
    decreases |topics|
  {
    if topics == [] {
    } else {
      InsertsAll(Inserted(m, topics[0], h), topics[1..], h, topic);
    }
  }

  lemma {:induction false} ErasesAll(m: Callbacks, topics: seq<string>, h: Handler, topic: string)
    requires Distinct(topics)
    ensures Of(EraseAll(m, topics, h), topic) == if topic in topics then DropFirst(Of(m, topic), h) else Of(m, topic)
    decreases |topics|
  {
    if topics == [] {
    } else {
      ErasesAll(Erased(m, topics[0], h), topics[1..], h, topic);
    }
  }

  /** The component, if it listens to the topic. */
  function Hears(topicsOf: Handler -> seq<string>, h: Handler, topic: string): seq<Handler> {
    if topic in topicsOf(h) then [h] else []
  }

  lemma ListeningFirst(topicsOf: Handler -> seq<string>, running: seq<Handler>, topic: string)
    requires running != []
    ensures Listening(topicsOf, running, topic)
            == Hears(topicsOf, running[0], topic) + Listening(topicsOf, running[1..], topic)
  {
  }

  lemma Regrouped(a: seq<Handler>, b: seq<Handler>, c: seq<Handler>)
    ensures (a + b) + c == a + (b + c)
  {
  }

  lemma {:induction false} ListeningMore(topicsOf: Handler -> seq<string>, running: seq<Handler>, h: Handler, topic: string)
    ensures Listening(topicsOf, running + [h], topic)
            == Listening(topicsOf, running, topic) + Hears(topicsOf, h, topic)
  {
    ListeningNone(topicsOf, topic);
    hide Listening, Hears;
    if running == [] {
      assert running + [h] == [h] && [h][1..] == [];
      ListeningFirst(topicsOf, [h], topic);
    } else {
      var more := running + [h];
      assert more[0] == running[0] && more[1..] == running[1..] + [h];
      ListeningFirst(topicsOf, running, topic);
      ListeningFirst(topicsOf, more, topic);
      ListeningMore(topicsOf, running[1..], h, topic);
      Regrouped(Hears(topicsOf, running[0], topic), Listening(topicsOf, running[1..], topic), Hears(topicsOf, h, topic));
    }
  }

  lemma ListeningNone(topicsOf: Handler -> seq<string>, topic: string)
    ensures Listening(topicsOf, [], topic) == []
  {
  }

  lemma {:induction false} DropDistinct(hs: seq<Handler>, h: Handler)
    requires Distinct(hs)
    ensures Distinct(DropFirst(hs, h))
    ensures forall k :: k in DropFirst(hs, h) <==> k in hs && k != h
  {
    if hs == [] || hs[0] == h {
    } else {
      DropDistinct(hs[1..], h);
      var rest := DropFirst(hs[1..], h);
      assert forall i :: 0 <= i < |rest| ==> rest[i] in hs[1..];
    }
  }

  lemma DropBehind(topicsOf: Handler -> seq<string>, first: Handler, rest: seq<Handler>, h: Handler, topic: string)
    requires first != h
    ensures DropFirst(Hears(topicsOf, first, topic) + rest, h) == Hears(topicsOf, first, topic) + DropFirst(rest, h)
  {
    if topic in topicsOf(first) {
      assert ([first] + rest)[0] == first && ([first] + rest)[1..] == rest;
    } else {
      assert [] + rest == rest;
    }
  }

  lemma {:induction false} ListeningLess(topicsOf: Handler -> seq<string>, running: seq<Handler>, h: Handler, topic: string)
    ensures Listening(topicsOf, DropFirst(running, h), topic)
            == if topic in topicsOf(h) then DropFirst(Listening(topicsOf, running, topic), h)
               else Listening(topicsOf, running, topic)
  {
    ListeningNone(topicsOf, topic);
    hide Listening;
    if running == [] {
    } else if running[0] == h {
      ListeningFirst(topicsOf, running, topic);
    } else {
      var less := [running[0]] + DropFirst(running[1..], h);
      assert less[0] == running[0] && less[1..] == DropFirst(running[1..], h);
      ListeningFirst(topicsOf, running, topic);
      ListeningFirst(topicsOf, less, topic);
      ListeningLess(topicsOf, running[1..], h, topic);
      DropBehind(topicsOf, running[0], Listening(topicsOf, running[1..], topic), h, topic);
      hide Hears;
    }
  }

  lemma StepMatches(topicsOf: Handler -> seq<string>, b: Bus, r: Roster, op: Op)
    requires Matches(topicsOf, b, r) && forall h :: Distinct(topicsOf(h))
    ensures Matches(topicsOf, Step(topicsOf, b, op), RosterStep(topicsOf, r, op))
  {
    var c, s := Step(topicsOf, b, op), RosterStep(topicsOf, r, op);
    match op
    case Start(h) =>
      if h !in b.started {
        forall topic ensures Of(c.callbacks, topic) == Listening(topicsOf, s.running, topic) {
          InsertsAll(b.callbacks, topicsOf(h), h, topic);
          ListeningMore(topicsOf, r.running, h, topic);
        }
      }
    case Stop(h) =>
      DropDistinct(r.running, h);
      if h !in r.running {
        assert r.running[..|r.running|] == r.running;
        DropsAt(r.running, h, |r.running|);
      }
      forall topic ensures Of(c.callbacks, topic) == Listening(topicsOf, s.running, topic) {
        ErasesAll(b.callbacks, topicsOf(h), h, topic);
        ListeningLess(topicsOf, r.running, h, topic);
      }
    case Message(_, _) =>
  }

  /** Over every run of starts, stops and messages of any number of components: each decoded message
      is handed once to every component that is running and listens to its topic, in the order in
      which they were started, and to no other. */
  lemma {:induction false} RunMatches(topicsOf: Handler -> seq<string>, b: Bus, r: Roster, ops: seq<Op>)
    requires Matches(topicsOf, b, r) && forall h :: Distinct(topicsOf(h))
    ensures Matches(topicsOf, Run(topicsOf, b, ops), RosterRun(topicsOf, r, ops))
    decreases |ops|
  {
    hide Step, RosterStep, Matches;
    if ops == [] {
    } else {
      StepMatches(topicsOf, b, r, ops[0]);
      RunMatches(topicsOf, Step(topicsOf, b, ops[0]), RosterStep(topicsOf, r, ops[0]), ops[1..]);
    }
  }

  // ---------------------------------------------------------------- the two components

  const APP: Handler := 0
  const MANAGER: Handler := 1

  const APP_TOPICS := ["IPCRegisterResp", "LiveMediaStream", "LiveMediaStartReq", "LiveMediaStopReq", "PZTSendReq"]
  const MANAGER_TOPICS := ["SDSInfoResp", "PlanChgReq", "PlanDelReq", "IpcChangeReq", "SdsChangeReq"]

  function TopicsOf(h: Handler): seq<string> {
    if h == APP then APP_TOPICS else if h == MANAGER then MANAGER_TOPICS else []
  }

  lemma TopicsDiffer()
    ensures Distinct(APP_TOPICS) && Distinct(MANAGER_TOPICS) && forall t <- APP_TOPICS :: t !in MANAGER_TOPICS
  {
    var a, m := APP_TOPICS, MANAGER_TOPICS;
    assert |a[0]| == 15 && |a[1]| == 15 && |a[2]| == 17 && |a[3]| == 16 && |a[4]| == 10;
    assert |m[0]| == 11 && |m[1]| == 10 && |m[2]| == 10 && |m[3]| == 12 && |m[4]| == 12;
    assert a[0][0] == 'I' && a[1][0] == 'L' && a[4][1] == 'Z';
    assert m[1][4] == 'C' && m[2][4] == 'D' && m[1][1] == 'l' && m[2][1] == 'l' && m[3][0] == 'I' && m[4][0] == 'S';
  }

  /** Who handles a topic, if it runs. */
  function OwnersOf(topic: string): seq<Handler> {
    if topic in APP_TOPICS then [APP] else if topic in MANAGER_TOPICS then [MANAGER] else []
  }

  /** Only owners listen. */
  lemma HearsOwned(h: Handler, topic: string)
    ensures Hears(TopicsOf, h, topic) == if h in OwnersOf(topic) then [h] else []
  {
    TopicsDiffer();
  }

  lemma {:induction false} OwnersListen(running: seq<Handler>, topic: string)
    requires Distinct(running)
    ensures Listening(TopicsOf, running, topic)
            == if OwnersOf(topic) != [] && OwnersOf(topic)[0] in running then OwnersOf(topic) else []
  {
    ListeningNone(TopicsOf, topic);
    hide Listening, Hears, TopicsOf, Distinct;
    if running == [] {
    } else {
      RestDistinct(running);
      OwnersListen(running[1..], topic);
      ListeningFirst(TopicsOf, running, topic);
      HearsOwned(running[0], topic);
      assert running == [running[0]] + running[1..];
    }
  }

  lemma RestDistinct(s: seq<Handler>)
    requires Distinct(s) && s != []
    ensures Distinct(s[1..]) && s[0] !in s[1..]
  {
  }

  lemma NothingYet()
    ensures Matches(TopicsOf, Bus(map[], {}, []), Roster([], []))
  {
  }

  /** A component runs if its last start has not been followed by a stop. */
  predicate Runs(ops: seq<Op>, h: Handler) {
    ops != []
    && match ops[|ops| - 1]
       case Start(k) => k == h || Runs(ops[..|ops| - 1], h)
       case Stop(k) => k != h && Runs(ops[..|ops| - 1], h)
       case Message(_, _) => Runs(ops[..|ops| - 1], h)
  }

  lemma {:induction false} RunSnoc(topicsOf: Handler -> seq<string>, b: Bus, ops: seq<Op>, op: Op)
    ensures Run(topicsOf, b, ops + [op]) == Step(topicsOf, Run(topicsOf, b, ops), op)
    decreases |ops|
  {
    hide Step;
    if ops == [] {
      assert ops + [op] == [op] && [op][1..] == [];
    } else {
      assert (ops + [op])[0] == ops[0] && (ops + [op])[1..] == ops[1..] + [op];
      RunSnoc(topicsOf, Step(topicsOf, b, ops[0]), ops[1..], op);
    }
  }

  lemma {:induction false} StartedRuns(topicsOf: Handler -> seq<string>, ops: seq<Op>, h: Handler)
    ensures h in Run(topicsOf, Bus(map[], {}, []), ops).started <==> Runs(ops, h)
    decreases |ops|
  {
    if ops == [] {
    } else {
      var front := ops[..|ops| - 1];
      assert ops == front + [ops[|ops| - 1]];
      StartedRuns(topicsOf, front, h);
      RunSnoc(topicsOf, Bus(map[], {}, []), front, ops[|ops| - 1]);
      hide Run;
    }
  }

  /** From the start of the program, whatever starts, stops and arrives: a response to a registration, a live
      request or a camera command is handled by the application, a plan, directory or address change by the
      channel manager, once and if it is running; and any other message by nobody. */
  lemma EachHandler(ops: seq<Op>, topic: string, payload: string)
    ensures var b := Run(TopicsOf, Bus(map[], {}, []), ops);
            Step(TopicsOf, b, Message(topic, payload)).handled == b.handled +
              if topic in {"IPCRegisterResp", "LiveMediaStream", "LiveMediaStartReq", "LiveMediaStopReq", "PZTSendReq"}
              then if Runs(ops, 0) then [Handled(0, topic, payload)] else []
              else if topic in {"SDSInfoResp", "PlanChgReq", "PlanDelReq", "IpcChangeReq", "SdsChangeReq"}
              then if Runs(ops, 1) then [Handled(1, topic, payload)] else []
              else []
  {
    OneHandler(ops, topic, payload);
    StartedRuns(TopicsOf, ops, 0);
    StartedRuns(TopicsOf, ops, 1);
    TopicsDiffer();
    hide Run, Step, Runs, TopicsOf;
  }

  /** In other words: by the owner of the topic. */
  lemma OneHandler(ops: seq<Op>, topic: string, payload: string)
    ensures var b := Run(TopicsOf, Bus(map[], {}, []), ops);
            Step(TopicsOf, b, Message(topic, payload)).handled
            == b.handled + if OwnersOf(topic) != [] && OwnersOf(topic)[0] in b.started
                           then [Handled(OwnersOf(topic)[0], topic, payload)] else []
  {
    TopicsDiffer();
    DecodedTopics();
    NothingYet();
    assert OwnersOf(topic) != [] ==> topic in DECODED;
    assert forall h :: Distinct(TopicsOf(h));
    hide Run, RosterRun, TopicsOf;
    RunMatches(TopicsOf, Bus(map[], {}, []), Roster([], []), ops);
    var b, r := Run(TopicsOf, Bus(map[], {}, []), ops), RosterRun(TopicsOf, Roster([], []), ops);
    OwnersListen(r.running, topic);
    assert Of(b.callbacks, topic) == Listening(TopicsOf, r.running, topic);
    assert OwnersOf(topic) != [] ==> OwnersOf(topic) == [OwnersOf(topic)[0]];
    HandedToOne(if OwnersOf(topic) != [] then OwnersOf(topic)[0] else APP, topic, payload);
    hide Of, HandedTo, Listening, OwnersOf;
  }

  lemma HandedToOne(h: Handler, topic: string, payload: string)
    ensures HandedTo([h], topic, payload) == [Handled(h, topic, payload)] && HandedTo([], topic, payload) == []
  {
    assert [h][1..] == [];
  }
}
