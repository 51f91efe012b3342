/** The channel map: which camera records into which StreamFile and feeds which live client.

    StreamFiles and live clients are numbered in the order of their creation and referred to by
    number, as the program refers to them by pointer; a deleted one keeps its number. */
module Channels {
  import opened Bytes
  import opened Keys
  import opened LiveClients
  import R = Recorder

  datatype Viewer = NoViewer | Viewer(id: nat)

  datatype Channel = Channel(file: nat, needLive: bool, viewer: Viewer, plan: string, fmt: string,
                             dir: string, limit: real, flag: int)

  /** `asked` lists the cameras whose plan and directory have been asked for. */
  datatype Mgr = Mgr(configured: int, chans: map<string, Channel>, files: seq<R.State>, clients: seq<Client>,
                     asked: seq<string>)

  datatype Event =
    | Add(addr: string, port: int, fmt: string)
    | SetFmt(addr: string, port: int, fmt: string)
    | Rtp(addr: string, port: int, payload: seq<byte>)
    | Remove(addr: string, port: int)
    | LiveStart(url: string, connects: bool)
    | LiveStop(url: string)
    | Replan(url: string, dir: string, limit: real, flag: int, plan: string)
    | PlanDel(url: string)
    | NewDir(url: string, dir: string)
    | Rename(from: string, to: string)
    | Uninit

  function Init(configured: int): (m: Mgr)
    ensures Owned(m)
  {
    Mgr(configured, map[], [], [], [])
  }

  // ---------------------------------------------------------------- the handlers

  /** A channel that records nothing until a plan arrives. */
  function Fresh(file: nat, fmt: string): Channel { Channel(file, false, NoViewer, "", fmt, "", 0.0, 0) }

  function Create(m: Mgr, url: string, fmt: string): Mgr {
    m.(chans := m.chans[url := Fresh(|m.files|, fmt)], files := m.files + [R.New(|m.files|, m.configured)],
       asked := m.asked + Asks(url))
  }

  function Asks(url: string): seq<string> { if url != "" then [url] else [] }

  function SetChannel(m: Mgr, url: string, c: Channel): Mgr { m.(chans := m.chans[url := c]) }

  /** Deleting a StreamFile writes its buffer out and closes its file. */
  function DeleteFile(w: R.World, m: Mgr, i: nat): Mgr
    requires i < |m.files|
  {
    m.(files := m.files[i := R.Step(w, m.files[i], R.Drain)])
  }

  function CloseClient(m: Mgr, v: Viewer): Mgr
    requires v.Viewer? ==> v.id < |m.clients|
  {
    if v.Viewer? then m.(clients := m.clients[v.id := m.clients[v.id].(isOpen := false)]) else m
  }

  function DropViewer(m: Mgr, url: string): Mgr
    requires Linked(m)
  {
    if url in m.chans && m.chans[url].viewer.Viewer?
    then SetChannel(CloseClient(m, m.chans[url].viewer), url, m.chans[url].(viewer := NoViewer, needLive := false))
    else m
  }

  function AttachViewer(m: Mgr, url: string): Mgr {
    var n := m.(clients := m.clients + [Client(url, true, [])]);
    var o := if url in n.chans then n else Create(n, url, "");
    SetChannel(o, url, o.chans[url].(viewer := Viewer(|m.clients|), needLive := true))
  }

  /** Whether a payload for this channel is recorded. */
  predicate Records(c: Channel, payload: seq<byte>) { payload != [] && c.dir != "" && c.flag != 0 }

  function Record(w: R.World, m: Mgr, key: string, c: Channel, payload: seq<byte>): Mgr
    requires c.file < |m.files|
  {
    if Records(c, payload)
    then m.(files := m.files[c.file := R.Step(w, m.files[c.file], WriteOf(key, c, payload))])
    else m
  }

  /** What the channel's StreamFile is asked to write. */
  function WriteOf(key: string, c: Channel, payload: seq<byte>): R.Op {
    R.Write(R.Payload(key, c.dir, payload), c.fmt, c.limit, c.plan)
  }

  function Forward(m: Mgr, key: string, c: Channel, payload: seq<byte>): Mgr
    requires c.viewer.Viewer? ==> c.viewer.id < |m.clients|
  {
    if c.needLive && c.viewer.Viewer?
    then m.(clients := m.clients[c.viewer.id := Handed(m.clients[c.viewer.id], key, payload)])
    else m
  }

  /** The StreamFiles that some channel uses. */
  function Mapped(m: Mgr): set<nat> { set u <- m.chans :: m.chans[u].file }

  function DrainAll(w: R.World, files: seq<R.State>, ids: set<nat>): seq<R.State> {
    seq(|files|, i requires 0 <= i < |files| => if i in ids then R.Step(w, files[i], R.Drain) else files[i])
  }

  /** Every channel points to a StreamFile and a client that exist. */
  predicate Linked(m: Mgr) {
    forall u <- m.chans ::
      m.chans[u].file < |m.files| && (m.chans[u].viewer.Viewer? ==> m.chans[u].viewer.id < |m.clients|)
  }

  function Step(w: R.World, m: Mgr, e: Event): Mgr
    requires Linked(m)
  {
    match e
    case Add(addr, port, fmt) =>
      var key := IpcUrl(addr, port);
      if key in m.chans then SetChannel(m, key, m.chans[key].(fmt := fmt)) else Create(m, key, fmt)
    case SetFmt(addr, port, fmt) =>
      var key := IpcUrl(addr, port);
      if key in m.chans then SetChannel(m, key, m.chans[key].(fmt := fmt)) else m
    case Rtp(addr, port, payload) =>
      var key := IpcUrl(addr, port);
      if key in m.chans
      then Forward(Record(w, m, key, m.chans[key], payload), key, m.chans[key], payload)
      else m
    case Remove(addr, port) =>
      var key := IpcUrl(addr, port);
      if key in m.chans
      then CloseClient(DeleteFile(w, m, m.chans[key].file), m.chans[key].viewer).(chans := m.chans - {key})
      else m
    case LiveStart(url, connects) =>
      var n := DropViewer(m, url);
      if connects then AttachViewer(n, url) else n
    case LiveStop(url) => DropViewer(m, url)
    case Replan(url, dir, limit, flag, plan) =>
      if url in m.chans
      then SetChannel(m, url, m.chans[url].(dir := dir, limit := limit, flag := flag, plan := plan)) else m
    case PlanDel(url) =>
      if url in m.chans then SetChannel(m, url, m.chans[url].(flag := 0)) else m
    case NewDir(url, dir) =>
      if url in m.chans then SetChannel(m, url, m.chans[url].(dir := dir)) else m
    case Rename(from, to) =>
      if from in m.chans then m.(chans := (m.chans - {from})[to := m.chans[from]]) else m
    case Uninit => m.(chans := map[], files := DrainAll(w, m.files, Mapped(m)))
  }

  /** Renaming a registered camera to itself frees its channel and goes on using it: no run does so. */
  predicate Defined(m: Mgr, e: Event) { e.Rename? && e.from in m.chans ==> e.from != e.to }

  // ---------------------------------------------------------------- ownership

  /** No two channels share a StreamFile or a client; a channel asks for live data exactly if it has
      a client, and that client is open. */
  predicate Owned(m: Mgr) {
    && Linked(m)
    && (forall u <- m.chans, v <- m.chans :: u != v ==>
          m.chans[u].file != m.chans[v].file
          && (m.chans[u].viewer.Viewer? ==> m.chans[u].viewer != m.chans[v].viewer))
    && (forall u <- m.chans ::
          var c := m.chans[u];
          (c.needLive <==> c.viewer.Viewer?) && (c.viewer.Viewer? ==> m.clients[c.viewer.id].isOpen))
  }

  lemma SettingsOwned(m: Mgr, url: string, c: Channel)
    requires Owned(m) && url in m.chans
    requires c.file == m.chans[url].file && c.viewer == m.chans[url].viewer && c.needLive == m.chans[url].needLive
    ensures Owned(SetChannel(m, url, c))
  {
  }

  lemma CreateOwned(m: Mgr, url: string, fmt: string)
    requires Owned(m) && url !in m.chans
    ensures Owned(Create(m, url, fmt))
  {
    hide R.New;
  }

  lemma DropOwned(m: Mgr, url: string)
    requires Owned(m)
    ensures Owned(DropViewer(m, url))
  {
  }

  /** A new client is known to no channel yet. */
  lemma ClientOwned(m: Mgr, c: Client)
    requires Owned(m)
    ensures var n := m.(clients := m.clients + [c]);
            Owned(n) && forall u <- n.chans :: n.chans[u].viewer != Viewer(|m.clients|)
  {
  }

  lemma ViewerOwned(m: Mgr, url: string, id: nat)
    requires Owned(m) && url in m.chans && id < |m.clients| && m.clients[id].isOpen
    requires forall u <- m.chans :: m.chans[u].viewer != Viewer(id)
    ensures Owned(SetChannel(m, url, m.chans[url].(viewer := Viewer(id), needLive := true)))
  {
  }

  lemma AttachOwned(m: Mgr, url: string)
    requires Owned(m)
    ensures Owned(AttachViewer(m, url))
  {
    hide Owned, SetChannel;
    var n := m.(clients := m.clients + [Client(url, true, [])]);
    ClientOwned(m, Client(url, true, []));
    if url !in n.chans {
      CreateOwned(n, url, "");
      CreateAdds(n, url);
      hide Create;
      ViewerOwned(Create(n, url, ""), url, |m.clients|);
    } else {
      ViewerOwned(n, url, |m.clients|);
    }
  }

  lemma CreateAdds(m: Mgr, url: string)
    ensures var n := Create(m, url, "");
            n.clients == m.clients && n.chans == m.chans[url := Fresh(|m.files|, "")] && |n.files| == |m.files| + 1
  {
  }

  lemma RecordOwned(w: R.World, m: Mgr, key: string, c: Channel, payload: seq<byte>)
    requires Owned(m) && c.file < |m.files|
    ensures Owned(Record(w, m, key, c, payload))
  {
    hide R.Step;
  }

  lemma RecordKeeps(w: R.World, m: Mgr, key: string, c: Channel, payload: seq<byte>)
    requires c.file < |m.files|
    ensures var n := Record(w, m, key, c, payload); n.chans == m.chans && n.clients == m.clients
  {
    hide R.Step;
  }

  lemma ForwardOwned(m: Mgr, key: string, c: Channel, payload: seq<byte>)
    requires Owned(m) && (c.viewer.Viewer? ==> c.viewer.id < |m.clients|)
    ensures Owned(Forward(m, key, c, payload))
  {
    hide Packets;
  }

  lemma RemoveOwned(w: R.World, m: Mgr, key: string)
    requires Owned(m) && key in m.chans
    ensures Owned(CloseClient(DeleteFile(w, m, m.chans[key].file), m.chans[key].viewer).(chans := m.chans - {key}))
  {
    hide R.Step;
  }

  lemma RenameOwned(m: Mgr, from: string, to: string)
    requires Owned(m) && from in m.chans && from != to
    ensures Owned(m.(chans := (m.chans - {from})[to := m.chans[from]]))
  {
    var n := m.(chans := (m.chans - {from})[to := m.chans[from]]);
    forall u <- n.chans, v <- n.chans | u != v
      ensures n.chans[u].file != n.chans[v].file
              && (n.chans[u].viewer.Viewer? ==> n.chans[u].viewer != n.chans[v].viewer)
    {
      var u0, v0 := if u == to then from else u, if v == to then from else v;
      assert u0 in m.chans && v0 in m.chans && u0 != v0;
    }
  }

  lemma StepOwned(w: R.World, m: Mgr, e: Event)
    requires Owned(m) && Defined(m, e)
    ensures Owned(Step(w, m, e))
  {
    hide Owned, Create, DropViewer, AttachViewer, SetChannel, Record, Forward, CloseClient, DeleteFile, IpcUrl;
    match e
    case Add(addr, port, fmt) =>
      var key := IpcUrl(addr, port);
      if key in m.chans {
        SettingsOwned(m, key, m.chans[key].(fmt := fmt));
      } else {
        CreateOwned(m, key, fmt);
      }
    case SetFmt(addr, port, fmt) =>
      var key := IpcUrl(addr, port);
      if key in m.chans {
        SettingsOwned(m, key, m.chans[key].(fmt := fmt));
      }
    case Rtp(addr, port, payload) =>
      var key := IpcUrl(addr, port);
      if key in m.chans {
        OwnedLinked(m);
        RecordKeeps(w, m, key, m.chans[key], payload);
        RecordOwned(w, m, key, m.chans[key], payload);
        ForwardOwned(Record(w, m, key, m.chans[key], payload), key, m.chans[key], payload);
      }
    case Remove(addr, port) =>
      if IpcUrl(addr, port) in m.chans {
        RemoveOwned(w, m, IpcUrl(addr, port));
      }
    case LiveStart(url, connects) =>
      DropOwned(m, url);
      DropKeeps(m, url);
      if connects {
        AttachOwned(DropViewer(m, url), url);
      }
    case LiveStop(url) =>
      DropOwned(m, url);
    case Replan(url, dir, limit, flag, plan) =>
      if url in m.chans {
        SettingsOwned(m, url, m.chans[url].(dir := dir, limit := limit, flag := flag, plan := plan));
      }
    case PlanDel(url) =>
      if url in m.chans {
        SettingsOwned(m, url, m.chans[url].(flag := 0));
      }
    case NewDir(url, dir) =>
      if url in m.chans {
        SettingsOwned(m, url, m.chans[url].(dir := dir));
      }
    case Rename(from, to) =>
      if from in m.chans {
        RenameOwned(m, from, to);
      }
    case Uninit =>
      UninitOwned(w, m);
  }

  lemma OwnedLinked(m: Mgr)
    requires Owned(m)
    ensures Linked(m)
  {
  }

  lemma DropKeeps(m: Mgr, url: string)
    requires Owned(m)
    ensures Linked(m) && Linked(DropViewer(m, url))
  {
  }

  lemma UninitOwned(w: R.World, m: Mgr)
    ensures Owned(m.(chans := map[], files := DrainAll(w, m.files, Mapped(m))))
  {
  }

  /** The camera an event may make a channel for. */
  function MadeFor(e: Event): string {
    match e
    case Add(addr, port, _) => IpcUrl(addr, port)
    case LiveStart(url, _) => url
    case _ => ""
  }

  /** A step makes at most one channel, for a camera that had none, and asks for that camera's plan. */
  lemma StepAsks(w: R.World, m: Mgr, e: Event)
    requires Owned(m)
    ensures var n, u := Step(w, m, e), MadeFor(e);
            if |n.files| == |m.files| then n.asked == m.asked
            else u in n.chans && u !in m.chans && n.chans[u].file == |m.files|
                 && n.asked == m.asked + (if u != "" then [u] else [])
  {
    hide R.Step, R.New, Packets, IpcUrl, DropViewer, AttachViewer;
    if e.LiveStart? || e.LiveStop? {
      DropAsks(m, e.url);
      AttachAsks(DropViewer(m, e.url), e.url);
    }
  }

  lemma DropAsks(m: Mgr, url: string)
    requires Linked(m)
    ensures var n := DropViewer(m, url); n.chans.Keys == m.chans.Keys && n.files == m.files && n.asked == m.asked
  {
  }

  lemma AttachAsks(m: Mgr, url: string)
    ensures var n := AttachViewer(m, url);
            && url in n.chans && n.asked == (if url in m.chans then m.asked else m.asked + Asks(url))
            && |n.files| == |m.files| + (if url in m.chans then 0 else 1)
            && (url !in m.chans ==> n.chans[url].file == |m.files|)
  {
    hide R.New;
  }

  // ---------------------------------------------------------------- the tapes behind the files

  /** The recorder without buffers, files and sockets: each channel has a tape, the settings it was
      given last, and the number of its viewer, who are numbered in the order in which they came. */
  datatype Route = Route(file: nat, viewer: Viewer, dir: string, flag: int, limit: real, plan: string, fmt: string)
  datatype Tapes = Tapes(routes: map<string, Route>, tapes: seq<seq<R.Payload>>, viewers: nat)

  function View(m: Mgr): Tapes {
    Tapes(Routes(m.chans), seq(|m.files|, i requires 0 <= i < |m.files| => R.Tape(m.files[i])), |m.clients|)
  }

  function Routes(chans: map<string, Channel>): map<string, Route> { map u <- chans :: RouteOf(chans[u]) }

  function RouteOf(c: Channel): Route { Route(c.file, c.viewer, c.dir, c.flag, c.limit, c.plan, c.fmt) }

  /** A camera that is not recorded yet. */
  function NewTape(t: Tapes, url: string, fmt: string): Tapes {
    t.(routes := t.routes[url := Route(|t.tapes|, NoViewer, "", 0, 0.0, "", fmt)], tapes := t.tapes + [[]])
  }

  function Watched(t: Tapes, url: string, v: Viewer): Tapes {
    if url in t.routes then t.(routes := t.routes[url := t.routes[url].(viewer := v)]) else t
  }

  function TapeStep(t: Tapes, e: Event): Tapes {
    match e
    case Add(addr, port, fmt) =>
      var key := IpcUrl(addr, port);
      if key in t.routes then t.(routes := t.routes[key := t.routes[key].(fmt := fmt)]) else NewTape(t, key, fmt)
    case SetFmt(addr, port, fmt) =>
      var key := IpcUrl(addr, port);
      if key in t.routes then t.(routes := t.routes[key := t.routes[key].(fmt := fmt)]) else t
    case Rtp(addr, port, payload) =>
      var key := IpcUrl(addr, port);
      if key in t.routes && payload != [] && t.routes[key].dir != "" && t.routes[key].flag != 0
         && t.routes[key].file < |t.tapes|
      then
        var f := t.routes[key].file;
        t.(tapes := t.tapes[f := t.tapes[f] + [R.Payload(key, t.routes[key].dir, payload)]])
      else t
    case Remove(addr, port) => t.(routes := t.routes - {IpcUrl(addr, port)})
    case LiveStart(url, connects) =>
      if connects
      then Watched(if url in t.routes then t else NewTape(t, url, ""), url, Viewer(t.viewers)).(viewers := t.viewers + 1)
      else Watched(t, url, NoViewer)
    case LiveStop(url) => Watched(t, url, NoViewer)
    case Replan(url, dir, limit, flag, plan) =>
      if url in t.routes
      then t.(routes := t.routes[url := t.routes[url].(dir := dir, limit := limit, flag := flag, plan := plan)]) else t
    case PlanDel(url) => if url in t.routes then t.(routes := t.routes[url := t.routes[url].(flag := 0)]) else t
    case NewDir(url, dir) => if url in t.routes then t.(routes := t.routes[url := t.routes[url].(dir := dir)]) else t
    case Rename(from, to) =>
      if from in t.routes then t.(routes := (t.routes - {from})[to := t.routes[from]]) else t
    case Uninit => t.(routes := map[])
  }

  /** What a step does to the StreamFiles. */
  function FilesAfter(w: R.World, m: Mgr, e: Event): seq<R.State>
    requires Linked(m)
  {
    match e
    case Add(addr, port, _) => if IpcUrl(addr, port) in m.chans then m.files else MoreFiles(m)
    case Rtp(addr, port, payload) =>
      var key := IpcUrl(addr, port);
      if key in m.chans && Records(m.chans[key], payload)
      then
        var f := m.chans[key].file;
        m.files[f := R.Step(w, m.files[f], WriteOf(key, m.chans[key], payload))]
      else m.files
    case Remove(addr, port) =>
      var key := IpcUrl(addr, port);
      if key in m.chans
      then m.files[m.chans[key].file := R.Step(w, m.files[m.chans[key].file], R.Drain)]
      else m.files
    case LiveStart(url, connects) => if !connects || url in m.chans then m.files else MoreFiles(m)
    case Uninit => DrainAll(w, m.files, Mapped(m))
    case _ => m.files
  }

  function MoreFiles(m: Mgr): seq<R.State> { m.files + [R.New(|m.files|, m.configured)] }

  lemma StepFiles(w: R.World, m: Mgr, e: Event)
    requires Linked(m)
    ensures Step(w, m, e).files == FilesAfter(w, m, e) && Step(w, m, e).configured == m.configured
  {
    hide R.Step, R.New, Packets, IpcUrl;
  }

  lemma RoutesUpdate(chans: map<string, Channel>, url: string, c: Channel)
    ensures Routes(chans[url := c]) == Routes(chans)[url := RouteOf(c)]
    ensures Routes(chans - {url}) == Routes(chans) - {url}
    ensures url in chans && RouteOf(c) == RouteOf(chans[url]) ==> Routes(chans[url := c]) == Routes(chans)
  {
  }

  lemma RoutesKeys(chans: map<string, Channel>)
    ensures Routes(chans).Keys == chans.Keys
  {
  }

  lemma DropRoutes(m: Mgr, url: string)
    requires Linked(m)
    ensures var n := DropViewer(m, url);
            && Routes(n.chans) == Watched(View(m), url, NoViewer).routes
            && n.files == m.files && |n.clients| == |m.clients|
  {
    hide R.Tape;
    if url in m.chans {
      RoutesUpdate(m.chans, url, m.chans[url].(viewer := NoViewer, needLive := false));
      RoutesUpdate(m.chans, url, m.chans[url]);
    }
  }

  lemma AttachRoutes(m: Mgr, url: string)
    ensures var n := AttachViewer(m, url);
            && |n.clients| == |m.clients| + 1
            && Routes(n.chans) == Routes(m.chans)[url := (if url in m.chans then RouteOf(m.chans[url])
                 else Route(|m.files|, NoViewer, "", 0, 0.0, "", "")).(viewer := Viewer(|m.clients|))]
  {
    var n := if url in m.chans then m.chans else m.chans[url := Fresh(|m.files|, "")];
    RoutesUpdate(m.chans, url, Fresh(|m.files|, ""));
    RoutesUpdate(n, url, n[url].(viewer := Viewer(|m.clients|), needLive := true));
  }

  lemma LiveRoutes(w: R.World, m: Mgr, e: Event)
    requires Linked(m) && (e.LiveStart? || e.LiveStop?)
    ensures Routes(Step(w, m, e).chans) == TapeStep(View(m), e).routes
  {
    hide R.Tape, DropViewer, AttachViewer, RouteOf;
    var n := DropViewer(m, e.url);
    DropRoutes(m, e.url);
    RoutesKeys(m.chans);
    RoutesKeys(n.chans);
    assert e.url in Routes(m.chans) <==> e.url in m.chans;
    assert e.url in Routes(n.chans) <==> e.url in n.chans;
    if e.LiveStart? && e.connects {
      AttachRoutes(n, e.url);
    }
  }

  lemma SettingRoutes(w: R.World, m: Mgr, e: Event)
    requires Linked(m) && (e.Replan? || e.PlanDel? || e.NewDir?)
    ensures Routes(Step(w, m, e).chans) == TapeStep(View(m), e).routes
  {
    hide R.Tape;
    if e.url in m.chans {
      var c := m.chans[e.url];
      var d := match e
        case Replan(_, dir, limit, flag, plan) => c.(dir := dir, limit := limit, flag := flag, plan := plan)
        case NewDir(_, dir) => c.(dir := dir)
        case _ => c.(flag := 0);
      RoutesUpdate(m.chans, e.url, d);
    }
  }

  lemma KeyRoutes(w: R.World, m: Mgr, e: Event)
    requires Linked(m) && (e.Add? || e.SetFmt? || e.Rtp? || e.Remove?)
    ensures Routes(Step(w, m, e).chans) == TapeStep(View(m), e).routes
  {
    hide R.Step, R.New, R.Tape, Packets, IpcUrl;
    var key := IpcUrl(e.addr, e.port);
    if key in m.chans {
      RoutesUpdate(m.chans, key, if e.Add? || e.SetFmt? then m.chans[key].(fmt := e.fmt) else m.chans[key]);
    } else if e.Add? {
      RoutesUpdate(m.chans, key, Fresh(|m.files|, e.fmt));
    }
  }

  lemma StepRoutes(w: R.World, m: Mgr, e: Event)
    requires Linked(m)
    ensures Routes(Step(w, m, e).chans) == TapeStep(View(m), e).routes
  {
    hide R.Step, R.Tape, DrainAll, DropViewer, AttachViewer;
    if e.Replan? || e.PlanDel? || e.NewDir? {
      SettingRoutes(w, m, e);
    } else if e.Add? || e.SetFmt? || e.Rtp? || e.Remove? {
      KeyRoutes(w, m, e);
    } else if e.Rename? {
      if e.from in m.chans {
        RoutesUpdate(m.chans, e.from, m.chans[e.from]);
        RoutesUpdate(m.chans - {e.from}, e.to, m.chans[e.from]);
      }
    } else if e.LiveStart? || e.LiveStop? {
      LiveRoutes(w, m, e);
    }
  }

  lemma StepTapes(w: R.World, m: Mgr, e: Event)
    requires Linked(m)
    ensures View(Step(w, m, e)).tapes == TapeStep(View(m), e).tapes
  {
    hide Step, R.Step, R.New, R.Tape, IpcUrl;
    StepFiles(w, m, e);
    R.NewIsEmpty(|m.files|, m.configured);
    if e.Rtp? {
      var key := IpcUrl(e.addr, e.port);
      if key in m.chans {
        R.StepKeepsAll(w, m.files[m.chans[key].file], WriteOf(key, m.chans[key], e.payload));
      }
    } else {
      forall i | 0 <= i < |m.files| ensures R.Tape(R.Step(w, m.files[i], R.Drain)) == R.Tape(m.files[i]) {
        R.StepKeepsAll(w, m.files[i], R.Drain);
      }
    }
  }

  lemma StepViewers(w: R.World, m: Mgr, e: Event)
    requires Linked(m)
    ensures View(Step(w, m, e)).viewers == TapeStep(View(m), e).viewers
  {
    hide R.Step, R.New, R.Tape, Packets, IpcUrl, DrainAll, DropViewer, AttachViewer, Routes;
    if e.LiveStart? || e.LiveStop? {
      DropRoutes(m, e.url);
      AttachRoutes(DropViewer(m, e.url), e.url);
    }
  }

  /** The manager with its buffers and files does what the tapes do. */
  lemma StepRefines(w: R.World, m: Mgr, e: Event)
    requires Linked(m)
    ensures View(Step(w, m, e)) == TapeStep(View(m), e)
  {
    hide Step, TapeStep, Routes, R.Tape;
    StepRoutes(w, m, e);
    StepTapes(w, m, e);
    StepViewers(w, m, e);
  }
}
