/** The channel manager as it runs: a map of channel records that its handlers change in place. */
module StreamManager {
  import opened Bytes
  import opened Keys
  import opened LiveClients
  import opened StreamFiles
  import opened Channels
  import R = Recorder

  /** One record of the map, with the objects it points to. */
  datatype StreamChannel = StreamChannel(
    streamFile: StreamFile, needLive: bool, planId: string, fmt: string, liveCli: LiveRtpCli?,
    filePath: string, fileSize: real, flag: int)

  /** A record is what the abstract state says it is, objects for numbers. */
  ghost predicate Shows(c: StreamChannel, a: Channel, fileOf: seq<StreamFile>, cliOf: seq<LiveRtpCli>) {
    && a.file < |fileOf| && c.streamFile == fileOf[a.file]
    && (if a.viewer.Viewer? then a.viewer.id < |cliOf| && c.liveCli == cliOf[a.viewer.id] else c.liveCli == null)
    && c.needLive == a.needLive && c.planId == a.plan && c.fmt == a.fmt
    && c.filePath == a.dir && c.fileSize == a.limit && c.flag == a.flag
  }

  ghost predicate Match(channels: map<string, StreamChannel>, chans: map<string, Channel>,
                        fileOf: seq<StreamFile>, cliOf: seq<LiveRtpCli>)
  {
    channels.Keys == chans.Keys && forall u <- channels :: Shows(channels[u], chans[u], fileOf, cliOf)
  }

  lemma MatchSet(channels: map<string, StreamChannel>, chans: map<string, Channel>, url: string, c: StreamChannel,
                 a: Channel, fileOf: seq<StreamFile>, cliOf: seq<LiveRtpCli>)
    requires Match(channels, chans, fileOf, cliOf) && Shows(c, a, fileOf, cliOf)
    ensures Match(channels[url := c], chans[url := a], fileOf, cliOf)
  {
  }

  lemma MatchLess(channels: map<string, StreamChannel>, chans: map<string, Channel>, url: string,
                  fileOf: seq<StreamFile>, cliOf: seq<LiveRtpCli>)
    requires Match(channels, chans, fileOf, cliOf)
    ensures Match(channels - {url}, chans - {url}, fileOf, cliOf)
  {
  }

  lemma MatchGrow(channels: map<string, StreamChannel>, chans: map<string, Channel>,
                  fileOf: seq<StreamFile>, cliOf: seq<LiveRtpCli>, files: seq<StreamFile>, clis: seq<LiveRtpCli>)
    requires Match(channels, chans, fileOf, cliOf)
    ensures Match(channels, chans, fileOf + files, cliOf + clis)
  {
  }

  lemma MatchCreate(channels: map<string, StreamChannel>, chans: map<string, Channel>, url: string,
                    fmt: string, fileOf: seq<StreamFile>, cliOf: seq<LiveRtpCli>, file: StreamFile)
    requires Match(channels, chans, fileOf, cliOf)
    ensures Match(channels[url := Unplanned(file, fmt)], chans[url := Fresh(|fileOf|, fmt)], fileOf + [file], cliOf)
  {
    MatchGrow(channels, chans, fileOf, cliOf, [file], []);
    assert cliOf + [] == cliOf;
    MatchSet(channels, chans, url, Unplanned(file, fmt), Fresh(|fileOf|, fmt), fileOf + [file], cliOf);
  }

  /** The record of a channel that records nothing until a plan arrives. */
  function Unplanned(file: StreamFile, fmt: string): StreamChannel {
    StreamChannel(file, false, "", fmt, null, "", 0.0, 0)
  }

  /** The StreamFiles are in the states the abstract manager has for them. */
  ghost predicate FilesOk(world: R.World, fileOf: seq<StreamFile>, files: seq<R.State>, repr: set<object>)
    reads repr
  {
    && |fileOf| == |files|
    && (forall i :: 0 <= i < |fileOf| ==>
          var f := fileOf[i];
          f in repr && f.writeBuf in repr && f.world == world && f.id == i && f.Valid() && f.st == files[i])
    && (forall i, j :: 0 <= i < j < |fileOf| ==> fileOf[i].writeBuf != fileOf[j].writeBuf)
  }

  lemma FilesSnoc(world: R.World, fileOf: seq<StreamFile>, files: seq<R.State>, repr: set<object>, file: StreamFile)
    requires FilesOk(world, fileOf, files, repr)
    requires file.world == world && file.id == |fileOf| && file.Valid() && file.writeBuf !in repr
    ensures FilesOk(world, fileOf + [file], files + [file.st], repr + {file, file.writeBuf})
  {
    hide StreamFile.Valid;
  }

  ghost predicate ClientsOk(cliOf: seq<LiveRtpCli>, clients: seq<Client>, repr: set<object>)
    reads repr
  {
    |cliOf| == |clients|
    && forall i :: 0 <= i < |cliOf| ==> cliOf[i] in repr && cliOf[i].number == i && cliOf[i].View() == clients[i]
  }

  lemma CreateIs(m: Mgr, url: string, fmt: string)
    ensures var n := Create(m, url, fmt);
            && n.configured == m.configured && n.clients == m.clients && n.asked == m.asked + Asks(url)
            && n.chans == m.chans[url := Fresh(|m.files|, fmt)]
            && n.files == m.files + [R.New(|m.files|, m.configured)]
  {
  }

  lemma ClientsSnoc(cliOf: seq<LiveRtpCli>, clients: seq<Client>, repr: set<object>, cli: LiveRtpCli)
    requires ClientsOk(cliOf, clients, repr) && cli.number == |cliOf|
    ensures ClientsOk(cliOf + [cli], clients + [cli.View()], repr + {cli})
  {
  }

  lemma FileAt(world: R.World, fileOf: seq<StreamFile>, files: seq<R.State>, repr: set<object>, k: nat)
    requires FilesOk(world, fileOf, files, repr) && k < |fileOf|
    ensures var f := fileOf[k];
            f in repr && f.writeBuf in repr && f.world == world && f.Valid() && k < |files| && f.st == files[k]
  {
    hide StreamFile.Valid;
  }

  lemma ClientAt(cliOf: seq<LiveRtpCli>, clients: seq<Client>, repr: set<object>, k: nat)
    requires ClientsOk(cliOf, clients, repr) && k < |cliOf|
    ensures cliOf[k] in repr && k < |clients| && cliOf[k].View() == clients[k]
  {
  }

  lemma ClientAtAll(cliOf: seq<LiveRtpCli>, clients: seq<Client>, repr: set<object>)
    requires ClientsOk(cliOf, clients, repr)
    ensures |cliOf| == |clients|
  {
  }

  lemma ShowsAt(channels: map<string, StreamChannel>, chans: map<string, Channel>,
                fileOf: seq<StreamFile>, cliOf: seq<LiveRtpCli>, url: string)
    requires Match(channels, chans, fileOf, cliOf) && url in channels
    ensures url in chans && Shows(channels[url], chans[url], fileOf, cliOf)
  {
  }

  /** The abstract state, the objects behind its numbers, and everything those are made of. */
  datatype Abstract = Abstract(
    m: Mgr, fileOf: seq<StreamFile>, cliOf: seq<LiveRtpCli>, fileRepr: set<object>, cliRepr: set<object>)

  ghost predicate Backed(mgr: object, world: R.World, channels: map<string, StreamChannel>, abs: Abstract)
    reads abs.fileRepr, abs.cliRepr
  {
    && mgr !in abs.fileRepr && mgr !in abs.cliRepr && abs.fileRepr !! abs.cliRepr
    && FilesOk(world, abs.fileOf, abs.m.files, abs.fileRepr)
    && ClientsOk(abs.cliOf, abs.m.clients, abs.cliRepr)
    && Match(channels, abs.m.chans, abs.fileOf, abs.cliOf)
    && Owned(abs.m)
  }

  /** What Backed says, for proofs that hide everything else. */
  lemma Parts(mgr: object, world: R.World, channels: map<string, StreamChannel>, abs: Abstract)
    requires Backed(mgr, world, channels, abs)
    ensures mgr !in abs.fileRepr && mgr !in abs.cliRepr && abs.fileRepr !! abs.cliRepr
    ensures |abs.fileOf| == |abs.m.files| && channels.Keys == abs.m.chans.Keys
    ensures FilesOk(world, abs.fileOf, abs.m.files, abs.fileRepr) && ClientsOk(abs.cliOf, abs.m.clients, abs.cliRepr)
    ensures Match(channels, abs.m.chans, abs.fileOf, abs.cliOf) && Owned(abs.m) && Linked(abs.m)
  {
  }

  lemma Whole(mgr: object, world: R.World, channels: map<string, StreamChannel>, abs: Abstract)
    requires mgr !in abs.fileRepr && mgr !in abs.cliRepr && abs.fileRepr !! abs.cliRepr
    requires FilesOk(world, abs.fileOf, abs.m.files, abs.fileRepr) && ClientsOk(abs.cliOf, abs.m.clients, abs.cliRepr)
    requires Match(channels, abs.m.chans, abs.fileOf, abs.cliOf) && Owned(abs.m)
    ensures Backed(mgr, world, channels, abs)
  {
  }

  /** With one more channel, and the StreamFile that was made for it. */
  ghost function Enlarged(abs: Abstract, url: string, fmt: string, file: StreamFile): (r: Abstract)
    ensures r.m == Create(abs.m, url, fmt) && r.cliOf == abs.cliOf && r.cliRepr == abs.cliRepr
    ensures |r.fileOf| == |abs.fileOf| + 1 && Grown(abs, r) && r.fileRepr == abs.fileRepr + {file, file.writeBuf}
  {
    Abstract(Create(abs.m, url, fmt), abs.fileOf + [file], abs.cliOf, abs.fileRepr + {file, file.writeBuf}, abs.cliRepr)
  }

  lemma CreateWhole(mgr: object, world: R.World, configured: int, channels: map<string, StreamChannel>,
                    url: string, fmt: string, abs: Abstract, file: StreamFile)
    requires Backed(mgr, world, channels, abs) && url !in channels && abs.m.configured == configured
    requires file.world == world && file.id == |abs.fileOf| && file.Valid() && file.st == R.New(file.id, configured)
    requires file.writeBuf !in abs.fileRepr && file !in abs.cliRepr && file.writeBuf !in abs.cliRepr
    requires mgr != file && mgr != file.writeBuf
    ensures Backed(mgr, world, channels[url := Unplanned(file, fmt)], Enlarged(abs, url, fmt, file))
  {
    Parts(mgr, world, channels, abs);
    hide Backed, Match, FilesOk, ClientsOk, Owned, Create, StreamFile.Valid, R.New, Unplanned;
    CreateIs(abs.m, url, fmt);
    CreateOwned(abs.m, url, fmt);
    MatchCreate(channels, abs.m.chans, url, fmt, abs.fileOf, abs.cliOf, file);
    FilesSnoc(world, abs.fileOf, abs.m.files, abs.fileRepr, file);
    Whole(mgr, world, channels[url := Unplanned(file, fmt)], Enlarged(abs, url, fmt, file));
  }

  /** The objects a record points to. */
  lemma RecordAt(channels: map<string, StreamChannel>, abs: Abstract, world: R.World, url: string)
    requires FilesOk(world, abs.fileOf, abs.m.files, abs.fileRepr) && ClientsOk(abs.cliOf, abs.m.clients, abs.cliRepr)
    requires Match(channels, abs.m.chans, abs.fileOf, abs.cliOf) && url in channels
    ensures url in abs.m.chans && |abs.fileOf| == |abs.m.files| && |abs.cliOf| == |abs.m.clients|
    ensures var a := abs.m.chans[url];
            && a.file < |abs.fileOf| && channels[url].streamFile == abs.fileOf[a.file]
            && abs.fileOf[a.file] in abs.fileRepr && abs.fileOf[a.file].writeBuf in abs.fileRepr
            && (if a.viewer.Viewer?
                then a.viewer.id < |abs.cliOf| && channels[url].liveCli == abs.cliOf[a.viewer.id]
                     && abs.cliOf[a.viewer.id] in abs.cliRepr
                else channels[url].liveCli == null)
  {
    hide StreamFile.Valid;
  }

  lemma DeletedFiles(w: R.World, m: Mgr, i: nat)
    requires i < |m.files|
    ensures DeleteFile(w, m, i).files == m.files[i := R.Step(w, m.files[i], R.Drain)]
  {
  }

  /** Objects are only ever added. */
  ghost predicate Grown(a: Abstract, b: Abstract) {
    a.fileOf <= b.fileOf && a.cliOf <= b.cliOf && a.fileRepr <= b.fileRepr && a.cliRepr <= b.cliRepr
  }

  /** `n` is what the handler of `e` makes of `m`. */
  ghost predicate Stepped(w: R.World, m: Mgr, e: Event, n: Mgr) {
    Linked(m) && n == Channels.Step(w, m, e)
  }

  /** What a record asks its StreamFile to write. */
  function WriteTo(c: StreamChannel, key: string, payload: seq<byte>): R.Op {
    R.Write(R.Payload(key, c.filePath, payload), c.fmt, c.fileSize, c.planId)
  }

  lemma RenameIs(w: R.World, m: Mgr, from: string, to: string)
    requires Linked(m)
    ensures Stepped(w, m, Rename(from, to),
                    if from in m.chans then m.(chans := (m.chans - {from})[to := m.chans[from]]) else m)
  {
  }

  /** What is left of the manager without a camera. */
  function Removed(w: R.World, m: Mgr, key: string): Mgr
    requires Linked(m) && key in m.chans
  {
    m.(chans := m.chans - {key}, files := DeleteFile(w, m, m.chans[key].file).files,
       clients := CloseClient(m, m.chans[key].viewer).clients)
  }

  lemma RemoveIs(w: R.World, m: Mgr, addr: string, port: int)
    requires Owned(m)
    ensures Linked(m)
    ensures var key := IpcUrl(addr, port);
            if key !in m.chans then Stepped(w, m, Remove(addr, port), m)
            else
              var n := Removed(w, m, key);
              && Stepped(w, m, Remove(addr, port), n) && Owned(n) && n.chans == m.chans - {key}
              && n.configured == m.configured && |n.files| == |m.files| && n.asked == m.asked
              && n.files == DeleteFile(w, m, m.chans[key].file).files
              && n.clients == CloseClient(m, m.chans[key].viewer).clients
  {
    hide IpcUrl, R.Step;
    if IpcUrl(addr, port) in m.chans {
      RemoveOwned(w, m, IpcUrl(addr, port));
    }
  }

  lemma RecordIs(w: R.World, m: Mgr, key: string, c: StreamChannel, a: Channel, payload: seq<byte>,
                 fileOf: seq<StreamFile>, cliOf: seq<LiveRtpCli>)
    requires Owned(m) && Shows(c, a, fileOf, cliOf) && a.file < |m.files|
    ensures a.file < |fileOf| && c.streamFile == fileOf[a.file]
    ensures var n := Record(w, m, key, a, payload);
            && n == m.(files := n.files) && Owned(n)
            && n.files == m.files[a.file :=
                 if payload != [] && c.filePath != "" && c.flag != 0
                 then R.Step(w, m.files[a.file], WriteTo(c, key, payload)) else m.files[a.file]]
  {
    RecordOwned(w, m, key, a, payload);
    hide R.Step, Owned;
  }

  lemma RtpIs(w: R.World, m: Mgr, addr: string, port: int, payload: seq<byte>)
    requires Owned(m)
    ensures Linked(m)
    ensures var key := IpcUrl(addr, port);
            if key !in m.chans then Stepped(w, m, Rtp(addr, port, payload), m)
            else
              var n := Record(w, m, key, m.chans[key], payload);
              && n.chans == m.chans && n.clients == m.clients
              && Stepped(w, m, Rtp(addr, port, payload), Forward(n, key, m.chans[key], payload))
  {
    hide IpcUrl, Forward;
    if IpcUrl(addr, port) in m.chans {
      RecordKeeps(w, m, IpcUrl(addr, port), m.chans[IpcUrl(addr, port)], payload);
    }
  }

  lemma MatchRename(channels: map<string, StreamChannel>, chans: map<string, Channel>, from: string, to: string,
                    fileOf: seq<StreamFile>, cliOf: seq<LiveRtpCli>)
    requires Match(channels, chans, fileOf, cliOf) && from in channels && from != to
    ensures from in chans
    ensures var rest := if to in channels then channels - {to} else channels;
            Match(rest[to := channels[from]] - {from}, (chans - {from})[to := chans[from]], fileOf, cliOf)
  {
    hide Shows;
  }

  lemma DropIs(w: R.World, m: Mgr, url: string)
    requires Linked(m)
    ensures var n := DropViewer(m, url);
            && Stepped(w, m, LiveStop(url), n)
            && n.configured == m.configured && n.files == m.files && n.asked == m.asked
            && if url in m.chans && m.chans[url].viewer.Viewer?
               then var a := m.chans[url];
                    n.clients == m.clients[a.viewer.id := m.clients[a.viewer.id].(isOpen := false)]
                    && n.chans == m.chans[url := a.(viewer := NoViewer, needLive := false)]
               else n == m
  {
  }

  lemma MatchDrop(channels: map<string, StreamChannel>, chans: map<string, Channel>, url: string,
                  fileOf: seq<StreamFile>, cliOf: seq<LiveRtpCli>)
    requires Match(channels, chans, fileOf, cliOf) && url in channels
    ensures url in chans
    ensures Match(channels[url := channels[url].(liveCli := null, needLive := false)],
                  chans[url := chans[url].(viewer := NoViewer, needLive := false)], fileOf, cliOf)
  {
  }

  lemma LiveStartIs(w: R.World, m: Mgr, url: string)
    ensures forall n :: Stepped(w, m, LiveStop(url), n) ==>
              Stepped(w, m, LiveStart(url, false), n) && Stepped(w, m, LiveStart(url, true), AttachViewer(n, url))
  {
    hide AttachViewer;
  }

  lemma UninitIs(w: R.World, m: Mgr)
    requires Linked(m)
    ensures var n := m.(chans := map[], files := DrainAll(w, m.files, Mapped(m)));
            Stepped(w, m, Channels.Uninit, n) && n == Channels.Step(w, m, Channels.Uninit)
  {
  }

  lemma EmptyMatch(fileOf: seq<StreamFile>, cliOf: seq<LiveRtpCli>)
    ensures Match(map[], map[], fileOf, cliOf)
  {
  }

  /** How far a shutdown has come: the cameras in `rest` are still to be drained. */
  ghost predicate Drained(w: R.World, m: Mgr, rest: set<string>, done: set<nat>, files: seq<R.State>) {
    && files == DrainAll(w, m.files, done) && done <= Mapped(m)
    && forall u <- m.chans :: u in rest <==> m.chans[u].file !in done
  }

  lemma NothingDrained(w: R.World, m: Mgr)
    ensures Drained(w, m, m.chans.Keys, {}, m.files)
  {
  }

  lemma DrainOneMore(w: R.World, m: Mgr, rest: set<string>, done: set<nat>, files: seq<R.State>, url: string)
    requires Owned(m) && Drained(w, m, rest, done, files) && url in rest && url in m.chans
    ensures var k := m.chans[url].file;
            k < |files| && Drained(w, m, rest - {url}, done + {k}, files[k := R.Step(w, files[k], R.Drain)])
  {
    hide R.Step;
  }

  lemma AllDrained(w: R.World, m: Mgr, done: set<nat>, files: seq<R.State>)
    requires Drained(w, m, {}, done, files)
    ensures files == DrainAll(w, m.files, Mapped(m))
  {
    assert done == Mapped(m);
  }

  /** The same StreamFile and client, only other settings. */
  predicate SameObjects(c: StreamChannel, d: StreamChannel) {
    c.streamFile == d.streamFile && c.liveCli == d.liveCli && c.needLive == d.needLive
  }

  /** The abstract channel with a record's settings. */
  function With(a: Channel, c: StreamChannel): Channel {
    a.(plan := c.planId, fmt := c.fmt, dir := c.filePath, limit := c.fileSize, flag := c.flag)
  }

  lemma AdjustedOwned(channels: map<string, StreamChannel>, abs: Abstract, url: string, c: StreamChannel)
    requires Match(channels, abs.m.chans, abs.fileOf, abs.cliOf) && Owned(abs.m)
    requires url in channels && SameObjects(c, channels[url])
    ensures url in abs.m.chans
    ensures var a := With(abs.m.chans[url], c);
            Shows(c, a, abs.fileOf, abs.cliOf) && Owned(SetChannel(abs.m, url, a))
  {
    hide Owned;
    SettingsOwned(abs.m, url, With(abs.m.chans[url], c));
  }

  /** A setting's event as the record's change. */
  function Setting(c: StreamChannel, e: Event): StreamChannel {
    match e
    case Replan(_, dir, limit, flag, plan) => c.(filePath := dir, fileSize := limit, flag := flag, planId := plan)
    case PlanDel(_) => c.(flag := 0)
    case NewDir(_, dir) => c.(filePath := dir)
    case _ => c
  }

  lemma SettingIs(w: R.World, channels: map<string, StreamChannel>, abs: Abstract, e: Event)
    requires Linked(abs.m) && Match(channels, abs.m.chans, abs.fileOf, abs.cliOf)
    requires e.Replan? || e.PlanDel? || e.NewDir?
    ensures e.url in abs.m.chans <==> e.url in channels
    ensures Stepped(w, abs.m, e,
                    if e.url in channels
                    then SetChannel(abs.m, e.url, With(abs.m.chans[e.url], Setting(channels[e.url], e))) else abs.m)
  {
  }

  lemma KeyIs(w: R.World, channels: map<string, StreamChannel>, abs: Abstract, key: string,
              addr: string, port: int, fmt: string)
    requires Linked(abs.m) && Match(channels, abs.m.chans, abs.fileOf, abs.cliOf) && key == IpcUrl(addr, port)
    ensures key in abs.m.chans <==> key in channels
    ensures key in channels ==>
              var n := SetChannel(abs.m, key, With(abs.m.chans[key], channels[key].(fmt := fmt)));
              Stepped(w, abs.m, Add(addr, port, fmt), n) && Stepped(w, abs.m, Channels.SetFmt(addr, port, fmt), n)
    ensures key !in channels ==>
              && Stepped(w, abs.m, Add(addr, port, fmt), Create(abs.m, key, fmt))
              && Stepped(w, abs.m, Channels.SetFmt(addr, port, fmt), abs.m)
  {
    hide Create, IpcUrl;
  }

  class StreamMgr {
    const world: R.World
    const configured: int
    var channels: map<string, StreamChannel>
    /** How many StreamFiles there have been; it numbers the next one. */
    var created: nat
    /** The cameras whose plan and directory it has asked for. */
    var sdsRequests: seq<string>
    ghost var abs: Abstract

    ghost predicate Valid()
      reads this, abs.fileRepr, abs.cliRepr
    {
      abs.m.configured == configured && created == |abs.fileOf| && sdsRequests == abs.m.asked
      && Backed(this, world, channels, abs)
    }

    constructor (world: R.World, configured: int)
      ensures Valid() && abs.fileRepr == abs.cliRepr == {} && abs.m == Init(configured)
      ensures this.world == world
    {
      this.world, this.configured := world, configured;
      channels, created, sdsRequests, abs := map[], 0, [], Abstract(Init(configured), [], [], {}, {});
    }

    /** One StreamFile has taken a step, and nothing else has changed yet. */
    twostate lemma FileStepped(k: nat, new files: seq<R.State>)
      requires abs == old(abs) && k < |abs.fileOf| && abs.fileOf[k].Valid()
      requires old(FilesOk(world, abs.fileOf, files, abs.fileRepr))
      requires forall o: object <- abs.fileRepr :: o != abs.fileOf[k] && o != abs.fileOf[k].writeBuf ==> unchanged(o)
      ensures FilesOk(world, abs.fileOf, files[k := abs.fileOf[k].st], abs.fileRepr)
    {
      hide StreamFile.Valid;
    }

    /** One live client has taken a step, and nothing else has changed yet. */
    twostate lemma ClientStepped(k: nat)
      requires abs == old(abs) && k < |abs.cliOf|
      requires old(ClientsOk(abs.cliOf, abs.m.clients, abs.cliRepr))
      requires forall o: object <- abs.cliRepr :: o != abs.cliOf[k] ==> unchanged(o)
      ensures ClientsOk(abs.cliOf, abs.m.clients[k := abs.cliOf[k].View()], abs.cliRepr)
    {
    }

    /** Stores a new map together with the abstract state it stands for. */
    method Store(newChannels: map<string, StreamChannel>, newCreated: nat, ghost newAbs: Abstract)
      requires newAbs.m.configured == configured && newCreated == |newAbs.fileOf| && newAbs.m.asked == sdsRequests
      requires Backed(this, world, newChannels, newAbs) && this !in newAbs.fileRepr && this !in newAbs.cliRepr
      modifies this
      ensures Valid() && abs == newAbs && channels == newChannels && created == newCreated
    {
      hide Backed;
      channels, created, abs := newChannels, newCreated, newAbs;
    }

    method PublishSdsInfo(url: string)
      modifies this`sdsRequests
      ensures sdsRequests == old(sdsRequests) + if url != "" then [url] else []
    {
      if |url| > 0 {
        sdsRequests := sdsRequests + [url];
      }
    }

    /** A StreamFile with the next number. */
    method MakeFile() returns (file: StreamFile)
      ensures fresh(file) && fresh(file.writeBuf) && file.Valid()
      ensures file.world == world && file.id == created && file.st == R.New(created, configured)
    {
      file := new StreamFile(world, created, configured);
    }

    /** Adds a channel that records nothing yet, and asks for its plan. */
    method CreateChannel(url: string, fmt: string)
      requires Valid() && url !in channels
      modifies this
      ensures Valid() && Grown(old(abs), abs) && fresh(abs.fileRepr - old(abs.fileRepr))
      ensures abs.m == Create(old(abs.m), url, fmt) && url in channels
      ensures abs.cliOf == old(abs.cliOf) && abs.cliRepr == old(abs.cliRepr)
    {
      Parts(this, world, channels, abs);
      hide Backed, FilesOk, ClientsOk, Match, Owned, Grown, Create, R.New, StreamFile.Valid;
      var file := MakeFile();
      Insert(url, fmt, file);
    }

    /** Registers a camera with the StreamFile that was made for it. */
    method Insert(url: string, fmt: string, file: StreamFile)
      requires Valid() && url !in channels && file.Valid()
      requires file.world == world && file.id == created && file.st == R.New(created, configured)
      requires file.writeBuf !in abs.fileRepr && file !in abs.cliRepr && file.writeBuf !in abs.cliRepr
      modifies this
      ensures Valid() && abs == Enlarged(old(abs), url, fmt, file) && url in channels
    {
      hide FilesOk, ClientsOk, Match, Owned, Grown, R.New, StreamFile.Valid, Unplanned;
      CreateWhole(this, world, configured, channels, url, fmt, abs, file);
      CreateIs(abs.m, url, fmt);
      hide Backed, Create, Enlarged;
      PublishSdsInfo(url);
      Store(channels[url := Unplanned(file, fmt)], created + 1, Enlarged(abs, url, fmt, file));
    }

    /** Stores another record for a registered camera. */
    method Change(url: string, c: StreamChannel, ghost a: Channel)
      requires Valid() && url in channels && Shows(c, a, abs.fileOf, abs.cliOf)
      requires Owned(SetChannel(abs.m, url, a))
      modifies this
      ensures Valid() && abs == old(abs).(m := SetChannel(old(abs).m, url, a))
    {
      Parts(this, world, channels, abs);
      hide Backed, Match, FilesOk, ClientsOk, Owned, Shows;
      MatchSet(channels, abs.m.chans, url, c, a, abs.fileOf, abs.cliOf);
      ghost var changed := abs.(m := SetChannel(abs.m, url, a));
      Whole(this, world, channels[url := c], changed);
      Store(channels[url := c], created, changed);
    }

    /** Changes the settings of a registered camera. */
    method Adjust(url: string, c: StreamChannel)
      requires Valid() && url in channels && SameObjects(c, channels[url])
      modifies this
      ensures Valid() && url in old(abs).m.chans && Grown(old(abs), abs)
      ensures abs == old(abs).(m := SetChannel(old(abs).m, url, With(old(abs).m.chans[url], c)))
    {
      Parts(this, world, channels, abs);
      hide Backed, FilesOk, ClientsOk, Match, Owned, Shows, SetChannel, With, SameObjects;
      ghost var a := abs.m.chans[url];
      AdjustedOwned(channels, abs, url, c);
      Change(url, c, With(a, c));
    }

    method AddIpcChannel(addr: string, port: int, fmt: string)
      requires Valid()
      modifies this
      ensures Valid() && Grown(old(abs), abs) && fresh(abs.fileRepr - old(abs.fileRepr))
      ensures Stepped(world, old(abs.m), Add(addr, port, fmt), abs.m)
    {
      Parts(this, world, channels, abs);
      var key := IpcUrl(addr, port);
      KeyIs(world, channels, abs, key, addr, port, fmt);
      hide *;
      if key !in channels {
        CreateChannel(key, fmt);
      } else {
        Adjust(key, channels[key].(fmt := fmt));
      }
    }

    method SetFmt(addr: string, port: int, fmt: string)
      requires Valid()
      modifies this
      ensures Valid() && Grown(old(abs), abs) && Stepped(world, old(abs.m), Channels.SetFmt(addr, port, fmt), abs.m)
    {
      Parts(this, world, channels, abs);
      var key := IpcUrl(addr, port);
      KeyIs(world, channels, abs, key, addr, port, fmt);
      hide *;
      if key in channels {
        Adjust(key, channels[key].(fmt := fmt));
      }
    }

    /** An SDS_INFO_RESP or a PLAN_CHANGE_REQ. */
    method OnPlan(url: string, dir: string, limit: real, flag: int, plan: string)
      requires Valid()
      modifies this
      ensures Valid() && Grown(old(abs), abs)
      ensures Stepped(world, old(abs.m), Replan(url, dir, limit, flag, plan), abs.m)
    {
      Parts(this, world, channels, abs);
      ghost var e := Replan(url, dir, limit, flag, plan);
      SettingIs(world, channels, abs, e);
      hide *;
      if url in channels {
        Adjust(url, channels[url].(filePath := dir, fileSize := limit, flag := flag, planId := plan));
      }
    }

    method OnPlanDel(url: string)
      requires Valid()
      modifies this
      ensures Valid() && Grown(old(abs), abs) && Stepped(world, old(abs.m), PlanDel(url), abs.m)
    {
      Parts(this, world, channels, abs);
      SettingIs(world, channels, abs, PlanDel(url));
      hide *;
      if url in channels {
        Adjust(url, channels[url].(flag := 0));
      }
    }

    method OnSdsChange(url: string, dir: string)
      requires Valid()
      modifies this
      ensures Valid() && Grown(old(abs), abs) && Stepped(world, old(abs.m), NewDir(url, dir), abs.m)
    {
      Parts(this, world, channels, abs);
      SettingIs(world, channels, abs, NewDir(url, dir));
      hide *;
      if url in channels {
        Adjust(url, channels[url].(filePath := dir));
      }
    }

    /** An IPC_CHG_REQ; the record of a camera registered under the new key is dropped. */
    method OnIpcChange(from: string, to: string)
      requires Valid() && (from in channels ==> from != to)
      modifies this
      ensures Valid() && Grown(old(abs), abs) && Stepped(world, old(abs.m), Rename(from, to), abs.m)
    {
      Parts(this, world, channels, abs);
      RenameIs(world, abs.m, from, to);
      hide *;
      if from in channels {
        var channel := channels[from];
        var rest := channels;
        if to in rest {
          rest := rest - {to};
        }
        rest := rest[to := channel] - {from};
        RenameOwned(abs.m, from, to);
        MatchRename(channels, abs.m.chans, from, to, abs.fileOf, abs.cliOf);
        ghost var renamed := abs.m.(chans := (abs.m.chans - {from})[to := abs.m.chans[from]]);
        Whole(this, world, rest, abs.(m := renamed));
        Store(rest, created, abs.(m := renamed));
      }
    }

    /** Records a payload if the channel has a directory and its plan is active. */
    method SaveStreamToFile(key: string, c: StreamChannel, payload: seq<byte>) returns (ret: int)
      requires c.streamFile.Valid()
      modifies c.streamFile, c.streamFile.writeBuf
      ensures c.streamFile.Valid()
      ensures c.streamFile.st == if payload != [] && c.filePath != "" && c.flag != 0
                                 then R.Step(c.streamFile.world, old(c.streamFile.st), WriteTo(c, key, payload))
                                 else old(c.streamFile.st)
      ensures ret == if payload != [] && (c.filePath == "" || c.flag != 0) then 0 else -1
    {
      hide R.Step, StreamFile.Valid;
      if |payload| <= 0 {
        return -1;
      }
      if |c.filePath| == 0 {
        return 0;
      }
      if c.flag == 0 {
        return -1;
      }
      c.streamFile.WriteStream(payload, key, c.filePath, c.fmt, c.fileSize, c.planId);
      return 0;
    }

    /** What a record's StreamFile does with a payload. */
    method Feed(c: StreamChannel, key: string, payload: seq<byte>, ghost k: nat, ghost files: seq<R.State>)
      returns (ret: int)
      requires k < |abs.fileOf| == |files| && c.streamFile == abs.fileOf[k]
      requires FilesOk(world, abs.fileOf, files, abs.fileRepr) && this !in abs.fileRepr
      modifies abs.fileRepr
      ensures ret == if payload != [] && (c.filePath == "" || c.flag != 0) then 0 else -1
      ensures k < |files|
      ensures FilesOk(world, abs.fileOf,
                      files[k := if payload != [] && c.filePath != "" && c.flag != 0
                                 then R.Step(world, files[k], WriteTo(c, key, payload)) else files[k]], abs.fileRepr)
    {
      FileAt(world, abs.fileOf, files, abs.fileRepr, k);
      hide *;
      ret := SaveStreamToFile(key, c, payload);
      FileStepped(k, files);
    }

    /** The recorder's share of a payload. */
    method RecordPayload(key: string, payload: seq<byte>) returns (ret: int)
      requires Valid() && key in channels
      modifies this, abs.fileRepr
      ensures Valid() && channels == old(channels) && Linked(old(abs.m)) && key in old(abs.m).chans
      ensures abs == old(abs).(m := Record(world, old(abs.m), key, old(abs.m).chans[key], payload))
      ensures var c := channels[key];
              ret == if payload != [] && (c.filePath == "" || c.flag != 0) then 0 else -1
    {
      Parts(this, world, channels, abs);
      ghost var a := abs.m.chans[key];
      ShowsAt(channels, abs.m.chans, abs.fileOf, abs.cliOf, key);
      RecordIs(world, abs.m, key, channels[key], a, payload, abs.fileOf, abs.cliOf);
      hide *;
      ghost var n := Record(world, abs.m, key, a, payload);
      ret := Feed(channels[key], key, payload, a.file, abs.m.files);
      Whole(this, world, channels, abs.(m := n));
      Store(channels, created, abs.(m := n));
    }

    /** The live client's share of a payload. */
    method ForwardPayload(key: string, payload: seq<byte>)
      requires Valid() && key in channels
      modifies this, abs.cliRepr
      ensures Valid() && channels == old(channels) && Linked(old(abs.m)) && key in old(abs.m).chans
      ensures abs == old(abs).(m := Forward(old(abs.m), key, old(abs.m).chans[key], payload))
    {
      Parts(this, world, channels, abs);
      hide FilesOk, ClientsOk, Match, Owned, Backed, Handed;
      var c := channels[key];
      ghost var a := abs.m.chans[key];
      ShowsAt(channels, abs.m.chans, abs.fileOf, abs.cliOf, key);
      if c.needLive && c.liveCli != null {
        ClientAt(abs.cliOf, abs.m.clients, abs.cliRepr, a.viewer.id);
        ghost var n := Forward(abs.m, key, a, payload);
        ForwardOwned(abs.m, key, a, payload);
        var _ := c.liveCli.SendRtp(key, payload);
        ClientStepped(a.viewer.id);
        Whole(this, world, channels, abs.(m := n));
        Store(channels, created, abs.(m := n));
      }
    }

    /** Takes an RTP payload: to the recorder, then to the live client. */
    method TranslateRtpPayload(addr: string, port: int, payload: seq<byte>) returns (ret: int)
      requires Valid()
      modifies this, abs.fileRepr, abs.cliRepr
      ensures Valid() && Grown(old(abs), abs) && Stepped(world, old(abs.m), Rtp(addr, port, payload), abs.m)
      ensures var key := IpcUrl(addr, port);
              ret == if key in old(channels) && payload != []
                        && (old(channels)[key].filePath == "" || old(channels)[key].flag != 0) then 0 else -1
    {
      Parts(this, world, channels, abs);
      RtpIs(world, abs.m, addr, port, payload);
      hide IpcUrl, Match, Owned, Backed, Record, Forward, Stepped, FilesOk, ClientsOk;
      var key := IpcUrl(addr, port);
      ret := -1;
      if key in channels {
        ret := RecordPayload(key, payload);
        ForwardPayload(key, payload);
      }
    }

    /** What deleting a StreamFile does. */
    method DeleteStreamFile(file: StreamFile, ghost k: nat, ghost files: seq<R.State>)
      requires k < |abs.fileOf| == |files| && file == abs.fileOf[k]
      requires FilesOk(world, abs.fileOf, files, abs.fileRepr) && this !in abs.fileRepr
      modifies abs.fileRepr
      ensures k < |files| && FilesOk(world, abs.fileOf, files[k := R.Step(world, files[k], R.Drain)], abs.fileRepr)
    {
      FileAt(world, abs.fileOf, files, abs.fileRepr, k);
      hide R.Exec, R.Clear, StreamFile.Valid, FilesOk;
      R.DrainStep(world, files[k]);
      file.Clear();
      FileStepped(k, files);
    }

    /** Closes a camera's live client and forgets it. */
    method RemoveLiveCliByIpcUrl(url: string)
      requires Valid()
      modifies this, abs.cliRepr
      ensures Valid() && abs == old(abs).(m := abs.m)
      ensures Stepped(world, old(abs.m), LiveStop(url), abs.m)
    {
      Parts(this, world, channels, abs);
      DropIs(world, abs.m, url);
      hide *;
      if url in channels {
        RecordAt(channels, abs, world, url);
        if channels[url].liveCli != null {
          ghost var id := abs.m.chans[url].viewer.id;
          ClientAt(abs.cliOf, abs.m.clients, abs.cliRepr, id);
          channels[url].liveCli.Close();
          ClientStepped(id);
          DropOwned(abs.m, url);
          MatchDrop(channels, abs.m.chans, url, abs.fileOf, abs.cliOf);
          var d := channels[url].(liveCli := null, needLive := false);
          ghost var n := DropViewer(abs.m, url);
          Whole(this, world, channels[url := d], abs.(m := n));
          Store(channels[url := d], created, abs.(m := n));
        }
      }
    }

    /** Numbers a client that was just opened. */
    ghost method Enlist(url: string, live: LiveRtpCli)
      requires Valid() && live.View() == Client(url, true, [])
      requires live.number == |abs.cliOf| && live !in abs.cliRepr && live !in abs.fileRepr
      modifies this`abs
      ensures Valid() && |old(abs).m.clients| == |old(abs).cliOf|
      ensures abs == old(abs).(m := old(abs).m.(clients := old(abs).m.clients + [Client(url, true, [])]),
                               cliOf := old(abs).cliOf + [live], cliRepr := old(abs).cliRepr + {live})
      ensures forall u <- abs.m.chans :: abs.m.chans[u].viewer != Viewer(|old(abs).cliOf|)
    {
      Parts(this, world, channels, abs);
      ClientAtAll(abs.cliOf, abs.m.clients, abs.cliRepr);
      hide FilesOk, ClientsOk, Match, Owned, Backed;
      ClientOwned(abs.m, Client(url, true, []));
      ClientsSnoc(abs.cliOf, abs.m.clients, abs.cliRepr, live);
      MatchGrow(channels, abs.m.chans, abs.fileOf, abs.cliOf, [], [live]);
      assert abs.fileOf + [] == abs.fileOf;
      ghost var more := abs.(m := abs.m.(clients := abs.m.clients + [Client(url, true, [])]),
                             cliOf := abs.cliOf + [live], cliRepr := abs.cliRepr + {live});
      Whole(this, world, channels, more);
      abs := more;
    }

    /** Gives a camera the live client that was just opened for it. */
    method AddIpcChannelByIpcUrl(url: string, needLive: bool, live: LiveRtpCli)
      requires Valid() && needLive && live.View() == Client(url, true, [])
      requires live.number == |abs.cliOf| && live !in abs.cliRepr && live !in abs.fileRepr
      modifies this
      ensures Valid() && Grown(old(abs), abs) && fresh(abs.fileRepr - old(abs.fileRepr))
      ensures abs.cliRepr == old(abs.cliRepr) + {live} && abs.m == AttachViewer(old(abs.m), url)
    {
      hide FilesOk, ClientsOk, Match, Owned, Backed, Create, LiveRtpCli.View;
      Enlist(url, live);
      ghost var id := |old(abs).cliOf|;
      Parts(this, world, channels, abs);
      if url !in channels {
        CreateIs(abs.m, url, "");
        CreateChannel(url, "");
      }
      SetLive(url, needLive, live, id);
    }

    method SetLive(url: string, needLive: bool, live: LiveRtpCli, ghost id: nat)
      requires Valid() && needLive && url in channels && id < |abs.cliOf| && live == abs.cliOf[id]
      requires id < |abs.m.clients| && abs.m.clients[id].isOpen
      requires forall u <- abs.m.chans :: abs.m.chans[u].viewer != Viewer(id)
      modifies this
      ensures Valid() && url in old(abs).m.chans
      ensures abs == old(abs).(m := SetChannel(old(abs).m, url, old(abs).m.chans[url].(viewer := Viewer(id), needLive := true)))
    {
      Parts(this, world, channels, abs);
      hide FilesOk, ClientsOk, Match, Owned, Backed;
      ShowsAt(channels, abs.m.chans, abs.fileOf, abs.cliOf, url);
      ViewerOwned(abs.m, url, id);
      Change(url, channels[url].(needLive := needLive, liveCli := live),
             abs.m.chans[url].(viewer := Viewer(id), needLive := true));
    }

    /** A LIVE_START_REQ: a new client replaces the camera's old one, if it can be connected. */
    method MakeLiveRtpClient(url: string, port: int, svrAddr: string, svrPort: int, connects: bool, network: nat -> int)
      returns (live: LiveRtpCli?)
      requires Valid()
      modifies this, abs.cliRepr
      ensures Valid() && Grown(old(abs), abs)
      ensures fresh(abs.fileRepr - old(abs.fileRepr)) && fresh(abs.cliRepr - old(abs.cliRepr))
      ensures Stepped(world, old(abs.m), LiveStart(url, connects), abs.m)
      ensures live != null <==> connects
    {
      LiveStartIs(world, abs.m, url);
      hide FilesOk, ClientsOk, Match, Owned, Backed, Stepped, AttachViewer, DropViewer, LiveRtpCli.View;
      RemoveLiveCliByIpcUrl(url);
      live := OpenClient(port, url, svrAddr, svrPort, connects, network, |abs.cliOf|);
      if live != null {
        AddIpcChannelByIpcUrl(url, true, live);
      }
    }

    method OpenClient(port: int, url: string, svrAddr: string, svrPort: int, connects: bool,
                      network: nat -> int, ghost number: nat)
      returns (live: LiveRtpCli?)
      ensures live != null <==> connects
      ensures live != null ==> fresh(live) && live.number == number && live.View() == Client(url, true, [])
    {
      var cli := new LiveRtpCli(network, number);
      var ret := cli.Open(port, url, svrAddr, svrPort, connects);
      live := if ret == -1 then null else cli;
    }

    /** Removes a camera's channel: its buffer goes to a file and its live client is closed. */
    method RemoveIpcChannel(addr: string, port: int)
      requires Valid()
      modifies this, abs.fileRepr, abs.cliRepr
      ensures Valid() && Grown(old(abs), abs) && Stepped(world, old(abs.m), Remove(addr, port), abs.m)
    {
      Parts(this, world, channels, abs);
      RemoveIs(world, abs.m, addr, port);
      hide *;
      var key := IpcUrl(addr, port);
      if key in channels {
        ghost var n := Removed(world, abs.m, key);
        DeleteChannel(key);
        MatchLess(channels, abs.m.chans, key, abs.fileOf, abs.cliOf);
        Whole(this, world, channels - {key}, abs.(m := n));
        Store(channels - {key}, created, abs.(m := n));
      }
    }

    method CloseLive(cli: LiveRtpCli?, ghost v: Viewer)
      requires v.Viewer? ==> v.id < |abs.cliOf| == |abs.m.clients| && cli == abs.cliOf[v.id]
      requires v.NoViewer? ==> cli == null
      requires ClientsOk(abs.cliOf, abs.m.clients, abs.cliRepr) && this !in abs.cliRepr
      modifies abs.cliRepr
      ensures ClientsOk(abs.cliOf, CloseClient(abs.m, v).clients, abs.cliRepr)
    {
      hide ClientsOk;
      if cli != null {
        ClientAt(abs.cliOf, abs.m.clients, abs.cliRepr, v.id);
        cli.Close();
        ClientStepped(v.id);
      }
    }

    /** Drains the file and closes the client of a channel that is about to go. */
    method DeleteChannel(key: string)
      requires Valid() && key in channels
      modifies abs.fileRepr, abs.cliRepr
      ensures Linked(abs.m) && key in abs.m.chans
      ensures FilesOk(world, abs.fileOf, DeleteFile(world, abs.m, abs.m.chans[key].file).files, abs.fileRepr)
      ensures ClientsOk(abs.cliOf, CloseClient(abs.m, abs.m.chans[key].viewer).clients, abs.cliRepr)
    {
      Parts(this, world, channels, abs);
      RecordAt(channels, abs, world, key);
      hide *;
      ghost var a := abs.m.chans[key];
      DeletedFiles(world, abs.m, a.file);
      DeleteStreamFile(channels[key].streamFile, a.file, abs.m.files);
      CloseLive(channels[key].liveCli, a.viewer);
    }

    /** Drains the StreamFile of one channel on the way to draining them all. */
    method DrainNext(url: string, ghost rest: set<string>, ghost done: set<nat>, ghost files: seq<R.State>)
      returns (ghost drained: seq<R.State>)
      requires this !in abs.fileRepr && this !in abs.cliRepr && abs.fileRepr !! abs.cliRepr && url in rest && url in channels
      requires FilesOk(world, abs.fileOf, files, abs.fileRepr) && ClientsOk(abs.cliOf, abs.m.clients, abs.cliRepr)
      requires Match(channels, abs.m.chans, abs.fileOf, abs.cliOf) && Owned(abs.m) && Drained(world, abs.m, rest, done, files)
      modifies abs.fileRepr
      ensures FilesOk(world, abs.fileOf, drained, abs.fileRepr) && ClientsOk(abs.cliOf, abs.m.clients, abs.cliRepr)
      ensures url in abs.m.chans && Drained(world, abs.m, rest - {url}, done + {abs.m.chans[url].file}, drained)
    {
      RecordAt(channels, abs.(m := abs.m.(files := files)), world, url);
      DrainOneMore(world, abs.m, rest, done, files, url);
      hide *;
      ghost var k := abs.m.chans[url].file;
      DeleteStreamFile(channels[url].streamFile, k, files);
      drained := files[k := R.Step(world, files[k], R.Drain)];
    }

    /** Drains the StreamFile of every channel. */
    method DrainChannels()
      requires Valid()
      modifies abs.fileRepr
      ensures FilesOk(world, abs.fileOf, DrainAll(world, abs.m.files, Mapped(abs.m)), abs.fileRepr)
      ensures ClientsOk(abs.cliOf, abs.m.clients, abs.cliRepr)
    {
      Parts(this, world, channels, abs);
      NothingDrained(world, abs.m);
      hide *;
      var rest := channels.Keys;
      ghost var files, done := abs.m.files, {};
      while rest != {}
        invariant rest <= channels.Keys && Drained(world, abs.m, rest, done, files)
        invariant FilesOk(world, abs.fileOf, files, abs.fileRepr) && ClientsOk(abs.cliOf, abs.m.clients, abs.cliRepr)
      {
        var url :| url in rest;
        files := DrainNext(url, rest, done, files);
        done, rest := done + {abs.m.chans[url].file}, rest - {url};
      }
      AllDrained(world, abs.m, done, files);
    }

    /** Deletes every channel with its StreamFile; live clients are left to others. */
    method Uninit()
      requires Valid()
      modifies this, abs.fileRepr
      ensures Valid() && Grown(old(abs), abs) && Stepped(world, old(abs.m), Channels.Uninit, abs.m)
    {
      Parts(this, world, channels, abs);
      UninitIs(world, abs.m);
      hide Owned, Backed, FilesOk, ClientsOk, Match, Stepped, DrainAll, Mapped;
      DrainChannels();
      EmptyMatch(abs.fileOf, abs.cliOf);
      ghost var n := abs.m.(chans := map[], files := DrainAll(world, abs.m.files, Mapped(abs.m)));
      UninitOwned(world, abs.m);
      Whole(this, world, map[], abs.(m := n));
      Store(map[], created, abs.(m := n));
    }
  }
}
