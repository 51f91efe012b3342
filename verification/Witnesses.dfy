/** Inputs on which the program does not do what one would expect: for every failure that a theorem
    elsewhere delimits, one run from the start that meets it. */
module Witnesses {
  import opened Bytes
  import opened Keys
  import opened Wrappers
  import A = Application
  import Arc = Archive
  import C = Channels
  import D = ChannelRuns
  import F = FileNames
  import K = Disk
  import P = Registrations
  import R = Recorder
  import Reg = Registry
  import S = SdpAnswer
  import Text

  // ---------------------------------------------------------------- one StreamFile

  const T0 := F.Stamp(2019, 1, 1, 12, 0, 0)

  /** A clock that stands still, and a file system on which every fopen succeeds, or none. */
  function Still(opens: bool): R.World { (id: nat, n: nat) => R.Attempt(T0, opens) }

  function OnePayload(url: string, b: byte): R.Payload { R.Payload(url, "d", [b]) }

  function OneWrite(url: string, b: byte): R.Op { R.Write(OnePayload(url, b), "ps", 1.0, "plan") }

  /** What a new StreamFile looks like after one payload: it is all in the buffer. */
  function Buffered(id: nat, configured: int, url: string, b: byte): R.State {
    R.New(id, configured).(pending := [OnePayload(url, b)], url := url, dir := "d", fmt := "ps", plan := "plan", limit := 1.0)
  }

  lemma FirstWrite(w: R.World, id: nat, configured: int, url: string, b: byte)
    ensures R.Step(w, R.New(id, configured), OneWrite(url, b)) == Buffered(id, configured, url, b)
  {
    var s, p := R.New(id, configured), OnePayload(url, b);
    var op := OneWrite(url, b);
    R.SizeOfNone();
    assert R.Relabel(s, url, "d", "ps", 1.0, "plan") == [R.SetUrl(url), R.Adopt("d", "ps", 1.0, "plan")];
    assert R.Store(0, s.cap, p) == [R.Keep(p)];
    assert R.Acts(s, op) == [R.SetUrl(url), R.Adopt("d", "ps", 1.0, "plan")] + [R.Keep(p)];
    R.ExecConcat(w, s, [R.SetUrl(url), R.Adopt("d", "ps", 1.0, "plan")], [R.Keep(p)]);
    R.ExecTwo(w, s, R.SetUrl(url), R.Adopt("d", "ps", 1.0, "plan"));
    R.ExecOne(w, R.Do(w, R.Do(w, s, R.SetUrl(url)), R.Adopt("d", "ps", 1.0, "plan")), R.Keep(p));
  }

  /** The one recording it makes. */
  function OneRecording(url: string, b: byte): R.Recording { R.Recording("d", url, T0, "ps", [OnePayload(url, b)]) }

  lemma FirstFlush(opens: bool, id: nat, configured: int, url: string, b: byte)
    ensures var s, t := Buffered(id, configured, url, b), R.Flush(Still(opens), Buffered(id, configured, url, b), [OnePayload(url, b)]);
            if opens then t.log == [] && t.current == R.Open(OneRecording(url, b))
            else t.log == [R.Lost([OnePayload(url, b)])] && t.current.NoFile?
  {
    var s := Buffered(id, configured, url, b);
    R.SizeOfOne(OnePayload(url, b));
    assert [] + [OnePayload(url, b)] == [OnePayload(url, b)];
    hide R.Name, R.BytesOf, R.New, R.Size;
    assert !R.Reached(1, 1.0);
  }

  /** Draining it makes one file, or drops the payload if no file can be opened. */
  lemma FirstDrain(opens: bool, id: nat, configured: int, url: string, b: byte)
    ensures var s := R.Step(Still(opens), Buffered(id, configured, url, b), R.Drain);
            s.current.NoFile? && s.pending == []
            && s.log == if opens then [R.Kept(OneRecording(url, b), R.Switched)] else [R.Lost([OnePayload(url, b)])]
  {
    var w, s := Still(opens), Buffered(id, configured, url, b);
    R.SizeOfOne(OnePayload(url, b));
    R.DrainStep(w, s);
    R.ExecTwo(w, s, R.FlushBuffer, R.Close);
    FirstFlush(opens, id, configured, url, b);
    assert R.Clear(R.Size(s.pending)) == [R.FlushBuffer, R.Close];
    hide R.Flush, R.Exec, R.Size, R.New;
  }

  /** A chunk is dropped: no fopen succeeds, one payload is accepted, and no file holds it. */
  lemma ChunkDropped(id: nat, configured: int, url: string, b: byte)
    ensures var ops := [OneWrite(url, b)];
            R.Accepted(ops) == [OnePayload(url, b)]
            && R.InFiles(R.Run(Still(false), R.New(id, configured), ops + [R.Drain])) == []
  {
    var w, s, op := Still(false), R.New(id, configured), OneWrite(url, b);
    hide R.Step, R.New, R.Accepted, R.InFiles, Buffered, Still;
    NothingRun(w, s);
    R.RunSnoc(w, s, [], op);
    R.RunSnoc(w, s, [op], R.Drain);
    assert [] + [op] == [op];
    FirstWrite(w, id, configured, url, b);
    FirstDrain(false, id, configured, url, b);
    OneLost(R.Step(w, Buffered(id, configured, url, b), R.Drain), [OnePayload(url, b)]);
    OneTaken(url, b);
  }

  lemma NothingRun(w: R.World, s: R.State)
    ensures R.Run(w, s, []) == s && R.Accepted([]) == []
  {
  }

  lemma OneTaken(url: string, b: byte)
    ensures R.Taken(OneWrite(url, b)) == [OnePayload(url, b)]
  {
  }

  lemma OneLost(s: R.State, parts: seq<R.Payload>)
    requires s.log == [R.Lost(parts)] && s.current.NoFile?
    ensures R.InFiles(s) == []
  {
    assert s.log[..0] == [] && R.KeptParts([]) == [];
  }

  /** A limit of two gigabytes is never met. */
  lemma LimitNeverMet(size: nat)
    ensures !R.Reached(size, 2048.0)
  {
    R.RotationReachable(2048.0);
  }

  // ---------------------------------------------------------------- the channel manager

  lemma CamerasDiffer()
    ensures IpcUrl("a", 1) != IpcUrl("b", 1) && Fits("a", 1) && Fits("b", 1)
  {
    assert |Text.Decimal(1)| == 1;
    IpcUrlInjective("a", 1, "b", 1);
  }

  lemma {:induction false} TwoRuns(w: R.World, m: C.Mgr, a: seq<C.Event>, b: seq<C.Event>)
    requires C.Owned(m) && D.Legal(w, m, a) && D.Legal(w, D.Run(w, m, a), b)
    ensures D.Legal(w, m, a + b) && D.Run(w, m, a + b) == D.Run(w, D.Run(w, m, a), b)
    ensures D.SparesBuffers(w, m, a + b) <==> D.SparesBuffers(w, m, a) && D.SparesBuffers(w, D.Run(w, m, a), b)
    decreases |a|
  {
    hide C.Step, C.Owned, C.Defined, D.SparesBuffer;
    if a == [] {
      assert a + b == b;
    } else {
      assert (a + b)[0] == a[0] && (a + b)[1..] == a[1..] + b;
      C.OwnedLinked(m);
      C.StepOwned(w, m, a[0]);
      TwoRuns(w, C.Step(w, m, a[0]), a[1..], b);
    }
  }

  lemma OneStep(w: R.World, m: C.Mgr, e: C.Event)
    requires C.Owned(m) && C.Defined(m, e)
    ensures C.Linked(m) && D.Legal(w, m, [e]) && D.Run(w, m, [e]) == C.Step(w, m, e)
    ensures D.SparesBuffers(w, m, [e]) <==> D.SparesBuffer(m, e)
  {
    hide C.Step, C.Owned, C.Defined, D.SparesBuffer;
    C.OwnedLinked(m);
    C.StepOwned(w, m, e);
    assert [e][1..] == [];
  }

  /** A camera is called, gets a plan and sends one payload. */
  function Arrival(addr: string, port: int, b: byte): seq<C.Event> {
    [C.Add(addr, port, "ps")] + [C.Replan(IpcUrl(addr, port), "d", 1.0, 1, "plan")] + [C.Rtp(addr, port, [b])]
  }

  function Planned(file: nat): C.Channel { C.Channel(file, false, C.NoViewer, "plan", "ps", "d", 1.0, 1) }

  lemma PlanStep(w: R.World, m: C.Mgr, url: string, file: nat)
    requires C.Linked(m) && url in m.chans && m.chans[url] == C.Fresh(file, "ps")
    ensures var n := C.Step(w, m, C.Replan(url, "d", 1.0, 1, "plan"));
            n == m.(chans := m.chans[url := Planned(file)]) && C.Linked(n)
  {
  }

  lemma PacketStep(w: R.World, m: C.Mgr, addr: string, port: int, file: nat, b: byte)
    requires C.Linked(m) && IpcUrl(addr, port) in m.chans && m.chans[IpcUrl(addr, port)] == Planned(file)
    ensures file < |m.files|
    ensures C.Step(w, m, C.Rtp(addr, port, [b]))
            == m.(files := m.files[file := R.Step(w, m.files[file], OneWrite(IpcUrl(addr, port), b))])
  {
    hide IpcUrl, R.Step;
  }

  lemma NewStep(w: R.World, m: C.Mgr, addr: string, port: int)
    requires C.Linked(m) && IpcUrl(addr, port) !in m.chans
    ensures var n := C.Step(w, m, C.Add(addr, port, "ps"));
            && n.chans == m.chans[IpcUrl(addr, port) := C.Fresh(|m.files|, "ps")] && n.configured == m.configured
            && n.files == m.files + [R.New(|m.files|, m.configured)] && C.Linked(n)
  {
    hide IpcUrl, R.New;
  }

  lemma ArrivalSteps(w: R.World, m: C.Mgr, addr: string, port: int, b: byte)
    requires C.Linked(m) && IpcUrl(addr, port) !in m.chans
    ensures var key, m1 := IpcUrl(addr, port), C.Step(w, m, C.Add(addr, port, "ps"));
            && C.Linked(m1)
            && (var m2 := C.Step(w, m1, C.Replan(key, "d", 1.0, 1, "plan"));
                && C.Linked(m2)
                && (var n := C.Step(w, m2, C.Rtp(addr, port, [b]));
                    && n.chans == m.chans[key := Planned(|m.files|)] && n.configured == m.configured
                    && n.files == m.files + [Buffered(|m.files|, m.configured, key, b)]))
  {
    hide IpcUrl, R.Step, R.New, C.Step, C.Linked;
    var key := IpcUrl(addr, port);
    FirstWrite(w, |m.files|, m.configured, key, b);
    NewStep(w, m, addr, port);
    var m1 := C.Step(w, m, C.Add(addr, port, "ps"));
    PlanStep(w, m1, key, |m.files|);
    PacketStep(w, C.Step(w, m1, C.Replan(key, "d", 1.0, 1, "plan")), addr, port, |m.files|, b);
  }

  lemma ArrivalRun(w: R.World, m: C.Mgr, addr: string, port: int, b: byte)
    requires C.Owned(m) && IpcUrl(addr, port) !in m.chans
    ensures D.Legal(w, m, Arrival(addr, port, b))
    ensures var key, n := IpcUrl(addr, port), D.Run(w, m, Arrival(addr, port, b));
            && n.chans == m.chans[key := Planned(|m.files|)] && n.configured == m.configured
            && n.files == m.files + [Buffered(|m.files|, m.configured, key, b)]
  {
    hide C.Step, C.Owned, R.New, IpcUrl;
    C.OwnedLinked(m);
    var a, p, r := C.Add(addr, port, "ps"), C.Replan(IpcUrl(addr, port), "d", 1.0, 1, "plan"), C.Rtp(addr, port, [b]);
    ArrivalSteps(w, m, addr, port, b);
    OneStep(w, m, a);
    var m1 := C.Step(w, m, a);
    OneStep(w, m1, p);
    TwoRuns(w, m, [a], [p]);
    var m2 := C.Step(w, m1, p);
    OneStep(w, m2, r);
    TwoRuns(w, m, [a] + [p], [r]);
  }

  /** Camera b has a payload in its buffer when camera a, just called, is renamed to it. */
  function LosingRun(): seq<C.Event> {
    Arrival("b", 1, 7) + ([C.Add("a", 1, "ps")] + [C.Rename(IpcUrl("a", 1), IpcUrl("b", 1))])
  }

  /** Not even a shutdown, with every fopen succeeding, gets that payload into a file. */
  lemma RenameLosesPayload(configured: int)
    ensures D.Legal(Still(true), C.Init(configured), LosingRun())
    ensures var files := C.Step(Still(true), D.Run(Still(true), C.Init(configured), LosingRun()), C.Uninit).files;
            var tapes := D.TapeRun(C.View(C.Init(configured)), LosingRun()).tapes;
            exists i :: 0 <= i < |files| == |tapes| && R.InFiles(files[i]) != tapes[i]
  {
    var w, m0 := Still(true), C.Init(configured);
    var ka, kb := IpcUrl("a", 1), IpcUrl("b", 1);
    CamerasDiffer();
    ArrivalRun(w, m0, "b", 1, 7);
    var m := D.Run(w, m0, Arrival("b", 1, 7));
    AddStep(w, m, "a", 1);
    hide C.Step, C.Owned, R.Step, R.New, IpcUrl, C.View, D.TapeRun, R.InFiles, Still, D.EventOpens;
    OneStep(w, m, C.Add("a", 1, "ps"));
    var n := C.Step(w, m, C.Add("a", 1, "ps"));
    OneStep(w, n, C.Rename(ka, kb));
    TwoRuns(w, m, [C.Add("a", 1, "ps")], [C.Rename(ka, kb)]);
    TwoRuns(w, m0, Arrival("b", 1, 7), [C.Add("a", 1, "ps")] + [C.Rename(ka, kb)]);
    assert !D.SparesBuffers(w, m0, LosingRun());
    D.ShutdownWritesAll(w, configured, LosingRun());
  }

  lemma AddStep(w: R.World, m: C.Mgr, addr: string, port: int)
    requires C.Linked(m) && IpcUrl(addr, port) !in m.chans
    ensures var n := C.Step(w, m, C.Add(addr, port, "ps"));
            n.chans == m.chans[IpcUrl(addr, port) := C.Fresh(|m.files|, "ps")] && |n.files| == |m.files| + 1
            && forall i :: 0 <= i < |m.files| ==> n.files[i] == m.files[i]
  {
    hide IpcUrl, R.New;
  }

  // ---------------------------------------------------------------- one name, two StreamFiles

  /** A camera is called, sends a payload, hangs up and is called again. */
  function CalledTwice(addr: string, port: int): seq<C.Event> {
    Arrival(addr, port, 7) + [C.Remove(addr, port)] + Arrival(addr, port, 8)
  }

  /** Within one second the second recording takes the first one's name and truncates it: of two files
      one is left, although no fopen failed and no rename took place. */
  lemma NameUsedTwice(configured: int, addr: string, port: int)
    ensures D.Legal(Still(true), C.Init(configured), CalledTwice(addr, port))
    ensures var m := C.Step(Still(true), D.Run(Still(true), C.Init(configured), CalledTwice(addr, port)), C.Uninit);
            var fs := K.Files(Arc.AllRecordings(m.files));
            Arc.Opened(fs, m.files) && |fs| == 2 && |K.OnDisk(fs)| == 1
  {
    var w, m0 := Still(true), C.Init(configured);
    var key := IpcUrl(addr, port);
    ArrivalRun(w, m0, addr, port, 7);
    var m1 := D.Run(w, m0, Arrival(addr, port, 7));
    RemoveStep(w, m1, addr, port);
    hide C.Step, C.Owned, R.Step, R.New, IpcUrl, Still, R.Tape, K.OnDisk;
    OneStep(w, m1, C.Remove(addr, port));
    var m2 := C.Step(w, m1, C.Remove(addr, port));
    TwoRuns(w, m0, Arrival(addr, port, 7), [C.Remove(addr, port)]);
    ArrivalRun(w, m2, addr, port, 8);
    TwoRuns(w, m0, Arrival(addr, port, 7) + [C.Remove(addr, port)], Arrival(addr, port, 8));
    var m3 := D.Run(w, m2, Arrival(addr, port, 8));
    assert m3 == D.Run(w, m0, CalledTwice(addr, port));
    UninitStep(w, m3, key);
    FirstDrain(true, 0, configured, key, 7);
    FirstDrain(true, 1, configured, key, 8);
    var m := C.Step(w, m3, C.Uninit);
    SameNames(m.files, key);
  }

  lemma RemoveStep(w: R.World, m: C.Mgr, addr: string, port: int)
    requires C.Linked(m) && IpcUrl(addr, port) in m.chans && m.chans[IpcUrl(addr, port)] == Planned(0) && |m.files| == 1
    ensures var n := C.Step(w, m, C.Remove(addr, port));
            n.chans == m.chans - {IpcUrl(addr, port)} && n.configured == m.configured
            && n.files == [R.Step(w, m.files[0], R.Drain)]
  {
    hide IpcUrl, R.Step;
  }

  lemma UninitStep(w: R.World, m: C.Mgr, key: string)
    requires C.Owned(m) && m.chans == map[key := Planned(1)] && |m.files| == 2
    ensures C.Linked(m) && C.Step(w, m, C.Uninit).files == [m.files[0], R.Step(w, m.files[1], R.Drain)]
  {
    assert key in m.chans;
    assert C.Mapped(m) == {1};
    hide R.Step;
  }

  lemma OneKept(s: R.State, f: R.Recording)
    requires s.log == [R.Kept(f, R.Switched)] && s.current.NoFile?
    ensures K.Recordings(s) == [f]
  {
    assert s.log[..0] == [];
    assert K.KeptFiles(s.log) == K.KeptFiles([]) + [f];
  }

  lemma TwoRecordings(files: seq<R.State>, f: R.Recording, g: R.Recording)
    requires |files| == 2 && K.Recordings(files[0]) == [f] && K.Recordings(files[1]) == [g]
    ensures Arc.AllRecordings(files) == [f, g]
  {
    hide K.Recordings;
    var one := files[..1];
    assert one[..0] == [] && one[0] == files[0];
    assert Arc.AllRecordings(one) == [f];
  }

  /** Two files of one name, in any order, leave one. */
  lemma OneLeft(f: R.Recording, g: R.Recording)
    requires R.Name(f) == R.Name(g)
    ensures |K.Files([f, g])| == 2 && |K.OnDisk(K.Files([f, g]))| == 1
  {
    hide R.Name, R.BytesOf;
    var a, b := K.FileOf(f), K.FileOf(g);
    assert K.Files([f, g]) == [a, b];
    assert [a, b][..1] == [a] && [a][..0] == [];
    assert K.OnDisk([a]) == map[a.name := a.data];
    assert K.OnDisk([a, b]) == map[a.name := b.data];
  }

  lemma SameNames(files: seq<R.State>, key: string)
    requires |files| == 2 && files[0].current.NoFile? && files[1].current.NoFile?
    requires files[0].log == [R.Kept(OneRecording(key, 7), R.Switched)]
    requires files[1].log == [R.Kept(OneRecording(key, 8), R.Switched)]
    ensures var fs := K.Files(Arc.AllRecordings(files)); |fs| == 2 && |K.OnDisk(fs)| == 1
  {
    OneKept(files[0], OneRecording(key, 7));
    OneKept(files[1], OneRecording(key, 8));
    TwoRecordings(files, OneRecording(key, 7), OneRecording(key, 8));
    hide K.Recordings, K.OnDisk, K.Files;
    OneLeft(OneRecording(key, 7), OneRecording(key, 8));
  }

  // ---------------------------------------------------------------- calls and channels

  const UDP := A.Config(true, 2)
  const TCP := A.Config(false, 2)

  function Hello(outcome: Reg.Outcome): A.Event { A.Sip(Reg.Message("a", 1, 0, outcome)) }

  /** The call that the first MESSAGE makes. */
  function FirstCall(): Reg.Call { Reg.Call("a", 1, 0, 4000, true, true, 0, 0) }

  lemma HelloIs(g: A.Config)
    ensures A.RegAfter(g, Reg.Init(4000), Hello(Reg.Invited)).calls == [FirstCall()]
    ensures A.RegAfter(g, Reg.Init(4000), Hello(Reg.StartFails)).calls == []
    ensures A.KeysRun({}, A.Emits(g, Reg.Init(4000), Hello(Reg.Invited))) == {IpcUrl("a", 1)}
    ensures A.KeysRun({}, A.Emits(g, Reg.Init(4000), Hello(Reg.StartFails))) == {IpcUrl("a", 1)}
  {
    A.RegAfterIs(g, Reg.Init(4000), Hello(Reg.Invited));
    A.RegAfterIs(g, Reg.Init(4000), Hello(Reg.StartFails));
    A.KeysOne({}, C.Add("a", 1, ""));
    hide IpcUrl, A.RegAfter, A.KeysRun;
    assert A.Emits(g, Reg.Init(4000), Hello(Reg.Invited)) == [C.Add("a", 1, "")];
    assert A.Emits(g, Reg.Init(4000), Hello(Reg.StartFails)) == [C.Add("a", 1, "")];
  }

  /** A camera with a call is renamed: the call is still listed, its payloads find no channel. */
  lemma RenameTakesChannel()
    ensures !A.AlwaysCovered(UDP, Reg.Init(4000), {},
                             [Hello(Reg.Invited), A.Rename(IpcUrl("a", 1), IpcUrl("b", 1))])
  {
    var r := A.RegAfter(UDP, Reg.Init(4000), Hello(Reg.Invited));
    var e := A.Rename(IpcUrl("a", 1), IpcUrl("b", 1));
    HelloIs(UDP);
    CamerasDiffer();
    A.RegAfterIs(UDP, r, e);
    A.KeysOne({IpcUrl("a", 1)}, C.Rename(IpcUrl("a", 1), IpcUrl("b", 1)));
    hide IpcUrl, A.RegAfter, A.KeysRun;
    assert Reg.Key(FirstCall()) == IpcUrl("a", 1) && FirstCall() in A.RegAfter(UDP, r, e).calls;
    var es := [Hello(Reg.Invited), e];
    assert es[1..][0] == e;
  }

  /** A call whose media do not start leaves its channel behind. */
  lemma FailedCallLeavesChannel(g: A.Config)
    ensures var r, keys := A.RegAfter(g, Reg.Init(4000), Hello(Reg.StartFails)),
                           A.KeysRun({}, A.Emits(g, Reg.Init(4000), Hello(Reg.StartFails)));
            r.calls == [] && keys == {IpcUrl("a", 1)}
  {
    HelloIs(g);
  }

  /** And so does a call over TCP that ends. */
  lemma TcpCallLeavesChannel()
    ensures var r := A.RegAfter(TCP, Reg.Init(4000), Hello(Reg.Invited));
            var bye := A.Sip(Reg.Disconnected(0));
            r.calls != [] && A.RegAfter(TCP, r, bye).calls == [] && A.KeysRun({IpcUrl("a", 1)}, A.Emits(TCP, r, bye)) == {IpcUrl("a", 1)}
  {
    HelloIs(TCP);
    var r := A.RegAfter(TCP, Reg.Init(4000), Hello(Reg.Invited));
    A.RegAfterIs(TCP, r, A.Sip(Reg.Disconnected(0)));
    hide IpcUrl, A.RegAfter;
  }

  // ---------------------------------------------------------------- serials come round

  function Draws(n: nat): seq<Reg.Event> { seq(n, _ => Reg.DrawSerial) }

  lemma {:induction false} RunDraws(r: Reg.Reg, n: nat, step: int)
    ensures Reg.Run(r, Draws(n), step) == r.(issued := r.issued + n)
    decreases n
  {
    if n == 0 {
    } else {
      assert Draws(n)[0] == Reg.DrawSerial && Draws(n)[1..] == Draws(n - 1);
      RunDraws(Reg.Drawn(r), n - 1, step);
    }
  }

  /** Camera a calls; all serials are drawn once round; camera b calls and is not heard of again, while
      a keeps in touch. */
  function RoundRun(): seq<Reg.Event> {
    [Reg.Message("a", 1, 0, Reg.Invited)] + Draws(Reg.SERIALS - 1)
    + [Reg.Message("b", 2, 0, Reg.Invited), Reg.Message("a", 1, 121000, Reg.Invited), Reg.Rtp(0, 121000)]
  }

  const A0 := Reg.Call("a", 1, 0, 4000, true, true, 0, 0)
  const B0 := Reg.Call("b", 2, Reg.SERIALS, 4002, true, true, 0, 0)
  const A1 := A0.(connected := 121000, active := 121000)

  lemma TwoCameras()
    ensures IpcUrl("a", 1) != IpcUrl("b", 2) && Fits("a", 1) && Fits("b", 2)
  {
    assert |Text.Decimal(1)| == 1 && |Text.Decimal(2)| == 1;
    IpcUrlInjective("a", 1, "b", 2);
  }

  lemma FirstRegistered(r: Reg.Reg)
    requires r == Reg.Step(Reg.Init(4000), Reg.Message("a", 1, 0, Reg.Invited), 2)
    ensures r.calls == [A0] && r.issued == 1 && r.nextPort == 4002
  {
    hide IpcUrl;
  }

  lemma RoundRunIs()
    ensures var r := Reg.Run(Reg.Init(4000), RoundRun(), 2); r.calls == [A1, B0]
  {
    hide Reg.Run, Reg.Step, Draws;
    var r0, hello := Reg.Init(4000), Reg.Message("a", 1, 0, Reg.Invited);
    var r1 := Reg.Step(r0, hello, 2);
    FirstRegistered(r1);
    A.RunOne(r0, hello, 2);
    RunDraws(r1, Reg.SERIALS - 1, 2);
    Reg.RunConcat(r0, [hello], Draws(Reg.SERIALS - 1), 2);
    Reg.RunConcat(r0, [hello] + Draws(Reg.SERIALS - 1),
                  [Reg.Message("b", 2, 0, Reg.Invited), Reg.Message("a", 1, 121000, Reg.Invited), Reg.Rtp(0, 121000)], 2);
    LastThree(r1.(issued := Reg.SERIALS));
  }

  lemma LastThree(r: Reg.Reg)
    requires r.calls == [A0] && r.issued == Reg.SERIALS && r.nextPort == 4002
    ensures var last := [Reg.Message("b", 2, 0, Reg.Invited), Reg.Message("a", 1, 121000, Reg.Invited), Reg.Rtp(0, 121000)];
            Reg.Run(r, last, 2).calls == [A1, B0]
  {
    hide IpcUrl;
    var last := [Reg.Message("b", 2, 0, Reg.Invited), Reg.Message("a", 1, 121000, Reg.Invited), Reg.Rtp(0, 121000)];
    var s := Reg.Step(r, last[0], 2);
    assert s.calls == [A0, B0];
    var t := Reg.Step(s, last[1], 2);
    assert t.calls == [A0.(connected := 121000), B0];
    var u := Reg.Step(t, last[2], 2);
    assert u.calls == [A1, B0];
    assert last[1..][0] == last[1] && last[1..][1..][0] == last[2] && last[1..][1..][1..] == [];
    assert Reg.Run(r, last, 2) == Reg.Run(s, last[1..], 2) == Reg.Run(t, last[1..][1..], 2) == Reg.Run(u, [], 2);
  }

  /** The keepalive thread reports b as gone and hangs up a: in the state before, which the program does
      reach, registry and reports agree; after the pass they do not. */
  lemma WrongCameraHungUp()
    ensures var r := Reg.Run(Reg.Init(4000), RoundRun(), 2);
            Reg.Inv(r) && Reg.AlivePass(r, 121000, 120).calls == [B0] && !Reg.Inv(Reg.AlivePass(r, 121000, 120))
  {
    Reg.InitInv(4000);
    RoundRunIs();
    TwoCameras();
    hide IpcUrl, Reg.Run, Reg.Inv, Reg.Step;
    assert forall e <- RoundRun() :: Reg.Addressed(e) && !e.Alive?;
    NoPassSure(Reg.Init(4000), RoundRun(), 2);
    Reg.RunInv(Reg.Init(4000), RoundRun(), 2);
    var r := Reg.Run(Reg.Init(4000), RoundRun(), 2);
    Reg.AliveAgreesExactly(r, 121000, 120);
    OnlyLater(r);
  }

  lemma OnlyLater(r: Reg.Reg)
    requires r.calls == [A1, B0]
    ensures Reg.FirstExpired(r.calls, 121000, 120) == 1 && Reg.Stale(B0, 121000, 120)
    ensures Reg.ByIndex(r.calls, Reg.Index(B0)) == 0 && Reg.AlivePass(r, 121000, 120).calls == [B0]
  {
    hide IpcUrl;
    assert r.calls[0] == A1 && r.calls[1] == B0 && Reg.Without(r.calls, 0) == [B0];
    assert !Reg.Expired(A1, 121000, 120) && Reg.Expired(B0, 121000, 120);
    assert Reg.Index(B0) == 0 == Reg.Index(A1);
  }

  lemma {:induction false} NoPassSure(r: Reg.Reg, es: seq<Reg.Event>, step: int)
    requires forall e <- es :: !e.Alive?
    ensures Reg.AlwaysSure(r, es, step)
    decreases |es|
  {
    hide Reg.Step;
    if es == [] {
    } else {
      assert es[0] in es;
      NoPassSure(Reg.Step(r, es[0], step), es[1..], step);
    }
  }

  /** A registration that draws the serial of one still outstanding is never answered. */
  lemma {:induction false} OtherDraws(p: P.Pend, n: nat)
    ensures P.Run(p, seq(n, _ => P.OtherDraw)) == p.(issued := p.issued + n)
    decreases n
  {
    var acts := seq(n, _ => P.OtherDraw);
    if n == 0 {
    } else {
      assert acts[0] == P.OtherDraw && acts[1..] == seq(n - 1, _ => P.OtherDraw);
      OtherDraws(P.Do(p, P.OtherDraw), n - 1);
    }
  }

  lemma ResponseNotStored()
    ensures var p := P.Run(P.Do(P.Do(P.Do(P.Start(0), P.Draw("a")), P.Store), P.Publish),
                           seq(Reg.SERIALS - 1, _ => P.OtherDraw));
            var q := P.Do(P.Do(p, P.Draw("b")), P.Store);
            q.flight.HasStored? && q.flight.q.addr == "b" && !P.Kept(q, q.flight.q)
  {
    var o := P.Do(P.Do(P.Do(P.Start(0), P.Draw("a")), P.Store), P.Publish);
    OtherDraws(o, Reg.SERIALS - 1);
    var p := P.Run(o, seq(Reg.SERIALS - 1, _ => P.OtherDraw));
    hide P.Run;
    assert p.store == map[0 := P.Request(0, "a")] && p.answers == [] && p.issued == Reg.SERIALS;
    var q := P.Do(P.Do(p, P.Draw("b")), P.Store);
    assert P.Serial(P.Request(Reg.SERIALS, "b")) == 0;
    assert q.store == p.store && q.flight.q == P.Request(Reg.SERIALS, "b");
  }

  // ---------------------------------------------------------------- the SDP answer

  /** A full array of attributes and a direction for the whole session: one slot is missing. */
  lemma AnswerOverruns(capacity: nat)
    ensures !S.Roomy(S.Media("video", seq(capacity, _ => S.Attr("rtpmap", ""))), Some(S.Attr("sendonly", "")), capacity)
  {
    var attrs := seq(capacity, _ => S.Attr("rtpmap", ""));
    assert |S.DIRS[0]| == 8 && |S.DIRS[1]| == 8 && |S.DIRS[2]| == 8 && |S.DIRS[3]| == 8;
    assert forall a <- attrs :: a.name !in S.DIRS by {
      assert |"rtpmap"| == 6;
    }
    S.FirstOfFinds(attrs, S.DIRS);
    S.RoomyExactly(S.Media("video", attrs), Some(S.Attr("sendonly", "")), capacity);
  }
}
