/** What holds of the channel manager over every run of its handlers. */
module ChannelRuns {
  import opened Bytes
  import opened Keys
  import opened LiveClients
  import opened Channels
  import R = Recorder

  // ---------------------------------------------------------------- runs

  /** No step of the run renames a registered camera to itself. */
  ghost predicate Legal(w: R.World, m: Mgr, es: seq<Event>)
    requires Owned(m)
    decreases es
  {
    es == [] ||
    (&& Defined(m, es[0])
     && (StepOwned(w, m, es[0]); Legal(w, Step(w, m, es[0]), es[1..])))
  }

  ghost function Run(w: R.World, m: Mgr, es: seq<Event>): (r: Mgr)
    requires Owned(m) && Legal(w, m, es)
    ensures Owned(r)
    decreases es
  {
    if es == [] then m else StepOwned(w, m, es[0]); Run(w, Step(w, m, es[0]), es[1..])
  }

  // ---------------------------------------------------------------- refinement of the tapes

  function TapeRun(t: Tapes, es: seq<Event>): Tapes
    decreases es
  {
    if es == [] then t else TapeRun(TapeStep(t, es[0]), es[1..])
  }

  /** Conservation from end to end: whatever the run, each StreamFile's closed files, open file and
      buffer hold exactly the payloads that the tape of its channel holds. */
  lemma {:induction false} RunRefines(w: R.World, m: Mgr, es: seq<Event>)
    requires Owned(m) && Legal(w, m, es)
    ensures View(Run(w, m, es)) == TapeRun(View(m), es)
    decreases es
  {
    hide View, TapeStep, Step, Owned;
    if es == [] {
    } else {
      StepOwned(w, m, es[0]);
      OwnedLinked(m);
      StepRefines(w, m, es[0]);
      RunRefines(w, Step(w, m, es[0]), es[1..]);
    }
  }

  /** A payload that is recorded leaves its camera's StreamFile with the camera's key and with the
      directory, format, limit and plan that the camera was given last. */
  lemma RecordedAsSet(w: R.World, m: Mgr, addr: string, port: int, payload: seq<byte>)
    requires Owned(m)
    ensures var key := IpcUrl(addr, port);
            key in View(m).routes && payload != [] && View(m).routes[key].dir != "" && View(m).routes[key].flag != 0
            ==>
              var c, n := View(m).routes[key], Step(w, m, Rtp(addr, port, payload));
              c.file < |n.files| &&
              var f := n.files[c.file];
              f.url == key && f.dir == c.dir && f.fmt == c.fmt && f.limit == c.limit && f.plan == c.plan
  {
    hide Step, R.Step, R.Tape, IpcUrl;
    var key := IpcUrl(addr, port);
    OwnedLinked(m);
    if key in m.chans {
      var c := m.chans[key];
      StepFiles(w, m, Rtp(addr, port, payload));
      R.SettingsTaken(w, m.files[c.file], R.Payload(key, c.dir, payload), c.fmt, c.limit, c.plan);
    }
  }

  // ---------------------------------------------------------------- labels, sizes and reports

  /** For each StreamFile what is known of its size limits and payloads. */
  type Regimes = nat -> R.Regime

  /** A plan or payload for a camera keeps to what is said of that camera's StreamFile. */
  predicate Obeys(m: Mgr, e: Event, g: Regimes) {
    match e
    case Replan(url, _, limit, _, _) =>
      url in m.chans && g(m.chans[url].file).Fixed? ==> limit == g(m.chans[url].file).limit
    case Rtp(addr, port, payload) =>
      var key := IpcUrl(addr, port);
      key in m.chans && g(m.chans[key].file).Fixed? ==> |payload| <= g(m.chans[key].file).longest
    case _ => true
  }

  ghost predicate ObeysRun(w: R.World, m: Mgr, es: seq<Event>, g: Regimes)
    requires Owned(m) && Legal(w, m, es)
    decreases es
  {
    es == [] || (Obeys(m, es[0], g) && (StepOwned(w, m, es[0]); ObeysRun(w, Step(w, m, es[0]), es[1..], g)))
  }

  ghost predicate AllMeasurable(configured: int, g: Regimes) {
    forall i: nat :: R.Measurable(g(i), R.New(0, configured).cap)
  }

  ghost predicate FilesSound(m: Mgr, g: Regimes) {
    && AllMeasurable(m.configured, g)
    && (forall i :: 0 <= i < |m.files| ==> m.files[i].id == i && R.Sound(m.files[i], g(i)))
  }

  predicate LimitsSet(m: Mgr, g: Regimes) {
    forall u <- m.chans ::
      var c := m.chans[u]; c.file < |m.files| && (g(c.file).Fixed? && c.flag != 0 ==> c.limit == g(c.file).limit)
  }

  ghost predicate Healthy(m: Mgr, g: Regimes) { Owned(m) && FilesSound(m, g) && LimitsSet(m, g) }

  lemma NewSound(id: nat, configured: int, g: R.Regime)
    requires R.Measurable(g, R.New(0, configured).cap)
    ensures R.Sound(R.New(id, configured), g) && R.New(id, configured).id == id
  {
  }

  lemma StepFilesSound(w: R.World, m: Mgr, e: Event, g: Regimes)
    requires Healthy(m, g) && Obeys(m, e, g)
    ensures FilesSound(Step(w, m, e), g)
  {
    hide Step, R.Step, R.New, R.Sound, R.Measurable;
    StepFiles(w, m, e);
    NewSound(|m.files|, m.configured, g(|m.files|));
    if e.Rtp? {
      var key := IpcUrl(e.addr, e.port);
      if key in m.chans && Records(m.chans[key], e.payload) {
        var k := m.chans[key].file;
        var s := m.files[k];
        R.StepSound(w, s, g(k), WriteOf(key, m.chans[key], e.payload));
        StepId(w, s, WriteOf(key, m.chans[key], e.payload));
      }
    } else {
      forall i | 0 <= i < |m.files|
        ensures var t := R.Step(w, m.files[i], R.Drain); t.id == i && R.Sound(t, g(i))
      {
        R.StepSound(w, m.files[i], g(i), R.Drain);
        StepId(w, m.files[i], R.Drain);
      }
    }
  }

  lemma StepId(w: R.World, s: R.State, op: R.Op)
    ensures R.Step(w, s, op).id == s.id
  {
    R.SameCap(w, s, R.Acts(s, op));
  }

  lemma StepLimits(w: R.World, m: Mgr, e: Event, g: Regimes)
    requires Linked(m) && LimitsSet(m, g) && Obeys(m, e, g)
    ensures LimitsSet(Step(w, m, e), g)
  {
    hide R.Step, R.New, IpcUrl, Packets, DrainAll;
  }

  /** Labels, sizes, reports and ownership over every run of the manager, each StreamFile with a size
      limit of its own or none that is known. */
  lemma {:induction false} RunHealthy(w: R.World, m: Mgr, es: seq<Event>, g: Regimes)
    requires Healthy(m, g) && Legal(w, m, es) && ObeysRun(w, m, es, g)
    ensures Healthy(Run(w, m, es), g)
    decreases es
  {
    hide Step, FilesSound, LimitsSet, Owned, Obeys;
    if es == [] {
    } else {
      OwnedLinked(m);
      StepOwned(w, m, es[0]);
      StepFilesSound(w, m, es[0], g);
      StepLimits(w, m, es[0], g);
      RunHealthy(w, Step(w, m, es[0]), es[1..], g);
    }
  }

  lemma InitHealthy(configured: int, g: Regimes)
    requires AllMeasurable(configured, g)
    ensures Healthy(Init(configured), g)
  {
  }

  /** Nothing is known of any size limit; every run obeys that. */
  function NoLimits(): Regimes { (i: nat) => R.AnyLimit }

  lemma {:induction false} NoLimitsObeyed(w: R.World, m: Mgr, es: seq<Event>)
    requires Owned(m) && Legal(w, m, es)
    ensures ObeysRun(w, m, es, NoLimits())
    decreases es
  {
    hide Step, Owned;
    if es == [] {
    } else {
      OwnedLinked(m);
      StepOwned(w, m, es[0]);
      NoLimitsObeyed(w, Step(w, m, es[0]), es[1..]);
    }
  }

  /** So every run from the start keeps labels and reports right. */
  lemma RunFromStart(w: R.World, configured: int, es: seq<Event>)
    requires Legal(w, Init(configured), es)
    ensures Healthy(Run(w, Init(configured), es), NoLimits())
  {
    hide Step, Owned, FilesSound, LimitsSet;
    InitHealthy(configured, NoLimits());
    NoLimitsObeyed(w, Init(configured), es);
    RunHealthy(w, Init(configured), es, NoLimits());
  }

  // ---------------------------------------------------------------- nothing dropped

  /** Every fopen that an event needs for something to write succeeds. */
  predicate EventOpens(w: R.World, m: Mgr, e: Event)
    requires Linked(m)
  {
    match e
    case Rtp(addr, port, payload) =>
      var key := IpcUrl(addr, port);
      key in m.chans && Records(m.chans[key], payload)
      ==> R.StepOpens(w, m.files[m.chans[key].file], WriteOf(key, m.chans[key], payload))
    case Remove(addr, port) =>
      var key := IpcUrl(addr, port);
      key in m.chans ==> R.StepOpens(w, m.files[m.chans[key].file], R.Drain)
    case Uninit => forall i :: 0 <= i < |m.files| && i in Mapped(m) ==> R.StepOpens(w, m.files[i], R.Drain)
    case _ => true
  }

  ghost predicate RunOpens(w: R.World, m: Mgr, es: seq<Event>)
    requires Owned(m) && Legal(w, m, es)
    decreases es
  {
    es == [] ||
    (OwnedLinked(m); StepOwned(w, m, es[0]); EventOpens(w, m, es[0]) && RunOpens(w, Step(w, m, es[0]), es[1..]))
  }

  /** No StreamFile has dropped anything. */
  predicate NoneLost(m: Mgr) { forall i :: 0 <= i < |m.files| ==> R.NothingLost(m.files[i].log) }

  /** The StreamFiles that an event drains. */
  function Drains(m: Mgr, e: Event): set<nat> {
    match e
    case Remove(addr, port) =>
      if IpcUrl(addr, port) in m.chans then {m.chans[IpcUrl(addr, port)].file} else {}
    case Uninit => Mapped(m)
    case _ => {}
  }

  lemma LogReplaced(m: Mgr, n: Mgr, k: nat, t: R.State)
    requires k < |m.files| && n.files == m.files[k := t] && (R.NothingLost(t.log) ==> R.NothingLost(m.files[k].log))
    ensures NoneLost(n) <==> NoneLost(m) && R.NothingLost(t.log)
  {
    hide R.NothingLost;
    assert n.files[k] == t;
    forall i | 0 <= i < |m.files| && i != k ensures n.files[i] == m.files[i] {
    }
  }

  lemma StepLosesNone(w: R.World, m: Mgr, e: Event)
    requires Linked(m)
    ensures NoneLost(Step(w, m, e)) <==> NoneLost(m) && EventOpens(w, m, e)
  {
    hide Step, R.Step, R.New, R.StepOpens, R.NothingLost, IpcUrl, Records;
    StepFiles(w, m, e);
    R.NewIsEmpty(|m.files|, m.configured);
    if e.Rtp? {
      var key := IpcUrl(e.addr, e.port);
      if key in m.chans && Records(m.chans[key], e.payload) {
        var k, op := m.chans[key].file, WriteOf(key, m.chans[key], e.payload);
        R.StepLoses(w, m.files[k], op);
        LogReplaced(m, Step(w, m, e), k, R.Step(w, m.files[k], op));
      }
    } else {
      var n := Step(w, m, e);
      forall i | 0 <= i < |m.files|
        ensures R.NothingLost(R.Step(w, m.files[i], R.Drain).log)
                <==> R.NothingLost(m.files[i].log) && R.StepOpens(w, m.files[i], R.Drain)
      {
        R.StepLoses(w, m.files[i], R.Drain);
      }
      assert forall i :: |m.files| <= i < |n.files| ==> R.NothingLost(n.files[i].log);
      assert forall i :: 0 <= i < |m.files| ==>
               n.files[i] == if i in Drains(m, e) then R.Step(w, m.files[i], R.Drain) else m.files[i];
      assert EventOpens(w, m, e) <==>
               forall i :: 0 <= i < |m.files| && i in Drains(m, e) ==> R.StepOpens(w, m.files[i], R.Drain);
    }
  }

  lemma {:induction false} RunLosesNone(w: R.World, m: Mgr, es: seq<Event>)
    requires Owned(m) && Legal(w, m, es)
    ensures NoneLost(Run(w, m, es)) <==> NoneLost(m) && RunOpens(w, m, es)
    decreases es
  {
    hide Step, Owned, NoneLost, EventOpens;
    if es == [] {
    } else {
      OwnedLinked(m);
      StepOwned(w, m, es[0]);
      StepLosesNone(w, m, es[0]);
      RunLosesNone(w, Step(w, m, es[0]), es[1..]);
    }
  }

  lemma NoneLostHolds(m: Mgr)
    ensures NoneLost(m) <==> forall i :: 0 <= i < |m.files| ==>
              R.InFiles(m.files[i]) + m.files[i].pending == View(m).tapes[i]
  {
    hide R.NothingLost, R.InFiles, R.Tape, Routes;
    forall i | 0 <= i < |m.files|
      ensures R.InFiles(m.files[i]) + m.files[i].pending == View(m).tapes[i] <==> R.NothingLost(m.files[i].log)
    {
      R.InFilesIsTape(m.files[i]);
    }
  }

  /** Over every run from the start: files and buffers hold every tape in full if and only if every
      fopen with something to write succeeded. */
  lemma RunHolds(w: R.World, configured: int, es: seq<Event>)
    requires Legal(w, Init(configured), es)
    ensures var m := Run(w, Init(configured), es);
            var tapes := TapeRun(View(Init(configured)), es).tapes;
            |m.files| == |tapes|
            && ((forall i :: 0 <= i < |m.files| ==> R.InFiles(m.files[i]) + m.files[i].pending == tapes[i])
                <==> RunOpens(w, Init(configured), es))
  {
    InitHoldsNone(configured);
    hide Step, Owned, NoneLost, R.InFiles, R.Tape;
    RunRefines(w, Init(configured), es);
    RunLosesNone(w, Init(configured), es);
    NoneLostHolds(Run(w, Init(configured), es));
  }

  lemma InitHoldsNone(configured: int)
    ensures NoneLost(Init(configured)) && Settled(Init(configured))
  {
  }

  // ---------------------------------------------------------------- nothing left in a buffer

  /** StreamFiles that no channel uses any more have an empty buffer. */
  predicate Settled(m: Mgr) {
    forall i :: 0 <= i < |m.files| && i !in Mapped(m) ==> m.files[i].pending == []
  }

  /** A rename onto a registered camera displaces that camera's StreamFile without draining it, so
      the buffer had better be empty. */
  predicate SparesBuffer(m: Mgr, e: Event)
    requires Linked(m)
  {
    e.Rename? && e.from in m.chans && e.to in m.chans ==> m.files[m.chans[e.to].file].pending == []
  }

  lemma DrainIdle(w: R.World, s: R.State, g: R.Regime)
    requires R.Sound(s, g)
    ensures R.Step(w, s, R.Drain).pending == []
  {
    hide R.Exec, R.Sound;
    R.ClearSound(w, s, g);
  }

  /** The StreamFile that a step takes away from its channel, if any. */
  function Released(m: Mgr, e: Event): set<nat> {
    match e
    case Remove(addr, port) =>
      if IpcUrl(addr, port) in m.chans then {m.chans[IpcUrl(addr, port)].file} else {}
    case Rename(from, to) => if from in m.chans && to in m.chans then {m.chans[to].file} else {}
    case Uninit => Mapped(m)
    case _ => {}
  }

  lemma StepMapped(w: R.World, m: Mgr, e: Event, i: nat)
    requires Owned(m) && Defined(m, e) && i < |m.files|
    ensures i in Mapped(Step(w, m, e)) <==> i in Mapped(m) - Released(m, e)
  {
    var n := Step(w, m, e);
    StepRoutes(w, m, e);
    RoutesMapped(m);
    RoutesMapped(n);
    hide Step, IpcUrl, R.Tape, R.New, Mapped;
    if e.Rename? {
      RenameMapped(m, e.from, e.to, i);
    } else if e.Remove? {
      RemoveMapped(m, IpcUrl(e.addr, e.port), i);
    } else {
      KeptMapped(View(m), e, i);
    }
  }

  predicate Uses(routes: map<string, Route>, i: nat) { exists u :: u in routes && routes[u].file == i }

  lemma KeptMapped(t: Tapes, e: Event, i: nat)
    requires !e.Rename? && !e.Remove? && i < |t.tapes|
    ensures Uses(TapeStep(t, e).routes, i) <==> Uses(t.routes, i) && !e.Uninit?
  {
    hide IpcUrl;
    var r := TapeStep(t, e).routes;
    if u :| u in t.routes && t.routes[u].file == i {
      assert !e.Uninit? ==> u in r && r[u].file == i;
    }
    if u :| u in r && r[u].file == i {
      assert u in t.routes && t.routes[u].file == i;
    }
  }

  lemma RemoveMapped(m: Mgr, key: string, i: nat)
    requires Owned(m)
    ensures Uses(Routes(m.chans) - {key}, i)
            <==> Uses(Routes(m.chans), i) && !(key in m.chans && i == m.chans[key].file)
  {
    var s := Routes(m.chans);
    if u :| u in s && s[u].file == i && u != key {
      assert u in s - {key} && (s - {key})[u].file == i;
    }
    if u :| u in s - {key} && (s - {key})[u].file == i {
      assert u in s && s[u].file == i;
    }
  }

  lemma RenameMapped(m: Mgr, from: string, to: string, i: nat)
    requires Owned(m) && (from in m.chans ==> from != to)
    ensures var s := Routes(m.chans);
            Uses(if from in s then (s - {from})[to := s[from]] else s, i)
            <==> Uses(s, i) && !(from in m.chans && to in m.chans && i == m.chans[to].file)
  {
    var s := Routes(m.chans);
    if from in s {
      var t := (s - {from})[to := s[from]];
      if u :| u in t && t[u].file == i {
        assert (if u == to then from else u) in s;
      }
      if u :| u in s && s[u].file == i && u != to {
        assert (if u == from then to else u) in t && t[if u == from then to else u].file == i;
      }
    }
  }

  lemma RoutesMapped(m: Mgr)
    ensures forall i: nat :: i in Mapped(m) <==> Uses(Routes(m.chans), i)
  {
    forall i: nat | i in Mapped(m) ensures Uses(Routes(m.chans), i) {
      var u :| u in m.chans && m.chans[u].file == i;
      assert u in Routes(m.chans) && Routes(m.chans)[u].file == i;
    }
  }

  lemma FilePending(w: R.World, m: Mgr, e: Event, i: nat)
    requires Linked(m) && i < |m.files| && R.Step(w, m.files[i], R.Drain).pending == []
    ensures var n := Step(w, m, e);
            i < |n.files|
            && if i in Drains(m, e) then n.files[i].pending == []
               else n.files[i] == m.files[i] || (e.Rtp? && i in Mapped(m))
  {
    hide Step, R.Step, IpcUrl, R.New, Records, WriteOf;
    StepFiles(w, m, e);
    if e.Rtp? && IpcUrl(e.addr, e.port) in m.chans {
      assert m.chans[IpcUrl(e.addr, e.port)].file in Mapped(m);
    }
  }

  /** What a step makes of one StreamFile that was there. */
  lemma FileSettled(w: R.World, m: Mgr, e: Event, g: Regimes, i: nat)
    requires Healthy(m, g) && Defined(m, e) && i < |m.files|
    ensures var n := Step(w, m, e);
            i < |n.files|
            && (i in Mapped(n) || n.files[i].pending == []
                <==> (i in Mapped(m) || m.files[i].pending == [])
                     && (e.Rename? && i in Released(m, e) ==> m.files[i].pending == []))
  {
    OwnedLinked(m);
    StepMapped(w, m, e, i);
    DrainIdle(w, m.files[i], g(i));
    FilePending(w, m, e, i);
    ReleasedMapped(m, e, i);
    hide Step, R.Step, R.Sound, IpcUrl, Mapped, Owned, FilesSound, LimitsSet, Drains, Released;
  }

  lemma ReleasedMapped(m: Mgr, e: Event, i: nat)
    requires Linked(m)
    ensures i in Released(m, e) ==> i in Mapped(m)
    ensures i in Drains(m, e) <==> i in Released(m, e) && !e.Rename?
    ensures i in Released(m, e) ==> e.Rename? || e.Remove? || e.Uninit?
  {
    hide IpcUrl;
  }

  lemma StepSettled(w: R.World, m: Mgr, e: Event, g: Regimes)
    requires Healthy(m, g) && Defined(m, e)
    ensures Settled(Step(w, m, e)) <==> Settled(m) && SparesBuffer(m, e)
  {
    hide Step, R.Step, R.New, R.Sound, IpcUrl, Records, Mapped;
    var n := Step(w, m, e);
    StepFiles(w, m, e);
    forall i | 0 <= i < |m.files|
      ensures i < |n.files|
      ensures i in Mapped(n) || n.files[i].pending == []
              <==> (i in Mapped(m) || m.files[i].pending == [])
                   && (e.Rename? && i in Released(m, e) ==> m.files[i].pending == [])
    {
      FileSettled(w, m, e, g, i);
    }
    NewPending(|m.files|, m.configured);
    assert forall i :: |m.files| <= i < |n.files| ==> n.files[i].pending == [];
    hide FilesAfter;
    if e.Rename? && e.from in m.chans && e.to in m.chans {
      assert Released(m, e) == {m.chans[e.to].file};
    }
  }

  lemma NewPending(id: nat, configured: int)
    ensures R.New(id, configured).pending == []
  {
  }

  /** Every rename of the run that displaces a camera finds its buffer empty. */
  ghost predicate SparesBuffers(w: R.World, m: Mgr, es: seq<Event>)
    requires Owned(m) && Legal(w, m, es)
    decreases es
  {
    es == [] ||
    (OwnedLinked(m); StepOwned(w, m, es[0]); SparesBuffer(m, es[0]) && SparesBuffers(w, Step(w, m, es[0]), es[1..]))
  }

  lemma {:induction false} RunSettled(w: R.World, m: Mgr, es: seq<Event>, g: Regimes)
    requires Healthy(m, g) && Legal(w, m, es) && ObeysRun(w, m, es, g)
    ensures Settled(Run(w, m, es)) <==> Settled(m) && SparesBuffers(w, m, es)
    decreases es
  {
    hide Step, FilesSound, LimitsSet, Owned, Obeys, Settled, SparesBuffer;
    if es == [] {
    } else {
      OwnedLinked(m);
      StepOwned(w, m, es[0]);
      StepFilesSound(w, m, es[0], g);
      StepLimits(w, m, es[0], g);
      StepSettled(w, m, es[0], g);
      RunSettled(w, Step(w, m, es[0]), es[1..], g);
    }
  }

  /** No rename of the run displaces a camera with something in its buffer, and every fopen of the run
      and of the shutdown after it that has something to write succeeds. */
  ghost predicate Careful(w: R.World, m: Mgr, es: seq<Event>)
    requires Owned(m) && Legal(w, m, es)
  {
    SparesBuffers(w, m, es) && RunOpens(w, m, es)
    && (OwnedLinked(Run(w, m, es)); EventOpens(w, Run(w, m, es), Uninit))
  }

  /** Shutting down leaves every payload of every tape in files if and only if the run was careful. */
  lemma ShutdownWritesAll(w: R.World, configured: int, es: seq<Event>)
    requires Legal(w, Init(configured), es)
    ensures var files := Step(w, Run(w, Init(configured), es), Uninit).files;
            var tapes := TapeRun(View(Init(configured)), es).tapes;
            |files| == |tapes|
            && ((forall i :: 0 <= i < |files| ==> R.InFiles(files[i]) == tapes[i])
                <==> Careful(w, Init(configured), es))
  {
    var m0 := Init(configured);
    InitHealthy(configured, NoLimits());
    InitHoldsNone(configured);
    hide Step, Owned, NoneLost, FilesSound, LimitsSet, Settled, R.InFiles, EventOpens, View;
    NoLimitsObeyed(w, m0, es);
    var m := Run(w, m0, es);
    RunHealthy(w, m0, es, NoLimits());
    RunSettled(w, m0, es, NoLimits());
    RunLosesNone(w, m0, es);
    RunRefines(w, m0, es);
    OwnedLinked(m);
    StepLosesNone(w, m, Uninit);
    UninitWrites(w, m);
  }

  lemma UninitWrites(w: R.World, m: Mgr)
    requires Healthy(m, NoLimits())
    ensures Linked(m)
    ensures var n := Step(w, m, Uninit);
            |n.files| == |View(m).tapes|
            && (Settled(m) && NoneLost(n)
                <==> forall i :: 0 <= i < |n.files| ==> R.InFiles(n.files[i]) == View(m).tapes[i])
  {
    OwnedLinked(m);
    StepFiles(w, m, Uninit);
    hide Step, R.Step, R.Sound, R.Measurable, R.InFiles, R.NothingLost, R.Tape, Owned, Mapped, Routes;
    var n := Step(w, m, Uninit);
    forall i | 0 <= i < |m.files|
      ensures R.InFiles(n.files[i]) == View(m).tapes[i]
              <==> (i in Mapped(m) || m.files[i].pending == []) && R.NothingLost(n.files[i].log)
    {
      R.StepKeepsAll(w, m.files[i], R.Drain);
      DrainIdle(w, m.files[i], R.AnyLimit);
      R.InFilesIsTape(n.files[i]);
    }
  }

  // ---------------------------------------------------------------- live forwarding

  /** A step hands a client the packets of a payload exactly if the payload's camera has that client
      and is the one the client was opened for. */
  lemma StepHands(w: R.World, m: Mgr, e: Event, id: nat)
    requires Owned(m) && id < |m.clients|
    ensures var n := Step(w, m, e);
            id < |n.clients| && n.clients[id].url == m.clients[id].url
            && n.clients[id].got == m.clients[id].got + Delivered(m, e, id)
  {
    if e.Rtp? {
      RtpHands(w, m, e, id);
    } else {
      OtherHands(w, m, e, id);
    }
  }

  lemma OtherHands(w: R.World, m: Mgr, e: Event, id: nat)
    requires Owned(m) && id < |m.clients| && !e.Rtp?
    ensures var n := Step(w, m, e);
            id < |n.clients| && n.clients[id].url == m.clients[id].url && n.clients[id].got == m.clients[id].got
  {
    hide R.Step, R.New, Packets, IpcUrl, DrainAll;
  }

  lemma RtpHands(w: R.World, m: Mgr, e: Event, id: nat)
    requires Owned(m) && id < |m.clients| && e.Rtp?
    ensures var n := Step(w, m, e);
            |n.clients| == |m.clients| && n.clients[id].url == m.clients[id].url
            && n.clients[id].got == m.clients[id].got + Delivered(m, e, id)
  {
    hide Record, Packets, IpcUrl;
    var key := IpcUrl(e.addr, e.port);
    if key in m.chans {
      RecordKeeps(w, m, key, m.chans[key], e.payload);
    }
  }

  function Delivered(m: Mgr, e: Event, id: nat): seq<seq<byte>>
    requires id < |m.clients|
  {
    if e.Rtp? && IpcUrl(e.addr, e.port) == m.clients[id].url
       && m.clients[id].url in m.chans && m.chans[m.clients[id].url].viewer == Viewer(id)
    then Packets(e.payload) else []
  }

  lemma StepClients(w: R.World, m: Mgr, e: Event)
    requires Owned(m)
    ensures |m.clients| <= |Step(w, m, e).clients|
    ensures forall id :: |m.clients| <= id < |Step(w, m, e).clients| ==> Step(w, m, e).clients[id].got == []
  {
    hide R.Step, R.New, Packets, IpcUrl, DrainAll;
  }

  /** A client is closed exactly when its camera is removed, or its viewer leaves or is replaced; a
      viewer who connects brings a client that is open and has sent nothing. */
  lemma StepCloses(w: R.World, m: Mgr, e: Event)
    requires Owned(m)
    ensures var n := Step(w, m, e);
            && |n.clients| == |m.clients| + (if e.LiveStart? && e.connects then 1 else 0)
            && (e.LiveStart? && e.connects ==> n.clients[|m.clients|] == Client(e.url, true, []))
            && (forall id :: 0 <= id < |m.clients| ==>
                  n.clients[id].isOpen == (m.clients[id].isOpen && !(exists u <- m.chans ::
                    m.chans[u].viewer == Viewer(id)
                    && (match e
                        case Remove(addr, port) => u == IpcUrl(addr, port)
                        case LiveStart(url, _) => u == url
                        case LiveStop(url) => u == url
                        case _ => false))))
  {
    hide R.Step, R.New, Packets, IpcUrl, DrainAll;
  }

  /** The event is not about whether and where this camera is watched. */
  predicate LeavesViewer(e: Event, url: string) {
    match e
    case Remove(addr, port) => IpcUrl(addr, port) != url
    case LiveStart(u, _) => u != url
    case LiveStop(u) => u != url
    case Rename(from, to) => from != url && to != url
    case Uninit => false
    case _ => true
  }

  predicate Serves(m: Mgr, url: string, id: nat) {
    && id < |m.clients| && m.clients[id].isOpen && m.clients[id].url == url
    && url in m.chans && m.chans[url].viewer == Viewer(id)
  }

  lemma StepServes(w: R.World, m: Mgr, e: Event, url: string, id: nat)
    requires Owned(m) && Serves(m, url, id) && LeavesViewer(e, url)
    ensures Serves(Step(w, m, e), url, id)
  {
    var n := Step(w, m, e);
    OwnedLinked(m);
    StepRefines(w, m, e);
    StepCloses(w, m, e);
    StepHands(w, m, e, id);
    RouteServes(View(m), e, url);
    RoutesKeys(m.chans);
    RoutesKeys(n.chans);
    assert View(n).routes[url].viewer == View(m).routes[url].viewer;
    hide Step, TapeStep, IpcUrl, R.Tape;
  }

  lemma RouteServes(t: Tapes, e: Event, url: string)
    requires url in t.routes && LeavesViewer(e, url)
    ensures var r := TapeStep(t, e).routes; url in r && r[url].viewer == t.routes[url].viewer
  {
    hide IpcUrl;
  }

  /** The packets of all payloads of a camera. */
  function PacketsOf(es: seq<Event>, url: string): seq<seq<byte>>
    decreases |es|
  {
    if es == [] then []
    else
      (if es[0].Rtp? && IpcUrl(es[0].addr, es[0].port) == url then Packets(es[0].payload) else [])
      + PacketsOf(es[1..], url)
  }

  lemma ServesIs(m: Mgr, url: string, id: nat)
    requires Serves(m, url, id)
    ensures id < |m.clients|
  {
  }

  lemma Regrouped(a: seq<seq<byte>>, b: seq<seq<byte>>, c: seq<seq<byte>>)
    ensures a + b + c == a + (b + c)
  {
  }

  lemma PacketsOfHead(m: Mgr, es: seq<Event>, url: string, id: nat)
    requires es != [] && Serves(m, url, id)
    ensures PacketsOf(es, url) == Delivered(m, es[0], id) + PacketsOf(es[1..], url)
  {
    hide Packets, IpcUrl;
  }

  lemma {:induction false} RunServes(w: R.World, m: Mgr, es: seq<Event>, url: string, id: nat)
    requires Owned(m) && Legal(w, m, es) && Serves(m, url, id) && forall e <- es :: LeavesViewer(e, url)
    ensures id < |Run(w, m, es).clients|
    ensures Run(w, m, es).clients[id].got == m.clients[id].got + PacketsOf(es, url)
    decreases |es|
  {
    hide Step, Owned, Delivered, LeavesViewer, Serves;
    if es == [] {
      assert m.clients[id].got + [] == m.clients[id].got by { ServesIs(m, url, id); }
    } else {
      StepOwned(w, m, es[0]);
      OwnedLinked(m);
      ServesIs(m, url, id);
      StepServes(w, m, es[0], url, id);
      StepHands(w, m, es[0], id);
      PacketsOfHead(m, es, url, id);
      RunServes(w, Step(w, m, es[0]), es[1..], url, id);
      hide PacketsOf, Run, Legal;
      Regrouped(m.clients[id].got, Delivered(m, es[0], id), PacketsOf(es[1..], url));
    }
  }

  /** From the moment a viewer connects, and as long as the camera is neither removed nor renamed nor
      watched by somebody else, the client sends every payload of the camera, and nothing else. */
  lemma ViewerServed(w: R.World, m: Mgr, url: string, es: seq<Event>)
    requires Owned(m) && Legal(w, m, [LiveStart(url, true)] + es) && forall e <- es :: LeavesViewer(e, url)
    ensures var n := Run(w, m, [LiveStart(url, true)] + es);
            |m.clients| < |n.clients| && n.clients[|m.clients|].got == PacketsOf(es, url)
  {
    var e := LiveStart(url, true);
    var n := Step(w, m, e);
    var all := [e] + es;
    assert all[0] == e && all[1..] == es;
    OwnedLinked(m);
    StepOwned(w, m, e);
    StepCloses(w, m, e);
    StepRefines(w, m, e);
    RoutesKeys(n.chans);
    assert url in View(n).routes && View(n).routes[url].viewer == Viewer(|m.clients|);
    hide Step, Owned, IpcUrl, Packets, LeavesViewer, TapeStep, R.Tape;
    RunServes(w, n, es, url, |m.clients|);
  }

  /** The packet was cut from a payload of this camera. */
  predicate Heard(es: seq<Event>, url: string, packet: seq<byte>) {
    exists e <- es :: e.Rtp? && IpcUrl(e.addr, e.port) == url && packet in Packets(e.payload)
  }

  /** Over every run, renames included, a client sends only packets of the camera it was opened for. */
  lemma {:induction false} OnlyOwnCamera(w: R.World, m: Mgr, es: seq<Event>, id: nat, packet: seq<byte>)
    requires Owned(m) && Legal(w, m, es)
    requires var n := Run(w, m, es); id < |n.clients| && packet in n.clients[id].got
    ensures id < |m.clients| ==> Run(w, m, es).clients[id].url == m.clients[id].url
    ensures (id < |m.clients| && packet in m.clients[id].got) || Heard(es, Run(w, m, es).clients[id].url, packet)
    decreases es
  {
    hide Step, Owned, Packets, IpcUrl;
    if es == [] {
    } else {
      StepOwned(w, m, es[0]);
      OwnedLinked(m);
      var n := Step(w, m, es[0]);
      OnlyOwnCamera(w, n, es[1..], id, packet);
      StepClients(w, m, es[0]);
      if id < |m.clients| {
        StepHands(w, m, es[0], id);
      }
      if e :| e in es[1..] && e.Rtp? && IpcUrl(e.addr, e.port) == Run(w, m, es).clients[id].url
              && packet in Packets(e.payload) {
        assert e in es;
      }
      assert es[0] in es;
    }
  }
}
