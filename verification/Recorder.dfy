/** What one StreamFile does with the payloads of a camera, told in whole payloads instead of bytes.

    A chunk that leaves the buffer goes into the open file or, if no file can be opened, nowhere.
    The log lists what is finished, in order: closed files and dropped chunks. */
module Recorder {
  import opened Bytes
  import opened FileNames

  /** One accepted RTP payload with the camera and directory it arrived for. */
  datatype Payload = Payload(url: string, dir: string, bytes: seq<byte>)

  /** One fopen: the clock that named the file, and whether the system opened it. */
  datatype Attempt = Attempt(now: Stamp, opens: bool)

  /** The outcome of the n-th fopen of each StreamFile; every property below holds for every World. */
  type World = (nat, nat) -> Attempt

  /** A file with the label it was named from and the payloads written to it. */
  datatype Recording = Recording(dir: string, url: string, stamp: Stamp, fmt: string, parts: seq<Payload>)

  datatype Ending = Full(plan: string) | Switched

  datatype Entry = Kept(file: Recording, end: Ending) | Lost(parts: seq<Payload>)

  datatype Current = NoFile | Open(file: Recording)

  datatype Report = Report(plan: string, url: string, dir: string, name: string, size: int)

  datatype State = State(
    id: nat, cap: nat, pending: seq<Payload>, log: seq<Entry>, current: Current, attempts: nat,
    fileName: string, url: string, dir: string, fmt: string, plan: string, limit: real,
    reports: seq<Report>)

  const DEFAULT_CAP: nat := 32000
  const MEGABYTE := 1048576.0

  function New(id: nat, configured: int): (s: State)
    ensures s.cap > 0
  {
    var cap := if configured <= 0 then DEFAULT_CAP else configured;
    State(id, cap, [], [], NoFile, 0, "", "", "", "", "", 0.0, [])
  }

  function BytesOf(ps: seq<Payload>): seq<byte> {
    if ps == [] then [] else BytesOf(ps[..|ps| - 1]) + ps[|ps| - 1].bytes
  }

  function Size(ps: seq<Payload>): nat { |BytesOf(ps)| }

  /** ftell's result squeezed into an int of 32 bits. */
  function Size32(n: nat): int { (n + 0x8000_0000) % 0x1_0000_0000 - 0x8000_0000 }

  predicate Reached(size: nat, limit: real) {
    limit > 0.0 && Size32(size) as real >= limit * MEGABYTE
  }

  function Name(f: Recording): string { FileName(f.dir, f.url, f.stamp, f.fmt) }

  function OpenIfClosed(w: World, s: State): State {
    if s.current.Open? then s
    else
      var a := w(s.id, s.attempts);
      var f := Recording(s.dir, s.url, a.now, s.fmt, []);
      s.(attempts := s.attempts + 1, fileName := Name(f), current := if a.opens then Open(f) else NoFile)
  }

  function Publish(s: State, size: int): State {
    if s.url != "" && s.fileName != ""
    then s.(reports := s.reports + [Report(s.plan, s.url, s.dir, s.fileName, size)])
    else s
  }

  function CloseAs(s: State, end: Ending): State {
    if s.current.Open? then s.(log := s.log + [Kept(s.current.file, end)], current := NoFile) else s
  }

  /** Closes the open file once it has reached the limit, and reports it. */
  function Rotate(s: State): State
    requires s.current.Open?
  {
    var size := Size(s.current.file.parts);
    if Reached(size, s.limit)
    then Publish(CloseAs(s, Full(s.plan)), Size32(size))
    else s
  }

  /** Writes one chunk: into the open file, opening one if need be, or nowhere. */
  function Flush(w: World, s: State, parts: seq<Payload>): State {
    var o := OpenIfClosed(w, s);
    if o.current.Open?
    then Rotate(o.(current := Open(o.current.file.(parts := o.current.file.parts + parts))))
    else o.(log := o.log + [Lost(parts)])
  }

  // ---------------------------------------------------------------- one call, act by act

  /** What writeStream and the destructor are made of. */
  datatype Act =
    | FlushBuffer
    | Close
    | SetUrl(url: string)
    | Adopt(dir: string, fmt: string, limit: real, plan: string)
    | Keep(p: Payload)
    | Through(p: Payload)

  function Do(w: World, s: State, a: Act): State {
    match a
    case FlushBuffer => Flush(w, s, s.pending).(pending := [])
    case Close => CloseAs(s, Switched)
    case SetUrl(url) => s.(url := url)
    case Adopt(dir, fmt, limit, plan) => s.(dir := dir, fmt := fmt, limit := limit, plan := plan)
    case Keep(p) => s.(pending := s.pending + [p])
    case Through(p) => Flush(w, s, [p])
  }

  function Exec(w: World, s: State, acts: seq<Act>): State {
    if acts == [] then s else Do(w, Exec(w, s, acts[..|acts| - 1]), acts[|acts| - 1])
  }

  /** Writes out what is buffered and closes the file. */
  function Clear(buffered: nat): seq<Act> { (if buffered > 0 then [FlushBuffer] else []) + [Close] }

  /** Drains what belongs to the previous camera. */
  function ToUrl(s: State, url: string): seq<Act> {
    (if s.url != "" && s.url != url then Clear(Size(s.pending)) else []) + [SetUrl(url)]
  }

  /** Drains what belongs to the previous directory. */
  function ToDir(previous: string, buffered: nat, dir: string, fmt: string, limit: real, plan: string): seq<Act> {
    (if previous != "" && previous != dir then Clear(buffered) else []) + [Adopt(dir, fmt, limit, plan)]
  }

  /** Takes over the camera, then the directory and the settings. */
  function Relabel(s: State, url: string, dir: string, fmt: string, limit: real, plan: string): seq<Act> {
    ToUrl(s, url)
    + ToDir(s.dir, if s.url != "" && s.url != url then 0 else Size(s.pending), dir, fmt, limit, plan)
  }

  /** Buffers the payload if it fits, else flushes the buffer and then buffers or writes it. */
  function Store(buffered: nat, cap: nat, p: Payload): seq<Act> {
    if p.bytes == [] then []
    else if buffered + |p.bytes| <= cap then [Keep(p)]
    else [FlushBuffer, if |p.bytes| > cap then Through(p) else Keep(p)]
  }

  /** Buffered bytes once camera and directory have been taken over. */
  function Buffered(s: State, url: string, dir: string): nat {
    if (s.url != "" && s.url != url) || (s.dir != "" && s.dir != dir) then 0 else Size(s.pending)
  }

  datatype Op = Write(p: Payload, fmt: string, limit: real, plan: string) | Drain

  function Acts(s: State, op: Op): seq<Act> {
    match op
    case Write(p, fmt, limit, plan) =>
      Relabel(s, p.url, p.dir, fmt, limit, plan) + Store(Buffered(s, p.url, p.dir), s.cap, p)
    case Drain => Clear(Size(s.pending))
  }

  function Step(w: World, s: State, op: Op): State { Exec(w, s, Acts(s, op)) }

  function Run(w: World, s: State, ops: seq<Op>): State {
    if ops == [] then s else Step(w, Run(w, s, ops[..|ops| - 1]), ops[|ops| - 1])
  }

  lemma {:induction false} ExecConcat(w: World, s: State, a: seq<Act>, b: seq<Act>)
    ensures Exec(w, s, a + b) == Exec(w, Exec(w, s, a), b)
  {
    if b == [] {
      assert a + b == a;
    } else {
      assert (a + b)[..|a + b| - 1] == a + b[..|b| - 1];
      ExecConcat(w, s, a, b[..|b| - 1]);
    }
  }

  // ---------------------------------------------------------------- conservation

  function PartsOf(e: Entry): seq<Payload> { if e.Kept? then e.file.parts else e.parts }

  function AllParts(log: seq<Entry>): seq<Payload> {
    if log == [] then [] else AllParts(log[..|log| - 1]) + PartsOf(log[|log| - 1])
  }

  /** The payloads that have left the buffer, by finished chunk and then in the open file. */
  function Written(s: State): seq<Payload> {
    AllParts(s.log) + if s.current.Open? then s.current.file.parts else []
  }

  /** Every payload taken so far. */
  function Tape(s: State): seq<Payload> { Written(s) + s.pending }

  /** The payloads a run hands over with at least one byte. */
  function Accepted(ops: seq<Op>): seq<Payload> {
    if ops == [] then [] else Accepted(ops[..|ops| - 1]) + Taken(ops[|ops| - 1])
  }

  function Taken(op: Op): seq<Payload> { if op.Write? && op.p.bytes != [] then [op.p] else [] }

  function TakenBy(a: Act): seq<Payload> { if a.Keep? || a.Through? then [a.p] else [] }

  lemma AllPartsSnoc(log: seq<Entry>, e: Entry)
    ensures AllParts(log + [e]) == AllParts(log) + PartsOf(e)
  {
    assert (log + [e])[..|log|] == log;
  }

  lemma FlushKeepsAll(w: World, s: State, parts: seq<Payload>)
    ensures Written(Flush(w, s, parts)) == Written(s) + parts
    ensures Flush(w, s, parts).pending == s.pending
  {
    hide BytesOf, Name, Reached, AllParts;
    var o := OpenIfClosed(w, s);
    if o.current.Open? {
      AllPartsSnoc(o.log, Kept(o.current.file.(parts := o.current.file.parts + parts), Full(o.plan)));
    } else {
      AllPartsSnoc(o.log, Lost(parts));
    }
  }

  /** Writing a payload past the buffer keeps the order only if the buffer is empty. */
  lemma DoKeepsAll(w: World, s: State, a: Act)
    requires a.Through? ==> s.pending == []
    ensures Tape(Do(w, s, a)) == Tape(s) + TakenBy(a)
  {
    hide Flush;
    if a.FlushBuffer? || a.Through? {
      FlushKeepsAll(w, s, if a.Through? then [a.p] else s.pending);
    } else if a.Close? && s.current.Open? {
      AllPartsSnoc(s.log, Kept(s.current.file, Switched));
    }
  }

  lemma {:induction false} RelabelKeepsAll(w: World, s: State, acts: seq<Act>)
    requires forall a <- acts :: !a.Keep? && !a.Through?
    ensures Tape(Exec(w, s, acts)) == Tape(s)
  {
    hide Do;
    if acts == [] {
    } else {
      RelabelKeepsAll(w, s, acts[..|acts| - 1]);
      assert acts[|acts| - 1] in acts;
      DoKeepsAll(w, Exec(w, s, acts[..|acts| - 1]), acts[|acts| - 1]);
    }
  }

  lemma StoreKeepsAll(w: World, s: State, buffered: nat, p: Payload)
    ensures Tape(Exec(w, s, Store(buffered, s.cap, p))) == Tape(s) + if p.bytes != [] then [p] else []
  {
    hide Do;
    var acts := Store(buffered, s.cap, p);
    if |acts| == 1 {
      ExecOne(w, s, acts[0]);
      DoKeepsAll(w, s, Keep(p));
    } else if |acts| == 2 {
      ExecTwo(w, s, acts[0], acts[1]);
      DoKeepsAll(w, s, FlushBuffer);
      EmptyAfterFlush(w, s);
      DoKeepsAll(w, Do(w, s, FlushBuffer), acts[1]);
    }
  }

  lemma EmptyAfterFlush(w: World, s: State)
    ensures Do(w, s, FlushBuffer).pending == []
  {
  }

  lemma ExecOne(w: World, s: State, a: Act)
    ensures Exec(w, s, [a]) == Do(w, s, a)
  {
    assert [a][..0] == [];
  }

  lemma ExecTwo(w: World, s: State, a: Act, b: Act)
    ensures Exec(w, s, [a, b]) == Do(w, Do(w, s, a), b)
  {
    assert [a, b] == [a] + [b];
    ExecConcat(w, s, [a], [b]);
    ExecOne(w, s, a);
    ExecOne(w, Do(w, s, a), b);
  }

  lemma StepKeepsAll(w: World, s: State, op: Op)
    ensures Tape(Step(w, s, op)) == Tape(s) + Taken(op)
  {
    hide Do;
    match op
    case Write(p, fmt, limit, plan) =>
      hide Exec;
      var first := Relabel(s, p.url, p.dir, fmt, limit, plan);
      RelabelKeepsAll(w, s, first);
      StoreKeepsAll(w, Exec(w, s, first), Buffered(s, p.url, p.dir), p);
      SameCap(w, s, first);
      ExecConcat(w, s, first, Store(Buffered(s, p.url, p.dir), s.cap, p));
    case Drain =>
      RelabelKeepsAll(w, s, Clear(Size(s.pending)));
  }

  lemma {:induction false} SameCap(w: World, s: State, acts: seq<Act>)
    ensures Exec(w, s, acts).cap == s.cap && Exec(w, s, acts).id == s.id
  {
    hide Do;
    if acts == [] {
    } else {
      SameCap(w, s, acts[..|acts| - 1]);
      DoSameCap(w, Exec(w, s, acts[..|acts| - 1]), acts[|acts| - 1]);
    }
  }

  lemma DoSameCap(w: World, s: State, a: Act)
    ensures Do(w, s, a).cap == s.cap && Do(w, s, a).id == s.id
  {
    hide Flush;
    FlushSetting(w, s, if a.Through? then [a.p] else s.pending);
  }

  /** Conservation: after any run the finished chunks, the open file and the buffer hold exactly the
      payloads accepted, each whole, once and in order. */
  lemma {:induction false} Conservation(w: World, s: State, ops: seq<Op>)
    ensures Tape(Run(w, s, ops)) == Tape(s) + Accepted(ops)
  {
    hide Step;
    if ops == [] {
    } else {
      Conservation(w, s, ops[..|ops| - 1]);
      StepKeepsAll(w, Run(w, s, ops[..|ops| - 1]), ops[|ops| - 1]);
    }
  }

  // ---------------------------------------------------------------- labels, sizes and reports

  predicate From(ps: seq<Payload>, url: string, dir: string) {
    forall p <- ps :: p.url == url && p.dir == dir && p.bytes != []
  }

  /** A file holds only payloads of the camera and directory in its name. */
  predicate Honest(f: Recording) { From(f.parts, f.url, f.dir) }

  /** All files are honest, and what is written next will keep them so. */
  predicate Labeled(s: State) {
    && (forall e <- s.log :: e.Kept? ==> Honest(e.file))
    && From(s.pending, s.url, s.dir)
    && (s.current.Open? ==>
        var f := s.current.file;
        f.url == s.url && f.dir == s.dir && Name(f) == s.fileName && Honest(f))
    && (!Idle(s) ==> s.url != "" && s.dir != "")
  }

  /** Nothing is buffered and no file is open. */
  predicate Idle(s: State) { s.pending == [] && s.current.NoFile? }

  /** One report for each file that was closed by its size, none for the others, in order. */
  function Reports(log: seq<Entry>): seq<Report> {
    if log == [] then [] else Reports(log[..|log| - 1]) + ReportOf(log[|log| - 1])
  }

  function ReportOf(e: Entry): seq<Report> {
    if e.Kept? && e.end.Full?
    then [Report(e.end.plan, e.file.url, e.file.dir, Name(e.file), Size32(Size(e.file.parts)))]
    else []
  }

  /** Either nothing is known of the size limits of a run, or one limit is used throughout and no
      payload is longer than `longest`. */
  datatype Regime = AnyLimit | Fixed(limit: real, longest: nat)

  predicate Below(size: nat, limit: real) { size as real < limit * 1024.0 * 1024.0 }

  /** The largest chunk that is ever written at once. */
  function Chunk(g: Regime, cap: nat): nat
    requires g.Fixed?
  {
    if g.longest > cap then g.longest else cap
  }

  /** File sizes stay where ftell's value still fits an int. */
  predicate Measurable(g: Regime, cap: nat) {
    g.Fixed? ==> g.limit > 0.0 && g.limit * 1024.0 * 1024.0 + Chunk(g, cap) as real <= 2147483648.0
  }

  predicate Rotated(e: Entry, g: Regime, cap: nat) {
    g.Fixed? && e.Kept? ==>
      var size := Size(e.file.parts);
      if e.end.Full? then !Below(size, g.limit) && size as real < g.limit * 1024.0 * 1024.0 + Chunk(g, cap) as real
      else Below(size, g.limit)
  }

  predicate Bounded(s: State, g: Regime) {
    && Size(s.pending) <= s.cap
    && (forall e <- s.log :: Rotated(e, g, s.cap))
    && (g.Fixed? && s.current.Open? ==> Below(Size(s.current.file.parts), g.limit))
    && (g.Fixed? && !Idle(s) ==> s.limit == g.limit)
  }

  predicate Sound(s: State, g: Regime) {
    Labeled(s) && Bounded(s, g) && Measurable(g, s.cap) && s.reports == Reports(s.log)
  }

  lemma {:induction false} BytesOfConcat(a: seq<Payload>, b: seq<Payload>)
    ensures BytesOf(a + b) == BytesOf(a) + BytesOf(b)
  {
    if b == [] {
      assert a + b == a;
    } else {
      assert (a + b)[..|a + b| - 1] == a + b[..|b| - 1];
      BytesOfConcat(a, b[..|b| - 1]);
    }
  }

  lemma BytesOfOne(p: Payload)
    ensures BytesOf([p]) == p.bytes
  {
    assert BytesOf([p]) == BytesOf([p][..0]) + p.bytes;
  }

  lemma BytesOfNone()
    ensures BytesOf([]) == []
  {
  }

  lemma SizeOfOne(p: Payload)
    ensures Size([p]) == |p.bytes|
  {
    BytesOfOne(p);
  }

  lemma SizeOfNonempty(ps: seq<Payload>)
    requires forall p <- ps :: p.bytes != []
    ensures Size(ps) == 0 <==> ps == []
  {
  }

  lemma ReportsSnoc(log: seq<Entry>, e: Entry)
    ensures Reports(log + [e]) == Reports(log) + ReportOf(e)
  {
    assert (log + [e])[..|log|] == log;
  }

  /** A chunk that may be written under the regime in force. */
  predicate Writable(s: State, g: Regime, parts: seq<Payload>) {
    && s.url != "" && s.dir != "" && From(parts, s.url, s.dir)
    && (g.Fixed? ==> s.limit == g.limit && Size(parts) <= Chunk(g, s.cap))
  }

  lemma OpenSound(w: World, s: State, g: Regime)
    requires Sound(s, g) && s.url != "" && s.dir != "" && (g.Fixed? ==> s.limit == g.limit)
    ensures Sound(OpenIfClosed(w, s), g)
  {
  }

  lemma RotateSound(s: State, g: Regime, parts: seq<Payload>)
    requires Sound(s, g) && s.current.Open? && Writable(s, g, parts)
    ensures Sound(Rotate(s.(current := Open(s.current.file.(parts := s.current.file.parts + parts)))), g)
  {
    hide FileName, BytesOf, Reports;
    var f := s.current.file.(parts := s.current.file.parts + parts);
    BytesOfConcat(s.current.file.parts, parts);
    ReportsSnoc(s.log, Kept(f, Full(s.plan)));
    assert Honest(f);
    assert g.Fixed? ==> Size32(Size(f.parts)) == Size(f.parts);
  }

  lemma FlushSound(w: World, s: State, g: Regime, parts: seq<Payload>)
    requires Sound(s, g) && Writable(s, g, parts)
    ensures Sound(Flush(w, s, parts), g)
  {
    hide Rotate, Reports, BytesOf, Name;
    OpenSound(w, s, g);
    var o := OpenIfClosed(w, s);
    if o.current.Open? {
      RotateSound(o, g, parts);
    } else {
      ReportsSnoc(o.log, Lost(parts));
    }
  }

  predicate SameSetting(s: State, t: State) {
    t.url == s.url && t.dir == s.dir && t.limit == s.limit && t.cap == s.cap && t.id == s.id
  }

  lemma FlushBufferSound(w: World, s: State, g: Regime)
    requires Sound(s, g) && Writable(s, g, s.pending)
    ensures var t := Do(w, s, FlushBuffer); Sound(t, g) && SameSetting(s, t) && t.pending == []
  {
    hide Flush, Sound;
    FlushSound(w, s, g, s.pending);
    FlushSetting(w, s, s.pending);
    EmptyBufferSound(Flush(w, s, s.pending), g);
  }

  lemma EmptyBufferSound(s: State, g: Regime)
    requires Sound(s, g)
    ensures Sound(s.(pending := []), g)
  {
    SizeOfNone();
  }

  lemma FlushSetting(w: World, s: State, parts: seq<Payload>)
    ensures SameSetting(s, Flush(w, s, parts)) && Flush(w, s, parts).pending == s.pending
  {
    hide Name, BytesOf, Reached, Size32;
  }

  lemma CloseSound(w: World, s: State, g: Regime)
    requires Sound(s, g)
    ensures var t := Do(w, s, Close);
            Sound(t, g) && SameSetting(s, t) && t.pending == s.pending && t.current.NoFile?
  {
    if s.current.Open? {
      ReportsSnoc(s.log, Kept(s.current.file, Switched));
    }
  }

  lemma BufferWritable(s: State, g: Regime)
    requires Sound(s, g)
    ensures Size(s.pending) == 0 <==> s.pending == []
    ensures s.pending != [] ==> Writable(s, g, s.pending)
  {
    SizeOfNonempty(s.pending);
  }

  /** Draining leaves nothing of the previous camera behind. */
  lemma ClearSound(w: World, s: State, g: Regime)
    requires Sound(s, g)
    ensures var t := Exec(w, s, Clear(Size(s.pending)));
            Sound(t, g) && SameSetting(s, t) && Idle(t)
  {
    hide Do, Sound, Size;
    BufferWritable(s, g);
    if Size(s.pending) > 0 {
      FlushBufferSound(w, s, g);
      ExecTwo(w, s, FlushBuffer, Close);
      CloseSound(w, Do(w, s, FlushBuffer), g);
      assert Clear(Size(s.pending)) == [FlushBuffer, Close];
    } else {
      ExecOne(w, s, Close);
      CloseSound(w, s, g);
      assert Clear(Size(s.pending)) == [Close];
    }
  }

  lemma SetUrlSound(s: State, g: Regime, url: string)
    requires Sound(s, g) && url != "" && (url == s.url || Idle(s))
    ensures Sound(s.(url := url), g)
  {
  }

  lemma AdoptSound(s: State, g: Regime, dir: string, fmt: string, limit: real, plan: string)
    requires Sound(s, g) && dir != "" && (dir == s.dir || Idle(s)) && (g.Fixed? ==> limit == g.limit)
    ensures Sound(s.(dir := dir, fmt := fmt, limit := limit, plan := plan), g)
  {
  }

  /** After the labels have been taken over, the buffer belongs to the new camera and directory. */
  lemma RelabelSound(w: World, s: State, g: Regime, url: string, dir: string, fmt: string, limit: real, plan: string)
    requires Sound(s, g) && url != "" && dir != "" && (g.Fixed? ==> limit == g.limit)
    ensures var t := Exec(w, s, Relabel(s, url, dir, fmt, limit, plan));
            && Sound(t, g) && t.url == url && t.dir == dir && t.limit == limit && t.cap == s.cap
            && Size(t.pending) == Buffered(s, url, dir)
  {
    hide Do, Sound, Exec, Clear, Size;
    SizeOfNone();
    LabelsSet(s, g);
    var moved := s.url != "" && s.url != url;
    var turned := s.dir != "" && s.dir != dir;
    var one := if moved then Clear(Size(s.pending)) else [];
    var two := if turned then Clear(if moved then 0 else Size(s.pending)) else [];
    ExecConcat(w, s, one + [SetUrl(url)], two + [Adopt(dir, fmt, limit, plan)]);
    ExecConcat(w, s, one, [SetUrl(url)]);
    ClearSound(w, s, g);
    ExecNone(w, s);
    var a := Exec(w, s, one);
    ExecOne(w, a, SetUrl(url));
    DoLabel(w, a, url, dir, fmt, limit, plan);
    SetUrlSound(a, g, url);
    var b := a.(url := url);
    ExecConcat(w, b, two, [Adopt(dir, fmt, limit, plan)]);
    ClearSound(w, b, g);
    ExecNone(w, b);
    var c := Exec(w, b, two);
    ExecOne(w, c, Adopt(dir, fmt, limit, plan));
    DoLabel(w, c, url, dir, fmt, limit, plan);
    AdoptSound(c, g, dir, fmt, limit, plan);
  }

  lemma SizeOfNone()
    ensures Size([]) == 0
  {
  }

  lemma LabelsSet(s: State, g: Regime)
    requires Sound(s, g)
    ensures !Idle(s) ==> s.url != "" && s.dir != ""
  {
  }

  lemma ExecNone(w: World, s: State)
    ensures Exec(w, s, []) == s
  {
  }

  lemma DoLabel(w: World, s: State, url: string, dir: string, fmt: string, limit: real, plan: string)
    ensures Do(w, s, SetUrl(url)) == s.(url := url)
    ensures Do(w, s, Adopt(dir, fmt, limit, plan)) == s.(dir := dir, fmt := fmt, limit := limit, plan := plan)
  {
  }

  lemma KeepSound(w: World, s: State, g: Regime, p: Payload)
    requires Sound(s, g) && p.url == s.url != "" && p.dir == s.dir != "" && p.bytes != []
    requires g.Fixed? ==> s.limit == g.limit
    requires Size(s.pending) + |p.bytes| <= s.cap
    ensures Sound(Do(w, s, Keep(p)), g)
  {
    SizeOfOne(p);
    BytesOfConcat(s.pending, [p]);
    hide Reports, BytesOf, Name, Honest;
  }

  lemma ThroughSound(w: World, s: State, g: Regime, p: Payload)
    requires Sound(s, g) && p.url == s.url != "" && p.dir == s.dir != "" && p.bytes != []
    requires g.Fixed? ==> s.limit == g.limit && |p.bytes| <= g.longest
    ensures Sound(Do(w, s, Through(p)), g)
  {
    hide Flush, Sound;
    SizeOfOne(p);
    FlushSound(w, s, g, [p]);
  }

  lemma StoreSound(w: World, s: State, g: Regime, p: Payload)
    requires Sound(s, g) && p.url == s.url != "" && p.dir == s.dir != ""
    requires g.Fixed? ==> s.limit == g.limit && |p.bytes| <= g.longest
    ensures Sound(Exec(w, s, Store(Size(s.pending), s.cap, p)), g)
  {
    hide Do, Exec, Sound, Size;
    ExecNone(w, s);
    SizeOfNone();
    var acts := Store(Size(s.pending), s.cap, p);
    if |acts| == 1 {
      ExecOne(w, s, Keep(p));
      KeepSound(w, s, g, p);
    } else if |acts| == 2 {
      EmptyWritable(s, g);
      FlushBufferSound(w, s, g);
      ExecTwo(w, s, FlushBuffer, acts[1]);
      var e := Do(w, s, FlushBuffer);
      if |p.bytes| > s.cap {
        ThroughSound(w, e, g, p);
      } else {
        KeepSound(w, e, g, p);
      }
    }
  }

  /** The buffer may always be written under its own labels, even when it is empty. */
  lemma EmptyWritable(s: State, g: Regime)
    requires Sound(s, g) && s.url != "" && s.dir != "" && (g.Fixed? ==> s.limit == g.limit)
    ensures Writable(s, g, s.pending)
  {
  }

  predicate Fits(op: Op, g: Regime) {
    op.Write? ==> op.p.url != "" && op.p.dir != ""
                  && (g.Fixed? ==> op.limit == g.limit && |op.p.bytes| <= g.longest)
  }

  lemma StepSound(w: World, s: State, g: Regime, op: Op)
    requires Sound(s, g) && Fits(op, g)
    ensures Sound(Step(w, s, op), g)
  {
    hide Exec, Sound, Size;
    match op
    case Write(p, fmt, limit, plan) =>
      var first := Relabel(s, p.url, p.dir, fmt, limit, plan);
      RelabelSound(w, s, g, p.url, p.dir, fmt, limit, plan);
      StoreSound(w, Exec(w, s, first), g, p);
      ExecConcat(w, s, first, Store(Buffered(s, p.url, p.dir), s.cap, p));
    case Drain =>
      ClearSound(w, s, g);
  }

  /** Over every run: no file holds a payload of another camera or directory, sizes keep to the
      limit, and the reports are exactly the files closed by their size. */
  lemma {:induction false} RunSound(w: World, s: State, g: Regime, ops: seq<Op>)
    requires Sound(s, g) && forall op <- ops :: Fits(op, g)
    ensures Sound(Run(w, s, ops), g)
  {
    hide Step, Sound;
    if ops == [] {
    } else {
      RunSound(w, s, g, ops[..|ops| - 1]);
      assert ops[|ops| - 1] in ops;
      StepSound(w, Run(w, s, ops[..|ops| - 1]), g, ops[|ops| - 1]);
    }
  }

  /** A fresh StreamFile is sound, so every run of one is. */
  lemma SoundFromStart(w: World, id: nat, configured: int, g: Regime, ops: seq<Op>)
    requires Measurable(g, New(id, configured).cap) && forall op <- ops :: Fits(op, g)
    ensures Sound(Run(w, New(id, configured), ops), g)
  {
    hide Step;
    RunSound(w, New(id, configured), g, ops);
  }

  /** The reports with the true sizes of the files closed by size, in order. */
  function TrueReports(log: seq<Entry>): seq<Report> {
    if log == [] then []
    else
      var e := log[|log| - 1];
      TrueReports(log[..|log| - 1])
      + if e.Kept? && e.end.Full?
        then [Report(e.end.plan, e.file.url, e.file.dir, Name(e.file), |BytesOf(e.file.parts)|)]
        else []
  }

  lemma {:induction false} ReportsAreTrue(log: seq<Entry>)
    requires forall e <- log :: e.Kept? && e.end.Full? ==> Size(e.file.parts) < 0x8000_0000
    ensures Reports(log) == TrueReports(log)
  {
    hide BytesOf, Name;
    if log == [] {
    } else {
      var front, last := log[..|log| - 1], log[|log| - 1];
      assert log == front + [last];
      ReportsAreTrue(front);
      assert last in log;
    }
  }

  /** In bytes: over every run of a new StreamFile under one limit, an open file is below limit * 1024 * 1024
      bytes, a file closed by size is at least that and less than one chunk above it, and one closed otherwise
      is below; and the reports are the files closed by size, with their true sizes. A chunk is the longest
      payload, or the buffer: as configured, or 32000 bytes. */
  lemma RotationInBytes(w: World, id: nat, configured: int, limit: real, longest: nat, ops: seq<Op>)
    requires var cap := if configured <= 0 then 32000 else configured;
             limit > 0.0 && limit * 1048576.0 + (if longest > cap then longest else cap) as real <= 2147483648.0
    requires forall op <- ops :: op.Write? ==>
               op.p.url != "" && op.p.dir != "" && op.limit == limit && |op.p.bytes| <= longest
    ensures var s := Run(w, New(id, configured), ops);
            var cap := if configured <= 0 then 32000 else configured;
            var chunk := if longest > cap then longest else cap;
            && |BytesOf(s.pending)| <= s.cap == cap
            && (s.current.Open? ==> |BytesOf(s.current.file.parts)| as real < limit * 1048576.0)
            && (forall e <- s.log :: e.Kept? && e.end.Full? ==>
                  limit * 1048576.0 <= |BytesOf(e.file.parts)| as real < limit * 1048576.0 + chunk as real)
            && (forall e <- s.log :: e.Kept? && e.end.Switched? ==>
                  |BytesOf(e.file.parts)| as real < limit * 1048576.0)
            && s.reports == TrueReports(s.log)
  {
    var g := Fixed(limit, longest);
    var s0 := New(id, configured);
    var s := Run(w, s0, ops);
    hide Run, Name, BytesOf, TrueReports, Reports;
    assert Measurable(g, s0.cap);
    assert forall op <- ops :: Fits(op, g);
    SoundFromStart(w, id, configured, g, ops);
    RunSameCap(w, s0, ops);
    BoundedInBytes(s, limit, longest, s0.cap);
    ReportsAreTrue(s.log);
  }

  lemma BoundedInBytes(s: State, limit: real, longest: nat, cap: nat)
    requires Sound(s, Fixed(limit, longest)) && s.cap == cap
    ensures var chunk := if longest > cap then longest else cap;
            && |BytesOf(s.pending)| <= cap
            && (s.current.Open? ==> |BytesOf(s.current.file.parts)| as real < limit * 1048576.0)
            && (forall e <- s.log :: e.Kept? && e.end.Full? ==>
                  limit * 1048576.0 <= |BytesOf(e.file.parts)| as real < limit * 1048576.0 + chunk as real)
            && (forall e <- s.log :: e.Kept? && e.end.Switched? ==>
                  |BytesOf(e.file.parts)| as real < limit * 1048576.0)
            && (forall e <- s.log :: e.Kept? && e.end.Full? ==> Size(e.file.parts) < 0x8000_0000)
            && s.reports == Reports(s.log)
  {
    hide BytesOf, Labeled, Reports;
    forall e <- s.log ensures Rotated(e, Fixed(limit, longest), cap) {
    }
  }

  lemma {:induction false} RunSameCap(w: World, s: State, ops: seq<Op>)
    ensures Run(w, s, ops).cap == s.cap
  {
    hide Step;
    if ops == [] {
    } else {
      RunSameCap(w, s, ops[..|ops| - 1]);
      var t := Run(w, s, ops[..|ops| - 1]);
      SameCap(w, t, Acts(t, ops[|ops| - 1]));
      StepIs(w, t, ops[|ops| - 1]);
    }
  }

  lemma StepIs(w: World, s: State, op: Op)
    ensures Step(w, s, op) == Exec(w, s, Acts(s, op))
  {
  }

  /** Rotation works at all exactly for limits that an int of bytes can show: beyond them ftell's
      value wraps before the limit is met and the file grows for ever. */
  lemma RotationReachable(limit: real)
    ensures (exists size: nat :: Reached(size, limit))
            <==> 0.0 < limit && limit * 1024.0 * 1024.0 <= 2147483647.0
  {
    if 0.0 < limit && limit * 1024.0 * 1024.0 <= 2147483647.0 {
      assert Size32(0x7fff_ffff) == 0x7fff_ffff;
      assert Reached(0x7fff_ffff, limit);
    }
  }

  // ---------------------------------------------------------------- when something is written

  /** A chunk goes to the open file, or to one that is opened now and named from the camera, the directory, the
      clock and the format in force. The file is closed only by its size, with the plan in force, and the report
      names it; nothing else is logged but a chunk that no file could be opened for. */
  lemma FlushTells(w: World, s: State, parts: seq<Payload>)
    ensures var t := Flush(w, s, parts);
            var anew := s.current.NoFile?;
            var attempt := w(s.id, s.attempts);
            var file := if anew then Recording(s.dir, s.url, attempt.now, s.fmt, parts)
                        else s.current.file.(parts := s.current.file.parts + parts);
            && t.attempts == s.attempts + (if anew then 1 else 0)
            && (anew ==> t.fileName == FileName(s.dir, s.url, attempt.now, s.fmt))
            && (if anew && !attempt.opens
                then t.current.NoFile? && t.log == s.log + [Lost(parts)] && t.reports == s.reports
                else if t.current.Open?
                then t.current.file == file && t.log == s.log && t.reports == s.reports
                else t.log == s.log + [Kept(file, Full(s.plan))]
                     && (s.url != "" && t.fileName != "" ==>
                         |t.reports| == |s.reports| + 1 && t.reports[..|s.reports|] == s.reports
                         && var rep := t.reports[|s.reports|];
                            rep.plan == s.plan && rep.url == s.url && rep.dir == s.dir && rep.name == t.fileName))
  {
    hide FileName, BytesOf, Reached, Size32;
    assert [] + parts == parts;
  }

  /** The settings of a call are in force after it. */
  lemma {:induction false} ExecSettings(w: World, s: State, acts: seq<Act>)
    requires forall a <- acts :: !a.SetUrl? && !a.Adopt?
    ensures var t := Exec(w, s, acts);
            t.url == s.url && t.dir == s.dir && t.fmt == s.fmt && t.limit == s.limit && t.plan == s.plan
  {
    hide Flush;
    if acts == [] {
    } else {
      ExecSettings(w, s, acts[..|acts| - 1]);
      assert acts[|acts| - 1] in acts;
      var t := Exec(w, s, acts[..|acts| - 1]);
      FlushSettings(w, t, if acts[|acts| - 1].Through? then [acts[|acts| - 1].p] else t.pending);
    }
  }

  lemma FlushSettings(w: World, s: State, parts: seq<Payload>)
    ensures var t := Flush(w, s, parts);
            t.url == s.url && t.dir == s.dir && t.fmt == s.fmt && t.limit == s.limit && t.plan == s.plan
  {
    hide FileName, BytesOf, Reached, Size32;
  }

  lemma SettingsTaken(w: World, s: State, p: Payload, fmt: string, limit: real, plan: string)
    ensures var t := Step(w, s, Write(p, fmt, limit, plan));
            t.url == p.url && t.dir == p.dir && t.fmt == fmt && t.limit == limit && t.plan == plan
  {
    var b := if s.url != "" && s.url != p.url then 0 else Size(s.pending);
    var drainUrl := if s.url != "" && s.url != p.url then Clear(Size(s.pending)) else [];
    var drainDir := if s.dir != "" && s.dir != p.dir then Clear(b) else [];
    var one := drainUrl + [SetUrl(p.url)];
    var two := drainDir + [Adopt(p.dir, fmt, limit, plan)];
    var three := Store(Buffered(s, p.url, p.dir), s.cap, p);
    assert Acts(s, Write(p, fmt, limit, plan)) == one + two + three;
    hide Do, Exec, Flush, Acts, Clear, Store, Size;
    StepIs(w, s, Write(p, fmt, limit, plan));
    ExecConcat(w, s, one + two, three);
    ExecConcat(w, s, one, two);
    ExecConcat(w, s, drainUrl, [SetUrl(p.url)]);
    var m := Exec(w, s, one);
    ExecOne(w, Exec(w, s, drainUrl), SetUrl(p.url));
    DoLabel(w, Exec(w, s, drainUrl), p.url, p.dir, fmt, limit, plan);
    ExecConcat(w, m, drainDir, [Adopt(p.dir, fmt, limit, plan)]);
    ExecOne(w, Exec(w, m, drainDir), Adopt(p.dir, fmt, limit, plan));
    DoLabel(w, Exec(w, m, drainDir), p.url, p.dir, fmt, limit, plan);
    NoLabels(b, Buffered(s, p.url, p.dir), s.cap, p);
    ExecSettings(w, m, drainDir);
    ExecSettings(w, Exec(w, s, one + two), three);
  }

  lemma NoLabels(buffered: nat, left: nat, cap: nat, p: Payload)
    ensures forall a <- Clear(buffered) :: !a.SetUrl? && !a.Adopt?
    ensures forall a <- Store(left, cap, p) :: !a.SetUrl? && !a.Adopt?
  {
  }

  lemma SameLabelStep(w: World, s: State, p: Payload, fmt: string, limit: real, plan: string)
    requires p.url == s.url && p.dir == s.dir
    ensures Step(w, s, Write(p, fmt, limit, plan))
            == Exec(w, s.(fmt := fmt, limit := limit, plan := plan), Store(Size(s.pending), s.cap, p))
  {
    var labels := [SetUrl(p.url), Adopt(p.dir, fmt, limit, plan)];
    var store := Store(Size(s.pending), s.cap, p);
    assert [SetUrl(p.url)] + [Adopt(p.dir, fmt, limit, plan)] == labels;
    assert Acts(s, Write(p, fmt, limit, plan)) == labels + store;
    hide Exec, Store, Do;
    ExecConcat(w, s, labels, store);
    ExecTwo(w, s, labels[0], labels[1]);
    DoLabel(w, s, p.url, p.dir, fmt, limit, plan);
    DoLabel(w, s.(url := p.url), p.url, p.dir, fmt, limit, plan);
  }

  lemma StoreWrites(w: World, s: State, p: Payload)
    requires p.bytes != []
    ensures var t := Exec(w, s, Store(Size(s.pending), s.cap, p));
            if |BytesOf(s.pending)| + |p.bytes| <= s.cap then t == s.(pending := s.pending + [p])
            else
              && t.pending == (if |p.bytes| > s.cap then [] else [p])
              && |s.log| <= |t.log| && t.log[..|s.log|] == s.log
              && forall i :: |s.log| <= i < |t.log| ==> t.log[i].Kept? ==> t.log[i].end == Full(s.plan)
  {
    hide Exec, BytesOf, Flush;
    var store := Store(Size(s.pending), s.cap, p);
    if |store| == 1 {
      ExecOne(w, s, store[0]);
    } else {
      var f := Flush(w, s, s.pending).(pending := []);
      assert Do(w, s, FlushBuffer) == f;
      ExecTwo(w, s, store[0], store[1]);
      FlushLogs(w, s, s.pending);
      FlushSettings(w, s, s.pending);
      FlushLogs(w, f, [p]);
      FlushSetting(w, f, [p]);
    }
  }

  /** For the camera and directory it has, a StreamFile writes only when it must: a payload that fits stays in
      the buffer and nothing else changes; one that does not makes the buffer be written, and then stays in the
      buffer, or is written at once if it is longer than that. No file is closed but by its size. */
  lemma WritesOnlyWhenFull(w: World, s: State, p: Payload, fmt: string, limit: real, plan: string)
    requires p.url == s.url && p.dir == s.dir && p.bytes != []
    ensures var t := Step(w, s, Write(p, fmt, limit, plan));
            if |BytesOf(s.pending)| + |p.bytes| <= s.cap
            then t == s.(pending := s.pending + [p], fmt := fmt, limit := limit, plan := plan)
            else
              && t.pending == (if |p.bytes| > s.cap then [] else [p])
              && |s.log| <= |t.log| && t.log[..|s.log|] == s.log
              && forall i :: |s.log| <= i < |t.log| ==> t.log[i].Kept? ==> t.log[i].end == Full(plan)
  {
    hide *;
    SameLabelStep(w, s, p, fmt, limit, plan);
    StoreWrites(w, s.(fmt := fmt, limit := limit, plan := plan), p);
  }

  lemma FlushLogs(w: World, s: State, parts: seq<Payload>)
    ensures var t := Flush(w, s, parts);
            && |s.log| <= |t.log| && t.log[..|s.log|] == s.log
            && forall i :: |s.log| <= i < |t.log| ==> t.log[i].Kept? ==> t.log[i].end == Full(s.plan)
  {
    hide FileName, BytesOf, Reached, Size32;
  }

  // ---------------------------------------------------------------- what reaches the files

  function KeptParts(log: seq<Entry>): seq<Payload> {
    if log == [] then []
    else KeptParts(log[..|log| - 1]) + if log[|log| - 1].Kept? then log[|log| - 1].file.parts else []
  }

  /** No chunk with something in it met a failing fopen. */
  predicate NothingLost(log: seq<Entry>) { forall e <- log :: e.Lost? ==> e.parts == [] }

  lemma {:induction false} KeptOrLost(log: seq<Entry>)
    ensures |KeptParts(log)| <= |AllParts(log)|
    ensures |KeptParts(log)| == |AllParts(log)| <==> NothingLost(log)
    ensures NothingLost(log) ==> KeptParts(log) == AllParts(log)
  {
    if log == [] {
    } else {
      var front, last := log[..|log| - 1], log[|log| - 1];
      KeptOrLost(front);
      assert log == front + [last];
      assert NothingLost(log) <==> NothingLost(front) && (last.Lost? ==> last.parts == []);
    }
  }

  /** What the files hold, the closed ones and then the open one. */
  function InFiles(s: State): seq<Payload> {
    KeptParts(s.log) + if s.current.Open? then s.current.file.parts else []
  }

  /** The files hold everything taken exactly if nothing was dropped and nothing is buffered. */
  lemma InFilesIsTape(s: State)
    ensures InFiles(s) + s.pending == Tape(s) <==> NothingLost(s.log)
    ensures InFiles(s) == Tape(s) <==> NothingLost(s.log) && s.pending == []
  {
    KeptOrLost(s.log);
    var open := if s.current.Open? then s.current.file.parts else [];
    assert |Tape(s)| == |AllParts(s.log)| + |open| + |s.pending|;
    assert |InFiles(s)| == |KeptParts(s.log)| + |open|;
  }

  function LostParts(log: seq<Entry>): seq<Payload> {
    if log == [] then []
    else LostParts(log[..|log| - 1]) + if log[|log| - 1].Lost? then log[|log| - 1].parts else []
  }

  lemma SizeConcat(a: seq<Payload>, b: seq<Payload>)
    ensures Size(a + b) == Size(a) + Size(b)
  {
    BytesOfConcat(a, b);
  }

  lemma {:induction false} SizesAdd(log: seq<Entry>)
    ensures Size(AllParts(log)) == Size(KeptParts(log)) + Size(LostParts(log))
  {
    hide Size;
    if log == [] {
      SizeOfNone();
    } else {
      var front, last := log[..|log| - 1], log[|log| - 1];
      SizesAdd(front);
      SizeOfNone();
      SizeConcat(AllParts(front), PartsOf(last));
      SizeConcat(KeptParts(front), if last.Kept? then last.file.parts else []);
      SizeConcat(LostParts(front), if last.Lost? then last.parts else []);
    }
  }

  lemma {:induction false} LostAreTaken(log: seq<Entry>)
    ensures forall p <- LostParts(log) :: p in AllParts(log)
    ensures LostParts(log) == [] <==> NothingLost(log)
  {
    hide NothingLost;
    if log == [] {
      NothingLostOfNone();
    } else {
      var front, last := log[..|log| - 1], log[|log| - 1];
      LostAreTaken(front);
      NothingLostSnoc(front, last);
      assert log == front + [last];
    }
  }

  lemma NothingLostOfNone()
    ensures NothingLost([])
  {
  }

  /** Among payloads that have bytes, the files hold the bytes of everything exactly if they hold
      everything. */
  lemma BytesTell(s: State)
    requires forall p <- Tape(s) :: p.bytes != []
    ensures BytesOf(InFiles(s)) == BytesOf(Tape(s)) <==> InFiles(s) == Tape(s)
  {
    InFilesIsTape(s);
    SizesAdd(s.log);
    LostAreTaken(s.log);
    var open := if s.current.Open? then s.current.file.parts else [];
    SizeConcat(AllParts(s.log) + open, s.pending);
    SizeConcat(AllParts(s.log), open);
    SizeConcat(KeptParts(s.log), open);
    forall p | p in LostParts(s.log) || p in s.pending ensures p.bytes != [] {
      assert p in AllParts(s.log) || p in s.pending;
      assert p in Tape(s);
    }
    SizeOfNonempty(LostParts(s.log));
    SizeOfNonempty(s.pending);
  }

  /** The act writes something while no file is open; if so, fopen has to succeed. */
  predicate Opens(w: World, s: State, a: Act) {
    s.current.NoFile? && (a.Through? || (a.FlushBuffer? && s.pending != [])) ==> w(s.id, s.attempts).opens
  }

  predicate AllOpen(w: World, s: State, acts: seq<Act>) {
    acts == [] || (AllOpen(w, s, acts[..|acts| - 1]) && Opens(w, Exec(w, s, acts[..|acts| - 1]), acts[|acts| - 1]))
  }

  /** Every fopen that a call needs for something to write succeeds. */
  predicate StepOpens(w: World, s: State, op: Op) { AllOpen(w, s, Acts(s, op)) }

  predicate RunOpens(w: World, s: State, ops: seq<Op>) {
    ops == [] || (RunOpens(w, s, ops[..|ops| - 1]) && StepOpens(w, Run(w, s, ops[..|ops| - 1]), ops[|ops| - 1]))
  }

  lemma NothingLostSnoc(log: seq<Entry>, e: Entry)
    ensures NothingLost(log + [e]) <==> NothingLost(log) && (e.Lost? ==> e.parts == [])
  {
    assert e in log + [e] && forall d <- log :: d in log + [e];
  }

  lemma FlushLoses(w: World, s: State, parts: seq<Payload>)
    ensures NothingLost(Flush(w, s, parts).log)
            <==> NothingLost(s.log) && (s.current.NoFile? && parts != [] ==> w(s.id, s.attempts).opens)
  {
    hide NothingLost, Name, BytesOf, Reached;
    var o := OpenIfClosed(w, s);
    if o.current.Open? {
      NothingLostSnoc(o.log, Kept(o.current.file.(parts := o.current.file.parts + parts), Full(o.plan)));
    } else {
      NothingLostSnoc(o.log, Lost(parts));
    }
  }

  lemma DoLoses(w: World, s: State, a: Act)
    ensures NothingLost(Do(w, s, a).log) <==> NothingLost(s.log) && Opens(w, s, a)
  {
    hide NothingLost, Flush;
    if a.FlushBuffer? || a.Through? {
      FlushLoses(w, s, if a.Through? then [a.p] else s.pending);
    } else if a.Close? && s.current.Open? {
      NothingLostSnoc(s.log, Kept(s.current.file, Switched));
    }
  }

  lemma {:induction false} ExecLoses(w: World, s: State, acts: seq<Act>)
    ensures NothingLost(Exec(w, s, acts).log) <==> NothingLost(s.log) && AllOpen(w, s, acts)
  {
    hide NothingLost, Do, Opens;
    if acts == [] {
    } else {
      ExecLoses(w, s, acts[..|acts| - 1]);
      DoLoses(w, Exec(w, s, acts[..|acts| - 1]), acts[|acts| - 1]);
    }
  }

  /** A call drops nothing exactly if every fopen it needs succeeds. */
  lemma StepLoses(w: World, s: State, op: Op)
    ensures NothingLost(Step(w, s, op).log) <==> NothingLost(s.log) && StepOpens(w, s, op)
  {
    hide NothingLost, Exec, AllOpen, Acts;
    ExecLoses(w, s, Acts(s, op));
  }

  /** Over every run: nothing is dropped exactly if every fopen with something to write succeeds. */
  lemma {:induction false} RunLoses(w: World, s: State, ops: seq<Op>)
    ensures NothingLost(Run(w, s, ops).log) <==> NothingLost(s.log) && RunOpens(w, s, ops)
  {
    hide NothingLost, Step, StepOpens;
    if ops == [] {
    } else {
      RunLoses(w, s, ops[..|ops| - 1]);
      StepLoses(w, Run(w, s, ops[..|ops| - 1]), ops[|ops| - 1]);
    }
  }

  lemma RunSnoc(w: World, s: State, ops: seq<Op>, op: Op)
    ensures Run(w, s, ops + [op]) == Step(w, Run(w, s, ops), op)
    ensures Accepted(ops + [op]) == Accepted(ops) + Taken(op)
  {
    hide Step;
    assert (ops + [op])[..|ops|] == ops;
  }

  lemma DrainStep(w: World, s: State)
    ensures Step(w, s, Drain) == Exec(w, s, Clear(Size(s.pending)))
    ensures Taken(Drain) == []
  {
  }

  lemma IdleHoldsNone(s: State)
    requires Idle(s)
    ensures s.pending == [] && s.current.NoFile?
  {
  }

  lemma NewIsEmpty(id: nat, configured: int)
    ensures Tape(New(id, configured)) == [] && NothingLost(New(id, configured).log)
  {
  }

  /** After the destructor the closed files hold exactly the accepted payloads, in order, if and only
      if every fopen of the run and of the destructor that had something to write succeeded. */
  lemma DrainedRun(w: World, id: nat, configured: int, ops: seq<Op>)
    requires forall op <- ops :: Fits(op, AnyLimit)
    ensures var s := Run(w, New(id, configured), ops + [Drain]);
            Idle(s) && (InFiles(s) == Accepted(ops) <==> RunOpens(w, New(id, configured), ops + [Drain]))
  {
    AnyLimitMeasurable(New(id, configured).cap);
    hide *;
    var s0 := New(id, configured);
    var r := Run(w, s0, ops);
    RunSnoc(w, s0, ops, Drain);
    DrainStep(w, r);
    SoundFromStart(w, id, configured, AnyLimit, ops);
    ClearSound(w, r, AnyLimit);
    NewIsEmpty(id, configured);
    Conservation(w, s0, ops + [Drain]);
    var s := Run(w, s0, ops + [Drain]);
    IdleHoldsNone(s);
    InFilesIsTape(s);
    RunLoses(w, s0, ops + [Drain]);
  }

  lemma AnyLimitMeasurable(cap: nat)
    ensures Measurable(AnyLimit, cap)
  {
  }
}
