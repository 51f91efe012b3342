/** The one directory tree that all StreamFiles of the manager write to, and what can be read back. */
module Archive {
  import opened Bytes
  import opened FileNames
  import Keys
  import opened Disk
  import opened Channels
  import opened ChannelRuns
  import R = Recorder

  /** Everything that any StreamFile has recorded, those without a channel included. */
  function AllRecordings(files: seq<R.State>): seq<R.Recording> {
    if files == [] then [] else AllRecordings(files[..|files| - 1]) + Recordings(files[|files| - 1])
  }

  lemma FilesConcat(a: seq<R.Recording>, b: seq<R.Recording>)
    ensures Files(a + b) == Files(a) + Files(b)
  {
  }

  /** Each StreamFile's files are among them. */
  lemma {:induction false} DiskOfIncluded(files: seq<R.State>, i: nat)
    requires i < |files|
    ensures forall f <- DiskOf(files[i]) :: f in Files(AllRecordings(files))
  {
    var front, last := files[..|files| - 1], files[|files| - 1];
    DiskOfRecordings(last);
    FilesConcat(AllRecordings(front), Recordings(last));
    if i < |files| - 1 {
      DiskOfIncluded(front, i);
    }
  }

  /** `fs` lists the files of all StreamFiles in the order of their opening, whatever that is. */
  predicate Opened(fs: seq<DiskFile>, files: seq<R.State>) { multiset(fs) == multiset(Files(AllRecordings(files))) }

  predicate Plainly(recs: seq<R.Recording>) { forall i :: 0 <= i < |recs| ==> Plain(recs[i].url, recs[i].fmt) }

  /** Of all StreamFiles together, every recording survives exactly if no name was used twice; and if
      cameras and formats are plainly named, exactly if no two recordings clash. */
  lemma AllSurvive(fs: seq<DiskFile>, files: seq<R.State>)
    requires Opened(fs, files)
    ensures |fs| == |AllRecordings(files)|
    ensures |OnDisk(fs)| == |fs| <==> Distinct(Files(AllRecordings(files)))
    ensures Plainly(AllRecordings(files)) ==> (|OnDisk(fs)| == |fs| <==> NoClash(AllRecordings(files)))
  {
    hide OnDisk, Distinct, NoClash, Plain;
    var recs := AllRecordings(files);
    AnyOrder(fs, Files(recs));
    SurvivesIfDistinct(Files(recs));
    if Plainly(recs) {
      SurvivesUnlessClash(recs);
    }
  }

  /** And then each StreamFile's names give back what its files hold. */
  lemma EachReadsBack(fs: seq<DiskFile>, files: seq<R.State>, i: nat)
    requires Opened(fs, files) && |OnDisk(fs)| == |fs| && i < |files|
    ensures forall f <- DiskOf(files[i]) :: f.name in OnDisk(fs)
    ensures ReadBack(OnDisk(fs), DiskOf(files[i])) == R.BytesOf(R.InFiles(files[i]))
  {
    hide OnDisk, Distinct, ReadBack, R.InFiles;
    AllSurvive(fs, files);
    AnyOrder(fs, Files(AllRecordings(files)));
    DiskOfIncluded(files, i);
    ReadBackIs(OnDisk(fs), files[i]);
  }

  // ---------------------------------------------------------------- tapes hold bytes

  predicate Filled(t: Tapes) { forall tape <- t.tapes :: forall p <- tape :: p.bytes != [] }

  lemma StepFilled(t: Tapes, e: Event)
    requires Filled(t)
    ensures Filled(TapeStep(t, e))
  {
    hide Keys.IpcUrl;
    var n := TapeStep(t, e);
    forall k | 0 <= k < |n.tapes| ensures forall p <- n.tapes[k] :: p.bytes != [] {
      if k < |t.tapes| {
        assert t.tapes[k] in t.tapes;
      }
    }
  }

  lemma {:induction false} RunFilled(t: Tapes, es: seq<Event>)
    requires Filled(t)
    ensures Filled(TapeRun(t, es))
    decreases es
  {
    hide TapeStep, Filled;
    if es == [] {
    } else {
      StepFilled(t, es[0]);
      RunFilled(TapeStep(t, es[0]), es[1..]);
    }
  }

  // ---------------------------------------------------------------- end to end

  /** After any run and a shutdown, if no name was used twice: reading every StreamFile's names gives
      back every accepted byte in order if and only if no rename displaced something buffered and every
      fopen with something to write succeeded. */
  lemma EverythingReadsBack(w: R.World, configured: int, es: seq<Event>, fs: seq<DiskFile>)
    requires Legal(w, Init(configured), es)
    requires Opened(fs, Step(w, Run(w, Init(configured), es), Uninit).files)
    ensures var m := Step(w, Run(w, Init(configured), es), Uninit);
            var tapes := TapeRun(View(Init(configured)), es).tapes;
            |m.files| == |tapes|
            && (|OnDisk(fs)| == |fs| ==>
                && (forall i :: 0 <= i < |tapes| ==> forall f <- DiskOf(m.files[i]) :: f.name in OnDisk(fs))
                && ((forall i :: 0 <= i < |tapes| ==>
                       ReadBack(OnDisk(fs), DiskOf(m.files[i])) == R.BytesOf(tapes[i]))
                    <==> Careful(w, Init(configured), es)))
  {
    var m0 := Init(configured);
    assert Filled(View(m0));
    RunFilled(View(m0), es);
    hide Step, OnDisk, ReadBack, R.BytesOf, R.InFiles, Careful, TapeRun, Owned;
    ShutdownWritesAll(w, configured, es);
    var m := Step(w, Run(w, m0, es), Uninit);
    var tapes := TapeRun(View(m0), es).tapes;
    FinalTapes(w, configured, es);
    if |OnDisk(fs)| == |fs| {
      forall i | 0 <= i < |tapes|
        ensures forall f <- DiskOf(m.files[i]) :: f.name in OnDisk(fs)
        ensures ReadBack(OnDisk(fs), DiskOf(m.files[i])) == R.BytesOf(tapes[i]) <==> R.InFiles(m.files[i]) == tapes[i]
      {
        EachReadsBack(fs, m.files, i);
        assert tapes[i] in tapes;
        R.BytesTell(m.files[i]);
      }
    }
  }

  /** A shutdown moves payloads from the buffers to the files and changes no tape. */
  lemma FinalTapes(w: R.World, configured: int, es: seq<Event>)
    requires Legal(w, Init(configured), es)
    ensures var m := Step(w, Run(w, Init(configured), es), Uninit);
            var tapes := TapeRun(View(Init(configured)), es).tapes;
            |m.files| == |tapes| && forall i :: 0 <= i < |tapes| ==> R.Tape(m.files[i]) == tapes[i]
  {
    var m := Run(w, Init(configured), es);
    hide Owned, R.Tape, Routes;
    RunRefines(w, Init(configured), es);
    OwnedLinked(m);
    StepTapes(w, m, Uninit);
    hide Step;
    assert View(Step(w, m, Uninit)).tapes == View(m).tapes;
  }
}
