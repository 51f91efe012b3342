/** The directory a recorder leaves behind. Opening a name again truncates what was there. */
module Disk {
  import opened Bytes
  import opened FileNames
  import opened Recorder

  datatype DiskFile = DiskFile(name: string, data: seq<byte>)

  function FileOf(f: Recording): DiskFile { DiskFile(Name(f), BytesOf(f.parts)) }

  /** The files opened for a log, in order; dropped chunks have none. */
  function FilesOf(log: seq<Entry>): seq<DiskFile> {
    if log == [] then []
    else FilesOf(log[..|log| - 1]) + if log[|log| - 1].Kept? then [FileOf(log[|log| - 1].file)] else []
  }

  lemma FilesOfSnoc(log: seq<Entry>, e: Entry)
    ensures FilesOf(log + [e]) == FilesOf(log) + if e.Kept? then [FileOf(e.file)] else []
  {
    assert (log + [e])[..|log|] == log;
  }

  /** What is found under each name once all files have been written. */
  function OnDisk(fs: seq<DiskFile>): map<string, seq<byte>> {
    if fs == [] then map[] else OnDisk(fs[..|fs| - 1])[fs[|fs| - 1].name := fs[|fs| - 1].data]
  }

  predicate Distinct(fs: seq<DiskFile>) {
    forall i, j :: 0 <= i < j < |fs| ==> fs[i].name != fs[j].name
  }

  lemma {:induction false} OnDiskKeys(fs: seq<DiskFile>)
    ensures forall n :: n in OnDisk(fs) <==> exists f <- fs :: f.name == n
  {
    if fs == [] {
    } else {
      var front, last := fs[..|fs| - 1], fs[|fs| - 1];
      OnDiskKeys(front);
      assert fs == front + [last];
      assert forall n :: n in OnDisk(fs) <==> n in OnDisk(front) || n == last.name;
    }
  }

  lemma DistinctSnoc(fs: seq<DiskFile>, f: DiskFile)
    ensures Distinct(fs + [f]) <==> Distinct(fs) && f.name !in OnDisk(fs)
  {
    var gs := fs + [f];
    OnDiskKeys(fs);
    hide OnDisk;
    if Distinct(gs) {
      forall i, j | 0 <= i < j < |fs| ensures fs[i].name != fs[j].name {
        assert gs[i] == fs[i] && gs[j] == fs[j];
      }
      forall g <- fs ensures g.name != f.name {
        var i :| 0 <= i < |fs| && fs[i] == g;
        assert gs[i] == g && gs[|fs|] == f;
      }
    }
    if Distinct(fs) && f.name !in OnDisk(fs) {
      assert forall i :: 0 <= i < |fs| ==> fs[i] in fs;
    }
  }

  /** Every recording is still there, whole, exactly if no name was used twice. */
  lemma {:induction false} SurvivesIfDistinct(fs: seq<DiskFile>)
    ensures |OnDisk(fs)| <= |fs|
    ensures |OnDisk(fs)| == |fs| <==> Distinct(fs)
    ensures Distinct(fs) ==> forall f <- fs :: f.name in OnDisk(fs) && OnDisk(fs)[f.name] == f.data
  {
    if fs == [] {
    } else {
      var front, last := fs[..|fs| - 1], fs[|fs| - 1];
      SurvivesIfDistinct(front);
      DistinctSnoc(front, last);
      OnDiskKeys(front);
      assert fs == front + [last];
      var before := OnDisk(front);
      assert |before[last.name := last.data]| == |before| + if last.name in before then 0 else 1 by {
        assert before[last.name := last.data].Keys == before.Keys + {last.name};
        assert last.name in before ==> before.Keys + {last.name} == before.Keys;
      }
    }
  }

  // ---------------------------------------------------------------- when names repeat

  function KeptFiles(log: seq<Entry>): seq<Recording> {
    if log == [] then []
    else KeptFiles(log[..|log| - 1]) + if log[|log| - 1].Kept? then [log[|log| - 1].file] else []
  }

  /** Everything a StreamFile has recorded, the open file last. */
  function Recordings(s: State): seq<Recording> {
    KeptFiles(s.log) + if s.current.Open? then [s.current.file] else []
  }

  /** The files it has opened, in order. */
  function DiskOf(s: State): seq<DiskFile> {
    FilesOf(s.log) + if s.current.Open? then [FileOf(s.current.file)] else []
  }

  function Files(recs: seq<Recording>): seq<DiskFile> {
    seq(|recs|, i requires 0 <= i < |recs| => FileOf(recs[i]))
  }

  lemma {:induction false} FilesOfKept(log: seq<Entry>)
    ensures FilesOf(log) == Files(KeptFiles(log))
  {
    if log == [] {
    } else {
      FilesOfKept(log[..|log| - 1]);
    }
  }

  lemma DiskOfRecordings(s: State)
    ensures DiskOf(s) == Files(Recordings(s))
  {
    FilesOfKept(s.log);
  }

  /** Two recordings that can only have one name: same directory, same local time to the second, same
      extension, and camera URLs alike up to ':' against '_'. */
  predicate Clash(f: Recording, g: Recording) {
    f.dir == g.dir && Prefix(f.url) == Prefix(g.url) && f.stamp == g.stamp && Extension(f.fmt) == Extension(g.fmt)
  }

  predicate NoClash(recs: seq<Recording>) { forall i, j :: 0 <= i < j < |recs| ==> !Clash(recs[i], recs[j]) }

  /** Recordings clash or not in whatever order they are listed; plainly named ones, of any cameras,
      all survive on disk exactly if no two of them clash. */
  lemma SurvivesUnlessClash(recs: seq<Recording>)
    requires forall i :: 0 <= i < |recs| ==> Plain(recs[i].url, recs[i].fmt)
    ensures |OnDisk(Files(recs))| == |recs| <==> NoClash(recs)
    ensures Distinct(Files(recs)) <==> NoClash(recs)
  {
    hide FileName, Prefix, Extension, Plain;
    var fs := Files(recs);
    SurvivesIfDistinct(fs);
    forall i, j | 0 <= i < j < |recs| ensures fs[i].name == fs[j].name <==> Clash(recs[i], recs[j]) {
      SameName(recs[i].dir, recs[i].url, recs[i].stamp, recs[i].fmt, recs[j].dir, recs[j].url, recs[j].stamp, recs[j].fmt);
    }
    assert Distinct(fs) <==> NoClash(recs);
  }

  /** The order of the openings does not matter to whether all survive, nor to what is then found. */
  lemma AnyOrder(fs: seq<DiskFile>, gs: seq<DiskFile>)
    requires multiset(fs) == multiset(gs)
    ensures |OnDisk(fs)| == |OnDisk(gs)| && |fs| == |gs| && (Distinct(fs) <==> Distinct(gs))
    ensures Distinct(gs) ==> forall g <- gs :: g.name in OnDisk(fs) && OnDisk(fs)[g.name] == g.data
  {
    OnDiskKeys(fs);
    OnDiskKeys(gs);
    SurvivesIfDistinct(fs);
    SurvivesIfDistinct(gs);
    hide OnDisk, Distinct;
    forall f ensures f in fs <==> f in gs {
      assert f in multiset(fs) <==> f in multiset(gs);
    }
    assert OnDisk(fs).Keys == OnDisk(gs).Keys;
    assert |OnDisk(fs).Keys| == |OnDisk(fs)| && |OnDisk(gs).Keys| == |OnDisk(gs)|;
    assert |fs| == |multiset(fs)| == |multiset(gs)| == |gs|;
  }

  // ---------------------------------------------------------------- reading it all back

  /** The contents found under a list of names, one after the other. */
  function ReadBack(disk: map<string, seq<byte>>, fs: seq<DiskFile>): seq<byte>
    requires forall f <- fs :: f.name in disk
  {
    if fs == [] then []
    else
      ReadBack(disk, fs[..|fs| - 1]) + disk[fs[|fs| - 1].name]
  }

  lemma {:induction false} ReadBackParts(disk: map<string, seq<byte>>, recs: seq<Recording>)
    requires forall f <- Files(recs) :: f.name in disk && disk[f.name] == f.data
    ensures ReadBack(disk, Files(recs)) == BytesOf(PartsIn(recs))
  {
    var fs := Files(recs);
    if recs == [] {
    } else {
      var front, last := recs[..|recs| - 1], recs[|recs| - 1];
      assert fs[..|fs| - 1] == Files(front) && fs[|fs| - 1] == FileOf(last);
      assert forall f <- Files(front) :: f in fs;
      ReadBackParts(disk, front);
      BytesOfConcat(PartsIn(front), last.parts);
    }
  }

  function PartsIn(recs: seq<Recording>): seq<Payload> {
    if recs == [] then [] else PartsIn(recs[..|recs| - 1]) + recs[|recs| - 1].parts
  }

  lemma PartsInSnoc(recs: seq<Recording>, f: Recording)
    ensures PartsIn(recs + [f]) == PartsIn(recs) + f.parts
  {
    assert (recs + [f])[..|recs|] == recs;
  }

  lemma {:induction false} KeptPartsIn(log: seq<Entry>)
    ensures PartsIn(KeptFiles(log)) == KeptParts(log)
  {
    if log == [] {
    } else {
      var front, last := log[..|log| - 1], log[|log| - 1];
      KeptPartsIn(front);
      if last.Kept? {
        PartsInSnoc(KeptFiles(front), last.file);
      } else {
        assert KeptFiles(log) == KeptFiles(front);
      }
    }
  }

  lemma RecordingsHold(s: State)
    ensures PartsIn(Recordings(s)) == InFiles(s)
  {
    KeptPartsIn(s.log);
    if s.current.Open? {
      PartsInSnoc(KeptFiles(s.log), s.current.file);
    } else {
      assert Recordings(s) == KeptFiles(s.log) && InFiles(s) == KeptParts(s.log);
    }
  }

  /** A StreamFile's names, read in the order of their opening, give back what its files hold. */
  lemma ReadBackIs(disk: map<string, seq<byte>>, s: State)
    requires forall f <- DiskOf(s) :: f.name in disk && disk[f.name] == f.data
    ensures ReadBack(disk, DiskOf(s)) == BytesOf(InFiles(s))
  {
    hide *;
    DiskOfRecordings(s);
    RecordingsHold(s);
    ReadBackParts(disk, Recordings(s));
  }

  /** End to end for one StreamFile alone on the disk: if every fopen with something to write succeeds
      and no name is used twice, reading the files in the order of their opening gives back every
      accepted byte in order. */
  lemma RecordingComplete(w: World, id: nat, configured: int, ops: seq<Op>)
    requires forall op <- ops :: Fits(op, AnyLimit)
    ensures var s := Run(w, New(id, configured), ops + [Drain]);
            var fs := DiskOf(s);
            RunOpens(w, New(id, configured), ops + [Drain]) && Distinct(fs) ==>
              && (forall f <- fs :: f.name in OnDisk(fs))
              && ReadBack(OnDisk(fs), fs) == BytesOf(Accepted(ops))
  {
    hide Step, BytesOf, RunOpens;
    var s := Run(w, New(id, configured), ops + [Drain]);
    DrainedRun(w, id, configured, ops);
    SurvivesIfDistinct(DiskOf(s));
    if Distinct(DiskOf(s)) {
      ReadBackIs(OnDisk(DiskOf(s)), s);
    }
  }
}
