/** The recorder as it runs: a fixed byte buffer, one open file and short writes. */
module StreamFiles {
  import opened Bytes
  import opened FileNames
  import opened Recorder
  import opened Disk

  class StreamFile {
    const world: World
    const id: nat
    const writeBuf: array<byte>
    var length: nat
    var isFileOpen: bool
    var attempts: nat
    var fileName: string
    var ipcUrl: string
    var path: string
    var fmt: string
    var planId: string
    var maxFileSize: real
    /** The files this object has opened, in order; the open one is the last. */
    var disk: seq<DiskFile>
    /** The file reports it has published. */
    var published: seq<Report>
    ghost var st: State

    ghost predicate Valid()
      reads this, writeBuf
    {
      && st.id == id && st.cap == writeBuf.Length > 0
      && length <= writeBuf.Length && writeBuf[..length] == BytesOf(st.pending)
      && isFileOpen == st.current.Open?
      && attempts == st.attempts && fileName == st.fileName
      && ipcUrl == st.url && path == st.dir && fmt == st.fmt && planId == st.plan && maxFileSize == st.limit
      && published == st.reports
      && disk == DiskOf(st)
    }

    constructor (world: World, id: nat, configured: int)
      ensures Valid() && fresh(writeBuf) && writeBuf.Length == if configured <= 0 then 32000 else configured
      ensures this.world == world && this.id == id && st == New(id, configured)
    {
      this.world, this.id := world, id;
      writeBuf := new byte[if configured <= 0 then DEFAULT_CAP else configured](_ => 0);
      length, isFileOpen, attempts := 0, false, 0;
      fileName, ipcUrl, path, fmt, planId, maxFileSize := "", "", "", "", "", 0.0;
      disk, published := [], [];
      st := New(id, configured);
    }

    /** Opens a file named from the camera, the directory and the clock, if the system lets it. */
    method OpenFile()
      requires Valid() && !isFileOpen
      modifies this
      ensures Valid() && st == OpenIfClosed(world, old(st))
      ensures length == old(length)
    {
      hide FileName, FilesOf, BytesOf;
      BytesOfNone();
      var attempt := world(id, attempts);
      fileName := FileName(path, ipcUrl, attempt.now, fmt);
      attempts := attempts + 1;
      isFileOpen := attempt.opens;
      if isFileOpen {
        disk := disk + [DiskFile(fileName, [])];
      }
      st := OpenIfClosed(world, st);
    }

    method CloseFile(ghost end: Ending)
      requires Valid()
      modifies this
      ensures Valid() && st == CloseAs(old(st), end)
      ensures length == old(length) && !isFileOpen
    {
      if isFileOpen {
        isFileOpen := false;
        FilesOfSnoc(st.log, Kept(st.current.file, end));
      }
      st := CloseAs(st, end);
    }

    method PublishFileName(size: int)
      modifies this`published
      ensures published == old(published)
                           + if ipcUrl != "" && fileName != "" then [Report(planId, ipcUrl, path, fileName, size)] else []
    {
      if |ipcUrl| > 0 && |fileName| > 0 {
        published := published + [Report(planId, ipcUrl, path, fileName, size)];
      }
    }

    /** One fwrite: the system takes any positive part of what it is offered. */
    method Fwrite(data: seq<byte>) returns (taken: nat)
      requires data != [] && disk != []
      modifies this`disk
      ensures 0 < taken <= |data|
      ensures disk == old(disk[..|disk| - 1] + [disk[|disk| - 1].(data := disk[|disk| - 1].data + data[..taken])])
    {
      taken :| 0 < taken <= |data|;
      var last := |disk| - 1;
      disk := disk[..last] + [disk[last].(data := disk[last].data + data[..taken])];
    }

    /** Appends all of `data` to the open file, however the system splits it. */
    method WriteAll(data: seq<byte>)
      requires disk != []
      modifies this`disk
      ensures disk == old(disk[..|disk| - 1] + [disk[|disk| - 1].(data := disk[|disk| - 1].data + data)])
    {
      var rest := data;
      assert disk == disk[..|disk| - 1] + [disk[|disk| - 1]];
      ghost var done: seq<byte> := [];
      ghost var last := disk[|disk| - 1];
      assert last.data + done == last.data;
      while rest != []
        invariant done + rest == data
        invariant disk == old(disk[..|disk| - 1]) + [last.(data := last.data + done)]
        decreases |rest|
      {
        var taken := Fwrite(rest);
        assert last.data + done + rest[..taken] == last.data + (done + rest[..taken]);
        done, rest := done + rest[..taken], rest[taken..];
      }
      assert done == data;
    }

    /** Closes and reports the open file once ftell shows the limit. */
    method CloseIfFull()
      requires Valid() && isFileOpen
      modifies this
      ensures Valid() && st == Rotate(old(st))
      ensures length == old(length)
    {
      hide FileName, BytesOf, FilesOf, Size32;
      assert |disk[|disk| - 1].data| == Size(st.current.file.parts);
      if maxFileSize > 0.0 {
        var maxSize := maxFileSize * 1024.0 * 1024.0;
        var size := Size32(|disk[|disk| - 1].data|);
        if size as real >= maxSize {
          CloseFile(Full(planId));
          PublishFileName(size);
          st := Publish(st, size);
        }
      }
    }

    /** Appends a chunk to the open file. */
    method Grow(data: seq<byte>, ghost parts: seq<Payload>)
      requires Valid() && isFileOpen && data == BytesOf(parts)
      modifies this
      ensures Valid() && length == old(length) && isFileOpen
      ensures st == old(st).(current := Open(old(st).current.file.(parts := old(st).current.file.parts + parts)))
    {
      hide FileName;
      WriteAll(data);
      BytesOfConcat(st.current.file.parts, parts);
      st := st.(current := Open(st.current.file.(parts := st.current.file.parts + parts)));
    }

    /** Writes one chunk, opening a file if there is none and closing it once it is large enough. */
    method WriteBytesToFile(data: seq<byte>, ghost parts: seq<Payload>)
      requires Valid() && data == BytesOf(parts)
      modifies this
      ensures Valid() && st == Flush(world, old(st), parts)
      ensures length == old(length)
    {
      hide BytesOf, Name, Rotate;
      if !isFileOpen {
        OpenFile();
      }
      if isFileOpen {
        Grow(data, parts);
        CloseIfFull();
      } else {
        FilesOfSnoc(st.log, Lost(parts));
        st := st.(log := st.log + [Lost(parts)]);
      }
    }

    /** What the destructor does: the buffer goes to a file, and the file is closed. */
    method Clear()
      requires Valid()
      modifies this
      ensures Valid() && st == Exec(world, old(st), Recorder.Clear(Size(old(st.pending))))
      ensures length == 0 && SameSetting(old(st), st)
    {
      hide Flush, Exec, BytesOf, FilesOf, FileOf;
      FlushSetting(world, st, st.pending);
      BytesOfNone();
      if length > 0 {
        WriteBytesToFile(writeBuf[..length], st.pending);
        length := 0;
        st := st.(pending := []);
        ExecTwo(world, old(st), FlushBuffer, Close);
        assert Recorder.Clear(Size(old(st).pending)) == [FlushBuffer, Close];
      } else {
        assert Recorder.Clear(Size(st.pending)) == [Close];
      }
      ExecOne(world, old(st), Close);
      CloseFile(Switched);
    }

    /** Takes over the camera, draining what belongs to the previous one. */
    method TakeUrl(url: string)
      requires Valid()
      modifies this
      ensures Valid() && st.dir == old(st).dir && st.cap == old(st).cap
      ensures st == Exec(world, old(st), ToUrl(old(st), url))
      ensures length == if old(st).url != "" && old(st).url != url then 0 else old(length)
    {
      hide Exec, BytesOf, FilesOf, FileOf, Recorder.Clear;
      ghost var drain := [];
      ExecNone(world, st);
      if |ipcUrl| > 0 && ipcUrl != url {
        drain := Recorder.Clear(Size(st.pending));
        Clear();
      }
      ExecConcat(world, old(st), drain, [SetUrl(url)]);
      ExecOne(world, st, SetUrl(url));
      ipcUrl := url;
      st := st.(url := url);
    }

    /** Takes over directory and settings, draining what belongs to the previous directory. */
    method TakeDir(dir: string, newFmt: string, limit: real, plan: string)
      requires Valid()
      modifies this
      ensures Valid() && st.cap == old(st).cap
      ensures st == Exec(world, old(st), ToDir(old(st).dir, old(length), dir, newFmt, limit, plan))
      ensures length == if old(st).dir != "" && old(st).dir != dir then 0 else old(length)
    {
      hide Exec, BytesOf, FilesOf, FileOf, Recorder.Clear;
      ghost var drain := [];
      ExecNone(world, st);
      if |path| > 0 && path != dir {
        drain := Recorder.Clear(Size(st.pending));
        Clear();
      }
      ExecConcat(world, old(st), drain, [Adopt(dir, newFmt, limit, plan)]);
      ExecOne(world, st, Adopt(dir, newFmt, limit, plan));
      path, fmt, maxFileSize, planId := dir, newFmt, limit, plan;
      st := st.(dir := dir, fmt := newFmt, limit := limit, plan := plan);
    }

    /** Buffers a payload, flushing the buffer first or writing the payload directly if it is too long. */
    method Fill(stream: seq<byte>, ghost p: Payload)
      requires Valid() && p.bytes == stream
      modifies this, writeBuf
      ensures Valid()
      ensures st == Exec(world, old(st), Store(old(length), writeBuf.Length, p))
    {
      hide Exec, Flush, BytesOf, FilesOf, FileOf;
      ExecNone(world, st);
      BytesOfNone();
      if |stream| > 0 {
        var remain := writeBuf.Length - length;
        if |stream| <= remain {
          Append(stream, p);
          ExecOne(world, old(st), Keep(p));
        } else {
          WriteBytesToFile(writeBuf[..length], st.pending);
          length := 0;
          st := st.(pending := []);
          BytesOfOne(p);
          if |stream| > writeBuf.Length {
            WriteBytesToFile(stream, [p]);
            ExecTwo(world, old(st), FlushBuffer, Through(p));
          } else {
            Append(stream, p);
            ExecTwo(world, old(st), FlushBuffer, Keep(p));
          }
        }
      }
    }

    method Append(stream: seq<byte>, ghost p: Payload)
      requires Valid() && p.bytes == stream && |stream| <= writeBuf.Length - length
      modifies this, writeBuf
      ensures Valid() && st == Do(world, old(st), Keep(p))
    {
      hide BytesOf, FilesOf, FileOf, Flush;
      forall i | 0 <= i < |stream| {
        writeBuf[length + i] := stream[i];
      }
      length := length + |stream|;
      BytesOfConcat(st.pending, [p]);
      BytesOfOne(p);
      assert writeBuf[..length] == old(writeBuf[..length]) + stream;
      st := st.(pending := st.pending + [p]);
    }

    /** Takes one payload. */
    method WriteStream(stream: seq<byte>, url: string, dir: string, newFmt: string, limit: real, plan: string)
      requires Valid()
      modifies this, writeBuf
      ensures Valid()
      ensures st == Step(world, old(st), Write(Payload(url, dir, stream), newFmt, limit, plan))
    {
      hide Exec, ToUrl, ToDir, Store;
      ghost var p := Payload(url, dir, stream);
      TakeUrl(url);
      ghost var buffered := length;
      TakeDir(dir, newFmt, limit, plan);
      Fill(stream, p);
      ghost var one, two := ToUrl(old(st), url), ToDir(old(st).dir, buffered, dir, newFmt, limit, plan);
      ExecConcat(world, old(st), one, two);
      ExecConcat(world, old(st), one + two, Store(Buffered(old(st), url, dir), writeBuf.Length, p));
    }
  }
}
