/** Writing an archive file step by step on a disk that can fail (internal/archive/writer.go). */
module ArchiveWriter {
  import opened Common
  import opened Codecs
  import opened Disk
  import M = Manifests
  import A = Archive

  /** A stream read in chunks; fails if reading ends in an error instead of the end. */
  datatype Source = Source(chunks: seq<Bytes>, fails: bool)

  /** What the encoder emits between two states of its output. */
  function Fresh(before: Bytes, after: Bytes): Bytes {
    if |before| <= |after| then after[|before|..] else []
  }

  /** Feed chunks i.. of src to the encoder, which writes to the temporary file, and close it. */
  function CompressSpec(k: Codec, fs: Fs, tmp: string, src: Source, i: nat): (Fs, bool)
    requires i <= |src.chunks|
    decreases |src.chunks| - i
  {
    if i == |src.chunks| then
      if src.fails then (fs, false)
      else AppendSpec(fs, tmp, Fresh(k.squeeze(src.chunks), k.finish(src.chunks)))
    else
      var (fs', ok) := AppendSpec(fs, tmp, Fresh(k.squeeze(src.chunks[..i]), k.squeeze(src.chunks[..i + 1])));
      if !ok then (fs', false) else CompressSpec(k, fs', tmp, src, i + 1)
  }

  /** addEntry: the header, then the data, which must have the announced size, then its padding. */
  function AddEntrySpec(k: Codec, fs: Fs, path: string, name: string, size: nat, data: Bytes): (Fs, bool) {
    var (fs1, ok) := AppendSpec(fs, path, k.header(name, size));
    if !ok || |data| != size then (fs1, false)
    else AppendSpec(fs1, path, data + A.Zeros(A.Pad(size)))
  }

  datatype Added = Added(fs: Fs, entry: Option<M.Entry>, plain: nat)

  /** AddVolume once the temporary file exists; it is removed in every case. */
  function AddCompressedSpec(k: Codec, fs: Fs, tmp: string, partial: string, name: string, src: Source): Added {
    var (fs1, chmodded) := AttemptSpec(fs, Chmod(tmp));
    if !chmodded then Added(fs1, None, 0)
    else
      var (fs2, ready) := AttemptSpec(fs1, StartEncoder);
      if !ready then Added(fs2, None, 0)
      else
        var (fs3, written) := CompressSpec(k, fs2, tmp, src, 0);
        if !written then Added(fs3, None, 0)
        else
          var (fs4, rewound) := AttemptSpec(fs3, Rewind(tmp));
          if !rewound then Added(fs4, None, 0)
          else
            var z := k.finish(src.chunks);
            var entry := M.Entry(M.VolumePath(name), |z|, k.sha(z));
            var (fs5, added) := AddEntrySpec(k, fs4, partial, entry.path, |z|, Held(fs4, tmp));
            if !added then Added(fs5, None, 0) else Added(fs5, Some(entry), |Concat(src.chunks)|)
  }

  function AddVolumeSpec(k: Codec, fs: Fs, partial: string, name: string, src: Source): Added {
    if !M.ValidName(name) then Added(fs, None, 0)
    else
      var (fs1, tmp) := TempSpec(fs);
      if tmp.None? then Added(fs1, None, 0)
      else
        var r := AddCompressedSpec(k, fs1, tmp.value, partial, name, src);
        r.(fs := RemoveSpec(r.fs, tmp.value).0)
  }

  /** Manifest, rendering, trailer, sync, close, rename. */
  function FinishSpec(k: Codec, fs: Fs, partial: string, final: string, m: M.Manifest): (Fs, bool) {
    var (fs1, rendered) := AttemptSpec(fs, Render);
    if !rendered then (fs1, false)
    else
      var (fs2, ok2) := AddEntrySpec(k, fs1, partial, M.MANIFEST_PATH, |k.yaml(m)|, k.yaml(m));
      if !ok2 then (fs2, false)
      else
        var (fs3, ok3) := AddEntrySpec(k, fs2, partial, M.README_PATH, |k.readme(m)|, k.readme(m));
        if !ok3 then (fs3, false)
        else
          var (fs4, ok4) := AppendSpec(fs3, partial, A.TRAILER);
          if !ok4 then (fs4, false)
          else
            var (fs5, synced) := AttemptSpec(fs4, Sync(partial));
            if !synced then (fs5, false)
            else
              var (fs6, closed) := AttemptSpec(fs5, CloseFile(partial));
              if !closed then (fs6, false) else RenameSpec(fs6, partial, final)
  }

  // ---------- what the steps guarantee ----------

  /** Only the file at path changed, and it only grew; removals fail no more than before. */
  ghost predicate Grows(fs: Fs, fs': Fs, path: string) {
    && path in fs.files
    && KeepsBut(fs, fs', {path})
    && fs'.files.Keys == fs.files.Keys
    && fs.files[path] <= fs'.files[path]
  }

  lemma GrowsTrans(a: Fs, b: Fs, c: Fs, path: string)
    requires Grows(a, b, path) && Grows(b, c, path)
    ensures Grows(a, c, path)
  {
  }

  lemma AppendGrows(fs: Fs, path: string, data: Bytes)
    requires path in fs.files
    ensures var (fs', ok) := AppendSpec(fs, path, data);
            Grows(fs, fs', path) && (ok ==> fs'.files[path] == fs.files[path] + data)
  {
  }

  /** A successful compression leaves exactly the encoder's complete output in the temporary file. */
  lemma {:induction false} CompressFacts(k: Codec, fs: Fs, tmp: string, src: Source, i: nat)
    requires ZstdLaw(k) && tmp in fs.files && i <= |src.chunks| && fs.files[tmp] == k.squeeze(src.chunks[..i])
    ensures var (fs', ok) := CompressSpec(k, fs, tmp, src, i);
            Grows(fs, fs', tmp) && (ok ==> !src.fails && fs'.files[tmp] == k.finish(src.chunks))
    decreases |src.chunks| - i
  {
    if i == |src.chunks| {
      assert src.chunks[..i] == src.chunks;
      assert k.squeeze(src.chunks) <= k.finish(src.chunks);
    } else {
      var before, after := k.squeeze(src.chunks[..i]), k.squeeze(src.chunks[..i + 1]);
      assert src.chunks[..i + 1] == src.chunks[..i] + [src.chunks[i]];
      assert before <= after;
      AppendGrows(fs, tmp, Fresh(before, after));
      var (fs', ok) := AppendSpec(fs, tmp, Fresh(before, after));
      if ok {
        CompressFacts(k, fs', tmp, src, i + 1);
      }
    }
  }

  lemma AddEntryFacts(k: Codec, fs: Fs, path: string, name: string, size: nat, data: Bytes)
    requires path in fs.files
    ensures var (fs', ok) := AddEntrySpec(k, fs, path, name, size, data);
            && Grows(fs, fs', path)
            && (ok ==> |data| == size && fs'.files[path] == fs.files[path] + A.PrintItem(k, A.Item(name, data)))
  {
    hide A.Pad, A.Zeros;
    AppendGrows(fs, path, k.header(name, size));
    var (fs1, ok) := AppendSpec(fs, path, k.header(name, size));
    if ok && |data| == size {
      AppendGrows(fs1, path, data + A.Zeros(A.Pad(size)));
      var h, d := k.header(name, size), data + A.Zeros(A.Pad(size));
      assert fs.files[path] + h + d == fs.files[path] + (h + d);
      assert A.PrintItem(k, A.Item(name, data)) == h + d;
    }
  }

  /** The contract of AddVolume: no other file is touched and the temporary file is gone again if it can be removed; on
      success the archive has grown by exactly one entry whose size and checksum are those of the stored bytes, the
      source was read to its end, and the count is the number of bytes read. */
  ghost predicate AddsVolume(k: Codec, fs: Fs, partial: string, name: string, src: Source, r: Added) {
    && partial in fs.files && partial in r.fs.files
    && KeepsBut(fs, r.fs, {partial})
    && fs.files[partial] <= r.fs.files[partial]
    && (RemovalsWork(fs) ==> r.fs.files.Keys == fs.files.Keys)
    && (r.entry.Some? ==>
          var z := k.finish(src.chunks);
          && M.ValidName(name)
          && !src.fails
          && r.entry.value == M.Entry(M.VolumePath(name), |z|, k.sha(z))
          && r.plain == |Concat(src.chunks)|
          && r.fs.files[partial] == fs.files[partial] + A.PrintItem(k, A.Item(M.VolumePath(name), z)))
  }

  lemma AddVolumeFacts(k: Codec, fs: Fs, partial: string, name: string, src: Source)
    requires ZstdLaw(k) && partial in fs.files
    ensures AddsVolume(k, fs, partial, name, src, AddVolumeSpec(k, fs, partial, name, src))
  {
    hide AddCompressedSpec, A.PrintItem, M.ValidName, M.VolumePath, ZstdLaw;
    if M.ValidName(name) {
      var (fs1, tmp) := TempSpec(fs);
      if tmp.Some? {
        assert fs1.files[tmp.value] == [] && tmp.value != partial;
        AddCompressedFacts(k, fs1, tmp.value, partial, name, src);
        var r := AddCompressedSpec(k, fs1, tmp.value, partial, name, src);
        assert Fate(r.fs).stays ==> !RemovalsWork(fs);
      }
    }
  }

  lemma AddCompressedFacts(k: Codec, fs: Fs, tmp: string, partial: string, name: string, src: Source)
    requires ZstdLaw(k) && partial in fs.files && tmp in fs.files && tmp != partial && fs.files[tmp] == []
    ensures var r := AddCompressedSpec(k, fs, tmp, partial, name, src);
            && KeepsBut(fs, r.fs, {tmp, partial}) && r.fs.files.Keys == fs.files.Keys
            && fs.files[partial] <= r.fs.files[partial]
            && (r.entry.Some? ==>
                  var z := k.finish(src.chunks);
                  && !src.fails
                  && r.entry.value == M.Entry(M.VolumePath(name), |z|, k.sha(z))
                  && r.plain == |Concat(src.chunks)|
                  && r.fs.files[partial] == fs.files[partial] + A.PrintItem(k, A.Item(M.VolumePath(name), z)))
  {
    hide A.PrintItem, M.VolumePath, CompressSpec, AddEntrySpec;
    var fs2 := AttemptSpec(AttemptSpec(fs, Chmod(tmp)).0, StartEncoder).0;
    assert src.chunks[..0] == [];
    CompressFacts(k, fs2, tmp, src, 0);
    var fs4 := AttemptSpec(CompressSpec(k, fs2, tmp, src, 0).0, Rewind(tmp)).0;
    var z := k.finish(src.chunks);
    AddEntryFacts(k, fs4, partial, M.VolumePath(name), |z|, Held(fs4, tmp));
  }

  /** The contract of Finish: without success only the unfinished file may have grown; with success it is complete and
      has become the final file. */
  ghost predicate Finishes(k: Codec, fs: Fs, partial: string, final: string, m: M.Manifest, fs': Fs, ok: bool) {
    if ok then
      && fs'.faults == fs.faults
      && partial in fs.files
      && fs'.files == (fs.files - {partial})[final := fs.files[partial] + Ending(k, m)]
    else
      Grows(fs, fs', partial)
  }

  function Ending(k: Codec, m: M.Manifest): Bytes {
    A.PrintItem(k, A.Item(M.MANIFEST_PATH, k.yaml(m))) + A.PrintItem(k, A.Item(M.README_PATH, k.readme(m))) + A.TRAILER
  }

  lemma FinishFacts(k: Codec, fs: Fs, partial: string, final: string, m: M.Manifest)
    requires partial in fs.files
    ensures var (fs', ok) := FinishSpec(k, fs, partial, final, m); Finishes(k, fs, partial, final, m, fs', ok)
  {
    hide A.PrintItem, AddEntrySpec, AppendSpec, RenameSpec, A.TRAILER, KeepsBut;
    var fs1 := AttemptSpec(fs, Render).0;
    AttemptGrows(fs, partial, Render);
    AddEntryFacts(k, fs1, partial, M.MANIFEST_PATH, |k.yaml(m)|, k.yaml(m));
    var fs2 := AddEntrySpec(k, fs1, partial, M.MANIFEST_PATH, |k.yaml(m)|, k.yaml(m)).0;
    AddEntryFacts(k, fs2, partial, M.README_PATH, |k.readme(m)|, k.readme(m));
    var fs3 := AddEntrySpec(k, fs2, partial, M.README_PATH, |k.readme(m)|, k.readme(m)).0;
    AppendGrows(fs3, partial, A.TRAILER);
    var fs4, ok4 := AppendSpec(fs3, partial, A.TRAILER).0, AppendSpec(fs3, partial, A.TRAILER).1;
    GrowsTrans(fs, fs1, fs2, partial);
    GrowsTrans(fs, fs2, fs3, partial);
    GrowsTrans(fs, fs3, fs4, partial);
    AttemptGrows(fs4, partial, Sync(partial));
    var fs5 := AttemptSpec(fs4, Sync(partial)).0;
    AttemptGrows(fs5, partial, CloseFile(partial));
    GrowsTrans(fs, fs4, fs5, partial);
    var fs6 := AttemptSpec(fs5, CloseFile(partial)).0;
    GrowsTrans(fs, fs5, fs6, partial);
    RenameMoves(fs6, partial, final);
    if !RenameSpec(fs6, partial, final).1 {
      GrowsTrans(fs, fs6, RenameSpec(fs6, partial, final).0, partial);
    }
    var (fs', ok) := FinishSpec(k, fs, partial, final, m);
    if ok {
      var a := A.PrintItem(k, A.Item(M.MANIFEST_PATH, k.yaml(m)));
      var b := A.PrintItem(k, A.Item(M.README_PATH, k.readme(m)));
      assert fs.files[partial] + a + b + A.TRAILER == fs.files[partial] + (a + b + A.TRAILER);
      GrowsKeeps(fs, fs6, partial);
    }
  }

  lemma AttemptGrows(fs: Fs, path: string, op: Op)
    requires path in fs.files
    ensures Grows(fs, AttemptSpec(fs, op).0, path) && AttemptSpec(fs, op).0.files == fs.files
  {
  }

  lemma RenameMoves(fs: Fs, partial: string, final: string)
    requires partial in fs.files
    ensures var (fs', ok) := RenameSpec(fs, partial, final);
            && fs'.faults == fs.faults
            && (ok ==> fs'.files == (fs.files - {partial})[final := fs.files[partial]])
            && (!ok ==> Grows(fs, fs', partial))
  {
  }

  lemma GrowsKeeps(fs: Fs, fs': Fs, path: string)
    requires Grows(fs, fs', path)
    ensures fs'.files - {path} == fs.files - {path} && fs'.faults == fs.faults
  {
  }

  // ---------- the code ----------

  const PARTIAL_SUFFIX := ".partial"

  /** Refuse if the final file is seen, then create the unfinished file, which must not exist. */
  function NewWriterSpec(fs: Fs, final: string): (Fs, bool) {
    var (fs1, seen) := StatSpec(fs, final);
    if seen then (fs1, false) else CreateSpec(fs1, final + PARTIAL_SUFFIX)
  }

  method NewWriter(k: Codec, disk: FileSystem, final: string) returns (w: Writer?)
    modifies disk
    ensures (disk.View(), w != null) == NewWriterSpec(old(disk.View()), final)
    ensures w != null ==>
              && fresh(w) && w.k == k && w.disk == disk
              && w.final == final && w.partial == final + PARTIAL_SUFFIX && !w.done
  {
    var seen := disk.Stat(final);
    if seen {
      return null;
    }
    var created := disk.CreateExclusive(final + PARTIAL_SUFFIX);
    if !created {
      return null;
    }
    w := new Writer(k, disk, final);
  }

  lemma FreshAtStart(k: Codec, chunks: seq<Bytes>)
    requires ZstdLaw(k)
    ensures k.squeeze(chunks[..0]) == [] && Concat(chunks[..0]) == []
  {
    assert chunks[..0] == [];
  }

  /** One more chunk: the encoder's output continues, the count of bytes read grows by the chunk. */
  lemma FreshStep(k: Codec, chunks: seq<Bytes>, i: nat)
    requires ZstdLaw(k) && i < |chunks|
    ensures k.squeeze(chunks[..i]) + Fresh(k.squeeze(chunks[..i]), k.squeeze(chunks[..i + 1]))
            == k.squeeze(chunks[..i + 1])
    ensures |Concat(chunks[..i + 1])| == |Concat(chunks[..i])| + |chunks[i]|
  {
    assert chunks[..i + 1] == chunks[..i] + [chunks[i]];
    ConcatSnoc(chunks[..i], chunks[i]);
    assert k.squeeze(chunks[..i]) <= k.squeeze(chunks[..i] + [chunks[i]]);
  }

  lemma FreshAtEnd(k: Codec, chunks: seq<Bytes>)
    requires ZstdLaw(k)
    ensures k.squeeze(chunks) + Fresh(k.squeeze(chunks), k.finish(chunks)) == k.finish(chunks)
  {
    assert k.squeeze(chunks) <= k.finish(chunks);
  }

  class Writer {
    const k: Codec
    const disk: FileSystem
    const final: string
    const partial: string
    var done: bool

    constructor (k: Codec, disk: FileSystem, final: string)
      ensures this.k == k && this.disk == disk && this.final == final && partial == final + PARTIAL_SUFFIX && !done
    {
      this.k, this.disk, this.final, partial, done := k, disk, final, final + PARTIAL_SUFFIX, false;
    }

    method AddVolume(name: string, src: Source) returns (entry: Option<M.Entry>, plain: nat)
      requires ZstdLaw(k)
      modifies disk
      ensures Added(disk.View(), entry, plain) == AddVolumeSpec(k, old(disk.View()), partial, name, src)
    {
      if !M.ValidName(name) {
        return None, 0;
      }
      var tmp := disk.CreateTemp();
      if tmp.None? {
        return None, 0;
      }
      entry, plain := AddCompressed(tmp.value, name, src);
      var _ := disk.Remove(tmp.value);
    }

    /** Compresses into the temporary file, counting and hashing what is written there, then copies that file. */
    method AddCompressed(tmp: string, name: string, src: Source) returns (entry: Option<M.Entry>, plain: nat)
      requires ZstdLaw(k)
      modifies disk
      ensures Added(disk.View(), entry, plain) == AddCompressedSpec(k, old(disk.View()), tmp, partial, name, src)
    {
      var ok := disk.Attempt(Chmod(tmp));
      if !ok {
        return None, 0;
      }
      ok := disk.Attempt(StartEncoder);
      if !ok {
        return None, 0;
      }
      var count: nat;
      var hashed: Bytes;
      ok, count, hashed, plain := Compress(tmp, src);
      if !ok {
        return None, 0;
      }
      ok := disk.Attempt(Rewind(tmp));
      if !ok {
        return None, 0;
      }
      entry := Some(M.Entry(M.VolumePath(name), count, k.sha(hashed)));
      ok := AddEntry(entry.value.path, count, Held(disk.View(), tmp));
      if !ok {
        return None, 0;
      }
    }

    /** The copy loop: count and hashed follow what went to the temporary file, plain what was read. */
    method Compress(tmp: string, src: Source) returns (ok: bool, count: nat, hashed: Bytes, plain: nat)
      requires ZstdLaw(k)
      modifies disk
      ensures (disk.View(), ok) == CompressSpec(k, old(disk.View()), tmp, src, 0)
      ensures ok ==> hashed == k.finish(src.chunks) && count == |hashed| && plain == |Concat(src.chunks)|
    {
      hide ZstdLaw, Fresh, AppendSpec;
      count, hashed, plain := 0, [], 0;
      FreshAtStart(k, src.chunks);
      for i := 0 to |src.chunks|
        invariant CompressSpec(k, old(disk.View()), tmp, src, 0) == CompressSpec(k, disk.View(), tmp, src, i)
        invariant hashed == k.squeeze(src.chunks[..i]) && count == |hashed| && plain == |Concat(src.chunks[..i])|
      {
        FreshStep(k, src.chunks, i);
        var out := Fresh(k.squeeze(src.chunks[..i]), k.squeeze(src.chunks[..i + 1]));
        ok := disk.Append(tmp, out);
        if !ok {
          return;
        }
        count, hashed, plain := count + |out|, hashed + out, plain + |src.chunks[i]|;
      }
      assert src.chunks[..|src.chunks|] == src.chunks;
      if src.fails {
        ok := false;
        return;
      }
      FreshAtEnd(k, src.chunks);
      var last := Fresh(k.squeeze(src.chunks), k.finish(src.chunks));
      ok := disk.Append(tmp, last);
      count, hashed := count + |last|, hashed + last;
    }

    method AddEntry(name: string, size: nat, data: Bytes) returns (ok: bool)
      modifies disk
      ensures (disk.View(), ok) == AddEntrySpec(k, old(disk.View()), partial, name, size, data)
    {
      ok := disk.Append(partial, k.header(name, size));
      if !ok || |data| != size {
        return false;
      }
      ok := disk.Append(partial, data + A.Zeros(A.Pad(size)));
    }

    method Finish(m: M.Manifest) returns (ok: bool)
      modifies disk, this`done
      ensures (disk.View(), ok) == FinishSpec(k, old(disk.View()), partial, final, m)
      ensures done == (old(done) || ok)
    {
      ok := disk.Attempt(Render);
      if !ok { return; }
      ok := AddEntry(M.MANIFEST_PATH, |k.yaml(m)|, k.yaml(m));
      if !ok { return; }
      ok := AddEntry(M.README_PATH, |k.readme(m)|, k.readme(m));
      if !ok { return; }
      ok := disk.Append(partial, A.TRAILER);
      if !ok { return; }
      ok := disk.Attempt(Sync(partial));
      if !ok { return; }
      ok := disk.Attempt(CloseFile(partial));
      if !ok { return; }
      ok := disk.Rename(partial, final);
      if ok {
        done := true;
      }
    }

    /** Removes the unfinished file; does nothing once the archive is finished or was aborted before. */
    method Abort() returns (ok: bool)
      modifies disk, this`done
      ensures done
      ensures if old(done) then ok && disk.View() == old(disk.View())
              else (disk.View(), ok) == RemoveSpec(old(disk.View()), partial)
    {
      if done {
        return true;
      }
      done := true;
      ok := disk.Remove(partial);
    }
  }
}
