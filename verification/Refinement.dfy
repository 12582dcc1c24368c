/** The concurrent protocols keep the contracts that the sequential model of whole runs relies on: however the threads
    interleave, RunHelper and backupVolume end in a way that HelperSpec and BackupVolumeSpec allow for some fault. */
module Refinement {
  import opened Common
  import opened Codecs
  import opened Docker
  import opened ArchiveWriter
  import Disk
  import A = Archive
  import B = Backup
  import H = HelperProtocol
  import HelperOutcome
  import M = Manifests
  import P = PipeProtocol

  /** The host whose next request meets this fault. */
  function WithFault(h: Host, f: Fault): Host {
    h.(faults := seq(|h.calls|, i requires 0 <= i < |h.calls| => if i < |h.faults| then h.faults[i] else NO_FAULT)
                 + [f] + if |h.calls| < |h.faults| then h.faults[|h.calls| + 1..] else [])
  }

  lemma MeetsFault(h: Host, f: Fault)
    ensures Fate(WithFault(h, f)) == f
    ensures WithFault(h, f) == h.(faults := WithFault(h, f).faults)
    ensures forall volume :: Quiet(WithFault(h, f), volume) == Quiet(h, volume)
  {
  }

  // ---------- RunHelper ----------

  /** What is assumed of the container itself, not of the connection to it: if tar exits with 0, it has written the
      archive of what the volume holds, or it has been given an archive to the end of its input. */
  ghost predicate TarIsHonest(k: Codec, h: Host, volume: string, kind: HelperKind, s: H.State)
    requires volume in h.data
  {
    s.output.exited == Some(0) ==>
      match kind
      case Pack => Quiet(h, volume) ==> H.StdoutOf(s.output.produced) == k.pack(h.data[volume])
      case Unpack(_) => s.input.halfClosed ==> k.unpack(s.input.sent).Some?
      case _ => true
  }

  /** The input of the run is the input of the helper. A stream that breaks is never read to its end. */
  ghost predicate Feeds(kind: HelperKind, s: H.State) {
    match kind
    case Unpack(stdin) =>
      && s.input.stdin.Some?
      && (if stdin.Some? then s.input.stdin == stdin else s.input.pc != H.SendDone(false))
    case _ => s.input.stdin.None?
  }

  /** How HelperSpec calls an outcome of RunHelper. */
  function ResultOf(outcome: H.Outcome): HelperResult {
    if outcome.Failure? then Broke else Exit(outcome.code)
  }

  /** Every interleaving of RunHelper ends in a way that HelperSpec allows: with the same result and, for a pack run,
      with the output that was handed to the caller. With exit code 0 on a quiet volume that is all of the volume. The
      fault is a failure only if the run had cause for one; in every other case the result is the exit code. */
  lemma HelperRunRefines(k: Codec, h: Host, volume: string, kind: HelperKind, exec: nat -> H.State, who: nat -> H.Actor,
                         i: nat)
    returns (f: Fault)
    requires H.IsRun(exec, who) && exec(i).main.Returned?
    requires volume in h.volumes && volume in h.data
    requires Feeds(kind, exec(i)) && TarIsHonest(k, h, volume, kind, exec(i))
    ensures var run := HelperSpec(k, WithFault(h, f), volume, kind);
            && (f.fails <==> HelperOutcome.HasCause(exec, i))
            && run.result == ResultOf(exec(i).main.outcome)
            && (kind.Pack? ==> run.stdout == exec(i).output.stdout)
  {
    var s := exec(i);
    var outcome := s.main.outcome;
    f := Fault(outcome.Failure?, if outcome.Result? then outcome.code else 0, map[], s.output.stdout, false);
    H.ReturnIsSafe(exec, who, i);
    HelperOutcome.FailsExactlyWithCause(exec, who, i);
    MeetsFault(h, f);
  }

  // ---------- backupVolume ----------

  /** What AddVolume did with the pieces it read is what the disk made it do. */
  ghost predicate DiskDecides(k: Codec, fs: Disk.Fs, partial: string, name: string, s: P.State)
    requires s.reader.Returned? && s.writer.Sent?
  {
    s.writer.end.Exited? ==>
      (AddVolumeSpec(k, fs, partial, name, Source(s.pieces, false)).entry.Some? <==> !s.reader.result.WriterError?)
  }

  /** How BackupVolumeSpec calls an outcome of backupVolume. */
  ghost predicate Reports(r: Result<M.Volume, Error>, name: string, verdict: P.Verdict, added: Added) {
    match verdict
    case HelperError => r == Err(HelperFailed(name))
    case WriterError => r == Err(DiskFailed)
    case ExitError(code) => r == Err(HelperExit(name, code))
    case Stored(_) =>
      r.Ok? && r.value.name == name && added.entry == Some(r.value.archive) && r.value.sizeBytes == added.plain
  }

  /** The same codec, except that this one stream is read in these pieces. */
  function Chopped(k: Codec, stream: Bytes, n: nat, pieces: seq<Bytes>): Codec {
    k.(chop := (b: Bytes, i: nat) => if b == stream && i == n then pieces else k.chop(b, i))
  }

  lemma ChoppedIsLawful(k: Codec, stream: Bytes, n: nat, pieces: seq<Bytes>)
    requires Lawful(k) && Concat(pieces) == stream
    ensures Lawful(Chopped(k, stream, n, pieces)) && Chopped(k, stream, n, pieces).chop(stream, n) == pieces
  {
    hide HeaderLaw, ParseLaw, TarLaw, ZstdLaw, YamlLaw, HashLaw, ChopLaw;
    var k' := Chopped(k, stream, n, pieces);
    SameFormats(k, k');
    SameHeaders(k, k');
    ChopsToo(k, stream, n, pieces);
  }

  lemma ChopsToo(k: Codec, stream: Bytes, n: nat, pieces: seq<Bytes>)
    requires ChopLaw(k) && Concat(pieces) == stream
    ensures ChopLaw(Chopped(k, stream, n, pieces))
  {
  }

  lemma SameFormats(k: Codec, k': Codec)
    requires k' == k.(chop := k'.chop) && TarLaw(k) && ZstdLaw(k) && YamlLaw(k) && HashLaw(k)
    ensures TarLaw(k') && ZstdLaw(k') && YamlLaw(k') && HashLaw(k')
  {
  }

  lemma SameHeaders(k: Codec, k': Codec)
    requires k' == k.(chop := k'.chop) && ParseLaw(k) && HeaderLaw(k)
    ensures ParseLaw(k') && HeaderLaw(k')
  {
    hide KnownName, ZeroBlock;
    assert k'.parse == k.parse && k'.header == k.header && k'.content == k.content;
  }

  lemma {:induction false} CompressSame(k: Codec, stream: Bytes, n: nat, pieces: seq<Bytes>, fs: Disk.Fs, tmp: string,
                                        src: Source, i: nat)
    requires i <= |src.chunks|
    ensures CompressSpec(Chopped(k, stream, n, pieces), fs, tmp, src, i) == CompressSpec(k, fs, tmp, src, i)
    decreases |src.chunks| - i
  {
    if i < |src.chunks| {
      var out := Fresh(k.squeeze(src.chunks[..i]), k.squeeze(src.chunks[..i + 1]));
      CompressSame(k, stream, n, pieces, Disk.AppendSpec(fs, tmp, out).0, tmp, src, i + 1);
    }
  }

  lemma AddVolumeSame(k: Codec, stream: Bytes, n: nat, pieces: seq<Bytes>, fs: Disk.Fs, partial: string, name: string,
                      src: Source)
    ensures AddVolumeSpec(Chopped(k, stream, n, pieces), fs, partial, name, src)
            == AddVolumeSpec(k, fs, partial, name, src)
  {
    hide CompressSpec, M.ValidName, M.VolumePath;
    var (fs1, tmp) := Disk.TempSpec(fs);
    if M.ValidName(name) && tmp.Some? {
      var fs2 := Disk.AttemptSpec(Disk.AttemptSpec(fs1, Disk.Chmod(tmp.value)).0, Disk.StartEncoder).0;
      CompressSame(k, stream, n, pieces, fs2, tmp.value, src, 0);
    }
  }

  /** Every finished interleaving of backupVolume, whatever failed and wherever, is one that BackupVolumeSpec allows for
      some fault of the helper and some way of cutting the stream into reads: the same verdict, and on success the same
      entry. In particular a disk error that breaks the helper's pipe is an ordinary helper error. */
  lemma BackupVolumeRefines(k: Codec, h: Host, fs: Disk.Fs, partial: string, v: Volume, containers: seq<Container>,
                            states: seq<P.State>, i: nat)
    returns (f: Fault, k': Codec)
    requires Lawful(k) && v.name in h.volumes && v.name in h.data
    requires P.Path(states) && i < |states| && states[i].reader.Returned? && states[i].writer.Sent?
    requires states[i].code == 0 && Quiet(h, v.name) ==> Concat(states[i].emit) == k.pack(h.data[v.name])
    requires DiskDecides(k, fs, partial, v.name, states[i])
    ensures var s := states[i];
            var added := AddVolumeSpec(k, fs, partial, v.name, Source(s.pieces, s.writer.end.Broke?));
            var one := B.BackupVolumeSpec(k', WithFault(h, f), fs, partial, s.noStop, v, containers);
            && Lawful(k') && k' == k.(chop := k'.chop)
            && (f.fails <==> s.writer.end.Broke?) && (!f.fails ==> f.exit == s.code)
            && one.fs == added.fs
            && Reports(one.volume, v.name, s.reader.result, added)
  {
    hide Lawful, AddVolumeSpec, Quiet;
    var s, n := states[i], |h.calls|;
    P.Finished(states, i);
    f := Fault(s.writer.end.Broke?, if s.writer.end.Exited? then s.code else 0, map[], Concat(s.pieces), false);
    k' := Chopped(k, Concat(s.pieces), n, s.pieces);
    ChoppedIsLawful(k, Concat(s.pieces), n, s.pieces);
    MeetsFault(h, f);
    var h' := WithFault(h, f);
    var run := HelperSpec(k', h', v.name, Pack);
    assert run.stdout == Concat(s.pieces);
    assert run.result == if s.writer.end.Broke? then Broke else Exit(s.code);
    AddVolumeSame(k, Concat(s.pieces), n, s.pieces, fs, partial, v.name, Source(s.pieces, s.writer.end.Broke?));
  }
}
