/** The pipe of backupVolume as interleaved steps: a goroutine in which the helper writes its stream, and AddVolume
    reading it (internal/backup/backup.go, with the blocking behaviour of io.Pipe). */
module PipeProtocol {
  import opened Common
  import opened Codecs
  import opened ArchiveWriter
  import opened Disk
  import A = Archive
  import M = Manifests

  /** How RunHelper ended: with an error, or with an exit code. */
  datatype End = Broke | Exited(code: int)

  /** The helper's goroutine: about to make its n-th write, blocked in it, about to close the pipe, or done. */
  datatype WriterPc = Running(n: nat) | Blocked(n: nat) | Finishing(end: End) | Sent(end: End)

  /** backupVolume itself: AddVolume before its first read, in its copy loop, after the end of the stream; then, after
      an error, closing the read side; then waiting for the helper's outcome. */
  datatype ReaderPc = Starting | Copying | Storing | Unblocking | Waiting(stored: bool) | Returned(result: Verdict)

  datatype Verdict = HelperError | WriterError | ExitError(code: int) | Stored(code: int)

  datatype PipeEnd = Open | Eof | Failed

  /** emit is what the helper writes, one chunk per write; pieces is what AddVolume got, one chunk per read; offer is
      the part of the current write that has not been read yet. */
  datatype State = State(emit: seq<Bytes>, code: int, noStop: bool, writer: WriterPc, reader: ReaderPc,
                         offer: Option<Bytes>, pipe: PipeEnd, readerGone: bool, pieces: seq<Bytes>)

  ghost predicate Init(s: State) {
    && s.writer == Running(0) && s.reader == Starting
    && s.offer == None && s.pipe == Open && !s.readerGone && s.pieces == []
  }

  /** The helper's error comes first, then the writer's, then an exit code that is not accepted. */
  function Decide(s: State, end: End, stored: bool): Verdict {
    if end.Broke? then HelperError
    else if !stored then WriterError
    else if end.code == 0 || (end.code == 1 && s.noStop) then Stored(end.code)
    else ExitError(end.code)
  }

  /** A write blocks until it is read completely or the read side is closed. Between writes the helper may fail. */
  ghost predicate WriterStep(s: State, s': State) {
    match s.writer
    case Running(n) =>
      if n < |s.emit| then !s.readerGone && s' == s.(writer := WriterPc.Blocked(n), offer := Some(s.emit[n]))
      else s' == s.(writer := Finishing(Exited(s.code)))
    case Blocked(n) =>
      if s.offer.None? then s' == s.(writer := Running(n + 1))
      else s.readerGone && s' == s.(writer := Finishing(Broke), offer := None)
    case Finishing(end) => s' == s.(writer := Sent(end), pipe := if end.Broke? then Failed else Eof)
    case Sent(_) => false
  }

  /** AddVolume reads some of the offered bytes, or sees the end or the error of the pipe. */
  ghost predicate ReaderStep(s: State, s': State) {
    match s.reader
    case Starting => s' == s.(reader := Copying)
    case Copying =>
      if s.offer.Some? then exists m: nat :: ReadStep(s, s', m)
      else (s.pipe.Eof? && s' == s.(reader := Storing)) || (s.pipe.Failed? && s' == s.(reader := Unblocking))
    case Storing => s' == s.(reader := Waiting(true))
    case Unblocking => s' == s.(reader := Waiting(false), readerGone := true)
    case Waiting(stored) => s.writer.Sent? && s' == s.(reader := Returned(Decide(s, s.writer.end, stored)))
    case Returned(_) => false
  }

  /** Something fails of its own accord: the helper between two writes (or its next write, once the read side is
      closed), or AddVolume anywhere. */
  ghost predicate FaultStep(s: State, s': State) {
    || (s.writer.Running? && s' == s.(writer := Finishing(Broke)))
    || ((s.reader.Starting? || s.reader.Copying? || s.reader.Storing?) && s' == s.(reader := Unblocking))
  }

  ghost predicate ReadStep(s: State, s': State, m: nat)
    requires s.offer.Some?
  {
    var c := s.offer.value;
    && m <= |c| && (m > 0 || c == [])
    && s' == s.(pieces := s.pieces + [c[..m]], offer := if m == |c| then None else Some(c[m..]))
  }

  ghost predicate Next(s: State, s': State) {
    WriterStep(s, s') || ReaderStep(s, s') || FaultStep(s, s')
  }

  // ---------- what has been read ----------

  /** The number of complete writes. */
  function Written(s: State): nat {
    match s.writer
    case Running(n) => n
    case Blocked(n) => if s.offer.None? then n + 1 else n
    case _ => |s.emit|
  }

  ghost predicate Inv(s: State) {
    && (s.writer.Running? ==> s.writer.n <= |s.emit| && s.offer.None? && s.pipe.Open?)
    && (s.writer.Blocked? ==> s.writer.n < |s.emit| && s.pipe.Open?)
    && (s.writer.Finishing? ==> s.offer.None? && s.pipe.Open?)
    && (s.writer.Sent? ==> s.offer.None? && s.pipe == if s.writer.end.Broke? then Failed else Eof)
    && ((s.writer.Finishing? || s.writer.Sent?) && s.writer.end.Exited? ==> s.writer.end.code == s.code)
    && (s.readerGone ==> s.reader == Waiting(false) || s.reader.Returned?)
    && (s.reader == Waiting(false) ==> s.readerGone)
    && (!((s.writer.Finishing? || s.writer.Sent?) && s.writer.end.Broke?) ==> ReadSoFar(s))
    && (s.reader.Storing? || s.reader == Waiting(true) ==> s.writer == Sent(Exited(s.code)) && !s.readerGone)
    && (s.reader.Returned? ==>
          s.writer.Sent? && (s.reader.result == Decide(s, s.writer.end, true)
                             || s.reader.result == Decide(s, s.writer.end, false)))
    && (s.reader.Returned? && s.reader.result.Stored? ==>
          && s.writer == Sent(Exited(s.code)) && Concat(s.pieces) == Concat(s.emit)
          && s.reader.result.code == s.code && (s.code == 0 || (s.code == 1 && s.noStop)))
  }

  /** All complete writes have been read, and of the current one everything but the offer. */
  ghost predicate ReadSoFar(s: State) {
    && Written(s) <= |s.emit|
    && (s.offer.Some? ==> Written(s) < |s.emit|)
    && Concat(s.pieces) + (if s.offer.Some? then s.offer.value else [])
       == Concat(s.emit[..if s.offer.Some? then Written(s) + 1 else Written(s)])
  }

  lemma ReadKeeps(s: State, s': State, m: nat)
    requires Inv(s) && s.reader.Copying? && s.offer.Some? && ReadStep(s, s', m)
    ensures Inv(s')
  {
    var c := s.offer.value;
    ConcatSnoc(s.pieces, c[..m]);
    assert c == c[..m] + c[m..];
    assert s.writer.Blocked?;
    assert Concat(s.pieces) + c[..m] + c[m..] == Concat(s.pieces) + c;
  }

  lemma WriterKeeps(s: State, s': State)
    requires Inv(s) && WriterStep(s, s')
    ensures Inv(s')
  {
    if s.writer.Running? && s'.writer.Blocked? {
      var n := s.writer.n;
      ConcatSnoc(s.emit[..n], s.emit[n]);
      assert s.emit[..n + 1] == s.emit[..n] + [s.emit[n]];
      assert Concat(s.pieces) + [] == Concat(s.pieces);
    }
  }

  lemma ReaderKeeps(s: State, s': State)
    requires Inv(s) && ReaderStep(s, s')
    ensures Inv(s')
  {
    if s.reader.Copying? && s.offer.Some? && exists m: nat :: ReadStep(s, s', m) {
      var m: nat :| ReadStep(s, s', m);
      ReadKeeps(s, s', m);
    } else if s.reader == Waiting(true) {
      assert s.emit[..|s.emit|] == s.emit;
      assert Concat(s.pieces) + [] == Concat(s.pieces);
    }
  }

  // ---------- every run ends ----------

  /** Steps and bytes of the writes from the n-th on. */
  function Ahead(emit: seq<Bytes>, n: nat): nat
    decreases |emit| - n
  {
    if n >= |emit| then 0 else |emit[n]| + 3 + Ahead(emit, n + 1)
  }

  function WriterWork(s: State): nat {
    match s.writer
    case Running(n) => 3 + Ahead(s.emit, n)
    case Blocked(n) => 4 + (if s.offer.Some? then |s.offer.value| + 1 else 0) + Ahead(s.emit, n + 1)
    case Finishing(_) => 1
    case Sent(_) => 0
  }

  function ReaderWork(s: State): nat {
    match s.reader
    case Starting => 5
    case Copying => 4
    case Storing => 3
    case Unblocking => 2
    case Waiting(_) => 1
    case Returned(_) => 0
  }

  function Work(s: State): nat {
    WriterWork(s) + ReaderWork(s)
  }

  lemma FaultKeeps(s: State, s': State)
    requires Inv(s) && FaultStep(s, s')
    ensures Inv(s') && Work(s') < Work(s)
  {
  }

  lemma WriterWorks(s: State, s': State)
    requires Inv(s) && WriterStep(s, s')
    ensures Work(s') < Work(s)
  {
  }

  lemma ReaderWorks(s: State, s': State)
    requires Inv(s) && ReaderStep(s, s')
    ensures Work(s') < Work(s)
  {
    hide ReadSoFar;
  }

  lemma StepKeeps(s: State, s': State)
    requires Inv(s) && Next(s, s')
    ensures Inv(s') && Work(s') < Work(s)
  {
    hide Inv, WriterStep, ReaderStep, FaultStep, Work;
    if WriterStep(s, s') {
      WriterKeeps(s, s');
      WriterWorks(s, s');
    } else if ReaderStep(s, s') {
      ReaderKeeps(s, s');
      ReaderWorks(s, s');
    } else {
      FaultKeeps(s, s');
    }
  }

  /** Neither side can be left waiting for the other: until backupVolume returns and the helper's goroutine has ended,
      somebody can go on without anything failing, except that a helper whose reader has gone must fail its next
      write. */
  lemma NoDeadlock(s: State)
    requires Inv(s) && !(s.reader.Returned? && s.writer.Sent?)
    ensures (exists s' :: WriterStep(s, s') || ReaderStep(s, s')) || (s.readerGone && s.writer.Running?)
  {
    hide ReadSoFar;
    if s.reader.Copying? && s.offer.Some? {
      var c := s.offer.value;
      var s' := s.(pieces := s.pieces + [c[..|c|]], offer := None);
      assert ReadStep(s, s', |c|);
      assert ReaderStep(s, s');
    } else if s.reader.Copying? && s.pipe.Eof? {
      assert ReaderStep(s, s.(reader := Storing));
    } else if s.reader.Copying? && s.pipe.Failed? {
      assert ReaderStep(s, s.(reader := Unblocking));
    } else if s.reader.Copying? || (s.reader.Waiting? && !s.writer.Sent?) {
      WriterCanStep(s);
    } else if s.reader.Waiting? {
      assert ReaderStep(s, s.(reader := Returned(Decide(s, s.writer.end, s.reader.stored))));
    } else if s.reader.Starting? {
      assert ReaderStep(s, s.(reader := Copying));
    } else if s.reader.Storing? {
      assert ReaderStep(s, s.(reader := Waiting(true)));
    } else {
      assert ReaderStep(s, s.(reader := Waiting(false), readerGone := true));
    }
  }

  lemma WriterCanStep(s: State)
    requires Inv(s) && !s.writer.Sent? && (s.offer.Some? ==> s.readerGone)
    ensures (exists s' :: WriterStep(s, s')) || (s.readerGone && s.writer.Running?)
  {
    hide ReadSoFar;
    var s' := match s.writer
      case Running(n) =>
        if n < |s.emit| then s.(writer := WriterPc.Blocked(n), offer := Some(s.emit[n]))
        else s.(writer := Finishing(Exited(s.code)))
      case Blocked(n) =>
        if s.offer.None? then s.(writer := Running(n + 1))
        else s.(writer := Finishing(Broke), offer := None)
      case Finishing(end) => s.(writer := Sent(end), pipe := if end.Broke? then Failed else Eof)
      case Sent(end) => s;
    if !(s.readerGone && s.writer.Running?) {
      assert WriterStep(s, s');
    }
  }

  ghost predicate Path(states: seq<State>) {
    && states != [] && Init(states[0])
    && forall i :: 0 <= i < |states| - 1 ==> Next(states[i], states[i + 1])
  }

  lemma {:induction false} PathInv(states: seq<State>, i: nat)
    requires Path(states) && i < |states|
    ensures Inv(states[i]) && Work(states[i]) + i <= Work(states[0])
  {
    if i == 0 {
      assert states[0].emit[..0] == [];
    } else {
      PathInv(states, i - 1);
      assert Next(states[i - 1], states[i - 1 + 1]);
      StepKeeps(states[i - 1], states[i]);
    }
  }

  /** Termination, for every interleaving and every failure at any byte: a run has at most as many steps as bytes and
      writes allow, and where it cannot go on backupVolume has returned and the helper's goroutine has ended. */
  lemma RunsEnd(states: seq<State>)
    requires Path(states)
    ensures |states| <= Work(states[0]) + 1
    ensures var last := states[|states| - 1];
            (forall s' :: !Next(last, s')) ==> last.reader.Returned? && last.writer.Sent?
  {
    PathInv(states, |states| - 1);
    var last := states[|states| - 1];
    if !(last.reader.Returned? && last.writer.Sent?) {
      NoDeadlock(last);
      SomeStep(last);
    }
  }

  lemma SomeStep(s: State)
    requires (exists s' :: WriterStep(s, s') || ReaderStep(s, s')) || (s.readerGone && s.writer.Running?)
    ensures exists s' :: Next(s, s')
  {
    if exists s' :: WriterStep(s, s') || ReaderStep(s, s') {
      var s' :| WriterStep(s, s') || ReaderStep(s, s');
      assert Next(s, s');
    } else {
      assert Next(s, s.(writer := Finishing(Broke)));
    }
  }

  /** Without failures of their own both sides do their job: such a run, when it is over, has stored the stream, or
      reports the helper's exit code if that is not accepted. */
  lemma FaultFreeRunStores(states: seq<State>)
    requires Path(states) && (forall i :: 0 <= i < |states| - 1 ==> !FaultStep(states[i], states[i + 1]))
    requires states[|states| - 1].reader.Returned?
    ensures var s := states[|states| - 1];
            s.reader.result == if s.code == 0 || (s.code == 1 && s.noStop) then Stored(s.code) else ExitError(s.code)
  {
    FaultFreeInv(states, |states| - 1);
  }

  /** Nobody has failed. */
  ghost predicate Smooth(s: State) {
    && !s.readerGone && !s.pipe.Failed? && !s.reader.Unblocking?
    && (s.writer.Finishing? || s.writer.Sent? ==> s.writer.end == Exited(s.code))
    && (s.reader.Waiting? ==> s.reader.stored)
    && (s.reader.Returned? ==> s.reader.result == Decide(s, Exited(s.code), true))
  }

  lemma {:induction false} FaultFreeInv(states: seq<State>, i: nat)
    requires Path(states) && i < |states|
    requires forall j :: 0 <= j < |states| - 1 ==> !FaultStep(states[j], states[j + 1])
    ensures Inv(states[i]) && Smooth(states[i])
  {
    PathInv(states, i);
    if i != 0 {
      FaultFreeInv(states, i - 1);
      assert Next(states[i - 1], states[i - 1 + 1]) && !FaultStep(states[i - 1], states[i - 1 + 1]);
      SmoothStep(states[i - 1], states[i]);
    }
  }

  lemma SmoothStep(s: State, s': State)
    requires Inv(s) && Smooth(s) && (WriterStep(s, s') || ReaderStep(s, s'))
    ensures Smooth(s')
  {
    hide ReadSoFar;
  }

  /** The outcome of a finished run. The helper's error is reported exactly if the helper broke off; otherwise AddVolume
      read exactly the bytes it wrote, whether it could store them or not. */
  lemma Finished(states: seq<State>, i: nat)
    requires Path(states) && i < |states| && states[i].reader.Returned?
    ensures var s := states[i];
            && s.writer.Sent?
            && (s.reader.result.HelperError? <==> s.writer.end.Broke?)
            && (s.writer.end.Exited? ==> s.writer.end.code == s.code && Concat(s.pieces) == Concat(s.emit))
            && (s.reader.result.Stored? ==>
                  s.reader.result.code == s.code && (s.code == 0 || (s.code == 1 && s.noStop)))
            && (s.reader.result.ExitError? ==>
                  s.reader.result.code == s.code && s.code != 0 && !(s.code == 1 && s.noStop))
  {
    PathInv(states, i);
    var s := states[i];
    assert s.emit[..|s.emit|] == s.emit;
    assert Concat(s.pieces) + [] == Concat(s.pieces);
  }

  /** No truncated volume: if an entry is accepted, the helper exited with an accepted code, and the bytes AddVolume
      read, in whatever pieces, are exactly the bytes the helper wrote. */
  lemma StoredMeansAll(states: seq<State>, i: nat)
    requires Path(states) && i < |states|
    requires states[i].reader.Returned? && states[i].reader.result.Stored?
    ensures var s := states[i];
            && s.reader.result.code == s.code && (s.code == 0 || (s.code == 1 && s.noStop))
            && s.writer == Sent(Exited(s.code))
            && Concat(s.pieces) == Concat(s.emit)
  {
    PathInv(states, i);
  }

  /** What the archive then holds: the entry's size and checksum are those of the stored bytes, these decode to exactly
      the helper's stream, and the recorded data size is the length of that stream. */
  lemma StoredBytes(k: Codec, fs: Fs, partial: string, name: string, states: seq<State>, i: nat)
    requires Lawful(k) && partial in fs.files && Path(states) && i < |states|
    requires states[i].reader.Returned? && states[i].reader.result.Stored?
    requires AddVolumeSpec(k, fs, partial, name, Source(states[i].pieces, false)).entry.Some?
    ensures var stream := Concat(states[i].emit);
            var added := AddVolumeSpec(k, fs, partial, name, Source(states[i].pieces, false));
            var z := k.finish(states[i].pieces);
            && k.expand(z) == Some(stream) && added.plain == |stream|
            && added.entry.value == M.Entry(M.VolumePath(name), |z|, k.sha(z))
            && partial in added.fs.files
            && added.fs.files[partial] == fs.files[partial] + A.PrintItem(k, A.Item(M.VolumePath(name), z))
  {
    hide AddVolumeSpec, HeaderLaw, TarLaw, A.PrintItem, M.VolumePath, M.ValidName;
    StoredMeansAll(states, i);
    AddVolumeFacts(k, fs, partial, name, Source(states[i].pieces, false));
    assert k.expand(k.finish(states[i].pieces)) == Some(Concat(states[i].pieces));
  }
}
