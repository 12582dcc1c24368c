/** What a backup may not do, and what it must have done before it may report success. */
module BackupDuties {
  import opened Common
  import opened Codecs
  import opened Docker
  import opened Traces
  import opened Disk
  import opened ArchiveWriter
  import opened Backup
  import opened Sorting
  import M = Manifests
  import A = Archive
  import S = Stopper
  import Selection

  // ---------- whom it stops ----------

  /** A container with this id may be writing to one of the volumes. */
  ghost predicate WritesTo(cs: seq<Container>, id: string, vols: seq<Volume>) {
    exists c, v :: c in cs && c.id == id && v in vols && c.Writes(v.name)
  }

  lemma UsersWrite(vols: seq<Volume>, cs: seq<Container>, id: string)
    requires S.InUseIn(S.UsersOfSpec(Names(vols), cs), id)
    ensures WritesTo(cs, id, vols)
  {
    hide S.UsersOfSpec;
    S.UsersOfFacts(Names(vols), cs);
    var c :| c in S.UsersOfSpec(Names(vols), cs) && c.InUse() && c.id == id;
    var name :| name in Names(vols) && c.UsesVolume(name);
    var i :| 0 <= i < |vols| && Names(vols)[i] == name;
    WritersAreFound(name);
    assert vols[i] in vols && c.Writes(vols[i].name);
  }

  ghost predicate StopsOnly(calls: seq<Call>, noStop: bool, cs: seq<Container>, vols: seq<Volume>) {
    forall c :: c in calls && c.Stop? ==> !noStop && WritesTo(cs, c.id, vols)
  }

  lemma ArchivingStops(k: Codec, h: Host, fs: Fs, opts: Options, vols: seq<Volume>)
    ensures var out := ArchivingSpec(k, h, fs, opts, vols);
            && Extends(h, out.host)
            && StopsOnly(Delta(h, out.host), opts.noStop, h.containers, vols)
            && (opts.noStop ==> Calm(Delta(h, out.host)) && out.restartErrors == [])
  {
    hide WorkSpec, S.StopAllSpec, S.RestartSpec, S.UsersOfSpec, SameContainers, S.InUseIn, WritesTo, Quiet;
    var cs := ToStop(opts, vols, h.containers);
    var stop := S.StopAllSpec(h, cs, {});
    S.StopBasics(h, cs);
    S.StopsOnlyListed(h, cs, {});
    WorkHost(k, stop.host, fs, opts, vols, h.containers);
    var worked := if stop.err.Some? then stop.host else WorkSpec(k, stop.host, fs, opts, vols, h.containers).host;
    assert Delta(stop.host, stop.host) == [];
    assert Extends(stop.host, worked) && Calm(Delta(stop.host, worked)) by {
      if stop.err.None? {
        OnlyPackedIsCalm(k, stop.host, worked, Names(vols));
      } else {
        SameExtends(stop.host);
      }
    }
    S.RestartBasics(worked, stop.added);
    var restart := S.RestartSpec(worked, stop.added);
    DeltaTrans(h, stop.host, worked);
    DeltaTrans(h, worked, restart.host);
    forall c | c in Delta(h, restart.host) && c.Stop?
      ensures !opts.noStop && WritesTo(h.containers, c.id, vols)
    {
      assert c in Delta(h, stop.host);
      var i :| 0 <= i < |Delta(h, stop.host)| && Delta(h, stop.host)[i] == c;
      assert stop.host.calls[|h.calls| + i] == c;
      NobodyListed(cs, c.id);
      UsersWrite(vols, h.containers, c.id);
    }
    if opts.noStop {
      NothingToStop(h);
      NothingToStart(worked);
      assert restart.host.calls == worked.calls;
    }
  }

  lemma SameExtends(h: Host)
    ensures Extends(h, h)
  {
  }

  lemma NobodyListed(cs: seq<Container>, id: string)
    requires S.InUseIn(cs, id)
    ensures cs != []
  {
  }

  lemma NothingToStart(h: Host)
    ensures S.RestartSpec(h, []) == S.Restarts(h, [])
  {
  }

  /** With --no-stop no container is stopped or started. Without it, only containers are stopped that may be writing to
      a selected volume. */
  lemma BackupStops(k: Codec, h: Host, fs: Fs, opts: Options)
    ensures var out := Backup.RunSpec(k, h, fs, opts);
            var selected := Selection.VolumesSpec(VolumeList(h.volumes, h.order), opts.names, opts.projects);
            && Extends(h, out.host)
            && (opts.noStop ==> Calm(Delta(h, out.host)) && out.restartErrors == [])
            && forall id, ok :: Stop(id, ok) in Delta(h, out.host) ==>
                 !opts.noStop && selected.Ok? && WritesTo(h.containers, id, selected.value)
  {
    hide ArchivingSpec, PreflightSpec, NewWriterSpec, SameContainers, Selection.VolumesSpec, VolumeList, WritesTo;
    var ready := PreflightSpec(h, opts);
    PreflightFacts(h, opts);
    SameExtends(h);
    assert Delta(h, h) == [];
    var (fs1, created) := NewWriterSpec(fs, opts.final);
    if !opts.cancelled && ready.selected.Ok? && created {
      var vols := ready.selected.value;
      ArchivingStops(k, ready.host, fs1, opts, vols);
      var out := ArchivingSpec(k, ready.host, fs1, opts, vols);
      DeltaTrans(h, ready.host, out.host);
      assert Delta(h, out.host) == Delta(h, ready.host) + Delta(ready.host, out.host);
    }
  }

  /** A backup that cannot begin leaves everything as it is: it has only asked questions, and not even that if it was
      cancelled before. */
  lemma RefusedTouchesNothing(k: Codec, h: Host, fs: Fs, opts: Options)
    requires || opts.cancelled
             || Selection.VolumesSpec(VolumeList(h.volumes, h.order), opts.names, opts.projects).Err?
             || opts.final + PARTIAL_SUFFIX in fs.files
             || (opts.final in fs.files && !Disk.Fate(fs).fails)
    ensures var out := Backup.RunSpec(k, h, fs, opts);
            && out.err.Some? && out.restartErrors == [] && out.fs.files == fs.files
            && Extends(h, out.host) && out.host == h.(calls := out.host.calls)
            && (forall c :: c in Delta(h, out.host) ==> c.Ask?)
            && (opts.cancelled ==> out.host == h && out.fs == fs && out.err == Some(Cancelled))
  {
    hide ArchivingSpec, PreflightSpec, Selection.VolumesSpec, VolumeList, SameContainers;
    PreflightFacts(h, opts);
    SameExtends(h);
    assert Delta(h, h) == [];
  }

  // ---------- what it must have asked ----------

  /** A backup that succeeds has first been told about the host, the image, the volumes and the containers; only the
      question for sizes may go unanswered. No later question went unanswered either. */
  lemma BackupAsked(k: Codec, h: Host, fs: Fs, opts: Options)
    requires Backup.RunSpec(k, h, fs, opts).err.None?
    ensures var out := Backup.RunSpec(k, h, fs, opts);
            && Extends(h, out.host) && |Delta(h, out.host)| >= 5
            && Delta(h, out.host)[..4]
               == [Ask(Info, true), Ask(EnsureImage, true), Ask(ListVolumes, true), Ask(ListContainers, true)]
            && (exists ok :: Delta(h, out.host)[4] == Ask(VolumeSizes, ok))
            && forall q, ok :: Ask(q, ok) in Delta(h, out.host)[5..] ==> ok && q.StartedAt?
  {
    hide ArchivingSpec, NewWriterSpec, SameContainers, Selection.VolumesSpec, VolumeList;
    var ready := PreflightSpec(h, opts);
    PreflightAsks(h, opts);
    PreflightFacts(h, opts);
    hide PreflightSpec;
    var (fs1, created) := NewWriterSpec(fs, opts.final);
    var vols := ready.selected.value;
    ArchivingAsks(k, ready.host, fs1, opts, vols);
    DeltaTrans(h, ready.host, ArchivingSpec(k, ready.host, fs1, opts, vols).host);
  }

  lemma PreflightAsks(h: Host, opts: Options)
    requires PreflightSpec(h, opts).selected.Ok?
    ensures var end := PreflightSpec(h, opts).host;
            exists ok :: end.calls == h.calls + [Ask(Info, true), Ask(EnsureImage, true), Ask(ListVolumes, true),
                                                 Ask(ListContainers, true), Ask(VolumeSizes, ok)]
  {
    hide Selection.VolumesSpec, VolumeList;
    var h1 := AskSpec(h, Info).0;
    var h2 := AskSpec(h1, EnsureImage).0;
    var h3 := AskSpec(h2, ListVolumes).0;
    var h4 := AskSpec(h3, ListContainers).0;
    var (h5, ok) := AskSpec(h4, VolumeSizes);
    assert h5.calls == h.calls + [Ask(Info, true), Ask(EnsureImage, true), Ask(ListVolumes, true),
                                  Ask(ListContainers, true), Ask(VolumeSizes, ok)];
  }

  lemma ArchivingAsks(k: Codec, h: Host, fs: Fs, opts: Options, vols: seq<Volume>)
    requires ArchivingSpec(k, h, fs, opts, vols).err.None?
    ensures var out := ArchivingSpec(k, h, fs, opts, vols);
            Extends(h, out.host) && forall q, ok :: Ask(q, ok) in Delta(h, out.host) ==> ok && q.StartedAt?
  {
    hide WorkSpec, S.StopAllSpec, S.RestartSpec, ToStop, SameContainers, Quiet;
    var cs := ToStop(opts, vols, h.containers);
    var stop := S.StopAllSpec(h, cs, {});
    S.StopBasics(h, cs);
    var at, last := S.StopAllTrace(h, cs, {});
    S.StopTraceAsks(stop.added);
    assert Delta(h, stop.host) == S.StopTrace(stop.added) by {
      assert S.StopTrace(stop.added) + [] == S.StopTrace(stop.added);
    }
    var work := WorkSpec(k, stop.host, fs, opts, vols, h.containers);
    WorkHost(k, stop.host, fs, opts, vols, h.containers);
    S.RestartBasics(work.host, stop.added);
    DeltaTrans(h, stop.host, work.host);
    DeltaTrans(h, work.host, S.RestartSpec(work.host, stop.added).host);
  }

  // ---------- in which order ----------

  /** The helper runs of any backup are pack runs of the first selected volumes, in order. All but the last were
      accepted: the first refused one ends the backup. */
  ghost predicate PacksInOrder(calls: seq<Call>, vols: seq<Volume>, noStop: bool) {
    && |HelperRuns(calls)| <= |vols|
    && forall i :: 0 <= i < |HelperRuns(calls)| ==>
         var c := HelperRuns(calls)[i];
         && c.Helper? && c.kind == Pack && c.volume == vols[i].name
         && (i < |HelperRuns(calls)| - 1 ==> c.result in (if noStop then {Exit(0), Exit(1)} else {Exit(0)}))
  }

  lemma {:induction false} BackupAllInOrder(k: Codec, h: Host, fs: Fs, partial: string, noStop: bool, vols: seq<Volume>,
                                            containers: seq<Container>)
    ensures var all := BackupAllSpec(k, h, fs, partial, noStop, vols, containers);
            Extends(h, all.host) && PacksInOrder(Delta(h, all.host), vols, noStop)
    decreases |vols|
  {
    hide HelperSpec, AddVolumeSpec, Quiet, SameContainers;
    if vols == [] {
      SameExtends(h);
      assert Delta(h, h) == [];
    } else {
      var one := BackupVolumeSpec(k, h, fs, partial, noStop, vols[0], containers);
      PackKeepsHost(k, h, vols[0].name);
      var call := Delta(h, one.host)[0];
      assert Delta(h, one.host) == [call];
      assert HelperRuns([call]) == [call] by { assert [call][1..] == []; }
      if one.volume.Ok? {
        var rest := BackupAllSpec(k, one.host, one.fs, partial, noStop, vols[1..], containers);
        BackupAllInOrder(k, one.host, one.fs, partial, noStop, vols[1..], containers);
        DeltaTrans(h, one.host, rest.host);
        HelperRunsConcat([call], Delta(one.host, rest.host));
        assert HelperRuns(Delta(h, rest.host)) == [call] + HelperRuns(Delta(one.host, rest.host));
      }
    }
  }

  lemma BackupInOrder(k: Codec, h: Host, fs: Fs, opts: Options)
    ensures var out := Backup.RunSpec(k, h, fs, opts);
            var selected := Selection.VolumesSpec(VolumeList(h.volumes, h.order), opts.names, opts.projects);
            && Extends(h, out.host)
            && PacksInOrder(Delta(h, out.host), if selected.Ok? then selected.value else [], opts.noStop)
  {
    hide ArchivingSpec, PreflightSpec, NewWriterSpec, SameContainers, Selection.VolumesSpec, VolumeList, PacksInOrder;
    var ready := PreflightSpec(h, opts);
    PreflightFacts(h, opts);
    SameExtends(h);
    assert Delta(h, h) == [];
    AllOrNoHelpers(Delta(h, ready.host));
    AllOrNoHelpers([]);
    NothingPacked(Delta(h, ready.host), opts);
    NothingPacked([], opts);
    var (fs1, created) := NewWriterSpec(fs, opts.final);
    if !opts.cancelled && ready.selected.Ok? && created {
      var vols := ready.selected.value;
      ArchivingInOrder(k, ready.host, fs1, opts, vols);
      var out := ArchivingSpec(k, ready.host, fs1, opts, vols);
      DeltaTrans(h, ready.host, out.host);
      HelperRunsConcat(Delta(h, ready.host), Delta(ready.host, out.host));
      SameRuns(Delta(ready.host, out.host), Delta(h, out.host), vols, opts.noStop);
    }
  }

  lemma NothingPacked(calls: seq<Call>, opts: Options)
    requires HelperRuns(calls) == []
    ensures forall vols :: PacksInOrder(calls, vols, opts.noStop)
  {
  }

  lemma SameRuns(calls: seq<Call>, calls': seq<Call>, vols: seq<Volume>, noStop: bool)
    requires PacksInOrder(calls, vols, noStop) && HelperRuns(calls') == HelperRuns(calls)
    ensures PacksInOrder(calls', vols, noStop)
  {
  }

  lemma ArchivingInOrder(k: Codec, h: Host, fs: Fs, opts: Options, vols: seq<Volume>)
    ensures var out := ArchivingSpec(k, h, fs, opts, vols);
            Extends(h, out.host) && PacksInOrder(Delta(h, out.host), vols, opts.noStop)
  {
    hide BackupAllSpec, FinishSpec, S.StopAllSpec, S.RestartSpec, ToStop, SameContainers, Quiet, PacksInOrder,
      HelperRuns;
    var cs := ToStop(opts, vols, h.containers);
    var stop := S.StopAllSpec(h, cs, {});
    S.StopBasics(h, cs);
    S.StopAllNoHelper(h, cs);
    SameExtends(stop.host);
    assert Delta(stop.host, stop.host) == [];
    AllOrNoHelpers([]);
    NothingPacked([], opts);
    var worked := if stop.err.Some? then stop.host else WorkSpec(k, stop.host, fs, opts, vols, h.containers).host;
    BackupAllInOrder(k, stop.host, fs, opts.final + PARTIAL_SUFFIX, opts.noStop, vols, h.containers);
    RestartRunsNoHelper(worked, stop.added);
    var end := S.RestartSpec(worked, stop.added).host;
    DeltaTrans(h, stop.host, worked);
    DeltaTrans(h, worked, end);
    AllOrNoHelpers(Delta(h, stop.host));
    AllOrNoHelpers(Delta(worked, end));
    HelperRunsConcat(Delta(h, stop.host), Delta(stop.host, worked));
    HelperRunsConcat(Delta(h, worked), Delta(worked, end));
    SameRuns(Delta(stop.host, worked), Delta(h, end), vols, opts.noStop);
  }

  // ---------- what it must have done on disk ----------

  lemma {:induction false} CompressWent(k: Codec, fs: Fs, tmp: string, src: Source, i: nat)
    requires i <= |src.chunks| && CompressSpec(k, fs, tmp, src, i).1
    ensures AllWent(fs, CompressSpec(k, fs, tmp, src, i).0)
    decreases |src.chunks| - i
  {
    if i < |src.chunks| {
      var next := AppendSpec(fs, tmp, Fresh(k.squeeze(src.chunks[..i]), k.squeeze(src.chunks[..i + 1]))).0;
      CompressWent(k, next, tmp, src, i + 1);
      AllWentTrans(fs, next, CompressSpec(k, fs, tmp, src, i).0);
    }
  }

  lemma AddEntryWent(k: Codec, fs: Fs, path: string, name: string, size: nat, data: Bytes)
    requires AddEntrySpec(k, fs, path, name, size, data).1
    ensures AllWent(fs, AddEntrySpec(k, fs, path, name, size, data).0)
  {
  }

  /** A volume that was stored: a temporary file was made, protected, written, read back and removed, and everything but
      perhaps the removal went well. */
  lemma AddVolumeWent(k: Codec, fs: Fs, partial: string, name: string, src: Source)
    requires AddVolumeSpec(k, fs, partial, name, src).entry.Some?
    ensures var fs' := AddVolumeSpec(k, fs, partial, name, src).fs; var n := |fs.log|;
            && AllWent(fs, fs') && |fs'.log| >= n + 4 && fs'.log[n] == Done(MakeTemp, true)
            && exists tmp, ok ::
                 && fs'.log[n + 1] == Done(Chmod(tmp), true) && Done(Rewind(tmp), true) in fs'.log
                 && fs'.log[|fs'.log| - 1] == Done(Delete(tmp), ok)
  {
    hide CompressSpec, AddEntrySpec, M.ValidName, M.VolumePath;
    var (fs0, temp) := TempSpec(fs);
    var tmp := temp.value;
    var fs1 := AttemptSpec(fs0, Chmod(tmp)).0;
    var fs2 := AttemptSpec(fs1, StartEncoder).0;
    var fs3 := CompressSpec(k, fs2, tmp, src, 0).0;
    CompressWent(k, fs2, tmp, src, 0);
    var fs4 := AttemptSpec(fs3, Rewind(tmp)).0;
    var z := k.finish(src.chunks);
    AddEntryWent(k, fs4, partial, M.VolumePath(name), |z|, Held(fs4, tmp));
    var fs5 := AddEntrySpec(k, fs4, partial, M.VolumePath(name), |z|, Held(fs4, tmp)).0;
    var (fs6, ok) := RemoveSpec(fs5, tmp);
    assert AddVolumeSpec(k, fs, partial, name, src).fs == fs6;
    assert fs2.log == fs.log + [Done(MakeTemp, true), Done(Chmod(tmp), true), Done(StartEncoder, true)];
    AllWentTrans(fs, fs2, fs3);
    AllWentTrans(fs, fs3, fs4);
    AllWentTrans(fs, fs4, fs5);
    AllWentTrans(fs, fs5, fs6);
    LogKept(fs, fs2, fs6);
    assert fs4.log[|fs3.log|] == Done(Rewind(tmp), true) && fs4.log <= fs6.log;
    assert fs6.log[|fs3.log|] == Done(Rewind(tmp), true);
    assert fs6.log[|fs6.log| - 1] == Done(Delete(tmp), ok);
  }

  lemma LogKept(a: Fs, b: Fs, c: Fs)
    requires AllWent(a, b) && b.log <= c.log
    ensures forall i :: |a.log| <= i < |b.log| ==> c.log[i] == b.log[i]
  {
  }

  /** An archive that was finished: rendered and written, then synced, closed and renamed, and all of it went well. */
  lemma FinishWent(k: Codec, fs: Fs, partial: string, final: string, m: M.Manifest)
    requires FinishSpec(k, fs, partial, final, m).1
    ensures var fs' := FinishSpec(k, fs, partial, final, m).0;
            && AllWent(fs, fs') && EndsDurably(fs', partial, final) && |fs'.log| >= |fs.log| + 4
            && fs'.log[|fs.log|] == Done(Render, true)
  {
    hide AddEntrySpec;
    var fs1 := AttemptSpec(fs, Render).0;
    AddEntryWent(k, fs1, partial, M.MANIFEST_PATH, |k.yaml(m)|, k.yaml(m));
    var fs2 := AddEntrySpec(k, fs1, partial, M.MANIFEST_PATH, |k.yaml(m)|, k.yaml(m)).0;
    AddEntryWent(k, fs2, partial, M.README_PATH, |k.readme(m)|, k.readme(m));
    var fs3 := AddEntrySpec(k, fs2, partial, M.README_PATH, |k.readme(m)|, k.readme(m)).0;
    var fs4 := AppendSpec(fs3, partial, A.TRAILER).0;
    var fs5 := AttemptSpec(fs4, Sync(partial)).0;
    var fs6 := AttemptSpec(fs5, CloseFile(partial)).0;
    var fs7 := RenameSpec(fs6, partial, final).0;
    AllWentTrans(fs, fs1, fs2);
    AllWentTrans(fs, fs2, fs3);
    AllWentTrans(fs, fs3, fs4);
    AllWentTrans(fs, fs4, fs5);
    AllWentTrans(fs, fs5, fs6);
    AllWentTrans(fs, fs6, fs7);
    LogKept(fs, fs1, fs7);
  }

  /** The last three operations: the file is on disk before it gets its name. */
  ghost predicate EndsDurably(fs: Fs, partial: string, final: string) {
    && |fs.log| >= 3
    && fs.log[|fs.log| - 3..]
       == [Done(Sync(partial), true), Done(CloseFile(partial), true), Done(Move(partial, final), true)]
  }

  lemma {:induction false} BackupAllWent(k: Codec, h: Host, fs: Fs, partial: string, noStop: bool, vols: seq<Volume>,
                                         containers: seq<Container>)
    requires BackupAllSpec(k, h, fs, partial, noStop, vols, containers).err.None?
    ensures AllWent(fs, BackupAllSpec(k, h, fs, partial, noStop, vols, containers).fs)
    decreases |vols|
  {
    hide HelperSpec, AddVolumeSpec, M.ValidName;
    if vols != [] {
      var run := HelperSpec(k, h, vols[0].name, Pack);
      var one := BackupVolumeSpec(k, h, fs, partial, noStop, vols[0], containers);
      AddVolumeWent(k, fs, partial, vols[0].name, Source(k.chop(run.stdout, |h.calls|), run.result.Broke?));
      BackupAllWent(k, one.host, one.fs, partial, noStop, vols[1..], containers);
      AllWentTrans(fs, one.fs, BackupAllSpec(k, one.host, one.fs, partial, noStop, vols[1..], containers).fs);
    }
  }

  /** A backup that succeeds has looked for the final file and made the unfinished one; from then on every file
      operation but perhaps removals went well, and the last ones synced, closed and renamed the archive. */
  lemma BackupWent(k: Codec, h: Host, fs: Fs, opts: Options)
    requires Backup.RunSpec(k, h, fs, opts).err.None?
    ensures var out := Backup.RunSpec(k, h, fs, opts); var n, partial := |fs.log|, opts.final + PARTIAL_SUFFIX;
            && fs.log <= out.fs.log && |out.fs.log| >= n + 5
            && (exists ok :: out.fs.log[n] == Done(Look(opts.final), ok))
               && out.fs.log[n + 1] == Done(MakeNew(partial), true)
            && (forall d :: d in out.fs.log[n + 1..] ==> d.ok || d.op.Delete?)
            && EndsDurably(out.fs, partial, opts.final)
  {
    hide BackupAllSpec, FinishSpec, PreflightSpec, S.StopAllSpec, S.RestartSpec, ToStop;
    var partial, ready := opts.final + PARTIAL_SUFFIX, PreflightSpec(h, opts);
    var vols, hp := ready.selected.value, ready.host;
    var (fs1, created) := NewWriterSpec(fs, opts.final);
    var stop := S.StopAllSpec(hp, ToStop(opts, vols, hp.containers), {});
    var all := BackupAllSpec(k, stop.host, fs1, partial, opts.noStop, vols, hp.containers);
    BackupAllWent(k, stop.host, fs1, partial, opts.noStop, vols, hp.containers);
    FinishWent(k, all.fs, partial, opts.final, Described(opts, all.volumes));
    var end := FinishSpec(k, all.fs, partial, opts.final, Described(opts, all.volumes)).0;
    AllWentTrans(fs1, all.fs, end);
    assert fs1.log == fs.log + [fs1.log[|fs.log|], Done(MakeNew(partial), true)];
    assert end.log[|fs.log| + 1..] == [Done(MakeNew(partial), true)] + end.log[|fs1.log|..];
  }
}
