/** When a backup succeeds: the other half of its promises. */
module BackupPromises {
  import opened Common
  import opened Codecs
  import opened Docker
  import opened Traces
  import opened Disk
  import opened ArchiveWriter
  import opened Backup
  import M = Manifests
  import A = Archive
  import S = Stopper
  import Selection
  import Sorting

  /** From now on every file operation works. */
  ghost predicate DiskWorks(fs: Fs) {
    |fs.faults| <= |fs.log|
  }

  /** The next file operation may fail, all later ones work. The first one of a backup looks for the final file. */
  ghost predicate OnlyStatCanFail(fs: Fs) {
    |fs.faults| <= |fs.log| + 1
  }

  // ---------- writing ----------

  lemma {:induction false} CompressAnswers(k: Codec, fs: Fs, tmp: string, src: Source, i: nat)
    requires DiskWorks(fs) && i <= |src.chunks| && !src.fails
    ensures var (fs', ok) := CompressSpec(k, fs, tmp, src, i); ok && DiskWorks(fs')
    decreases |src.chunks| - i
  {
    if i < |src.chunks| {
      var out := Fresh(k.squeeze(src.chunks[..i]), k.squeeze(src.chunks[..i + 1]));
      CompressAnswers(k, AppendSpec(fs, tmp, out).0, tmp, src, i + 1);
    }
  }

  lemma AddCompressedAnswers(k: Codec, fs: Fs, tmp: string, partial: string, name: string, src: Source)
    requires ZstdLaw(k) && DiskWorks(fs) && !src.fails
    requires tmp in fs.files && fs.files[tmp] == [] && tmp != partial
    ensures var r := AddCompressedSpec(k, fs, tmp, partial, name, src); r.entry.Some? && DiskWorks(r.fs)
  {
    hide CompressSpec, M.VolumePath;
    var fs2 := AttemptSpec(AttemptSpec(fs, Chmod(tmp)).0, StartEncoder).0;
    assert src.chunks[..0] == [];
    CompressFacts(k, fs2, tmp, src, 0);
    CompressAnswers(k, fs2, tmp, src, 0);
  }

  /** On a working disk a valid volume is stored, and the temporary name is free again. */
  lemma AddVolumeAnswers(k: Codec, fs: Fs, partial: string, name: string, src: Source)
    requires ZstdLaw(k) && DiskWorks(fs) && !src.fails && M.ValidName(name)
    requires partial in fs.files && Disk.NO_FAULT.temp !in fs.files
    ensures var r := AddVolumeSpec(k, fs, partial, name, src);
            r.entry.Some? && DiskWorks(r.fs) && partial in r.fs.files && Disk.NO_FAULT.temp !in r.fs.files
  {
    hide AddCompressedSpec, M.ValidName, ZstdLaw;
    var fs1, tmp := TempSpec(fs).0, Disk.NO_FAULT.temp;
    AddCompressedAnswers(k, fs1, tmp, partial, name, src);
    AddCompressedFacts(k, fs1, tmp, partial, name, src);
  }

  // ---------- one run ----------

  /** The exit code that a pack run may have besides 0. */
  function Tolerated(noStop: bool): set<int> {
    if noStop then {1} else {}
  }

  lemma PackAnswers(k: Codec, h: Host, volume: string, noStop: bool)
    requires Answers(h, Tolerated(noStop)) && volume in h.volumes && volume in h.data
    ensures var result := HelperSpec(k, h, volume, Pack).result; result == Exit(0) || (noStop && result == Exit(1))
  {
  }

  lemma {:induction false} BackupAllAnswers(k: Codec, h: Host, fs: Fs, partial: string, noStop: bool, vols: seq<Volume>,
                                            containers: seq<Container>)
    requires ZstdLaw(k) && Answers(h, Tolerated(noStop)) && DiskWorks(fs)
    requires partial in fs.files && Disk.NO_FAULT.temp !in fs.files
    requires forall v :: v in vols ==> v.name in h.volumes && v.name in h.data && M.ValidName(v.name)
    ensures var all := BackupAllSpec(k, h, fs, partial, noStop, vols, containers);
            all.err.None? && Answers(all.host, Tolerated(noStop)) && DiskWorks(all.fs) && partial in all.fs.files
    decreases |vols|
  {
    hide HelperSpec, AddVolumeSpec, ZstdLaw, M.ValidName, DiskWorks, Answers;
    if vols != [] {
      var v := vols[0];
      var run := HelperSpec(k, h, v.name, Pack);
      PackAnswers(k, h, v.name, noStop);
      PackKeepsHost(k, h, v.name);
      AnswersLater(h, run.host, Tolerated(noStop));
      AddVolumeAnswers(k, fs, partial, v.name, Source(k.chop(run.stdout, |h.calls|), run.result.Broke?));
      var one := BackupVolumeSpec(k, h, fs, partial, noStop, v, containers);
      BackupAllAnswers(k, one.host, one.fs, partial, noStop, vols[1..], containers);
    }
  }

  lemma WorkAnswers(k: Codec, h: Host, fs: Fs, opts: Options, vols: seq<Volume>, containers: seq<Container>)
    requires ZstdLaw(k) && Answers(h, Tolerated(opts.noStop)) && DiskWorks(fs)
    requires opts.final + PARTIAL_SUFFIX in fs.files && Disk.NO_FAULT.temp !in fs.files
    requires forall v :: v in vols ==> v.name in h.volumes && v.name in h.data && M.ValidName(v.name)
    ensures var work := WorkSpec(k, h, fs, opts, vols, containers);
            work.err.None? && Answers(work.host, Tolerated(opts.noStop))
  {
    hide BackupAllSpec, FinishSpec, ZstdLaw, M.ValidName;
    var partial := opts.final + PARTIAL_SUFFIX;
    BackupAllAnswers(k, h, fs, partial, opts.noStop, vols, containers);
    var all := BackupAllSpec(k, h, fs, partial, opts.noStop, vols, containers);
    NoFaultFinishes(k, all.fs, partial, opts.final, Described(opts, all.volumes));
  }

  /** Whatever becomes of the archive, a host that answers restarts everything. */
  lemma ArchivingRestarts(k: Codec, h: Host, fs: Fs, opts: Options, vols: seq<Volume>)
    requires Sound(h) && Answers(h, Tolerated(opts.noStop))
    ensures ArchivingSpec(k, h, fs, opts, vols).restartErrors == []
    ensures var stop := S.StopAllSpec(h, ToStop(opts, vols, h.containers), {});
            stop.err.None? && stop.host.volumes == h.volumes && stop.host.data == h.data
              && Answers(stop.host, Tolerated(opts.noStop))
  {
    hide WorkSpec, S.StopAllSpec, S.RestartSpec, M.ValidName;
    var cs := ToStop(opts, vols, h.containers);
    KnownUsers(h, opts, vols);
    S.StopAllAnswers(h, cs, {}, Tolerated(opts.noStop));
    S.StopAllFacts(h, cs, {});
    var stop := S.StopAllSpec(h, cs, {});
    AnswersLater(h, stop.host, Tolerated(opts.noStop));
    WorkHost(k, stop.host, fs, opts, vols, h.containers);
    AnswersLater(stop.host, WorkSpec(k, stop.host, fs, opts, vols, h.containers).host, Tolerated(opts.noStop));
    S.RestartAnswers(WorkSpec(k, stop.host, fs, opts, vols, h.containers).host, stop.added, Tolerated(opts.noStop));
  }

  lemma ArchivingAnswers(k: Codec, h: Host, fs: Fs, opts: Options, vols: seq<Volume>)
    requires ZstdLaw(k) && Sound(h) && Answers(h, Tolerated(opts.noStop)) && DiskWorks(fs)
    requires opts.final + PARTIAL_SUFFIX in fs.files && Disk.NO_FAULT.temp !in fs.files
    requires forall v :: v in vols ==> v.name in h.volumes && M.ValidName(v.name)
    ensures ArchivingSpec(k, h, fs, opts, vols).err.None?
  {
    hide WorkSpec, S.StopAllSpec, S.RestartSpec, ToStop, ZstdLaw, M.ValidName;
    ArchivingRestarts(k, h, fs, opts, vols);
    WorkAnswers(k, S.StopAllSpec(h, ToStop(opts, vols, h.containers), {}).host, fs, opts, vols, h.containers);
  }

  lemma KnownUsers(h: Host, opts: Options, vols: seq<Volume>)
    requires Sound(h)
    ensures forall c :: c in ToStop(opts, vols, h.containers) ==> c.id in h.startedAt
  {
    if !opts.noStop {
      S.UsersOfFacts(Names(vols), h.containers);
    }
  }

  /** The selection names something, and only what can be stored. */
  ghost predicate CanSelect(h: Host, opts: Options) {
    var selected := Selection.VolumesSpec(VolumeList(h.volumes, h.order), opts.names, opts.projects);
    selected.Ok? && forall v :: v in selected.value ==> M.ValidName(v.name)
  }

  /** What must be right before a backup: nothing is in the way, or else Stat fails to see it. */
  ghost predicate CanBackUp(h: Host, fs: Fs, opts: Options) {
    && !opts.cancelled && CanSelect(h, opts)
    && opts.final + PARTIAL_SUFFIX !in fs.files
    && (opts.final in fs.files ==> Disk.Fate(fs).fails)
  }

  /** If every Docker request and every file operation but perhaps the first Stat is answered - and with --no-stop tar
      may exit with 1 because files change under it - a backup succeeds exactly when it can. It starts everything again
      in either case. */
  lemma AnsweredBackup(k: Codec, h: Host, fs: Fs, opts: Options)
    requires Lawful(k) && Sound(h) && Answers(h, Tolerated(opts.noStop)) && OnlyStatCanFail(fs)
    requires Disk.NO_FAULT.temp !in fs.files && Disk.NO_FAULT.temp != opts.final + PARTIAL_SUFFIX
    ensures var out := Backup.RunSpec(k, h, fs, opts);
            && (out.err.None? <==> CanBackUp(h, fs, opts))
            && out.restartErrors == []
  {
    hide ArchivingSpec, PreflightSpec, VolumeList, Lawful, Sound, M.ValidName, Selection.VolumesSpec;
    var ready, out := PreflightSpec(h, opts), Backup.RunSpec(k, h, fs, opts);
    PreflightAnswers(h, opts);
    var (fs1, created) := NewWriterSpec(fs, opts.final);
    if ready.selected.Ok? {
      var vols := ready.selected.value;
      SelectedVolumes(h, opts.names, opts.projects, vols);
      ArchivingRestarts(k, ready.host, fs1, opts, vols);
      if CanBackUp(h, fs, opts) {
        Unhide(k);
        ArchivingAnswers(k, ready.host, fs1, opts, vols);
      } else if out.err.None? {
        OnlyValidNames(k, h, fs, opts, vols);
        assert false;
      }
    }
  }

  /** The promise never to overwrite, exactly: with everything else in order, an existing archive is replaced by the new
      one if and only if the Stat that looks for it fails; otherwise the backup is refused and the file stays. */
  lemma ReplacedExactlyIfStatFails(k: Codec, h: Host, fs: Fs, opts: Options) returns (m: M.Manifest, zs: seq<Bytes>)
    requires Lawful(k) && Sound(h) && Answers(h, Tolerated(opts.noStop)) && OnlyStatCanFail(fs)
    requires Disk.NO_FAULT.temp !in fs.files && Disk.NO_FAULT.temp != opts.final + PARTIAL_SUFFIX
    requires !opts.cancelled && CanSelect(h, opts)
    requires opts.final in fs.files && opts.final + PARTIAL_SUFFIX !in fs.files
    ensures var out := Backup.RunSpec(k, h, fs, opts);
            && opts.final in out.fs.files
            && (out.err.None? <==> Disk.Fate(fs).fails)
            && (Disk.Fate(fs).fails ==> A.Describes(k, m, zs) && out.fs.files[opts.final] == A.Image(k, m, zs))
            && (!Disk.Fate(fs).fails ==> out.fs.files[opts.final] == fs.files[opts.final])
  {
    hide Backup.RunSpec, Lawful, Sound, Answers, CanSelect, A.Describes, A.Image, AllRecorded, Selection.VolumesSpec;
    AnsweredBackup(k, h, fs, opts);
    BackupIsAtomic(k, h, fs, opts);
    m, zs := Described(opts, []), [];
    if Disk.Fate(fs).fails {
      var vols, calls;
      vols, m, zs, calls := BackupArchive(k, h, fs, opts);
    }
  }

  /** A backup run that replaces an archive: one volume, nobody using it, and a Stat that fails. */
  lemma FailingStatReplacesArchive(k: Codec, about: M.Manifest, previous: Bytes) returns (m: M.Manifest, zs: seq<Bytes>)
    requires Lawful(k)
    ensures var data := Volume("data", "local", map[], map[]);
            var h := Host(map["data" := data], ["data"], map["data" := map[]], [], map[], [], []);
            var fs := Fs(map["a.tar" := previous], [FsFault(true, 0, false, "")], []);
            var out := Backup.RunSpec(k, h, fs, Options([], [], false, "a.tar", about, false));
            && out.err.None? && A.Describes(k, m, zs) && m.volumes != []
            && "a.tar" in out.fs.files && out.fs.files["a.tar"] == A.Image(k, m, zs)
  {
    hide Backup.RunSpec, Lawful, A.Describes, A.Image;
    var data := Volume("data", "local", map[], map[]);
    var h := Host(map["data" := data], ["data"], map["data" := map[]], [], map[], [], []);
    var fs := Fs(map["a.tar" := previous], [FsFault(true, 0, false, "")], []);
    var opts := Options([], [], false, "a.tar", about, false);
    assert |"a.tar" + PARTIAL_SUFFIX| != |"a.tar"|;
    assert Disk.NO_FAULT.temp[0] != "a.tar"[0];
    assert Selection.VolumesSpec(VolumeList(h.volumes, h.order), [], []) == Ok([data]) by { OneVolume(data); }
    AnsweredBackup(k, h, fs, opts);
    var vols, calls;
    vols, m, zs, calls := BackupArchive(k, h, fs, opts);
  }

  lemma OneVolume(v: Volume)
    requires v.name == "data" && v.labels == map[]
    ensures Selection.VolumesSpec(VolumeList(map["data" := v], ["data"]), [], []) == Ok([v])
  {
    assert ["data"][1..] == [];
    assert VolumeList(map["data" := v], ["data"]) == [v];
    assert [v][1..] == [];
    assert Selection.KeepNamed([v]) == [v];
    Sorting.SortOne(Selection.BY_NAME, v);
  }

  lemma Unhide(k: Codec)
    requires Lawful(k)
    ensures ZstdLaw(k)
  {
  }

  lemma PreflightAnswers(h: Host, opts: Options)
    requires Sound(h) && Answers(h, Tolerated(opts.noStop))
    ensures var ready := PreflightSpec(h, opts);
            && ready.selected == Selection.VolumesSpec(VolumeList(h.volumes, h.order), opts.names, opts.projects)
            && ready.host.volumes == h.volumes && ready.host.containers == h.containers
            && Answers(ready.host, Tolerated(opts.noStop)) && Sound(ready.host)
  {
    hide Selection.VolumesSpec, VolumeList, AskSpec, Sound;
    PreflightFacts(h, opts);
    AnswersLater(h, PreflightSpec(h, opts).host, Tolerated(opts.noStop));
    var h1 := AskSpec(h, Info).0;
    var h2 := AskSpec(h1, EnsureImage).0;
    var h3 := AskSpec(h2, ListVolumes).0;
    QuestionAnswered(h, Info, Tolerated(opts.noStop));
    QuestionAnswered(h1, EnsureImage, Tolerated(opts.noStop));
    QuestionAnswered(h2, ListVolumes, Tolerated(opts.noStop));
    QuestionAnswered(h3, ListContainers, Tolerated(opts.noStop));
    SameSound(h, PreflightSpec(h, opts).host);
  }

  lemma QuestionAnswered(h: Host, q: Query, codes: set<int>)
    requires Answers(h, codes) && !q.StartedAt?
    ensures AskSpec(h, q).1 && Answers(AskSpec(h, q).0, codes)
  {
  }

  lemma SameSound(h: Host, h': Host)
    requires Sound(h) && h' == h.(calls := h'.calls)
    ensures Sound(h')
  {
  }

  lemma OnlyValidNames(k: Codec, h: Host, fs: Fs, opts: Options, vols: seq<Volume>)
    requires Lawful(k) && Sound(h) && Backup.RunSpec(k, h, fs, opts).err.None?
    requires Selection.VolumesSpec(VolumeList(h.volumes, h.order), opts.names, opts.projects) == Ok(vols)
    ensures forall v :: v in vols ==> M.ValidName(v.name)
  {
    hide Backup.RunSpec, Lawful, Sound, VolumeList, Selection.VolumesSpec, M.ValidName, A.Image, A.Describes;
    var vols', m, zs, calls := BackupArchive(k, h, fs, opts);
    forall v | v in vols ensures M.ValidName(v.name) {
      var i :| 0 <= i < |vols| && vols[i] == v;
      assert Recorded(k, vols[i], opts.noStop, h.containers, m.volumes[i], zs[i], calls[i]);
    }
  }
}
