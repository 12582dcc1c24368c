/** Backup on one host, restore on another. */
module EndToEnd {
  import opened Common
  import opened Codecs
  import opened Docker
  import opened Traces
  import M = Manifests
  import A = Archive
  import B = Backup
  import R = Restore
  import P = RestorePromises
  import BackupPromises
  import Disk
  import ArchiveWriter
  import Selection

  /** The archive file a backup run left behind. */
  function FileOf(out: B.Outcome, final: string, unreadable: set<string>): R.ArchiveFile {
    R.ArchiveFile(Some(Disk.Held(out.fs, final)), unreadable)
  }

  /** A complete archive opens and serves what was written. */
  lemma WholeArchiveOpens(k: Codec, m: M.Manifest, zs: seq<Bytes>)
    requires Lawful(k) && A.Describes(k, m, zs) && |zs| == |m.volumes|
    ensures A.OpenSpec(k, A.Image(k, m, zs)).Some? && A.Serves(k, A.OpenSpec(k, A.Image(k, m, zs)).value, m, zs)
  {
    hide A.OpenSpec, A.Serves, A.Describes, Lawful, A.PrintAll, A.Items;
    var image := A.Image(k, m, zs);
    assert image[..|image|] == image;
    A.OpenPrefix(k, m, zs, |image|);
  }

  /** The entries a reader of that archive has for a volume are those of the stored stream. */
  lemma ServedEntries(k: Codec, r: A.Reader, m: M.Manifest, zs: seq<Bytes>, i: nat)
    requires A.Describes(k, m, zs) && A.Serves(k, r, m, zs) && i < |zs|
    ensures R.EntriesOf(k, r, m.volumes[i].name)
            == if k.expand(zs[i]).None? then None else k.unpack(k.expand(zs[i]).value)
  {
  }

  /** What a volume on the target host must be after backup and restore: exactly the entries of the stream that the
      pack run on the source emitted; if the manifest calls it consistent, exactly what the source host held; and if it
      had to be created, with the driver ("local" if none was recorded), options and labels of the source. */
  ghost predicate Transferred(k: Codec, source: Host, before: Host, after: Host, mv: M.Volume, emitted: Bytes) {
    && mv.name in after.data && mv.name in after.volumes && mv.name in source.volumes && mv.name in source.data
    && k.unpack(emitted) == Some(after.data[mv.name])
    && (mv.consistent ==> after.data[mv.name] == source.data[mv.name])
    && (mv.name !in before.volumes ==>
          var v := source.volumes[mv.name];
          after.volumes[mv.name] == Volume(mv.name, if v.driver == "" then "local" else v.driver, v.options, v.labels))
  }

  /** What the backup's archive is: Open reads back the manifest m, which lists the selected volumes in order; the
      helper runs of the backup are one pack run per volume; and a volume is marked consistent exactly if its run exited
      with 0 and no container was left running that could write to it. */
  ghost predicate Archived(k: Codec, source: Host, backup: B.Options, b: B.Outcome, vols: seq<Volume>, m: M.Manifest,
                           calls: seq<Call>) {
    && Selection.VolumesSpec(VolumeList(source.volumes, source.order), backup.names, backup.projects) == Ok(vols)
    && A.OpenSpec(k, Disk.Held(b.fs, backup.final)).Some? && A.OpenSpec(k, Disk.Held(b.fs, backup.final)).value.m == m
    && Extends(source, b.host) && HelperRuns(Delta(source, b.host)) == calls
    && |calls| == |m.volumes| == |vols|
    && forall i :: 0 <= i < |vols| ==> PackedBy(source, backup.noStop, vols[i], m.volumes[i], calls[i])
  }

  ghost predicate PackedBy(source: Host, noStop: bool, v: Volume, mv: M.Volume, call: Call) {
    && mv.name == v.name && call.Helper? && call.kind == Pack && call.volume == v.name
    && (mv.consistent <==>
          call.result == Exit(0) && !(noStop && exists c :: c in source.containers && c.Writes(v.name)))
  }

  /** Round trip: any successful backup followed by any successful restore of any selection on any host, whatever the
      target volumes were before. */
  lemma RoundTrip(k: Codec, source: Host, fs: Disk.Fs, backup: B.Options, target: Host, restore: R.Options,
                  unreadable: set<string>)
    returns (vols: seq<Volume>, m: M.Manifest, calls: seq<Call>)
    requires Lawful(k) && Sound(source) && Sound(target) && MountsExist(target)
    requires B.RunSpec(k, source, fs, backup).err.None?
    requires !restore.verifyOnly
    requires R.RunSpec(k, target, FileOf(B.RunSpec(k, source, fs, backup), backup.final, unreadable), restore).err.None?
    ensures var b := B.RunSpec(k, source, fs, backup);
            var out := R.RunSpec(k, target, FileOf(b, backup.final, unreadable), restore);
            && Archived(k, source, backup, b, vols, m, calls)
            && (forall n :: n in out.restored ==> exists i :: 0 <= i < |calls| && m.volumes[i].name == n)
            && (forall i :: 0 <= i < |calls| && m.volumes[i].name in out.restored ==>
                  Transferred(k, source, target, out.host, m.volumes[i], calls[i].stdout))
            && (forall n :: n !in out.restored ==> R.SameVolume(target, out.host, n))
  {
    hide B.RunSpec, R.RunSpec, A.Image, A.Describes, A.Serves, Lawful, Sound, B.Recorded, Selection.VolumesSpec,
      MountsExist,
      R.IsRestored, Transferred, R.EntriesOf, R.SameVolume, PackedBy, A.OpenSpec;
    var b := B.RunSpec(k, source, fs, backup);
    var file := FileOf(b, backup.final, unreadable);
    var out := R.RunSpec(k, target, file, restore);
    var zs;
    vols, m, zs, calls := B.BackupArchive(k, source, fs, backup);
    RestoredFromImage(k, target, file, restore, m, zs);
    var r := A.OpenSpec(k, A.Image(k, m, zs)).value;
    ServesManifest(k, r, m, zs);
    forall i | 0 <= i < |calls|
      ensures calls[i].Helper? && PackedBy(source, backup.noStop, vols[i], m.volumes[i], calls[i])
    {
      RecordedPack(k, source, backup.noStop, vols[i], m.volumes[i], zs[i], calls[i]);
      PackIsHelper(source, backup.noStop, vols[i], m.volumes[i], calls[i]);
    }
    forall i | 0 <= i < |calls|
      ensures m.volumes[i].name in out.restored ==>
              Transferred(k, source, target, out.host, m.volumes[i], calls[i].stdout)
    {
      RecordedCall(k, vols[i], backup.noStop, source.containers, m.volumes[i], zs[i], calls[i]);
      if m.volumes[i].name in out.restored {
        ServedEntries(k, r, m, zs, i);
        InData(source, vols[i]);
        TransferredOne(k, source, target, out.host, r, vols[i], backup.noStop, m.volumes[i], zs[i], calls[i]);
      }
    }
  }

  lemma RecordedPack(k: Codec, source: Host, noStop: bool, v: Volume, mv: M.Volume, z: Bytes, call: Call)
    requires B.Recorded(k, v, noStop, source.containers, mv, z, call)
    ensures PackedBy(source, noStop, v, mv, call)
  {
  }

  lemma PackIsHelper(source: Host, noStop: bool, v: Volume, mv: M.Volume, call: Call)
    requires PackedBy(source, noStop, v, mv, call)
    ensures call.Helper?
  {
  }

  lemma InData(h: Host, v: Volume)
    requires Sound(h) && v.name in h.volumes
    ensures v.name in h.data
  {
  }

  /** A successful restore from a printed archive restores manifest volumes only, and leaves all others alone. */
  lemma RestoredFromImage(k: Codec, target: Host, file: R.ArchiveFile, restore: R.Options, m: M.Manifest,
                          zs: seq<Bytes>)
    requires Lawful(k) && Sound(target) && MountsExist(target)
    requires |zs| == |m.volumes| && A.Describes(k, m, zs) && file.bytes == Some(A.Image(k, m, zs))
             && !restore.verifyOnly
    requires R.RunSpec(k, target, file, restore).err.None?
    ensures var out := R.RunSpec(k, target, file, restore);
            var reading := A.OpenSpec(k, A.Image(k, m, zs));
            && reading.Some? && A.Serves(k, reading.value, m, zs)
            && (forall n :: n in out.restored ==> exists i :: 0 <= i < |zs| && m.volumes[i].name == n)
            && (forall i :: 0 <= i < |zs| && m.volumes[i].name in out.restored ==>
                  R.IsRestored(k, reading.value, target, out.host, m.volumes[i]))
            && (forall n :: n !in out.restored ==> R.SameVolume(target, out.host, n))
  {
    hide R.PlanningSpec, R.ExecuteSpec, R.PrepareSpec, A.Image, A.Describes, A.Serves, A.OpenSpec, Lawful, Sound,
      MountsExist, R.IsRestored,
      R.EntriesOf, R.SameVolume, R.GoodPlan, R.Looked, R.SelectedFrom;
    var out := R.RunSpec(k, target, file, restore);
    WholeArchiveOpens(k, m, zs);
    Opened(k, target, file, restore);
    R.PlanningFacts(k, target, file, restore);
    R.PrepareFacts(k, file, restore);
    R.RestoreEffect(k, target, file, restore);
    var r := A.OpenSpec(k, A.Image(k, m, zs)).value;
    var selected := R.PrepareSpec(k, file, restore).value.selected;
    ServesManifest(k, r, m, zs);
    assert out.restored == R.VolumeNames(selected) by { assert out.restored + [] + [] == out.restored; }
    forall n | n in out.restored
      ensures exists v :: v in selected && v.name == n && v in m.volumes
    {
      var j :| 0 <= j < |selected| && R.VolumeNames(selected)[j] == n;
      assert selected[j] in m.volumes;
    }
    forall i | 0 <= i < |zs| && m.volumes[i].name in out.restored
      ensures R.IsRestored(k, r, target, out.host, m.volumes[i])
    {
      var v :| v in selected && v.name == m.volumes[i].name && v in m.volumes;
      SameName(k, m, zs, v, i);
    }
    assert out.restored + out.failed == out.restored;
  }

  lemma Opened(k: Codec, h: Host, file: R.ArchiveFile, opts: R.Options)
    requires R.RunSpec(k, h, file, opts).err.None? && !opts.verifyOnly
    ensures R.PlanningSpec(k, h, file, opts).Go?
  {
    hide R.PrepareSpec, R.SurveySpec, R.PlanSpec, R.ExecuteSpec;
  }

  lemma ServesManifest(k: Codec, r: A.Reader, m: M.Manifest, zs: seq<Bytes>)
    requires |zs| == |m.volumes| && A.Serves(k, r, m, zs)
    ensures r.m == m
  {
  }

  lemma SameName(k: Codec, m: M.Manifest, zs: seq<Bytes>, v: M.Volume, i: nat)
    requires A.Describes(k, m, zs) && i < |zs| && v in m.volumes && v.name == m.volumes[i].name
    ensures v == m.volumes[i]
  {
    var j :| 0 <= j < |m.volumes| && m.volumes[j] == v;
    assert i == j;
  }

  lemma RecordedCall(k: Codec, v: Volume, noStop: bool, containers: seq<Container>, mv: M.Volume, z: Bytes, call: Call)
    requires B.Recorded(k, v, noStop, containers, mv, z, call)
    ensures call.Helper? && call.kind == Pack && call.volume == v.name == mv.name && k.expand(z) == Some(call.stdout)
    ensures mv.driver == v.driver && mv.driverOpts == v.options && mv.labels == v.labels
    ensures !noStop ==> mv.consistent
  {
  }

  lemma TransferredOne(k: Codec, source: Host, before: Host, after: Host, r: A.Reader, v: Volume, noStop: bool,
                       mv: M.Volume, z: Bytes, call: Call)
    requires Lawful(k) && Sound(source)
    requires B.Recorded(k, v, noStop, source.containers, mv, z, call)
    requires v.name in source.volumes && v == source.volumes[v.name]
    requires mv.consistent ==> mv.name in source.data && k.expand(z) == Some(k.pack(source.data[mv.name]))
    requires R.IsRestored(k, r, before, after, mv)
    requires R.EntriesOf(k, r, mv.name) == if k.expand(z).None? then None else k.unpack(k.expand(z).value)
    ensures Transferred(k, source, before, after, mv, call.stdout)
  {
    hide R.EntriesOf, HeaderLaw, ZstdLaw, YamlLaw;
    RecordedCall(k, v, noStop, source.containers, mv, z, call);
    if mv.consistent {
      assert k.unpack(k.pack(source.data[mv.name])) == Some(source.data[mv.name]);
    }
  }

  /** Disaster recovery, start to finish: after a successful backup that stopped the containers, a forced restore of the
      whole archive on any host that answers its requests cannot fail, and every selected volume is exactly as it was on
      the source host. */
  lemma DisasterRecovery(k: Codec, source: Host, fs: Disk.Fs, backup: B.Options, target: Host)
    returns (vols: seq<Volume>)
    requires Lawful(k) && Sound(source) && Sound(target) && MountsExist(target) && FaultFree(target)
    requires !backup.noStop && B.RunSpec(k, source, fs, backup).err.None?
    ensures var out := R.RunSpec(k, target, FileOf(B.RunSpec(k, source, fs, backup), backup.final, {}),
                                 R.Options([], [], true, false));
            && Selection.VolumesSpec(VolumeList(source.volumes, source.order), backup.names, backup.projects)
               == Ok(vols)
            && out.err.None? && out.restartErrors == [] && out.restored == B.Names(vols)
            && forall v :: v in vols ==>
                 v.name in source.data && v.name in out.host.data && out.host.data[v.name] == source.data[v.name]
  {
    hide B.RunSpec, R.RunSpec, R.PrepareSpec, A.Image, A.Describes, A.Serves, A.OpenSpec, Lawful, Sound, B.Recorded,
      Selection.VolumesSpec, MountsExist, FaultFree, R.EntriesOf, R.IsRestored;
    var b := B.RunSpec(k, source, fs, backup);
    var file, opts := FileOf(b, backup.final, {}), R.Options([], [], true, false);
    var m, zs, calls;
    vols, m, zs, calls := B.BackupArchive(k, source, fs, backup);
    WholeArchiveOpens(k, m, zs);
    var r := A.OpenSpec(k, A.Image(k, m, zs)).value;
    ServesManifest(k, r, m, zs);
    assert vols != [] by { SomethingSelected(source, backup, vols); }
    FreshPrepares(k, file, r, m, zs);
    forall i | 0 <= i < |zs|
      ensures m.volumes[i].name == vols[i].name && vols[i].name in source.data
      ensures R.EntriesOf(k, r, m.volumes[i].name) == Some(source.data[vols[i].name])
    {
      RecordedCall(k, vols[i], false, source.containers, m.volumes[i], zs[i], calls[i]);
      ServedEntries(k, r, m, zs, i);
      PackedBack(k, source, vols[i].name);
    }
    P.AnsweredRun(k, target, file, opts, r, m.volumes);
    var out := R.RunSpec(k, target, file, opts);
    assert R.VolumeNames(m.volumes) == B.Names(vols);
    forall v | v in vols
      ensures v.name in source.data && v.name in out.host.data && out.host.data[v.name] == source.data[v.name]
    {
      var i :| 0 <= i < |vols| && vols[i] == v;
      assert m.volumes[i] in m.volumes;
      assert R.EntriesOf(k, r, m.volumes[i].name) == Some(source.data[v.name]);
      P.RestoredHas(k, r, target, out.host, m.volumes[i]);
    }
  }

  /** The same without any word about success: two hosts that answer, a disk that works, a selection that can be backed
      up, and every selected volume arrives, with all containers running again on both sides. */
  lemma FullCycle(k: Codec, source: Host, fs: Disk.Fs, backup: B.Options, target: Host) returns (vols: seq<Volume>)
    requires Lawful(k) && Sound(source) && Sound(target) && MountsExist(target) && FaultFree(source)
             && FaultFree(target)
    requires !backup.noStop && BackupPromises.OnlyStatCanFail(fs) && BackupPromises.CanBackUp(source, fs, backup)
    requires Disk.NO_FAULT.temp !in fs.files && Disk.NO_FAULT.temp != backup.final + ArchiveWriter.PARTIAL_SUFFIX
    ensures var b := B.RunSpec(k, source, fs, backup);
            var out := R.RunSpec(k, target, FileOf(b, backup.final, {}), R.Options([], [], true, false));
            && Selection.VolumesSpec(VolumeList(source.volumes, source.order), backup.names, backup.projects)
               == Ok(vols)
            && b.err.None? && b.restartErrors == [] && out.err.None? && out.restartErrors == []
            && forall v :: v in vols ==>
                 v.name in source.data && v.name in out.host.data && out.host.data[v.name] == source.data[v.name]
  {
    hide B.RunSpec, R.RunSpec, Lawful, Sound, MountsExist, FaultFree, Answers, BackupPromises.OnlyStatCanFail,
      BackupPromises.CanBackUp, Selection.VolumesSpec;
    FaultFreeAnswers(source);
    BackupPromises.AnsweredBackup(k, source, fs, backup);
    vols := DisasterRecovery(k, source, fs, backup, target);
  }

  lemma PackedBack(k: Codec, h: Host, name: string)
    requires Lawful(k) && Sound(h) && name in h.volumes
    ensures name in h.data && k.unpack(k.pack(h.data[name])) == Some(h.data[name])
  {
    hide HeaderLaw, ZstdLaw, YamlLaw;
  }

  lemma SomethingSelected(h: Host, opts: B.Options, vols: seq<Volume>)
    requires Selection.VolumesSpec(VolumeList(h.volumes, h.order), opts.names, opts.projects) == Ok(vols)
    ensures vols != []
  {
    var _ := Selection.FilterFacts(Selection.NamedSpec(VolumeList(h.volumes, h.order)), (v: Volume) => v.name,
                                   Selection.ProjectOf,
                                   opts.names, opts.projects);
  }

  /** A fresh archive passes every check that comes before Docker is asked. */
  lemma FreshPrepares(k: Codec, file: R.ArchiveFile, r: A.Reader, m: M.Manifest, zs: seq<Bytes>)
    requires A.Describes(k, m, zs) && A.Serves(k, r, m, zs) && m.volumes != []
    requires file.bytes.Some? && A.OpenSpec(k, file.bytes.value) == Some(r) && file.unreadable == {}
    ensures R.PrepareSpec(k, file, R.Options([], [], true, false)) == Ok(R.Job(r, m.volumes))
  {
    hide A.OpenSpec, A.VerifySpec, A.OpenVolumeSpec;
    forall v | v in m.volumes ensures A.VerifySpec(k, r, v.name).None? {
      var i :| 0 <= i < |zs| && m.volumes[i] == v;
    }
    P.VerifySome(k, r, m.volumes, {});
  }
}
