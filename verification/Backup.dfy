/** A whole backup run (internal/backup). */
module Backup {
  import opened Common
  import opened Codecs
  import opened Docker
  import opened Traces
  import opened Disk
  import opened ArchiveWriter
  import M = Manifests
  import A = Archive
  import S = Stopper
  import Selection
  import opened Sorting

  /** about holds everything in the manifest but its volumes; cancelled says whether the context is already done. */
  datatype Options = Options(names: seq<string>, projects: seq<string>, noStop: bool, final: string, about: M.Manifest,
                             cancelled: bool)

  function UsersOfVolume(cs: seq<Container>): seq<M.User> {
    seq(|cs|, i requires 0 <= i < |cs| => M.User(cs[i].name, cs[i].image, cs[i].Service(), cs[i].InUse()))
  }

  predicate AnyInUse(cs: seq<Container>) {
    exists c | c in cs :: c.InUse()
  }

  datatype One = One(host: Host, fs: Fs, volume: Result<M.Volume, Error>)

  /** One volume: the helper packs it, the writer stores the stream. The helper's own failure is reported first, then
      the writer's, then an exit code that is not accepted: only 0 is, and 1 if containers were left running. */
  function BackupVolumeSpec(k: Codec, h: Host, fs: Fs, partial: string, noStop: bool, v: Volume,
                            containers: seq<Container>): One {
    var users := UsersIn(v.name, containers);
    var run := HelperSpec(k, h, v.name, Pack);
    var added := AddVolumeSpec(k, fs, partial, v.name, Source(k.chop(run.stdout, |h.calls|), run.result.Broke?));
    var volume :=
      if run.result.Broke? then Err(HelperFailed(v.name))
      else if added.entry.None? then Err(DiskFailed)
      else if run.result.code == 0 || (run.result.code == 1 && noStop) then
        Ok(M.Volume(v.name, v.driver, v.options, v.labels, added.plain, added.entry.value,
                    run.result.code == 0 && !(noStop && AnyInUse(users)), UsersOfVolume(users)))
      else Err(HelperExit(v.name, run.result.code));
    One(run.host, added.fs, volume)
  }

  datatype Progress = Progress(host: Host, fs: Fs, volumes: seq<M.Volume>, err: Option<Error>)

  function BackupAllSpec(k: Codec, h: Host, fs: Fs, partial: string, noStop: bool, vols: seq<Volume>,
                         containers: seq<Container>): Progress
    decreases |vols|
  {
    if vols == [] then Progress(h, fs, [], None)
    else
      var one := BackupVolumeSpec(k, h, fs, partial, noStop, vols[0], containers);
      if one.volume.Err? then Progress(one.host, one.fs, [], Some(one.volume.error))
      else
        var rest := BackupAllSpec(k, one.host, one.fs, partial, noStop, vols[1..], containers);
        rest.(volumes := [one.volume.value] + rest.volumes)
  }

  /** All volumes, then the end of the archive. */
  function WorkSpec(k: Codec, h: Host, fs: Fs, opts: Options, vols: seq<Volume>, containers: seq<Container>): Progress {
    var all := BackupAllSpec(k, h, fs, opts.final + PARTIAL_SUFFIX, opts.noStop, vols, containers);
    if all.err.Some? then all
    else
      var (fs', ok) := FinishSpec(k, all.fs, opts.final + PARTIAL_SUFFIX, opts.final, Described(opts, all.volumes));
      all.(fs := fs', err := if ok then None else Some(DiskFailed))
  }

  function Described(opts: Options, volumes: seq<M.Volume>): M.Manifest {
    opts.about.(formatVersion := M.FORMAT_VERSION, volumes := volumes)
  }

  /** The manifest says what the tool, the host and the engine were, when, and which image was used. */
  ghost predicate DescribedBy(m: M.Manifest, about: M.Manifest) {
    && m.formatVersion == 1
    && m.tool == about.tool && m.createdAt == about.createdAt && m.host == about.host
    && m.dockerVersion == about.dockerVersion && m.helperImage == about.helperImage
  }

  datatype Ready = Ready(host: Host, selected: Result<seq<Volume>, Error>)

  /** Everything that can fail before any state changes. A failing size query only suppresses a warning. */
  function PreflightSpec(h: Host, opts: Options): Ready {
    var (h1, ok1) := AskSpec(h, Info);
    if !ok1 then Ready(h1, Err(DockerFailed))
    else
      var (h2, ok2) := AskSpec(h1, EnsureImage);
      if !ok2 then Ready(h2, Err(DockerFailed))
      else
        var (h3, ok3) := AskSpec(h2, ListVolumes);
        if !ok3 then Ready(h3, Err(DockerFailed))
        else
          var selected := Selection.VolumesSpec(VolumeList(h.volumes, h.order), opts.names, opts.projects);
          if selected.Err? then Ready(h3, selected)
          else
            var (h4, ok4) := AskSpec(h3, ListContainers);
            if !ok4 then Ready(h4, Err(DockerFailed)) else Ready(AskSpec(h4, VolumeSizes).0, selected)
  }

  function Names(vols: seq<Volume>): seq<string> {
    seq(|vols|, i requires 0 <= i < |vols| => vols[i].name)
  }

  function ToStop(opts: Options, vols: seq<Volume>, containers: seq<Container>): seq<Container> {
    if opts.noStop then [] else S.UsersOfSpec(Names(vols), containers)
  }

  datatype Outcome = Outcome(host: Host, fs: Fs, path: Option<string>, restartErrors: seq<string>, err: Option<Error>)

  function RunSpec(k: Codec, h: Host, fs: Fs, opts: Options): Outcome {
    if opts.cancelled then Outcome(h, fs, None, [], Some(Cancelled))
    else
      var ready := PreflightSpec(h, opts);
      if ready.selected.Err? then Outcome(ready.host, fs, None, [], Some(ready.selected.error))
      else
        var (fs1, created) := NewWriterSpec(fs, opts.final);
        if !created then Outcome(ready.host, fs1, None, [], Some(AlreadyExists))
        else ArchivingSpec(k, ready.host, fs1, opts, ready.selected.value)
  }

  /** From the first stop to the last restart; an error removes the unfinished file. */
  function ArchivingSpec(k: Codec, h: Host, fs: Fs, opts: Options, vols: seq<Volume>): Outcome {
    var stop := S.StopAllSpec(h, ToStop(opts, vols, h.containers), {});
    var work := if stop.err.Some? then Progress(stop.host, fs, [], stop.err)
                else WorkSpec(k, stop.host, fs, opts, vols, h.containers);
    var restart := S.RestartSpec(work.host, stop.added);
    if work.err.Some?
    then Outcome(restart.host, RemoveSpec(work.fs, opts.final + PARTIAL_SUFFIX).0, None, restart.errs, work.err)
    else Outcome(restart.host, work.fs, Some(opts.final), restart.errs, None)
  }

  // ---------- one volume ----------

  /** A helper run that reads leaves the host as it was, but for the record of the run. */
  lemma PackKeepsHost(k: Codec, h: Host, volume: string)
    ensures var run := HelperSpec(k, h, volume, Pack);
            && run.host.calls == h.calls + [Helper(Pack, volume, run.result, run.stdout, Quiet(h, volume))]
            && run.host == h.(calls := run.host.calls)
            && Extends(h, run.host)
            && Delta(h, run.host) == [Helper(Pack, volume, run.result, run.stdout, Quiet(h, volume))]
            && (run.result == Exit(0) && Quiet(h, volume) ==> volume in h.data && run.stdout == k.pack(h.data[volume]))
  {
    if volume in h.data {
      assert h.data[volume := h.data[volume]] == h.data;
    }
  }

  /** The recorded users are all and only the containers that mount the volume, helpers excepted, in the order of the
      listing, each with its name, image and Compose service, and whether it had live processes then. */
  ghost predicate ListsUsers(users: seq<M.User>, volume: string, containers: seq<Container>) {
    exists at: seq<nat> :: ListedAt(users, volume, containers, at)
  }

  ghost predicate ListedAt(users: seq<M.User>, volume: string, containers: seq<Container>, at: seq<nat>) {
    && |at| == |users| && Ascending(at)
    && (forall i :: 0 <= i < |at| ==> at[i] < |containers| && DescribesUser(users[i], containers[at[i]]))
    && (forall p :: 0 <= p < |containers| ==> (p in at <==> IsUser(containers[p], volume)))
  }

  predicate IsUser(c: Container, volume: string) {
    Mount("volume", volume) in c.mounts && !(LABEL_HELPER in c.labels && c.labels[LABEL_HELPER] == "true")
  }

  predicate DescribesUser(u: M.User, c: Container) {
    && u.name == c.name && u.image == c.image
    && u.service == (if "com.docker.compose.service" in c.labels then c.labels["com.docker.compose.service"] else "")
    && u.wasRunning == (c.status.Running? || c.status.Paused? || c.status.Restarting?)
  }

  lemma {:induction false} UsersAreListed(volume: string, containers: seq<Container>) returns (at: seq<nat>)
    ensures ListedAt(UsersOfVolume(UsersIn(volume, containers)), volume, containers, at)
  {
    if containers == [] {
      at := [];
    } else {
      hide ListedAt, UsersOfVolume, UsersIn;
      var c, cs := containers[0], UsersIn(volume, containers[1..]);
      var rest := UsersAreListed(volume, containers[1..]);
      UserOrNot(c, volume);
      UsersNext(volume, containers);
      at := Shifted(rest, IsUser(c, volume));
      ListedNext(volume, containers, UsersOfVolume(cs), rest);
      UsersPrepend(c, cs);
    }
  }

  lemma AllUsersListed(volume: string, containers: seq<Container>)
    ensures ListsUsers(UsersOfVolume(UsersIn(volume, containers)), volume, containers)
  {
    hide ListedAt, UsersOfVolume, UsersIn;
    var at := UsersAreListed(volume, containers);
  }

  /** A user is in use exactly if a container may be writing to the volume. */
  lemma FlagMeans(volume: string, containers: seq<Container>)
    ensures AnyInUse(UsersIn(volume, containers)) <==> exists c :: c in containers && c.Writes(volume)
  {
    UsersMembers(volume, containers);
    WritersAreFound(volume);
  }

  lemma UserOrNot(c: Container, volume: string)
    ensures IsUser(c, volume) <==> !c.IsHelper() && c.UsesVolume(volume)
    ensures DescribesUser(M.User(c.name, c.image, c.Service(), c.InUse()), c)
  {
    if Mount("volume", volume) in c.mounts {
      assert c.UsesVolume(volume);
    }
    if c.UsesVolume(volume) {
      var m :| m in c.mounts && m.kind == "volume" && m.name == volume;
      assert m == Mount("volume", volume);
    }
  }

  lemma UsersNext(volume: string, containers: seq<Container>)
    requires containers != []
    ensures var c := containers[0];
            UsersIn(volume, containers)
            == (if !c.IsHelper() && c.UsesVolume(volume) then [c] else []) + UsersIn(volume, containers[1..])
  {
  }

  lemma UsersPrepend(c: Container, cs: seq<Container>)
    ensures UsersOfVolume([c] + cs) == [M.User(c.name, c.image, c.Service(), c.InUse())] + UsersOfVolume(cs)
    ensures UsersOfVolume([] + cs) == UsersOfVolume(cs)
  {
    assert [] + cs == cs;
  }

  lemma ListedNext(volume: string, containers: seq<Container>, users: seq<M.User>, at: seq<nat>)
    requires containers != [] && ListedAt(users, volume, containers[1..], at)
    ensures var c := containers[0];
            ListedAt((if IsUser(c, volume) then [M.User(c.name, c.image, c.Service(), c.InUse())] else []) + users,
                     volume, containers, Shifted(at, IsUser(c, volume)))
  {
    var c, first := containers[0], IsUser(containers[0], volume);
    UserOrNot(c, volume);
    ShiftedAt(at, first);
    ShiftedAscending(at, first);
    hide Shifted, Ascending, IsUser, DescribesUser;
    ListedItems(containers, users, at, first, M.User(c.name, c.image, c.Service(), c.InUse()));
    ListedMembers(volume, containers, at, first);
  }

  lemma ListedItems(containers: seq<Container>, users: seq<M.User>, at: seq<nat>, first: bool, user: M.User)
    requires containers != [] && |at| == |users| && (first ==> DescribesUser(user, containers[0]))
    requires forall i :: 0 <= i < |at| ==> at[i] < |containers| - 1 && DescribesUser(users[i], containers[1..][at[i]])
    ensures var all, more := (if first then [user] else []) + users, Shifted(at, first);
            && |all| == |more|
            && forall i :: 0 <= i < |more| ==> more[i] < |containers| && DescribesUser(all[i], containers[more[i]])
  {
    hide Shifted, DescribesUser;
    ShiftedAt(at, first);
    var d := if first then 1 else 0;
    var all, more := (if first then [user] else []) + users, Shifted(at, first);
    forall i | 0 <= i < |more| ensures more[i] < |containers| && DescribesUser(all[i], containers[more[i]]) {
      assert i >= d ==> DescribesUser(users[i - d], containers[1..][at[i - d]]);
    }
  }

  lemma ListedMembers(volume: string, containers: seq<Container>, at: seq<nat>, first: bool)
    requires containers != [] && first == IsUser(containers[0], volume)
    requires forall p :: 0 <= p < |containers| - 1 ==> (p in at <==> IsUser(containers[1..][p], volume))
    ensures forall p :: 0 <= p < |containers| ==> (p in Shifted(at, first) <==> IsUser(containers[p], volume))
  {
    hide Shifted, IsUser;
    forall p | 0 <= p < |containers| ensures p in Shifted(at, first) <==> IsUser(containers[p], volume) {
      ShiftedMember(at, first, p);
      assert p != 0 ==> containers[p] == containers[1..][p - 1];
    }
  }

  /** What a manifest volume says about the helper run it came from, and about the stored bytes z. */
  ghost predicate Recorded(k: Codec, v: Volume, noStop: bool, containers: seq<Container>, mv: M.Volume, z: Bytes,
                           call: Call) {
    && call.Helper? && call.kind == Pack && call.volume == v.name
    && call.result in (if noStop then {Exit(0), Exit(1)} else {Exit(0)})
    && k.expand(z) == Some(call.stdout)
    && mv.archive == M.Entry(M.VolumePath(v.name), |z|, k.sha(z))
    && mv.sizeBytes == |call.stdout|
    && (mv.consistent <==> call.result == Exit(0) && !(noStop && exists c :: c in containers && c.Writes(v.name)))
    && ListsUsers(mv.containers, v.name, containers)
    && M.ValidName(v.name) && mv.name == v.name && mv.driver == v.driver && mv.driverOpts == v.options
       && mv.labels == v.labels
  }

  /** However a stream is cut into reads, what is stored decodes to it. */
  lemma StreamBack(k: Codec, stream: Bytes, n: nat)
    requires Lawful(k)
    ensures Concat(k.chop(stream, n)) == stream && k.expand(k.finish(k.chop(stream, n))) == Some(stream)
  {
    hide HeaderLaw, ParseLaw, TarLaw, YamlLaw, HashLaw;
  }

  lemma BackupVolumeFacts(k: Codec, h: Host, fs: Fs, partial: string, noStop: bool, v: Volume,
                          containers: seq<Container>)
    requires Lawful(k) && partial in fs.files
    ensures var one := BackupVolumeSpec(k, h, fs, partial, noStop, v, containers);
            var run := HelperSpec(k, h, v.name, Pack);
            var z := k.finish(k.chop(run.stdout, |h.calls|));
            && one.host == run.host
            && partial in one.fs.files && KeepsBut(fs, one.fs, {partial})
            && (RemovalsWork(fs) ==> one.fs.files.Keys == fs.files.Keys)
            && (one.volume.Ok? ==>
                  && Recorded(k, v, noStop, containers, one.volume.value, z, Delta(h, run.host)[0])
                  && one.fs.files[partial] == fs.files[partial] + A.PrintItem(k, A.Item(M.VolumePath(v.name), z)))
  {
    hide A.PrintItem, M.VolumePath, M.ValidName, HelperSpec, AddVolumeSpec, HeaderLaw, TarLaw, ChopLaw, YamlLaw,
      ParseLaw,
      HashLaw, ListsUsers, UsersOfVolume, UsersIn, AnyInUse;
    AllUsersListed(v.name, containers);
    FlagMeans(v.name, containers);
    var run := HelperSpec(k, h, v.name, Pack);
    PackKeepsHost(k, h, v.name);
    var src := Source(k.chop(run.stdout, |h.calls|), run.result.Broke?);
    AddVolumeFacts(k, fs, partial, v.name, src);
    StreamBack(k, run.stdout, |h.calls|);
  }

  // ---------- all volumes ----------

  function VolumeItems(volumes: seq<M.Volume>, zs: seq<Bytes>): seq<A.Item>
    requires |volumes| == |zs|
  {
    seq(|zs|, i requires 0 <= i < |zs| => A.Item(M.VolumePath(volumes[i].name), zs[i]))
  }

  /** Volume by volume, the manifest entries and the stored bytes come from the helper runs in calls. */
  ghost predicate AllRecorded(k: Codec, vols: seq<Volume>, noStop: bool, containers: seq<Container>,
                              volumes: seq<M.Volume>, zs: seq<Bytes>, calls: seq<Call>) {
    && |vols| == |volumes| == |zs| == |calls|
    && forall i :: 0 <= i < |vols| ==> Recorded(k, vols[i], noStop, containers, volumes[i], zs[i], calls[i])
  }

  /** A call that read a volume of h in a host with the same containers and data. */
  ghost predicate PackedFrom(k: Codec, h: Host, call: Call) {
    && call.Helper? && call.kind == Pack && call.quiet == Quiet(h, call.volume)
    && (call.result == Exit(0) && call.quiet ==> call.volume in h.data && call.stdout == k.pack(h.data[call.volume]))
  }

  /** The host only gained the records of pack runs of these volumes. */
  ghost predicate OnlyPacked(k: Codec, h: Host, h': Host, names: seq<string>) {
    && Extends(h, h')
    && h' == h.(calls := h'.calls)
    && forall c :: c in Delta(h, h') ==> PackedFrom(k, h, c) && c.volume in names
  }

  lemma OnlyPackedTrans(k: Codec, a: Host, b: Host, c: Host, first: string, more: seq<string>)
    requires OnlyPacked(k, a, b, [first]) && OnlyPacked(k, b, c, more)
    ensures OnlyPacked(k, a, c, [first] + more) && Delta(a, c) == Delta(a, b) + Delta(b, c)
  {
    DeltaTrans(a, b, c);
  }

  lemma {:induction false} BackupAllHost(k: Codec, h: Host, fs: Fs, partial: string, noStop: bool, vols: seq<Volume>,
                                         containers: seq<Container>)
    ensures OnlyPacked(k, h, BackupAllSpec(k, h, fs, partial, noStop, vols, containers).host, Names(vols))
    decreases |vols|
  {
    hide HelperSpec, AddVolumeSpec;
    if vols == [] {
      assert Delta(h, h) == [];
    } else {
      var one := BackupVolumeSpec(k, h, fs, partial, noStop, vols[0], containers);
      PackKeepsHost(k, h, vols[0].name);
      assert OnlyPacked(k, h, one.host, [vols[0].name]);
      assert Names(vols) == [vols[0].name] + Names(vols[1..]);
      if one.volume.Ok? {
        BackupAllHost(k, one.host, one.fs, partial, noStop, vols[1..], containers);
        OnlyPackedTrans(k, h, one.host, BackupAllSpec(k, one.host, one.fs, partial, noStop, vols[1..], containers).host,
                        vols[0].name, Names(vols[1..]));
      }
    }
  }

  /** Only the unfinished file can have changed; without failing removals no file is left over. */
  ghost predicate OnlyPartial(fs: Fs, fs': Fs, partial: string) {
    && partial in fs.files && partial in fs'.files
    && KeepsBut(fs, fs', {partial})
    && (RemovalsWork(fs) ==> fs'.files.Keys == fs.files.Keys)
  }

  lemma OnlyPartialTrans(a: Fs, b: Fs, c: Fs, partial: string)
    requires OnlyPartial(a, b, partial) && OnlyPartial(b, c, partial)
    ensures OnlyPartial(a, c, partial)
  {
    RemovalsStay(a, b);
  }

  lemma {:induction false} BackupAllDisk(k: Codec, h: Host, fs: Fs, partial: string, noStop: bool, vols: seq<Volume>,
                                         containers: seq<Container>)
    requires Lawful(k) && partial in fs.files
    ensures OnlyPartial(fs, BackupAllSpec(k, h, fs, partial, noStop, vols, containers).fs, partial)
    decreases |vols|
  {
    hide Lawful, HelperSpec, AddVolumeSpec, BackupVolumeSpec, Recorded, A.PrintItem;
    if vols != [] {
      var one := BackupVolumeSpec(k, h, fs, partial, noStop, vols[0], containers);
      BackupVolumeFacts(k, h, fs, partial, noStop, vols[0], containers);
      assert OnlyPartial(fs, one.fs, partial);
      if one.volume.Ok? {
        BackupAllDisk(k, one.host, one.fs, partial, noStop, vols[1..], containers);
        OnlyPartialTrans(fs, one.fs, BackupAllSpec(k, one.host, one.fs, partial, noStop, vols[1..], containers).fs,
                         partial);
      }
    }
  }

  /** Every volume has been recorded and stored, in order. */
  ghost predicate AllStored(k: Codec, h: Host, fs: Fs, partial: string, noStop: bool, vols: seq<Volume>,
                            containers: seq<Container>,
                            all: Progress, zs: seq<Bytes>) {
    && Extends(h, all.host)
    && AllRecorded(k, vols, noStop, containers, all.volumes, zs, Delta(h, all.host))
    && partial in fs.files && partial in all.fs.files
    && all.fs.files[partial] == fs.files[partial] + A.PrintAll(k, VolumeItems(all.volumes, zs))
  }

  lemma {:induction false} BackupAllStored(k: Codec, h: Host, fs: Fs, partial: string, noStop: bool, vols: seq<Volume>,
                                           containers: seq<Container>)
    returns (zs: seq<Bytes>)
    requires Lawful(k) && partial in fs.files
    requires BackupAllSpec(k, h, fs, partial, noStop, vols, containers).err.None?
    ensures AllStored(k, h, fs, partial, noStop, vols, containers,
                      BackupAllSpec(k, h, fs, partial, noStop, vols, containers), zs)
    decreases |vols|
  {
    if vols == [] {
      zs := [];
      assert VolumeItems([], []) == [];
      assert Delta(h, h) == [];
    } else {
      hide Lawful, HelperSpec, AddVolumeSpec, BackupVolumeSpec, Recorded, A.PrintItem, M.VolumePath, Quiet, AllStored;
      var one := BackupVolumeSpec(k, h, fs, partial, noStop, vols[0], containers);
      BackupVolumeFacts(k, h, fs, partial, noStop, vols[0], containers);
      PackKeepsHost(k, h, vols[0].name);
      var more := BackupAllStored(k, one.host, one.fs, partial, noStop, vols[1..], containers);
      var z := k.finish(k.chop(HelperSpec(k, h, vols[0].name, Pack).stdout, |h.calls|));
      zs := [z] + more;
      AllStoredStep(k, h, fs, partial, noStop, vols, containers, one, z,
                    BackupAllSpec(k, one.host, one.fs, partial, noStop, vols[1..], containers), more);
    }
  }

  lemma AllStoredStep(k: Codec, h: Host, fs: Fs, partial: string, noStop: bool, vols: seq<Volume>,
                      containers: seq<Container>,
                      one: One, z: Bytes, rest: Progress, more: seq<Bytes>)
    requires vols != [] && one.volume.Ok? && partial in fs.files && partial in one.fs.files
    requires Extends(h, one.host) && |Delta(h, one.host)| == 1
    requires Recorded(k, vols[0], noStop, containers, one.volume.value, z, Delta(h, one.host)[0])
    requires one.fs.files[partial] == fs.files[partial] + A.PrintItem(k, A.Item(M.VolumePath(vols[0].name), z))
    requires AllStored(k, one.host, one.fs, partial, noStop, vols[1..], containers, rest, more)
    ensures AllStored(k, h, fs, partial, noStop, vols, containers, rest.(volumes := [one.volume.value] + rest.volumes),
                      [z] + more)
  {
    hide Recorded, A.PrintItem, M.VolumePath, A.PrintAll, VolumeItems;
    DeltaTrans(h, one.host, rest.host);
    RecordedName(k, vols[0], noStop, containers, one.volume.value, z, Delta(h, one.host)[0]);
    StoredStep(k, one.volume.value, z, rest.volumes, more);
    AllRecordedStep(k, vols, noStop, containers, [one.volume.value] + rest.volumes, [z] + more, Delta(h, rest.host));
  }

  lemma AllRecordedStep(k: Codec, vols: seq<Volume>, noStop: bool, containers: seq<Container>,
                        volumes: seq<M.Volume>, zs: seq<Bytes>, calls: seq<Call>)
    requires |vols| > 0 && |volumes| > 0 && |zs| > 0 && |calls| > 0
    requires Recorded(k, vols[0], noStop, containers, volumes[0], zs[0], calls[0])
    requires AllRecorded(k, vols[1..], noStop, containers, volumes[1..], zs[1..], calls[1..])
    ensures AllRecorded(k, vols, noStop, containers, volumes, zs, calls)
  {
    hide Recorded;
    forall i | 0 <= i < |vols|
      ensures Recorded(k, vols[i], noStop, containers, volumes[i], zs[i], calls[i])
    {
      if i != 0 {
        assert Recorded(k, vols[1..][i - 1], noStop, containers, volumes[1..][i - 1], zs[1..][i - 1],
                        calls[1..][i - 1]);
      }
    }
  }

  lemma StoredStep(k: Codec, mv: M.Volume, z: Bytes, volumes: seq<M.Volume>, zs: seq<Bytes>)
    requires |volumes| == |zs|
    ensures A.PrintAll(k, VolumeItems([mv] + volumes, [z] + zs))
            == A.PrintItem(k, A.Item(M.VolumePath(mv.name), z)) + A.PrintAll(k, VolumeItems(volumes, zs))
  {
    hide A.PrintItem, M.VolumePath;
    var it := A.Item(M.VolumePath(mv.name), z);
    assert VolumeItems([mv] + volumes, [z] + zs) == [it] + VolumeItems(volumes, zs);
    assert ([it] + VolumeItems(volumes, zs))[1..] == VolumeItems(volumes, zs);
  }

  lemma RemovalsStay(fs: Fs, fs': Fs)
    requires fs.faults == fs'.faults
    ensures RemovalsWork(fs) == RemovalsWork(fs')
  {
  }

  lemma RecordedName(k: Codec, v: Volume, noStop: bool, containers: seq<Container>, mv: M.Volume, z: Bytes, call: Call)
    requires Recorded(k, v, noStop, containers, mv, z, call)
    ensures mv.name == v.name
  {
  }

  // ---------- the whole run ----------

  lemma PreflightFacts(h: Host, opts: Options)
    ensures var ready := PreflightSpec(h, opts);
            && Extends(h, ready.host) && ready.host == h.(calls := ready.host.calls)
            && (forall c :: c in Delta(h, ready.host) ==> c.Ask?)
            && (ready.selected.Ok? ==>
                  ready.selected == Selection.VolumesSpec(VolumeList(h.volumes, h.order), opts.names, opts.projects))
  {
    hide Selection.VolumesSpec, VolumeList, AskSpec, Asked;
    var h1 := AskSpec(h, Info).0;
    var h2 := AskSpec(h1, EnsureImage).0;
    var h3 := AskSpec(h2, ListVolumes).0;
    var h4 := AskSpec(h3, ListContainers).0;
    var h5 := AskSpec(h4, VolumeSizes).0;
    AskedOne(h, Info);
    AskedOne(h1, EnsureImage);
    AskedOne(h2, ListVolumes);
    AskedOne(h3, ListContainers);
    AskedOne(h4, VolumeSizes);
    AskedTrans(h, h1, h2);
    AskedTrans(h, h2, h3);
    AskedTrans(h, h3, h4);
    AskedTrans(h, h4, h5);
    AskedMeans(h, PreflightSpec(h, opts).host);
  }

  /** h' is h after more questions. */
  ghost predicate Asked(h: Host, h': Host) {
    && h.calls <= h'.calls && h' == h.(calls := h'.calls)
    && forall c :: c in h'.calls[|h.calls|..] ==> c.Ask?
  }

  lemma AskedOne(h: Host, q: Query)
    ensures Asked(h, AskSpec(h, q).0)
  {
  }

  lemma AskedTrans(a: Host, b: Host, c: Host)
    requires Asked(a, b) && Asked(b, c)
    ensures Asked(a, c)
  {
    assert c.calls[|a.calls|..] == b.calls[|a.calls|..] + c.calls[|b.calls|..];
  }

  lemma AskedMeans(h: Host, h': Host)
    requires Asked(h, h')
    ensures Extends(h, h') && h' == h.(calls := h'.calls) && forall c :: c in Delta(h, h') ==> c.Ask?
  {
  }

  /** Packing stops and starts nothing. */
  lemma WorkHost(k: Codec, h: Host, fs: Fs, opts: Options, vols: seq<Volume>, containers: seq<Container>)
    ensures OnlyPacked(k, h, WorkSpec(k, h, fs, opts, vols, containers).host, Names(vols))
  {
    hide BackupAllSpec, FinishSpec, OnlyPacked;
    BackupAllHost(k, h, fs, opts.final + PARTIAL_SUFFIX, opts.noStop, vols, containers);
  }

  /** Once the users of the selected volumes are stopped - or if nobody writes to the volume anyway - it is quiet. */
  lemma SelectedIsQuiet(h: Host, opts: Options, vols: seq<Volume>, volume: string)
    requires S.StopAllSpec(h, ToStop(opts, vols, h.containers), {}).err.None?
    requires if opts.noStop then Quiet(h, volume) else volume in Names(vols)
    ensures Quiet(S.StopAllSpec(h, ToStop(opts, vols, h.containers), {}).host, volume)
  {
    var users := ToStop(opts, vols, h.containers);
    if !opts.noStop {
      S.UsersOfFacts(Names(vols), h.containers);
      forall c | c in h.containers && c.Writes(volume)
        ensures c.id in S.InUseIds(users)
      {
        assert S.UsesAny(c, Names(vols));
        assert c.id in S.Ids(users);
      }
    }
    S.StoppedIsQuiet(h, users, volume);
  }

  /** For every selection and every schedule of failures: what was stopped is started again, after everything else,
      and a container that could not be started is reported. */
  lemma BackupRestarts(k: Codec, h: Host, fs: Fs, opts: Options)
    ensures var out := RunSpec(k, h, fs, opts); EveryStopUndone(h, out.host, out.restartErrors)
  {
    hide WorkSpec, S.StopAllSpec, S.RestartSpec, EveryStopUndone, NewWriterSpec, PreflightSpec, OnlyPacked;
    var ready := PreflightSpec(h, opts);
    PreflightFacts(h, opts);
    NothingStopped(h, h);
    NothingStopped(h, ready.host);
    var (fs1, created) := NewWriterSpec(fs, opts.final);
    if !opts.cancelled && ready.selected.Ok? && created {
      var vols := ready.selected.value;
      var stop := S.StopAllSpec(ready.host, ToStop(opts, vols, ready.host.containers), {});
      if stop.err.Some? {
        assert Delta(stop.host, stop.host) == [];
        S.StopWorkRestart(h, ready.host, ToStop(opts, vols, ready.host.containers), stop.host);
      } else {
        WorkHost(k, stop.host, fs1, opts, vols, ready.host.containers);
        OnlyPackedIsCalm(k, stop.host, WorkSpec(k, stop.host, fs1, opts, vols, ready.host.containers).host,
                         Names(vols));
        S.StopWorkRestart(h, ready.host, ToStop(opts, vols, ready.host.containers),
                          WorkSpec(k, stop.host, fs1, opts, vols, ready.host.containers).host);
      }
    }
  }

  lemma OnlyPackedIsCalm(k: Codec, h: Host, h': Host, names: seq<string>)
    requires OnlyPacked(k, h, h', names)
    ensures Extends(h, h') && Calm(Delta(h, h')) && h'.containers == h.containers
  {
  }

  /** A backup never changes a volume, and without --no-stop it reads no volume that a container might be writing. */
  lemma BackupReadsQuietly(k: Codec, h: Host, fs: Fs, opts: Options)
    ensures var out := RunSpec(k, h, fs, opts);
            && Extends(h, out.host)
            && out.host.volumes == h.volumes && out.host.data == h.data && out.host.order == h.order
            && (!opts.noStop ==> OnlyQuietAccess(Delta(h, out.host)))
  {
    hide WorkSpec, S.StopAllSpec, S.RestartSpec, NewWriterSpec, PreflightSpec;
    BackupRestarts(k, h, fs, opts);
    var ready := PreflightSpec(h, opts);
    PreflightFacts(h, opts);
    assert Delta(h, h) == [];
    var (fs1, created) := NewWriterSpec(fs, opts.final);
    if !opts.cancelled && ready.selected.Ok? && created {
      ArchivingReads(k, ready.host, fs1, opts, ready.selected.value);
      DeltaTrans(h, ready.host, ArchivingSpec(k, ready.host, fs1, opts, ready.selected.value).host);
    }
  }

  lemma ArchivingReads(k: Codec, h: Host, fs: Fs, opts: Options, vols: seq<Volume>)
    ensures var out := ArchivingSpec(k, h, fs, opts, vols);
            && Extends(h, out.host)
            && out.host.volumes == h.volumes && out.host.data == h.data && out.host.order == h.order
            && (!opts.noStop ==> OnlyQuietAccess(Delta(h, out.host)))
  {
    hide WorkSpec, S.StopAllSpec, S.RestartSpec, ToStop;
    var cs := ToStop(opts, vols, h.containers);
    var stop := S.StopAllSpec(h, cs, {});
    S.StopAllFacts(h, cs, {});
    var worked := if stop.err.Some? then stop.host else WorkSpec(k, stop.host, fs, opts, vols, h.containers).host;
    if stop.err.None? {
      WorkHost(k, stop.host, fs, opts, vols, h.containers);
      if !opts.noStop {
        forall c | c in Delta(stop.host, worked) ensures c.quiet { SelectedIsQuiet(h, opts, vols, c.volume); }
      }
    } else {
      assert Delta(stop.host, stop.host) == [];
    }
    S.RestartFacts(worked, stop.added);
    var restart := S.RestartSpec(worked, stop.added);
    DeltaTrans(h, stop.host, worked);
    DeltaTrans(h, worked, restart.host);
    assert Delta(worked, restart.host) == S.StartCalls(Sort(S.BY_START, stop.added), S.Elements(restart.errs));
    forall c | c in Delta(h, restart.host) && MovesData(c)
      ensures c in Delta(stop.host, worked)
    {
      assert c !in Delta(h, stop.host) && c !in Delta(worked, restart.host);
    }
  }

  // ---------- the archive ----------

  lemma ImageFromParts(k: Codec, opts: Options, volumes: seq<M.Volume>, zs: seq<Bytes>)
    requires |volumes| == |zs|
    ensures A.PrintAll(k, VolumeItems(volumes, zs)) + Ending(k, Described(opts, volumes))
            == A.Image(k, Described(opts, volumes), zs)
  {
    hide A.PrintItem, M.VolumePath;
    var m := Described(opts, volumes);
    var a, b := A.Item(M.MANIFEST_PATH, k.yaml(m)), A.Item(M.README_PATH, k.readme(m));
    assert A.Items(k, m, zs) == VolumeItems(volumes, zs) + [a, b];
    A.PrintAllConcat(k, VolumeItems(volumes, zs), [a, b]);
    assert [a, b][1..] == [b] && [b][1..] == [];
    assert A.PrintAll(k, [b]) == A.PrintItem(k, b);
    assert A.PrintAll(k, [a, b]) == A.PrintItem(k, a) + A.PrintItem(k, b);
  }

  /** Only the unfinished file can have changed, or else it was completed and became the final file. */
  lemma WorkDisk(k: Codec, h: Host, fs: Fs, opts: Options, vols: seq<Volume>, containers: seq<Container>)
    returns (zs: seq<Bytes>)
    requires Lawful(k) && opts.final + PARTIAL_SUFFIX in fs.files && fs.files[opts.final + PARTIAL_SUFFIX] == []
    ensures var partial := opts.final + PARTIAL_SUFFIX;
            var work := WorkSpec(k, h, fs, opts, vols, containers);
            && (work.err.Some? ==> OnlyPartial(fs, work.fs, partial))
            && (work.err.None? ==>
                  && Extends(h, work.host)
                  && AllRecorded(k, vols, opts.noStop, containers, work.volumes, zs, Delta(h, work.host))
                  && opts.final in work.fs.files
                  && work.fs.files[opts.final] == A.Image(k, Described(opts, work.volumes), zs)
                  && KeepsBut(fs, work.fs, {partial, opts.final})
                  && partial !in work.fs.files
                  && (RemovalsWork(fs) ==> work.fs.files.Keys == fs.files.Keys - {partial} + {opts.final}))
  {
    hide BackupAllSpec, FinishSpec, AllRecorded, A.Image, Ending, Described, Lawful, A.PrintAll;
    var partial := opts.final + PARTIAL_SUFFIX;
    BackupAllDisk(k, h, fs, partial, opts.noStop, vols, containers);
    var all := BackupAllSpec(k, h, fs, partial, opts.noStop, vols, containers);
    zs := [];
    if all.err.None? {
      zs := BackupAllStored(k, h, fs, partial, opts.noStop, vols, containers);
      FinishFacts(k, all.fs, partial, opts.final, Described(opts, all.volumes));
      assert |opts.final| != |partial|;
      assert |all.volumes| == |zs| by {
        AllRecordedLengths(k, vols, opts.noStop, containers, all.volumes, zs, Delta(h, all.host));
      }
      ImageFromParts(k, opts, all.volumes, zs);
    }
  }

  lemma AllRecordedLengths(k: Codec, vols: seq<Volume>, noStop: bool, containers: seq<Container>,
                           volumes: seq<M.Volume>, zs: seq<Bytes>, calls: seq<Call>)
    requires AllRecorded(k, vols, noStop, containers, volumes, zs, calls)
    ensures |vols| == |volumes| == |zs| == |calls|
  {
  }

  /** Files, for every schedule of failures. No existing file changes, with one exception. If removals work, a failed
      run leaves the directory exactly as it was, and a successful one adds exactly the complete archive. The exception:
      Run can replace an existing archive only if the Stat that looks for it failed. */
  lemma BackupIsAtomic(k: Codec, h: Host, fs: Fs, opts: Options)
    requires Lawful(k)
    ensures var out := RunSpec(k, h, fs, opts);
            && out.path == (if out.err.None? then Some(opts.final) else None)
            && KeepsBut(fs, out.fs, if out.err.None? then {opts.final} else {})
            && (RemovalsWork(fs) && out.err.Some? ==> out.fs.files == fs.files)
            && (RemovalsWork(fs) && out.err.None? ==> out.fs.files.Keys == fs.files.Keys + {opts.final})
            && (out.err.None? ==> opts.final + PARTIAL_SUFFIX !in out.fs.files)
            && (out.err.None? && opts.final in fs.files ==> Disk.Fate(fs).fails)
  {
    hide WorkSpec, PreflightSpec, S.StopAllSpec, S.RestartSpec, Lawful, AllRecorded, A.Image;
    var ready := PreflightSpec(h, opts);
    var (fs1, created) := NewWriterSpec(fs, opts.final);
    if !opts.cancelled && ready.selected.Ok? && created {
      var vols, hp := ready.selected.value, ready.host;
      var stop := S.StopAllSpec(hp, ToStop(opts, vols, hp.containers), {});
      var partial := opts.final + PARTIAL_SUFFIX;
      assert fs1.files == fs.files[partial := []] && partial !in fs.files;
      assert |opts.final| != |partial|;
      RemovalsStay(fs, fs1);
      if stop.err.None? {
        var zs := WorkDisk(k, stop.host, fs1, opts, vols, hp.containers);
        var work := WorkSpec(k, stop.host, fs1, opts, vols, hp.containers);
        assert RemovalsWork(fs) ==> !Disk.Fate(work.fs).stays;
        if RemovalsWork(fs) && work.err.Some? {
          assert work.fs.files - {partial} == fs.files;
        }
      } else {
        assert fs1.files - {partial} == fs.files;
      }
    }
  }

  lemma NoFaultFinishes(k: Codec, fs: Fs, partial: string, final: string, m: M.Manifest)
    requires |fs.faults| <= |fs.log| && partial in fs.files
    ensures FinishSpec(k, fs, partial, final, m).1
  {
  }

  /** The archive of a successful run. It is the print of a manifest that lists exactly the selected volumes, in order
      and with their metadata. The helper runs of the backup are, in order, one pack run per volume, and each stored
      stream is what that run emitted; the flag consistent is set exactly when that run exited with 0 and it is not the
      case that containers were left running and one of them could write; and a volume marked consistent is stored
      exactly as the host held it. */
  lemma BackupArchive(k: Codec, h: Host, fs: Fs, opts: Options)
    returns (vols: seq<Volume>, m: M.Manifest, zs: seq<Bytes>, calls: seq<Call>)
    requires Lawful(k) && Sound(h)
    requires RunSpec(k, h, fs, opts).err.None?
    ensures var out := RunSpec(k, h, fs, opts);
            && Selection.VolumesSpec(VolumeList(h.volumes, h.order), opts.names, opts.projects) == Ok(vols)
            && (forall v :: v in vols ==> v.name in h.volumes && v == h.volumes[v.name])
            && m == Described(opts, m.volumes) && DescribedBy(m, opts.about)
            && A.Describes(k, m, zs)
            && opts.final in out.fs.files && out.fs.files[opts.final] == A.Image(k, m, zs)
            && AllRecorded(k, vols, opts.noStop, h.containers, m.volumes, zs, calls)
            && Extends(h, out.host) && HelperRuns(Delta(h, out.host)) == calls
            && forall i :: 0 <= i < |zs| && m.volumes[i].consistent ==>
               k.expand(zs[i]) == Some(k.pack(h.data[m.volumes[i].name]))
  {
    hide WorkSpec, PreflightSpec, S.StopAllSpec, S.RestartSpec, Lawful, AllRecorded, A.Image, A.Describes,
      Selection.VolumesSpec;
    var ready := PreflightSpec(h, opts);
    PreflightFacts(h, opts);
    var (fs1, created) := NewWriterSpec(fs, opts.final);
    var hp := ready.host;
    vols := ready.selected.value;
    SelectedVolumes(h, opts.names, opts.projects, vols);
    var cs := ToStop(opts, vols, h.containers);
    var stop := S.StopAllSpec(hp, cs, {});
    S.StopAllFacts(hp, cs, {});
    assert fs1.files == fs.files[opts.final + PARTIAL_SUFFIX := []];
    zs := WorkDisk(k, stop.host, fs1, opts, vols, h.containers);
    WorkHost(k, stop.host, fs1, opts, vols, h.containers);
    var work := WorkSpec(k, stop.host, fs1, opts, vols, h.containers);
    m := Described(opts, work.volumes);
    calls := Delta(stop.host, work.host);
    S.RestartFacts(work.host, stop.added);
    DeltaTrans(h, hp, stop.host);
    DeltaTrans(h, stop.host, work.host);
    DeltaTrans(h, work.host, RunSpec(k, h, fs, opts).host);
    OnlyPackRuns(k, h, hp, cs, work.host, Names(vols));
    RecordedDescribes(k, vols, opts, h.containers, work.volumes, zs, calls);
    ConsistentIsFaithful(k, hp, opts, vols, stop.host, work.host, work.volumes, zs);
  }

  /** Between the questions, the stops and the starts, packing makes all the helper runs. */
  lemma OnlyPackRuns(k: Codec, h: Host, ready: Host, cs: seq<Container>, worked: Host, names: seq<string>)
    requires Extends(h, ready) && forall c :: c in Delta(h, ready) ==> c.Ask?
    requires OnlyPacked(k, S.StopAllSpec(ready, cs, {}).host, worked, names)
    ensures var stop := S.StopAllSpec(ready, cs, {}); var end := S.RestartSpec(worked, stop.added).host;
            Extends(ready, stop.host) && Extends(h, end) && HelperRuns(Delta(h, end)) == Delta(stop.host, worked)
  {
    hide S.StopAllSpec, S.RestartSpec, Quiet, SameContainers;
    var stop := S.StopAllSpec(ready, cs, {});
    S.StopAllFacts(ready, cs, {});
    var end := S.RestartSpec(worked, stop.added).host;
    RestartRunsNoHelper(worked, stop.added);
    DeltaTrans(h, ready, stop.host);
    HelpersBetween(h, stop.host, worked, end);
  }

  lemma RestartRunsNoHelper(h: Host, stopped: seq<S.Entry>)
    requires S.DistinctIds(stopped)
    ensures var end := S.RestartSpec(h, stopped).host; Extends(h, end) && forall c :: c in Delta(h, end) ==> !c.Helper?
  {
    hide S.RestartSpec;
    S.RestartFacts(h, stopped);
    var restart := S.RestartSpec(h, stopped);
    assert Delta(h, restart.host) == S.StartCalls(Sort(S.BY_START, stopped), S.Elements(restart.errs));
  }

  lemma HelpersBetween(h: Host, a: Host, b: Host, end: Host)
    requires Extends(h, a) && Extends(a, b) && Extends(b, end)
    requires (forall c :: c in Delta(h, a) ==> !c.Helper?) && (forall c :: c in Delta(b, end) ==> !c.Helper?)
    requires forall c :: c in Delta(a, b) ==> c.Helper?
    ensures Extends(h, end) && HelperRuns(Delta(h, end)) == Delta(a, b)
  {
    hide SameContainers;
    DeltaTrans(h, a, b);
    DeltaTrans(h, b, end);
    AllOrNoHelpers(Delta(h, a));
    AllOrNoHelpers(Delta(a, b));
    AllOrNoHelpers(Delta(b, end));
    HelperRunsConcat(Delta(h, a), Delta(a, b));
    HelperRunsConcat(Delta(h, b), Delta(b, end));
  }

  /** A helper run that exits with a code that is not accepted - anything but 0, or 1 when containers are left running -
      or breaks off means that there is no archive. */
  lemma RefusedExitMeansNoArchive(k: Codec, h: Host, fs: Fs, opts: Options, call: Call)
    requires Lawful(k) && Sound(h)
    requires var out := RunSpec(k, h, fs, opts); Extends(h, out.host) && call in Delta(h, out.host)
    requires call.Helper? && call.result !in (if opts.noStop then {Exit(0), Exit(1)} else {Exit(0)})
    ensures var out := RunSpec(k, h, fs, opts); out.err.Some? && out.path.None? && KeepsBut(fs, out.fs, {})
  {
    hide RunSpec, Lawful, Sound, A.Image, A.Describes, Selection.VolumesSpec, AllRecorded, KeepsBut;
    var out := RunSpec(k, h, fs, opts);
    BackupIsAtomic(k, h, fs, opts);
    if out.err.None? {
      var vols, m, zs, calls := BackupArchive(k, h, fs, opts);
      HelperRunsMembers(Delta(h, out.host));
      AllAccepted(k, vols, opts.noStop, h.containers, m.volumes, zs, calls);
    }
  }

  lemma AllAccepted(k: Codec, vols: seq<Volume>, noStop: bool, containers: seq<Container>, volumes: seq<M.Volume>,
                    zs: seq<Bytes>, calls: seq<Call>)
    requires AllRecorded(k, vols, noStop, containers, volumes, zs, calls)
    ensures forall c :: c in calls ==> c.Helper? && c.result in (if noStop then {Exit(0), Exit(1)} else {Exit(0)})
  {
    forall c | c in calls ensures c.Helper? && c.result in (if noStop then {Exit(0), Exit(1)} else {Exit(0)}) {
      var i :| 0 <= i < |calls| && calls[i] == c;
      assert Recorded(k, vols[i], noStop, containers, volumes[i], zs[i], calls[i]);
    }
  }

  lemma SelectedVolumes(h: Host, names: seq<string>, projects: seq<string>, vols: seq<Volume>)
    requires Sound(h) && Selection.VolumesSpec(VolumeList(h.volumes, h.order), names, projects) == Ok(vols)
    ensures forall v :: v in vols ==> v.name in h.volumes && v == h.volumes[v.name]
    ensures forall i, j :: 0 <= i < j < |vols| ==> vols[i].name != vols[j].name
  {
    var list := VolumeList(h.volumes, h.order);
    VolumeListAt(h.volumes, h.order);
    Selection.VolumesDistinct(list, names, projects);
  }

  lemma RecordedDescribes(k: Codec, vols: seq<Volume>, opts: Options, containers: seq<Container>,
                          volumes: seq<M.Volume>, zs: seq<Bytes>, calls: seq<Call>)
    requires AllRecorded(k, vols, opts.noStop, containers, volumes, zs, calls)
    requires forall i, j :: 0 <= i < j < |vols| ==> vols[i].name != vols[j].name
    ensures A.Describes(k, Described(opts, volumes), zs)
  {
    hide M.ValidName, M.VolumePath;
    assert forall i :: 0 <= i < |vols| ==> Recorded(k, vols[i], opts.noStop, containers, volumes[i], zs[i], calls[i]);
    assert forall i :: 0 <= i < |vols| ==> volumes[i].name == vols[i].name;
  }

  lemma ConsistentIsFaithful(k: Codec, h: Host, opts: Options, vols: seq<Volume>, stopped: Host, worked: Host,
                             volumes: seq<M.Volume>, zs: seq<Bytes>)
    requires S.StopAllSpec(h, ToStop(opts, vols, h.containers), {}).err.None?
    requires stopped == S.StopAllSpec(h, ToStop(opts, vols, h.containers), {}).host && stopped.data == h.data
    requires OnlyPacked(k, stopped, worked, Names(vols))
    requires AllRecorded(k, vols, opts.noStop, h.containers, volumes, zs, Delta(stopped, worked))
    ensures forall i :: 0 <= i < |zs| && volumes[i].consistent ==>
              volumes[i].name in h.data && k.expand(zs[i]) == Some(k.pack(h.data[volumes[i].name]))
  {
    hide S.StopAllSpec, M.ValidName, M.VolumePath, ToStop;
    forall i | 0 <= i < |zs| && volumes[i].consistent
      ensures volumes[i].name in h.data && k.expand(zs[i]) == Some(k.pack(h.data[volumes[i].name]))
    {
      var call := Delta(stopped, worked)[i];
      assert Recorded(k, vols[i], opts.noStop, h.containers, volumes[i], zs[i], call);
      assert call in Delta(stopped, worked) && PackedFrom(k, stopped, call);
      assert Names(vols)[i] == vols[i].name;
      SelectedIsQuiet(h, opts, vols, vols[i].name);
    }
  }

  // ---------- the code ----------

  method UsersAndFlag(volume: string, containers: seq<Container>) returns (users: seq<M.User>, anyInUse: bool)
    ensures users == UsersOfVolume(UsersIn(volume, containers))
    ensures anyInUse == AnyInUse(UsersIn(volume, containers))
  {
    hide UsersOfVolume, AnyInUse;
    ghost var using: seq<Container> := [];
    users, anyInUse := [], false;
    NoUsers();
    for i := 0 to |containers|
      invariant UsersIn(volume, containers) == using + UsersIn(volume, containers[i..])
      invariant users == UsersOfVolume(using)
      invariant anyInUse == AnyInUse(using)
    {
      var c := containers[i];
      assert containers[i..][0] == c && containers[i..][1..] == containers[i + 1..];
      if !c.IsHelper() && c.UsesVolume(volume) {
        users := users + [M.User(c.name, c.image, c.Service(), c.InUse())];
        anyInUse := anyInUse || c.InUse();
        UsersSnoc(using, c);
        using := using + [c];
      }
    }
    assert using + [] == using;
  }

  lemma NoUsers()
    ensures UsersOfVolume([]) == [] && !AnyInUse([])
  {
  }

  lemma UsersSnoc(cs: seq<Container>, c: Container)
    ensures UsersOfVolume(cs + [c]) == UsersOfVolume(cs) + [M.User(c.name, c.image, c.Service(), c.InUse())]
    ensures AnyInUse(cs + [c]) == (AnyInUse(cs) || c.InUse())
  {
    if AnyInUse(cs) {
      var u :| u in cs && u.InUse();
      assert u in cs + [c];
    } else if c.InUse() {
      assert c in cs + [c];
    }
  }

  /** The sequential form of backupVolume. Refinement shows that every interleaving ends in a way it allows. */
  method BackupVolume(d: Daemon, w: Writer, noStop: bool, v: Volume, containers: seq<Container>)
    returns (r: Result<M.Volume, Error>)
    requires ZstdLaw(w.k) && d.k == w.k
    modifies d, w.disk
    ensures One(d.View(), w.disk.View(), r)
            == BackupVolumeSpec(w.k, old(d.View()), old(w.disk.View()), w.partial, noStop, v, containers)
  {
    var users, anyInUse := UsersAndFlag(v.name, containers);
    var consistent := true;
    var n := |d.calls|;
    var result, stdout, _ := d.RunHelper(v.name, Pack);
    var entry, plain := w.AddVolume(v.name, Source(w.k.chop(stdout, n), result.Broke?));
    if result.Broke? {
      return Err(HelperFailed(v.name));
    }
    if entry.None? {
      return Err(DiskFailed);
    }
    if result.code == 1 && noStop {
      consistent := false;
    } else if result.code != 0 {
      return Err(HelperExit(v.name, result.code));
    }
    if noStop && anyInUse {
      consistent := false;
    }
    return Ok(M.Volume(v.name, v.driver, v.options, v.labels, plain, entry.value, consistent, users));
  }

  method Preflight(d: Daemon, opts: Options) returns (selected: Result<seq<Volume>, Error>)
    modifies d
    ensures Ready(d.View(), selected) == PreflightSpec(old(d.View()), opts)
    ensures d.containers == old(d.containers)
  {
    var ok := d.Ask(Info);
    if !ok { return Err(DockerFailed); }
    ok := d.Ask(EnsureImage);
    if !ok { return Err(DockerFailed); }
    ok := d.Ask(ListVolumes);
    if !ok { return Err(DockerFailed); }
    selected := Selection.Volumes(VolumeList(d.volumes, d.order), opts.names, opts.projects);
    if selected.Err? { return; }
    ok := d.Ask(ListContainers);
    if !ok { return Err(DockerFailed); }
    var _ := d.Ask(VolumeSizes);
  }

  method BackupAll(d: Daemon, w: Writer, noStop: bool, vols: seq<Volume>, containers: seq<Container>)
    returns (volumes: seq<M.Volume>, err: Option<Error>)
    requires ZstdLaw(w.k) && d.k == w.k
    modifies d, w.disk
    ensures Progress(d.View(), w.disk.View(), volumes, err)
            == BackupAllSpec(w.k, old(d.View()), old(w.disk.View()), w.partial, noStop, vols, containers)
  {
    hide BackupVolumeSpec, ZstdLaw;
    volumes := [];
    ghost var h0, fs0 := d.View(), w.disk.View();
    for i := 0 to |vols|
      invariant var rest := BackupAllSpec(w.k, d.View(), w.disk.View(), w.partial, noStop, vols[i..], containers);
                BackupAllSpec(w.k, h0, fs0, w.partial, noStop, vols, containers)
                  == rest.(volumes := volumes + rest.volumes)
    {
      assert vols[i..][0] == vols[i] && vols[i..][1..] == vols[i + 1..];
      var r := BackupVolume(d, w, noStop, vols[i], containers);
      if r.Err? {
        assert volumes + [] == volumes;
        return volumes, Some(r.error);
      }
      volumes := volumes + [r.value];
    }
    assert volumes + [] == volumes;
    err := None;
  }

  /** The part of Run between its deferred calls and their execution: restart first, then remove the unfinished file
      after an error. */
  method Archiving(d: Daemon, w: Writer, opts: Options, vols: seq<Volume>)
    returns (path: Option<string>, restartErrors: seq<string>, err: Option<Error>)
    requires ZstdLaw(w.k) && d.k == w.k && !w.done && w.final == opts.final && w.partial == opts.final + PARTIAL_SUFFIX
    modifies d, w.disk, w`done
    ensures Outcome(d.View(), w.disk.View(), path, restartErrors, err)
            == ArchivingSpec(w.k, old(d.View()), old(w.disk.View()), opts, vols)
  {
    hide BackupAllSpec, FinishSpec, S.StopAllSpec, S.RestartSpec, S.UsersOfSpec, ZstdLaw;
    var containers := d.containers;
    var st := new S.Stopper(d);
    err := None;
    ghost var h := d.View();
    assert S.EntryIds([]) == {};
    if !opts.noStop {
      var users := S.UsersOf(Names(vols), containers);
      err := st.Stop(users);
    } else {
      NothingToStop(h);
    }
    assert S.Stopping(d.View(), st.stopped, err) == S.StopAllSpec(h, ToStop(opts, vols, containers), {});
    if err.None? {
      var volumes, failure := BackupAll(d, w, opts.noStop, vols, containers);
      err := failure;
      if err.None? {
        var ok := w.Finish(Described(opts, volumes));
        err := if ok then None else Some(DiskFailed);
      }
    }
    path := if err.None? then Some(w.final) else None;
    restartErrors := st.Restart();
    if err.Some? {
      var _ := w.Abort();
    }
  }

  lemma NothingToStop(h: Host)
    ensures S.StopAllSpec(h, [], {}) == S.Stopping(h, [], None)
  {
  }

  method Run(k: Codec, d: Daemon, disk: FileSystem, opts: Options)
    returns (path: Option<string>, restartErrors: seq<string>, err: Option<Error>)
    requires Lawful(k) && d.k == k
    modifies d, disk
    ensures Outcome(d.View(), disk.View(), path, restartErrors, err)
            == RunSpec(k, old(d.View()), old(disk.View()), opts)
  {
    hide PreflightSpec, NewWriterSpec, ArchivingSpec, HeaderLaw, TarLaw, ZstdLaw;
    if opts.cancelled {
      return None, [], Some(Cancelled);
    }
    var selected := Preflight(d, opts);
    if selected.Err? {
      return None, [], Some(selected.error);
    }
    var w := NewWriter(k, disk, opts.final);
    if w == null {
      return None, [], Some(AlreadyExists);
    }
    path, restartErrors, err := Archiving(d, w, opts, selected.value);
  }
}
