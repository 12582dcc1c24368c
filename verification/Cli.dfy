/** The exit code of a run (finish in cmd/dv-backup/main.go). */
module Cli {
  import opened Common
  import opened Codecs
  import opened Docker
  import opened Traces
  import B = Backup
  import R = Restore
  import Disk

  function ExitCode(err: Option<Error>, restartErrors: seq<string>): int {
    if err.Some? then 1 else if restartErrors != [] then 3 else 0
  }

  /** Every container is as it was, except that one that was stopped meanwhile is running. */
  ghost predicate ContainersBack(h: Host, h': Host) {
    && |h'.containers| == |h.containers|
    && forall i :: 0 <= i < |h.containers| ==>
         h'.containers[i] == h.containers[i] || h'.containers[i] == h.containers[i].(status := Running)
  }

  /** A container that did not come back: stopped by the run, started again without success. */
  ghost predicate LeftStopped(h: Host, h': Host, id: string) {
    Extends(h, h') && Lifecycle(Delta(h, h'), id) == [Stop(id, true), Start(id, false)]
  }

  /** The exit code tells whether the containers came back: after 0 all of them did; after 3 the named ones, and only
      those, did not. */
  lemma CodeOfPromise(h: Host, h': Host, err: Option<Error>, restartErrors: seq<string>)
    requires EveryStopUndone(h, h', restartErrors)
    ensures forall id :: id in restartErrors <==> LeftStopped(h, h', id)
    ensures restartErrors != [] ==> exists id :: LeftStopped(h, h', id)
    ensures restartErrors == [] ==> ContainersBack(h, h')
  {
    assert restartErrors != [] ==> restartErrors[0] in restartErrors;
    forall i | 0 <= i < |h.containers| && restartErrors == []
      ensures h'.containers[i] == h.containers[i] || h'.containers[i] == h.containers[i].(status := Running)
    {
      assert h.containers[i].id !in restartErrors;
    }
  }

  /** Backup: 0 means a finished archive and all containers back, 3 a finished archive with containers left stopped, and
      1 no archive. */
  lemma BackupExitCode(k: Codec, h: Host, fs: Disk.Fs, opts: B.Options)
    requires Lawful(k)
    ensures var out := B.RunSpec(k, h, fs, opts); var code := ExitCode(out.err, out.restartErrors);
            && code in {0, 1, 3}
            && (code == 1 <==> out.path.None?)
            && (code == 0 ==> ContainersBack(h, out.host))
            && (code == 3 ==> exists id :: LeftStopped(h, out.host, id))
  {
    hide B.RunSpec, EveryStopUndone, LeftStopped, ContainersBack;
    var out := B.RunSpec(k, h, fs, opts);
    B.BackupRestarts(k, h, fs, opts);
    B.BackupIsAtomic(k, h, fs, opts);
    CodeOfPromise(h, out.host, out.err, out.restartErrors);
  }

  /** Restore: 0 means everything selected was restored and all containers are back, 3 everything restored with
      containers left stopped. */
  lemma RestoreExitCode(k: Codec, h: Host, file: R.ArchiveFile, opts: R.Options)
    requires Sound(h) && MountsExist(h)
    ensures var out := R.RunSpec(k, h, file, opts); var code := ExitCode(out.err, out.restartErrors);
            && code in {0, 1, 3}
            && (code == 0 ==> ContainersBack(h, out.host))
            && (code == 3 ==> exists id :: LeftStopped(h, out.host, id))
            && (code != 1 && R.PlanningSpec(k, h, file, opts).Go? ==> out.failed == [] && out.untouched == [])
  {
    hide R.RunSpec, R.PlanningSpec, R.PrepareSpec, EveryStopUndone, LeftStopped, ContainersBack, R.IsRestored,
      R.SameVolume, Sound, MountsExist;
    var out := R.RunSpec(k, h, file, opts);
    R.RestoreRestarts(k, h, file, opts);
    R.RestoreEffect(k, h, file, opts);
    CodeOfPromise(h, out.host, out.err, out.restartErrors);
  }
}
