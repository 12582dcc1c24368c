/** The output directory and the file operations the archive writer uses, each of which can fail. */
module Disk {
  import opened Common

  /** What one operation meets: fails fails it (a failed write still leaves its first wrote bytes), stays makes a
      removal fail, and temp is the random name a temporary file is given. */
  datatype FsFault = FsFault(fails: bool, wrote: nat, stays: bool, temp: string)

  const NO_FAULT := FsFault(false, 0, false, ".dv-backup-0.tmp")

  datatype Op =
    | Look(path: string)
    | MakeNew(path: string)
    | MakeTemp
    | Write(path: string)
    | Chmod(path: string)
    | Rewind(path: string)
    | StartEncoder
    | Render
    | Sync(path: string)
    | CloseFile(path: string)
    | Move(from: string, to: string)
    | Delete(path: string)

  /** An operation and whether it went well. */
  datatype Done = Done(op: Op, ok: bool)

  /** log is what was done so far; faults[i] belongs to the i-th operation. */
  datatype Fs = Fs(files: map<string, Bytes>, faults: seq<FsFault>, log: seq<Done>)

  function Fate(fs: Fs): FsFault {
    if |fs.log| < |fs.faults| then fs.faults[|fs.log|] else NO_FAULT
  }

  /** No removal fails. */
  ghost predicate RemovalsWork(fs: Fs) {
    forall f :: f in fs.faults ==> !f.stays
  }

  function Held(fs: Fs, path: string): Bytes {
    if path in fs.files then fs.files[path] else []
  }

  function Step(fs: Fs, op: Op, ok: bool, files: map<string, Bytes>): Fs {
    Fs(files, fs.faults, fs.log + [Done(op, ok)])
  }

  /** Whether the file is seen; a failing Stat looks like a missing file to its caller. */
  function StatSpec(fs: Fs, path: string): (Fs, bool) {
    (Step(fs, Look(path), !Fate(fs).fails, fs.files), path in fs.files && !Fate(fs).fails)
  }

  function CreateSpec(fs: Fs, path: string): (Fs, bool) {
    var ok := !Fate(fs).fails && path !in fs.files;
    (Step(fs, MakeNew(path), ok, if ok then fs.files[path := []] else fs.files), ok)
  }

  function TempSpec(fs: Fs): (Fs, Option<string>) {
    var path := Fate(fs).temp;
    if Fate(fs).fails || path in fs.files then (Step(fs, MakeTemp, false, fs.files), None)
    else (Step(fs, MakeTemp, true, fs.files[path := []]), Some(path))
  }

  function AppendSpec(fs: Fs, path: string, data: Bytes): (Fs, bool) {
    var f := Fate(fs);
    var through := if f.fails then data[..if f.wrote < |data| then f.wrote else |data|] else data;
    (Step(fs, Write(path), !f.fails, fs.files[path := Held(fs, path) + through]), !f.fails)
  }

  /** Any operation that changes no file. */
  function AttemptSpec(fs: Fs, op: Op): (Fs, bool) {
    (Step(fs, op, !Fate(fs).fails, fs.files), !Fate(fs).fails)
  }

  function RenameSpec(fs: Fs, from: string, to: string): (Fs, bool) {
    var ok := !Fate(fs).fails && from in fs.files;
    (Step(fs, Move(from, to), ok, if ok then (fs.files - {from})[to := fs.files[from]] else fs.files), ok)
  }

  function RemoveSpec(fs: Fs, path: string): (Fs, bool) {
    var ok := !Fate(fs).stays;
    (Step(fs, Delete(path), ok, if ok then fs.files - {path} else fs.files), ok)
  }

  /** fs' comes after fs, and everything done in between went well, except perhaps removals. */
  ghost predicate AllWent(fs: Fs, fs': Fs) {
    && fs.log <= fs'.log
    && forall d :: d in fs'.log[|fs.log|..] ==> d.ok || d.op.Delete?
  }

  lemma AllWentTrans(a: Fs, b: Fs, c: Fs)
    requires AllWent(a, b) && AllWent(b, c)
    ensures AllWent(a, c)
  {
    assert c.log[|a.log|..] == b.log[|a.log|..] + c.log[|b.log|..];
  }

  /** Every file that was there before, except those in paths, still is, unchanged. */
  ghost predicate KeepsBut(fs: Fs, fs': Fs, paths: set<string>) {
    && fs'.faults == fs.faults
    && forall p :: p in fs.files && p !in paths ==> p in fs'.files && fs'.files[p] == fs.files[p]
  }

  class FileSystem {
    var files: map<string, Bytes>
    var log: seq<Done>
    const faults: seq<FsFault>

    constructor (fs: Fs)
      ensures View() == fs
    {
      files, log, faults := fs.files, fs.log, fs.faults;
    }

    function View(): Fs
      reads this
    {
      Fs(files, faults, log)
    }

    method Next() returns (f: FsFault)
      ensures f == Fate(View())
    {
      f := if |log| < |faults| then faults[|log|] else NO_FAULT;
    }

    method Stat(path: string) returns (seen: bool)
      modifies this`log
      ensures (View(), seen) == StatSpec(old(View()), path)
    {
      var f := Next();
      seen := path in files && !f.fails;
      log := log + [Done(Look(path), !f.fails)];
    }

    method CreateExclusive(path: string) returns (ok: bool)
      modifies this
      ensures (View(), ok) == CreateSpec(old(View()), path)
    {
      var f := Next();
      ok := !f.fails && path !in files;
      if ok {
        files := files[path := []];
      }
      log := log + [Done(MakeNew(path), ok)];
    }

    method CreateTemp() returns (path: Option<string>)
      modifies this
      ensures (View(), path) == TempSpec(old(View()))
    {
      var f := Next();
      if f.fails || f.temp in files {
        log := log + [Done(MakeTemp, false)];
        return None;
      }
      log := log + [Done(MakeTemp, true)];
      files := files[f.temp := []];
      return Some(f.temp);
    }

    method Append(path: string, data: Bytes) returns (ok: bool)
      modifies this
      ensures (View(), ok) == AppendSpec(old(View()), path, data)
    {
      var f := Next();
      var through := if f.fails then data[..if f.wrote < |data| then f.wrote else |data|] else data;
      files := files[path := Held(View(), path) + through];
      ok := !f.fails;
      log := log + [Done(Write(path), ok)];
    }

    method Attempt(op: Op) returns (ok: bool)
      modifies this`log
      ensures (View(), ok) == AttemptSpec(old(View()), op)
    {
      var f := Next();
      ok := !f.fails;
      log := log + [Done(op, ok)];
    }

    method Rename(from: string, to: string) returns (ok: bool)
      modifies this
      ensures (View(), ok) == RenameSpec(old(View()), from, to)
    {
      var f := Next();
      ok := !f.fails && from in files;
      if ok {
        files := (files - {from})[to := files[from]];
      }
      log := log + [Done(Move(from, to), ok)];
    }

    method Remove(path: string) returns (ok: bool)
      modifies this
      ensures (View(), ok) == RemoveSpec(old(View()), path)
    {
      var f := Next();
      ok := !f.stays;
      if ok {
        files := files - {path};
      }
      log := log + [Done(Delete(path), ok)];
    }
  }
}
