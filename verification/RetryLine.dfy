/** The retry command as the program's own command line reads it (newRoot and restoreCmd in cmd/dv-backup/main.go). */
module RetryLine {
  import opened Common
  import opened Codecs
  import opened ShellWords
  import A = Archive
  import D = Docker
  import M = Manifests
  import P = RestorePromises
  import R = Restore

  /** What the arguments of restore say. */
  datatype Line = Line(image: string, force: bool, verifyOnly: bool, projects: seq<string>, positional: seq<string>)

  /** Taken for a flag. */
  predicate FlagLike(arg: string) {
    |arg| > 1 && arg[0] == '-'
  }

  /** Flags may stand anywhere before a "--". Forms that the retry never uses, such as --image=x, are not read. */
  function ReadArgs(args: seq<string>, l: Line): Option<Line>
    decreases |args|
  {
    if args == [] then Some(l)
    else if args[0] == "--" then Some(l.(positional := l.positional + args[1..]))
    else if args[0] == "--force" then ReadArgs(args[1..], l.(force := true))
    else if args[0] == "--verify-only" then ReadArgs(args[1..], l.(verifyOnly := true))
    else if args[0] in {"--image", "--project", "-p"} then
      if |args| == 1 then None
      else if args[0] == "--image" then ReadArgs(args[2..], l.(image := args[1]))
      else ReadArgs(args[2..], l.(projects := l.projects + [args[1]]))
    else if FlagLike(args[0]) then None
    else ReadArgs(args[1..], l.(positional := l.positional + [args[0]]))
  }

  datatype Request = Request(image: string, archive: string, opts: R.Options)

  /** A whole command line; env is the value of DV_BACKUP_IMAGE, empty if it is not set. */
  function ReadRestore(env: string, words: seq<string>): Option<Request> {
    if |words| < 2 || words[0] != "dv-backup" || words[1] != "restore" then None
    else
      var l := ReadArgs(words[2..], Line(if env == "" then DEFAULT_IMAGE else env, false, false, [], []));
      if l.None? || l.value.positional == [] || (l.value.verifyOnly && l.value.force) then None
      else
        var p := l.value.positional;
        Some(Request(l.value.image, p[0], R.Options(p[1..], l.value.projects, l.value.force, l.value.verifyOnly)))
  }

  /** Arguments that are no flags are all taken as they are. */
  lemma {:induction false} PlainArgs(args: seq<string>, l: Line)
    requires forall a :: a in args ==> !FlagLike(a)
    ensures ReadArgs(args, l) == Some(l.(positional := l.positional + args))
    decreases |args|
  {
    if args == [] {
      assert l.positional + [] == l.positional;
    } else {
      assert args[0] in args;
      PlainArgs(args[1..], l.(positional := l.positional + [args[0]]));
      assert l.positional + [args[0]] + args[1..] == l.positional + args;
    }
  }

  /** The archive and the names are read back exactly if the archive does not look like a flag. */
  lemma ArchiveAndNames(archive: string, names: seq<string>, l: Line)
    requires (forall n :: n in names ==> !FlagLike(n)) && l.positional == []
    ensures !FlagLike(archive) ==> ReadArgs([archive] + names, l) == Some(l.(positional := [archive] + names))
    ensures FlagLike(archive) ==>
              var read := ReadArgs([archive] + names, l);
              read.Some? ==> read.value.positional == [] || read.value.positional[0] != archive
  {
    var args := [archive] + names;
    assert args[1..] == names;
    if !FlagLike(archive) {
      PlainArgs(args, l);
      assert [] + args == args;
    } else {
      FlagLikeArchive(archive, names, l);
    }
  }

  lemma FlagLikeArchive(archive: string, names: seq<string>, l: Line)
    requires (forall n :: n in names ==> !FlagLike(n)) && l.positional == [] && FlagLike(archive)
    ensures var read := ReadArgs([archive] + names, l);
            read.Some? ==> read.value.positional == [] || read.value.positional[0] in names
  {
    var args := [archive] + names;
    assert args[0] == archive && args[1..] == names;
    hide FlagLike;
    if archive == "--force" {
      PlainArgs(names, l.(force := true));
    } else if archive == "--verify-only" {
      PlainArgs(names, l.(verifyOnly := true));
    } else if archive in {"--image", "--project", "-p"} && names != [] {
      assert args[2..] == names[1..];
      ValueEaten(names, l.(image := names[0]));
      ValueEaten(names, l.(projects := l.projects + [names[0]]));
    }
  }

  lemma ValueEaten(names: seq<string>, l: Line)
    requires names != [] && (forall n :: n in names ==> !FlagLike(n)) && l.positional == []
    ensures ReadArgs(names[1..], l) == Some(l.(positional := names[1..]))
  {
    hide FlagLike;
    assert forall n :: n in names[1..] ==> n in names;
    PlainArgs(names[1..], l);
    assert [] + names[1..] == names[1..];
  }

  /** The image is the one of the first run. */
  predicate SameImage(image: string, env: string) {
    image != DEFAULT_IMAGE || env == "" || env == DEFAULT_IMAGE
  }

  lemma RetryReads(env: string, image: string, archive: string, failed: seq<string>, untouched: seq<string>)
    requires forall n :: n in failed + untouched ==> !FlagLike(n)
    ensures ReadRestore(env, RetryArgs(image, archive, failed, untouched))
            == Some(Request(image, archive, R.Options(failed + untouched, [], true, false)))
            <==> !FlagLike(archive) && SameImage(image, env)
  {
    var words, names := RetryArgs(image, archive, failed, untouched), failed + untouched;
    var first := Line(if env == "" then DEFAULT_IMAGE else env, false, false, [], []);
    var l := Line(if image != DEFAULT_IMAGE then image else first.image, true, false, [], []);
    var last := [archive] + names;
    RetryShape(image, archive, failed, untouched);
    FlagsRead(image, last, first);
    ArchiveAndNames(archive, names, l);
    hide ReadArgs, RetryArgs, FlagLike;
    assert last[1..] == names && last[0] == archive;
  }

  function Flags(image: string): seq<string> {
    ["--force"] + if image != DEFAULT_IMAGE then ["--image", image] else []
  }

  lemma RetryShape(image: string, archive: string, failed: seq<string>, untouched: seq<string>)
    ensures var words := RetryArgs(image, archive, failed, untouched);
            && |words| >= 2 && words[0] == "dv-backup" && words[1] == "restore"
            && words[2..] == Flags(image) + ([archive] + (failed + untouched))
  {
    var flags := if image != DEFAULT_IMAGE then ["--image", image] else [];
    var last := [archive] + failed + untouched;
    assert last == [archive] + (failed + untouched);
    assert RetryArgs(image, archive, failed, untouched) == ["dv-backup", "restore"] + (["--force"] + flags + last);
  }

  lemma FlagsRead(image: string, last: seq<string>, l: Line)
    ensures ReadArgs(Flags(image) + last, l)
            == ReadArgs(last, l.(force := true, image := if image != DEFAULT_IMAGE then image else l.image))
  {
    var args := Flags(image) + last;
    var rest := args[1..];
    assert args[0] == "--force";
    if image != DEFAULT_IMAGE {
      assert rest[0] == "--image" && rest[1] == image && rest[2..] == last;
    } else {
      assert rest == last;
    }
  }

  /** The retry that a restore prints when it stops early, read by a shell and by the program, is the retry that
      completes the job - the same image and archive, forced, for exactly the failed and the untouched volumes - if and
      only if the archive's name does not look like a flag and the environment does not name another image while the
      first run used the default. */
  lemma RetryLineMeansRetry(k: Codec, h: D.Host, file: R.ArchiveFile, opts: R.Options, image: string, archive: string,
                            env: string)
    requires D.Sound(h) && D.MountsExist(h) && R.PlanningSpec(k, h, file, opts).Go?
    ensures var out := R.RunSpec(k, h, file, opts);
            ReadRestore(env, RetryArgs(image, archive, out.failed, out.untouched))
            == Some(Request(image, archive, P.RetryOptions(out)))
            <==> !FlagLike(archive) && SameImage(image, env)
  {
    hide R.PlanningSpec, R.PrepareSpec, R.ExecuteSpec, R.RunSpec, D.Sound, D.MountsExist, R.IsRestored, R.SameVolume,
      R.GoodPlan,
      ReadRestore, RetryArgs, FlagLike, R.Looked;
    var out := R.RunSpec(k, h, file, opts);
    R.PlanningFacts(k, h, file, opts);
    R.PrepareFacts(k, file, opts);
    R.RestoreEffect(k, h, file, opts);
    var vols := R.PrepareSpec(k, file, opts).value.selected;
    forall n | n in out.failed + out.untouched ensures !FlagLike(n) {
      assert n in out.restored + out.failed + out.untouched;
      var i :| 0 <= i < |vols| && R.VolumeNames(vols)[i] == n;
      assert vols[i] in vols;
      NoFlagAmong(k, file, R.PrepareSpec(k, file, opts).value.reader, vols[i]);
    }
    RetryReads(env, image, archive, out.failed, out.untouched);
  }

  lemma NoFlagAmong(k: Codec, file: R.ArchiveFile, r: A.Reader, v: M.Volume)
    requires file.bytes.Some? && A.OpenSpec(k, file.bytes.value) == Some(r) && v in r.m.volumes
    ensures !FlagLike(v.name)
  {
    hide A.OpenSpec;
    A.OpenIsSafe(k, file.bytes.value);
    var i :| 0 <= i < |r.m.volumes| && r.m.volumes[i] == v;
    assert M.ValidName(v.name) && M.Alphanumeric(v.name[0]);
  }
}
