/** The archive manifest: names, entry paths and validation (internal/manifest). */
module Manifests {
  import opened Common

  const FORMAT_VERSION := 1
  const LABEL_PROJECT := "com.docker.compose.project"
  const MANIFEST_PATH := "manifest.yaml"
  const README_PATH := "README.md"
  const VOLUMES_PREFIX := "volumes/"
  const VOLUME_SUFFIX := ".tar.zst"

  datatype Entry = Entry(path: string, sizeBytes: nat, sha256: string)

  datatype User = User(name: string, image: string, service: string, wasRunning: bool)

  datatype Volume = Volume(name: string, driver: string, driverOpts: map<string, string>, labels: map<string, string>,
                           sizeBytes: nat, archive: Entry, consistent: bool, containers: seq<User>)
  {
    function Project(): string {
      if LABEL_PROJECT in labels then labels[LABEL_PROJECT] else ""
    }
  }

  datatype Manifest = Manifest(formatVersion: int, tool: string, createdAt: int, host: string, dockerVersion: string,
                               helperImage: string, volumes: seq<Volume>)

  predicate Alphanumeric(c: char) {
    'a' <= c <= 'z' || 'A' <= c <= 'Z' || '0' <= c <= '9'
  }

  /** The regular expression ^[a-zA-Z0-9][a-zA-Z0-9_.-]*$ */
  predicate ValidName(name: string) {
    && name != ""
    && Alphanumeric(name[0])
    && forall i | 0 <= i < |name| :: Alphanumeric(name[i]) || name[i] in "_.-"
  }

  predicate LetterOrDigit(c: char) {
    || c in "abcdefghijklm" || c in "nopqrstuvwxyz"
    || c in "ABCDEFGHIJKLM" || c in "NOPQRSTUVWXYZ"
    || c in "0123456789"
  }

  /** The names in plain terms: a letter or digit, then letters, digits and "_.-". No valid name contains a slash or
      looks like a flag. */
  lemma ValidNameMeans(name: string)
    ensures ValidName(name) <==>
              && name != "" && LetterOrDigit(name[0])
              && forall c :: c in name ==> LetterOrDigit(c) || c == '_' || c == '.' || c == '-'
    ensures ValidName(name) ==> '/' !in name && name[0] != '-' && name[0] != '.'
  {
    forall c: char ensures Alphanumeric(c) <==> LetterOrDigit(c) { AlphanumericMeans(c); }
    hide LetterOrDigit;
    if ValidName(name) {
      forall c | c in name ensures LetterOrDigit(c) || c == '_' || c == '.' || c == '-' {
        var i :| 0 <= i < |name| && name[i] == c;
      }
    }
  }

  lemma AlphanumericMeans(c: char)
    ensures Alphanumeric(c) <==> LetterOrDigit(c)
  {
    LowerMeans(c);
    UpperMeans(c);
    DigitMeans(c);
  }

  lemma LowerMeans(c: char)
    ensures 'a' <= c <= 'm' <==> c in "abcdefghijklm"
    ensures 'n' <= c <= 'z' <==> c in "nopqrstuvwxyz"
  {
    if 'a' <= c <= 'm' {
      assert "abcdefghijklm"[c as int - 'a' as int] == c;
    } else if 'n' <= c <= 'z' {
      assert "nopqrstuvwxyz"[c as int - 'n' as int] == c;
    }
  }

  lemma UpperMeans(c: char)
    ensures 'A' <= c <= 'M' <==> c in "ABCDEFGHIJKLM"
    ensures 'N' <= c <= 'Z' <==> c in "NOPQRSTUVWXYZ"
  {
    if 'A' <= c <= 'M' {
      assert "ABCDEFGHIJKLM"[c as int - 'A' as int] == c;
    } else if 'N' <= c <= 'Z' {
      assert "NOPQRSTUVWXYZ"[c as int - 'N' as int] == c;
    }
  }

  lemma DigitMeans(c: char)
    ensures '0' <= c <= '9' <==> c in "0123456789"
  {
    if '0' <= c <= '9' {
      assert "0123456789"[c as int - '0' as int] == c;
    }
  }

  function VolumePath(name: string): string {
    VOLUMES_PREFIX + name + VOLUME_SUFFIX
  }

  /** What the rest of the tool relies on once a manifest has been accepted. */
  predicate Trusted(vols: seq<Volume>) {
    && (forall i | 0 <= i < |vols| ::
          ValidName(vols[i].name) && vols[i].archive.path == VolumePath(vols[i].name) && |vols[i].archive.sha256| == 64)
    && (forall i, j | 0 <= i < j < |vols| :: vols[i].name != vols[j].name)
  }

  /** Manifest.Validate accepts exactly the trusted volume lists. */
  method Validate(vols: seq<Volume>) returns (err: Option<Error>)
    ensures err.None? <==> Trusted(vols)
  {
    var seen: set<string> := {};
    for i := 0 to |vols|
      invariant Trusted(vols[..i])
      invariant seen == set j | 0 <= j < i :: vols[j].name
    {
      var v := vols[i];
      if !ValidName(v.name) {
        return Some(InvalidName(v.name));
      }
      if v.name in seen {
        return Some(BadManifest);
      }
      seen := seen + {v.name};
      if v.archive.path != VolumePath(v.name) {
        return Some(BadManifest);
      }
      if |v.archive.sha256| != 64 {
        return Some(BadManifest);
      }
    }
    assert vols[..|vols|] == vols;
    return None;
  }

  /** The first volume of that name. */
  function Find(vols: seq<Volume>, name: string): (r: Option<Volume>)
    ensures r.Some? ==> r.value in vols && r.value.name == name
    ensures r.None? <==> forall v :: v in vols ==> v.name != name
  {
    if vols == [] then None
    else if vols[0].name == name then Some(vols[0])
    else Find(vols[1..], name)
  }

  lemma {:induction false} FindByIndex(vols: seq<Volume>, i: nat)
    requires i < |vols| && (forall j, l :: 0 <= j < l < |vols| ==> vols[j].name != vols[l].name)
    ensures Find(vols, vols[i].name) == Some(vols[i])
  {
    if i != 0 {
      FindByIndex(vols[1..], i - 1);
    }
  }

  /** Entry names the reader accepts for volume data; only ValidName stands between the prefix and the suffix. */
  predicate IsVolumeEntry(name: string) {
    && |name| >= |VOLUMES_PREFIX|
    && name[..|VOLUMES_PREFIX|] == VOLUMES_PREFIX
    && var rest := name[|VOLUMES_PREFIX|..];
    && |rest| >= |VOLUME_SUFFIX|
    && rest[|rest| - |VOLUME_SUFFIX|..] == VOLUME_SUFFIX
    && ValidName(rest[..|rest| - |VOLUME_SUFFIX|])
  }

  /** Whatever entry the reader accepts as a volume is the path of a valid name. */
  lemma VolumeEntryIsPath(entry: string) returns (name: string)
    requires IsVolumeEntry(entry)
    ensures ValidName(name) && entry == "volumes/" + name + ".tar.zst"
  {
    var rest := entry[|VOLUMES_PREFIX|..];
    name := rest[..|rest| - |VOLUME_SUFFIX|];
    assert rest == name + rest[|rest| - |VOLUME_SUFFIX|..];
    assert entry == entry[..|VOLUMES_PREFIX|] + rest;
  }

  /** The reader accepts a volume path exactly when the writer would have written it, and paths never collide. */
  lemma VolumePaths(a: string, b: string)
    ensures IsVolumeEntry(VolumePath(a)) <==> ValidName(a)
    ensures VolumePath(a) == VolumePath(b) <==> a == b
    ensures VolumePath(a) != MANIFEST_PATH && VolumePath(a) != README_PATH
  {
    var p := VolumePath(a);
    assert p[..|VOLUMES_PREFIX|] == VOLUMES_PREFIX;
    assert p[|VOLUMES_PREFIX|..] == a + VOLUME_SUFFIX;
    assert (a + VOLUME_SUFFIX)[|a|..] == VOLUME_SUFFIX;
    assert (a + VOLUME_SUFFIX)[..|a|] == a;
    assert p[0] == 'v' && MANIFEST_PATH[0] == 'm' && README_PATH[0] == 'R';
    if p == VolumePath(b) {
      var q := VolumePath(b);
      assert |a| == |b|;
      assert a == p[|VOLUMES_PREFIX|..|VOLUMES_PREFIX| + |a|] == q[|VOLUMES_PREFIX|..|VOLUMES_PREFIX| + |b|] == b;
    }
  }
}
