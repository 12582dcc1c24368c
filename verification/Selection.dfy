/** Choosing volumes by name and Compose project (internal/selection). */
module Selection {
  import opened Common
  import opened Sorting
  import D = Docker
  import M = Manifests

  const LABEL_ANONYMOUS := "com.docker.volume.anonymous"

  predicate LowerHex(c: char) {
    '0' <= c <= '9' || 'a' <= c <= 'f'
  }

  predicate IsAnonymous(v: D.Volume) {
    LABEL_ANONYMOUS in v.labels || (|v.name| == 64 && forall c | c in v.name :: LowerHex(c))
  }

  const BY_NAME := (a: D.Volume, b: D.Volume) => LexLeq(a.name, b.name)

  /** Anonymous in plain terms: labelled so by the engine, or named by 64 hexadecimal digits. */
  lemma AnonymousMeans(v: D.Volume)
    ensures IsAnonymous(v) <==>
              || "com.docker.volume.anonymous" in v.labels
              || (|v.name| == 64 && forall c :: c in v.name ==> c in "0123456789abcdef")
  {
    forall c: char ensures LowerHex(c) <==> c in "0123456789abcdef" { HexMeans(c); }
    hide LowerHex;
  }

  lemma HexMeans(c: char)
    ensures LowerHex(c) <==> c in "0123456789abcdef"
  {
    if '0' <= c <= '9' {
      assert "0123456789abcdef"[c as int - '0' as int] == c;
    } else if 'a' <= c <= 'f' {
      assert "0123456789abcdef"[10 + c as int - 'a' as int] == c;
    }
  }

  function KeepNamed(vols: seq<D.Volume>): seq<D.Volume> {
    if vols == [] then [] else (if IsAnonymous(vols[0]) then [] else [vols[0]]) + KeepNamed(vols[1..])
  }

  function NamedSpec(vols: seq<D.Volume>): seq<D.Volume> {
    Sort(BY_NAME, KeepNamed(vols))
  }

  lemma {:induction false} KeepNamedMembers(vols: seq<D.Volume>)
    ensures forall v :: v in KeepNamed(vols) <==> v in vols && !IsAnonymous(v)
  {
    if vols != [] {
      KeepNamedMembers(vols[1..]);
      assert vols == [vols[0]] + vols[1..];
    }
  }

  lemma {:induction false} KeepNamedDistinct(vols: seq<D.Volume>)
    requires forall i, j :: 0 <= i < j < |vols| ==> vols[i].name != vols[j].name
    ensures DistinctKeys((v: D.Volume) => v.name, KeepNamed(vols))
  {
    if vols != [] {
      KeepNamedDistinct(vols[1..]);
      KeepNamedMembers(vols[1..]);
      assert forall v :: v in vols[1..] ==> v.name != vols[0].name;
    }
  }

  /** Exactly the volumes that are not anonymous, in ascending order of name; distinct names stay distinct. */
  lemma NamedFacts(vols: seq<D.Volume>)
    requires forall i, j :: 0 <= i < j < |vols| ==> vols[i].name != vols[j].name
    ensures var out := NamedSpec(vols);
            && (forall v :: v in out <==> v in vols && !IsAnonymous(v))
            && (forall i, j :: 0 <= i < j < |out| ==> LexLeq(out[i].name, out[j].name))
            && DistinctKeys((v: D.Volume) => v.name, out)
  {
    var kept, out := KeepNamed(vols), NamedSpec(vols);
    ByNameIsOrder();
    SortIsStable(BY_NAME, kept);
    SameMembers(kept, out);
    KeepNamedMembers(vols);
    KeepNamedDistinct(vols);
    PermutedKeys((v: D.Volume) => v.name, kept, out);
  }

  lemma ByNameIsOrder()
    ensures TotalPreorder(BY_NAME)
  {
    forall a: D.Volume, b: D.Volume ensures BY_NAME(a, b) || BY_NAME(b, a) { LexTotal(a.name, b.name); }
    forall a: D.Volume, b: D.Volume, c: D.Volume | BY_NAME(a, b) && BY_NAME(b, c)
      ensures BY_NAME(a, c)
    {
      LexTransitive(a.name, b.name, c.name);
    }
  }

  method Named(vols: seq<D.Volume>) returns (out: seq<D.Volume>)
    ensures out == NamedSpec(vols)
  {
    out := [];
    for i := 0 to |vols|
      invariant KeepNamed(vols) == out + KeepNamed(vols[i..])
    {
      assert vols[i..][0] == vols[i] && vols[i..][1..] == vols[i + 1..];
      if !IsAnonymous(vols[i]) {
        out := out + [vols[i]];
      }
    }
    assert out + [] == out;
    out := Sort(BY_NAME, out);
  }

  // ---------- Filter ----------

  predicate Wanted<T>(it: T, name: T -> string, project: T -> string, names: seq<string>, projects: seq<string>) {
    name(it) in names || project(it) in projects
  }

  function Matching<T>(items: seq<T>, name: T -> string, project: T -> string, names: seq<string>,
                       projects: seq<string>): seq<T> {
    if items == [] then []
    else (if Wanted(items[0], name, project, names, projects) then [items[0]] else [])
         + Matching(items[1..], name, project, names, projects)
  }

  /** The requested keys that no item has. */
  function Missing<T>(items: seq<T>, key: T -> string, wanted: seq<string>): set<string> {
    set w | w in wanted && forall i | 0 <= i < |items| :: key(items[i]) != w
  }

  function FilterSpec<T>(items: seq<T>, name: T -> string, project: T -> string, names: seq<string>,
                         projects: seq<string>): Result<seq<T>, Error> {
    if names == [] && projects == [] then
      if items == [] then Err(NothingSelected) else Ok(items)
    else if Missing(items, name, names) + Missing(items, project, projects) != {} then
      Err(NotFound(Missing(items, name, names), Missing(items, project, projects)))
    else
      Ok(Matching(items, name, project, names, projects))
  }

  /** The positions picked by a successful filter: all and only the wanted ones, in order. */
  ghost predicate Picks<T>(items: seq<T>, out: seq<T>, at: seq<nat>, want: T -> bool) {
    && |at| == |out|
    && (forall i :: 0 <= i < |at| ==> at[i] < |items| && out[i] == items[at[i]])
    && Ascending(at)
    && (forall p :: 0 <= p < |items| ==> (p in at <==> want(items[p])))
  }

  lemma PicksStep<T>(items: seq<T>, out: seq<T>, at: seq<nat>, want: T -> bool)
    requires items != [] && Picks(items[1..], out, at, want)
    ensures Picks(items, (if want(items[0]) then [items[0]] else []) + out, Shifted(at, want(items[0])), want)
  {
    hide Shifted, Ascending;
    var first := want(items[0]);
    var d, more := if first then 1 else 0, Shifted(at, first);
    ShiftedAt(at, first);
    ShiftedAscending(at, first);
    forall i | 0 <= i < |more|
      ensures more[i] < |items| && ((if first then [items[0]] else []) + out)[i] == items[more[i]]
    {
      assert i >= d ==> out[i - d] == items[1..][at[i - d]];
    }
    forall p | 0 <= p < |items| ensures p in more <==> want(items[p]) {
      ShiftedMember(at, first, p);
      assert p != 0 ==> items[p] == items[1..][p - 1];
    }
  }

  lemma {:induction false} MatchingPicks<T>(items: seq<T>, name: T -> string, project: T -> string, names: seq<string>,
                                            projects: seq<string>,
                                            want: T -> bool)
    returns (at: seq<nat>)
    requires forall it :: it in items ==> want(it) == Wanted(it, name, project, names, projects)
    ensures Picks(items, Matching(items, name, project, names, projects), at, want)
  {
    if items == [] {
      at := [];
    } else {
      var rest := MatchingPicks(items[1..], name, project, names, projects, want);
      at := Shifted(rest, want(items[0]));
      PicksStep(items, Matching(items[1..], name, project, names, projects), rest, want);
    }
  }

  /** A filter succeeds exactly when every request matches something (or, without requests, when there is anything at
      all); it then returns the wanted items in their original order, and never an empty list. */
  lemma FilterFacts<T(!new)>(items: seq<T>, name: T -> string, project: T -> string, names: seq<string>,
                             projects: seq<string>)
    returns (at: seq<nat>)
    ensures var r := FilterSpec(items, name, project, names, projects);
            && (r.Ok? <==> if names == [] && projects == [] then items != [] else
                  (forall n :: n in names ==> exists it :: it in items && name(it) == n) &&
                  (forall p :: p in projects ==> exists it :: it in items && project(it) == p))
            && (r.Ok? ==> r.value != [])
            && (r.Err? && (names != [] || projects != []) ==>
                  && r.error.NotFound?
                  && (forall n :: n in r.error.names <==> n in names && forall it :: it in items ==> name(it) != n)
                  && (forall p :: p in r.error.projects <==>
                        p in projects && forall it :: it in items ==> project(it) != p))
            && (r.Ok? ==>
                  Picks(items, r.value, at,
                        it => (names == [] && projects == []) || Wanted(it, name, project, names, projects)))
  {
    var r := FilterSpec(items, name, project, names, projects);
    if names == [] && projects == [] {
      at := seq(|items|, i requires 0 <= i < |items| => i);
      forall p | 0 <= p < |items| ensures p in at { assert at[p] == p; }
    } else {
      at := MatchingPicks(items, name, project, names, projects,
                          it => (names == [] && projects == []) || Wanted(it, name, project, names, projects));
      var a, b := Missing(items, name, names), Missing(items, project, projects);
      if r.Ok? {
        assert a == {} && b == {};
        forall n | n in names ensures exists it :: it in items && name(it) == n { assert n !in a; }
        forall p | p in projects ensures exists it :: it in items && project(it) == p { assert p !in b; }
        if names != [] {
          assert names[0] in names;
        } else {
          assert projects[0] in projects;
        }
        var it :| it in items && Wanted(it, name, project, names, projects);
        var p :| 0 <= p < |items| && items[p] == it;
        assert p in at;
      }
    }
  }

  method Filter<T>(items: seq<T>, name: T -> string, project: T -> string, names: seq<string>, projects: seq<string>)
    returns (r: Result<seq<T>, Error>)
    ensures r == FilterSpec(items, name, project, names, projects)
  {
    hide Flags, Missing;
    if names == [] && projects == [] {
      if items == [] {
        return Err(NothingSelected);
      }
      return Ok(items);
    }
    var wantName := Unseen(names);
    var wantProject := Unseen(projects);
    var out: seq<T> := [];
    FlagsInit(items, name, names, wantName);
    FlagsInit(items, project, projects, wantProject);
    for i := 0 to |items|
      invariant Flags(items, name, names, i, wantName) && Flags(items, project, projects, i, wantProject)
      invariant Matching(items, name, project, names, projects)
                == out + Matching(items[i..], name, project, names, projects)
    {
      var it := items[i];
      assert items[i..][0] == it && items[i..][1..] == items[i + 1..];
      FlagsNext(items, name, names, i, wantName);
      FlagsNext(items, project, projects, i, wantProject);
      var byName, byProject := name(it) in wantName, project(it) in wantProject;
      if byName {
        wantName := wantName[name(it) := true];
      }
      if byProject {
        wantProject := wantProject[project(it) := true];
      }
      if byName || byProject {
        out := out + [it];
      }
    }
    var missingNames := set n | n in wantName && !wantName[n];
    var missingProjects := set p | p in wantProject && !wantProject[p];
    FlagsEnd(items, name, names, wantName);
    FlagsEnd(items, project, projects, wantProject);
    if missingNames + missingProjects != {} {
      return Err(NotFound(missingNames, missingProjects));
    }
    assert out + [] == out;
    return Ok(out);
  }

  /** The flag of each wanted key says whether one of the first i items has it. */
  ghost predicate Flags<T>(items: seq<T>, key: T -> string, wanted: seq<string>, i: nat, flags: map<string, bool>)
    requires i <= |items|
  {
    && (forall w :: w in flags <==> w in wanted)
    && (forall w :: w in flags ==> (flags[w] <==> exists j :: 0 <= j < i && key(items[j]) == w))
  }

  lemma FlagsInit<T>(items: seq<T>, key: T -> string, wanted: seq<string>, flags: map<string, bool>)
    requires flags.Keys == (set w | w in wanted) && forall w :: w in flags ==> !flags[w]
    ensures Flags(items, key, wanted, 0, flags)
  {
    assert forall w :: w in flags <==> w in flags.Keys;
  }

  lemma FlagsNext<T>(items: seq<T>, key: T -> string, wanted: seq<string>, i: nat, flags: map<string, bool>)
    requires i < |items| && Flags(items, key, wanted, i, flags)
    ensures var k := key(items[i]);
            && (k in flags <==> k in wanted)
            && Flags(items, key, wanted, i + 1, if k in flags then flags[k := true] else flags)
  {
  }

  lemma FlagsEnd<T>(items: seq<T>, key: T -> string, wanted: seq<string>, flags: map<string, bool>)
    requires Flags(items, key, wanted, |items|, flags)
    ensures (set w | w in flags && !flags[w]) == Missing(items, key, wanted)
  {
  }

  method Unseen(wanted: seq<string>) returns (m: map<string, bool>)
    ensures m.Keys == (set w | w in wanted) && forall w :: w in m ==> !m[w]
  {
    m := map[];
    for i := 0 to |wanted|
      invariant m.Keys == (set w | w in wanted[..i]) && forall w :: w in m ==> !m[w]
    {
      m := m[wanted[i] := false];
    }
    assert wanted[..|wanted|] == wanted;
  }

  function ProjectOf(v: D.Volume): string {
    if M.LABEL_PROJECT in v.labels then v.labels[M.LABEL_PROJECT] else ""
  }

  function VolumesSpec(vols: seq<D.Volume>, names: seq<string>, projects: seq<string>): Result<seq<D.Volume>, Error> {
    FilterSpec(NamedSpec(vols), (v: D.Volume) => v.name, ProjectOf, names, projects)
  }

  method Volumes(vols: seq<D.Volume>, names: seq<string>, projects: seq<string>)
    returns (r: Result<seq<D.Volume>, Error>)
    ensures r == VolumesSpec(vols, names, projects)
  {
    var named := Named(vols);
    r := Filter(named, (v: D.Volume) => v.name, ProjectOf, names, projects);
  }

  /** Asked for by name, by the Compose project in the labels, or because nothing was asked for. */
  predicate Requested(v: D.Volume, names: seq<string>, projects: seq<string>) {
    || (names == [] && projects == [])
    || v.name in names
    || (if "com.docker.compose.project" in v.labels then v.labels["com.docker.compose.project"] else "") in projects
  }

  /** Of volumes with distinct names exactly those are selected that are not anonymous and are asked for, each once and
      in the order of their names. */
  lemma VolumesDistinct(vols: seq<D.Volume>, names: seq<string>, projects: seq<string>)
    requires forall i, j :: 0 <= i < j < |vols| ==> vols[i].name != vols[j].name
    ensures var r := VolumesSpec(vols, names, projects);
            r.Ok? ==>
              && (forall i, j :: 0 <= i < j < |r.value| ==>
                    r.value[i].name != r.value[j].name && LexLeq(r.value[i].name, r.value[j].name))
              && (forall v :: v in r.value <==> v in vols && !IsAnonymous(v) && Requested(v, names, projects))
  {
    hide IsAnonymous, LexLeq;
    NamedFacts(vols);
    var named := NamedSpec(vols);
    var key := (v: D.Volume) => v.name;
    var at := FilterFacts(named, key, ProjectOf, names, projects);
    var r := VolumesSpec(vols, names, projects);
    if r.Ok? {
      forall i, j | 0 <= i < j < |r.value|
        ensures r.value[i].name != r.value[j].name && LexLeq(r.value[i].name, r.value[j].name)
      {
        assert at[i] < at[j];
        assert key(named[at[i]]) != key(named[at[j]]);
      }
      forall v ensures v in r.value <==> v in named && Requested(v, names, projects) {
        PickedMembers(named, r.value, at, v, names, projects);
      }
    }
  }

  lemma PickedMembers(named: seq<D.Volume>, out: seq<D.Volume>, at: seq<nat>, v: D.Volume, names: seq<string>,
                      projects: seq<string>)
    requires Picks(named, out, at, it => (names == [] && projects == [])
                                         || Wanted(it, (v: D.Volume) => v.name, ProjectOf, names, projects))
    ensures v in out <==> v in named && Requested(v, names, projects)
  {
    if v in out {
      var i :| 0 <= i < |out| && out[i] == v;
      assert at[i] in at;
    }
    if v in named && Requested(v, names, projects) {
      var p :| 0 <= p < |named| && named[p] == v;
      assert p in at;
      var i :| 0 <= i < |at| && at[i] == p;
      assert out[i] == v;
    }
  }
}
