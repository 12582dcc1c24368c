/** Two promises of restore: without --force it is harmless, and the retry it recommends completes the job. */
module RestorePromises {
  import opened Common
  import opened Codecs
  import opened Docker
  import opened Traces
  import opened Sorting
  import opened Restore
  import M = Manifests
  import A = Archive
  import S = Stopper
  import Selection

  // ---------- without --force ----------

  lemma NobodyToStop(steps: seq<Step>)
    requires forall s :: s in steps ==> s.stop == []
    ensures ToStopSpec(steps) == []
  {
    var out := ToStopSpec(steps);
    assert out != [] ==> out[0] in out;
    ToStopFacts(steps);
  }

  lemma StopNobody(h: Host)
    ensures S.StopAllSpec(h, [], {}) == S.Stopping(h, [], None)
    ensures S.RestartSpec(h, []) == S.Restarts(h, [])
  {
  }

  /** For every archive and schedule of failures, a restore without --force stops no container, changes no volume that
      held data and no settings of an existing one. It goes ahead only if every selected volume is missing, or empty and
      out of use; otherwise it does nothing but look. If the archive, the selection or a checksum is bad, Docker is not
      asked anything, with or without --force. */
  lemma UnforcedIsHarmless(k: Codec, h: Host, file: ArchiveFile, opts: Options)
    requires Sound(h)
    ensures var p, out := PlanningSpec(k, h, file, opts), RunSpec(k, h, file, opts);
            && Extends(h, out.host)
            && (PrepareSpec(k, file, opts).Err? ==> out.host == h && out.err.Some?)
            && (p.Halt? ==> Looked(h, out.host))
            && (!opts.force ==>
                  && Calm(Delta(h, out.host)) && out.restartErrors == []
                  && (forall n :: n in h.data && h.data[n] != map[] ==>
                        n in out.host.data && out.host.data[n] == h.data[n])
                  && (forall n :: n in h.volumes ==> n in out.host.volumes && out.host.volumes[n] == h.volumes[n])
                  && (p.Go? ==> forall v :: v in PrepareSpec(k, file, opts).value.selected && v.name in h.volumes ==>
                        v.name in h.data && h.data[v.name] == map[] && Quiet(h, v.name)))
  {
    hide PlanningSpec, PrepareSpec, ApplyAllSpec, S.StopAllSpec, S.RestartSpec, ToStopSpec;
    var p, out := PlanningSpec(k, h, file, opts), RunSpec(k, h, file, opts);
    PlanningFacts(k, h, file, opts);
    BadPreparation(k, h, file, opts);
    assert Sound(p.host) by { LookedIs(h, p.host); }
    if p.Halt? {
      assert out.host == p.host;
    } else {
      RestoreRestarts(k, h, file, opts);
      if !opts.force {
        NobodyToStop(p.steps);
        StopNobody(p.host);
        StopNobody(ApplyAllSpec(k, p.host, p.reader, p.steps).host);
        UnforcedSteps(k, p.host, p.reader, p.steps);
        DeltaTrans(h, p.host, out.host);
        forall v | v in PrepareSpec(k, file, opts).value.selected && v.name in h.volumes
          ensures v.name in h.data && h.data[v.name] == map[] && Quiet(h, v.name)
        {
          var i :| 0 <= i < |p.steps| && p.steps[i].volume == v;
          assert p.steps[i] in p.steps;
        }
      }
    }
  }

  lemma BadPreparation(k: Codec, h: Host, file: ArchiveFile, opts: Options)
    ensures PrepareSpec(k, file, opts).Err? ==>
            PlanningSpec(k, h, file, opts) == Halt(h, Some(PrepareSpec(k, file, opts).error))
  {
    hide PrepareSpec;
  }

  /** Creating and unpacking into empty volumes touches nothing that holds data. */
  lemma {:induction false} UnforcedSteps(k: Codec, h: Host, r: A.Reader, steps: seq<Step>)
    requires Sound(h) && GoodPlan(h, steps, false)
    ensures var h' := ApplyAllSpec(k, h, r, steps).host;
            && Extends(h, h') && Calm(Delta(h, h')) && h'.containers == h.containers
            && (forall n :: n in h.data && h.data[n] != map[] ==> n in h'.data && h'.data[n] == h.data[n])
            && (forall n :: n in h.volumes ==> n in h'.volumes && h'.volumes[n] == h.volumes[n])
  {
    hide ApplyAllSpec;
    ApplyAllTouches(k, h, r, steps);
    ApplyAllKeepsSettings(k, h, r, steps);
    var h' := ApplyAllSpec(k, h, r, steps).host;
    forall n | n in h.data && h.data[n] != map[]
      ensures n in h'.data && h'.data[n] == h.data[n]
    {
      forall s | s in steps ensures s.volume.name != n {
        assert Fits(h, s);
      }
      assert n !in Names(steps);
    }
  }

  lemma {:induction false} ApplyAllKeepsSettings(k: Codec, h: Host, r: A.Reader, steps: seq<Step>)
    requires Sound(h)
    ensures var h' := ApplyAllSpec(k, h, r, steps).host;
            forall n :: n in h.volumes ==> n in h'.volumes && h'.volumes[n] == h.volumes[n]
    decreases |steps|
  {
    hide ApplySpec, Sound;
    if steps != [] {
      var one := ApplySpec(k, h, r, steps[0]);
      StepTouches(k, h, r, steps[0]);
      if one.err.None? {
        ApplyAllKeepsSettings(k, one.host, r, steps[1..]);
      }
    }
  }

  // ---------- choosing the rest again ----------

  /** An ascending sequence is determined by its members. */
  lemma {:induction false} AscendingUnique(a: seq<nat>, b: seq<nat>)
    requires Ascending(a) && Ascending(b)
    requires forall p :: p in a <==> p in b
    ensures a == b
    decreases |a| + |b|
  {
    assert a != [] ==> a[0] in a;
    assert b != [] ==> b[0] in b;
    if a != [] && b != [] {
      assert a[0] in b && b[0] in a;
      assert a[0] == b[0];
      forall p ensures p in a[1..] <==> p in b[1..] {
        assert p in a[1..] <==> p in a && p != a[0];
        assert p in b[1..] <==> p in b && p != b[0];
      }
      AscendingUnique(a[1..], b[1..]);
      assert a == [a[0]] + a[1..] && b == [b[0]] + b[1..];
    }
  }

  /** Where a selection lies in the manifest. */
  lemma Positions(items: seq<M.Volume>, names: seq<string>, projects: seq<string>, out: seq<M.Volume>)
    returns (at: seq<nat>)
    requires Selection.FilterSpec(items, NAME_OF, PROJECT_OF, names, projects) == Ok(out)
    ensures |at| == |out| && Ascending(at)
    ensures forall i :: 0 <= i < |at| ==> at[i] < |items| && out[i] == items[at[i]]
    ensures names != [] && projects == [] ==> forall p :: 0 <= p < |items| ==> (p in at <==> items[p].name in names)
  {
    at := Selection.FilterFacts(items, NAME_OF, PROJECT_OF, names, projects);
    hide Selection.FilterSpec;
    if names != [] && projects == [] {
      forall p | 0 <= p < |items| ensures p in at <==> items[p].name in names {
        assert Selection.Wanted(items[p], NAME_OF, PROJECT_OF, names, projects) <==> items[p].name in names;
      }
    }
  }

  /** Names of volumes of the manifest are always found. */
  lemma NamesAreFound(items: seq<M.Volume>, vols: seq<M.Volume>)
    requires vols != [] && forall v :: v in vols ==> v in items
    ensures Selection.FilterSpec(items, NAME_OF, PROJECT_OF, VolumeNames(vols), []).Ok?
  {
    var wanted := VolumeNames(vols);
    assert |wanted| == |vols|;
    var _ := Selection.FilterFacts(items, NAME_OF, PROJECT_OF, wanted, []);
    hide Selection.FilterSpec;
    forall n | n in wanted
      ensures exists it :: it in items && NAME_OF(it) == n
    {
      var i :| 0 <= i < |wanted| && wanted[i] == n;
      assert vols[i] in items && NAME_OF(vols[i]) == n;
    }
  }

  /** Asking for the names of the last volumes of a selection selects exactly these again. */
  lemma SelectSuffix(items: seq<M.Volume>, opts: Options, vols: seq<M.Volume>, d: nat)
    requires forall i, j :: 0 <= i < j < |items| ==> items[i].name != items[j].name
    requires Selection.FilterSpec(items, NAME_OF, PROJECT_OF, opts.names, opts.projects) == Ok(vols)
    requires d < |vols|
    ensures Selection.FilterSpec(items, NAME_OF, PROJECT_OF, VolumeNames(vols[d..]), []) == Ok(vols[d..])
  {
    hide Selection.FilterSpec, VolumeNames;
    var rest := vols[d..];
    var wanted := VolumeNames(rest);
    var at := Positions(items, opts.names, opts.projects, vols);
    NamesAreFound(items, rest);
    var out := Selection.FilterSpec(items, NAME_OF, PROJECT_OF, wanted, []).value;
    var again := Positions(items, wanted, [], out);
    assert wanted != [] by { VolumeNamesLength(rest); }
    forall p ensures p in again <==> p in at[d..] {
      SuffixMember(items, vols, at, again, out, d, p);
    }
    AscendingUnique(again, at[d..]);
    assert |out| == |rest|;
    forall i | 0 <= i < |out| ensures out[i] == rest[i] {
      assert again[i] == at[d + i];
    }
    assert out == rest;
  }

  lemma VolumeNamesLength(vols: seq<M.Volume>)
    ensures |VolumeNames(vols)| == |vols|
  {
  }

  lemma SuffixMember(items: seq<M.Volume>, vols: seq<M.Volume>, at: seq<nat>, again: seq<nat>, out: seq<M.Volume>,
                     d: nat, p: nat)
    requires forall i, j :: 0 <= i < j < |items| ==> items[i].name != items[j].name
    requires d < |vols| && |at| == |vols| && (forall i :: 0 <= i < |at| ==> at[i] < |items| && vols[i] == items[at[i]])
    requires |again| == |out| && (forall i :: 0 <= i < |again| ==> again[i] < |items| && out[i] == items[again[i]])
    requires forall q :: 0 <= q < |items| ==> (q in again <==> items[q].name in VolumeNames(vols[d..]))
    ensures p in again <==> p in at[d..]
  {
    var wanted := VolumeNames(vols[d..]);
    if p in at[d..] {
      var i :| 0 <= i < |at| - d && at[d..][i] == p;
      assert wanted[i] == items[p].name;
    }
    if p in again {
      var i :| 0 <= i < |wanted| && wanted[i] == items[p].name;
      assert vols[d + i] == items[at[d + i]];
      assert p == at[d + i] == at[d..][i];
    }
  }

  // ---------- a run in which every request is answered ----------

  lemma {:induction false} SurveyAnswers(k: Codec, h: Host, vols: seq<M.Volume>, containers: seq<Container>,
                                         states: map<string, State>)
    requires Sound(h) && FaultFree(h)
    ensures SurveySpec(k, h, vols, containers, states).states.Ok?
    decreases |vols|
  {
    if vols != [] {
      var o := ObserveSpec(k, h, vols[0].name, containers);
      var (asked, _) := AskSpec(h, Inspect(vols[0].name));
      assert vols[0].name in h.data ==> asked.data[vols[0].name := asked.data[vols[0].name]] == asked.data;
      SurveyAnswers(k, o.host, vols[1..], containers, states[vols[0].name := o.state.value]);
    }
  }

  lemma ApplyAnswers(k: Codec, h: Host, r: A.Reader, s: Step)
    requires Sound(h) && FaultFree(h) && Fits(h, s) && EntriesOf(k, r, s.volume.name).Some?
    ensures ApplySpec(k, h, r, s).err.None?
  {
    hide A.OpenVolumeSpec;
  }

  lemma {:induction false} ApplyAllAnswers(k: Codec, h: Host, r: A.Reader, steps: seq<Step>)
    requires Sound(h) && FaultFree(h) && DistinctSteps(steps)
    requires forall s :: s in steps ==> Fits(h, s) && Quiet(h, s.volume.name) && EntriesOf(k, r, s.volume.name).Some?
    ensures ApplyAllSpec(k, h, r, steps).err.None?
    decreases |steps|
  {
    hide ApplySpec, Sound, Fits, EntriesOf, FaultFree;
    if steps != [] {
      var one := ApplySpec(k, h, r, steps[0]);
      ApplyAnswers(k, h, r, steps[0]);
      ApplyFacts(k, h, r, steps[0]);
      FaultFreeLater(h, one.host);
      forall t | t in steps[1..] ensures Fits(one.host, t) && Quiet(one.host, t.volume.name) {
        StillFits(h, one.host, steps[0], t);
      }
      ApplyAllAnswers(k, one.host, r, steps[1..]);
    }
  }

  /** A good plan whose archive data decodes is carried out completely. */
  lemma ExecuteAnswers(k: Codec, h: Host, r: A.Reader, steps: seq<Step>, force: bool)
    requires Sound(h) && MountsExist(h) && FaultFree(h) && GoodPlan(h, steps, force)
    requires forall s :: s in steps ==> EntriesOf(k, r, s.volume.name).Some?
    ensures var out := ExecuteSpec(k, h, r, steps);
            out.err.None? && out.restored == Names(steps) && out.restartErrors == []
  {
    hide ApplyAllSpec, S.StopAllSpec, S.RestartSpec, ToStopSpec, Fits, EntriesOf, FaultFree;
    var cs := ToStopSpec(steps);
    ToStopFacts(steps);
    forall c | c in cs ensures c.id in h.startedAt {
      var s :| s in steps && c in s.stop;
      assert c in h.containers;
    }
    FaultFreeAnswers(h);
    S.StopAllAnswers(h, cs, {}, {});
    var stop := S.StopAllSpec(h, cs, {});
    S.StopAllFacts(h, cs, {});
    StopKeeps(h, cs);
    FaultFreeLater(h, stop.host);
    GoodPlanLater(h, stop.host, steps, force);
    forall s | s in steps ensures Quiet(stop.host, s.volume.name) { PlannedIsQuiet(h, steps, force, s); }
    ApplyAllAnswers(k, stop.host, r, steps);
    ApplyAllFacts(k, stop.host, r, steps);
    var worked := ApplyAllSpec(k, stop.host, r, steps).host;
    FaultFreeLater(stop.host, worked);
    FaultFreeAnswers(worked);
    S.RestartAnswers(worked, stop.added, {});
  }

  // ---------- the host after a run ----------

  /** Only containers that were in use are stopped. */
  lemma StoppedWereInUse(h: Host, steps: seq<Step>, i: nat)
    requires Sound(h) && i < |h.containers|
    requires forall s, c :: s in steps && c in s.stop ==> c in h.containers
    requires h.containers[i].id in S.EntryIds(S.StopAllSpec(h, ToStopSpec(steps), {}).added)
    ensures h.containers[i].InUse()
  {
    hide S.StopAllSpec, ToStopSpec, Sound, S.StopsExactly;
    var added := S.StopAllSpec(h, ToStopSpec(steps), {}).added;
    S.StoppedFrom(h, ToStopSpec(steps));
    ToStopFacts(steps);
    var e :| e in added && e.c.id == h.containers[i].id;
    var s :| s in steps && e.c in s.stop;
    assert e.c in h.containers;
    var j :| 0 <= j < |h.containers| && h.containers[j] == e.c;
    SameIdSame(h, i, j);
  }

  lemma SameIdSame(h: Host, i: nat, j: nat)
    requires Sound(h) && i < |h.containers| && j < |h.containers| && h.containers[i].id == h.containers[j].id
    ensures i == j
  {
  }

  /** Nothing is in use after a run that was not in use before. */
  lemma InUseNotGained(k: Codec, h: Host, r: A.Reader, steps: seq<Step>, force: bool)
    requires Sound(h) && GoodPlan(h, steps, force)
    ensures var out := ExecuteSpec(k, h, r, steps);
            && Extends(h, out.host)
            && forall i :: 0 <= i < |h.containers| && out.host.containers[i].InUse() ==> h.containers[i].InUse()
  {
    hide ApplyAllSpec, S.StopAllSpec, S.RestartSpec, ToStopSpec, Sound;
    assert forall s, c :: s in steps && c in s.stop ==> c in h.containers;
    hide GoodPlan, Fits;
    var cs, out := ToStopSpec(steps), ExecuteSpec(k, h, r, steps);
    ExecuteRestarts(k, h, r, steps);
    forall i | 0 <= i < |h.containers| && out.host.containers[i].InUse()
      ensures h.containers[i].InUse()
    {
      if h.containers[i].id in S.EntryIds(S.StopAllSpec(h, cs, {}).added) {
        StoppedWereInUse(h, steps, i);
      } else {
        NotStoppedSame(k, h, r, steps, i);
      }
    }
  }

  lemma NotStoppedSame(k: Codec, h: Host, r: A.Reader, steps: seq<Step>, i: nat)
    requires Sound(h) && i < |h.containers|
    requires h.containers[i].id !in S.EntryIds(S.StopAllSpec(h, ToStopSpec(steps), {}).added)
    ensures var out := ExecuteSpec(k, h, r, steps).host; i < |out.containers| && out.containers[i] == h.containers[i]
  {
    hide ApplyAllSpec, S.StopAllSpec, S.RestartSpec, ToStopSpec;
    var stop := S.StopAllSpec(h, ToStopSpec(steps), {});
    S.StopAllFacts(h, ToStopSpec(steps), {});
    StopKeeps(h, ToStopSpec(steps));
    ApplyAllTouches(k, stop.host, r, steps);
    S.RestartFacts(WorkHost(k, h, r, steps), stop.added);
  }

  /** A container that can write after the run could write before it. */
  lemma MountsStillExist(h: Host, h': Host)
    requires MountsExist(h) && SameContainers(h.containers, h'.containers)
    requires forall i :: 0 <= i < |h.containers| && h'.containers[i].InUse() ==> h.containers[i].InUse()
    requires forall n :: n in h.volumes ==> n in h'.volumes
    ensures MountsExist(h')
  {
    forall c, v | c in h'.containers && c.Writes(v)
      ensures v in h'.volumes
    {
      var i :| 0 <= i < |h'.containers| && h'.containers[i] == c;
      assert h.containers[i] in h.containers && h.containers[i].Writes(v);
    }
  }

  lemma ExecuteKeepsSettings(k: Codec, h: Host, r: A.Reader, steps: seq<Step>)
    requires Sound(h)
    ensures forall n :: n in h.volumes ==> n in ExecuteSpec(k, h, r, steps).host.volumes
  {
    hide ApplyAllSpec, S.StopAllSpec, S.RestartSpec, ToStopSpec;
    var stop := S.StopAllSpec(h, ToStopSpec(steps), {});
    StopKeeps(h, ToStopSpec(steps));
    S.StopAllFacts(h, ToStopSpec(steps), {});
    ApplyAllKeepsSettings(k, stop.host, r, steps);
    RestartKeeps(WorkHost(k, h, r, steps), stop.added);
  }

  // ---------- the retry ----------

  /** The host when the trouble is over: from now on every request is answered. */
  function Healed(h: Host): Host {
    h.(faults := [])
  }

  /** What the printed retry command asks for. */
  function RetryOptions(out: Outcome): Options {
    Options(out.failed + out.untouched, [], true, false)
  }

  /** A first run that got past planning and stopped early leaves a host on which the retry is well defined. */
  lemma HostAfterFirstRun(k: Codec, h: Host, file: ArchiveFile, opts: Options)
    requires Sound(h) && MountsExist(h) && PlanningSpec(k, h, file, opts).Go?
    ensures var out := RunSpec(k, h, file, opts); Sound(out.host) && MountsExist(out.host)
  {
    hide PlanningSpec, ExecuteSpec, PrepareSpec, GoodPlan, Sound, MountsExist;
    var p, out := PlanningSpec(k, h, file, opts), RunSpec(k, h, file, opts);
    PlanningFacts(k, h, file, opts);
    LookedIs(h, p.host);
    MountsExistLater(h, p.host);
    ExecuteFacts(k, p.host, p.reader, p.steps, opts.force);
    InUseNotGained(k, p.host, p.reader, p.steps, opts.force);
    ExecuteKeepsSettings(k, p.host, p.reader, p.steps);
    MountsStillExist(p.host, out.host);
  }

  /** The retry prepares the same reader and exactly the volumes that were not restored. */
  lemma RetryPrepares(k: Codec, file: ArchiveFile, opts: Options, d: nat)
    requires PrepareSpec(k, file, opts).Ok? && d < |PrepareSpec(k, file, opts).value.selected|
    ensures var job := PrepareSpec(k, file, opts).value;
            PrepareSpec(k, file, Options(VolumeNames(job.selected[d..]), [], true, false))
              == Ok(Job(job.reader, job.selected[d..]))
  {
    hide A.OpenSpec, A.VerifySpec, Selection.FilterSpec;
    var job := PrepareSpec(k, file, opts).value;
    PrepareFacts(k, file, opts);
    A.OpenIsSafe(k, file.bytes.value);
    SelectSuffix(job.reader.m.volumes, opts, job.selected, d);
    VerifySome(k, job.reader, job.selected[d..], file.unreadable);
  }

  lemma {:induction false} VerifySome(k: Codec, r: A.Reader, vols: seq<M.Volume>, unreadable: set<string>)
    requires forall v :: v in vols ==> v.name !in unreadable && A.VerifySpec(k, r, v.name).None?
    ensures VerifyAllSpec(k, r, vols, unreadable).None?
  {
    hide A.VerifySpec;
    if vols != [] {
      VerifySome(k, r, vols[1..], unreadable);
    }
  }

  /** With force and answered requests, planning always goes ahead. */
  lemma ForcedPlanningGoes(k: Codec, h: Host, file: ArchiveFile, opts: Options)
    requires Sound(h) && FaultFree(h) && PrepareSpec(k, file, opts).Ok? && opts.force && !opts.verifyOnly
    ensures PlanningSpec(k, h, file, opts).Go?
            && PlanningSpec(k, h, file, opts).reader == PrepareSpec(k, file, opts).value.reader
  {
    hide PrepareSpec, SurveySpec;
    var job := PrepareSpec(k, file, opts).value;
    var h1 := AskSpec(h, EnsureImage).0;
    var h2 := AskSpec(h1, ListContainers).0;
    SurveyAnswers(k, h2, job.selected, h2.containers, map[]);
    var states := SurveySpec(k, h2, job.selected, h2.containers, map[]).states.value;
    var steps := PlanSpec(job.selected, states, true);
    forall s | s in steps ensures !s.action.ActionBlocked? {
      var i :| 0 <= i < |steps| && steps[i] == s;
      assert s == StepSpec(job.selected[i], StateOf(states, job.selected[i].name), true);
    }
  }

  /** The retry completes the job. If a restore stops early after planning, whatever failed, then repeating it with
      --force for exactly the failed and the untouched volumes, once requests are answered again, succeeds, restarts
      everything it stopped, and leaves every volume of the original selection holding exactly its archived entries. */
  lemma RetryCompletes(k: Codec, h: Host, file: ArchiveFile, opts: Options)
    requires Sound(h) && MountsExist(h)
    requires PlanningSpec(k, h, file, opts).Go? && RunSpec(k, h, file, opts).err.Some?
    requires var p := PlanningSpec(k, h, file, opts);
             forall s :: s in p.steps ==> EntriesOf(k, p.reader, s.volume.name).Some?
    ensures var p, first := PlanningSpec(k, h, file, opts), RunSpec(k, h, file, opts);
            var again := RunSpec(k, Healed(first.host), file, RetryOptions(first));
            && again.err.None? && again.restartErrors == []
            && again.restored == first.failed + first.untouched
            && forall v :: v in PrepareSpec(k, file, opts).value.selected ==>
                 v.name in again.host.data && EntriesOf(k, p.reader, v.name) == Some(again.host.data[v.name])
  {
    hide PlanningSpec, ExecuteSpec, PrepareSpec, GoodPlan, Sound, MountsExist, EntriesOf, IsRestored, SameVolume;
    var p, first := PlanningSpec(k, h, file, opts), RunSpec(k, h, file, opts);
    PlanningFacts(k, h, file, opts);
    var vols, d := PrepareSpec(k, file, opts).value.selected, |first.restored|;
    RestoreEffect(k, h, file, opts);
    HostAfterFirstRun(k, h, file, opts);
    var h1, opts1 := Healed(first.host), RetryOptions(first);
    HealedIsSame(first.host);
    assert d < |vols| by { SplitLength(first.restored, first.failed + first.untouched, VolumeNames(vols)); }
    assert opts1.names == VolumeNames(vols[d..]) by {
      SplitNames(vols, first.restored, first.failed + first.untouched);
    }
    RetryPrepares(k, file, opts, d);
    AnsweredRun(k, h1, file, opts1, p.reader, vols[d..]);
    var again := RunSpec(k, h1, file, opts1);
    forall v | v in vols
      ensures v.name in again.host.data && EntriesOf(k, p.reader, v.name) == Some(again.host.data[v.name])
    {
      if v.name in opts1.names {
        SuffixHas(vols, d, v);
        RestoredHas(k, p.reader, h1, again.host, v);
      } else {
        assert v.name in first.restored by { PrefixHas(vols, first.restored, first.failed + first.untouched, v); }
        RestoredStays(k, p.reader, h, first.host, h1, again.host, v);
      }
    }
  }

  lemma HealedIsSame(h: Host)
    ensures FaultFree(Healed(h)) && (Sound(h) ==> Sound(Healed(h))) && (MountsExist(h) ==> MountsExist(Healed(h)))
  {
  }

  lemma SplitLength(a: seq<string>, b: seq<string>, all: seq<string>)
    requires a + b == all && b != []
    ensures |a| < |all|
  {
  }

  lemma SplitNames(vols: seq<M.Volume>, a: seq<string>, b: seq<string>)
    requires a + b == VolumeNames(vols)
    ensures |a| <= |vols| && b == VolumeNames(vols[|a|..])
  {
    assert |VolumeNames(vols)| == |vols|;
    forall i | 0 <= i < |b| ensures b[i] == VolumeNames(vols[|a|..])[i] {
      assert b[i] == VolumeNames(vols)[|a| + i];
    }
  }

  lemma PrefixHas(vols: seq<M.Volume>, a: seq<string>, b: seq<string>, v: M.Volume)
    requires a + b == VolumeNames(vols) && v in vols && v.name !in b
    ensures v.name in a
  {
    var i :| 0 <= i < |vols| && vols[i] == v;
    assert (a + b)[i] == v.name;
  }

  lemma SuffixHas(vols: seq<M.Volume>, d: nat, v: M.Volume)
    requires d <= |vols| && v in vols && v.name in VolumeNames(vols[d..])
    ensures exists w :: w in vols[d..] && w.name == v.name
  {
    var i :| 0 <= i < |vols| - d && VolumeNames(vols[d..])[i] == v.name;
    assert vols[d..][i] in vols[d..];
  }

  /** A forced run in which nothing fails restores everything it was asked for, if its data decodes. */
  lemma AnsweredRun(k: Codec, h: Host, file: ArchiveFile, opts: Options, r: A.Reader, vols: seq<M.Volume>)
    requires Sound(h) && MountsExist(h) && FaultFree(h) && opts.force && !opts.verifyOnly
    requires PrepareSpec(k, file, opts) == Ok(Job(r, vols))
    requires forall v :: v in vols ==> EntriesOf(k, r, v.name).Some?
    ensures var out := RunSpec(k, h, file, opts);
            && out.err.None? && out.restartErrors == [] && out.restored == VolumeNames(vols)
            && (forall v :: v in vols ==> IsRestored(k, r, h, out.host, v))
            && (forall n :: n !in VolumeNames(vols) ==> SameVolume(h, out.host, n))
  {
    hide PlanningSpec, ExecuteSpec, PrepareSpec, GoodPlan, Sound, MountsExist, EntriesOf, FaultFree, IsRestored,
      SameVolume;
    ForcedPlanningGoes(k, h, file, opts);
    PlanningFacts(k, h, file, opts);
    var p := PlanningSpec(k, h, file, opts);
    LookedIs(h, p.host);
    MountsExistLater(h, p.host);
    FaultFreeLater(h, p.host);
    forall s | s in p.steps ensures EntriesOf(k, p.reader, s.volume.name).Some? {
      var i :| 0 <= i < |p.steps| && p.steps[i] == s;
      assert vols[i] in vols;
    }
    ExecuteAnswers(k, p.host, p.reader, p.steps, opts.force);
    RestoreEffect(k, h, file, opts);
    var out := RunSpec(k, h, file, opts);
    assert out.restored == VolumeNames(vols) by { assert out.restored + [] + [] == out.restored; }
    forall v | v in vols ensures v.name in out.restored { NameListed(vols, v); }
  }

  lemma NameListed(vols: seq<M.Volume>, v: M.Volume)
    requires v in vols
    ensures v.name in VolumeNames(vols)
  {
    var i :| 0 <= i < |vols| && vols[i] == v;
    assert VolumeNames(vols)[i] == v.name;
  }

  lemma RestoredHas(k: Codec, r: A.Reader, h: Host, h': Host, v: M.Volume)
    requires exists w: M.Volume :: w.name == v.name && IsRestored(k, r, h, h', w)
    ensures v.name in h'.data && EntriesOf(k, r, v.name) == Some(h'.data[v.name])
  {
    hide EntriesOf;
  }

  lemma RestoredStays(k: Codec, r: A.Reader, h: Host, h1: Host, healed: Host, h2: Host, v: M.Volume)
    requires IsRestored(k, r, h, h1, v) && healed == Healed(h1) && SameVolume(healed, h2, v.name)
    ensures v.name in h2.data && EntriesOf(k, r, v.name) == Some(h2.data[v.name])
  {
    hide EntriesOf;
  }
}
