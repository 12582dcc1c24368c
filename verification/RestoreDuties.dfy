/** What a restore may not do, and what it must have checked before it touches anything. */
module RestoreDuties {
  import opened Common
  import opened Codecs
  import opened Docker
  import opened Traces
  import opened Sorting
  import opened Restore
  import M = Manifests
  import A = Archive
  import P = RestorePromises
  import S = Stopper
  import Selection

  // ---------- the archive ----------

  /** The volume is asked for: by name, by the Compose project in its labels, or because nothing was asked for. */
  predicate Requested(v: M.Volume, opts: Options) {
    || (opts.names == [] && opts.projects == [])
    || v.name in opts.names
    || (if "com.docker.compose.project" in v.labels then v.labels["com.docker.compose.project"]
        else "") in opts.projects
  }

  /** The selection is what was asked for, all of it and in the order of the manifest. */
  lemma SelectionMeans(r: A.Reader, opts: Options, vols: seq<M.Volume>) returns (at: seq<nat>)
    requires SelectedFrom(r, opts, vols)
    ensures vols != [] && Selection.Picks(r.m.volumes, vols, at, v => Requested(v, opts))
  {
    at := Selection.FilterFacts(r.m.volumes, NAME_OF, PROJECT_OF, opts.names, opts.projects);
  }

  /** The stored bytes have the digest that the manifest records. */
  ghost predicate Intact(k: Codec, r: A.Reader, v: M.Volume) {
    v.archive.path in r.entries && k.sha(A.Stored(r, v)) == v.archive.sha256
  }

  /** The file opens, the selection is possible, and every selected volume can be read and is intact. */
  ghost predicate GoodArchive(k: Codec, file: ArchiveFile, opts: Options, r: A.Reader, vols: seq<M.Volume>) {
    && file.bytes.Some? && A.OpenSpec(k, file.bytes.value) == Some(r) && SelectedFrom(r, opts, vols)
    && forall v :: v in vols ==> v.name !in file.unreadable && Intact(k, r, v)
  }

  lemma VerifyMeans(k: Codec, bytes: Bytes, r: A.Reader, v: M.Volume)
    requires A.OpenSpec(k, bytes) == Some(r) && v in r.m.volumes
    ensures A.VerifySpec(k, r, v.name).None? <==> Intact(k, r, v)
  {
    hide A.OpenSpec, A.Stored, M.ValidName, M.VolumePath;
    A.OpenIsSafe(k, bytes);
    var i :| 0 <= i < |r.m.volumes| && r.m.volumes[i] == v;
    M.FindByIndex(r.m.volumes, i);
  }

  /** Verification before anything else succeeds exactly if the archive is good. */
  lemma PreparedExactly(k: Codec, file: ArchiveFile, opts: Options)
    ensures var job := PrepareSpec(k, file, opts);
            && (job.Ok? ==> GoodArchive(k, file, opts, job.value.reader, job.value.selected))
            && forall r: A.Reader, vols: seq<M.Volume> :: GoodArchive(k, file, opts, r, vols) ==>
               job == Ok(Job(r, vols))
  {
    hide A.OpenSpec, A.VerifySpec, Selection.FilterSpec, Intact;
    if PrepareSpec(k, file, opts).Ok? {
      var job := PrepareSpec(k, file, opts).value;
      PrepareFacts(k, file, opts);
      forall v | v in job.selected ensures Intact(k, job.reader, v) {
        VerifyMeans(k, file.bytes.value, job.reader, v);
      }
    }
    forall r: A.Reader, vols: seq<M.Volume> | GoodArchive(k, file, opts, r, vols)
      ensures PrepareSpec(k, file, opts) == Ok(Job(r, vols))
    {
      SelectedDistinct(k, file.bytes.value, r, opts, vols);
      forall v | v in vols ensures A.VerifySpec(k, r, v.name).None? {
        VerifyMeans(k, file.bytes.value, r, v);
      }
      P.VerifySome(k, r, vols, file.unreadable);
    }
  }

  /** Nothing happened but the error, if any. */
  ghost predicate NothingDone(h: Host, out: Outcome) {
    out == Outcome(h, [], [], [], [], out.err)
  }

  /** With --verify-only Docker is not asked anything and nothing changes, whatever the host; the run succeeds exactly
      if the archive is good. */
  lemma VerifyOnlyExactly(k: Codec, h: Host, file: ArchiveFile, opts: Options)
    requires opts.verifyOnly
    ensures var out := RunSpec(k, h, file, opts);
            NothingDone(h, out) && (out.err.None?
                                    <==> exists r: A.Reader, vols: seq<M.Volume> :: GoodArchive(k, file, opts, r, vols))
  {
    hide PrepareSpec, GoodArchive;
    PreparedExactly(k, file, opts);
    var job := PrepareSpec(k, file, opts);
    if job.Ok? {
      assert GoodArchive(k, file, opts, job.value.reader, job.value.selected);
    }
  }

  /** A selected volume that is damaged or cannot be read ends every restore before Docker is asked anything. */
  lemma DamagedIsRefused(k: Codec, h: Host, file: ArchiveFile, opts: Options, r: A.Reader, vols: seq<M.Volume>,
                         v: M.Volume)
    requires file.bytes.Some? && A.OpenSpec(k, file.bytes.value) == Some(r) && SelectedFrom(r, opts, vols) && v in vols
    requires k.sha(A.Stored(r, v)) != v.archive.sha256 || v.name in file.unreadable
    ensures var out := RunSpec(k, h, file, opts); NothingDone(h, out) && out.err.Some?
  {
    hide PrepareSpec, A.OpenSpec, Selection.FilterSpec, A.Stored;
    PreparedExactly(k, file, opts);
    if PrepareSpec(k, file, opts).Ok? {
      assert false;
    }
  }

  /** A run that asked Docker anything, or got past planning, had a good archive; the plan is for exactly its selected
      volumes. */
  lemma OnlyVerifiedIsApplied(k: Codec, h: Host, file: ArchiveFile, opts: Options)
    requires Sound(h)
    ensures var p, out := PlanningSpec(k, h, file, opts), RunSpec(k, h, file, opts);
            && (out.host != h ==>
                  !opts.verifyOnly && exists r: A.Reader, vols: seq<M.Volume> :: GoodArchive(k, file, opts, r, vols))
            && (p.Go? ==> !opts.verifyOnly && exists vols ::
                  && GoodArchive(k, file, opts, p.reader, vols) && |vols| == |p.steps|
                  && forall i :: 0 <= i < |vols| ==> p.steps[i].volume == vols[i])
  {
    hide PrepareSpec, GoodArchive, SurveySpec, PlanSpec, ExecuteSpec, IsBlocked, GoodPlan, Sound;
    PreparedExactly(k, file, opts);
    PlanningFacts(k, h, file, opts);
    var job := PrepareSpec(k, file, opts);
    if job.Ok? {
      assert GoodArchive(k, file, opts, job.value.reader, job.value.selected);
    }
  }

  // ---------- whom it stops ----------

  /** A container with this id may be writing to one of the volumes, which exists. */
  ghost predicate WritesTo(h: Host, id: string, vols: seq<M.Volume>) {
    exists c, v :: c in h.containers && c.id == id && v in vols && v.name in h.volumes && c.Writes(v.name)
  }

  /** A restore stops nobody without --force, and with it only containers that may be writing to a selected volume. */
  lemma RestoreStops(k: Codec, h: Host, file: ArchiveFile, opts: Options)
    requires Sound(h) && MountsExist(h)
    ensures var p, out := PlanningSpec(k, h, file, opts), RunSpec(k, h, file, opts);
            && Extends(h, out.host)
            && forall id, ok :: Stop(id, ok) in Delta(h, out.host) ==>
                 p.Go? && opts.force && WritesTo(h, id, PrepareSpec(k, file, opts).value.selected)
  {
    hide PrepareSpec, PlanningSpec, ExecuteSpec, GoodPlan, Sound, MountsExist, WritesTo, SameContainers;
    var p, out := PlanningSpec(k, h, file, opts), RunSpec(k, h, file, opts);
    PlanningFacts(k, h, file, opts);
    if p.Go? {
      LookedIs(h, p.host);
      PlannedStops(k, p.host, p.reader, p.steps);
      DeltaTrans(h, p.host, out.host);
      var vols := PrepareSpec(k, file, opts).value.selected;
      forall id, ok | Stop(id, ok) in Delta(h, out.host)
        ensures opts.force && WritesTo(h, id, vols)
      {
        assert Stop(id, ok) in Delta(p.host, out.host);
        ListedWrites(h, p.host, p.steps, opts.force, vols, id);
      }
    }
  }

  lemma PlannedStops(k: Codec, h: Host, r: A.Reader, steps: seq<Step>)
    requires Sound(h)
    ensures var out := ExecuteSpec(k, h, r, steps);
            && Extends(h, out.host)
            && forall id, ok :: Stop(id, ok) in Delta(h, out.host) ==> S.InUseIn(ToStopSpec(steps), id)
  {
    hide ApplyAllSpec, S.StopAllSpec, S.RestartSpec, ToStopSpec, SameContainers, S.InUseIn, Sound;
    var cs := ToStopSpec(steps);
    var stop := S.StopAllSpec(h, cs, {});
    S.StopBasics(h, cs);
    S.StopsOnlyListed(h, cs, {});
    StopKeeps(h, cs);
    var worked := WorkHost(k, h, r, steps);
    assert Delta(stop.host, stop.host) == [];
    ApplyAllTouches(k, stop.host, r, steps);
    assert Extends(stop.host, worked) && Calm(Delta(stop.host, worked)) by { WorkIsCalm(k, h, r, steps); }
    S.RestartBasics(worked, stop.added);
    var end := S.RestartSpec(worked, stop.added).host;
    DeltaTrans(h, stop.host, worked);
    DeltaTrans(h, worked, end);
    assert ExecuteSpec(k, h, r, steps).host == end;
    forall id, ok | Stop(id, ok) in Delta(h, end) ensures S.InUseIn(cs, id) {
      assert Stop(id, ok) in Delta(h, stop.host);
      var i :| 0 <= i < |Delta(h, stop.host)| && Delta(h, stop.host)[i] == Stop(id, ok);
      assert stop.host.calls[|h.calls| + i] == Stop(id, ok);
    }
  }

  lemma WorkIsCalm(k: Codec, h: Host, r: A.Reader, steps: seq<Step>)
    requires Sound(h)
    ensures var stopped := S.StopAllSpec(h, ToStopSpec(steps), {}).host; var worked := WorkHost(k, h, r, steps);
            Extends(stopped, worked) && Calm(Delta(stopped, worked))
  {
    hide ApplyAllSpec, S.StopAllSpec, ToStopSpec, Sound;
    var stop := S.StopAllSpec(h, ToStopSpec(steps), {});
    StopKeeps(h, ToStopSpec(steps));
    ApplyAllTouches(k, stop.host, r, steps);
    assert Delta(stop.host, stop.host) == [];
  }

  lemma ListedWrites(h: Host, planned: Host, steps: seq<Step>, force: bool, vols: seq<M.Volume>, id: string)
    requires MountsExist(h) && GoodPlan(planned, steps, force) && planned.containers == h.containers
    requires |steps| == |vols| && forall i :: 0 <= i < |vols| ==> steps[i].volume == vols[i]
    requires S.InUseIn(ToStopSpec(steps), id)
    ensures force && WritesTo(h, id, vols)
  {
    hide ToStopSpec, Fits;
    ToStopFacts(steps);
    var c :| c in ToStopSpec(steps) && c.InUse() && c.id == id;
    var s :| s in steps && c in s.stop;
    var i :| 0 <= i < |steps| && steps[i] == s;
    assert vols[i] in vols && c.Writes(vols[i].name);
  }

  // ---------- what it must have asked ----------

  /** A restore that gets past planning has been told about the image and the containers, in this order, and about every
      selected volume; everything it asked was answered, and every look into a volume succeeded. */
  ghost predicate AllAnswered(calls: seq<Call>) {
    forall c :: c in calls ==> (c.Ask? ==> c.ok) && (c.Helper? ==> c.result == Exit(0))
  }

  lemma RestoreAsked(k: Codec, h: Host, file: ArchiveFile, opts: Options)
    requires Sound(h) && PlanningSpec(k, h, file, opts).Go?
    ensures var p := PlanningSpec(k, h, file, opts);
            && Extends(h, p.host) && |Delta(h, p.host)| >= 2
            && Delta(h, p.host)[..2] == [Ask(EnsureImage, true), Ask(ListContainers, true)]
            && AllAnswered(Delta(h, p.host))
            && forall v :: v in PrepareSpec(k, file, opts).value.selected ==>
               Ask(Inspect(v.name), true) in Delta(h, p.host)
  {
    hide PrepareSpec, SurveySpec, PlanSpec, IsBlocked, AllAnswered, SameContainers;
    var h1 := AskSpec(h, EnsureImage).0;
    var h2 := AskSpec(h1, ListContainers).0;
    var vols := PrepareSpec(k, file, opts).value.selected;
    var survey := SurveySpec(k, h2, vols, h2.containers, map[]);
    assert Delta(h, h2) == [Ask(EnsureImage, true), Ask(ListContainers, true)];
    assert Extends(h, h2) by { PlanningExtends(h, h2); }
    SurveyAsked(k, h2, vols, h2.containers, map[]);
    DeltaTrans(h, h2, survey.host);
    TwoAnswered(Delta(h, h2), Delta(h2, survey.host));
  }

  lemma PlanningExtends(h: Host, h': Host)
    requires h.calls <= h'.calls && h' == h.(calls := h'.calls)
    ensures Extends(h, h')
  {
  }

  lemma TwoAnswered(a: seq<Call>, b: seq<Call>)
    requires AllAnswered(b) && forall c :: c in a ==> c.Ask? && c.ok
    ensures AllAnswered(a + b)
  {
  }

  lemma {:induction false} SurveyAsked(k: Codec, h: Host, vols: seq<M.Volume>, containers: seq<Container>,
                                       states: map<string, State>)
    requires Sound(h) && SurveySpec(k, h, vols, containers, states).states.Ok?
    ensures var end := SurveySpec(k, h, vols, containers, states).host;
            && Extends(h, end) && AllAnswered(Delta(h, end))
            && forall v :: v in vols ==> Ask(Inspect(v.name), true) in Delta(h, end)
    decreases |vols|
  {
    if vols == [] {
      assert Delta(h, h) == [];
    } else {
      hide ObserveSpec, SameContainers, Sound, AllAnswered;
      var o := ObserveSpec(k, h, vols[0].name, containers);
      ObserveAsked(k, h, vols[0].name, containers);
      var next := states[vols[0].name := o.state.value];
      SurveyAsked(k, o.host, vols[1..], containers, next);
      var end := SurveySpec(k, o.host, vols[1..], containers, next).host;
      DeltaTrans(h, o.host, end);
      BothAnswered(Delta(h, o.host), Delta(o.host, end));
      assert vols == [vols[0]] + vols[1..];
    }
  }

  lemma BothAnswered(a: seq<Call>, b: seq<Call>)
    requires AllAnswered(a) && AllAnswered(b)
    ensures AllAnswered(a + b)
  {
  }

  lemma ObserveAsked(k: Codec, h: Host, name: string, containers: seq<Container>)
    requires Sound(h) && ObserveSpec(k, h, name, containers).state.Ok?
    ensures var end := ObserveSpec(k, h, name, containers).host;
            && Extends(h, end) && Sound(end) && AllAnswered(Delta(h, end))
            && Ask(Inspect(name), true) in Delta(h, end)
  {
    hide Sound, Quiet, HelperSpec;
    var asked := AskSpec(h, Inspect(name)).0;
    assert Sound(asked) by { AskedSound(h, asked); }
    assert Delta(h, asked) == [Ask(Inspect(name), true)];
    if name in h.volumes {
      var v := M.Volume(name, "", map[], map[], 0, M.Entry("", 0, ""), true, []);
      HelperFacts(k, asked, v, CheckEmpty);
      var run := HelperSpec(k, asked, name, CheckEmpty);
      assert Extends(asked, run.host) by { OnlyVolumeExtends(asked, run.host, v); }
      PlanningExtends(h, asked);
      DeltaTrans(h, asked, run.host);
    }
  }

  lemma AskedSound(h: Host, h': Host)
    requires Sound(h) && h' == h.(calls := h'.calls)
    ensures Sound(h')
  {
  }

  lemma OnlyVolumeExtends(h: Host, h': Host, v: M.Volume)
    requires OnlyVolume(h, h', v)
    ensures Extends(h, h')
  {
  }

  // ---------- when it succeeds ----------

  /** Force, or every selected volume is missing, or empty and not in use. */
  ghost predicate MayOverwrite(h: Host, force: bool, vols: seq<M.Volume>) {
    force || forall v :: v in vols && v.name in h.volumes ==>
                     v.name in h.data && h.data[v.name] == map[] && Quiet(h, v.name)
  }

  /** If every request is answered, planning goes ahead exactly if the archive is good, more than verification is asked
      for, and nothing would be overwritten without --force. */
  lemma PlanningGoesExactly(k: Codec, h: Host, file: ArchiveFile, opts: Options)
    requires Sound(h) && FaultFree(h)
    ensures PlanningSpec(k, h, file, opts).Go?
            <==> !opts.verifyOnly && exists r: A.Reader, vols: seq<M.Volume> ::
                   GoodArchive(k, file, opts, r, vols) && MayOverwrite(h, opts.force, vols)
  {
    hide PrepareSpec, GoodArchive, SurveySpec, StepSpec, Sound, Accurate, MayOverwrite, FaultFree;
    PreparedExactly(k, file, opts);
    var job := PrepareSpec(k, file, opts);
    if job.Ok? && !opts.verifyOnly {
      var vols := job.value.selected;
      assert GoodArchive(k, file, opts, job.value.reader, vols);
      var h1 := AskSpec(h, EnsureImage).0;
      var h2 := AskSpec(h1, ListContainers).0;
      TwoQuestions(h);
      P.SurveyAnswers(k, h2, vols, h2.containers, map[]);
      SurveyFacts(k, h2, vols, map[]);
      var states := SurveySpec(k, h2, vols, h2.containers, map[]).states.value;
      assert forall v :: v in vols ==> v.name in states && Accurate(h2, v.name, states[v.name]);
      BlockedExactly(h2, vols, states, opts.force);
      SameOverwrite(h, h2, opts.force, vols);
    }
  }

  lemma TwoQuestions(h: Host)
    requires Sound(h) && FaultFree(h)
    ensures var (h1, ok1) := AskSpec(h, EnsureImage); var (h2, ok2) := AskSpec(h1, ListContainers);
            ok1 && ok2 && Sound(h2) && FaultFree(h2) && h2 == h.(calls := h2.calls)
  {
  }

  lemma SameOverwrite(h: Host, h': Host, force: bool, vols: seq<M.Volume>)
    requires h' == h.(calls := h'.calls)
    ensures MayOverwrite(h, force, vols) == MayOverwrite(h', force, vols)
  {
  }

  lemma BlockedExactly(h: Host, vols: seq<M.Volume>, states: map<string, State>, force: bool)
    requires Sound(h) && forall v :: v in vols ==> v.name in states && Accurate(h, v.name, states[v.name])
    ensures IsBlocked(PlanSpec(vols, states, force)) <==> !MayOverwrite(h, force, vols)
  {
    hide StepSpec, Sound, Accurate;
    var steps := PlanSpec(vols, states, force);
    forall i | 0 <= i < |vols|
      ensures steps[i].action.ActionBlocked? <==>
                !force && vols[i].name in h.volumes
                && !(vols[i].name in h.data && h.data[vols[i].name] == map[] && Quiet(h, vols[i].name))
    {
      assert vols[i] in vols;
      OneBlocked(h, vols[i], states[vols[i].name], force);
    }
    if IsBlocked(steps) {
      var s :| s in steps && s.action.ActionBlocked?;
      var i :| 0 <= i < |steps| && steps[i] == s;
      assert vols[i] in vols;
    }
    if !MayOverwrite(h, force, vols) {
      var v :| v in vols && v.name in h.volumes && !(v.name in h.data && h.data[v.name] == map[] && Quiet(h, v.name));
      var i :| 0 <= i < |vols| && vols[i] == v;
      assert steps[i] in steps && steps[i].action.ActionBlocked?;
    }
  }

  lemma OneBlocked(h: Host, v: M.Volume, st: State, force: bool)
    requires Sound(h) && Accurate(h, v.name, st)
    ensures StepSpec(v, st, force).action.ActionBlocked? <==>
              !force && v.name in h.volumes && !(v.name in h.data && h.data[v.name] == map[] && Quiet(h, v.name))
  {
    hide Sound;
    StepFacts(h, v, st, force);
  }

  /** If every request is answered and the data decodes, a restore succeeds exactly if the archive is good and - unless
      only verification is asked for - nothing would be overwritten without --force. */
  lemma AnsweredRestore(k: Codec, h: Host, file: ArchiveFile, opts: Options)
    requires Sound(h) && MountsExist(h) && FaultFree(h)
    requires forall r: A.Reader, vols: seq<M.Volume> :: GoodArchive(k, file, opts, r, vols) ==>
             forall v :: v in vols ==> EntriesOf(k, r, v.name).Some?
    ensures var out := RunSpec(k, h, file, opts);
            && (out.err.None? <==>
                  exists r: A.Reader, vols: seq<M.Volume> ::
                    GoodArchive(k, file, opts, r, vols) && (opts.verifyOnly || MayOverwrite(h, opts.force, vols)))
            && out.restartErrors == []
  {
    hide PrepareSpec, GoodArchive, PlanningSpec, ExecuteSpec, Sound, MountsExist, FaultFree, MayOverwrite, EntriesOf,
      GoodPlan;
    PreparedExactly(k, file, opts);
    PlanningGoesExactly(k, h, file, opts);
    PlanningFacts(k, h, file, opts);
    var p, out := PlanningSpec(k, h, file, opts), RunSpec(k, h, file, opts);
    if opts.verifyOnly {
      VerifyOnlyExactly(k, h, file, opts);
      VerifyOnlyHalts(k, h, file, opts);
    } else if p.Go? {
      LookedIs(h, p.host);
      MountsExistLater(h, p.host);
      FaultFreeLater(h, p.host);
      var vols := PrepareSpec(k, file, opts).value.selected;
      assert GoodArchive(k, file, opts, p.reader, vols);
      forall s | s in p.steps ensures EntriesOf(k, p.reader, s.volume.name).Some? {
        var i :| 0 <= i < |p.steps| && p.steps[i] == s;
        assert vols[i] in vols;
      }
      P.ExecuteAnswers(k, p.host, p.reader, p.steps, opts.force);
    } else {
      HaltHasError(k, h, file, opts);
    }
  }

  lemma VerifyOnlyHalts(k: Codec, h: Host, file: ArchiveFile, opts: Options)
    requires opts.verifyOnly
    ensures PlanningSpec(k, h, file, opts).Halt?
  {
  }

  lemma HaltHasError(k: Codec, h: Host, file: ArchiveFile, opts: Options)
    requires !opts.verifyOnly && PlanningSpec(k, h, file, opts).Halt?
    ensures PlanningSpec(k, h, file, opts).err.Some?
  {
    hide PrepareSpec, SurveySpec, PlanSpec, IsBlocked;
  }
}
