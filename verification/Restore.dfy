/** A whole restore run: verify, observe, plan, stop, apply, restart (internal/restore). */
module Restore {
  import opened Common
  import opened Codecs
  import opened Docker
  import opened Traces
  import opened Sorting
  import M = Manifests
  import A = Archive
  import S = Stopper
  import Selection

  datatype Options = Options(names: seq<string>, projects: seq<string>, force: bool, verifyOnly: bool)

  /** The file as this run finds it: its bytes if it can be opened, and the volumes whose data cannot be read. */
  datatype ArchiveFile = ArchiveFile(bytes: Option<Bytes>, unreadable: set<string>)

  datatype Action = ActionCreate | ActionUnpack | ActionOverwrite | ActionBlocked

  /** What exists on the host for one volume; users are the containers mounting it, helpers excluded. */
  datatype State = State(there: bool, empty: bool, users: seq<Container>)

  const ABSENT := State(false, false, [])

  datatype Step = Step(volume: M.Volume, action: Action, stop: seq<Container>)

  const NAME_OF := (v: M.Volume) => v.name
  const PROJECT_OF := (v: M.Volume) => v.Project()

  // ---------- before Docker is asked anything ----------

  function VerifyAllSpec(k: Codec, r: A.Reader, vols: seq<M.Volume>, unreadable: set<string>): Option<Error> {
    if vols == [] then None
    else if vols[0].name in unreadable then Some(DiskFailed)
    else if A.VerifySpec(k, r, vols[0].name).Some? then A.VerifySpec(k, r, vols[0].name)
    else VerifyAllSpec(k, r, vols[1..], unreadable)
  }

  datatype Job = Job(reader: A.Reader, selected: seq<M.Volume>)

  function PrepareSpec(k: Codec, file: ArchiveFile, opts: Options): Result<Job, Error> {
    if file.bytes.None? then Err(DiskFailed)
    else
      var r := A.OpenSpec(k, file.bytes.value);
      if r.None? then Err(BadArchive)
      else
        var selected := Selection.FilterSpec(r.value.m.volumes, NAME_OF, PROJECT_OF, opts.names, opts.projects);
        if selected.Err? then Err(selected.error)
        else
          var err := VerifyAllSpec(k, r.value, selected.value, file.unreadable);
          if err.Some? then Err(err.value) else Ok(Job(r.value, selected.value))
  }

  // ---------- observing and planning ----------

  function InUse(cs: seq<Container>): seq<Container> {
    if cs == [] then [] else (if cs[0].InUse() then [cs[0]] else []) + InUse(cs[1..])
  }

  datatype Observed = Observed(host: Host, state: Result<State, Error>)

  function ObserveSpec(k: Codec, h: Host, name: string, containers: seq<Container>): Observed {
    var (asked, ok) := AskSpec(h, Inspect(name));
    var users := UsersIn(name, containers);
    if !ok then Observed(asked, Err(DockerFailed))
    else if name !in h.volumes then Observed(asked, Ok(State(false, false, users)))
    else
      var run := HelperSpec(k, asked, name, CheckEmpty);
      if run.result.Broke? then Observed(run.host, Err(HelperFailed(name)))
      else if run.result.code != 0 then Observed(run.host, Err(HelperExit(name, run.result.code)))
      else Observed(run.host, Ok(State(true, !run.found, users)))
  }

  datatype Survey = Survey(host: Host, states: Result<map<string, State>, Error>)

  function SurveySpec(k: Codec, h: Host, vols: seq<M.Volume>, containers: seq<Container>,
                      states: map<string, State>): Survey
    decreases |vols|
  {
    if vols == [] then Survey(h, Ok(states))
    else
      var o := ObserveSpec(k, h, vols[0].name, containers);
      if o.state.Err? then Survey(o.host, Err(o.state.error))
      else SurveySpec(k, o.host, vols[1..], containers, states[vols[0].name := o.state.value])
  }

  function StepSpec(v: M.Volume, st: State, force: bool): Step {
    var inUse := InUse(st.users);
    if !st.there then Step(v, ActionCreate, [])
    else if st.empty && inUse == [] then Step(v, ActionUnpack, [])
    else if force then Step(v, ActionOverwrite, inUse)
    else Step(v, ActionBlocked, [])
  }

  function StateOf(states: map<string, State>, name: string): State {
    if name in states then states[name] else ABSENT
  }

  function PlanSpec(vols: seq<M.Volume>, states: map<string, State>, force: bool): seq<Step> {
    seq(|vols|, i requires 0 <= i < |vols| => StepSpec(vols[i], StateOf(states, vols[i].name), force))
  }

  predicate IsBlocked(steps: seq<Step>) {
    exists s | s in steps :: s.action.ActionBlocked?
  }

  function AllStops(steps: seq<Step>): seq<Container> {
    if steps == [] then [] else steps[0].stop + AllStops(steps[1..])
  }

  function Unique(cs: seq<Container>, seen: set<string>): seq<Container> {
    if cs == [] then []
    else if cs[0].id in seen then Unique(cs[1..], seen)
    else [cs[0]] + Unique(cs[1..], seen + {cs[0].id})
  }

  function ToStopSpec(steps: seq<Step>): seq<Container> {
    Unique(AllStops(steps), {})
  }

  /** Where a run stands after planning: halted with no volume or container touched, or ready to go. */
  datatype Planning = Halt(host: Host, err: Option<Error>) | Go(host: Host, reader: A.Reader, steps: seq<Step>)

  function PlanningSpec(k: Codec, h: Host, file: ArchiveFile, opts: Options): Planning {
    var job := PrepareSpec(k, file, opts);
    if job.Err? then Halt(h, Some(job.error))
    else if opts.verifyOnly then Halt(h, None)
    else
      var (h1, ok1) := AskSpec(h, EnsureImage);
      if !ok1 then Halt(h1, Some(DockerFailed))
      else
        var (h2, ok2) := AskSpec(h1, ListContainers);
        if !ok2 then Halt(h2, Some(DockerFailed))
        else
          var survey := SurveySpec(k, h2, job.value.selected, h2.containers, map[]);
          if survey.states.Err? then Halt(survey.host, Some(survey.states.error))
          else
            var steps := PlanSpec(job.value.selected, survey.states.value, opts.force);
            if IsBlocked(steps) then Halt(survey.host, Some(Blocked)) else Go(survey.host, job.value.reader, steps)
  }

  // ---------- applying ----------

  datatype Applied = Applied(host: Host, err: Option<Error>)

  function TargetOf(v: M.Volume): Volume {
    Volume(v.name, if v.driver == "" then "local" else v.driver, v.driverOpts, v.labels)
  }

  function HelperError(volume: string, result: HelperResult): Option<Error> {
    if result.Broke? then Some(HelperFailed(volume))
    else if result.code != 0 then Some(HelperExit(volume, result.code))
    else None
  }

  /** Create or clear as planned. */
  function MakeRoomSpec(k: Codec, h: Host, s: Step): Applied {
    match s.action
    case ActionCreate =>
      var (h', ok) := CreateSpec(h, TargetOf(s.volume));
      Applied(h', if ok then None else Some(DockerFailed))
    case ActionOverwrite =>
      var run := HelperSpec(k, h, s.volume.name, Clear);
      Applied(run.host, HelperError(s.volume.name, run.result))
    case ActionUnpack => Applied(h, None)
    case ActionBlocked => Applied(h, Some(Blocked))
  }

  function ApplySpec(k: Codec, h: Host, r: A.Reader, s: Step): Applied {
    var room := MakeRoomSpec(k, h, s);
    if room.err.Some? then room
    else
      var run := HelperSpec(k, room.host, s.volume.name, Unpack(A.OpenVolumeSpec(k, r, s.volume.name)));
      Applied(run.host, HelperError(s.volume.name, run.result))
  }

  datatype Progress = Progress(host: Host, done: nat, err: Option<Error>)

  /** Apply the steps in order until one fails; done counts the successes. */
  function ApplyAllSpec(k: Codec, h: Host, r: A.Reader, steps: seq<Step>): Progress
    decreases |steps|
  {
    if steps == [] then Progress(h, 0, None)
    else
      var one := ApplySpec(k, h, r, steps[0]);
      if one.err.Some? then Progress(one.host, 0, one.err)
      else
        var rest := ApplyAllSpec(k, one.host, r, steps[1..]);
        rest.(done := rest.done + 1)
  }

  function Names(steps: seq<Step>): seq<string> {
    seq(|steps|, i requires 0 <= i < |steps| => steps[i].volume.name)
  }

  datatype Outcome = Outcome(host: Host, restored: seq<string>, failed: seq<string>, untouched: seq<string>,
                             restartErrors: seq<string>, err: Option<Error>)

  function ExecuteSpec(k: Codec, h: Host, r: A.Reader, steps: seq<Step>): Outcome {
    var stop := S.StopAllSpec(h, ToStopSpec(steps), {});
    var work := if stop.err.Some? then Progress(stop.host, 0, stop.err) else ApplyAllSpec(k, stop.host, r, steps);
    var restart := S.RestartSpec(work.host, stop.added);
    if stop.err.Some? then Outcome(restart.host, [], [], Names(steps), restart.errs, stop.err)
    else if work.err.Some? && work.done < |steps| then
      Outcome(restart.host, Names(steps[..work.done]), [steps[work.done].volume.name], Names(steps[work.done + 1..]),
              restart.errs, work.err)
    else Outcome(restart.host, Names(steps), [], [], restart.errs, None)
  }

  function RunSpec(k: Codec, h: Host, file: ArchiveFile, opts: Options): Outcome {
    match PlanningSpec(k, h, file, opts)
    case Halt(host, err) => Outcome(host, [], [], [], [], err)
    case Go(host, reader, steps) => ExecuteSpec(k, host, reader, steps)
  }

  // ---------- what one step does ----------

  /** What the archive holds for a volume, as extraction sees it. */
  function EntriesOf(k: Codec, r: A.Reader, name: string): Option<Contents> {
    var stream := A.OpenVolumeSpec(k, r, name);
    if stream.None? then None else k.unpack(stream.value)
  }

  /** The plan for this volume still fits the host. */
  ghost predicate Fits(h: Host, s: Step) {
    match s.action
    case ActionCreate => s.volume.name !in h.volumes
    case ActionUnpack => s.volume.name in h.volumes && s.volume.name in h.data && h.data[s.volume.name] == map[]
    case ActionOverwrite => s.volume.name in h.volumes
    case ActionBlocked => false
  }

  /** Only this volume can have changed, and its settings only by being created. */
  ghost predicate OnlyVolume(h: Host, h': Host, v: M.Volume) {
    && Extends(h, h') && h'.containers == h.containers && Calm(Delta(h, h'))
    && h'.volumes.Keys <= h.volumes.Keys + {v.name}
    && (forall n :: n in h.volumes ==> n in h'.volumes && h'.volumes[n] == h.volumes[n])
    && (forall n :: n in h.data && n != v.name ==> n in h'.data && h'.data[n] == h.data[n])
    && (v.name !in h.volumes && v.name in h'.volumes ==> h'.volumes[v.name] == TargetOf(v))
  }

  lemma OnlyVolumeTrans(a: Host, b: Host, c: Host, v: M.Volume)
    requires OnlyVolume(a, b, v) && OnlyVolume(b, c, v)
    ensures OnlyVolume(a, c, v) && Delta(a, c) == Delta(a, b) + Delta(b, c)
  {
    DeltaTrans(a, b, c);
  }

  lemma HelperFacts(k: Codec, h: Host, v: M.Volume, kind: HelperKind)
    requires Sound(h)
    ensures var run := HelperSpec(k, h, v.name, kind);
            && OnlyVolume(h, run.host, v) && Sound(run.host)
            && Delta(h, run.host) == [Helper(kind, v.name, run.result, run.stdout, Quiet(h, v.name))]
            && run.host.volumes == h.volumes
  {
    hide Sound, OnlyVolume, Quiet, HelperSpec;
    var run := HelperSpec(k, h, v.name, kind);
    HelperShape(k, h, v.name, kind);
    assert Delta(h, run.host) == [Helper(kind, v.name, run.result, run.stdout, Quiet(h, v.name))];
    SameKeysSound(h, run.host);
    SameKeysOnlyVolume(h, run.host, v);
  }

  /** A helper changes the contents of its volume at most. */
  lemma HelperShape(k: Codec, h: Host, name: string, kind: HelperKind)
    ensures var run := HelperSpec(k, h, name, kind);
            && run.host == h.(data := run.host.data,
                              calls := h.calls + [Helper(kind, name, run.result, run.stdout, Quiet(h, name))])
            && run.host.data.Keys == h.data.Keys
            && forall n :: n in h.data && n != name ==> run.host.data[n] == h.data[n]
  {
    hide Quiet, HelperEnd;
  }

  lemma SameKeysSound(h: Host, h': Host)
    requires Sound(h) && h' == h.(data := h'.data, calls := h'.calls) && h'.data.Keys == h.data.Keys
    ensures Sound(h')
  {
  }

  lemma SameKeysOnlyVolume(h: Host, h': Host, v: M.Volume)
    requires h' == h.(data := h'.data, calls := h'.calls) && h.calls <= h'.calls && Calm(Delta(h, h'))
    requires forall n :: n in h.data && n != v.name ==> n in h'.data && h'.data[n] == h.data[n]
    ensures OnlyVolume(h, h', v)
  {
  }

  lemma CreateFacts(h: Host, v: M.Volume)
    requires Sound(h) && v.name !in h.volumes
    ensures var (h', ok) := CreateSpec(h, TargetOf(v));
            && OnlyVolume(h, h', v) && Sound(h')
            && Delta(h, h') == [Create(v.name, ok)]
            && (ok ==> v.name in h'.volumes && h'.data[v.name] == map[])
  {
    hide Sound, OnlyVolume, TargetOf;
    var (h', ok) := CreateSpec(h, TargetOf(v));
    assert Delta(h, h') == [Create(v.name, ok)] && TargetOf(v).name == v.name by { TargetName(v); }
    if h'.volumes == h.volumes {
      SameKeysSound(h, h');
      SameKeysOnlyVolume(h, h', v);
    } else {
      CreatedSound(h, h', v);
      CreatedOnlyVolume(h, h', v);
    }
  }

  lemma TargetName(v: M.Volume)
    ensures TargetOf(v).name == v.name
  {
  }

  ghost predicate JustCreated(h: Host, h': Host, v: M.Volume) {
    && v.name !in h.volumes
    && h' == h.(calls := h'.calls, volumes := h.volumes[v.name := TargetOf(v)], order := h.order + [v.name],
                data := h.data[v.name := map[]])
  }

  lemma CreatedSound(h: Host, h': Host, v: M.Volume)
    requires Sound(h) && JustCreated(h, h', v)
    ensures Sound(h')
  {
    assert forall i :: 0 <= i < |h.order| ==> h.order[i] in h.volumes;
    assert h'.order[|h.order|] == v.name;
    assert forall n :: n in h'.order <==> n in h.order || n == v.name;
  }

  lemma CreatedOnlyVolume(h: Host, h': Host, v: M.Volume)
    requires JustCreated(h, h', v) && h.calls <= h'.calls && Calm(Delta(h, h'))
    ensures OnlyVolume(h, h', v)
  {
  }

  /** A step that succeeds on a quiet volume leaves exactly the archived entries, whatever was there before. */
  lemma ApplyFacts(k: Codec, h: Host, r: A.Reader, s: Step)
    requires Sound(h) && Fits(h, s) && Quiet(h, s.volume.name)
    ensures var one := ApplySpec(k, h, r, s); var name := s.volume.name;
            && OnlyVolume(h, one.host, s.volume) && Sound(one.host)
            && OnlyQuietAccess(Delta(h, one.host))
            && (one.err.None? ==> name in one.host.volumes && EntriesOf(k, r, name) == Some(one.host.data[name]))
  {
    hide A.OpenVolumeSpec, OnlyVolume, Sound;
    var v, room := s.volume, MakeRoomSpec(k, h, s);
    MakeRoomFacts(k, h, s);
    if room.err.None? {
      var stream := A.OpenVolumeSpec(k, r, v.name);
      var run := HelperSpec(k, room.host, v.name, Unpack(stream));
      HelperFacts(k, room.host, v, Unpack(stream));
      OnlyVolumeTrans(h, room.host, run.host, v);
      if run.result == Exit(0) {
        assert map[] + k.unpack(stream.value).value == k.unpack(stream.value).value;
      }
    }
  }

  lemma MakeRoomFacts(k: Codec, h: Host, s: Step)
    requires Sound(h) && Fits(h, s) && Quiet(h, s.volume.name)
    ensures var room := MakeRoomSpec(k, h, s); var name := s.volume.name;
            && OnlyVolume(h, room.host, s.volume) && Sound(room.host)
            && Quiet(room.host, name)
            && OnlyQuietAccess(Delta(h, room.host))
            && (room.err.None? ==> name in room.host.volumes && name in room.host.data && room.host.data[name] == map[])
  {
    hide OnlyVolume, Sound;
    assert Delta(h, h) == [];
    assert s.volume.name in h.volumes ==> s.volume.name in h.data by { KeysOf(h); }
    RoomTouches(k, h, s);
    StaysQuiet(h, MakeRoomSpec(k, h, s).host, s.volume);
    match s.action {
      case ActionCreate => CreateFacts(h, s.volume);
      case ActionOverwrite => HelperFacts(k, h, s.volume, Clear);
      case ActionUnpack =>
    }
  }

  lemma KeysOf(h: Host)
    requires Sound(h)
    ensures h.data.Keys == h.volumes.Keys
  {
  }

  lemma StaysQuiet(h: Host, h': Host, v: M.Volume)
    requires OnlyVolume(h, h', v)
    ensures Quiet(h', v.name) == Quiet(h, v.name) && h.calls <= h'.calls
  {
  }

  // ---------- what all steps do ----------

  ghost predicate DistinctSteps(steps: seq<Step>) {
    forall i, j :: 0 <= i < j < |steps| ==> steps[i].volume.name != steps[j].volume.name
  }

  /** Same settings and same contents, or still missing. */
  ghost predicate SameVolume(h: Host, h': Host, name: string) {
    && (name in h'.volumes <==> name in h.volumes)
    && (name in h.volumes ==> h'.volumes[name] == h.volumes[name])
    && (name in h'.data <==> name in h.data)
    && (name in h.data ==> h'.data[name] == h.data[name])
  }

  /** The volume holds exactly what the archive has for it; if it had to be created, with the archived settings, and
      otherwise with the settings it had. */
  ghost predicate IsRestored(k: Codec, r: A.Reader, h: Host, h': Host, v: M.Volume) {
    && v.name in h'.volumes && v.name in h'.data
    && EntriesOf(k, r, v.name) == Some(h'.data[v.name])
    && h'.volumes[v.name] == if v.name in h.volumes then h.volumes[v.name] else TargetOf(v)
  }

  /** The effect of the steps: the first done ones restored, the ones after the failed one and all other volumes as
      they were. */
  ghost predicate StepsApplied(k: Codec, r: A.Reader, h: Host, h': Host, steps: seq<Step>, done: nat) {
    && done <= |steps|
    && (forall i :: 0 <= i < done ==> IsRestored(k, r, h, h', steps[i].volume))
    && (forall i :: done < i < |steps| ==> SameVolume(h, h', steps[i].volume.name))
    && (forall n :: n !in Names(steps) ==> SameVolume(h, h', n))
  }

  ghost predicate Working(h: Host, h': Host) {
    && Extends(h, h') && h'.containers == h.containers
    && Calm(Delta(h, h')) && OnlyQuietAccess(Delta(h, h'))
    && (forall n :: n in h.volumes ==> n in h'.volumes && h'.volumes[n] == h.volumes[n])
  }

  lemma WorkingTrans(a: Host, b: Host, c: Host)
    requires Working(a, b) && Working(b, c)
    ensures Working(a, c)
  {
    DeltaTrans(a, b, c);
  }

  lemma {:induction false} ApplyAllFacts(k: Codec, h: Host, r: A.Reader, steps: seq<Step>)
    requires Sound(h) && DistinctSteps(steps)
    requires forall s :: s in steps ==> Fits(h, s) && Quiet(h, s.volume.name)
    ensures var all := ApplyAllSpec(k, h, r, steps);
            && Working(h, all.host) && Sound(all.host)
            && all.done <= |steps| && (all.err.None? <==> all.done == |steps|)
            && StepsApplied(k, r, h, all.host, steps, all.done)
    decreases |steps|
  {
    hide ApplySpec, Sound, Fits, EntriesOf, StepsApplied, Working;
    if steps == [] {
      NoSteps(k, r, h);
    } else {
      var s := steps[0];
      var one := ApplySpec(k, h, r, s);
      ApplyFacts(k, h, r, s);
      OneStep(k, h, r, s);
      if one.err.Some? {
        FailedStep(k, r, h, one.host, steps);
      } else {
        forall t | t in steps[1..] ensures Fits(one.host, t) && Quiet(one.host, t.volume.name) {
          StillFits(h, one.host, s, t);
        }
        var rest := ApplyAllSpec(k, one.host, r, steps[1..]);
        ApplyAllFacts(k, one.host, r, steps[1..]);
        WorkingTrans(h, one.host, rest.host);
        DoneStep(k, r, h, one.host, rest.host, steps, rest.done);
      }
    }
  }

  lemma NoSteps(k: Codec, r: A.Reader, h: Host)
    ensures Working(h, h) && StepsApplied(k, r, h, h, [], 0)
  {
    assert Delta(h, h) == [];
  }

  lemma OneStep(k: Codec, h: Host, r: A.Reader, s: Step)
    requires var one := ApplySpec(k, h, r, s); OnlyVolume(h, one.host, s.volume) && OnlyQuietAccess(Delta(h, one.host))
    ensures Working(h, ApplySpec(k, h, r, s).host)
  {
    hide ApplySpec;
  }

  /** A volume that is not the one changed is the same as before. */
  lemma OtherVolume(h: Host, h': Host, v: M.Volume, name: string)
    requires Sound(h) && Sound(h') && OnlyVolume(h, h', v) && name != v.name
    ensures SameVolume(h, h', name)
  {
  }

  lemma StillFits(h: Host, h': Host, s: Step, t: Step)
    requires Sound(h) && Sound(h') && OnlyVolume(h, h', s.volume) && s.volume.name != t.volume.name
    requires Fits(h, t) && Quiet(h, t.volume.name)
    ensures Fits(h', t) && Quiet(h', t.volume.name)
  {
    OtherVolume(h, h', s.volume, t.volume.name);
  }

  lemma FailedStep(k: Codec, r: A.Reader, h: Host, h': Host, steps: seq<Step>)
    requires steps != [] && DistinctSteps(steps) && Sound(h) && Sound(h') && OnlyVolume(h, h', steps[0].volume)
    ensures StepsApplied(k, r, h, h', steps, 0)
  {
    hide Sound, OnlyVolume, SameVolume;
    assert steps[0].volume.name == Names(steps)[0];
    forall n | n != steps[0].volume.name ensures SameVolume(h, h', n) { OtherVolume(h, h', steps[0].volume, n); }
  }

  lemma DoneStep(k: Codec, r: A.Reader, h: Host, mid: Host, h': Host, steps: seq<Step>, done: nat)
    requires steps != [] && DistinctSteps(steps) && Sound(h) && Sound(mid) && OnlyVolume(h, mid, steps[0].volume)
    requires steps[0].volume.name in mid.volumes
             && EntriesOf(k, r, steps[0].volume.name) == Some(mid.data[steps[0].volume.name])
    requires StepsApplied(k, r, mid, h', steps[1..], done)
    ensures StepsApplied(k, r, h, h', steps, done + 1)
  {
    hide EntriesOf;
    var v, names := steps[0].volume, Names(steps);
    assert names == [v.name] + Names(steps[1..]);
    forall i | 0 < i < |steps|
      ensures steps[i].volume.name != v.name
      ensures i < done + 1 ==> IsRestored(k, r, h, h', steps[i].volume)
      ensures i > done + 1 ==> SameVolume(h, h', steps[i].volume.name)
    {
      OtherVolume(h, mid, v, steps[i].volume.name);
      assert steps[i] == steps[1..][i - 1];
    }
    assert v.name !in Names(steps[1..]);
    assert SameVolume(mid, h', v.name);
    forall n | n !in names ensures SameVolume(h, h', n) { OtherVolume(h, mid, v, n); }
  }

  // ---------- what planning does ----------

  /** Only inspections and read-only looks into volumes. */
  predicate OnlyLooks(calls: seq<Call>) {
    forall c | c in calls :: c.Ask? || (c.Helper? && c.kind.CheckEmpty?)
  }

  ghost predicate Looked(h: Host, h': Host) {
    Extends(h, h') && h' == h.(calls := h'.calls) && OnlyLooks(Delta(h, h'))
  }

  lemma LookedTrans(a: Host, b: Host, c: Host)
    requires Looked(a, b) && Looked(b, c)
    ensures Looked(a, c)
  {
    DeltaTrans(a, b, c);
  }

  /** The observation is right about existence and users, and about emptiness if nobody can be writing. */
  ghost predicate Accurate(h: Host, name: string, st: State) {
    && st.there == (name in h.volumes)
    && st.users == UsersIn(name, h.containers)
    && (st.there && Quiet(h, name) ==> name in h.data && st.empty == (h.data[name] == map[]))
  }

  lemma ObserveFacts(k: Codec, h: Host, name: string)
    requires Sound(h)
    ensures var o := ObserveSpec(k, h, name, h.containers);
            Looked(h, o.host) && (o.state.Ok? ==> Accurate(h, name, o.state.value))
  {
    var (asked, ok) := AskSpec(h, Inspect(name));
    assert Delta(h, asked) == [Ask(Inspect(name), ok)];
    if ok && name in h.volumes {
      var run := HelperSpec(k, asked, name, CheckEmpty);
      assert asked.data[name := asked.data[name]] == asked.data;
      assert Delta(asked, run.host) == [Helper(CheckEmpty, name, run.result, run.stdout, Quiet(asked, name))];
      LookedTrans(h, asked, run.host);
    }
  }

  /** All states found are accurate, and what was known about other volumes is kept. */
  ghost predicate Surveyed(h: Host, vols: seq<M.Volume>, known: map<string, State>, found: map<string, State>) {
    && (forall v :: v in vols ==> v.name in found && Accurate(h, v.name, found[v.name]))
    && (forall n :: n in known && (forall v :: v in vols ==> v.name != n) ==> n in found && found[n] == known[n])
  }

  lemma {:induction false} SurveyFacts(k: Codec, h: Host, vols: seq<M.Volume>, states: map<string, State>)
    requires Sound(h)
    ensures var s := SurveySpec(k, h, vols, h.containers, states);
            && Looked(h, s.host)
            && (s.states.Ok? ==> Surveyed(h, vols, states, s.states.value))
    decreases |vols|
  {
    if vols == [] {
      assert Delta(h, h) == [];
    } else {
      hide ObserveSpec, Looked, Accurate, Surveyed;
      var v := vols[0];
      var o := ObserveSpec(k, h, v.name, h.containers);
      ObserveFacts(k, h, v.name);
      LookedIs(h, o.host);
      if o.state.Ok? {
        var next := states[v.name := o.state.value];
        var s := SurveySpec(k, o.host, vols[1..], h.containers, next);
        SurveyFacts(k, o.host, vols[1..], next);
        LookedTrans(h, o.host, s.host);
        if s.states.Ok? {
          SurveyStep(h, o.host, vols, states, next, s.states.value);
        }
      }
    }
  }

  /** What was right after the first observation is right before it, and later steps kept or replaced the first
      state. */
  lemma SurveyStep(h: Host, h': Host, vols: seq<M.Volume>, states: map<string, State>, next: map<string, State>,
                   found: map<string, State>)
    requires vols != [] && Looked(h, h') && vols[0].name in next
    requires next == states[vols[0].name := next[vols[0].name]] && Accurate(h, vols[0].name, next[vols[0].name])
    requires Surveyed(h', vols[1..], next, found)
    ensures Surveyed(h, vols, states, found)
  {
    hide Looked, Accurate;
    forall w | w in vols
      ensures w.name in found && Accurate(h, w.name, found[w.name])
    {
      if w in vols[1..] {
        AccurateSame(h, h', w.name, found[w.name]);
      } else if exists u :: u in vols[1..] && u.name == w.name {
        var u :| u in vols[1..] && u.name == w.name;
        AccurateSame(h, h', u.name, found[u.name]);
      } else {
        assert w == vols[0];
      }
    }
  }

  lemma LookedIs(h: Host, h': Host)
    requires Looked(h, h')
    ensures h'.containers == h.containers && (Sound(h) ==> Sound(h'))
  {
  }

  lemma AccurateSame(h: Host, h': Host, name: string, st: State)
    requires Looked(h, h') && Accurate(h', name, st)
    ensures Accurate(h, name, st)
  {
  }

  lemma {:induction false} InUseMembers(cs: seq<Container>)
    ensures forall c :: c in InUse(cs) <==> c in cs && c.InUse()
  {
    if cs != [] {
      InUseMembers(cs[1..]);
      assert cs == [cs[0]] + cs[1..];
    }
  }

  /** The in-use users of a volume are exactly the containers that could write to it. */
  lemma WritersOf(h: Host, name: string)
    ensures forall c :: c in InUse(UsersIn(name, h.containers)) <==> c in h.containers && c.Writes(name)
    ensures InUse(UsersIn(name, h.containers)) == [] <==> Quiet(h, name)
  {
    UsersMembers(name, h.containers);
    InUseMembers(UsersIn(name, h.containers));
    var ws := InUse(UsersIn(name, h.containers));
    if ws != [] {
      assert ws[0] in ws;
    }
  }

  /** A planned step against the host it was planned for: blocked exactly if the volume exists and has data or
      possible writers and there is no force; otherwise it fits, and it stops all possible writers, unless the volume
      is still to be created. */
  lemma StepFacts(h: Host, v: M.Volume, st: State, force: bool)
    requires Sound(h) && Accurate(h, v.name, st)
    ensures var s := StepSpec(v, st, force);
            && s.volume == v
            && (s.action.ActionBlocked? <==> !force && v.name in h.volumes && !(st.empty && Quiet(h, v.name)))
            && (!s.action.ActionBlocked? ==> Fits(h, s))
            && (s.action.ActionUnpack? ==> Quiet(h, v.name))
            && (forall c :: c in s.stop ==> c in h.containers && c.Writes(v.name))
            && (s.action.ActionOverwrite? ==> forall c :: c in h.containers && c.Writes(v.name) ==> c in s.stop)
            && (!force ==> s.stop == [])
  {
    WritersOf(h, v.name);
  }

  lemma {:induction false} AllStopsMembers(steps: seq<Step>)
    ensures forall c :: c in AllStops(steps) <==> exists s :: s in steps && c in s.stop
  {
    if steps != [] {
      AllStopsMembers(steps[1..]);
      assert steps == [steps[0]] + steps[1..];
    }
  }

  lemma {:induction false} UniqueFacts(cs: seq<Container>, seen: set<string>)
    ensures var out := Unique(cs, seen);
            && (forall c :: c in out ==> c in cs && c.id !in seen)
            && (forall c :: c in cs ==> c.id in S.Ids(out) + seen)
            && (forall i, j :: 0 <= i < j < |out| ==> out[i].id != out[j].id)
  {
    if cs != [] {
      var out := Unique(cs, seen);
      assert cs == [cs[0]] + cs[1..];
      if cs[0].id in seen {
        UniqueFacts(cs[1..], seen);
      } else {
        UniqueFacts(cs[1..], seen + {cs[0].id});
        assert S.Ids(out) == {cs[0].id} + S.Ids(Unique(cs[1..], seen + {cs[0].id}));
      }
    }
  }

  /** ToStop lists every container of every step, each id once. */
  lemma ToStopFacts(steps: seq<Step>)
    ensures var out := ToStopSpec(steps);
            && (forall c :: c in out ==> exists s :: s in steps && c in s.stop)
            && (forall s, c :: s in steps && c in s.stop ==> c.id in S.Ids(out))
            && (forall i, j :: 0 <= i < j < |out| ==> out[i].id != out[j].id)
  {
    AllStopsMembers(steps);
    UniqueFacts(AllStops(steps), {});
  }

  /** What a plan that is not blocked promises about the host it was made for. */
  ghost predicate GoodPlan(h: Host, steps: seq<Step>, force: bool) {
    && DistinctSteps(steps)
    && (forall s :: s in steps ==>
          && Fits(h, s)
          && (s.action.ActionUnpack? ==> Quiet(h, s.volume.name))
          && (s.action.ActionOverwrite? ==>
                force && forall c :: c in h.containers && c.Writes(s.volume.name) ==> c in s.stop)
          && (forall c :: c in s.stop ==> c in h.containers && c.Writes(s.volume.name)))
    && (!force ==> forall s :: s in steps ==> s.stop == [])
  }

  ghost predicate SelectedFrom(r: A.Reader, opts: Options, vols: seq<M.Volume>) {
    Selection.FilterSpec(r.m.volumes, NAME_OF, PROJECT_OF, opts.names, opts.projects) == Ok(vols)
  }

  lemma SelectedDistinct(k: Codec, file: Bytes, r: A.Reader, opts: Options, vols: seq<M.Volume>)
    requires A.OpenSpec(k, file) == Some(r) && SelectedFrom(r, opts, vols)
    ensures forall i, j :: 0 <= i < j < |vols| ==> vols[i].name != vols[j].name
    ensures forall v :: v in vols ==> v in r.m.volumes
    ensures vols != []
  {
    hide Selection.FilterSpec, A.OpenSpec;
    A.OpenIsSafe(k, file);
    var at := Selection.FilterFacts(r.m.volumes, NAME_OF, PROJECT_OF, opts.names, opts.projects);
    forall i, j | 0 <= i < j < |vols|
      ensures vols[i].name != vols[j].name
    {
      assert vols[i] == r.m.volumes[at[i]] && vols[j] == r.m.volumes[at[j]];
    }
  }

  lemma PlanFacts(h: Host, vols: seq<M.Volume>, states: map<string, State>, force: bool)
    requires Sound(h) && (forall i, j :: 0 <= i < j < |vols| ==> vols[i].name != vols[j].name)
    requires forall v :: v in vols ==> v.name in states && Accurate(h, v.name, states[v.name])
    requires !IsBlocked(PlanSpec(vols, states, force))
    ensures GoodPlan(h, PlanSpec(vols, states, force), force)
    ensures forall i :: 0 <= i < |vols| ==> PlanSpec(vols, states, force)[i].volume == vols[i]
  {
    hide Sound, Accurate, Fits, StepSpec;
    var steps := PlanSpec(vols, states, force);
    forall i | 0 <= i < |vols|
      ensures steps[i].volume == vols[i]
      ensures Fits(h, steps[i])
      ensures steps[i].action.ActionUnpack? ==> Quiet(h, vols[i].name)
      ensures steps[i].action.ActionOverwrite? ==>
                force && forall c :: c in h.containers && c.Writes(vols[i].name) ==> c in steps[i].stop
      ensures forall c :: c in steps[i].stop ==> c in h.containers && c.Writes(vols[i].name)
      ensures !force ==> steps[i].stop == []
    {
      assert steps[i] in steps;
      assert vols[i] in vols;
      StepFacts(h, vols[i], states[vols[i].name], force);
      NoForceNoOverwrite(vols[i], states[vols[i].name], force);
    }
  }

  lemma NoForceNoOverwrite(v: M.Volume, st: State, force: bool)
    ensures StepSpec(v, st, force).action.ActionOverwrite? ==> force
  {
  }

  /** Planning changes nothing. If it goes ahead, the file opened and every selected volume verified, and the steps are
      a good plan for exactly the selected volumes in manifest order. */
  lemma PlanningFacts(k: Codec, h: Host, file: ArchiveFile, opts: Options)
    requires Sound(h)
    ensures var p := PlanningSpec(k, h, file, opts);
            && Looked(h, p.host)
            && (p.Go? ==>
                  && PrepareSpec(k, file, opts) == Ok(Job(p.reader, PrepareSpec(k, file, opts).value.selected))
                  && |p.steps| == |PrepareSpec(k, file, opts).value.selected|
                  && (forall i :: 0 <= i < |p.steps| ==>
                      p.steps[i].volume == PrepareSpec(k, file, opts).value.selected[i])
                  && GoodPlan(p.host, p.steps, opts.force)
                  && p.steps != [])
  {
    hide PrepareSpec, PlanSpec, SurveySpec, GoodPlan, IsBlocked, Sound;
    assert Delta(h, h) == [];
    var (h1, ok1) := AskSpec(h, EnsureImage);
    assert Delta(h, h1) == [Ask(EnsureImage, ok1)];
    var (h2, ok2) := AskSpec(h1, ListContainers);
    assert Delta(h1, h2) == [Ask(ListContainers, ok2)];
    LookedTrans(h, h1, h2);
    assert Sound(h2) by { LookedIs(h, h2); }
    var job := PrepareSpec(k, file, opts);
    if job.Ok? {
      var vols := job.value.selected;
      var survey := SurveySpec(k, h2, vols, h2.containers, map[]);
      SurveyFacts(k, h2, vols, map[]);
      LookedTrans(h, h2, survey.host);
      LookedIs(h2, survey.host);
      if PlanningSpec(k, h, file, opts).Go? {
        PrepareFacts(k, file, opts);
        forall v | v in vols ensures Accurate(survey.host, v.name, survey.states.value[v.name]) {
          AccurateLater(h2, survey.host, v.name, survey.states.value[v.name]);
        }
        PlanFacts(survey.host, vols, survey.states.value, opts.force);
        assert |PlanSpec(vols, survey.states.value, opts.force)| == |vols| by {
          PlanLength(vols, survey.states.value, opts.force);
        }
      }
    }
  }

  lemma PlanLength(vols: seq<M.Volume>, states: map<string, State>, force: bool)
    ensures |PlanSpec(vols, states, force)| == |vols|
  {
  }

  lemma AccurateLater(h: Host, h': Host, name: string, st: State)
    requires Looked(h, h') && Accurate(h, name, st)
    ensures Accurate(h', name, st)
  {
  }

  /** A prepared job: the file opened, the selection is the filtered manifest, and each selected volume verified. */
  lemma PrepareFacts(k: Codec, file: ArchiveFile, opts: Options)
    requires PrepareSpec(k, file, opts).Ok?
    ensures var job := PrepareSpec(k, file, opts).value;
            && file.bytes.Some? && A.OpenSpec(k, file.bytes.value) == Some(job.reader)
            && SelectedFrom(job.reader, opts, job.selected)
            && job.selected != []
            && (forall i, j :: 0 <= i < j < |job.selected| ==> job.selected[i].name != job.selected[j].name)
            && (forall v :: v in job.selected ==>
                  v in job.reader.m.volumes && v.name !in file.unreadable && A.VerifySpec(k, job.reader, v.name).None?)
  {
    hide A.OpenSpec, A.VerifySpec, Selection.FilterSpec;
    var job := PrepareSpec(k, file, opts).value;
    SelectedDistinct(k, file.bytes.value, job.reader, opts, job.selected);
    VerifiedAll(k, job.reader, job.selected, file.unreadable);
  }

  lemma {:induction false} VerifiedAll(k: Codec, r: A.Reader, vols: seq<M.Volume>, unreadable: set<string>)
    requires VerifyAllSpec(k, r, vols, unreadable).None?
    ensures forall v :: v in vols ==> v.name !in unreadable && A.VerifySpec(k, r, v.name).None?
  {
    hide A.VerifySpec;
    if vols != [] {
      VerifiedAll(k, r, vols[1..], unreadable);
      assert vols == [vols[0]] + vols[1..];
    }
  }

  // ---------- from the first stop to the last restart ----------

  lemma StepTouches(k: Codec, h: Host, r: A.Reader, s: Step)
    requires Sound(h)
    ensures OnlyVolume(h, ApplySpec(k, h, r, s).host, s.volume) && Sound(ApplySpec(k, h, r, s).host)
  {
    hide A.OpenVolumeSpec, OnlyVolume, Sound, HelperSpec, CreateSpec, MakeRoomSpec;
    var v, room := s.volume, MakeRoomSpec(k, h, s);
    RoomTouches(k, h, s);
    if room.err.None? {
      var kind := Unpack(A.OpenVolumeSpec(k, r, v.name));
      HelperFacts(k, room.host, v, kind);
      OnlyVolumeTrans(h, room.host, HelperSpec(k, room.host, v.name, kind).host, v);
    }
  }

  lemma RoomTouches(k: Codec, h: Host, s: Step)
    requires Sound(h)
    ensures OnlyVolume(h, MakeRoomSpec(k, h, s).host, s.volume) && Sound(MakeRoomSpec(k, h, s).host)
  {
    hide OnlyVolume, Sound, HelperSpec;
    var v := s.volume;
    assert Delta(h, h) == [];
    match s.action {
      case ActionOverwrite => HelperFacts(k, h, v, Clear);
      case ActionCreate =>
        if v.name in h.volumes {
          var h' := CreateSpec(h, TargetOf(v)).0;
          SameKeysSound(h, h');
          SameKeysOnlyVolume(h, h', v);
        } else {
          CreateFacts(h, v);
        }
      case _ => SameKeysOnlyVolume(h, h, v);
    }
  }

  /** Whatever fails, the steps stop and start nothing and touch no volume but their own. */
  ghost predicate Touches(h: Host, h': Host, names: seq<string>) {
    && Extends(h, h') && h'.containers == h.containers && Calm(Delta(h, h'))
    && forall n :: n !in names ==> SameVolume(h, h', n)
  }

  lemma {:induction false} ApplyAllTouches(k: Codec, h: Host, r: A.Reader, steps: seq<Step>)
    requires Sound(h)
    ensures Touches(h, ApplyAllSpec(k, h, r, steps).host, Names(steps)) && Sound(ApplyAllSpec(k, h, r, steps).host)
    decreases |steps|
  {
    if steps == [] {
      assert Delta(h, h) == [];
    } else {
      hide ApplySpec, Sound, OnlyVolume;
      var one := ApplySpec(k, h, r, steps[0]);
      StepTouches(k, h, r, steps[0]);
      assert Names(steps) == [steps[0].volume.name] + Names(steps[1..]);
      OneTouches(h, one.host, steps[0].volume);
      if one.err.None? {
        var rest := ApplyAllSpec(k, one.host, r, steps[1..]);
        ApplyAllTouches(k, one.host, r, steps[1..]);
        TouchesTrans(h, one.host, rest.host, [steps[0].volume.name], Names(steps[1..]));
      }
    }
  }

  lemma OneTouches(h: Host, h': Host, v: M.Volume)
    requires Sound(h) && Sound(h') && OnlyVolume(h, h', v)
    ensures Touches(h, h', [v.name])
  {
    forall n | n !in [v.name] ensures SameVolume(h, h', n) { OtherVolume(h, h', v, n); }
  }

  lemma TouchesTrans(a: Host, b: Host, c: Host, first: seq<string>, more: seq<string>)
    requires Touches(a, b, first) && Touches(b, c, more)
    ensures Touches(a, c, first + more)
  {
    DeltaTrans(a, b, c);
  }

  function WorkHost(k: Codec, h: Host, r: A.Reader, steps: seq<Step>): Host {
    var stop := S.StopAllSpec(h, ToStopSpec(steps), {});
    if stop.err.Some? then stop.host else ApplyAllSpec(k, stop.host, r, steps).host
  }

  /** Stopping leaves volumes and identities alone. */
  lemma StopKeeps(h: Host, cs: seq<Container>)
    ensures var stop := S.StopAllSpec(h, cs, {});
            && Extends(h, stop.host)
            && stop.host == h.(calls := stop.host.calls, containers := stop.host.containers)
            && (Sound(h) ==> Sound(stop.host))
  {
    hide S.StopAllSpec;
    var stop := S.StopAllSpec(h, cs, {});
    S.StopAllFacts(h, cs, {});
    SameIds(h.containers, stop.host.containers);
  }

  lemma SameIds(cs: seq<Container>, cs': seq<Container>)
    requires SameContainers(cs, cs')
    ensures (set c | c in cs :: c.id) == (set c | c in cs' :: c.id)
  {
    assert forall i :: 0 <= i < |cs| ==> cs'[i].id == cs[i].id;
    forall c | c in cs ensures exists d :: d in cs' && d.id == c.id {
      var i :| 0 <= i < |cs| && cs[i] == c;
      assert cs'[i] in cs';
    }
    forall d | d in cs' ensures exists c :: c in cs && c.id == d.id {
      var i :| 0 <= i < |cs'| && cs'[i] == d;
      assert cs[i] in cs;
    }
  }

  lemma ExecuteRestarts(k: Codec, h: Host, r: A.Reader, steps: seq<Step>)
    requires Sound(h)
    ensures var out := ExecuteSpec(k, h, r, steps); EveryStopUndone(h, out.host, out.restartErrors)
  {
    hide ApplyAllSpec, S.StopAllSpec, S.RestartSpec, EveryStopUndone, ToStopSpec;
    var cs := ToStopSpec(steps);
    var stop := S.StopAllSpec(h, cs, {});
    StopKeeps(h, cs);
    assert Delta(h, h) == [] && Delta(stop.host, stop.host) == [];
    ApplyAllTouches(k, stop.host, r, steps);
    S.StopWorkRestart(h, h, cs, WorkHost(k, h, r, steps));
  }

  lemma RestartKeeps(h: Host, stopped: seq<S.Entry>)
    requires S.DistinctIds(stopped)
    ensures var r := S.RestartSpec(h, stopped);
            && Extends(h, r.host)
            && r.host == h.(calls := r.host.calls, containers := r.host.containers)
            && (forall c :: c in Delta(h, r.host) ==> c.Start?)
            && (Sound(h) ==> Sound(r.host))
  {
    hide S.RestartSpec;
    S.RestartFacts(h, stopped);
    var r := S.RestartSpec(h, stopped);
    assert Delta(h, r.host) == S.StartCalls(Sort(S.BY_START, stopped), S.Elements(r.errs));
    SameIds(h.containers, r.host.containers);
  }

  /** After Stop, every step of a good plan finds its volume quiet. */
  lemma PlannedIsQuiet(h: Host, steps: seq<Step>, force: bool, s: Step)
    requires GoodPlan(h, steps, force) && MountsExist(h) && s in steps
    requires S.StopAllSpec(h, ToStopSpec(steps), {}).err.None?
    ensures Quiet(S.StopAllSpec(h, ToStopSpec(steps), {}).host, s.volume.name)
  {
    hide S.StopAllSpec, ToStopSpec;
    var cs := ToStopSpec(steps);
    ToStopFacts(steps);
    forall c | c in h.containers && c.Writes(s.volume.name)
      ensures c.id in S.InUseIds(cs)
    {
      assert s.action.ActionOverwrite?;
      assert c.id in S.Ids(cs);
      var d :| d in cs && d.id == c.id;
      assert d.InUse();
    }
    S.StoppedIsQuiet(h, cs, s.volume.name);
  }

  /** Everything a run does after planning. */
  lemma ExecuteFacts(k: Codec, h: Host, r: A.Reader, steps: seq<Step>, force: bool)
    requires Sound(h) && MountsExist(h) && GoodPlan(h, steps, force) && steps != []
    ensures var out := ExecuteSpec(k, h, r, steps);
            && Extends(h, out.host) && Sound(out.host)
            && OnlyQuietAccess(Delta(h, out.host))
            && out.restored + out.failed + out.untouched == Names(steps)
            && |out.failed| <= 1
            && (out.err.None? <==> out.failed == [] && out.untouched == [])
            && StepsApplied(k, r, h, out.host, steps, |out.restored|)
            && (out.failed == [] ==> forall n :: n in out.untouched ==> SameVolume(h, out.host, n))
  {
    hide ApplyAllSpec, S.StopAllSpec, S.RestartSpec, ToStopSpec, Sound, GoodPlan, MountsExist, StepsApplied, Fits;
    var cs, out := ToStopSpec(steps), ExecuteSpec(k, h, r, steps);
    var stop := S.StopAllSpec(h, cs, {});
    S.StopAllFacts(h, cs, {});
    StopKeeps(h, cs);
    var worked := WorkHost(k, h, r, steps);
    RestartKeeps(worked, stop.added);
    if stop.err.Some? {
      assert Delta(worked, worked) == [];
      NothingApplied(k, r, h, out.host, steps);
      assert Names(steps) == [] + [] + Names(steps);
    } else {
      GoodPlanLater(h, stop.host, steps, force);
      forall s | s in steps ensures Quiet(stop.host, s.volume.name) { PlannedIsQuiet(h, steps, force, s); }
      ApplyAllFacts(k, stop.host, r, steps);
      var all := ApplyAllSpec(k, stop.host, r, steps);
      NamesSplit(steps, all.done);
      AppliedLater(k, r, h, stop.host, worked, out.host, steps, all.done);
      assert Names(steps) + [] + [] == Names(steps);
    }
    DeltaTrans(h, stop.host, worked);
    DeltaTrans(h, worked, out.host);
  }

  lemma NamesSplit(steps: seq<Step>, done: nat)
    requires done <= |steps|
    ensures done < |steps| ==>
              Names(steps[..done]) + [steps[done].volume.name] + Names(steps[done + 1..]) == Names(steps)
    ensures |Names(steps[..done])| == done && |Names(steps)| == |steps|
  {
  }

  lemma GoodPlanLater(h: Host, h': Host, steps: seq<Step>, force: bool)
    requires GoodPlan(h, steps, force) && h'.volumes == h.volumes && h'.data == h.data
    ensures DistinctSteps(steps) && forall s :: s in steps ==> Fits(h', s)
  {
  }

  lemma NothingApplied(k: Codec, r: A.Reader, h: Host, h': Host, steps: seq<Step>)
    requires h'.volumes == h.volumes && h'.data == h.data
    ensures StepsApplied(k, r, h, h', steps, 0) && forall n :: SameVolume(h, h', n)
  {
  }

  lemma AppliedLater(k: Codec, r: A.Reader, h: Host, stopped: Host, worked: Host, h': Host, steps: seq<Step>, done: nat)
    requires StepsApplied(k, r, stopped, worked, steps, done)
    requires stopped.volumes == h.volumes && stopped.data == h.data && h'.volumes == worked.volumes
             && h'.data == worked.data
    ensures StepsApplied(k, r, h, h', steps, done)
  {
    hide EntriesOf;
  }

  // ---------- the whole run ----------

  /** For every archive, selection and schedule of failures: what was stopped is started again, after everything else,
      and a container that could not be started is reported. */
  lemma RestoreRestarts(k: Codec, h: Host, file: ArchiveFile, opts: Options)
    requires Sound(h)
    ensures var out := RunSpec(k, h, file, opts); EveryStopUndone(h, out.host, out.restartErrors)
  {
    hide PlanningSpec, ApplyAllSpec, S.StopAllSpec, S.RestartSpec, ToStopSpec;
    var p := PlanningSpec(k, h, file, opts);
    PlanningFacts(k, h, file, opts);
    LookedIs(h, p.host);
    if p.Go? {
      var cs := ToStopSpec(p.steps);
      var stop := S.StopAllSpec(p.host, cs, {});
      StopKeeps(p.host, cs);
      assert Delta(stop.host, stop.host) == [];
      ApplyAllTouches(k, stop.host, p.reader, p.steps);
      S.StopWorkRestart(h, p.host, cs, WorkHost(k, p.host, p.reader, p.steps));
    } else {
      NothingStopped(h, p.host);
    }
  }

  function VolumeNames(vols: seq<M.Volume>): seq<string> {
    seq(|vols|, i requires 0 <= i < |vols| => vols[i].name)
  }

  /** A run that gets past planning reports every selected volume exactly once, in order: restored, at most one failed,
      untouched. The restored ones hold exactly the archived entries, nothing from before; the untouched ones and all
      volumes outside the selection are as they were. Volumes are read and written only while nobody else can write. */
  lemma RestoreEffect(k: Codec, h: Host, file: ArchiveFile, opts: Options)
    requires Sound(h) && MountsExist(h)
    ensures var p, out := PlanningSpec(k, h, file, opts), RunSpec(k, h, file, opts);
            && Extends(h, out.host) && Sound(out.host) && OnlyQuietAccess(Delta(h, out.host))
            && (p.Halt? ==> forall n :: SameVolume(h, out.host, n))
            && (p.Go? ==>
                  var vols := PrepareSpec(k, file, opts).value.selected;
                  && out.restored + out.failed + out.untouched == VolumeNames(vols)
                  && |out.failed| <= 1
                  && (out.err.None? <==> out.failed == [] && out.untouched == [])
                  && (forall v :: v in vols && v.name in out.restored ==> IsRestored(k, p.reader, h, out.host, v))
                  && (forall n :: n !in out.restored + out.failed ==> SameVolume(h, out.host, n)))
  {
    hide PlanningSpec, ExecuteSpec, PrepareSpec, Sound, EntriesOf, IsRestored, SameVolume, GoodPlan, MountsExist;
    var p, out := PlanningSpec(k, h, file, opts), RunSpec(k, h, file, opts);
    PlanningFacts(k, h, file, opts);
    LookedIs(h, p.host);
    if p.Halt? {
      LookedSame(h, out.host);
    } else {
      MountsExistLater(h, p.host);
      ExecuteFacts(k, p.host, p.reader, p.steps, opts.force);
      var vols := PrepareSpec(k, file, opts).value.selected;
      assert VolumeNames(vols) == Names(p.steps);
      DeltaTrans(h, p.host, out.host);
      RestoredByName(k, h, p, out, vols);
      LookedQuiet(h, p.host);
    }
  }

  lemma LookedQuiet(h: Host, h': Host)
    requires Looked(h, h')
    ensures OnlyQuietAccess(Delta(h, h'))
  {
  }

  lemma LookedSame(h: Host, h': Host)
    requires Looked(h, h')
    ensures OnlyQuietAccess(Delta(h, h')) && forall n :: SameVolume(h, h', n)
  {
  }

  lemma MountsExistLater(h: Host, h': Host)
    requires Looked(h, h')
    ensures MountsExist(h) ==> MountsExist(h')
  {
  }

  /** From positions in the plan to names. */
  lemma RestoredByName(k: Codec, h: Host, p: Planning, out: Outcome, vols: seq<M.Volume>)
    requires p.Go? && Looked(h, p.host) && |p.steps| == |vols|
    requires forall i :: 0 <= i < |vols| ==> p.steps[i].volume == vols[i]
    requires DistinctSteps(p.steps) || GoodPlan(p.host, p.steps, true) || GoodPlan(p.host, p.steps, false)
    requires out.restored + out.failed + out.untouched == Names(p.steps) && |out.failed| <= 1
    requires StepsApplied(k, p.reader, p.host, out.host, p.steps, |out.restored|)
    requires out.failed == [] ==> forall n :: n in out.untouched ==> SameVolume(p.host, out.host, n)
    ensures forall v :: v in vols && v.name in out.restored ==> IsRestored(k, p.reader, h, out.host, v)
    ensures forall n :: n !in out.restored + out.failed ==> SameVolume(h, out.host, n)
  {
    hide EntriesOf, Fits;
    var names, d := Names(p.steps), |out.restored|;
    forall v | v in vols && v.name in out.restored
      ensures IsRestored(k, p.reader, h, out.host, v)
    {
      var i :| 0 <= i < |vols| && vols[i] == v;
      var j :| 0 <= j < d && out.restored[j] == v.name;
      assert names[j] == v.name == names[i];
      assert i == j;
    }
    forall n | n !in out.restored + out.failed
      ensures SameVolume(h, out.host, n)
    {
      if n in names {
        var i :| 0 <= i < |names| && names[i] == n;
        assert i >= d && (out.failed != [] ==> i != d);
        assert out.failed == [] ==> n == out.untouched[i - d];
      }
    }
  }

  // ---------- the code ----------

  method Prepare(k: Codec, file: ArchiveFile, opts: Options) returns (job: Result<Job, Error>)
    ensures job == PrepareSpec(k, file, opts)
  {
    hide A.OpenSpec, A.VerifySpec;
    if file.bytes.None? {
      return Err(DiskFailed);
    }
    var r := A.Open(k, file.bytes.value);
    if r.None? {
      return Err(BadArchive);
    }
    var selected := Selection.Filter(r.value.m.volumes, NAME_OF, PROJECT_OF, opts.names, opts.projects);
    if selected.Err? {
      return Err(selected.error);
    }
    var vols := selected.value;
    for i := 0 to |vols|
      invariant VerifyAllSpec(k, r.value, vols, file.unreadable)
                == VerifyAllSpec(k, r.value, vols[i..], file.unreadable)
    {
      assert vols[i..][0] == vols[i] && vols[i..][1..] == vols[i + 1..];
      if vols[i].name in file.unreadable {
        return Err(DiskFailed);
      }
      var err := A.VerifySpec(k, r.value, vols[i].name);
      if err.Some? {
        return Err(err.value);
      }
    }
    return Ok(Job(r.value, vols));
  }

  method Observe(d: Daemon, name: string, containers: seq<Container>) returns (state: Result<State, Error>)
    modifies d
    ensures Observed(d.View(), state) == ObserveSpec(d.k, old(d.View()), name, containers)
    ensures d.containers == old(d.containers)
  {
    var ok := d.Ask(Inspect(name));
    if !ok {
      return Err(DockerFailed);
    }
    var there := name in d.volumes;
    var users: seq<Container> := [];
    for i := 0 to |containers|
      invariant UsersIn(name, containers) == users + UsersIn(name, containers[i..])
    {
      var c := containers[i];
      assert containers[i..][0] == c && containers[i..][1..] == containers[i + 1..];
      if !c.IsHelper() && c.UsesVolume(name) {
        users := users + [c];
      }
    }
    assert users + [] == users;
    var empty := false;
    if there {
      var result, _, found := d.RunHelper(name, CheckEmpty);
      if result.Broke? {
        return Err(HelperFailed(name));
      }
      if result.code != 0 {
        return Err(HelperExit(name, result.code));
      }
      empty := !found;
    }
    return Ok(State(there, empty, users));
  }

  method BuildPlan(vols: seq<M.Volume>, states: map<string, State>, force: bool) returns (steps: seq<Step>)
    ensures steps == PlanSpec(vols, states, force)
  {
    hide PlanSpec, InUse;
    steps := [];
    PlanSnoc(vols, states, force, 0);
    for i := 0 to |vols|
      invariant steps == PlanSpec(vols[..i], states, force)
    {
      var st := StateOf(states, vols[i].name);
      var inUse: seq<Container> := [];
      assert st.users[0..] == st.users;
      for j := 0 to |st.users|
        invariant InUse(st.users) == inUse + InUse(st.users[j..])
      {
        InUseNext(st.users, j);
        if st.users[j].InUse() {
          inUse := inUse + [st.users[j]];
        }
      }
      InUseNext(st.users, |st.users|);
      assert inUse + [] == inUse;
      var step := Step(vols[i], ActionBlocked, []);
      if !st.there {
        step := step.(action := ActionCreate);
      } else if st.empty && inUse == [] {
        step := step.(action := ActionUnpack);
      } else if force {
        step := step.(action := ActionOverwrite, stop := inUse);
      }
      PlanSnoc(vols, states, force, i);
      steps := steps + [step];
    }
    assert vols[..|vols|] == vols;
  }

  lemma InUseNext(cs: seq<Container>, j: nat)
    requires j <= |cs|
    ensures InUse(cs[j..]) == if j == |cs| then [] else (if cs[j].InUse() then [cs[j]] else []) + InUse(cs[j + 1..])
  {
    if j < |cs| {
      assert cs[j..][0] == cs[j] && cs[j..][1..] == cs[j + 1..];
    }
  }

  lemma PlanSnoc(vols: seq<M.Volume>, states: map<string, State>, force: bool, i: nat)
    requires i <= |vols|
    ensures PlanSpec(vols[..0], states, force) == []
    ensures i < |vols| ==>
              PlanSpec(vols[..i + 1], states, force)
              == PlanSpec(vols[..i], states, force) + [StepSpec(vols[i], StateOf(states, vols[i].name), force)]
  {
  }

  method ToStop(steps: seq<Step>) returns (out: seq<Container>)
    ensures out == ToStopSpec(steps)
  {
    hide InUse;
    out := [];
    var seen: set<string> := {};
    for i := 0 to |steps|
      invariant ToStopSpec(steps) == out + Unique(AllStops(steps[i..]), seen)
    {
      var cs := steps[i].stop;
      assert steps[i..][0] == steps[i] && steps[i..][1..] == steps[i + 1..];
      ghost var later := AllStops(steps[i + 1..]);
      assert cs[0..] + later == AllStops(steps[i..]);
      for j := 0 to |cs|
        invariant ToStopSpec(steps) == out + Unique(cs[j..] + later, seen)
      {
        assert (cs[j..] + later)[0] == cs[j] && (cs[j..] + later)[1..] == cs[j + 1..] + later;
        if cs[j].id !in seen {
          seen := seen + {cs[j].id};
          out := out + [cs[j]];
        }
      }
      assert cs[|cs|..] + later == later;
    }
    assert out + [] == out;
  }

  method Apply(d: Daemon, r: A.Reader, s: Step) returns (err: Option<Error>)
    modifies d
    ensures Applied(d.View(), err) == ApplySpec(d.k, old(d.View()), r, s)
  {
    hide A.OpenVolumeSpec, HelperSpec;
    var name := s.volume.name;
    match s.action {
      case ActionCreate =>
        var ok := d.CreateVolume(TargetOf(s.volume));
        if !ok {
          return Some(DockerFailed);
        }
      case ActionOverwrite =>
        var result, _, _ := d.RunHelper(name, Clear);
        if result.Broke? {
          return Some(HelperFailed(name));
        }
        if result.code != 0 {
          return Some(HelperExit(name, result.code));
        }
      case ActionUnpack =>
      case ActionBlocked =>
        return Some(Blocked);
    }
    var result, _, _ := d.RunHelper(name, Unpack(A.OpenVolumeSpec(d.k, r, name)));
    return HelperError(name, result);
  }

  /** Everything before the first change. */
  method Plan(d: Daemon, file: ArchiveFile, opts: Options) returns (p: Planning)
    modifies d
    ensures p == PlanningSpec(d.k, old(d.View()), file, opts) && p.host == d.View()
  {
    hide PrepareSpec, ObserveSpec, PlanSpec;
    var job := Prepare(d.k, file, opts);
    if job.Err? {
      return Halt(d.View(), Some(job.error));
    }
    if opts.verifyOnly {
      return Halt(d.View(), None);
    }
    var ok := d.Ask(EnsureImage);
    if !ok {
      return Halt(d.View(), Some(DockerFailed));
    }
    ok := d.Ask(ListContainers);
    if !ok {
      return Halt(d.View(), Some(DockerFailed));
    }
    var vols, containers := job.value.selected, d.containers;
    ghost var h2 := d.View();
    var states: map<string, State> := map[];
    for i := 0 to |vols|
      invariant SurveySpec(d.k, h2, vols, containers, map[]) == SurveySpec(d.k, d.View(), vols[i..], containers, states)
    {
      assert vols[i..][0] == vols[i] && vols[i..][1..] == vols[i + 1..];
      var state := Observe(d, vols[i].name, containers);
      if state.Err? {
        return Halt(d.View(), Some(state.error));
      }
      states := states[vols[i].name := state.value];
    }
    var steps := BuildPlan(vols, states, opts.force);
    if IsBlocked(steps) {
      return Halt(d.View(), Some(Blocked));
    }
    return Go(d.View(), job.value.reader, steps);
  }

  /** The loop over the steps, up to the first failure. */
  method ApplyAll(d: Daemon, r: A.Reader, steps: seq<Step>) returns (done: nat, err: Option<Error>)
    modifies d
    ensures Progress(d.View(), done, err) == ApplyAllSpec(d.k, old(d.View()), r, steps)
    ensures done <= |steps| && (err.Some? <==> done < |steps|)
  {
    hide ApplySpec;
    ghost var h := d.View();
    done := 0;
    while done < |steps|
      invariant done <= |steps|
      invariant var rest := ApplyAllSpec(d.k, d.View(), r, steps[done..]);
                ApplyAllSpec(d.k, h, r, steps) == rest.(done := done + rest.done)
    {
      assert steps[done..][0] == steps[done] && steps[done..][1..] == steps[done + 1..];
      err := Apply(d, r, steps[done]);
      if err.Some? {
        return;
      }
      done := done + 1;
    }
    err := None;
  }

  method Run(d: Daemon, file: ArchiveFile, opts: Options)
    returns (restored: seq<string>, failed: seq<string>, untouched: seq<string>, restartErrors: seq<string>,
             err: Option<Error>)
    modifies d
    ensures Outcome(d.View(), restored, failed, untouched, restartErrors, err)
            == RunSpec(d.k, old(d.View()), file, opts)
  {
    hide PlanningSpec, ApplyAllSpec, S.StopAllSpec, S.RestartSpec, ToStopSpec;
    restored, failed, untouched, restartErrors := [], [], [], [];
    var p := Plan(d, file, opts);
    if p.Halt? {
      return [], [], [], [], p.err;
    }
    var steps := p.steps;
    var st := new S.Stopper(d);
    assert S.EntryIds([]) == {};
    var cs := ToStop(steps);
    err := st.Stop(cs);
    assert S.Stopping(d.View(), st.stopped, err) == S.StopAllSpec(p.host, cs, {});
    if err.Some? {
      untouched := Names(steps);
    } else {
      var done: nat;
      done, err := ApplyAll(d, p.reader, steps);
      restored := Names(steps[..done]);
      if err.Some? {
        failed, untouched := [steps[done].volume.name], Names(steps[done + 1..]);
      } else {
        assert steps[..done] == steps;
      }
    }
    restartErrors := st.Restart();
  }
}
