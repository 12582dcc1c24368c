/** The Docker host as the tool sees it (internal/dockerx/dockerx.go and the fake engine in fake.go). */
module Docker {
  import opened Common
  import opened Codecs

  const LABEL_HELPER := "dv-backup.helper"
  const LABEL_SERVICE := "com.docker.compose.service"

  datatype Status = Running | Paused | Restarting | Exited | Created | OtherStatus(text: string)

  datatype Volume = Volume(name: string, driver: string, options: map<string, string>, labels: map<string, string>)

  datatype Mount = Mount(kind: string, name: string)

  datatype Container = Container(id: string, name: string, image: string, status: Status,
                                 labels: map<string, string>, mounts: seq<Mount>)
  {
    predicate InUse() {
      status.Running? || status.Paused? || status.Restarting?
    }

    predicate UsesVolume(volume: string) {
      exists m | m in mounts :: m.kind == "volume" && m.name == volume
    }

    predicate IsHelper() {
      LABEL_HELPER in labels && labels[LABEL_HELPER] == "true"
    }

    function Service(): string {
      if LABEL_SERVICE in labels then labels[LABEL_SERVICE] else ""
    }

    /** What the world may do, whatever the program thinks: a container with live processes, even if they are frozen or
        about to be started again, may be writing to the volumes it mounts. Helper containers are the program's own. */
    predicate Writes(volume: string) {
      && !status.Exited? && !status.Created? && !status.OtherStatus?
      && Mount("volume", volume) in mounts
      && !(LABEL_HELPER in labels && labels[LABEL_HELPER] == "true")
    }
  }

  /** The program's own tests find exactly the containers that may be writing. */
  lemma WritersAreFound(volume: string)
    ensures forall c: Container :: c.Writes(volume) <==> c.InUse() && !c.IsHelper() && c.UsesVolume(volume)
  {
    forall c: Container ensures c.Writes(volume) <==> c.InUse() && !c.IsHelper() && c.UsesVolume(volume) {
      if Mount("volume", volume) in c.mounts {
        assert c.UsesVolume(volume);
      }
      if c.UsesVolume(volume) {
        var m :| m in c.mounts && m.kind == "volume" && m.name == volume;
        assert m == Mount("volume", volume);
      }
    }
  }

  /** The four helper runs. Unpack gets the stream on its standard input, or None if that stream breaks. */
  datatype HelperKind = Pack | Unpack(stdin: Option<Bytes>) | Clear | CheckEmpty

  datatype HelperResult = Broke | Exit(code: int)

  datatype Query = Info | EnsureImage | ListVolumes | ListContainers | VolumeSizes | Inspect(volume: string)
    | StartedAt(id: string)

  /** One request to the engine and how it ended. A helper run also records its output and whether the volume was
      quiet. */
  datatype Call =
    | Ask(query: Query, ok: bool)
    | Stop(id: string, ok: bool)
    | Start(id: string, ok: bool)
    | Create(volume: string, ok: bool)
    | Helper(kind: HelperKind, volume: string, result: HelperResult, stdout: Bytes, quiet: bool)

  /** What the world does to one request: fail it, let a helper exit with a code, and what is left behind then. */
  datatype Fault = Fault(fails: bool, exit: int, residue: Contents, stream: Bytes, guess: bool)

  const NO_FAULT := Fault(false, 0, map[], [], false)

  /** order is the order in which the engine lists its volumes; faults[i] belongs to the i-th request. */
  datatype Host = Host(volumes: map<string, Volume>, order: seq<string>, data: map<string, Contents>,
                       containers: seq<Container>, startedAt: map<string, int>, calls: seq<Call>, faults: seq<Fault>)

  /** No container can be writing to the volume. */
  predicate Quiet(h: Host, volume: string) {
    forall c | c in h.containers :: !c.Writes(volume)
  }

  ghost predicate Sound(h: Host) {
    && h.data.Keys == h.volumes.Keys
    && Distinct(h.order)
    && (forall n :: n in h.order <==> n in h.volumes)
    && (forall n :: n in h.volumes ==> h.volumes[n].name == n)
    && h.startedAt.Keys == (set c | c in h.containers :: c.id)
    && (forall i, j :: 0 <= i < j < |h.containers| ==> h.containers[i].id != h.containers[j].id)
  }

  /** The engine never runs a container whose volume does not exist. */
  ghost predicate MountsExist(h: Host) {
    forall c, v :: c in h.containers && c.Writes(v) ==> v in h.volumes
  }

  /** From now on every request is answered. */
  ghost predicate FaultFree(h: Host) {
    |h.faults| <= |h.calls|
  }

  /** From now on every request is answered, and helpers exit with one of these codes, or with 0. */
  ghost predicate Answers(h: Host, codes: set<int>) {
    forall i :: |h.calls| <= i < |h.faults| ==>
      !h.faults[i].fails && (h.faults[i].exit == 0 || h.faults[i].exit in codes)
  }

  function Fate(h: Host): Fault {
    if |h.calls| < |h.faults| then h.faults[|h.calls|] else NO_FAULT
  }

  function Logged(h: Host, call: Call): Host {
    h.(calls := h.calls + [call])
  }

  function AskSpec(h: Host, q: Query): (Host, bool) {
    var ok := !Fate(h).fails && (q.StartedAt? ==> q.id in h.startedAt);
    (Logged(h, Ask(q, ok)), ok)
  }

  /** The listed volumes, in the engine's order. */
  function VolumeList(volumes: map<string, Volume>, order: seq<string>): seq<Volume> {
    if order == [] then []
    else (if order[0] in volumes then [volumes[order[0]]] else []) + VolumeList(volumes, order[1..])
  }

  lemma {:induction false} VolumeListAt(volumes: map<string, Volume>, order: seq<string>)
    requires forall n :: n in order ==> n in volumes
    ensures |VolumeList(volumes, order)| == |order|
    ensures forall i :: 0 <= i < |order| ==> VolumeList(volumes, order)[i] == volumes[order[i]]
  {
    if order != [] {
      VolumeListAt(volumes, order[1..]);
    }
  }

  /** The containers that mount the volume, helpers left out. */
  function UsersIn(volume: string, cs: seq<Container>): seq<Container> {
    if cs == [] then []
    else (if !cs[0].IsHelper() && cs[0].UsesVolume(volume) then [cs[0]] else []) + UsersIn(volume, cs[1..])
  }

  lemma {:induction false} UsersMembers(volume: string, cs: seq<Container>)
    ensures forall c :: c in UsersIn(volume, cs) <==> c in cs && !c.IsHelper() && c.UsesVolume(volume)
  {
    if cs != [] {
      UsersMembers(volume, cs[1..]);
      assert cs == [cs[0]] + cs[1..];
    }
  }

  function WithStatus(cs: seq<Container>, id: string, status: Status): seq<Container> {
    seq(|cs|, i requires 0 <= i < |cs| => if cs[i].id == id then cs[i].(status := status) else cs[i])
  }

  function StopSpec(h: Host, id: string): (Host, bool) {
    var ok := !Fate(h).fails && id in h.startedAt;
    var cs := if ok then WithStatus(h.containers, id, Exited) else h.containers;
    (Logged(h, Stop(id, ok)).(containers := cs), ok)
  }

  function StartSpec(h: Host, id: string): (Host, bool) {
    var ok := !Fate(h).fails && id in h.startedAt;
    var cs := if ok then WithStatus(h.containers, id, Running) else h.containers;
    (Logged(h, Start(id, ok)).(containers := cs), ok)
  }

  /** Creating an existing volume does nothing; a failed request may still have created it. */
  function CreateSpec(h: Host, v: Volume): (Host, bool) {
    var ok := !Fate(h).fails;
    var h' := Logged(h, Create(v.name, ok));
    if (ok || Fate(h).guess) && v.name !in h.volumes
    then (h'.(volumes := h.volumes[v.name := v], order := h.order + [v.name], data := h.data[v.name := map[]]), ok)
    else (h', ok)
  }

  datatype HelperRun = HelperRun(host: Host, result: HelperResult, stdout: Bytes, found: bool)

  /** How the run ends. A broken input stream or a stream that is no tar archive is never a success. */
  function HelperEnd(k: Codec, f: Fault, kind: HelperKind): HelperResult {
    if f.fails then Broke
    else if f.exit != 0 then Exit(f.exit)
    else if kind.Unpack? && kind.stdin.None? then Broke
    else if kind.Unpack? && k.unpack(kind.stdin.value).None? then Exit(2)
    else Exit(0)
  }

  /** A helper that succeeds on a quiet volume does exactly its job: emit the contents, delete them, extract over
      them, or look for any entry. In every other case the outcome for this one volume is arbitrary. */
  function HelperSpec(k: Codec, h: Host, volume: string, kind: HelperKind): HelperRun {
    var f, quiet := Fate(h), Quiet(h, volume);
    if volume !in h.volumes || volume !in h.data then
      HelperRun(Logged(h, Helper(kind, volume, Broke, [], quiet)), Broke, [], false)
    else
      var result := HelperEnd(k, f, kind);
      var good := result == Exit(0) && quiet;
      var held := h.data[volume];
      var stdout := if !kind.Pack? then [] else if good then k.pack(held) else f.stream;
      var after := match kind
        case Pack | CheckEmpty => held
        case Clear => if good then map[] else f.residue
        case Unpack(stdin) => if good then held + k.unpack(stdin.value).value else f.residue;
      var found := if good then held != map[] else f.guess;
      HelperRun(Logged(h, Helper(kind, volume, result, stdout, quiet)).(data := h.data[volume := after]), result,
                stdout, found)
  }

  /** The engine, updated request by request. */
  class Daemon {
    var volumes: map<string, Volume>
    var order: seq<string>
    var data: map<string, Contents>
    var containers: seq<Container>
    var calls: seq<Call>
    const startedAt: map<string, int>
    const faults: seq<Fault>
    const k: Codec

    constructor (k: Codec, h: Host)
      ensures View() == h && this.k == k
    {
      volumes, order, data, containers, calls := h.volumes, h.order, h.data, h.containers, h.calls;
      startedAt, faults, this.k := h.startedAt, h.faults, k;
    }

    function View(): Host
      reads this
    {
      Host(volumes, order, data, containers, startedAt, calls, faults)
    }

    method Fails() returns (f: Fault)
      ensures f == Fate(View())
    {
      if |calls| < |faults| {
        f := faults[|calls|];
      } else {
        f := NO_FAULT;
      }
    }

    method Ask(q: Query) returns (ok: bool)
      modifies this`calls
      ensures (View(), ok) == AskSpec(old(View()), q)
    {
      var f := Fails();
      ok := !f.fails && (q.StartedAt? ==> q.id in startedAt);
      calls := calls + [Call.Ask(q, ok)];
    }

    method StopContainer(id: string) returns (ok: bool)
      modifies this`calls, this`containers
      ensures (View(), ok) == StopSpec(old(View()), id)
    {
      var f := Fails();
      ok := !f.fails && id in startedAt;
      calls := calls + [Stop(id, ok)];
      if ok {
        SetStatus(id, Exited);
      }
    }

    method StartContainer(id: string) returns (ok: bool)
      modifies this`calls, this`containers
      ensures (View(), ok) == StartSpec(old(View()), id)
    {
      var f := Fails();
      ok := !f.fails && id in startedAt;
      calls := calls + [Start(id, ok)];
      if ok {
        SetStatus(id, Running);
      }
    }

    method SetStatus(id: string, status: Status)
      modifies this`containers
      ensures containers == WithStatus(old(containers), id, status)
    {
      for i := 0 to |containers|
        invariant |containers| == |old(containers)|
        invariant containers[..i] == WithStatus(old(containers), id, status)[..i]
        invariant containers[i..] == old(containers)[i..]
      {
        assert containers[i] == containers[i..][0] == old(containers)[i];
        if containers[i].id == id {
          containers := containers[i := containers[i].(status := status)];
        }
        assert containers[i + 1..] == old(containers)[i..][1..];
      }
    }

    method CreateVolume(v: Volume) returns (ok: bool)
      modifies this`calls, this`volumes, this`order, this`data
      ensures (View(), ok) == CreateSpec(old(View()), v)
    {
      var f := Fails();
      ok := !f.fails;
      calls := calls + [Create(v.name, ok)];
      if (ok || f.guess) && v.name !in volumes {
        volumes, order, data := volumes[v.name := v], order + [v.name], data[v.name := map[]];
      }
    }

    method RunHelper(volume: string, kind: HelperKind) returns (result: HelperResult, stdout: Bytes, found: bool)
      modifies this`calls, this`data
      ensures HelperRun(View(), result, stdout, found) == HelperSpec(k, old(View()), volume, kind)
    {
      var f := Fails();
      var quiet := Quiet(View(), volume);
      stdout, found := [], false;
      if volume !in volumes || volume !in data {
        result := Broke;
      } else {
        result := HelperEnd(k, f, kind);
        var good := result == Exit(0) && quiet;
        found := if good then data[volume] != map[] else f.guess;
        match kind {
          case Pack =>
            stdout := if good then k.pack(data[volume]) else f.stream;
            data := data[volume := data[volume]];
          case CheckEmpty =>
            data := data[volume := data[volume]];
          case Clear =>
            data := data[volume := if good then map[] else f.residue];
          case Unpack(stdin) =>
            data := data[volume := if good then data[volume] + k.unpack(stdin.value).value else f.residue];
        }
      }
      calls := calls + [Helper(kind, volume, result, stdout, quiet)];
    }
  }
}
