/** Stopping containers and starting exactly those again (internal/stopper). */
module Stopper {
  import opened Common
  import opened Docker
  import opened Traces
  import opened Codecs
  import opened Sorting

  datatype Entry = Entry(c: Container, startedAt: int)

  function Ids(cs: seq<Container>): set<string> {
    set c | c in cs :: c.id
  }

  function EntryIds(es: seq<Entry>): set<string> {
    set e | e in es :: e.c.id
  }

  ghost predicate DistinctIds(es: seq<Entry>) {
    forall i, j :: 0 <= i < j < |es| ==> es[i].c.id != es[j].c.id
  }

  // ---------- who uses the volumes ----------

  predicate UsesAny(c: Container, volumes: seq<string>) {
    exists v | v in volumes :: c.UsesVolume(v)
  }

  function Collect(volumes: seq<string>, cs: seq<Container>, seen: set<string>): seq<Container> {
    if cs == [] then []
    else if !cs[0].InUse() || cs[0].IsHelper() || cs[0].id in seen || !UsesAny(cs[0], volumes)
    then Collect(volumes, cs[1..], seen)
    else [cs[0]] + Collect(volumes, cs[1..], seen + {cs[0].id})
  }

  const BY_NAME := (a: Container, b: Container) => LexLeq(a.name, b.name)

  function UsersOfSpec(volumes: seq<string>, cs: seq<Container>): seq<Container> {
    Sort(BY_NAME, Collect(volumes, cs, {}))
  }

  lemma {:induction false} CollectFacts(volumes: seq<string>, cs: seq<Container>, seen: set<string>)
    ensures var out := Collect(volumes, cs, seen);
            && (forall c :: c in out ==> c in cs && c.InUse() && !c.IsHelper() && UsesAny(c, volumes) && c.id !in seen)
            && (forall c :: c in cs && c.InUse() && !c.IsHelper() && UsesAny(c, volumes) ==> c.id in Ids(out) + seen)
            && (forall i, j :: 0 <= i < j < |out| ==> out[i].id != out[j].id)
  {
    if cs != [] {
      var out := Collect(volumes, cs, seen);
      var c := cs[0];
      assert cs == [c] + cs[1..];
      if !c.InUse() || c.IsHelper() || c.id in seen || !UsesAny(c, volumes) {
        CollectFacts(volumes, cs[1..], seen);
      } else {
        var rest := Collect(volumes, cs[1..], seen + {c.id});
        CollectFacts(volumes, cs[1..], seen + {c.id});
        assert out[0] == c;
        assert Ids(out) == {c.id} + Ids(rest);
      }
    }
  }

  /** Exactly the in-use, non-helper containers that mount one of the volumes, each id once, in order of name. */
  lemma UsersOfFacts(volumes: seq<string>, cs: seq<Container>)
    ensures var out := UsersOfSpec(volumes, cs);
            && (forall c :: c in out ==> c in cs && c.InUse() && !c.IsHelper() && UsesAny(c, volumes))
            && (forall c :: c in cs && c.InUse() && !c.IsHelper() && UsesAny(c, volumes) ==> c.id in Ids(out))
            && (forall i, j :: 0 <= i < j < |out| ==> out[i].id != out[j].id)
            && (forall i, j :: 0 <= i < j < |out| ==> LexLeq(out[i].name, out[j].name))
            && Ids(out) == Ids(Collect(volumes, cs, {}))
  {
    var found, out := Collect(volumes, cs, {}), UsersOfSpec(volumes, cs);
    CollectFacts(volumes, cs, {});
    ByNameIsOrder();
    SortIsStable(BY_NAME, found);
    SameMembers(found, out);
    PermutedKeys((c: Container) => c.id, found, out);
  }

  lemma ByNameIsOrder()
    ensures TotalPreorder(BY_NAME)
  {
    LexIsOrder();
    forall a: Container, b: Container ensures BY_NAME(a, b) || BY_NAME(b, a) { LexTotal(a.name, b.name); }
    forall a: Container, b: Container, c: Container | BY_NAME(a, b) && BY_NAME(b, c)
      ensures BY_NAME(a, c)
    {
      LexTransitive(a.name, b.name, c.name);
    }
  }

  // ---------- Stop ----------

  datatype Stopping = Stopping(host: Host, added: seq<Entry>, err: Option<Error>)

  /** Stop each in-use container of cs that is not done yet, until the first failure; added is what was stopped. */
  function StopAllSpec(h: Host, cs: seq<Container>, done: set<string>): Stopping
    decreases |cs|
  {
    if cs == [] then Stopping(h, [], None)
    else
      var c := cs[0];
      if !c.InUse() || c.id in done then StopAllSpec(h, cs[1..], done)
      else
        var (asked, known) := AskSpec(h, StartedAt(c.id));
        if !known then Stopping(asked, [], Some(DockerFailed))
        else
          var (after, ok) := StopSpec(asked, c.id);
          if !ok then Stopping(after, [], Some(StopFailed(c.id)))
          else
            var rest := StopAllSpec(after, cs[1..], done + {c.id});
            rest.(added := [Entry(c, h.startedAt[c.id])] + rest.added)
  }

  /** The requests Stop makes for one container, given what it stopped and how it ended. */
  function StopLife(id: string, stopped: set<string>, err: Option<Error>): seq<Call> {
    if id in stopped then [Stop(id, true)]
    else if err == Some(StopFailed(id)) then [Stop(id, false)]
    else []
  }

  /** The requests Restart makes for one container. */
  function StartLife(id: string, stopped: set<string>, failed: set<string>): seq<Call> {
    if id in stopped then [Start(id, id !in failed)] else []
  }

  function Marked(cs: seq<Container>, ids: set<string>, status: Status): seq<Container> {
    seq(|cs|, i requires 0 <= i < |cs| => if cs[i].id in ids then cs[i].(status := status) else cs[i])
  }

  /** What Stop leaves alone, and what its requests can be. */
  ghost predicate OnlyStops(h: Host, h': Host) {
    && Extends(h, h')
    && h' == h.(calls := h'.calls, containers := h'.containers)
    && forall c :: c in Delta(h, h') ==> c.Stop? || c.Ask?
  }

  /** The recorded containers are distinct and were in use; exactly these have exited, each after one successful
      stop; and without an error nothing in cs is in use any more. */
  ghost predicate StopsExactly(h: Host, cs: seq<Container>, done: set<string>, r: Stopping) {
    && OnlyStops(h, r.host)
    && DistinctIds(r.added)
    && (forall e :: e in r.added ==>
          e.c in cs && e.c.InUse() && e.c.id !in done && e.c.id in h.startedAt && e.startedAt == h.startedAt[e.c.id])
    && r.host.containers == Marked(h.containers, EntryIds(r.added), Exited)
    && (r.err.None? ==> forall c :: c in cs && c.InUse() ==> c.id in done + EntryIds(r.added))
    && (r.err.Some? && r.err.value.StopFailed? ==> r.err.value.id !in done + EntryIds(r.added))
    && (forall id :: Lifecycle(Delta(h, r.host), id) == StopLife(id, EntryIds(r.added), r.err))
  }

  lemma {:induction false} StopAllFacts(h: Host, cs: seq<Container>, done: set<string>)
    ensures StopsExactly(h, cs, done, StopAllSpec(h, cs, done))
    decreases |cs|
  {
    hide StopsExactly;
    if cs == [] {
      assert Delta(h, h) == [];
      StopsNothing(h, cs, done, h, None);
    } else {
      var c := cs[0];
      if !c.InUse() || c.id in done {
        StopAllFacts(h, cs[1..], done);
        StopsInTail(h, cs, done, StopAllSpec(h, cs[1..], done));
      } else {
        var (asked, known) := AskSpec(h, StartedAt(c.id));
        if !known {
          assert Delta(h, asked) == [Ask(StartedAt(c.id), false)];
          StopsNothing(h, cs, done, asked, Some(DockerFailed));
        } else {
          var (after, ok) := StopSpec(asked, c.id);
          assert Delta(h, after) == [Ask(StartedAt(c.id), true), Stop(c.id, ok)];
          if ok {
            StopAllFacts(after, cs[1..], done + {c.id});
            StopAllStep(h, cs, done, after);
          } else {
            StopsNothing(h, cs, done, after, Some(StopFailed(c.id)));
          }
        }
      }
    }
  }

  /** Nothing to stop, no answer, or one failed stop. */
  lemma StopsNothing(h: Host, cs: seq<Container>, done: set<string>, h': Host, err: Option<Error>)
    requires h.calls <= h'.calls && h' == h.(calls := h'.calls)
    requires match err
             case None => Delta(h, h') == [] && cs == []
             case Some(StopFailed(id)) => id !in done && Delta(h, h') == [Ask(StartedAt(id), true), Stop(id, false)]
             case Some(_) => err.value == DockerFailed && exists id :: Delta(h, h') == [Ask(StartedAt(id), false)]
    ensures StopsExactly(h, cs, done, Stopping(h', [], err))
  {
    hide Sorted, TotalPreorder;
    assert EntryIds([]) == {};
    assert OnlyStops(h, h');
    forall id ensures Lifecycle(Delta(h, h'), id) == StopLife(id, {}, err) {
      if err.Some? {
        if err.value.StopFailed? {
          OneStop(err.value.id, false, id);
        } else {
          LifecycleOne(Delta(h, h')[0], id);
        }
      }
    }
  }

  /** A container that is skipped makes no difference. */
  lemma StopsInTail(h: Host, cs: seq<Container>, done: set<string>, r: Stopping)
    requires cs != [] && (!cs[0].InUse() || cs[0].id in done)
    requires StopsExactly(h, cs[1..], done, r)
    ensures StopsExactly(h, cs, done, r)
  {
    hide OnlyStops, DistinctIds, EntryIds, Marked, StopLife;
    assert cs == [cs[0]] + cs[1..];
  }

  /** The requests that stop these containers: each is first asked for its start time. */
  function StopTrace(es: seq<Entry>): seq<Call> {
    if es == [] then [] else [Ask(StartedAt(es[0].c.id), true), Stop(es[0].c.id, true)] + StopTrace(es[1..])
  }

  /** The requests of Stop, exactly: a question and a stop for each container it records, in the order given; the first
      that fails is the last. */
  ghost predicate StopsInTurn(h: Host, cs: seq<Container>, r: Stopping, at: seq<nat>, last: seq<Call>) {
    && h.calls + StopTrace(r.added) + last == r.host.calls
    && (match r.err
        case None => last == []
        case Some(StopFailed(id)) => last == [Ask(StartedAt(id), true), Stop(id, false)]
        case Some(_) => exists id :: last == [Ask(StartedAt(id), false)])
    && |at| == |r.added| && Ascending(at)
    && forall i :: 0 <= i < |at| ==> at[i] < |cs| && r.added[i].c == cs[at[i]]
  }

  lemma {:induction false} StopAllTrace(h: Host, cs: seq<Container>, done: set<string>)
    returns (at: seq<nat>, last: seq<Call>)
    ensures StopsInTurn(h, cs, StopAllSpec(h, cs, done), at, last)
    decreases |cs|
  {
    at, last := [], [];
    if cs != [] {
      hide StopsInTurn;
      var c := cs[0];
      if !c.InUse() || c.id in done {
        var rest;
        rest, last := StopAllTrace(h, cs[1..], done);
        at := Shifted(rest, false);
        SkippedInTurn(h, cs, StopAllSpec(h, cs[1..], done), rest, last);
      } else {
        var (asked, known) := AskSpec(h, StartedAt(c.id));
        if !known {
          last := [Ask(StartedAt(c.id), false)];
          NoneInTurn(h, cs, asked, Some(DockerFailed), last);
        } else {
          var (after, ok) := StopSpec(asked, c.id);
          if ok {
            var rest;
            rest, last := StopAllTrace(after, cs[1..], done + {c.id});
            at := Shifted(rest, true);
            StoppedInTurn(h, cs, after, StopAllSpec(after, cs[1..], done + {c.id}), Entry(c, h.startedAt[c.id]), rest,
                          last);
          } else {
            last := [Ask(StartedAt(c.id), true), Stop(c.id, false)];
            NoneInTurn(h, cs, after, Some(StopFailed(c.id)), last);
          }
        }
      }
    }
  }

  lemma NoneInTurn(h: Host, cs: seq<Container>, h': Host, err: Option<Error>, last: seq<Call>)
    requires h'.calls == h.calls + last
    requires match err
             case None => last == []
             case Some(StopFailed(id)) => last == [Ask(StartedAt(id), true), Stop(id, false)]
             case Some(_) => exists id :: last == [Ask(StartedAt(id), false)]
    ensures StopsInTurn(h, cs, Stopping(h', [], err), [], last)
  {
    assert h.calls + [] + last == h.calls + last;
  }

  lemma SkippedInTurn(h: Host, cs: seq<Container>, r: Stopping, at: seq<nat>, last: seq<Call>)
    requires cs != [] && StopsInTurn(h, cs[1..], r, at, last)
    ensures StopsInTurn(h, cs, r, Shifted(at, false), last)
  {
    ShiftedAt(at, false);
    ShiftedAscending(at, false);
    hide Shifted, StopTrace, Ascending;
  }

  lemma StoppedInTurn(h: Host, cs: seq<Container>, after: Host, r: Stopping, e: Entry, at: seq<nat>, last: seq<Call>)
    requires cs != [] && e.c == cs[0] && StopsInTurn(after, cs[1..], r, at, last)
    requires after.calls == h.calls + [Ask(StartedAt(e.c.id), true)] + [Stop(e.c.id, true)]
    ensures StopsInTurn(h, cs, r.(added := [e] + r.added), Shifted(at, true), last)
  {
    ShiftedAt(at, true);
    ShiftedAscending(at, true);
    hide Shifted, Ascending;
    var first := [Ask(StartedAt(e.c.id), true), Stop(e.c.id, true)];
    assert ([e] + r.added)[1..] == r.added;
    assert StopTrace([e] + r.added) == first + StopTrace(r.added);
    assert after.calls == h.calls + first;
    hide StopTrace;
    assert h.calls + (first + StopTrace(r.added)) + last == h.calls + first + StopTrace(r.added) + last;
  }

  lemma {:induction false} StopTraceAt(es: seq<Entry>, i: nat)
    requires i < |es|
    ensures |StopTrace(es)| == 2 * |es| && StopTrace(es)[2 * i + 1] == Stop(es[i].c.id, true)
  {
    if i > 0 {
      StopTraceAt(es[1..], i - 1);
    } else if |es| > 1 {
      StopTraceAt(es[1..], 0);
    }
  }

  lemma {:induction false} StopTraceAsks(es: seq<Entry>)
    ensures forall q, ok :: Ask(q, ok) in StopTrace(es) ==> ok && q.StartedAt?
  {
    if es != [] {
      StopTraceAsks(es[1..]);
    }
  }

  lemma StopAllNoHelper(h: Host, cs: seq<Container>)
    ensures var end := StopAllSpec(h, cs, {}).host; Extends(h, end) && forall c :: c in Delta(h, end) ==> !c.Helper?
  {
    hide StopAllSpec;
    StopAllFacts(h, cs, {});
  }

  /** What precedes in the list was stopped before. */
  lemma StoppedInOrder(h: Host, cs: seq<Container>, done: set<string>, a: Entry, b: Entry)
    requires var r := StopAllSpec(h, cs, done); Extends(h, r.host) && Precedes(r.added, a, b)
    ensures StoppedBefore(Delta(h, StopAllSpec(h, cs, done).host), a.c.id, b.c.id)
  {
    var r := StopAllSpec(h, cs, done);
    var at, last := StopAllTrace(h, cs, done);
    var p, q :| 0 <= p < q < |r.added| && r.added[p] == a && r.added[q] == b;
    StopTraceAt(r.added, p);
    StopTraceAt(r.added, q);
    assert Delta(h, r.host) == StopTrace(r.added) + last;
    assert Delta(h, r.host)[2 * p + 1] == Stop(a.c.id, true) && Delta(h, r.host)[2 * q + 1] == Stop(b.c.id, true);
  }

  /** Only listed containers that are in use are asked to stop. */
  lemma {:induction false} StopsOnlyListed(h: Host, cs: seq<Container>, done: set<string>)
    ensures var end := StopAllSpec(h, cs, done).host;
            && h.calls <= end.calls
            && forall i :: |h.calls| <= i < |end.calls| && end.calls[i].Stop? ==> InUseIn(cs, end.calls[i].id)
    decreases |cs|
  {
    if cs != [] {
      hide InUseIn;
      var c := cs[0];
      ListedAfter(cs);
      if !c.InUse() || c.id in done {
        StopsOnlyListed(h, cs[1..], done);
      } else {
        var (asked, known) := AskSpec(h, StartedAt(c.id));
        if known {
          var (after, ok) := StopSpec(asked, c.id);
          if ok {
            StopsOnlyListed(after, cs[1..], done + {c.id});
            assert StopAllSpec(after, cs[1..], done + {c.id}).host.calls[..|h.calls| + 2] == after.calls;
          }
        }
      }
    }
  }

  ghost predicate InUseIn(cs: seq<Container>, id: string) {
    exists c :: c in cs && c.InUse() && c.id == id
  }

  lemma ListedAfter(cs: seq<Container>)
    requires cs != []
    ensures cs[0].InUse() ==> InUseIn(cs, cs[0].id)
    ensures forall id :: InUseIn(cs[1..], id) ==> InUseIn(cs, id)
  {
    assert cs == [cs[0]] + cs[1..];
  }

  lemma StoppedFrom(h: Host, cs: seq<Container>)
    ensures forall e :: e in StopAllSpec(h, cs, {}).added ==> e.c in cs && e.c.InUse()
  {
    StopAllFacts(h, cs, {});
  }

  lemma OneStop(stopped: string, ok: bool, id: string)
    ensures Lifecycle([Ask(StartedAt(stopped), true), Stop(stopped, ok)], id)
            == if id == stopped then [Stop(stopped, ok)] else []
  {
    var ask, stop := Ask(StartedAt(stopped), true), Stop(stopped, ok);
    assert [ask, stop] == [ask] + [stop];
    LifecycleConcat([ask], [stop], id);
    LifecycleOne(ask, id);
    LifecycleOne(stop, id);
  }

  /** The inductive step of StopAllFacts after one successful stop. */
  lemma StopAllStep(h: Host, cs: seq<Container>, done: set<string>, after: Host)
    requires cs != [] && cs[0].InUse() && cs[0].id !in done && cs[0].id in h.startedAt
    requires after == h.(calls := h.calls + [Ask(StartedAt(cs[0].id), true), Stop(cs[0].id, true)],
                         containers := WithStatus(h.containers, cs[0].id, Exited))
    requires StopsExactly(after, cs[1..], done + {cs[0].id}, StopAllSpec(after, cs[1..], done + {cs[0].id}))
    ensures var rest := StopAllSpec(after, cs[1..], done + {cs[0].id});
            StopsExactly(h, cs, done, rest.(added := [Entry(cs[0], h.startedAt[cs[0].id])] + rest.added))
  {
    hide StopAllSpec, Lifecycle, StopLife, Marked;
    var c := cs[0];
    assert cs == [c] + cs[1..];
    var rest := StopAllSpec(after, cs[1..], done + {c.id});
    var r := rest.(added := [Entry(c, h.startedAt[c.id])] + rest.added);
    assert EntryIds(r.added) == {c.id} + EntryIds(rest.added);
    assert OnlyStops(h, r.host)
           && forall id :: Lifecycle(Delta(h, r.host), id) == StopLife(id, EntryIds(r.added), r.err) by {
      StopAllStepTrace(h, c, after, rest);
    }
    assert r.host.containers == Marked(h.containers, EntryIds(r.added), Exited) by {
      MarkedTwice(h.containers, c.id, EntryIds(rest.added), Exited);
    }
  }

  lemma StopAllStepTrace(h: Host, c: Container, after: Host, rest: Stopping)
    requires after == h.(calls := h.calls + [Ask(StartedAt(c.id), true), Stop(c.id, true)],
                         containers := WithStatus(h.containers, c.id, Exited))
    requires OnlyStops(after, rest.host) && c.id !in EntryIds(rest.added)
    requires rest.err.Some? && rest.err.value.StopFailed? ==> rest.err.value.id != c.id
    requires forall id :: Lifecycle(Delta(after, rest.host), id) == StopLife(id, EntryIds(rest.added), rest.err)
    ensures OnlyStops(h, rest.host)
    ensures forall id :: Lifecycle(Delta(h, rest.host), id) == StopLife(id, {c.id} + EntryIds(rest.added), rest.err)
  {
    hide Extends, StopLife, EntryIds;
    var two := [Ask(StartedAt(c.id), true), Stop(c.id, true)];
    assert OnlyStops(h, after) && Delta(h, after) == two by { AfterStop(h, c, after); }
    DeltaTrans(h, after, rest.host);
    forall id
      ensures Lifecycle(Delta(h, rest.host), id) == StopLife(id, {c.id} + EntryIds(rest.added), rest.err)
    {
      LifecycleConcat(two, Delta(after, rest.host), id);
      OneStop(c.id, true, id);
      StopLifeStep(c.id, EntryIds(rest.added), rest.err, id);
    }
  }

  lemma AfterStop(h: Host, c: Container, after: Host)
    requires after == h.(calls := h.calls + [Ask(StartedAt(c.id), true), Stop(c.id, true)],
                         containers := WithStatus(h.containers, c.id, Exited))
    ensures OnlyStops(h, after) && Delta(h, after) == [Ask(StartedAt(c.id), true), Stop(c.id, true)]
  {
  }

  lemma StopLifeStep(first: string, later: set<string>, err: Option<Error>, id: string)
    requires first !in later && (err.Some? && err.value.StopFailed? ==> err.value.id != first)
    ensures StopLife(id, {first} + later, err)
            == if id == first then [Stop(first, true)] + StopLife(id, later, err) else StopLife(id, later, err)
  {
  }

  lemma MarkedTwice(cs: seq<Container>, id: string, ids: set<string>, status: Status)
    ensures Marked(WithStatus(cs, id, status), ids, status) == Marked(cs, {id} + ids, status)
  {
  }

  // ---------- Restart ----------

  const BY_START := (a: Entry, b: Entry) => a.startedAt <= b.startedAt

  datatype Restarts = Restarts(host: Host, errs: seq<string>)

  /** One start request per entry, whatever became of the others; errs names the containers that failed. */
  function StartAllSpec(h: Host, es: seq<Entry>): Restarts
    decreases |es|
  {
    if es == [] then Restarts(h, [])
    else
      var (after, ok) := StartSpec(h, es[0].c.id);
      var rest := StartAllSpec(after, es[1..]);
      rest.(errs := (if ok then [] else [es[0].c.id]) + rest.errs)
  }

  function RestartSpec(h: Host, stopped: seq<Entry>): Restarts {
    StartAllSpec(h, Sort(BY_START, stopped))
  }

  function StartCalls(es: seq<Entry>, failed: set<string>): seq<Call> {
    seq(|es|, i requires 0 <= i < |es| => Start(es[i].c.id, es[i].c.id !in failed))
  }

  /** The ids of es that failed, in the order of es. */
  function FailedIds(es: seq<Entry>, failed: set<string>): seq<string> {
    if es == [] then [] else (if es[0].c.id in failed then [es[0].c.id] else []) + FailedIds(es[1..], failed)
  }

  ghost function Elements(s: seq<string>): set<string> {
    set x | x in s
  }

  /** One start per entry in the order of es; the failed ones are reported in that order, the others run again. */
  ghost predicate StartsExactly(h: Host, es: seq<Entry>, r: Restarts) {
    && Extends(h, r.host)
    && r.host == h.(calls := h.calls + StartCalls(es, Elements(r.errs)), containers := r.host.containers)
    && r.errs == FailedIds(es, Elements(r.errs))
    && Elements(r.errs) <= EntryIds(es)
    && Distinct(r.errs)
    && r.host.containers == Marked(h.containers, EntryIds(es) - Elements(r.errs), Running)
  }

  lemma {:induction false} StartAllFacts(h: Host, es: seq<Entry>)
    requires DistinctIds(es)
    ensures StartsExactly(h, es, StartAllSpec(h, es))
    decreases |es|
  {
    if es == [] {
      assert StartCalls(es, {}) == [];
    } else {
      var (after, ok) := StartSpec(h, es[0].c.id);
      StartAllFacts(after, es[1..]);
      StartAllStep(h, es, after, ok);
    }
  }

  /** The inductive step of StartAllFacts. */
  lemma StartAllStep(h: Host, es: seq<Entry>, after: Host, ok: bool)
    requires es != [] && DistinctIds(es) && (after, ok) == StartSpec(h, es[0].c.id)
    requires StartsExactly(after, es[1..], StartAllSpec(after, es[1..]))
    ensures StartsExactly(h, es, StartAllSpec(h, es))
  {
    var id := es[0].c.id;
    var rest, r := StartAllSpec(after, es[1..]), StartAllSpec(h, es);
    assert EntryIds(es) == {id} + EntryIds(es[1..]);
    assert id !in EntryIds(es[1..]);
    var later, failed := Elements(rest.errs), Elements(r.errs);
    assert failed == (if ok then {} else {id}) + later;
    assert r.errs == FailedIds(es, failed) by {
      FailedIdsAgree(es[1..], later, failed);
    }
    StartAllStepCalls(h, es, ok, later);
    StartAllStepStatus(h.containers, es, ok, later);
  }

  lemma StartAllStepCalls(h: Host, es: seq<Entry>, ok: bool, later: set<string>)
    requires es != [] && DistinctIds(es) && es[0].c.id !in later
    ensures var failed := (if ok then {} else {es[0].c.id}) + later;
            h.calls + StartCalls(es, failed) == h.calls + [Start(es[0].c.id, ok)] + StartCalls(es[1..], later)
  {
    var failed := (if ok then {} else {es[0].c.id}) + later;
    assert StartCalls(es, failed) == [Start(es[0].c.id, ok)] + StartCalls(es[1..], later);
  }

  lemma StartAllStepStatus(cs: seq<Container>, es: seq<Entry>, ok: bool, later: set<string>)
    requires es != [] && DistinctIds(es) && later <= EntryIds(es[1..])
    ensures var failed := (if ok then {} else {es[0].c.id}) + later;
            Marked(if ok then WithStatus(cs, es[0].c.id, Running) else cs, EntryIds(es[1..]) - later, Running)
            == Marked(cs, EntryIds(es) - failed, Running)
  {
    var id, rerun := es[0].c.id, EntryIds(es[1..]) - later;
    assert EntryIds(es) == {id} + EntryIds(es[1..]);
    assert id !in EntryIds(es[1..]);
    if ok {
      MarkedTwice(cs, id, rerun, Running);
      assert {id} + rerun == EntryIds(es) - later;
    } else {
      assert rerun == EntryIds(es) - ({id} + later);
    }
  }

  lemma {:induction false} FailedIdsAgree(es: seq<Entry>, a: set<string>, b: set<string>)
    requires forall e :: e in es ==> (e.c.id in a <==> e.c.id in b)
    ensures FailedIds(es, a) == FailedIds(es, b)
  {
    if es != [] {
      FailedIdsAgree(es[1..], a, b);
    }
  }

  /** Which of two stopped containers is started first: the one that had been running for longer, or else the one that
      was stopped first. */
  ghost predicate StartsFirst(stopped: seq<Entry>, a: Entry, b: Entry) {
    a.startedAt < b.startedAt || (a.startedAt == b.startedAt && Precedes(stopped, a, b))
  }

  lemma StartOrder(stopped: seq<Entry>)
    ensures var es := Sort(BY_START, stopped); forall i, j :: 0 <= i < j < |es| ==> StartsFirst(stopped, es[i], es[j])
  {
    var es := Sort(BY_START, stopped);
    SortIsStable(BY_START, stopped);
    forall i, j | 0 <= i < j < |es| ensures StartsFirst(stopped, es[i], es[j]) {
      assert BY_START(es[i], es[j]);
      if es[i].startedAt == es[j].startedAt {
        StableOrder(BY_START, stopped, es, i, j);
      }
    }
  }

  /** Restart in one statement: the starts follow the stable ascending order of the original start times. */
  lemma RestartFacts(h: Host, stopped: seq<Entry>)
    requires DistinctIds(stopped)
    ensures var es := Sort(BY_START, stopped);
            && multiset(es) == multiset(stopped)
            && (forall i, j :: 0 <= i < j < |es| ==> StartsFirst(stopped, es[i], es[j]))
            && EntryIds(es) == EntryIds(stopped) && DistinctIds(es)
            && StartsExactly(h, es, RestartSpec(h, stopped))
  {
    var es := Sort(BY_START, stopped);
    SortIsStable(BY_START, stopped);
    SameMembers(es, stopped);
    StartOrder(stopped);
    var key := (e: Entry) => e.c.id;
    assert DistinctKeys(key, stopped);
    PermutedKeys(key, stopped, es);
    assert DistinctIds(es) by {
      forall i, j | 0 <= i < j < |es| ensures es[i].c.id != es[j].c.id {
        assert key(es[i]) != key(es[j]);
      }
    }
    StartAllFacts(h, es);
  }

  lemma {:induction false} StartCallsLife(es: seq<Entry>, failed: set<string>, id: string)
    requires DistinctIds(es)
    ensures Lifecycle(StartCalls(es, failed), id) == StartLife(id, EntryIds(es), failed)
  {
    if es != [] {
      StartCallsLife(es[1..], failed, id);
      assert StartCalls(es, failed)[1..] == StartCalls(es[1..], failed);
      assert EntryIds(es) == {es[0].c.id} + EntryIds(es[1..]);
      assert es[0].c.id !in EntryIds(es[1..]);
    }
  }

  // ---------- when every request is answered ----------

  lemma {:induction false} StopAllAnswers(h: Host, cs: seq<Container>, done: set<string>, codes: set<int>)
    requires Answers(h, codes) && forall c :: c in cs ==> c.id in h.startedAt
    ensures StopAllSpec(h, cs, done).err.None?
    decreases |cs|
  {
    if cs != [] {
      var c := cs[0];
      if !c.InUse() || c.id in done {
        StopAllAnswers(h, cs[1..], done, codes);
      } else {
        var asked := AskSpec(h, StartedAt(c.id)).0;
        StopAllAnswers(StopSpec(asked, c.id).0, cs[1..], done + {c.id}, codes);
      }
    }
  }

  lemma {:induction false} StartAllAnswers(h: Host, es: seq<Entry>, codes: set<int>)
    requires Answers(h, codes) && forall e :: e in es ==> e.c.id in h.startedAt
    ensures StartAllSpec(h, es).errs == []
    decreases |es|
  {
    if es != [] {
      StartAllAnswers(StartSpec(h, es[0].c.id).0, es[1..], codes);
    }
  }

  lemma RestartAnswers(h: Host, stopped: seq<Entry>, codes: set<int>)
    requires Answers(h, codes) && DistinctIds(stopped) && forall e :: e in stopped ==> e.c.id in h.startedAt
    ensures RestartSpec(h, stopped).errs == []
  {
    var es := Sort(BY_START, stopped);
    SortIsStable(BY_START, stopped);
    SameMembers(es, stopped);
    StartAllAnswers(h, es, codes);
  }

  // ---------- stop, work, restart ----------

  /** Whatever happens between stopping and restarting, as long as it stops and starts nothing itself, a run that
      prepares calmly, stops, works and restarts keeps the promise of EveryStopUndone. */
  lemma StopWorkRestart(h: Host, prepared: Host, cs: seq<Container>, worked: Host)
    requires Extends(h, prepared) && Calm(Delta(h, prepared)) && prepared.containers == h.containers
    requires var s := StopAllSpec(prepared, cs, {});
             Extends(s.host, worked) && Calm(Delta(s.host, worked)) && worked.containers == s.host.containers
    ensures var s := StopAllSpec(prepared, cs, {}); var r := RestartSpec(worked, s.added);
            EveryStopUndone(h, r.host, r.errs)
  {
    var s := StopAllSpec(prepared, cs, {});
    var r := RestartSpec(worked, s.added);
    var es := Sort(BY_START, s.added);
    StopAllFacts(prepared, cs, {});
    RestartFacts(worked, s.added);
    DeltaTrans(h, prepared, s.host);
    DeltaTrans(h, s.host, worked);
    DeltaTrans(h, worked, r.host);
    var before, starts := Delta(h, worked), StartCalls(es, Elements(r.errs));
    assert Delta(worked, r.host) == starts;
    assert before == Delta(h, prepared) + Delta(prepared, s.host) + Delta(s.host, worked);
    forall id
      ensures Lifecycle(Delta(h, r.host), id)
              == StopLife(id, EntryIds(s.added), s.err) + StartLife(id, EntryIds(s.added), Elements(r.errs))
    {
      LifeInParts(Delta(h, prepared), Delta(prepared, s.host), Delta(s.host, worked), starts, id);
      StartCallsLife(es, Elements(r.errs), id);
    }
    StartsAfter(before, starts);
    InOrderFromParts(h, prepared, cs, worked);
    CyclesFromParts(h, r.host, EntryIds(s.added), s.err, r.errs);
  }

  /** The order of the starts and of the errors, from the order of the stops and the sort. */
  lemma InOrderFromParts(h: Host, prepared: Host, cs: seq<Container>, worked: Host)
    requires Extends(h, prepared) && Calm(Delta(h, prepared)) && Extends(StopAllSpec(prepared, cs, {}).host, worked)
    requires Calm(Delta(StopAllSpec(prepared, cs, {}).host, worked))
    ensures var r := RestartSpec(worked, StopAllSpec(prepared, cs, {}).added);
            Extends(h, r.host) && StartsInOrder(h, Delta(h, r.host)) && r.errs == FailedStarts(Delta(h, r.host))
  {
    hide StopAllSpec, RestartSpec, Sort, BY_START, SameContainers, StartsBefore, StartsInOrder;
    var s := StopAllSpec(prepared, cs, {});
    var es, r := Sort(BY_START, s.added), RestartSpec(worked, s.added);
    StopBasics(prepared, cs);
    RestartBasics(worked, s.added);
    DeltaTrans(h, prepared, s.host);
    DeltaTrans(h, s.host, worked);
    DeltaTrans(h, worked, r.host);
    var before, starts := Delta(h, worked), StartCalls(es, Elements(r.errs));
    assert before == Delta(h, prepared) + Delta(prepared, s.host) + Delta(s.host, worked);
    FailedStartsBehind(before, starts);
    FailedStartCalls(es, Elements(r.errs));
    forall i, j | 0 <= i < j < |es| ensures StartsBefore(h, before + starts, es[i].c.id, es[j].c.id) {
      assert es[i] in s.added && es[j] in s.added && StartsFirst(s.added, es[i], es[j]);
      TwoInOrder(h, prepared, cs, worked, starts, es[i], es[j]);
    }
    OnlyStartCalls(h, before, es, Elements(r.errs));
  }

  lemma StopBasics(h: Host, cs: seq<Container>)
    ensures var s := StopAllSpec(h, cs, {});
            && Extends(h, s.host) && DistinctIds(s.added) && (forall c :: c in Delta(h, s.host) ==> !c.Start?)
            && forall e :: e in s.added ==> e.c.id in h.startedAt && e.startedAt == h.startedAt[e.c.id]
  {
    hide StopAllSpec;
    StopAllFacts(h, cs, {});
  }

  lemma RestartBasics(h: Host, stopped: seq<Entry>)
    requires DistinctIds(stopped)
    ensures var es, r := Sort(BY_START, stopped), RestartSpec(h, stopped);
            && Extends(h, r.host) && Delta(h, r.host) == StartCalls(es, Elements(r.errs))
            && r.errs == FailedIds(es, Elements(r.errs))
            && (forall e :: e in es ==> e in stopped)
            && forall i, j :: 0 <= i < j < |es| ==> StartsFirst(stopped, es[i], es[j])
  {
    hide RestartSpec, Sort, BY_START, StartsFirst;
    RestartFacts(h, stopped);
    SameMembers(Sort(BY_START, stopped), stopped);
  }

  lemma TwoInOrder(h: Host, prepared: Host, cs: seq<Container>, worked: Host, starts: seq<Call>, a: Entry, b: Entry)
    requires Extends(h, prepared) && Extends(StopAllSpec(prepared, cs, {}).host, worked) && Extends(h, worked)
    requires var s := StopAllSpec(prepared, cs, {});
             && Extends(prepared, s.host) && a in s.added && b in s.added && StartsFirst(s.added, a, b)
             && Delta(h, worked) == Delta(h, prepared) + Delta(prepared, s.host) + Delta(s.host, worked)
    ensures StartsBefore(h, Delta(h, worked) + starts, a.c.id, b.c.id)
  {
    hide StopAllSpec, SameContainers, StoppedBefore, Precedes;
    var s := StopAllSpec(prepared, cs, {});
    StopBasics(prepared, cs);
    if a.startedAt == b.startedAt {
      StoppedInOrder(prepared, cs, {}, a, b);
      StoppedWithin(Delta(h, prepared), Delta(prepared, s.host), Delta(s.host, worked) + starts, a.c.id, b.c.id);
      assert Delta(h, worked) + starts
             == Delta(h, prepared) + Delta(prepared, s.host) + (Delta(s.host, worked) + starts);
    }
  }

  lemma OnlyStartCalls(h: Host, before: seq<Call>, es: seq<Entry>, failed: set<string>)
    requires forall c :: c in before ==> !c.Start?
    requires forall i, j :: 0 <= i < j < |es| ==>
             StartsBefore(h, before + StartCalls(es, failed), es[i].c.id, es[j].c.id)
    ensures StartsInOrder(h, before + StartCalls(es, failed))
  {
    var calls, n := before + StartCalls(es, failed), |before|;
    forall i, j | 0 <= i < j < |calls| && calls[i].Start? && calls[j].Start?
      ensures StartsBefore(h, calls, calls[i].id, calls[j].id)
    {
      assert i >= n && j >= n;
      assert calls[i].id == es[i - n].c.id && calls[j].id == es[j - n].c.id;
    }
  }

  lemma StoppedWithin(a: seq<Call>, b: seq<Call>, c: seq<Call>, x: string, y: string)
    requires StoppedBefore(b, x, y)
    ensures StoppedBefore(a + b + c, x, y)
  {
    var p, q :| 0 <= p < q < |b| && b[p] == Stop(x, true) && b[q] == Stop(y, true);
    assert (a + b + c)[|a| + p] == Stop(x, true) && (a + b + c)[|a| + q] == Stop(y, true);
  }

  lemma {:induction false} FailedStartCalls(es: seq<Entry>, failed: set<string>)
    ensures FailedStarts(StartCalls(es, failed)) == FailedIds(es, failed)
  {
    if es != [] {
      FailedStartCalls(es[1..], failed);
      assert StartCalls(es, failed)[1..] == StartCalls(es[1..], failed);
    }
  }

  lemma LifeInParts(calm: seq<Call>, stops: seq<Call>, work: seq<Call>, starts: seq<Call>, id: string)
    requires Calm(calm) && Calm(work)
    ensures Lifecycle(calm + stops + work + starts, id) == Lifecycle(stops, id) + Lifecycle(starts, id)
  {
    CalmLifecycle(calm, id);
    CalmLifecycle(work, id);
    LifecycleConcat(calm, stops, id);
    LifecycleConcat(calm + stops, work, id);
    LifecycleConcat(calm + stops + work, starts, id);
  }

  /** From the two parts of every lifecycle to the promise. */
  lemma CyclesFromParts(h: Host, h': Host, stopped: set<string>, err: Option<Error>, errs: seq<string>)
    requires Extends(h, h') && StartsComeLast(Delta(h, h')) && Distinct(errs) && Elements(errs) <= stopped
    requires forall id ::
               Lifecycle(Delta(h, h'), id) == StopLife(id, stopped, err) + StartLife(id, stopped, Elements(errs))
    requires h'.containers == Marked(Marked(h.containers, stopped, Exited), stopped - Elements(errs), Running)
    requires StartsInOrder(h, Delta(h, h')) && errs == FailedStarts(Delta(h, h'))
    ensures EveryStopUndone(h, h', errs)
  {
    forall id
      ensures id in errs <==> Lifecycle(Delta(h, h'), id) == [Stop(id, true), Start(id, false)]
      ensures Lifecycle(Delta(h, h'), id) in OneCycle(id)
    {
      CycleFromParts(id, stopped, err, errs);
    }
    forall i | 0 <= i < |h.containers|
      ensures var c := h.containers[i]; h'.containers[i] == c.(status := StatusAfter(Lifecycle(Delta(h, h'), c.id), c))
    {
      CycleFromParts(h.containers[i].id, stopped, err, errs);
    }
  }

  lemma CycleFromParts(id: string, stopped: set<string>, err: Option<Error>, errs: seq<string>)
    requires Elements(errs) <= stopped
    ensures var life := StopLife(id, stopped, err) + StartLife(id, stopped, Elements(errs));
            && life in OneCycle(id)
            && (id in errs <==> life == [Stop(id, true), Start(id, false)])
            && (id in stopped && id !in errs <==> life == [Stop(id, true), Start(id, true)])
  {
    var life := StopLife(id, stopped, err) + StartLife(id, stopped, Elements(errs));
    var up, down := [Stop(id, true), Start(id, true)], [Stop(id, true), Start(id, false)];
    assert up[1] != down[1];
    if id in stopped {
      assert life == if id in errs then down else up;
    } else {
      assert life == StopLife(id, stopped, err);
    }
  }

  lemma StartsAfter(before: seq<Call>, starts: seq<Call>)
    requires (forall c :: c in before ==> !c.Start?) && (forall c :: c in starts ==> c.Start?)
    ensures StartsComeLast(before + starts)
  {
  }

  function InUseIds(cs: seq<Container>): set<string> {
    set c | c in cs && c.InUse() :: c.id
  }

  /** After a Stop without error, a volume whose writers were all listed is quiet. */
  lemma StoppedIsQuiet(h: Host, cs: seq<Container>, volume: string)
    requires StopAllSpec(h, cs, {}).err.None?
    requires forall c :: c in h.containers && c.Writes(volume) ==> c.id in InUseIds(cs)
    ensures Quiet(StopAllSpec(h, cs, {}).host, volume)
  {
    StopAllFacts(h, cs, {});
  }

  // ---------- the code ----------

  lemma StaysDistinct(h: Host, cs: seq<Container>, stopped: seq<Entry>)
    requires DistinctIds(stopped)
    ensures DistinctIds(stopped + StopAllSpec(h, cs, EntryIds(stopped)).added)
  {
    hide StopAllSpec, OnlyStops, Marked, StopLife;
    var added := StopAllSpec(h, cs, EntryIds(stopped)).added;
    StopAllFacts(h, cs, EntryIds(stopped));
    forall i, j | 0 <= i < j < |stopped + added|
      ensures (stopped + added)[i].c.id != (stopped + added)[j].c.id
    {
      assert i < |stopped| ==> stopped[i].c.id in EntryIds(stopped);
      assert j >= |stopped| ==> (stopped + added)[j] in added;
    }
  }

  method UsersOf(volumes: seq<string>, containers: seq<Container>) returns (users: seq<Container>)
    ensures users == UsersOfSpec(volumes, containers)
  {
    var seen: set<string> := {};
    users := [];
    for i := 0 to |containers|
      invariant Collect(volumes, containers, {}) == users + Collect(volumes, containers[i..], seen)
    {
      var c := containers[i];
      assert containers[i..][1..] == containers[i + 1..];
      if !c.InUse() || c.IsHelper() || c.id in seen {
        continue;
      }
      var uses := false;
      for j := 0 to |volumes|
        invariant !uses ==> forall l :: 0 <= l < j ==> !c.UsesVolume(volumes[l])
        invariant uses ==> UsesAny(c, volumes)
      {
        if c.UsesVolume(volumes[j]) {
          uses := true;
          break;
        }
      }
      if uses {
        seen := seen + {c.id};
        users := users + [c];
      }
    }
    assert users + [] == users;
    users := Sort(BY_NAME, users);
  }

  lemma StartAllNext(h: Host, es: seq<Entry>, i: nat)
    requires i < |es|
    ensures var (after, ok) := StartSpec(h, es[i].c.id); var rest := StartAllSpec(after, es[i + 1..]);
            StartAllSpec(h, es[i..]) == rest.(errs := (if ok then [] else [es[i].c.id]) + rest.errs)
  {
    assert es[i..][0] == es[i] && es[i..][1..] == es[i + 1..];
  }

  lemma StartAllEnds(h: Host, es: seq<Entry>, errs: seq<string>)
    ensures StartAllSpec(h, es[|es|..]) == Restarts(h, []) && errs + [] == errs
  {
  }

  class Stopper {
    const d: Daemon
    var stopped: seq<Entry>

    constructor (d: Daemon)
      ensures this.d == d && stopped == []
    {
      this.d := d;
      stopped := [];
    }

    /** Across any calls the recorded ids stay distinct. */
    method Stop(cs: seq<Container>) returns (err: Option<Error>)
      requires DistinctIds(stopped)
      modifies this`stopped, d
      ensures DistinctIds(stopped)
      ensures var s := StopAllSpec(old(d.View()), cs, EntryIds(old(stopped)));
              d.View() == s.host && err == s.err && stopped == old(stopped) + s.added
    {
      hide StopSpec, EntryIds, DistinctIds;
      ghost var h0 := d.View();
      var done := EntryIds(stopped);
      StaysDistinct(h0, cs, stopped);
      var added: seq<Entry> := [];
      for i := 0 to |cs|
        invariant stopped == old(stopped) + added
        invariant var rest := StopAllSpec(d.View(), cs[i..], done);
                  StopAllSpec(h0, cs, EntryIds(old(stopped))) == rest.(added := added + rest.added)
      {
        var c := cs[i];
        assert cs[i..][0] == c && cs[i..][1..] == cs[i + 1..];
        if !c.InUse() || c.id in done {
          continue;
        }
        var known := d.Ask(StartedAt(c.id));
        if !known {
          assert added + [] == added;
          return Some(DockerFailed);
        }
        var ok := d.StopContainer(c.id);
        if !ok {
          assert added + [] == added;
          return Some(StopFailed(c.id));
        }
        done := done + {c.id};
        added := added + [Entry(c, d.startedAt[c.id])];
        stopped := stopped + [Entry(c, d.startedAt[c.id])];
      }
      assert added + [] == added;
      return None;
    }

    /** Starts everything recorded and forgets it, so a second Restart has nothing to do. */
    method Restart() returns (errs: seq<string>)
      modifies this`stopped, d
      ensures stopped == []
      ensures Restarts(d.View(), errs) == RestartSpec(old(d.View()), old(stopped))
    {
      hide Sort, BY_START, StartSpec, StartAllSpec;
      ghost var h0 := d.View();
      stopped := Sort(BY_START, stopped);
      errs := [];
      ghost var es := stopped;
      assert es[0..] == es;
      for i := 0 to |stopped|
        invariant stopped == es
        invariant var rest := StartAllSpec(d.View(), es[i..]);
                  StartAllSpec(h0, es) == rest.(errs := errs + rest.errs)
      {
        StartAllNext(d.View(), es, i);
        var ok := d.StartContainer(stopped[i].c.id);
        if !ok {
          errs := errs + [stopped[i].c.id];
        }
      }
      StartAllEnds(d.View(), es, errs);
      stopped := [];
    }
  }
}
