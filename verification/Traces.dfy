/** What a run did to the host: the requests it added and what they mean for each container. */
module Traces {
  import opened Common
  import opened Docker

  /** h' is h after more requests; the schedule of faults and the set of containers never change. */
  ghost predicate Extends(h: Host, h': Host) {
    && h.calls <= h'.calls
    && h'.faults == h.faults
    && h'.startedAt == h.startedAt
    && SameContainers(h.containers, h'.containers)
  }

  ghost predicate SameContainers(cs: seq<Container>, cs': seq<Container>) {
    && |cs| == |cs'|
    && forall i :: 0 <= i < |cs| ==> cs'[i] == cs[i].(status := cs'[i].status)
  }

  /** The requests between h and h'. */
  function Delta(h: Host, h': Host): seq<Call>
    requires h.calls <= h'.calls
  {
    h'.calls[|h.calls|..]
  }

  lemma DeltaTrans(a: Host, b: Host, c: Host)
    requires Extends(a, b) && Extends(b, c)
    ensures Extends(a, c) && Delta(a, c) == Delta(a, b) + Delta(b, c)
  {
    assert c.calls[..|b.calls|] == b.calls;
    assert a.calls <= c.calls;
  }

  /** The stop and start requests for one container, in order. */
  function Lifecycle(calls: seq<Call>, id: string): seq<Call> {
    if calls == [] then []
    else (if (calls[0].Stop? || calls[0].Start?) && calls[0].id == id then [calls[0]] else [])
         + Lifecycle(calls[1..], id)
  }

  lemma {:induction false} LifecycleConcat(a: seq<Call>, b: seq<Call>, id: string)
    ensures Lifecycle(a + b, id) == Lifecycle(a, id) + Lifecycle(b, id)
  {
    if a == [] {
      assert a + b == b;
    } else {
      assert (a + b)[1..] == a[1..] + b;
      LifecycleConcat(a[1..], b, id);
    }
  }

  lemma LifecycleOne(call: Call, id: string)
    ensures Lifecycle([call], id) == if (call.Stop? || call.Start?) && call.id == id then [call] else []
  {
    assert [call][1..] == [];
  }

  /** The helper runs among the requests, in order. */
  function HelperRuns(calls: seq<Call>): seq<Call> {
    if calls == [] then [] else (if calls[0].Helper? then [calls[0]] else []) + HelperRuns(calls[1..])
  }

  lemma Regroup(a: seq<Call>, b: seq<Call>, c: seq<Call>)
    ensures a + (b + c) == a + b + c
  {
  }

  lemma {:induction false} HelperRunsConcat(a: seq<Call>, b: seq<Call>)
    ensures HelperRuns(a + b) == HelperRuns(a) + HelperRuns(b)
  {
    if a == [] {
      assert a + b == b;
    } else {
      HelperRunsConcat(a[1..], b);
      assert (a + b)[0] == a[0] && (a + b)[1..] == a[1..] + b;
      hide HelperRuns;
      Regroup(if a[0].Helper? then [a[0]] else [], HelperRuns(a[1..]), HelperRuns(b));
    }
  }

  lemma {:induction false} AllOrNoHelpers(calls: seq<Call>)
    ensures (forall c :: c in calls ==> c.Helper?) ==> HelperRuns(calls) == calls
    ensures (forall c :: c in calls ==> !c.Helper?) ==> HelperRuns(calls) == []
  {
    if calls != [] {
      assert calls == [calls[0]] + calls[1..];
      AllOrNoHelpers(calls[1..]);
    }
  }

  lemma {:induction false} HelperRunsMembers(calls: seq<Call>)
    ensures forall c :: c in HelperRuns(calls) <==> c in calls && c.Helper?
  {
    if calls != [] {
      assert calls == [calls[0]] + calls[1..];
      HelperRunsMembers(calls[1..]);
    }
  }

  /** Neither stops nor starts anything. */
  predicate Calm(calls: seq<Call>) {
    forall c | c in calls :: !c.Stop? && !c.Start?
  }

  lemma {:induction false} CalmLifecycle(calls: seq<Call>, id: string)
    requires Calm(calls)
    ensures Lifecycle(calls, id) == []
  {
    if calls != [] {
      CalmLifecycle(calls[1..], id);
    }
  }

  ghost predicate StartsComeLast(calls: seq<Call>) {
    forall i, j :: 0 <= i < j < |calls| && calls[i].Start? ==> calls[j].Start?
  }

  /** Reads or changes the contents of a volume. */
  predicate MovesData(call: Call) {
    call.Helper? && !call.kind.CheckEmpty?
  }

  /** Every helper that read or changed a volume did so while nobody could write to it. */
  ghost predicate OnlyQuietAccess(calls: seq<Call>) {
    forall c :: c in calls && MovesData(c) ==> c.quiet
  }

  /** The containers whose start failed, in the order of the requests. */
  function FailedStarts(calls: seq<Call>): seq<string> {
    if calls == [] then []
    else (if calls[0].Start? && !calls[0].ok then [calls[0].id] else []) + FailedStarts(calls[1..])
  }

  lemma {:induction false} FailedStartsBehind(before: seq<Call>, calls: seq<Call>)
    requires forall c :: c in before ==> !c.Start?
    ensures FailedStarts(before + calls) == FailedStarts(calls)
  {
    if before == [] {
      assert before + calls == calls;
    } else {
      assert (before + calls)[1..] == before[1..] + calls;
      FailedStartsBehind(before[1..], calls);
    }
  }

  ghost predicate StoppedBefore(calls: seq<Call>, a: string, b: string) {
    exists p, q :: 0 <= p < q < |calls| && calls[p] == Stop(a, true) && calls[q] == Stop(b, true)
  }

  /** What had been running for longer is started first; among equals, what was stopped first. */
  ghost predicate StartsInOrder(h: Host, calls: seq<Call>) {
    forall i, j :: 0 <= i < j < |calls| && calls[i].Start? && calls[j].Start? ==>
      StartsBefore(h, calls, calls[i].id, calls[j].id)
  }

  ghost predicate StartsBefore(h: Host, calls: seq<Call>, a: string, b: string) {
    && a in h.startedAt && b in h.startedAt
    && h.startedAt[a] <= h.startedAt[b]
    && (h.startedAt[a] == h.startedAt[b] ==> StoppedBefore(calls, a, b))
  }

  /** The promise kept by every run. For each container the run did nothing, failed to stop it, or stopped it once
      and then, after everything else, tried exactly once to start it. The starts follow the original start times. A
      container that was stopped is running again or has an entry of its own among the restart errors, which are in the
      order of the failed starts; all others are as they were. */
  ghost predicate EveryStopUndone(h: Host, h': Host, restartErrors: seq<string>) {
    && Extends(h, h')
    && StartsComeLast(Delta(h, h')) && StartsInOrder(h, Delta(h, h'))
    && Distinct(restartErrors) && restartErrors == FailedStarts(Delta(h, h'))
    && (forall id :: id in restartErrors <==> Lifecycle(Delta(h, h'), id) == [Stop(id, true), Start(id, false)])
    && (forall id :: Lifecycle(Delta(h, h'), id) in OneCycle(id))
    && (forall i :: 0 <= i < |h.containers| ==>
          var c := h.containers[i];
          h'.containers[i] == c.(status := StatusAfter(Lifecycle(Delta(h, h'), c.id), c)))
  }

  function OneCycle(id: string): set<seq<Call>> {
    {[], [Stop(id, false)], [Stop(id, true), Start(id, true)], [Stop(id, true), Start(id, false)]}
  }

  function StatusAfter(life: seq<Call>, c: Container): Status {
    if life == [Stop(c.id, true), Start(c.id, true)] then Running
    else if life == [Stop(c.id, true), Start(c.id, false)] then Exited
    else c.status
  }

  /** A run that only asked keeps the promise trivially. */
  lemma NothingStopped(h: Host, h': Host)
    requires Extends(h, h') && Calm(Delta(h, h')) && h'.containers == h.containers
    ensures EveryStopUndone(h, h', [])
  {
    forall id ensures Lifecycle(Delta(h, h'), id) == [] { CalmLifecycle(Delta(h, h'), id); }
    FailedStartsBehind(Delta(h, h'), []);
    assert Delta(h, h') + [] == Delta(h, h');
  }

  lemma FaultFreeAnswers(h: Host)
    requires FaultFree(h)
    ensures Answers(h, {})
  {
  }

  lemma AnswersLater(h: Host, h': Host, codes: set<int>)
    requires Answers(h, codes) && Extends(h, h')
    ensures Answers(h', codes)
  {
  }

  lemma FaultFreeLater(h: Host, h': Host)
    requires FaultFree(h) && Extends(h, h')
    ensures FaultFree(h')
  {
  }
}
