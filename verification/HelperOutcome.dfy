/** When RunHelper returns an error, and when it must return the exit code (finish and the selects before it in
    internal/dockerx/helper.go), told from the history of a run. */
module HelperOutcome {
  import opened Common
  import opened HelperProtocol
  import opened TailBuffers

  /** The wait request has failed or has been answered with an error of the daemon. */
  predicate WaitFailed(s: State) {
    s.wait.Lost? || (s.wait.Answered? && s.wait.answer.failed)
  }

  ghost predicate WaitHasFailed(exec: nat -> State, i: nat) {
    exists j: nat :: j <= i && WaitFailed(exec(j))
  }

  /** The run was cancelled while input was being sent. */
  ghost predicate SendingCancelled(exec: nat -> State, i: nat) {
    exists j: nat :: j <= i && exec(j).main.SendJoin?
  }

  /** The reasons for an error: the output could not be read to its end or handed over, the wait request failed, or the
      container claims success although not all input was sent. */
  ghost predicate HasCause(exec: nat -> State, i: nat) {
    || exec(i).output.pc == CopyDone(true)
    || WaitHasFailed(exec, i)
    || ((exec(i).input.pc == SendDone(true) || SendingCancelled(exec, i)) && exec(i).output.exited == Some(0))
  }

  /** What the state knows of its history: whether the wait request has failed, and whether sending was cancelled. */
  ghost predicate Remembers(s: State, waitFailed: bool, sendingCancelled: bool) {
    && (s.wait.Pending? ==> !waitFailed)
    && (s.wait.Lost? ==> waitFailed)
    && (s.wait.Answered? ==> waitFailed == s.wait.answer.failed)
    && (!s.main.SendSelect? && !s.main.SendJoin? ==> s.sendErr == (s.input.pc == SendDone(true) || sendingCancelled))
    && match s.main
       case SendSelect => !sendingCancelled && !s.sendErr
       case SendJoin => sendingCancelled
       case FirstSelect => true
       case SecondSelect => true
       case Draining(exit) => s.wait.Consumed? && waitFailed == exit.failed
       case Closing(None) => waitFailed
       case Closing(Some(exit)) => s.wait.Consumed? && waitFailed == exit.failed
       case Returned(outcome) =>
         && (outcome.Result? ==> s.wait.Consumed? && s.output.exited.Some?)
         && (outcome.Failure? <==>
               s.output.pc == CopyDone(true) || waitFailed || (s.sendErr && s.output.exited == Some(0)))
  }

  lemma RemembersStart(s: State)
    requires Init(s)
    ensures Remembers(s, false, false)
  {
  }

  lemma RemembersByMain(s: State, s': State, waitFailed: bool, sendingCancelled: bool)
    requires Inv(s) && Remembers(s, waitFailed, sendingCancelled) && MainStep(s, s')
    ensures Remembers(s', waitFailed || WaitFailed(s'), sendingCancelled || s'.main.SendJoin?)
  {
    hide Tail, StdoutOf, StderrOf, InputInv, OutputInv, HonestResult;
  }

  lemma RemembersByOthers(s: State, a: Actor, s': State, waitFailed: bool, sendingCancelled: bool)
    requires Inv(s) && Remembers(s, waitFailed, sendingCancelled) && Next(s, a, s') && a != Main
    ensures Remembers(s', waitFailed || WaitFailed(s'), sendingCancelled || s'.main.SendJoin?)
  {
    hide Tail, StdoutOf, StderrOf, InputInv, HonestResult, MainStep, Finish;
  }

  lemma {:induction false} History(exec: nat -> State, who: nat -> Actor, i: nat)
    requires IsRun(exec, who)
    ensures Remembers(exec(i), WaitHasFailed(exec, i), SendingCancelled(exec, i))
  {
    hide Remembers, Inv, Init, Next, WaitFailed;
    if i == 0 {
      RemembersStart(exec(0));
      assert !WaitFailed(exec(0)) && !exec(0).main.SendJoin? by { NothingAtStart(exec(0)); }
    } else {
      History(exec, who, i - 1);
      RunInv(exec, who, i - 1);
      assert StepAt(exec, who, i - 1);
      var before, after := exec(i - 1), exec(i);
      if who(i - 1) == Main {
        MainSteps(before, after);
        RemembersByMain(before, after, WaitHasFailed(exec, i - 1), SendingCancelled(exec, i - 1));
      } else {
        RemembersByOthers(before, who(i - 1), after, WaitHasFailed(exec, i - 1), SendingCancelled(exec, i - 1));
      }
      OneMore(exec, i);
    }
  }

  lemma NothingAtStart(s: State)
    requires Init(s)
    ensures !WaitFailed(s) && !s.main.SendJoin?
  {
  }

  lemma MainSteps(s: State, s': State)
    requires Next(s, Main, s')
    ensures MainStep(s, s')
  {
  }

  lemma OneMore(exec: nat -> State, i: nat)
    requires i > 0
    ensures WaitHasFailed(exec, i) == (WaitHasFailed(exec, i - 1) || WaitFailed(exec(i)))
    ensures SendingCancelled(exec, i) == (SendingCancelled(exec, i - 1) || exec(i).main.SendJoin?)
  {
    hide WaitFailed;
  }

  /** In every interleaving RunHelper returns an error if and only if there is a reason for one. In every other case it
      returns the container's exit code, whatever that is; a sending error hides behind an exit code other than 0. */
  lemma FailsExactlyWithCause(exec: nat -> State, who: nat -> Actor, i: nat)
    requires IsRun(exec, who) && exec(i).main.Returned?
    ensures exec(i).main.outcome.Failure? <==> HasCause(exec, i)
    ensures !HasCause(exec, i) ==>
              exec(i).main.outcome.Result? && exec(i).output.exited == Some(exec(i).main.outcome.code)
  {
    hide WaitHasFailed, SendingCancelled;
    History(exec, who, i);
    ReturnIsSafe(exec, who, i);
  }

  // ---------- undisturbed runs ----------

  /** Something goes wrong other than sending input: the run is cancelled, the connection breaks, the wait request
      fails, the caller's writer fails, or output is still missing when the grace period is over. */
  ghost predicate Disturbed(s: State, a: Actor, s': State) {
    || (!s.cancelled && s'.cancelled)
    || (a.World? && !s.connDown && s'.connDown)
    || (!WaitFailed(s) && WaitFailed(s'))
    || (a.Copier? && s.output.pc.Handing? && s'.output.pc == CopyDone(true))
    || a.Timer?
  }

  ghost predicate Undisturbed(exec: nat -> State, who: nat -> Actor, i: nat) {
    !exec(0).cancelled && forall j: nat :: j < i ==> QuietStep(exec, who, j)
  }

  ghost predicate QuietStep(exec: nat -> State, who: nat -> Actor, j: nat) {
    !Disturbed(exec(j), who(j), exec(j + 1))
  }

  /** The connection is still open, and nobody has failed but perhaps the sender. */
  ghost predicate Calm(s: State) {
    && !s.cancelled && !s.connDown && !s.graceOver && !WaitFailed(s)
    && s.output.pc != CopyDone(true)
    && !s.main.SendJoin? && !s.main.Closing?
  }

  lemma CalmStep(s: State, a: Actor, s': State)
    requires Inv(s) && Calm(s) && Next(s, a, s') && !Disturbed(s, a, s')
    ensures Calm(s')
  {
    hide Tail, StdoutOf, StderrOf, InputInv, OutputInv, HonestResult, Finish;
  }

  lemma {:induction false} StaysCalm(exec: nat -> State, who: nat -> Actor, i: nat, j: nat)
    requires IsRun(exec, who) && Undisturbed(exec, who, i) && j <= i
    ensures Calm(exec(j))
  {
    hide Inv, Next, Disturbed;
    if j > 0 {
      StaysCalm(exec, who, i, j - 1);
      RunInv(exec, who, j - 1);
      assert StepAt(exec, who, j - 1) && QuietStep(exec, who, j - 1);
      CalmStep(exec(j - 1), who(j - 1), exec(j));
    }
  }

  /** An undisturbed run returns the exit code and all output, even if the container is still writing when its exit is
      reported, and even if it did not read all its input - unless it then claims success. */
  lemma UndisturbedRunSucceeds(exec: nat -> State, who: nat -> Actor, i: nat)
    requires IsRun(exec, who) && exec(i).main.Returned? && Undisturbed(exec, who, i)
    ensures exec(i).main.outcome.Failure? <==> exec(i).input.pc == SendDone(true) && exec(i).output.exited == Some(0)
    ensures exec(i).main.outcome.Result? ==>
            HonestResult(exec(i), exec(i).main.outcome.code, exec(i).main.outcome.stderr)
  {
    hide HonestResult, Undisturbed;
    FailsExactlyWithCause(exec, who, i);
    ReturnIsSafe(exec, who, i);
    forall j: nat | j <= i ensures Calm(exec(j)) { StaysCalm(exec, who, i, j); }
  }
}
