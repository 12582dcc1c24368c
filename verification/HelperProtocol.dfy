/** RunHelper as interleaved steps (internal/dockerx/helper.go): the calling thread, the goroutines that copy the
    output and send the input, the function that closes the connection on cancellation, the wait request, the grace
    timer, and the world (container, network, whoever cancels). */
module HelperProtocol {
  import opened Common
  import opened TailBuffers

  const STDERR_MAX: nat := 65536

  /** One frame of the multiplexed output. */
  datatype Frame = Frame(toStderr: bool, payload: Bytes)

  /** The answer to the wait request; failed means it carries an error of the daemon. */
  datatype Waited = Waited(code: int, failed: bool)

  datatype Outcome = Failure | Result(code: int, stderr: Bytes)

  /** Where RunHelper stands: waiting for the sender or for cancellation; waiting for the sender after cancellation;
      waiting for output or exit; after the exit, waiting for the rest of the output; after closing the connection,
      waiting for the copier; after the output, waiting for the exit; returned. */
  datatype MainPc =
    | SendSelect
    | SendJoin
    | FirstSelect
    | Draining(exit: Waited)
    | Closing(reported: Option<Waited>)
    | SecondSelect
    | Returned(outcome: Outcome)

  datatype SenderPc = Absent | Reading | Writing(chunk: Bytes) | HalfClosing(readErr: bool) | SendDone(sendFailed: bool)

  datatype CopierPc = Taking | Handing(frame: Frame) | CopyDone(copyFailed: bool)

  datatype WaitPc = Pending | Answered(answer: Waited) | Lost | Consumed

  /** The sender and its data: the caller's input and what the connection accepted of it. */
  datatype Input = Input(pc: SenderPc, stdin: Option<Bytes>, sent: Bytes, halfClosed: bool)

  /** The copier and its data: what the container produced so far, of which arrived frames have reached the client and
      taken ones have been read, and what the caller's writer and the tail buffer got. */
  datatype Output = Output(pc: CopierPc, produced: seq<Frame>, exited: Option<int>, arrived: nat, taken: nat,
                           stdout: Bytes, stderr: Bytes)

  datatype State = State(main: MainPc, input: Input, output: Output, wait: WaitPc,
                         sendErr: bool, cancelled: bool, connDown: bool, graceOver: bool)

  datatype Actor = Main | Sender | Copier | Closer | Waiter | Timer | World

  function StdoutOf(frames: seq<Frame>): Bytes {
    if frames == [] then []
    else StdoutOf(frames[..|frames| - 1]) + if frames[|frames| - 1].toStderr then [] else frames[|frames| - 1].payload
  }

  function StderrOf(frames: seq<Frame>): Bytes {
    if frames == [] then []
    else StderrOf(frames[..|frames| - 1]) + if frames[|frames| - 1].toStderr then frames[|frames| - 1].payload else []
  }

  /** The container has just been started; the copier runs, and so does the sender if there is input. */
  ghost predicate Init(s: State) {
    && s.main == (if s.input.stdin.Some? then SendSelect else FirstSelect)
    && s.input == Input(if s.input.stdin.Some? then Reading else Absent, s.input.stdin, [], false)
    && s.output == Output(Taking, [], None, 0, 0, [], [])
    && s.wait == Pending && !s.sendErr && !s.connDown && !s.graceOver
  }

  // ---------- steps ----------

  /** finish: output errors first, then errors of the wait, then sending errors unless the exit code tells more. */
  function Finish(s: State, exit: Waited, outErr: bool): Outcome {
    if outErr || exit.failed || (s.sendErr && exit.code == 0) then Failure else Result(exit.code, s.output.stderr)
  }

  ghost predicate MainStep(s: State, s': State) {
    var sender, copier := s.input.pc, s.output.pc;
    match s.main
    case SendSelect =>
      || (sender.SendDone? && s' == s.(main := FirstSelect, sendErr := sender.sendFailed))
      || (s.cancelled && s' == s.(main := SendJoin, connDown := true))
    case SendJoin =>
      sender.SendDone? && s' == s.(main := FirstSelect, sendErr := true)
    case FirstSelect =>
      || (copier.CopyDone? && s' == s.(main := if copier.copyFailed then Returned(Failure) else SecondSelect))
      || (s.wait.Answered? && s' == s.(main := Draining(s.wait.answer), wait := Consumed, graceOver := false))
      || (s.wait.Lost? && s' == s.(main := Closing(None), wait := Consumed, connDown := true))
    case Draining(exit) =>
      || (copier.CopyDone? && s' == s.(main := Returned(Finish(s, exit, copier.copyFailed))))
      || ((s.graceOver || s.cancelled) && s' == s.(main := Closing(Some(exit)), connDown := true))
    case Closing(exit) =>
      && copier.CopyDone?
      && s' == s.(main := Returned(if exit.Some? then Finish(s, exit.value, copier.copyFailed) else Failure))
    case SecondSelect =>
      || (s.wait.Answered? && s' == s.(main := Returned(Finish(s, s.wait.answer, false)), wait := Consumed))
      || (s.wait.Lost? && s' == s.(main := Returned(Failure), wait := Consumed))
    case Returned(_) => false
  }

  /** The sender: a read returns data, the end or an error; a write or half-close fails on a closed connection, and may
      fail otherwise. */
  ghost predicate SenderStep(i: Input, i': Input, connDown: bool) {
    match i.pc
    case Reading =>
      && i.stdin.Some?
      && i' == i.(pc := i'.pc)
      && (|| (i'.pc.Writing? && i'.pc.chunk != [] && i.sent + i'.pc.chunk <= i.stdin.value)
          || (i'.pc.HalfClosing? && (i'.pc.readErr || i.sent == i.stdin.value)))
    case Writing(chunk) =>
      || (!connDown && i' == i.(pc := Reading, sent := i.sent + chunk))
      || i' == i.(pc := HalfClosing(true))
    case HalfClosing(readErr) =>
      || (!connDown && i' == i.(pc := SendDone(readErr), halfClosed := true))
      || i' == i.(pc := SendDone(true))
    case Absent => false
    case SendDone(_) => false
  }

  /** The copier: it takes an arrived frame, sees the end once the exited container's output is used up, or fails on a
      closed connection; handing a frame to the caller's writer may fail, handing it to the tail buffer cannot. */
  ghost predicate CopierStep(o: Output, o': Output, connDown: bool) {
    match o.pc
    case Taking =>
      || (o.taken < o.arrived <= |o.produced| && o' == o.(pc := Handing(o.produced[o.taken]), taken := o.taken + 1))
      || (o.exited.Some? && o.taken == |o.produced| && o' == o.(pc := CopyDone(false)))
      || (connDown && o' == o.(pc := CopyDone(true)))
    case Handing(frame) =>
      if frame.toStderr then o' == o.(pc := Taking, stderr := Tail(STDERR_MAX, o.stderr + frame.payload))
      else o' == o.(pc := Taking, stdout := o.stdout + frame.payload) || o' == o.(pc := CopyDone(true))
    case CopyDone(_) => false
  }

  /** The container and the network: emit output, exit, deliver a frame. */
  ghost predicate OutputGrows(o: Output, o': Output, connDown: bool) {
    || (o.exited.None? && |o'.produced| == |o.produced| + 1 && o.produced <= o'.produced
        && o' == o.(produced := o'.produced))
    || (o.exited.None? && o'.exited.Some? && o' == o.(exited := o'.exited))
    || (!connDown && o.arrived < |o.produced| && o' == o.(arrived := o.arrived + 1))
  }

  /** The world may also cancel, break the connection or the wait request, or do nothing. */
  ghost predicate WorldStep(s: State, s': State) {
    || s' == s
    || s' == s.(cancelled := true)
    || (OutputGrows(s.output, s'.output, s.connDown) && s' == s.(output := s'.output))
    || s' == s.(connDown := true)
    || (s.wait.Pending? && s' == s.(wait := Lost))
  }

  ghost predicate WaiterStep(s: State, s': State) {
    && s.wait.Pending?
    && (|| (s.output.exited.Some? && s'.wait.Answered? && s'.wait.answer.code == s.output.exited.value
            && s' == s.(wait := s'.wait))
        || (s.cancelled && s' == s.(wait := Lost)))
  }

  ghost predicate Next(s: State, a: Actor, s': State) {
    match a
    case Main => MainStep(s, s')
    case Sender => SenderStep(s.input, s'.input, s.connDown) && s' == s.(input := s'.input)
    case Copier => CopierStep(s.output, s'.output, s.connDown) && s' == s.(output := s'.output)
    case Closer => s.cancelled && !s.connDown && s' == s.(connDown := true)
    case Waiter => WaiterStep(s, s')
    case Timer => s.main.Draining? && !s.graceOver && s' == s.(graceOver := true)
    case World => WorldStep(s, s')
  }

  // ---------- safety ----------

  ghost predicate Joined(s: State) {
    (s.input.pc.Absent? || s.input.pc.SendDone?) && s.output.pc.CopyDone?
  }

  /** Whatever was taken has been handed over, except the frame in hand. */
  ghost predicate OutputInv(o: Output) {
    && o.taken <= o.arrived <= |o.produced|
    && (o.pc.Handing? ==> o.taken > 0 && o.pc.frame == o.produced[o.taken - 1])
    && (o.pc != CopyDone(true) ==>
          var handed := o.produced[..if o.pc.Handing? then o.taken - 1 else o.taken];
          o.stdout == StdoutOf(handed) && o.stderr == Tail(STDERR_MAX, StderrOf(handed)))
    && (o.pc == CopyDone(false) ==> o.exited.Some? && o.taken == |o.produced|)
  }

  ghost predicate InputInv(i: Input) {
    && (i.pc.Absent? <==> i.stdin.None?)
    && (i.stdin.Some? ==> i.sent <= i.stdin.value)
    && (i.pc.Writing? ==> i.stdin.Some? && i.pc.chunk != [] && i.sent + i.pc.chunk <= i.stdin.value)
    && (i.pc == HalfClosing(false) ==> i.stdin == Some(i.sent))
    && (i.pc == SendDone(false) ==> i.stdin == Some(i.sent) && i.halfClosed)
  }

  /** What the result of a run promises: it is the container's exit code; all of its output was read to the end and
      handed over; the error text is the end of its standard error; and with exit code 0 all input was sent and
      closed. */
  ghost predicate HonestResult(s: State, code: int, stderr: Bytes) {
    && s.output.exited == Some(code)
    && s.output.pc == CopyDone(false)
    && s.output.stdout == StdoutOf(s.output.produced)
    && stderr == s.output.stderr == Tail(STDERR_MAX, StderrOf(s.output.produced))
    && (code == 0 && s.input.stdin.Some? ==>
          s.input.sent == s.input.stdin.value && s.input.halfClosed && s.input.pc == SendDone(false))
  }

  ghost predicate SenderIsOver(s: State) {
    && (s.input.pc.Absent? || s.input.pc.SendDone?)
    && (!s.sendErr && s.input.pc.SendDone? ==> s.input.pc == SendDone(false))
  }

  ghost predicate MainInv(s: State) {
    && (s.wait.Answered? ==> s.output.exited == Some(s.wait.answer.code))
    && match s.main
       case SendSelect => !s.wait.Consumed? && !s.input.pc.Absent?
       case SendJoin => !s.wait.Consumed? && !s.input.pc.Absent? && s.connDown
       case FirstSelect => !s.wait.Consumed? && SenderIsOver(s)
       case Draining(exit) => s.output.exited == Some(exit.code) && SenderIsOver(s)
       case Closing(exit) => s.connDown && (exit.Some? ==> s.output.exited == Some(exit.value.code)) && SenderIsOver(s)
       case SecondSelect => !s.wait.Consumed? && s.output.pc == CopyDone(false) && SenderIsOver(s)
       case Returned(outcome) => Joined(s) && (outcome.Result? ==> HonestResult(s, outcome.code, outcome.stderr))
  }

  ghost predicate Inv(s: State) {
    OutputInv(s.output) && InputInv(s.input) && MainInv(s)
  }

  lemma InitInv(s: State)
    requires Init(s)
    ensures Inv(s)
  {
  }

  /** The copier hands over one frame. */
  lemma HandedOver(o: Output, o': Output, connDown: bool)
    requires OutputInv(o) && o.pc.Handing? && CopierStep(o, o', connDown)
    ensures OutputInv(o')
  {
    var before, now := o.produced[..o.taken - 1], o.produced[..o.taken];
    assert now[..|now| - 1] == before && now[|now| - 1] == o.pc.frame;
    TailOfTail(STDERR_MAX, StderrOf(before), o.pc.frame.payload);
    assert StdoutOf(before) + [] == StdoutOf(before);
    assert StderrOf(before) + [] == StderrOf(before);
  }

  lemma OutputPreserved(o: Output, o': Output, connDown: bool)
    requires OutputInv(o) && (CopierStep(o, o', connDown) || OutputGrows(o, o', connDown))
    ensures OutputInv(o')
  {
    hide Tail, StdoutOf, StderrOf;
    if o.pc.Handing? && CopierStep(o, o', connDown) {
      HandedOver(o, o', connDown);
    } else {
      var n := if o.pc.Handing? then o.taken - 1 else o.taken;
      assert o.produced[..n] == o'.produced[..n];
    }
  }

  lemma InputPreserved(i: Input, i': Input, connDown: bool)
    requires InputInv(i) && SenderStep(i, i', connDown)
    ensures InputInv(i')
  {
  }

  lemma CompleteOutput(o: Output)
    requires OutputInv(o) && o.pc == CopyDone(false)
    ensures o.exited.Some? && o.stdout == StdoutOf(o.produced) && o.stderr == Tail(STDERR_MAX, StderrOf(o.produced))
  {
    assert o.produced[..o.taken] == o.produced;
  }

  /** Returning with a result is honest. */
  lemma FinishIsHonest(s: State, exit: Waited, outErr: bool)
    requires OutputInv(s.output) && InputInv(s.input) && SenderIsOver(s) && s.output.pc == CopyDone(outErr)
    requires s.output.exited == Some(exit.code) && Finish(s, exit, outErr).Result?
    ensures HonestResult(s, exit.code, Finish(s, exit, outErr).stderr)
  {
    hide Tail, StdoutOf, StderrOf, OutputInv;
    CompleteOutput(s.output);
  }

  lemma MainByMain(s: State, s': State)
    requires Inv(s) && MainStep(s, s')
    ensures MainInv(s')
  {
    hide Tail, StdoutOf, StderrOf, InputInv, HonestResult;
    if s'.main.Returned? {
      MainReturns(s, s');
    } else if s'.main.SecondSelect? {
      assert s.output.pc == CopyDone(false);
    } else {
      hide OutputInv;
    }
  }

  lemma MainReturns(s: State, s': State)
    requires Inv(s) && MainStep(s, s') && s'.main.Returned?
    ensures MainInv(s')
  {
    hide Tail, StdoutOf, StderrOf, OutputInv, InputInv, HonestResult;
    if s'.main.outcome.Result? {
      var exit := if s.main.Draining? then s.main.exit
                  else if s.main.Closing? then s.main.reported.value
                  else s.wait.answer;
      FinishIsHonest(s, exit, s.output.pc.copyFailed);
      HonestLater(s, s', exit.code, s'.main.outcome.stderr);
    }
  }

  /** A result stays honest: the input and output it speaks about do not change any more. */
  lemma HonestLater(s: State, s': State, code: int, stderr: Bytes)
    requires HonestResult(s, code, stderr) && s'.input == s.input && s'.output == s.output
    ensures HonestResult(s', code, stderr)
  {
  }

  lemma MainBySender(s: State, s': State)
    requires Inv(s) && Next(s, Sender, s')
    ensures MainInv(s')
  {
    hide Tail, StdoutOf, StderrOf, OutputInv, InputInv, HonestResult;
  }

  lemma MainByCopier(s: State, s': State)
    requires Inv(s) && Next(s, Copier, s')
    ensures MainInv(s')
  {
    hide Tail, StdoutOf, StderrOf, InputInv, HonestResult;
  }

  lemma MainByWorld(s: State, s': State)
    requires Inv(s) && WorldStep(s, s')
    ensures MainInv(s')
  {
    hide Tail, StdoutOf, StderrOf, InputInv, HonestResult;
    if s.main.Returned? && s.main.outcome.Result? {
      OutputIsOver(s, s'.output);
      HonestLater(s, s', s.main.outcome.code, s.main.outcome.stderr);
    }
  }

  /** Once a result has been returned the container emits nothing more. */
  lemma OutputIsOver(s: State, o': Output)
    requires Inv(s) && s.main.Returned? && s.main.outcome.Result?
    ensures !OutputGrows(s.output, o', s.connDown)
  {
    hide Tail, StdoutOf, StderrOf, InputInv;
  }

  lemma MainBySignals(s: State, a: Actor, s': State)
    requires Inv(s) && Next(s, a, s') && (a.Closer? || a.Waiter? || a.Timer?)
    ensures MainInv(s')
  {
    hide Tail, StdoutOf, StderrOf, OutputInv, InputInv, HonestResult;
    if s.main.Returned? && s.main.outcome.Result? {
      HonestLater(s, s', s.main.outcome.code, s.main.outcome.stderr);
    }
  }

  lemma MainPreserved(s: State, a: Actor, s': State)
    requires Inv(s) && Next(s, a, s')
    ensures MainInv(s')
  {
    hide MainStep, WorldStep, Inv, MainInv;
    match a {
      case Main => MainByMain(s, s');
      case Sender => MainBySender(s, s');
      case Copier => MainByCopier(s, s');
      case World => MainByWorld(s, s');
      case _ => MainBySignals(s, a, s');
    }
  }

  lemma InvPreserved(s: State, a: Actor, s': State)
    requires Inv(s) && Next(s, a, s')
    ensures Inv(s')
  {
    MainPreserved(s, a, s');
    hide CopierStep, SenderStep, OutputInv, InputInv, MainInv, OutputGrows;
    if a.Sender? {
      InputPreserved(s.input, s'.input, s.connDown);
    } else if s'.output != s.output {
      OutputPreserved(s.output, s'.output, s.connDown);
    }
  }

  // ---------- runs ----------

  ghost predicate StepAt(exec: nat -> State, who: nat -> Actor, i: nat) {
    Next(exec(i), who(i), exec(i + 1))
  }

  /** An endless interleaving; after the return only the world goes on. */
  ghost predicate IsRun(exec: nat -> State, who: nat -> Actor) {
    Init(exec(0)) && forall i: nat :: StepAt(exec, who, i)
  }

  lemma {:induction false} RunInv(exec: nat -> State, who: nat -> Actor, i: nat)
    requires IsRun(exec, who)
    ensures Inv(exec(i))
  {
    hide Init, Inv, Next;
    if i == 0 {
      InitInv(exec(0));
    } else {
      RunInv(exec, who, i - 1);
      assert StepAt(exec, who, i - 1);
      InvPreserved(exec(i - 1), who(i - 1), exec(i));
    }
  }

  /** Safety, for every interleaving: when RunHelper has returned, both goroutines have ended, so nothing touches the
      caller's reader and writer any more; and a result without error is honest. */
  lemma ReturnIsSafe(exec: nat -> State, who: nat -> Actor, i: nat)
    requires IsRun(exec, who) && exec(i).main.Returned?
    ensures Joined(exec(i)) && !(who(i) in {Main, Sender, Copier})
    ensures exec(i).main.outcome.Result? ==>
            HonestResult(exec(i), exec(i).main.outcome.code, exec(i).main.outcome.stderr)
  {
    RunInv(exec, who, i);
    assert StepAt(exec, who, i);
    hide OutputInv, InputInv, HonestResult;
  }

  /** The error text is read only after the copier, which writes it, has ended. */
  lemma ErrorTextIsNotShared(s: State, s': State)
    requires Inv(s) && Next(s, Main, s') && s'.main.Returned? && s'.main.outcome.Result?
    ensures s.output.pc.CopyDone? && s'.main.outcome.stderr == s.output.stderr
  {
    hide OutputInv, InputInv;
  }

  // ---------- progress ----------

  /** When an actor can move: the wait request is answered after the exit and gives up on cancellation. */
  ghost predicate CanStep(s: State, a: Actor) {
    match a
    case Main =>
      (match s.main
       case SendSelect => s.input.pc.SendDone? || s.cancelled
       case SendJoin => s.input.pc.SendDone?
       case FirstSelect => s.output.pc.CopyDone? || s.wait.Answered? || s.wait.Lost?
       case Draining(_) => s.output.pc.CopyDone? || s.graceOver || s.cancelled
       case Closing(_) => s.output.pc.CopyDone?
       case SecondSelect => s.wait.Answered? || s.wait.Lost?
       case Returned(_) => false)
    case Sender => s.input.pc.Reading? || s.input.pc.Writing? || s.input.pc.HalfClosing?
    case Copier =>
      || s.output.pc.Handing?
      || (s.output.pc.Taking? && (s.output.taken < s.output.arrived || s.connDown
                                  || (s.output.exited.Some? && s.output.taken == |s.output.produced|)))
    case Closer => s.cancelled && !s.connDown
    case Waiter => s.wait.Pending? && (s.output.exited.Some? || s.cancelled)
    case Timer => s.main.Draining? && !s.graceOver
    case World => true
  }

  /** CanStep says exactly when an actor has a step. */
  lemma CanStepIsEnabled(s: State, a: Actor)
    requires Inv(s)
    ensures CanStep(s, a) <==> exists s' :: Next(s, a, s')
  {
    hide HonestResult, StdoutOf, StderrOf, Tail;
    if CanStep(s, a) {
      match a {
        case Main => MainCanStep(s);
        case Sender =>
          var pc := if s.input.pc.Reading? || s.input.pc.Writing? then HalfClosing(true) else SendDone(true);
          assert Next(s, a, s.(input := s.input.(pc := pc)));
        case Copier => CopierCanStep(s);
        case Closer => assert Next(s, a, s.(connDown := true));
        case Waiter =>
          var wait := if s.output.exited.Some? then Answered(Waited(s.output.exited.value, false)) else Lost;
          assert Next(s, a, s.(wait := wait));
        case Timer => assert Next(s, a, s.(graceOver := true));
        case World => assert Next(s, a, s);
      }
    }
  }

  lemma MainCanStep(s: State)
    requires CanStep(s, Main)
    ensures exists s' :: Next(s, Main, s')
  {
    hide StdoutOf, StderrOf, Tail, Finish;
    var s' := match s.main
      case SendSelect =>
        if s.cancelled then s.(main := SendJoin, connDown := true)
        else s.(main := FirstSelect, sendErr := s.input.pc.sendFailed)
      case SendJoin => s.(main := FirstSelect, sendErr := true)
      case FirstSelect =>
        if s.wait.Answered? then s.(main := Draining(s.wait.answer), wait := Consumed, graceOver := false)
        else if s.wait.Lost? then s.(main := Closing(None), wait := Consumed, connDown := true)
        else s.(main := if s.output.pc.copyFailed then Returned(Failure) else SecondSelect)
      case Draining(exit) =>
        if s.output.pc.CopyDone? then s.(main := Returned(Finish(s, exit, s.output.pc.copyFailed)))
        else s.(main := Closing(Some(exit)), connDown := true)
      case Closing(exit) =>
        s.(main := Returned(if exit.Some? then Finish(s, exit.value, s.output.pc.copyFailed) else Failure))
      case SecondSelect =>
        if s.wait.Answered? then s.(main := Returned(Finish(s, s.wait.answer, false)), wait := Consumed)
        else s.(main := Returned(Failure), wait := Consumed)
      case Returned(_) => s;
    assert Next(s, Main, s');
  }

  lemma CopierCanStep(s: State)
    requires Inv(s) && CanStep(s, Copier)
    ensures exists s' :: Next(s, Copier, s')
  {
    hide StdoutOf, StderrOf, HonestResult, InputInv;
    var o := s.output;
    var o' :=
      if o.pc.Handing? then
        if o.pc.frame.toStderr then o.(pc := Taking, stderr := Tail(STDERR_MAX, o.stderr + o.pc.frame.payload))
        else o.(pc := CopyDone(true))
      else if o.taken < o.arrived then o.(pc := Handing(o.produced[o.taken]), taken := o.taken + 1)
      else if s.connDown then o.(pc := CopyDone(true))
      else o.(pc := CopyDone(false));
    assert Next(s, Copier, s.(output := o'));
  }

  /** When an actor must move some time. A read in flight returns, and so does handing a frame over. A write or a
      half-close may block while the container runs; it ends, with or without an error, once the connection is closed
      or the container has exited. */
  ghost predicate Due(s: State, a: Actor) {
    CanStep(s, a) && (a.Sender? && !s.input.pc.Reading? ==> s.connDown || s.output.exited.Some?)
  }

  /** Weak fairness: from any point on, the actor moves or at some time need not move. */
  ghost predicate Served(exec: nat -> State, who: nat -> Actor, a: Actor, i: nat) {
    exists j: nat :: i <= j && (who(j) == a || !Due(exec(j), a))
  }

  ghost predicate Fair(exec: nat -> State, who: nat -> Actor) {
    forall a: Actor, i: nat :: a != World ==> Served(exec, who, a, i)
  }

  /** From here on the run must come to an end: it was cancelled, the container has exited, or the wait request failed
      and was or will be noticed. */
  ghost predicate Ending(s: State) {
    || s.cancelled || s.output.exited.Some?
    || s.main.Draining? || s.main.Closing? || s.main.Returned?
    || ((s.main.FirstSelect? || s.main.SecondSelect?) && s.wait.Lost?)
  }

  function Phase(s: State): nat {
    match s.main
    case SendSelect => 6
    case SendJoin => 5
    case FirstSelect => 4
    case Draining(_) => 3
    case Closing(_) => 2
    case SecondSelect => 1
    case Returned(_) => 0
  }

  predicate FirstReady(s: State) {
    s.output.pc.CopyDone? || s.wait.Answered? || s.wait.Lost?
  }

  function Stage(s: State): nat {
    match s.main
    case SendSelect => if s.input.pc.SendDone? || s.cancelled then 0 else 1
    case FirstSelect => if FirstReady(s) then 0 else 1
    case Draining(_) => if s.graceOver || s.cancelled || s.output.pc.CopyDone? then 0 else 1
    case SecondSelect => if s.wait.Pending? then 1 else 0
    case _ => 0
  }

  function CopierWork(o: Output): nat {
    match o.pc
    case CopyDone(_) => 0
    case Taking => if o.taken <= o.arrived then 2 * (o.arrived - o.taken) + 1 else 1
    case Handing(_) => if o.taken <= o.arrived then 2 * (o.arrived - o.taken) + 2 else 2
  }

  function SenderWork(i: Input): nat {
    var left := if i.stdin.Some? && |i.sent| <= |i.stdin.value| then |i.stdin.value| - |i.sent| else 0;
    match i.pc
    case Reading => 2 * left + 2
    case Writing(_) => 2 * left + 1
    case HalfClosing(_) => 1
    case _ => 0
  }

  function Work(s: State): nat {
    match s.main
    case SendSelect => if Stage(s) == 1 then SenderWork(s.input) else 0
    case SendJoin => SenderWork(s.input)
    case Closing(_) => CopierWork(s.output)
    case _ => 0
  }

  /** The actor whose next step brings the return closer. */
  function Helpful(s: State): Actor {
    match s.main
    case SendSelect => if Stage(s) == 0 then Main else Sender
    case SendJoin => if s.input.pc.SendDone? then Main else Sender
    case FirstSelect => if Stage(s) == 0 then Main else Waiter
    case Draining(_) => if Stage(s) == 0 then Main else Timer
    case Closing(_) => if s.output.pc.CopyDone? then Main else Copier
    case SecondSelect => if Stage(s) == 0 then Main else Waiter
    case Returned(_) => World
  }

  ghost predicate Nearer(s': State, s: State) {
    || Phase(s') < Phase(s)
    || (Phase(s') == Phase(s) && Stage(s') < Stage(s))
    || (Phase(s') == Phase(s) && Stage(s') == Stage(s) && Work(s') < Work(s))
  }

  ghost predicate SameDistance(s': State, s: State) {
    Phase(s') == Phase(s) && Stage(s') == Stage(s) && Work(s') == Work(s) && Helpful(s') == Helpful(s)
  }

  /** No deadlock: until the return, the helpful actor can move and must do so some time. */
  lemma HelpfulIsDue(s: State)
    requires Inv(s) && Ending(s) && !s.main.Returned?
    ensures Helpful(s) != World && Due(s, Helpful(s))
  {
    hide OutputInv, HonestResult;
  }

  lemma MainProgress(s: State, s': State)
    requires Inv(s) && Ending(s) && !s.main.Returned? && MainStep(s, s')
    ensures Ending(s') && Phase(s') < Phase(s)
  {
    hide HonestResult, StdoutOf, StderrOf, Tail, InputInv, OutputInv, Finish, Stage, Work, Helpful;
  }

  lemma SenderProgress(s: State, s': State)
    requires Inv(s) && Ending(s) && !s.main.Returned? && Next(s, Sender, s')
    ensures Ending(s') && (Nearer(s', s) || (SameDistance(s', s) && Helpful(s) != Sender))
  {
    hide HonestResult, StdoutOf, StderrOf, Tail, OutputInv, CopierWork;
    assert SenderWork(s'.input) < SenderWork(s.input) by { SenderWorks(s.input, s'.input, s.connDown); }
    hide InputInv, SenderWork;
  }

  lemma SenderWorks(i: Input, i': Input, connDown: bool)
    requires InputInv(i) && SenderStep(i, i', connDown)
    ensures SenderWork(i') < SenderWork(i) && (i.pc.SendDone? ==> i'.pc.SendDone?)
  {
  }

  lemma CopierProgress(s: State, s': State)
    requires Inv(s) && Ending(s) && !s.main.Returned? && Next(s, Copier, s')
    ensures Ending(s') && (Nearer(s', s) || (SameDistance(s', s) && Helpful(s) != Copier))
  {
    hide HonestResult, StdoutOf, StderrOf, Tail, InputInv, SenderWork;
    assert CopierWork(s'.output) < CopierWork(s.output) by { CopierWorks(s.output, s'.output, s.connDown); }
    hide OutputInv, CopierWork;
  }

  lemma CopierWorks(o: Output, o': Output, connDown: bool)
    requires OutputInv(o) && CopierStep(o, o', connDown)
    ensures CopierWork(o') < CopierWork(o) && (o.pc.CopyDone? ==> o'.pc.CopyDone?)
  {
    hide StdoutOf, StderrOf, Tail;
  }

  lemma SignalProgress(s: State, a: Actor, s': State)
    requires Inv(s) && Ending(s) && !s.main.Returned? && Next(s, a, s') && (a.Closer? || a.Waiter? || a.Timer?)
    ensures Ending(s') && (Nearer(s', s) || (SameDistance(s', s) && Helpful(s) != a))
  {
    hide HonestResult, StdoutOf, StderrOf, Tail, InputInv, OutputInv, CopierWork, SenderWork;
  }

  lemma WorldProgress(s: State, s': State)
    requires Inv(s) && Ending(s) && !s.main.Returned? && WorldStep(s, s')
    ensures Ending(s') && (Nearer(s', s) || SameDistance(s', s))
  {
    hide HonestResult, StdoutOf, StderrOf, Tail, InputInv, OutputInv, SenderWork;
  }

  /** Every step keeps the run ending; the helpful actor's steps bring the return closer, and no step puts it off. */
  lemma StepProgress(s: State, a: Actor, s': State)
    requires Inv(s) && Ending(s) && !s.main.Returned? && Next(s, a, s')
    ensures Ending(s') && (Nearer(s', s) || (SameDistance(s', s) && a != Helpful(s)))
  {
    hide Inv, Ending, MainStep, SenderStep, CopierStep, WorldStep, WaiterStep, Stage, Work, Phase, Nearer, SameDistance;
    match a {
      case Main => MainProgress(s, s'); PhaseIsCloser(s', s);
      case Sender => SenderProgress(s, s');
      case Copier => CopierProgress(s, s');
      case World => WorldProgress(s, s');
      case _ => SignalProgress(s, a, s');
    }
  }

  lemma PhaseIsCloser(s': State, s: State)
    requires Phase(s') < Phase(s)
    ensures Nearer(s', s)
  {
  }

  /** Until step j, either the return has come closer or the helpful actor is still the same. */
  lemma FirstChange(exec: nat -> State, who: nat -> Actor, i: nat, j: nat) returns (n: nat)
    requires IsRun(exec, who) && Ending(exec(i)) && !exec(i).main.Returned? && i <= j
    ensures i <= n <= j && Ending(exec(n))
    ensures Nearer(exec(n), exec(i)) || (n == j && SameDistance(exec(n), exec(i)))
  {
    hide Next, Inv, Ending, Phase, Stage, Work, Helpful;
    n := i;
    while n < j && !Nearer(exec(n), exec(i))
      invariant i <= n <= j && Ending(exec(n))
      invariant Nearer(exec(n), exec(i)) || SameDistance(exec(n), exec(i))
    {
      RunInv(exec, who, n);
      assert StepAt(exec, who, n);
      SameNotReturned(exec(n), exec(i));
      StepProgress(exec(n), who(n), exec(n + 1));
      n := n + 1;
    }
  }

  lemma SameNotReturned(s: State, t: State)
    requires SameDistance(s, t) && !t.main.Returned?
    ensures !s.main.Returned?
  {
  }

  /** Progress, for every fair interleaving: once the run is cancelled, or the container has exited, RunHelper
      returns. */
  lemma {:induction false} EndingRunReturns(exec: nat -> State, who: nat -> Actor, i: nat)
    requires IsRun(exec, who) && Fair(exec, who) && Ending(exec(i))
    ensures exists n: nat :: i <= n && exec(n).main.Returned?
    decreases Phase(exec(i)), Stage(exec(i)), Work(exec(i))
  {
    hide Next, Inv, Ending, Phase, Stage, Work, Helpful, Due, Init;
    if !exec(i).main.Returned? {
      var a := Helpful(exec(i));
      RunInv(exec, who, i);
      HelpfulIsDue(exec(i));
      assert Served(exec, who, a, i);
      var j: nat :| i <= j && (who(j) == a || !Due(exec(j), a));
      var n := FirstChange(exec, who, i, j);
      if !Nearer(exec(n), exec(i)) {
        RunInv(exec, who, j);
        SameNotReturned(exec(j), exec(i));
        HelpfulIsDue(exec(j));
        assert StepAt(exec, who, j);
        StepProgress(exec(j), who(j), exec(j + 1));
        n := j + 1;
      }
      EndingRunReturns(exec, who, n);
    }
  }
}
