/**
 Starting and stopping the present trace (app/diagnostics/PresentMonEtwSession.cpp): the UI
 thread, every consumer thread ever spawned, and a trace that may end on its own.

 A step is one atomic access or one locked section. Generation `g` is the g-th successful
 start; its backend, its finish signal and its consumer thread carry that number, which is
 all that a detached consumer and the session can have in common.
 */
module PresentProtocol {
  import opened Wrappers

  /** Where a consumer thread stands in its body. */
  datatype ConsumerPc = NotSpawned | Spawned | InConsume | Returned | Quiesced | Checked | Done

  /** Why `Consume` returned. */
  datatype Cause = NotReturned | WasClosed | EndedAlone

  /** One generation: its thread, its finish signal, its backend, and what became of the thread. */
  datatype Consumer = Consumer(
    pc: ConsumerPc, cause: Cause, consuming: bool, stopRequested: bool, finished: bool, closed: bool,
    loggedUnrequested: bool, joins: nat, detaches: nat)

  const FRESH := Consumer(NotSpawned, NotReturned, false, false, false, false, false, 0, 0)

  /** Where the UI thread stands in `Start` or `Stop`. */
  datatype UiPc =
    | Idle
    | StartPublish | StartOpen | StartSpawn
    | StopSnapshot | StopRequest(g: nat) | StopClose(g: nat) | StopWait(g: nat) | StopJoin(g: nat) | StopDetach(g: nat)
    | StopClear

  /** The session's own fields; threads, signals and backends are named by generation. */
  datatype Session = Session(
    open: bool, backend: Option<nat>, finish: Option<nat>, worker: Option<nat>, ui: UiPc, consumers: seq<Consumer>)

  const INITIAL := Session(false, None, None, None, Idle, [])

  datatype Step =
    | Start(traceOpens: bool)
    | Stop
    | Ui
    | UiTimeout
    | Consume(g: nat)
    | TraceEnds(g: nat)

  predicate Joinable(s: Session) {
    s.worker.Some?
  }

  /** `Start` begins, and `Stop` begins, only between operations; `TraceEnds` is the environment's. */
  predicate Enabled(s: Session, step: Step) {
    match step
    case Start(_) => s.ui.Idle?
    case Stop => s.ui.Idle?
    case Ui => UiEnabled(s)
    case UiTimeout => s.ui.StopWait? && s.ui.g < |s.consumers| && !s.consumers[s.ui.g].finished
    case Consume(g) =>
      g < |s.consumers| && !s.consumers[g].pc.NotSpawned? && !s.consumers[g].pc.Done?
      && (s.consumers[g].pc.InConsume? ==> s.consumers[g].closed)
    case TraceEnds(g) => g < |s.consumers| && s.consumers[g].pc.InConsume?
  }

  predicate UiEnabled(s: Session) {
    match s.ui
    case Idle => false
    case StartPublish => true
    case StartOpen => true
    case StartSpawn => s.consumers != [] && !Joinable(s)
    case StopSnapshot => s.finish.Some? && s.backend == s.finish
    case StopRequest(g) => g < |s.consumers|
    case StopClose(g) => g < |s.consumers|
    case StopWait(g) => g < |s.consumers| && s.consumers[g].finished
    case StopJoin(g) => g < |s.consumers| && s.consumers[g].finished
    case StopDetach(g) => g < |s.consumers|
    case StopClear => true
  }

  function Update(s: Session, g: nat, c: Consumer): Session
    requires g < |s.consumers|
  {
    s.(consumers := s.consumers[g := c])
  }

  function NextUi(s: Session): Session
    requires UiEnabled(s)
  {
    match s.ui
    case StartPublish =>
      s.(consumers := s.consumers + [FRESH], backend := Some(|s.consumers|), finish := Some(|s.consumers|),
         ui := StartOpen)
    case StartOpen => s.(open := true, ui := StartSpawn)
    case StartSpawn =>
      var g := |s.consumers| - 1;
      Update(s, g, s.consumers[g].(pc := Spawned)).(worker := Some(g), ui := Idle)
    case StopSnapshot => s.(ui := StopRequest(s.finish.value))
    case StopRequest(g) => Update(s, g, s.consumers[g].(stopRequested := true)).(ui := StopClose(g))
    case StopClose(g) =>
      Update(s, g, s.consumers[g].(closed := true)).(ui := if Joinable(s) then StopWait(g) else StopClear)
    case StopWait(g) => s.(ui := StopJoin(g))
    case StopJoin(g) =>
      Update(s, g, s.consumers[g].(joins := s.consumers[g].joins + 1)).(worker := None, ui := StopClear)
    case StopDetach(g) =>
      Update(s, g, s.consumers[g].(detaches := s.consumers[g].detaches + 1)).(worker := None, ui := StopClear)
    case StopClear => s.(backend := None, finish := None, ui := Idle)
  }

  /** The consumer thread's body, one access at a time. */
  function NextConsumer(c: Consumer): Consumer {
    match c.pc
    case NotSpawned => c
    case Spawned => c.(pc := InConsume, consuming := true)
    case InConsume => c.(pc := Returned, cause := WasClosed)
    case Returned => c.(pc := Quiesced, consuming := false)
    case Quiesced => c.(pc := Checked, loggedUnrequested := !c.stopRequested)
    case Checked => c.(pc := Done, finished := true)
    case Done => c
  }

  function Next(s: Session, step: Step): Session
    requires Enabled(s, step)
  {
    match step
    case Start(traceOpens) => if s.open || !traceOpens then s else s.(ui := StartPublish)
    case Stop => if s.open then s.(open := false, ui := StopSnapshot) else s
    case Ui => NextUi(s)
    case UiTimeout => s.(ui := StopDetach(s.ui.g))
    case Consume(g) => Update(s, g, NextConsumer(s.consumers[g]))
    case TraceEnds(g) => Update(s, g, s.consumers[g].(pc := Returned, cause := EndedAlone))
  }

  /** What `IsOpen` answers. */
  predicate IsOpen(s: Session) {
    s.open && s.finish.Some? && s.finish.value < |s.consumers| && s.consumers[s.finish.value].consuming
  }

  ghost predicate Reaches(from: Session, steps: seq<Step>, s: Session)
    decreases |steps|
  {
    if steps == [] then s == from
    else Enabled(from, steps[0]) && Reaches(Next(from, steps[0]), steps[1..], s)
  }

  // ----- The invariant -----

  /** What each generation keeps, whoever moves. */
  ghost predicate ConsumerOk(c: Consumer) {
    && (c.consuming <==> c.pc.InConsume? || c.pc.Returned?)
    && (c.finished <==> c.pc.Done?)
    && (c.cause.NotReturned? <==> c.pc.NotSpawned? || c.pc.Spawned? || c.pc.InConsume?)
    && (c.cause.WasClosed? ==> c.closed)
    && (c.closed ==> c.stopRequested)
    && (c.loggedUnrequested ==> c.cause.EndedAlone? && (c.pc.Checked? || c.pc.Done?))
    && c.joins + c.detaches <= 1
    && (c.joins == 1 ==> c.finished)
    && (c.pc.NotSpawned? ==> c == FRESH)
  }

  /** The latest generation. */
  ghost predicate IsCurrent(s: Session, g: Option<nat>) {
    s.consumers != [] && g == Some(|s.consumers| - 1)
  }

  /** The session's fields at each point of the UI thread. */
  ghost predicate UiOk(s: Session) {
    match s.ui
    case Idle =>
      if s.open then IsCurrent(s, s.worker) && s.backend == s.worker && s.finish == s.worker
      else s.worker.None? && s.backend.None? && s.finish.None?
    case StartPublish => !s.open && s.worker.None? && s.backend.None? && s.finish.None?
    case StartOpen => !s.open && s.worker.None? && IsCurrent(s, s.finish) && s.backend == s.finish
    case StartSpawn => s.open && s.worker.None? && IsCurrent(s, s.finish) && s.backend == s.finish
    case StopSnapshot => !s.open && IsCurrent(s, s.worker) && s.backend == s.worker && s.finish == s.worker
    case StopRequest(g) => !s.open && s.worker == Some(g) && Published(s, g)
    case StopClose(g) => !s.open && s.worker == Some(g) && Published(s, g) && s.consumers[g].stopRequested
    case StopWait(g) => !s.open && s.worker == Some(g) && Published(s, g) && s.consumers[g].closed
    case StopJoin(g) => !s.open && s.worker == Some(g) && Published(s, g) && s.consumers[g].finished
    case StopDetach(g) => !s.open && s.worker == Some(g) && Published(s, g)
    case StopClear => !s.open && s.worker.None?
  }

  ghost predicate Published(s: Session, g: nat) {
    IsCurrent(s, Some(g)) && s.backend == Some(g) && s.finish == Some(g)
  }

  /** The thread of generation `g` is the session's, is still to be spawned, or was let go of once. */
  ghost predicate Owned(s: Session, g: nat)
    requires g < |s.consumers|
  {
    var c := s.consumers[g];
    if s.worker == Some(g) then !c.pc.NotSpawned? && c.joins + c.detaches == 0
    else if c.pc.NotSpawned? then g == |s.consumers| - 1 && (s.ui.StartOpen? || s.ui.StartSpawn?)
    else c.joins + c.detaches == 1
  }

  ghost predicate Inv(s: Session) {
    && UiOk(s)
    && (forall g :: 0 <= g < |s.consumers| ==> ConsumerOk(s.consumers[g]) && Owned(s, g))
    && (s.ui.StartOpen? || s.ui.StartSpawn? ==> s.consumers[|s.consumers| - 1].pc.NotSpawned?)
  }

  lemma {:induction false} ConsumerStepKeepsInv(s: Session, g: nat, c: Consumer)
    requires Inv(s) && g < |s.consumers| && !s.consumers[g].pc.NotSpawned?
    requires ConsumerOk(c) && !c.pc.NotSpawned?
    requires c.joins == s.consumers[g].joins && c.detaches == s.consumers[g].detaches
    requires c.stopRequested == s.consumers[g].stopRequested && c.closed == s.consumers[g].closed
    requires s.consumers[g].finished ==> c.finished
    ensures Inv(Update(s, g, c))
  {
    var t := Update(s, g, c);
    forall h | 0 <= h < |t.consumers| ensures ConsumerOk(t.consumers[h]) && Owned(t, h) {
      assert ConsumerOk(s.consumers[h]) && Owned(s, h);
    }
  }

  lemma {:induction false} UiStepKeepsInv(s: Session)
    requires Inv(s) && UiEnabled(s)
    ensures Inv(NextUi(s))
  {
    hide Inv, NextUi, UiEnabled;
    if Opens(s.ui) {
      OpeningKeepsInv(s);
    } else {
      StoppingKeepsInv(s);
    }
  }

  predicate Opens(ui: UiPc) {
    ui.StartPublish? || ui.StartOpen? || ui.StartSpawn?
  }

  lemma {:induction false} OpeningKeepsInv(s: Session)
    requires Inv(s) && UiEnabled(s) && Opens(s.ui)
    ensures Inv(NextUi(s))
  {
    var t := NextUi(s);
    forall h | 0 <= h < |t.consumers| ensures ConsumerOk(t.consumers[h]) && Owned(t, h) {
      assert h < |s.consumers| ==> ConsumerOk(s.consumers[h]) && Owned(s, h);
    }
  }

  lemma {:induction false} StoppingKeepsInv(s: Session)
    requires Inv(s) && UiEnabled(s) && !Opens(s.ui)
    ensures Inv(NextUi(s))
  {
    var t := NextUi(s);
    forall h | 0 <= h < |t.consumers| ensures ConsumerOk(t.consumers[h]) && Owned(t, h) {
      assert ConsumerOk(s.consumers[h]) && Owned(s, h);
    }
  }

  lemma {:induction false} StepKeepsInv(s: Session, step: Step)
    requires Inv(s) && Enabled(s, step)
    ensures Inv(Next(s, step))
  {
    match step {
      case Consume(g) =>
        assert ConsumerOk(s.consumers[g]);
        ConsumerStepKeepsInv(s, g, NextConsumer(s.consumers[g]));
      case TraceEnds(g) =>
        assert ConsumerOk(s.consumers[g]);
        ConsumerStepKeepsInv(s, g, s.consumers[g].(pc := Returned, cause := EndedAlone));
      case Ui => UiStepKeepsInv(s);
      case _ =>
        var t := Next(s, step);
        forall h | 0 <= h < |t.consumers| ensures ConsumerOk(t.consumers[h]) && Owned(t, h) {
          assert ConsumerOk(s.consumers[h]) && Owned(s, h);
        }
    }
  }

  lemma {:induction false} RunsKeepInv(from: Session, steps: seq<Step>, s: Session)
    requires Inv(from) && Reaches(from, steps, s)
    ensures Inv(s)
    decreases |steps|
  {
    if steps != [] {
      StepKeepsInv(from, steps[0]);
      RunsKeepInv(Next(from, steps[0]), steps[1..], s);
    }
  }

  // ----- What holds at every reachable state -----

  /** An open session is the latest generation's consumer consuming, and nothing else. */
  lemma {:induction false} OpenMeansConsuming(steps: seq<Step>, s: Session)
    requires Reaches(INITIAL, steps, s) && IsOpen(s)
    ensures IsCurrent(s, s.finish)
    ensures s.consumers[s.finish.value].pc in {InConsume, Returned}
  {
    RunsKeepInv(INITIAL, steps, s);
    assert ConsumerOk(s.consumers[s.finish.value]);
  }

  /** Between operations, being open, having a joinable worker, a backend and a signal are one thing,
      and all of the latest generation. */
  lemma {:induction false} BetweenOperations(steps: seq<Step>, s: Session)
    requires Reaches(INITIAL, steps, s) && s.ui.Idle?
    ensures s.open <==> Joinable(s)
    ensures s.open <==> s.backend.Some? && s.finish.Some?
    ensures s.open <==> s.backend.Some? || s.finish.Some?
    ensures s.open ==> IsCurrent(s, s.worker) && s.backend == s.worker && s.finish == s.worker
  {
    RunsKeepInv(INITIAL, steps, s);
  }

  /** The UI thread can always go on: `Start` never meets a joinable worker where it assigns one, and
      `Stop` never joins a consumer that has not published its end. */
  lemma {:induction false} UiNeverStuck(steps: seq<Step>, s: Session)
    requires Reaches(INITIAL, steps, s) && !s.ui.Idle?
    ensures s.ui.StartSpawn? ==> !Joinable(s)
    ensures s.ui.StopJoin? ==> s.ui.g < |s.consumers| && s.consumers[s.ui.g].finished
    ensures Enabled(s, Ui) || Enabled(s, UiTimeout)
  {
    RunsKeepInv(INITIAL, steps, s);
  }

  /** Each thread ever spawned is the session's now, or was joined or detached exactly once; it was
      joined only after it published its end. */
  lemma {:induction false} EachThreadReleasedOnce(steps: seq<Step>, s: Session, g: nat)
    requires Reaches(INITIAL, steps, s) && g < |s.consumers| && !s.consumers[g].pc.NotSpawned?
    ensures s.consumers[g].joins + s.consumers[g].detaches == if s.worker == Some(g) then 0 else 1
    ensures s.consumers[g].joins == 1 ==> s.consumers[g].finished
  {
    RunsKeepInv(INITIAL, steps, s);
    assert ConsumerOk(s.consumers[g]) && Owned(s, g);
  }

  /** A consumer that returned because it was closed never reports an unrequested end. */
  lemma {:induction false} ClosedNeverLogs(steps: seq<Step>, s: Session, g: nat)
    requires Reaches(INITIAL, steps, s) && g < |s.consumers|
    ensures s.consumers[g].cause.WasClosed? ==> !s.consumers[g].loggedUnrequested
    ensures s.consumers[g].loggedUnrequested ==> s.consumers[g].cause.EndedAlone?
  {
    RunsKeepInv(INITIAL, steps, s);
    assert ConsumerOk(s.consumers[g]);
  }

  /** A trace that ended alone is reported exactly when no stop had been requested by the time its
      consumer looked. */
  lemma {:induction false} UnrequestedEndIsLogged(steps: seq<Step>, s: Session, g: nat)
    requires Reaches(INITIAL, steps, s) && g < |s.consumers| && s.consumers[g].pc.Quiesced?
    ensures Enabled(s, Consume(g))
    ensures var c := Next(s, Consume(g)).consumers[g];
            c.loggedUnrequested <==> !s.consumers[g].stopRequested
    ensures !s.consumers[g].stopRequested ==> s.consumers[g].cause.EndedAlone?
  {
    RunsKeepInv(INITIAL, steps, s);
    assert ConsumerOk(s.consumers[g]);
  }

  // ----- Earlier generations cannot be heard -----

  /** What an operation of the session can see. */
  function Visible(s: Session): (bool, Option<nat>, Option<nat>, Option<nat>, UiPc, bool) {
    (s.open, s.backend, s.finish, s.worker, s.ui, IsOpen(s))
  }

  /** No step of an earlier generation's consumer, nor its trace ending, changes anything that
      `IsOpen`, `Latest`, `Start` or `Stop` can see, nor what the UI thread may do next. */
  lemma {:induction false} DetachedCannotInterfere(steps: seq<Step>, s: Session, step: Step, g: nat)
    requires Reaches(INITIAL, steps, s) && Enabled(s, step)
    requires (step == Consume(g) || step == TraceEnds(g)) && g < |s.consumers| && s.finish != Some(g)
    ensures Visible(Next(s, step)) == Visible(s)
    ensures Enabled(Next(s, step), Ui) == Enabled(s, Ui)
    ensures forall h :: 0 <= h < |s.consumers| && h != g ==> Next(s, step).consumers[h] == s.consumers[h]
  {
    RunsKeepInv(INITIAL, steps, s);
  }

  // ----- Stopping is bounded -----

  lemma {:induction false} ReachesSnoc(from: Session, steps: seq<Step>, s: Session, step: Step)
    requires Reaches(from, steps, s) && Enabled(s, step)
    ensures Reaches(from, steps + [step], Next(s, step))
    decreases |steps|
  {
    if steps == [] {
      assert Reaches(Next(s, step), [], Next(s, step));
      assert [step][1..] == [];
    } else {
      assert (steps + [step])[1..] == steps[1..] + [step];
      ReachesSnoc(Next(from, steps[0]), steps[1..], s, step);
    }
  }

  /** How many steps the UI thread is at most away from being idle. */
  function Distance(ui: UiPc): (d: nat)
    ensures d <= 6
    ensures d == 0 <==> ui.Idle?
  {
    match ui
    case Idle => 0
    case StopClear => 1
    case StopJoin(_) => 2
    case StopDetach(_) => 2
    case StopWait(_) => 3
    case StopClose(_) => 4
    case StopRequest(_) => 5
    case StopSnapshot => 6
    case StartSpawn => 1
    case StartOpen => 2
    case StartPublish => 3
  }

  /** How many of the steps are the UI thread's own. */
  function UiSteps(steps: seq<Step>): nat {
    if steps == [] then 0 else (if steps[0] == Ui || steps[0] == UiTimeout then 1 else 0) + UiSteps(steps[1..])
  }

  /** The steps of one operation: nothing is started or stopped meanwhile, the rest is anybody's. */
  ghost predicate WithinOperation(steps: seq<Step>) {
    forall k :: 0 <= k < |steps| ==> !steps[k].Start? && !steps[k].Stop?
  }

  lemma {:induction false} OneStepNearer(s: Session, step: Step)
    requires Enabled(s, step) && !step.Start? && !step.Stop?
    ensures Distance(Next(s, step).ui) + (if step == Ui || step == UiTimeout then 1 else 0) <= Distance(s.ui)
    ensures !s.open && !s.ui.StartPublish? && !s.ui.StartOpen? ==>
              !Next(s, step).open && !Next(s, step).ui.StartPublish? && !Next(s, step).ui.StartOpen?
  {
  }

  /** In any interleaving with the consumers and the traces, an operation is over after at most six steps
      of the UI thread, which has one to take until then; and a stopped session is closed. */
  lemma {:induction false} UiComesBack(s: Session, steps: seq<Step>, end: Session)
    requires Inv(s) && Reaches(s, steps, end) && WithinOperation(steps)
    ensures UiSteps(steps) + Distance(end.ui) <= Distance(s.ui) <= 6
    ensures end.ui.Idle? <==> !Enabled(end, Ui) && !Enabled(end, UiTimeout)
    ensures !s.open && !s.ui.StartPublish? && !s.ui.StartOpen? && end.ui.Idle? ==> !end.open && !Joinable(end)
  {
    RunsKeepInv(s, steps, end);
    NearerAndNearer(s, steps, end);
  }

  lemma {:induction false} NearerAndNearer(s: Session, steps: seq<Step>, end: Session)
    requires Reaches(s, steps, end) && WithinOperation(steps)
    ensures UiSteps(steps) + Distance(end.ui) <= Distance(s.ui)
    ensures !s.open && !s.ui.StartPublish? && !s.ui.StartOpen? ==> !end.open
    decreases |steps|
  {
    if steps != [] {
      OneStepNearer(s, steps[0]);
      NearerAndNearer(Next(s, steps[0]), steps[1..], end);
    }
  }

  // ----- A trace that ended alone -----

  /** The session still counts itself open, but the consumer of its trace has stopped consuming. */
  ghost predicate EndedUnnoticed(s: Session) {
    && s.open && s.ui.Idle? && s.finish.Some? && s.finish.value < |s.consumers|
    && var c := s.consumers[s.finish.value];
       !c.consuming && (c.pc.Quiesced? || c.pc.Checked? || c.pc.Done?)
  }

  /** An open session can be read again without a stop exactly when its trace has not ended: once the
      consumer has stopped, starting again answers that it is started and changes nothing. */
  lemma {:induction false} EndedTraceNeedsStop(steps: seq<Step>, s: Session)
    requires Reaches(INITIAL, steps, s) && s.ui.Idle? && s.open
    ensures (exists more, end :: Reaches(s, more, end) && Stop !in more && IsOpen(end)) <==> !EndedUnnoticed(s)
    ensures Next(s, Start(true)) == s && Next(s, Start(false)) == s
  {
    RunsKeepInv(INITIAL, steps, s);
    if EndedUnnoticed(s) {
      forall more, end | Reaches(s, more, end) && Stop !in more ensures !IsOpen(end) {
        EndedForGood(s, more, end);
      }
    } else {
      var g := s.finish.value;
      assert ConsumerOk(s.consumers[g]) && Owned(s, g);
      if s.consumers[g].pc.Spawned? {
        var more, end := [Consume(g)], Next(s, Consume(g));
        assert Reaches(end, more[1..], end);
        assert Reaches(s, more, end) && Stop !in more && IsOpen(end);
      } else {
        assert Reaches(s, [], s) && Stop !in [] && IsOpen(s);
      }
    }
  }

  lemma {:induction false} EndedForGood(s: Session, steps: seq<Step>, end: Session)
    requires EndedUnnoticed(s) && Reaches(s, steps, end) && Stop !in steps
    ensures EndedUnnoticed(end) && !IsOpen(end)
    decreases |steps|
  {
    if steps != [] {
      assert steps[0] in steps;
      EndedStaysEnded(s, steps[0]);
      EndedForGood(Next(s, steps[0]), steps[1..], end);
    }
  }

  lemma {:induction false} EndedStaysEnded(s: Session, step: Step)
    requires EndedUnnoticed(s) && Enabled(s, step) && step != Stop
    ensures EndedUnnoticed(Next(s, step))
  {
  }

  /** It comes to that when the first trace ever started ends by itself. */
  lemma {:induction false} ATraceCanEndUnnoticed() returns (steps: seq<Step>, s: Session)
    ensures Reaches(INITIAL, steps, s) && EndedUnnoticed(s)
  {
    steps, s := [], INITIAL;
    var run := [Start(true), Ui, Ui, Ui, Consume(0), TraceEnds(0), Consume(0)];
    steps, s := Extend(steps, s, run[0]);
    steps, s := Extend(steps, s, run[1]);
    steps, s := Extend(steps, s, run[2]);
    steps, s := Extend(steps, s, run[3]);
    steps, s := Extend(steps, s, run[4]);
    steps, s := Extend(steps, s, run[5]);
    steps, s := Extend(steps, s, run[6]);
  }

  lemma {:induction false} Extend(steps: seq<Step>, s: Session, step: Step) returns (more: seq<Step>, t: Session)
    requires Reaches(INITIAL, steps, s) && Enabled(s, step)
    ensures more == steps + [step] && t == Next(s, step) && Reaches(INITIAL, more, t)
  {
    ReachesSnoc(INITIAL, steps, s, step);
    more, t := steps + [step], Next(s, step);
  }
}
