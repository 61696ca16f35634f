/** One bastion launch: a pipeline of stages, then two concurrent ones, sharing a counter of outstanding completions, a
    sticky error and an event channel that a watcher drains.

    handleEvent holds the launch's lock across the send, the update and the cleanup, so it is one step. A stage's check
    for an earlier failure and its execution are separate steps. A panic in any goroutine ends the process. */
module Launch {
  import opened Options
  import Connect

  // The launch object

  datatype MessageState = InProgress | Complete | Failed

  datatype Event = Event(err: Option<string>, state: MessageState)

  datatype BastionState = New | Launching | Active | FailedBastion

  datatype Panic = CloseOfNilChannel | NilBastion

  /** The launch's fields, and what its calls have done: events received from the channel, cleanups entered, autocheck
      pools drained, topics and queues deleted, bastions marked failed in the database. */
  datatype Shared = Shared(
    global: bool, state: int, err: Option<string>, chanOpen: bool, bastion: Option<BastionState>,
    topic: bool, queue: bool, targets: seq<string>,
    sent: seq<Event>, cleanups: nat, drained: seq<seq<string>>, topicDeletes: nat, queueDeletes: nat,
    failMarks: nat, panic: Option<Panic>)

  function NewShared(global: bool): Shared {
    Shared(global, 3, None, true, None, false, false, [], [], 0, [], 0, 0, 0, None)
  }

  function CleanUp(l: Shared): Shared {
    l.(cleanups := l.cleanups + 1,
       drained := if l.err.None? && !l.global then l.drained + [l.targets] else l.drained,
       topicDeletes := if l.topic then l.topicDeletes + 1 else l.topicDeletes,
       queueDeletes := if l.queue then l.queueDeletes + 1 else l.queueDeletes,
       failMarks := if l.err.Some? && l.bastion.Some? then l.failMarks + 1 else l.failMarks,
       bastion := if l.err.Some? && l.bastion.Some? then Some(FailedBastion) else l.bastion,
       panic := if l.chanOpen then l.panic else Some(CloseOfNilChannel),
       chanOpen := false)
  }

  function Handle(l: Shared, e: Event): Shared {
    var l' := l.(sent := if l.chanOpen then l.sent + [e] else l.sent,
                 err := if e.err.Some? then e.err else l.err,
                 state := if e.state == Complete then l.state - 1 else l.state);
    if l'.state == 0 || l'.err.Some? then CleanUp(l') else l'
  }

  /** What State answers. */
  function Reported(l: Shared): MessageState {
    if l.err.Some? then Failed else if l.state > 0 then InProgress else Complete
  }

  class EventChan {
    var sent: seq<Event>
    var closed: bool

    constructor ()
      ensures sent == [] && !closed
    {
      sent, closed := [], false;
    }
  }

  class Launch {
    const global: bool
    const watched: EventChan
    var eventChan: EventChan?
    var state: int
    var err: Option<string>
    var bastion: Option<BastionState>
    var topic: bool
    var queue: bool
    var targets: seq<string>
    var cleanups: nat
    var drained: seq<seq<string>>
    var topicDeletes: nat
    var queueDeletes: nat
    var failMarks: nat
    var panic: Option<Panic>

    ghost predicate Valid()
      reads this, watched
    {
      (eventChan == null || eventChan == watched) && watched.closed == (eventChan == null)
    }

    ghost function View(): Shared
      reads this, watched
    {
      Shared(global, state, err, eventChan != null, bastion, topic, queue, targets,
             watched.sent, cleanups, drained, topicDeletes, queueDeletes, failMarks, panic)
    }

    constructor (global: bool)
      ensures Valid() && fresh(watched) && View() == NewShared(global)
    {
      this.global := global;
      var c := new EventChan();
      watched, eventChan, state, err := c, c, 3, None;
      bastion, topic, queue, targets := None, false, false, [];
      cleanups, drained, topicDeletes, queueDeletes, failMarks, panic := 0, [], 0, 0, 0, None;
    }

    method HandleEvent(event: Event)
      requires Valid()
      modifies this, watched
      ensures Valid() && View() == Handle(old(View()), event)
    {
      if eventChan != null {
        eventChan.sent := eventChan.sent + [event];
      }
      if event.err.Some? {
        err := event.err;
      }
      if event.state == Complete {
        state := state - 1;
      }
      if state == 0 || err.Some? {
        Cleanup();
      }
    }

    method Cleanup()
      requires Valid()
      modifies this, watched
      ensures Valid() && View() == CleanUp(old(View()))
    {
      Release();
      Close();
    }

    /** What cleanup does before its deferred close. */
    method Release()
      requires Valid()
      modifies this`cleanups, this`drained, this`topicDeletes, this`queueDeletes, this`failMarks, this`bastion
      ensures Valid()
      ensures cleanups == old(cleanups) + 1
      ensures drained == if err.None? && !global then old(drained) + [targets] else old(drained)
      ensures topicDeletes == if topic then old(topicDeletes) + 1 else old(topicDeletes)
      ensures queueDeletes == if queue then old(queueDeletes) + 1 else old(queueDeletes)
      ensures failMarks == if err.Some? && old(bastion).Some? then old(failMarks) + 1 else old(failMarks)
      ensures bastion == if err.Some? && old(bastion).Some? then Some(FailedBastion) else old(bastion)
    {
      cleanups := cleanups + 1;
      if err.None? {
        if !global {
          drained := drained + [targets];
        }
      }
      if topic {
        topicDeletes := topicDeletes + 1;
      }
      if queue {
        queueDeletes := queueDeletes + 1;
      }
      if err.Some? && bastion.Some? {
        bastion := Some(FailedBastion);
        failMarks := failMarks + 1;
      }
    }

    /** The deferred close; closing a nil channel panics. */
    method Close()
      requires Valid()
      modifies this`panic, this`eventChan, watched`closed
      ensures Valid() && eventChan == null
      ensures panic == if old(eventChan) == null then Some(CloseOfNilChannel) else old(panic)
    {
      if eventChan == null {
        panic := Some(CloseOfNilChannel);
      } else {
        eventChan.closed := true;
        eventChan := null;
      }
    }

    method State() returns (s: MessageState)
      ensures s == Reported(View())
    {
      if err.Some? {
        return Failed;
      }
      if state > 0 {
        return InProgress;
      }
      return Complete;
    }
  }

  // The goroutines

  const CREATE_TOPIC := 2
  const CREATE_QUEUE := 3
  const BASTION_LAUNCHING := 8
  const CONSUME_SQS := 9
  const BASTION_ACTIVE := 10
  const STAGES := 11

  /** The goroutine that creates the bastion and then runs the pipeline. */
  datatype Driver =
    | Creating
    | Checking(k: nat)    // about to ask whether the launch has failed
    | Running(k: nat)     // inside stage k
    | Spawned             // both concurrent stages started
    | Aborted             // CreateBastion failed

  /** A concurrent stage. Connect has polled when it has asked whether the bastion is active and connected but has not
      yet sent the event that follows from the answer. */
  datatype Worker = Unborn | Ready | Starting | Working | Polled(found: bool) | Done

  /** `executed` lists the pipeline stages entered; `active` is, once the launch has failed, whether some other stage
      was executing when it first did; `late` counts the events handled after that. */
  datatype System = System(
    l: Shared, driver: Driver, discovery: Worker, connect: Worker, attempts: nat, published: nat,
    notified: Option<bool>,
    executed: seq<nat>, found: seq<string>, activated: bool, discovered: bool, connected: bool,
    active: Option<bool>, late: nat)

  datatype Action =
    | Create(saved: Option<string>)        // None: bastion created; Some: the error
    | Check
    | Progress                             // consumeSQS reports a message
    | Finish(result: Option<string>)       // the running pipeline stage succeeds or fails
    | Spawn
    | DiscoveryCheck | DiscoveryStart | Find(target: string) | DiscoveryEnd(result: Option<string>)
    | ConnectCheck | ConnectPoll(found: bool) | ConnectWait | ConnectEnd | ConnectTimeout
    | Publish | Notify

  function NewSystem(global: bool): System {
    System(NewShared(global), Creating, Unborn, Unborn, 1, 0, None, [], [], false, false, false, None, 0)
  }

  predicate Executing(w: Worker) {
    w.Starting? || w.Working? || w.Polled?
  }

  /** The event channel is unbuffered: a send waits until the watcher has published everything it received. */
  predicate CanEmit(s: System) {
    s.l.chanOpen ==> s.published == |s.l.sent|
  }

  predicate Enabled(s: System, a: Action) {
    s.l.panic.None? &&
    match a
    case Create(_) => s.driver.Creating? && CanEmit(s)
    case Check => s.driver.Checking? && s.driver.k < STAGES
    case Progress => s.driver == Running(CONSUME_SQS) && CanEmit(s)
    case Finish(_) => s.driver.Running? && CanEmit(s)
    case Spawn => s.driver == Checking(STAGES)
    case DiscoveryCheck => s.discovery.Ready?
    case DiscoveryStart => s.discovery.Starting? && CanEmit(s)
    case Find(_) => s.discovery.Working?
    case DiscoveryEnd(_) => s.discovery.Working? && CanEmit(s)
    case ConnectCheck => s.connect.Ready?
    case ConnectPoll(found) =>
      s.connect.Working? && s.attempts <= Connect.CONNECT_ATTEMPTS && (found ==> s.l.bastion == Some(Active))
    case ConnectWait => s.connect == Polled(false) && CanEmit(s)
    case ConnectEnd => s.connect == Polled(true) && CanEmit(s)
    case ConnectTimeout => s.connect.Working? && s.attempts > Connect.CONNECT_ATTEMPTS && CanEmit(s)
    case Publish => s.published < |s.l.sent|
    case Notify => s.published == |s.l.sent| && !s.l.chanOpen && s.notified.None?
  }

  /** One call of handleEvent; `others` is whether a stage other than the caller is executing. */
  function Emit(s: System, e: Event, others: bool): System {
    s.(l := Handle(s.l, e),
       active := if s.l.err.None? && e.err.Some? then Some(others) else s.active,
       late := if s.l.err.Some? then s.late + 1 else s.late)
  }

  function TimedOut(): Event {
    Event(Some("timed out waiting for bastion to connect"), Failed)
  }

  function Fails(s: System, err: string, others: bool): System {
    Emit(s, Event(Some(err), Failed), others)
  }

  function Reports(s: System, state: MessageState): System {
    Emit(s, Event(None, state), false)
  }

  /** What a successful pipeline stage records before its event. */
  function Recorded(l: Shared, k: nat): Shared {
    if k == CREATE_TOPIC then l.(topic := true)
    else if k == CREATE_QUEUE then l.(queue := true)
    else if k == BASTION_LAUNCHING then l.(bastion := Some(Launching))
    else if k == BASTION_ACTIVE then l.(bastion := Some(Active))
    else l
  }

  function FinishStage(s: System, k: nat, result: Option<string>): System {
    match result
    case Some(err) => Fails(s.(driver := Checking(k + 1)), err, false)
    case None =>
      var s' := s.(l := Recorded(s.l, k), driver := Checking(k + 1));
      if k == BASTION_LAUNCHING then s'
      else if k == BASTION_ACTIVE then Reports(s', Complete).(activated := true)
      else Reports(s', InProgress)
  }

  function Step(s: System, a: Action): System
    requires Enabled(s, a)
  {
    match a
    case Create(Some(err)) => Fails(s.(driver := Aborted), err, false)
    case Create(None) => Reports(s.(driver := Checking(0), l := s.l.(bastion := Some(New))), InProgress)
    case Check =>
      if s.l.err.Some? then s.(driver := Checking(s.driver.k + 1))
      else s.(driver := Running(s.driver.k), executed := s.executed + [s.driver.k])
    case Progress => Reports(s, InProgress)
    case Finish(result) => FinishStage(s, s.driver.k, result)
    case Spawn => s.(driver := Spawned, discovery := Ready, connect := Ready)
    case DiscoveryCheck => s.(discovery := if s.l.err.Some? then Done else Starting)
    case DiscoveryStart => Reports(s.(discovery := Working), InProgress)
    case Find(target) => s.(l := s.l.(targets := s.l.targets + [target]), found := s.found + [target])
    case DiscoveryEnd(None) => Reports(s.(discovery := Done), Complete).(discovered := true)
    case DiscoveryEnd(Some(err)) => Fails(s.(discovery := Done), err, Executing(s.connect))
    case ConnectCheck => s.(connect := if s.l.err.Some? then Done else Working)
    case ConnectPoll(found) => s.(connect := Polled(found))
    case ConnectWait => Reports(s.(connect := Working, attempts := s.attempts + 1), InProgress)
    case ConnectEnd => Reports(s.(connect := Done), Complete).(connected := true)
    case ConnectTimeout => Emit(s.(connect := Done), TimedOut(), Executing(s.discovery))
    case Publish => s.(published := s.published + 1)
    case Notify =>
      if s.l.bastion.None? then s.(l := s.l.(panic := Some(NilBastion)))
      else s.(notified := Some(s.l.err.Some?))
  }

  predicate Runs(s: System, acts: seq<Action>)
    decreases |acts|
  {
    acts == [] || (Enabled(s, acts[0]) && Runs(Step(s, acts[0]), acts[1..]))
  }

  function Exec(s: System, acts: seq<Action>): System
    requires Runs(s, acts)
    decreases |acts|
  {
    if acts == [] then s else Exec(Step(s, acts[0]), acts[1..])
  }

  // What every step keeps

  function Completions(s: System): nat {
    (if s.activated then 1 else 0) + (if s.discovered then 1 else 0) + (if s.connected then 1 else 0)
  }

  /** Who is where: the concurrent stages exist only after the pipeline, and a completion is a stage's last event. */
  predicate Placed(s: System) {
    && (s.discovery.Unborn? <==> !s.driver.Spawned?) && (s.connect.Unborn? <==> !s.driver.Spawned?)
    && (s.driver.Running? ==> s.driver.k < STAGES)
    && (s.driver.Checking? ==> s.driver.k <= STAGES)
    && (s.activated ==> s.driver.Spawned? || s.driver == Checking(STAGES))
    && (s.discovered ==> s.discovery.Done?)
    && (s.connected ==> s.connect.Done?)
    && !s.connect.Starting? && !s.discovery.Polled?
    && (s.l.bastion.None? <==> s.driver.Creating? || s.driver.Aborted?)
  }

  /** No failure yet: cleaned up exactly when all three completions have happened. */
  predicate Healthy(s: System) {
    && (s.driver.Spawned? || s.driver == Checking(STAGES) ==> s.activated)
    && (s.discovery.Done? ==> s.discovered) && (s.connect.Done? ==> s.connected)
    && !s.driver.Aborted?
    && s.l.cleanups == (if s.l.state == 0 then 1 else 0)
    && s.l.chanOpen == (s.l.state != 0)
    && s.active.None? && s.late == 0
    && (s.l.panic.None?)
    && s.l.drained == (if s.l.state == 0 && !s.l.global then [s.found] else [])
  }

  /** After a failure: cleaned up once for it and once for every later event, of which the second panics. */
  predicate Broken(s: System) {
    && !s.driver.Creating? && !s.driver.Running?
    && s.active.Some? && s.late <= 1 && (s.active.value ==> s.driver.Spawned?)
    && s.l.cleanups == 1 + s.late && !s.l.chanOpen
    && s.l.drained == []
    && (s.l.panic == Some(CloseOfNilChannel) <==> s.late == 1)
    && (s.l.panic == Some(NilBastion) ==> s.driver.Aborted?)
    && (if s.active.value && s.late == 0 then Executing(s.discovery) != Executing(s.connect)
        else if s.active.value then true
        else s.late == 0 && !Executing(s.discovery) && !Executing(s.connect))
  }

  predicate Inv(s: System) {
    && Placed(s)
    && s.l.state + Completions(s) == 3
    && s.l.targets == s.found
    && (if s.l.err.None? then Healthy(s) else Broken(s))
    && s.l.topicDeletes == (if s.l.topic then s.l.cleanups else 0)
    && s.l.queueDeletes == (if s.l.queue then s.l.cleanups else 0)
    && s.l.failMarks == (if s.l.err.Some? && s.l.bastion.Some? then s.l.cleanups else 0)
    && s.published <= |s.l.sent| <= s.published + 1
    && (s.notified.Some? ==>
          s.published == |s.l.sent| && !s.l.chanOpen && s.notified == Some(s.l.err.Some?) && s.l.bastion.Some?)
  }

  lemma CreationKeepsInv(s: System, saved: Option<string>)
    requires Inv(s) && Enabled(s, Create(saved))
    ensures Inv(Step(s, Create(saved)))
  {
  }

  lemma CheckKeepsInv(s: System, a: Action)
    requires Inv(s) && Enabled(s, a) && (a.Check? || a.Spawn?)
    ensures Inv(Step(s, a))
  {
  }

  lemma ReceiptKeepsInv(s: System)
    requires Inv(s) && Enabled(s, Progress)
    ensures Inv(Step(s, Progress))
  {
  }

  /** A stage that executes at all does so before any failure. */
  lemma FailureKeepsInv(s: System, s': System, err: string, others: bool)
    requires Inv(s) && s.l.panic.None? && s.l.err.None? && Healthy(s)
    requires Placed(s') && !s'.driver.Creating? && !s'.driver.Running?
    requires s' == s.(driver := s'.driver, discovery := s'.discovery, connect := s'.connect)
    requires others <==> Executing(s'.discovery) || Executing(s'.connect)
    requires s.l.state > 0 && CanEmit(s) && !(Executing(s'.discovery) && Executing(s'.connect))
    ensures Inv(Fails(s', err, others))
  {
  }

  lemma FinishKeepsInv(s: System, result: Option<string>)
    requires Inv(s) && Enabled(s, Finish(result))
    ensures Inv(Step(s, Finish(result)))
  {
    match result
    case Some(err) => FailureKeepsInv(s, s.(driver := Checking(s.driver.k + 1)), err, false);
    case None =>
      if s.driver.k == BASTION_ACTIVE {
        ActivationKeepsInv(s);
      } else {
        ProgressKeepsInv(s);
      }
  }

  lemma ActivationKeepsInv(s: System)
    requires Inv(s) && Enabled(s, Finish(None)) && s.driver.k == BASTION_ACTIVE
    ensures Inv(Step(s, Finish(None)))
  {
    assert s.l.state == 3 && s.l.err.None?;
  }

  lemma ProgressKeepsInv(s: System)
    requires Inv(s) && Enabled(s, Finish(None)) && s.driver.k != BASTION_ACTIVE
    ensures Inv(Step(s, Finish(None)))
  {
    var l := Recorded(s.l, s.driver.k);
    var s' := s.(l := l, driver := Checking(s.driver.k + 1));
    assert Inv(s') by {
      assert l == s.l.(topic := l.topic, queue := l.queue, bastion := l.bastion);
      assert s.l.state == 3 && s.l.err.None? && s.l.cleanups == 0;
    }
    ReportKeepsInv(s');
  }

  /** Reporting progress changes nothing but what was sent. */
  lemma ReportKeepsInv(s: System)
    requires Inv(s) && CanEmit(s) && s.l.state > 0 && s.l.err.None?
    ensures Inv(Reports(s, InProgress))
  {
  }

  lemma DiscoveryKeepsInv(s: System, a: Action)
    requires Inv(s) && Enabled(s, a)
    requires a.DiscoveryCheck? || a.DiscoveryStart? || a.Find?
    ensures Inv(Step(s, a))
  {
  }

  lemma DiscoverySuccessKeepsInv(s: System)
    requires Inv(s) && Enabled(s, DiscoveryEnd(None))
    ensures Inv(Step(s, DiscoveryEnd(None)))
  {
  }

  lemma DiscoveryFailureKeepsInv(s: System, err: string)
    requires Inv(s) && Enabled(s, DiscoveryEnd(Some(err)))
    ensures Inv(Step(s, DiscoveryEnd(Some(err))))
  {
  }

  lemma ConnectCheckKeepsInv(s: System)
    requires Inv(s) && Enabled(s, ConnectCheck)
    ensures Inv(Step(s, ConnectCheck))
  {
  }

  lemma ConnectPollKeepsInv(s: System, found: bool)
    requires Inv(s) && Enabled(s, ConnectPoll(found))
    ensures Inv(Step(s, ConnectPoll(found)))
  {
  }

  lemma ConnectWaitKeepsInv(s: System)
    requires Inv(s) && Enabled(s, ConnectWait)
    ensures Inv(Step(s, ConnectWait))
  {
  }

  lemma ConnectTimeoutKeepsInv(s: System)
    requires Inv(s) && Enabled(s, ConnectTimeout)
    ensures Inv(Step(s, ConnectTimeout))
  {
  }

  lemma ConnectSuccessKeepsInv(s: System)
    requires Inv(s) && Enabled(s, ConnectEnd)
    ensures Inv(Step(s, ConnectEnd))
  {
  }

  lemma WatcherKeepsInv(s: System, a: Action)
    requires Inv(s) && Enabled(s, a) && (a.Publish? || a.Notify?)
    ensures Inv(Step(s, a))
  {
  }

  lemma StepKeepsInv(s: System, a: Action)
    requires Inv(s) && Enabled(s, a)
    ensures Inv(Step(s, a))
  {
    hide Inv, Step, Enabled;
    match a
    case Create(saved) => CreationKeepsInv(s, saved);
    case Check => CheckKeepsInv(s, a);
    case Progress => ReceiptKeepsInv(s);
    case Spawn => CheckKeepsInv(s, a);
    case Finish(result) => FinishKeepsInv(s, result);
    case DiscoveryCheck => DiscoveryKeepsInv(s, a);
    case DiscoveryStart => DiscoveryKeepsInv(s, a);
    case Find(_) => DiscoveryKeepsInv(s, a);
    case DiscoveryEnd(None) => DiscoverySuccessKeepsInv(s);
    case DiscoveryEnd(Some(err)) => DiscoveryFailureKeepsInv(s, err);
    case ConnectCheck => ConnectCheckKeepsInv(s);
    case ConnectPoll(found) => ConnectPollKeepsInv(s, found);
    case ConnectWait => ConnectWaitKeepsInv(s);
    case ConnectEnd => ConnectSuccessKeepsInv(s);
    case ConnectTimeout => ConnectTimeoutKeepsInv(s);
    case Publish => WatcherKeepsInv(s, a);
    case Notify => WatcherKeepsInv(s, a);
  }

  lemma {:induction false} RunKeepsInv(s: System, acts: seq<Action>)
    requires Inv(s) && Runs(s, acts)
    ensures Inv(Exec(s, acts))
    decreases |acts|
  {
    if acts == [] {
    } else {
      StepKeepsInv(s, acts[0]);
      RunKeepsInv(Step(s, acts[0]), acts[1..]);
    }
  }

  // What happened in a run

  /** The pipeline stage in the `k`-th place was entered and succeeded. */
  predicate StageSucceeded(s: System, acts: seq<Action>, k: nat)
    requires Runs(s, acts)
    decreases |acts|
  {
    acts != [] &&
    ((s.driver == Running(k) && acts[0] == Finish(None)) || StageSucceeded(Step(s, acts[0]), acts[1..], k))
  }

  /** The bastion as a failure leaves it. */
  function MarkedFailed(bastion: Option<BastionState>): Option<BastionState> {
    if bastion.Some? then Some(FailedBastion) else None
  }

  predicate SameResources(l: Shared, l': Shared) {
    && l'.topic == l.topic && l'.queue == l.queue && (l'.bastion.Some? <==> l.bastion.Some?)
    && (l'.err.None? ==> l'.bastion == l.bastion)
    && (l'.err.Some? ==> l'.bastion == MarkedFailed(l.bastion) || (l.err.Some? && l'.bastion == l.bastion))
  }

  lemma EmitKeepsResources(s: System, e: Event, others: bool)
    ensures SameResources(s.l, Emit(s, e, others).l)
  {
  }

  /** What a successful stage leaves: the third records the topic, the fourth the queue, the ninth launches the bastion
      and the eleventh activates it. */
  lemma StageRecords(s: System, k: nat)
    ensures var l := FinishStage(s, k, None).l;
            && (l.topic <==> s.l.topic || k == 2) && (l.queue <==> s.l.queue || k == 3)
            && (l.bastion.Some? <==> s.l.bastion.Some? || k == 8 || k == 10)
            && (l.err.None? ==> l.bastion == if k == 8 then Some(Launching) else if k == 10 then Some(Active)
                                             else s.l.bastion)
            && (s.l.err.None? ==> l.err.None?)
  {
    var s' := s.(l := Recorded(s.l, k), driver := Checking(k + 1));
    EmitKeepsResources(s', Event(None, if k == 10 then Complete else InProgress), false);
    assert FinishStage(s, k, None).l == (if k == 8 then s'
                                         else Emit(s', Event(None, if k == 10 then Complete else InProgress), false)).l;
    hide Emit, FinishStage;
  }

  /** Every other step keeps what has been recorded. */
  lemma OtherStepKeepsResources(s: System, a: Action)
    requires Enabled(s, a) && !a.Create? && a != Finish(None)
    ensures SameResources(s.l, Step(s, a).l)
  {
    hide Handle, SameResources, Emit, Recorded, CleanUp;
    match a
    case Finish(Some(err)) =>
      EmitKeepsResources(s.(driver := Checking(s.driver.k + 1)), Event(Some(err), Failed), false);
    case Progress => EmitKeepsResources(s, Event(None, InProgress), false);
    case DiscoveryStart => EmitKeepsResources(s.(discovery := Working), Event(None, InProgress), false);
    case DiscoveryEnd(None) => EmitKeepsResources(s.(discovery := Done), Event(None, Complete), false);
    case DiscoveryEnd(Some(err)) =>
      EmitKeepsResources(s.(discovery := Done), Event(Some(err), Failed), Executing(s.connect));
    case ConnectWait =>
      EmitKeepsResources(s.(connect := Working, attempts := s.attempts + 1), Event(None, InProgress), false);
    case ConnectEnd => EmitKeepsResources(s.(connect := Done), Event(None, Complete), false);
    case ConnectTimeout => EmitKeepsResources(s.(connect := Done), TimedOut(), Executing(s.discovery));
    case _ => QuietStepKeepsResources(s, a);
  }

  lemma QuietStepKeepsResources(s: System, a: Action)
    requires Enabled(s, a)
    requires a.Check? || a.Spawn? || a.DiscoveryCheck? || a.Find? || a.ConnectCheck? || a.ConnectPoll? || a.Publish?
             || a.Notify?
    ensures SameResources(s.l, Step(s, a).l)
  {
  }

  lemma CreationRecords(s: System, saved: Option<string>)
    requires Enabled(s, Create(saved))
    ensures var l := Step(s, Create(saved)).l;
            && l.topic == s.l.topic && l.queue == s.l.queue
            && (l.bastion.Some? <==> s.l.bastion.Some? || saved.None?)
            && (l.err.None? ==> saved.None? && l.bastion == Some(New))
            && (l.err.Some? ==> l.bastion == if saved.None? then Some(FailedBastion) else MarkedFailed(s.l.bastion))
  {
    match saved
    case None =>
      EmitKeepsResources(s.(driver := Checking(0), l := s.l.(bastion := Some(New))), Event(None, InProgress), false);
    case Some(err) => EmitKeepsResources(s.(driver := Aborted), Event(Some(err), Failed), false);
  }

  /** What each step adds to what has been recorded. */
  lemma StepRecords(s: System, a: Action)
    requires Enabled(s, a) && (s.driver.Running? ==> s.l.bastion.Some?)
    ensures var l, l' := s.l, Step(s, a).l;
            && (l'.topic <==> l.topic || (s.driver == Running(2) && a == Finish(None)))
            && (l'.queue <==> l.queue || (s.driver == Running(3) && a == Finish(None)))
            && (l'.bastion.Some? <==> l.bastion.Some? || a == Create(None))
            && (l'.err.None? ==>
                  l'.bastion == if a == Create(None) then Some(New)
                                else if s.driver == Running(8) && a == Finish(None) then Some(Launching)
                                else if s.driver == Running(10) && a == Finish(None) then Some(Active)
                                else l.bastion)
            && (l'.err.Some? && (l.err.Some? ==> l.bastion == MarkedFailed(l.bastion) && !s.driver.Running?) ==>
                  l'.bastion == MarkedFailed(l'.bastion))
  {
    hide Emit, Recorded, FinishStage;
    match a
    case Create(saved) => CreationRecords(s, saved);
    case Finish(None) => StageRecords(s, s.driver.k);
    case _ => OtherStepKeepsResources(s, a);
  }

  lemma {:induction false} RecordedByRun(s: System, acts: seq<Action>)
    requires Inv(s) && Runs(s, acts)
    ensures Exec(s, acts).l.topic <==> s.l.topic || StageSucceeded(s, acts, 2)
    ensures Exec(s, acts).l.queue <==> s.l.queue || StageSucceeded(s, acts, 3)
    ensures Exec(s, acts).l.bastion.Some? <==> s.l.bastion.Some? || Create(None) in acts
    decreases |acts|
  {
    if acts == [] {
    } else {
      StepKeepsInv(s, acts[0]);
      assert s.driver.Running? ==> s.l.bastion.Some?;
      StepRecords(s, acts[0]);
      hide Step, Inv, Enabled;
      RecordedByRun(Step(s, acts[0]), acts[1..]);
    }
  }

  /** While nothing has failed, the bastion is active exactly when the eleventh stage succeeded. */
  lemma {:induction false} ActiveByRun(s: System, acts: seq<Action>)
    requires Inv(s) && Runs(s, acts) && Exec(s, acts).l.err.None?
    requires s.l.bastion == Some(Active) ==> s.driver.Spawned? || s.driver == Checking(11)
    ensures s.l.err.None?
    ensures Exec(s, acts).l.bastion == Some(Active) <==> s.l.bastion == Some(Active) || StageSucceeded(s, acts, 10)
    decreases |acts|
  {
    if s.l.err.Some? {
      FailureIsPermanent(s, acts);
    }
    if acts == [] {
    } else {
      var s' := Step(s, acts[0]);
      StepKeepsInv(s, acts[0]);
      StepRecords(s, acts[0]);
      DriverMoves(s, acts[0]);
      hide Step, Inv, Enabled;
      if s'.l.err.Some? {
        FailureIsPermanent(s', acts[1..]);
      }
      ActiveByRun(s', acts[1..]);
    }
  }

  /** The driver takes the stages in turn and does not come back from the last. */
  lemma DriverMoves(s: System, a: Action)
    requires Inv(s) && Enabled(s, a)
    ensures s.driver == Running(10) && a == Finish(None) ==> Step(s, a).driver == Checking(11)
    ensures s.driver.Spawned? ==> Step(s, a).driver.Spawned?
    ensures s.driver == Checking(11) ==> Step(s, a).driver == Checking(11) || Step(s, a).driver.Spawned?
    ensures a == Create(None) ==> s.driver.Creating?
  {
    hide Handle, Recorded;
  }

  lemma {:induction false} FailedByRun(s: System, acts: seq<Action>)
    requires Inv(s) && Runs(s, acts) && (s.l.err.Some? ==> s.l.bastion == MarkedFailed(s.l.bastion))
    ensures var l := Exec(s, acts).l; l.err.Some? ==> l.bastion == MarkedFailed(l.bastion)
    decreases |acts|
  {
    if acts == [] {
    } else {
      StepKeepsInv(s, acts[0]);
      StepRecords(s, acts[0]);
      hide Step, Enabled;
      FailedByRun(Step(s, acts[0]), acts[1..]);
    }
  }

  /** In every run: each cleanup has tried to delete the topic and the queue exactly when the stages creating them
      succeeded, and to mark the bastion failed exactly when CreateBastion succeeded and something else failed. */
  lemma CleanupUndoesWhatWasMade(global: bool, acts: seq<Action>)
    requires Runs(NewSystem(global), acts)
    ensures var s0, l := NewSystem(global), Exec(NewSystem(global), acts).l;
            && l.topicDeletes == (if StageSucceeded(s0, acts, 2) then l.cleanups else 0)
            && l.queueDeletes == (if StageSucceeded(s0, acts, 3) then l.cleanups else 0)
            && l.failMarks == (if l.err.Some? && Create(None) in acts then l.cleanups else 0)
            && (l.err.Some? ==> l.bastion == if Create(None) in acts then Some(FailedBastion) else None)
            && (l.err.None? ==> (l.bastion == Some(Active) <==> StageSucceeded(s0, acts, 10)))
  {
    RunKeepsInv(NewSystem(global), acts);
    RecordedByRun(NewSystem(global), acts);
    FailedByRun(NewSystem(global), acts);
    if Exec(NewSystem(global), acts).l.err.None? {
      ActiveByRun(NewSystem(global), acts);
    }
  }

  /** How many of the eleven pipeline stages the driver has left behind. */
  function Passed(d: Driver): nat {
    match d
    case Creating => 0
    case Aborted => 0
    case Checking(k) => k
    case Running(k) => k
    case Spawned => 11
  }

  /** The stages are entered one after the other, and as long as nothing fails none is left out. */
  predicate InTurn(s: System) {
    && (forall j | 0 <= j < |s.executed| :: s.executed[j] == j)
    && (s.l.err.None? ==> |s.executed| == Passed(s.driver) + if s.driver.Running? then 1 else 0)
  }

  lemma StepKeepsTurn(s: System, a: Action)
    requires Inv(s) && InTurn(s) && Enabled(s, a)
    ensures InTurn(Step(s, a))
    ensures Step(s, a).l.err.None? ==>
              Passed(Step(s, a).driver) == Passed(s.driver) + if a == Finish(None) then 1 else 0
  {
    if s.l.err.Some? {
      FailureStep(s, a);
    } else if a.Create? || a.Check? || a.Finish? || a.Spawn? {
      DriverKeepsTurn(s, a);
    } else {
      OthersKeepDriver(s, a);
    }
  }

  lemma DriverKeepsTurn(s: System, a: Action)
    requires Enabled(s, a) && InTurn(s) && s.l.err.None? && (a.Create? || a.Check? || a.Finish? || a.Spawn?)
    ensures InTurn(Step(s, a))
    ensures Step(s, a).l.err.None? ==>
              Passed(Step(s, a).driver) == Passed(s.driver) + if a == Finish(None) then 1 else 0
  {
    hide Handle, Recorded;
    match a
    case Create(None) => assert Step(s, a).driver == Checking(0);
    case Create(Some(err)) => HandleKeepsError();
    case Check => assert Step(s, a).driver == Running(s.driver.k);
    case Finish(None) => assert Step(s, a).driver == Checking(s.driver.k + 1);
    case Finish(Some(err)) => HandleKeepsError();
    case Spawn =>
  }

  lemma OthersKeepDriver(s: System, a: Action)
    requires Enabled(s, a) && !a.Create? && !a.Check? && !a.Finish? && !a.Spawn?
    ensures Step(s, a).driver == s.driver && Step(s, a).executed == s.executed
  {
    hide Handle, FinishStage;
  }

  lemma {:induction false} StagesByRun(s: System, acts: seq<Action>, j: nat)
    requires Inv(s) && InTurn(s) && Runs(s, acts)
    ensures InTurn(Exec(s, acts))
    ensures Exec(s, acts).l.err.None? && Passed(s.driver) <= j < Passed(Exec(s, acts).driver) ==>
              StageSucceeded(s, acts, j)
    decreases |acts|
  {
    if acts == [] {
    } else {
      var s' := Step(s, acts[0]);
      StepKeepsInv(s, acts[0]);
      StepKeepsTurn(s, acts[0]);
      assert acts[0] == Finish(None) ==> s.driver == Running(Passed(s.driver));
      hide Step, Inv, Enabled, InTurn;
      StagesByRun(s', acts[1..], j);
      if s'.l.err.Some? {
        FailureIsPermanent(s', acts[1..]);
      }
    }
  }

  /** In every run the stages are entered in the order of Launch, each at most once; and when the concurrent stages have
      started or the launch has completed, without a failure, all eleven have succeeded. */
  lemma StagesInTurn(global: bool, acts: seq<Action>)
    requires Runs(NewSystem(global), acts)
    ensures var s0, s := NewSystem(global), Exec(NewSystem(global), acts);
            && (forall j | 0 <= j < |s.executed| :: s.executed[j] == j) && |s.executed| <= 11
            && (s.l.err.None? && (s.driver.Spawned? || s.l.state == 0) ==>
                  forall j | 0 <= j < 11 :: StageSucceeded(s0, acts, j))
  {
    var s0 := NewSystem(global);
    RunKeepsInv(s0, acts);
    StagesByRun(s0, acts, 0);
    BoundedStages(s0, acts);
    var s := Exec(s0, acts);
    if s.l.err.None? && (s.driver.Spawned? || s.l.state == 0) {
      assert s.driver.Spawned?;
      forall j | 0 <= j < 11
        ensures StageSucceeded(s0, acts, j)
      {
        StagesByRun(s0, acts, j);
      }
    }
  }

  /** A message of the stack is reported exactly while the tenth stage runs, the nine before it having succeeded. */
  lemma ProgressInTenthStage(global: bool, acts: seq<Action>)
    requires Runs(NewSystem(global), acts)
    ensures var s0, s := NewSystem(global), Exec(NewSystem(global), acts);
            && (Enabled(s, Progress) <==>
                  s.l.panic.None? && CanEmit(s) && s.driver.Running? && |s.executed| == 10)
            && (Enabled(s, Progress) ==> forall j | 0 <= j < 9 :: StageSucceeded(s0, acts, j))
  {
    var s0 := NewSystem(global);
    RunKeepsInv(s0, acts);
    StagesByRun(s0, acts, 0);
    forall j | 0 <= j < 9 && Enabled(Exec(s0, acts), Progress)
      ensures StageSucceeded(s0, acts, j)
    {
      StagesByRun(s0, acts, j);
    }
  }

  lemma OnlyChecksEnter(s: System, a: Action)
    requires Enabled(s, a) && !a.Check?
    ensures Step(s, a).executed == s.executed
  {
    if a.Create? || a.Finish? || a.Spawn? {
      hide Handle, Recorded, Enabled;
      assert Step(s, a).executed == s.executed;
    } else {
      OthersKeepDriver(s, a);
      hide Step, Enabled;
    }
  }

  lemma {:induction false} BoundedStages(s: System, acts: seq<Action>)
    requires Inv(s) && InTurn(s) && |s.executed| <= 11 && Runs(s, acts)
    ensures |Exec(s, acts).executed| <= 11
    decreases |acts|
  {
    if acts == [] {
    } else {
      var s' := Step(s, acts[0]);
      StepKeepsInv(s, acts[0]);
      StepKeepsTurn(s, acts[0]);
      if s.l.err.Some? {
        FailureStep(s, acts[0]);
      } else if acts[0].Check? {
        assert s'.executed == s.executed + [s.driver.k];
      } else {
        OnlyChecksEnter(s, acts[0]);
      }
      hide Step, Inv, Enabled, InTurn;
      BoundedStages(s', acts[1..]);
    }
  }

  /** Hence a launch that has succeeded, or failed with no other stage executing, has tried once to delete its topic and
      its queue if and only if they were created; and a success has created both and marks nothing failed. */
  lemma SettledRunCleansUpOnce(global: bool, acts: seq<Action>)
    requires Runs(NewSystem(global), acts)
    requires var s := Exec(NewSystem(global), acts); Reported(s.l) == Complete || s.active == Some(false)
    ensures var s0, l := NewSystem(global), Exec(NewSystem(global), acts).l;
            && l.cleanups == 1
            && (l.topicDeletes == 1 <==> StageSucceeded(s0, acts, 2)) && l.topicDeletes <= 1
            && (l.queueDeletes == 1 <==> StageSucceeded(s0, acts, 3)) && l.queueDeletes <= 1
            && (l.failMarks == 1 <==> l.err.Some? && Create(None) in acts) && l.failMarks <= 1
            && (l.err.None? ==> l.topicDeletes == 1 && l.queueDeletes == 1 && l.failMarks == 0)
  {
    StagesInTurn(global, acts);
    CleanupUndoesWhatWasMade(global, acts);
    RunKeepsInv(NewSystem(global), acts);
  }

  // What the watcher receives

  /** The event that a step announces, if any. */
  function EventOf(s: System, a: Action): seq<Event> {
    match a
    case Create(None) => [Event(None, InProgress)]
    case Create(Some(err)) => [Event(Some(err), Failed)]
    case Progress => [Event(None, InProgress)]
    case Finish(Some(err)) => [Event(Some(err), Failed)]
    case Finish(None) =>
      if s.driver == Running(8) then []
      else if s.driver == Running(10) then [Event(None, Complete)]
      else [Event(None, InProgress)]
    case DiscoveryStart => [Event(None, InProgress)]
    case DiscoveryEnd(None) => [Event(None, Complete)]
    case DiscoveryEnd(Some(err)) => [Event(Some(err), Failed)]
    case ConnectWait => [Event(None, InProgress)]
    case ConnectEnd => [Event(None, Complete)]
    case ConnectTimeout => [Event(Some("timed out waiting for bastion to connect"), Failed)]
    case _ => []
  }

  /** The events announced while the channel was open. */
  function Announced(s: System, acts: seq<Action>): seq<Event>
    requires Runs(s, acts)
    decreases |acts|
  {
    if acts == [] then []
    else (if s.l.chanOpen then EventOf(s, acts[0]) else []) + Announced(Step(s, acts[0]), acts[1..])
  }

  lemma EmitSends(s: System, e: Event, others: bool)
    ensures Emit(s, e, others).l.sent == s.l.sent + if s.l.chanOpen then [e] else []
  {
  }

  lemma StageSends(s: System, k: nat)
    ensures FinishStage(s, k, None).l.sent ==
            s.l.sent + if !s.l.chanOpen || k == 8 then [] else [Event(None, if k == 10 then Complete else InProgress)]
  {
    var e, s' := Event(None, if k == 10 then Complete else InProgress),
                 s.(l := Recorded(s.l, k), driver := Checking(k + 1));
    EmitSends(s', e, false);
    assert FinishStage(s, k, None).l == (if k == 8 then s' else Emit(s', e, false)).l;
    hide Emit, FinishStage;
  }

  lemma StepSends(s: System, a: Action)
    requires Enabled(s, a)
    ensures Step(s, a).l.sent == s.l.sent + if s.l.chanOpen then EventOf(s, a) else []
  {
    if a.Create? || a.Finish? || a.Progress? {
      DriverSends(s, a);
    } else if a.DiscoveryStart? || a.DiscoveryEnd? || a.ConnectWait? || a.ConnectEnd? || a.ConnectTimeout? {
      WorkerSends(s, a);
    } else {
      QuietStepSends(s, a);
    }
    hide Step, Enabled;
  }

  lemma DriverSends(s: System, a: Action)
    requires Enabled(s, a) && (a.Create? || a.Finish? || a.Progress?)
    ensures Step(s, a).l.sent == s.l.sent + if s.l.chanOpen then EventOf(s, a) else []
  {
    hide Emit, FinishStage;
    match a
    case Create(None) =>
      EmitSends(s.(driver := Checking(0), l := s.l.(bastion := Some(New))), Event(None, InProgress), false);
    case Create(Some(err)) => EmitSends(s.(driver := Aborted), Event(Some(err), Failed), false);
    case Finish(None) => StageSends(s, s.driver.k);
    case Finish(Some(err)) => FailedStageSends(s, s.driver.k, err);
    case Progress => EmitSends(s, Event(None, InProgress), false);
  }

  lemma WorkerSends(s: System, a: Action)
    requires Enabled(s, a)
    requires a.DiscoveryStart? || a.DiscoveryEnd? || a.ConnectWait? || a.ConnectEnd? || a.ConnectTimeout?
    ensures Step(s, a).l.sent == s.l.sent + if s.l.chanOpen then EventOf(s, a) else []
  {
    hide Emit;
    match a
    case DiscoveryStart => EmitSends(s.(discovery := Working), Event(None, InProgress), false);
    case DiscoveryEnd(None) => EmitSends(s.(discovery := Done), Event(None, Complete), false);
    case DiscoveryEnd(Some(err)) =>
      EmitSends(s.(discovery := Done), Event(Some(err), Failed), Executing(s.connect));
    case ConnectWait => EmitSends(s.(connect := Working, attempts := s.attempts + 1), Event(None, InProgress), false);
    case ConnectEnd => EmitSends(s.(connect := Done), Event(None, Complete), false);
    case ConnectTimeout => EmitSends(s.(connect := Done), TimedOut(), Executing(s.discovery));
  }

  lemma FailedStageSends(s: System, k: nat, err: string)
    ensures FinishStage(s, k, Some(err)).l.sent == s.l.sent + if s.l.chanOpen then [Event(Some(err), Failed)] else []
  {
  }

  lemma QuietStepSends(s: System, a: Action)
    requires Enabled(s, a)
    requires a.Check? || a.Spawn? || a.DiscoveryCheck? || a.Find? || a.ConnectCheck? || a.ConnectPoll? || a.Publish?
             || a.Notify?
    ensures Step(s, a).l.sent == s.l.sent
  {
  }

  /** In every run the watcher receives every event announced up to the one that closes the channel, once and in order,
      and none after it. */
  lemma {:induction false} EventsAreSent(s: System, acts: seq<Action>)
    requires Runs(s, acts)
    ensures Exec(s, acts).l.sent == s.l.sent + Announced(s, acts)
    decreases |acts|
  {
    hide Step, Enabled, EventOf;
    if acts == [] {
    } else {
      var first := if s.l.chanOpen then EventOf(s, acts[0]) else [];
      StepSends(s, acts[0]);
      EventsAreSent(Step(s, acts[0]), acts[1..]);
      assert Announced(s, acts) == first + Announced(Step(s, acts[0]), acts[1..]);
    }
  }

  // Launches without an error

  /** In every run without a failure so far: the counter and the completions add up to three; cleanup has happened
      exactly when the counter is zero, once, closing the channel once; and then both concurrent stages are done and the
      one drained pool holds every discovered target (no pool is drained for the global user). */
  lemma ErrorFreeLaunch(global: bool, acts: seq<Action>)
    requires Runs(NewSystem(global), acts) && Exec(NewSystem(global), acts).l.err.None?
    ensures var s := Exec(NewSystem(global), acts);
            && 0 <= s.l.state == 3 - Completions(s)
            && s.l.panic.None?
            && s.l.cleanups == (if s.l.state == 0 then 1 else 0)
            && (s.l.chanOpen <==> s.l.state > 0)
            && (s.l.state == 0 ==>
                  s.discovery.Done? && s.connect.Done? &&
                  s.l.drained == if s.l.global then [] else [s.found])
            && (s.l.state > 0 ==> s.l.drained == [])
  {
    RunKeepsInv(NewSystem(global), acts);
  }

  /** In every run, the launch reports itself complete exactly when activation, discovery and connection have all
      succeeded and nothing has failed, and failed exactly when an error is on record. */
  lemma CompleteMeansAllDone(global: bool, acts: seq<Action>)
    requires Runs(NewSystem(global), acts)
    ensures var s := Exec(NewSystem(global), acts);
            && (Reported(s.l) == Complete <==> s.l.err.None? && s.activated && s.discovered && s.connected)
            && (Reported(s.l) == Failed <==> s.l.err.Some?)
  {
    RunKeepsInv(NewSystem(global), acts);
  }

  /** The completion that cleans up is the last event: nothing the goroutines do afterwards touches the launch. */
  lemma {:induction false} SuccessIsFinal(s: System, acts: seq<Action>)
    requires Inv(s) && s.l.err.None? && s.l.state == 0 && Runs(s, acts)
    ensures Exec(s, acts).l == s.l && Exec(s, acts).found == s.found
    decreases |acts|
  {
    if acts == [] {
    } else {
      StepKeepsInv(s, acts[0]);
      SuccessIsFinal(Step(s, acts[0]), acts[1..]);
    }
  }

  // Launches that fail

  lemma HandleKeepsError()
    ensures forall l, e :: Handle(l, e).err == if e.err.Some? then e.err else l.err
  {
  }

  lemma FailureStep(s: System, a: Action)
    requires Inv(s) && s.l.err.Some? && Enabled(s, a)
    ensures Step(s, a).l.err.Some? && Step(s, a).executed == s.executed && Step(s, a).active == s.active
  {
    hide Handle;
    HandleKeepsError();
    assert Handle(s.l, TimedOut()).err == TimedOut().err;
  }

  /** Once failed, always failed: no later pipeline stage is entered, and whether another stage was executing at the
      first failure stays on record. */
  lemma {:induction false} FailureIsPermanent(s: System, acts: seq<Action>)
    requires Inv(s) && s.l.err.Some? && Runs(s, acts)
    ensures Inv(Exec(s, acts)) && Exec(s, acts).l.err.Some?
    ensures Exec(s, acts).executed == s.executed && Exec(s, acts).active == s.active
    decreases |acts|
  {
    if acts == [] {
    } else {
      hide Step, Inv;
      StepKeepsInv(s, acts[0]);
      FailureStep(s, acts[0]);
      FailureIsPermanent(Step(s, acts[0]), acts[1..]);
    }
  }

  lemma NothingElseRuns(s: System, a: Action)
    requires Inv(s) && s.l.err.Some? && s.active == Some(false) && Enabled(s, a)
    ensures a.Check? || a.Spawn? || a.DiscoveryCheck? || a.ConnectCheck? || a.Publish? || a.Notify?
  {
    hide Step, Handle;
    assert !Executing(s.discovery) && !Executing(s.connect) && !s.driver.Running? && !s.driver.Creating?;
  }

  lemma LoneFailureStep(s: System, a: Action)
    requires Inv(s) && s.l.err.Some? && s.active == Some(false) && Enabled(s, a)
    ensures Step(s, a).l.(panic := None) == s.l
  {
    hide Step, Inv;
    NothingElseRuns(s, a);
    IdleStep(s, a);
  }

  lemma IdleStep(s: System, a: Action)
    requires Enabled(s, a) && s.l.err.Some?
    requires a.Check? || a.Spawn? || a.DiscoveryCheck? || a.ConnectCheck? || a.Publish? || a.Notify?
    ensures Step(s, a).l.(panic := None) == s.l
  {
    match a
    case Check => assert Step(s, Check).l == s.l;
    case Spawn => assert Step(s, Spawn).l == s.l;
    case DiscoveryCheck => assert Step(s, DiscoveryCheck).l == s.l;
    case ConnectCheck => assert Step(s, ConnectCheck).l == s.l;
    case Publish => assert Step(s, Publish).l == s.l;
    case Notify =>
  }

  /** A failure with no other stage executing: from then on the launch never changes again, except that the final
      notification panics when there is no bastion. It was cleaned up once, deleting the topic and the queue exactly
      when they were recorded and marking the bastion failed exactly when there is one. */
  lemma {:induction false} LoneFailureCleansUpOnce(s: System, acts: seq<Action>)
    requires Inv(s) && s.l.err.Some? && s.active == Some(false) && Runs(s, acts)
    ensures var l := Exec(s, acts).l;
            && l.(panic := s.l.panic) == s.l
            && l.cleanups == 1 && !l.chanOpen && l.drained == []
            && l.panic != Some(CloseOfNilChannel)
            && l.topicDeletes == (if l.topic then 1 else 0)
            && l.queueDeletes == (if l.queue then 1 else 0)
            && l.failMarks == (if l.bastion.Some? then 1 else 0)
    decreases |acts|
  {
    if acts == [] {
    } else {
      hide Step;
      StepKeepsInv(s, acts[0]);
      FailureStep(s, acts[0]);
      LoneFailureStep(s, acts[0]);
      LoneFailureCleansUpOnce(Step(s, acts[0]), acts[1..]);
    }
  }

  /** A failure of CreateBastion or of a pipeline stage is such a failure. */
  lemma PipelineFailuresAreLone(global: bool, acts: seq<Action>)
    requires Runs(NewSystem(global), acts)
    requires Exec(NewSystem(global), acts).l.err.Some? && !Exec(NewSystem(global), acts).driver.Spawned?
    ensures Inv(Exec(NewSystem(global), acts)) && Exec(NewSystem(global), acts).active == Some(false)
  {
    RunKeepsInv(NewSystem(global), acts);
  }

  /** Nothing is left to run, or the process has died. */
  predicate Stopped(s: System) {
    s.l.panic.Some? ||
    ((s.driver.Spawned? || s.driver.Aborted?) &&
     (s.discovery.Done? || s.discovery.Unborn?) && (s.connect.Done? || s.connect.Unborn?))
  }

  /** The action fails a stage while the other concurrent stage is past its check and not finished. */
  predicate LeavesSurvivor(s: System, a: Action) {
    (a.DiscoveryEnd? && Executing(s.connect)) || (a.ConnectTimeout? && Executing(s.discovery))
  }

  /** What the first failure of a run leads to. Cleanup is entered once for the failure and once for each event handled
      after it. A run that has stopped cleaned up exactly once if and only if the failure left no survivor; otherwise
      the survivor's next event re-entered cleanup and closing the nil channel killed the process. */
  lemma FirstFailure(global: bool, before: seq<Action>, a: Action, after: seq<Action>)
    requires Runs(NewSystem(global), before) && Exec(NewSystem(global), before).l.err.None?
    requires Enabled(Exec(NewSystem(global), before), a)
    requires Step(Exec(NewSystem(global), before), a).l.err.Some?
    requires Runs(Step(Exec(NewSystem(global), before), a), after)
    ensures var s := Exec(NewSystem(global), before);
            var end := Exec(Step(s, a), after);
            && end.l.cleanups == 1 + end.late && end.late <= 1
            && (end.late == 1 <==> end.l.panic == Some(CloseOfNilChannel))
            && (end.late == 1 ==> LeavesSurvivor(s, a))
            && (Stopped(end) ==> (end.l.cleanups == 1 <==> !LeavesSurvivor(s, a)))
  {
    hide Step;
    var s := Exec(NewSystem(global), before);
    RunKeepsInv(NewSystem(global), before);
    StepKeepsInv(s, a);
    FailureIsPermanent(Step(s, a), after);
    FirstFailureRecordsSurvivor(s, a);
    if Stopped(Exec(Step(s, a), after)) {
      StoppedFailure(Exec(Step(s, a), after));
    }
  }

  lemma StoppedFailure(s: System)
    requires Inv(s) && s.l.err.Some? && Stopped(s)
    ensures s.active.Some? && (s.l.cleanups == 1 <==> !s.active.value)
  {
    if s.l.panic.Some? {
      match s.l.panic.value
      case NilBastion =>
      case CloseOfNilChannel =>
    }
  }

  lemma FirstFailureRecordsSurvivor(s: System, a: Action)
    requires Inv(s) && s.l.err.None? && Enabled(s, a) && Step(s, a).l.err.Some?
    ensures Step(s, a).active == Some(LeavesSurvivor(s, a))
  {
    hide Handle;
    HandleKeepsError();
    assert Handle(s.l, TimedOut()).err == TimedOut().err;
  }

  // The run that dies

  /** Ready for pipeline stage `k` with no failure and nothing left to publish. */
  predicate OnTrack(s: System, k: nat) {
    && s.driver == Checking(k) && s.l.err.None? && s.l.panic.None? && s.l.chanOpen
    && s.published == |s.l.sent| && s.attempts == 1
    && (k == STAGES ==> s.l.bastion == Some(Active))
  }

  lemma {:induction false} PipelineCanSucceed(s: System, k: nat) returns (acts: seq<Action>)
    requires Inv(s) && OnTrack(s, k) && k <= STAGES
    ensures Runs(s, acts) && Inv(Exec(s, acts)) && OnTrack(Exec(s, acts), STAGES)
    decreases STAGES - k
  {
    hide Step, Inv;
    if k == STAGES {
      return [];
    }
    StageCanSucceed(s, k);
    var s2 := Step(Step(s, Check), Finish(None));
    if k == BASTION_LAUNCHING {
      acts := PipelineCanSucceed(s2, k + 1);
    } else {
      acts := PipelineCanSucceed(Step(s2, Publish), k + 1);
      acts := Prepend(s2, Publish, acts);
    }
    acts := Prepend(Step(s, Check), Finish(None), acts);
    acts := Prepend(s, Check, acts);
  }

  lemma StageCanSucceed(s: System, k: nat)
    requires Inv(s) && OnTrack(s, k) && k < STAGES
    ensures Enabled(s, Check) && Enabled(Step(s, Check), Finish(None))
    ensures var s2 := Step(Step(s, Check), Finish(None));
            if k == BASTION_LAUNCHING then Inv(s2) && OnTrack(s2, k + 1)
            else Enabled(s2, Publish) && Inv(Step(s2, Publish)) && OnTrack(Step(s2, Publish), k + 1)
  {
    assert s.l.state == 3;
    hide Step, Inv, Enabled;
    StageStaysOnTrack(s, k);
    var s1 := Step(s, Check);
    StepKeepsInv(s, Check);
    var s2 := Step(s1, Finish(None));
    StepKeepsInv(s1, Finish(None));
    if k != BASTION_LAUNCHING {
      StepKeepsInv(s2, Publish);
    }
  }

  lemma StageStaysOnTrack(s: System, k: nat)
    requires OnTrack(s, k) && s.l.state == 3 && k < STAGES
    ensures Enabled(s, Check) && Enabled(Step(s, Check), Finish(None))
    ensures var s2 := Step(Step(s, Check), Finish(None));
            if k == BASTION_LAUNCHING then OnTrack(s2, k + 1)
            else Enabled(s2, Publish) && OnTrack(Step(s2, Publish), k + 1)
  {
    hide FinishStage;
    var s1 := Step(s, Check);
    assert s1 == s.(driver := Running(k), executed := s.executed + [k]);
    assert Step(s1, Finish(None)) == FinishStage(s1, k, None);
    FinishStaysOnTrack(s1, k);
  }

  lemma FinishStaysOnTrack(s: System, k: nat)
    requires s.l.err.None? && s.l.panic.None? && s.l.chanOpen && s.l.state == 3 && k < STAGES
    requires s.published == |s.l.sent| && s.attempts == 1
    ensures var s2 := FinishStage(s, k, None);
            if k == BASTION_LAUNCHING then OnTrack(s2, k + 1)
            else s2.published < |s2.l.sent| && OnTrack(s2.(published := s2.published + 1), k + 1)
  {
    hide Reports;
    if k != BASTION_LAUNCHING {
      var recorded := s.(l := Recorded(s.l, k), driver := Checking(k + 1));
      ReportStaysOnTrack(recorded, k + 1, if k == BASTION_ACTIVE then Complete else InProgress);
    }
  }

  lemma ReportStaysOnTrack(s: System, k: nat, state: MessageState)
    requires OnTrack(s, k) && s.l.state == 3
    ensures var s' := Reports(s, state); s'.published < |s'.l.sent| && OnTrack(s'.(published := s'.published + 1), k)
  {
  }

  lemma Prepend(s: System, a: Action, acts: seq<Action>) returns (longer: seq<Action>)
    requires Enabled(s, a) && Runs(Step(s, a), acts)
    ensures Runs(s, longer) && Exec(s, longer) == Exec(Step(s, a), acts) && longer == [a] + acts
  {
    longer := [a] + acts;
    assert longer[1..] == acts;
  }

  lemma {:induction false} ExecConcat(s: System, a: seq<Action>, b: seq<Action>)
    requires Runs(s, a) && Runs(Exec(s, a), b)
    ensures Runs(s, a + b) && Exec(s, a + b) == Exec(Exec(s, a), b)
    decreases |a|
  {
    hide Step, Enabled;
    if a == [] {
      assert a + b == b;
    } else {
      ExecConcat(Step(s, a[0]), a[1..], b);
      assert (a + b)[0] == a[0] && (a + b)[1..] == a[1..] + b;
    }
  }

  /** "Cleanup exactly once on every run" is false of the code: discovery fails after connect has polled, and
      connect's next event, be it a waiting message or its completion, kills the process. */
  lemma DyingRun(global: bool, err: string, found: bool) returns (acts: seq<Action>)
    ensures Runs(NewSystem(global), acts)
    ensures Exec(NewSystem(global), acts).connected == found
    ensures Exec(NewSystem(global), acts).l.cleanups == 2
    ensures Exec(NewSystem(global), acts).l.panic == Some(CloseOfNilChannel)
  {
    var s0 := NewSystem(global);
    var s1 := Step(s0, Create(None));
    StepKeepsInv(s0, Create(None));
    var s2 := Step(s1, Publish);
    StepKeepsInv(s1, Publish);
    assert OnTrack(s2, 0);
    hide Step, Inv, Enabled, OnTrack;
    var pipeline := PipelineCanSucceed(s2, 0);
    var tail := DyingTail(Exec(s2, pipeline), err, found);
    ExecConcat(s2, pipeline, tail);
    acts := Prepend(s1, Publish, pipeline + tail);
    acts := Prepend(s0, Create(None), acts);
  }

  lemma DyingTail(s: System, err: string, found: bool) returns (acts: seq<Action>)
    requires Inv(s) && OnTrack(s, STAGES)
    ensures Runs(s, acts) && Exec(s, acts).connected == found
    ensures Exec(s, acts).l.cleanups == 2 && Exec(s, acts).l.panic == Some(CloseOfNilChannel)
  {
    hide Step, Exec, Runs, Inv;
    var start := StagesStart(s);
    var end := DyingEnd(Exec(s, start), err, found);
    ExecConcat(s, start, end);
    acts := start + end;
  }

  lemma StagesStart(s: System) returns (acts: seq<Action>)
    requires Inv(s) && OnTrack(s, STAGES)
    ensures Runs(s, acts) && BothWork(Exec(s, acts))
  {
    assert s.l.state == 2 && s.l.cleanups == 0 && !s.connected;
    var s1 := Step(s, Spawn);
    var s2 := Step(s1, DiscoveryCheck);
    var s3 := Step(s2, ConnectCheck);
    assert s3 == s.(driver := Spawned, discovery := Starting, connect := Working);
    DiscoveryStarts(s3);
    var s4 := Step(s3, DiscoveryStart);
    hide Step, Inv, BothWork;
    acts := Prepend(s4, Publish, []);
    acts := Prepend(s3, DiscoveryStart, acts);
    acts := Prepend(s2, ConnectCheck, acts);
    acts := Prepend(s1, DiscoveryCheck, acts);
    acts := Prepend(s, Spawn, acts);
  }

  lemma DiscoveryStarts(s: System)
    requires s.discovery.Starting? && s.connect.Working? && s.attempts == 1 && !s.connected
    requires s.l.bastion == Some(Active)
    requires s.l.err.None? && s.l.panic.None? && s.l.cleanups == 0 && s.l.chanOpen && s.l.state == 2 && CanEmit(s)
    ensures Enabled(s, DiscoveryStart) && Enabled(Step(s, DiscoveryStart), Publish)
    ensures BothWork(Step(Step(s, DiscoveryStart), Publish))
  {
    var s' := Step(s, DiscoveryStart);
    assert s'.l == s.l.(sent := s.l.sent + [Event(None, InProgress)]);
    assert Step(s', Publish) == s'.(published := s'.published + 1);
  }

  predicate BothWork(s: System) {
    && s.discovery.Working? && s.connect.Working? && s.attempts == 1 && !s.connected
    && s.l.bastion == Some(Active) && s.l.panic.None? && s.l.cleanups == 0 && s.l.chanOpen && CanEmit(s)
  }

  lemma DyingEnd(s: System, err: string, found: bool) returns (acts: seq<Action>)
    requires BothWork(s)
    ensures Runs(s, acts) && Exec(s, acts).connected == found
    ensures Exec(s, acts).l.cleanups == 2 && Exec(s, acts).l.panic == Some(CloseOfNilChannel)
  {
    var polled := Step(s, ConnectPoll(found));
    var last := if found then ConnectEnd else ConnectWait;
    acts := Prepend(Step(polled, DiscoveryEnd(Some(err))), last, []);
    acts := Prepend(polled, DiscoveryEnd(Some(err)), acts);
    acts := Prepend(s, ConnectPoll(found), acts);
  }

  // The watcher

  /** The final notification is sent once the channel is closed and every received event published; it says error
      exactly when the launch failed. It kills the process exactly when CreateBastion failed. */
  lemma FinalNotification(global: bool, acts: seq<Action>)
    requires Runs(NewSystem(global), acts)
    ensures var s := Exec(NewSystem(global), acts);
            && s.published <= |s.l.sent| <= s.published + 1
            && (s.notified.Some? ==>
                  s.published == |s.l.sent| && !s.l.chanOpen && s.notified.value == s.l.err.Some?)
            && (Enabled(s, Notify) ==> (Step(s, Notify).l.panic.Some? <==> s.driver.Aborted?))
  {
    RunKeepsInv(NewSystem(global), acts);
  }

  /** The process does die of it: CreateBastion fails, the watcher publishes the error and then notifies. */
  lemma NilBastionRun(global: bool, err: string) returns (acts: seq<Action>)
    ensures acts == [Create(Some(err)), Publish, Notify] && Runs(NewSystem(global), acts)
    ensures Exec(NewSystem(global), acts).l.panic == Some(NilBastion)
  {
    var s0 := NewSystem(global);
    var s1 := Step(s0, Create(Some(err)));
    var s2 := Step(s1, Publish);
    acts := Prepend(s2, Notify, []);
    acts := Prepend(s1, Publish, acts);
    acts := Prepend(s0, Create(Some(err)), acts);
  }
}
