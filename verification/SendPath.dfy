/**
 * The reliable send path of `WebChannelNatsClient`, as a state and the steps its methods take between two
 * callouts into embedder code. A step's guard says when the client may take it.
 */
module SendPath {
  import opened Options

  const MAX_UNACKED: nat := 100

  datatype Reason = Evicted | Overloaded | Closed | TerminalFailure

  datatype SendState = Queued | Sent | Accepted | Failed(reason: Reason)
  {
    /** `SEND_RANK`, with failure above everything. */
    function Rank(): nat {
      match this
      case Queued => 0
      case Sent => 1
      case Accepted => 2
      case Failed(_) => 3
    }
  }

  /** `Other` stands for the frames that are never replayed. */
  datatype Message = User(id: nat, text: string) | Other(kind: string)

  /** `serial` is the entry's identity: an id recorded again is another entry. */
  datatype Entry = Entry(id: nat, text: string, serial: nat, retryCount: nat, nextRetryAt: Option<int>, published: bool)
  {
    function ToMessage(): Message {
      User(id, text)
    }
  }

  /**
   * The message inside `seal`: recorded but not yet handed to the transport, with the session, connection and
   * mutation epoch it was recorded under and its retry deadline once it has one; or handed to the transport, and
   * settled once its ledger entry is confirmed or there is none left to confirm.
   */
  datatype Hand =
    | Idle
    | Sealing(id: nat, text: string, serial: nat, key: nat, epoch: nat, mutation: nat, at: Option<int>)
    | Raw(id: nat, serial: nat, key: nat, epoch: nat, settled: bool)

  datatype State = State(
    queue: seq<Message>,
    ledger: seq<Entry>,
    tracker: map<nat, SendState>,
    reserved: set<nat>,
    key: Option<nat>,
    epoch: nat,
    disconnected: bool,
    terminal: bool,
    draining: bool,
    stallSince: Option<int>,
    stallIssued: bool,
    mutation: nat,
    timer: Option<nat>,
    generation: nat,
    nextSerial: nat,
    nextKey: nat,
    wire: seq<Message>,
    // Bookkeeping that only the proofs read.
    born: map<nat, nat>,
    calls: nat,
    hand: Hand,
    flushed: bool,
    resultEpoch: nat,
    answers: set<(nat, bool)>
  )

  const INITIAL := State([], [], map[], {}, None, 0, false, false, false, None, false, 0, None, 0, 0, 0, [],
                         map[], 0, Idle, false, 0, {})

  // ---------------------------------------------------------------------------
  // Reading the state
  // ---------------------------------------------------------------------------

  function Ids(ledger: seq<Entry>): (ids: seq<nat>)
    ensures |ids| == |ledger|
  {
    if ledger == [] then [] else [ledger[0].id] + Ids(ledger[1..])
  }

  function UserIds(queue: seq<Message>): seq<nat> {
    if queue == [] then []
    else (if queue[0].User? then [queue[0].id] else []) + UserIds(queue[1..])
  }

  /** The user messages the client owns: the ledger in insertion order, then the queue. */
  function Pending(s: State): seq<nat> {
    Ids(s.ledger) + UserIds(s.queue)
  }

  function Messages(ledger: seq<Entry>): (messages: seq<Message>)
    ensures |messages| == |ledger|
  {
    if ledger == [] then [] else [ledger[0].ToMessage()] + Messages(ledger[1..])
  }

  /** What a result frame says of the ids it names. */
  function Named(ids: seq<nat>, accepted: bool): set<(nat, bool)> {
    set id | id in ids :: (id, accepted)
  }

  predicate InLedger(ledger: seq<Entry>, serial: nat) {
    exists i :: 0 <= i < |ledger| && ledger[i].serial == serial
  }

  predicate HasPublished(ledger: seq<Entry>) {
    exists i :: 0 <= i < |ledger| && ledger[i].published
  }

  predicate OwnsAny(ledger: seq<Entry>, ids: seq<nat>) {
    exists i :: 0 <= i < |ledger| && ledger[i].id in ids
  }

  function Without(ledger: seq<Entry>, ids: seq<nat>): seq<Entry> {
    if ledger == [] then []
    else (if ledger[0].id in ids then [] else [ledger[0]]) + Without(ledger[1..], ids)
  }

  function WithoutSerial(ledger: seq<Entry>, serial: nat): seq<Entry> {
    if ledger == [] then []
    else (if ledger[0].serial == serial then [] else [ledger[0]]) + WithoutSerial(ledger[1..], serial)
  }

  function Confirmed(ledger: seq<Entry>, serial: nat): (confirmed: seq<Entry>)
    ensures |confirmed| == |ledger|
  {
    seq(|ledger|, i requires 0 <= i < |ledger| =>
      if ledger[i].serial == serial then ledger[i].(published := true) else ledger[i])
  }

  function Scheduled(ledger: seq<Entry>, serial: nat, count: nat, at: int): (scheduled: seq<Entry>)
    ensures |scheduled| == |ledger|
  {
    seq(|ledger|, i requires 0 <= i < |ledger| =>
      if ledger[i].serial == serial then ledger[i].(retryCount := count, nextRetryAt := Some(at)) else ledger[i])
  }

  datatype Scheduling = Scheduling(id: nat, serial: nat, nextRetryAt: Option<int>, published: bool)

  function CaptureScheduling(ledger: seq<Entry>): (snapshot: seq<Scheduling>)
    ensures |snapshot| == |ledger|
  {
    seq(|ledger|, i requires 0 <= i < |ledger| =>
      Scheduling(ledger[i].id, ledger[i].serial, ledger[i].nextRetryAt, ledger[i].published))
  }

  predicate SchedulingMatches(ledger: seq<Entry>, snapshot: seq<Scheduling>) {
    && |ledger| == |snapshot|
    && forall item :: item in snapshot ==>
         exists e :: e in ledger && Scheduling(e.id, e.serial, e.nextRetryAt, e.published) == item
  }

  predicate HasDeadline(ledger: seq<Entry>) {
    exists i :: 0 <= i < |ledger| && ledger[i].nextRetryAt.Some?
  }

  /** The first entry recorded at or after `from` whose deadline has come. */
  function NextDue(ledger: seq<Entry>, from: nat, now: int): (due: Option<Entry>)
    ensures due.Some? ==> due.value in ledger && from <= due.value.serial
    ensures due.Some? ==> due.value.nextRetryAt.Some? && due.value.nextRetryAt.value <= now
  {
    if ledger == [] then None
    else if from <= ledger[0].serial && ledger[0].nextRetryAt.Some? && ledger[0].nextRetryAt.value <= now then Some(ledger[0])
    else NextDue(ledger[1..], from, now)
  }

  /** The oldest entries past the cap. */
  function Overflow(ledger: seq<Entry>): (n: nat)
    ensures n <= |ledger|
  {
    if |ledger| > MAX_UNACKED then |ledger| - MAX_UNACKED else 0
  }

  /** The session exists and has replayed the ledger. */
  predicate Replayed(s: State) {
    s.key.Some? && s.flushed
  }

  predicate Live(s: State) {
    !s.disconnected && !s.terminal
  }

  /** The fence `seal` checks after every callout before the message is on the wire. */
  predicate Fence(s: State) {
    && s.hand.Sealing? && InLedger(s.ledger, s.hand.serial)
    && s.key == Some(s.hand.key) && s.epoch == s.hand.epoch && s.mutation == s.hand.mutation
    && Live(s)
  }

  /** The fence after the transport took the message: the mutation epoch no longer matters. */
  predicate RawFence(s: State) {
    && s.hand.Raw? && InLedger(s.ledger, s.hand.serial)
    && s.key == Some(s.hand.key) && s.epoch == s.hand.epoch
    && Live(s)
  }

  /** Ids reported as queued or sent that nothing owns any more. */
  function Unsettled(s: State): set<nat> {
    set id | id in s.tracker && s.tracker[id].Rank() < 2 && id !in Pending(s)
  }

  // ---------------------------------------------------------------------------
  // Steps
  // ---------------------------------------------------------------------------

  datatype Step = Call(call: CallStep) | Seal(seal: SealStep) | Own(own: OwnStep) | Session(event: SessionStep)

  /** Sends, and what their senders are told. */
  datatype CallStep =
    | Reserve(id: nat)
    | Issue(id: nat, text: string)
    | Refuse(id: nat)
    | EnqueueOther(kind: string)
    | Answer(ids: seq<nat>, accepted: bool)
    | Advance(id: nat, to: SendState)
    | Fail(id: nat, reason: Reason)

  /** The drain loop and `seal`. */
  datatype SealStep =
    | StartDrain
    | EndDrain
    | TakeUser
    | TakeOther(sent: bool)
    | Schedule(at: int)
    | Publish
    | Requeue
    | Abandon
    | Confirm
    | Forgo
    | Finish

  /** Ownership given up, replayed or repeated. */
  datatype OwnStep =
    | OwnedResult(ids: seq<nat>)
    | Disconnect
    | Terminate
    | Flush
    | Retry(serial: nat)
    | Reschedule(serial: nat, count: nat, at: int)

  /** Steps that leave what the client owns alone. */
  datatype SessionStep =
    | Connect
    | BumpEpoch
    | DropKey
    | InstallKey
    | StartStall(at: int)
    | ResultCommit(at: int)
    | MarkRecovery
    | StallFire(now: int, timeout: nat)
    | CancelTimer
    | NextGeneration
    | InstallTimer
    | TimerFires

  predicate CanSend(s: State, id: nat) {
    id in s.reserved && id !in s.tracker
  }

  /** When the client may take the step. */
  ghost predicate Legal(s: State, step: Step) {
    match step
    case Call(call) => LegalCall(s, call)
    case Seal(seal) => LegalSeal(s, seal)
    case Own(own) => LegalOwn(s, own)
    case Session(event) => LegalEvent(s, event)
  }

  ghost predicate LegalCall(s: State, step: CallStep) {
    match step
    case Reserve(id) => id !in s.reserved && id !in s.tracker
    case Issue(id, _) => CanSend(s, id) && Live(s)
    case Refuse(id) => CanSend(s, id) && !Live(s)
    case EnqueueOther(_) => true
    case Answer(_, _) => true
    case Advance(id, to) =>
      && id in s.tracker && s.tracker[id].Rank() < to.Rank() && (to == Sent || to == Accepted)
      && (to == Sent ==> s.hand.Raw? && s.hand.id == id) && (to == Accepted ==> (id, true) in s.answers)
    case Fail(id, reason) =>
      && id in s.tracker && !s.tracker[id].Failed?
      && (if reason == Overloaded then (id, false) in s.answers else id !in Pending(s))
  }

  ghost predicate LegalSeal(s: State, step: SealStep) {
    match step
    case StartDrain => !s.draining
    case EndDrain => s.draining && s.hand.Idle? && (s.key.None? || s.queue == [])
    case TakeUser => s.draining && s.hand.Idle? && CanTake(s)
    case TakeOther(_) => s.draining && s.hand.Idle? && s.key.Some? && s.queue != [] && s.queue[0].Other?
    case Schedule(_) => Fence(s) && s.hand.at.None?
    case Publish => Fence(s) && s.hand.at.Some?
    case Requeue => CanRequeue(s)
    case Abandon => s.hand.Sealing? && (s.key.None? || !InLedger(s.ledger, s.hand.serial))
    case Confirm => RawFence(s)
    case Forgo => s.hand.Raw? && (s.key.None? || !InLedger(s.ledger, s.hand.serial))
    case Finish => CanFinish(s)
  }

  ghost predicate LegalOwn(s: State, step: OwnStep) {
    match step
    case OwnedResult(ids) => OwnsAny(s.ledger, ids)
    case Disconnect => true
    case Terminate => true
    case Flush => s.hand.Idle? && s.key.Some? && !s.flushed && Live(s)
    case Retry(serial) => s.hand.Idle? && Replayed(s) && Live(s) && InLedger(s.ledger, serial)
    case Reschedule(serial, _, _) => s.hand.Idle?
  }

  ghost predicate LegalEvent(s: State, event: SessionStep) {
    match event
    case Connect => !s.terminal
    case BumpEpoch => true
    case DropKey => true
    case InstallKey => s.hand.Idle? && s.key.None? && Live(s)
    case StartStall(_) => RawFence(s) && s.stallSince.None? && !s.stallIssued
    case ResultCommit(_) => s.key.Some? && Live(s) && HasPublished(s.ledger) && s.mutation == s.resultEpoch
    case MarkRecovery => Live(s) && HasPublished(s.ledger) && !s.stallIssued
    case StallFire(now, timeout) =>
      && s.key.Some? && Live(s) && s.ledger != [] && timeout > 0
      && s.stallSince.Some? && !s.stallIssued && now - s.stallSince.value >= timeout
    case CancelTimer => true
    case NextGeneration => s.timer.None?
    case InstallTimer => s.timer.None? && s.key.Some? && Live(s)
    case TimerFires => s.timer.Some?
  }

  /** The taken message goes back in front: only an owned result for another message got in between. */
  ghost predicate CanRequeue(s: State) {
    && s.hand.Sealing? && InLedger(s.ledger, s.hand.serial)
    && s.key == Some(s.hand.key) && s.epoch == s.hand.epoch && s.mutation != s.hand.mutation
    && Live(s) && s.hand.at.None?
  }

  /** A published message is reported, and confirmed if its session still owns it. */
  predicate CanFinish(s: State) {
    s.hand.Raw? && s.hand.settled && (s.hand.id in s.tracker ==> s.tracker[s.hand.id] != Queued)
  }

  function Apply(s: State, step: Step): State {
    match step
    case Call(call) => ApplyCall(s, call)
    case Seal(seal) => ApplySeal(s, seal)
    case Own(own) => ApplyOwn(s, own)
    case Session(event) => ApplyEvent(s, event)
  }

  function ApplyCall(s: State, step: CallStep): State {
    match step
    case Reserve(id) => s.(reserved := s.reserved + {id})
    case Issue(id, text) =>
      s.(reserved := s.reserved - {id}, tracker := s.tracker[id := Queued], queue := s.queue + [User(id, text)],
         born := s.born[id := s.calls], calls := s.calls + 1)
    case Refuse(id) => s.(reserved := s.reserved - {id}, tracker := s.tracker[id := Queued])
    case EnqueueOther(kind) => s.(queue := s.queue + [Other(kind)])
    case Answer(ids, accepted) => s.(answers := s.answers + Named(ids, accepted))
    case Advance(id, to) => s.(tracker := s.tracker[id := to])
    case Fail(id, reason) => s.(tracker := s.tracker[id := Failed(reason)])
  }

  function ApplySeal(s: State, step: SealStep): State {
    match step
    case StartDrain => s.(draining := true)
    case EndDrain => s.(draining := false)
    case TakeUser => if CanTake(s) then Take(s) else s
    case TakeOther(sent) =>
      if s.queue == [] then s
      else s.(queue := s.queue[1..], wire := if sent then s.wire + [s.queue[0]] else s.wire)
    case Abandon => s.(hand := Idle)
    case Finish => s.(hand := Idle)
    case _ => if s.hand.Sealing? then SealMoved(s, step) else if s.hand.Raw? then RawMoved(s, step) else s
  }

  /** What becomes of a message being sealed. */
  function SealMoved(s: State, step: SealStep): State
    requires s.hand.Sealing?
  {
    match step
    case Schedule(at) => s.(ledger := Scheduled(s.ledger, s.hand.serial, 0, at), hand := s.hand.(at := Some(at)))
    case Publish =>
      s.(wire := s.wire + [User(s.hand.id, s.hand.text)],
         hand := Raw(s.hand.id, s.hand.serial, s.hand.key, s.hand.epoch, false))
    case Requeue =>
      s.(ledger := WithoutSerial(s.ledger, s.hand.serial), queue := [User(s.hand.id, s.hand.text)] + s.queue, hand := Idle)
    case _ => s
  }

  /** What becomes of a message the transport took. */
  function RawMoved(s: State, step: SealStep): State
    requires s.hand.Raw?
  {
    match step
    case Confirm => s.(ledger := Confirmed(s.ledger, s.hand.serial), hand := s.hand.(settled := true))
    case Forgo => s.(hand := s.hand.(settled := true))
    case _ => s
  }

  function ApplyOwn(s: State, step: OwnStep): State {
    match step
    case OwnedResult(ids) => AfterResult(s, Without(s.ledger, ids))
    case Disconnect => Closing(s)
    case Terminate => Dying(s)
    case Flush => s.(queue := Messages(s.ledger) + s.queue, ledger := [], flushed := true)
    case Retry(serial) => s.(wire := s.wire + MessageOf(s.ledger, serial))
    case Reschedule(serial, count, at) => s.(ledger := Scheduled(s.ledger, serial, count, at))
  }

  function ApplyEvent(s: State, event: SessionStep): State {
    match event
    case Connect => s.(disconnected := false)
    case BumpEpoch => s.(epoch := s.epoch + 1)
    case DropKey => s.(key := None)
    case InstallKey => s.(key := Some(s.nextKey), nextKey := s.nextKey + 1, flushed := false)
    case _ => if MovesInterval(event) then IntervalMoved(s, event) else TimerMoved(s, event)
  }

  predicate MovesInterval(event: SessionStep) {
    event.StartStall? || event.ResultCommit? || event.MarkRecovery? || event.StallFire?
  }

  /** An interval starts, or its allowance is spent. */
  function IntervalMoved(s: State, event: SessionStep): State {
    s.(mutation := s.mutation + 1, stallSince := StartedAt(s, event), stallIssued := event.MarkRecovery? || event.StallFire?)
  }

  function StartedAt(s: State, event: SessionStep): Option<int> {
    match event
    case StartStall(at) => Some(at)
    case ResultCommit(at) => Some(at)
    case _ => s.stallSince
  }

  /** Cancelling a timer and its firing both retire its generation. */
  function TimerMoved(s: State, event: SessionStep): State {
    if event.InstallTimer? then s.(timer := Some(s.generation))
    else s.(generation := s.generation + 1, timer := if event.NextGeneration? then s.timer else None)
  }

  predicate CanTake(s: State) {
    s.key.Some? && s.queue != [] && s.queue[0].User?
  }

  function Recorded(ledger: seq<Entry>, m: Message, serial: nat): seq<Entry>
    requires m.User?
  {
    ledger + [Entry(m.id, m.text, serial, 0, None, false)]
  }

  /** Shift the head, record it, and evict the oldest entries past the cap. */
  function Take(s: State): State
    requires CanTake(s)
  {
    var m := s.queue[0];
    var recorded := Recorded(s.ledger, m, s.nextSerial);
    s.(queue := s.queue[1..], ledger := recorded[Overflow(recorded)..], nextSerial := s.nextSerial + 1,
       hand := Sealing(m.id, m.text, s.nextSerial, s.key.value, s.epoch, s.mutation, None))
  }

  function AfterResult(s: State, ledger: seq<Entry>): State {
    var t := s.(ledger := ledger, mutation := s.mutation + 1, resultEpoch := s.mutation + 1);
    if HasPublished(ledger) then t else t.(stallSince := None, stallIssued := false)
  }

  /** Everything the client owns is detached at once, and its stall interval ends. */
  function Swept(s: State): State {
    s.(queue := [], ledger := [], mutation := s.mutation + 1, stallSince := None, stallIssued := false)
  }

  function Closing(s: State): State {
    Swept(s.(epoch := s.epoch + 1, disconnected := true))
  }

  function Dying(s: State): State {
    Swept(s.(terminal := true))
  }

  function MessageOf(ledger: seq<Entry>, serial: nat): seq<Message> {
    if ledger == [] then []
    else if ledger[0].serial == serial then [ledger[0].ToMessage()]
    else MessageOf(ledger[1..], serial)
  }

  function Run(steps: seq<Step>): State {
    if steps == [] then INITIAL else Apply(Run(steps[..|steps| - 1]), steps[|steps| - 1])
  }

  ghost predicate LegalRun(steps: seq<Step>) {
    steps == [] || (LegalRun(steps[..|steps| - 1]) && Legal(Run(steps[..|steps| - 1]), steps[|steps| - 1]))
  }

  lemma Extend(steps: seq<Step>, step: Step)
    requires LegalRun(steps) && Legal(Run(steps), step)
    ensures LegalRun(steps + [step]) && Run(steps + [step]) == Apply(Run(steps), step)
  {
    assert (steps + [step])[..|steps|] == steps;
  }
}
