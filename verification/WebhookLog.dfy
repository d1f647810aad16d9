/**
 * The webhook event log under any number of interleaved deliveries and replays. Every call to the log table is
 * one step, and so is a whole dispatch.
 */
module WebhookLog {
  import opened Model
  import opened Snapshots
  import opened Handlers
  import opened HandlerReplay

  datatype EventStatus = Received | Processed | Failed | Ignored

  /** `Raw` stands in for an event that carried no data. */
  datatype Payload =
    | Stored(id: string, eventType: string, apiVersion: Option<string>, livemode: bool, created: Option<int>,
             request: Option<string>, data: EventObject)
    | Raw(raw: string)

  datatype LogRow = LogRow(
    stripeEventId: string, eventType: string, apiVersion: Option<string>, livemode: bool, status: EventStatus,
    attempts: nat, payload: Payload, errorMessage: Option<string>, receivedAt: Time, processedAt: Option<Time>)

  // ---- Storing an event and reading it back ----

  function Serialize(e: Event, rawBody: string): Payload {
    if e.data.Some?
    then Stored(e.id, e.eventType, e.apiVersion, OrElse(e.livemode, false), e.created, e.request, e.data.value)
    else Raw(rawBody)
  }

  function Reconstruct(payload: Payload): Option<Event> {
    match payload
    case Raw(_) => None
    case Stored(id, eventType, apiVersion, livemode, created, request, data) =>
      if id == "" || eventType == "" then None
      else Some(Event(id, eventType, apiVersion, Some(livemode), created, Some(data), request))
  }

  /** A stored event comes back exactly when it had an id, a type and data, and then dispatches as the original. */
  lemma StoredEventsDispatchAlike(e: Event, rawBody: string, db: Db, now: Time)
    ensures var back := Reconstruct(Serialize(e, rawBody));
            && (back.Some? <==> e.id != "" && e.eventType != "" && e.data.Some?)
            && (back.Some? ==> Dispatch(db, back.value, now) == Dispatch(db, e, now) &&
                               back.value == e.(livemode := Some(OrElse(e.livemode, false))))
  {
  }

  // ---- Calls in flight ----

  datatype Task = Deliver(event: Event, rawBody: string) | Replay(row: nat)

  /** `Raised`: the call threw. No handler throws the one error `receiveEvent` would answer instead of rethrowing. */
  datatype Reply = Duplicate(original: EventStatus) | Done(outcome: Outcome) | Raised | Malformed | NoSuchRow

  datatype Phase =
    | Arrived
    | Missed                                                // looked the event up in vain, about to insert its row
    | Ready(at: nat, event: Event)                          // about to dispatch the event of row `at`
    | Finished(at: nat, outcome: Outcome, message: string)  // dispatched, about to mark the row
    | Counted(at: nat, message: string)                     // counted a failed attempt, about to mark the row failed
    | Answered(reply: Reply)

  datatype Call = Call(task: Task, phase: Phase)

  datatype Mark = Mark(at: nat, status: EventStatus)

  /** `dispatched` and `marks` are the history: deliveries that reached dispatch, and statuses set on rows. */
  datatype Log = Log(db: Db, rows: seq<LogRow>, calls: seq<Call>, dispatched: seq<nat>, marks: seq<Mark>)

  /** `outage` makes a dispatch fail before its first write; `message` is what a failing handler reports. */
  datatype Step = Arrive(task: Task) | Advance(c: nat, now: Time, outage: bool, message: string)

  function RowOf(rows: seq<LogRow>, stripeEventId: string): (i: nat)
    ensures i <= |rows|
    ensures i < |rows| ==> rows[i].stripeEventId == stripeEventId
    ensures forall k | 0 <= k < i :: rows[k].stripeEventId != stripeEventId
  {
    if rows == [] || rows[0].stripeEventId == stripeEventId then 0 else 1 + RowOf(rows[1..], stripeEventId)
  }

  const REPLAY_REFUSED: string := "Cannot replay: stored payload is missing required fields"

  const MAX_MESSAGE: nat := 4000

  /** A delivery whose dispatch failed throws; a replay answers with the failure. */
  function ReplyFor(task: Task, outcome: Outcome): Reply {
    if outcome.Threw? && task.Deliver? then Raised else Done(outcome)
  }

  function Clip(message: string): string {
    if |message| <= MAX_MESSAGE then message else message[..MAX_MESSAGE]
  }

  function NewRow(e: Event, rawBody: string, now: Time): LogRow {
    LogRow(e.id, e.eventType, e.apiVersion, OrElse(e.livemode, false), Received, 0, Serialize(e, rawBody), None,
           OrElse(EpochToTime(e.created), now), None)
  }

  function StatusOf(outcome: Outcome): EventStatus {
    match outcome case Processed => EventStatus.Processed case Ignored => EventStatus.Ignored case Threw => EventStatus.Failed
  }

  function MarkedDone(row: LogRow, outcome: Outcome, now: Time): LogRow {
    row.(status := StatusOf(outcome), processedAt := Some(now), errorMessage := None)
  }

  function MarkedFailed(row: LogRow, message: string): LogRow {
    row.(status := EventStatus.Failed, errorMessage := Some(Clip(message)))
  }

  /** The first database call: a delivery looks its event up, a replay loads its row. */
  function Opening(rows: seq<LogRow>, task: Task): Phase {
    match task
    case Deliver(e, _) =>
      if e.id == "" || e.eventType == "" then Answered(Malformed)
      else
        var i := RowOf(rows, e.id);
        if i < |rows| then Answered(Duplicate(rows[i].status)) else Missed
    case Replay(at) =>
      if at >= |rows| then Answered(NoSuchRow)
      else
        var back := Reconstruct(rows[at].payload);
        if back.None? then Finished(at, Threw, REPLAY_REFUSED) else Ready(at, back.value)
  }

  /** What one step of a call does: its next phase, the log table, whether it dispatched as a delivery, its marks. */
  datatype Move = Move(phase: Phase, rows: seq<LogRow>, dispatches: bool, marks: seq<Mark>)

  function Stay(p: Phase, rows: seq<LogRow>): Move { Move(p, rows, false, []) }

  /** `result` is what dispatching comes to, should this be the step that does it. */
  function MoveOf(rows: seq<LogRow>, call: Call, result: Outcome, now: Time, message: string): Move {
    match call.phase
    case Arrived => Stay(Opening(rows, call.task), rows)
    case Missed =>
      if call.task.Replay? then Stay(call.phase, rows)
      else if RowOf(rows, call.task.event.id) < |rows| then Stay(Answered(Duplicate(Received)), rows)
      else Stay(Ready(|rows|, call.task.event), rows + [NewRow(call.task.event, call.task.rawBody, now)])
    case Ready(at, e) => Move(Finished(at, result, message), rows, call.task.Deliver?, [])
    case Finished(at, outcome, text) =>
      if at >= |rows| then Stay(call.phase, rows)
      else if outcome.Threw? then Stay(Counted(at, text), rows[at := rows[at].(attempts := rows[at].attempts + 1)])
      else Move(Answered(ReplyFor(call.task, outcome)), rows[at := MarkedDone(rows[at], outcome, now)], false, [Mark(at, StatusOf(outcome))])
    case Counted(at, text) =>
      if at >= |rows| then Stay(call.phase, rows)
      else Move(Answered(ReplyFor(call.task, Threw)), rows[at := MarkedFailed(rows[at], text)], false, [Mark(at, EventStatus.Failed)])
    case Answered(_) => Stay(call.phase, rows)
  }

  function ResultFor(db: Db, call: Call, now: Time, outage: bool): Result {
    if !call.phase.Ready? then Result(db, Outcome.Ignored)
    else if outage then Result(db, Threw)
    else Dispatch(db, call.phase.event, now)
  }

  function Moved(s: Log, c: nat, db: Db, m: Move): Log
    requires c < |s.calls|
  {
    Log(db, m.rows, s.calls[c := s.calls[c].(phase := m.phase)],
        if m.dispatches then s.dispatched + [c] else s.dispatched, s.marks + m.marks)
  }

  function Apply(s: Log, step: Step): Log {
    match step
    case Arrive(task) => s.(calls := s.calls + [Call(task, Arrived)])
    case Advance(c, now, outage, message) =>
      if c >= |s.calls| then s
      else
        var result := ResultFor(s.db, s.calls[c], now, outage);
        Moved(s, c, result.db, MoveOf(s.rows, s.calls[c], result.outcome, now, message))
  }

  function Run(s: Log, steps: seq<Step>): Log {
    if steps == [] then s else Apply(Run(s, steps[..|steps| - 1]), steps[|steps| - 1])
  }

  /** An empty log over any billing database. */
  predicate Init(s: Log) { s.rows == [] && s.calls == [] && s.dispatched == [] && s.marks == [] }

  // ---- At most one delivery of an event is dispatched ----

  /** This delivery inserted its event's row. */
  predicate Won(call: Call) {
    call.task.Deliver? &&
    (call.phase.Ready? || call.phase.Finished? || call.phase.Counted? ||
     (call.phase.Answered? && (call.phase.reply.Done? || call.phase.reply.Raised?)))
  }

  predicate UniqueRows(rows: seq<LogRow>) {
    forall i, j | 0 <= i < j < |rows| :: rows[i].stripeEventId != rows[j].stripeEventId
  }

  predicate CallConsistent(rows: seq<LogRow>, call: Call) {
    (call.phase.Missed? ==> call.task.Deliver? && call.task.event.id != "" && call.task.event.eventType != "") &&
    (Won(call) ==>
      var i := RowOf(rows, call.task.event.id);
      i < |rows| && rows[i].payload == Serialize(call.task.event, call.task.rawBody)) &&
    (match call.phase
     case Ready(at, e) =>
       at < |rows| && (if call.task.Deliver? then e == call.task.event && at == RowOf(rows, e.id)
                       else Reconstruct(rows[at].payload) == Some(e))
     case Finished(at, _, _) => at < |rows|
     case Counted(at, _) => at < |rows|
     case Answered(reply) =>
       reply.Duplicate? ==> call.task.Deliver? && RowOf(rows, call.task.event.id) < |rows|
     case _ => true)
  }

  predicate OneWinnerEach(calls: seq<Call>) {
    forall c, d | 0 <= c < d < |calls| && Won(calls[c]) && Won(calls[d]) ::
      calls[c].task.event.id != calls[d].task.event.id
  }

  predicate DispatchedByWinners(s: Log) {
    (forall k | 0 <= k < |s.dispatched| ::
       var c := s.dispatched[k];
       c < |s.calls| && Won(s.calls[c]) && !s.calls[c].phase.Ready?) &&
    (forall k, l | 0 <= k < l < |s.dispatched| :: s.dispatched[k] != s.dispatched[l])
  }

  predicate Exclusive(s: Log) {
    UniqueRows(s.rows) && OneWinnerEach(s.calls) && DispatchedByWinners(s) &&
    forall c | 0 <= c < |s.calls| :: CallConsistent(s.rows, s.calls[c])
  }

  /** Rows keep their place, event id and payload. */
  predicate Extends(a: seq<LogRow>, b: seq<LogRow>) {
    |a| <= |b| && forall i | 0 <= i < |a| :: b[i].stripeEventId == a[i].stripeEventId && b[i].payload == a[i].payload
  }

  lemma ConsistentAfter(a: seq<LogRow>, b: seq<LogRow>, call: Call)
    requires Extends(a, b) && CallConsistent(a, call)
    ensures CallConsistent(b, call)
  {
    if call.task.Deliver? {
      var i, j := RowOf(a, call.task.event.id), RowOf(b, call.task.event.id);
      if i < |a| {
        assert b[i].stripeEventId == call.task.event.id;
        assert j <= i;
        assert b[j].stripeEventId == a[j].stripeEventId;
      }
    }
  }

  lemma MoveKeepsRows(rows: seq<LogRow>, call: Call, result: Outcome, now: Time, message: string)
    requires UniqueRows(rows)
    ensures var m := MoveOf(rows, call, result, now, message);
            Extends(rows, m.rows) && UniqueRows(m.rows)
  {
  }

  /** A delivery becomes the winner of its event only while the event has no row, and stays it. */
  lemma MoveKeepsWinner(rows: seq<LogRow>, call: Call, result: Outcome, now: Time, message: string)
    requires CallConsistent(rows, call)
    ensures var m := MoveOf(rows, call, result, now, message);
            var next := call.(phase := m.phase);
            && (Won(call) ==> Won(next) && (next.phase.Ready? ==> call.phase.Ready?))
            && (Won(next) && !Won(call) ==> RowOf(rows, call.task.event.id) == |rows|)
            && (m.dispatches ==> Won(call) && call.phase.Ready? && !next.phase.Ready?)
  {
  }

  lemma MoveKeepsConsistent(rows: seq<LogRow>, call: Call, result: Outcome, now: Time, message: string)
    requires UniqueRows(rows) && CallConsistent(rows, call)
    ensures CallConsistent(MoveOf(rows, call, result, now, message).rows,
                           call.(phase := MoveOf(rows, call, result, now, message).phase))
  {
    var m := MoveOf(rows, call, result, now, message);
    MoveKeepsRows(rows, call, result, now, message);
    if !call.phase.Arrived? { ConsistentAfter(rows, m.rows, call); }
    if call.phase.Missed? && |m.rows| > |rows| {
      assert m.rows[|rows|].stripeEventId == call.task.event.id;
      assert forall k | 0 <= k < |rows| :: m.rows[k] == rows[k];
    }
  }

  lemma MovedKeepsCalls(s: Log, c: nat, db: Db, m: Move)
    requires Exclusive(s) && c < |s.calls|
    requires Extends(s.rows, m.rows) && CallConsistent(m.rows, s.calls[c].(phase := m.phase))
    ensures forall d | 0 <= d < |s.calls| :: CallConsistent(m.rows, Moved(s, c, db, m).calls[d])
  {
    forall d | 0 <= d < |s.calls| ensures CallConsistent(m.rows, Moved(s, c, db, m).calls[d]) {
      if d != c { ConsistentAfter(s.rows, m.rows, s.calls[d]); }
    }
  }

  lemma MovedKeepsWinners(s: Log, c: nat, db: Db, m: Move)
    requires Exclusive(s) && c < |s.calls|
    requires Won(s.calls[c].(phase := m.phase)) && !Won(s.calls[c]) ==> RowOf(s.rows, s.calls[c].task.event.id) == |s.rows|
    ensures OneWinnerEach(Moved(s, c, db, m).calls)
  {
    var calls := Moved(s, c, db, m).calls;
    forall d | 0 <= d < |calls| && d != c && Won(calls[d]) && Won(calls[c])
      ensures calls[d].task.event.id != calls[c].task.event.id
    {
      assert CallConsistent(s.rows, s.calls[d]);
    }
  }

  lemma MovedKeepsDispatched(s: Log, c: nat, db: Db, m: Move)
    requires Exclusive(s) && c < |s.calls|
    requires var next := s.calls[c].(phase := m.phase);
             && (Won(s.calls[c]) ==> Won(next) && (next.phase.Ready? ==> s.calls[c].phase.Ready?))
             && (m.dispatches ==> Won(s.calls[c]) && s.calls[c].phase.Ready? && !next.phase.Ready?)
    ensures DispatchedByWinners(Moved(s, c, db, m))
  {
    var t := Moved(s, c, db, m);
    forall k | 0 <= k < |t.dispatched|
      ensures t.dispatched[k] < |t.calls| && Won(t.calls[t.dispatched[k]]) && !t.calls[t.dispatched[k]].phase.Ready?
    {
      assert k < |s.dispatched| ==> t.dispatched[k] == s.dispatched[k];
    }
  }

  lemma ApplyKeepsExclusive(s: Log, step: Step)
    requires Exclusive(s)
    ensures Exclusive(Apply(s, step))
  {
    if step.Advance? && step.c < |s.calls| {
      var result := ResultFor(s.db, s.calls[step.c], step.now, step.outage);
      var m := MoveOf(s.rows, s.calls[step.c], result.outcome, step.now, step.message);
      MoveKeepsRows(s.rows, s.calls[step.c], result.outcome, step.now, step.message);
      MoveKeepsWinner(s.rows, s.calls[step.c], result.outcome, step.now, step.message);
      MoveKeepsConsistent(s.rows, s.calls[step.c], result.outcome, step.now, step.message);
      MovedKeepsCalls(s, step.c, result.db, m);
      MovedKeepsWinners(s, step.c, result.db, m);
      MovedKeepsDispatched(s, step.c, result.db, m);
    }
  }

  lemma {:induction false} RunKeepsExclusive(s: Log, steps: seq<Step>)
    requires Init(s)
    ensures Exclusive(Run(s, steps))
  {
    if steps != [] {
      RunKeepsExclusive(s, steps[..|steps| - 1]);
      ApplyKeepsExclusive(Run(s, steps[..|steps| - 1]), steps[|steps| - 1]);
    }
  }

  /**
   * However deliveries and replays interleave, no two deliveries of one Stripe event are dispatched, and each
   * one that is dispatched is the one whose payload the event's row holds.
   */
  lemma DispatchedAtMostOnce(s: Log, steps: seq<Step>, k: nat)
    requires Init(s) && k < |Run(s, steps).dispatched|
    ensures Run(s, steps).dispatched[k] < |Run(s, steps).calls|
    ensures var r := Run(s, steps);
            var call := r.calls[r.dispatched[k]];
            && call.task.Deliver?
            && RowOf(r.rows, call.task.event.id) < |r.rows|
            && r.rows[RowOf(r.rows, call.task.event.id)].payload == Serialize(call.task.event, call.task.rawBody)
            && forall l | 0 <= l < |r.dispatched| && l != k ::
                 r.dispatched[l] < |r.calls| && r.calls[r.dispatched[l]].task.Deliver? &&
                 r.calls[r.dispatched[l]].task.event.id != call.task.event.id
  {
    RunKeepsExclusive(s, steps);
    var r := Run(s, steps);
    assert CallConsistent(r.rows, r.calls[r.dispatched[k]]);
    forall l | 0 <= l < |r.dispatched| && l != k
      ensures r.calls[r.dispatched[l]].task.event.id != r.calls[r.dispatched[k]].task.event.id
    {
      assert r.dispatched[l] != r.dispatched[k];
    }
  }

  // ---- How a delivery ends ----

  predicate WellFormedEvent(e: Event) { e.id != "" && e.eventType != "" }

  /** A delivery is told its event is malformed exactly when it is, and only a well-formed one gets any further. */
  predicate ProperlyAnswered(call: Call) {
    call.task.Deliver? ==>
      match call.phase
      case Arrived => true
      case Answered(reply) => (reply.Malformed? <==> !WellFormedEvent(call.task.event)) && !reply.NoSuchRow?
      case _ => WellFormedEvent(call.task.event)
  }

  lemma MoveAnswersProperly(rows: seq<LogRow>, call: Call, result: Outcome, now: Time, message: string)
    requires ProperlyAnswered(call)
    ensures ProperlyAnswered(call.(phase := MoveOf(rows, call, result, now, message).phase))
  {
  }

  /** Every row was inserted by some delivery of its event. */
  predicate RowsHaveWinners(rows: seq<LogRow>, calls: seq<Call>) {
    forall i | 0 <= i < |rows| :: HasWinner(rows[i].stripeEventId, calls)
  }

  predicate HasWinner(stripeEventId: string, calls: seq<Call>) {
    exists c | 0 <= c < |calls| :: Won(calls[c]) && calls[c].task.event.id == stripeEventId
  }

  /** A step's new row is its own call's; the other rows are the same events'. */
  lemma MoveInsertsOwnRow(rows: seq<LogRow>, call: Call, result: Outcome, now: Time, message: string)
    ensures var m := MoveOf(rows, call, result, now, message);
            && |rows| <= |m.rows| <= |rows| + 1
            && (forall i | 0 <= i < |rows| :: m.rows[i].stripeEventId == rows[i].stripeEventId)
            && (|m.rows| > |rows| ==> Won(call.(phase := m.phase)) && m.rows[|rows|].stripeEventId == call.task.event.id)
  {
  }

  lemma WinnersStay(s: Log, c: nat, call: Call, stripeEventId: string)
    requires c < |s.calls| && call.task == s.calls[c].task && (Won(s.calls[c]) ==> Won(call)) && HasWinner(stripeEventId, s.calls)
    ensures HasWinner(stripeEventId, s.calls[c := call])
  {
    var d :| 0 <= d < |s.calls| && Won(s.calls[d]) && s.calls[d].task.event.id == stripeEventId;
    var calls := s.calls[c := call];
    assert Won(calls[d]) && calls[d].task.event.id == stripeEventId;
  }

  lemma MovedKeepsRowWinners(s: Log, c: nat, db: Db, m: Move)
    requires c < |s.calls| && RowsHaveWinners(s.rows, s.calls) && |s.rows| <= |m.rows| <= |s.rows| + 1
    requires Won(s.calls[c]) ==> Won(s.calls[c].(phase := m.phase))
    requires forall i | 0 <= i < |s.rows| :: m.rows[i].stripeEventId == s.rows[i].stripeEventId
    requires |m.rows| > |s.rows| ==>
      Won(s.calls[c].(phase := m.phase)) && m.rows[|s.rows|].stripeEventId == s.calls[c].task.event.id
    ensures RowsHaveWinners(m.rows, Moved(s, c, db, m).calls)
  {
    var calls := Moved(s, c, db, m).calls;
    forall i | 0 <= i < |m.rows| ensures HasWinner(m.rows[i].stripeEventId, calls) {
      if i < |s.rows| {
        WinnersStay(s, c, calls[c], s.rows[i].stripeEventId);
      } else {
        assert Won(calls[c]) && calls[c].task.event.id == m.rows[i].stripeEventId;
      }
    }
  }

  lemma AdvanceKeepsWinnersAndAnswers(s: Log, c: nat, now: Time, outage: bool, message: string)
    requires Exclusive(s) && c < |s.calls| && RowsHaveWinners(s.rows, s.calls)
    requires forall d | 0 <= d < |s.calls| :: ProperlyAnswered(s.calls[d])
    ensures var t := Apply(s, Advance(c, now, outage, message));
            RowsHaveWinners(t.rows, t.calls) && forall d | 0 <= d < |t.calls| :: ProperlyAnswered(t.calls[d])
  {
    var call, result := s.calls[c], ResultFor(s.db, s.calls[c], now, outage);
    var m := MoveOf(s.rows, call, result.outcome, now, message);
    assert ProperlyAnswered(call.(phase := m.phase)) by { MoveAnswersProperly(s.rows, call, result.outcome, now, message); }
    assert RowsHaveWinners(m.rows, Moved(s, c, result.db, m).calls) by {
      MoveInsertsOwnRow(s.rows, call, result.outcome, now, message);
      MoveKeepsWinner(s.rows, call, result.outcome, now, message);
      MovedKeepsRowWinners(s, c, result.db, m);
    }
  }

  lemma {:induction false} RunKeepsWinnersAndAnswers(s: Log, steps: seq<Step>)
    requires Init(s)
    ensures var r := Run(s, steps);
            RowsHaveWinners(r.rows, r.calls) && forall d | 0 <= d < |r.calls| :: ProperlyAnswered(r.calls[d])
  {
    if steps != [] {
      var was, last := Run(s, steps[..|steps| - 1]), steps[|steps| - 1];
      RunKeepsWinnersAndAnswers(s, steps[..|steps| - 1]);
      RunKeepsExclusive(s, steps[..|steps| - 1]);
      match last
      case Advance(c, now, outage, message) =>
        if c < |was.calls| { AdvanceKeepsWinnersAndAnswers(was, c, now, outage, message); }
      case Arrive(task) =>
        forall i | 0 <= i < |was.rows| ensures HasWinner(was.rows[i].stripeEventId, was.calls + [Call(task, Arrived)]) {
          ArrivalKeepsWinner(was.calls, Call(task, Arrived), was.rows[i].stripeEventId);
        }
    }
  }

  lemma ArrivalKeepsWinner(calls: seq<Call>, call: Call, stripeEventId: string)
    requires HasWinner(stripeEventId, calls)
    ensures HasWinner(stripeEventId, calls + [call])
  {
    var d :| 0 <= d < |calls| && Won(calls[d]) && calls[d].task.event.id == stripeEventId;
    assert (calls + [call])[d] == calls[d];
  }

  /**
   * Once a delivery of a well-formed event has been answered, exactly one delivery of that event has won. If this is
   * not the one, its answer was `duplicate`; a malformed event is answered as such.
   */
  lemma AnsweredDeliveries(s: Log, steps: seq<Step>, c: nat)
    requires Init(s) && c < |Run(s, steps).calls|
    requires Run(s, steps).calls[c].task.Deliver? && Run(s, steps).calls[c].phase.Answered?
    ensures var calls := Run(s, steps).calls;
            var e, reply := calls[c].task.event, calls[c].phase.reply;
            && (reply.Malformed? <==> !WellFormedEvent(e))
            && (WellFormedEvent(e) ==> HasWinner(e.id, calls) && (reply.Duplicate? <==> !Won(calls[c])))
            && forall d, f | 0 <= d < |calls| && 0 <= f < |calls| && Won(calls[d]) && Won(calls[f]) ::
                 calls[d].task.event.id == calls[f].task.event.id ==> d == f
  {
    RunKeepsExclusive(s, steps);
    RunKeepsWinnersAndAnswers(s, steps);
    var r := Run(s, steps);
    assert ProperlyAnswered(r.calls[c]) && CallConsistent(r.rows, r.calls[c]);
    if WellFormedEvent(r.calls[c].task.event) {
      assert HasWinner(r.rows[RowOf(r.rows, r.calls[c].task.event.id)].stripeEventId, r.calls);
    }
  }

  // ---- Duplicates change nothing ----

  /** The steps of a run without call `c`'s. */
  function Without(steps: seq<Step>, c: nat): seq<Step> {
    if steps == [] then []
    else
      var rest, last := Without(steps[..|steps| - 1], c), steps[|steps| - 1];
      if last.Advance? && last.c == c then rest else rest + [last]
  }

  /** A delivery that has not been told it may dispatch. */
  predicate Idle(call: Call) {
    call.task.Deliver? &&
    (call.phase.Arrived? || call.phase.Missed? ||
     (call.phase.Answered? && !call.phase.reply.Done? && !call.phase.reply.Raised?))
  }

  /** Equal but for how far call `c` has come. */
  predicate SameButFor(a: Log, b: Log, c: nat) {
    a.db == b.db && a.rows == b.rows && a.dispatched == b.dispatched && a.marks == b.marks && |a.calls| == |b.calls| &&
    forall d | 0 <= d < |a.calls| && d != c :: a.calls[d] == b.calls[d]
  }

  lemma IdleMoves(rows: seq<LogRow>, call: Call, result: Outcome, now: Time, message: string)
    requires Idle(call.(phase := MoveOf(rows, call, result, now, message).phase))
    ensures Idle(call) && MoveOf(rows, call, result, now, message) == Stay(MoveOf(rows, call, result, now, message).phase, rows)
  {
  }

  lemma ApplyToSame(a: Log, b: Log, step: Step, c: nat)
    requires SameButFor(a, b, c) && !(step.Advance? && step.c == c)
    ensures SameButFor(Apply(a, step), Apply(b, step), c)
  {
    if step.Advance? && step.c < |a.calls| {
      assert a.calls[step.c] == b.calls[step.c];
      var result := ResultFor(a.db, a.calls[step.c], step.now, step.outage);
      var m := MoveOf(a.rows, a.calls[step.c], result.outcome, step.now, step.message);
      assert Apply(a, step) == Moved(a, step.c, result.db, m) && Apply(b, step) == Moved(b, step.c, result.db, m);
    }
  }

  lemma {:induction false} IdleCallsLeaveNoTrace(s: Log, steps: seq<Step>, c: nat)
    requires Init(s) && (c < |Run(s, steps).calls| ==> Idle(Run(s, steps).calls[c]))
    ensures SameButFor(Run(s, steps), Run(s, Without(steps, c)), c)
  {
    if steps != [] {
      var head, last := steps[..|steps| - 1], steps[|steps| - 1];
      var was, rest := Run(s, head), Without(head, c);
      if last.Advance? && last.c == c {
        if c < |was.calls| {
          IdleMoves(was.rows, was.calls[c], ResultFor(was.db, was.calls[c], last.now, last.outage).outcome, last.now, last.message);
        }
        IdleCallsLeaveNoTrace(s, head, c);
      } else {
        UntouchedCall(was, last, c);
        IdleCallsLeaveNoTrace(s, head, c);
        ApplyToSame(was, Run(s, rest), last, c);
        assert (rest + [last])[..|rest|] == rest;
      }
    }
  }

  lemma UntouchedCall(s: Log, step: Step, c: nat)
    requires !(step.Advance? && step.c == c)
    ensures c < |s.calls| ==> c < |Apply(s, step).calls| && Apply(s, step).calls[c] == s.calls[c]
  {
  }

  /** A delivery answered with `duplicate` might as well never have taken a step: every table and every other call agree. */
  lemma DuplicatesChangeNothing(s: Log, steps: seq<Step>, c: nat)
    requires Init(s) && c < |Run(s, steps).calls|
    requires Run(s, steps).calls[c].phase.Answered? && Run(s, steps).calls[c].phase.reply.Duplicate?
    ensures SameButFor(Run(s, steps), Run(s, Without(steps, c)), c)
    ensures c !in Run(s, steps).dispatched
  {
    RunKeepsExclusive(s, steps);
    var r := Run(s, steps);
    assert CallConsistent(r.rows, r.calls[c]);
    IdleCallsLeaveNoTrace(s, steps, c);
  }

  // ---- Attempts, statuses and messages ----

  function FailedMarks(marks: seq<Mark>, at: nat): nat {
    if marks == [] then 0
    else FailedMarks(marks[..|marks| - 1], at) + if marks[|marks| - 1] == Mark(at, EventStatus.Failed) then 1 else 0
  }

  function CountsAt(p: Phase, at: nat): nat { if p.Counted? && p.at == at then 1 else 0 }

  function Counting(calls: seq<Call>, at: nat): nat {
    if calls == [] then 0 else Counting(calls[..|calls| - 1], at) + CountsAt(calls[|calls| - 1].phase, at)
  }

  /** What the last mark left, Received when there is none. */
  function LastMark(marks: seq<Mark>, at: nat): EventStatus {
    if marks == [] then Received
    else if marks[|marks| - 1].at == at then marks[|marks| - 1].status
    else LastMark(marks[..|marks| - 1], at)
  }

  predicate RowAccounted(s: Log, i: nat)
    requires i < |s.rows|
  {
    s.rows[i].attempts == FailedMarks(s.marks, i) + Counting(s.calls, i) &&
    s.rows[i].status == LastMark(s.marks, i) &&
    (s.rows[i].errorMessage.Some? <==> s.rows[i].status.Failed?)
  }

  /** Marks and counts are of rows the table has. */
  predicate OnRows(marks: seq<Mark>, calls: seq<Call>, n: nat) {
    (forall k | 0 <= k < |marks| :: marks[k].at < n) &&
    (forall c | 0 <= c < |calls| && calls[c].phase.Counted? :: calls[c].phase.at < n)
  }

  predicate Accounted(s: Log) {
    OnRows(s.marks, s.calls, |s.rows|) && forall i | 0 <= i < |s.rows| :: RowAccounted(s, i)
  }

  lemma {:induction false} CountingAfter(calls: seq<Call>, c: nat, call: Call, at: nat)
    requires c < |calls|
    ensures Counting(calls[c := call], at) + CountsAt(calls[c].phase, at) == Counting(calls, at) + CountsAt(call.phase, at)
  {
    var n, next := |calls| - 1, calls[c := call];
    if c < n {
      CountingAfter(calls[..n], c, call, at);
      assert next[..n] == calls[..n][c := call];
    } else {
      assert next[..n] == calls[..n];
    }
  }

  lemma {:induction false} NothingYet(marks: seq<Mark>, calls: seq<Call>, at: nat)
    requires forall k | 0 <= k < |marks| :: marks[k].at < at
    requires forall c | 0 <= c < |calls| && calls[c].phase.Counted? :: calls[c].phase.at < at
    ensures FailedMarks(marks, at) == 0 && LastMark(marks, at) == Received && Counting(calls, at) == 0
  {
    if marks != [] { NothingYet(marks[..|marks| - 1], calls, at); }
    else if calls != [] { NothingYet(marks, calls[..|calls| - 1], at); }
  }

  /** A step's own row: attempts rise by one exactly when its call starts counting, and so on. */
  lemma MoveAccounts(rows: seq<LogRow>, call: Call, result: Outcome, now: Time, message: string, i: nat)
    requires CallConsistent(rows, call) && i < |rows|
    ensures var m := MoveOf(rows, call, result, now, message);
            && i < |m.rows|
            && m.rows[i].attempts + CountsAt(call.phase, i) == rows[i].attempts + FailedMarks(m.marks, i) + CountsAt(m.phase, i)
            && m.rows[i].status == (if m.marks != [] && m.marks[0].at == i then m.marks[0].status else rows[i].status)
            && ((rows[i].errorMessage.Some? <==> rows[i].status.Failed?) ==>
                (m.rows[i].errorMessage.Some? <==> m.rows[i].status.Failed?))
  {
    var marks := MoveOf(rows, call, result, now, message).marks;
    if marks != [] { assert marks[..0] == []; }
  }

  lemma MoveAppends(rows: seq<LogRow>, call: Call, result: Outcome, now: Time, message: string)
    requires CallConsistent(rows, call)
    ensures var m := MoveOf(rows, call, result, now, message);
            && |rows| <= |m.rows| <= |rows| + 1 && |m.marks| <= 1
            && (m.marks != [] ==> m.marks[0].at < |rows|)
            && (m.phase.Counted? ==> m.phase.at < |rows|)
            && (|m.rows| > |rows| ==>
                (!m.phase.Counted? && m.marks == [] && m.rows[|rows|].attempts == 0 &&
                 m.rows[|rows|].status.Received? && m.rows[|rows|].errorMessage.None?))
  {
  }

  /** A row that was there before the step, and the one the step may have added. */
  lemma AdvanceKeepsRowAccount(s: Log, c: nat, result: Result, now: Time, message: string, i: nat)
    requires Exclusive(s) && Accounted(s) && c < |s.calls|
    requires i < |MoveOf(s.rows, s.calls[c], result.outcome, now, message).rows|
    ensures RowAccounted(Moved(s, c, result.db, MoveOf(s.rows, s.calls[c], result.outcome, now, message)), i)
  {
    var call, m := s.calls[c], MoveOf(s.rows, s.calls[c], result.outcome, now, message);
    assert CallConsistent(s.rows, call);
    MoveAppends(s.rows, call, result.outcome, now, message);
    CountingAfter(s.calls, c, call.(phase := m.phase), i);
    MarksAfter(s.marks, m.marks, i);
    if i < |s.rows| {
      assert RowAccounted(s, i);
      MoveAccounts(s.rows, call, result.outcome, now, message, i);
    } else {
      NothingYet(s.marks, s.calls, |s.rows|);
      assert i == |s.rows| && CountsAt(call.phase, i) == 0;
    }
  }

  lemma MovedStaysOnRows(s: Log, c: nat, db: Db, m: Move)
    requires OnRows(s.marks, s.calls, |s.rows|) && c < |s.calls| && |s.rows| <= |m.rows| && |m.marks| <= 1
    requires (m.marks != [] ==> m.marks[0].at < |s.rows|) && (m.phase.Counted? ==> m.phase.at < |s.rows|)
    ensures OnRows(Moved(s, c, db, m).marks, Moved(s, c, db, m).calls, |m.rows|)
  {
  }

  lemma AdvanceKeepsAccounts(s: Log, c: nat, now: Time, outage: bool, message: string)
    requires Exclusive(s) && Accounted(s) && c < |s.calls|
    ensures Accounted(Apply(s, Advance(c, now, outage, message)))
  {
    var result := ResultFor(s.db, s.calls[c], now, outage);
    MovedIsAccounted(s, c, result, now, message);
  }

  lemma MovedIsAccounted(s: Log, c: nat, result: Result, now: Time, message: string)
    requires Exclusive(s) && Accounted(s) && c < |s.calls|
    ensures Accounted(Moved(s, c, result.db, MoveOf(s.rows, s.calls[c], result.outcome, now, message)))
  {
    var m := MoveOf(s.rows, s.calls[c], result.outcome, now, message);
    assert CallConsistent(s.rows, s.calls[c]);
    assert OnRows(Moved(s, c, result.db, m).marks, Moved(s, c, result.db, m).calls, |m.rows|) by {
      MoveAppends(s.rows, s.calls[c], result.outcome, now, message);
      MovedStaysOnRows(s, c, result.db, m);
    }
    forall i | 0 <= i < |m.rows| ensures RowAccounted(Moved(s, c, result.db, m), i) {
      AdvanceKeepsRowAccount(s, c, result, now, message, i);
    }
  }

  lemma MarksAfter(marks: seq<Mark>, more: seq<Mark>, at: nat)
    requires |more| <= 1
    ensures FailedMarks(marks + more, at) == FailedMarks(marks, at) + FailedMarks(more, at)
    ensures LastMark(marks + more, at) == if more != [] && more[0].at == at then more[0].status else LastMark(marks, at)
  {
    if more == [] {
      assert marks + more == marks;
    } else {
      assert (marks + more)[..|marks|] == marks && more[..0] == [];
    }
  }

  lemma ArriveKeepsAccounts(s: Log, task: Task)
    requires Accounted(s)
    ensures Accounted(Apply(s, Arrive(task)))
  {
    var t := Apply(s, Arrive(task));
    assert t.calls[..|s.calls|] == s.calls;
    forall i | 0 <= i < |t.rows| ensures RowAccounted(t, i) {
      assert RowAccounted(s, i);
    }
  }

  /**
   * In every run a row's attempts are its failed marks plus the failures counted but not yet marked, its status
   * is what its last mark says, and it carries an error message exactly while it reads Failed.
   */
  lemma {:induction false} RunKeepsAccounts(s: Log, steps: seq<Step>)
    requires Init(s)
    ensures Accounted(Run(s, steps))
  {
    if steps != [] {
      var was, last := Run(s, steps[..|steps| - 1]), steps[|steps| - 1];
      RunKeepsAccounts(s, steps[..|steps| - 1]);
      RunKeepsExclusive(s, steps[..|steps| - 1]);
      match last
      case Advance(c, now, outage, message) =>
        if c < |was.calls| { AdvanceKeepsAccounts(was, c, now, outage, message); }
      case Arrive(task) => ArriveKeepsAccounts(was, task);
    }
  }

  // ---- Whole calls, run without interruption ----

  datatype Served = Served(db: Db, rows: seq<LogRow>, reply: Reply)

  /** The log table once row `at` has been marked with an outcome. */
  function Marked(rows: seq<LogRow>, at: nat, outcome: Outcome, message: string, now: Time): seq<LogRow>
    requires at < |rows|
  {
    rows[at := if outcome.Threw? then MarkedFailed(rows[at].(attempts := rows[at].attempts + 1), message)
               else MarkedDone(rows[at], outcome, now)]
  }

  function Close(db: Db, rows: seq<LogRow>, task: Task, at: nat, outcome: Outcome, message: string, now: Time): Served
    requires at < |rows|
  {
    Served(db, Marked(rows, at, outcome, message, now), ReplyFor(task, outcome))
  }

  /** What one uninterrupted delivery does. */
  function Receive(db: Db, rows: seq<LogRow>, e: Event, rawBody: string, message: string, now: Time): Served {
    match Opening(rows, Deliver(e, rawBody))
    case Answered(reply) => Served(db, rows, reply)
    case _ =>
      var result := Dispatch(db, e, now);
      Close(result.db, rows + [NewRow(e, rawBody, now)], Deliver(e, rawBody), |rows|, result.outcome, message, now)
  }

  /** What one uninterrupted replay of row `at` does. */
  function Replayed(db: Db, rows: seq<LogRow>, at: nat, message: string, now: Time): Served {
    match Opening(rows, Replay(at))
    case Answered(reply) => Served(db, rows, reply)
    case Finished(_, _, text) => Close(db, rows, Replay(at), at, Threw, text, now)
    case Ready(_, e) =>
      var result := Dispatch(db, e, now);
      Close(result.db, rows, Replay(at), at, result.outcome, message, now)
    case _ => Served(db, rows, NoSuchRow)
  }

  function Serve(db: Db, rows: seq<LogRow>, task: Task, message: string, now: Time): Served {
    match task
    case Deliver(e, rawBody) => Receive(db, rows, e, rawBody, message, now)
    case Replay(at) => Replayed(db, rows, at, message, now)
  }

  // ---- What the uninterrupted calls write to the log ----

  /** The row a delivery logs: the event's own columns, received when Stripe made it, and its payload to replay it from. */
  predicate LogsEvent(row: LogRow, e: Event, rawBody: string, now: Time) {
    row.stripeEventId == e.id && row.eventType == e.eventType && row.apiVersion == e.apiVersion &&
    row.livemode == (e.livemode == Some(true)) && row.status.Received? && row.attempts == 0 && row.errorMessage.None? &&
    row.processedAt.None? && row.receivedAt == (if e.created.Some? then e.created.value * 1000 else now) &&
    row.payload == if e.data.Some? then Stored(e.id, e.eventType, e.apiVersion, row.livemode, e.created, e.request, e.data.value)
                   else Raw(rawBody)
  }

  /** The row once the outcome is on it: done at `now`, or one more failed attempt with its message, cut at 4000 characters. */
  predicate CarriesOutcome(was: LogRow, row: LogRow, outcome: Outcome, message: string, now: Time) {
    row == was.(status := row.status, attempts := row.attempts, errorMessage := row.errorMessage, processedAt := row.processedAt) &&
    (row.status.Processed? <==> outcome.Processed?) && (row.status.Ignored? <==> outcome.Ignored?) && (row.status.Failed? <==> outcome.Threw?) &&
    if outcome.Threw?
    then row.attempts == was.attempts + 1 && row.processedAt == was.processedAt &&
         row.errorMessage == Some(if |message| <= 4000 then message else message[..4000])
    else row.attempts == was.attempts && row.processedAt == Some(now) && row.errorMessage.None?
  }

  /**
   * An uninterrupted delivery without id or type is malformed, one whose event has a row is told duplicate with that
   * row's status, and neither changes anything; any other is dispatched, and its one new row carries the outcome.
   */
  lemma DeliveryIsLogged(db: Db, rows: seq<LogRow>, e: Event, rawBody: string, message: string, now: Time)
    ensures var served, n := Receive(db, rows, e, rawBody, message, now), |rows|;
            if e.id == "" || e.eventType == "" then served == Served(db, rows, Malformed)
            else if exists k | 0 <= k < n :: rows[k].stripeEventId == e.id
            then served.db == db && served.rows == rows && served.reply.Duplicate? &&
                 exists k | 0 <= k < n :: rows[k].stripeEventId == e.id && served.reply.original == rows[k].status
            else var result := Dispatch(db, e, now);
                 served.db == result.db && |served.rows| == n + 1 && served.rows[..n] == rows &&
                 (exists logged :: LogsEvent(logged, e, rawBody, now) && CarriesOutcome(logged, served.rows[n], result.outcome, message, now)) &&
                 served.reply == if result.outcome.Threw? then Raised else Done(result.outcome)
  {
    var i := RowOf(rows, e.id);
    if e.id != "" && e.eventType != "" && i == |rows| {
      var logged := NewRow(e, rawBody, now);
      assert LogsEvent(logged, e, rawBody, now);
      assert (rows + [logged])[|rows|] == logged;
      assert CarriesOutcome(logged, Receive(db, rows, e, rawBody, message, now).rows[|rows|], Dispatch(db, e, now).outcome, message, now);
    }
  }

  /** An uninterrupted replay dispatches what the row's payload gives back, or fails for want of it, and marks the row alone. */
  lemma ReplayIsMarked(db: Db, rows: seq<LogRow>, at: nat, message: string, now: Time)
    ensures var served := Replayed(db, rows, at, message, now);
            if at >= |rows| then served == Served(db, rows, NoSuchRow)
            else var back := Reconstruct(rows[at].payload);
                 var result := if back.Some? then Dispatch(db, back.value, now) else Result(db, Threw);
                 var text := if back.Some? then message else "Cannot replay: stored payload is missing required fields";
                 served.db == result.db && |served.rows| == |rows| && (forall k | 0 <= k < |rows| && k != at :: served.rows[k] == rows[k]) &&
                 CarriesOutcome(rows[at], served.rows[at], result.outcome, text, now) && served.reply == Done(result.outcome)
  {
  }

  /** A call that is let run to its end without interruption, as steps of the protocol. */
  function Alone(c: nat, task: Task, message: string, now: Time): seq<Step> {
    var next := Advance(c, now, false, message);
    [Arrive(task), next, next, next, next, next]
  }

  function Drive(s: Log, c: nat, message: string, now: Time, n: nat): Log {
    if n == 0 then s else Apply(Drive(s, c, message, now, n - 1), Advance(c, now, false, message))
  }

  lemma AloneIsDriven(s: Log, task: Task, message: string, now: Time)
    ensures var c := |s.calls|;
            Run(s, Alone(c, task, message, now)) == Drive(Apply(s, Arrive(task)), c, message, now, 5)
  {
    var c := |s.calls|;
    var all := Alone(c, task, message, now);
    DrivenPrefix(s, task, message, now, 5);
    assert all[..6] == all;
  }

  lemma {:induction false} DrivenPrefix(s: Log, task: Task, message: string, now: Time, n: nat)
    requires n <= 5
    ensures var c := |s.calls|;
            Run(s, Alone(c, task, message, now)[..n + 1]) == Drive(Apply(s, Arrive(task)), c, message, now, n)
  {
    var c := |s.calls|;
    var all := Alone(c, task, message, now);
    assert all[..n + 1][..n] == all[..n];
    if n > 0 {
      DrivenPrefix(s, task, message, now, n - 1);
    } else {
      assert all[..1][..0] == [];
    }
  }

  /** One step of the last call to arrive, with the rest of the log spelled out. */
  lemma LastCallMoves(s: Log, before: seq<Call>, call: Call, message: string, now: Time)
    requires s.calls == before + [call]
    ensures var result := ResultFor(s.db, call, now, false);
            var m := MoveOf(s.rows, call, result.outcome, now, message);
            var t := Apply(s, Advance(|before|, now, false, message));
            t.db == result.db && t.rows == m.rows && t.calls == before + [call.(phase := m.phase)]
  {
    assert s.calls[|before|] == call;
    assert s.calls[|before| := call.(phase := Missed)] == before + [call.(phase := Missed)];
  }

  /** From the moment it may dispatch, a call left alone needs three more steps at most. */
  lemma ReadyRunsToEnd(s: Log, before: seq<Call>, call: Call, message: string, now: Time)
    requires s.calls == before + [call] && call.phase.Ready? && call.phase.at < |s.rows|
    ensures var step := Advance(|before|, now, false, message);
            var r := Apply(Apply(Apply(s, step), step), step);
            var result := Dispatch(s.db, call.phase.event, now);
            var served := Close(result.db, s.rows, call.task, call.phase.at, result.outcome, message, now);
            r.db == served.db && r.rows == served.rows && r.calls == before + [call.(phase := Answered(served.reply))]
  {
    var step := Advance(|before|, now, false, message);
    var result := Dispatch(s.db, call.phase.event, now);
    LastCallMoves(s, before, call, message, now);
    FinishedRunsToEnd(Apply(s, step), before, call.(phase := Finished(call.phase.at, result.outcome, message)), message, now);
  }

  lemma FinishedRunsToEnd(s: Log, before: seq<Call>, call: Call, message: string, now: Time)
    requires s.calls == before + [call] && call.phase.Finished? && call.phase.at < |s.rows|
    ensures var step := Advance(|before|, now, false, message);
            var r := Apply(Apply(s, step), step);
            var served := Close(s.db, s.rows, call.task, call.phase.at, call.phase.outcome, call.phase.message, now);
            r.db == served.db && r.rows == served.rows && r.calls == before + [call.(phase := Answered(served.reply))]
  {
    LastCallMoves(s, before, call, message, now);
    var t := Apply(s, Advance(|before|, now, false, message));
    LastCallMoves(t, before, t.calls[|before|], message, now);
  }

  lemma AnsweredStays(s: Log, before: seq<Call>, call: Call, message: string, now: Time)
    requires s.calls == before + [call] && call.phase.Answered?
    ensures var t := Apply(s, Advance(|before|, now, false, message));
            t.db == s.db && t.rows == s.rows && t.calls == s.calls
  {
    LastCallMoves(s, before, call, message, now);
  }

  /** The serial functions are the protocol with nobody else in between. */
  lemma ServeIsARun(s: Log, task: Task, message: string, now: Time)
    ensures var r := Run(s, Alone(|s.calls|, task, message, now));
            var served := Serve(s.db, s.rows, task, message, now);
            r.db == served.db && r.rows == served.rows && r.calls == s.calls + [Call(task, Answered(served.reply))]
  {
    var c, step, call := |s.calls|, Advance(|s.calls|, now, false, message), Call(task, Arrived);
    var s1 := Apply(s, Arrive(task));
    LastCallMoves(s1, s.calls, call, message, now);
    var s2 := Apply(s1, step);
    AloneIsDriven(s, task, message, now);
    FiveSteps(s1, c, message, now);
    OpenedRunsToEnd(s2, s.calls, Call(task, Opening(s.rows, task)), message, now);
  }

  lemma FiveSteps(s: Log, c: nat, message: string, now: Time)
    ensures var step := Advance(c, now, false, message);
            Drive(s, c, message, now, 5) == Apply(Apply(Apply(Apply(Apply(s, step), step), step), step), step)
  {
    assert Drive(s, c, message, now, 1) == Apply(Drive(s, c, message, now, 0), Advance(c, now, false, message));
    assert Drive(s, c, message, now, 3) == Apply(Drive(s, c, message, now, 2), Advance(c, now, false, message));
    assert Drive(s, c, message, now, 2) == Apply(Drive(s, c, message, now, 1), Advance(c, now, false, message));
  }

  /** The four steps after the first. */
  lemma OpenedRunsToEnd(s: Log, before: seq<Call>, call: Call, message: string, now: Time)
    requires s.calls == before + [call] && call.phase == Opening(s.rows, call.task)
    ensures var step := Advance(|before|, now, false, message);
            var r := Apply(Apply(Apply(Apply(s, step), step), step), step);
            var served := Serve(s.db, s.rows, call.task, message, now);
            r.db == served.db && r.rows == served.rows && r.calls == before + [Call(call.task, Answered(served.reply))]
  {
    match call.phase
    case Missed => MissedRunsToEnd(s, before, call, message, now);
    case Ready(_, _) => ReadyStaysAnswered(s, before, call, message, now);
    case Finished(_, _, _) => FinishedStaysAnswered(s, before, call, message, now);
    case Answered(_) => AnsweredStaysAnswered(s, before, call, message, now);
    case _ =>
  }

  lemma ReadyStaysAnswered(s: Log, before: seq<Call>, call: Call, message: string, now: Time)
    requires s.calls == before + [call] && call.phase.Ready? && call.phase == Opening(s.rows, call.task)
    ensures var step := Advance(|before|, now, false, message);
            var r := Apply(Apply(Apply(Apply(s, step), step), step), step);
            var served := Serve(s.db, s.rows, call.task, message, now);
            r.db == served.db && r.rows == served.rows && r.calls == before + [Call(call.task, Answered(served.reply))]
  {
    var step := Advance(|before|, now, false, message);
    var v := Apply(Apply(Apply(s, step), step), step);
    ReadyRunsToEnd(s, before, call, message, now);
    AnsweredStays(v, before, v.calls[|before|], message, now);
  }

  lemma FinishedStaysAnswered(s: Log, before: seq<Call>, call: Call, message: string, now: Time)
    requires s.calls == before + [call] && call.phase.Finished? && call.phase == Opening(s.rows, call.task)
    ensures var step := Advance(|before|, now, false, message);
            var r := Apply(Apply(Apply(Apply(s, step), step), step), step);
            var served := Serve(s.db, s.rows, call.task, message, now);
            r.db == served.db && r.rows == served.rows && r.calls == before + [Call(call.task, Answered(served.reply))]
  {
    var step := Advance(|before|, now, false, message);
    var u := Apply(Apply(s, step), step);
    FinishedRunsToEnd(s, before, call, message, now);
    AnsweredStays(u, before, u.calls[|before|], message, now);
    var v := Apply(u, step);
    AnsweredStays(v, before, v.calls[|before|], message, now);
  }

  lemma AnsweredStaysAnswered(s: Log, before: seq<Call>, call: Call, message: string, now: Time)
    requires s.calls == before + [call] && call.phase.Answered?
    ensures var step := Advance(|before|, now, false, message);
            var r := Apply(Apply(Apply(Apply(s, step), step), step), step);
            r.db == s.db && r.rows == s.rows && r.calls == s.calls
  {
    var step := Advance(|before|, now, false, message);
    var t := Apply(s, step);
    var u := Apply(t, step);
    AnsweredStays(s, before, call, message, now);
    AnsweredStays(t, before, call, message, now);
    AnsweredStays(u, before, call, message, now);
    AnsweredStays(Apply(u, step), before, call, message, now);
  }

  lemma MissedRunsToEnd(s: Log, before: seq<Call>, call: Call, message: string, now: Time)
    requires s.calls == before + [call] && call.phase.Missed? && call.phase == Opening(s.rows, call.task)
    ensures var step := Advance(|before|, now, false, message);
            var r := Apply(Apply(Apply(Apply(s, step), step), step), step);
            var served := Serve(s.db, s.rows, call.task, message, now);
            r.db == served.db && r.rows == served.rows && r.calls == before + [Call(call.task, Answered(served.reply))]
  {
    LastCallMoves(s, before, call, message, now);
    var t := Apply(s, Advance(|before|, now, false, message));
    ReadyRunsToEnd(t, before, t.calls[|before|], message, now);
  }

  /**
   * Replaying an event that has just been received repeats its outcome and leaves the billing tables as they
   * are, up to the cancellation stamp of a deletion that carried none.
   */
  lemma ReplayIsHarmless(db: Db, rows: seq<LogRow>, e: Event, rawBody: string, message: string, now: Time, later: Time)
    requires Valid(db) && e.data.Some?
    requires var reply := Receive(db, rows, e, rawBody, message, now).reply; reply.Done? || reply.Raised?
    ensures var first := Receive(db, rows, e, rawBody, message, now);
            var again := Replayed(first.db, first.rows, |rows|, message, later);
            && again.reply == (if first.reply.Raised? then Done(Threw) else first.reply)
            && (again.db == first.db ||
                (KindOf(e.eventType).SubscriptionDeleted? && e.data.value.SubscriptionObject? &&
                 again.db == Restamped(first.db, e.data.value.subscription, later)))
  {
    var first := Receive(db, rows, e, rawBody, message, now);
    StoredEventsDispatchAlike(e, rawBody, first.db, later);
    assert first.rows[|rows|].payload == Serialize(e, rawBody);
    DispatchTwice(db, e, now, later);
  }
}
