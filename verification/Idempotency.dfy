/**
 * The idempotency-key protocol as any number of interleaved callers run it on one key. Every database call is
 * one step; between two of its calls a caller acts on the row it last read, however stale that has become.
 */
module Idempotency {
  import opened Model

  datatype KeyStatus = InProgress | Completed | Failed | Expired

  datatype KeyRow<R> = KeyRow(hash: string, status: KeyStatus, snapshot: Option<R>, expiresAt: Time)

  /** `Serve(None)` answers with an empty object, as a completed row without a snapshot would. */
  datatype Verdict<R> = Conflict | InFlight | Serve(snapshot: Option<R>) | TryClaim(from: set<KeyStatus>)

  /** What an existing row means for a request with this hash. */
  function Classify<R>(row: KeyRow<R>, hash: string, now: Time): Verdict<R> {
    if row.hash != hash then Conflict
    else if row.expiresAt <= now then
      match row.status
      case Completed => Serve(row.snapshot)
      case Failed => TryClaim({KeyStatus.Failed, KeyStatus.Expired})
      case Expired => TryClaim({KeyStatus.Failed, KeyStatus.Expired})
      case InProgress => InFlight
    else
      match row.status
      case Completed => Serve(row.snapshot)
      case Failed => TryClaim({KeyStatus.Failed})
      case InProgress => InFlight
      case Expired => InFlight
  }

  function NewKey<R>(hash: string, expiresAt: Time): KeyRow<R> { KeyRow(hash, InProgress, None, expiresAt) }

  function Claimed<R>(row: KeyRow<R>, expiresAt: Time): KeyRow<R> {
    row.(status := InProgress, snapshot := None, expiresAt := expiresAt)
  }

  /** A result of None records a failure. */
  function RecordedRow<R>(row: KeyRow<R>, result: Option<R>): KeyRow<R> {
    row.(status := if result.Some? then KeyStatus.Completed else KeyStatus.Failed, snapshot := result)
  }

  // ---- Callers ----

  datatype Phase<R> =
    | Arrived
    | Missed(expiresAt: Time)                          // read no row, about to insert
    | Beaten(expiresAt: Time)                          // lost the insert to the unique index, about to re-read
    | Looked(seen: KeyRow<R>, expiresAt: Time)         // read a row, about to judge it
    | Claiming(from: set<KeyStatus>, expiresAt: Time)  // about to make the conditional update
    | Holding                                          // told to run the operation
    | Recording(seen: KeyRow<R>, result: Option<R>)    // re-read the row to record the outcome, about to save it
    | Recorded(result: Option<R>)
    | Abandoned                                        // crashed with the reservation unrecorded
    | Answered(verdict: Verdict<R>)
    | Broken                                           // the insert failed and the row is nowhere to be found
    | Gone                                             // crashed without a reservation

  datatype Caller<R> = Caller(hash: string, phase: Phase<R>)

  /** The key's row, everyone who ever asked for it, and the successes recorded so far. */
  datatype Protocol<R> = Protocol(row: Option<KeyRow<R>>, callers: seq<Caller<R>>, successes: seq<R>)

  datatype Step<R> =
    | Arrive(hash: string)
    | Read(c: nat, now: Time, ttl: Time)
    | Insert(c: nat)
    | Reread(c: nat)
    | Judge(c: nat, now: Time)
    | Claim(c: nat)
    | ReadToRecord(c: nat, result: Option<R>)
    | Save(c: nat)
    | Crash(c: nat)

  predicate Holds<R>(p: Phase<R>) { p.Holding? || p.Recording? || p.Abandoned? }

  function Enter<R>(s: Protocol<R>, c: nat, p: Phase<R>): Protocol<R>
    requires c < |s.callers|
  {
    s.(callers := s.callers[c := s.callers[c].(phase := p)])
  }

  function AfterVerdict<R>(v: Verdict<R>, expiresAt: Time): Phase<R> {
    match v
    case TryClaim(from) => Claiming(from, expiresAt)
    case _ => Answered(v)
  }

  /** One database call, or one crash. A step its caller is not ready for changes nothing. */
  function Apply<R>(s: Protocol<R>, step: Step<R>): Protocol<R> {
    if step.Arrive? then s.(callers := s.callers + [Caller(step.hash, Arrived)])
    else if step.c >= |s.callers| then s
    else
      var c, hash, phase := step.c, s.callers[step.c].hash, s.callers[step.c].phase;
      match step
      case Read(_, now, ttl) =>
        if !phase.Arrived? then s
        else Enter(s, c, if s.row.None? then Missed(now + ttl) else Looked(s.row.value, now + ttl))
      case Insert(_) =>
        if !phase.Missed? then s
        else if s.row.Some? then Enter(s, c, Beaten(phase.expiresAt))
        else Enter(s, c, Holding).(row := Some(NewKey(hash, phase.expiresAt)))
      case Reread(_) =>
        if !phase.Beaten? then s
        else Enter(s, c, if s.row.None? then Broken else Looked(s.row.value, phase.expiresAt))
      case Judge(_, now) =>
        if !phase.Looked? then s
        else Enter(s, c, AfterVerdict(Classify(phase.seen, hash, now), phase.expiresAt))
      case Claim(_) =>
        if !phase.Claiming? then s
        else if s.row.Some? && s.row.value.status in phase.from
        then Enter(s, c, Holding).(row := Some(Claimed(s.row.value, phase.expiresAt)))
        else Enter(s, c, Answered(InFlight))
      case ReadToRecord(_, result) =>
        if !phase.Holding? || s.row.None? then s else Enter(s, c, Recording(s.row.value, result))
      case Save(_) =>
        if !phase.Recording? then s
        else Enter(s, c, Recorded(phase.result)).(
          row := Some(RecordedRow(phase.seen, phase.result)),
          successes := if phase.result.Some? then s.successes + [phase.result.value] else s.successes)
      case Crash(_) =>
        if phase.Answered? || phase.Recorded? || phase.Broken? then s
        else Enter(s, c, if Holds(phase) then Abandoned else Gone)
  }

  function Run<R>(s: Protocol<R>, steps: seq<Step<R>>): Protocol<R> {
    if steps == [] then s else Apply(Run(s, steps[..|steps| - 1]), steps[|steps| - 1])
  }

  // ---- The invariant ----

  predicate AtMostOneHolder<R>(s: Protocol<R>) {
    forall i, j | 0 <= i < j < |s.callers| :: !(Holds(s.callers[i].phase) && Holds(s.callers[j].phase))
  }

  /** While a reservation is out the row is in progress, and a recorder's copy of it is current. */
  predicate HolderOwnsRow<R(==)>(s: Protocol<R>) {
    forall c | 0 <= c < |s.callers| && Holds(s.callers[c].phase) ::
      s.row.Some? && s.row.value.status.InProgress? &&
      (s.callers[c].phase.Recording? ==> s.callers[c].phase.seen == s.row.value)
  }

  /** The row is completed exactly when one success has been recorded, and then it holds that success. */
  predicate CompletedOnce<R(==)>(s: Protocol<R>) {
    |s.successes| <= 1 &&
    ((s.row.Some? && s.row.value.status.Completed?) <==> |s.successes| == 1) &&
    (|s.successes| == 1 ==> s.row.value.snapshot == Some(s.successes[0]))
  }

  /** What a caller's phase says about the row as it is now. */
  predicate CallerConsistent<R(==)>(s: Protocol<R>, c: Caller<R>) {
    match c.phase
    case Arrived => true
    case Missed(_) => true
    case Gone => true
    case Broken => false
    case Beaten(_) => s.row.Some?
    case Looked(seen, _) =>
      s.row.Some? && seen.hash == s.row.value.hash &&
      (seen.status.Completed? ==> |s.successes| == 1 && seen.snapshot == Some(s.successes[0]))
    case Answered(v) =>
      s.row.Some? && !v.TryClaim? && (v.Conflict? <==> c.hash != s.row.value.hash) &&
      (v.Serve? ==> |s.successes| == 1 && v.snapshot == Some(s.successes[0]))
    case Claiming(from, _) => s.row.Some? && c.hash == s.row.value.hash && from <= {KeyStatus.Failed, KeyStatus.Expired}
    case Recorded(result) =>
      s.row.Some? && c.hash == s.row.value.hash && (result.Some? ==> s.successes == [result.value])
    case _ => s.row.Some? && c.hash == s.row.value.hash
  }

  predicate Inv<R(==)>(s: Protocol<R>) {
    AtMostOneHolder(s) && HolderOwnsRow(s) && CompletedOnce(s) &&
    forall c | 0 <= c < |s.callers| :: CallerConsistent(s, s.callers[c])
  }

  /** Nobody has asked yet; the key is unused, or an earlier attempt under it failed or was swept as expired. */
  predicate Init<R(==)>(s: Protocol<R>) {
    s.callers == [] && s.successes == [] &&
    (s.row.None? || s.row.value.status.Failed? || s.row.value.status.Expired?)
  }

  /** A step that leaves the row alone and moves one caller to a consistent phase that is no new reservation. */
  lemma EnterKeepsInv<R>(s: Protocol<R>, c: nat, p: Phase<R>)
    requires Inv(s) && c < |s.callers|
    requires CallerConsistent(s, s.callers[c].(phase := p))
    requires Holds(p) ==> Holds(s.callers[c].phase) && (p.Recording? ==> Some(p.seen) == s.row)
    ensures Inv(Enter(s, c, p))
  {
    var t := Enter(s, c, p);
    forall d | 0 <= d < |t.callers| ensures CallerConsistent(t, t.callers[d]) {
      assert d != c ==> CallerConsistent(s, s.callers[d]);
    }
  }

  /** A step that hands out the reservation does so when nobody else holds it. */
  lemma GrantKeepsInv<R>(s: Protocol<R>, c: nat, row: KeyRow<R>)
    requires Inv(s) && c < |s.callers|
    requires s.row.None? || s.row.value.status in {KeyStatus.Failed, KeyStatus.Expired}
    requires row.status.InProgress? && row.hash == s.callers[c].hash && (s.row.Some? ==> row.hash == s.row.value.hash)
    ensures Inv(Enter(s, c, Holding).(row := Some(row)))
  {
    var t := Enter(s, c, Holding).(row := Some(row));
    forall d | 0 <= d < |t.callers| ensures CallerConsistent(t, t.callers[d]) && (d != c ==> !Holds(t.callers[d].phase)) {
      assert CallerConsistent(s, s.callers[d]);
    }
  }

  lemma SaveKeepsInv<R>(s: Protocol<R>, c: nat)
    requires Inv(s) && c < |s.callers| && s.callers[c].phase.Recording?
    ensures Inv(Apply(s, Save(c)))
  {
    var t := Apply(s, Save(c));
    forall d | 0 <= d < |t.callers| ensures CallerConsistent(t, t.callers[d]) && !Holds(t.callers[d].phase) {
      assert CallerConsistent(s, s.callers[d]);
    }
  }

  lemma ApplyKeepsInv<R>(s: Protocol<R>, step: Step<R>)
    requires Inv(s)
    ensures Inv(Apply(s, step))
  {
    if step.Arrive? {
      var t := Apply(s, step);
      forall d | 0 <= d < |t.callers| ensures CallerConsistent(t, t.callers[d]) {
        assert d < |s.callers| ==> CallerConsistent(s, s.callers[d]);
      }
    } else if step.c < |s.callers| {
      var c := step.c;
      var caller := s.callers[c];
      assert CallerConsistent(s, caller);
      if step.Insert? {
        if caller.phase.Missed? {
          if s.row.None? { GrantKeepsInv(s, c, NewKey(caller.hash, caller.phase.expiresAt)); }
          else { EnterKeepsInv(s, c, Beaten(caller.phase.expiresAt)); }
        }
      } else if step.Claim? {
        if caller.phase.Claiming? {
          if s.row.value.status in caller.phase.from { GrantKeepsInv(s, c, Claimed(s.row.value, caller.phase.expiresAt)); }
          else { EnterKeepsInv(s, c, Answered(InFlight)); }
        }
      } else if step.Save? {
        if caller.phase.Recording? { SaveKeepsInv(s, c); }
      } else {
        var t := Apply(s, step);
        if t != s { EnterKeepsInv(s, c, t.callers[c].phase); }
      }
    }
  }

  /** Every interleaving keeps the invariant. */
  lemma {:induction false} EveryRunKeepsInv<R>(s: Protocol<R>, steps: seq<Step<R>>)
    requires Init(s)
    ensures Inv(Run(s, steps))
  {
    if steps != [] {
      EveryRunKeepsInv(s, steps[..|steps| - 1]);
      ApplyKeepsInv(Run(s, steps[..|steps| - 1]), steps[|steps| - 1]);
    }
  }

  // ---- What callers may rely on ----

  /**
   * In every interleaving at most one caller holds an unrecorded reservation, and while one does the row is in
   * progress; no read made earlier, and no expiry time, lets a second one in.
   */
  lemma OneReservationAtATime<R>(s: Protocol<R>, steps: seq<Step<R>>, i: nat, j: nat)
    requires Init(s)
    requires var t := Run(s, steps); i < |t.callers| && j < |t.callers| && Holds(t.callers[i].phase)
    ensures var t := Run(s, steps);
            t.row.Some? && t.row.value.status.InProgress? && (Holds(t.callers[j].phase) ==> i == j)
  {
    EveryRunKeepsInv(s, steps);
  }

  /** Once completed, the row never changes again. */
  lemma CompletedIsAbsorbing<R>(s: Protocol<R>, steps: seq<Step<R>>, more: seq<Step<R>>)
    requires Init(s)
    requires var t := Run(s, steps); t.row.Some? && t.row.value.status.Completed?
    ensures Run(s, steps + more).row == Run(s, steps).row
    ensures Run(s, steps + more).successes == Run(s, steps).successes
  {
    if more == [] {
      assert steps + more == steps;
    } else {
      var all := steps + more;
      assert all[..|all| - 1] == steps + more[..|more| - 1] && all[|all| - 1] == more[|more| - 1];
      CompletedIsAbsorbing(s, steps, more[..|more| - 1]);
      EveryRunKeepsInv(s, steps + more[..|more| - 1]);
      CompletedStays(Run(s, steps + more[..|more| - 1]), more[|more| - 1]);
    }
  }

  lemma CompletedStays<R>(s: Protocol<R>, step: Step<R>)
    requires Inv(s) && s.row.Some? && s.row.value.status.Completed?
    ensures Apply(s, step).row == s.row && Apply(s, step).successes == s.successes
  {
    if !step.Arrive? && step.c < |s.callers| {
      assert CallerConsistent(s, s.callers[step.c]);
    }
  }

  /** Caller `c` crashed holding the reservation, and this is the row it left. */
  predicate Stuck<R(==)>(s: Protocol<R>, row: Option<KeyRow<R>>, c: nat) {
    Inv(s) && s.row == row && s.successes == [] && c < |s.callers| && s.callers[c].phase.Abandoned?
  }

  lemma StuckStays<R>(s: Protocol<R>, row: Option<KeyRow<R>>, step: Step<R>, c: nat)
    requires Stuck(s, row, c)
    ensures Stuck(Apply(s, step), row, c)
  {
    ApplyKeepsInv(s, step);
    if !step.Arrive? && step.c < |s.callers| {
      assert CallerConsistent(s, s.callers[step.c]);
    }
  }

  lemma {:induction false} StuckThroughout<R>(s: Protocol<R>, row: Option<KeyRow<R>>, steps: seq<Step<R>>, c: nat)
    requires Stuck(s, row, c)
    ensures Stuck(Run(s, steps), row, c)
  {
    if steps != [] {
      StuckThroughout(s, row, steps[..|steps| - 1], c);
      StuckStays(Run(s, steps[..|steps| - 1]), row, steps[|steps| - 1], c);
    }
  }

  lemma {:induction false} RunInTwo<R>(s: Protocol<R>, steps: seq<Step<R>>, more: seq<Step<R>>)
    ensures Run(s, steps + more) == Run(Run(s, steps), more)
  {
    if more == [] {
      assert steps + more == steps;
    } else {
      var all := steps + more;
      assert all[..|all| - 1] == steps + more[..|more| - 1] && all[|all| - 1] == more[|more| - 1];
      RunInTwo(s, steps, more[..|more| - 1]);
    }
  }

  /** A holder that crashes locks its key: no later run frees the row, and nothing is ever recorded. */
  lemma AbandonedKeyIsStuck<R>(s: Protocol<R>, steps: seq<Step<R>>, more: seq<Step<R>>, c: nat)
    requires Init(s) && c < |Run(s, steps).callers| && Run(s, steps).callers[c].phase.Abandoned?
    ensures Run(s, steps + more).row == Run(s, steps).row && Run(s, steps).row.Some?
    ensures Run(s, steps).row.value.status.InProgress? && Run(s, steps + more).successes == []
  {
    EveryRunKeepsInv(s, steps);
    StuckThroughout(Run(s, steps), Run(s, steps).row, more, c);
    RunInTwo(s, steps, more);
  }

  predicate RowInProgress<R>(s: Protocol<R>) { s.row.Some? && s.row.value.status.InProgress? }

  /** Somebody holds the reservation, or crashed holding it. */
  predicate Held<R>(s: Protocol<R>) { exists c | 0 <= c < |s.callers| :: Holds(s.callers[c].phase) }

  lemma ApplyKeepsHolder<R>(s: Protocol<R>, step: Step<R>)
    requires Inv(s) && (RowInProgress(s) ==> Held(s)) && RowInProgress(Apply(s, step))
    ensures Held(Apply(s, step))
  {
    var t := Apply(s, step);
    if RowInProgress(s) {
      var d :| 0 <= d < |s.callers| && Holds(s.callers[d].phase);
      if Holds(t.callers[d].phase) { assert Held(t); }
    } else {
      assert Holds(t.callers[step.c].phase);
    }
  }

  lemma {:induction false} EveryRunKeepsHolder<R>(s: Protocol<R>, steps: seq<Step<R>>)
    requires Init(s) && RowInProgress(Run(s, steps))
    ensures Held(Run(s, steps))
  {
    if steps != [] {
      var before := steps[..|steps| - 1];
      EveryRunKeepsInv(s, before);
      if RowInProgress(Run(s, before)) { EveryRunKeepsHolder(s, before); }
      ApplyKeepsHolder(Run(s, before), steps[|steps| - 1]);
    }
  }

  /** In every run the row is in progress exactly while some caller holds the reservation or crashed holding it. */
  lemma InProgressExactlyWhenHeld<R>(s: Protocol<R>, steps: seq<Step<R>>)
    requires Init(s)
    ensures RowInProgress(Run(s, steps)) <==> Held(Run(s, steps))
  {
    EveryRunKeepsInv(s, steps);
    if RowInProgress(Run(s, steps)) { EveryRunKeepsHolder(s, steps); }
  }

  predicate Crashed<R>(s: Protocol<R>) { exists c | 0 <= c < |s.callers| :: s.callers[c].phase.Abandoned? }

  /** Whatever happens next, the row stays in progress. */
  ghost predicate LockedForGood<R(!new)>(s: Protocol<R>) {
    forall more: seq<Step<R>> :: RowInProgress(Run(s, more))
  }

  /** A holder that is still running can free the key: it reads the row and records a failure. */
  lemma HolderCanRelease<R>(s: Protocol<R>, c: nat)
    requires Inv(s) && c < |s.callers| && (s.callers[c].phase.Holding? || s.callers[c].phase.Recording?)
    ensures !RowInProgress(Run(s, [ReadToRecord(c, None), Save(c)]))
  {
    var steps: seq<Step<R>> := [ReadToRecord(c, None), Save(c)];
    assert steps[..1][..0] == [] && steps[..1][0] == ReadToRecord(c, None);
    assert Run(s, steps[..1]) == Apply(s, ReadToRecord(c, None));
    assert Apply(s, ReadToRecord(c, None)).callers[c].phase.Recording?;
    assert Run(s, steps) == Apply(Run(s, steps[..1]), Save(c));
  }

  /** A key is locked for good exactly when a caller crashed holding it. */
  lemma LockedExactlyWhenHolderCrashed<R(!new)>(s: Protocol<R>, steps: seq<Step<R>>)
    requires Init(s)
    ensures LockedForGood(Run(s, steps)) <==> Crashed(Run(s, steps))
  {
    var t := Run(s, steps);
    EveryRunKeepsInv(s, steps);
    if c :| 0 <= c < |t.callers| && t.callers[c].phase.Abandoned? {
      forall more: seq<Step<R>> ensures RowInProgress(Run(t, more)) {
        AbandonedKeyIsStuck(s, steps, more, c);
        RunInTwo(s, steps, more);
      }
    } else if LockedForGood(t) {
      assert RowInProgress(Run(t, []));
      EveryRunKeepsHolder(s, steps);
      var c :| 0 <= c < |t.callers| && Holds(t.callers[c].phase);
      HolderCanRelease(t, c);
    }
  }

  /** And callers do crash holding keys: the first request for an unused key, cut off after its insert. */
  lemma CrashLocksKey<R(!new)>(s: Protocol<R>, hash: string, now: Time, ttl: Time)
    requires Init(s) && s.row.None?
    ensures LockedForGood(Run(s, [Arrive(hash), Read(0, now, ttl), Insert(0), Crash(0)]))
  {
    var steps: seq<Step<R>> := [Arrive(hash), Read(0, now, ttl), Insert(0), Crash(0)];
    var s1 := s.(callers := [Caller(hash, Arrived)]);
    var s2 := Enter(s1, 0, Missed(now + ttl));
    var s3 := Enter(s2, 0, Holding).(row := Some(NewKey(hash, now + ttl)));
    FourSteps(s, steps);
    assert Apply(s, steps[0]) == s1 && Apply(s1, steps[1]) == s2 && Apply(s2, steps[2]) == s3;
    assert Run(s, steps) == Enter(s3, 0, Abandoned);
    assert Run(s, steps).callers[0].phase.Abandoned?;
    LockedExactlyWhenHolderCrashed(s, steps);
  }

  lemma FourSteps<R>(s: Protocol<R>, steps: seq<Step<R>>)
    requires |steps| == 4
    ensures Run(s, steps) == Apply(Apply(Apply(Apply(s, steps[0]), steps[1]), steps[2]), steps[3])
  {
    assert steps[..3][..2] == steps[..2] && steps[..2][..1] == steps[..1];
    assert Run(s, steps[..1]) == Apply(s, steps[0]);
    assert Run(s, steps[..2]) == Apply(Run(s, steps[..1]), steps[1]);
    assert Run(s, steps[..3]) == Apply(Run(s, steps[..2]), steps[2]);
  }

  /** At most one execution under a key ever succeeds, and every cached answer anyone gets is that one's response. */
  lemma CachedAnswersAreTheOneSuccess<R>(s: Protocol<R>, steps: seq<Step<R>>, c: nat)
    requires Init(s) && c < |Run(s, steps).callers|
    ensures var t := Run(s, steps);
            |t.successes| <= 1 &&
            (t.callers[c].phase.Answered? && t.callers[c].phase.verdict.Serve? ==>
              t.successes != [] && t.callers[c].phase.verdict.snapshot == Some(t.successes[0])) &&
            (t.callers[c].phase.Recorded? && t.callers[c].phase.result.Some? ==> t.successes == [t.callers[c].phase.result.value])
  {
    EveryRunKeepsInv(s, steps);
    assert CallerConsistent(Run(s, steps), Run(s, steps).callers[c]);
  }

  /**
   * A key belongs to one request for good: whoever is answered gets the conflict error exactly when its request is
   * not the key's, and nobody with another request is ever told to run the operation.
   */
  lemma OtherRequestsConflict<R>(s: Protocol<R>, steps: seq<Step<R>>, c: nat)
    requires Init(s) && c < |Run(s, steps).callers|
    ensures var t := Run(s, steps);
            var caller := t.callers[c];
            (caller.phase.Answered? ==> t.row.Some? && (caller.phase.verdict.Conflict? <==> caller.hash != t.row.value.hash)) &&
            (Holds(caller.phase) || caller.phase.Recorded? ==> t.row.Some? && caller.hash == t.row.value.hash) &&
            !caller.phase.Broken?
  {
    EveryRunKeepsInv(s, steps);
    assert CallerConsistent(Run(s, steps), Run(s, steps).callers[c]);
  }

  lemma {:induction false} HashNeverChanges<R>(s: Protocol<R>, steps: seq<Step<R>>, more: seq<Step<R>>)
    requires Init(s) && Run(s, steps).row.Some?
    ensures Run(s, steps + more).row.Some? && Run(s, steps + more).row.value.hash == Run(s, steps).row.value.hash
  {
    if more == [] {
      assert steps + more == steps;
    } else {
      var all := steps + more;
      var before := steps + more[..|more| - 1];
      assert all[..|all| - 1] == before && all[|all| - 1] == more[|more| - 1];
      HashNeverChanges(s, steps, more[..|more| - 1]);
      EveryRunKeepsInv(s, before);
      var t, step := Run(s, before), more[|more| - 1];
      if !step.Arrive? && step.c < |t.callers| { assert CallerConsistent(t, t.callers[step.c]); }
    }
  }

  // ---- A call that nobody interrupts ----

  datatype Reservation<R> =
    | Fresh
    | Retry
    | Cached(response: Option<R>)
    | ConflictError
    | InFlightError

  /** The row and the answer an uninterrupted `reserve` leaves. */
  function ReservedRow<R>(row: Option<KeyRow<R>>, hash: string, now: Time, ttl: Time): KeyRow<R> {
    if row.None? then NewKey(hash, now + ttl)
    else
      var v := Classify(row.value, hash, now);
      if v.TryClaim? && row.value.status in v.from then Claimed(row.value, now + ttl) else row.value
  }

  function ReserveAnswer<R>(row: Option<KeyRow<R>>, hash: string, now: Time): Reservation<R> {
    if row.None? then Fresh
    else
      match Classify(row.value, hash, now)
      case Conflict => ConflictError
      case InFlight => InFlightError
      case Serve(snapshot) => Cached(snapshot)
      case TryClaim(from) => if row.value.status in from then Retry else InFlightError
  }

  /** The row an uninterrupted call leaves: its own reservation when it is told to run, and otherwise the row it found. */
  lemma ReservedRowSpelledOut<R>(row: Option<KeyRow<R>>, hash: string, now: Time, ttl: Time)
    ensures var answer, after := ReserveAnswer(row, hash, now), ReservedRow(row, hash, now, ttl);
            if answer.Fresh? || answer.Retry? then after == KeyRow(hash, InProgress, None, now + ttl) else row == Some(after)
  {
  }

  /** And each answer under its own exact condition. */
  lemma AnswerExactlyWhen<R>(row: Option<KeyRow<R>>, hash: string, now: Time)
    ensures var answer := ReserveAnswer(row, hash, now);
            && (answer.Fresh? <==> row.None?)
            && (answer.ConflictError? <==> row.Some? && row.value.hash != hash)
            && (answer.Cached? <==> row.Some? && row.value.hash == hash && row.value.status.Completed?)
            && (answer.Cached? ==> answer.response == row.value.snapshot)
            && (answer.Retry? <==> row.Some? && row.value.hash == hash &&
                                   (row.value.status.Failed? || (row.value.status.Expired? && row.value.expiresAt <= now)))
            && (answer.InFlightError? <==> row.Some? && row.value.hash == hash &&
                                           (row.value.status.InProgress? || (row.value.status.Expired? && row.value.expiresAt > now)))
  {
  }

  /** A success completes the row with its response, a failure leaves it failed without one; hash and expiry stay. */
  lemma RecordedRowSpelledOut<R>(row: KeyRow<R>, result: Option<R>)
    ensures var after := RecordedRow(row, result);
            after.hash == row.hash && after.expiresAt == row.expiresAt && after.snapshot == result &&
            (after.status.Completed? <==> result.Some?) && (after.status.Failed? <==> result.None?)
  {
  }

  function FinalPhase<R>(a: Reservation<R>): Phase<R> {
    match a
    case Fresh => Holding
    case Retry => Holding
    case Cached(r) => Answered(Serve(r))
    case ConflictError => Answered(Conflict)
    case InFlightError => Answered(InFlight)
  }

  /** The uninterrupted call is one run of the protocol: the same row, the same answer. */
  lemma ReserveIsARun<R>(s: Protocol<R>, hash: string, now: Time, ttl: Time)
    ensures var c := |s.callers|;
            var steps := [Arrive(hash), Read(c, now, ttl), Insert(c), Judge(c, now), Claim(c)];
            Run(s, steps) == s.(row := Some(ReservedRow(s.row, hash, now, ttl)),
                                callers := s.callers + [Caller(hash, FinalPhase(ReserveAnswer(s.row, hash, now)))])
  {
    var c := |s.callers|;
    var steps: seq<Step<R>> := [Arrive(hash), Read(c, now, ttl), Insert(c), Judge(c, now), Claim(c)];
    FiveSteps(s, steps);
    var arrived := s.(callers := s.callers + [Caller(hash, Arrived)]);
    ReserveFromArrival(arrived, c, now, ttl);
  }

  lemma ReserveFromArrival<R>(s: Protocol<R>, c: nat, now: Time, ttl: Time)
    requires c < |s.callers| && s.callers[c].phase.Arrived?
    ensures var hash := s.callers[c].hash;
            Apply(Apply(Apply(Apply(s, Read(c, now, ttl)), Insert(c)), Judge(c, now)), Claim(c)) ==
            Enter(s, c, FinalPhase(ReserveAnswer(s.row, hash, now))).(row := Some(ReservedRow(s.row, hash, now, ttl)))
  {
    var hash := s.callers[c].hash;
    if s.row.None? {
      var missed := Enter(s, c, Missed(now + ttl));
      var held := Enter(missed, c, Holding).(row := Some(NewKey(hash, now + ttl)));
      assert Apply(s, Read(c, now, ttl)) == missed;
      assert Apply(missed, Insert(c)) == held;
      assert Apply(held, Judge(c, now)) == held && Apply(held, Claim(c)) == held;
    } else {
      var looked := Enter(s, c, Looked(s.row.value, now + ttl));
      assert Apply(s, Read(c, now, ttl)) == looked && Apply(looked, Insert(c)) == looked;
      JudgeAndClaim(looked, c, now);
    }
  }

  lemma JudgeAndClaim<R>(s: Protocol<R>, c: nat, now: Time)
    requires c < |s.callers| && s.callers[c].phase.Looked? && s.row == Some(s.callers[c].phase.seen)
    ensures var hash, expiresAt := s.callers[c].hash, s.callers[c].phase.expiresAt;
            Apply(Apply(s, Judge(c, now)), Claim(c)) ==
            Enter(s, c, FinalPhase(ReserveAnswer(s.row, hash, now))).(
              row := Some(ReservedRow(s.row, hash, now, expiresAt - now)))
  {
    var v := Classify(s.row.value, s.callers[c].hash, now);
    var judged := Enter(s, c, AfterVerdict(v, s.callers[c].phase.expiresAt));
    assert Apply(s, Judge(c, now)) == judged;
    if !v.TryClaim? { assert Apply(judged, Claim(c)) == judged; }
  }

  lemma FiveSteps<R>(s: Protocol<R>, steps: seq<Step<R>>)
    requires |steps| == 5
    ensures Run(s, steps) == Apply(Apply(Apply(Apply(Apply(s, steps[0]), steps[1]), steps[2]), steps[3]), steps[4])
  {
    FourSteps(s, steps[..4]);
  }

  /**
   * When an uninterrupted call is told to run the operation: in any run, exactly when its request is the key's (or
   * the key is unused), nobody holds the key, no success has been recorded, and a key that came swept as expired has
   * passed its expiry time.
   */
  lemma GrantedExactlyWhenFree<R>(s: Protocol<R>, steps: seq<Step<R>>, hash: string, now: Time)
    requires Init(s)
    ensures var t := Run(s, steps);
            var answer := ReserveAnswer(t.row, hash, now);
            answer.Fresh? || answer.Retry? <==>
              (t.row.Some? ==> t.row.value.hash == hash && (t.row.value.status.Expired? ==> t.row.value.expiresAt <= now)) &&
              !Held(t) && t.successes == []
  {
    EveryRunKeepsInv(s, steps);
    InProgressExactlyWhenHeld(s, steps);
  }
}
