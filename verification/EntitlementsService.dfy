/** The recompute loops, proved to leave exactly the rows `Entitlements.RecomputedRows` describes. */
module EntitlementsService {
  import opened Model
  import opened Entitlements
  import opened Store

  /** Rows once the first `n` expectations have been honoured and nothing has been deactivated yet. */
  function Midway(rows: seq<Entitlement>, es: seq<Expected>, userId: int): seq<Entitlement> {
    seq(|rows|, i requires 0 <= i < |rows| => Touch(rows[i], es, userId)) + Inserted(es, rows, userId)
  }

  function FindRow(rows: seq<Entitlement>, userId: int, e: Expected): (i: nat)
    ensures i <= |rows|
    ensures i < |rows| ==> rows[i].userId == userId && Matches(rows[i], e)
    ensures forall k | 0 <= k < i :: !(rows[k].userId == userId && Matches(rows[k], e))
  {
    if rows == [] || (rows[0].userId == userId && Matches(rows[0], e)) then 0 else 1 + FindRow(rows[1..], userId, e)
  }

  function Honoured(rows: seq<Entitlement>, userId: int, e: Expected): seq<Entitlement> {
    var h := FindRow(rows, userId, e);
    if h < |rows| then rows[h := Activate(rows[h], e)] else rows + [NewRow(userId, e)]
  }

  /** A row read into memory, with the place it came from. */
  datatype Loaded = Loaded(at: nat, row: Entitlement)

  /** The user's active rows among the first `n`. */
  function LoadActive(rows: seq<Entitlement>, userId: int, n: nat): seq<Loaded>
    requires n <= |rows|
  {
    if n == 0 then []
    else
      var rest := LoadActive(rows, userId, n - 1);
      if rows[n - 1].userId == userId && rows[n - 1].active then rest + [Loaded(n - 1, rows[n - 1])] else rest
  }

  lemma {:induction false} LoadActiveFacts(rows: seq<Entitlement>, userId: int, n: nat)
    requires n <= |rows|
    ensures var r := LoadActive(rows, userId, n);
            && (forall k | 0 <= k < |r| :: r[k].at < n && r[k].row == rows[r[k].at] && r[k].row.userId == userId && r[k].row.active)
            && (forall k, l | 0 <= k < l < |r| :: r[k].at < r[l].at)
            && (forall i | 0 <= i < n && rows[i].userId == userId && rows[i].active :: exists k | 0 <= k < |r| :: r[k].at == i)
  {
    if n > 0 {
      LoadActiveFacts(rows, userId, n - 1);
      var rest, r := LoadActive(rows, userId, n - 1), LoadActive(rows, userId, n);
      forall i | 0 <= i < n && rows[i].userId == userId && rows[i].active
        ensures exists k | 0 <= k < |r| :: r[k].at == i
      {
        if i == n - 1 {
          assert r[|rest|].at == i;
        } else {
          var k :| 0 <= k < |rest| && rest[k].at == i;
          assert r[k].at == i;
        }
      }
    }
  }

  function FindLoaded(active: seq<Loaded>, e: Expected): (k: nat)
    ensures k <= |active|
    ensures k < |active| ==> Matches(active[k].row, e)
    ensures forall j | 0 <= j < k :: !Matches(active[j].row, e)
  {
    if active == [] || Matches(active[0].row, e) then 0 else 1 + FindLoaded(active[1..], e)
  }

  /** Honouring one more expectation activates the one row that has its key, or appends that row. */
  lemma MidwayStep(rows: seq<Entitlement>, es: seq<Expected>, n: nat, userId: int)
    requires n < |es| && OneRowPerKey(rows) && WellFormed(es)
    ensures Midway(rows, es[..n + 1], userId) == Honoured(Midway(rows, es[..n], userId), userId, es[n])
  {
    var mid, next := Midway(rows, es[..n], userId), Midway(rows, es[..n + 1], userId);
    var h := FindRow(mid, userId, es[n]);
    MidwayRows(rows, es, n, userId);
    MidwayTail(rows, es, n, userId);
    if h < |mid| {
      MidwayHit(rows, es, n, userId, h);
      assert next[|rows|..] == mid[|rows|..];
      assert forall i | |rows| <= i < |mid| :: next[i] == next[|rows|..][i - |rows|];
      MidwayStepHit(mid, next, |rows|, userId, es[n], h);
    } else {
      MidwayMiss(rows, es, n, userId);
      MidwayStepMiss(mid, next, |rows|, userId, es[n]);
    }
  }

  lemma MidwayTail(rows: seq<Entitlement>, es: seq<Expected>, n: nat, userId: int)
    requires n < |es|
    ensures var mid, next := Midway(rows, es[..n], userId), Midway(rows, es[..n + 1], userId);
            next[|rows|..] == mid[|rows|..] +
              if HasRow(rows + Inserted(es[..n], rows, userId), userId, es[n]) then [] else [NewRow(userId, es[n])]
  {
    assert es[..n + 1][..n] == es[..n];
  }

  lemma MidwayStepMiss(mid: seq<Entitlement>, next: seq<Entitlement>, split: nat, userId: int, e: Expected)
    requires split <= |mid| && |next| >= split && FindRow(mid, userId, e) == |mid|
    requires forall i | 0 <= i < split ::
      next[i] == if mid[i].userId == userId && Matches(mid[i], e) then Activate(mid[i], e) else mid[i]
    requires next[split..] == mid[split..] + [NewRow(userId, e)]
    ensures next == mid + [NewRow(userId, e)]
  {
    assert next == next[..split] + next[split..];
    assert next[..split] == mid[..split];
  }

  lemma MidwayStepHit(mid: seq<Entitlement>, next: seq<Entitlement>, split: nat, userId: int, e: Expected, h: nat)
    requires OneRowPerKey(mid) && split <= |mid| == |next|
    requires h == FindRow(mid, userId, e) < |mid|
    requires forall i | 0 <= i < split ::
      next[i] == if mid[i].userId == userId && Matches(mid[i], e) then Activate(mid[i], e) else mid[i]
    requires forall i | split <= i < |mid| :: next[i] == mid[i]
    requires h >= split ==> Activate(mid[h], e) == mid[h]
    ensures next == mid[h := Activate(mid[h], e)]
  {
    forall i | 0 <= i < |mid| && i != h ensures next[i] == mid[i] {
      assert !SameKey(mid[i], mid[h]);
    }
  }

  lemma MidwayRows(rows: seq<Entitlement>, es: seq<Expected>, n: nat, userId: int)
    requires n < |es| && WellFormed(es)
    ensures var mid, next := Midway(rows, es[..n], userId), Midway(rows, es[..n + 1], userId);
            forall i | 0 <= i < |rows| ::
              next[i] == if mid[i].userId == userId && Matches(mid[i], es[n]) then Activate(mid[i], es[n]) else mid[i]
  {
    forall i | 0 <= i < |rows| {
      ExpectedForOneMore(es, n, rows[i]);
    }
  }

  lemma MidwayMiss(rows: seq<Entitlement>, es: seq<Expected>, n: nat, userId: int)
    requires n < |es| && OneRowPerKey(rows) && WellFormed(es)
    requires FindRow(Midway(rows, es[..n], userId), userId, es[n]) == |Midway(rows, es[..n], userId)|
    ensures !HasRow(rows + Inserted(es[..n], rows, userId), userId, es[n])
  {
    var mid, added, e := Midway(rows, es[..n], userId), Inserted(es[..n], rows, userId), es[n];
    MidwayKeepsKeys(rows, es[..n], userId);
    forall i | 0 <= i < |rows + added|
      ensures !((rows + added)[i].userId == userId && Matches((rows + added)[i], e))
    {
      assert SameKey(mid[i], (rows + added)[i]);
    }
  }

  lemma MidwayHit(rows: seq<Entitlement>, es: seq<Expected>, n: nat, userId: int, h: nat)
    requires n < |es| && OneRowPerKey(rows) && WellFormed(es)
    requires h == FindRow(Midway(rows, es[..n], userId), userId, es[n]) < |Midway(rows, es[..n], userId)|
    ensures OneRowPerKey(Midway(rows, es[..n], userId))
    ensures HasRow(rows + Inserted(es[..n], rows, userId), userId, es[n])
    ensures h >= |rows| ==> Activate(Midway(rows, es[..n], userId)[h], es[n]) == Midway(rows, es[..n], userId)[h]
  {
    var head, e := es[..n], es[n];
    var mid, added := Midway(rows, head, userId), Inserted(head, rows, userId);
    MidwayKeepsKeys(rows, head, userId);
    if h < |rows| {
      assert (rows + added)[h] == rows[h];
      assert SameKey(rows[h], mid[h]);
    } else {
      assert mid[h] == added[h - |rows|] && (rows + added)[h] == mid[h];
      InsertedOrigin(head, rows, userId, mid[h]);
      var d :| d in head && mid[h] == NewRow(userId, d);
      assert d in es && e in es;
    }
  }

  lemma MidwayKeepsKeys(rows: seq<Entitlement>, es: seq<Expected>, userId: int)
    requires OneRowPerKey(rows)
    ensures OneRowPerKey(Midway(rows, es, userId))
    ensures forall i | 0 <= i < |rows| :: SameKey(Midway(rows, es, userId)[i], rows[i])
  {
    var mid, added := Midway(rows, es, userId), Inserted(es, rows, userId);
    InsertedDistinct(es, rows, userId);
    forall i, j | 0 <= i < |rows| <= j < |mid|
      ensures !SameKey(mid[i], mid[j])
    {
      assert mid[j] == added[j - |rows|];
      InsertedOrigin(es, rows, userId, mid[j]);
      assert rows[i] in rows;
    }
  }

  lemma ExpectedForOneMore(es: seq<Expected>, n: nat, row: Entitlement)
    requires n < |es| && WellFormed(es)
    ensures var k := ExpectedFor(es[..n], row);
            var m := ExpectedFor(es[..n + 1], row);
            if k < n then m == k && (Matches(row, es[n]) ==> es[k].startsAt == es[n].startsAt && es[k].endsAt == es[n].endsAt)
            else if Matches(row, es[n]) then m == n else m == n + 1
  {
    var k, m := ExpectedFor(es[..n], row), ExpectedFor(es[..n + 1], row);
    assert forall j | 0 <= j < n :: es[..n + 1][j] == es[..n][j];
    if k < n {
      assert Matches(row, es[..n + 1][k]);
      assert es[k] in es && es[n] in es;
    } else {
      assert m >= n;
      assert es[..n + 1][n] == es[n];
    }
  }

  class EntitlementsService {
    const store: BillingStore

    constructor (store: BillingStore)
      ensures this.store == store
    {
      this.store := store;
    }

    method CanAccess(userId: int, featureKey: string, now: Time) returns (allowed: bool)
      ensures allowed == Entitlements.CanAccess(store.entitlements, userId, featureKey, now)
    {
      if userId <= 0 { return false; }
      if featureKey == "" { return false; }
      var graceTime := now - ACCESS_GRACE;
      allowed := exists r | r in store.entitlements ::
        r.userId == userId && r.featureKey == featureKey && r.active && (r.endsAt.None? || r.endsAt.value > graceTime);
      assert forall r | r in store.entitlements :: WindowOpen(r.endsAt, now) <==> (r.endsAt.None? || r.endsAt.value > graceTime);
    }

    method BuildExpectedEntitlements(userId: int) returns (expected: seq<Expected>)
      ensures expected == BuildExpected(store.View(), userId)
    {
      expected := [];
      for i := 0 to |store.subscriptions|
        invariant expected == FromSubscriptions(store.subscriptions[..i], store.plans, userId)
      {
        assert store.subscriptions[..i + 1][..i] == store.subscriptions[..i];
        var sub := store.subscriptions[i];
        if sub.userId == userId && Granting(sub.status) {
          var features := FeaturesOf(store.plans, sub.planId);
          expected := expected + Project(features, BySubscription, sub.id, sub.periodStart, sub.periodEnd);
        }
      }
      assert store.subscriptions[..|store.subscriptions|] == store.subscriptions;
      var purchased := ExpectedFromPurchases(userId);
      expected := expected + purchased;
    }

    /** What the user's succeeded one-time payments grant. */
    method ExpectedFromPurchases(userId: int) returns (expected: seq<Expected>)
      ensures expected == FromPayments(store.payments, store.prices, store.plans, userId)
    {
      expected := [];
      for i := 0 to |store.payments|
        invariant expected == FromPayments(store.payments[..i], store.prices, store.plans, userId)
      {
        assert store.payments[..i + 1][..i] == store.payments[..i];
        var payment := store.payments[i];
        if OneTimePurchase(store.prices, payment, userId) {
          var features := FeaturesOf(store.plans, PlanOfPayment(store.prices, payment));
          expected := expected + Project(features, ByOneTimePayment, payment.id, Some(payment.createdAt), None);
        }
      }
      assert store.payments[..|store.payments|] == store.payments;
    }

    /** Keeps the loaded row the expectation asks for, or else reactivates or inserts it. */
    method Honour(userId: int, exp: Expected, loaded: seq<Loaded>) returns (active: seq<Loaded>, kept: bool)
      requires InStep(loaded, loaded, store.entitlements) && DistinctPlaces(loaded)
      requires var k := FindLoaded(loaded, exp);
               if k < |loaded| then loaded[k].row.active && loaded[k].at == FindRow(store.entitlements, userId, exp)
               else forall k | 0 <= k < |loaded| :: loaded[k].at != FindRow(store.entitlements, userId, exp)
      modifies store`entitlements
      ensures store.entitlements == Honoured(old(store.entitlements), userId, exp)
      ensures InStep(active, loaded, store.entitlements)
      ensures kept == (FindLoaded(loaded, exp) < |loaded|)
    {
      active := loaded;
      var found := FindLoaded(loaded, exp);
      kept := found < |loaded|;
      if kept {
        var existing := loaded[found];
        var changed := false;
        if existing.row.startsAt != exp.startsAt {
          existing := existing.(row := existing.row.(startsAt := exp.startsAt));
          changed := true;
        }
        if existing.row.endsAt != exp.endsAt {
          existing := existing.(row := existing.row.(endsAt := exp.endsAt));
          changed := true;
        }
        if changed {
          store.entitlements := store.entitlements[existing.at := existing.row];
        }
        active := active[found := existing];
      } else {
        var historical := FindRow(store.entitlements, userId, exp);
        if historical < |store.entitlements| {
          store.entitlements := store.entitlements[historical := Activate(store.entitlements[historical], exp)];
        } else {
          store.entitlements := store.entitlements + [NewRow(userId, exp)];
        }
      }
    }

    /** The first loop: one expectation at a time. */
    method HonourExpected(userId: int, expected: seq<Expected>, loaded: seq<Loaded>)
      returns (active: seq<Loaded>, added: nat, kept: nat)
      requires OneRowPerKey(store.entitlements) && WellFormed(expected)
      requires loaded == LoadActive(store.entitlements, userId, |store.entitlements|)
      modifies store`entitlements
      ensures store.entitlements == Midway(old(store.entitlements), expected, userId)
      ensures InStep(active, loaded, store.entitlements)
      ensures added + kept == |expected|
      ensures kept == |KeptSet(old(store.entitlements), expected, userId, |expected|)|
    {
      ghost var rows := store.entitlements;
      active, added, kept := loaded, 0, 0;
      assert Midway(rows, [], userId) == rows;
      LoadActiveFacts(rows, userId, |rows|);
      for n := 0 to |expected|
        invariant store.entitlements == Midway(rows, expected[..n], userId)
        invariant InStep(active, loaded, store.entitlements)
        invariant added + kept == n
        invariant kept == |KeptSet(rows, expected, userId, n)|
      {
        MidwayStep(rows, expected, n, userId);
        KeptSetStep(rows, expected, userId, n);
        LoadedSearch(rows, expected, n, userId, active, loaded);
        ghost var before := active;
        var wasKept;
        active, wasKept := Honour(userId, expected[n], active);
        SamePlaces(active, before, loaded, store.entitlements);
        if wasKept { kept := kept + 1; } else { added := added + 1; }
      }
      assert expected[..|expected|] == expected;
    }

    /** The second loop: deactivate the loaded rows whose joined key nobody expects. */
    method DeactivateStale(userId: int, expected: seq<Expected>, active: seq<Loaded>, now: Time,
                           ghost rows: seq<Entitlement>)
      returns (removed: nat)
      requires WellFormed(expected) && store.entitlements == Midway(rows, expected, userId)
      requires InStep(active, LoadActive(rows, userId, |rows|), store.entitlements)
      modifies store`entitlements
      ensures store.entitlements == RecomputedRows(rows, expected, userId, now)
      ensures removed == |StaleSet(rows, expected, userId, |rows|)|
    {
      var expectedKeys := set e | e in expected :: JoinedKey(e.featureKey, e.sourceType, Some(e.sourceId));
      removed := 0;
      SettleEnds(rows, expected, userId, now);
      for k := 0 to |active|
        invariant store.entitlements == Settling(rows, expected, userId, now, Reach(rows, userId, k))
        invariant removed == |StaleSet(rows, expected, userId, Reach(rows, userId, k))|
      {
        LoadedRow(rows, expected, userId, now, k);
        SettleRow(rows, expected, userId, now, k);
        var row := active[k].row;
        KeyTest(row, expected);
        if !row.sourceType.ByManualGrant? {
          var key := JoinedKey(row.featureKey, row.sourceType, row.sourceId);
          if key !in expectedKeys {
            store.entitlements := store.entitlements[active[k].at := row.(active := false, endsAt := Some(now))];
            removed := removed + 1;
          }
        }
      }
    }

    method RecomputeForUser(userId: int, now: Time) returns (added: nat, removed: nat, kept: nat)
      requires Valid(store.View())
      modifies store`entitlements
      ensures store.View() == Recomputed(old(store.View()), userId, now)
      ensures var expected := BuildExpected(old(store.View()), userId);
              && kept == |KeptSet(old(store.entitlements), expected, userId, |expected|)|
              && added + kept == |expected|
              && removed == |StaleSet(old(store.entitlements), expected, userId, |old(store.entitlements)|)|
    {
      ghost var rows := store.entitlements;
      var expected := BuildExpectedEntitlements(userId);
      ExpectedIsWellFormed(store.View(), userId);
      var loaded := LoadActive(store.entitlements, userId, |store.entitlements|);
      var active;
      active, added, kept := HonourExpected(userId, expected, loaded);
      removed := DeactivateStale(userId, expected, active, now, rows);
    }
  }

  // ---- Counting ----

  /** The first `n` expectations that an active row already met: the recompute's `kept`. */
  ghost function KeptSet(rows: seq<Entitlement>, es: seq<Expected>, userId: int, n: nat): set<int>
    requires n <= |es|
  {
    set m | 0 <= m < n && HasActiveRow(rows, userId, es[m])
  }

  lemma KeptSetStep(rows: seq<Entitlement>, es: seq<Expected>, userId: int, n: nat)
    requires n < |es|
    ensures |KeptSet(rows, es, userId, n + 1)| == |KeptSet(rows, es, userId, n)| + if HasActiveRow(rows, userId, es[n]) then 1 else 0
  {
    assert KeptSet(rows, es, userId, n + 1) ==
      if HasActiveRow(rows, userId, es[n]) then KeptSet(rows, es, userId, n) + {n} else KeptSet(rows, es, userId, n);
  }

  /** The stale rows among the first `n`: the recompute's `removed`. */
  ghost function StaleSet(rows: seq<Entitlement>, es: seq<Expected>, userId: int, n: nat): set<int>
    requires n <= |rows|
  {
    set i | 0 <= i < n && Stale(rows[i], es, userId)
  }

  // ---- Rows held in memory while the table changes under them ----

  /** `active` are the rows first loaded, each with its table row's present contents. */
  predicate InStep(active: seq<Loaded>, loaded: seq<Loaded>, rows: seq<Entitlement>) {
    |active| == |loaded| &&
    forall k | 0 <= k < |active| ::
      active[k].at == loaded[k].at < |rows| && active[k].row == rows[active[k].at]
  }

  /** A loaded row with the key is the table's row with that key, and it is active. */
  lemma LoadedHit(rows: seq<Entitlement>, es: seq<Expected>, n: nat, userId: int, active: seq<Loaded>, loaded: seq<Loaded>)
    requires n < |es| && OneRowPerKey(rows) && loaded == LoadActive(rows, userId, |rows|)
    requires InStep(active, loaded, Midway(rows, es[..n], userId))
    requires FindLoaded(active, es[n]) < |active|
    ensures var found := active[FindLoaded(active, es[n])];
            HasActiveRow(rows, userId, es[n]) && found.row.active &&
            found.at == FindRow(Midway(rows, es[..n], userId), userId, es[n])
  {
    var mid, e := Midway(rows, es[..n], userId), es[n];
    var found := FindLoaded(active, e);
    var at := active[found].at;
    MidwayKeepsKeys(rows, es[..n], userId);
    LoadActiveFacts(rows, userId, |rows|);
    assert loaded[found].row == rows[at] && SameKey(mid[at], rows[at]);
    assert rows[at] in rows;
    var h := FindRow(mid, userId, e);
    if h < at { assert SameKey(mid[h], mid[at]); assert false; }
  }

  /** No loaded row with the key means no active row had it, and whatever row has it is not among the loaded ones. */
  lemma LoadedMiss(rows: seq<Entitlement>, es: seq<Expected>, n: nat, userId: int, active: seq<Loaded>, loaded: seq<Loaded>)
    requires n < |es| && OneRowPerKey(rows) && loaded == LoadActive(rows, userId, |rows|)
    requires InStep(active, loaded, Midway(rows, es[..n], userId))
    requires FindLoaded(active, es[n]) == |active|
    ensures !HasActiveRow(rows, userId, es[n])
    ensures forall k | 0 <= k < |active| :: active[k].at != FindRow(Midway(rows, es[..n], userId), userId, es[n])
  {
    var mid, e := Midway(rows, es[..n], userId), es[n];
    MidwayKeepsKeys(rows, es[..n], userId);
    LoadActiveFacts(rows, userId, |rows|);
    forall i | 0 <= i < |rows| && rows[i].userId == userId && rows[i].active
      ensures !Matches(rows[i], e)
    {
      var k :| 0 <= k < |loaded| && loaded[k].at == i;
      assert SameKey(active[k].row, rows[i]);
    }
  }

  lemma SamePlaces(active: seq<Loaded>, before: seq<Loaded>, loaded: seq<Loaded>, rows: seq<Entitlement>)
    requires InStep(active, before, rows) && |before| == |loaded|
    requires forall k | 0 <= k < |before| :: before[k].at == loaded[k].at
    ensures InStep(active, loaded, rows)
  {
  }

  predicate DistinctPlaces(active: seq<Loaded>) {
    forall i, j | 0 <= i < j < |active| :: active[i].at != active[j].at
  }

  lemma LoadedSearch(rows: seq<Entitlement>, es: seq<Expected>, n: nat, userId: int, active: seq<Loaded>, loaded: seq<Loaded>)
    requires n < |es| && OneRowPerKey(rows) && loaded == LoadActive(rows, userId, |rows|)
    requires InStep(active, loaded, Midway(rows, es[..n], userId))
    ensures DistinctPlaces(active)
    ensures HasActiveRow(rows, userId, es[n]) <==> FindLoaded(active, es[n]) < |active|
    ensures var k := FindLoaded(active, es[n]);
            var h := FindRow(Midway(rows, es[..n], userId), userId, es[n]);
            if k < |active| then active[k].row.active && active[k].at == h
            else forall k | 0 <= k < |active| :: active[k].at != h
  {
    LoadActiveFacts(rows, userId, |rows|);
    assert forall i, j | 0 <= i < j < |active| :: loaded[i].at < loaded[j].at;
    if FindLoaded(active, es[n]) < |active| {
      LoadedHit(rows, es, n, userId, active, loaded);
    } else {
      LoadedMiss(rows, es, n, userId, active, loaded);
    }
  }

  /** The rows below `reach` in their final state, the others as the first loop left them. */
  ghost function Settling(rows: seq<Entitlement>, es: seq<Expected>, userId: int, now: Time, reach: nat): seq<Entitlement> {
    seq(|rows|, i requires 0 <= i < |rows| =>
      if i < reach then Reconcile(rows[i], es, userId, now) else Touch(rows[i], es, userId)) + Inserted(es, rows, userId)
  }

  /** How far the removal loop has settled the table before its `k`th row. */
  ghost function Reach(rows: seq<Entitlement>, userId: int, k: nat): (r: nat)
    ensures r <= |rows|
  {
    var loaded := LoadActive(rows, userId, |rows|);
    LoadActiveFacts(rows, userId, |rows|);
    if k < |loaded| then loaded[k].at else |rows|
  }

  /** Where the stretch between the `k - 1`st and the `k`th loaded row begins. */
  ghost function Resume(rows: seq<Entitlement>, userId: int, k: nat): (r: nat)
    requires k <= |LoadActive(rows, userId, |rows|)|
    ensures r <= Reach(rows, userId, k)
  {
    LoadActiveFacts(rows, userId, |rows|);
    if k == 0 then 0 else Reach(rows, userId, k - 1) + 1
  }

  /** Between two loaded rows there is nothing to deactivate. */
  lemma QuietGap(rows: seq<Entitlement>, es: seq<Expected>, userId: int, now: Time, k: nat)
    requires k <= |LoadActive(rows, userId, |rows|)|
    ensures forall i | Resume(rows, userId, k) <= i < Reach(rows, userId, k) ::
              Reconcile(rows[i], es, userId, now) == Touch(rows[i], es, userId)
    ensures StaleSet(rows, es, userId, Reach(rows, userId, k)) == StaleSet(rows, es, userId, Resume(rows, userId, k))
  {
    var loaded := LoadActive(rows, userId, |rows|);
    LoadActiveFacts(rows, userId, |rows|);
    forall i | Resume(rows, userId, k) <= i < Reach(rows, userId, k)
      ensures !Stale(rows[i], es, userId)
    {
      assert forall l | 0 <= l < |loaded| :: loaded[l].at != i by {
        forall l | 0 <= l < |loaded| ensures loaded[l].at != i {
          if l < k { assert l == k - 1 || loaded[l].at < loaded[k - 1].at; }
          else { assert l == k || loaded[k].at < loaded[l].at; }
        }
      }
    }
  }

  lemma SettleEnds(rows: seq<Entitlement>, es: seq<Expected>, userId: int, now: Time)
    ensures Settling(rows, es, userId, now, Reach(rows, userId, 0)) == Midway(rows, es, userId)
    ensures StaleSet(rows, es, userId, Reach(rows, userId, 0)) == {}
    ensures Reach(rows, userId, |LoadActive(rows, userId, |rows|)|) == |rows|
    ensures Settling(rows, es, userId, now, |rows|) == RecomputedRows(rows, es, userId, now)
  {
    QuietGap(rows, es, userId, now, 0);
  }

  /** Where the `k`th loaded row is, and what the removal test makes of it. */
  lemma LoadedRow(rows: seq<Entitlement>, es: seq<Expected>, userId: int, now: Time, k: nat)
    requires k < |LoadActive(rows, userId, |rows|)|
    ensures var at := LoadActive(rows, userId, |rows|)[k].at;
            && at == Reach(rows, userId, k) < |rows|
            && var row := Midway(rows, es, userId)[at];
               && Settling(rows, es, userId, now, at)[at] == row
               && (Stale(rows[at], es, userId) <==> !row.sourceType.ByManualGrant? && ExpectedFor(es, row) == |es|)
               && Reconcile(rows[at], es, userId, now)
                  == (if Stale(rows[at], es, userId) then row.(active := false, endsAt := Some(now)) else row)
  {
    LoadActiveFacts(rows, userId, |rows|);
    var at := Reach(rows, userId, k);
    SameExpectation(es, rows[at], Touch(rows[at], es, userId));
  }

  /** One round of the removal loop settles the table as far as the next loaded row. */
  lemma SettleRow(rows: seq<Entitlement>, es: seq<Expected>, userId: int, now: Time, k: nat)
    requires k < |LoadActive(rows, userId, |rows|)|
    requires Reach(rows, userId, k) < |rows|
    ensures var at, next := Reach(rows, userId, k), Reach(rows, userId, k + 1);
            && Settling(rows, es, userId, now, next)
               == Settling(rows, es, userId, now, at)[at := Reconcile(rows[at], es, userId, now)]
            && |StaleSet(rows, es, userId, next)|
               == |StaleSet(rows, es, userId, at)| + (if Stale(rows[at], es, userId) then 1 else 0)
  {
    var at, next := Reach(rows, userId, k), Reach(rows, userId, k + 1);
    StaleSetStep(rows, es, userId, at);
    QuietGap(rows, es, userId, now, k + 1);
    assert Resume(rows, userId, k + 1) == at + 1;
    SettlingStep(rows, es, userId, now, at, next);
  }

  lemma StaleSetStep(rows: seq<Entitlement>, es: seq<Expected>, userId: int, at: nat)
    requires at < |rows|
    ensures |StaleSet(rows, es, userId, at + 1)| == |StaleSet(rows, es, userId, at)| + (if Stale(rows[at], es, userId) then 1 else 0)
  {
    assert StaleSet(rows, es, userId, at + 1) ==
      if Stale(rows[at], es, userId) then StaleSet(rows, es, userId, at) + {at} else StaleSet(rows, es, userId, at);
  }

  lemma SettlingStep(rows: seq<Entitlement>, es: seq<Expected>, userId: int, now: Time, at: nat, reach: nat)
    requires at < reach <= |rows|
    requires forall i | at < i < reach :: Reconcile(rows[i], es, userId, now) == Touch(rows[i], es, userId)
    ensures Settling(rows, es, userId, now, reach)
            == Settling(rows, es, userId, now, at)[at := Reconcile(rows[at], es, userId, now)]
  {
  }

  /** The joined-key test of the removal loop is the three-field test of the first loop. */
  lemma KeyTest(row: Entitlement, es: seq<Expected>)
    ensures JoinedKey(row.featureKey, row.sourceType, row.sourceId)
              in (set e | e in es :: JoinedKey(e.featureKey, e.sourceType, Some(e.sourceId)))
            <==> ExpectedFor(es, row) < |es|
  {
    var key := JoinedKey(row.featureKey, row.sourceType, row.sourceId);
    var k := ExpectedFor(es, row);
    if k < |es| { assert es[k] in es; }
    if e :| e in es && JoinedKey(e.featureKey, e.sourceType, Some(e.sourceId)) == key {
      JoinedKeyIsInjective(e.featureKey, e.sourceType, Some(e.sourceId), row.featureKey, row.sourceType, row.sourceId);
      var j :| 0 <= j < |es| && es[j] == e;
      assert Matches(row, es[j]);
    }
  }
}
