/** The key table and its three operations, each run without interruption. */
module IdempotencyService {
  import opened Model
  import opened Idempotency
  import CanonicalJson
  import JsonText

  function RowOf<R>(keys: map<string, KeyRow<R>>, key: string): Option<KeyRow<R>> {
    if key in keys then Some(keys[key]) else None
  }

  class IdempotencyService<R> {
    var keys: map<string, KeyRow<R>>
    const digest: CanonicalJson.JsString -> string

    constructor (digest: CanonicalJson.JsString -> string)
      ensures keys == map[] && this.digest == digest
    {
      keys := map[];
      this.digest := digest;
    }

    function HashRequest(request: CanonicalJson.Json): string {
      digest(JsonText.CanonicalText(request))
    }

    method Reserve(key: string, request: CanonicalJson.Json, now: Time, ttl: Time) returns (r: Reservation<R>)
      modifies this`keys
      ensures var row := RowOf(old(keys), key);
              keys == old(keys)[key := ReservedRow(row, HashRequest(request), now, ttl)] &&
              r == ReserveAnswer(row, HashRequest(request), now)
    {
      var hash := HashRequest(request);
      var expiresAt := now + ttl;
      if key !in keys {
        keys := keys[key := NewKey(hash, expiresAt)];
        return Fresh;
      }
      var existing := keys[key];
      assert keys == keys[key := existing];
      if existing.hash != hash { return ConflictError; }
      if existing.status.Completed? { return Cached(existing.snapshot); }
      if existing.status.InProgress? { return InFlightError; }
      if existing.status.Expired? && existing.expiresAt > now { return InFlightError; }
      keys := keys[key := Claimed(keys[key], expiresAt)];
      return Retry;
    }

    method RecordSuccess(key: string, response: R)
      modifies this`keys
      ensures keys == if key in old(keys) then old(keys)[key := RecordedRow(old(keys)[key], Some(response))] else old(keys)
    {
      if key !in keys { return; }
      var existing := keys[key];
      existing := existing.(status := KeyStatus.Completed, snapshot := Some(response));
      keys := keys[key := existing];
    }

    method RecordFailure(key: string)
      modifies this`keys
      ensures keys == if key in old(keys) then old(keys)[key := RecordedRow(old(keys)[key], None)] else old(keys)
    {
      if key !in keys { return; }
      var existing := keys[key];
      existing := existing.(status := KeyStatus.Failed, snapshot := None);
      keys := keys[key := existing];
    }
  }

  /**
   * Unless the digest collides on the two, a key taken by one request is refused with the conflict error to exactly
   * the requests that differ from it in more than member order (or a `__proto__` member).
   */
  lemma ConflictExactlyWhenRequestsDiffer<R>(digest: CanonicalJson.JsString -> string, row: KeyRow<R>,
                                             first: CanonicalJson.Json, second: CanonicalJson.Json, now: Time)
    requires CanonicalJson.WellFormed(first) && CanonicalJson.WellFormed(second)
    requires JsonText.Numeric(first) && JsonText.Numeric(second) && JsonText.NoCollision(digest, first, second)
    requires row.hash == digest(JsonText.CanonicalText(first))
    ensures ReserveAnswer(Some(row), digest(JsonText.CanonicalText(second)), now).ConflictError?
            <==> !CanonicalJson.Same(first, second)
  {
    JsonText.HashIdentifiesRequest(digest, first, second);
  }
}
