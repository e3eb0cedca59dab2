/**
 The idempotency store of internal/store/idempotency.go: claim, lease, reclaim, complete,
 replay and cleanup of request records.
 */
module Idempotency {
  import opened Common
  import Expiry
  import Scopes

  /** Principal type, principal, operation and key together. */
  datatype Key = Key(principalType: string, principalUid: string, operation: string, key: string)

  type Digest = seq<nat>

  datatype Response = Response(status: int, headers: map<string, seq<string>>, body: seq<nat>)

  datatype Phase = Processing | Completed

  datatype Record = Record(
    requestHash: Digest,
    phase: Phase,
    leaseUid: Uid,
    leaseExpiresAt: Instant,
    response: Option<Response>,
    completedAt: Option<Instant>,
    expiresAt: Instant)

  type Records = map<Key, Record>

  datatype Request = Request(key: Key, hash: Digest, leaseDuration: Duration, retention: Duration)

  /** What Begin tells the caller; `Busy` carries the time left on the other owner's lease. */
  datatype Answer = Granted | Replayed(response: Response) | Busy(retryAfter: Duration)

  datatype Failure = InvalidRequest | Conflict | MissingResponse | InvalidStatus | LeaseLost | InvalidLimit

  predicate ValidDurations(r: Request) {
    && 0 < r.leaseDuration <= 10 * MINUTE
    && r.leaseDuration < r.retention <= 30 * DAY
  }

  predicate WordChar(c: char) {
    'a' <= c <= 'z' || '0' <= c <= '9' || c == '_'
  }

  predicate ValidPrincipalType(s: string) {
    1 <= |s| <= 63 && 'a' <= s[0] <= 'z' && forall i | 1 <= i < |s| :: WordChar(s[i])
  }

  predicate ValidOperation(s: string) {
    1 <= |s| <= 128 && 'a' <= s[0] <= 'z' && forall i | 1 <= i < |s| :: WordChar(s[i]) || s[i] == '.'
  }

  /** How many bytes a character takes in UTF-8. */
  function Width(c: char): nat {
    if c <= '\U{007F}' then 1 else if c <= '\U{07FF}' then 2 else if c <= '\U{FFFF}' then 3 else 4
  }

  /** The bytes a text takes, which is what its length is measured in. */
  function Bytes(s: string): nat {
    if s == [] then 0
    else Bytes(s[1..]) + Width(s[0])
  }

  predicate Trimmed(s: string) {
    s != [] ==> !Scopes.IsSpace(s[0]) && !Scopes.IsSpace(s[|s| - 1])
  }

  predicate IsControl(c: char) {
    c <= '\U{001F}' || '\U{007F}' <= c <= '\U{009F}'
  }

  predicate ValidKey(k: Key) {
    && ValidPrincipalType(k.principalType)
    && 1 <= Bytes(k.principalUid) <= 255 && Trimmed(k.principalUid)
    && ValidOperation(k.operation)
    && 1 <= Bytes(k.key) <= 255 && Trimmed(k.key) && forall i | 0 <= i < |k.key| :: !IsControl(k.key[i])
  }

  predicate ValidRequest(r: Request) {
    ValidKey(r.key) && ValidDurations(r)
  }

  function NewRecord(r: Request, lease: Uid, at: Instant): Record {
    Record(r.hash, Processing, lease, at + DurationSeconds(r.leaseDuration) * SECOND, None, None,
           at + DurationSeconds(r.retention) * SECOND)
  }

  predicate Reclaimable(rec: Record, readAt: Instant) {
    rec.expiresAt <= readAt || (rec.phase == Processing && rec.leaseExpiresAt <= readAt)
  }

  /** The insert succeeds, or the row that is there may be taken over. */
  predicate Grants(t: Records, r: Request, readAt: Instant) {
    && ValidRequest(r)
    && (r.key !in t
        || (Reclaimable(t[r.key], readAt) && (t[r.key].expiresAt <= readAt || t[r.key].requestHash == r.hash)))
  }

  function BeginAnswer(t: Records, r: Request, readAt: Instant): Result<Answer, Failure> {
    if !ValidRequest(r) then Err(InvalidRequest)
    else if Grants(t, r, readAt) then Ok(Granted)
    else
      var rec := t[r.key];
      if rec.requestHash != r.hash then Err(Conflict)
      else if rec.phase == Processing then Ok(Busy(rec.leaseExpiresAt - readAt))
      else if rec.response.None? then Err(MissingResponse)
      else Ok(Replayed(rec.response.value))
  }

  /** The grant's own statement stamps the record at `writeAt`. */
  function BeginRecords(t: Records, r: Request, lease: Uid, readAt: Instant, writeAt: Instant): Records {
    if Grants(t, r, readAt) then t[r.key := NewRecord(r, lease, writeAt)] else t
  }

  predicate Owns(t: Records, key: Key, lease: Uid) {
    key in t && t[key].leaseUid == lease && t[key].phase == Processing
  }

  function CompleteRecords(t: Records, key: Key, lease: Uid, response: Response, at: Instant): Records {
    if Owns(t, key, lease) then
      t[key := t[key].(phase := Completed, response := Some(response), completedAt := Some(at))]
    else t
  }

  function ExpiryOf(t: Records): map<Key, Instant> {
    map k | k in t :: t[k].expiresAt
  }

  predicate Expired(t: Records, key: Key, at: Instant) {
    key in t && t[key].expiresAt <= at
  }

  class IdempotencyStore {
    var records: Records

    constructor ()
      ensures records == map[]
    {
      records := map[];
    }

    /** `insertAt`, `readAt` and `writeAt` are the clock readings of the three statements. */
    method Begin(request: Request, lease: Uid, insertAt: Instant, readAt: Instant, writeAt: Instant)
      returns (r: Result<Answer, Failure>)
      requires insertAt <= readAt <= writeAt
      modifies this
      ensures r == BeginAnswer(old(records), request, readAt)
      ensures records == BeginRecords(old(records), request, lease, readAt,
                                      if request.key in old(records) then writeAt else insertAt)
    {
      if !ValidRequest(request) {
        return Err(InvalidRequest);
      }
      if request.key !in records {
        records := records[request.key := NewRecord(request, lease, insertAt)];
        return Ok(Granted);
      }
      var stored := records[request.key];
      if stored.expiresAt > readAt && stored.requestHash != request.hash {
        return Err(Conflict);
      }
      if stored.expiresAt <= readAt || (stored.phase == Processing && stored.leaseExpiresAt <= readAt) {
        records := records[request.key := NewRecord(request, lease, writeAt)];
        return Ok(Granted);
      }
      if stored.phase == Completed {
        if stored.response.None? {
          return Err(MissingResponse);
        }
        return Ok(Replayed(stored.response.value));
      }
      r := Ok(Busy(stored.leaseExpiresAt - readAt));
    }

    /** Both Complete and CompleteTx; only the current lease owner may store a response. */
    method Complete(request: Request, lease: Uid, response: Response, at: Instant)
      returns (r: Result<(), Failure>)
      modifies this
      ensures !ValidRequest(request) ==> r == Err(InvalidRequest)
      ensures ValidRequest(request) && !(100 <= response.status <= 599) ==> r == Err(InvalidStatus)
      ensures ValidRequest(request) && 100 <= response.status <= 599 ==>
                r == if Owns(old(records), request.key, lease) then Ok(()) else Err(LeaseLost)
      ensures records == if r.Ok? then CompleteRecords(old(records), request.key, lease, response, at)
                         else old(records)
    {
      if !ValidRequest(request) {
        return Err(InvalidRequest);
      }
      if response.status < 100 || response.status > 599 {
        return Err(InvalidStatus);
      }
      if !Owns(records, request.key, lease) {
        return Err(LeaseLost);
      }
      var stored := records[request.key];
      records := records[request.key :=
        stored.(phase := Completed, response := Some(response), completedAt := Some(at))];
      r := Ok(());
    }

    /** Removes up to `limit` expired records, the earliest to expire first. */
    method DeleteExpired(limit: int, at: Instant) returns (r: Result<nat, Failure>, removed: set<Key>)
      modifies this
      ensures !(1 <= limit <= 10_000) ==> r == Err(InvalidLimit) && removed == {}
      ensures 1 <= limit <= 10_000 ==>
                r == Ok(|removed|) && Expiry.IsBatch(ExpiryOf(old(records)), limit, at, removed)
      ensures records == old(records) - removed
    {
      if limit < 1 || limit > 10_000 {
        return Err(InvalidLimit), {};
      }
      removed := Expiry.EarliestBatch(ExpiryOf(records), limit, at);
      records := records - removed;
      r := Ok(|removed|);
    }
  }
}
