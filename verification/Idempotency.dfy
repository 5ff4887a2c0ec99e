/** One idempotency record per key, and the single-document database operations on it.

    Every operation below is one atomic read or write of one document in the
    `idempotency_records` collection, written as a function on the document
    (`None` when the key has none).  `LeaseProtocol` interleaves exactly these
    operations; the class `IdempotencyRepository` performs them on the whole
    collection.
 */
module Idempotency {
  import opened Wrappers

  // Instants; 0 is the zero time.
  type Time = int
  type Bytes = string

  // What a caller asks for: the operation's name and the hash of the request with its key cleared.
  datatype Request = Request(operation: string, hash: string)

  datatype Record =
    | Pending(request: Request, reservation: string, leaseUntil: Time, expiresAt: Time)
    | Completed(request: Request, reservation: string, response: Bytes, expiresAt: Time)

  type Doc = Option<Record>

  // The document is still waiting for the holder of reservation `res`.
  predicate Holds(doc: Doc, res: string) {
    doc.Some? && doc.value.Pending? && doc.value.reservation == res
  }

  // FindOne with expires_at > now.
  function Visible(doc: Doc, now: Time): Doc {
    if doc.Some? && now < doc.value.expiresAt then doc else None
  }

  // InsertOne under the unique index on the key; a duplicate changes nothing.
  function Insert(doc: Doc, r: Record): Doc {
    if doc.None? then Some(r) else doc
  }

  predicate Stale(r: Record, now: Time) {
    r.expiresAt <= now || (r.Pending? && r.leaseUntil <= now)
  }

  // The DeleteOne that clears a stale record in the middle of Reserve.
  function Sweep(doc: Doc, now: Time): Doc {
    if doc.Some? && Stale(doc.value, now) then None else doc
  }

  predicate Stealable(doc: Doc, from: string, now: Time) {
    Holds(doc, from) && doc.value.leaseUntil <= now
  }

  // FindOneAndUpdate: takes a lapsed reservation over; expiry and request stay.
  function Steal(doc: Doc, from: string, to: string, lease: Time, now: Time): Doc {
    if Stealable(doc, from, now) then Some(doc.value.(reservation := to, leaseUntil := lease)) else doc
  }

  predicate Completable(doc: Doc, res: string, now: Time) {
    Holds(doc, res) && now < doc.value.expiresAt
  }

  function Complete(doc: Doc, res: string, response: Bytes, now: Time): Doc {
    if Completable(doc, res, now)
    then Some(Completed(doc.value.request, res, response, doc.value.expiresAt))
    else doc
  }

  function Release(doc: Doc, res: string): Doc {
    if Holds(doc, res) then None else doc
  }

  predicate Renewable(doc: Doc, res: string, lease: Time, now: Time) {
    now < lease && Completable(doc, res, now)
  }

  function Renew(doc: Doc, res: string, lease: Time, now: Time): Doc {
    if Renewable(doc, res, lease, now) then Some(doc.value.(leaseUntil := lease)) else doc
  }

  // The start-up DeleteMany, seen at one document.
  predicate Abandoned(r: Record, now: Time) {
    r.Pending? && (r.leaseUntil <= now || r.expiresAt <= now)
  }

  function Recover(doc: Doc, now: Time): Doc {
    if doc.Some? && Abandoned(doc.value, now) then None else doc
  }

  // The collection's time-to-live index.
  function ExpireByIndex(doc: Doc, now: Time): Doc {
    if doc.Some? && doc.value.expiresAt <= now then None else doc
  }

  // What Reserve decides when nothing else touches the document meanwhile.
  datatype Verdict =
    | Owned(record: Record)
    | NotOwned(record: Record)
    | Conflict
    | Absent
    | Invalid

  function ReserveAlone(doc: Doc, mine: Record, now: Time): (v: Verdict)
    requires mine.Pending?
  {
    match Visible(doc, now)
    case None => Owned(mine)
    case Some(current) =>
      if current.request != mine.request then Conflict
      else if current.Completed? || now < current.leaseUntil then NotOwned(current)
      else Owned(current.(reservation := mine.reservation, leaseUntil := mine.leaseUntil))
  }

  function DocAfterReserve(doc: Doc, v: Verdict): Doc {
    if v.Owned? then Some(v.record) else doc
  }

  datatype StoreError = InvalidIdempotency | NotFound | IdempotencyConflict | LeaseLost

  class IdempotencyRepository {
    var records: map<string, Record>

    constructor ()
      ensures records == map[]
    {
      records := map[];
    }

    function Lookup(key: string): Doc
      reads this
    {
      if key in records then Some(records[key]) else None
    }

    // Every write below says what became of the key's document and that no other key moved.
    twostate predicate OnlyKey(key: string)
      reads this
    {
      forall k :: k != key ==> Lookup(k) == old(Lookup(k))
    }

    method Find(key: string, now: Time) returns (r: Result<Record, StoreError>)
      ensures key == "" ==> r == Err(InvalidIdempotency)
      ensures key != "" ==>
                r == match Visible(Lookup(key), now) case Some(x) => Ok(x) case None => Err(NotFound)
    {
      if key == "" { return Err(InvalidIdempotency); }
      if key in records && now < records[key].expiresAt {
        return Ok(records[key]);
      }
      return Err(NotFound);
    }

    method InsertOne(key: string, r: Record) returns (inserted: bool)
      modifies this
      ensures inserted == (key !in old(records))
      ensures Lookup(key) == Insert(old(Lookup(key)), r) && OnlyKey(key)
    {
      inserted := key !in records;
      if inserted { records := records[key := r]; }
    }

    method DeleteStale(key: string, now: Time) returns (deleted: bool)
      modifies this
      ensures deleted == (old(Lookup(key)).Some? && Stale(old(Lookup(key)).value, now))
      ensures Lookup(key) == Sweep(old(Lookup(key)), now) && OnlyKey(key)
    {
      deleted := key in records && Stale(records[key], now);
      if deleted { records := records - {key}; }
    }

    method TakeOver(key: string, from: string, to: string, lease: Time, now: Time) returns (claimed: bool)
      modifies this
      ensures claimed == Stealable(old(Lookup(key)), from, now)
      ensures Lookup(key) == Steal(old(Lookup(key)), from, to, lease, now) && OnlyKey(key)
    {
      claimed := Stealable(Lookup(key), from, now);
      if claimed {
        records := records[key := records[key].(reservation := to, leaseUntil := lease)];
      }
    }

    /** The whole of Reserve, run without interference: insert, else look, else
        clear a stale record and insert again, else take a lapsed lease over.
        `wall` is the second clock the document mapper reads. */
    method Reserve(key: string, mine: Record, now: Time, wall: Time) returns (v: Verdict)
      requires mine.Pending?
      modifies this
      ensures OnlyKey(key)
      ensures v.Invalid? <==>
              (key == "" || mine.reservation == "" || mine.leaseUntil == 0
               || mine.request.operation == "" || mine.request.hash == "" || mine.expiresAt == 0
               || mine.expiresAt <= now || mine.expiresAt <= wall)
      ensures v.Invalid? ==> records == old(records)
      ensures !v.Invalid? ==> v == ReserveAlone(old(Lookup(key)), mine, now)
      ensures !v.Invalid? ==> Lookup(key) == DocAfterReserve(old(Lookup(key)), v)
    {
      if mine.reservation == "" || mine.leaseUntil == 0 { return Invalid; }
      var valid := Validate(key, mine, now);
      if !valid { return Invalid; }
      valid := Validate(key, mine, wall);
      if !valid { return Invalid; }

      var inserted := InsertOne(key, mine);
      if inserted { return Owned(mine); }
      var found := Find(key, now);
      if found == Err(NotFound) {
        var deleted := DeleteStale(key, now);
        if deleted {
          inserted := InsertOne(key, mine);
          if inserted { return Owned(mine); }
          found := Find(key, now);
        }
      }
      if found.Err? { return Absent; }
      var current := found.value;
      if current.request != mine.request { return Conflict; }
      if current.Completed? || now < current.leaseUntil { return NotOwned(current); }
      var claimed := TakeOver(key, current.reservation, mine.reservation, mine.leaseUntil, now);
      if claimed { return Owned(records[key]); }
      // Alone, the take-over cannot miss; LeaseProtocol has the re-read that follows a miss.
      return Absent;
    }

    static method Validate(key: string, r: Record, now: Time) returns (ok: bool)
      ensures ok <==> key != "" && r.request.operation != "" && r.request.hash != ""
                      && r.expiresAt != 0 && now < r.expiresAt
    {
      if key == "" || r.request.operation == "" || r.request.hash == "" || r.expiresAt == 0 {
        return false;
      }
      return now < r.expiresAt;
    }

    method CompleteOne(key: string, res: string, response: Bytes, now: Time) returns (r: Result<(), StoreError>)
      modifies this
      ensures r == if Completable(old(Lookup(key)), res, now) then Ok(()) else Err(IdempotencyConflict)
      ensures Lookup(key) == Complete(old(Lookup(key)), res, response, now) && OnlyKey(key)
    {
      if !Completable(Lookup(key), res, now) { return Err(IdempotencyConflict); }
      records := records[key := Completed(records[key].request, res, response, records[key].expiresAt)];
      return Ok(());
    }

    method ReleaseOne(key: string, res: string)
      modifies this
      ensures Lookup(key) == Release(old(Lookup(key)), res) && OnlyKey(key)
    {
      if Holds(Lookup(key), res) { records := records - {key}; }
    }

    method RenewOne(key: string, res: string, lease: Time, now: Time) returns (r: Result<(), StoreError>)
      modifies this
      ensures r == if key == "" || res == "" || lease <= now then Err(InvalidIdempotency)
                   else if Renewable(old(Lookup(key)), res, lease, now) then Ok(())
                   else Err(LeaseLost)
      ensures r.Ok? ==> Lookup(key) == Renew(old(Lookup(key)), res, lease, now) && OnlyKey(key)
      ensures r.Err? ==> records == old(records)
    {
      if key == "" || res == "" || lease <= now { return Err(InvalidIdempotency); }
      if !Renewable(Lookup(key), res, lease, now) { return Err(LeaseLost); }
      records := records[key := records[key].(leaseUntil := lease)];
      return Ok(());
    }

    method RecoverExpired(now: Time) returns (count: nat)
      modifies this
      ensures forall k :: Lookup(k) == Recover(old(Lookup(k)), now)
      ensures count == |set k | k in old(records) && Abandoned(old(records)[k], now)|
    {
      count := 0;
      var todo := records.Keys;
      ghost var gone: set<string> := {};
      while todo != {}
        invariant todo <= old(records).Keys
        invariant gone == set k | k in old(records) && k !in todo && Abandoned(old(records)[k], now)
        invariant count == |gone|
        invariant records == old(records) - gone
        decreases todo
      {
        var k :| k in todo;
        todo := todo - {k};
        if Abandoned(records[k], now) {
          records := records - {k};
          count := count + 1;
          gone := gone + {k};
        }
      }
      assert gone == set k | k in old(records) && Abandoned(old(records)[k], now);
    }
  }
}
