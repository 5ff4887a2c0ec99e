/** Gateway sessions: compare-and-swap records with an epoch and a rotating
    resume token, under any interleaving of gateways.

    A thread is one call of the session manager, in any gateway; it stops before
    every store operation.  Each Redis script is one atomic step.  Session ids and
    tokens are random: a drawn one was never drawn before. */
module Sessions {
  import opened Wrappers

  // The hash of a token; hashing is taken to be injective.
  datatype Digest = Digest(of: string)

  datatype State = Authenticated | Active | Reconnecting | Expired

  datatype Record = Record(account: string, player: string, gateway: string, connection: string, epoch: nat,
                           state: State, tokenHash: Digest, expireAt: int)

  type Store = map<string, Record>

  // ---- The store's operations ----

  predicate Creatable(store: Store, sid: string, r: Record, wall: int) {
    wall < r.expireAt && sid !in store
  }

  // SET NX with a positive time to live.
  function Created(store: Store, sid: string, r: Record, wall: int): Store {
    if Creatable(store, sid, r, wall) then store[sid := r] else store
  }

  function Lookup(store: Store, sid: string): Option<Record> {
    if sid in store then Some(store[sid]) else None
  }

  predicate Swappable(store: Store, sid: string, expected: Record, updated: Record, wall: int) {
    wall < updated.expireAt && sid in store && store[sid] == expected
  }

  // compareAndSwapScript, after the time-to-live check of its caller.
  function CompareAndSwap(store: Store, sid: string, expected: Record, updated: Record, wall: int): Store {
    if Swappable(store, sid, expected, updated, wall) then store[sid := updated] else store
  }

  function Deleted(store: Store, sid: string): Store {
    store - {sid}
  }

  class RedisStore {
    var sessions: Store

    constructor ()
      ensures sessions == map[]
    {
      sessions := map[];
    }

    method Create(sid: string, r: Record, wall: int) returns (ok: bool)
      modifies this
      ensures ok == Creatable(old(sessions), sid, r, wall)
      ensures sessions == Created(old(sessions), sid, r, wall)
    {
      if r.expireAt <= wall { return false; }
      ok := sid !in sessions;
      if ok { sessions := sessions[sid := r]; }
    }

    method Get(sid: string) returns (r: Option<Record>)
      ensures r == Lookup(sessions, sid)
    {
      if sid in sessions { return Some(sessions[sid]); }
      return None;
    }

    method Swap(sid: string, expected: Record, updated: Record, wall: int) returns (ok: bool)
      modifies this
      ensures ok == Swappable(old(sessions), sid, expected, updated, wall)
      ensures sessions == CompareAndSwap(old(sessions), sid, expected, updated, wall)
    {
      if updated.expireAt <= wall { return false; }
      if sid !in sessions || sessions[sid] != expected { return false; }
      sessions := sessions[sid := updated];
      return true;
    }

    method Delete(sid: string)
      modifies this
      ensures sessions == Deleted(old(sessions), sid)
    {
      sessions := sessions - {sid};
    }
  }

  // ---- Calls of the manager ----

  // What a disconnect names; "" and 0 mean any connection, any epoch.
  datatype Drop = Drop(sid: string, connection: string, epoch: nat, expireAt: int)

  datatype Join = Join(sid: string, token: string, connection: string, gateway: string, now: int, expireAt: int)

  datatype Thread =
    | Opening(account: string, player: string, gateway: string, connection: string, expireAt: int)
    | Opened(sid: string, token: string)
    | Disconnecting(drop: Drop)
    | Dropping(drop: Drop, expected: Record)
    | Dropped
    | Resuming(join: Join)
    | Expiring(sid: string, expected: Record)
    | Swapping(join: Join, expected: Record, next: string)
    | Claiming(join: Join, next: string)
    | Resumed(join: Join, next: string)
    | Stranded(join: Join)  // the swap went through, but the call failed after it
    | Failed

  datatype Sys = Sys(
    store: Store,
    threads: map<int, Thread>,
    sids: set<string>,            // session ids ever drawn
    drawn: map<string, int>,      // token -> thread that drew it
    home: map<string, string>,    // token -> session that has carried it
    spender: map<string, int>)    // token -> thread whose resume it was accepted for

  datatype Input = Input(sid: string, token: string, wall: int, fault: bool)

  datatype Label =
    | Call(id: int, thread: Thread)
    | Act(id: int, input: Input)
    | Remove(sid: string)  // time to live, or the expiry timer's delete

  const INITIAL := Sys(map[], map[], {}, map[], map[], map[])

  predicate Request(t: Thread) {
    t.Opening? || t.Disconnecting? || t.Resuming?
  }

  function Disconnected(r: Record, d: Drop): Record {
    r.(state := Reconnecting, connection := "", expireAt := d.expireAt)
  }

  function Rejoined(r: Record, j: Join, next: string): Record {
    r.(state := Authenticated, connection := j.connection, gateway := j.gateway, epoch := r.epoch + 1,
       tokenHash := Digest(next), expireAt := j.expireAt)
  }

  // The disconnect is about another connection or another epoch than the record's.
  predicate Outdated(d: Drop, r: Record) {
    (d.connection != "" && r.connection != d.connection) || (d.epoch != 0 && r.epoch != d.epoch)
  }

  function At(s: Sys, id: int, t: Thread): Sys {
    s.(threads := s.threads[id := t])
  }

  function OpenStep(s: Sys, id: int, t: Thread, input: Input): Sys
    requires t.Opening?
  {
    if input.sid in s.sids || input.token in s.drawn then s
    else
      var r := Record(t.account, t.player, t.gateway, t.connection, 1, Authenticated, Digest(input.token), t.expireAt);
      var s1 := s.(sids := s.sids + {input.sid}, drawn := s.drawn[input.token := id]);
      if !Creatable(s.store, input.sid, r, input.wall) then At(s1, id, Failed)
      else At(s1, id, if input.fault then Failed else Opened(input.sid, input.token)).(
             store := Created(s.store, input.sid, r, input.wall),
             home := s.home[input.token := input.sid])
  }

  // The reads of disconnect and resume.
  function DropRead(s: Sys, d: Drop): Thread {
    match Lookup(s.store, d.sid)
    case None => Failed
    case Some(r) => if Outdated(d, r) then Dropped else Dropping(d, r)
  }

  function ResumeRead(s: Sys, id: int, j: Join, input: Input): Sys {
    match if input.fault then None else Lookup(s.store, j.sid)
    case None => At(s, id, Failed)
    case Some(r) =>
      if r.expireAt <= j.now then At(s, id, Expiring(j.sid, r))
      else if Digest(j.token) != r.tokenHash then At(s, id, Failed)
      else if input.token in s.drawn then s
      else At(s, id, Swapping(j, r, input.token)).(drawn := s.drawn[input.token := id])
  }

  // A fault here is a lost acknowledgement.
  function SwapStep(s: Sys, id: int, t: Thread, input: Input): Sys
    requires t.Swapping?
  {
    var j := t.join;
    var updated := Rejoined(t.expected, j, t.next);
    if !Swappable(s.store, j.sid, t.expected, updated, input.wall) then At(s, id, Failed)
    else At(s, id, if input.fault then Stranded(j) else Claiming(j, t.next)).(
           store := CompareAndSwap(s.store, j.sid, t.expected, updated, input.wall),
           home := s.home[t.next := j.sid],
           spender := s.spender[j.token := id])
  }

  function Step(s: Sys, l: Label): Sys {
    match l
    case Call(id, t) => if id in s.threads || !Request(t) then s else At(s, id, t)
    case Remove(sid) => s.(store := Deleted(s.store, sid))
    case Act(id, input) =>
      if id !in s.threads then s
      else
        var t := s.threads[id];
        match t
        case Opening(_, _, _, _, _) => OpenStep(s, id, t, input)
        case Disconnecting(d) => At(s, id, if input.fault then Failed else DropRead(s, d))
        case Dropping(d, expected) =>
          // a lost swap is not an error here
          At(s, id, Dropped).(store := CompareAndSwap(s.store, d.sid, expected, Disconnected(expected, d), input.wall))
        case Resuming(j) => ResumeRead(s, id, j, input)
        case Expiring(sid, expected) =>
          At(s, id, Failed).(store := CompareAndSwap(s.store, sid, expected, expected.(state := Expired), input.wall))
        case Swapping(_, _, _) => SwapStep(s, id, t, input)
        case Claiming(j, next) => At(s, id, if input.fault then Stranded(j) else Resumed(j, next))
        case _ => s
  }

  function Exec(s: Sys, labels: seq<Label>): Sys {
    if labels == [] then s else Step(Exec(s, labels[..|labels| - 1]), labels[|labels| - 1])
  }

  // ---- The invariant ----

  // The call's swap went through: the token it presented was accepted.
  predicate Accepted(t: Thread) {
    t.Claiming? || t.Resumed? || t.Stranded?
  }

  // The calls that resumed session `sid`.
  function Resumers(threads: map<int, Thread>, sid: string): set<int> {
    set id | id in threads && Accepted(threads[id]) && threads[id].join.sid == sid
  }

  // Moving thread `id` to `th` leaves every session's resumers as they are.
  predicate SameStanding(threads: map<int, Thread>, id: int, th: Thread) {
    if Accepted(th) then id in threads && Accepted(threads[id]) && threads[id].join.sid == th.join.sid
    else id in threads ==> !Accepted(threads[id])
  }

  lemma ResumersStay(threads: map<int, Thread>, id: int, th: Thread, sid: string)
    requires SameStanding(threads, id, th)
    ensures Resumers(threads[id := th], sid) == Resumers(threads, sid)
  {
  }

  lemma ResumersGrow(threads: map<int, Thread>, id: int, th: Thread, sid: string)
    requires id in threads && !Accepted(threads[id]) && Accepted(th)
    ensures Resumers(threads[id := th], sid)
         == if th.join.sid == sid then Resumers(threads, sid) + {id} else Resumers(threads, sid)
    ensures id !in Resumers(threads, sid)
  {
  }

  // The stored record counts its resumers and carries an unspent token of its own.
  ghost predicate RecordInv(s: Sys, sid: string, r: Record) {
    && sid in s.sids && r.epoch == 1 + |Resumers(s.threads, sid)|
    && r.tokenHash.of in s.home && s.home[r.tokenHash.of] == sid && r.tokenHash.of !in s.spender
  }

  ghost predicate RecordsInv(s: Sys) {
    forall sid {:trigger RecordInv(s, sid, s.store[sid])} :: sid in s.store ==> RecordInv(s, sid, s.store[sid])
  }

  ghost predicate TokensInv(s: Sys) {
    s.home.Keys <= s.drawn.Keys && s.spender.Keys <= s.home.Keys
  }

  // Only sessions that exist, or did, were resumed.
  ghost predicate ResumersInv(threads: map<int, Thread>, sids: set<string>) {
    forall id :: id in threads && Accepted(threads[id]) ==> threads[id].join.sid in sids
  }

  ghost predicate ThreadInv(s: Sys, id: int, t: Thread) {
    match t
    case Dropping(d, expected) => !Outdated(d, expected)
    case Swapping(j, expected, next) =>
      && expected.tokenHash == Digest(j.token)
      && next in s.drawn && s.drawn[next] == id && next !in s.home
    case Claiming(j, _) => j.token in s.spender && s.spender[j.token] == id
    case Resumed(j, _) => j.token in s.spender && s.spender[j.token] == id
    case Stranded(j) => j.token in s.spender && s.spender[j.token] == id
    case _ => true
  }

  ghost predicate ThreadsInv(s: Sys) {
    forall id {:trigger ThreadInv(s, id, s.threads[id])} :: id in s.threads ==> ThreadInv(s, id, s.threads[id])
  }

  ghost predicate Inv(s: Sys) {
    RecordsInv(s) && TokensInv(s) && ThreadsInv(s) && ResumersInv(s.threads, s.sids)
  }

  ghost predicate Remembers(s: Sys, t: Sys) {
    && (forall x :: x in s.drawn ==> x in t.drawn && t.drawn[x] == s.drawn[x])
    && (forall x :: x in s.spender ==> x in t.spender && t.spender[x] == s.spender[x])
  }

  lemma MoveKeepsThreads(s: Sys, t: Sys, id: int, th: Thread)
    requires ThreadsInv(s) && Remembers(s, t)
    requires t.threads == s.threads[id := th] && ThreadInv(t, id, th)
    requires forall x :: x in t.home && x !in s.home ==> x in t.drawn && t.drawn[x] == id
    ensures ThreadsInv(t)
  {
    forall k | k in t.threads ensures ThreadInv(t, k, t.threads[k]) {
      if k != id {
        assert ThreadInv(s, k, s.threads[k]);
      }
    }
  }

  // A record whose session's resumers, epoch and token are as before.
  lemma RecordStays(s: Sys, t: Sys, id: int, th: Thread, sid: string, r: Record)
    requires RecordInv(s, sid, r) && SameStanding(s.threads, id, th) && t.threads == s.threads[id := th]
    requires s.sids <= t.sids && t.home == s.home && t.spender == s.spender
    ensures RecordInv(t, sid, r)
  {
    ResumersStay(s.threads, id, th, sid);
  }

  // A swap that keeps epoch and token keeps what is known of the record.
  lemma PlainSwapKeepsRecords(s: Sys, t: Sys, id: int, th: Thread, sid: string, expected: Record, updated: Record, wall: int)
    requires RecordsInv(s) && updated.epoch == expected.epoch && updated.tokenHash == expected.tokenHash
    requires t == At(s, id, th).(store := CompareAndSwap(s.store, sid, expected, updated, wall))
    requires SameStanding(s.threads, id, th)
    ensures RecordsInv(t)
  {
    forall k | k in t.store ensures RecordInv(t, k, t.store[k]) {
      assert RecordInv(s, k, s.store[k]);
      RecordStays(s, t, id, th, k, s.store[k]);
    }
  }

  // Drawing a session id and a token, storing nothing.
  lemma DrawKeepsInv(s: Sys, t: Sys, id: int, token: string)
    requires Inv(s) && token !in s.drawn && t.drawn == s.drawn[token := id]
    requires s.sids <= t.sids && t.threads == s.threads
    requires t.store == s.store && t.home == s.home && t.spender == s.spender
    ensures Inv(t)
  {
    forall k | k in t.store ensures RecordInv(t, k, t.store[k]) {
      assert RecordInv(s, k, s.store[k]);
    }
    forall k | k in t.threads ensures ThreadInv(t, k, t.threads[k]) {
      assert ThreadInv(s, k, s.threads[k]);
    }
  }

  lemma NewSessionHasNoResumers(threads: map<int, Thread>, sids: set<string>, sid: string)
    requires ResumersInv(threads, sids) && sid !in sids
    ensures Resumers(threads, sid) == {}
  {
    assert forall id :: id in threads && Accepted(threads[id]) ==> id !in Resumers(threads, sid);
  }

  lemma StoreKeepsRecords(s: Sys, t: Sys, id: int, th: Thread, sid: string, token: string, r: Record)
    requires RecordsInv(s) && TokensInv(s) && sid in s.sids && token !in s.home && Resumers(s.threads, sid) == {}
    requires !Accepted(th) && SameStanding(s.threads, id, th) && r.epoch == 1 && r.tokenHash == Digest(token)
    requires t == At(s, id, th).(store := s.store[sid := r], home := s.home[token := sid])
    ensures RecordsInv(t)
  {
    forall k | k in t.store ensures RecordInv(t, k, t.store[k]) {
      ResumersStay(s.threads, id, th, k);
      assert k != sid ==> RecordInv(s, k, s.store[k]);
    }
  }

  lemma StoreKeepsInv(s: Sys, t: Sys, id: int, th: Thread, sid: string, token: string, r: Record)
    requires Inv(s) && sid in s.sids && (th.Failed? || th.Opened?) && Resumers(s.threads, sid) == {}
    requires SameStanding(s.threads, id, th)
    requires token in s.drawn && s.drawn[token] == id && token !in s.home
    requires r.epoch == 1 && r.tokenHash == Digest(token)
    requires t == At(s, id, th).(store := s.store[sid := r], home := s.home[token := sid])
    ensures Inv(t)
  {
    StoreKeepsRecords(s, t, id, th, sid, token, r);
    MoveKeepsThreads(s, t, id, th);
  }

  lemma OpenKeepsInv(s: Sys, id: int, t: Thread, input: Input)
    requires Inv(s) && t.Opening? && id in s.threads && s.threads[id] == t
    ensures Inv(OpenStep(s, id, t, input))
  {
    if !(input.sid in s.sids || input.token in s.drawn) {
      var r := Record(t.account, t.player, t.gateway, t.connection, 1, Authenticated, Digest(input.token), t.expireAt);
      var s1 := s.(sids := s.sids + {input.sid}, drawn := s.drawn[input.token := id]);
      NewSessionHasNoResumers(s.threads, s.sids, input.sid);
      DrawKeepsInv(s, s1, id, input.token);
      if !Creatable(s.store, input.sid, r, input.wall) {
        QuietKeepsInv(s1, id, Failed);
      } else {
        StoreKeepsInv(s1, OpenStep(s, id, t, input), id,
                      if input.fault then Failed else Opened(input.sid, input.token), input.sid, input.token, r);
      }
    }
  }

  // What the swap of a resume writes.
  ghost predicate Swapped(s: Sys, t: Sys, id: int, th: Thread, j: Join, r: Record, r': Record) {
    && Accepted(th) && th.join == j
    && j.sid in s.store && s.store[j.sid] == r && r.tokenHash == Digest(j.token)
    && r'.epoch == r.epoch + 1
    && t == At(s, id, th).(store := s.store[j.sid := r'], home := s.home[r'.tokenHash.of := j.sid],
                           spender := s.spender[j.token := id])
  }

  lemma SwapKeepsRecord(s: Sys, t: Sys, id: int, th: Thread, j: Join, r: Record, r': Record, sid: string)
    requires RecordsInv(s) && TokensInv(s) && Swapped(s, t, id, th, j, r, r') && sid in s.store
    requires id in s.threads && !Accepted(s.threads[id]) && r'.tokenHash.of !in s.home
    ensures RecordInv(t, sid, t.store[sid])
  {
    ResumersGrow(s.threads, id, th, sid);
    assert RecordInv(s, j.sid, r) && RecordInv(s, sid, s.store[sid]);
  }

  lemma SwapKeepsRecords(s: Sys, t: Sys, id: int, th: Thread, j: Join, r: Record, r': Record)
    requires RecordsInv(s) && TokensInv(s) && Swapped(s, t, id, th, j, r, r')
    requires id in s.threads && !Accepted(s.threads[id]) && r'.tokenHash.of !in s.home
    ensures RecordsInv(t)
  {
    forall k | k in t.store ensures RecordInv(t, k, t.store[k]) {
      SwapKeepsRecord(s, t, id, th, j, r, r', k);
    }
  }

  lemma AcceptKeepsInv(s: Sys, t: Sys, id: int, th: Thread, j: Join, r: Record, r': Record)
    requires Inv(s) && Swapped(s, t, id, th, j, r, r') && id in s.threads && !Accepted(s.threads[id])
    requires r'.tokenHash.of in s.drawn && s.drawn[r'.tokenHash.of] == id && r'.tokenHash.of !in s.home
    ensures Inv(t)
  {
    assert RecordInv(s, j.sid, r);
    SwapKeepsRecords(s, t, id, th, j, r, r');
    MoveKeepsThreads(s, t, id, th);
  }

  lemma SwapKeepsInv(s: Sys, id: int, t: Thread, input: Input)
    requires Inv(s) && t.Swapping? && ThreadInv(s, id, t) && id in s.threads && s.threads[id] == t
    ensures Inv(SwapStep(s, id, t, input))
  {
    var j, updated := t.join, Rejoined(t.expected, t.join, t.next);
    if Swappable(s.store, j.sid, t.expected, updated, input.wall) {
      AcceptKeepsInv(s, SwapStep(s, id, t, input), id,
                     if input.fault then Stranded(j) else Claiming(j, t.next), j, t.expected, updated);
    } else {
      QuietKeepsInv(s, id, Failed);
    }
  }

  lemma ResumeReadKeepsInv(s: Sys, id: int, j: Join, input: Input)
    requires Inv(s) && id in s.threads && !Accepted(s.threads[id])
    ensures Inv(ResumeRead(s, id, j, input))
  {
    if input.fault || j.sid !in s.store {
      QuietKeepsInv(s, id, Failed);
    } else {
      var r := s.store[j.sid];
      if r.expireAt <= j.now {
        QuietKeepsInv(s, id, Expiring(j.sid, r));
      } else if Digest(j.token) != r.tokenHash {
        QuietKeepsInv(s, id, Failed);
      } else if input.token !in s.drawn {
        var s1 := s.(drawn := s.drawn[input.token := id]);
        DrawKeepsInv(s, s1, id, input.token);
        QuietKeepsInv(s1, id, Swapping(j, r, input.token));
      }
    }
  }

  lemma QuietKeepsInv(s: Sys, id: int, th: Thread)
    requires Inv(s) && ThreadInv(s, id, th) && SameStanding(s.threads, id, th)
    ensures Inv(At(s, id, th))
  {
    var s' := At(s, id, th);
    forall k | k in s'.store ensures RecordInv(s', k, s'.store[k]) {
      assert RecordInv(s, k, s.store[k]);
      RecordStays(s, s', id, th, k, s.store[k]);
    }
    MoveKeepsThreads(s, s', id, th);
  }

  lemma PlainSwapKeepsInv(s: Sys, id: int, th: Thread, sid: string, expected: Record, updated: Record, wall: int)
    requires Inv(s) && (th.Dropped? || th.Failed?) && SameStanding(s.threads, id, th)
    requires updated.epoch == expected.epoch && updated.tokenHash == expected.tokenHash
    ensures Inv(At(s, id, th).(store := CompareAndSwap(s.store, sid, expected, updated, wall)))
  {
    var s' := At(s, id, th).(store := CompareAndSwap(s.store, sid, expected, updated, wall));
    PlainSwapKeepsRecords(s, s', id, th, sid, expected, updated, wall);
    MoveKeepsThreads(s, s', id, th);
  }

  lemma RemoveKeepsInv(s: Sys, sid: string)
    requires Inv(s)
    ensures Inv(s.(store := Deleted(s.store, sid)))
  {
    var s' := s.(store := Deleted(s.store, sid));
    forall k | k in s'.store ensures RecordInv(s', k, s'.store[k]) {
      assert RecordInv(s, k, s.store[k]);
    }
    forall k | k in s'.threads ensures ThreadInv(s', k, s'.threads[k]) {
      assert ThreadInv(s, k, s.threads[k]);
    }
  }

  lemma StepKeepsInv(s: Sys, l: Label)
    requires Inv(s)
    ensures Inv(Step(s, l))
  {
    match l
    case Call(id, t) => if Step(s, l) != s { QuietKeepsInv(s, id, t); }
    case Remove(sid) => RemoveKeepsInv(s, sid);
    case Act(id, input) =>
      if id in s.threads {
        var t := s.threads[id];
        assert ThreadInv(s, id, t);
        match t
        case Opening(_, _, _, _, _) => OpenKeepsInv(s, id, t, input);
        case Disconnecting(d) => QuietKeepsInv(s, id, if input.fault then Failed else DropRead(s, d));
        case Dropping(d, expected) =>
          PlainSwapKeepsInv(s, id, Dropped, d.sid, expected, Disconnected(expected, d), input.wall);
        case Resuming(j) => ResumeReadKeepsInv(s, id, j, input);
        case Expiring(sid, expected) =>
          PlainSwapKeepsInv(s, id, Failed, sid, expected, expected.(state := Expired), input.wall);
        case Swapping(_, _, _) => SwapKeepsInv(s, id, t, input);
        case Claiming(j, next) => QuietKeepsInv(s, id, if input.fault then Stranded(j) else Resumed(j, next));
        case _ =>
      }
  }

  lemma {:induction false} RunKeepsInv(labels: seq<Label>)
    ensures Inv(Exec(INITIAL, labels))
  {
    if labels != [] {
      RunKeepsInv(labels[..|labels| - 1]);
      StepKeepsInv(Exec(INITIAL, labels[..|labels| - 1]), labels[|labels| - 1]);
    }
  }

  // ---- Theorems over every run ----

  /** In every run the epoch of a stored session is one plus the number of calls
      whose resume of it went through, and the token it carries was not accepted
      from anybody. */
  lemma EpochCountsResumes(labels: seq<Label>, sid: string)
    requires sid in Exec(INITIAL, labels).store
    ensures var s := Exec(INITIAL, labels);
            && s.store[sid].epoch == 1 + |Resumers(s.threads, sid)|
            && forall id :: id in s.threads && Accepted(s.threads[id]) ==>
                 Digest(s.threads[id].join.token) != s.store[sid].tokenHash
  {
    RunKeepsInv(labels);
    var s := Exec(INITIAL, labels);
    assert RecordInv(s, sid, s.store[sid]);
    forall id | id in s.threads && Accepted(s.threads[id])
      ensures Digest(s.threads[id].join.token) != s.store[sid].tokenHash
    {
      assert ThreadInv(s, id, s.threads[id]);
    }
  }

  /** Each resume token is accepted at most once, whoever presents it and however
      often: two calls whose swap went through with one token are the same call. */
  lemma TokenAcceptedOnce(labels: seq<Label>, a: int, b: int)
    requires var s := Exec(INITIAL, labels);
             && a in s.threads && b in s.threads && Accepted(s.threads[a]) && Accepted(s.threads[b])
             && s.threads[a].join.token == s.threads[b].join.token
    ensures a == b
  {
    RunKeepsInv(labels);
    var s := Exec(INITIAL, labels);
    assert ThreadInv(s, a, s.threads[a]) && ThreadInv(s, b, s.threads[b]);
  }

  /** A disconnect for an older connection or epoch never changes the stored
      record, even when the session was resumed between its read and its swap. */
  lemma OutdatedDisconnectIsHarmless(labels: seq<Label>, id: int, input: Input)
    requires var s := Exec(INITIAL, labels);
             && id in s.threads && s.threads[id].Dropping?
             && s.threads[id].drop.sid in s.store && Outdated(s.threads[id].drop, s.store[s.threads[id].drop.sid])
    ensures var s := Exec(INITIAL, labels);
            Step(s, Act(id, input)).store == s.store
  {
    RunKeepsInv(labels);
    var s := Exec(INITIAL, labels);
    assert ThreadInv(s, id, s.threads[id]);
  }

  // How a step can change the record of a session that was there and still is.
  ghost predicate RecordStep(s: Sys, l: Label, r: Record, r': Record) {
    || r' == r
    || (l.Act? && l.id in s.threads
        && match s.threads[l.id]
           case Dropping(d, _) => r' == Disconnected(r, d)
           case Expiring(_, _) => r' == r.(state := Expired)
           case Swapping(j, expected, next) => expected == r && r' == Rejoined(r, j, next)
           case _ => false)
  }

  lemma SwappedRecord(store: Store, sid: string, key: string, expected: Record, updated: Record, wall: int)
    requires sid in store
    ensures var after := CompareAndSwap(store, key, expected, updated, wall);
            sid in after && (after[sid] == store[sid] || (store[sid] == expected && after[sid] == updated))
  {
  }

  // What a thread is about to write, if it is about to swap.
  function Updated(t: Thread): Record
    requires t.Dropping? || t.Expiring? || t.Swapping?
  {
    match t
    case Dropping(d, expected) => Disconnected(expected, d)
    case Expiring(_, expected) => expected.(state := Expired)
    case Swapping(j, expected, next) => Rejoined(expected, j, next)
  }

  function Target(t: Thread): string
    requires t.Dropping? || t.Expiring? || t.Swapping?
  {
    match t
    case Dropping(d, _) => d.sid
    case Expiring(sid, _) => sid
    case Swapping(j, _, _) => j.sid
  }

  lemma SwapsStore(s: Sys, id: int, input: Input)
    requires id in s.threads
    requires var t := s.threads[id]; t.Dropping? || t.Expiring? || t.Swapping?
    ensures var t := s.threads[id];
            Step(s, Act(id, input)).store == CompareAndSwap(s.store, Target(t), t.expected, Updated(t), input.wall)
  {
  }

  lemma OthersKeepRecord(s: Sys, l: Label, sid: string)
    requires sid in s.store && sid in Step(s, l).store
    requires l.Act? && l.id in s.threads ==>
               var t := s.threads[l.id]; !t.Dropping? && !t.Expiring? && !t.Swapping?
    ensures Step(s, l).store[sid] == s.store[sid]
  {
  }

  lemma StoredRecordSteps(s: Sys, l: Label, sid: string)
    requires sid in s.store && sid in Step(s, l).store
    ensures RecordStep(s, l, s.store[sid], Step(s, l).store[sid])
  {
    if l.Act? && l.id in s.threads
       && (s.threads[l.id].Dropping? || s.threads[l.id].Expiring? || s.threads[l.id].Swapping?) {
      var t := s.threads[l.id];
      SwapsStore(s, l.id, l.input);
      SwappedRecord(s.store, sid, Target(t), t.expected, Updated(t), l.input.wall);
    } else {
      OthersKeepRecord(s, l, sid);
    }
  }

  /** While a session lives its epoch never goes down, and its token changes
      exactly when the epoch does. */
  lemma EpochsRise(s: Sys, l: Label, sid: string)
    requires Inv(s) && sid in s.store && sid in Step(s, l).store
    ensures var r, r' := s.store[sid], Step(s, l).store[sid];
            && r.epoch <= r'.epoch <= r.epoch + 1
            && (r'.epoch == r.epoch <==> r'.tokenHash == r.tokenHash)
            && r'.account == r.account && r'.player == r.player
  {
    StoredRecordSteps(s, l, sid);
    RecordRises(s, l, sid, Step(s, l).store[sid]);
  }

  lemma RecordRises(s: Sys, l: Label, sid: string, r': Record)
    requires Inv(s) && sid in s.store && RecordStep(s, l, s.store[sid], r')
    ensures var r := s.store[sid];
            && r.epoch <= r'.epoch <= r.epoch + 1
            && (r'.epoch == r.epoch <==> r'.tokenHash == r.tokenHash)
            && r'.account == r.account && r'.player == r.player
  {
    assert RecordInv(s, sid, s.store[sid]);
    if l.Act? && l.id in s.threads {
      assert ThreadInv(s, l.id, s.threads[l.id]);
    }
  }

  lemma OnlyOpeningDraws(s: Sys, id: int, t: Thread, input: Input)
    ensures t.Resuming? ==> ResumeRead(s, id, t.join, input).sids == s.sids
    ensures t.Swapping? ==> SwapStep(s, id, t, input).sids == s.sids
    ensures t.Opening? ==> forall sid :: sid in s.sids ==> sid in OpenStep(s, id, t, input).sids
  {
  }

  lemma DrawnStaysDrawn(s: Sys, l: Label, sid: string)
    requires sid in s.sids
    ensures sid in Step(s, l).sids
  {
    if l.Act? && l.id in s.threads {
      OnlyOpeningDraws(s, l.id, s.threads[l.id], l.input);
    }
  }

  // Session ids are never drawn again, so a session that is gone stays gone.
  lemma GoneStaysGone(s: Sys, l: Label, sid: string)
    requires sid in s.sids && sid !in s.store
    ensures sid !in Step(s, l).store
  {
    if l.Act? && l.id in s.threads
       && (s.threads[l.id].Dropping? || s.threads[l.id].Expiring? || s.threads[l.id].Swapping?) {
      SwapsStore(s, l.id, l.input);
    }
  }

  /** Over whole runs: as long as a session is found again its epoch has not gone
      down, and with the same epoch it carries the same token for the same player. */
  lemma {:induction false} EpochNeverFalls(s: Sys, more: seq<Label>, sid: string)
    requires Inv(s) && sid in s.store
    ensures var t := Exec(s, more);
            && Inv(t) && sid in t.sids
            && (sid in t.store ==>
                  var r, r' := s.store[sid], t.store[sid];
                  && r.epoch <= r'.epoch
                  && (r'.epoch == r.epoch ==> r'.tokenHash == r.tokenHash)
                  && r'.account == r.account && r'.player == r.player)
  {
    if more == [] {
      assert RecordInv(s, sid, s.store[sid]);
    } else {
      var t, l := Exec(s, more[..|more| - 1]), more[|more| - 1];
      EpochNeverFalls(s, more[..|more| - 1], sid);
      StepKeepsInv(t, l);
      DrawnStaysDrawn(t, l, sid);
      if sid !in t.store {
        GoneStaysGone(t, l, sid);
      } else if sid in Step(t, l).store {
        EpochsRise(t, l, sid);
      }
    }
  }
}
