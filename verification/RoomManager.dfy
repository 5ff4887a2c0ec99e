/** The authoritative rooms of the battle service: in memory, in the snapshot
    store, and in the bounded delta log a reconnecting client is served from. */
module RoomManagement {
  import opened Wrappers
  import opened BattleRoom
  import opened DeltaLog

  // ---- The manager as a value ----

  datatype View = View(rooms: map<nat, RoomState>, deltas: map<nat, seq<Delta>>, store: map<nat, RoomState>,
                       deltaSize: nat)

  type Histories = map<nat, History>

  function LogOf(m: View, id: nat): seq<Delta> {
    if id in m.deltas then m.deltas[id] else []
  }

  ghost predicate Remembered(h: Histories, r: RoomState) {
    r.id in h && r.version in h[r.id] && h[r.id][r.version] == r
  }

  // A stored snapshot: valid, under its own id, each player under their own id.
  predicate GoodSnapshot(id: nat, r: RoomState) {
    r.id == id && ValidState(r) && WellKeyed(r.players)
  }

  // The log ends at the room's version, is contiguous, bounded, and matches the room's past.
  ghost predicate GoodLog(r: RoomState, past: History, log: seq<Delta>, size: nat) {
    && r.version in past && past[r.version] == r
    && (forall v :: v in past ==> v <= r.version && past[v].id == r.id)
    && IsLog(past, log, r.version) && |log| <= size
  }

  ghost predicate RoomAgrees(m: View, h: Histories, id: nat)
    requires id in m.rooms
  {
    && id in m.store && m.store[id] == m.rooms[id]
    && id in h && GoodLog(m.rooms[id], h[id], LogOf(m, id), m.deltaSize)
  }

  ghost predicate RoomsAgree(m: View, h: Histories) {
    forall id {:trigger RoomAgrees(m, h, id)} :: id in m.rooms ==> RoomAgrees(m, h, id)
  }

  predicate SnapshotsGood(store: map<nat, RoomState>) {
    forall id {:trigger GoodSnapshot(id, store[id])} :: id in store ==> GoodSnapshot(id, store[id])
  }

  /** Memory, store and log agree: every room in memory is the stored snapshot
      and its log is the end of its history. */
  ghost predicate Agrees(m: View, h: Histories) {
    && RoomsAgree(m, h)
    && SnapshotsGood(m.store)
    && m.deltas.Keys <= m.rooms.Keys
    && h.Keys == m.rooms.Keys
  }

  // Nothing a room once was is forgotten.
  ghost predicate Grows(h: Histories, h': Histories) {
    forall id :: id in h ==> id in h' && forall v :: v in h[id] ==> v in h'[id] && h'[id][v] == h[id][v]
  }

  // The callbacks the delta log is built for: identity and version untouched, players under their own ids.
  predicate Keeps(before: RoomState, after: RoomState) {
    after.id == before.id && after.version == before.version && WellKeyed(after.players)
  }

  // A successful Mutate left `cur` in room `id`.
  ghost predicate MutatedTo(m: View, m': View, id: nat, cur: RoomState) {
    && id in m.rooms
    && m'.rooms == m.rooms[id := cur] && m'.store == m.store[cur.id := cur] && m'.deltaSize == m.deltaSize
    && exists d :: IsDelta(d, m.rooms[id], cur)
                   && m'.deltas == m.deltas[cur.id := Trim(LogOf(m, cur.id) + [d], m.deltaSize)]
  }

  function Recall(h: Histories, r: RoomState): Histories {
    h[r.id := (if r.id in h then h[r.id] else map[])[r.version := r]]
  }

  lemma MutateKeepsLog(r: RoomState, cur: RoomState, past: History, log: seq<Delta>, d: Delta, size: nat)
    requires GoodLog(r, past, log, size) && WellKeyed(r.players)
    requires IsDelta(d, r, cur) && WellKeyed(cur.players) && cur.id == r.id && cur.version == r.version + 1
    ensures GoodLog(cur, past[cur.version := cur], Trim(log + [d], size), size)
  {
    DeltaIsStep(d, r, cur);
    AppendKeepsLog(past, log, r, cur, d, size);
  }

  // Room `id` did not take part in the step.
  lemma OthersAgree(m: View, m': View, h: Histories, h': Histories, id: nat)
    requires id in m.rooms && id in m'.rooms && RoomAgrees(m, h, id)
    requires m'.rooms[id] == m.rooms[id] && m'.deltaSize == m.deltaSize && LogOf(m', id) == LogOf(m, id)
    requires id in m'.store && m'.store[id] == m.store[id]
    requires id in h' && h'[id] == h[id]
    ensures RoomAgrees(m', h', id)
  {
  }

  lemma MutatedRoomAgrees(m: View, m': View, id: nat, cur: RoomState, h: Histories)
    requires id in m.rooms && RoomAgrees(m, h, id) && WellKeyed(m.rooms[id].players)
    requires MutatedTo(m, m', id, cur)
    requires cur.id == id == m.rooms[id].id && cur.version == m.rooms[id].version + 1 && WellKeyed(cur.players)
    ensures RoomAgrees(m', Recall(h, cur), id)
  {
    var d :| IsDelta(d, m.rooms[id], cur) && m'.deltas == m.deltas[id := Trim(LogOf(m, id) + [d], m.deltaSize)];
    MutateKeepsLog(m.rooms[id], cur, h[id], LogOf(m, id), d, m.deltaSize);
  }

  lemma RecallGrows(h: Histories, r: RoomState)
    requires r.id in h ==> r.version !in h[r.id]
    ensures Grows(h, Recall(h, r))
  {
  }

  lemma MutatedRoomsAgree(m: View, m': View, id: nat, cur: RoomState, h: Histories)
    requires RoomsAgree(m, h) && MutatedTo(m, m', id, cur) && WellKeyed(m.rooms[id].players)
    requires cur.id == id == m.rooms[id].id && cur.version == m.rooms[id].version + 1 && WellKeyed(cur.players)
    ensures RoomsAgree(m', Recall(h, cur))
  {
    var h' := Recall(h, cur);
    forall k | k in m'.rooms ensures RoomAgrees(m', h', k) {
      assert RoomAgrees(m, h, k);
      if k == id {
        MutatedRoomAgrees(m, m', id, cur, h);
      } else {
        OthersAgree(m, m', h, h', k);
      }
    }
  }

  lemma MutateIsNew(m: View, h: Histories, id: nat)
    requires Agrees(m, h) && id in m.rooms
    ensures m.rooms[id].id == id && WellKeyed(m.rooms[id].players)
    ensures id in h && forall v :: v > m.rooms[id].version ==> v !in h[id]
  {
    assert RoomAgrees(m, h, id) && GoodSnapshot(id, m.store[id]);
  }

  /** A mutation whose callback keeps identity, version and keys carries the
      agreement of memory, store and log to the new version. */
  lemma MutateKeepsAgreement(m: View, m': View, id: nat, leaves: RoomState, now: int, h: Histories)
    requires Agrees(m, h) && MutatedTo(m, m', id, Ticked(leaves, now))
    requires Keeps(m.rooms[id], leaves) && ValidState(Ticked(leaves, now))
    ensures Agrees(m', Recall(h, Ticked(leaves, now))) && Grows(h, Recall(h, Ticked(leaves, now)))
  {
    var cur := Ticked(leaves, now);
    MutateIsNew(m, h, id);
    RecallGrows(h, cur);
    MutatedRoomsAgree(m, m', id, cur, h);
  }

  // A room that was not in memory enters it, with no log.
  ghost predicate Admitted(m: View, m': View, r: RoomState) {
    && m'.rooms == m.rooms[r.id := r] && m'.store == m.store[r.id := r] && m'.deltaSize == m.deltaSize
    && (m'.deltas == m.deltas || m'.deltas == m.deltas[r.id := []])
  }

  lemma AdmittedRoomAgrees(m': View, r: RoomState, h: Histories)
    requires r.id in m'.rooms && m'.rooms[r.id] == r && r.id in m'.store && m'.store[r.id] == r
    requires LogOf(m', r.id) == [] && WellKeyed(r.players)
    ensures RoomAgrees(m', h[r.id := map[r.version := r]], r.id)
  {
  }

  lemma AdmittedRoomsAgree(m: View, m': View, r: RoomState, h: Histories)
    requires RoomsAgree(m, h) && m.deltas.Keys <= m.rooms.Keys
    requires r.id !in m.rooms && WellKeyed(r.players) && Admitted(m, m', r)
    ensures RoomsAgree(m', h[r.id := map[r.version := r]])
  {
    var h' := h[r.id := map[r.version := r]];
    forall k | k in m'.rooms ensures RoomAgrees(m', h', k) {
      if k == r.id {
        AdmittedRoomAgrees(m', r, h);
      } else {
        assert RoomAgrees(m, h, k);
        OthersAgree(m, m', h, h', k);
      }
    }
  }

  /** Creating a room, or loading one that is not in memory, keeps the agreement. */
  lemma AdmitKeepsAgreement(m: View, m': View, r: RoomState, h: Histories)
    requires Agrees(m, h) && r.id !in m.rooms && GoodSnapshot(r.id, r) && Admitted(m, m', r)
    ensures Agrees(m', h[r.id := map[r.version := r]]) && Grows(h, h[r.id := map[r.version := r]])
  {
    AdmittedRoomsAgree(m, m', r, h);
  }

  lemma InMemoryIsRemembered(m: View, h: Histories, id: nat)
    requires Agrees(m, h) && id in m.rooms
    ensures Remembered(h, m.rooms[id])
  {
    assert RoomAgrees(m, h, id) && GoodSnapshot(id, m.store[id]);
  }

  lemma RememberedIsInMemory(m: View, h: Histories, r: RoomState)
    requires Agrees(m, h) && Remembered(h, r)
    ensures r.id in m.rooms && r.version <= m.rooms[r.id].version
    ensures IsLog(h[r.id], LogOf(m, r.id), m.rooms[r.id].version)
  {
    assert RoomAgrees(m, h, r.id);
  }

  // A snapshot listing a player whom no room in memory lists belongs to a room that is not in memory.
  lemma LoadIsNew(m: View, h: Histories, id: nat, playerId: string)
    requires Agrees(m, h) && id in m.store && playerId in m.store[id].players
    requires forall k :: k in m.rooms ==> playerId !in m.rooms[k].players
    ensures id !in m.rooms && GoodSnapshot(id, m.store[id]) && Admitted(m, m.(rooms := m.rooms[id := m.store[id]]), m.store[id])
  {
    assert GoodSnapshot(id, m.store[id]);
    assert id in m.rooms ==> RoomAgrees(m, h, id);
  }

  // ---- Restore replies ----

  datatype Reply =
    | NoChange(base: nat)
    | Incremental(base: nat, delta: Delta)
    | Full(room: RoomState)

  /** The reply leaves a client that held the room's state at version `last`
      holding exactly `room`. */
  ghost predicate RightReply(h: Histories, room: RoomState, last: nat, reply: Reply) {
    match reply
    case NoChange(base) => base == last == room.version
    case Incremental(base, d) =>
      && base == last == d.from && d.to == room.version && d.roomId == room.id
      && room.id in h && last in h[room.id]
      && SameState(Apply(h[room.id][last], d), room)
    case Full(r) => r == room
  }

  // ---- The manager ----

  // What a Mutate callback did: the state it left in the room, and whether it reported an error.
  datatype Callback = Callback(leaves: RoomState, fails: bool)

  // Another request's operation between the two critical sections of a restore.  A mutation's
  // callback writes new players, tick and status into the room, or fails and leaves it alone.
  datatype Operation =
    | Mutation(id: nat, tick: nat, status: string, players: Players, fails: bool, now: int, saveOk: bool)
    | Creation(room: RoomState, saveOk: bool)
    | Loading(playerId: string, findOk: bool)

  // The operation keeps every player under their own id.
  predicate Orderly(op: Operation) {
    match op
    case Mutation(_, _, _, players, _, _, _) => WellKeyed(players)
    case Creation(room, _) => WellKeyed(room.players)
    case Loading(_, _) => true
  }

  // Each room in memory is an object of its own.
  ghost predicate Separate(rooms: map<nat, Room>) {
    forall j, k :: j in rooms && k in rooms && j != k ==> rooms[j] != rooms[k]
  }

  class RoomManager {
    var rooms: map<nat, Room>
    var deltas: map<nat, seq<Delta>>
    const deltaSize: nat
    var store: map<nat, RoomState>
    ghost var history: Histories

    constructor ()
      ensures Valid() && rooms == map[] && deltas == map[] && store == map[] && deltaSize == 1024
    {
      rooms, deltas, store, history := map[], map[], map[], map[];
      deltaSize := 1024;
    }

    ghost function Now(): View
      reads this, rooms.Values
    {
      View(map id | id in rooms :: rooms[id].state, deltas, store, deltaSize)
    }

    ghost predicate Valid()
      reads this, rooms.Values
    {
      && Agrees(Now(), history)
      && Separate(rooms)
    }

    method Save(r: RoomState, saveOk: bool) returns (ok: bool)
      modifies this`store
      ensures ok == (saveOk && ValidState(r))
      ensures store == if ok then old(store)[r.id := r] else old(store)
    {
      ok := saveOk && ValidState(r);
      if ok { store := store[r.id := r]; }
    }

    method Create(room: Room, saveOk: bool) returns (r: Result<(), RoomError>)
      requires Valid()
      modifies this
      ensures r.Ok? <==> ValidState(room.state) && room.state.id !in old(rooms) && saveOk
      ensures ValidState(room.state) && room.state.id in old(rooms) ==> r == Err(DuplicateRoom)
      ensures r.Err? ==> Now() == old(Now()) && Valid()
      ensures r.Ok? ==> Admitted(old(Now()), Now(), room.state) && deltas == old(deltas)[room.state.id := []]
      ensures r.Ok? && WellKeyed(room.state.players) ==> Valid() && Grows(old(history), history)
      ensures r.Err? ==> history == old(history)
      ensures rooms == old(rooms) || (room.state.id in rooms && fresh(rooms[room.state.id])
                                      && rooms == old(rooms)[room.state.id := rooms[room.state.id]])
    {
      r := room.Validate();
      if r.Err? { return; }
      if room.state.id in rooms { return Err(DuplicateRoom); }
      var saved := Save(room.state, saveOk);
      if !saved { return Err(StoreFailed); }
      Enter(room);
      if WellKeyed(room.state.players) {
        AdmitKeepsAgreement(old(Now()), Now(), room.state, old(history));
      }
    }

    // The part of Create after the save: a clone goes into memory, with an empty log.
    method Enter(room: Room)
      requires room.state.id !in rooms && Separate(rooms)
      modifies this`rooms, this`deltas, this`history
      ensures Now() == old(Now()).(rooms := old(Now().rooms)[room.state.id := room.state],
                                   deltas := old(deltas)[room.state.id := []])
      ensures history == old(history)[room.state.id := map[room.state.version := room.state]]
      ensures Separate(rooms)
      ensures room.state.id in rooms && fresh(rooms[room.state.id])
              && rooms == old(rooms)[room.state.id := rooms[room.state.id]]
    {
      var clone := room.Clone();
      deltas := deltas[room.state.id := []];
      Place(clone);
    }

    // Puts a room object of its own into memory and starts its history.
    method Place(room: Room)
      requires room.state.id !in rooms && room !in rooms.Values
      requires Separate(rooms)
      modifies this`rooms, this`history
      ensures rooms == old(rooms)[room.state.id := room]
      ensures Now() == old(Now()).(rooms := old(Now().rooms)[room.state.id := room.state])
      ensures history == old(history)[room.state.id := map[room.state.version := room.state]]
      ensures Separate(rooms)
    {
      rooms := rooms[room.state.id := room];
      history := history[room.state.id := map[room.state.version := room.state]];
    }

    // Only the object of room `id` changed.
    twostate lemma OneRoomChanged(id: nat)
      requires id in rooms && rooms == old(rooms)
      requires forall k :: k in rooms && k != id ==> rooms[k].state == old(rooms[k].state)
      ensures Now().rooms == old(Now().rooms)[id := rooms[id].state]
    {
    }

    // recordDeltaLocked: append the delta and keep the newest deltaSize entries.
    method Record(prev: RoomState, cur: RoomState)
      modifies this`deltas, this`history
      ensures history == Recall(old(history), cur)
      ensures exists d :: IsDelta(d, prev, cur)
                          && deltas == old(deltas)[cur.id := Trim(old(LogOf(Now(), cur.id)) + [d], deltaSize)]
    {
      var d := RecordDelta(prev, cur);
      var log := (if cur.id in deltas then deltas[cur.id] else []) + [d];
      if |log| > deltaSize {
        log := log[|log| - deltaSize..];
      }
      deltas := deltas[cur.id := log];
      history := Recall(history, cur);
    }

    // The part of Mutate after the callback: tick, save, and put the previous state back if either fails.
    method TickAndSave(room: Room, previous: RoomState, now: int, saveOk: bool) returns (r: Result<(), RoomError>)
      modifies this`store, room
      ensures r.Ok? <==> ValidState(old(room.state)) && ValidState(Ticked(old(room.state), now)) && saveOk
      ensures r.Err? ==> r.error != CallbackFailed && room.state == previous && store == old(store)
      ensures r.Ok? ==> room.state == Ticked(old(room.state), now) && store == old(store)[room.state.id := room.state]
    {
      r := room.AdvanceTick(now);
      if r.Err? {
        room.state := previous;
        return;
      }
      var saved := Save(room.state, saveOk);
      if !saved {
        room.state := previous;
        return Err(StoreFailed);
      }
    }

    // The part of Mutate after a callback that did not fail; `before` is how things were before it.
    method AfterCallback(id: nat, previous: RoomState, now: int, saveOk: bool, ghost before: View)
      returns (r: Result<(), RoomError>)
      requires id in rooms && Separate(rooms)
      requires id in before.rooms && before.rooms[id] == previous
      requires Now() == before.(rooms := before.rooms[id := rooms[id].state])
      modifies this`deltas, this`store, this`history, rooms[id]
      ensures r.Ok? <==> ValidState(old(rooms[id].state)) && ValidState(Ticked(old(rooms[id].state), now)) && saveOk
      ensures r.Err? ==> r.error != CallbackFailed && Now() == before && history == old(history)
      ensures r.Ok? ==> MutatedTo(before, Now(), id, Ticked(old(rooms[id].state), now))
      ensures r.Ok? ==> history == Recall(old(history), Ticked(old(rooms[id].state), now))
    {
      var room := rooms[id];
      r := TickAndSave(room, previous, now, saveOk);
      OneRoomChanged(id);
      if r.Err? { return; }
      Record(previous, room.state);
      OneRoomChanged(id);
    }

    method Mutate(id: nat, cb: Callback, now: int, saveOk: bool) returns (r: Result<(), RoomError>)
      requires Valid()
      modifies this`deltas, this`store, this`history, rooms.Values
      ensures id == 0 ==> r == Err(InvalidRoom)
      ensures id != 0 && id !in rooms ==> r == Err(RoomNotFound)
      ensures r.Ok? <==> id != 0 && id in rooms && !cb.fails && ValidState(cb.leaves)
                         && ValidState(Ticked(cb.leaves, now)) && saveOk
      // a failed tick or save leaves memory, store and log as before
      ensures r.Err? && r.error != CallbackFailed ==> Now() == old(Now()) && Valid()
      // a failed callback keeps whatever it wrote
      ensures r == Err(CallbackFailed) ==>
                cb.fails && id in rooms && Now() == old(Now()).(rooms := old(Now()).rooms[id := cb.leaves])
      ensures r == Err(CallbackFailed) && cb.leaves == old(rooms[id].state) ==> Valid()
      ensures r.Err? ==> history == old(history)
      ensures r.Ok? ==> MutatedTo(old(Now()), Now(), id, Ticked(cb.leaves, now))
      ensures r.Ok? && Keeps(old(rooms[id].state), cb.leaves) ==> Valid() && Grows(old(history), history)
    {
      if id == 0 { return Err(InvalidRoom); }
      if id !in rooms { return Err(RoomNotFound); }
      var room := rooms[id];
      var previous := room.Clone();
      room.state := cb.leaves;
      if cb.fails {
        OneRoomChanged(id);
        return Err(CallbackFailed);
      }
      OneRoomChanged(id);
      r := AfterCallback(id, previous.state, now, saveOk, old(Now()));
      if r.Ok? && Keeps(previous.state, cb.leaves) {
        MutateKeepsAgreement(old(Now()), Now(), id, cb.leaves, now, old(history));
      }
    }

    // The search of the rooms in memory.
    method FindInMemory(playerId: string) returns (hit: Option<nat>)
      ensures hit.Some? ==> hit.value in rooms && playerId in rooms[hit.value].state.players
      ensures hit.None? ==> forall k :: k in rooms ==> playerId !in rooms[k].state.players
    {
      var todo := rooms.Keys;
      while todo != {}
        invariant todo <= rooms.Keys
        invariant forall k :: k in rooms && k !in todo ==> playerId !in rooms[k].state.players
        decreases todo
      {
        var k :| k in todo;
        if playerId in rooms[k].state.players { return Some(k); }
        todo := todo - {k};
      }
      return None;
    }

    // FindByPlayerID of the snapshot store: some snapshot that lists the player.
    method FindInStore(playerId: string) returns (hit: Option<nat>)
      ensures hit.Some? ==> hit.value in store && playerId in store[hit.value].players
      ensures hit.None? ==> forall k :: k in store ==> playerId !in store[k].players
    {
      var hits := set k | k in store && playerId in store[k].players;
      if hits == {} {
        assert forall k :: k in store && playerId in store[k].players ==> k in hits;
        return None;
      }
      var id :| id in hits;
      return Some(id);
    }

    // Loads a room that is not in memory; the store's own copy goes to the caller.
    method Load(id: nat) returns (room: Room)
      requires Valid() && id in store && id !in rooms && GoodSnapshot(id, store[id])
      requires Admitted(Now(), Now().(rooms := Now().rooms[id := store[id]]), store[id])
      modifies this`rooms, this`history
      ensures Valid() && Grows(old(history), history)
      ensures id in rooms && fresh(rooms[id]) && rooms == old(rooms)[id := rooms[id]]
      ensures fresh(room) && room.state == store[id] && Remembered(history, room.state)
    {
      room := new Room(store[id]);
      var clone := room.Clone();
      Place(clone);
      AdmitKeepsAgreement(old(Now()), Now(), room.state, old(history));
    }

    /** First critical section of a restore: a clone of the player's room, from
        memory if it is there, else loaded from the store.  Loading never
        replaces a room already in memory. */
    method RestoreByPlayerID(playerId: string, findOk: bool) returns (r: Result<Room, RoomError>)
      requires Valid()
      modifies this`rooms, this`history
      ensures Valid() && Grows(old(history), history)
      ensures forall k :: k in old(rooms) ==> k in rooms && rooms[k] == old(rooms)[k]
      ensures forall k :: k in rooms && k !in old(rooms) ==> fresh(rooms[k])
      ensures playerId == "" ==> r == Err(PlayerNotInRoom)
      ensures r == Err(RoomNotFound) ==> forall k :: k in store ==> playerId !in store[k].players
      ensures r.Ok? ==> fresh(r.value) && playerId in r.value.state.players && Remembered(history, r.value.state)
    {
      if playerId == "" { return Err(PlayerNotInRoom); }
      var hit := FindInMemory(playerId);
      if hit.Some? {
        var clone := rooms[hit.value].Clone();
        InMemoryIsRemembered(Now(), history, hit.value);
        return Ok(clone);
      }
      if !findOk { return Err(StoreFailed); }
      hit := FindInStore(playerId);
      if hit.None? { return Err(RoomNotFound); }
      LoadIsNew(Now(), history, hit.value, playerId);
      var room := Load(hit.value);
      return Ok(room);
    }

    /** Second critical section: copy the log as it is now and answer from it.
        `room` is any state the room has ever been in. */
    method AnswerRestore(room: RoomState, last: nat, allowIncremental: bool) returns (reply: Reply)
      requires Valid() && Remembered(history, room)
      ensures RightReply(history, room, last, reply)
      ensures reply.NoChange? <==> last == room.version
      ensures room.id in rooms
      ensures reply.Incremental? <==>
              allowIncremental && last < room.version
              && rooms[room.id].state.version - |LogOf(Now(), room.id)| <= last
    {
      RememberedIsInMemory(Now(), history, room);
      if last == room.version { return NoChange(last); }
      if allowIncremental && last < room.version {
        var log := if room.id in deltas then deltas[room.id] else [];
        var d, ok := ComposeDeltas(room.id, log, last, room.version);
        ComposeRefines(history[room.id], log, rooms[room.id].state.version, last, room.version, d);
        if ok { return Incremental(last, d); }
      }
      return Full(room);
    }

    method Perform(op: Operation)
      requires Valid() && Orderly(op)
      modifies this, rooms.Values
      ensures Valid() && Grows(old(history), history)
      ensures forall k :: k in rooms ==> rooms[k] in old(rooms.Values) || fresh(rooms[k])
    {
      match op
      case Mutation(id, tick, status, players, fails, now, saveOk) =>
        if id in rooms {
          var before := rooms[id].state;
          var after := if fails then before else before.(tick := tick, status := status, players := players);
          var done := Mutate(id, Callback(after, fails), now, saveOk);
        }
      case Creation(state, saveOk) =>
        var room := new Room(state);
        var done := Create(room, saveOk);
      case Loading(playerId, findOk) =>
        var found := RestoreByPlayerID(playerId, findOk);
    }

    // Operations of other requests, one after the other.
    method PerformAll(ops: seq<Operation>)
      requires Valid() && forall op :: op in ops ==> Orderly(op)
      modifies this, rooms.Values
      ensures Valid() && Grows(old(history), history)
    {
      for n := 0 to |ops|
        invariant Valid() && Grows(old(history), history)
        invariant forall k :: k in rooms ==> rooms[k] in old(rooms.Values) || fresh(rooms[k])
      {
        Perform(ops[n]);
      }
    }

    /** The whole restore with any operations of other requests between its two
        critical sections. */
    method RestoreByPlayerIDSince(playerId: string, last: nat, allowIncremental: bool, findOk: bool,
                                  between: seq<Operation>)
      returns (r: Result<(RoomState, Reply), RoomError>)
      requires Valid()
      requires forall op :: op in between ==> Orderly(op)
      modifies this, rooms.Values
      ensures Valid() && Grows(old(history), history)
      ensures r.Ok? ==> playerId in r.value.0.players && Remembered(history, r.value.0)
                        && RightReply(history, r.value.0, last, r.value.1)
      ensures r.Ok? && last == r.value.0.version ==> r.value.1.NoChange?
      ensures r.Ok? && !allowIncremental && last != r.value.0.version ==> r.value.1 == Full(r.value.0)
    {
      var restored := RestoreByPlayerID(playerId, findOk);
      if restored.Err? { return Err(restored.error); }
      var room := restored.value.state;
      PerformAll(between);
      var reply := AnswerRestore(room, last, allowIncremental);
      return Ok((room, reply));
    }
  }
}
