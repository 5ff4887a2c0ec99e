/** Per-version room deltas: how one is recorded, how a run of them is composed
    into one, and why applying the composed delta gives the full state. */
module DeltaLog {
  import opened BattleRoom

  datatype Delta = Delta(roomId: nat, from: nat, to: nat, tick: nat, status: string,
                         upserts: seq<PlayerState>, removed: seq<string>)

  type Players = map<string, PlayerState>
  type History = map<nat, RoomState>  // a room's state at each of its versions

  function Ids(removed: seq<string>): set<string> {
    set id | id in removed
  }

  // The upserts as a client stores them: under the player's id, later ones winning.
  function UpsertMap(upserts: seq<PlayerState>): Players {
    if upserts == [] then map[]
    else
      var last := upserts[|upserts| - 1];
      UpsertMap(upserts[..|upserts| - 1])[last.playerId := last]
  }

  /** What a client holding `r` does with a delta. */
  function Apply(r: RoomState, d: Delta): RoomState {
    r.(version := d.to, tick := d.tick, status := d.status,
       players := (r.players - Ids(d.removed)) + UpsertMap(d.upserts))
  }

  // The state a client sees: everything but the time of the last update.
  predicate SameState(a: RoomState, b: RoomState) {
    a.id == b.id && a.version == b.version && a.tick == b.tick && a.status == b.status && a.players == b.players
  }

  lemma {:induction false} UpsertMapMembers(upserts: seq<PlayerState>)
    ensures forall id :: id in UpsertMap(upserts) ==>
              UpsertMap(upserts)[id] in upserts && UpsertMap(upserts)[id].playerId == id
    ensures forall p :: p in upserts ==> p.playerId in UpsertMap(upserts)
  {
    if upserts != [] {
      var n := |upserts| - 1;
      UpsertMapMembers(upserts[..n]);
      assert upserts == upserts[..n] + [upserts[n]];
    }
  }

  lemma UpsertMapAppend(upserts: seq<PlayerState>, p: PlayerState)
    ensures UpsertMap(upserts + [p]) == UpsertMap(upserts)[p.playerId := p]
  {
    assert (upserts + [p])[..|upserts|] == upserts;
  }

  lemma IdsAppend(removed: seq<string>, id: string)
    ensures Ids(removed + [id]) == Ids(removed) + {id}
  {
    assert forall k :: k in removed + [id] <==> k in removed || k == id;
  }

  // ---- Recording one delta ----

  predicate Changed(prev: Players, cur: Players, k: string) {
    k in cur && (k !in prev || prev[k] != cur[k])
  }

  // `d` lists exactly the players that changed and exactly the keys that went, in any order.
  ghost predicate IsDelta(d: Delta, prev: RoomState, cur: RoomState) {
    && d.roomId == cur.id && d.from == prev.version && d.to == cur.version
    && d.tick == cur.tick && d.status == cur.status
    && (forall k :: Changed(prev.players, cur.players, k) ==> cur.players[k] in d.upserts)
    && (forall p :: p in d.upserts ==> exists k :: Changed(prev.players, cur.players, k) && cur.players[k] == p)
    && (forall k :: k in d.removed <==> k in prev.players && k !in cur.players)
  }

  method RecordDelta(prev: RoomState, cur: RoomState) returns (d: Delta)
    ensures IsDelta(d, prev, cur)
  {
    var upserts: seq<PlayerState> := [];
    var todo := cur.players.Keys;
    while todo != {}
      invariant todo <= cur.players.Keys
      invariant forall k :: Changed(prev.players, cur.players, k) && k !in todo ==> cur.players[k] in upserts
      invariant forall p :: p in upserts ==> exists k :: Changed(prev.players, cur.players, k) && cur.players[k] == p
      decreases todo
    {
      var k :| k in todo;
      if Changed(prev.players, cur.players, k) {
        upserts := upserts + [cur.players[k]];
      }
      todo := todo - {k};
    }
    var removed: seq<string> := [];
    todo := prev.players.Keys;
    while todo != {}
      invariant todo <= prev.players.Keys
      invariant forall k :: k in removed <==> k in prev.players && k !in cur.players && k !in todo
      decreases todo
    {
      var k :| k in todo;
      if k !in cur.players {
        removed := removed + [k];
      }
      todo := todo - {k};
    }
    d := Delta(cur.id, prev.version, cur.version, cur.tick, cur.status, upserts, removed);
  }

  lemma UpsertsAreChanges(d: Delta, prev: RoomState, cur: RoomState)
    requires IsDelta(d, prev, cur) && WellKeyed(cur.players)
    ensures UpsertMap(d.upserts) == map k | k in cur.players && Changed(prev.players, cur.players, k) :: cur.players[k]
  {
    UpsertMapMembers(d.upserts);
    var u := UpsertMap(d.upserts);
    forall k | Changed(prev.players, cur.players, k) ensures k in u {
      assert cur.players[k] in d.upserts;
    }
    forall k | k in u ensures Changed(prev.players, cur.players, k) && u[k] == cur.players[k] {
      assert u[k] in d.upserts;
    }
  }

  /** One recorded delta takes the old state to the new one exactly when the new
      state keeps every player under their own id. */
  lemma DeltaStepExact(d: Delta, prev: RoomState, cur: RoomState)
    requires IsDelta(d, prev, cur) && prev.id == cur.id && WellKeyed(prev.players)
    ensures SameState(Apply(prev, d), cur) <==> WellKeyed(cur.players)
  {
    UpsertMapMembers(d.upserts);
    assert WellKeyed(Apply(prev, d).players);
    if WellKeyed(cur.players) {
      UpsertsAreChanges(d, prev, cur);
    }
  }

  // `d` takes a room from one version to the next, and removes nobody it also upserts.
  ghost predicate IsStep(d: Delta, prev: RoomState, cur: RoomState) {
    && d.from == prev.version && d.to == cur.version == prev.version + 1
    && SameState(Apply(prev, d), cur)
    && UpsertMap(d.upserts).Keys !! Ids(d.removed)
  }

  lemma DeltaIsStep(d: Delta, prev: RoomState, cur: RoomState)
    requires IsDelta(d, prev, cur) && WellKeyed(prev.players) && WellKeyed(cur.players)
    requires cur.id == prev.id && cur.version == prev.version + 1
    ensures IsStep(d, prev, cur)
  {
    DeltaStepExact(d, prev, cur);
    UpsertsAreChanges(d, prev, cur);
  }

  // ---- Composing ----

  datatype Acc = Acc(next: nat, tick: nat, status: string, players: Players, removed: set<string>)

  // The loop body of composeDeltas: upserts first, then removals.
  function Absorb(acc: Acc, d: Delta): Acc {
    var u := UpsertMap(d.upserts);
    Acc(d.to, d.tick, d.status, (acc.players + u) - Ids(d.removed), (acc.removed - u.Keys) + Ids(d.removed))
  }

  // The loop of composeDeltas, from index i on.
  function Compose(log: seq<Delta>, i: nat, to: nat, acc: Acc): Acc
    decreases |log| - i
  {
    if i >= |log| then acc
    else if log[i].from != acc.next || log[i].to > to then Compose(log, i + 1, to, acc)
    else if log[i].to == to then Absorb(acc, log[i])
    else Compose(log, i + 1, to, Absorb(acc, log[i]))
  }

  function Start(from: nat): Acc {
    Acc(from, 0, "", map[], {})
  }

  // The two inner loops: one delta's upserts, then its removals.
  method UpsertAll(players0: Players, removed0: set<string>, upserts: seq<PlayerState>)
    returns (players: Players, removed: set<string>)
    requires WellKeyed(players0)
    ensures WellKeyed(players)
    ensures players == players0 + UpsertMap(upserts)
    ensures removed == removed0 - UpsertMap(upserts).Keys
  {
    players, removed := players0, removed0;
    for n := 0 to |upserts|
      invariant WellKeyed(players)
      invariant players == players0 + UpsertMap(upserts[..n])
      invariant removed == removed0 - UpsertMap(upserts[..n]).Keys
    {
      var p := upserts[n];
      UpsertMapAppend(upserts[..n], p);
      assert upserts[..n + 1] == upserts[..n] + [p];
      players := players[p.playerId := p];
      removed := removed - {p.playerId};
    }
    assert upserts[..|upserts|] == upserts;
  }

  method RemoveAll(players0: Players, removed0: set<string>, ids: seq<string>)
    returns (players: Players, removed: set<string>)
    requires WellKeyed(players0)
    ensures WellKeyed(players)
    ensures players == players0 - Ids(ids) && removed == removed0 + Ids(ids)
  {
    players, removed := players0, removed0;
    for n := 0 to |ids|
      invariant WellKeyed(players)
      invariant players == players0 - Ids(ids[..n]) && removed == removed0 + Ids(ids[..n])
    {
      IdsAppend(ids[..n], ids[n]);
      assert ids[..n + 1] == ids[..n] + [ids[n]];
      players := players - {ids[n]};
      removed := removed + {ids[n]};
    }
    assert ids[..|ids|] == ids;
  }

  method ComposeDeltas(roomId: nat, log: seq<Delta>, from: nat, to: nat) returns (d: Delta, ok: bool)
    ensures ok == (from < to && log != [] && Compose(log, 0, to, Start(from)).next == to)
    ensures ok ==> var acc := Compose(log, 0, to, Start(from));
                   && d.roomId == roomId && d.from == from && d.to == to
                   && d.tick == acc.tick && d.status == acc.status
                   && UpsertMap(d.upserts) == acc.players && Ids(d.removed) == acc.removed
  {
    d := Delta(0, 0, 0, 0, "", [], []);
    if from >= to || log == [] { return d, false; }
    var players: Players := map[];
    var removed: set<string> := {};
    var tick, status, next := 0, "", from;
    var i := 0;
    while i < |log|
      invariant 0 <= i <= |log|
      invariant WellKeyed(players)
      invariant Compose(log, i, to, Acc(next, tick, status, players, removed)) == Compose(log, 0, to, Start(from))
      invariant i < |log| ==> next != to
    {
      var delta := log[i];
      i := i + 1;
      if delta.from != next || delta.to > to { continue; }
      players, removed := UpsertAll(players, removed, delta.upserts);
      players, removed := RemoveAll(players, removed, delta.removed);
      tick, status, next := delta.tick, delta.status, delta.to;
      if next == to { break; }
    }
    assert Compose(log, 0, to, Start(from)) == Acc(next, tick, status, players, removed);
    if next != to { return d, false; }
    var upserts := ListPlayers(players);
    var gone := ListIds(removed);
    return Delta(roomId, from, to, tick, status, upserts, gone), true;
  }

  method ListPlayers(players: Players) returns (upserts: seq<PlayerState>)
    requires WellKeyed(players)
    ensures UpsertMap(upserts) == players
  {
    upserts := [];
    var todo := players.Keys;
    while todo != {}
      invariant todo <= players.Keys
      invariant UpsertMap(upserts).Keys == players.Keys - todo
      invariant forall k :: k in UpsertMap(upserts) ==> UpsertMap(upserts)[k] == players[k]
      decreases todo
    {
      var k :| k in todo;
      UpsertMapAppend(upserts, players[k]);
      upserts := upserts + [players[k]];
      todo := todo - {k};
    }
  }

  method ListIds(ids: set<string>) returns (list: seq<string>)
    ensures Ids(list) == ids
  {
    list := [];
    var todo := ids;
    while todo != {}
      invariant todo <= ids
      invariant Ids(list) == ids - todo
      decreases todo
    {
      var k :| k in todo;
      IdsAppend(list, k);
      list := list + [k];
      todo := todo - {k};
    }
  }

  // ---- The log of a room and the refinement ----

  // The retained log runs, one version at a time, from `current - |log|` up to `current`,
  // and each entry takes the room from one version to the next.
  ghost predicate IsLog(h: History, log: seq<Delta>, current: nat) {
    && |log| <= current
    && (forall v :: current - |log| <= v <= current ==> v in h && h[v].version == v && WellKeyed(h[v].players))
    && (forall i :: 0 <= i < |log| ==>
          var v := current - |log| + i; IsStep(log[i], h[v], h[v + 1]))
  }

  // What the loop has gathered takes the room from version `from` to version `acc.next`.
  ghost predicate Gathered(h: History, from: nat, acc: Acc) {
    && from in h && acc.next in h && h[from].id == h[acc.next].id
    && (h[from].players - acc.removed) + acc.players == h[acc.next].players
    && (acc.next > from ==> acc.tick == h[acc.next].tick && acc.status == h[acc.next].status)
  }

  lemma AbsorbPlayers(base: Players, acc: Acc, d: Delta)
    requires UpsertMap(d.upserts).Keys !! Ids(d.removed)
    ensures var u := UpsertMap(d.upserts);
            var a := Absorb(acc, d);
            (base - a.removed) + a.players == (((base - acc.removed) + acc.players) - Ids(d.removed)) + u
  {
  }

  lemma AbsorbGathers(h: History, log: seq<Delta>, current: nat, from: nat, i: nat, acc: Acc)
    requires IsLog(h, log, current) && i < |log| && log[i].from == acc.next
    requires Gathered(h, from, acc) && from <= acc.next
    ensures Gathered(h, from, Absorb(acc, log[i])) && Absorb(acc, log[i]).next == acc.next + 1
  {
    var v := current - |log| + i;
    assert IsStep(log[i], h[v], h[v + 1]);
    AbsorbPlayers(h[from].players, acc, log[i]);
  }

  lemma {:induction false} ComposeReaches(h: History, log: seq<Delta>, current: nat, from: nat, to: nat, i: nat, acc: Acc)
    requires IsLog(h, log, current) && Gathered(h, from, acc)
    requires current - |log| <= from <= acc.next < to <= current
    requires i <= acc.next - (current - |log|)
    ensures var r := Compose(log, i, to, acc);
            r.next == to && Gathered(h, from, r)
    decreases |log| - i
  {
    assert log[i].from == current - |log| + i;
    if log[i].from != acc.next {
      ComposeReaches(h, log, current, from, to, i + 1, acc);
    } else {
      AbsorbGathers(h, log, current, from, i, acc);
      if log[i].to != to {
        ComposeReaches(h, log, current, from, to, i + 1, Absorb(acc, log[i]));
      }
    }
  }

  // A log that starts after `acc.next` never moves it.
  lemma {:induction false} ComposeStuck(h: History, log: seq<Delta>, current: nat, to: nat, i: nat, acc: Acc)
    requires IsLog(h, log, current) && acc.next < current - |log|
    ensures Compose(log, i, to, acc) == acc
    decreases |log| - i
  {
    if i < |log| {
      assert log[i].from == current - |log| + i;
      ComposeStuck(h, log, current, to, i + 1, acc);
    }
  }

  /** Delta refinement: for every pair of versions up to the current one,
      composing succeeds exactly when the retained log reaches back to the older
      version, and the composed delta then takes the room as it was at that
      version to exactly the newer state. */
  lemma ComposeRefines(h: History, log: seq<Delta>, current: nat, from: nat, to: nat, d: Delta)
    requires IsLog(h, log, current) && from < to <= current
    ensures (log != [] && Compose(log, 0, to, Start(from)).next == to) <==> current - |log| <= from
    ensures var acc := Compose(log, 0, to, Start(from));
            current - |log| <= from
            && d.to == to && d.tick == acc.tick && d.status == acc.status
            && UpsertMap(d.upserts) == acc.players && Ids(d.removed) == acc.removed
            ==> SameState(Apply(h[from], d), h[to])
  {
    if current - |log| <= from {
      assert Gathered(h, from, Start(from));
      ComposeReaches(h, log, current, from, to, 0, Start(from));
    } else {
      ComposeStuck(h, log, current, to, 0, Start(from));
    }
  }

  // recordDeltaLocked keeps at most `size` of the newest entries.
  function Trim(log: seq<Delta>, size: nat): seq<Delta> {
    if |log| > size then log[|log| - size..] else log
  }

  lemma AppendIsLog(h: History, log: seq<Delta>, prev: RoomState, cur: RoomState, d: Delta)
    requires IsLog(h, log, prev.version) && h[prev.version] == prev
    requires IsStep(d, prev, cur) && WellKeyed(cur.players)
    ensures IsLog(h[cur.version := cur], log + [d], cur.version)
  {
    var h', long := h[cur.version := cur], log + [d];
    forall i | 0 <= i < |long| ensures var v := cur.version - |long| + i; IsStep(long[i], h'[v], h'[v + 1]) {
      if i < |log| {
        assert long[i] == log[i];
      }
    }
  }

  lemma SuffixIsLog(h: History, log: seq<Delta>, current: nat, k: nat)
    requires IsLog(h, log, current) && k <= |log|
    ensures IsLog(h, log[k..], current)
  {
    var tail := log[k..];
    forall i | 0 <= i < |tail| ensures var v := current - |tail| + i; IsStep(tail[i], h[v], h[v + 1]) {
      assert tail[i] == log[k + i];
      var v := current - |log| + (k + i);
      assert IsStep(log[k + i], h[v], h[v + 1]);
    }
  }

  lemma TrimIsLog(h: History, log: seq<Delta>, current: nat, size: nat)
    requires IsLog(h, log, current)
    ensures IsLog(h, Trim(log, size), current) && |Trim(log, size)| <= size
  {
    if |log| > size {
      SuffixIsLog(h, log, current, |log| - size);
    }
  }

  /** Appending the newest delta and trimming keeps the log contiguous, bounded
      and ending at the room's version; versions already in the history stay. */
  lemma AppendKeepsLog(h: History, log: seq<Delta>, prev: RoomState, cur: RoomState, d: Delta, size: nat)
    requires IsLog(h, log, prev.version) && h[prev.version] == prev
    requires IsStep(d, prev, cur) && WellKeyed(cur.players)
    ensures IsLog(h[cur.version := cur], Trim(log + [d], size), cur.version)
    ensures |Trim(log + [d], size)| <= size
  {
    AppendIsLog(h, log, prev, cur, d);
    TrimIsLog(h[cur.version := cur], log + [d], cur.version, size);
  }
}
