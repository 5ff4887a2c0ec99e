/** The battle room: its value, and the object whose methods update it in place. */
module BattleRoom {
  import opened Wrappers

  // Positions are only ever compared for equality here.
  type Position = real

  datatype PlayerState = PlayerState(playerId: string, hp: int, x: Position, y: Position)

  // updatedAt 0 is the zero time.
  datatype RoomState = RoomState(id: nat, tick: nat, version: nat, status: string,
                                 players: map<string, PlayerState>, updatedAt: int)

  datatype RoomError =
    | InvalidRoom | RoomNotFound | DuplicateRoom | PlayerNotInRoom | DuplicatePlayer | InvalidPlayerState
    | CallbackFailed | StoreFailed

  const RUNNING := "running"

  predicate ValidPlayer(p: PlayerState) {
    p.playerId != "" && p.hp >= 0
  }

  predicate ValidHeader(r: RoomState) {
    r.id != 0 && r.version != 0 && r.status != "" && r.updatedAt != 0
  }

  predicate ValidState(r: RoomState) {
    ValidHeader(r) && forall k :: k in r.players ==> ValidPlayer(r.players[k])
  }

  // Every player is stored under their own id; AddPlayer and UpdatePlayer keep this, a raw map write need not.
  predicate WellKeyed(players: map<string, PlayerState>) {
    forall k :: k in players ==> players[k].playerId == k
  }

  // AdvanceTick's effect on a valid room.
  function Ticked(r: RoomState, now: int): RoomState {
    r.(tick := r.tick + 1, version := r.version + 1, status := RUNNING, updatedAt := now)
  }

  class Room {
    var state: RoomState

    constructor (state: RoomState)
      ensures this.state == state
    {
      this.state := state;
    }

    method Validate() returns (r: Result<(), RoomError>)
      ensures r.Ok? <==> ValidState(state)
      ensures !ValidHeader(state) ==> r == Err(InvalidRoom)
      ensures ValidHeader(state) && r.Err? ==> r == Err(InvalidPlayerState)
    {
      if !ValidHeader(state) { return Err(InvalidRoom); }
      var todo := state.players.Keys;
      while todo != {}
        invariant todo <= state.players.Keys
        invariant forall k :: k in state.players && k !in todo ==> ValidPlayer(state.players[k])
        decreases todo
      {
        var k :| k in todo;
        if !ValidPlayer(state.players[k]) { return Err(InvalidPlayerState); }
        todo := todo - {k};
      }
      return Ok(());
    }

    method AddPlayer(p: PlayerState) returns (r: Result<(), RoomError>)
      modifies this
      ensures r == if !ValidPlayer(p) then Err(InvalidPlayerState)
                   else if p.playerId in old(state).players then Err(DuplicatePlayer) else Ok(())
      ensures r.Err? ==> state == old(state)
      ensures r.Ok? ==> state == old(state).(players := old(state).players[p.playerId := p])
      ensures WellKeyed(old(state).players) ==> WellKeyed(state.players)
      ensures ValidState(old(state)) ==> ValidState(state)
    {
      if !ValidPlayer(p) { return Err(InvalidPlayerState); }
      if p.playerId in state.players { return Err(DuplicatePlayer); }
      state := state.(players := state.players[p.playerId := p]);
      return Ok(());
    }

    method UpdatePlayer(p: PlayerState) returns (r: Result<(), RoomError>)
      modifies this
      ensures r == if !ValidPlayer(p) then Err(InvalidPlayerState)
                   else if p.playerId !in old(state).players then Err(PlayerNotInRoom) else Ok(())
      ensures r.Err? ==> state == old(state)
      ensures r.Ok? ==> state == old(state).(players := old(state).players[p.playerId := p])
      ensures r.Ok? ==> state.players.Keys == old(state).players.Keys
      ensures WellKeyed(old(state).players) ==> WellKeyed(state.players)
      ensures ValidState(old(state)) ==> ValidState(state)
    {
      if !ValidPlayer(p) { return Err(InvalidPlayerState); }
      if p.playerId !in state.players { return Err(PlayerNotInRoom); }
      state := state.(players := state.players[p.playerId := p]);
      return Ok(());
    }

    method AdvanceTick(now: int) returns (r: Result<(), RoomError>)
      modifies this
      ensures r.Ok? <==> ValidState(old(state))
      ensures r.Err? ==> r.error == if ValidHeader(old(state)) then InvalidPlayerState else InvalidRoom
      ensures state == if r.Ok? then Ticked(old(state), now) else old(state)
    {
      r := Validate();
      if r.Ok? {
        state := state.(tick := state.tick + 1, version := state.version + 1, status := RUNNING, updatedAt := now);
      }
    }

    method Clone() returns (clone: Room)
      ensures fresh(clone) && clone.state == state
    {
      var players: map<string, PlayerState> := map[];
      var todo := state.players.Keys;
      while todo != {}
        invariant todo <= state.players.Keys
        invariant players == map k | k in state.players && k !in todo :: state.players[k]
        decreases todo
      {
        var k :| k in todo;
        players := players[k := state.players[k]];
        todo := todo - {k};
      }
      clone := new Room(state.(players := players));
    }
  }
}
