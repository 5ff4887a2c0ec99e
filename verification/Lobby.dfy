/** The lobby's collections and the two transactions that write them together:
    the first-login transaction and the settlement transaction. */
module Lobby {
  import opened Wrappers

  const MIN64: int := -0x8000_0000_0000_0000
  const MAX64: int := 0x7FFF_FFFF_FFFF_FFFF

  type Int64 = x: int | -0x8000_0000_0000_0000 <= x <= 0x7FFF_FFFF_FFFF_FFFF

  type Currency = map<string, int>

  datatype Settlement = Settlement(id: string, playerId: string, asset: string, delta: Int64,
                                   reason: string, source: string, createdAt: int)

  datatype Player = Player(accountId: string, profileVersion: nat)

  datatype Assets = Assets(currency: Currency, version: nat)

  datatype Snapshot = Snapshot(profileVersion: nat, currency: Currency, assetVersion: nat)

  datatype Store = Store(players: map<string, Player>, assets: map<string, Assets>, ledger: seq<Settlement>,
                         snapshots: map<string, Snapshot>)

  datatype Error =
    | InvalidSettlement | SettlementApplied | InsufficientCurrency | AssetNotFound | PlayerNotFound
    | DuplicateKey | StoreFailed

  const EMPTY := Store(map[], map[], [], map[])

  function StateVersion(s: Snapshot): nat {
    if s.profileVersion >= s.assetVersion then s.profileVersion else s.assetVersion
  }

  predicate ValidSettlement(s: Settlement) {
    s.id != "" && s.playerId != "" && s.asset != "" && s.delta != 0 && s.reason != "" && s.source != ""
    && s.createdAt != 0
  }

  predicate InLedger(ledger: seq<Settlement>, id: string) {
    exists i :: 0 <= i < |ledger| && ledger[i].id == id
  }

  // What a lookup by settlement id answers: an entry of that id, or nothing when there is none.
  ghost predicate IsEntry(ledger: seq<Settlement>, id: string, found: Option<Settlement>) {
    if InLedger(ledger, id) then found.Some? && found.value in ledger && found.value.id == id else found.None?
  }

  // Go's unary minus on int64: it wraps on the least value.
  function Negate(d: Int64): (n: Int64)
    ensures d != MIN64 ==> n == -d
    ensures d == MIN64 ==> n == MIN64
  {
    if d == -0x8000_0000_0000_0000 then d else -d
  }

  // "currency.<asset>" names one field of the currency document.
  predicate FieldName(asset: string) {
    asset != "" && '.' !in asset && asset[0] != '$'
  }

  function Balance(c: Currency, asset: string): int {
    if asset in c then c[asset] else 0
  }

  // The find-and-update of ApplyDelta: the filter, then $inc of balance and version.
  predicate Matches(assets: map<string, Assets>, playerId: string, asset: string, delta: Int64) {
    && playerId in assets
    && (delta < 0 ==> asset in assets[playerId].currency && assets[playerId].currency[asset] >= Negate(delta))
  }

  function Incremented(a: Assets, asset: string, delta: int): Assets {
    Assets(a.currency[asset := Balance(a.currency, asset) + delta], a.version + 1)
  }

  function ApplyDelta(assets: map<string, Assets>, playerId: string, asset: string, delta: Int64)
    : Result<Assets, Error>
  {
    if delta == 0 then (if playerId in assets then Ok(assets[playerId]) else Err(AssetNotFound))
    else if !Matches(assets, playerId, asset, delta) then Err(InsufficientCurrency)
    else if !FieldName(asset) then Err(StoreFailed)
    // the server refuses an increment that leaves 64 bits
    else if !(MIN64 <= Balance(assets[playerId].currency, asset) + delta <= MAX64) then Err(StoreFailed)
    else Ok(Incremented(assets[playerId], asset, delta))
  }

  /** The settlement transaction: ledger entry, conditional increment, snapshot;
      any error, or a fault of the store, aborts all three. */
  function SettleTx(st: Store, s: Settlement, fault: bool): Result<Store, Error> {
    if fault then Err(StoreFailed)
    else if !ValidSettlement(s) then Err(InvalidSettlement)
    else if InLedger(st.ledger, s.id) then Err(SettlementApplied)
    else
      match ApplyDelta(st.assets, s.playerId, s.asset, s.delta)
      case Err(e) => Err(e)
      case Ok(a) =>
        if s.playerId !in st.players then Err(PlayerNotFound)
        else Ok(Store(st.players, st.assets[s.playerId := a], st.ledger + [s],
                      st.snapshots[s.playerId := Snapshot(st.players[s.playerId].profileVersion, a.currency, a.version)]))
  }

  predicate HasDefault(players: map<string, Player>, accountId: string) {
    exists p :: p in players && players[p].accountId == accountId
  }

  const STARTING: Currency := map["gold" := 0, "diamond" := 0]

  /** The first-login transaction: player, assets and snapshot, under the unique
      indexes on player id and on the account's default player. */
  function EnsureTx(st: Store, accountId: string, playerId: string, fault: bool): Result<Store, Error> {
    if fault then Err(StoreFailed)
    else if playerId in st.players || HasDefault(st.players, accountId) || playerId in st.assets then Err(DuplicateKey)
    else Ok(Store(st.players[playerId := Player(accountId, 1)],
                  st.assets[playerId := Assets(STARTING, 1)],
                  st.ledger,
                  st.snapshots[playerId := Snapshot(1, STARTING, 1)]))
  }

  // ---- Conservation ----

  function Sum(ledger: seq<Settlement>, playerId: string, asset: string): int {
    if ledger == [] then 0
    else
      var e := ledger[|ledger| - 1];
      Sum(ledger[..|ledger| - 1], playerId, asset)
      + if e.playerId == playerId && e.asset == asset then e.delta else 0
  }

  function Entries(ledger: seq<Settlement>, playerId: string): nat {
    if ledger == [] then 0
    else Entries(ledger[..|ledger| - 1], playerId) + if ledger[|ledger| - 1].playerId == playerId then 1 else 0
  }

  // The player's balances are the ledger's sums, and the version counts the player's entries.
  ghost predicate PlayerConserved(a: Assets, ledger: seq<Settlement>, p: string) {
    && a.version == 1 + Entries(ledger, p)
    && forall asset :: Balance(a.currency, asset) == Sum(ledger, p, asset)
  }

  ghost predicate Conserved(assets: map<string, Assets>, ledger: seq<Settlement>) {
    forall p {:trigger PlayerConserved(assets[p], ledger, p)} ::
      p in assets ==> PlayerConserved(assets[p], ledger, p)
  }

  ghost predicate OtherId(ledger: seq<Settlement>, i: int, j: int) {
    0 <= i < j < |ledger| ==> ledger[i].id != ledger[j].id
  }

  // Each settlement is in the ledger once; every entry belongs to a player.
  ghost predicate LedgerInv(st: Store) {
    && (forall i, j {:trigger OtherId(st.ledger, i, j)} :: OtherId(st.ledger, i, j))
    && (forall i :: 0 <= i < |st.ledger| ==> ValidSettlement(st.ledger[i]) && st.ledger[i].playerId in st.assets)
  }

  ghost predicate SameDefault(players: map<string, Player>, p: string, q: string) {
    p in players && q in players && players[p].accountId == players[q].accountId ==> p == q
  }

  // Players have assets, only players have snapshots, and an account has at most one default player.
  ghost predicate Whole(st: Store) {
    && st.players.Keys == st.assets.Keys && st.snapshots.Keys <= st.players.Keys
    && (forall p, q {:trigger SameDefault(st.players, p, q)} :: SameDefault(st.players, p, q))
    && (forall p :: p in st.players ==> st.players[p].profileVersion == 1)
  }

  predicate NoDebt(c: Currency) {
    forall a :: a in c ==> c[a] >= 0
  }

  predicate Fits(c: Currency) {
    forall a :: a in c ==> MIN64 <= c[a] <= MAX64
  }

  ghost predicate NonNegative(st: Store) {
    forall p {:trigger NoDebt(st.assets[p].currency)} :: p in st.assets ==> NoDebt(st.assets[p].currency)
  }

  ghost predicate InRange(st: Store) {
    forall p {:trigger Fits(st.assets[p].currency)} :: p in st.assets ==> Fits(st.assets[p].currency)
  }

  predicate UsesLeast(ledger: seq<Settlement>) {
    exists i :: 0 <= i < |ledger| && ledger[i].delta == MIN64
  }

  ghost predicate StoreInv(st: Store) {
    Conserved(st.assets, st.ledger) && LedgerInv(st) && Whole(st) && InRange(st) && (UsesLeast(st.ledger) || NonNegative(st))
  }

  predicate SnapshotCurrent(st: Store, p: string)
    requires p in st.snapshots && p in st.assets
  {
    st.snapshots[p].currency == st.assets[p].currency && st.snapshots[p].assetVersion == st.assets[p].version
  }

  ghost predicate SnapshotsCurrent(st: Store) {
    forall p {:trigger SnapshotCurrent(st, p)} :: p in st.snapshots && p in st.assets ==> SnapshotCurrent(st, p)
  }

  lemma SumAppend(ledger: seq<Settlement>, e: Settlement, p: string, a: string)
    ensures Sum(ledger + [e], p, a)
            == Sum(ledger, p, a) + if e.playerId == p && e.asset == a then e.delta else 0
    ensures Entries(ledger + [e], p) == Entries(ledger, p) + if e.playerId == p then 1 else 0
  {
    assert (ledger + [e])[..|ledger|] == ledger;
  }

  lemma {:induction false} NoEntriesNoSum(ledger: seq<Settlement>, p: string, a: string)
    requires forall i :: 0 <= i < |ledger| ==> ledger[i].playerId != p
    ensures Sum(ledger, p, a) == 0 && Entries(ledger, p) == 0
  {
    if ledger != [] {
      NoEntriesNoSum(ledger[..|ledger| - 1], p, a);
    }
  }

  // An entry of a player moves the balance and version of that player alone.
  lemma AppendConserves(a: Assets, ledger: seq<Settlement>, e: Settlement, p: string)
    requires PlayerConserved(a, ledger, p)
    ensures PlayerConserved(if e.playerId == p then Incremented(a, e.asset, e.delta) else a, ledger + [e], p)
  {
    var a' := if e.playerId == p then Incremented(a, e.asset, e.delta) else a;
    SumAppend(ledger, e, p, "");
    forall x ensures Balance(a'.currency, x) == Sum(ledger + [e], p, x) {
      SumAppend(ledger, e, p, x);
    }
  }

  lemma EntryConserves(assets: map<string, Assets>, ledger: seq<Settlement>, e: Settlement)
    requires Conserved(assets, ledger) && e.playerId in assets
    ensures Conserved(assets[e.playerId := Incremented(assets[e.playerId], e.asset, e.delta)], ledger + [e])
  {
    var after := assets[e.playerId := Incremented(assets[e.playerId], e.asset, e.delta)];
    forall p | p in after ensures PlayerConserved(after[p], ledger + [e], p) {
      assert PlayerConserved(assets[p], ledger, p);
      AppendConserves(assets[p], ledger, e, p);
    }
  }

  lemma SettleIsOneEntry(st: Store, s: Settlement)
    requires SettleTx(st, s, false).Ok?
    ensures var st' := SettleTx(st, s, false).value;
            && s.playerId in st.assets && st'.ledger == st.ledger + [s]
            && st'.assets == st.assets[s.playerId := Incremented(st.assets[s.playerId], s.asset, s.delta)]
  {
  }

  lemma SettleConserves(st: Store, s: Settlement)
    requires Conserved(st.assets, st.ledger) && SettleTx(st, s, false).Ok?
    ensures var st' := SettleTx(st, s, false).value; Conserved(st'.assets, st'.ledger)
  {
    SettleIsOneEntry(st, s);
    EntryConserves(st.assets, st.ledger, s);
  }

  /** A settlement that goes through keeps every balance non-negative exactly
      when its delta is not the least 64-bit integer, whose negation wraps. */
  lemma SettleKeepsNonNegative(st: Store, s: Settlement)
    requires NonNegative(st) && InRange(st) && SettleTx(st, s, false).Ok?
    ensures NonNegative(SettleTx(st, s, false).value) <==> s.delta != MIN64
  {
    var st' := SettleTx(st, s, false).value;
    assert NoDebt(st.assets[s.playerId].currency) && Fits(st.assets[s.playerId].currency);
    assert NoDebt(st'.assets[s.playerId].currency) <==> s.delta != MIN64 by {
      assert s.asset in st'.assets[s.playerId].currency;
    }
    forall p | p in st'.assets && p != s.playerId ensures NoDebt(st'.assets[p].currency) {
      assert NoDebt(st.assets[p].currency);
    }
  }

  lemma SettleKeepsLedger(st: Store, s: Settlement)
    requires LedgerInv(st) && SettleTx(st, s, false).Ok?
    ensures LedgerInv(SettleTx(st, s, false).value)
  {
    var st' := SettleTx(st, s, false).value;
    forall i, j ensures OtherId(st'.ledger, i, j) {
      assert OtherId(st.ledger, i, j);
    }
  }

  lemma SettleKeepsWhole(st: Store, s: Settlement)
    requires Whole(st) && InRange(st) && SettleTx(st, s, false).Ok?
    ensures Whole(SettleTx(st, s, false).value) && InRange(SettleTx(st, s, false).value)
  {
    var st' := SettleTx(st, s, false).value;
    forall p | p in st'.assets ensures Fits(st'.assets[p].currency) {
      assert Fits(st.assets[p].currency);
    }
  }

  lemma SettleKeepsSign(st: Store, s: Settlement)
    requires InRange(st) && SettleTx(st, s, false).Ok?
    requires UsesLeast(st.ledger) || NonNegative(st)
    ensures var st' := SettleTx(st, s, false).value;
            UsesLeast(st'.ledger) || NonNegative(st')
  {
    var st' := SettleTx(st, s, false).value;
    if UsesLeast(st.ledger) {
      var i :| 0 <= i < |st.ledger| && st.ledger[i].delta == MIN64;
      assert st'.ledger[i].delta == MIN64;
    } else {
      SettleKeepsNonNegative(st, s);
      assert st'.ledger[|st.ledger|] == s;
    }
  }

  /** Conservation and the other facts of the store survive a settlement. */
  lemma SettleKeepsInv(st: Store, s: Settlement, fault: bool)
    requires StoreInv(st) && SettleTx(st, s, fault).Ok?
    ensures StoreInv(SettleTx(st, s, fault).value)
  {
    SettleConserves(st, s);
    SettleKeepsLedger(st, s);
    SettleKeepsWhole(st, s);
    SettleKeepsSign(st, s);
  }

  lemma EnsureConserves(st: Store, accountId: string, playerId: string)
    requires Conserved(st.assets, st.ledger) && LedgerInv(st) && EnsureTx(st, accountId, playerId, false).Ok?
    ensures var st' := EnsureTx(st, accountId, playerId, false).value; Conserved(st'.assets, st'.ledger)
  {
    var st' := EnsureTx(st, accountId, playerId, false).value;
    forall p | p in st'.assets ensures PlayerConserved(st'.assets[p], st'.ledger, p) {
      if p == playerId {
        NoEntriesNoSum(st.ledger, p, "");
        forall a ensures Balance(STARTING, a) == Sum(st.ledger, p, a) {
          NoEntriesNoSum(st.ledger, p, a);
        }
      } else {
        assert PlayerConserved(st.assets[p], st.ledger, p);
      }
    }
  }

  lemma EnsureKeepsWhole(st: Store, accountId: string, playerId: string)
    requires Whole(st) && EnsureTx(st, accountId, playerId, false).Ok?
    ensures Whole(EnsureTx(st, accountId, playerId, false).value)
  {
    var st' := EnsureTx(st, accountId, playerId, false).value;
    forall p, q ensures SameDefault(st'.players, p, q) {
      assert SameDefault(st.players, p, q);
    }
  }

  lemma EnsureKeepsBalances(st: Store, accountId: string, playerId: string)
    requires EnsureTx(st, accountId, playerId, false).Ok?
    ensures InRange(st) ==> InRange(EnsureTx(st, accountId, playerId, false).value)
    ensures NonNegative(st) ==> NonNegative(EnsureTx(st, accountId, playerId, false).value)
  {
    var st' := EnsureTx(st, accountId, playerId, false).value;
    assert Fits(STARTING) && NoDebt(STARTING);
    assert forall p :: p in st'.assets && p != playerId ==> st'.assets[p] == st.assets[p];
    if InRange(st) {
      forall p | p in st'.assets ensures Fits(st'.assets[p].currency) {
        assert p != playerId ==> Fits(st.assets[p].currency);
      }
    }
    if NonNegative(st) {
      forall p | p in st'.assets ensures NoDebt(st'.assets[p].currency) {
        assert p != playerId ==> NoDebt(st.assets[p].currency);
      }
    }
  }

  lemma EnsureKeepsInv(st: Store, accountId: string, playerId: string, fault: bool)
    requires StoreInv(st) && EnsureTx(st, accountId, playerId, fault).Ok?
    ensures StoreInv(EnsureTx(st, accountId, playerId, fault).value)
  {
    EnsureConserves(st, accountId, playerId);
    EnsureKeepsWhole(st, accountId, playerId);
    EnsureKeepsBalances(st, accountId, playerId);
  }

  /** The overdraft in one step: a fresh player with no gold, charged the least
      integer, is left owing it. */
  lemma LeastDeltaOverdraws()
    ensures var st := EnsureTx(EMPTY, "acct", "p", false).value;
            var s := Settlement("s", "p", "gold", MIN64, "r", "battle", 1);
            && EnsureTx(EMPTY, "acct", "p", false).Ok?
            && SettleTx(st, s, false).Ok?
            && SettleTx(st, s, false).value.assets["p"].currency["gold"] == MIN64
  {
    var s := Settlement("s", "p", "gold", MIN64, "r", "battle", 1);
    assert FieldName("gold");
  }

  // ---- The collections as the database holds them ----

  // Where in a transaction the store gives up, if it does.
  datatype Fault = Never | AtLedger | AtAssets | AtPlayer | AtSnapshot

  class Database {
    var players: map<string, Player>
    var assets: map<string, Assets>
    var ledger: seq<Settlement>
    var snapshots: map<string, Snapshot>

    constructor ()
      ensures Contents() == EMPTY
    {
      players, assets, ledger, snapshots := map[], map[], [], map[];
    }

    function Contents(): Store
      reads this
    {
      Store(players, assets, ledger, snapshots)
    }

    method FindSettlement(id: string) returns (r: Option<Settlement>)
      ensures IsEntry(ledger, id, r)
    {
      for i := 0 to |ledger|
        invariant forall j :: 0 <= j < i ==> ledger[j].id != id
      {
        if ledger[i].id == id { return Some(ledger[i]); }
      }
      return None;
    }

    method AppendLedger(s: Settlement) returns (r: Result<(), Error>)
      modifies this`ledger
      ensures r == if !ValidSettlement(s) then Err(InvalidSettlement)
                   else if InLedger(old(ledger), s.id) then Err(SettlementApplied) else Ok(())
      ensures ledger == if r.Ok? then old(ledger) + [s] else old(ledger)
    {
      if !ValidSettlement(s) { return Err(InvalidSettlement); }
      var existing := FindSettlement(s.id);
      if existing.Some? { return Err(SettlementApplied); }
      ledger := ledger + [s];
      return Ok(());
    }

    method IncrementAssets(playerId: string, asset: string, delta: Int64) returns (r: Result<Assets, Error>)
      modifies this`assets
      ensures r == ApplyDelta(old(assets), playerId, asset, delta)
      ensures assets == if r.Ok? then old(assets)[playerId := r.value] else old(assets)
    {
      if delta == 0 {
        if playerId in assets { return Ok(assets[playerId]); }
        return Err(AssetNotFound);
      }
      if !Matches(assets, playerId, asset, delta) { return Err(InsufficientCurrency); }
      if !FieldName(asset) { return Err(StoreFailed); }
      var a := assets[playerId];
      var balance := Balance(a.currency, asset) + delta;
      if balance < MIN64 || balance > MAX64 { return Err(StoreFailed); }
      a := Assets(a.currency[asset := balance], a.version + 1);
      assets := assets[playerId := a];
      return Ok(a);
    }

    /** The transaction closure of the settlement handler, run by the unit of
        work: the writes happen one by one, and an error takes all of them back. */
    method Settle(s: Settlement, fault: Fault) returns (r: Result<(), Error>)
      modifies this
      ensures fault.Never? ==>
                match SettleTx(old(Contents()), s, false)
                case Ok(st) => r.Ok? && Contents() == st
                case Err(e) => r == Err(e) && Contents() == old(Contents())
      ensures !fault.Never? ==> r.Err? && Contents() == old(Contents())
    {
      var assets0, ledger0, snapshots0 := assets, ledger, snapshots;
      r := SettleWrites(s, fault);
      if r.Err? {
        assets, ledger, snapshots := assets0, ledger0, snapshots0;
      }
    }

    method SettleWrites(s: Settlement, fault: Fault) returns (r: Result<(), Error>)
      modifies this`assets, this`ledger, this`snapshots
      ensures fault.Never? ==>
                match SettleTx(old(Contents()), s, false)
                case Ok(st) => r.Ok? && Contents() == st
                case Err(e) => r == Err(e)
      ensures !fault.Never? ==> r.Err?
    {
      if fault.AtLedger? { return Err(StoreFailed); }
      r := AppendLedger(s);
      if r.Err? { return; }
      if fault.AtAssets? { return Err(StoreFailed); }
      var a := IncrementAssets(s.playerId, s.asset, s.delta);
      if a.Err? { return Err(a.error); }
      if fault.AtPlayer? { return Err(StoreFailed); }
      if s.playerId !in players { return Err(PlayerNotFound); }
      if fault.AtSnapshot? { return Err(StoreFailed); }
      snapshots := snapshots[s.playerId := Snapshot(players[s.playerId].profileVersion, a.value.currency, a.value.version)];
      return Ok(());
    }

    /** The transaction closure of the first login. */
    method CreatePlayer(accountId: string, playerId: string, fault: Fault) returns (r: Result<(), Error>)
      modifies this
      ensures fault.Never? || fault.AtLedger? ==>
                match EnsureTx(old(Contents()), accountId, playerId, false)
                case Ok(st) => r.Ok? && Contents() == st
                case Err(e) => r == Err(e) && Contents() == old(Contents())
      ensures !fault.Never? && !fault.AtLedger? ==> r.Err? && Contents() == old(Contents())
    {
      var players0, assets0, snapshots0 := players, assets, snapshots;
      r := CreateWrites(accountId, playerId, fault);
      if r.Err? {
        players, assets, snapshots := players0, assets0, snapshots0;
      }
    }

    method CreateWrites(accountId: string, playerId: string, fault: Fault) returns (r: Result<(), Error>)
      modifies this`players, this`assets, this`snapshots
      ensures fault.Never? || fault.AtLedger? ==>
                match EnsureTx(old(Contents()), accountId, playerId, false)
                case Ok(st) => r.Ok? && Contents() == st
                case Err(e) => r == Err(e)
      ensures !fault.Never? && !fault.AtLedger? ==> r.Err?
    {
      if fault.AtPlayer? { return Err(StoreFailed); }
      if playerId in players || HasDefault(players, accountId) { return Err(DuplicateKey); }
      players := players[playerId := Player(accountId, 1)];
      if fault.AtAssets? { return Err(StoreFailed); }
      if playerId in assets { return Err(DuplicateKey); }
      assets := assets[playerId := Assets(STARTING, 1)];
      if fault.AtSnapshot? { return Err(StoreFailed); }
      snapshots := snapshots[playerId := Snapshot(1, STARTING, 1)];
      return Ok(());
    }
  }
}
