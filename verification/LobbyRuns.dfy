/** The lobby's three handlers, interleaved: first login (`ensurePlayer`),
    settlement and restore.

    A thread is one handler call.  It stops before each database operation; the
    two transactions are single steps.  `fault` is a failure of the store at that
    operation, `lost` a commit that happened but whose acknowledgement was lost.
    A run starts from any sound store, also one in which players lack a snapshot,
    and is any sequence of labels.

    Player ids are UUIDs: a drawn one is stored nowhere and no call has named it,
    and a call names a stored player's id or one that nobody has drawn. */
module LobbyRuns {
  import opened Wrappers
  import opened Lobby
  import Naming

  type Versions = map<(string, nat), Currency>

  datatype Thread =
    // ensurePlayer
    | Ensuring(account: string)
    | Creating(account: string, player: string)
    | Refinding(account: string)
    | Linking(account: string, player: string, created: bool)
    | Ensured(account: string, player: string, created: bool)
    // settlement
    | Checking(s: Settlement)
    | Settling(s: Settlement)
    | Replaying(id: string)
    | Reporting(entry: Settlement, replayed: bool)
    | Settled(entry: Settlement, replayed: bool, balance: int, version: nat)
    // restore; `last` is the version the client says it holds
    | Restoring(player: string, last: nat)
    | LoadingPlayer(player: string, last: nat)
    | LoadingAssets(player: string, last: nat, profile: nat)
    | Backfilling(player: string, last: nat, snapshot: Snapshot)
    | Restored(player: string, last: nat, snapshot: Snapshot)
    | Failed

  datatype Sys = Sys(
    st: Store,
    threads: map<int, Thread>,
    minted: map<string, int>,               // player id -> thread that generated it
    named: set<string>,                     // player ids that restore calls have named
    creator: map<string, int>,              // player -> thread whose transaction created it
    settler: map<string, int>,              // settlement -> thread whose transaction applied it
    versions: Versions,                     // the currency a player had at each asset version
    backfills: nat)                         // snapshots written outside a transaction

  datatype Input = Input(uuid: string, fault: bool, lost: bool)

  datatype Label =
    | Call(id: int, thread: Thread)
    | Act(id: int, input: Input)

  // The currency each player has now, under its version.
  function CurrentVersions(assets: map<string, Assets>): Versions {
    map p | p in assets :: (p, assets[p].version) := assets[p].currency
  }

  function Initial(st: Store): Sys {
    Sys(st, map[], map[], {}, map[], map[], CurrentVersions(st.assets), 0)
  }

  // A store to start from: sound, with every snapshot there is up to date.
  ghost predicate Sound(st: Store) {
    && StoreInv(st) && SnapshotsCurrent(st) && "" !in st.players
    && forall p :: p in st.snapshots ==> st.snapshots[p].profileVersion == 1
  }

  // Every player has a snapshot.
  predicate Complete(st: Store) {
    st.players.Keys <= st.snapshots.Keys
  }

  predicate Request(t: Thread) {
    t.Ensuring? || t.Checking? || t.Restoring?
  }

  ghost function DefaultOf(players: map<string, Player>, account: string): (r: Option<string>)
    ensures r.Some? ==> r.value in players && players[r.value].accountId == account
    ensures r.None? ==> !HasDefault(players, account)
  {
    if HasDefault(players, account) then
      var p :| p in players && players[p].accountId == account;
      Some(p)
    else None
  }

  ghost function EntryOf(ledger: seq<Settlement>, id: string): (r: Option<Settlement>)
    ensures IsEntry(ledger, id, r)
  {
    if InLedger(ledger, id) then
      var i :| 0 <= i < |ledger| && ledger[i].id == id;
      Some(ledger[i])
    else None
  }

  // Everything a resubmission must repeat.
  predicate SameSettlement(a: Settlement, b: Settlement) {
    a.playerId == b.playerId && a.asset == b.asset && a.delta == b.delta && a.reason == b.reason && a.source == b.source
  }

  function At(s: Sys, id: int, t: Thread): Sys {
    s.(threads := s.threads[id := t])
  }

  // The asset document of `player` has just been written.
  function Noted(s: Sys, player: string): Sys
    requires player in s.st.assets
  {
    s.(versions := s.versions[(player, s.st.assets[player].version) := s.st.assets[player].currency])
  }

  // Where a login goes next, its commit aside.
  ghost function EnsureNext(st: Store, t: Thread, input: Input): Thread
    requires t.Ensuring? || t.Creating? || t.Refinding? || t.Linking?
  {
    match t
    case Ensuring(account) =>
      if input.fault then Failed
      else
        (match DefaultOf(st.players, account)
         case Some(p) => Linking(account, p, false)
         case None => Creating(account, input.uuid))
    case Creating(account, _) => Refinding(account)
    case Refinding(account) =>
      if input.fault then Failed
      else
        (match DefaultOf(st.players, account)
         case Some(p) => Linking(account, p, false)
         case None => Failed)
    case Linking(account, player, created) =>
      if input.fault then Failed else Ensured(account, player, created)
  }

  predicate IsNew(s: Sys, uuid: string) {
    uuid != "" && uuid !in s.minted && uuid !in s.named && uuid !in s.st.players
  }

  // After a commit; a caller that misses the acknowledgement looks again.
  function EnsureCommitted(t: Thread, input: Input): Thread
    requires t.Creating?
  {
    if input.lost then Refinding(t.account) else Linking(t.account, t.player, true)
  }

  ghost function EnsureStep(s: Sys, id: int, t: Thread, input: Input): Sys
    requires t.Ensuring? || t.Creating? || t.Refinding? || t.Linking?
  {
    if t.Creating? && EnsureTx(s.st, t.account, t.player, input.fault).Ok? then
      var st := EnsureTx(s.st, t.account, t.player, input.fault).value;
      Noted(At(s, id, EnsureCommitted(t, input)).(st := st, creator := s.creator[t.player := id]), t.player)
    else
      var t' := EnsureNext(s.st, t, input);
      if !t'.Creating? then At(s, id, t')
      else if !IsNew(s, input.uuid) then s
      else At(s, id, t').(minted := s.minted[input.uuid := id])
  }

  // Where a settlement goes next, its commit aside.
  ghost function SettleNext(st: Store, t: Thread, input: Input): Thread
    requires t.Checking? || t.Settling? || t.Replaying? || t.Reporting?
  {
    match t
    case Checking(e) =>
      if input.fault || !ValidSettlement(e) then Failed
      else
        (match EntryOf(st.ledger, e.id)
         case Some(x) => if SameSettlement(x, e) then Reporting(x, true) else Failed
         case None => Settling(e))
    case Settling(e) =>
      if SettleTx(st, e, input.fault) == Err(SettlementApplied) then Replaying(e.id) else Failed
    case Replaying(sid) =>
      if input.fault then Failed
      else
        (match EntryOf(st.ledger, sid)
         case Some(x) => Reporting(x, true)
         case None => Failed)
    case Reporting(e, replayed) =>
      if input.fault || e.playerId !in st.assets then Failed
      else Settled(e, replayed, Balance(st.assets[e.playerId].currency, e.asset), st.assets[e.playerId].version)
  }

  function SettleCommitted(t: Thread, input: Input): Thread
    requires t.Settling?
  {
    if input.lost then Failed else Reporting(t.s, false)
  }

  ghost function SettleStep(s: Sys, id: int, t: Thread, input: Input): Sys
    requires t.Checking? || t.Settling? || t.Replaying? || t.Reporting?
  {
    if t.Settling? && SettleTx(s.st, t.s, input.fault).Ok? then
      var st := SettleTx(s.st, t.s, input.fault).value;
      Noted(At(s, id, SettleCommitted(t, input)).(st := st, settler := s.settler[t.s.id := id]), t.s.playerId)
    else At(s, id, SettleNext(s.st, t, input))
  }

  // Where a restore goes next.
  function RestoreNext(st: Store, t: Thread, input: Input): Thread
    requires t.Restoring? || t.LoadingPlayer? || t.LoadingAssets? || t.Backfilling?
  {
    match t
    case Restoring(p, last) =>
      if input.fault then Failed
      else if p in st.snapshots then Restored(p, last, st.snapshots[p])
      else LoadingPlayer(p, last)
    case LoadingPlayer(p, last) =>
      if input.fault || p !in st.players then Failed
      else LoadingAssets(p, last, st.players[p].profileVersion)
    case LoadingAssets(p, last, profile) =>
      if input.fault || p !in st.assets then Failed
      else Backfilling(p, last, Snapshot(profile, st.assets[p].currency, st.assets[p].version))
    case Backfilling(p, last, snapshot) => Restored(p, last, snapshot)
  }

  function RestoreStep(s: Sys, id: int, t: Thread, input: Input): Sys
    requires t.Restoring? || t.LoadingPlayer? || t.LoadingAssets? || t.Backfilling?
  {
    var s' := At(s, id, RestoreNext(s.st, t, input));
    // the error of this Save is ignored
    if t.Backfilling? && !input.fault
    then s'.(st := s.st.(snapshots := s.st.snapshots[t.player := t.snapshot]), backfills := s.backfills + 1)
    else s'
  }

  // Who a restore may ask for: clients learn a player's id when the player exists.
  predicate Nameable(s: Sys, t: Thread) {
    t.Restoring? ==> t.player in s.st.players || t.player !in s.minted
  }

  function CallStep(s: Sys, id: int, t: Thread): Sys {
    if id in s.threads || !Request(t) || !Nameable(s, t) then s
    else At(s, id, t).(named := if t.Restoring? then s.named + {t.player} else s.named)
  }

  ghost function Step(s: Sys, l: Label): Sys {
    match l
    case Call(id, t) => CallStep(s, id, t)
    case Act(id, input) =>
      if id !in s.threads then s
      else
        var t := s.threads[id];
        if t.Ensuring? || t.Creating? || t.Refinding? || t.Linking? then EnsureStep(s, id, t, input)
        else if t.Checking? || t.Settling? || t.Replaying? || t.Reporting? then SettleStep(s, id, t, input)
        else if t.Restoring? || t.LoadingPlayer? || t.LoadingAssets? || t.Backfilling? then RestoreStep(s, id, t, input)
        else s
  }

  ghost function Exec(s: Sys, labels: seq<Label>): Sys {
    if labels == [] then s else Step(Exec(s, labels[..|labels| - 1]), labels[|labels| - 1])
  }

  // ---- The invariant ----

  // A snapshot that was the player's state at its version.
  ghost predicate Genuine(vs: Versions, player: string, x: Snapshot) {
    x.profileVersion == 1 && x.assetVersion >= 1
    && (player, x.assetVersion) in vs && vs[(player, x.assetVersion)] == x.currency
  }

  ghost predicate ThreadInv(s: Sys, id: int, t: Thread) {
    match t
    case Creating(_, p) => p in s.minted && s.minted[p] == id && p !in s.creator
    case Linking(account, p, created) => EnsuredInv(s, id, account, p, created)
    case Ensured(account, p, created) => EnsuredInv(s, id, account, p, created)
    case Settling(e) => ValidSettlement(e)
    case Reporting(e, replayed) => SettledInv(s, id, e, replayed)
    case Settled(e, replayed, _, _) => SettledInv(s, id, e, replayed)
    case LoadingAssets(_, _, profile) => profile == 1
    case Backfilling(p, _, x) => p in s.st.assets && Genuine(s.versions, p, x)
    case Restored(p, _, x) => Genuine(s.versions, p, x)
    case _ => true
  }

  ghost predicate EnsuredInv(s: Sys, id: int, account: string, p: string, created: bool) {
    && p in s.st.players && s.st.players[p].accountId == account
    && (created ==> p in s.creator && s.creator[p] == id)
  }

  ghost predicate SettledInv(s: Sys, id: int, e: Settlement, replayed: bool) {
    && e in s.st.ledger
    && (!replayed ==> e.id in s.settler && s.settler[e.id] == id)
  }

  ghost predicate ThreadsInv(s: Sys) {
    forall id {:trigger ThreadInv(s, id, s.threads[id])} :: id in s.threads ==> ThreadInv(s, id, s.threads[id])
  }

  ghost predicate SnapshotsInv(vs: Versions, snapshots: map<string, Snapshot>) {
    forall p {:trigger Genuine(vs, p, snapshots[p])} :: p in snapshots ==> Genuine(vs, p, snapshots[p])
  }

  ghost predicate Latest(vs: Versions, p: string, a: Assets) {
    a.version >= 1 && (p, a.version) in vs && vs[(p, a.version)] == a.currency
  }

  ghost predicate Past(vs: Versions, assets: map<string, Assets>, p: string, v: nat) {
    (p, v) in vs ==> p in assets && v <= assets[p].version
  }

  // The record of versions ends at the current assets.
  ghost predicate VersionsInv(vs: Versions, assets: map<string, Assets>) {
    && (forall p {:trigger Latest(vs, p, assets[p])} :: p in assets ==> Latest(vs, p, assets[p]))
    && (forall p, v {:trigger Past(vs, assets, p, v)} :: Past(vs, assets, p, v))
  }

  ghost predicate NamesInv(s: Sys) {
    && s.creator.Keys <= s.st.players.Keys && s.creator.Keys <= s.minted.Keys
    && (forall sid {:trigger InLedger(s.st.ledger, sid)} :: sid in s.settler ==> InLedger(s.st.ledger, sid))
  }

  ghost predicate Inv(s: Sys) {
    && StoreInv(s.st) && ThreadsInv(s) && NamesInv(s)
    && SnapshotsInv(s.versions, s.st.snapshots) && VersionsInv(s.versions, s.st.assets)
    && (s.backfills == 0 ==> SnapshotsCurrent(s.st))
  }

  // `t` keeps everything a thread of `s` may rely on.
  ghost predicate Remembers(s: Sys, t: Sys) {
    && (forall p :: p in s.minted ==> p in t.minted && t.minted[p] == s.minted[p])
    && (forall p :: p in s.st.players ==> p in t.st.players && t.st.players[p] == s.st.players[p])
    && (forall p :: p in s.creator ==> p in t.creator && t.creator[p] == s.creator[p])
    && (forall e :: e in s.settler ==> e in t.settler && t.settler[e] == s.settler[e])
    && s.st.ledger <= t.st.ledger
    && s.st.assets.Keys <= t.st.assets.Keys
    && (forall k :: k in s.versions ==> k in t.versions && t.versions[k] == s.versions[k])
  }

  lemma ThreadPersists(s: Sys, t: Sys, id: int, th: Thread)
    requires Remembers(s, t) && ThreadInv(s, id, th)
    requires th.Creating? ==> th.player !in t.creator
    ensures ThreadInv(t, id, th)
  {
    if th.Reporting? || th.Settled? {
      var i :| 0 <= i < |s.st.ledger| && s.st.ledger[i] == th.entry;
      assert t.st.ledger[i] == th.entry;
    }
  }

  // Thread `id` moved to `th`; nobody else's facts were disturbed.
  lemma MoveKeepsThreads(s: Sys, t: Sys, id: int, th: Thread)
    requires ThreadsInv(s) && Remembers(s, t)
    requires t.threads == s.threads[id := th] && ThreadInv(t, id, th)
    requires forall p :: p in t.creator && p !in s.creator ==> p in s.minted && s.minted[p] == id
    ensures ThreadsInv(t)
  {
    forall k | k in t.threads ensures ThreadInv(t, k, t.threads[k]) {
      if k != id {
        assert ThreadInv(s, k, s.threads[k]);
        ThreadPersists(s, t, k, s.threads[k]);
      }
    }
  }

  // A step that writes nothing but its own thread, and perhaps draws an id.
  lemma QuietKeepsInv(s: Sys, id: int, th: Thread, minted: map<string, int>, named: set<string>)
    requires Inv(s)
    requires forall p :: p in s.minted ==> p in minted && minted[p] == s.minted[p]
    requires ThreadInv(s.(minted := minted), id, th)
    ensures Inv(At(s, id, th).(minted := minted, named := named))
  {
    MoveKeepsThreads(s, At(s, id, th).(minted := minted, named := named), id, th);
  }

  // A transaction wrote assets `a` and the matching snapshot of `player`, at a new version.
  ghost predicate WroteAssets(s: Sys, t: Sys, player: string, a: Assets) {
    && a.version >= 1 && (player in s.st.assets ==> a.version > s.st.assets[player].version)
    && t.st.assets == s.st.assets[player := a]
    && t.st.snapshots == s.st.snapshots[player := Snapshot(1, a.currency, a.version)]
    && t.versions == s.versions[(player, a.version) := a.currency]
  }

  lemma WriteIsNewVersion(s: Sys, t: Sys, player: string, a: Assets)
    requires VersionsInv(s.versions, s.st.assets) && WroteAssets(s, t, player, a)
    ensures (player, a.version) !in s.versions
    ensures forall k :: k in s.versions ==> k in t.versions && t.versions[k] == s.versions[k]
  {
    assert Past(s.versions, s.st.assets, player, a.version);
  }

  lemma WriteKeepsVersions(s: Sys, t: Sys, player: string, a: Assets)
    requires VersionsInv(s.versions, s.st.assets) && WroteAssets(s, t, player, a)
    ensures VersionsInv(t.versions, t.st.assets)
  {
    WriteIsNewVersion(s, t, player, a);
    forall p, v ensures Past(t.versions, t.st.assets, p, v) {
      assert Past(s.versions, s.st.assets, p, v);
    }
    forall p | p in t.st.assets ensures Latest(t.versions, p, t.st.assets[p]) {
      assert p != player ==> Latest(s.versions, p, s.st.assets[p]);
    }
  }

  lemma WriteKeepsSnapshots(s: Sys, t: Sys, player: string, a: Assets)
    requires VersionsInv(s.versions, s.st.assets) && SnapshotsInv(s.versions, s.st.snapshots)
    requires WroteAssets(s, t, player, a)
    ensures SnapshotsInv(t.versions, t.st.snapshots)
    ensures SnapshotsCurrent(s.st) ==> SnapshotsCurrent(t.st)
  {
    WriteIsNewVersion(s, t, player, a);
    forall p | p in t.st.snapshots ensures Genuine(t.versions, p, t.st.snapshots[p]) {
      assert p != player ==> Genuine(s.versions, p, s.st.snapshots[p]);
    }
    if SnapshotsCurrent(s.st) {
      forall p | p in t.st.snapshots && p in t.st.assets ensures SnapshotCurrent(t.st, p) {
        assert p != player ==> SnapshotCurrent(s.st, p);
      }
    }
  }

  lemma WriteKeepsRecords(s: Sys, t: Sys, player: string, a: Assets)
    requires Inv(s) && WroteAssets(s, t, player, a) && t.backfills == s.backfills
    ensures forall k :: k in s.versions ==> k in t.versions && t.versions[k] == s.versions[k]
    ensures SnapshotsInv(t.versions, t.st.snapshots) && VersionsInv(t.versions, t.st.assets)
    ensures t.backfills == 0 ==> SnapshotsCurrent(t.st)
  {
    WriteIsNewVersion(s, t, player, a);
    WriteKeepsVersions(s, t, player, a);
    WriteKeepsSnapshots(s, t, player, a);
  }

  // What the two transactions have in common.
  lemma CommitKeepsInv(s: Sys, t: Sys, id: int, th: Thread, player: string, a: Assets)
    requires Inv(s) && StoreInv(t.st) && NamesInv(t)
    requires WroteAssets(s, t, player, a) && t.backfills == s.backfills
    requires t.threads == s.threads[id := th] && ThreadInv(t, id, th)
    requires Remembers(s, t.(versions := s.versions))
    requires forall p :: p in t.creator && p !in s.creator ==> p in s.minted && s.minted[p] == id
    ensures Inv(t)
  {
    WriteKeepsRecords(s, t, player, a);
    MoveKeepsThreads(s, t, id, th);
  }

  lemma EnsureCommitKeepsInv(s: Sys, id: int, account: string, player: string, th: Thread)
    requires Inv(s) && EnsureTx(s.st, account, player, false).Ok?
    requires player in s.minted && s.minted[player] == id
    requires th == Refinding(account) || th == Linking(account, player, true)
    ensures var st := EnsureTx(s.st, account, player, false).value;
            Inv(Noted(At(s, id, th).(st := st, creator := s.creator[player := id]), player))
  {
    var st := EnsureTx(s.st, account, player, false).value;
    var t := Noted(At(s, id, th).(st := st, creator := s.creator[player := id]), player);
    EnsureKeepsInv(s.st, account, player, false);
    EnsureCommitFacts(s, t, id, account, player, st);
    CommitKeepsInv(s, t, id, th, player, Assets(STARTING, 1));
  }

  lemma EnsureCommitFacts(s: Sys, t: Sys, id: int, account: string, player: string, st: Store)
    requires NamesInv(s) && player !in s.st.players && player !in s.st.assets && player in s.minted
    requires st.players == s.st.players[player := Player(account, 1)] && st.ledger == s.st.ledger
    requires st.assets == s.st.assets[player := Assets(STARTING, 1)]
    requires t.st == st && t.creator == s.creator[player := id] && t.settler == s.settler && t.minted == s.minted
    ensures NamesInv(t) && Remembers(s, t.(versions := s.versions))
  {
    forall sid | sid in t.settler ensures InLedger(t.st.ledger, sid) {
      assert InLedger(s.st.ledger, sid);
    }
  }

  lemma AppendKeepsEntries(ledger: seq<Settlement>, e: Settlement, sid: string)
    requires InLedger(ledger, sid) || sid == e.id
    ensures InLedger(ledger + [e], sid)
  {
    if InLedger(ledger, sid) {
      var i :| 0 <= i < |ledger| && ledger[i].id == sid;
      assert (ledger + [e])[i].id == sid;
    }
    assert (ledger + [e])[|ledger|].id == e.id;
  }

  lemma SettleCommitFacts(s: Sys, t: Sys, id: int, e: Settlement)
    requires NamesInv(s) && t.minted == s.minted && t.creator == s.creator && t.st.players == s.st.players
    requires t.st.ledger == s.st.ledger + [e] && t.settler == s.settler[e.id := id]
    requires !InLedger(s.st.ledger, e.id) && s.st.assets.Keys <= t.st.assets.Keys
    ensures NamesInv(t) && Remembers(s, t.(versions := s.versions))
  {
    assert e.id !in s.settler;
    forall sid | sid in t.settler ensures InLedger(t.st.ledger, sid) {
      assert sid != e.id ==> InLedger(s.st.ledger, sid);
      AppendKeepsEntries(s.st.ledger, e, sid);
    }
  }

  lemma SettleCommitKeepsInv(s: Sys, id: int, e: Settlement, th: Thread)
    requires Inv(s) && SettleTx(s.st, e, false).Ok? && (th == Failed || th == Reporting(e, false))
    ensures var st := SettleTx(s.st, e, false).value;
            Inv(Noted(At(s, id, th).(st := st, settler := s.settler[e.id := id]), e.playerId))
  {
    var st := SettleTx(s.st, e, false).value;
    var t := Noted(At(s, id, th).(st := st, settler := s.settler[e.id := id]), e.playerId);
    SettleKeepsInv(s.st, e, false);
    SettleCommitFacts(s, t, id, e);
    assert t.st.ledger[|s.st.ledger|] == e;
    CommitKeepsInv(s, t, id, th, e.playerId, st.assets[e.playerId]);
  }

  lemma BackfillKeepsStore(st: Store, player: string, x: Snapshot)
    requires StoreInv(st) && player in st.assets
    ensures StoreInv(st.(snapshots := st.snapshots[player := x]))
  {
    var st' := st.(snapshots := st.snapshots[player := x]);
    forall p | p in st'.assets ensures PlayerConserved(st'.assets[p], st'.ledger, p) && Fits(st'.assets[p].currency) {
      assert PlayerConserved(st.assets[p], st.ledger, p) && Fits(st.assets[p].currency);
    }
    forall p, q ensures SameDefault(st'.players, p, q) {
      assert SameDefault(st.players, p, q);
    }
    if NonNegative(st) {
      forall p | p in st'.assets ensures NoDebt(st'.assets[p].currency) {
        assert NoDebt(st.assets[p].currency);
      }
    }
  }

  lemma BackfillKeepsSnapshots(vs: Versions, snapshots: map<string, Snapshot>, player: string, x: Snapshot)
    requires SnapshotsInv(vs, snapshots) && Genuine(vs, player, x)
    ensures SnapshotsInv(vs, snapshots[player := x])
  {
    var after := snapshots[player := x];
    forall p | p in after ensures Genuine(vs, p, after[p]) {
      assert p != player ==> Genuine(vs, p, snapshots[p]);
    }
  }

  lemma BackfillKeepsInv(s: Sys, id: int, player: string, last: nat, x: Snapshot)
    requires Inv(s) && player in s.st.assets && Genuine(s.versions, player, x)
    ensures var t := At(s, id, Restored(player, last, x));
            Inv(t.(st := s.st.(snapshots := s.st.snapshots[player := x]), backfills := s.backfills + 1))
  {
    var st := s.st.(snapshots := s.st.snapshots[player := x]);
    var t := At(s, id, Restored(player, last, x)).(st := st, backfills := s.backfills + 1);
    BackfillKeepsStore(s.st, player, x);
    BackfillKeepsSnapshots(s.versions, s.st.snapshots, player, x);
    MoveKeepsThreads(s, t, id, Restored(player, last, x));
  }

  lemma StepKeepsInv(s: Sys, l: Label)
    requires Inv(s)
    ensures Inv(Step(s, l))
  {
    if l.Call? {
      if l.id !in s.threads && Request(l.thread) && Nameable(s, l.thread) {
        QuietKeepsInv(s, l.id, l.thread, s.minted, CallStep(s, l.id, l.thread).named);
      }
    } else if l.id in s.threads {
      var id, t, input := l.id, s.threads[l.id], l.input;
      assert ThreadInv(s, id, t);
      if t.Ensuring? || t.Creating? || t.Refinding? || t.Linking? {
        EnsureStepKeepsInv(s, id, t, input);
      } else if t.Checking? || t.Settling? || t.Replaying? || t.Reporting? {
        SettleStepKeepsInv(s, id, t, input);
      } else if t.Restoring? || t.LoadingPlayer? || t.LoadingAssets? || t.Backfilling? {
        RestoreStepKeepsInv(s, id, t, input);
      }
    }
  }

  lemma EnsureNextInv(s: Sys, id: int, t: Thread, input: Input)
    requires ThreadInv(s, id, t) && s.creator.Keys <= s.minted.Keys
    requires t.Ensuring? || t.Creating? || t.Refinding? || t.Linking?
    requires var t' := EnsureNext(s.st, t, input); t'.Creating? ==> IsNew(s, input.uuid)
    ensures var t' := EnsureNext(s.st, t, input);
            ThreadInv(if t'.Creating? then s.(minted := s.minted[input.uuid := id]) else s, id, t')
  {
  }

  lemma SettleNextInv(s: Sys, id: int, t: Thread, input: Input)
    requires ThreadInv(s, id, t)
    requires t.Checking? || t.Settling? || t.Replaying? || t.Reporting?
    ensures ThreadInv(s, id, SettleNext(s.st, t, input))
  {
  }

  lemma EnsureStepKeepsInv(s: Sys, id: int, t: Thread, input: Input)
    requires Inv(s) && id in s.threads && s.threads[id] == t && ThreadInv(s, id, t)
    requires t.Ensuring? || t.Creating? || t.Refinding? || t.Linking?
    ensures Inv(EnsureStep(s, id, t, input))
  {
    if t.Creating? && EnsureTx(s.st, t.account, t.player, input.fault).Ok? {
      EnsureCommitKeepsInv(s, id, t.account, t.player, EnsureCommitted(t, input));
    } else {
      var t' := EnsureNext(s.st, t, input);
      if t'.Creating? ==> IsNew(s, input.uuid) {
        EnsureNextInv(s, id, t, input);
        QuietKeepsInv(s, id, t', if t'.Creating? then s.minted[input.uuid := id] else s.minted, s.named);
      }
    }
  }

  lemma SettleStepKeepsInv(s: Sys, id: int, t: Thread, input: Input)
    requires Inv(s) && id in s.threads && s.threads[id] == t && ThreadInv(s, id, t)
    requires t.Checking? || t.Settling? || t.Replaying? || t.Reporting?
    ensures Inv(SettleStep(s, id, t, input))
  {
    if t.Settling? && SettleTx(s.st, t.s, input.fault).Ok? {
      SettleCommitKeepsInv(s, id, t.s, SettleCommitted(t, input));
    } else {
      SettleNextInv(s, id, t, input);
      QuietKeepsInv(s, id, SettleNext(s.st, t, input), s.minted, s.named);
    }
  }

  lemma RestoreNextInv(s: Sys, id: int, t: Thread, input: Input)
    requires ThreadInv(s, id, t) && Whole(s.st)
    requires SnapshotsInv(s.versions, s.st.snapshots) && VersionsInv(s.versions, s.st.assets)
    requires t.Restoring? || t.LoadingPlayer? || t.LoadingAssets? || t.Backfilling?
    ensures ThreadInv(s, id, RestoreNext(s.st, t, input))
  {
    if t.Restoring? && t.player in s.st.snapshots {
      assert Genuine(s.versions, t.player, s.st.snapshots[t.player]);
    }
    if t.LoadingAssets? && t.player in s.st.assets {
      assert Latest(s.versions, t.player, s.st.assets[t.player]);
    }
  }

  lemma RestoreStepKeepsInv(s: Sys, id: int, t: Thread, input: Input)
    requires Inv(s) && id in s.threads && s.threads[id] == t && ThreadInv(s, id, t)
    requires t.Restoring? || t.LoadingPlayer? || t.LoadingAssets? || t.Backfilling?
    ensures Inv(RestoreStep(s, id, t, input))
  {
    if t.Backfilling? && !input.fault {
      BackfillKeepsInv(s, id, t.player, t.last, t.snapshot);
    } else {
      RestoreNextInv(s, id, t, input);
      QuietKeepsInv(s, id, RestoreNext(s.st, t, input), s.minted, s.named);
    }
  }

  lemma VersionsStart(assets: map<string, Assets>, ledger: seq<Settlement>)
    requires Conserved(assets, ledger)
    ensures VersionsInv(CurrentVersions(assets), assets)
  {
    var vs := CurrentVersions(assets);
    forall p | p in assets ensures Latest(vs, p, assets[p]) {
      assert PlayerConserved(assets[p], ledger, p);
      assert (p, assets[p].version) in vs;
    }
  }

  lemma SnapshotsStart(st: Store)
    requires VersionsInv(CurrentVersions(st.assets), st.assets) && SnapshotsCurrent(st)
    requires st.snapshots.Keys <= st.assets.Keys
    requires forall p :: p in st.snapshots ==> st.snapshots[p].profileVersion == 1
    ensures SnapshotsInv(CurrentVersions(st.assets), st.snapshots)
  {
    var vs := CurrentVersions(st.assets);
    forall p | p in st.snapshots ensures Genuine(vs, p, st.snapshots[p]) {
      assert SnapshotCurrent(st, p) && Latest(vs, p, st.assets[p]);
    }
  }

  lemma SoundStartsInv(st: Store)
    requires Sound(st)
    ensures Inv(Initial(st))
  {
    VersionsStart(st.assets, st.ledger);
    SnapshotsStart(st);
  }

  lemma {:induction false} RunKeepsInv(st: Store, labels: seq<Label>)
    requires Sound(st)
    ensures Inv(Exec(Initial(st), labels))
  {
    if labels == [] {
      SoundStartsInv(st);
    } else {
      RunKeepsInv(st, labels[..|labels| - 1]);
      StepKeepsInv(Exec(Initial(st), labels[..|labels| - 1]), labels[|labels| - 1]);
    }
  }

  // ---- Theorems over every run, from every sound store ----

  lemma StoreBalances(st: Store, p: string, asset: string)
    requires Conserved(st.assets, st.ledger) && (UsesLeast(st.ledger) || NonNegative(st)) && p in st.assets
    ensures Balance(st.assets[p].currency, asset) == Sum(st.ledger, p, asset)
    ensures st.assets[p].version == 1 + Entries(st.ledger, p)
    ensures UsesLeast(st.ledger) || Balance(st.assets[p].currency, asset) >= 0
  {
    assert PlayerConserved(st.assets[p], st.ledger, p);
    if !UsesLeast(st.ledger) {
      assert NoDebt(st.assets[p].currency);
    }
  }

  // Every balance is the player's ledger sum, and none is negative unless the least delta was applied.
  ghost predicate Balanced(st: Store) {
    forall p, asset :: p in st.assets ==>
      && Balance(st.assets[p].currency, asset) == Sum(st.ledger, p, asset)
      && st.assets[p].version == 1 + Entries(st.ledger, p)
      && (UsesLeast(st.ledger) || Balance(st.assets[p].currency, asset) >= 0)
  }

  lemma StoreIsBalanced(st: Store)
    requires Conserved(st.assets, st.ledger) && (UsesLeast(st.ledger) || NonNegative(st))
    ensures Balanced(st)
  {
    forall p, asset | p in st.assets
      ensures Balance(st.assets[p].currency, asset) == Sum(st.ledger, p, asset)
      ensures st.assets[p].version == 1 + Entries(st.ledger, p)
      ensures UsesLeast(st.ledger) || Balance(st.assets[p].currency, asset) >= 0
    {
      StoreBalances(st, p, asset);
    }
  }

  /** Conservation: whatever settlements, logins, resubmissions and failures
      interleave, each balance is the sum of the player's ledger deltas, the
      version is one plus the player's entries, and no balance is negative unless
      some applied delta was the least 64-bit integer. */
  lemma BalancesAreLedgerSums(start: Store, labels: seq<Label>)
    requires Sound(start)
    ensures Balanced(Exec(Initial(start), labels).st)
  {
    RunKeepsInv(start, labels);
    StoreIsBalanced(Exec(Initial(start), labels).st);
  }

  lemma {:induction false} LedgerOnlyGrows(s: Sys, more: seq<Label>)
    ensures s.st.ledger <= Exec(s, more).st.ledger
  {
    if more != [] {
      LedgerOnlyGrows(s, more[..|more| - 1]);
      StepGrowsLedger(Exec(s, more[..|more| - 1]), more[|more| - 1]);
    }
  }

  lemma EnsureStepKeepsLedger(s: Sys, id: int, t: Thread, input: Input)
    requires t.Ensuring? || t.Creating? || t.Refinding? || t.Linking?
    ensures EnsureStep(s, id, t, input).st.ledger == s.st.ledger
  {
  }

  lemma SettleStepGrowsLedger(s: Sys, id: int, t: Thread, input: Input)
    requires t.Checking? || t.Settling? || t.Replaying? || t.Reporting?
    ensures s.st.ledger <= SettleStep(s, id, t, input).st.ledger
  {
  }

  lemma StepGrowsLedger(s: Sys, l: Label)
    ensures s.st.ledger <= Step(s, l).st.ledger
  {
    if l.Act? && l.id in s.threads {
      var t := s.threads[l.id];
      if t.Ensuring? || t.Creating? || t.Refinding? || t.Linking? {
        EnsureStepKeepsLedger(s, l.id, t, l.input);
      } else if t.Checking? || t.Settling? || t.Replaying? || t.Reporting? {
        SettleStepGrowsLedger(s, l.id, t, l.input);
      }
    }
  }

  ghost predicate ReportsFresh(t: Thread, id: string) {
    (t.Reporting? || t.Settled?) && t.entry.id == id && !t.replayed
  }

  lemma FreshReportsAgree(s: Sys, a: int, b: int, id: string)
    requires ThreadsInv(s) && a in s.threads && b in s.threads
    requires ReportsFresh(s.threads[a], id) && ReportsFresh(s.threads[b], id)
    ensures a == b
  {
    assert ThreadInv(s, a, s.threads[a]) && ThreadInv(s, b, s.threads[b]);
  }

  lemma SettledIsStored(s: Sys, a: int)
    requires ThreadsInv(s) && a in s.threads && s.threads[a].Settled?
    ensures s.threads[a].entry in s.st.ledger
  {
    assert ThreadInv(s, a, s.threads[a]);
  }

  ghost predicate AppliedOnce(s: Sys) {
    && (forall i, j :: 0 <= i < j < |s.st.ledger| ==> s.st.ledger[i].id != s.st.ledger[j].id)
    && (forall a, b, id :: (a in s.threads && b in s.threads && ReportsFresh(s.threads[a], id)
                            && ReportsFresh(s.threads[b], id)) ==> a == b)
    && (forall a :: a in s.threads && s.threads[a].Settled? ==> s.threads[a].entry in s.st.ledger)
  }

  lemma InvAppliesOnce(s: Sys)
    requires Inv(s)
    ensures AppliedOnce(s)
  {
    forall i, j | 0 <= i < j < |s.st.ledger| ensures s.st.ledger[i].id != s.st.ledger[j].id {
      assert OtherId(s.st.ledger, i, j);
    }
    forall a, b, id | a in s.threads && b in s.threads
                      && ReportsFresh(s.threads[a], id) && ReportsFresh(s.threads[b], id) ensures a == b
    {
      FreshReportsAgree(s, a, b, id);
    }
    forall a | a in s.threads && s.threads[a].Settled? ensures s.threads[a].entry in s.st.ledger {
      SettledIsStored(s, a);
    }
  }

  /** Exactly once: a settlement id has one ledger entry, of all submissions of it
      at most one is ever told that it was the one that applied it, and every
      success reports a stored entry. */
  lemma SettlementsApplyOnce(start: Store, labels: seq<Label>)
    requires Sound(start)
    ensures AppliedOnce(Exec(Initial(start), labels))
  {
    RunKeepsInv(start, labels);
    InvAppliesOnce(Exec(Initial(start), labels));
  }

  // All successful logins of an account name one player, and at most one of them created it.
  ghost predicate LoginsAgree(s: Sys) {
    forall a, b :: a in s.threads && b in s.threads && s.threads[a].Ensured? && s.threads[b].Ensured?
                   && s.threads[a].account == s.threads[b].account ==>
      && s.threads[a].player == s.threads[b].player
      && (s.threads[a].created && s.threads[b].created ==> a == b)
  }

  lemma InvLoginsAgree(s: Sys)
    requires Inv(s)
    ensures LoginsAgree(s)
  {
    forall a, b | a in s.threads && b in s.threads && s.threads[a].Ensured? && s.threads[b].Ensured?
                  && s.threads[a].account == s.threads[b].account
      ensures s.threads[a].player == s.threads[b].player
              && (s.threads[a].created && s.threads[b].created ==> a == b)
    {
      assert ThreadInv(s, a, s.threads[a]) && ThreadInv(s, b, s.threads[b]);
      assert SameDefault(s.st.players, s.threads[a].player, s.threads[b].player);
    }
  }

  /** First logins agree: all successful replies for an account name one player,
      and at most one of them says it created it. */
  lemma FirstLoginsAgree(start: Store, labels: seq<Label>)
    requires Sound(start)
    ensures LoginsAgree(Exec(Initial(start), labels))
  {
    RunKeepsInv(start, labels);
    InvLoginsAgree(Exec(Initial(start), labels));
  }

  // The players that have no snapshot.
  function Lacking(st: Store): set<string> {
    st.players.Keys - st.snapshots.Keys
  }

  lemma StepLacksNoMore(s: Sys, l: Label)
    ensures Lacking(Step(s, l).st) <= Lacking(s.st)
  {
    if l.Act? && l.id in s.threads {
      var t := s.threads[l.id];
      if t.Ensuring? || t.Creating? || t.Refinding? || t.Linking? {
        EnsureStepLacksNoMore(s, l.id, t, l.input);
      } else if t.Checking? || t.Settling? || t.Replaying? || t.Reporting? {
        SettleStepLacksNoMore(s, l.id, t, l.input);
      }
    }
  }

  lemma EnsureStepLacksNoMore(s: Sys, id: int, t: Thread, input: Input)
    requires t.Ensuring? || t.Creating? || t.Refinding? || t.Linking?
    ensures Lacking(EnsureStep(s, id, t, input).st) <= Lacking(s.st)
  {
  }

  lemma SettleStepLacksNoMore(s: Sys, id: int, t: Thread, input: Input)
    requires t.Checking? || t.Settling? || t.Replaying? || t.Reporting?
    ensures Lacking(SettleStep(s, id, t, input).st) <= Lacking(s.st)
  {
  }

  lemma {:induction false} RunLacksNoMore(s: Sys, more: seq<Label>)
    ensures Lacking(Exec(s, more).st) <= Lacking(s.st)
  {
    if more != [] {
      RunLacksNoMore(s, more[..|more| - 1]);
      StepLacksNoMore(Exec(s, more[..|more| - 1]), more[|more| - 1]);
    }
  }

  /** Nothing is half created: in every run players and assets exist together, and
      a player without a snapshot is one that the store was started with. */
  lemma NothingIsHalfCreated(start: Store, labels: seq<Label>)
    requires Sound(start)
    ensures var st := Exec(Initial(start), labels).st;
            && st.players.Keys == st.assets.Keys && st.snapshots.Keys <= st.players.Keys
            && Lacking(st) <= Lacking(start)
  {
    RunKeepsInv(start, labels);
    RunLacksNoMore(Initial(start), labels);
  }

  // The restore answers NOOP: the client already has the snapshot's version.
  predicate Noop(t: Thread) {
    t.Restored? && t.last == StateVersion(t.snapshot)
  }

  lemma VersionNamesCurrency(vs: Versions, player: string, x: Snapshot, y: Snapshot)
    requires Genuine(vs, player, x) && Genuine(vs, player, y) && StateVersion(x) == StateVersion(y)
    ensures x.assetVersion == y.assetVersion && x.currency == y.currency
  {
  }

  lemma RestoredIsGenuine(s: Sys, id: int)
    requires ThreadsInv(s) && id in s.threads && s.threads[id].Restored?
    ensures Genuine(s.versions, s.threads[id].player, s.threads[id].snapshot)
  {
    assert ThreadInv(s, id, s.threads[id]);
  }

  // Restore `earlier` gave a client the version that restore `now` calls unchanged.
  ghost predicate SameVersion(s: Sys, now: int, earlier: int) {
    && now in s.threads && earlier in s.threads && Noop(s.threads[now]) && s.threads[earlier].Restored?
    && s.threads[earlier].player == s.threads[now].player
    && StateVersion(s.threads[earlier].snapshot) == s.threads[now].last
  }

  ghost predicate NoopsAgree(s: Sys) {
    forall now, earlier :: SameVersion(s, now, earlier) ==>
      s.threads[earlier].snapshot.currency == s.threads[now].snapshot.currency
  }

  lemma InvNoopsAgree(s: Sys)
    requires ThreadsInv(s)
    ensures NoopsAgree(s)
  {
    forall now, earlier | SameVersion(s, now, earlier)
      ensures s.threads[earlier].snapshot.currency == s.threads[now].snapshot.currency
    {
      RestoredIsGenuine(s, now);
      RestoredIsGenuine(s, earlier);
      VersionNamesCurrency(s.versions, s.threads[now].player, s.threads[now].snapshot, s.threads[earlier].snapshot);
    }
  }

  /** A state version names one currency map: a client answered NOOP after it
      once received that version already holds what the snapshot says. */
  lemma NoopIsSound(start: Store, labels: seq<Label>)
    requires Sound(start)
    ensures NoopsAgree(Exec(Initial(start), labels))
  {
    RunKeepsInv(start, labels);
    InvNoopsAgree(Exec(Initial(start), labels));
  }

  // ---- Snapshots follow the assets from a complete store ----

  // A restore that found no snapshot asks for somebody who does not exist and never will.
  ghost predicate TidyThread(s: Sys, t: Thread) {
    match t
    case Restoring(p, _) => p in s.named && (p in s.st.players || p !in s.minted)
    case LoadingPlayer(p, _) => p in s.named && p !in s.st.players && p !in s.minted
    case LoadingAssets(_, _, _) => false
    case Backfilling(_, _, _) => false
    case _ => true
  }

  ghost predicate TidyThreads(s: Sys) {
    forall id {:trigger TidyThread(s, s.threads[id])} :: id in s.threads ==> TidyThread(s, s.threads[id])
  }

  ghost predicate Tidy(s: Sys) {
    TidyThreads(s) && Complete(s.st) && s.backfills == 0
  }

  // Thread `id` moved; new players were drawn ids, and new ids were named by nobody.
  lemma MoveKeepsTidy(s: Sys, t: Sys, id: int, th: Thread)
    requires TidyThreads(s) && t.threads == s.threads[id := th] && TidyThread(t, th)
    requires s.named <= t.named && s.st.players.Keys <= t.st.players.Keys
    requires forall p :: p in t.st.players && p !in s.st.players ==> p in s.minted
    requires forall p :: p in t.minted && p !in s.minted ==> p !in s.named
    ensures TidyThreads(t)
  {
    forall k | k in t.threads ensures TidyThread(t, t.threads[k]) {
      assert k != id ==> TidyThread(s, s.threads[k]);
    }
  }

  lemma EnsureKeepsTidy(s: Sys, id: int, t: Thread, input: Input)
    requires Tidy(s) && ThreadInv(s, id, t)
    requires t.Ensuring? || t.Creating? || t.Refinding? || t.Linking?
    ensures Tidy(EnsureStep(s, id, t, input))
  {
    var s' := EnsureStep(s, id, t, input);
    EnsureStepLacksNoMore(s, id, t, input);
    assert Lacking(s'.st) == {};
    if t.Creating? && EnsureTx(s.st, t.account, t.player, input.fault).Ok? {
      MoveKeepsTidy(s, s', id, EnsureCommitted(t, input));
    } else {
      var t' := EnsureNext(s.st, t, input);
      if t'.Creating? ==> IsNew(s, input.uuid) {
        MoveKeepsTidy(s, s', id, t');
      }
    }
  }

  lemma SettleKeepsTidy(s: Sys, id: int, t: Thread, input: Input)
    requires Tidy(s)
    requires t.Checking? || t.Settling? || t.Replaying? || t.Reporting?
    ensures Tidy(SettleStep(s, id, t, input))
  {
    var s' := SettleStep(s, id, t, input);
    SettleStepLacksNoMore(s, id, t, input);
    assert Lacking(s'.st) == {};
    if t.Settling? && SettleTx(s.st, t.s, input.fault).Ok? {
      MoveKeepsTidy(s, s', id, SettleCommitted(t, input));
    } else {
      MoveKeepsTidy(s, s', id, SettleNext(s.st, t, input));
    }
  }

  lemma RestoreKeepsTidy(s: Sys, id: int, t: Thread, input: Input)
    requires Tidy(s) && TidyThread(s, t)
    requires t.Restoring? || t.LoadingPlayer?
    ensures Tidy(RestoreStep(s, id, t, input))
  {
    MoveKeepsTidy(s, RestoreStep(s, id, t, input), id, RestoreNext(s.st, t, input));
  }

  lemma StepKeepsTidy(s: Sys, l: Label)
    requires Inv(s) && Tidy(s)
    ensures Tidy(Step(s, l))
  {
    if l.Call? {
      if l.id !in s.threads && Request(l.thread) && Nameable(s, l.thread) {
        MoveKeepsTidy(s, CallStep(s, l.id, l.thread), l.id, l.thread);
      }
    } else if l.id in s.threads {
      var id, t, input := l.id, s.threads[l.id], l.input;
      assert ThreadInv(s, id, t) && TidyThread(s, t);
      if t.Ensuring? || t.Creating? || t.Refinding? || t.Linking? {
        EnsureKeepsTidy(s, id, t, input);
      } else if t.Checking? || t.Settling? || t.Replaying? || t.Reporting? {
        SettleKeepsTidy(s, id, t, input);
      } else if t.Restoring? || t.LoadingPlayer? {
        RestoreKeepsTidy(s, id, t, input);
      }
    }
  }

  lemma {:induction false} RunKeepsTidy(start: Store, labels: seq<Label>)
    requires Sound(start) && Complete(start)
    ensures Tidy(Exec(Initial(start), labels))
  {
    if labels != [] {
      RunKeepsTidy(start, labels[..|labels| - 1]);
      RunKeepsInv(start, labels[..|labels| - 1]);
      StepKeepsTidy(Exec(Initial(start), labels[..|labels| - 1]), labels[|labels| - 1]);
    }
  }

  lemma TidyIsCurrent(s: Sys)
    requires Inv(s) && Tidy(s)
    ensures s.st.snapshots.Keys == s.st.assets.Keys == s.st.players.Keys && SnapshotsCurrent(s.st)
  {
  }

  /** From a store in which every player has a snapshot, as from the empty one, in
      every run every player has one and it equals the player's assets. */
  lemma SnapshotsFollowAssets(start: Store, labels: seq<Label>)
    requires Sound(start) && Complete(start)
    ensures var st := Exec(Initial(start), labels).st;
            st.snapshots.Keys == st.assets.Keys == st.players.Keys && SnapshotsCurrent(st)
  {
    RunKeepsInv(start, labels);
    RunKeepsTidy(start, labels);
    TidyIsCurrent(Exec(Initial(start), labels));
  }

  // Restore `now` is about to find the version that restore `earlier` gave a client.
  ghost predicate FindsVersion(s: Sys, now: int, earlier: int) {
    && now in s.threads && s.threads[now].Restoring? && s.threads[now].player in s.st.snapshots
    && earlier in s.threads && s.threads[earlier].Restored?
    && s.threads[earlier].player == s.threads[now].player
    && StateVersion(s.threads[earlier].snapshot) == StateVersion(s.st.snapshots[s.threads[now].player])
  }

  ghost predicate NoopsCurrent(s: Sys) {
    forall now, earlier :: FindsVersion(s, now, earlier) ==>
      && s.threads[now].player in s.st.assets
      && s.threads[earlier].snapshot.currency == s.st.assets[s.threads[now].player].currency
  }

  lemma InvNoopsCurrent(s: Sys)
    requires Inv(s) && Tidy(s)
    ensures NoopsCurrent(s)
  {
    forall now, earlier | FindsVersion(s, now, earlier)
      ensures s.threads[now].player in s.st.assets
      ensures s.threads[earlier].snapshot.currency == s.st.assets[s.threads[now].player].currency
    {
      var p := s.threads[now].player;
      RestoredIsGenuine(s, earlier);
      assert Genuine(s.versions, p, s.st.snapshots[p]) && SnapshotCurrent(s.st, p);
      VersionNamesCurrency(s.versions, p, s.st.snapshots[p], s.threads[earlier].snapshot);
    }
  }

  /** And a client that is about to be answered NOOP holds the player's current
      currency. */
  lemma NoopIsCurrent(start: Store, labels: seq<Label>)
    requires Sound(start) && Complete(start)
    ensures NoopsCurrent(Exec(Initial(start), labels))
  {
    RunKeepsInv(start, labels);
    RunKeepsTidy(start, labels);
    InvNoopsCurrent(Exec(Initial(start), labels));
  }

  // ---- A missing snapshot, rebuilt ----

  /** A restore's own write keeps the snapshots current exactly when the asset
      version it read is still the stored one. */
  lemma BackfillExact(s: Sys, id: int, input: Input)
    requires Inv(s) && SnapshotsCurrent(s.st)
    requires id in s.threads && s.threads[id].Backfilling? && !input.fault
    ensures var p, x := s.threads[id].player, s.threads[id].snapshot;
            && p in s.st.assets
            && (SnapshotsCurrent(Step(s, Act(id, input)).st) <==> x.assetVersion == s.st.assets[p].version)
  {
    var p, x := s.threads[id].player, s.threads[id].snapshot;
    var st := Step(s, Act(id, input)).st;
    assert ThreadInv(s, id, s.threads[id]) && Latest(s.versions, p, s.st.assets[p]);
    assert SnapshotCurrent(st, p) <==> x.assetVersion == s.st.assets[p].version;
    forall q | q in st.snapshots && q in st.assets && q != p ensures SnapshotCurrent(st, q) {
      assert SnapshotCurrent(s.st, q);
    }
  }

  // Some run leads from `s` to `t`.
  ghost predicate Reaches(s: Sys, t: Sys) {
    exists labels :: Exec(s, labels) == t
  }

  lemma ReachesItself(s: Sys)
    ensures Reaches(s, s)
  {
    assert Exec(s, []) == s;
  }

  lemma ReachesNext(s: Sys, t: Sys, l: Label)
    requires Reaches(s, t)
    ensures Reaches(s, Step(t, l))
  {
    var labels :| Exec(s, labels) == t;
    assert (labels + [l])[..|labels|] == labels;
    assert Exec(s, labels + [l]) == Step(t, l);
  }

  const QUIET := Input("", false, false)

  lemma RestoreStarts(s: Sys, t: Sys, id: int, p: string) returns (u: Sys)
    requires Reaches(s, t) && id !in t.threads && p in t.st.players
    ensures Reaches(s, u) && u.st == t.st && u.threads == t.threads[id := Restoring(p, 0)]
  {
    u := Step(t, Call(id, Restoring(p, 0)));
    ReachesNext(s, t, Call(id, Restoring(p, 0)));
  }

  lemma RestoreReads(s: Sys, t: Sys, id: int, th: Thread) returns (u: Sys)
    requires Reaches(s, t) && id in t.threads && t.threads[id] == th
    requires th.Restoring? || th.LoadingPlayer? || th.LoadingAssets?
    ensures Reaches(s, u) && u.st == t.st && u.threads == t.threads[id := RestoreNext(t.st, th, QUIET)]
  {
    u := Step(t, Act(id, QUIET));
    ReachesNext(s, t, Act(id, QUIET));
  }

  // A restore finds no snapshot of player `p` and reads player and assets.
  lemma RestoreReadsAssets(s: Sys, p: string) returns (u: Sys)
    requires s.threads == map[] && p in s.st.players && p !in s.st.snapshots && p in s.st.assets
    ensures Reaches(s, u) && u.st == s.st
    ensures var a := s.st.assets[p];
            u.threads == map[1 := Backfilling(p, 0, Snapshot(s.st.players[p].profileVersion, a.currency, a.version))]
  {
    ReachesItself(s);
    u := RestoreStarts(s, s, 1, p);
    u := RestoreReads(s, u, 1, Restoring(p, 0));
    u := RestoreReads(s, u, 1, LoadingPlayer(p, 0));
    u := RestoreReads(s, u, 1, LoadingAssets(p, 0, s.st.players[p].profileVersion));
  }

  // Any player can be given one of something new.
  lemma PrizeFor(st: Store, p: string) returns (prize: Settlement)
    requires StoreInv(st) && p in st.players && p != ""
    ensures prize.playerId == p && ValidSettlement(prize) && !InLedger(st.ledger, prize.id)
    ensures SettleTx(st, prize, false).Ok?
    ensures var st' := SettleTx(st, prize, false).value;
            p in st.assets && p in st'.assets && st'.assets[p].version == st.assets[p].version + 1
  {
    var id := Naming.NewName(set e | e in st.ledger :: e.id);
    var asset := Naming.NewName(st.assets[p].currency.Keys);
    assert forall i :: 0 <= i < |st.ledger| ==> st.ledger[i] in st.ledger;
    prize := Settlement(id, p, asset, 1, "win", "battle", 1);
    assert FieldName(asset);
  }

  lemma SubmissionStarts(s: Sys, t: Sys, id: int, prize: Settlement) returns (u: Sys)
    requires Reaches(s, t) && id !in t.threads
    ensures Reaches(s, u) && u.st == t.st && u.threads == t.threads[id := Checking(prize)]
  {
    u := Step(t, Call(id, Checking(prize)));
    ReachesNext(s, t, Call(id, Checking(prize)));
  }

  lemma SubmissionChecks(s: Sys, t: Sys, id: int, prize: Settlement) returns (u: Sys)
    requires Reaches(s, t) && id in t.threads && t.threads[id] == Checking(prize)
    requires ValidSettlement(prize) && !InLedger(t.st.ledger, prize.id)
    ensures Reaches(s, u) && u.st == t.st && u.threads == t.threads[id := Settling(prize)]
  {
    u := Step(t, Act(id, QUIET));
    ReachesNext(s, t, Act(id, QUIET));
  }

  lemma SubmissionCommits(s: Sys, t: Sys, id: int, prize: Settlement) returns (u: Sys)
    requires Reaches(s, t) && id in t.threads && t.threads[id] == Settling(prize) && SettleTx(t.st, prize, false).Ok?
    ensures Reaches(s, u) && u.st == SettleTx(t.st, prize, false).value
    ensures u.threads == t.threads[id := Reporting(prize, false)]
  {
    u := Step(t, Act(id, QUIET));
    ReachesNext(s, t, Act(id, QUIET));
  }

  // A settlement commits before the restore writes.
  lemma SettlementOvertakes(s: Sys, t: Sys, id: int, prize: Settlement) returns (u: Sys)
    requires Reaches(s, t) && id !in t.threads && !InLedger(t.st.ledger, prize.id)
    requires ValidSettlement(prize) && SettleTx(t.st, prize, false).Ok?
    ensures Reaches(s, u) && u.st == SettleTx(t.st, prize, false).value
    ensures forall k :: k in t.threads ==> k in u.threads && u.threads[k] == t.threads[k]
  {
    u := SubmissionStarts(s, t, id, prize);
    u := SubmissionChecks(s, u, id, prize);
    u := SubmissionCommits(s, u, id, prize);
  }

  lemma RestoreWrites(s: Sys, t: Sys, id: int, p: string, x: Snapshot) returns (u: Sys)
    requires Reaches(s, t) && id in t.threads && t.threads[id] == Backfilling(p, 0, x)
    ensures Reaches(s, u) && u.st == t.st.(snapshots := t.st.snapshots[p := x])
  {
    u := Step(t, Act(id, QUIET));
    ReachesNext(s, t, Act(id, QUIET));
  }

  /** From any store with a player that has no snapshot, a restore of that player
      that is overtaken by a settlement leaves a snapshot behind the assets. */
  lemma BackfillCanGoStale(start: Store, p: string) returns (s: Sys)
    requires Sound(start) && p in Lacking(start)
    ensures Reaches(Initial(start), s)
    ensures p in s.st.snapshots && p in s.st.assets && s.st.snapshots[p].assetVersion < s.st.assets[p].version
  {
    var s0, a := Initial(start), start.assets[p];
    s := RestoreReadsAssets(s0, p);
    var prize := PrizeFor(start, p);
    s := SettlementOvertakes(s0, s, 2, prize);
    s := RestoreWrites(s0, s, 1, p, Snapshot(1, a.currency, a.version));
  }

  ghost predicate AlwaysCurrent(start: Store) {
    forall labels :: SnapshotsCurrent(Exec(Initial(start), labels).st)
  }

  /** So the snapshots stay current in every run if and only if every player of the
      store at the start has one. */
  lemma SnapshotsStayCurrentExactly(start: Store)
    requires Sound(start)
    ensures AlwaysCurrent(start) <==> Complete(start)
  {
    if Complete(start) {
      forall labels ensures SnapshotsCurrent(Exec(Initial(start), labels).st) {
        SnapshotsFollowAssets(start, labels);
      }
    } else {
      var p :| p in start.players.Keys && p !in start.snapshots.Keys;
      var s := BackfillCanGoStale(start, p);
      assert !SnapshotCurrent(s.st, p);
      var labels :| Exec(Initial(start), labels) == s;
    }
  }
}
