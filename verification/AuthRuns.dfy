/** Logins, refreshes and revocations, interleaved.

    A thread is one handler call and stops before each database operation; the
    two transactions are single steps.  `fault` is a failure of the store at that
    operation, `lost` a write that happened but whose acknowledgement was lost.
    Account and token ids are UUIDs: a drawn one was never used. */
module AuthRuns {
  import opened Wrappers
  import opened RefreshTokens

  datatype Thread =
    // guestAuthenticateCore, passwordAuthenticateCore
    | Finding(subject: Subject, install: string)
    | SigningUp(subject: Subject, install: string)
    | Refinding(subject: Subject, install: string)
    | Issuing(subject: Subject, install: string, account: string)
    | LoggedIn(subject: Subject, account: string, token: string, created: bool)
    // refreshAuthenticateCore
    | Refreshing(hash: string, install: string)
    | Rotating(from: string, now: int, account: string, install: string)
    | Refreshed(from: string, to: string)
    // revokeRefreshTokenCore
    | Checking(hash: string, account: string)
    | Marking(token: string)
    | Done
    | Failed

  type Metas = map<string, Token>

  datatype Sys = Sys(
    st: Store,
    threads: map<int, Thread>,
    metas: Metas,                  // every token ever stored, as it was stored
    succ: map<string, string>,     // token -> the token a rotation replaced it with
    rotator: map<string, int>,     // token -> thread that rotated it
    creator: map<string, int>)     // account -> thread that created it

  datatype Input = Input(now: int, account: string, token: string, hash: string, expiresAt: int,
                         passwordOk: bool, fault: bool, lost: bool)

  datatype Label =
    | Call(id: int, thread: Thread)
    | Act(id: int, input: Input)
    | Expire(token: string, now: int)

  const INITIAL := Sys(EMPTY, map[], map[], map[], map[], map[])

  predicate Request(t: Thread) {
    t.Finding? || t.Refreshing? || t.Checking?
  }

  // What FindValid answers.
  ghost function ValidToken(tokens: map<string, Token>, hash: string, now: int): (r: Option<string>)
    ensures IsLookup(tokens, hash, now, r)
  {
    if HasValid(tokens, hash, now) then
      var k :| k in tokens && Matches(tokens[k], hash, now);
      Some(k)
    else None
  }

  // An existing identity: a password login must also match the stored hash.
  function Known(st: Store, subject: Subject, install: string, input: Input, otherwise: Thread): Thread {
    if input.fault then Failed
    else if subject !in st.identities then otherwise
    else if subject.provider.Password? && !input.passwordOk then Failed
    else Issuing(subject, install, st.identities[subject])
  }

  // A step that only reads.
  ghost function ReadNext(st: Store, t: Thread, input: Input): Thread
    requires t.Finding? || t.Refinding? || t.Refreshing? || t.Checking?
  {
    match t
    case Finding(subject, install) => Known(st, subject, install, input, SigningUp(subject, install))
    case Refinding(subject, install) => Known(st, subject, install, input, Failed)
    case Refreshing(hash, install) =>
      (match if input.fault then None else ValidToken(st.tokens, hash, input.now)
       case None => Failed
       case Some(id) =>
         if Usable(st.tokens[id], input.now, install)
         then Rotating(id, input.now, st.tokens[id].account, install)
         else Failed)
    case Checking(hash, account) =>
      (match if input.fault then None else ValidToken(st.tokens, hash, input.now)
       case None => Failed
       case Some(id) => if st.tokens[id].account == account then Marking(id) else Failed)
  }

  function NewToken(account: string, install: string, input: Input): Token {
    Token(account, input.hash, install, input.expiresAt, None)
  }

  function At(s: Sys, id: int, t: Thread): Sys {
    s.(threads := s.threads[id := t])
  }

  function SignUpStep(s: Sys, id: int, t: Thread, input: Input): Sys
    requires t.SigningUp?
  {
    var token := NewToken(input.account, t.install, input);
    if input.account in s.st.accounts || input.token in s.metas then s
    else if input.fault || SignUpTx(s.st, t.subject, input.account, input.token, token).Err?
    then At(s, id, Refinding(t.subject, t.install))
    else At(s, id, if input.lost then Refinding(t.subject, t.install)
                   else LoggedIn(t.subject, input.account, input.token, true)).(
           st := SignUpTx(s.st, t.subject, input.account, input.token, token).value,
           metas := s.metas[input.token := token],
           creator := s.creator[input.account := id])
  }

  function IssueStep(s: Sys, id: int, t: Thread, input: Input): Sys
    requires t.Issuing?
  {
    var token := NewToken(t.account, t.install, input);
    if input.token in s.metas then s
    else if input.fault || !Complete(token) || !Insertable(s.st.tokens, input.token, token) then At(s, id, Failed)
    else At(s, id, if input.lost then Failed else LoggedIn(t.subject, t.account, input.token, false)).(
           st := s.st.(tokens := s.st.tokens[input.token := token]),
           metas := s.metas[input.token := token])
  }

  function RotateStep(s: Sys, id: int, t: Thread, input: Input): Sys
    requires t.Rotating?
  {
    var token := NewToken(t.account, t.install, input);
    if input.token in s.metas then s
    else if input.fault || RotateTx(s.st.tokens, t.from, t.now, input.token, token).Err? then At(s, id, Failed)
    else At(s, id, if input.lost then Failed else Refreshed(t.from, input.token)).(
           st := s.st.(tokens := RotateTx(s.st.tokens, t.from, t.now, input.token, token).value),
           metas := s.metas[input.token := token],
           succ := s.succ[t.from := input.token],
           rotator := s.rotator[t.from := id])
  }

  function MarkStep(s: Sys, id: int, t: Thread, input: Input): Sys
    requires t.Marking?
  {
    match if input.fault then Err(StoreFailed) else RevokeTx(s.st.tokens, t.token, input.now)
    case Err(_) => At(s, id, Failed)
    case Ok(tokens) => At(s, id, if input.lost then Failed else Done).(st := s.st.(tokens := tokens))
  }

  ghost function Step(s: Sys, l: Label): Sys {
    match l
    case Call(id, t) => if id in s.threads || !Request(t) then s else At(s, id, t)
    // the collection's time-to-live index
    case Expire(token, now) =>
      if token in s.st.tokens && s.st.tokens[token].expiresAt <= now
      then s.(st := s.st.(tokens := s.st.tokens - {token}))
      else s
    case Act(id, input) =>
      if id !in s.threads then s
      else
        var t := s.threads[id];
        if t.Finding? || t.Refinding? || t.Refreshing? || t.Checking? then At(s, id, ReadNext(s.st, t, input))
        else if t.SigningUp? then SignUpStep(s, id, t, input)
        else if t.Issuing? then IssueStep(s, id, t, input)
        else if t.Rotating? then RotateStep(s, id, t, input)
        else if t.Marking? then MarkStep(s, id, t, input)
        else s
  }

  ghost function Exec(s: Sys, labels: seq<Label>): Sys {
    if labels == [] then s else Step(Exec(s, labels[..|labels| - 1]), labels[|labels| - 1])
  }

  // ---- The invariant ----

  // A stored token is what it was when stored, except for its revocation; a rotated one is revoked.
  ghost predicate Faithful(metas: Metas, succ: map<string, string>, id: string, t: Token) {
    && id in metas && t == metas[id].(revokedAt := t.revokedAt)
    && (id in succ ==> t.revokedAt.Some?)
  }

  ghost predicate TokensInv(metas: Metas, succ: map<string, string>, tokens: map<string, Token>) {
    forall id {:trigger Faithful(metas, succ, id, tokens[id])} :: id in tokens ==> Faithful(metas, succ, id, tokens[id])
  }

  ghost predicate SameOwner(metas: Metas, a: string, b: string) {
    a in metas && b in metas && metas[a].account == metas[b].account && metas[a].install == metas[b].install
  }

  ghost predicate ChainsInv(metas: Metas, succ: map<string, string>) {
    forall id {:trigger SameOwner(metas, id, succ[id])} :: id in succ ==> SameOwner(metas, id, succ[id])
  }

  ghost predicate SameSubject(identities: map<Subject, string>, a: Subject, b: Subject) {
    a in identities && b in identities && identities[a] == identities[b] ==> a == b
  }

  // No half-created account: every account has its one identity, and every identity its account.
  ghost predicate AccountsInv(st: Store) {
    && st.identities.Values == st.accounts
    && (forall a, b {:trigger SameSubject(st.identities, a, b)} :: SameSubject(st.identities, a, b))
  }

  ghost predicate ThreadInv(s: Sys, id: int, t: Thread) {
    match t
    case Issuing(subject, _, account) => subject in s.st.identities && s.st.identities[subject] == account
    case LoggedIn(subject, account, token, created) =>
      && subject in s.st.identities && s.st.identities[subject] == account
      && token in s.metas && s.metas[token].account == account
      && (created ==> account in s.creator && s.creator[account] == id)
    case Rotating(from, _, account, install) =>
      from in s.metas && s.metas[from].account == account && s.metas[from].install == install
    case Refreshed(from, to) =>
      from in s.succ && s.succ[from] == to && from in s.rotator && s.rotator[from] == id
    case _ => true
  }

  ghost predicate ThreadsInv(s: Sys) {
    forall id {:trigger ThreadInv(s, id, s.threads[id])} :: id in s.threads ==> ThreadInv(s, id, s.threads[id])
  }

  ghost predicate Inv(s: Sys) {
    && TokensInv(s.metas, s.succ, s.st.tokens) && ChainsInv(s.metas, s.succ) && AccountsInv(s.st)
    && ThreadsInv(s) && s.creator.Keys == s.st.accounts && s.succ.Keys == s.rotator.Keys
  }

  ghost predicate Remembers(s: Sys, t: Sys) {
    && (forall x :: x in s.st.identities ==> x in t.st.identities && t.st.identities[x] == s.st.identities[x])
    && (forall x :: x in s.metas ==> x in t.metas && t.metas[x] == s.metas[x])
    && (forall x :: x in s.succ ==> x in t.succ && t.succ[x] == s.succ[x])
    && (forall x :: x in s.rotator ==> x in t.rotator && t.rotator[x] == s.rotator[x])
    && (forall x :: x in s.creator ==> x in t.creator && t.creator[x] == s.creator[x])
  }

  lemma MoveKeepsThreads(s: Sys, t: Sys, id: int, th: Thread)
    requires ThreadsInv(s) && Remembers(s, t)
    requires t.threads == s.threads[id := th] && ThreadInv(t, id, th)
    ensures ThreadsInv(t)
  {
    forall k | k in t.threads ensures ThreadInv(t, k, t.threads[k]) {
      if k != id {
        assert ThreadInv(s, k, s.threads[k]);
      }
    }
  }

  lemma InsertKeepsTokens(metas: Metas, succ: map<string, string>, tokens: map<string, Token>, id: string, t: Token)
    requires TokensInv(metas, succ, tokens) && id !in metas && id !in succ
    ensures TokensInv(metas[id := t], succ, tokens[id := t])
  {
    var metas', tokens' := metas[id := t], tokens[id := t];
    forall k | k in tokens' ensures Faithful(metas', succ, k, tokens'[k]) {
      assert k != id ==> Faithful(metas, succ, k, tokens[k]);
    }
  }

  lemma RotatedWasStored(metas: Metas, succ: map<string, string>, id: string)
    requires ChainsInv(metas, succ) && id in succ
    ensures id in metas
  {
    assert SameOwner(metas, id, succ[id]);
  }

  lemma InsertKeepsChains(metas: Metas, succ: map<string, string>, id: string, t: Token)
    requires ChainsInv(metas, succ) && id !in metas
    ensures ChainsInv(metas[id := t], succ) && id !in succ
  {
    var metas' := metas[id := t];
    if id in succ { RotatedWasStored(metas, succ, id); }
    forall k | k in succ ensures SameOwner(metas', k, succ[k]) {
      assert SameOwner(metas, k, succ[k]);
    }
  }

  lemma RevokeKeepsTokens(metas: Metas, succ: map<string, string>, tokens: map<string, Token>, id: string, now: int)
    requires TokensInv(metas, succ, tokens) && id in tokens
    ensures TokensInv(metas, succ, tokens[id := tokens[id].(revokedAt := Some(now))])
  {
    var tokens' := tokens[id := tokens[id].(revokedAt := Some(now))];
    forall k | k in tokens' ensures Faithful(metas, succ, k, tokens'[k]) {
      assert Faithful(metas, succ, k, tokens[k]);
    }
  }

  // Recording that a revoked token was replaced.
  lemma LinkKeepsTokens(metas: Metas, succ: map<string, string>, tokens: map<string, Token>, from: string, to: string)
    requires TokensInv(metas, succ, tokens) && (from in tokens ==> tokens[from].revokedAt.Some?)
    ensures TokensInv(metas, succ[from := to], tokens)
  {
    forall k | k in tokens ensures Faithful(metas, succ[from := to], k, tokens[k]) {
      assert Faithful(metas, succ, k, tokens[k]);
    }
  }

  lemma LinkKeepsChains(metas: Metas, succ: map<string, string>, from: string, to: string)
    requires ChainsInv(metas, succ) && SameOwner(metas, from, to)
    ensures ChainsInv(metas, succ[from := to])
  {
    var succ' := succ[from := to];
    forall k | k in succ' ensures SameOwner(metas, k, succ'[k]) {
      assert k != from ==> SameOwner(metas, k, succ[k]);
    }
  }

  lemma SignUpKeepsAccounts(st: Store, subject: Subject, account: string, id: string, token: Token)
    requires AccountsInv(st) && SignUpTx(st, subject, account, id, token).Ok?
    ensures AccountsInv(SignUpTx(st, subject, account, id, token).value)
  {
    var st' := SignUpTx(st, subject, account, id, token).value;
    assert st.identities.Values == st.accounts;
    assert st'.identities.Values == st'.accounts by {
      forall x | x in st'.accounts ensures x in st'.identities.Values {
        if x == account {
          assert st'.identities[subject] == account;
        } else {
          assert x in st.identities.Values;
          var k :| k in st.identities && st.identities[k] == x;
          assert st'.identities[k] == x;
        }
      }
    }
    forall a, b ensures SameSubject(st'.identities, a, b) {
      assert SameSubject(st.identities, a, b);
      assert a in st.identities ==> st.identities[a] in st.identities.Values;
      assert b in st.identities ==> st.identities[b] in st.identities.Values;
    }
  }

  lemma SignUpKeepsInv(s: Sys, id: int, t: Thread, input: Input)
    requires Inv(s) && t.SigningUp? && input.account !in s.st.accounts && input.token !in s.metas
    requires SignUpTx(s.st, t.subject, input.account, input.token, NewToken(input.account, t.install, input)).Ok?
    requires !input.fault
    ensures Inv(SignUpStep(s, id, t, input))
  {
    var token := NewToken(input.account, t.install, input);
    var s' := SignUpStep(s, id, t, input);
    InsertKeepsChains(s.metas, s.succ, input.token, token);
    InsertKeepsTokens(s.metas, s.succ, s.st.tokens, input.token, token);
    SignUpKeepsAccounts(s.st, t.subject, input.account, input.token, token);
    MoveKeepsThreads(s, s', id, s'.threads[id]);
  }

  lemma IssueKeepsInv(s: Sys, id: int, t: Thread, input: Input)
    requires Inv(s) && t.Issuing? && ThreadInv(s, id, t)
    ensures Inv(IssueStep(s, id, t, input))
  {
    var token := NewToken(t.account, t.install, input);
    var s' := IssueStep(s, id, t, input);
    if s' != s {
      if s'.st != s.st {
        InsertKeepsChains(s.metas, s.succ, input.token, token);
        InsertKeepsTokens(s.metas, s.succ, s.st.tokens, input.token, token);
      }
      MoveKeepsThreads(s, s', id, s'.threads[id]);
    }
  }

  lemma RotateKeepsInv(s: Sys, id: int, t: Thread, input: Input)
    requires Inv(s) && t.Rotating? && ThreadInv(s, id, t) && input.token !in s.metas && !input.fault
    requires RotateTx(s.st.tokens, t.from, t.now, input.token, NewToken(t.account, t.install, input)).Ok?
    ensures Inv(RotateStep(s, id, t, input))
  {
    var token := NewToken(t.account, t.install, input);
    var s' := RotateStep(s, id, t, input);
    assert Faithful(s.metas, s.succ, t.from, s.st.tokens[t.from]);
    var marked := s.st.tokens[t.from := s.st.tokens[t.from].(revokedAt := Some(t.now))];
    var metas' := s.metas[input.token := token];
    RevokeKeepsTokens(s.metas, s.succ, s.st.tokens, t.from, t.now);
    InsertKeepsChains(s.metas, s.succ, input.token, token);
    InsertKeepsTokens(s.metas, s.succ, marked, input.token, token);
    LinkKeepsTokens(metas', s.succ, s'.st.tokens, t.from, input.token);
    LinkKeepsChains(metas', s.succ, t.from, input.token);
    MoveKeepsThreads(s, s', id, s'.threads[id]);
  }

  lemma MarkKeepsInv(s: Sys, id: int, t: Thread, input: Input)
    requires Inv(s) && t.Marking?
    ensures Inv(MarkStep(s, id, t, input))
  {
    var s' := MarkStep(s, id, t, input);
    if s'.st != s.st {
      RevokeKeepsTokens(s.metas, s.succ, s.st.tokens, t.token, input.now);
    }
    MoveKeepsThreads(s, s', id, s'.threads[id]);
  }

  lemma ReadKeepsInv(s: Sys, id: int, t: Thread, input: Input)
    requires Inv(s) && ThreadInv(s, id, t)
    requires t.Finding? || t.Refinding? || t.Refreshing? || t.Checking?
    ensures Inv(At(s, id, ReadNext(s.st, t, input)))
  {
    var t' := ReadNext(s.st, t, input);
    if t'.Rotating? {
      assert Faithful(s.metas, s.succ, t'.from, s.st.tokens[t'.from]);
    }
    MoveKeepsThreads(s, At(s, id, t'), id, t');
  }

  lemma ExpireKeepsInv(s: Sys, token: string, now: int)
    requires Inv(s)
    ensures Inv(Step(s, Expire(token, now)))
  {
    var s' := Step(s, Expire(token, now));
    forall k | k in s'.st.tokens ensures Faithful(s.metas, s.succ, k, s'.st.tokens[k]) {
      assert Faithful(s.metas, s.succ, k, s.st.tokens[k]);
    }
    forall k | k in s'.threads ensures ThreadInv(s', k, s'.threads[k]) {
      assert ThreadInv(s, k, s.threads[k]);
    }
  }

  lemma StepKeepsInv(s: Sys, l: Label)
    requires Inv(s)
    ensures Inv(Step(s, l))
  {
    match l
    case Call(id, t) =>
      if Step(s, l) != s {
        MoveKeepsThreads(s, At(s, id, t), id, t);
      }
    case Expire(token, now) => ExpireKeepsInv(s, token, now);
    case Act(id, input) =>
      if id in s.threads {
        var t := s.threads[id];
        assert ThreadInv(s, id, t);
        if t.Finding? || t.Refinding? || t.Refreshing? || t.Checking? {
          ReadKeepsInv(s, id, t, input);
        } else if t.SigningUp? {
          var s' := SignUpStep(s, id, t, input);
          if s'.st != s.st {
            SignUpKeepsInv(s, id, t, input);
          } else if s' != s {
            MoveKeepsThreads(s, s', id, s'.threads[id]);
          }
        } else if t.Issuing? {
          IssueKeepsInv(s, id, t, input);
        } else if t.Rotating? {
          var s' := RotateStep(s, id, t, input);
          if s'.metas != s.metas {
            RotateKeepsInv(s, id, t, input);
          } else if s' != s {
            MoveKeepsThreads(s, s', id, s'.threads[id]);
          }
        } else if t.Marking? {
          MarkKeepsInv(s, id, t, input);
        }
      }
  }

  lemma {:induction false} RunKeepsInv(labels: seq<Label>)
    ensures Inv(Exec(INITIAL, labels))
  {
    if labels != [] {
      RunKeepsInv(labels[..|labels| - 1]);
      StepKeepsInv(Exec(INITIAL, labels[..|labels| - 1]), labels[|labels| - 1]);
    }
  }

  // ---- Theorems over every run ----

  // The token `n` rotations after `t`.
  function Later(succ: map<string, string>, t: string, n: nat): Option<string> {
    if n == 0 then Some(t)
    else
      match Later(succ, t, n - 1)
      case None => None
      case Some(u) => if u in succ then Some(succ[u]) else None
  }

  predicate Live(st: Store, t: string) {
    t in st.tokens && Unrevoked(st.tokens[t])
  }

  lemma {:induction false} LaterKeepsOwner(metas: Metas, succ: map<string, string>, t: string, n: nat)
    requires ChainsInv(metas, succ) && t in metas && Later(succ, t, n).Some?
    ensures SameOwner(metas, t, Later(succ, t, n).value)
  {
    if n > 0 {
      LaterKeepsOwner(metas, succ, t, n - 1);
      var u := Later(succ, t, n - 1).value;
      assert SameOwner(metas, u, succ[u]);
    }
  }

  lemma {:induction false} LaterStartsRotated(succ: map<string, string>, t: string, n: nat)
    requires n > 0 && Later(succ, t, n).Some?
    ensures t in succ
  {
    if n > 1 {
      LaterStartsRotated(succ, t, n - 1);
    }
  }

  lemma {:induction false} LaterAdds(succ: map<string, string>, t: string, n: nat, m: nat)
    requires Later(succ, t, n).Some? && Later(succ, t, n + m).Some?
    ensures Later(succ, Later(succ, t, n).value, m) == Later(succ, t, n + m)
  {
    if m > 0 {
      assert Later(succ, t, n + (m - 1)).Some?;
      LaterAdds(succ, t, n, m - 1);
    }
  }

  // A token with a later one in its chain is not live.
  lemma EarlierIsNotLive(s: Sys, t: string, n: nat, m: nat)
    requires Inv(s) && n < m && Later(s.succ, t, n).Some? && Later(s.succ, t, m).Some?
    ensures !Live(s.st, Later(s.succ, t, n).value)
  {
    var x := Later(s.succ, t, n).value;
    LaterAdds(s.succ, t, n, m - n);
    LaterStartsRotated(s.succ, x, m - n);
    if x in s.st.tokens {
      assert Faithful(s.metas, s.succ, x, s.st.tokens[x]);
    }
  }

  /** Rotation chains: of all the tokens that rotations made out of one, at most
      one is live, and account and install id are the same all along. */
  lemma ChainHasOneLiveToken(labels: seq<Label>, t: string, n: nat, m: nat)
    requires var s := Exec(INITIAL, labels);
             t in s.metas && Later(s.succ, t, n).Some? && Later(s.succ, t, m).Some?
    ensures var s := Exec(INITIAL, labels);
            var x, y := Later(s.succ, t, n).value, Later(s.succ, t, m).value;
            && (Live(s.st, x) && Live(s.st, y) ==> x == y)
            && SameOwner(s.metas, x, y)
  {
    RunKeepsInv(labels);
    var s := Exec(INITIAL, labels);
    LaterKeepsOwner(s.metas, s.succ, t, n);
    LaterKeepsOwner(s.metas, s.succ, t, m);
    if n < m {
      EarlierIsNotLive(s, t, n, m);
    } else if m < n {
      EarlierIsNotLive(s, t, m, n);
    }
  }

  /** A token is rotated at most once: two successful refreshes of it are one. */
  lemma RotatedAtMostOnce(labels: seq<Label>, a: int, b: int)
    requires var s := Exec(INITIAL, labels);
             && a in s.threads && b in s.threads && s.threads[a].Refreshed? && s.threads[b].Refreshed?
             && s.threads[a].from == s.threads[b].from
    ensures a == b
  {
    RunKeepsInv(labels);
    var s := Exec(INITIAL, labels);
    assert ThreadInv(s, a, s.threads[a]) && ThreadInv(s, b, s.threads[b]);
  }

  /** First logins agree: every successful login of one subject names one
      account, at most one of them created it, and no account is without its
      identity or the other way round. */
  lemma LoginsAgree(labels: seq<Label>, a: int, b: int)
    requires var s := Exec(INITIAL, labels);
             && a in s.threads && b in s.threads && s.threads[a].LoggedIn? && s.threads[b].LoggedIn?
    ensures var s := Exec(INITIAL, labels);
            && (s.threads[a].subject == s.threads[b].subject <==> s.threads[a].account == s.threads[b].account)
            && (s.threads[a].subject == s.threads[b].subject && s.threads[a].created && s.threads[b].created ==> a == b)
            && s.st.identities.Values == s.st.accounts
  {
    RunKeepsInv(labels);
    var s := Exec(INITIAL, labels);
    assert ThreadInv(s, a, s.threads[a]) && ThreadInv(s, b, s.threads[b]);
    assert SameSubject(s.st.identities, s.threads[a].subject, s.threads[b].subject);
  }
}
