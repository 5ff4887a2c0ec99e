/** Refresh tokens, identities and accounts, and the single operations on them. */
module RefreshTokens {
  import opened Wrappers

  datatype Token = Token(account: string, hash: string, install: string, expiresAt: int, revokedAt: Option<int>)

  datatype Provider = Guest | Password

  // Who logs in: the provider and its subject (install id, or user name).
  datatype Subject = Subject(provider: Provider, name: string)

  datatype Store = Store(accounts: set<string>, identities: map<Subject, string>, tokens: map<string, Token>)

  const EMPTY := Store({}, map[], map[])

  datatype Error = InvalidToken | DuplicateKey | StoreFailed

  predicate Unrevoked(t: Token) {
    t.revokedAt.None?
  }

  // RefreshToken.IsUsable: the right install, complete, unexpired and unrevoked.
  predicate Usable(t: Token, now: int, install: string) {
    && install != "" && t.install == install
    && t.account != "" && t.hash != "" && t.expiresAt != 0
    && now < t.expiresAt && Unrevoked(t)
  }

  // The filter of FindValid.
  predicate Matches(t: Token, hash: string, now: int) {
    t.hash == hash && Unrevoked(t) && now < t.expiresAt
  }

  ghost predicate HasValid(tokens: map<string, Token>, hash: string, now: int) {
    hash != "" && exists k :: k in tokens && Matches(tokens[k], hash, now)
  }

  // What a lookup may answer: some matching token, or nothing when there is none.
  ghost predicate IsLookup(tokens: map<string, Token>, hash: string, now: int, found: Option<string>) {
    if HasValid(tokens, hash, now)
    then found.Some? && found.value in tokens && Matches(tokens[found.value], hash, now)
    else found.None?
  }

  // The update of Revoke.
  function RevokeTx(tokens: map<string, Token>, id: string, now: int): Result<map<string, Token>, Error> {
    if id !in tokens || !Unrevoked(tokens[id]) then Err(InvalidToken)
    else Ok(tokens[id := tokens[id].(revokedAt := Some(now))])
  }

  // The unique indexes on token id and token hash.
  predicate Insertable(tokens: map<string, Token>, id: string, t: Token) {
    id !in tokens && forall k :: k in tokens ==> tokens[k].hash != t.hash
  }

  predicate Complete(t: Token) {
    t.account != "" && t.hash != "" && t.install != "" && t.expiresAt != 0
  }

  /** One transaction: mark the old token revoked and insert its replacement. */
  function RotateTx(tokens: map<string, Token>, oldId: string, now: int, id: string, replacement: Token)
    : Result<map<string, Token>, Error>
  {
    if oldId == "" || !Complete(replacement) then Err(InvalidToken)
    else if oldId !in tokens || !Unrevoked(tokens[oldId]) || tokens[oldId].expiresAt <= now then Err(InvalidToken)
    else
      var marked := tokens[oldId := tokens[oldId].(revokedAt := Some(now))];
      if !Insertable(marked, id, replacement) then Err(DuplicateKey)
      else Ok(marked[id := replacement])
  }

  // The first-login transaction: account, identity and first token together.
  function SignUpTx(st: Store, subject: Subject, account: string, id: string, token: Token): Result<Store, Error> {
    if account in st.accounts || subject in st.identities || !Complete(token) || !Insertable(st.tokens, id, token)
    then Err(DuplicateKey)
    else Ok(Store(st.accounts + {account}, st.identities[subject := account], st.tokens[id := token]))
  }

  // Where a transaction loses its connection, if it does.
  datatype Fault = Never | BeforeUpdate | BeforeInsert

  class RefreshTokenRepository {
    var tokens: map<string, Token>

    constructor ()
      ensures tokens == map[]
    {
      tokens := map[];
    }

    method FindValid(hash: string, now: int) returns (r: Result<string, Error>)
      ensures IsLookup(tokens, hash, now, if r.Ok? then Some(r.value) else None)
      ensures r.Err? ==> r.error == InvalidToken
    {
      if hash == "" { return Err(InvalidToken); }
      var todo := tokens.Keys;
      while todo != {}
        invariant todo <= tokens.Keys
        invariant forall k :: k in tokens && k !in todo ==> !Matches(tokens[k], hash, now)
        decreases todo
      {
        var k :| k in todo;
        if Matches(tokens[k], hash, now) { return Ok(k); }
        todo := todo - {k};
      }
      return Err(InvalidToken);
    }

    method Revoke(id: string, now: int) returns (r: Result<(), Error>)
      modifies this
      ensures match RevokeTx(old(tokens), id, now)
              case Ok(after) => r.Ok? && tokens == after
              case Err(e) => r == Err(e) && tokens == old(tokens)
    {
      if id !in tokens || !Unrevoked(tokens[id]) { return Err(InvalidToken); }
      tokens := tokens[id := tokens[id].(revokedAt := Some(now))];
      return Ok(());
    }

    /** The update and the insert happen one after the other inside the
        transaction; if the insert fails the update is taken back and the old
        token stays usable. */
    method Rotate(id: string, now: int, newId: string, replacement: Token, fault: Fault)
      returns (r: Result<(), Error>)
      modifies this
      ensures r.Ok? ==> RotateTx(old(tokens), id, now, newId, replacement) == Ok(tokens)
      ensures r.Err? ==> tokens == old(tokens)
      ensures fault.Never? ==> (r.Ok? <==> RotateTx(old(tokens), id, now, newId, replacement).Ok?)
      ensures r.Err? && id in old(tokens) ==> forall at, install ::
                Usable(old(tokens)[id], at, install) ==> id in tokens && Usable(tokens[id], at, install)
    {
      if id == "" || !Complete(replacement) { return Err(InvalidToken); }
      var tokens0 := tokens;
      if fault.BeforeUpdate? { return Err(StoreFailed); }
      if id !in tokens || !Unrevoked(tokens[id]) || tokens[id].expiresAt <= now { return Err(InvalidToken); }
      tokens := tokens[id := tokens[id].(revokedAt := Some(now))];
      if fault.BeforeInsert? {
        tokens := tokens0;
        return Err(StoreFailed);
      }
      if !Insertable(tokens, newId, replacement) {
        tokens := tokens0;
        return Err(DuplicateKey);
      }
      tokens := tokens[newId := replacement];
      return Ok(());
    }
  }
}
