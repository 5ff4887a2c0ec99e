/** The rate limiter's token bucket over exact reals, with times in seconds. */
module TokenBucket {
  /** The limit: a capacity, and how many tokens some seconds bring in. */
  datatype Config = Config(capacity: real, amount: real -> real)

  datatype Bucket = Bucket(tokens: real, last: real)
  datatype Request = Request(n: int, at: real)

  ghost predicate Splits(f: real -> real, x: real, y: real) {
    f(x + y) == f(x) + f(y)
  }

  /** Time brings in tokens, and time in two parts brings in as many as in one. */
  ghost predicate ValidConfig(c: Config) {
    && 1.0 <= c.capacity
    && (forall x, y {:trigger Splits(c.amount, x, y)} :: Splits(c.amount, x, y))
    && (forall x :: 0.0 <= x ==> 0.0 <= c.amount(x))
  }

  function AtRate(capacity: real, rate: real): Config {
    Config(capacity, seconds => seconds * rate)
  }

  // A rate per second is such a law.
  lemma AtRateIsValid(capacity: real, rate: real)
    requires 1.0 <= capacity && 0.0 < rate
    ensures ValidConfig(AtRate(capacity, rate))
  {
    var f := AtRate(capacity, rate).amount;
    forall x, y ensures Splits(f, x, y) {
      assert (x + y) * rate == x * rate + y * rate;
    }
  }

  function Min(x: real, y: real): real {
    if x <= y then x else y
  }

  function Refilled(c: Config, b: Bucket, now: real): Bucket {
    if b.last < now then Bucket(Min(c.capacity, b.tokens + c.amount(now - b.last)), now) else b
  }

  predicate Allows(c: Config, b: Bucket, r: Request) {
    r.n <= 0 || Refilled(c, b, r.at).tokens >= r.n as real
  }

  // The bucket request r finds.
  function Found(c: Config, b: Bucket, r: Request): Bucket {
    if r.n <= 0 then b else Refilled(c, b, r.at)
  }

  function GrantedBy(c: Config, b: Bucket, r: Request): nat {
    if 0 < r.n && Allows(c, b, r) then r.n else 0
  }

  // The bucket request r leaves.
  function Served(c: Config, b: Bucket, r: Request): Bucket {
    var f := Found(c, b, r);
    f.(tokens := f.tokens - GrantedBy(c, b, r) as real)
  }

  class TokenBucket {
    const capacity: real
    const rate: real
    var tokens: real
    var last: real

    constructor (capacity: int, refillPerSecond: real, now: real)
      ensures this.capacity == (if capacity < 1 then 1 else capacity) as real
      ensures rate == if refillPerSecond <= 0.0 then this.capacity else refillPerSecond
      ensures Value() == Bucket(this.capacity, now) && 1.0 <= this.capacity && 0.0 < rate
    {
      var c := if capacity < 1 then 1 else capacity;
      this.capacity := c as real;
      rate := if refillPerSecond <= 0.0 then c as real else refillPerSecond;
      tokens := c as real;
      last := now;
    }

    function Value(): Bucket
      reads this
    {
      Bucket(tokens, last)
    }

    function Limits(): Config {
      AtRate(capacity, rate)
    }

    method Refill(now: real)
      modifies this
      ensures Value() == Refilled(Limits(), old(Value()), now)
    {
      if now > last {
        tokens := tokens + (now - last) * rate;
        if tokens > capacity {
          tokens := capacity;
        }
        last := now;
      }
    }

    method AllowN(n: int, now: real) returns (allowed: bool)
      modifies this
      ensures allowed == old(Allows(Limits(), Value(), Request(n, now)))
      ensures Value() == Served(Limits(), old(Value()), Request(n, now))
    {
      if n <= 0 {
        return true;
      }
      Refill(now);
      allowed := tokens >= n as real;
      if allowed {
        tokens := tokens - n as real;
      }
    }
  }

  // ---- Runs of requests, at times in any order ----

  // The bucket after the first k requests to a bucket made at `start`.
  function After(c: Config, start: real, reqs: seq<Request>, k: nat): Bucket
    requires k <= |reqs|
  {
    if k == 0 then Bucket(c.capacity, start) else Served(c, After(c, start, reqs, k - 1), reqs[k - 1])
  }

  // The latest time seen by the first k requests; requests for nothing are not looked at.
  function Clock(start: real, reqs: seq<Request>, k: nat): real
    requires k <= |reqs|
  {
    if k == 0 then start
    else
      var t, r := Clock(start, reqs, k - 1), reqs[k - 1];
      if 0 < r.n && t < r.at then r.at else t
  }

  // What request k is given.
  function GrantedTo(c: Config, start: real, reqs: seq<Request>, k: nat): nat
    requires k < |reqs|
  {
    GrantedBy(c, After(c, start, reqs, k), reqs[k])
  }

  // What requests i to j are given, without j.
  function Granted(c: Config, start: real, reqs: seq<Request>, i: nat, j: nat): nat
    requires i <= j <= |reqs|
  {
    if i == j then 0 else Granted(c, start, reqs, i, j - 1) + GrantedTo(c, start, reqs, j - 1)
  }

  /** What the limit leaves to the stretch of requests that starts with request i:
      the capacity, plus what the time since then brought in, less what the
      requests i to j, without j, were given. */
  function Room(c: Config, start: real, reqs: seq<Request>, i: nat, j: nat, now: real): real
    requires i <= j <= |reqs| && i < |reqs|
  {
    c.capacity + c.amount(now - Clock(start, reqs, i + 1)) - Granted(c, start, reqs, i, j) as real
  }

  // v is the least room over the stretches that start with one of the first n requests.
  ghost predicate LeastRoom(c: Config, start: real, reqs: seq<Request>, n: nat, j: nat, now: real, v: real)
    requires n <= |reqs| && n <= j + 1 && j <= |reqs|
  {
    && (forall i :: 0 <= i < n ==> v <= Room(c, start, reqs, i, j, now))
    && exists i :: 0 <= i < n && v == Room(c, start, reqs, i, j, now)
  }

  // Time passing widens every stretch alike.
  lemma RoomWidens(c: Config, start: real, reqs: seq<Request>, i: nat, j: nat, t: real, now: real)
    requires ValidConfig(c) && i <= j <= |reqs| && i < |reqs|
    ensures Room(c, start, reqs, i, j, now) == Room(c, start, reqs, i, j, t) + c.amount(now - t)
  {
    var from := Clock(start, reqs, i + 1);
    assert Splits(c.amount, t - from, now - t);
    assert now - from == (t - from) + (now - t);
  }

  lemma AmountOfNothing(c: Config)
    requires ValidConfig(c)
    ensures c.amount(0.0) == 0.0
  {
    assert Splits(c.amount, 0.0, 0.0);
  }

  // Filling up turns the least room so far into the least room for request j.
  lemma RefillKeepsLeast(c: Config, start: real, reqs: seq<Request>, j: nat, t: real, now: real, v: real)
    requires ValidConfig(c) && j < |reqs| && now == Clock(start, reqs, j + 1) && t <= now && v <= c.capacity
    requires if j == 0 then v == c.capacity else LeastRoom(c, start, reqs, j, j, t, v)
    ensures LeastRoom(c, start, reqs, j + 1, j, now, Min(c.capacity, v + c.amount(now - t)))
  {
    var n, gain := j + 1, c.amount(now - t);
    AmountOfNothing(c);
    assert Room(c, start, reqs, j, j, now) == c.capacity;
    forall i | 0 <= i < j ensures Room(c, start, reqs, i, j, now) == Room(c, start, reqs, i, j, t) + gain {
      RoomWidens(c, start, reqs, i, j, t, now);
    }
    forall i | 0 <= i < n ensures Min(c.capacity, v + gain) <= Room(c, start, reqs, i, j, now) {
      assert i < j ==> v <= Room(c, start, reqs, i, j, t);
    }
    if c.capacity > v + gain {
      var i :| 0 <= i < j && v == Room(c, start, reqs, i, j, t);
      assert v + gain == Room(c, start, reqs, i, j, now);
    }
  }

  lemma SumAsReal(a: int, b: int)
    ensures (a + b) as real == a as real + b as real
  {
  }

  lemma RoomAfter(c: Config, start: real, reqs: seq<Request>, i: nat, j: nat, now: real)
    requires i <= j < |reqs|
    ensures Room(c, start, reqs, i, j + 1, now)
         == Room(c, start, reqs, i, j, now) - GrantedTo(c, start, reqs, j) as real
  {
    SumAsReal(Granted(c, start, reqs, i, j), GrantedTo(c, start, reqs, j));
  }

  // What request j is given comes off every stretch alike.
  lemma GrantKeepsLeast(c: Config, start: real, reqs: seq<Request>, j: nat, now: real, v: real)
    requires j < |reqs| && LeastRoom(c, start, reqs, j + 1, j, now, v)
    ensures LeastRoom(c, start, reqs, j + 1, j + 1, now, v - GrantedTo(c, start, reqs, j) as real)
  {
    var n, given := j + 1, GrantedTo(c, start, reqs, j) as real;
    forall i | 0 <= i < n ensures v - given <= Room(c, start, reqs, i, n, now) {
      assert v <= Room(c, start, reqs, i, j, now);
      RoomAfter(c, start, reqs, i, j, now);
    }
    var i :| 0 <= i < n && v == Room(c, start, reqs, i, j, now);
    RoomAfter(c, start, reqs, i, j, now);
  }

  lemma LastIsClock(c: Config, start: real, reqs: seq<Request>, k: nat)
    requires k <= |reqs|
    ensures After(c, start, reqs, k).last == Clock(start, reqs, k)
  {
  }

  lemma FoundIsRefill(c: Config, b: Bucket, r: Request)
    requires ValidConfig(c) && 0.0 <= b.tokens <= c.capacity
    ensures var f := Found(c, b, r);
      && b.last <= f.last
      && 0.0 <= f.tokens <= c.capacity
      && f.tokens == Min(c.capacity, b.tokens + c.amount(f.last - b.last))
  {
    AmountOfNothing(c);
  }

  lemma ServedLeavesTokens(c: Config, b: Bucket, r: Request)
    requires 0.0 <= Found(c, b, r).tokens
    ensures 0.0 <= Served(c, b, r).tokens <= Found(c, b, r).tokens
  {
  }

  // The bucket request j finds holds the least room for it.
  lemma FoundIsLeastRoom(c: Config, start: real, reqs: seq<Request>, j: nat, b: Bucket)
    requires ValidConfig(c) && j < |reqs| && b == After(c, start, reqs, j) && 0.0 <= b.tokens <= c.capacity
    requires if j == 0 then b.tokens == c.capacity
             else LeastRoom(c, start, reqs, j, j, Clock(start, reqs, j), b.tokens)
    ensures 0.0 <= Found(c, b, reqs[j]).tokens <= c.capacity
    ensures LeastRoom(c, start, reqs, j + 1, j, Clock(start, reqs, j + 1), Found(c, b, reqs[j]).tokens)
  {
    LastIsClock(c, start, reqs, j);
    FoundIsRefill(c, b, reqs[j]);
    RefillKeepsLeast(c, start, reqs, j, Clock(start, reqs, j), Clock(start, reqs, j + 1), b.tokens);
  }

  /** After any requests the token count is exactly the least room that the limit
      leaves over all stretches of the run. */
  lemma {:induction false} TokensAreLeastRoom(c: Config, start: real, reqs: seq<Request>, j: nat)
    requires ValidConfig(c) && j <= |reqs|
    ensures 0.0 <= After(c, start, reqs, j).tokens <= c.capacity
    ensures if j == 0 then After(c, start, reqs, j).tokens == c.capacity
            else LeastRoom(c, start, reqs, j, j, Clock(start, reqs, j), After(c, start, reqs, j).tokens)
  {
    if j != 0 {
      var b, r := After(c, start, reqs, j - 1), reqs[j - 1];
      TokensAreLeastRoom(c, start, reqs, j - 1);
      FoundIsLeastRoom(c, start, reqs, j - 1, b);
      ServedLeavesTokens(c, b, r);
      GrantKeepsLeast(c, start, reqs, j - 1, Clock(start, reqs, j), Found(c, b, r).tokens);
    }
  }

  /** The limit itself, for the stretch of requests i to j: what they are given
      before j, and n more, fit in the capacity plus what the stretch's time brings
      in. */
  ghost predicate Fits(c: Config, start: real, reqs: seq<Request>, i: nat, j: nat, n: int)
    requires i <= j < |reqs|
  {
    (Granted(c, start, reqs, i, j) + n) as real
      <= c.capacity + c.amount(Clock(start, reqs, j + 1) - Clock(start, reqs, i + 1))
  }

  lemma FitsMeansRoom(c: Config, start: real, reqs: seq<Request>, i: nat, j: nat, n: int)
    requires i <= j < |reqs|
    ensures Fits(c, start, reqs, i, j, n) <==> n as real <= Room(c, start, reqs, i, j, Clock(start, reqs, j + 1))
  {
    SumAsReal(Granted(c, start, reqs, i, j), n);
  }

  /** Exactness: a request is allowed if and only if the limit holds with it for
      every stretch that ends with it. */
  lemma GrantsExactly(c: Config, start: real, reqs: seq<Request>, j: nat)
    requires ValidConfig(c) && j < |reqs| && 0 < reqs[j].n
    ensures Allows(c, After(c, start, reqs, j), reqs[j]) <==>
            forall i :: 0 <= i <= j ==> Fits(c, start, reqs, i, j, reqs[j].n)
  {
    var n, b, now := reqs[j].n, After(c, start, reqs, j), Clock(start, reqs, j + 1);
    TokensAreLeastRoom(c, start, reqs, j);
    FoundIsLeastRoom(c, start, reqs, j, b);
    forall i | 0 <= i <= j
      ensures Fits(c, start, reqs, i, j, n) <==> n as real <= Room(c, start, reqs, i, j, now)
    {
      FitsMeansRoom(c, start, reqs, i, j, n);
    }
    var i :| 0 <= i <= j && Found(c, b, reqs[j]).tokens == Room(c, start, reqs, i, j, now);
    assert Fits(c, start, reqs, i, j, n) <==> n as real <= Room(c, start, reqs, i, j, now);
  }

  /** Safety: what any stretch of requests is given fits in the limit. */
  lemma StretchesFitTheLimit(c: Config, start: real, reqs: seq<Request>, i: nat, j: nat)
    requires ValidConfig(c) && i <= j < |reqs|
    ensures Fits(c, start, reqs, i, j, GrantedTo(c, start, reqs, j))
  {
    var n, now := j + 1, Clock(start, reqs, j + 1);
    TokensAreLeastRoom(c, start, reqs, n);
    assert After(c, start, reqs, n).tokens <= Room(c, start, reqs, i, n, now);
    RoomAfter(c, start, reqs, i, j, now);
    FitsMeansRoom(c, start, reqs, i, j, GrantedTo(c, start, reqs, j));
  }
}
