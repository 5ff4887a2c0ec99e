/** The 64-bit id generator: its bit layout over exact shifts, ors and masks, and
    every run of calls under any clock. */
module Snowflake {
  import opened Wrappers

  const NODE_BITS: nat := 10
  const SEQUENCE_BITS: nat := 12
  const MAX_NODE_ID: nat := 1023
  const MAX_SEQUENCE: nat := 4095
  const TWO42: nat := 0x400_0000_0000
  const TWO64: nat := 0x1_0000_0000_0000_0000

  // ---- Machine words ----

  function Pow2(k: nat): nat
    ensures Pow2(k) > 0
  {
    if k == 0 then 1 else 2 * Pow2(k - 1)
  }

  function BitOr(a: nat, b: nat): nat
    decreases a + b
  {
    if a == 0 && b == 0 then 0
    else 2 * BitOr(a / 2, b / 2) + (if a % 2 == 1 || b % 2 == 1 then 1 else 0)
  }

  function BitAnd(a: nat, b: nat): nat {
    if a == 0 || b == 0 then 0
    else 2 * BitAnd(a / 2, b / 2) + (if a % 2 == 1 && b % 2 == 1 then 1 else 0)
  }

  function ShiftLeft(x: nat, k: nat): nat {
    x * Pow2(k) % TWO64
  }

  function ShiftRight(x: nat, k: nat): nat {
    if k == 0 then x else ShiftRight(x / 2, k - 1)
  }

  lemma Powers()
    ensures Pow2(10) == 1024 && Pow2(12) == 4096 && Pow2(22) == 0x40_0000
  {
    assert Pow2(10) == 1024;
    assert Pow2(12) == 4 * Pow2(10);
    assert Pow2(17) == 32 * Pow2(12);
    assert Pow2(22) == 32 * Pow2(17);
  }

  lemma {:induction false} OrZero(a: nat)
    ensures BitOr(a, 0) == a
  {
    if a != 0 {
      OrZero(a / 2);
    }
  }

  // Below a multiple of a power of two there is room for a smaller number.
  lemma {:induction false} OrIsSum(q: nat, b: nat, k: nat)
    requires b < Pow2(k)
    ensures BitOr(q * Pow2(k), b) == q * Pow2(k) + b
    decreases k
  {
    var a := q * Pow2(k);
    if k == 0 {
      OrZero(a);
    } else {
      var half := q * Pow2(k - 1);
      assert a == 2 * half;
      OrIsSum(q, b / 2, k - 1);
      assert BitOr(a, b) == 2 * BitOr(half, b / 2) + b % 2;
    }
  }

  lemma OneMultipleOrMore(k: int, d: nat)
    ensures k >= 1 ==> k * d >= d
    ensures k <= -1 ==> k * d + d <= 0
  {
    assert k * d == (k - 1) * d + d == (k + 1) * d - d;
  }

  lemma DivisionIsUnique(x: nat, d: nat, q: nat, r: nat)
    requires x == q * d + r && r < d
    ensures x / d == q && x % d == r
  {
    var k := x / d - q;
    assert x == (x / d) * d + x % d;
    assert (x / d) * d == k * d + q * d;
    OneMultipleOrMore(k, d);
  }

  lemma DivisionByDouble(x: nat, p: nat)
    requires 0 < p
    ensures x / (2 * p) == x / 2 / p
    ensures x % (2 * p) == 2 * (x / 2 % p) + x % 2
  {
    var h := x / 2;
    var q, r := h / p, h % p;
    assert h == q * p + r;
    assert x == q * (2 * p) + (2 * r + x % 2);
    DivisionIsUnique(x, 2 * p, q, 2 * r + x % 2);
  }

  // Masking with k ones is the remainder.
  lemma {:induction false} MaskIsRemainder(x: nat, k: nat)
    ensures BitAnd(x, Pow2(k) - 1) == x % Pow2(k)
    decreases k
  {
    if k != 0 {
      var p := Pow2(k - 1);
      MaskIsRemainder(x / 2, k - 1);
      DivisionByDouble(x, p);
      assert (2 * p - 1) / 2 == p - 1;
    }
  }

  lemma {:induction false} ShiftRightDivides(x: nat, k: nat, p: nat)
    requires p == Pow2(k)
    ensures ShiftRight(x, k) == x / p
    decreases k
  {
    if k != 0 {
      DivisionByDouble(x, Pow2(k - 1));
      ShiftRightDivides(x / 2, k - 1, Pow2(k - 1));
    }
  }

  // ---- The layout ----

  function Id(nodeID: nat, milli: nat, sequence: nat): nat {
    BitOr(BitOr(ShiftLeft(milli, NODE_BITS + SEQUENCE_BITS), ShiftLeft(nodeID, SEQUENCE_BITS)), sequence)
  }

  datatype Parts = Parts(timestamp: int, nodeID: nat, sequence: nat)

  function Parse(epochMilli: int, id: nat): Parts {
    Parts(epochMilli + ShiftRight(id, NODE_BITS + SEQUENCE_BITS),
          BitAnd(ShiftRight(id, SEQUENCE_BITS), MAX_NODE_ID),
          BitAnd(id, MAX_SEQUENCE))
  }

  lemma TimeIsCut(milli: nat)
    ensures ShiftLeft(milli, 22) == milli % TWO42 * 0x40_0000
  {
    Powers();
    var q, r := milli / TWO42, milli % TWO42;
    DivisionIsUnique(milli * 0x40_0000, TWO64, q, r * 0x40_0000);
  }

  lemma NodeIsKept(nodeID: nat)
    requires nodeID <= MAX_NODE_ID
    ensures ShiftLeft(nodeID, 12) == nodeID * 4096
  {
    Powers();
  }

  lemma OrAt(q: nat, a: nat, b: nat, k: nat, p: nat)
    requires p == Pow2(k) && a == q * p && b < p
    ensures BitOr(a, b) == a + b
  {
    OrIsSum(q, b, k);
  }

  // The three fields side by side.
  function SideBySide(time: nat, nodeID: nat, sequence: nat): nat {
    time * 0x40_0000 + nodeID * 4096 + sequence
  }

  lemma OrIsSideBySide(r: nat, nodeID: nat, sequence: nat)
    requires nodeID <= MAX_NODE_ID && sequence <= MAX_SEQUENCE
    ensures BitOr(BitOr(r * 0x40_0000, nodeID * 4096), sequence) == SideBySide(r, nodeID, sequence)
  {
    Powers();
    OrAt(r, r * 0x40_0000, nodeID * 4096, 22, 0x40_0000);
    OrAt(r * 1024 + nodeID, r * 0x40_0000 + nodeID * 4096, sequence, 12, 4096);
  }

  /** The fields do not overlap: the id is the three of them side by side, with the
      time cut to 42 bits. */
  lemma IdIsSum(nodeID: nat, milli: nat, sequence: nat)
    requires nodeID <= MAX_NODE_ID && sequence <= MAX_SEQUENCE
    ensures Id(nodeID, milli, sequence) == SideBySide(milli % TWO42, nodeID, sequence)
  {
    TimeIsCut(milli);
    NodeIsKept(nodeID);
    OrIsSideBySide(milli % TWO42, nodeID, sequence);
  }

  // Side by side, fields in range compare by time, then node, then sequence.
  lemma SideBySideOrder(r: nat, n: nat, s: nat, r': nat, n': nat, s': nat)
    requires n <= MAX_NODE_ID && n' <= MAX_NODE_ID && s <= MAX_SEQUENCE && s' <= MAX_SEQUENCE
    ensures SideBySide(r, n, s) < SideBySide(r', n', s') <==>
            r < r' || (r == r' && (n < n' || (n == n' && s < s')))
  {
  }

  lemma ParseReadsFields(epochMilli: int, r: nat, nodeID: nat, sequence: nat)
    requires nodeID <= MAX_NODE_ID && sequence <= MAX_SEQUENCE
    ensures Parse(epochMilli, SideBySide(r, nodeID, sequence)) == Parts(epochMilli + r, nodeID, sequence)
  {
    var id := SideBySide(r, nodeID, sequence);
    Powers();
    DivisionIsUnique(id, 4096, r * 1024 + nodeID, sequence);
    DivisionIsUnique(id, 0x40_0000, r, nodeID * 4096 + sequence);
    DivisionIsUnique(r * 1024 + nodeID, 1024, r, nodeID);
    ShiftRightDivides(id, 12, 4096);
    ShiftRightDivides(id, 22, 0x40_0000);
    MaskIsRemainder(id, 12);
    MaskIsRemainder(r * 1024 + nodeID, 10);
  }

  /** Parse undoes the layout, and gives the time back exactly when it fits in 42
      bits. */
  lemma ParseUndoesId(epochMilli: int, nodeID: nat, milli: nat, sequence: nat)
    requires nodeID <= MAX_NODE_ID && sequence <= MAX_SEQUENCE
    ensures Parse(epochMilli, Id(nodeID, milli, sequence)) == Parts(epochMilli + milli % TWO42, nodeID, sequence)
    ensures Parse(epochMilli, Id(nodeID, milli, sequence)) == Parts(epochMilli + milli, nodeID, sequence)
            <==> milli < TWO42
  {
    IdIsSum(nodeID, milli, sequence);
    ParseReadsFields(epochMilli, milli % TWO42, nodeID, sequence);
  }

  // ---- The generator ----

  datatype Stamp = Stamp(milli: int, sequence: nat)

  const INITIAL := Stamp(-1, 0)

  function CurrentMilli(epochMilli: int, reading: int): int {
    if reading - epochMilli < 0 then 0 else reading - epochMilli
  }

  // The first reading past `previous`; none while the clock has not got there.
  function FirstPast(epochMilli: int, readings: seq<int>, previous: int): Option<int> {
    if readings == [] then None
    else
      var milli := CurrentMilli(epochMilli, readings[0]);
      if milli > previous then Some(milli) else FirstPast(epochMilli, readings[1..], previous)
  }

  function Tick(epochMilli: int, s: Stamp, readings: seq<int>): Option<Stamp> {
    if readings == [] then None
    else
      var now := CurrentMilli(epochMilli, readings[0]);
      if now > s.milli then Some(Stamp(now, 0))
      else if s.sequence < MAX_SEQUENCE then Some(Stamp(s.milli, s.sequence + 1))
      else
        match FirstPast(epochMilli, readings[1..], s.milli)
        case Some(milli) => Some(Stamp(milli, 0))
        case None => None
  }

  class Generator {
    const nodeID: nat
    const epochMilli: int
    var lastMilli: int
    var sequence: nat

    constructor (nodeID: nat, epochMilli: int)
      requires nodeID <= MAX_NODE_ID
      ensures Value() == INITIAL && this.nodeID == nodeID && this.epochMilli == epochMilli
    {
      this.nodeID := nodeID;
      this.epochMilli := epochMilli;
      lastMilli := -1;
      sequence := 0;
    }

    // A node id out of range is refused.
    static method New(nodeID: nat, epochMilli: int) returns (r: Option<Generator>)
      ensures r.Some? <==> nodeID <= MAX_NODE_ID
      ensures r.Some? ==> fresh(r.value) && r.value.nodeID == nodeID && r.value.epochMilli == epochMilli
                          && r.value.Value() == INITIAL
    {
      if nodeID > MAX_NODE_ID {
        return None;
      }
      var g := new Generator(nodeID, epochMilli);
      return Some(g);
    }

    function Value(): Stamp
      reads this
    {
      Stamp(lastMilli, sequence)
    }

    ghost predicate Valid()
      reads this
    {
      Value() == INITIAL || WellFormed(Value())
    }

    method WaitNextMilli(readings: seq<int>, previous: int) returns (r: Option<int>)
      ensures r == FirstPast(epochMilli, readings, previous)
    {
      var i := 0;
      while i < |readings|
        invariant 0 <= i <= |readings|
        invariant FirstPast(epochMilli, readings, previous) == FirstPast(epochMilli, readings[i..], previous)
      {
        var milli := CurrentMilli(epochMilli, readings[i]);
        if milli > previous {
          return Some(milli);
        }
        i := i + 1;
      }
      return None;
    }

    /** `readings` are what the clock answers, in order; no result while the call
        still waits for the clock to move. */
    method Next(readings: seq<int>) returns (id: Option<nat>)
      requires Valid()
      modifies this
      ensures Valid()
      ensures var tick := Tick(epochMilli, old(Value()), readings);
        && (id.Some? <==> tick.Some?)
        && Value() == (if tick.Some? then tick.value else old(Value()))
        && (id.Some? ==> 0 <= lastMilli && id.value == Id(nodeID, lastMilli, sequence))
    {
      if readings == [] {
        return None;
      }
      var milli := CurrentMilli(epochMilli, readings[0]);
      if milli < lastMilli {
        milli := lastMilli;
      }
      if milli == lastMilli {
        if sequence == MAX_SEQUENCE {
          var past := WaitNextMilli(readings[1..], lastMilli);
          if past.None? {
            return None;
          }
          PastIsPast(epochMilli, readings[1..], lastMilli);
          milli := past.value;
          sequence := 0;
        } else {
          sequence := sequence + 1;
        }
      } else {
        sequence := 0;
      }
      lastMilli := milli;
      return Some(Id(nodeID, milli, sequence));
    }
  }

  lemma {:induction false} PastIsPast(epochMilli: int, readings: seq<int>, previous: int)
    requires FirstPast(epochMilli, readings, previous).Some?
    ensures FirstPast(epochMilli, readings, previous).value > previous
  {
    if readings != [] && CurrentMilli(epochMilli, readings[0]) <= previous {
      PastIsPast(epochMilli, readings[1..], previous);
    }
  }

  // ---- Runs: one list of clock readings a call ----

  function Last(stamps: seq<Stamp>): Stamp {
    if stamps == [] then INITIAL else stamps[|stamps| - 1]
  }

  // The stamps issued by the calls, in order.
  function Stamps(epochMilli: int, calls: seq<seq<int>>): seq<Stamp> {
    if calls == [] then []
    else
      var before := Stamps(epochMilli, calls[..|calls| - 1]);
      match Tick(epochMilli, Last(before), calls[|calls| - 1])
      case Some(s) => before + [s]
      case None => before
  }

  predicate Follows(s: Stamp, t: Stamp) {
    s.milli < t.milli || (s.milli == t.milli && t.sequence == s.sequence + 1)
  }

  predicate WellFormed(s: Stamp) {
    0 <= s.milli && s.sequence <= MAX_SEQUENCE
  }

  ghost predicate Chain(stamps: seq<Stamp>) {
    && (forall i :: 0 <= i < |stamps| ==> WellFormed(stamps[i]))
    && (forall i :: 0 < i < |stamps| ==> Follows(stamps[i - 1], stamps[i]))
  }

  lemma TickFollows(epochMilli: int, s: Stamp, readings: seq<int>)
    requires (s == INITIAL || WellFormed(s)) && Tick(epochMilli, s, readings).Some?
    ensures Follows(s, Tick(epochMilli, s, readings).value) && WellFormed(Tick(epochMilli, s, readings).value)
  {
    if readings != [] && FirstPast(epochMilli, readings[1..], s.milli).Some? {
      PastIsPast(epochMilli, readings[1..], s.milli);
    }
  }

  lemma {:induction false} RunIsChain(epochMilli: int, calls: seq<seq<int>>)
    ensures Chain(Stamps(epochMilli, calls))
  {
    if calls != [] {
      var before := Stamps(epochMilli, calls[..|calls| - 1]);
      RunIsChain(epochMilli, calls[..|calls| - 1]);
      if Tick(epochMilli, Last(before), calls[|calls| - 1]).Some? {
        TickFollows(epochMilli, Last(before), calls[|calls| - 1]);
      }
    }
  }

  // Along a chain time never goes back, and within one millisecond the sequence counts.
  lemma {:induction false} ChainOrder(stamps: seq<Stamp>, i: nat, j: nat)
    requires Chain(stamps) && i <= j < |stamps|
    ensures stamps[i].milli <= stamps[j].milli
    ensures stamps[i].milli == stamps[j].milli ==> stamps[j].sequence - stamps[i].sequence == j - i
    decreases j
  {
    if i < j {
      ChainOrder(stamps, i, j - 1);
      assert Follows(stamps[j - 1], stamps[j]);
    }
  }

  function IdOf(nodeID: nat, s: Stamp): nat
    requires WellFormed(s)
  {
    Id(nodeID, s.milli, s.sequence)
  }

  // One node's ids compare as their stamps do, with the time cut to 42 bits.
  lemma IdOrder(nodeID: nat, s: Stamp, t: Stamp)
    requires nodeID <= MAX_NODE_ID && WellFormed(s) && WellFormed(t)
    ensures IdOf(nodeID, s) < IdOf(nodeID, t) <==>
            s.milli % TWO42 < t.milli % TWO42 || (s.milli % TWO42 == t.milli % TWO42 && s.sequence < t.sequence)
  {
    IdIsSum(nodeID, s.milli, s.sequence);
    IdIsSum(nodeID, t.milli, t.sequence);
    SideBySideOrder(s.milli % TWO42, nodeID, s.sequence, t.milli % TWO42, nodeID, t.sequence);
  }

  /** Whatever the clock does, a generator's ids strictly increase while the time
      fits in 42 bits. */
  lemma IdsIncrease(epochMilli: int, nodeID: nat, calls: seq<seq<int>>, i: nat, j: nat)
    requires nodeID <= MAX_NODE_ID && i < j < |Stamps(epochMilli, calls)|
    requires Stamps(epochMilli, calls)[j].milli < TWO42
    ensures var s := Stamps(epochMilli, calls);
      WellFormed(s[i]) && WellFormed(s[j]) && IdOf(nodeID, s[i]) < IdOf(nodeID, s[j])
  {
    var s := Stamps(epochMilli, calls);
    RunIsChain(epochMilli, calls);
    ChainOrder(s, i, j);
    IdOrder(nodeID, s[i], s[j]);
  }

  /** Past 42 bits they do not: the id after the last millisecond that fits is
      smaller than the one before it. */
  lemma IdsGoBack(nodeID: nat)
    requires nodeID <= MAX_NODE_ID
    ensures var s := Stamps(0, [[TWO42 - 1], [TWO42]]);
      |s| == 2 && WellFormed(s[0]) && WellFormed(s[1]) && IdOf(nodeID, s[1]) < IdOf(nodeID, s[0])
  {
    var calls := [[TWO42 - 1], [TWO42]];
    assert calls[..1] == [[TWO42 - 1]] && calls[..1][..0] == [];
    assert Stamps(0, calls[..1]) == [Stamp(TWO42 - 1, 0)];
    assert Stamps(0, calls) == [Stamp(TWO42 - 1, 0), Stamp(TWO42, 0)];
    IdOrder(nodeID, Stamp(TWO42, 0), Stamp(TWO42 - 1, 0));
  }

  /** No millisecond is given more than 4096 ids. */
  lemma MillisecondIsBounded(epochMilli: int, calls: seq<seq<int>>, i: nat, j: nat)
    requires i < j < |Stamps(epochMilli, calls)|
    requires Stamps(epochMilli, calls)[i].milli == Stamps(epochMilli, calls)[j].milli
    ensures j - i <= MAX_SEQUENCE
  {
    RunIsChain(epochMilli, calls);
    ChainOrder(Stamps(epochMilli, calls), i, j);
  }

  /** Two ids are the same exactly when node, sequence and the low 42 bits of the
      time are: different nodes never collide, whatever their clocks. */
  lemma IdsCollideExactly(n: nat, s: Stamp, m: nat, t: Stamp)
    requires n <= MAX_NODE_ID && m <= MAX_NODE_ID && WellFormed(s) && WellFormed(t)
    ensures IdOf(n, s) == IdOf(m, t) <==>
            n == m && s.sequence == t.sequence && s.milli % TWO42 == t.milli % TWO42
  {
    IdIsSum(n, s.milli, s.sequence);
    IdIsSum(m, t.milli, t.sequence);
    SideBySideOrder(s.milli % TWO42, n, s.sequence, t.milli % TWO42, m, t.sequence);
    SideBySideOrder(t.milli % TWO42, m, t.sequence, s.milli % TWO42, n, s.sequence);
  }
}
