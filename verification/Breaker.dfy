/** The circuit breaker: its two critical sections, and every run of calls that
    overlap in any way, compared with a reference that only looks at history. */
module Breaker {
  datatype State = Closed | Open | HalfOpen

  const ZERO_TIME: int := 0
  const SECOND: int := 1_000_000_000

  datatype Circuit = Circuit(failures: nat, openUntil: int, state: State)

  // What the callback's error means to the breaker: ignored errors count as success.
  predicate CountsAsFailure(err: bool, counts: bool) {
    err && counts
  }

  predicate Admits(c: Circuit, now: int) {
    c.state.Closed? || (c.state.Open? && c.openUntil <= now)
  }

  function AfterAllow(c: Circuit, now: int): Circuit {
    if c.state.Open? && c.openUntil <= now then c.(state := HalfOpen) else c
  }

  function AfterComplete(c: Circuit, threshold: nat, reset: nat, failed: bool, now: int): Circuit {
    if !failed then Circuit(0, ZERO_TIME, Closed)
    else if c.failures + 1 >= threshold then Circuit(c.failures + 1, now + reset, Open)
    else c.(failures := c.failures + 1)
  }

  class CircuitBreaker {
    var failures: nat
    var openUntil: int
    var state: State
    const threshold: nat
    const resetTimeout: nat

    constructor (failureThreshold: int, resetTimeout: int)
      ensures Value() == Circuit(0, ZERO_TIME, Closed)
      ensures threshold == (if failureThreshold < 1 then 1 else failureThreshold)
      ensures this.resetTimeout == if resetTimeout <= 0 then SECOND else resetTimeout
    {
      failures := 0;
      openUntil := ZERO_TIME;
      state := Closed;
      threshold := if failureThreshold < 1 then 1 else failureThreshold;
      this.resetTimeout := if resetTimeout <= 0 then SECOND else resetTimeout;
    }

    function Value(): Circuit
      reads this
    {
      Circuit(failures, openUntil, state)
    }

    method Allow(now: int) returns (ok: bool)
      modifies this
      ensures ok == old(Admits(Value(), now))
      ensures Value() == AfterAllow(old(Value()), now)
    {
      match state {
        case Closed =>
          return true;
        case Open =>
          if now < openUntil {
            return false;
          }
          state := HalfOpen;
          return true;
        case HalfOpen =>
          return false;
      }
    }

    method Complete(failed: bool, now: int)
      modifies this
      ensures Value() == AfterComplete(old(Value()), threshold, resetTimeout, failed, now)
    {
      if !failed {
        failures := 0;
        openUntil := ZERO_TIME;
        if state != Closed {
          state := Closed;
        }
      } else {
        failures := failures + 1;
        if failures >= threshold {
          openUntil := now + resetTimeout;
          if state != Open {
            state := Open;
          }
        }
      }
    }
  }

  // ---- Runs ----

  type CallId = nat

  // A call asks for admission; an admitted call returns.
  datatype Label = Call(at: int) | Return(id: CallId, err: bool, counts: bool, at: int)

  datatype Event =
    | Admitted(id: CallId, at: int)
    | Rejected(at: int)
    | Returned(id: CallId, failed: bool, at: int)

  datatype Sys = Sys(circuit: Circuit, inFlight: set<CallId>, next: CallId, history: seq<Event>)

  const INITIAL := Sys(Circuit(0, ZERO_TIME, Closed), {}, 0, [])

  // A call that never returns, because its operation hangs or panics, stays in flight.
  function Step(s: Sys, threshold: nat, reset: nat, l: Label): Sys {
    match l
    case Call(at) =>
      var c := AfterAllow(s.circuit, at);
      if Admits(s.circuit, at)
      then Sys(c, s.inFlight + {s.next}, s.next + 1, s.history + [Admitted(s.next, at)])
      else s.(circuit := c, history := s.history + [Rejected(at)])
    case Return(id, err, counts, at) =>
      if id !in s.inFlight then s
      else
        var failed := CountsAsFailure(err, counts);
        s.(circuit := AfterComplete(s.circuit, threshold, reset, failed, at),
           inFlight := s.inFlight - {id},
           history := s.history + [Returned(id, failed, at)])
  }

  function Exec(threshold: nat, reset: nat, labels: seq<Label>): Sys {
    if labels == [] then INITIAL
    else Step(Exec(threshold, reset, labels[..|labels| - 1]), threshold, reset, labels[|labels| - 1])
  }

  // ---- The reference: what the history alone says ----

  // Failed returns since the last successful one.
  function Trailing(h: seq<Event>): nat {
    if h == [] then 0
    else
      var e, before := h[|h| - 1], h[..|h| - 1];
      if !e.Returned? then Trailing(before) else if e.failed then Trailing(before) + 1 else 0
  }

  // When a call last returned.
  function LastReturn(h: seq<Event>): int {
    if h == [] then ZERO_TIME
    else
      var e := h[|h| - 1];
      if e.Returned? then e.at else LastReturn(h[..|h| - 1])
  }

  // The calls admitted since a call last returned.
  function AdmittedSince(h: seq<Event>): seq<CallId> {
    if h == [] then []
    else
      var e, before := h[|h| - 1], h[..|h| - 1];
      if e.Returned? then [] else if e.Admitted? then AdmittedSince(before) + [e.id] else AdmittedSince(before)
  }

  /** When a call should go through: the run of failures is short, or the reset
      timeout has passed since the last return and no probe has been sent since. */
  predicate ShouldAdmit(h: seq<Event>, threshold: nat, reset: nat, now: int) {
    Trailing(h) < threshold || (AdmittedSince(h) == [] && LastReturn(h) + reset <= now)
  }

  // ---- What every run keeps ----

  ghost predicate Inv(s: Sys, threshold: nat, reset: nat) {
    && s.circuit.failures == Trailing(s.history)
    && (s.circuit.state.Closed? <==> Trailing(s.history) < threshold)
    && (s.circuit.state.Open? ==> AdmittedSince(s.history) == [] && s.circuit.openUntil == LastReturn(s.history) + reset)
    && (s.circuit.state.HalfOpen? ==> |AdmittedSince(s.history)| == 1 && AdmittedSince(s.history)[0] in s.inFlight)
  }

  // What one more event does to the three readings of a history.
  lemma OneMoreEvent(h: seq<Event>, e: Event)
    ensures Trailing(h + [e]) == if !e.Returned? then Trailing(h) else if e.failed then Trailing(h) + 1 else 0
    ensures LastReturn(h + [e]) == if e.Returned? then e.at else LastReturn(h)
    ensures AdmittedSince(h + [e])
         == if e.Returned? then [] else if e.Admitted? then AdmittedSince(h) + [e.id] else AdmittedSince(h)
  {
    assert (h + [e])[..|h|] == h;
  }

  lemma CallKeepsInv(s: Sys, threshold: nat, reset: nat, at: int)
    requires 1 <= threshold && Inv(s, threshold, reset)
    ensures Inv(Step(s, threshold, reset, Call(at)), threshold, reset)
  {
    OneMoreEvent(s.history, if Admits(s.circuit, at) then Admitted(s.next, at) else Rejected(at));
  }

  lemma ReturnKeepsInv(s: Sys, threshold: nat, reset: nat, l: Label)
    requires 1 <= threshold && Inv(s, threshold, reset) && l.Return? && l.id in s.inFlight
    ensures Inv(Step(s, threshold, reset, l), threshold, reset)
  {
    OneMoreEvent(s.history, Returned(l.id, CountsAsFailure(l.err, l.counts), l.at));
  }

  lemma StepKeepsInv(s: Sys, threshold: nat, reset: nat, l: Label)
    requires 1 <= threshold && Inv(s, threshold, reset)
    ensures Inv(Step(s, threshold, reset, l), threshold, reset)
  {
    if l.Call? {
      CallKeepsInv(s, threshold, reset, l.at);
    } else if l.id in s.inFlight {
      ReturnKeepsInv(s, threshold, reset, l);
    }
  }

  lemma {:induction false} RunKeepsInv(threshold: nat, reset: nat, labels: seq<Label>)
    requires 1 <= threshold
    ensures Inv(Exec(threshold, reset, labels), threshold, reset)
  {
    if labels != [] {
      RunKeepsInv(threshold, reset, labels[..|labels| - 1]);
      StepKeepsInv(Exec(threshold, reset, labels[..|labels| - 1]), threshold, reset, labels[|labels| - 1]);
    }
  }

  /** After every run the breaker admits a call exactly when the history says so,
      and is Closed exactly when the trailing run of failures is below the
      threshold. */
  lemma AdmitsExactly(threshold: nat, reset: nat, labels: seq<Label>, now: int)
    requires 1 <= threshold
    ensures var s := Exec(threshold, reset, labels);
      && (Admits(s.circuit, now) <==> ShouldAdmit(s.history, threshold, reset, now))
      && (s.circuit.state.Closed? <==> Trailing(s.history) < threshold)
  {
    RunKeepsInv(threshold, reset, labels);
  }

  /** While half open, exactly one call has been admitted since the last return,
      it is still in flight, and nothing more gets in. Any return ends the stay: a
      failure reopens the circuit and a success closes it. */
  lemma HalfOpenHasOneProbe(threshold: nat, reset: nat, labels: seq<Label>, l: Label)
    requires 1 <= threshold
    requires Exec(threshold, reset, labels).circuit.state.HalfOpen?
    ensures var s := Exec(threshold, reset, labels);
      && |AdmittedSince(s.history)| == 1
      && AdmittedSince(s.history)[0] in s.inFlight
      && (l.Call? ==> !Admits(s.circuit, l.at))
      && (l.Return? && l.id in s.inFlight ==>
            Step(s, threshold, reset, l).circuit.state == if CountsAsFailure(l.err, l.counts) then Open else Closed)
  {
    RunKeepsInv(threshold, reset, labels);
  }

  /** The breaker does not lock shut: once every admitted call has returned, a
      call one reset timeout after the last return is admitted. */
  lemma NeverLocksShut(threshold: nat, reset: nat, labels: seq<Label>, now: int)
    requires 1 <= threshold
    requires var s := Exec(threshold, reset, labels); s.inFlight == {} && LastReturn(s.history) + reset <= now
    ensures Admits(Exec(threshold, reset, labels).circuit, now)
  {
    RunKeepsInv(threshold, reset, labels);
  }

  /** The breaker shuts callers out: from the threshold on, nothing gets in until
      the reset timeout has passed since the last return. */
  lemma OpenShutsOut(threshold: nat, reset: nat, labels: seq<Label>, now: int)
    requires 1 <= threshold
    requires var s := Exec(threshold, reset, labels);
      Trailing(s.history) >= threshold && now < LastReturn(s.history) + reset
    ensures !Admits(Exec(threshold, reset, labels).circuit, now)
  {
    RunKeepsInv(threshold, reset, labels);
  }
}
