/** Session lifecycle events, and the consumer that must survive their loss,
    duplication and reordering. */
module Lifecycle {
  datatype Kind = Connected | Disconnected | Resumed | Expired | Preempted

  datatype Event = Event(id: string, session: string, epoch: nat)

  function KindName(k: Kind): string {
    match k
    case Connected => "connected"
    case Disconnected => "disconnected"
    case Resumed => "resumed"
    case Expired => "expired"
    case Preempted => "preempted"
  }

  function DigitChar(d: nat): (c: char)
    requires d < 10
    ensures c != ':'
  {
    '0' + d as char
  }

  function Decimal(n: nat): string {
    if n < 10 then [DigitChar(n)] else Decimal(n / 10) + [DigitChar(n % 10)]
  }

  // emitLifecycle's event id: session, epoch and kind joined by colons.
  function EventId(session: string, epoch: nat, kind: Kind): string {
    session + ":" + Decimal(epoch) + ":" + KindName(kind)
  }

  function Emit(session: string, epoch: nat, kind: Kind): Event {
    Event(EventId(session, epoch, kind), session, epoch)
  }

  lemma KindHasNoColon(k: Kind)
    ensures ':' !in KindName(k)
  {
    match k
    case Connected => assert ':' !in "connected";
    case Disconnected => assert ':' !in "disconnected";
    case Resumed => assert ':' !in "resumed";
    case Expired => assert ':' !in "expired";
    case Preempted => assert ':' !in "preempted";
  }

  lemma {:induction false} DecimalHasNoColon(n: nat)
    ensures ':' !in Decimal(n) && |Decimal(n)| > 0
  {
    if n >= 10 {
      DecimalHasNoColon(n / 10);
    }
  }

  lemma {:induction false} DecimalInjective(m: nat, n: nat)
    requires Decimal(m) == Decimal(n)
    ensures m == n
  {
    DecimalHasNoColon(m / 10);
    DecimalHasNoColon(n / 10);
    var a, b := Decimal(m), Decimal(n);
    assert a[|a| - 1] == DigitChar(m % 10) && b[|b| - 1] == DigitChar(n % 10);
    if m >= 10 && n >= 10 {
      assert Decimal(m / 10) == a[..|a| - 1] && Decimal(n / 10) == b[..|b| - 1];
      DecimalInjective(m / 10, n / 10);
    }
  }

  // The last colon splits a string in one way.
  lemma LastColonSplits(a: string, b: string, c: string, d: string)
    requires a + ":" + b == c + ":" + d && ':' !in b && ':' !in d
    ensures a == c && b == d
  {
    var s := a + ":" + b;
    assert s[|a|] == ':' && s[|c|] == ':';
    assert |a| == |c|;
    assert a == s[..|a|] && c == s[..|a|];
    assert b == s[|a| + 1..] && d == s[|a| + 1..];
  }

  lemma KindsDiffer(k: Kind, l: Kind)
    requires KindName(k) == KindName(l)
    ensures k == l
  {
    assert KindName(k)[0] == KindName(l)[0] && |KindName(k)| == |KindName(l)|;
  }

  /** An event id names its session, epoch and kind, whatever the session id. */
  lemma EventIdInjective(s: string, m: nat, k: Kind, t: string, n: nat, l: Kind)
    requires EventId(s, m, k) == EventId(t, n, l)
    ensures s == t && m == n && k == l
  {
    KindHasNoColon(k);
    KindHasNoColon(l);
    DecimalHasNoColon(m);
    DecimalHasNoColon(n);
    LastColonSplits(s + ":" + Decimal(m), KindName(k), t + ":" + Decimal(n), KindName(l));
    LastColonSplits(s, Decimal(m), t, Decimal(n));
    DecimalInjective(m, n);
    KindsDiffer(k, l);
  }

  // ---- The consumer ----

  datatype Seen = Seen(latest: map<string, nat>, ids: set<string>)

  const NOTHING := Seen(map[], {})

  function LatestOf(s: Seen, session: string): nat {
    if session in s.latest then s.latest[session] else 0
  }

  predicate Accepts(s: Seen, e: Event) {
    e.id !in s.ids && LatestOf(s, e.session) <= e.epoch
  }

  function Accepted(s: Seen, e: Event): Seen {
    if !Accepts(s, e) then s
    else Seen(if LatestOf(s, e.session) < e.epoch then s.latest[e.session := e.epoch] else s.latest, s.ids + {e.id})
  }

  // The handler drops events without id, session or epoch.
  predicate WellFormed(e: Event) {
    e.id != "" && e.session != "" && e.epoch != 0
  }

  function Handled(s: Seen, e: Event): Seen {
    if WellFormed(e) then Accepted(s, e) else s
  }

  function Deliver(events: seq<Event>): Seen {
    if events == [] then NOTHING else Handled(Deliver(events[..|events| - 1]), events[|events| - 1])
  }

  class SessionLifecycleConsumer {
    var latestEpoch: map<string, nat>
    var eventIds: set<string>

    constructor ()
      ensures View() == NOTHING
    {
      latestEpoch, eventIds := map[], {};
    }

    function View(): Seen
      reads this
    {
      Seen(latestEpoch, eventIds)
    }

    method Accept(e: Event) returns (ok: bool)
      modifies this
      ensures ok == Accepts(old(View()), e)
      ensures View() == Accepted(old(View()), e)
    {
      if e.id in eventIds { return false; }
      var latest := if e.session in latestEpoch then latestEpoch[e.session] else 0;
      if e.epoch < latest { return false; }
      eventIds := eventIds + {e.id};
      if e.epoch > latest {
        latestEpoch := latestEpoch[e.session := e.epoch];
      }
      return true;
    }

    method LatestEpoch(session: string) returns (epoch: nat)
      ensures epoch == LatestOf(View(), session)
    {
      if session in latestEpoch { return latestEpoch[session]; }
      return 0;
    }
  }

  function MaxEpoch(events: seq<Event>, session: string): nat {
    if events == [] then 0
    else
      var e := events[|events| - 1];
      var m := MaxEpoch(events[..|events| - 1], session);
      if WellFormed(e) && e.session == session && m < e.epoch then e.epoch else m
  }

  // Ids that name their session and epoch, as emitLifecycle's do.
  ghost predicate IdsNameEvents(events: seq<Event>) {
    forall i, j :: 0 <= i < |events| && 0 <= j < |events| && events[i].id == events[j].id ==> events[i] == events[j]
  }

  lemma EmittedIdsNameEvents(events: seq<Event>)
    requires forall i :: 0 <= i < |events| ==> exists k :: events[i] == Emit(events[i].session, events[i].epoch, k)
    ensures IdsNameEvents(events)
  {
    forall i, j | 0 <= i < |events| && 0 <= j < |events| && events[i].id == events[j].id
      ensures events[i] == events[j]
    {
      var k :| events[i] == Emit(events[i].session, events[i].epoch, k);
      var l :| events[j] == Emit(events[j].session, events[j].epoch, l);
      EventIdInjective(events[i].session, events[i].epoch, k, events[j].session, events[j].epoch, l);
    }
  }

  // An accepted id belongs to a delivered event that the consumer has already counted.
  lemma {:induction false} AcceptedIdsWereDelivered(events: seq<Event>, id: string)
    requires id in Deliver(events).ids
    ensures exists i :: 0 <= i < |events| && events[i].id == id
                        && events[i].epoch <= LatestOf(Deliver(events), events[i].session)
  {
    var n := |events| - 1;
    var before := Deliver(events[..n]);
    if id in before.ids {
      AcceptedIdsWereDelivered(events[..n], id);
      var i :| 0 <= i < n && events[..n][i].id == id
               && events[..n][i].epoch <= LatestOf(before, events[..n][i].session);
      assert events[i].id == id && events[i].epoch <= LatestOf(Deliver(events), events[i].session);
    } else {
      assert events[n].id == id && events[n].epoch <= LatestOf(Deliver(events), events[n].session);
    }
  }

  /** One delivery keeps the latest epoch at the maximum exactly when it does not
      reuse an accepted id for a higher epoch. */
  lemma AcceptTracksMaximum(s: Seen, e: Event)
    ensures LatestOf(Accepted(s, e), e.session)
              == (if LatestOf(s, e.session) < e.epoch then e.epoch else LatestOf(s, e.session))
            <==> !(e.id in s.ids && LatestOf(s, e.session) < e.epoch)
    ensures forall t :: t != e.session ==> LatestOf(Accepted(s, e), t) == LatestOf(s, t)
  {
  }

  /** For any loss, duplication and reordering of the gateway's events, the
      latest epoch of a session is the largest one delivered. */
  lemma {:induction false} LatestIsMaximum(events: seq<Event>, session: string)
    requires IdsNameEvents(events)
    ensures LatestOf(Deliver(events), session) == MaxEpoch(events, session)
  {
    if events != [] {
      var n := |events| - 1;
      var e, before := events[n], Deliver(events[..n]);
      LatestIsMaximum(events[..n], session);
      if WellFormed(e) {
        AcceptTracksMaximum(before, e);
        if e.id in before.ids {
          AcceptedIdsWereDelivered(events[..n], e.id);
          var i :| 0 <= i < n && events[..n][i].id == e.id
                   && events[..n][i].epoch <= LatestOf(before, events[..n][i].session);
          assert events[i] == events[n];
        }
      }
    }
  }

  /** No event id is accepted twice, and what is accepted for a session never
      goes back to an older epoch. */
  lemma {:induction false} AcceptedOnceInOrder(events: seq<Event>, i: nat, j: nat)
    requires i < j < |events|
    requires WellFormed(events[i]) && Accepts(Deliver(events[..i]), events[i])
    requires WellFormed(events[j]) && Accepts(Deliver(events[..j]), events[j])
    ensures events[i].id != events[j].id
    ensures events[i].session == events[j].session ==> events[i].epoch <= events[j].epoch
  {
    SeenSticks(events, i, j);
  }

  lemma {:induction false} SeenSticks(events: seq<Event>, i: nat, j: nat)
    requires i < j <= |events| && WellFormed(events[i]) && Accepts(Deliver(events[..i]), events[i])
    ensures events[i].id in Deliver(events[..j]).ids
    ensures events[i].epoch <= LatestOf(Deliver(events[..j]), events[i].session)
    decreases j
  {
    assert events[..j][..j - 1] == events[..j - 1];
    if j - 1 > i {
      SeenSticks(events, i, j - 1);
    }
  }
}
