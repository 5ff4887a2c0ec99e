/** The idempotency lease protocol for one key, over every interleaving.

    A worker is one call of `withIdempotency`.  Its program counter (`Phase`)
    stops before every database operation, so any number of workers, in any
    number of processes, interleave at exactly those points.  Each worker reads
    its own clock, which may run ahead, behind or backwards.  A label names who
    moves and what the environment supplies (clock reading, fresh reservation
    id, result of the business operation, lost acknowledgement); a run is any
    sequence of labels, and a label that is not enabled changes nothing.  A
    business operation without an outcome failed, or returned no message; the
    call then ends, like a failed one, with no response bytes.
 */
module LeaseProtocol {
  import opened Wrappers
  import opened Idempotency
  import Naming

  // The component's idempotencyLease and idempotencyTTL.
  datatype Config = Config(lease: Time, ttl: Time)

  // The pending record a worker wants to store; `looping` tells Reserve's two call sites apart.
  datatype Attempt = Attempt(res: string, now: Time, lease: Time, expires: Time, looping: bool)

  datatype Phase =
    | Starting
    | Looking(now: Time)
    | Inserting(a: Attempt)
    | Probing(a: Attempt)
    | Sweeping(a: Attempt)
    | Reinserting(a: Attempt)
    | Reprobing(a: Attempt)
    | Stealing(a: Attempt, seen: Record)
    | Rechecking(a: Attempt)
    | Executing(res: string, leaseLost: bool)
    | Completing(res: string, response: Bytes)
    | Releasing(res: string)
    | Waiting(deadline: Time)
    | Polling(now: Time, deadline: Time)
    | Replied(response: Bytes)
    | Failed

  datatype Worker = Worker(request: Request, config: Config, phase: Phase)

  // The last six fields record what has happened; no step reads `executed`, `completions` or `clock`.
  datatype Sys = Sys(
    doc: Doc,
    workers: map<int, Worker>,
    issued: map<string, int>,           // reservation id -> worker that drew it
    installed: set<string>,             // reservation ids ever written to the document
    executed: set<(Request, Bytes)>,    // results the business operations returned
    completions: seq<Record>,           // completed records ever stored, oldest first
    clock: Time)                        // largest clock reading so far

  datatype Input = Input(now: Time, uuid: string, renew: bool, outcome: Option<Bytes>, lost: bool)

  datatype Label =
    | Spawn(id: int, request: Request, config: Config)
    | Act(id: int, input: Input)
    | Crash(id: int)
    | RecoverAt(now: Time)
    | ExpireAt(now: Time)

  // What one worker action does to the document and to the worker.
  datatype Effect = Effect(doc: Doc, phase: Phase, issues: Option<string>, installs: Option<string>,
                           executes: Option<Bytes>, completes: bool)

  function Quiet(doc: Doc, phase: Phase): Effect {
    Effect(doc, phase, None, None, None, false)
  }

  function NewAttempt(c: Config, res: string, now: Time, looping: bool): Attempt {
    Attempt(res, now, now + c.lease, now + c.ttl, looping)
  }

  function PendingRecord(w: Worker, a: Attempt): Record {
    Pending(w.request, a.res, a.lease, a.expires)
  }

  function Replay(w: Worker, r: Record): Phase
    requires r.Completed?
  {
    if r.request == w.request then Replied(r.response) else Failed
  }

  // Reserve returned a pending record that is not ours.
  function NotOurs(a: Attempt, r: Record): Phase
    requires r.Pending?
  {
    if a.looping then Polling(a.now, r.leaseUntil) else Waiting(a.lease)
  }

  function Judge(w: Worker, a: Attempt, r: Record): Phase {
    if r.request != w.request then Failed
    else if r.Completed? then Replied(r.response)
    else if a.now < r.leaseUntil then NotOurs(a, r)
    else Stealing(a, r)
  }

  // A fresh UUID, then Reserve; an attempt that would already have expired is invalid.
  function BeginReserve(w: Worker, doc: Doc, now: Time, looping: bool, uuid: string): Effect {
    var a := NewAttempt(w.config, uuid, now, looping);
    Effect(doc, if a.now < a.expires then Inserting(a) else Failed, Some(uuid), None, None, false)
  }

  function TryInsert(w: Worker, doc: Doc, a: Attempt, otherwise: Phase): Effect {
    if doc.None?
    then Effect(Insert(doc, PendingRecord(w, a)), Executing(a.res, false), None, Some(a.res), None, false)
    else Quiet(doc, otherwise)
  }

  /** The next atomic step of a worker: one database operation and the local
      code up to the next one. */
  function WorkerStep(w: Worker, doc: Doc, input: Input): Effect {
    match w.phase
    case Starting => Quiet(doc, Looking(input.now))
    case Looking(now) =>
      (match Visible(doc, now)
       case None => BeginReserve(w, doc, now, false, input.uuid)
       case Some(r) =>
         if r.Completed? then Quiet(doc, Replay(w, r))
         else if r.request != w.request then Quiet(doc, Failed)
         else Quiet(doc, Waiting(r.leaseUntil)))
    case Inserting(a) => TryInsert(w, doc, a, Probing(a))
    case Probing(a) =>
      (match Visible(doc, a.now)
       case None => Quiet(doc, Sweeping(a))
       case Some(r) => Quiet(doc, Judge(w, a, r)))
    case Sweeping(a) =>
      Quiet(Sweep(doc, a.now),
            if doc.Some? && Stale(doc.value, a.now) then Reinserting(a) else Failed)
    case Reinserting(a) => TryInsert(w, doc, a, Reprobing(a))
    case Reprobing(a) =>
      (match Visible(doc, a.now)
       case None => Quiet(doc, Failed)
       case Some(r) => Quiet(doc, Judge(w, a, r)))
    case Stealing(a, seen) =>
      if Stealable(doc, seen.reservation, a.now)
      then Effect(Steal(doc, seen.reservation, a.res, a.lease, a.now), Executing(a.res, false),
                  None, Some(a.res), None, false)
      else Quiet(doc, Rechecking(a))
    case Rechecking(a) =>
      (match Visible(doc, a.now)
       case None => Quiet(doc, Failed)
       case Some(r) => Quiet(doc, if r.Completed? then Replay(w, r) else NotOurs(a, r)))
    case Executing(res, leaseLost) =>
      if input.renew then
        if leaseLost then Quiet(doc, w.phase)
        else
          var lease := input.now + w.config.lease;
          Quiet(Renew(doc, res, lease, input.now),
                Executing(res, input.lost || !Renewable(doc, res, lease, input.now)))
      else
        Effect(doc,
               if input.outcome.None? || leaseLost then Releasing(res) else Completing(res, input.outcome.value),
               None, None, input.outcome, false)
    case Completing(res, response) =>
      var ok := Completable(doc, res, input.now);
      Effect(Complete(doc, res, response, input.now), if ok then Replied(response) else Failed,
             None, None, None, ok)
    case Releasing(res) => Quiet(Release(doc, res), Failed)
    case Waiting(deadline) =>
      if deadline < input.now then BeginReserve(w, doc, input.now, true, input.uuid)
      else Quiet(doc, Polling(input.now, deadline))
    case Polling(now, deadline) =>
      (match Visible(doc, now)
       case None => Quiet(doc, Waiting(deadline))
       case Some(r) => Quiet(doc, if r.Completed? then Replay(w, r) else Waiting(deadline)))
    case Replied(_) => Quiet(doc, w.phase)
    case Failed => Quiet(doc, w.phase)
  }

  predicate Finished(w: Worker) {
    w.phase.Replied? || w.phase.Failed?
  }

  // A lost acknowledgement lets the write happen and still fails the caller;
  // while executing, it only fails the renewal.
  function PhaseAfter(w: Worker, e: Effect, lost: bool): Phase {
    if lost && !w.phase.Executing? then Failed else e.phase
  }

  function Max(x: Time, y: Time): Time {
    if x < y then y else x
  }

  function Commit(s: Sys, id: int, input: Input, e: Effect): Sys
    requires id in s.workers
  {
    var w := s.workers[id];
    Sys(e.doc,
        s.workers[id := w.(phase := PhaseAfter(w, e, input.lost))],
        if e.issues.Some? then s.issued[e.issues.value := id] else s.issued,
        if e.installs.Some? then s.installed + {e.installs.value} else s.installed,
        if e.executes.Some? then s.executed + {(w.request, e.executes.value)} else s.executed,
        if e.completes && e.doc.Some? then s.completions + [e.doc.value] else s.completions,
        Max(s.clock, input.now))
  }

  function Step(s: Sys, l: Label): Sys {
    match l
    case Spawn(id, request, config) =>
      if id in s.workers then s
      else s.(workers := s.workers[id := Worker(request, config, Starting)])
    case Act(id, input) =>
      if id !in s.workers || Finished(s.workers[id]) then s
      else
        var e := WorkerStep(s.workers[id], s.doc, input);
        // Reservation ids are UUIDs: a drawn one was never drawn before.
        if e.issues.Some? && e.issues.value in s.issued then s else Commit(s, id, input, e)
    case Crash(id) =>
      if id !in s.workers || Finished(s.workers[id]) then s
      else s.(workers := s.workers[id := s.workers[id].(phase := Failed)])
    case RecoverAt(now) => s.(doc := Recover(s.doc, now), clock := Max(s.clock, now))
    case ExpireAt(now) => s.(doc := ExpireByIndex(s.doc, now), clock := Max(s.clock, now))
  }

  function Initial(clock: Time): Sys {
    Sys(None, map[], map[], {}, {}, [], clock)
  }

  function Exec(s: Sys, labels: seq<Label>): Sys {
    if labels == [] then s else Step(Exec(s, labels[..|labels| - 1]), labels[|labels| - 1])
  }

  // ---- The invariant ----

  // The reservation on `r` was drawn, and used, by a worker asking for r's own request.
  ghost predicate Attributed(s: Sys, r: Record) {
    && r.reservation in s.issued
    && r.reservation in s.installed
    && s.issued[r.reservation] in s.workers
    && s.workers[s.issued[r.reservation]].request == r.request
  }

  // Some stored completion answers `request` with `response`.
  ghost predicate Backed(s: Sys, request: Request, response: Bytes) {
    exists i :: 0 <= i < |s.completions|
                && s.completions[i].Completed?
                && s.completions[i].request == request && s.completions[i].response == response
  }

  ghost predicate AttemptInv(s: Sys, id: int, a: Attempt) {
    a.res in s.issued && s.issued[a.res] == id && a.res !in s.installed && a.now <= s.clock
  }

  ghost predicate OwnerInv(s: Sys, id: int, res: string) {
    res in s.issued && s.issued[res] == id && res in s.installed
  }

  ghost predicate PhaseInv(s: Sys, id: int, request: Request, p: Phase) {
    match p
    case Starting => true
    case Looking(now) => now <= s.clock
    case Inserting(a) => AttemptInv(s, id, a)
    case Probing(a) => AttemptInv(s, id, a)
    case Sweeping(a) => AttemptInv(s, id, a)
    case Reinserting(a) => AttemptInv(s, id, a)
    case Reprobing(a) => AttemptInv(s, id, a)
    case Stealing(a, seen) =>
      AttemptInv(s, id, a) && seen.Pending? && seen.request == request && Attributed(s, seen)
    case Rechecking(a) => AttemptInv(s, id, a)
    case Executing(res, _) => OwnerInv(s, id, res)
    case Completing(res, response) => OwnerInv(s, id, res) && (request, response) in s.executed
    case Releasing(res) => OwnerInv(s, id, res)
    case Waiting(_) => true
    case Polling(now, _) => now <= s.clock
    case Replied(response) => Backed(s, request, response)
    case Failed => true
  }

  ghost predicate WorkersInv(s: Sys) {
    && (forall id :: id in s.workers ==> PhaseInv(s, id, s.workers[id].request, s.workers[id].phase))
    && (forall res :: res in s.issued ==> s.issued[res] in s.workers)
    && (forall res :: res in s.installed ==> res in s.issued)
  }

  ghost predicate DocInv(s: Sys) {
    s.doc.Some? ==>
      && Attributed(s, s.doc.value)
      && (s.doc.value.Completed? ==>
            s.completions != [] && s.doc.value == s.completions[|s.completions| - 1])
  }

  // Each completed record came from an execution of its own request; a completion that is no
  // longer the stored document has seen some clock reach its expiry.
  ghost predicate HistoryInv(s: Sys) {
    && (forall i :: 0 <= i < |s.completions| ==>
          s.completions[i].Completed? && (s.completions[i].request, s.completions[i].response) in s.executed)
    && (forall i :: 0 <= i < |s.completions| && (i < |s.completions| - 1 || s.doc != Some(s.completions[i])) ==>
          s.completions[i].expiresAt <= s.clock)
  }

  ghost predicate Inv(s: Sys) {
    WorkersInv(s) && DocInv(s) && HistoryInv(s)
  }

  // `t` remembers everything `s` did: what phases rely on survives.
  ghost predicate Remembers(s: Sys, t: Sys) {
    && (forall id :: id in s.workers ==> id in t.workers && t.workers[id].request == s.workers[id].request)
    && (forall res :: res in s.issued ==> res in t.issued && t.issued[res] == s.issued[res])
    && s.installed <= t.installed
    && s.executed <= t.executed
    && s.completions <= t.completions
    && s.clock <= t.clock
  }

  lemma StepRemembers(s: Sys, l: Label)
    ensures Remembers(s, Step(s, l))
  {
  }

  lemma BackedPersists(s: Sys, t: Sys, request: Request, response: Bytes)
    requires Remembers(s, t) && Backed(s, request, response)
    ensures Backed(t, request, response)
  {
    var i :| 0 <= i < |s.completions|
             && s.completions[i].Completed?
             && s.completions[i].request == request && s.completions[i].response == response;
    assert t.completions[i] == s.completions[i];
  }

  // A worker that did not move keeps its phase's facts, as long as no id it is about to use was installed.
  lemma PhasePersists(s: Sys, t: Sys, id: int, request: Request, p: Phase)
    requires Remembers(s, t) && PhaseInv(s, id, request, p)
    requires forall res :: res in t.installed && res !in s.installed ==> res in t.issued && t.issued[res] != id
    ensures PhaseInv(t, id, request, p)
  {
    if p.Replied? {
      BackedPersists(s, t, request, p.response);
    }
  }

  predicate Attempting(p: Phase) {
    p.Inserting? || p.Probing? || p.Sweeping? || p.Reinserting? || p.Reprobing? || p.Stealing? || p.Rechecking?
  }

  ghost predicate SameAttempt(w: Worker, e: Effect, a: Attempt) {
    e.installs.None? && e.issues.None? && Attempting(w.phase) && w.phase.a == a
  }

  ghost predicate SameOwner(w: Worker, e: Effect, res: string) {
    && e.issues.None?
    && ((w.phase.Executing? && w.phase.res == res)
        || (e.installs == Some(res) && Attempting(w.phase) && w.phase.a.res == res))
  }

  // Where the next phase's data comes from, before the step is committed.
  ghost predicate PhaseSource(w: Worker, doc: Doc, input: Input, e: Effect) {
    match e.phase
    case Starting => false
    case Looking(now) => now == input.now
    case Inserting(a) =>
      && e.installs.None? && e.issues == Some(a.res)
      && ((w.phase.Looking? && a.now == w.phase.now) || a.now == input.now)
    case Probing(a) => SameAttempt(w, e, a)
    case Sweeping(a) => SameAttempt(w, e, a)
    case Reinserting(a) => SameAttempt(w, e, a)
    case Reprobing(a) => SameAttempt(w, e, a)
    case Stealing(a, seen) =>
      SameAttempt(w, e, a) && doc == Some(seen) && seen.Pending? && seen.request == w.request
    case Rechecking(a) => SameAttempt(w, e, a)
    case Executing(res, _) => SameOwner(w, e, res)
    case Completing(res, response) => SameOwner(w, e, res) && e.executes == Some(response)
    case Releasing(res) => SameOwner(w, e, res)
    case Waiting(_) => true
    case Polling(now, _) => now == input.now || (exists a :: SameAttempt(w, e, a) && now == a.now)
    case Replied(response) =>
      || (e.completes && e.doc.Some? && e.doc.value.Completed? && doc.Some? && Holds(doc, e.doc.value.reservation)
          && w.phase.Completing? && w.phase.res == e.doc.value.reservation
          && e.doc.value.response == response && e.doc.value.request == doc.value.request)
      || (!e.completes && doc.Some? && doc.value.Completed?
          && doc.value.request == w.request && doc.value.response == response)
    case Failed => true
  }

  lemma PhaseHasSource(w: Worker, doc: Doc, input: Input)
    requires !Finished(w)
    ensures PhaseSource(w, doc, input, WorkerStep(w, doc, input))
  {
    var e := WorkerStep(w, doc, input);
    if e.phase.Polling? && !w.phase.Waiting? {
      assert SameAttempt(w, e, w.phase.a);
    }
  }

  // Only the holder's request can sit on the document.
  lemma HolderRequest(s: Sys, id: int)
    requires Inv(s) && id in s.workers && s.doc.Some?
    requires OwnerInv(s, id, s.doc.value.reservation)
    ensures s.doc.value.request == s.workers[id].request
  {
  }

  lemma ActorKeepsPhase(s: Sys, id: int, input: Input, e: Effect)
    requires Inv(s) && id in s.workers
    requires PhaseSource(s.workers[id], s.doc, input, e)
    requires e.issues.Some? ==> e.issues.value !in s.issued
    ensures var t := Commit(s, id, input, e);
            PhaseInv(t, id, t.workers[id].request, t.workers[id].phase)
  {
    var w := s.workers[id];
    var t := Commit(s, id, input, e);
    assert PhaseInv(s, id, w.request, w.phase);
    if e.phase.Replied? && t.workers[id].phase == e.phase {
      var n := |t.completions|;
      if e.completes {
        HolderRequest(s, id);
      }
      assert n > 0 && t.completions[n - 1].Completed? && t.completions[n - 1].request == w.request
             && t.completions[n - 1].response == e.phase.response;
    }
  }

  // How one worker action can change the document.
  ghost predicate DocMove(w: Worker, doc: Doc, input: Input, e: Effect) {
    || (e.doc == doc && e.installs.None? && !e.completes)
    || (e.installs.Some? && !e.completes && e.doc.Some? && e.doc.value.Pending?
        && e.doc.value.reservation == e.installs.value
        && ((doc.None? && e.doc.value.request == w.request && (w.phase.Inserting? || w.phase.Reinserting?))
            || (w.phase.Stealing? && Holds(doc, w.phase.seen.reservation)
                && e.doc.value.request == doc.value.request))
        && e.installs.value == w.phase.a.res)
    || (e.installs.None? && !e.completes && e.doc.None?
        && doc.Some? && (doc.value.Pending? || (w.phase.Sweeping? && doc.value.expiresAt <= w.phase.a.now)))
    || (e.installs.None? && !e.completes && e.doc.Some? && doc.Some? && doc.value.Pending? && e.doc.value.Pending?
        && e.doc.value.request == doc.value.request && e.doc.value.reservation == doc.value.reservation)
    || (e.installs.None? && e.completes && w.phase.Completing? && Holds(doc, w.phase.res)
        && e.doc == Some(Completed(doc.value.request, w.phase.res, w.phase.response, doc.value.expiresAt)))
  }

  lemma DocMoves(w: Worker, doc: Doc, input: Input)
    ensures DocMove(w, doc, input, WorkerStep(w, doc, input))
    ensures var e := WorkerStep(w, doc, input); e.issues.Some? ==> e.installs.None?
  {
  }

  lemma CommitRemembers(s: Sys, id: int, input: Input, e: Effect)
    requires id in s.workers
    requires e.issues.Some? ==> e.issues.value !in s.issued
    ensures Remembers(s, Commit(s, id, input, e))
  {
  }

  lemma CommitKeepsWorkers(s: Sys, id: int, input: Input, e: Effect)
    requires Inv(s) && id in s.workers
    requires PhaseSource(s.workers[id], s.doc, input, e)
    requires DocMove(s.workers[id], s.doc, input, e)
    requires e.issues.Some? ==> e.issues.value !in s.issued && e.installs.None?
    ensures WorkersInv(Commit(s, id, input, e))
  {
    var t := Commit(s, id, input, e);
    CommitRemembers(s, id, input, e);
    ActorKeepsPhase(s, id, input, e);
    assert PhaseInv(s, id, s.workers[id].request, s.workers[id].phase);
    forall k | k in t.workers ensures PhaseInv(t, k, t.workers[k].request, t.workers[k].phase) {
      if k != id {
        PhasePersists(s, t, k, s.workers[k].request, s.workers[k].phase);
      }
    }
  }

  lemma CommitKeepsDoc(s: Sys, id: int, input: Input, e: Effect)
    requires Inv(s) && id in s.workers
    requires DocMove(s.workers[id], s.doc, input, e)
    requires e.issues.Some? ==> e.installs.None? && e.issues.value !in s.issued
    ensures DocInv(Commit(s, id, input, e))
    ensures HistoryInv(Commit(s, id, input, e))
  {
    var w := s.workers[id];
    var t := Commit(s, id, input, e);
    assert PhaseInv(s, id, w.request, w.phase);
    if e.completes {
      HolderRequest(s, id);
    }
  }

  lemma ActKeepsInv(s: Sys, id: int, input: Input)
    requires Inv(s) && id in s.workers && !Finished(s.workers[id])
    requires var e := WorkerStep(s.workers[id], s.doc, input);
             !(e.issues.Some? && e.issues.value in s.issued)
    ensures Inv(Commit(s, id, input, WorkerStep(s.workers[id], s.doc, input)))
  {
    var e := WorkerStep(s.workers[id], s.doc, input);
    PhaseHasSource(s.workers[id], s.doc, input);
    DocMoves(s.workers[id], s.doc, input);
    CommitKeepsWorkers(s, id, input, e);
    CommitKeepsDoc(s, id, input, e);
  }

  lemma StepKeepsInv(s: Sys, l: Label)
    requires Inv(s)
    ensures Inv(Step(s, l))
  {
    var t := Step(s, l);
    if l.Act? {
      if t != s {
        ActKeepsInv(s, l.id, l.input);
      }
    } else {
      StepRemembers(s, l);
      forall k | k in t.workers ensures PhaseInv(t, k, t.workers[k].request, t.workers[k].phase) {
        if k in s.workers && s.workers[k] == t.workers[k] {
          PhasePersists(s, t, k, s.workers[k].request, s.workers[k].phase);
        }
      }
    }
  }

  lemma {:induction false} RunKeepsInv(clock: Time, labels: seq<Label>)
    ensures Inv(Exec(Initial(clock), labels))
  {
    if labels != [] {
      RunKeepsInv(clock, labels[..|labels| - 1]);
      StepKeepsInv(Exec(Initial(clock), labels[..|labels| - 1]), labels[|labels| - 1]);
    }
  }

  // ---- Agreement ----

  /** Every successful reply, in every run, repeats bytes that some execution of
      the same operation and request hash returned, and that were stored. */
  lemma RepliesAreExecuted(clock: Time, labels: seq<Label>, id: int)
    requires id in Exec(Initial(clock), labels).workers
    requires Exec(Initial(clock), labels).workers[id].phase.Replied?
    ensures var s := Exec(Initial(clock), labels);
            var w := s.workers[id];
            (w.request, w.phase.response) in s.executed && Backed(s, w.request, w.phase.response)
  {
    RunKeepsInv(clock, labels);
    var s := Exec(Initial(clock), labels);
    assert PhaseInv(s, id, s.workers[id].request, s.workers[id].phase);
  }

  lemma FirstHasLapsed(s: Sys)
    requires HistoryInv(s) && |s.completions| > 1
    ensures s.completions[0].expiresAt <= s.clock
  {
  }

  /** Agreement: while no clock has reached the expiry of a completed record,
      there is at most one completion and all successful replies, to any number
      of workers, carry its bytes and ask for its request. */
  lemma RepliesAgree(clock: Time, labels: seq<Label>)
    requires var s := Exec(Initial(clock), labels);
             forall i :: 0 <= i < |s.completions| ==> s.clock < s.completions[i].expiresAt
    ensures var s := Exec(Initial(clock), labels);
            && |s.completions| <= 1
            && (|s.completions| == 1 ==> s.doc == Some(s.completions[0]))
            && forall id :: id in s.workers && s.workers[id].phase.Replied? ==>
                 && |s.completions| == 1 && s.completions[0].Completed?
                 && s.workers[id].request == s.completions[0].request
                 && s.workers[id].phase.response == s.completions[0].response
  {
    RunKeepsInv(clock, labels);
    var s := Exec(Initial(clock), labels);
    if |s.completions| > 1 {
      FirstHasLapsed(s);
    }
    forall id | id in s.workers && s.workers[id].phase.Replied?
      ensures |s.completions| == 1 && s.completions[0].Completed?
              && s.workers[id].request == s.completions[0].request
              && s.workers[id].phase.response == s.completions[0].response
    {
      assert PhaseInv(s, id, s.workers[id].request, s.workers[id].phase);
    }
  }

  // The clock a label acts by: the reading the worker took before its current database operation.
  function Reading(s: Sys, l: Label): Time {
    match l
    case Spawn(_, _, _) => s.clock
    case Crash(_) => s.clock
    case RecoverAt(now) => now
    case ExpireAt(now) => now
    case Act(id, input) =>
      if id !in s.workers then input.now
      else
        var p := s.workers[id].phase;
        if Attempting(p) then p.a.now
        else if p.Looking? || p.Polling? then p.now
        else input.now
  }

  // ---- Fencing ----

  /** The stored record always asks for exactly what the worker that holds its
      reservation asks for. */
  lemma HolderAsksForTheRecord(clock: Time, labels: seq<Label>)
    requires Exec(Initial(clock), labels).doc.Some?
    ensures var s := Exec(Initial(clock), labels);
            && s.doc.value.reservation in s.issued
            && s.issued[s.doc.value.reservation] in s.workers
            && s.workers[s.issued[s.doc.value.reservation]].request == s.doc.value.request
  {
    RunKeepsInv(clock, labels);
  }

  // A reservation that was stored and no longer holds the document.
  ghost predicate Displaced(s: Sys, res: string) {
    res in s.installed && !Holds(s.doc, res)
  }

  lemma StepKeepsDisplaced(s: Sys, l: Label, res: string)
    requires Inv(s) && Displaced(s, res)
    ensures Displaced(Step(s, l), res)
  {
    if l.Act? && Step(s, l) != s {
      DocMoves(s.workers[l.id], s.doc, l.input);
      assert PhaseInv(s, l.id, s.workers[l.id].request, s.workers[l.id].phase);
      MoveKeepsDisplaced(s, l.id, l.input, WorkerStep(s.workers[l.id], s.doc, l.input), res);
    }
  }

  lemma MoveKeepsDisplaced(s: Sys, id: int, input: Input, e: Effect, res: string)
    requires Inv(s) && Displaced(s, res) && id in s.workers
    requires DocMove(s.workers[id], s.doc, input, e)
    ensures Displaced(Commit(s, id, input, e), res)
  {
    assert PhaseInv(s, id, s.workers[id].request, s.workers[id].phase);
  }

  lemma {:induction false} ExecKeepsInv(s: Sys, more: seq<Label>)
    requires Inv(s)
    ensures Inv(Exec(s, more))
  {
    if more != [] {
      ExecKeepsInv(s, more[..|more| - 1]);
      StepKeepsInv(Exec(s, more[..|more| - 1]), more[|more| - 1]);
    }
  }

  /** A displaced reservation stays displaced whatever runs next: its holder can
      never again complete, renew or release the record. */
  lemma {:induction false} DisplacedForever(s: Sys, more: seq<Label>, res: string)
    requires Inv(s) && Displaced(s, res)
    ensures var t := Exec(s, more);
            && Displaced(t, res)
            && (forall response, now :: Complete(t.doc, res, response, now) == t.doc)
            && (forall lease, now :: Renew(t.doc, res, lease, now) == t.doc)
            && Release(t.doc, res) == t.doc
    decreases |more|
  {
    if more != [] {
      DisplacedForever(s, more[..|more| - 1], res);
      ExecKeepsInv(s, more[..|more| - 1]);
      StepKeepsDisplaced(Exec(s, more[..|more| - 1]), more[|more| - 1], res);
    }
  }

  /** Nobody but its holder changes a pending record while the clock they act by
      is before the lease end and the expiry. */
  lemma LeaseProtectsHolder(s: Sys, l: Label)
    requires Inv(s) && s.doc.Some? && s.doc.value.Pending?
    requires Reading(s, l) < s.doc.value.leaseUntil && Reading(s, l) < s.doc.value.expiresAt
    requires l.Act? ==> l.id != s.issued[s.doc.value.reservation]
    ensures Step(s, l).doc == s.doc
  {
    if l.Act? && l.id in s.workers {
      assert PhaseInv(s, l.id, s.workers[l.id].request, s.workers[l.id].phase);
    }
  }

  /** Nobody at all changes a completed record before its expiry. */
  lemma CompletedIsStable(s: Sys, l: Label)
    requires s.doc.Some? && s.doc.value.Completed?
    requires Reading(s, l) < s.doc.value.expiresAt
    ensures Step(s, l).doc == s.doc
  {
  }

  // A step that does anything acts by a reading the clock has seen.
  lemma ReadingIsSeen(s: Sys, l: Label)
    requires Inv(s) && Step(s, l) != s
    ensures Reading(s, l) <= Step(s, l).clock
  {
    if l.Act? {
      assert PhaseInv(s, l.id, s.workers[l.id].request, s.workers[l.id].phase);
    }
  }

  /** Over whole runs: while no clock reaches the lease end or the expiry and the
      holder does not move, the pending record stays, whatever all others do. */
  lemma {:induction false} LeaseHolds(s: Sys, more: seq<Label>, holder: int)
    requires Inv(s) && s.doc.Some? && s.doc.value.Pending? && s.issued[s.doc.value.reservation] == holder
    requires forall l :: l in more && l.Act? ==> l.id != holder
    requires Exec(s, more).clock < s.doc.value.leaseUntil && Exec(s, more).clock < s.doc.value.expiresAt
    ensures var t := Exec(s, more);
            t.doc == s.doc && s.doc.value.reservation in t.issued && t.issued[s.doc.value.reservation] == holder
    decreases |more|
  {
    if more != [] {
      var n := |more| - 1;
      var t, l := Exec(s, more[..n]), more[n];
      StepRemembers(t, l);
      LeaseHolds(s, more[..n], holder);
      ExecKeepsInv(s, more[..n]);
      if Step(t, l) != t {
        ReadingIsSeen(t, l);
        LeaseProtectsHolder(t, l);
      }
    }
  }

  /** Over whole runs: a completed record stays until some clock reaches its expiry. */
  lemma {:induction false} CompletedStays(s: Sys, more: seq<Label>)
    requires Inv(s) && s.doc.Some? && s.doc.value.Completed?
    requires Exec(s, more).clock < s.doc.value.expiresAt
    ensures Exec(s, more).doc == s.doc
    decreases |more|
  {
    if more != [] {
      var n := |more| - 1;
      var t, l := Exec(s, more[..n]), more[n];
      StepRemembers(t, l);
      CompletedStays(s, more[..n]);
      ExecKeepsInv(s, more[..n]);
      if Step(t, l) != t {
        ReadingIsSeen(t, l);
        CompletedIsStable(t, l);
      }
    }
  }

  // ---- Reserve alone ----

  // A worker running its Reserve with nobody else moving.
  function Solo(w: Worker, doc: Doc, input: Input, steps: nat): (Worker, Doc)
    decreases steps
  {
    if steps == 0 || !Attempting(w.phase) then (w, doc)
    else
      var e := WorkerStep(w, doc, input);
      Solo(w.(phase := e.phase), e.doc, input, steps - 1)
  }

  /** Four steps decide Reserve when nobody interferes, and decide it as the
      repository's own Reserve does. */
  lemma SoloReserve(w: Worker, doc: Doc, input: Input)
    requires w.phase.Inserting?
    ensures var a := w.phase.a;
            var v := ReserveAlone(doc, PendingRecord(w, a), a.now);
            var end := Solo(w, doc, input, 4);
            && end.1 == DocAfterReserve(doc, v)
            && end.0.phase ==
               match v
               case Owned(_) => Executing(a.res, false)
               case NotOwned(r) => if r.Completed? then Replied(r.response) else NotOurs(a, r)
               case _ => Failed
  {
    var e1 := WorkerStep(w, doc, input);
    var w1 := w.(phase := e1.phase);
    assert Solo(w, doc, input, 4) == Solo(w1, e1.doc, input, 3);
    var e2 := WorkerStep(w1, e1.doc, input);
    var w2 := w1.(phase := e2.phase);
    if Attempting(w1.phase) {
      assert Solo(w1, e1.doc, input, 3) == Solo(w2, e2.doc, input, 2);
      var e3 := WorkerStep(w2, e2.doc, input);
      var w3 := w2.(phase := e3.phase);
      if Attempting(w2.phase) {
        assert Solo(w2, e2.doc, input, 2) == Solo(w3, e3.doc, input, 1);
      }
    }
  }

  // ---- Agreement ends exactly at the expiry ----

  // Worker `id` gets its reply in the course of `more`.
  ghost predicate RepliesIn(s: Sys, more: seq<Label>, id: int) {
    && id in Exec(s, more).workers && Exec(s, more).workers[id].phase.Replied?
    && !(id in s.workers && s.workers[id].phase.Replied?)
  }

  // While the document is a completed record, a worker can only be told what it says.
  lemma StepRepliesFromRecord(s: Sys, l: Label, r: Record, id: int)
    requires s.doc == Some(r) && r.Completed? && Reading(s, l) < r.expiresAt
    requires id in Step(s, l).workers && Step(s, l).workers[id].phase.Replied?
    requires !(id in s.workers && s.workers[id].phase.Replied?)
    ensures Step(s, l).workers[id].phase.response == r.response && Step(s, l).workers[id].request == r.request
  {
  }

  /** From any reachable state with a completed record, everybody who gets a reply
      before a clock reaches its expiry asks for its request and gets its bytes. */
  lemma {:induction false} RepliesRepeatTheRecord(s: Sys, more: seq<Label>, r: Record, id: int)
    requires Inv(s) && s.doc == Some(r) && r.Completed? && Exec(s, more).clock < r.expiresAt
    requires RepliesIn(s, more, id)
    ensures Exec(s, more).workers[id].phase.response == r.response && Exec(s, more).workers[id].request == r.request
    decreases |more|
  {
    if more != [] {
      var n := |more| - 1;
      var t, l := Exec(s, more[..n]), more[n];
      StepRemembers(t, l);
      CompletedStays(s, more[..n]);
      ExecKeepsInv(s, more[..n]);
      if id in t.workers && t.workers[id].phase.Replied? {
        RepliesRepeatTheRecord(s, more[..n], r, id);
        RepliedStays(t, l, id);
      } else {
        ReadingIsSeen(t, l);
        StepRepliesFromRecord(t, l, r, id);
      }
    }
  }

  lemma RepliedStays(s: Sys, l: Label, id: int)
    requires id in s.workers && s.workers[id].phase.Replied?
    ensures id in Step(s, l).workers && Step(s, l).workers[id] == s.workers[id]
  {
  }

  lemma Extend(s: Sys, labels: seq<Label>, l: Label) returns (more: seq<Label>)
    ensures more == labels + [l] && Exec(s, more) == Step(Exec(s, labels), l)
  {
    more := labels + [l];
    assert more[..|labels|] == labels;
  }

  function At(now: Time, uuid: string, outcome: Option<Bytes>): Input {
    Input(now, uuid, false, outcome, false)
  }

  // One action of a worker that was not there in `s`.
  lemma NewcomerMoves(s: Sys, t: Sys, id: int, w: Worker, input: Input)
    requires t.workers == s.workers[id := w] && !Finished(w) && !input.lost
    requires var e := WorkerStep(w, t.doc, input); e.issues.Some? ==> e.issues.value !in t.issued
    ensures var e, u := WorkerStep(w, t.doc, input), Step(t, Act(id, input));
            && u.doc == e.doc && u.workers == s.workers[id := w.(phase := e.phase)]
            && u.clock == Max(t.clock, input.now) && (e.issues.None? ==> u.issued == t.issued)
            && u.completions == if e.completes && e.doc.Some? then t.completions + [e.doc.value] else t.completions
  {
  }

  // With no document, a newcomer reserves at time `e`...
  lemma NewcomerReserves(s: Sys, labels: seq<Label>, e: Time, id: int, request: Request, config: Config, res: string)
    returns (more: seq<Label>)
    requires var t := Exec(s, labels); t.doc.None? && t.workers == s.workers && t.clock >= e && res !in t.issued
    requires id !in s.workers && 0 < config.ttl
    ensures var t := Exec(s, more);
            && t.doc == Some(Pending(request, res, e + config.lease, e + config.ttl))
            && t.workers == s.workers[id := Worker(request, config, Executing(res, false))]
            && t.clock == Exec(s, labels).clock && t.completions == Exec(s, labels).completions
  {
    var w := Worker(request, config, Starting);
    more := Extend(s, labels, Spawn(id, request, config));
    NewcomerMoves(s, Exec(s, more), id, w, At(e, "", None));
    more := Extend(s, more, Act(id, At(e, "", None)));
    NewcomerMoves(s, Exec(s, more), id, w.(phase := Looking(e)), At(e, res, None));
    more := Extend(s, more, Act(id, At(e, res, None)));
    var a := NewAttempt(config, res, e, false);
    NewcomerMoves(s, Exec(s, more), id, w.(phase := Inserting(a)), At(e, "", None));
    more := Extend(s, more, Act(id, At(e, "", None)));
  }

  // ... and, having reserved, executes and completes.
  lemma HolderAnswers(s: Sys, labels: seq<Label>, e: Time, id: int, w: Worker, res: string, answer: Bytes)
    returns (more: seq<Label>)
    requires var t := Exec(s, labels);
             && t.doc.Some? && Completable(t.doc, res, e) && t.clock >= e
             && t.workers == s.workers[id := w] && w.phase == Executing(res, false)
    ensures var t, u := Exec(s, labels), Exec(s, more);
            && u.doc == Some(Completed(t.doc.value.request, res, answer, t.doc.value.expiresAt))
            && u.workers == s.workers[id := w.(phase := Replied(answer))]
            && u.clock == t.clock && u.completions == t.completions + [u.doc.value]
  {
    NewcomerMoves(s, Exec(s, labels), id, w, At(e, "", Some(answer)));
    more := Extend(s, labels, Act(id, At(e, "", Some(answer))));
    NewcomerMoves(s, Exec(s, more), id, w.(phase := Completing(res, answer)), At(e, "", None));
    more := Extend(s, more, Act(id, At(e, "", None)));
  }

  /** Once some clock reads an expiry that has come, the record protects nothing:
      from any state, any newcomer with any request and any positive time to live
      can execute and be answered whatever its execution returns. */
  lemma ExpiryAllowsASecondAnswer(s: Sys, e: Time, id: int, request: Request, config: Config, res: string,
                                  answer: Bytes)
    returns (more: seq<Label>)
    requires s.doc.Some? ==> s.doc.value.expiresAt <= e
    requires id !in s.workers && res !in s.issued && 0 < config.ttl
    ensures var t := Exec(s, more);
            && t.workers == s.workers[id := Worker(request, config, Replied(answer))]
            && t.doc == Some(Completed(request, res, answer, e + config.ttl))
            && t.completions == s.completions + [t.doc.value] && t.clock == Max(s.clock, e)
  {
    more := Extend(s, [], ExpireAt(e));
    more := NewcomerReserves(s, more, e, id, request, config, res);
    more := HolderAnswers(s, more, e, id, Worker(request, config, Executing(res, false)), res, answer);
  }

  // Until a clock passes `bound`, everybody who gets a reply gets r's bytes.
  ghost predicate AgreesUntil(s: Sys, r: Record, bound: Time)
    requires r.Completed?
  {
    forall more, id :: RepliesIn(s, more, id) && Exec(s, more).clock <= bound ==>
      Exec(s, more).workers[id].phase.response == r.response
  }

  /** The expiry is the exact bound of agreement: from every reachable state with a
      completed record that has not lapsed, all replies up to a given clock reading
      repeat the record if and only if the reading is before its expiry. */
  lemma AgreementEndsAtExpiry(s: Sys, r: Record, bound: Time)
    requires Inv(s) && s.doc == Some(r) && r.Completed? && s.clock <= r.expiresAt
    ensures AgreesUntil(s, r, bound) <==> bound < r.expiresAt
  {
    if bound < r.expiresAt {
      forall more, id | RepliesIn(s, more, id) && Exec(s, more).clock <= bound
        ensures Exec(s, more).workers[id].phase.response == r.response
      {
        RepliesRepeatTheRecord(s, more, r, id);
      }
    } else {
      var id := Naming.NewNumber(s.workers.Keys);
      var res := Naming.NewName(s.issued.Keys);
      var other := r.response + "!";
      var more := ExpiryAllowsASecondAnswer(s, r.expiresAt, id, r.request, Config(0, 1), res, other);
      assert RepliesIn(s, more, id);
    }
  }
}
