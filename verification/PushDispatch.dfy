/**
  Dispatchers at work on the push outbox (app/push_notifications.py,
  `dispatch_pending_pushes`, `_post_with_claim_heartbeat`, `delivery_guard`,
  `revoke_all_push_devices`): any number of them, in any interleaving with
  registrations, revocations, pruning and crashes.

  The delivery guard is one lock.  What APNs answers, and whether a message can
  be prepared at all, are choices of the environment.
*/
module PushDispatch {
  import opened Results
  import Outbox = PushOutbox

  datatype Answer = Delivered | InvalidToken | Refused(retry: bool) | Broken

  /** A claimed row as the dispatcher read it. */
  datatype Message = Message(id: nat, token: string)

  datatype Phase =
    | Ready                                  // about to renew what is left
    | Checked                                // the first message is still its own
    | Locked                                 // holds the guard
    | Fenced                                 // has renewed under the guard
    | Posting(sent: Message)                 // the request is under way, under the guard
    | Answered(sent: Message, answer: Answer)
    | Removing(sent: Message)                // the token was invalid and the row has failed

  datatype Worker = Worker(owner: string, rest: seq<Message>, phase: Phase)

  /** `owners` are all claim owners ever used, `posts` all requests ever begun,
      `delivered` the claims whose request was answered with success. */
  datatype System = System(
    t: Outbox.Tables, workers: map<nat, Worker>, guard: Option<nat>, owners: set<string>,
    posts: seq<Message>, delivered: set<(nat, string)>)

  const EMPTY := System(Outbox.Tables(map[], map[], 1), map[], None, {}, [], {})

  datatype Event =
    | Other(op: Outbox.Op)                   // registration, expiry, enqueueing, pruning
    | Revoke(op: Outbox.Op)                  // one device or all, under the guard
    | Claim(w: nat, owner: string, ids: seq<nat>, lease: int, now: Outbox.Time)
    | Renew(w: nat, lease: int, now: Outbox.Time)
    | Abandon(w: nat, retry: bool, delay: int, failure: string, maxAttempts: int, now: Outbox.Time)
    | Lock(w: nat)
    | Fence(w: nat, lease: int, now: Outbox.Time)
    | Start(w: nat, failure: string, now: Outbox.Time)
    | Heartbeat(w: nat, lease: int, now: Outbox.Time)
    | Reply(w: nat, answer: Answer)
    | Settle(w: nat, delay: int, failure: string, maxAttempts: int, now: Outbox.Time)
    | RemoveDevice(w: nat)
    | Crash(w: nat)

  // ---------- the steps ----------

  function MessagesOf(t: Outbox.Tables, ids: seq<nat>): (r: seq<Message>)
    ensures |r| == |ids| && forall i :: 0 <= i < |r| ==> r[i].id == ids[i]
  {
    seq(|ids|, i requires 0 <= i < |ids| => Message(ids[i], if ids[i] in t.rows then t.rows[ids[i]].token else ""))
  }

  function IdsOf(messages: seq<Message>): set<nat> {
    set m | m in messages :: m.id
  }

  predicate Owned(t: Outbox.Tables, id: nat, owner: string) {
    id in t.rows && Outbox.Owns(t.rows[id], owner)
  }

  predicate Registered(t: Outbox.Tables, token: string, now: Outbox.Time) {
    token in t.devices && t.devices[token].expiresAt > now
  }

  function Skip(worker: Worker): Worker
    requires worker.rest != []
  {
    Worker(worker.owner, worker.rest[1..], Ready)
  }

  predicate Holding(p: Phase) {
    p.Locked? || p.Fenced? || p.Posting?
  }

  predicate At(s: System, w: nat, head: bool) {
    w in s.workers && (head ==> s.workers[w].rest != [])
  }

  /** The database operation of an event. */
  function OpOf(s: System, e: Event): Option<Outbox.Op> {
    match e
    case Other(op) => Some(op)
    case Revoke(op) => Some(op)
    case Claim(w, owner, ids, lease, now) => Some(Outbox.ClaimDue(owner, ids, lease, now))
    case Renew(w, lease, now) =>
      if At(s, w, true) then Some(Outbox.Renew(s.workers[w].owner, IdsOf(s.workers[w].rest), lease, now)) else None
    case Abandon(w, retry, delay, failure, maxAttempts, now) =>
      if At(s, w, true) then Some(Outbox.Finish(s.workers[w].owner, s.workers[w].rest[0].id, false, retry, delay, failure, maxAttempts, now))
      else None
    case Fence(w, lease, now) =>
      if At(s, w, true) then Some(Outbox.Renew(s.workers[w].owner, {s.workers[w].rest[0].id}, lease, now)) else None
    case Start(w, failure, now) =>
      if At(s, w, true) && !Registered(s.t, s.workers[w].rest[0].token, now)
      then Some(Outbox.Finish(s.workers[w].owner, s.workers[w].rest[0].id, false, false, 1, failure, 1, now))
      else None
    case Heartbeat(w, lease, now) =>
      if At(s, w, false) && s.workers[w].phase.Posting?
      then Some(Outbox.Renew(s.workers[w].owner, {s.workers[w].phase.sent.id}, lease, now)) else None
    case Settle(w, delay, failure, maxAttempts, now) =>
      if At(s, w, false) && s.workers[w].phase.Answered? then
        var a := s.workers[w].phase.answer;
        Some(Outbox.Finish(s.workers[w].owner, s.workers[w].phase.sent.id, a.Delivered?, a.Broken? || (a.Refused? && a.retry),
                           delay, failure, maxAttempts, now))
      else None
    case RemoveDevice(w) =>
      if At(s, w, false) && s.workers[w].phase.Removing?
      then Some(Outbox.DeleteDevice(s.workers[w].phase.sent.token, Some(s.workers[w].owner))) else None
    case _ => None
  }

  ghost predicate Allowed(s: System, e: Event) {
    && (OpOf(s, e).Some? ==> Outbox.Allowed(s.t, OpOf(s, e).value))
    && match e
       case Other(op) => op.RegisterDevice? || op.PruneDevices? || op.Enqueue? || op.PruneRows?
       case Revoke(op) => s.guard.None? && (op.RevokeAll? || (op.DeleteDevice? && op.claimant.None?))
       case Claim(w, owner, ids, _, _) => w !in s.workers && owner !in s.owners
       case Renew(w, _, _) => At(s, w, true) && s.workers[w].phase.Ready?
       case Abandon(w, _, _, _, _, _) => At(s, w, true) && s.workers[w].phase.Checked?
       case Lock(w) => At(s, w, true) && s.workers[w].phase.Checked? && s.guard.None?
       case Fence(w, _, _) => At(s, w, true) && s.workers[w].phase.Locked?
       case Start(w, _, _) => At(s, w, true) && s.workers[w].phase.Fenced?
       case Heartbeat(w, _, _) => At(s, w, false) && s.workers[w].phase.Posting?
       case Reply(w, _) => At(s, w, false) && s.workers[w].phase.Posting?
       case Settle(w, _, _, _, _) => At(s, w, false) && s.workers[w].phase.Answered?
       case RemoveDevice(w) => At(s, w, false) && s.workers[w].phase.Removing?
       case Crash(w) => w in s.workers
  }

  function Tables(s: System, e: Event): Outbox.Tables {
    var op := OpOf(s, e);
    if op.Some? then Outbox.Apply(s.t, op.value) else s.t
  }

  /** What becomes of the dispatcher that acts; None when it is gone. */
  function Moved(s: System, e: Event, worker: Worker): Option<Worker> {
    match e
    case Renew(_, _, _) =>
      if worker.rest == [] then Some(worker)
      else if Owned(s.t, worker.rest[0].id, worker.owner) then Some(worker.(phase := Checked)) else Some(Skip(worker))
    case Abandon(_, _, _, _, _, _) => Some(if worker.rest == [] then worker else Skip(worker))
    case Lock(_) => Some(worker.(phase := Locked))
    case Fence(_, _, _) =>
      if worker.rest == [] then Some(worker)
      else if Owned(s.t, worker.rest[0].id, worker.owner) then Some(worker.(phase := Fenced)) else Some(Skip(worker))
    case Start(_, _, now) =>
      if worker.rest == [] then Some(worker)
      else if Registered(s.t, worker.rest[0].token, now) then Some(Worker(worker.owner, worker.rest[1..], Posting(worker.rest[0])))
      else Some(Skip(worker))
    case Heartbeat(_, _, _) =>
      if worker.phase.Posting? && !Owned(s.t, worker.phase.sent.id, worker.owner)
      then Some(worker.(phase := Answered(worker.phase.sent, Broken))) else Some(worker)
    case Reply(_, answer) => Some(if worker.phase.Posting? then worker.(phase := Answered(worker.phase.sent, answer)) else worker)
    case Settle(_, _, _, _, _) =>
      if worker.phase.Answered? && worker.phase.answer.InvalidToken? && Owned(s.t, worker.phase.sent.id, worker.owner)
      then Some(worker.(phase := Removing(worker.phase.sent))) else Some(worker.(phase := Ready))
    case RemoveDevice(_) => Some(worker.(phase := Ready))
    case Crash(_) => None
    case _ => Some(worker)
  }

  function Actor(e: Event): Option<nat> {
    match e
    case Other(_) => None
    case Revoke(_) => None
    case Claim(_, _, _, _, _) => None
    case _ => Some(e.w)
  }

  function Workers(s: System, e: Event): map<nat, Worker> {
    match e
    case Claim(w, owner, ids, _, _) => s.workers[w := Worker(owner, MessagesOf(s.t, ids), Ready)]
    case _ =>
      if Actor(e).None? || Actor(e).value !in s.workers then s.workers
      else
        var w := Actor(e).value;
        var moved := Moved(s, e, s.workers[w]);
        if moved.Some? then s.workers[w := moved.value] else s.workers - {w}
  }

  /** The guard is taken by locking, and given up when the dispatcher leaves the guarded part. */
  function GuardAfter(s: System, e: Event): Option<nat> {
    if e.Lock? then Some(e.w)
    else if Actor(e).Some? && s.guard == Actor(e) && !(Actor(e).value in Workers(s, e) && Holding(Workers(s, e)[Actor(e).value].phase))
    then None else s.guard
  }

  predicate Begins(s: System, e: Event) {
    e.Start? && At(s, e.w, true) && Registered(s.t, s.workers[e.w].rest[0].token, e.now)
  }

  function Apply(s: System, e: Event): System {
    System(Tables(s, e), Workers(s, e), GuardAfter(s, e),
           if e.Claim? then s.owners + {e.owner} else s.owners,
           if Begins(s, e) then s.posts + [s.workers[e.w].rest[0]] else s.posts,
           if e.Reply? && e.answer.Delivered? && At(s, e.w, false) && s.workers[e.w].phase.Posting?
           then s.delivered + {(s.workers[e.w].phase.sent.id, s.workers[e.w].owner)} else s.delivered)
  }

  ghost function After(events: seq<Event>): Option<System> {
    if events == [] then Some(EMPTY)
    else
      var s, e := After(events[..|events| - 1]), events[|events| - 1];
      if s.Some? && Allowed(s.value, e) then Some(Apply(s.value, e)) else None
  }

  // ---------- one request at a time ----------

  ghost predicate Guarded(s: System) {
    && (forall w :: w in s.workers ==> (Holding(s.workers[w].phase) <==> s.guard == Some(w)))
    && (s.guard.Some? ==> s.guard.value in s.workers)
  }

  lemma StepGuarded(s: System, e: Event)
    requires Guarded(s) && Allowed(s, e)
    ensures Guarded(Apply(s, e))
  {
    hide Tables, OpOf, Owned, Registered, MessagesOf;
  }

  /** In every reachable state at most one dispatcher is between fence and answer,
      and it holds the guard. */
  lemma {:induction false} RunGuarded(events: seq<Event>)
    requires After(events).Some?
    ensures Guarded(After(events).value)
  {
    if events != [] {
      hide Apply, Allowed, Guarded;
      RunGuarded(events[..|events| - 1]);
      StepGuarded(After(events[..|events| - 1]).value, events[|events| - 1]);
    } else {
      assert Guarded(EMPTY);
    }
  }

  /** While a revocation is made no request is under way. */
  lemma RevocationFindsNothingInFlight(events: seq<Event>, e: Event)
    requires After(events).Some? && Allowed(After(events).value, e) && e.Revoke?
    ensures forall w :: w in After(events).value.workers ==> !After(events).value.workers[w].phase.Posting?
  {
    RunGuarded(events);
  }

  // ---------- revoked devices ----------

  /** The event revokes the device. */
  predicate Revokes(e: Event, token: string) {
    e.Revoke? && (e.op.RevokeAll? || (e.op.DeleteDevice? && e.op.token == token))
  }

  predicate Registers(e: Event, token: string) {
    e.Other? && e.op.RegisterDevice? && e.op.token == token
  }

  lemma StaysUnregistered(s: System, e: Event, token: string)
    requires Allowed(s, e) && !Registers(e, token) && (token !in s.t.devices || Revokes(e, token))
    ensures token !in Apply(s, e).t.devices
  {
    hide Workers, GuardAfter, Owned, Outbox.Allowed;
    hide Outbox.Touched, Outbox.Removed, Outbox.Inserted;
  }

  ghost predicate NoRegistration(events: seq<Event>, i: nat, token: string) {
    forall k :: i < k < |events| ==> !Registers(events[k], token)
  }

  lemma {:induction false} RevokedStaysGone(events: seq<Event>, i: nat, token: string)
    requires i < |events| && After(events).Some? && Revokes(events[i], token) && NoRegistration(events, i, token)
    ensures token !in After(events).value.t.devices
  {
    hide Apply, Allowed, Revokes, Registers;
    var before, e := events[..|events| - 1], events[|events| - 1];
    var s := After(before).value;
    if i == |events| - 1 {
      assert !Registers(e, token) by { RevokeIsNoRegistration(e, token); }
      StaysUnregistered(s, e, token);
    } else {
      assert before[i] == events[i];
      assert NoRegistration(before, i, token) by { assert forall k :: i < k < |before| ==> before[k] == events[k]; }
      RevokedStaysGone(before, i, token);
      StaysUnregistered(s, e, token);
    }
  }

  lemma RevokeIsNoRegistration(e: Event, token: string)
    requires Revokes(e, token)
    ensures !Registers(e, token)
  {
  }

  /** After a device has been revoked no request to it begins before it is registered
      again, from whatever claims and checks were made before. */
  lemma RevokedIsSilent(events: seq<Event>, i: nat, e: Event, token: string)
    requires i < |events| && After(events).Some? && Revokes(events[i], token) && NoRegistration(events, i, token)
    requires Allowed(After(events).value, e)
    ensures Begins(After(events).value, e) ==> After(events).value.workers[e.w].rest[0].token != token
  {
    hide Allowed, Revokes;
    RevokedStaysGone(events, i, token);
    hide After;
  }

  // ---------- sent means delivered ----------

  ghost predicate Backed(s: System) {
    && (forall id :: id in s.t.rows && s.t.rows[id].status == Outbox.Sent ==> exists owner :: (id, owner) in s.delivered)
    && (forall w :: w in s.workers && s.workers[w].phase.Answered? && s.workers[w].phase.answer.Delivered? ==>
          (s.workers[w].phase.sent.id, s.workers[w].owner) in s.delivered)
  }

  /** Only settling a delivered answer makes a row sent. */
  lemma SentBy(s: System, e: Event, id: nat)
    requires Outbox.Inv(s.t) && Allowed(s, e) && id in Tables(s, e).rows && Tables(s, e).rows[id].status == Outbox.Sent
    ensures (id in s.t.rows && s.t.rows[id].status == Outbox.Sent)
         || (e.Settle? && s.workers[e.w].phase.answer.Delivered? && s.workers[e.w].phase.sent.id == id)
  {
    hide Workers, GuardAfter, Owned, Registered;
    if OpOf(s, e).Some? {
      var op := OpOf(s, e).value;
      hide Outbox.Inv, Outbox.Apply, Outbox.Allowed;
      if id in s.t.rows {
        Outbox.StepOnRow(s.t, op, id);
        TouchedSent(s.t, op, id);
      } else {
        Outbox.StepNewRow(s.t, op, id);
      }
    }
  }

  lemma TouchedSent(t: Outbox.Tables, op: Outbox.Op, id: nat)
    requires id in t.rows && Outbox.Touched(t, op, id).status == Outbox.Sent
    ensures t.rows[id].status == Outbox.Sent || (op.Finish? && op.sent && op.id == id)
  {
  }

  lemma StepBacked(s: System, e: Event)
    requires Outbox.Inv(s.t) && Backed(s) && Allowed(s, e)
    ensures Backed(Apply(s, e))
  {
    hide Tables, OpOf, Owned, Registered, GuardAfter, MessagesOf, Outbox.Inv, Outbox.Allowed;
    var next := Apply(s, e);
    forall id | id in next.t.rows && next.t.rows[id].status == Outbox.Sent ensures exists owner :: (id, owner) in next.delivered {
      SentBy(s, e, id);
      if id in s.t.rows && s.t.rows[id].status == Outbox.Sent {
        var owner :| (id, owner) in s.delivered;
        assert (id, owner) in next.delivered;
      } else {
        assert (id, s.workers[e.w].owner) in next.delivered;
      }
    }
  }

  lemma StepTables(s: System, e: Event)
    requires Outbox.Inv(s.t) && Allowed(s, e)
    ensures Outbox.Inv(Apply(s, e).t)
  {
    hide Outbox.Inv, Outbox.Apply, Outbox.Allowed, Workers, GuardAfter, OpOf;
    if OpOf(s, e).Some? { Outbox.StepInv(s.t, OpOf(s, e).value); }
  }

  lemma {:induction false} RunTables(events: seq<Event>)
    requires After(events).Some?
    ensures Outbox.Inv(After(events).value.t)
  {
    if events != [] {
      hide Apply, Allowed, Outbox.Inv;
      RunTables(events[..|events| - 1]);
      StepTables(After(events[..|events| - 1]).value, events[|events| - 1]);
    } else {
      assert Outbox.Inv(EMPTY.t);
    }
  }

  /** In every reachable state each sent row was delivered: a request of a claim
      of that row was answered with success. */
  lemma {:induction false} SentWasDelivered(events: seq<Event>)
    requires After(events).Some?
    ensures Backed(After(events).value)
  {
    if events != [] {
      hide Apply, Allowed, Outbox.Inv, Backed;
      RunTables(events[..|events| - 1]);
      SentWasDelivered(events[..|events| - 1]);
      StepBacked(After(events[..|events| - 1]).value, events[|events| - 1]);
    } else {
      assert Backed(EMPTY);
    }
  }

  // ---------- one request per claim ----------

  predicate Pending(worker: Worker, id: nat) {
    exists i :: 0 <= i < |worker.rest| && worker.rest[i].id == id
  }

  /** The dispatchers that still may post the row. */
  function Waiting(workers: map<nat, Worker>, id: nat): set<nat> {
    set w | w in workers && Pending(workers[w], id)
  }

  function Posts(posts: seq<Message>, id: nat): nat {
    if posts == [] then 0 else Posts(posts[..|posts| - 1], id) + if posts[|posts| - 1].id == id then 1 else 0
  }

  ghost predicate Once(worker: Worker) {
    forall i, j :: 0 <= i < j < |worker.rest| ==> worker.rest[i].id != worker.rest[j].id
  }

  /** Requests begun and requests still possible for a row are at most its attempts. */
  ghost predicate Within(s: System, id: nat) {
    && (id in s.t.rows ==> Posts(s.posts, id) + |Waiting(s.workers, id)| <= s.t.rows[id].attempts)
    && (id >= s.t.nextId ==> Posts(s.posts, id) == 0 && Waiting(s.workers, id) == {})
  }

  ghost predicate AllOnce(s: System) {
    forall w :: w in s.workers ==> Once(s.workers[w])
  }

  lemma TailOnce(worker: Worker, id: nat)
    requires Once(worker) && worker.rest != []
    ensures var tail := worker.rest[1..];
            && Once(worker.(rest := tail))
            && (Pending(worker.(rest := tail), id) <==> Pending(worker, id) && worker.rest[0].id != id)
  {
    var tail := worker.(rest := worker.rest[1..]);
    if Pending(worker, id) && worker.rest[0].id != id {
      var i :| 0 <= i < |worker.rest| && worker.rest[i].id == id;
      assert tail.rest[i - 1] == worker.rest[i];
    }
    if Pending(tail, id) {
      var i :| 0 <= i < |tail.rest| && tail.rest[i].id == id;
      assert worker.rest[i + 1] == tail.rest[i];
    }
  }

  /** A dispatcher's move leaves its list, or takes the first message off it. */
  lemma MovedRest(s: System, e: Event, worker: Worker)
    requires Moved(s, e, worker).Some?
    ensures var moved := Moved(s, e, worker).value;
            && moved.owner == worker.owner
            && (moved.rest == worker.rest || (worker.rest != [] && moved.rest == worker.rest[1..] && (e.Start? || e.Renew? || e.Abandon? || e.Fence?)))
  {
    hide Owned, Registered;
  }

  lemma PendingRest(a: Worker, b: Worker, id: nat)
    requires a.rest == b.rest
    ensures (Pending(a, id) <==> Pending(b, id)) && (Once(a) <==> Once(b))
  {
  }

  /** Without a claim the waiting dispatchers only get fewer. */
  lemma WaitingShrinks(s: System, e: Event, id: nat)
    requires AllOnce(s) && Allowed(s, e) && !e.Claim?
    ensures Waiting(Workers(s, e), id) <= Waiting(s.workers, id)
  {
    hide Tables, OpOf, Moved, Registered, Outbox.Allowed, Pending;
    if Actor(e).Some? && Actor(e).value in s.workers {
      var w := Actor(e).value;
      var worker, moved := s.workers[w], Moved(s, e, s.workers[w]);
      if moved.Some? {
        MovedRest(s, e, worker);
        if worker.rest != [] { TailOnce(worker, id); }
        if moved.value.rest == worker.rest { PendingRest(moved.value, worker, id); }
        else { PendingRest(moved.value, worker.(rest := worker.rest[1..]), id); }
      }
    }
  }

  /** A dispatcher that begins a request no longer waits for that row. */
  lemma BeginLeaves(s: System, e: Event)
    requires AllOnce(s) && Begins(s, e)
    ensures var id := s.workers[e.w].rest[0].id; e.w in Waiting(s.workers, id) && e.w !in Waiting(Workers(s, e), id)
  {
    hide Moved, Registered, Pending;
    var worker := s.workers[e.w];
    var id := worker.rest[0].id;
    BeginsMoves(s, e);
    HeadPending(worker);
    TailOnce(worker, id);
    var moved := Moved(s, e, worker).value;
    PendingRest(moved, worker.(rest := worker.rest[1..]), id);
    assert Workers(s, e)[e.w] == moved;
  }

  lemma BeginsMoves(s: System, e: Event)
    requires Begins(s, e)
    ensures Moved(s, e, s.workers[e.w]).Some? && Moved(s, e, s.workers[e.w]).value.rest == s.workers[e.w].rest[1..]
    ensures s.workers[e.w].rest[1..] != s.workers[e.w].rest
  {
    hide Registered;
    assert |s.workers[e.w].rest[1..]| < |s.workers[e.w].rest|;
  }

  lemma HeadPending(worker: Worker)
    requires worker.rest != []
    ensures Pending(worker, worker.rest[0].id)
  {
  }

  lemma StepOnce(s: System, e: Event)
    requires AllOnce(s) && Allowed(s, e)
    ensures AllOnce(Apply(s, e))
  {
    hide Tables, OpOf, Moved, GuardAfter, Begins, Outbox.Allowed, Once;
    if e.Claim? {
      ClaimedOnce(s, e);
    } else if Actor(e).Some? && Actor(e).value in s.workers {
      var worker, moved := s.workers[Actor(e).value], Moved(s, e, s.workers[Actor(e).value]);
      if moved.Some? {
        MovedRest(s, e, worker);
        if worker.rest != [] { TailOnce(worker, 0); PendingRest(moved.value, worker.(rest := moved.value.rest), 0); }
        PendingRest(moved.value, worker.(rest := moved.value.rest), 0);
        assert worker.(rest := worker.rest) == worker;
      }
    }
  }

  lemma ClaimedOnce(s: System, e: Event)
    requires e.Claim? && Allowed(s, e)
    ensures Once(Worker(e.owner, MessagesOf(s.t, e.ids), Ready))
  {
    assert Outbox.Allowed(s.t, Outbox.ClaimDue(e.owner, e.ids, e.lease, e.now));
    var limit :| Outbox.FirstDue(s.t, e.ids, limit, e.now);
    assert forall i, j :: 0 <= i < j < |e.ids| ==> Outbox.Earlier(s.t.rows, e.ids[i], e.ids[j]);
  }

  /** A claim adds itself to the waiting dispatchers of exactly the rows it takes. */
  lemma ClaimWaits(s: System, e: Event, id: nat)
    requires e.Claim? && Allowed(s, e)
    ensures Waiting(Workers(s, e), id) == Waiting(s.workers, id) + if id in e.ids then {e.w} else {}
    ensures e.w !in Waiting(s.workers, id)
  {
    hide OpOf, Outbox.Allowed;
    var worker := Worker(e.owner, MessagesOf(s.t, e.ids), Ready);
    if id in e.ids {
      var i :| 0 <= i < |e.ids| && e.ids[i] == id;
      assert worker.rest[i].id == id;
    }
    assert Pending(worker, id) <==> id in e.ids;
    hide Pending;
  }

  lemma OpAttempts(s: System, e: Event, id: nat)
    requires Outbox.Inv(s.t) && Allowed(s, e)
    ensures Tables(s, e).nextId >= s.t.nextId
    ensures id in s.t.rows && id in Tables(s, e).rows ==>
              Tables(s, e).rows[id].attempts == s.t.rows[id].attempts + if e.Claim? && id in e.ids then 1 else 0
    ensures e.Claim? && id in e.ids ==> id in s.t.rows
    ensures id in s.t.rows ==> id < s.t.nextId
    ensures id !in s.t.rows && id in Tables(s, e).rows ==> id >= s.t.nextId && !e.Claim? && !e.Start?
  {
    hide Outbox.Apply, Outbox.Allowed, Outbox.Inv, Owned, Registered, Workers, GuardAfter;
    if OpOf(s, e).Some? {
      var op := OpOf(s, e).value;
      Outbox.TouchesKnown(s.t, op, id);
      if id in s.t.rows {
        Outbox.StepOnRow(s.t, op, id);
        Outbox.TouchedCounts(s.t, op, id);
      } else if id in Tables(s, e).rows {
        Outbox.StepNewRow(s.t, op, id);
      }
    } else if id in s.t.rows {
      assert id < s.t.nextId by { KnownId(s.t, id); }
    }
  }

  lemma KnownId(t: Outbox.Tables, id: nat)
    requires Outbox.Inv(t) && id in t.rows
    ensures id < t.nextId
  {
  }

  lemma OnePostMore(posts: seq<Message>, m: Message, id: nat)
    ensures Posts(posts + [m], id) == Posts(posts, id) + if m.id == id then 1 else 0
  {
    assert (posts + [m])[..|posts|] == posts;
  }

  lemma StepWithin(s: System, e: Event, id: nat)
    requires Outbox.Inv(s.t) && AllOnce(s) && Within(s, id) && Allowed(s, e)
    ensures Within(Apply(s, e), id)
  {
    hide Outbox.Inv, Tables, OpOf, Workers, GuardAfter, Waiting, Posts, AllOnce;
    OpAttempts(s, e, id);
    if e.Claim? {
      ClaimWaits(s, e, id);
    } else {
      WaitingShrinks(s, e, id);
      Fewer(Waiting(Workers(s, e), id), Waiting(s.workers, id));
      if Begins(s, e) {
        OnePostMore(s.posts, s.workers[e.w].rest[0], id);
        BeginLeaves(s, e);
        if s.workers[e.w].rest[0].id == id { OneFewer(Waiting(Workers(s, e), id), Waiting(s.workers, id), e.w); }
      }
    }
  }

  lemma Fewer(a: set<nat>, b: set<nat>)
    requires a <= b
    ensures |a| <= |b|
  {
    assert b == a + (b - a);
  }

  lemma OneFewer(a: set<nat>, b: set<nat>, w: nat)
    requires a <= b && w in b && w !in a
    ensures |a| < |b|
  {
    Fewer(a, b - {w});
  }

  lemma {:induction false} RunOnce(events: seq<Event>)
    requires After(events).Some?
    ensures AllOnce(After(events).value)
  {
    if events != [] {
      hide Apply, Allowed, AllOnce;
      RunOnce(events[..|events| - 1]);
      StepOnce(After(events[..|events| - 1]).value, events[|events| - 1]);
    } else {
      assert AllOnce(EMPTY);
    }
  }

  /** However dispatchers overlap, lose leases and crash, a message is posted at most
      once per claim: requests never outnumber the row's attempts. */
  lemma {:induction false} OnePostPerClaim(events: seq<Event>, id: nat)
    requires After(events).Some?
    ensures Within(After(events).value, id)
  {
    if events != [] {
      hide Apply, Allowed, AllOnce, Outbox.Inv, Within;
      var before := events[..|events| - 1];
      OnePostPerClaim(before, id);
      RunOnce(before);
      RunTables(before);
      StepWithin(After(before).value, events[|events| - 1], id);
    } else {
      assert Within(EMPTY, id);
    }
  }

  // ---------- dispatchers are users of the outbox ----------

  /** The database operations of the events, in order. */
  ghost function OpsOf(events: seq<Event>): seq<Outbox.Op>
    requires After(events).Some?
  {
    if events == [] then []
    else
      var op := OpOf(After(events[..|events| - 1]).value, events[|events| - 1]);
      OpsOf(events[..|events| - 1]) + if op.Some? then [op.value] else []
  }

  /** What the dispatchers do to the tables is a run of the outbox, so everything that holds
      of all its runs holds of theirs. */
  lemma {:induction false} DispatchIsOutboxRun(events: seq<Event>)
    requires After(events).Some?
    ensures Outbox.After(OpsOf(events)) == Some(After(events).value.t)
  {
    hide Outbox.Apply, Outbox.Allowed, OpOf, Workers, GuardAfter, Begins;
    if events != [] {
      var before, e := events[..|events| - 1], events[|events| - 1];
      DispatchIsOutboxRun(before);
      var op := OpOf(After(before).value, e);
      if op.Some? {
        assert OpsOf(events)[..|OpsOf(events)| - 1] == OpsOf(before);
      } else {
        assert OpsOf(events) == OpsOf(before);
      }
    } else {
      assert Outbox.After([]) == Some(Outbox.Tables(map[], map[], 1));
    }
  }

  // ---------- what each step of a dispatcher decides ----------

  /** The row is being sent under the dispatcher's claim. */
  predicate Mine(s: System, w: nat, id: nat) {
    w in s.workers && id in s.t.rows && s.t.rows[id].status == Outbox.Sending && s.t.rows[id].owner == s.workers[w].owner
  }

  /** Renewing, before the guard and under it: a message still its own is held for the lease
      and goes on, any other is dropped and its row left alone. */
  lemma RenewsExactly(s: System, e: Event)
    requires Outbox.Inv(s.t) && Allowed(s, e) && (e.Renew? || e.Fence?)
    ensures var worker, next := s.workers[e.w], Apply(s, e);
            var id := worker.rest[0].id;
            if Mine(s, e.w, id) then
              && next.workers == s.workers[e.w := worker.(phase := if e.Fence? then Fenced else Checked)]
              && Mine(next, e.w, id) && next.t.rows[id].leaseUntil == e.now + Outbox.Clamp(10, e.lease, 300) as real
            else
              && next.workers == s.workers[e.w := Worker(worker.owner, worker.rest[1..], Ready)]
              && (id in s.t.rows ==> id in next.t.rows && next.t.rows[id] == s.t.rows[id])
  {
    var id, op := s.workers[e.w].rest[0].id, OpOf(s, e).value;
    hide GuardAfter, Outbox.Allowed, Begins;
    if id in s.t.rows { Outbox.StepOnRow(s.t, op, id); }
    assert id in IdsOf(s.workers[e.w].rest);
  }

  /** Under the guard a request begins exactly when the device is registered and has not
      expired; otherwise the row is given up for good, if it is still its own. */
  lemma StartsExactly(s: System, e: Event)
    requires Outbox.Inv(s.t) && Allowed(s, e) && e.Start?
    ensures var worker, next := s.workers[e.w], Apply(s, e);
            var m := worker.rest[0];
            if m.token in s.t.devices && e.now < s.t.devices[m.token].expiresAt then
              && next.workers == s.workers[e.w := Worker(worker.owner, worker.rest[1..], Posting(m))]
              && next.posts == s.posts + [m] && next.t == s.t
            else
              && next.workers == s.workers[e.w := Worker(worker.owner, worker.rest[1..], Ready)] && next.posts == s.posts
              && (Mine(s, e.w, m.id) ==> m.id in next.t.rows && next.t.rows[m.id].status == Outbox.Failed)
  {
    var m := s.workers[e.w].rest[0];
    hide GuardAfter, Outbox.Allowed, Outbox.Inv;
    if OpOf(s, e).Some? && m.id in s.t.rows {
      Outbox.FinishNeedsOwner(s.t, OpOf(s, e).value, m.id);
      Outbox.StepOnRow(s.t, OpOf(s, e).value, m.id);
    }
  }

  /** A heartbeat during the request extends the lease, or gives the request up as broken when
      the row is no longer its own. */
  lemma BeatsExactly(s: System, e: Event)
    requires Outbox.Inv(s.t) && Allowed(s, e) && e.Heartbeat?
    ensures var worker, next := s.workers[e.w], Apply(s, e);
            var m := worker.phase.sent;
            if Mine(s, e.w, m.id) then
              && next.workers == s.workers && Mine(next, e.w, m.id)
              && next.t.rows[m.id].leaseUntil == e.now + Outbox.Clamp(10, e.lease, 300) as real
            else
              && next.workers == s.workers[e.w := worker.(phase := Answered(m, Broken))]
              && (m.id in s.t.rows ==> m.id in next.t.rows && next.t.rows[m.id] == s.t.rows[m.id])
  {
    var id, op := s.workers[e.w].phase.sent.id, OpOf(s, e).value;
    hide GuardAfter, Outbox.Allowed, Begins;
    if id in s.t.rows { Outbox.StepOnRow(s.t, op, id); }
  }

  /** The answer decides the row that is still its own: delivered means sent; an invalid token
      fails it, and the device goes next; a refusal to retry or a broken request leaves it
      waiting while the device is registered, attempts are left and it has not expired; any
      other refusal fails it. */
  lemma SettlesExactly(s: System, e: Event)
    requires Outbox.Inv(s.t) && Allowed(s, e) && e.Settle?
    ensures var worker, next := s.workers[e.w], Apply(s, e);
            var m, answer := worker.phase.sent, worker.phase.answer;
            var again := answer.Broken? || (answer.Refused? && answer.retry);
            if Mine(s, e.w, m.id) then
              && m.id in next.t.rows
              && var was, r := s.t.rows[m.id], next.t.rows[m.id];
                 && (r.status == Outbox.Sent <==> answer.Delivered?)
                 && (r.status == Outbox.Pending <==> && again && r.token in s.t.devices && e.now < r.expiresAt
                                                     && (was.attempts < e.maxAttempts || (was.attempts < 1 && e.maxAttempts < 1)))
                 && r.status != Outbox.Sending
                 && next.workers == s.workers[e.w := worker.(phase := if answer.InvalidToken? then Removing(m) else Ready)]
            else
              && next.workers == s.workers[e.w := worker.(phase := Ready)]
              && (m.id in s.t.rows ==> m.id in next.t.rows && next.t.rows[m.id] == s.t.rows[m.id])
  {
    var m, op := s.workers[e.w].phase.sent, OpOf(s, e).value;
    hide GuardAfter, Outbox.Allowed, Outbox.Inv, Begins;
    if m.id in s.t.rows {
      Outbox.FinishNeedsOwner(s.t, op, m.id);
      Outbox.StepOnRow(s.t, op, m.id);
    }
  }

  /** Removing the invalid device deletes its registration and its rows, except those that
      other dispatchers are sending. */
  lemma RemovesExactly(s: System, e: Event, id: nat)
    requires Outbox.Inv(s.t) && Allowed(s, e) && e.RemoveDevice? && id in s.t.rows
    ensures var worker, next, r := s.workers[e.w], Apply(s, e), s.t.rows[id];
            && next.workers == s.workers[e.w := worker.(phase := Ready)]
            && next.t.devices.Keys == s.t.devices.Keys - {worker.phase.sent.token}
            && (id in next.t.rows <==> r.token != worker.phase.sent.token || (r.status == Outbox.Sending && r.owner != worker.owner))
  {
    hide GuardAfter, Outbox.Allowed, Begins;
    Outbox.StepOnRow(s.t, OpOf(s, e).value, id);
  }
}
