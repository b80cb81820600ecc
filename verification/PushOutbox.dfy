/**
  The push outbox and its device table (app/db.py, `push_device_*` and `push_outbox_*`).

  Each method of `Database` runs in one transaction, so a run is a sequence of
  whole operations.  `Apply` says what an operation does to the tables; the class
  `PushOutbox` performs it statement by statement.  The theorems are about every
  sequence of operations `After` accepts, that is about every interleaving of
  dispatchers, registrations and pruning, with any clock readings.
*/
module PushOutbox {
  import opened Results
  import Text

  type Time = real

  datatype Status = Pending | Sending | Sent | Failed

  datatype Row = Row(
    key: string, token: string, status: Status, attempts: nat,
    nextAttemptAt: Time, expiresAt: Time, leaseUntil: Time, owner: string,
    error: Option<string>, updatedAt: Time, sentAt: Option<Time>)

  datatype Device = Device(updatedAt: Time, expiresAt: Time)

  datatype Tables = Tables(rows: map<nat, Row>, devices: map<string, Device>, nextId: nat)

  datatype Op =
    | RegisterDevice(token: string, deviceLease: int, now: Time)
    | DeleteDevice(token: string, claimant: Option<string>)
    | RevokeAll
    | PruneDevices(now: Time)
    | Enqueue(key: string, targets: seq<string>, retention: int, now: Time)
    | ClaimDue(owner: string, ids: seq<nat>, lease: int, now: Time)
    | Renew(owner: string, renewed: set<nat>, lease: int, now: Time)
    | Finish(owner: string, id: nat, sent: bool, retry: bool, delay: int, failure: string, maxAttempts: int, now: Time)
    | PruneRows(days: int, now: Time)

  const EXPIRED := "Benachrichtigung abgelaufen"
  const UNREGISTERED := "Push-Gerät nicht mehr registriert"

  function Clamp(low: int, x: int, high: int): (r: int)
    requires low <= high
    ensures low <= r <= high && (low <= x <= high ==> r == x) && (x < low ==> r == low) && (x > high ==> r == high)
  {
    if x < low then low else if x > high then high else x
  }

  function AtLeast(low: int, x: int): (r: int)
    ensures r >= low && r >= x && r in {low, x}
  {
    if x < low then low else x
  }

  function Clipped(text: string, most: nat): (r: string)
    ensures r <= text && |r| <= most && (|r| < most ==> r == text)
  {
    if |text| > most then text[..most] else text
  }

  // ---------- what each operation does to one row ----------

  /** A row that gives up; an earlier error text stays. */
  function GiveUp(r: Row, reason: string, now: Time): Row {
    r.(status := Failed, leaseUntil := 0.0, owner := "", updatedAt := now,
       error := if r.error.Some? then r.error else Some(reason))
  }

  /** The sweep before a claim: overdue messages and unregistered devices fail, run-out leases reopen. */
  function Swept(r: Row, registered: bool, now: Time): Row {
    if r.status in {Sent, Failed} then r
    else if r.expiresAt <= now then GiveUp(r, EXPIRED, now)
    else if r.status == Sending && r.leaseUntil > now then r
    else
      var open := if r.status == Sending then r.(status := Pending, leaseUntil := 0.0, owner := "", updatedAt := now) else r;
      if registered then open else GiveUp(open, UNREGISTERED, now)
  }

  /** The three updates of the sweep, in their order. */
  function Reopened(r: Row, now: Time): Row {
    if r.status == Sending && r.leaseUntil <= now && r.expiresAt > now
    then r.(status := Pending, leaseUntil := 0.0, owner := "", updatedAt := now) else r
  }

  function Overdue(r: Row, now: Time): Row {
    if r.status in {Pending, Sending} && r.expiresAt <= now then GiveUp(r, EXPIRED, now) else r
  }

  function Orphaned(r: Row, registered: bool, now: Time): Row {
    if r.status == Pending && !registered then GiveUp(r, UNREGISTERED, now) else r
  }

  lemma SweptInOrder(r: Row, registered: bool, now: Time)
    ensures Orphaned(Overdue(Reopened(r, now), now), registered, now) == Swept(r, registered, now)
    ensures Overdue(Reopened(r, now), now).token == r.token
  {
  }

  lemma SweepIsSwept(before: map<nat, Row>, devices: map<string, Device>, now: Time,
                     reopened: map<nat, Row>, overdue: map<nat, Row>, orphaned: map<nat, Row>)
    requires reopened == map id | id in before :: Reopened(before[id], now)
    requires overdue == map id | id in reopened :: Overdue(reopened[id], now)
    requires orphaned == map id | id in overdue :: Orphaned(overdue[id], overdue[id].token in devices, now)
    ensures orphaned == map id | id in before :: Swept(before[id], before[id].token in devices, now)
  {
    hide Swept, Reopened, Overdue, Orphaned;
    forall id | id in before ensures orphaned[id] == Swept(before[id], before[id].token in devices, now) {
      SweptInOrder(before[id], before[id].token in devices, now);
    }
  }

  predicate Due(r: Row, registered: bool, now: Time) {
    var s := Swept(r, registered, now);
    s.status == Pending && s.nextAttemptAt <= now
  }

  function Claimed(r: Row, owner: string, lease: int, now: Time): Row {
    r.(status := Sending, attempts := r.attempts + 1, owner := owner, updatedAt := now,
       leaseUntil := now + Clamp(10, lease, 300) as real)
  }

  function Renewed(r: Row, lease: int, now: Time): Row {
    r.(leaseUntil := now + Clamp(10, lease, 300) as real, updatedAt := now)
  }

  predicate Owns(r: Row, owner: string) {
    r.status == Sending && r.owner == owner
  }

  predicate Retryable(r: Row, registered: bool, retry: bool, maxAttempts: int, now: Time) {
    retry && registered && r.attempts < AtLeast(1, maxAttempts) && r.expiresAt > now
  }

  function Finished(r: Row, registered: bool, sent: bool, retry: bool, delay: int, failure: string, maxAttempts: int, now: Time): Row {
    var open := r.(leaseUntil := 0.0, owner := "", updatedAt := now, error := if failure == "" then None else Some(Clipped(failure, 1000)));
    if sent then open.(status := Sent, nextAttemptAt := now, sentAt := Some(now))
    else if Retryable(r, registered, retry, maxAttempts, now)
    then open.(status := Pending, nextAttemptAt := now + Clamp(1, delay, 86400) as real, sentAt := None)
    else open.(status := Failed, nextAttemptAt := now, sentAt := None)
  }

  /** What becomes of a row that the operation keeps. */
  function Touched(t: Tables, op: Op, id: nat): Row
    requires id in t.rows
  {
    var r := t.rows[id];
    var registered := r.token in t.devices;
    match op
    case ClaimDue(owner, ids, lease, now) =>
      if id in ids then Claimed(Swept(r, registered, now), owner, lease, now) else Swept(r, registered, now)
    case Renew(owner, renewed, lease, now) =>
      if id in renewed && Owns(r, owner) then Renewed(r, lease, now) else r
    case Finish(owner, finished, sent, retry, delay, failure, maxAttempts, now) =>
      if id == finished && Owns(r, owner)
      then Finished(r, registered, sent, retry, delay, failure, maxAttempts, now) else r
    case _ => r
  }

  predicate Removed(t: Tables, op: Op, id: nat)
    requires id in t.rows
  {
    var r := t.rows[id];
    match op
    case DeleteDevice(token, claimant) =>
      r.token == token && (claimant.None? || r.status != Sending || r.owner == claimant.value)
    case RevokeAll => true
    case PruneDevices(now) =>
      && r.token in t.devices && t.devices[r.token].expiresAt <= now
      && (r.status != Sending || r.leaseUntil <= now)
    case PruneRows(days, now) =>
      r.status in {Sent, Failed} && r.updatedAt < now - (AtLeast(1, days) * 86400) as real
    case _ => false
  }

  function DevicesAfter(t: Tables, op: Op): map<string, Device> {
    match op
    case RegisterDevice(token, lease, now) =>
      t.devices[token := Device(now, now + Clamp(3600, lease, 90 * 86400) as real)]
    case DeleteDevice(token, claimant) => t.devices - {token}
    case RevokeAll => map[]
    case PruneDevices(now) => map d | d in t.devices && t.devices[d].expiresAt > now :: t.devices[d]
    case _ => t.devices
  }


  predicate Known(rows: map<nat, Row>, key: string, token: string) {
    exists id :: id in rows && rows[id].key == key && rows[id].token == token
  }

  function NewRow(key: string, token: string, retention: int, now: Time): Row {
    Row(key, token, Pending, 0, now, now + Clamp(60, retention, 7 * 86400) as real, 0.0, "", None, now, None)
  }

  /** One insert per target device; a known (key, device) is ignored. */
  function Inserted(rows: map<nat, Row>, nextId: nat, key: string, targets: seq<string>, retention: int, now: Time)
    : (r: (map<nat, Row>, nat))
    ensures nextId <= r.1
  {
    if targets == [] then (rows, nextId)
    else
      var (rows', nextId') := Inserted(rows, nextId, key, targets[..|targets| - 1], retention, now);
      var token := targets[|targets| - 1];
      if Known(rows', key, token) then (rows', nextId')
      else (rows'[nextId' := NewRow(key, token, retention, now)], nextId' + 1)
  }

  function Apply(t: Tables, op: Op): Tables {
    if op.Enqueue? then
      var (rows, nextId) := Inserted(t.rows, t.nextId, Clipped(op.key, 256), op.targets, op.retention, op.now);
      Tables(rows, t.devices, nextId)
    else
      Tables(map id | id in t.rows && !Removed(t, op, id) :: Touched(t, op, id), DevicesAfter(t, op), t.nextId)
  }

  lemma IsApply(t: Tables, op: Op, rows: map<nat, Row>)
    requires !op.Enqueue?
    requires forall id :: id in rows <==> id in t.rows && !Removed(t, op, id)
    requires forall id :: id in rows ==> rows[id] == Touched(t, op, id)
    ensures Apply(t, op) == Tables(rows, DevicesAfter(t, op), t.nextId)
  {
    hide Touched, Removed;
    assert Apply(t, op).rows == rows;
  }

  lemma ClaimIsApply(t: Tables, swept: map<nat, Row>, rows: map<nat, Row>, owner: string, ids: seq<nat>, lease: int, now: Time)
    requires swept == map id | id in t.rows :: Swept(t.rows[id], t.rows[id].token in t.devices, now)
    requires rows == map id | id in swept :: if id in ids then Claimed(swept[id], owner, lease, now) else swept[id]
    ensures Apply(t, ClaimDue(owner, ids, lease, now)) == Tables(rows, t.devices, t.nextId)
  {
    IsApply(t, ClaimDue(owner, ids, lease, now), rows);
  }

  lemma RenewIsApply(t: Tables, owner: string, renewed: set<nat>, lease: int, now: Time)
    ensures var rows := map id | id in t.rows ::
                          if Owns(t.rows[id], owner) && id in renewed then Renewed(t.rows[id], lease, now) else t.rows[id];
            Apply(t, Renew(owner, renewed, lease, now)) == Tables(rows, t.devices, t.nextId)
  {
    hide Owns, Renewed;
    var rows := map id | id in t.rows ::
                  if Owns(t.rows[id], owner) && id in renewed then Renewed(t.rows[id], lease, now) else t.rows[id];
    IsApply(t, Renew(owner, renewed, lease, now), rows);
  }

  lemma FinishIsApply(t: Tables, owner: string, id: nat, sent: bool, retry: bool, delay: int, failure: string, maxAttempts: int, now: Time)
    requires id in t.rows && Owns(t.rows[id], owner)
    ensures var r := Finished(t.rows[id], t.rows[id].token in t.devices, sent, retry, delay, failure, maxAttempts, now);
            Apply(t, Finish(owner, id, sent, retry, delay, failure, maxAttempts, now)) == Tables(t.rows[id := r], t.devices, t.nextId)
  {
    var r := Finished(t.rows[id], t.rows[id].token in t.devices, sent, retry, delay, failure, maxAttempts, now);
    IsApply(t, Finish(owner, id, sent, retry, delay, failure, maxAttempts, now), t.rows[id := r]);
  }

  // ---------- which operations the database can perform ----------

  predicate Earlier(rows: map<nat, Row>, a: nat, b: nat)
    requires a in rows && b in rows
  {
    rows[a].nextAttemptAt < rows[b].nextAttemptAt || (rows[a].nextAttemptAt == rows[b].nextAttemptAt && a < b)
  }

  predicate DueId(t: Tables, id: nat, now: Time) {
    id in t.rows && Due(t.rows[id], t.rows[id].token in t.devices, now)
  }

  /** ids are the first due rows by (next attempt, id), at most `limit` of them. */
  ghost predicate FirstDue(t: Tables, ids: seq<nat>, limit: int, now: Time) {
    && |ids| <= Clamp(1, limit, 128)
    && (forall i :: 0 <= i < |ids| ==> DueId(t, ids[i], now))
    && (forall i, j :: 0 <= i < j < |ids| ==> Earlier(t.rows, ids[i], ids[j]))
    && (forall id :: DueId(t, id, now) && id !in ids ==>
          |ids| == Clamp(1, limit, 128) && forall i :: 0 <= i < |ids| ==> Earlier(t.rows, ids[i], id))
  }

  predicate Live(devices: map<string, Device>, token: string, now: Time) {
    token in devices && devices[token].expiresAt > now
  }

  /** tokens are the most recently registered devices that have not expired, newest
      first, at most `limit` of them; devices registered at one time come in any order. */
  ghost predicate NewestFirst(devices: map<string, Device>, tokens: seq<string>, limit: int, now: Time) {
    && |tokens| <= Clamp(1, limit, 128)
    && (forall i :: 0 <= i < |tokens| ==> Live(devices, tokens[i], now))
    && (forall i, j :: 0 <= i < j < |tokens| ==> tokens[i] != tokens[j] && devices[tokens[i]].updatedAt >= devices[tokens[j]].updatedAt)
    && (forall token :: Live(devices, token, now) && token !in tokens ==>
          |tokens| == Clamp(1, limit, 128) && forall i :: 0 <= i < |tokens| ==> devices[tokens[i]].updatedAt >= devices[token].updatedAt)
  }

  ghost predicate Allowed(t: Tables, op: Op) {
    match op
    case Enqueue(key, targets, retention, now) => exists limit :: NewestFirst(t.devices, targets, limit, now)
    case ClaimDue(owner, ids, lease, now) => owner != "" && exists limit :: FirstDue(t, ids, limit, now)
    case Renew(owner, _, _, _) => owner != ""
    case Finish(owner, _, _, _, _, _, _, _) => owner != ""
    case _ => true
  }

  ghost function After(ops: seq<Op>): Option<Tables> {
    if ops == [] then Some(Tables(map[], map[], 1))
    else
      var t := After(ops[..|ops| - 1]);
      if t.Some? && Allowed(t.value, ops[|ops| - 1]) then Some(Apply(t.value, ops[|ops| - 1])) else None
  }

  // ---------- what every operation keeps ----------

  ghost predicate RowInv(r: Row) {
    && (r.status == Sending <==> r.owner != "")
    && (r.status != Sending ==> r.leaseUntil == 0.0)
    && (r.status == Sent <==> r.sentAt.Some?)
  }

  /** A row is sending exactly when it has an owner, and there is at most one
      row per message key and device. */
  ghost predicate Inv(t: Tables) {
    && (forall id :: id in t.rows ==> RowInv(t.rows[id]) && id < t.nextId)
    && (forall a, b :: a in t.rows && b in t.rows && a != b ==> (t.rows[a].key, t.rows[a].token) != (t.rows[b].key, t.rows[b].token))
  }

  lemma TouchedKeeps(t: Tables, op: Op, id: nat)
    requires Inv(t) && Allowed(t, op) && id in t.rows
    ensures RowInv(Touched(t, op, id))
    ensures Touched(t, op, id).key == t.rows[id].key && Touched(t, op, id).token == t.rows[id].token
    ensures t.rows[id].status in {Sent, Failed} ==> Touched(t, op, id) == t.rows[id]
  {
  }

  /** A message just queued for one of the devices: due at once, never tried. */
  ghost predicate FreshRow(r: Row, key: string, targets: seq<string>, retention: int, now: Time) {
    && r.key == key && r.token in targets && r.status == Pending && r.attempts == 0
    && r.nextAttemptAt == now && r.expiresAt == now + Clamp(60, retention, 604800) as real && r.error.None?
  }

  lemma {:induction false} InsertedKeeps(t: Tables, key: string, targets: seq<string>, retention: int, now: Time)
    requires Inv(t)
    ensures var (rows, nextId) := Inserted(t.rows, t.nextId, key, targets, retention, now);
            && Inv(Tables(rows, t.devices, nextId))
            && (forall id :: id in t.rows ==> id in rows && rows[id] == t.rows[id])
            && (forall id :: id in rows && id !in t.rows ==> id >= t.nextId && FreshRow(rows[id], key, targets, retention, now))
  {
    if targets != [] {
      var front, token := targets[..|targets| - 1], targets[|targets| - 1];
      InsertedKeeps(t, key, front, retention, now);
      var (rows, nextId) := Inserted(t.rows, t.nextId, key, front, retention, now);
      if !Known(rows, key, token) { InsertKeeps(Tables(rows, t.devices, nextId), NewRow(key, token, retention, now)); }
    }
  }

  lemma InsertKeeps(t: Tables, r: Row)
    requires Inv(t) && RowInv(r) && !Known(t.rows, r.key, r.token)
    ensures Inv(Tables(t.rows[t.nextId := r], t.devices, t.nextId + 1)) && t.nextId !in t.rows
  {
    assert t.nextId !in t.rows;
  }

  /** After an enqueue every target has its row. */
  lemma {:induction false} EveryTargetKnown(rows: map<nat, Row>, nextId: nat, key: string, targets: seq<string>, retention: int,
                                            now: Time, i: nat)
    requires forall id :: id in rows ==> id < nextId
    requires i < |targets|
    ensures var (rows', nextId') := Inserted(rows, nextId, key, targets, retention, now);
            Known(rows', key, targets[i]) && forall id :: id in rows' ==> id < nextId'
    decreases |targets|
  {
    var front := targets[..|targets| - 1];
    var (rows1, nextId1) := Inserted(rows, nextId, key, front, retention, now);
    var (rows', nextId') := Inserted(rows, nextId, key, targets, retention, now);
    if front != [] { EveryTargetKnown(rows, nextId, key, front, retention, now, if i < |front| then i else 0); }
    if i < |front| {
      assert front[i] == targets[i];
      var id :| id in rows1 && rows1[id].key == key && rows1[id].token == targets[i];
      assert id in rows' && rows'[id] == rows1[id];
    } else if !Known(rows1, key, targets[i]) {
      assert nextId1 in rows' && rows'[nextId1].key == key && rows'[nextId1].token == targets[i];
    }
  }

  lemma StepInv(t: Tables, op: Op)
    requires Inv(t) && Allowed(t, op)
    ensures Inv(Apply(t, op))
  {
    if op.Enqueue? {
      InsertedKeeps(t, Clipped(op.key, 256), op.targets, op.retention, op.now);
    } else {
      forall id | id in t.rows { TouchedKeeps(t, op, id); }
    }
  }

  lemma {:induction false} RunInv(ops: seq<Op>)
    requires After(ops).Some?
    ensures Inv(After(ops).value)
  {
    if ops != [] {
      RunInv(ops[..|ops| - 1]);
      StepInv(After(ops[..|ops| - 1]).value, ops[|ops| - 1]);
    }
  }

  /** One step seen from a row that was there before. */
  lemma StepOnRow(t: Tables, op: Op, id: nat)
    requires Inv(t) && Allowed(t, op) && id in t.rows
    ensures id in Apply(t, op).rows <==> op.Enqueue? || !Removed(t, op, id)
    ensures id in Apply(t, op).rows ==> Apply(t, op).rows[id] == Touched(t, op, id)
  {
    if op.Enqueue? { InsertedKeeps(t, Clipped(op.key, 256), op.targets, op.retention, op.now); }
  }

  /** One step seen from an id that was not there: it can only be a fresh pending row. */
  lemma StepNewRow(t: Tables, op: Op, id: nat)
    requires Inv(t) && Allowed(t, op) && id !in t.rows && id in Apply(t, op).rows
    ensures op.Enqueue? && id >= t.nextId
    ensures FreshRow(Apply(t, op).rows[id], Clipped(op.key, 256), op.targets, op.retention, op.now)
  {
    if op.Enqueue? { InsertedKeeps(t, Clipped(op.key, 256), op.targets, op.retention, op.now); }
  }

  // ---------- theorems over whole runs ----------

  /** Ids are never used twice: a row that is gone stays gone. */
  lemma {:induction false} GoneForGood(ops: seq<Op>, i: nat, id: nat)
    requires i <= |ops| && After(ops).Some? && After(ops[..i]).Some?
    requires id < After(ops[..i]).value.nextId && id !in After(ops[..i]).value.rows
    ensures id !in After(ops).value.rows && After(ops[..i]).value.nextId <= After(ops).value.nextId
  {
    if i == |ops| {
      assert ops[..i] == ops;
    } else {
      var before := ops[..|ops| - 1];
      assert before[..i] == ops[..i];
      GoneForGood(before, i, id);
      RunInv(before);
      if id in After(ops).value.rows { StepNewRow(After(before).value, ops[|ops| - 1], id); }
    }
  }

  /** Sent and failed rows never change again. */
  lemma {:induction false} TerminalStays(ops: seq<Op>, i: nat, id: nat)
    requires i <= |ops| && After(ops).Some? && After(ops[..i]).Some?
    requires id in After(ops[..i]).value.rows && After(ops[..i]).value.rows[id].status in {Sent, Failed}
    ensures id in After(ops).value.rows ==> After(ops).value.rows[id] == After(ops[..i]).value.rows[id]
  {
    if i == |ops| {
      assert ops[..i] == ops;
    } else {
      var before := ops[..|ops| - 1];
      assert before[..i] == ops[..i];
      TerminalStays(before, i, id);
      RunInv(before);
      var t := After(before).value;
      if id in t.rows {
        StepOnRow(t, ops[|ops| - 1], id);
        TouchedKeeps(t, ops[|ops| - 1], id);
      } else {
        RunInv(ops[..i]);
        NextIdGrows(before, i);
        if id in After(ops).value.rows { StepNewRow(t, ops[|ops| - 1], id); }
      }
    }
  }

  lemma {:induction false} NextIdGrows(ops: seq<Op>, i: nat)
    requires i <= |ops| && After(ops).Some? && After(ops[..i]).Some?
    ensures After(ops[..i]).value.nextId <= After(ops).value.nextId
  {
    if i == |ops| {
      assert ops[..i] == ops;
    } else {
      assert ops[..|ops| - 1][..i] == ops[..i];
      NextIdGrows(ops[..|ops| - 1], i);
    }
  }

  /** How many claims of the run took this row. */
  ghost function Claims(ops: seq<Op>, id: nat): nat {
    if ops == [] then 0
    else
      var last := ops[|ops| - 1];
      Claims(ops[..|ops| - 1], id) + if Takes(last, id) then 1 else 0
  }

  /** How many finishes of the run took effect on this row. */
  ghost function Finishes(ops: seq<Op>, id: nat): nat
    requires After(ops).Some?
  {
    if ops == [] then 0
    else
      var t, last := After(ops[..|ops| - 1]).value, ops[|ops| - 1];
      Finishes(ops[..|ops| - 1], id)
      + if Ends(t, last, id) then 1 else 0
  }

  predicate Takes(op: Op, id: nat) {
    op.ClaimDue? && id in op.ids
  }

  predicate Ends(t: Tables, op: Op, id: nat) {
    op.Finish? && op.id == id && id in t.rows && Owns(t.rows[id], op.owner)
  }

  lemma TouchedCounts(t: Tables, op: Op, id: nat)
    requires Allowed(t, op) && id in t.rows
    ensures Touched(t, op, id).attempts == t.rows[id].attempts + if Takes(op, id) then 1 else 0
    ensures Ends(t, op, id) ==> t.rows[id].status == Sending && Touched(t, op, id).status != Sending
    ensures Touched(t, op, id).status == Sending ==> Takes(op, id) || t.rows[id].status == Sending
  {
    if Takes(op, id) {
      var limit :| FirstDue(t, op.ids, limit, op.now);
      assert DueId(t, id, op.now);
    }
  }

  /** Attempts count claims, and each claim is finished at most once: the claim
      that is being sent now is not finished yet. */
  lemma {:induction false} AttemptsAreClaims(ops: seq<Op>, id: nat)
    requires After(ops).Some?
    ensures var t := After(ops).value;
            && (id >= t.nextId ==> Claims(ops, id) == 0 && Finishes(ops, id) == 0)
            && (id in t.rows ==> t.rows[id].attempts == Claims(ops, id))
            && (id in t.rows ==> Finishes(ops, id) + (if t.rows[id].status == Sending then 1 else 0) <= Claims(ops, id))
  {
    if ops != [] {
      hide Touched, Removed, Owns, Apply, Inv;
      var before, op := ops[..|ops| - 1], ops[|ops| - 1];
      AttemptsAreClaims(before, id);
      RunInv(before);
      var t := After(before).value;
      TouchesKnown(t, op, id);
      if id in t.rows {
        StepOnRow(t, op, id);
        TouchedCounts(t, op, id);
      } else if id in Apply(t, op).rows {
        StepNewRow(t, op, id);
      }
    }
  }

  /** Claims and finishes only name rows there are. */
  lemma TouchesKnown(t: Tables, op: Op, id: nat)
    requires Inv(t) && Allowed(t, op)
    ensures Takes(op, id) ==> id in t.rows
    ensures id in t.rows ==> id < t.nextId
    ensures t.nextId <= Apply(t, op).nextId
  {
    hide Touched, Removed;
    if Takes(op, id) {
      var limit :| FirstDue(t, op.ids, limit, op.now);
      assert DueId(t, id, op.now);
    }
  }

  /** A claim by another owner never takes a row whose lease still runs at the
      claimer's clock; the exact fate of a held row at a claim. */
  lemma ClaimOfHeldRow(t: Tables, op: Op, id: nat)
    requires Inv(t) && Allowed(t, op) && op.ClaimDue? && id in t.rows && t.rows[id].status == Sending
    ensures var r := Apply(t, op).rows[id];
            // the lease runs and the message has not expired: untouched
            && (t.rows[id].leaseUntil > op.now && t.rows[id].expiresAt > op.now ==> r == t.rows[id])
            // an expired message fails even under a running lease
            && (t.rows[id].expiresAt <= op.now ==> r.status == Failed)
            // somebody else's claim succeeds only after the lease
            && (Owns(r, op.owner) && t.rows[id].owner != op.owner
                <==> t.rows[id].owner != op.owner && t.rows[id].leaseUntil <= op.now && id in op.ids)
  {
    StepOnRow(t, op, id);
    var limit :| FirstDue(t, op.ids, limit, op.now);
    assert id in op.ids ==> DueId(t, id, op.now);
  }

  /** While no claim happens after the lease or the expiry, and the owner does
      not finish, the owner keeps the row through any run. */
  lemma {:induction false} OwnerKeepsRow(ops: seq<Op>, i: nat, id: nat, owner: string)
    requires i <= |ops| && After(ops).Some? && (forall k :: i <= k <= |ops| ==> After(ops[..k]).Some?)
    requires id in After(ops[..i]).value.rows && Owns(After(ops[..i]).value.rows[id], owner)
    requires forall k :: i <= k < |ops| && ops[k].ClaimDue? && id in After(ops[..k]).value.rows ==>
               ops[k].now < After(ops[..k]).value.rows[id].leaseUntil && ops[k].now < After(ops[..k]).value.rows[id].expiresAt
    requires forall k :: i <= k < |ops| && ops[k].Finish? && ops[k].id == id ==> ops[k].owner != owner
    ensures id in After(ops).value.rows ==> Owns(After(ops).value.rows[id], owner)
  {
    if i == |ops| {
      assert ops[..i] == ops;
    } else {
      var before, op := ops[..|ops| - 1], ops[|ops| - 1];
      forall k | i <= k <= |before| ensures before[..k] == ops[..k] { }
      assert ops[..|before|] == before;
      OwnerKeepsRow(before, i, id, owner);
      RunInv(before);
      RunInv(ops[..i]);
      var t := After(before).value;
      if id in t.rows {
        StepOnRow(t, op, id);
        if op.ClaimDue? { ClaimOfHeldRow(t, op, id); }
      } else {
        NextIdGrows(before, i);
        if id in After(ops).value.rows { StepNewRow(t, op, id); }
      }
    }
  }

  /** Only the current owner's finish takes effect; it ends the claim. */
  lemma FinishNeedsOwner(t: Tables, op: Op, id: nat)
    requires Inv(t) && Allowed(t, op) && op.Finish? && id in t.rows
    ensures var r := Apply(t, op).rows[id];
            if id == op.id && Owns(t.rows[id], op.owner)
            then && r.owner == "" && r.status != Sending && r.attempts == t.rows[id].attempts && (op.sent <==> r.status == Sent)
                 && (r.status == Pending <==> && !op.sent && op.retry && r.token in t.devices && op.now < r.expiresAt
                                              && (r.attempts < op.maxAttempts || (r.attempts < 1 && op.maxAttempts < 1)))
                 && r.nextAttemptAt == op.now + (if r.status == Pending then Clamp(1, op.delay, 86400) as real else 0.0)
                 && (r.sentAt.Some? <==> op.sent) && (op.sent ==> r.sentAt.value == op.now)
                 && (r.error.Some? <==> op.failure != "") && (r.error.Some? ==> r.error.value == Clipped(op.failure, 1000))
            else r == t.rows[id]
  {
    StepOnRow(t, op, id);
  }

  // ---------- leases in the operations ----------

  /** Until when the operation lets the owner hold the row, if it does: between ten
      seconds and five minutes from its clock. */
  function Grants(op: Op, id: nat, owner: string): Option<Time> {
    match op
    case ClaimDue(who, ids, lease, now) =>
      if who == owner && id in ids then Some(now + Clamp(10, lease, 300) as real) else None
    case Renew(who, ids, lease, now) =>
      if who == owner && id in ids then Some(now + Clamp(10, lease, 300) as real) else None
    case _ => None
  }

  /** What the last granting operation of the run allows. */
  function GrantedUntil(ops: seq<Op>, id: nat, owner: string): Option<Time> {
    if ops == [] then None
    else if Grants(ops[|ops| - 1], id, owner).Some? then Grants(ops[|ops| - 1], id, owner)
    else GrantedUntil(ops[..|ops| - 1], id, owner)
  }

  /** The operation cannot end the owner's hold: a claim comes before the end of what was
      granted and before the expiry, a finish is not the owner's. */
  predicate InTime(op: Op, id: nat, owner: string, until: Time, expiry: Time) {
    && (op.ClaimDue? ==> op.now < until && op.now < expiry)
    && (op.Finish? && op.id == id ==> op.owner != owner)
  }

  /** The operation cannot delete the row from under its owner. */
  predicate Spares(op: Op, token: string, owner: string, until: Time) {
    match op
    case DeleteDevice(deleted, claimant) => deleted == token ==> claimant.Some? && claimant.value != owner
    case RevokeAll => false
    case PruneDevices(now) => now < until
    case _ => true
  }

  ghost predicate Held(r: Row, owner: string, until: Time, expiry: Time) {
    Owns(r, owner) && r.leaseUntil == until && r.expiresAt == expiry
  }

  lemma HeldStep(t: Tables, op: Op, id: nat, owner: string, until: Time, expiry: Time)
    requires Inv(t) && Allowed(t, op) && id in t.rows && Held(t.rows[id], owner, until, expiry)
    requires InTime(op, id, owner, until, expiry)
    ensures Spares(op, t.rows[id].token, owner, until) ==> id in Apply(t, op).rows
    ensures id in Apply(t, op).rows ==>
              && Held(Apply(t, op).rows[id], owner, if Grants(op, id, owner).Some? then Grants(op, id, owner).value else until, expiry)
              && Apply(t, op).rows[id].token == t.rows[id].token
  {
    StepOnRow(t, op, id);
    TouchedKeeps(t, op, id);
  }

  /** From a claim on, the owner holds the row as long as every claim's clock is below the
      last lease the owner was granted, and below the expiry, and the owner has not finished
      it.  Leases are those the operations ask for, not those the table stores. */
  lemma {:induction false} RenewingOwnerKeepsRow(ops: seq<Op>, c: nat, id: nat, owner: string, expiry: Time)
    requires After(ops).Some? && c < |ops| && ops[c].ClaimDue? && ops[c].owner == owner && id in ops[c].ids
    requires After(ops[..c]).Some? && id in After(ops[..c]).value.rows && After(ops[..c]).value.rows[id].expiresAt == expiry
    requires forall k :: c < k < |ops| && GrantedUntil(ops[..k], id, owner).Some? ==>
               InTime(ops[k], id, owner, GrantedUntil(ops[..k], id, owner).value, expiry)
    ensures GrantedUntil(ops, id, owner).Some?
    ensures id in After(ops).value.rows ==> Held(After(ops).value.rows[id], owner, GrantedUntil(ops, id, owner).value, expiry)
    ensures id in After(ops).value.rows ==> After(ops).value.rows[id].token == After(ops[..c]).value.rows[id].token
    ensures (forall k :: c < k < |ops| && GrantedUntil(ops[..k], id, owner).Some? ==>
               Spares(ops[k], After(ops[..c]).value.rows[id].token, owner, GrantedUntil(ops[..k], id, owner).value)) ==>
              id in After(ops).value.rows
  {
    hide Apply, Allowed, InTime, Held, Inv, Spares;
    var before, op := ops[..|ops| - 1], ops[|ops| - 1];
    RunInv(before);
    if c == |before| {
      ClaimHolds(After(before).value, op, id);
    } else {
      assert before[..c] == ops[..c] && ops[..|before|] == before;
      forall k | 0 <= k <= |before| ensures before[..k] == ops[..k] { }
      RenewingOwnerKeepsRow(before, c, id, owner, expiry);
      var t, until := After(before).value, GrantedUntil(before, id, owner).value;
      if id in t.rows {
        HeldStep(t, op, id, owner, until, expiry);
      } else {
        RunInv(ops[..c]);
        StayGone(ops, c, id);
      }
    }
  }

  lemma ClaimHolds(t: Tables, op: Op, id: nat)
    requires Inv(t) && Allowed(t, op) && op.ClaimDue? && id in op.ids
    ensures id in t.rows && id in Apply(t, op).rows && Apply(t, op).rows[id].token == t.rows[id].token
    ensures Held(Apply(t, op).rows[id], op.owner, op.now + Clamp(10, op.lease, 300) as real, t.rows[id].expiresAt)
  {
    var limit :| FirstDue(t, op.ids, limit, op.now);
    assert DueId(t, id, op.now);
    StepOnRow(t, op, id);
  }

  lemma StayGone(ops: seq<Op>, c: nat, id: nat)
    requires ops != [] && c < |ops| && After(ops).Some? && After(ops[..c]).Some?
    requires id in After(ops[..c]).value.rows && id !in After(ops[..|ops| - 1]).value.rows
    ensures id !in After(ops).value.rows
  {
    hide Apply, Allowed;
    var before := ops[..|ops| - 1];
    assert before[..c] == ops[..c] && ops[..|before|] == before;
    RunInv(ops[..c]);
    RunInv(before);
    NextIdGrows(before, c);
    GoneForGood(ops, |before|, id);
  }

  /** After a renewal a claim leaves the row alone exactly when its clock is below the
      renewed lease and below the expiry. */
  lemma RenewedIsSafe(t: Tables, renew: Op, claim: Op, id: nat)
    requires Inv(t) && Allowed(t, renew) && renew.Renew? && id in t.rows && Owns(t.rows[id], renew.owner) && id in renew.renewed
    requires Allowed(Apply(t, renew), claim) && claim.ClaimDue?
    ensures var held, after := Apply(t, renew).rows[id], Apply(Apply(t, renew), claim).rows[id];
            && Owns(held, renew.owner) && held.attempts == t.rows[id].attempts
            && (after == held
                <==> claim.now < renew.now + Clamp(10, renew.lease, 300) as real && claim.now < t.rows[id].expiresAt)
  {
    StepInv(t, renew);
    StepOnRow(t, renew, id);
    var t' := Apply(t, renew);
    StepOnRow(t', claim, id);
    ClaimOfHeldRow(t', claim, id);
  }

  // ---------- retries wait, and expiries are those of the enqueue ----------

  /** What may be claimed, by the row's own fields. */
  lemma DueExactly(t: Tables, id: nat, now: Time)
    requires Inv(t)
    ensures DueId(t, id, now)
       <==> && id in t.rows && t.rows[id].token in t.devices
            && t.rows[id].nextAttemptAt <= now < t.rows[id].expiresAt
            && (t.rows[id].status == Pending || (t.rows[id].status == Sending && t.rows[id].leaseUntil <= now))
  {
  }

  /** A waiting row stays as it is until a claim takes it or gives it up. */
  lemma WaitingStep(t: Tables, op: Op, id: nat)
    requires Inv(t) && Allowed(t, op) && id in t.rows && t.rows[id].status in {Pending, Failed} && !Takes(op, id)
    requires id in Apply(t, op).rows
    ensures var r := Apply(t, op).rows[id];
            && r.status in {Pending, Failed} && r.nextAttemptAt == t.rows[id].nextAttemptAt
            && (r != t.rows[id] ==> op.ClaimDue? && r.status == Failed && (op.now >= r.expiresAt || r.token !in t.devices))
  {
    StepOnRow(t, op, id);
  }

  lemma {:induction false} WaitsOn(ops: seq<Op>, i: nat, id: nat, next: Time)
    requires i <= |ops| && After(ops).Some? && After(ops[..i]).Some? && id in After(ops[..i]).value.rows
    requires After(ops[..i]).value.rows[id].status == Pending && After(ops[..i]).value.rows[id].nextAttemptAt == next
    requires forall k :: i <= k < |ops| ==> !Takes(ops[k], id)
    ensures id in After(ops).value.rows ==>
              After(ops).value.rows[id].status in {Pending, Failed} && After(ops).value.rows[id].nextAttemptAt == next
  {
    hide Apply, Allowed, Takes, Inv;
    if i == |ops| {
      assert ops[..i] == ops;
    } else {
      var before, op := ops[..|ops| - 1], ops[|ops| - 1];
      assert before[..i] == ops[..i] && op == ops[|before|];
      WaitsOn(before, i, id, next);
      RunInv(before);
      if id in After(before).value.rows {
        if id in After(ops).value.rows { WaitingStep(After(before).value, op, id); }
      } else {
        StayGone(ops, i, id);
      }
    }
  }

  /** The first claim that takes a row after a retry was granted comes no earlier than the
      delay the finish asked for, between a second and a day. */
  lemma RetryWaits(ops: seq<Op>, f: nat, k: nat, id: nat)
    requires f < k < |ops| && ops[f].Finish? && (forall j :: 0 <= j <= k + 1 ==> After(ops[..j]).Some?)
    requires Ends(After(ops[..f]).value, ops[f], id) && id in After(ops[..f + 1]).value.rows
    requires After(ops[..f + 1]).value.rows[id].status == Pending
    requires Takes(ops[k], id) && forall j :: f < j < k ==> !Takes(ops[j], id)
    ensures ops[k].now >= ops[f].now + Clamp(1, ops[f].delay, 86400) as real
  {
    hide Apply, Allowed, Inv;
    var t := After(ops[..f]).value;
    assert ops[..f + 1][..f] == ops[..f] && ops[..k][..f + 1] == ops[..f + 1] && ops[..k + 1][..k] == ops[..k];
    assert After(ops[..f + 1]) == Some(Apply(t, ops[f]));
    RunInv(ops[..f]);
    RunInv(ops[..k]);
    FinishNeedsOwner(t, ops[f], id);
    WaitsOn(ops[..k], f + 1, id, ops[f].now + Clamp(1, ops[f].delay, 86400) as real);
    TakenWasDue(After(ops[..k]).value, ops[k], id);
  }

  lemma TakenWasDue(t: Tables, op: Op, id: nat)
    requires Inv(t) && Allowed(t, op) && Takes(op, id)
    ensures id in t.rows && t.rows[id].nextAttemptAt <= op.now < t.rows[id].expiresAt
  {
    var limit :| FirstDue(t, op.ids, limit, op.now);
    assert DueId(t, id, op.now);
    DueExactly(t, id, op.now);
  }

  /** Operation e queued the row, and this is when it expires. */
  ghost predicate QueuedAt(ops: seq<Op>, e: nat, id: nat, r: Row) {
    && e < |ops| && ops[e].Enqueue? && After(ops[..e]).Some? && id !in After(ops[..e]).value.rows
    && r.token in ops[e].targets && r.key == Clipped(ops[e].key, 256)
    && r.expiresAt == ops[e].now + Clamp(60, ops[e].retention, 604800) as real
  }

  /** Every row comes from one enqueue for its device and key, and expires as that asked. */
  lemma {:induction false} ExpiresAsQueued(ops: seq<Op>, id: nat) returns (e: nat)
    requires After(ops).Some? && id in After(ops).value.rows
    ensures QueuedAt(ops, e, id, After(ops).value.rows[id])
  {
    hide Apply, Allowed, Inv;
    var before, op := ops[..|ops| - 1], ops[|ops| - 1];
    var t := After(before).value;
    RunInv(before);
    if id in t.rows {
      e := ExpiresAsQueued(before, id);
      assert before[..e] == ops[..e];
      StepOnRow(t, op, id);
      ExpiryStays(t, op, id);
    } else {
      e := |before|;
      StepNewRow(t, op, id);
    }
  }

  lemma ExpiryStays(t: Tables, op: Op, id: nat)
    requires id in t.rows
    ensures var r := Touched(t, op, id);
            r.expiresAt == t.rows[id].expiresAt && r.token == t.rows[id].token && r.key == t.rows[id].key
  {
  }

  /** Every change carries the clock of its operation.  A row that fails other than by its
      owner's finish says why, and keeps the error it has. */
  lemma ChangesAreStamped(t: Tables, op: Op, id: nat)
    requires Inv(t) && Allowed(t, op) && id in t.rows && id in Apply(t, op).rows
    ensures var r, was := Apply(t, op).rows[id], t.rows[id];
            && (r != was ==> (op.ClaimDue? || op.Renew? || op.Finish?) && r.updatedAt == op.now)
            && (was.error.Some? && !Ends(t, op, id) ==> r.error == was.error)
            && (r.status == Failed && was.status != Failed && !Ends(t, op, id) ==>
                  r.error.Some? && (was.error.None? ==> r.error.value == if op.now < r.expiresAt then UNREGISTERED else EXPIRED))
  {
    StepOnRow(t, op, id);
  }

  // ---------- attempts are not limited by claims ----------

  /** A run in which one message is claimed n times, each lease running out. */
  function LeaseAfterLease(n: nat): seq<Op> {
    if n == 0 then [RegisterDevice("d", 90 * 86400, 0.0), Enqueue("m", ["d"], 7 * 86400, 0.0)]
    else LeaseAfterLease(n - 1) + [ClaimDue("dispatcher", [1], 10, (10 * (n - 1)) as real)]
  }

  /** The tables after that run. */
  function Leased(n: nat): Tables {
    var queued := NewRow("m", "d", 7 * 86400, 0.0);
    var row := if n == 0 then queued
               else queued.(status := Sending, attempts := n, owner := "dispatcher",
                           updatedAt := (10 * (n - 1)) as real, leaseUntil := (10 * n) as real);
    Tables(map[1 := row], map["d" := Device(0.0, 7776000.0)], 2)
  }

  lemma LeasedAtFirst()
    ensures After(LeaseAfterLease(0)) == Some(Leased(0))
  {
    var register, enqueue := RegisterDevice("d", 90 * 86400, 0.0), Enqueue("m", ["d"], 7 * 86400, 0.0);
    var ops := [register, enqueue];
    assert ops[..1] == [register] && [register][..0] == [];
    var t0 := Tables(map[], map[], 1);
    assert After([]) == Some(t0) && Allowed(t0, register);
    var t := Apply(t0, register);
    assert After([register]) == Some(t);
    assert t.rows == map[] && t.devices == map["d" := Device(0.0, 7776000.0)];
    assert ["d"][..0] == [];
    assert Live(t.devices, "d", 0.0) && NewestFirst(t.devices, ["d"], 1, 0.0);
    assert Inserted(t.rows, 1, "m", ["d"], 7 * 86400, 0.0) == (map[1 := NewRow("m", "d", 7 * 86400, 0.0)], 2);
  }

  lemma LeasedAgain(n: nat)
    requires n < 60480
    ensures var claim := ClaimDue("dispatcher", [1], 10, (10 * n) as real);
            Allowed(Leased(n), claim) && Apply(Leased(n), claim) == Leased(n + 1)
  {
    var claim := ClaimDue("dispatcher", [1], 10, (10 * n) as real);
    var t := Leased(n);
    assert DueId(t, 1, claim.now);
    assert FirstDue(t, [1], 1, claim.now);
    assert Touched(t, claim, 1) == Leased(n + 1).rows[1];
    assert Apply(t, claim).rows == Leased(n + 1).rows;
  }

  /** Only an explicit finish enforces the limit: lease after lease runs out
      and the attempts pass every max_attempts the message lives to see. */
  lemma {:induction false} AttemptsPassTheLimit(n: nat)
    requires n <= 60480
    ensures After(LeaseAfterLease(n)) == Some(Leased(n))
    ensures Leased(n).rows[1].attempts == n
  {
    if n == 0 {
      LeasedAtFirst();
    } else {
      AttemptsPassTheLimit(n - 1);
      LeasedAgain(n - 1);
      assert LeaseAfterLease(n)[..|LeaseAfterLease(n)| - 1] == LeaseAfterLease(n - 1);
    }
  }

  // ---------- when the limit holds ----------

  /** A claim whose clock has reached the lease of a sending row that has not expired. */
  predicate Reopens(t: Tables, op: Op, id: nat) {
    op.ClaimDue? && id in t.rows && t.rows[id].status == Sending && t.rows[id].leaseUntil <= op.now < t.rows[id].expiresAt
  }

  /** No finish of the row grants a retry from m attempts on. */
  ghost predicate FinishesWithin(ops: seq<Op>, id: nat, m: nat) {
    forall k :: 0 <= k < |ops| && ops[k].Finish? && ops[k].id == id ==> AtLeast(1, ops[k].maxAttempts) <= m
  }

  ghost predicate Has(ops: seq<Op>, k: int, id: nat, m: nat) {
    0 <= k < |ops| && After(ops[..k]).Some? && id in After(ops[..k]).value.rows && After(ops[..k]).value.rows[id].attempts == m
  }

  /** At step k the lease of the row runs out after its m-th attempt. */
  ghost predicate RunsOut(ops: seq<Op>, k: int, id: nat, m: nat) {
    Has(ops, k, id, m) && Reopens(After(ops[..k]).value, ops[k], id)
  }

  /** At step k the row is claimed after its m-th attempt. */
  ghost predicate TakenAt(ops: seq<Op>, k: int, id: nat, m: nat) {
    Has(ops, k, id, m) && Takes(ops[k], id)
  }

  ghost predicate RanOut(ops: seq<Op>, id: nat, m: nat) {
    exists k :: RunsOut(ops, k, id, m)
  }

  ghost predicate TakenOver(ops: seq<Op>, id: nat, m: nat) {
    exists i, k :: i <= k && RunsOut(ops, i, id, m) && TakenAt(ops, k, id, m)
  }

  lemma Extends(ops: seq<Op>, k: int, id: nat, m: nat)
    requires ops != []
    ensures k < |ops| - 1 ==> (RunsOut(ops, k, id, m) <==> RunsOut(ops[..|ops| - 1], k, id, m))
    ensures k < |ops| - 1 ==> (TakenAt(ops, k, id, m) <==> TakenAt(ops[..|ops| - 1], k, id, m))
  {
    hide After, Reopens, Takes;
    if 0 <= k < |ops| - 1 { assert ops[..|ops| - 1][..k] == ops[..k]; }
  }

  /** One step of a row's attempts, seen from below and at the limit. */
  lemma StepAtLimit(t: Tables, op: Op, id: nat, m: nat)
    requires Inv(t) && Allowed(t, op) && id in t.rows && (op.Finish? && op.id == id ==> AtLeast(1, op.maxAttempts) <= m)
    ensures var r, after := t.rows[id], Touched(t, op, id);
            && after.attempts == r.attempts + (if Takes(op, id) then 1 else 0)
            && (after.status == Pending && after.attempts == m ==> r.status == Pending || Reopens(t, op, id))
            && (Takes(op, id) ==> after.status == Sending && (r.status == Pending || Reopens(t, op, id)))
  {
    TouchedCounts(t, op, id);
    if Takes(op, id) {
      var limit :| FirstDue(t, op.ids, limit, op.now);
      assert DueId(t, id, op.now);
    }
  }

  lemma InRange(ops: seq<Op>, k: int, id: nat, m: nat)
    ensures RunsOut(ops, k, id, m) || TakenAt(ops, k, id, m) ==> k < |ops|
  {
  }

  lemma RanOutLast(ops: seq<Op>, id: nat, m: nat)
    requires ops != []
    ensures RanOut(ops, id, m) <==> RanOut(ops[..|ops| - 1], id, m) || RunsOut(ops, |ops| - 1, id, m)
  {
    hide RunsOut, TakenAt;
    var before, last := ops[..|ops| - 1], |ops| - 1;
    if i :| RunsOut(ops, i, id, m) {
      Extends(ops, i, id, m);
      InRange(ops, i, id, m);
      assert i == last || RunsOut(before, i, id, m);
    }
    if i :| RunsOut(before, i, id, m) {
      Extends(ops, i, id, m);
      InRange(before, i, id, m);
      assert RunsOut(ops, i, id, m);
    }
  }

  lemma TakenOverLast(ops: seq<Op>, id: nat, m: nat)
    requires ops != []
    ensures TakenOver(ops, id, m)
       <==> TakenOver(ops[..|ops| - 1], id, m) || (TakenAt(ops, |ops| - 1, id, m) && RanOut(ops, id, m))
  {
    hide RunsOut, TakenAt;
    var before, last := ops[..|ops| - 1], |ops| - 1;
    if i, k :| i <= k && RunsOut(ops, i, id, m) && TakenAt(ops, k, id, m) {
      Extends(ops, i, id, m);
      Extends(ops, k, id, m);
      InRange(ops, k, id, m);
      assert k == last || (RunsOut(before, i, id, m) && TakenAt(before, k, id, m));
    }
    if i, k :| i <= k && RunsOut(before, i, id, m) && TakenAt(before, k, id, m) {
      Extends(ops, i, id, m);
      Extends(ops, k, id, m);
      InRange(before, k, id, m);
      assert RunsOut(ops, i, id, m) && TakenAt(ops, k, id, m);
    }
    if i :| RunsOut(ops, i, id, m) { InRange(ops, i, id, m); }
  }

  lemma TakenOverIsOld(ops: seq<Op>, id: nat, m: nat)
    requires After(ops).Some? && TakenOver(ops, id, m)
    ensures id < After(ops).value.nextId
  {
    var i, k :| i <= k && RunsOut(ops, i, id, m) && TakenAt(ops, k, id, m);
    RunInv(ops[..i]);
    NextIdGrows(ops, i);
  }

  ghost predicate AtLimit(ops: seq<Op>, id: nat, m: nat) {
    After(ops).Some? && id in After(ops).value.rows ==>
      var r := After(ops).value.rows[id];
      && (r.attempts > m <==> TakenOver(ops, id, m))
      && (r.status == Pending && r.attempts == m ==> RanOut(ops, id, m))
  }

  lemma StepOldRow(ops: seq<Op>, id: nat, m: nat)
    requires ops != [] && After(ops).Some? && FinishesWithin(ops, id, m)
    requires id in After(ops[..|ops| - 1]).value.rows && AtLimit(ops[..|ops| - 1], id, m)
    ensures AtLimit(ops, id, m)
  {
    hide Reopens, Allowed, Touched, Apply, Inv, RanOut, TakenOver;
    var before, op, last := ops[..|ops| - 1], ops[|ops| - 1], |ops| - 1;
    RunInv(before);
    var t := After(before).value;
    StepOnRow(t, op, id);
    StepAtLimit(t, op, id, m);
    TakenOverLast(ops, id, m);
    RanOutLast(ops, id, m);
    assert RunsOut(ops, last, id, m) <==> t.rows[id].attempts == m && Reopens(t, op, id);
    assert TakenAt(ops, last, id, m) <==> t.rows[id].attempts == m && Takes(op, id);
  }

  lemma {:induction false} RunAtLimit(ops: seq<Op>, id: nat, m: nat)
    requires m >= 1 && After(ops).Some? && FinishesWithin(ops, id, m)
    ensures AtLimit(ops, id, m)
  {
    if ops != [] {
      hide AtLimit, Allowed, Apply, Inv, TakenOver, RanOut;
      var before := ops[..|ops| - 1];
      RunAtLimit(before, id, m);
      if id in After(before).value.rows {
        StepOldRow(ops, id, m);
      } else {
        NewWithin(ops, id, m);
      }
    } else {
      hide Apply, Allowed;
    }
  }

  lemma NewIsFresh(ops: seq<Op>, id: nat)
    requires ops != [] && After(ops).Some? && id !in After(ops[..|ops| - 1]).value.rows && id in After(ops).value.rows
    ensures id >= After(ops[..|ops| - 1]).value.nextId && After(ops).value.rows[id].attempts == 0
  {
    hide Allowed, Apply, Inv;
    RunInv(ops[..|ops| - 1]);
    StepNewRow(After(ops[..|ops| - 1]).value, ops[|ops| - 1], id);
  }

  lemma NewWithin(ops: seq<Op>, id: nat, m: nat)
    requires m >= 1 && ops != [] && After(ops[..|ops| - 1]).Some? && After(ops).Some? && id !in After(ops[..|ops| - 1]).value.rows
    ensures AtLimit(ops, id, m)
  {
    hide After, RanOut, TakenAt, TakenOver, RunsOut;
    if id in After(ops).value.rows {
      NewIsFresh(ops, id);
      TakenOverLast(ops, id, m);
      if TakenOver(ops[..|ops| - 1], id, m) { TakenOverIsOld(ops[..|ops| - 1], id, m); }
      NotThere(ops, id, m);
    }
  }

  lemma NotThere(ops: seq<Op>, id: nat, m: nat)
    requires ops != [] && After(ops[..|ops| - 1]).Some? && id !in After(ops[..|ops| - 1]).value.rows
    ensures !TakenAt(ops, |ops| - 1, id, m)
  {
  }

  /** When no finish of a row allows a retry from its m-th attempt on, its attempts pass
      m exactly when a claim takes the row after its m-th attempt, its lease having run
      out before or at that claim. */
  lemma PastTheLimitExactly(ops: seq<Op>, id: nat, m: nat)
    requires m >= 1 && After(ops).Some? && FinishesWithin(ops, id, m) && id in After(ops).value.rows
    ensures After(ops).value.rows[id].attempts > m
       <==> exists i, k :: i <= k && RunsOut(ops, i, id, m) && TakenAt(ops, k, id, m)
  {
    hide After, RunsOut, TakenAt, RanOut;
    RunAtLimit(ops, id, m);
  }

  /** The limit holds as long as no claim's clock reaches the lease of a row that is being
      sent for the m-th time: never more than m attempts, and fewer while it waits. */
  lemma LimitHolds(ops: seq<Op>, id: nat, m: nat)
    requires m >= 1 && After(ops).Some? && FinishesWithin(ops, id, m) && id in After(ops).value.rows
    requires forall k :: !RunsOut(ops, k, id, m)
    ensures After(ops).value.rows[id].attempts <= m
    ensures After(ops).value.rows[id].status == Pending ==> After(ops).value.rows[id].attempts < m
  {
    hide After, RunsOut;
    RunAtLimit(ops, id, m);
  }

  // ---------- the tables and their statements ----------

  method FirstByTime(rows: map<nat, Row>, due: set<nat>, most: nat) returns (ids: seq<nat>)
    requires due <= rows.Keys
    ensures |ids| <= most && forall i :: 0 <= i < |ids| ==> ids[i] in due
    ensures forall i, j :: 0 <= i < j < |ids| ==> Earlier(rows, ids[i], ids[j])
    ensures forall id :: id in due && id !in ids ==> |ids| == most && forall i :: 0 <= i < |ids| ==> Earlier(rows, ids[i], id)
  {
    ids := [];
    var rest := due;
    while |ids| < most && rest != {}
      invariant rest <= due && |ids| <= most && forall i :: 0 <= i < |ids| ==> ids[i] in due
      invariant forall i, j :: 0 <= i < j < |ids| ==> Earlier(rows, ids[i], ids[j])
      invariant forall id :: id in due ==> (id in rest <==> id !in ids)
      invariant forall id, i :: id in rest && 0 <= i < |ids| ==> Earlier(rows, ids[i], id)
      decreases rest
    {
      var first := Earliest(rows, rest);
      ids := ids + [first];
      rest := rest - {first};
    }
  }

  method Earliest(rows: map<nat, Row>, ids: set<nat>) returns (first: nat)
    requires ids != {} && ids <= rows.Keys
    ensures first in ids && forall id :: id in ids && id != first ==> Earlier(rows, first, id)
  {
    first :| first in ids;
    var rest := ids - {first};
    while rest != {}
      invariant first in ids && first !in rest && rest <= ids
      invariant forall id :: id in ids && id !in rest && id != first ==> Earlier(rows, first, id)
      decreases rest
    {
      var id :| id in rest;
      if Earlier(rows, id, first) { first := id; }
      rest := rest - {id};
    }
  }

  lemma SelectedIsFirstDue(t: Tables, swept: map<nat, Row>, due: set<nat>, ids: seq<nat>, limit: int, now: Time)
    requires swept == map id | id in t.rows :: Swept(t.rows[id], t.rows[id].token in t.devices, now)
    requires forall id :: id in due <==> id in swept && swept[id].status == Pending && swept[id].nextAttemptAt <= now && swept[id].expiresAt > now
    requires |ids| <= Clamp(1, limit, 128) && forall i :: 0 <= i < |ids| ==> ids[i] in due
    requires forall i, j :: 0 <= i < j < |ids| ==> Earlier(swept, ids[i], ids[j])
    requires forall id :: id in due && id !in ids ==>
               |ids| == Clamp(1, limit, 128) && forall i :: 0 <= i < |ids| ==> Earlier(swept, ids[i], id)
    ensures FirstDue(t, ids, limit, now)
    ensures forall id :: id in ids ==> id in swept && swept[id].status == Pending
  {
    forall id ensures id in due <==> DueId(t, id, now) {
      if id in t.rows { assert swept[id] == Swept(t.rows[id], t.rows[id].token in t.devices, now); }
    }
    forall id | id in t.rows ensures swept[id].nextAttemptAt == t.rows[id].nextAttemptAt { }
  }

  /** One claim more, sending for the owner until the lease ends. */
  ghost predicate TakenBy(before: map<nat, Row>, rows: map<nat, Row>, id: nat, owner: string, lease: int, now: Time) {
    && id in before && id in rows && Owns(rows[id], owner) && rows[id].attempts == before[id].attempts + 1
    && rows[id].leaseUntil == now + Clamp(10, lease, 300) as real
  }

  lemma ClaimTakes(t: Tables, ids: seq<nat>, owner: string, limit: int, lease: int, now: Time)
    requires FirstDue(t, ids, limit, now)
    ensures forall id :: id in ids ==> TakenBy(t.rows, Apply(t, ClaimDue(owner, ids, lease, now)).rows, id, owner, lease, now)
  {
    forall id | id in ids ensures TakenBy(t.rows, Apply(t, ClaimDue(owner, ids, lease, now)).rows, id, owner, lease, now) {
      assert DueId(t, id, now);
    }
  }

  datatype OwnerError = EmptyOwner

  datatype FinishStatus = Missing | NotOwned | Became(status: Status)

  class Database {
    var rows: map<nat, Row>
    var devices: map<string, Device>
    var nextId: nat

    ghost function Now(): Tables
      reads this
    {
      Tables(rows, devices, nextId)
    }

    constructor ()
      ensures Some(Now()) == After([])
    {
      rows, devices, nextId := map[], map[], 1;
    }

    method PushDeviceUpsert(token: string, leaseSeconds: int, now: Time)
      modifies this
      ensures Now() == Apply(old(Now()), RegisterDevice(token, leaseSeconds, now))
      ensures rows == old(rows) && devices == old(devices)[token := Device(now, now + Clamp(3600, leaseSeconds, 7776000) as real)]
    {
      var expiresAt := now + Clamp(3600, leaseSeconds, 90 * 86400) as real;
      devices := devices[token := Device(now, expiresAt)];
      assert rows == (map id | id in rows :: rows[id]);
    }

    method PushDeviceDelete(token: string, claimant: Option<string>) returns (existed: bool)
      modifies this
      ensures Now() == Apply(old(Now()), DeleteDevice(token, claimant)) && (existed <==> token in old(devices))
      ensures forall id :: id in old(rows) && old(rows)[id].token != token ==> id in rows && rows[id] == old(rows)[id]
      ensures forall id :: id in rows && rows[id].token == token ==>
                claimant.Some? && rows[id].status == Sending && rows[id].owner != claimant.value && id in old(rows)
      ensures forall id :: id in old(rows) && claimant.Some? && old(rows)[id].status == Sending && old(rows)[id].owner != claimant.value ==>
                id in rows && rows[id] == old(rows)[id]
      ensures devices.Keys == old(devices).Keys - {token}
    {
      if claimant.None? {
        rows := map id | id in rows && rows[id].token != token :: rows[id];
      } else {
        rows := map id | id in rows && !(rows[id].token == token && (rows[id].status != Sending || rows[id].owner == claimant.value))
          :: rows[id];
      }
      existed := token in devices;
      devices := devices - {token};
    }

    method PushDevicesRevokeAll() returns (count: nat)
      modifies this
      ensures Now() == Apply(old(Now()), RevokeAll) && count == |old(devices)| && rows == map[] && devices == map[]
    {
      count := |devices|;
      rows, devices := map[], map[];
    }

    method PushDevicePruneExpired(now: Time)
      modifies this
      ensures Now() == Apply(old(Now()), PruneDevices(now))
      ensures forall d :: d in devices <==> d in old(devices) && now < old(devices)[d].expiresAt
      ensures forall d :: d in devices ==> devices[d] == old(devices)[d]
      ensures forall id :: id in old(rows) && (old(rows)[id].token !in old(devices) || old(rows)[id].token in devices) ==>
                id in rows && rows[id] == old(rows)[id]
      ensures forall id :: id in old(rows) && old(rows)[id].token in old(devices) && old(rows)[id].token !in devices ==>
                (id in rows <==> old(rows)[id].status == Sending && now < old(rows)[id].leaseUntil)
    {
      var expired := set d | d in devices && devices[d].expiresAt <= now;
      ghost var was := Now();
      if expired != {} {
        rows := map id | id in rows && !(rows[id].token in expired && (rows[id].status != Sending || rows[id].leaseUntil <= now))
          :: rows[id];
      }
      assert forall id :: id in was.rows && was.rows[id].token in was.devices ==>
               (was.rows[id].token in expired <==> was.devices[was.rows[id].token].expiresAt <= now);
      IsApply(was, PruneDevices(now), rows);
      devices := map d | d in devices && devices[d].expiresAt > now :: devices[d];
    }

    /** The newest devices that have not expired. */
    method PushDevices(limit: int, now: Time) returns (tokens: seq<string>)
      ensures NewestFirst(devices, tokens, limit, now)
    {
      tokens := [];
      var rest := set d | d in devices && devices[d].expiresAt > now;
      while |tokens| < Clamp(1, limit, 128) && rest != {}
        invariant |tokens| <= Clamp(1, limit, 128) && forall d :: d in rest ==> Live(devices, d, now)
        invariant forall i :: 0 <= i < |tokens| ==> Live(devices, tokens[i], now)
        invariant forall d :: Live(devices, d, now) ==> (d in rest <==> d !in tokens)
        invariant forall i, j :: 0 <= i < j < |tokens| ==> tokens[i] != tokens[j] && devices[tokens[i]].updatedAt >= devices[tokens[j]].updatedAt
        invariant forall d, i :: d in rest && 0 <= i < |tokens| ==> devices[tokens[i]].updatedAt >= devices[d].updatedAt
        decreases rest
      {
        var newest := Newest(rest);
        tokens := tokens + [newest];
        rest := rest - {newest};
      }
    }

    method Newest(tokens: set<string>) returns (newest: string)
      requires tokens != {} && tokens <= devices.Keys
      ensures newest in tokens && forall d :: d in tokens ==> devices[newest].updatedAt >= devices[d].updatedAt
    {
      newest :| newest in tokens;
      var rest := tokens - {newest};
      while rest != {}
        invariant newest in tokens && rest <= tokens
        invariant forall d :: d in tokens && d !in rest ==> devices[newest].updatedAt >= devices[d].updatedAt
        decreases rest
      {
        var d :| d in rest;
        if devices[d].updatedAt > devices[newest].updatedAt { newest := d; }
        rest := rest - {d};
      }
    }

    /** One row for each of the newest devices that has none for the message yet. */
    method PushOutboxEnqueue(key: string, retention: int, deviceLimit: int, now: Time) returns (inserted: nat, targets: seq<string>)
      modifies this
      ensures NewestFirst(old(devices), targets, deviceLimit, now)
      ensures Now() == Apply(old(Now()), Enqueue(key, targets, retention, now))
      ensures inserted == nextId - old(nextId)
    {
      targets := PushDevices(deviceLimit, now);
      inserted := InsertRows(key, targets, retention, now);
    }

    method InsertRows(key: string, targets: seq<string>, retention: int, now: Time) returns (inserted: nat)
      modifies this`rows, this`nextId
      ensures Now() == Apply(old(Now()), Enqueue(key, targets, retention, now))
      ensures inserted == nextId - old(nextId)
    {
      inserted := 0;
      for i := 0 to |targets|
        invariant (rows, nextId) == Inserted(old(rows), old(nextId), Clipped(key, 256), targets[..i], retention, now)
        invariant inserted == nextId - old(nextId)
      {
        assert targets[..i + 1][..i] == targets[..i];
        if !Known(rows, Clipped(key, 256), targets[i]) {
          rows := rows[nextId := NewRow(Clipped(key, 256), targets[i], retention, now)];
          nextId := nextId + 1;
          inserted := inserted + 1;
        }
      }
      assert targets[..|targets|] == targets;
    }

    /** The three updates before a claim. */
    method Sweep(now: Time)
      modifies this`rows
      ensures rows == map id | id in old(rows) :: Swept(old(rows)[id], old(rows)[id].token in devices, now)
    {
      ghost var before := rows;
      rows := map id | id in rows :: Reopened(rows[id], now);
      ghost var reopened := rows;
      rows := map id | id in rows :: Overdue(rows[id], now);
      ghost var overdue := rows;
      rows := map id | id in rows :: Orphaned(rows[id], rows[id].token in devices, now);
      SweepIsSwept(before, devices, now, reopened, overdue, rows);
    }

    /** The sweep, the ordered selection, and the claiming update. */
    method PushOutboxClaimDue(claimOwner: string, limit: int, leaseSeconds: int, now: Time)
      returns (r: Result<seq<nat>, OwnerError>)
      modifies this
      ensures r.Err? <==> Text.Strip(claimOwner) == ""
      ensures r.Err? ==> Now() == old(Now())
      ensures r.Ok? ==> FirstDue(old(Now()), r.value, limit, now)
      ensures r.Ok? ==> Now() == Apply(old(Now()), ClaimDue(Text.Strip(claimOwner), r.value, leaseSeconds, now))
      ensures r.Ok? ==> forall id :: id in r.value ==> TakenBy(old(rows), rows, id, Text.Strip(claimOwner), leaseSeconds, now)
    {
      var owner := Text.Strip(claimOwner);
      if owner == "" { return Err(EmptyOwner); }
      hide Text.Strip, FirstDue, Apply, TakenBy;
      var ids := ClaimFor(owner, limit, leaseSeconds, now);
      ClaimTakes(old(Now()), ids, owner, limit, leaseSeconds, now);
      return Ok(ids);
    }

    method ClaimFor(owner: string, limit: int, leaseSeconds: int, now: Time) returns (ids: seq<nat>)
      modifies this`rows
      ensures FirstDue(old(Now()), ids, limit, now)
      ensures Now() == Apply(old(Now()), ClaimDue(owner, ids, leaseSeconds, now))
    {
      Sweep(now);
      ghost var swept := rows;
      var due := set id | id in rows && rows[id].status == Pending && rows[id].nextAttemptAt <= now && rows[id].expiresAt > now;
      ids := FirstByTime(rows, due, Clamp(1, limit, 128));
      SelectedIsFirstDue(old(Now()), swept, due, ids, limit, now);
      Take(ids, owner, leaseSeconds, now);
      ClaimIsApply(old(Now()), swept, rows, owner, ids, leaseSeconds, now);
    }

    method Take(ids: seq<nat>, owner: string, leaseSeconds: int, now: Time)
      requires forall id :: id in ids ==> id in rows && rows[id].status == Pending
      modifies this`rows
      ensures rows == map id | id in old(rows) ::
                if id in ids then Claimed(old(rows)[id], owner, leaseSeconds, now) else old(rows)[id]
    {
      rows := map id | id in rows ::
        if rows[id].status == Pending && id in ids then Claimed(rows[id], owner, leaseSeconds, now) else rows[id];
    }

    method PushOutboxRenewClaims(outboxIds: set<nat>, claimOwner: string, leaseSeconds: int, now: Time)
      returns (r: Result<set<nat>, OwnerError>)
      modifies this
      ensures r.Err? <==> outboxIds != {} && Text.Strip(claimOwner) == ""
      ensures r.Err? || outboxIds == {} ==> Now() == old(Now())
      ensures r.Ok? ==> forall id :: id in r.value <==> id in outboxIds && id in old(rows) && Owns(old(rows)[id], Text.Strip(claimOwner))
      ensures r.Ok? && outboxIds != {} ==>
                Now() == Apply(old(Now()), Renew(Text.Strip(claimOwner), outboxIds, leaseSeconds, now))
      ensures r.Ok? ==> rows.Keys == old(rows).Keys && forall id :: id in rows ==>
                rows[id] == if id in r.value
                            then old(rows)[id].(leaseUntil := now + Clamp(10, leaseSeconds, 300) as real, updatedAt := now)
                            else old(rows)[id]
    {
      hide Text.Strip, Apply;
      if outboxIds == {} { return Ok({}); }
      var owner := Text.Strip(claimOwner);
      if owner == "" { return Err(EmptyOwner); }
      rows := map id | id in rows :: if Owns(rows[id], owner) && id in outboxIds then Renewed(rows[id], leaseSeconds, now) else rows[id];
      RenewIsApply(old(Now()), owner, outboxIds, leaseSeconds, now);
      return Ok(set id | id in outboxIds && id in rows && Owns(rows[id], owner));
    }

    method PushOutboxFinish(outboxId: nat, claimOwner: string, sent: bool, retry: bool, delay: int, failure: string,
                            maxAttempts: int, now: Time)
      returns (r: Result<FinishStatus, OwnerError>)
      modifies this
      ensures r.Err? <==> Text.Strip(claimOwner) == ""
      ensures r.Err? ==> Now() == old(Now())
      ensures r.Ok? ==> Now() == Apply(old(Now()), Finish(Text.Strip(claimOwner), outboxId, sent, retry, delay, failure, maxAttempts, now))
      ensures r.Ok? ==> (r.value.Missing? <==> outboxId !in old(rows))
                        && (r.value.NotOwned? <==> outboxId in old(rows) && !Owns(old(rows)[outboxId], Text.Strip(claimOwner)))
                        && (r.value.Became? ==> outboxId in rows && r.value.status == rows[outboxId].status)
    {
      hide Text.Strip, Owns, Finished;
      var owner := Text.Strip(claimOwner);
      if owner == "" { return Err(EmptyOwner); }
      var op := Finish(owner, outboxId, sent, retry, delay, failure, maxAttempts, now);
      if outboxId !in rows || !Owns(rows[outboxId], owner) {
        IsApply(Now(), op, rows);
        return Ok(if outboxId in rows then NotOwned else Missing);
      }
      var status := FinishOwned(outboxId, owner, sent, retry, delay, failure, maxAttempts, now);
      return Ok(Became(status));
    }

    method FinishOwned(outboxId: nat, owner: string, sent: bool, retry: bool, delay: int, failure: string,
                       maxAttempts: int, now: Time) returns (status: Status)
      requires outboxId in rows && Owns(rows[outboxId], owner)
      modifies this`rows
      ensures Now() == Apply(old(Now()), Finish(owner, outboxId, sent, retry, delay, failure, maxAttempts, now))
      ensures outboxId in rows && rows[outboxId].status == status
    {
      var row := rows[outboxId];
      var electRetry := retry && row.token in devices && row.attempts < AtLeast(1, maxAttempts) && row.expiresAt > now;
      status := Failed;
      var nextAttemptAt, sentAt := now, None;
      if sent {
        status, sentAt := Sent, Some(now);
      } else if electRetry {
        status, nextAttemptAt := Pending, now + Clamp(1, delay, 86400) as real;
      }
      rows := rows[outboxId :=
        row.(status := status, nextAttemptAt := nextAttemptAt, leaseUntil := 0.0, owner := "",
             error := if failure == "" then None else Some(Clipped(failure, 1000)), updatedAt := now, sentAt := sentAt)];
      FinishIsApply(old(Now()), owner, outboxId, sent, retry, delay, failure, maxAttempts, now);
    }

    method PushOutboxPrune(olderThanDays: int, now: Time)
      modifies this
      ensures Now() == Apply(old(Now()), PruneRows(olderThanDays, now))
      ensures forall id :: id in rows ==> id in old(rows) && rows[id] == old(rows)[id]
      ensures forall id :: id in old(rows) && id !in rows ==>
                old(rows)[id].status in {Sent, Failed} && old(rows)[id].updatedAt + 86400.0 < now
      ensures forall id :: id in rows && rows[id].status in {Sent, Failed} ==>
                now <= rows[id].updatedAt + 86400.0 || now <= rows[id].updatedAt + (86400 * olderThanDays) as real
    {
      var cutoff := now - (AtLeast(1, olderThanDays) * 86400) as real;
      rows := map id | id in rows && !(rows[id].status in {Sent, Failed} && rows[id].updatedAt < cutoff) :: rows[id];
    }
  }
}
