/**
  Resumable uploads (app/device_vault.py, `append_chunk`, `_reconcile_received`,
  `queue_completion`): a part file and its receipt are written one after the
  other, and the server may stop at any moment between them.
*/
module VaultUpload {
  import opened Results

  type Bytes = seq<bv8>

  const MAX_CHUNK_BYTES := 1024 * 1024

  /** The other statuses of a receipt do not matter here. */
  datatype Status = Receiving | Uploaded | Queued

  /** What is on disk: the part file, and the receipt's status and count. */
  datatype Disk = Disk(part: Bytes, received: int, status: Status)

  datatype Error = BadSize | Corrupt | Closed | WrongOffset(expected: nat) | TooLarge | Incomplete

  /** How far a call gets before the server stops: the receipt as it was with a
      torn part file, or all the way. */
  datatype Fault = Stopped(written: nat) | Done

  datatype Call =
    | Append(offset: int, payload: Bytes, fault: Fault)
    | AskStatus(stopped: bool)
    | Queue

  // ---------- what a call does ----------

  predicate Sound(d: Disk, size: nat) {
    d.status == Receiving ==> 0 <= d.received <= size && size >= 1
  }

  function Truncated(part: Bytes, received: nat): Bytes {
    if |part| > received then part[..received] else part
  }

  /** Unacknowledged bytes are cut off; missing ones are not counted. */
  function Reconciled(d: Disk, size: nat): Disk
    requires Sound(d, size)
  {
    if d.status != Receiving then d
    else
      var part := Truncated(d.part, d.received);
      Disk(part, |part|, if |part| == size then Uploaded else Receiving)
  }

  function Refusal(d: Disk, size: nat, offset: int, payload: Bytes): Option<Error> {
    if d.status != Receiving then Some(Closed)
    else if offset != |d.part| then Some(WrongOffset(|d.part|))
    else if |d.part| + |payload| > size then Some(TooLarge)
    else None
  }

  function Appended(d: Disk, size: nat, payload: Bytes, fault: Fault): Disk {
    match fault
    case Stopped(written) => d.(part := d.part + payload[..if written > |payload| then |payload| else written])
    case Done =>
      var received := |d.part| + |payload|;
      Disk(d.part + payload, received, if received == size then Uploaded else d.status)
  }

  datatype Outcome = Acknowledged | Refused(error: Error) | Lost

  datatype Step = Step(disk: Disk, outcome: Outcome)

  function Called(d: Disk, size: nat, call: Call): Step {
    match call
    case Append(offset, payload, fault) =>
      if payload == [] || |payload| > MAX_CHUNK_BYTES then Step(d, Refused(BadSize))
      else if !Sound(d, size) then Step(d, Refused(Corrupt))
      else
        var r := Reconciled(d, size);
        var refusal := Refusal(r, size, offset, payload);
        if refusal.Some? then Step(r, Refused(refusal.value))
        else Step(Appended(r, size, payload, fault), if fault.Done? then Acknowledged else Lost)
    case AskStatus(stopped) =>
      if !Sound(d, size) then Step(d, Refused(Corrupt))
      else if stopped then Step(if d.status == Receiving then d.(part := Truncated(d.part, d.received)) else d, Lost)
      else Step(Reconciled(d, size), Acknowledged)
    case Queue =>
      if !Sound(d, size) then Step(d, Refused(Corrupt))
      else
        var r := Reconciled(d, size);
        if r.status == Receiving then Step(r, Refused(Incomplete)) else Step(r.(status := Queued), Acknowledged)
  }

  const EMPTY := Disk([], 0, Receiving)

  function After(size: nat, calls: seq<Call>): Disk {
    if calls == [] then EMPTY else Called(After(size, calls[..|calls| - 1]), size, calls[|calls| - 1]).disk
  }

  /** The acknowledged chunks of the run, one after the other. */
  function AckedBytes(size: nat, calls: seq<Call>): Bytes {
    if calls == [] then []
    else
      var before, call := calls[..|calls| - 1], calls[|calls| - 1];
      AckedBytes(size, before)
      + if call.Append? && Called(After(size, before), size, call).outcome == Acknowledged then call.payload else []
  }

  // ---------- theorems ----------

  /** The receipt counts the acknowledged bytes, and the part file starts with
      them; only while receiving may it hold more. */
  ghost predicate Holds(d: Disk, size: nat, acked: Bytes) {
    && size >= 1 && d.received == |acked| <= size && acked <= d.part
    && (d.status != Receiving ==> d.part == acked && d.received == size)
  }

  lemma ReconciledHolds(d: Disk, size: nat, acked: Bytes)
    requires Holds(d, size, acked)
    ensures Sound(d, size)
    ensures var r := Reconciled(d, size);
            r.part == acked && r.received == |acked| && (r.status == Receiving <==> |acked| < size)
            && (r.status != d.status ==> r.status == Uploaded)
  {
    if d.status == Receiving { assert Truncated(d.part, d.received) == acked; }
  }

  lemma CallHolds(d: Disk, size: nat, acked: Bytes, call: Call)
    requires Holds(d, size, acked)
    ensures var s := Called(d, size, call);
            Holds(s.disk, size, acked + if call.Append? && s.outcome == Acknowledged then call.payload else [])
  {
    ReconciledHolds(d, size, acked);
    assert acked + [] == acked;
  }

  lemma {:induction false} RunHolds(size: nat, calls: seq<Call>)
    requires size > 0
    ensures Holds(After(size, calls), size, AckedBytes(size, calls))
  {
    if calls != [] {
      hide Called, Holds;
      RunHolds(size, calls[..|calls| - 1]);
      CallHolds(After(size, calls[..|calls| - 1]), size, AckedBytes(size, calls[..|calls| - 1]), calls[|calls| - 1]);
    }
  }

  /** After recovery the part file is exactly the acknowledged chunks, its length
      is the recorded count, and the upload counts as complete exactly when that
      count is the announced size, whatever calls and crashes came before. */
  lemma {:induction false} RecoveredIsAcked(size: nat, calls: seq<Call>)
    requires size > 0
    ensures Sound(After(size, calls), size)
    ensures var r := Reconciled(After(size, calls), size);
            && r.part == AckedBytes(size, calls) && r.received == |r.part| <= size
            && (r.status != Receiving <==> r.received == size)
  {
    RunHolds(size, calls);
    ReconciledHolds(After(size, calls), size, AckedBytes(size, calls));
  }

  /** The client sends the file's own bytes at the offset it names. */
  predicate Honest(file: Bytes, call: Call) {
    call.Append? ==> 0 <= call.offset && call.offset + |call.payload| <= |file|
                     && call.payload == file[call.offset..call.offset + |call.payload|]
  }

  /** However often the client resends and the server stops, a complete upload is
      the client's file, and an incomplete one its beginning. */
  lemma {:induction false} ResendingIsSafe(file: Bytes, calls: seq<Call>)
    requires |file| > 0 && forall i :: 0 <= i < |calls| ==> Honest(file, calls[i])
    ensures AckedBytes(|file|, calls) <= file
    ensures After(|file|, calls).status != Receiving ==> After(|file|, calls).part == file
  {
    hide Called, Holds, Reconciled, Sound, Honest;
    RunHolds(|file|, calls);
    if calls != [] {
      var before, call := calls[..|calls| - 1], calls[|calls| - 1];
      assert forall i :: 0 <= i < |before| ==> before[i] == calls[i];
      ResendingIsSafe(file, before);
      RunHolds(|file|, before);
      assert Honest(file, call);
      var acked := AckedBytes(|file|, before);
      if call.Append? && Called(After(|file|, before), |file|, call).outcome == Acknowledged {
        AckedAtOffset(After(|file|, before), |file|, acked, call);
        HonestExtends(file, acked, call);
      } else {
        assert acked + [] == acked;
      }
    }
    WholeFile(After(|file|, calls), file, AckedBytes(|file|, calls));
  }

  lemma HonestExtends(file: Bytes, acked: Bytes, call: Call)
    requires call.Append? && Honest(file, call) && call.offset == |acked| && acked <= file
    ensures acked + call.payload <= file
  {
    assert file[..|acked|] + file[|acked|..|acked| + |call.payload|] == file[..|acked| + |call.payload|];
  }

  lemma WholeFile(d: Disk, file: Bytes, acked: Bytes)
    requires Holds(d, |file|, acked) && acked <= file
    ensures d.status != Receiving ==> d.part == file
  {
  }

  lemma AckedAtOffset(d: Disk, size: nat, acked: Bytes, call: Call)
    requires Holds(d, size, acked) && call.Append? && Called(d, size, call).outcome == Acknowledged
    ensures call.offset == |acked|
  {
    ReconciledHolds(d, size, acked);
  }

  /** The client can always go on: the next bytes, sent at the count that asking
      for the status returns, are acknowledged after any calls and crashes. */
  lemma {:induction false} NextChunkAccepted(size: nat, calls: seq<Call>, payload: Bytes)
    requires 0 < |payload| <= 1048576 && |AckedBytes(size, calls)| + |payload| <= size
    ensures Called(After(size, calls), size, Append(|AckedBytes(size, calls)|, payload, Done)).outcome == Acknowledged
  {
    RunHolds(size, calls);
    ReconciledHolds(After(size, calls), size, AckedBytes(size, calls));
  }

  /** What any chunk is answered depends on the acknowledged bytes alone: it is refused when
      empty or over a megabyte, after the last byte, at another offset than their count, and
      when it would pass the announced size, in this order, and acknowledged otherwise. */
  lemma AppendAnswers(size: nat, calls: seq<Call>, offset: int, payload: Bytes)
    requires size > 0
    ensures var acked, outcome := |AckedBytes(size, calls)|, Called(After(size, calls), size, Append(offset, payload, Done)).outcome;
            && (outcome == Refused(BadSize) <==> payload == [] || |payload| > 1048576)
            && (outcome != Refused(BadSize) ==>
                  && (outcome == Refused(Closed) <==> acked == size)
                  && (outcome == Refused(WrongOffset(acked)) <==> acked < size && offset != acked)
                  && (outcome == Refused(TooLarge) <==> acked < size && offset == acked && acked + |payload| > size)
                  && (outcome == Acknowledged <==> acked < size && offset == acked && acked + |payload| <= size))
  {
    RunHolds(size, calls);
    ReconciledHolds(After(size, calls), size, AckedBytes(size, calls));
  }

  /** An upload is queued exactly when all its bytes are acknowledged. */
  lemma QueueAnswers(size: nat, calls: seq<Call>)
    requires size > 0
    ensures var acked, step := |AckedBytes(size, calls)|, Called(After(size, calls), size, Queue);
            if acked == size then step.outcome == Acknowledged && step.disk.status == Queued
            else step.outcome == Refused(Incomplete) && step.disk.status == Receiving
  {
    RunHolds(size, calls);
    ReconciledHolds(After(size, calls), size, AckedBytes(size, calls));
  }

  // ---------- the calls ----------

  class Upload {
    const size: nat
    var part: Bytes
    var received: int
    var status: Status

    ghost function Now(): Disk
      reads this
    {
      Disk(part, received, status)
    }

    constructor (size: nat)
      ensures Now() == EMPTY && this.size == size
    {
      this.size, part, received, status := size, [], 0, Receiving;
    }

    method ReconcileReceived() returns (ok: bool)
      modifies this
      ensures ok <==> Sound(old(Now()), size)
      ensures Now() == if ok then Reconciled(old(Now()), size) else old(Now())
    {
      if status != Receiving { return true; }
      if !(0 <= received <= size) || size < 1 { return false; }
      var current := |part|;
      if current > received {
        part := part[..received];
        current := received;
      }
      received := current;
      if current == size { status := Uploaded; }
      return true;
    }

    method AppendChunk(offset: int, payload: Bytes, fault: Fault) returns (outcome: Outcome)
      modifies this
      ensures Step(Now(), outcome) == Called(old(Now()), size, Append(offset, payload, fault))
    {
      if payload == [] || |payload| > MAX_CHUNK_BYTES { return Refused(BadSize); }
      var ok := ReconcileReceived();
      if !ok { return Refused(Corrupt); }
      if status != Receiving { return Refused(Closed); }
      var current := |part|;
      if offset != current { return Refused(WrongOffset(current)); }
      if current + |payload| > size { return Refused(TooLarge); }
      if fault.Stopped? {
        part := part + payload[..if fault.written > |payload| then |payload| else fault.written];
        return Lost;
      }
      part := part + payload;
      received := current + |payload|;
      if received == size { status := Uploaded; }
      return Acknowledged;
    }

    method QueueCompletion() returns (outcome: Outcome)
      modifies this
      ensures Step(Now(), outcome) == Called(old(Now()), size, Queue)
    {
      var ok := ReconcileReceived();
      if !ok { return Refused(Corrupt); }
      if status == Queued { return Acknowledged; }
      if status != Uploaded { return Refused(Incomplete); }
      status := Queued;
      return Acknowledged;
    }

    /** `stopped`: the server stops between the truncation and the receipt. */
    method UploadStatus(stopped: bool) returns (outcome: Outcome)
      modifies this
      ensures Step(Now(), outcome) == Called(old(Now()), size, AskStatus(stopped))
    {
      if stopped {
        if status == Receiving {
          if !(0 <= received <= size && size >= 1) { return Refused(Corrupt); }
          if |part| > received { part := part[..received]; }
        }
        return Lost;
      }
      var ok := ReconcileReceived();
      return if ok then Acknowledged else Refused(Corrupt);
    }
  }
}
