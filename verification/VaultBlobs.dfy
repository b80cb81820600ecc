/**
  The content-addressed blobs of the device vault (app/device_vault.py,
  `_prepare_blob_locked`, `_complete_upload_locked`, `download_blob`,
  `_restore_missing_blob`, `remove_local_copy`) with the receipts that
  app/handover_rescue.py imports: completions, rescues and removals of different
  uploads interleave at their locks, and the server may stop at any moment,
  between the unlinks of a removal as well.

  All requests are served by threads of one process; the lock of the records is
  taken by everything but preparing a blob and writing a rescued one.  The digest
  of some bytes is the given function `Hash`.
*/
module VaultBlobs {
  import opened Results

  type Bytes = seq<bv8>
  type Digest = string
  type Hash = Bytes -> Digest

  /** Uploads are numbered as they come; the name of an imported receipt is made
      from its origin, target and digest. */
  datatype Id = Upload(number: nat) | Imported(signature: string, digest: Digest)

  datatype Status = Receiving | Uploaded | Queued | Transferring | Ready | Failed | Remote

  datatype Record = Record(digest: Digest, size: nat, status: Status)

  /** A removal under way, which holds the lock of the records and that of the
      blob; `shared`: the scan has found another receipt of the digest. */
  datatype Removal = Removal(id: Id, shared: bool, blobDone: bool)

  /** On disk are the receipts, part files and blobs.  The rest lives in memory: the
      receipts read by downloads that have to bring their file back, the rescues
      under way with the receipt they read, those that have written their blob and
      still hold its lock, the transfers under way and those with their blob prepared. */
  datatype Vault = Vault(
    records: map<Id, Record>, parts: map<Id, Bytes>, blobs: map<Digest, Bytes>, uploads: nat,
    looked: map<Id, Record>, rescuing: map<Id, Record>, holding: set<Id>,
    transfers: set<Id>, prepared: set<Id>, removal: Option<Removal>)

  const EMPTY := Vault(map[], map[], map[], 0, map[], map[], {}, {}, {}, None)

  datatype Op =
    | Create(digest: Digest, size: nat, sawBlob: bool)
    | Append(id: Id, payload: Bytes)
    | Cut(id: Id, received: nat)                  // unacknowledged bytes go
    | Complete(id: Id)
    | Queue(id: Id)
    | Import(signature: string, digest: Digest, size: nat)
    | Begin(id: Id)
    | Prepare(id: Id)
    | Publish(id: Id)
    | Fail(id: Id)                                // possible after the publication too
    | Release(id: Id)
    | Look(id: Id)                                // a download finds that it has to bring the file back
    | OpenRescue(id: Id)
    | Rescue(id: Id, fetched: Bytes)              // the fetched file becomes the blob
    | SaveRescue(id: Id)
    | CloseRescue(id: Id)
    | RemovePart(id: Id)                          // the scan and the first of three unlinks
    | RemoveBlob
    | RemoveReceipt
    | Stop                                        // the server stops

  // ---------- conditions ----------

  predicate Has(v: Vault, id: Id) {
    id in v.records && v.records[id].digest in v.blobs
  }

  predicate BlobIs(v: Vault, hash: Hash, r: Record) {
    r.digest in v.blobs && |v.blobs[r.digest]| == r.size && hash(v.blobs[r.digest]) == r.digest
  }

  predicate PartIs(v: Vault, hash: Hash, id: Id, r: Record) {
    id in v.parts && |v.parts[id]| == r.size && hash(v.parts[id]) == r.digest
  }

  /** A part file that is not there yet reads as empty. */
  function PartOf(v: Vault, id: Id): Bytes {
    if id in v.parts then v.parts[id] else []
  }

  predicate StatusIs(v: Vault, id: Id, statuses: set<Status>) {
    id in v.records && v.records[id].status in statuses
  }

  /** `_prepare_blob_locked` succeeds. */
  predicate CanPrepare(v: Vault, hash: Hash, id: Id) {
    id in v.records && if v.records[id].digest in v.blobs then BlobIs(v, hash, v.records[id]) else PartIs(v, hash, id, v.records[id])
  }

  predicate Shared(v: Vault, id: Id, digest: Digest) {
    exists other :: other in v.records && other != id && v.records[other].digest == digest
  }

  predicate Busy(v: Vault, id: Id) {
    id in v.transfers || id in v.rescuing
  }

  /** Nobody holds the lock of the blob. */
  predicate BlobFree(v: Vault, digest: Digest) {
    && (forall id :: id in v.holding && id in v.rescuing ==> v.rescuing[id].digest != digest)
    && (v.removal.Some? && v.removal.value.id in v.records ==> v.records[v.removal.value.id].digest != digest)
  }

  predicate Fits(r: Record, hash: Hash, bytes: Bytes) {
    |bytes| == r.size && hash(bytes) == r.digest
  }

  /** The steps that wait for the lock of the records. */
  predicate TakesRecordLock(op: Op) {
    !(op.Prepare? || op.Look? || op.Rescue? || op.SaveRescue? || op.RemoveBlob? || op.RemoveReceipt? || op.Stop?)
  }

  predicate Allowed(v: Vault, hash: Hash, op: Op) {
    && (TakesRecordLock(op) ==> v.removal.None?)
    && match op
       case Create(_, size, _) => size >= 1
       case Append(id, payload) => StatusIs(v, id, {Receiving}) && |PartOf(v, id)| + |payload| <= v.records[id].size
       case Cut(id, received) => StatusIs(v, id, {Receiving}) && received <= |PartOf(v, id)|
       case Complete(id) => StatusIs(v, id, {Receiving}) && |PartOf(v, id)| == v.records[id].size
       case Queue(id) => StatusIs(v, id, {Uploaded})
       case Import(signature, digest, size) => Imported(signature, digest) !in v.records && size >= 1
       case Begin(id) => StatusIs(v, id, {Queued, Transferring}) && !Busy(v, id)
       case Prepare(id) =>
         && id in v.transfers && id !in v.prepared && StatusIs(v, id, {Transferring})
         && CanPrepare(v, hash, id) && BlobFree(v, v.records[id].digest)
       case Publish(id) => id in v.prepared && StatusIs(v, id, {Transferring})
       case Fail(id) => id in v.transfers
       case Release(id) => id in v.transfers
       case Look(id) => StatusIs(v, id, {Remote}) || (StatusIs(v, id, {Ready}) && !Has(v, id))
       case OpenRescue(id) => id in v.looked && !Busy(v, id)
       case Rescue(id, fetched) =>
         id in v.rescuing && id !in v.holding && Fits(v.rescuing[id], hash, fetched) && BlobFree(v, v.rescuing[id].digest)
       case SaveRescue(id) => id in v.holding && id in v.rescuing
       case CloseRescue(id) => id in v.rescuing && id !in v.holding
       case RemovePart(id) =>
         id in v.records && !Busy(v, id) && v.records[id].status !in {Queued, Transferring} && BlobFree(v, v.records[id].digest)
       case RemoveBlob => v.removal.Some? && !v.removal.value.blobDone
       case RemoveReceipt => v.removal.Some? && v.removal.value.blobDone
       case Stop => true
  }

  // ---------- steps ----------

  function WithStatus(records: map<Id, Record>, id: Id, status: Status): map<Id, Record> {
    if id in records then records[id := records[id].(status := status)] else records
  }

  function RecordsAfter(v: Vault, op: Op): map<Id, Record> {
    match op
    case Create(digest, size, sawBlob) =>
      v.records[Upload(v.uploads) := Record(digest, size, if sawBlob then Uploaded else Receiving)]
    case Complete(id) => WithStatus(v.records, id, Uploaded)
    case Queue(id) => WithStatus(v.records, id, Queued)
    case Import(signature, digest, size) => v.records[Imported(signature, digest) := Record(digest, size, Remote)]
    case Begin(id) => WithStatus(v.records, id, Transferring)
    case Publish(id) => WithStatus(v.records, id, Ready)
    case Fail(id) => WithStatus(v.records, id, Failed)
    case SaveRescue(id) => if id in v.rescuing then v.records[id := v.rescuing[id].(status := Ready)] else v.records
    case RemoveReceipt => if v.removal.Some? then v.records - {v.removal.value.id} else v.records
    case _ => v.records
  }

  function PartsAfter(v: Vault, op: Op): map<Id, Bytes> {
    match op
    case Create(_, _, sawBlob) => if sawBlob then v.parts else v.parts[Upload(v.uploads) := []]
    case Append(id, payload) => v.parts[id := PartOf(v, id) + payload]
    case Cut(id, received) => if received <= |PartOf(v, id)| then v.parts[id := PartOf(v, id)[..received]] else v.parts
    case Prepare(id) => v.parts - {id}
    case RemovePart(id) => v.parts - {id}
    case _ => v.parts
  }

  /** A part file takes the blob's place when there is none; a removal unlinks a blob nobody shares. */
  function BlobsAfter(v: Vault, op: Op): map<Digest, Bytes> {
    match op
    case Prepare(id) =>
      if id in v.records && !Has(v, id) then v.blobs[v.records[id].digest := PartOf(v, id)] else v.blobs
    case Rescue(id, fetched) => if id in v.rescuing then v.blobs[v.rescuing[id].digest := fetched] else v.blobs
    case RemoveBlob =>
      if v.removal.Some? && !v.removal.value.shared && v.removal.value.id in v.records
      then v.blobs - {v.records[v.removal.value.id].digest} else v.blobs
    case _ => v.blobs
  }

  function LookedAfter(v: Vault, op: Op): map<Id, Record> {
    match op
    case Look(id) => if id in v.records then v.looked[id := v.records[id]] else v.looked
    case OpenRescue(id) => v.looked - {id}
    case Stop => map[]
    case _ => v.looked
  }

  function RescuingAfter(v: Vault, op: Op): map<Id, Record> {
    match op
    case OpenRescue(id) => if id in v.looked then v.rescuing[id := v.looked[id]] else v.rescuing
    case CloseRescue(id) => v.rescuing - {id}
    case Stop => map[]
    case _ => v.rescuing
  }

  function HoldingAfter(v: Vault, op: Op): set<Id> {
    match op
    case Rescue(id, _) => v.holding + {id}
    case SaveRescue(id) => v.holding - {id}
    case Stop => {}
    case _ => v.holding
  }

  function TransfersAfter(v: Vault, op: Op): set<Id> {
    match op
    case Begin(id) => v.transfers + {id}
    case Release(id) => v.transfers - {id}
    case Stop => {}
    case _ => v.transfers
  }

  function PreparedAfter(v: Vault, op: Op): set<Id> {
    match op
    case Prepare(id) => v.prepared + {id}
    case Fail(id) => v.prepared - {id}
    case Release(id) => v.prepared - {id}
    case Stop => {}
    case _ => v.prepared
  }

  function RemovalAfter(v: Vault, op: Op): Option<Removal> {
    match op
    case RemovePart(id) => if id in v.records then Some(Removal(id, Shared(v, id, v.records[id].digest), false)) else v.removal
    case RemoveBlob => if v.removal.Some? then Some(v.removal.value.(blobDone := true)) else None
    case RemoveReceipt => None
    case Stop => None
    case _ => v.removal
  }

  function Apply(v: Vault, op: Op): Vault {
    Vault(RecordsAfter(v, op), PartsAfter(v, op), BlobsAfter(v, op), if op.Create? then v.uploads + 1 else v.uploads,
          LookedAfter(v, op), RescuingAfter(v, op), HoldingAfter(v, op),
          TransfersAfter(v, op), PreparedAfter(v, op), RemovalAfter(v, op))
  }

  function From(v: Vault, hash: Hash, ops: seq<Op>): Option<Vault> {
    if ops == [] then Some(v)
    else
      var w, op := From(v, hash, ops[..|ops| - 1]), ops[|ops| - 1];
      if w.Some? && Allowed(w.value, hash, op) then Some(Apply(w.value, op)) else None
  }

  function After(hash: Hash, ops: seq<Op>): Option<Vault> {
    From(EMPTY, hash, ops)
  }

  // ---------- removals that were stopped ----------

  /** The removal of this upload has unlinked its blob and not yet its receipt. */
  predicate HalfRemoved(v: Vault, id: Id) {
    v.removal.Some? && v.removal.value.id == id && v.removal.value.blobDone && !v.removal.value.shared
  }

  /** The blob the step puts in place. */
  function PutBack(v: Vault, op: Op): Option<Digest> {
    if op.Prepare? && op.id in v.records then Some(v.records[op.id].digest)
    else if op.Rescue? && op.id in v.rescuing then Some(v.rescuing[op.id].digest)
    else None
  }

  /** The step ends what a stopped removal has left: the blob is put back, the
      receipt is written anew, or the removal is made again to its end. */
  predicate Mends(v: Vault, op: Op, id: Id) {
    || (id in v.records && PutBack(v, op) == Some(v.records[id].digest))
    || op == SaveRescue(id)
    || (op.RemoveReceipt? && v.removal.Some? && v.removal.value.id == id)
  }

  /** The uploads whose own removal was stopped between the blob and the receipt,
      and not mended since. */
  function Stranded(hash: Hash, ops: seq<Op>): set<Id> {
    if ops == [] || After(hash, ops).None? then {}
    else
      var v, op, before := After(hash, ops[..|ops| - 1]).value, ops[|ops| - 1], Stranded(hash, ops[..|ops| - 1]);
      if op.Stop? then before + (if v.removal.Some? && HalfRemoved(v, v.removal.value.id) then {v.removal.value.id} else {})
      else set id | id in before && !Mends(v, op, id)
  }

  /** Step number i stops the removal of the upload between the blob and the receipt. */
  predicate StopsHalfway(hash: Hash, ops: seq<Op>, i: int, id: Id) {
    0 <= i < |ops| && ops[i].Stop? && After(hash, ops[..i]).Some? && HalfRemoved(After(hash, ops[..i]).value, id)
  }

  ghost predicate NotMended(hash: Hash, ops: seq<Op>, i: int, id: Id) {
    forall k :: 0 <= i < k < |ops| && After(hash, ops[..k]).Some? ==> !Mends(After(hash, ops[..k]).value, ops[k], id)
  }

  /** What `Stranded` collects, said of the run: some step stops the upload's removal
      half way, and no later step mends it. */
  lemma {:induction false} StrandedMeans(hash: Hash, ops: seq<Op>, id: Id)
    requires After(hash, ops).Some?
    ensures id in Stranded(hash, ops) <==> exists i :: StopsHalfway(hash, ops, i, id) && NotMended(hash, ops, i, id)
  {
    hide Allowed, Apply, HalfRemoved, Mends, Stranded;
    if ops == [] {
      NothingStranded(hash, id);
    } else {
      var before, last := ops[..|ops| - 1], |ops| - 1;
      StrandedMeans(hash, before, id);
      forall k | 0 <= k <= last ensures before[..k] == ops[..k] { }
      StrandedLast(hash, ops, id);
      if id in Stranded(hash, ops) {
        if StopsHalfway(hash, ops, last, id) {
          assert NotMended(hash, ops, last, id);
        } else {
          var i :| StopsHalfway(hash, before, i, id) && NotMended(hash, before, i, id);
          assert StopsHalfway(hash, ops, i, id) && NotMended(hash, ops, i, id);
        }
      }
      if i :| StopsHalfway(hash, ops, i, id) && NotMended(hash, ops, i, id) {
        if i < last { assert StopsHalfway(hash, before, i, id) && NotMended(hash, before, i, id); }
      }
    }
  }

  lemma NothingStranded(hash: Hash, id: Id)
    ensures id !in Stranded(hash, [])
  {
  }

  lemma StrandedLast(hash: Hash, ops: seq<Op>, id: Id)
    requires ops != [] && After(hash, ops).Some?
    ensures id in Stranded(hash, ops)
       <==> StopsHalfway(hash, ops, |ops| - 1, id)
            || (id in Stranded(hash, ops[..|ops| - 1]) && !Mends(After(hash, ops[..|ops| - 1]).value, ops[|ops| - 1], id))
  {
    hide Allowed, Apply;
  }

  // ---------- what every step keeps ----------

  /** Every stored blob hashes to its own name. */
  ghost predicate NamedByContent(v: Vault, hash: Hash) {
    forall d :: d in v.blobs ==> hash(v.blobs[d]) == d
  }

  /** What is under way has its locks, its receipt and its blob. */
  predicate UnderWay(v: Vault, id: Id) {
    && (id in v.transfers ==> StatusIs(v, id, {Transferring, Ready, Failed}) && id !in v.rescuing && id !in v.looked)
    && (id in v.transfers && StatusIs(v, id, {Ready}) ==> id in v.prepared)
    && (id in v.prepared ==> id in v.transfers && Has(v, id))
    && (id in v.rescuing || id in v.looked ==> id !in v.records || v.records[id].status in {Ready, Remote})
    && (id in v.rescuing || id in v.looked || id in v.records ==> id.Upload? ==> id.number < v.uploads)
    && (id in v.holding ==> id in v.rescuing && v.rescuing[id].digest in v.blobs)
  }

  /** A removal under way is of an idle upload; its scan still says whether another
      receipt names the blob. */
  predicate Removable(v: Vault) {
    v.removal.Some? ==>
      var r := v.removal.value;
      && r.id in v.records && !Busy(v, r.id) && v.records[r.id].status !in {Queued, Transferring}
      && (r.shared <==> Shared(v, r.id, v.records[r.id].digest))
      && (forall id :: id in v.holding && id in v.rescuing ==> v.rescuing[id].digest != v.records[r.id].digest)
      && (HalfRemoved(v, r.id) ==> v.records[r.id].digest !in v.blobs)
  }

  /** `gone` is what stopped removals have left. */
  predicate HeldAt(v: Vault, gone: set<Id>, id: Id) {
    && (StatusIs(v, id, {Ready}) && !Has(v, id) ==> id in gone || HalfRemoved(v, id))
    && (id in gone ==> id in v.records && !Has(v, id))
  }

  ghost predicate Held(v: Vault, gone: set<Id>) {
    Removable(v) && forall id :: UnderWay(v, id) && HeldAt(v, gone, id)
  }

  function GoneAfter(v: Vault, gone: set<Id>, op: Op): set<Id> {
    if op.Stop? then gone + (if v.removal.Some? && HalfRemoved(v, v.removal.value.id) then {v.removal.value.id} else {})
    else set id | id in gone && !Mends(v, op, id)
  }

  predicate SameDigest(a: Option<Record>, b: Option<Record>) {
    a.Some? && b.Some? ==> a.value.digest == b.value.digest
  }

  predicate HasDigest(a: Option<Record>, digest: Digest) {
    a.Some? ==> a.value.digest == digest
  }

  /** Whoever holds the receipt of an upload holds the same digest. */
  predicate Agrees(v: Vault, id: Id) {
    && SameDigest(At(v.records, id), At(v.looked, id))
    && SameDigest(At(v.records, id), At(v.rescuing, id))
    && SameDigest(At(v.looked, id), At(v.rescuing, id))
    && (id.Imported? ==> HasDigest(At(v.records, id), id.digest) && HasDigest(At(v.looked, id), id.digest) && HasDigest(At(v.rescuing, id), id.digest))
  }

  lemma StepNamed(v: Vault, hash: Hash, op: Op)
    requires NamedByContent(v, hash) && Allowed(v, hash, op)
    ensures NamedByContent(Apply(v, op), hash)
  {
    hide Shared, BlobFree;
  }

  /** The upload a step is about; None for a stop and for the unlinking of a blob. */
  function Subject(v: Vault, op: Op): Option<Id> {
    match op
    case Create(_, _, _) => Some(Upload(v.uploads))
    case Import(signature, digest, _) => Some(Imported(signature, digest))
    case RemoveBlob => None
    case RemoveReceipt => if v.removal.Some? then Some(v.removal.value.id) else None
    case Stop => None
    case _ => Some(op.id)
  }

  function At<K, V>(m: map<K, V>, k: K): Option<V> {
    if k in m then Some(m[k]) else None
  }

  /** Everything but the blobs and the removal is the same for this upload. */
  predicate SameFor(v: Vault, w: Vault, id: Id) {
    && At(v.records, id) == At(w.records, id) && At(v.parts, id) == At(w.parts, id)
    && At(v.looked, id) == At(w.looked, id) && At(v.rescuing, id) == At(w.rescuing, id)
    && (id in v.holding <==> id in w.holding) && (id in v.transfers <==> id in w.transfers) && (id in v.prepared <==> id in w.prepared)
    && v.uploads <= w.uploads
  }

  lemma OthersOnDisk(v: Vault, op: Op, id: Id)
    requires !op.Stop? && Subject(v, op) != Some(id)
    ensures At(v.records, id) == At(RecordsAfter(v, op), id) && At(v.parts, id) == At(PartsAfter(v, op), id)
  {
  }

  lemma OthersInMemory(v: Vault, op: Op, id: Id)
    requires !op.Stop? && Subject(v, op) != Some(id)
    ensures At(v.looked, id) == At(LookedAfter(v, op), id) && At(v.rescuing, id) == At(RescuingAfter(v, op), id)
    ensures (id in v.holding <==> id in HoldingAfter(v, op)) && (id in v.transfers <==> id in TransfersAfter(v, op))
    ensures id in v.prepared <==> id in PreparedAfter(v, op)
  {
  }

  lemma OthersStay(v: Vault, op: Op, id: Id)
    requires !op.Stop? && Subject(v, op) != Some(id)
    ensures SameFor(v, Apply(v, op), id)
  {
    hide RecordsAfter, PartsAfter, BlobsAfter, RemovalAfter, LookedAfter, RescuingAfter, HoldingAfter, TransfersAfter, PreparedAfter;
    OthersOnDisk(v, op, id);
    OthersInMemory(v, op, id);
  }

  /** No blob goes but by the unlinking of a removal, and then only from its own receipt. */
  lemma BlobsStay(v: Vault, op: Op, d: Digest)
    requires Removable(v) && d in v.blobs
    ensures d in BlobsAfter(v, op) || (op.RemoveBlob? && v.removal.Some? && !v.removal.value.shared
                                       && v.records[v.removal.value.id].digest == d)
  {
    hide Shared;
  }

  /** Unlinking a blob takes it from no other receipt and from no rescue. */
  lemma UnlinkKeeps(v: Vault, op: Op, id: Id)
    requires Removable(v) && (v.removal.Some? ==> id != v.removal.value.id)
    ensures Has(v, id) ==> v.records[id].digest in BlobsAfter(v, op)
  {
    if Has(v, id) {
      BlobsStay(v, op, v.records[id].digest);
      if v.removal.Some? && v.records[v.removal.value.id].digest == v.records[id].digest {
        assert Shared(v, v.removal.value.id, v.records[id].digest);
      }
    }
  }

  lemma OthersUnderWay(v: Vault, op: Op, id: Id)
    requires Removable(v) && UnderWay(v, id) && SameFor(v, Apply(v, op), id)
    ensures UnderWay(Apply(v, op), id)
  {
    hide Apply;
    var w := Apply(v, op);
    assert w.blobs == BlobsAfter(v, op) by { ApplyBlobs(v, op); }
    hide BlobsAfter, Shared, HalfRemoved;
    if id in v.prepared { UnlinkKeeps(v, op, id); }
    if id in v.holding && id in v.rescuing && v.rescuing[id].digest in v.blobs { BlobsStay(v, op, v.rescuing[id].digest); }
  }

  lemma ApplyParts(v: Vault, op: Op)
    ensures Apply(v, op).records == RecordsAfter(v, op) && Apply(v, op).parts == PartsAfter(v, op) && Apply(v, op).blobs == BlobsAfter(v, op)
  {
    hide RecordsAfter, PartsAfter, BlobsAfter;
  }

  lemma ApplyBlobs(v: Vault, op: Op)
    ensures Apply(v, op).blobs == BlobsAfter(v, op)
  {
  }

  lemma SubjectUnderWay(v: Vault, hash: Hash, op: Op, id: Id)
    requires Removable(v) && UnderWay(v, id) && Allowed(v, hash, op) && Subject(v, op) == Some(id)
    ensures UnderWay(Apply(v, op), id)
  {
    hide BlobIs, PartIs, Fits, Shared, BlobFree, HalfRemoved, PartsAfter, RemovalAfter;
  }

  lemma StepUnderWay(v: Vault, hash: Hash, op: Op, id: Id)
    requires Removable(v) && UnderWay(v, id) && Allowed(v, hash, op)
    ensures UnderWay(Apply(v, op), id)
  {
    if op.Stop? {
      hide BlobIs, PartIs, Fits, Shared, BlobFree, Removable;
    } else if Subject(v, op) == Some(id) {
      SubjectUnderWay(v, hash, op, id);
    } else {
      OthersStay(v, op, id);
      OthersUnderWay(v, op, id);
    }
  }

  lemma PutIn(v: Vault, op: Op)
    ensures PutBack(v, op).Some? ==> PutBack(v, op).value in BlobsAfter(v, op)
  {
  }

  lemma SubjectHeldAt(v: Vault, hash: Hash, op: Op, gone: set<Id>, id: Id)
    requires Removable(v) && UnderWay(v, id) && HeldAt(v, gone, id) && Allowed(v, hash, op) && Subject(v, op) == Some(id)
    ensures HeldAt(Apply(v, op), GoneAfter(v, gone, op), id)
  {
    hide BlobIs, PartIs, Fits, Shared, BlobFree, PartsAfter, LookedAfter, RescuingAfter, HoldingAfter, TransfersAfter, PreparedAfter;
  }

  /** A removal under way stays half done until its last unlink or a stop. */
  lemma HalfStays(v: Vault, op: Op, id: Id)
    requires HalfRemoved(v, id) && !TakesRecordLock(op) && !op.Stop? && Subject(v, op) != Some(id)
    ensures HalfRemoved(Apply(v, op), id)
  {
    hide Shared, RecordsAfter, PartsAfter, BlobsAfter, LookedAfter, RescuingAfter, HoldingAfter, TransfersAfter, PreparedAfter;
  }

  /** The one step that takes a blob is the removal's own. */
  lemma UnlinkIsHalf(v: Vault, op: Op, id: Id)
    requires Removable(v) && Has(v, id) && v.records[id].digest !in BlobsAfter(v, op)
    ensures HalfRemoved(Apply(v, op), id)
  {
    hide RecordsAfter, PartsAfter, LookedAfter, RescuingAfter, HoldingAfter, TransfersAfter, PreparedAfter;
    if v.removal.None? || v.removal.value.id != id { UnlinkKeeps(v, op, id); }
    BlobsStay(v, op, v.records[id].digest);
  }

  /** Another upload's step mends this one exactly by putting the blob back. */
  lemma MendedHere(v: Vault, op: Op, id: Id)
    requires Removable(v) && id in v.records && !Has(v, id) && !op.Stop? && Subject(v, op) != Some(id)
    ensures v.records[id].digest in BlobsAfter(v, op) <==> Mends(v, op, id)
  {
    hide Shared;
    PutIn(v, op);
  }

  lemma GoneMeans(v: Vault, gone: set<Id>, op: Op, id: Id)
    requires !op.Stop?
    ensures id in GoneAfter(v, gone, op) <==> id in gone && !Mends(v, op, id)
  {
    hide Mends;
  }

  lemma OthersHeldAt(v: Vault, op: Op, gone: set<Id>, id: Id)
    requires Removable(v) && HeldAt(v, gone, id) && !op.Stop? && Subject(v, op) != Some(id) && SameFor(v, Apply(v, op), id)
    requires HalfRemoved(v, id) ==> !TakesRecordLock(op)
    ensures HeldAt(Apply(v, op), GoneAfter(v, gone, op), id)
  {
    ApplyBlobs(v, op);
    GoneMeans(v, gone, op, id);
    if HalfRemoved(v, id) { HalfStays(v, op, id); }
    if Has(v, id) && v.records[id].digest !in BlobsAfter(v, op) { UnlinkIsHalf(v, op, id); }
    if id in v.records && !Has(v, id) { MendedHere(v, op, id); }
    hide Apply, BlobsAfter, HalfRemoved, Removable, Mends, GoneAfter, Subject, TakesRecordLock;
  }

  lemma StepHeldAt(v: Vault, hash: Hash, op: Op, gone: set<Id>, id: Id)
    requires Removable(v) && UnderWay(v, id) && HeldAt(v, gone, id) && Allowed(v, hash, op)
    ensures HeldAt(Apply(v, op), GoneAfter(v, gone, op), id)
  {
    if op.Stop? {
      hide BlobIs, PartIs, Fits, Shared, BlobFree;
    } else if Subject(v, op) == Some(id) {
      SubjectHeldAt(v, hash, op, gone, id);
    } else {
      OthersStay(v, op, id);
      assert TakesRecordLock(op) ==> v.removal.None?;
      hide Allowed;
      OthersHeldAt(v, op, gone, id);
    }
  }

  lemma SubjectAgrees(v: Vault, hash: Hash, op: Op, id: Id)
    requires UnderWay(v, id) && Agrees(v, id) && Allowed(v, hash, op) && Subject(v, op) == Some(id)
    ensures Agrees(Apply(v, op), id)
  {
    hide BlobIs, PartIs, PartOf, Fits, Shared, BlobFree, CanPrepare, PartsAfter, BlobsAfter, HoldingAfter, TransfersAfter, PreparedAfter, RemovalAfter;
  }

  lemma StepAgrees(v: Vault, hash: Hash, op: Op, id: Id)
    requires UnderWay(v, id) && Agrees(v, id) && Allowed(v, hash, op)
    ensures Agrees(Apply(v, op), id)
  {
    if op.Stop? {
      hide Allowed, UnderWay;
    } else if Subject(v, op) == Some(id) {
      SubjectAgrees(v, hash, op, id);
    } else {
      OthersStay(v, op, id);
      hide Apply, Allowed, Subject, UnderWay;
    }
  }

  /** Beside a removal only rescues of other blobs write receipts. */
  lemma SharedStays(v: Vault, hash: Hash, op: Op)
    requires Removable(v) && v.removal.Some? && Allowed(v, hash, op) && !op.Stop? && !op.RemoveReceipt? && forall id :: Agrees(v, id)
    ensures v.removal.value.id in Apply(v, op).records
    ensures Apply(v, op).records[v.removal.value.id] == v.records[v.removal.value.id]
    ensures forall digest :: digest == v.records[v.removal.value.id].digest ==>
              (Shared(Apply(v, op), v.removal.value.id, digest) <==> Shared(v, v.removal.value.id, digest))
  {
    hide Shared, HalfRemoved;
    var id, w := v.removal.value.id, Apply(v, op);
    if op.SaveRescue? {
      assert w.records == v.records[op.id := v.rescuing[op.id].(status := Ready)];
      assert Agrees(v, op.id);
      assert v.rescuing[op.id].digest != v.records[id].digest;
      OtherWritten(v, w, id, op.id, v.records[id].digest);
    } else {
      assert w.records == v.records;
      SameShared(v, w, id, v.records[id].digest);
    }
  }

  lemma SameShared(v: Vault, w: Vault, id: Id, digest: Digest)
    requires w.records == v.records
    ensures Shared(w, id, digest) <==> Shared(v, id, digest)
  {
  }

  lemma OtherWritten(v: Vault, w: Vault, id: Id, other: Id, digest: Digest)
    requires other in w.records && w.records == v.records[other := w.records[other]] && w.records[other].digest != digest
    requires other in v.records ==> v.records[other].digest != digest
    ensures Shared(w, id, digest) <==> Shared(v, id, digest)
  {
    if Shared(v, id, digest) {
      var o :| o in v.records && o != id && v.records[o].digest == digest;
      assert o in w.records && w.records[o].digest == digest;
    }
    if Shared(w, id, digest) {
      var o :| o in w.records && o != id && w.records[o].digest == digest;
      assert o in v.records && v.records[o].digest == digest;
    }
  }

  lemma RemovalGoesOn(v: Vault, hash: Hash, op: Op)
    requires Removable(v) && Allowed(v, hash, op) && forall id :: Agrees(v, id)
    requires v.removal.Some? && !op.Stop? && !op.RemoveReceipt?
    ensures Removable(Apply(v, op))
  {
    SharedStays(v, hash, op);
    hide BlobIs, PartIs, Fits, LookedAfter, PartsAfter, RecordsAfter, Shared, Agrees, PreparedAfter;
  }

  lemma StepRemovable(v: Vault, hash: Hash, op: Op)
    requires Removable(v) && Allowed(v, hash, op) && forall id :: UnderWay(v, id) && Agrees(v, id)
    ensures Removable(Apply(v, op))
  {
    if v.removal.Some? && !op.Stop? && !op.RemoveReceipt? {
      assert forall id :: Agrees(v, id);
      RemovalGoesOn(v, hash, op);
    }
    hide BlobIs, PartIs, Fits, LookedAfter, PartsAfter, Shared, Agrees, HoldingAfter, PreparedAfter, RescuingAfter;
  }

  // ---------- every run ----------

  ghost predicate Good(v: Vault, hash: Hash, gone: set<Id>) {
    NamedByContent(v, hash) && Held(v, gone) && forall id :: Agrees(v, id)
  }

  lemma StepGood(v: Vault, hash: Hash, op: Op, gone: set<Id>)
    requires Good(v, hash, gone) && Allowed(v, hash, op)
    ensures Good(Apply(v, op), hash, GoneAfter(v, gone, op))
  {
    hide Allowed, Apply, UnderWay, HeldAt, GoneAfter, Removable, NamedByContent, Agrees;
    assert forall id :: UnderWay(v, id) && Agrees(v, id);
    StepNamed(v, hash, op);
    StepRemovable(v, hash, op);
    forall id
      ensures UnderWay(Apply(v, op), id) && HeldAt(Apply(v, op), GoneAfter(v, gone, op), id) && Agrees(Apply(v, op), id)
    {
      StepUnderWay(v, hash, op, id);
      StepHeldAt(v, hash, op, gone, id);
      StepAgrees(v, hash, op, id);
    }
  }

  lemma StrandedIsGone(hash: Hash, ops: seq<Op>)
    requires ops != [] && After(hash, ops).Some?
    ensures Stranded(hash, ops) == GoneAfter(After(hash, ops[..|ops| - 1]).value, Stranded(hash, ops[..|ops| - 1]), ops[|ops| - 1])
  {
    hide Allowed, Apply, Mends, HalfRemoved;
  }

  /** In every reachable state every blob hashes to its own name, what is under way
      has what it needs, and blobs are missing only as stopped removals left them. */
  lemma {:induction false} RunGood(hash: Hash, ops: seq<Op>)
    requires After(hash, ops).Some?
    ensures Good(After(hash, ops).value, hash, Stranded(hash, ops))
  {
    if ops != [] {
      hide Allowed, Apply, Good, GoneAfter, Stranded;
      RunGood(hash, ops[..|ops| - 1]);
      StrandedIsGone(hash, ops);
      StepGood(After(hash, ops[..|ops| - 1]).value, hash, ops[|ops| - 1], Stranded(hash, ops[..|ops| - 1]));
    }
  }

  /** After any run with stops: a ready upload lacks its blob exactly when its own
      removal is between the unlinks of blob and receipt, or was stopped there and
      nothing has mended it since. */
  lemma ReadyLacksBlobExactly(hash: Hash, ops: seq<Op>, id: Id)
    requires After(hash, ops).Some? && StatusIs(After(hash, ops).value, id, {Ready})
    ensures !Has(After(hash, ops).value, id)
       <==> HalfRemoved(After(hash, ops).value, id)
            || exists i :: StopsHalfway(hash, ops, i, id) && NotMended(hash, ops, i, id)
  {
    RunGood(hash, ops);
    StrandedMeans(hash, ops, id);
    hide After, Stranded, StopsHalfway, NotMended, UnderWay;
    assert HeldAt(After(hash, ops).value, Stranded(hash, ops), id);
  }

  // ---------- contents ----------

  ghost predicate Injective(hash: Hash) {
    forall a: Bytes, b: Bytes :: hash(a) == hash(b) ==> a == b
  }

  /** Whatever has the digest has the announced size. */
  ghost predicate SizeRight(hash: Hash, digest: Digest, size: nat) {
    forall c: Bytes :: hash(c) == digest ==> |c| == size
  }

  ghost predicate Sized(v: Vault, hash: Hash, id: Id) {
    && (id in v.records && (id in v.prepared || v.records[id].status == Ready) ==> SizeRight(hash, v.records[id].digest, v.records[id].size))
    && (id in v.holding && id in v.rescuing ==> SizeRight(hash, v.rescuing[id].digest, v.rescuing[id].size))
  }

  lemma FittingIsSized(hash: Hash, r: Record, c: Bytes)
    requires Injective(hash) && Fits(r, hash, c)
    ensures SizeRight(hash, r.digest, r.size)
  {
  }

  lemma PreparingIsSized(v: Vault, hash: Hash, id: Id)
    requires Injective(hash) && CanPrepare(v, hash, id)
    ensures SizeRight(hash, v.records[id].digest, v.records[id].size)
  {
    FittingIsSized(hash, v.records[id], if Has(v, id) then v.blobs[v.records[id].digest] else v.parts[id]);
  }

  lemma SubjectSized(v: Vault, hash: Hash, op: Op, id: Id)
    requires Injective(hash) && UnderWay(v, id) && Sized(v, hash, id) && Allowed(v, hash, op) && Subject(v, op) == Some(id)
    ensures Sized(Apply(v, op), hash, id)
  {
    if op.Prepare? { PreparingIsSized(v, hash, id); }
    if op.Rescue? { FittingIsSized(hash, v.rescuing[id], op.fetched); }
    hide Injective, SizeRight, CanPrepare, Fits, Shared, BlobFree, BlobIs, PartIs, PartOf, TakesRecordLock,
         PartsAfter, BlobsAfter, LookedAfter, TransfersAfter, RemovalAfter;
  }

  lemma StepSized(v: Vault, hash: Hash, op: Op, id: Id)
    requires Injective(hash) && UnderWay(v, id) && Sized(v, hash, id) && Allowed(v, hash, op)
    ensures Sized(Apply(v, op), hash, id)
  {
    hide Injective, SizeRight;
    if op.Stop? {
      hide Allowed, UnderWay;
    } else if Subject(v, op) == Some(id) {
      SubjectSized(v, hash, op, id);
    } else {
      OthersStay(v, op, id);
      hide Apply, Allowed, Subject, UnderWay;
    }
  }

  lemma {:induction false} RunSized(hash: Hash, ops: seq<Op>, id: Id)
    requires Injective(hash) && After(hash, ops).Some?
    ensures Sized(After(hash, ops).value, hash, id)
  {
    hide Injective, Sized, Allowed, Apply, Stranded;
    if ops == [] {
      assert Sized(EMPTY, hash, id) by { hide SizeRight; EmptySized(hash, id); }
    } else {
      var v := After(hash, ops[..|ops| - 1]).value;
      RunSized(hash, ops[..|ops| - 1], id);
      RunGood(hash, ops[..|ops| - 1]);
      StepSized(v, hash, ops[|ops| - 1], id);
    }
  }

  lemma EmptySized(hash: Hash, id: Id)
    ensures Sized(EMPTY, hash, id)
  {
  }

  /** With a digest that tells contents apart, the blob of a ready upload is whole:
      it has the announced size and digest. */
  lemma ReadyIsWhole(hash: Hash, ops: seq<Op>, id: Id)
    requires Injective(hash) && After(hash, ops).Some?
    requires StatusIs(After(hash, ops).value, id, {Ready}) && Has(After(hash, ops).value, id)
    ensures BlobIs(After(hash, ops).value, hash, After(hash, ops).value.records[id])
  {
    RunGood(hash, ops);
    RunSized(hash, ops, id);
    hide After, Stranded, Held;
  }

  /** The upload is complete and its bytes are in its part file or in its blob. */
  predicate Kept(v: Vault, hash: Hash, id: Id, bytes: Bytes) {
    && id in v.records && v.records[id].status !in {Receiving, Remote} && Fits(v.records[id], hash, bytes)
    && (At(v.parts, id) == Some(bytes) || At(v.blobs, v.records[id].digest) == Some(bytes))
  }

  predicate NotRemoving(v: Vault, id: Id) {
    v.removal.Some? ==> v.removal.value.id != id
  }

  /** A blob that stays in place keeps its content, whoever writes it again. */
  lemma ContentStays(v: Vault, hash: Hash, op: Op, id: Id, bytes: Bytes)
    requires Injective(hash) && NamedByContent(v, hash) && Removable(v) && Allowed(v, hash, op) && NotRemoving(v, id)
    requires id in v.records && hash(bytes) == v.records[id].digest && At(v.blobs, v.records[id].digest) == Some(bytes)
    ensures At(BlobsAfter(v, op), v.records[id].digest) == Some(bytes)
  {
    UnlinkKeeps(v, op, id);
    StepNamed(v, hash, op);
    ApplyBlobs(v, op);
    hide Apply, BlobsAfter, Allowed, Removable;
  }

  /** The receipt written back by a rescue announces the same bytes. */
  lemma RescuedSame(v: Vault, hash: Hash, id: Id, bytes: Bytes)
    requires Agrees(v, id) && Sized(v, hash, id) && Kept(v, hash, id, bytes) && id in v.holding && id in v.rescuing
    ensures Fits(v.rescuing[id], hash, bytes) && v.rescuing[id].digest == v.records[id].digest
  {
    assert SizeRight(hash, v.rescuing[id].digest, v.rescuing[id].size);
  }

  lemma SubjectReceipt(v: Vault, hash: Hash, op: Op, id: Id, bytes: Bytes)
    requires UnderWay(v, id) && Agrees(v, id) && Sized(v, hash, id)
    requires Allowed(v, hash, op) && NotRemoving(v, id) && op != RemovePart(id) && Subject(v, op) == Some(id) && Kept(v, hash, id, bytes)
    ensures id in RecordsAfter(v, op) && RecordsAfter(v, op)[id].digest == v.records[id].digest
    ensures RecordsAfter(v, op)[id].size == v.records[id].size && RecordsAfter(v, op)[id].status !in {Receiving, Remote}
  {
    if op.SaveRescue? { RescuedSame(v, hash, id, bytes); }
    hide Sized, Agrees, Shared, BlobFree, CanPrepare;
  }

  lemma SubjectBytes(v: Vault, hash: Hash, op: Op, id: Id, bytes: Bytes)
    requires Injective(hash) && UnderWay(v, id)
    requires Allowed(v, hash, op) && op != RemovePart(id) && Subject(v, op) == Some(id) && Kept(v, hash, id, bytes)
    ensures At(PartsAfter(v, op), id) == At(v.parts, id)
         || (op.Prepare? && At(BlobsAfter(v, op), v.records[id].digest) == Some(bytes))
  {
    if op.Prepare? && Has(v, id) { assert v.blobs[v.records[id].digest] == bytes; }
    hide Shared, BlobFree, TakesRecordLock;
  }

  lemma SubjectKept(v: Vault, hash: Hash, op: Op, id: Id, bytes: Bytes)
    requires Injective(hash) && NamedByContent(v, hash) && Removable(v) && UnderWay(v, id) && Agrees(v, id) && Sized(v, hash, id)
    requires Allowed(v, hash, op) && NotRemoving(v, id) && op != RemovePart(id) && Subject(v, op) == Some(id) && Kept(v, hash, id, bytes)
    ensures Kept(Apply(v, op), hash, id, bytes)
  {
    ApplyParts(v, op);
    if At(v.blobs, v.records[id].digest) == Some(bytes) { ContentStays(v, hash, op, id, bytes); }
    SubjectReceipt(v, hash, op, id, bytes);
    SubjectBytes(v, hash, op, id, bytes);
    hide Apply, Injective, Removable, UnderWay, Allowed, Sized, Agrees, RecordsAfter, PartsAfter, BlobsAfter, Subject;
  }

  lemma StepKept(v: Vault, hash: Hash, op: Op, id: Id, bytes: Bytes)
    requires Injective(hash) && NamedByContent(v, hash) && Removable(v) && UnderWay(v, id) && Agrees(v, id) && Sized(v, hash, id)
    requires Allowed(v, hash, op) && NotRemoving(v, id) && op != RemovePart(id) && Kept(v, hash, id, bytes)
    ensures Kept(Apply(v, op), hash, id, bytes) && NotRemoving(Apply(v, op), id)
  {
    hide Injective, Sized, Agrees, NamedByContent, Removable, UnderWay;
    assert NotRemoving(Apply(v, op), id) by { hide Allowed, Kept; }
    if op.Stop? {
    } else if Subject(v, op) == Some(id) {
      SubjectKept(v, hash, op, id, bytes);
    } else {
      OthersStay(v, op, id);
      ApplyBlobs(v, op);
      if At(v.blobs, v.records[id].digest) == Some(bytes) { ContentStays(v, hash, op, id, bytes); }
      hide Apply, BlobsAfter, Allowed, Subject;
    }
  }

  lemma {:induction false} RunsJoin(hash: Hash, ops: seq<Op>, rest: seq<Op>)
    requires After(hash, ops).Some?
    ensures After(hash, ops + rest) == From(After(hash, ops).value, hash, rest)
  {
    hide Allowed, Apply;
    if rest == [] {
      assert ops + rest == ops;
    } else {
      RunsJoin(hash, ops, rest[..|rest| - 1]);
      assert (ops + rest)[..|ops + rest| - 1] == ops + rest[..|rest| - 1];
    }
  }

  /** No step takes the bytes of a complete upload but its own removal: failed and
      repeated transfers, removals of equal uploads, rescues and stops all leave them
      in its part file or in its blob. */
  lemma {:induction false} BytesStay(hash: Hash, ops: seq<Op>, rest: seq<Op>, id: Id, bytes: Bytes)
    requires Injective(hash) && After(hash, ops).Some? && From(After(hash, ops).value, hash, rest).Some?
    requires Kept(After(hash, ops).value, hash, id, bytes) && NotRemoving(After(hash, ops).value, id) && RemovePart(id) !in rest
    ensures Kept(From(After(hash, ops).value, hash, rest).value, hash, id, bytes)
    ensures NotRemoving(From(After(hash, ops).value, hash, rest).value, id)
  {
    hide Injective, Kept, NotRemoving, Allowed, Apply, Stranded;
    if rest != [] {
      var before, last := rest[..|rest| - 1], rest[|rest| - 1];
      var v := From(After(hash, ops).value, hash, before).value;
      BytesStay(hash, ops, before, id, bytes);
      RunsJoin(hash, ops, before);
      RunGood(hash, ops + before);
      RunSized(hash, ops + before, id);
      StepKept(v, hash, last, id, bytes);
    }
  }

  // ---------- removals and rescues ----------

  /** The unlinking of a removal takes the blob exactly when no other receipt names it. */
  lemma UnlinksExactly(hash: Hash, ops: seq<Op>, d: Digest)
    requires After(hash, ops).Some? && Allowed(After(hash, ops).value, hash, RemoveBlob) && d in After(hash, ops).value.blobs
    ensures var v := After(hash, ops).value; var id := v.removal.value.id;
            id in v.records
            && (d !in Apply(v, RemoveBlob).blobs <==> d == v.records[id].digest && !Shared(v, id, d))
  {
    hide After, Stranded, Shared, NamedByContent, Apply, UnderWay, HeldAt, Agrees, BlobFree, CanPrepare, Fits, Busy, Mends;
    RunGood(hash, ops);
    UnlinkTakes(After(hash, ops).value, d);
  }

  lemma UnlinkTakes(v: Vault, d: Digest)
    requires Removable(v) && v.removal.Some? && d in v.blobs
    ensures d !in Apply(v, RemoveBlob).blobs <==> d == v.records[v.removal.value.id].digest && !Shared(v, v.removal.value.id, d)
  {
    hide Shared;
    ApplyBlobs(v, RemoveBlob);
    hide Apply, HalfRemoved;
  }

  lemma FromStep(v: Vault, hash: Hash, ops: seq<Op>, w: Vault, op: Op)
    requires From(v, hash, ops) == Some(w) && Allowed(w, hash, op)
    ensures From(v, hash, ops + [op]) == Some(Apply(w, op))
  {
    hide Allowed, Apply;
    assert (ops + [op])[..|ops + [op]| - 1] == ops;
  }

  function RescueSteps(id: Id, fetched: Bytes): seq<Op> {
    [Look(id), OpenRescue(id), Rescue(id, fetched), SaveRescue(id)]
  }

  /** A ready upload without its blob, or an imported receipt, is brought back by a
      download whenever the fetched file fits the receipt and the locks are free. */
  lemma RescueRestores(v: Vault, hash: Hash, id: Id, fetched: Bytes)
    requires StatusIs(v, id, {Remote}) || (StatusIs(v, id, {Ready}) && !Has(v, id))
    requires v.removal.None? && !Busy(v, id) && id !in v.holding && BlobFree(v, v.records[id].digest)
    requires Fits(v.records[id], hash, fetched)
    ensures From(v, hash, RescueSteps(id, fetched)).Some?
    ensures var w := From(v, hash, RescueSteps(id, fetched)).value;
            StatusIs(w, id, {Ready}) && BlobIs(w, hash, w.records[id]) && w.records[id].digest == v.records[id].digest
  {
    hide Allowed, Apply, Fits, BlobFree;
    var a, b, c := Apply(v, Look(id)), Apply(Apply(v, Look(id)), OpenRescue(id)), Apply(Apply(Apply(v, Look(id)), OpenRescue(id)), Rescue(id, fetched));
    RescueBegins(v, hash, id);
    RescueEnds(v, b, hash, id, fetched);
    assert [] + [Look(id)] == [Look(id)] && [Look(id)] + [OpenRescue(id)] == [Look(id), OpenRescue(id)];
    assert [Look(id), OpenRescue(id)] + [Rescue(id, fetched)] == [Look(id), OpenRescue(id), Rescue(id, fetched)];
    assert [Look(id), OpenRescue(id), Rescue(id, fetched)] + [SaveRescue(id)] == RescueSteps(id, fetched);
    FromStep(v, hash, [], v, Look(id));
    FromStep(v, hash, [Look(id)], a, OpenRescue(id));
    FromStep(v, hash, [Look(id), OpenRescue(id)], b, Rescue(id, fetched));
    FromStep(v, hash, [Look(id), OpenRescue(id), Rescue(id, fetched)], c, SaveRescue(id));
    hide From;
  }

  lemma RescueBegins(v: Vault, hash: Hash, id: Id)
    requires StatusIs(v, id, {Remote}) || (StatusIs(v, id, {Ready}) && !Has(v, id))
    requires v.removal.None? && !Busy(v, id)
    ensures var a := Apply(v, Look(id)); var b := Apply(a, OpenRescue(id));
            && Allowed(v, hash, Look(id)) && Allowed(a, hash, OpenRescue(id))
            && b == v.(looked := a.looked - {id}, rescuing := v.rescuing[id := v.records[id]])
  {
  }

  lemma RescueEnds(v: Vault, b: Vault, hash: Hash, id: Id, fetched: Bytes)
    requires id in v.records && id !in v.holding && v.removal.None? && BlobFree(v, v.records[id].digest)
    requires b == v.(looked := b.looked, rescuing := v.rescuing[id := v.records[id]])
    requires Fits(v.records[id], hash, fetched)
    ensures var c := Apply(b, Rescue(id, fetched)); var w := Apply(c, SaveRescue(id));
            && Allowed(b, hash, Rescue(id, fetched)) && Allowed(c, hash, SaveRescue(id))
            && StatusIs(w, id, {Ready}) && BlobIs(w, hash, w.records[id]) && w.records[id].digest == v.records[id].digest
  {
    var c := Apply(b, Rescue(id, fetched));
    assert c == b.(blobs := b.blobs[v.records[id].digest := fetched], holding := b.holding + {id});
    var w := Apply(c, SaveRescue(id));
    assert w.records == c.records[id := v.records[id].(status := Ready)] && w.blobs == c.blobs;
    hide Apply;
  }

  // ---------- the failing run ----------

  lemma FromTwo(v: Vault, hash: Hash, ops: seq<Op>, w: Vault, a: Op, b: Op)
    requires From(v, hash, ops) == Some(w) && Allowed(w, hash, a) && Allowed(Apply(w, a), hash, b)
    ensures From(v, hash, ops + [a, b]) == Some(Apply(Apply(w, a), b))
  {
    hide Allowed, Apply;
    FromStep(v, hash, ops, w, a);
    FromStep(v, hash, ops + [a], Apply(w, a), b);
    assert ops + [a] + [b] == ops + [a, b];
  }

  /** One upload and nothing else. */
  function Alone(digest: Digest, size: nat, status: Status, parts: map<Id, Bytes>, blobs: map<Digest, Bytes>, under: set<Id>, prepared: set<Id>): Vault {
    Vault(map[Upload(0) := Record(digest, size, status)], parts, blobs, 1, map[], map[], {}, under, prepared, None)
  }

  function FirstUpload(hash: Hash, bytes: Bytes): seq<Op> {
    [Create(hash(bytes), |bytes|, false), Append(Upload(0), bytes)] + [Complete(Upload(0)), Queue(Upload(0))]
    + [Begin(Upload(0)), Prepare(Upload(0))] + [Publish(Upload(0)), Release(Upload(0))]
  }

  lemma FirstReceives(hash: Hash, bytes: Bytes)
    requires bytes != []
    ensures var a := Create(hash(bytes), |bytes|, false); var b := Append(Upload(0), bytes);
            && Allowed(EMPTY, hash, a) && Allowed(Apply(EMPTY, a), hash, b)
            && Apply(Apply(EMPTY, a), b) == Alone(hash(bytes), |bytes|, Receiving, map[Upload(0) := bytes], map[], {}, {})
  {
    var v := Alone(hash(bytes), |bytes|, Receiving, map[Upload(0) := []], map[], {}, {});
    assert Apply(EMPTY, Create(hash(bytes), |bytes|, false)) == v;
    assert [] + bytes == bytes;
  }

  lemma FirstQueues(hash: Hash, bytes: Bytes)
    ensures var v := Alone(hash(bytes), |bytes|, Receiving, map[Upload(0) := bytes], map[], {}, {});
            var a := Complete(Upload(0)); var b := Queue(Upload(0));
            && Allowed(v, hash, a) && Allowed(Apply(v, a), hash, b)
            && Apply(Apply(v, a), b) == Alone(hash(bytes), |bytes|, Queued, map[Upload(0) := bytes], map[], {}, {})
  {
  }

  lemma FirstPrepares(hash: Hash, bytes: Bytes)
    ensures var v := Alone(hash(bytes), |bytes|, Queued, map[Upload(0) := bytes], map[], {}, {});
            var a := Begin(Upload(0)); var b := Prepare(Upload(0));
            && Allowed(v, hash, a) && Allowed(Apply(v, a), hash, b)
            && Apply(Apply(v, a), b)
               == Alone(hash(bytes), |bytes|, Transferring, map[], map[hash(bytes) := bytes], {Upload(0)}, {Upload(0)})
  {
    var v := Alone(hash(bytes), |bytes|, Queued, map[Upload(0) := bytes], map[], {}, {});
    assert Apply(v, Begin(Upload(0))) == Alone(hash(bytes), |bytes|, Transferring, map[Upload(0) := bytes], map[], {Upload(0)}, {});
  }

  lemma FirstPublishes(hash: Hash, bytes: Bytes)
    ensures var v := Alone(hash(bytes), |bytes|, Transferring, map[], map[hash(bytes) := bytes], {Upload(0)}, {Upload(0)});
            var a := Publish(Upload(0)); var b := Release(Upload(0));
            && Allowed(v, hash, a) && Allowed(Apply(v, a), hash, b)
            && Apply(Apply(v, a), b) == Alone(hash(bytes), |bytes|, Ready, map[], map[hash(bytes) := bytes], {}, {})
  {
  }

  lemma FirstIsReady(hash: Hash, bytes: Bytes)
    requires bytes != []
    ensures After(hash, FirstUpload(hash, bytes)) == Some(Alone(hash(bytes), |bytes|, Ready, map[], map[hash(bytes) := bytes], {}, {}))
  {
    hide Allowed, Apply, Alone;
    var id, d, n := Upload(0), hash(bytes), |bytes|;
    var received := [Create(d, n, false), Append(id, bytes)];
    FirstReceives(hash, bytes);
    FirstQueues(hash, bytes);
    FirstPrepares(hash, bytes);
    FirstPublishes(hash, bytes);
    FromTwo(EMPTY, hash, [], EMPTY, Create(d, n, false), Append(id, bytes));
    assert [] + received == received;
    FromTwo(EMPTY, hash, received, Alone(d, n, Receiving, map[id := bytes], map[], {}, {}), Complete(id), Queue(id));
    FromTwo(EMPTY, hash, received + [Complete(id), Queue(id)], Alone(d, n, Queued, map[id := bytes], map[], {}, {}), Begin(id), Prepare(id));
    FromTwo(EMPTY, hash, received + [Complete(id), Queue(id)] + [Begin(id), Prepare(id)],
            Alone(d, n, Transferring, map[], map[d := bytes], {id}, {id}), Publish(id), Release(id));
  }

  function StoppedRemoval(id: Id): seq<Op> {
    [RemovePart(id), RemoveBlob] + [Stop]
  }

  /** Removing an idle upload that shares its blob with no other and stopping before
      the last unlink leaves the receipt without the blob. */
  lemma StopStrands(v: Vault, hash: Hash, id: Id)
    requires StatusIs(v, id, {Ready}) && !Busy(v, id) && v.removal.None?
    requires !Shared(v, id, v.records[id].digest) && BlobFree(v, v.records[id].digest)
    ensures From(v, hash, StoppedRemoval(id)).Some?
    ensures var w := From(v, hash, StoppedRemoval(id)).value; w.records == v.records && !Has(w, id)
  {
    RemovalUnlinks(v, hash, id);
    hide Apply, Allowed;
    FromTwo(v, hash, [], v, RemovePart(id), RemoveBlob);
    assert [] + [RemovePart(id), RemoveBlob] == [RemovePart(id), RemoveBlob];
    FromStep(v, hash, [RemovePart(id), RemoveBlob], Apply(Apply(v, RemovePart(id)), RemoveBlob), Stop);
    hide From;
  }

  lemma RemovalUnlinks(v: Vault, hash: Hash, id: Id)
    requires StatusIs(v, id, {Ready}) && !Busy(v, id) && v.removal.None?
    requires !Shared(v, id, v.records[id].digest) && BlobFree(v, v.records[id].digest)
    ensures var a := Apply(v, RemovePart(id)); var b := Apply(a, RemoveBlob);
            && Allowed(v, hash, RemovePart(id)) && Allowed(a, hash, RemoveBlob) && Allowed(b, hash, Stop)
            && Apply(b, Stop).records == v.records && v.records[id].digest !in Apply(b, Stop).blobs
  {
    hide Shared, BlobFree;
    var a := Apply(v, RemovePart(id));
    assert a == v.(parts := v.parts - {id}, removal := Some(Removal(id, false, false)));
    var b := Apply(a, RemoveBlob);
    assert b == a.(blobs := v.blobs - {v.records[id].digest}, removal := Some(Removal(id, false, true)));
  }

  /** A run after which a ready upload has no blob, for every non-empty file. */
  lemma ReadyWithoutBlob(hash: Hash, bytes: Bytes)
    requires bytes != []
    ensures var run := FirstUpload(hash, bytes) + StoppedRemoval(Upload(0));
            After(hash, run).Some? && StatusIs(After(hash, run).value, Upload(0), {Ready}) && !Has(After(hash, run).value, Upload(0))
  {
    hide Allowed, Apply, From, FirstUpload, StoppedRemoval;
    FirstIsReady(hash, bytes);
    StopStrands(After(hash, FirstUpload(hash, bytes)).value, hash, Upload(0));
    RunsJoin(hash, FirstUpload(hash, bytes), StoppedRemoval(Upload(0)));
  }

  /** From every reachable state in which a ready upload or an imported receipt has
      no blob, a restart and a download that fetches the right bytes bring it back. */
  lemma RestartAndRescue(hash: Hash, ops: seq<Op>, id: Id, fetched: Bytes)
    requires After(hash, ops).Some?
    requires var v := After(hash, ops).value;
             (StatusIs(v, id, {Remote}) || (StatusIs(v, id, {Ready}) && !Has(v, id))) && Fits(v.records[id], hash, fetched)
    ensures var run := ops + [Stop] + RescueSteps(id, fetched);
            After(hash, run).Some?
            && StatusIs(After(hash, run).value, id, {Ready})
            && BlobIs(After(hash, run).value, hash, After(hash, run).value.records[id])
  {
    var v := After(hash, ops).value;
    Restarted(v, hash, id);
    hide From, Apply, Allowed, Fits, BlobFree, RescueSteps;
    FromStep(EMPTY, hash, ops, v, Stop);
    RescueRestores(Apply(v, Stop), hash, id, fetched);
    RunsJoin(hash, ops + [Stop], RescueSteps(id, fetched));
  }

  lemma Restarted(v: Vault, hash: Hash, id: Id)
    requires id in v.records
    ensures var w := Apply(v, Stop);
            && Allowed(v, hash, Stop) && w.records == v.records && w.blobs == v.blobs && w.removal.None?
            && !Busy(w, id) && id !in w.holding && BlobFree(w, v.records[id].digest)
  {
  }

  // ---------- the methods ----------

  datatype Preparing = Prepared(deduplicated: bool) | DamagedBlob | PartIncomplete | WrongDigest

  datatype Removing = Missing | InTransfer | Stopped | Removed(sharedBlobRetained: bool)

  /** The steps of one completion: `copied` and `announced` say whether the copy to
      the target and the audit entry succeed. */
  function TransferSteps(v: Vault, hash: Hash, id: Id, copied: bool, announced: bool): seq<Op> {
    if !StatusIs(v, id, {Queued, Transferring}) || Busy(v, id) then []
    else if !CanPrepare(v, hash, id) then [Begin(id)] + [Fail(id)] + [Release(id)]
    else if !copied then [Begin(id)] + [Prepare(id)] + [Fail(id)] + [Release(id)]
    else if !announced then [Begin(id)] + [Prepare(id)] + [Publish(id)] + [Fail(id)] + [Release(id)]
    else [Begin(id)] + [Prepare(id)] + [Publish(id)] + [Release(id)]
  }

  /** The steps of one download; `fetched` is what the target gives. */
  function DownloadSteps(v: Vault, hash: Hash, id: Id, fetched: Option<Bytes>): seq<Op> {
    if !StatusIs(v, id, {Remote}) && !(StatusIs(v, id, {Ready}) && !Has(v, id)) then []
    else if Busy(v, id) then [Look(id)]
    else if fetched.Some? && Fits(v.records[id], hash, fetched.value)
    then [Look(id)] + [OpenRescue(id)] + [Rescue(id, fetched.value)] + [SaveRescue(id)] + [CloseRescue(id)]
    else [Look(id)] + [OpenRescue(id)] + [CloseRescue(id)]
  }

  /** The steps of one removal, stopped after its first or second unlink when `stop` is 1 or 2. */
  function RemovalSteps(id: Id, stop: nat): seq<Op> {
    if stop == 1 then [RemovePart(id)] + [Stop]
    else if stop == 2 then [RemovePart(id)] + [RemoveBlob] + [Stop]
    else [RemovePart(id)] + [RemoveBlob] + [RemoveReceipt]
  }

  class Store {
    var records: map<Id, Record>
    var parts: map<Id, Bytes>
    var blobs: map<Digest, Bytes>
    var uploads: nat
    var looked: map<Id, Record>
    var rescuing: map<Id, Record>
    var holding: set<Id>
    var transfers: set<Id>
    var prepared: set<Id>
    var removal: Option<Removal>

    ghost function Now(): Vault
      reads this
    {
      Vault(records, parts, blobs, uploads, looked, rescuing, holding, transfers, prepared, removal)
    }

    constructor ()
      ensures Now() == EMPTY
    {
      records, parts, blobs, uploads := map[], map[], map[], 0;
      looked, rescuing, holding, transfers, prepared, removal := map[], map[], {}, {}, {}, None;
    }

    method SaveStatus(id: Id, status: Status)
      requires id in records
      modifies this`records
      ensures records == old(records)[id := old(records)[id].(status := status)]
    {
      records := records[id := records[id].(status := status)];
    }

    method Begin(hash: Hash, id: Id)
      requires StatusIs(Now(), id, {Queued, Transferring}) && !Busy(Now(), id) && removal.None?
      modifies this`records, this`transfers
      ensures Allowed(old(Now()), hash, Op.Begin(id)) && Now() == Apply(old(Now()), Op.Begin(id))
      ensures records == old(records)[id := old(records)[id].(status := Transferring)] && transfers == old(transfers) + {id}
    {
      transfers := transfers + {id};
      SaveStatus(id, Transferring);
    }

    /** Reuses an intact blob or moves a complete part with the right digest. */
    method PrepareBlobLocked(hash: Hash, id: Id) returns (r: Preparing)
      requires id in transfers && id !in prepared && StatusIs(Now(), id, {Transferring}) && removal.None?
      requires BlobFree(Now(), records[id].digest)
      modifies this`parts, this`blobs, this`prepared
      ensures r.Prepared? <==> CanPrepare(old(Now()), hash, id)
      ensures r.Prepared? ==> r.deduplicated == Has(old(Now()), id) && Allowed(old(Now()), hash, Prepare(id)) && Now() == Apply(old(Now()), Prepare(id))
      ensures r.Prepared? ==> prepared == old(prepared) + {id}
      ensures !r.Prepared? ==> Now() == old(Now())
      ensures r == DamagedBlob <==> Has(old(Now()), id) && !BlobIs(old(Now()), hash, records[id])
      ensures r == PartIncomplete <==> !Has(old(Now()), id) && (id !in old(parts) || |old(parts)[id]| != records[id].size)
    {
      var record := records[id];
      if record.digest in blobs {
        if |blobs[record.digest]| != record.size || hash(blobs[record.digest]) != record.digest { return DamagedBlob; }
        parts := parts - {id};
        prepared := prepared + {id};
        return Prepared(true);
      }
      if id !in parts || |parts[id]| != record.size { return PartIncomplete; }
      if hash(parts[id]) != record.digest { return WrongDigest; }
      blobs := blobs[record.digest := parts[id]];
      parts := parts - {id};
      prepared := prepared + {id};
      return Prepared(false);
    }

    method Publish(hash: Hash, id: Id)
      requires id in prepared && StatusIs(Now(), id, {Transferring}) && removal.None?
      modifies this`records
      ensures Allowed(old(Now()), hash, Op.Publish(id)) && Now() == Apply(old(Now()), Op.Publish(id))
      ensures records == old(records)[id := old(records)[id].(status := Ready)]
    {
      SaveStatus(id, Ready);
    }

    method Fail(hash: Hash, id: Id)
      requires id in transfers && id in records && removal.None?
      modifies this`records, this`prepared
      ensures Allowed(old(Now()), hash, Op.Fail(id)) && Now() == Apply(old(Now()), Op.Fail(id))
      ensures records == old(records)[id := old(records)[id].(status := Failed)]
    {
      SaveStatus(id, Failed);
      prepared := prepared - {id};
    }

    method Release(hash: Hash, id: Id)
      requires id in transfers && removal.None?
      modifies this`transfers, this`prepared
      ensures Allowed(old(Now()), hash, Op.Release(id)) && Now() == Apply(old(Now()), Op.Release(id))
    {
      transfers, prepared := transfers - {id}, prepared - {id};
    }

    method CompleteUpload(hash: Hash, id: Id, copied: bool, announced: bool)
      requires removal.None? && (id in prepared ==> id in transfers) && (id in records ==> BlobFree(Now(), records[id].digest))
      modifies this`records, this`parts, this`blobs, this`transfers, this`prepared
      ensures From(old(Now()), hash, TransferSteps(old(Now()), hash, id, copied, announced)) == Some(Now())
      ensures StatusIs(old(Now()), id, {Queued, Transferring}) && !Busy(old(Now()), id) ==>
                StatusIs(Now(), id, {if CanPrepare(old(Now()), hash, id) && copied && announced then Ready else Failed})
    {
      hide From, Apply, Fits, BlobFree, Allowed, CanPrepare;
      if id in transfers || id in rescuing || id !in records || records[id].status !in {Queued, Transferring} {
        NoSteps(Now(), hash);
        return;
      }
      ghost var start := Now();
      ghost var steps := [Op.Begin(id)];
      Begin(hash, id);
      FirstStep(start, hash, Op.Begin(id));
      SameBlobFree(start, Now(), records[id].digest);
      SameCanPrepare(start, Now(), hash, id);
      ghost var before := Now();
      var r := PrepareBlobLocked(hash, id);
      if r.Prepared? {
        FromStep(start, hash, steps, before, Prepare(id));
        steps := steps + [Prepare(id)];
        if copied {
          before := Now();
          Publish(hash, id);
          FromStep(start, hash, steps, before, Op.Publish(id));
          steps := steps + [Op.Publish(id)];
        }
      }
      if !r.Prepared? || !copied || !announced {
        before := Now();
        Fail(hash, id);
        FromStep(start, hash, steps, before, Op.Fail(id));
        steps := steps + [Op.Fail(id)];
      }
      before := Now();
      Release(hash, id);
      FromStep(start, hash, steps, before, Op.Release(id));
    }

    method Look(hash: Hash, id: Id)
      requires StatusIs(Now(), id, {Remote}) || (StatusIs(Now(), id, {Ready}) && !Has(Now(), id))
      modifies this`looked
      ensures Allowed(old(Now()), hash, Op.Look(id)) && Now() == Apply(old(Now()), Op.Look(id))
      ensures looked == old(looked)[id := records[id]]
    {
      looked := looked[id := records[id]];
    }

    method OpenRescue(hash: Hash, id: Id)
      requires id in looked && !Busy(Now(), id) && removal.None?
      modifies this`looked, this`rescuing
      ensures Allowed(old(Now()), hash, Op.OpenRescue(id)) && Now() == Apply(old(Now()), Op.OpenRescue(id))
      ensures rescuing == old(rescuing)[id := old(looked)[id]]
    {
      looked, rescuing := looked - {id}, rescuing[id := looked[id]];
    }

    method CloseRescue(hash: Hash, id: Id)
      requires id in rescuing && id !in holding && removal.None?
      modifies this`rescuing
      ensures Allowed(old(Now()), hash, Op.CloseRescue(id)) && Now() == Apply(old(Now()), Op.CloseRescue(id))
    {
      rescuing := rescuing - {id};
    }

    method ReplaceBlob(hash: Hash, id: Id, fetched: Bytes)
      requires id in rescuing && id !in holding && Fits(rescuing[id], hash, fetched) && BlobFree(Now(), rescuing[id].digest)
      modifies this`blobs, this`holding
      ensures Allowed(old(Now()), hash, Rescue(id, fetched)) && Now() == Apply(old(Now()), Rescue(id, fetched))
      ensures blobs == old(blobs)[rescuing[id].digest := fetched] && holding == old(holding) + {id}
    {
      blobs, holding := blobs[rescuing[id].digest := fetched], holding + {id};
    }

    method SaveReceipt(hash: Hash, id: Id)
      requires id in rescuing && id in holding
      modifies this`records, this`holding
      ensures Allowed(old(Now()), hash, SaveRescue(id)) && Now() == Apply(old(Now()), SaveRescue(id))
      ensures records == old(records)[id := rescuing[id].(status := Ready)] && holding == old(holding) - {id}
    {
      records, holding := records[id := rescuing[id].(status := Ready)], holding - {id};
    }

    /** Puts the fetched bytes in place only when they have the receipt's size and digest. */
    method RestoreMissingBlob(hash: Hash, id: Id, fetched: Option<Bytes>) returns (ok: bool)
      requires id in rescuing && id !in holding && BlobFree(Now(), rescuing[id].digest)
      modifies this`blobs, this`holding, this`records
      ensures ok <==> fetched.Some? && Fits(rescuing[id], hash, fetched.value)
      ensures ok ==> Allowed(old(Now()), hash, Rescue(id, fetched.value))
                     && Allowed(Apply(old(Now()), Rescue(id, fetched.value)), hash, SaveRescue(id))
                     && Now() == Apply(Apply(old(Now()), Rescue(id, fetched.value)), SaveRescue(id))
      ensures ok ==> blobs == old(blobs)[rescuing[id].digest := fetched.value] && id !in holding
      ensures !ok ==> Now() == old(Now())
    {
      hide Allowed, Apply, BlobFree;
      if fetched.None? || |fetched.value| != rescuing[id].size || hash(fetched.value) != rescuing[id].digest { return false; }
      ReplaceBlob(hash, id, fetched.value);
      SaveReceipt(hash, id);
      return true;
    }

    /** Gives the upload's bytes, fetched from the target when they are missing; what
        does not fit the receipt is refused. */
    method DownloadBlob(hash: Hash, id: Id, fetched: Option<Bytes>) returns (r: Option<Bytes>)
      requires removal.None? && id !in holding && (id in records ==> BlobFree(Now(), records[id].digest))
      modifies this`records, this`blobs, this`looked, this`rescuing, this`holding
      ensures From(old(Now()), hash, DownloadSteps(old(Now()), hash, id, fetched)) == Some(Now())
      ensures r.Some? ==> id in old(records) && Fits(old(records)[id], hash, r.value)
                          && At(blobs, old(records)[id].digest) == r
      ensures r.Some? <==> id in old(records)
                           && if StatusIs(old(Now()), id, {Remote}) || !Has(old(Now()), id)
                              then StatusIs(old(Now()), id, {Remote, Ready}) && !Busy(old(Now()), id)
                                   && fetched.Some? && Fits(old(records)[id], hash, fetched.value)
                              else StatusIs(old(Now()), id, {Ready}) && BlobIs(old(Now()), hash, old(records)[id])
    {
      hide From, Apply, Allowed, BlobFree;
      ghost var start := Now();
      if id !in records || records[id].status !in {Ready, Remote} {
        NoSteps(start, hash);
        return None;
      }
      var record := records[id];
      if record.digest !in blobs || record.status == Remote {
        Look(hash, id);
        FirstStep(start, hash, Op.Look(id));
        if id in transfers || id in rescuing { return None; }
        ghost var before, steps := Now(), [Op.Look(id)];
        OpenRescue(hash, id);
        FromStep(start, hash, steps, before, Op.OpenRescue(id));
        steps := steps + [Op.OpenRescue(id)];
        before := Now();
        OthersRescueFree(start, before, id, record.digest);
        var ok := RestoreMissingBlob(hash, id, fetched);
        if ok {
          FromStep(start, hash, steps, before, Rescue(id, fetched.value));
          FromStep(start, hash, steps + [Rescue(id, fetched.value)], Apply(before, Rescue(id, fetched.value)), SaveRescue(id));
          steps := steps + [Rescue(id, fetched.value)] + [SaveRescue(id)];
        }
        before := Now();
        CloseRescue(hash, id);
        FromStep(start, hash, steps, before, Op.CloseRescue(id));
        if !ok { return None; }
      } else {
        NoSteps(start, hash);
      }
      if |blobs[record.digest]| != record.size || hash(blobs[record.digest]) != record.digest { return None; }
      return Some(blobs[record.digest]);
    }

    method UnlinkPart(hash: Hash, id: Id, shared: bool)
      requires id in records && !Busy(Now(), id) && records[id].status !in {Queued, Transferring} && removal.None?
      requires BlobFree(Now(), records[id].digest) && shared == Shared(Now(), id, records[id].digest)
      modifies this`parts, this`removal
      ensures Allowed(old(Now()), hash, RemovePart(id)) && Now() == Apply(old(Now()), RemovePart(id))
      ensures removal == Some(Removal(id, shared, false)) && parts == old(parts) - {id}
    {
      parts, removal := parts - {id}, Some(Removal(id, shared, false));
    }

    method UnlinkBlob(hash: Hash)
      requires removal.Some? && !removal.value.blobDone && removal.value.id in records
      modifies this`blobs, this`removal
      ensures Allowed(old(Now()), hash, RemoveBlob) && Now() == Apply(old(Now()), RemoveBlob)
      ensures removal == Some(old(removal).value.(blobDone := true))
      ensures blobs == if removal.value.shared then old(blobs) else old(blobs) - {records[removal.value.id].digest}
    {
      if !removal.value.shared { blobs := blobs - {records[removal.value.id].digest}; }
      removal := Some(removal.value.(blobDone := true));
    }

    method UnlinkReceipt(hash: Hash)
      requires removal.Some? && removal.value.blobDone
      modifies this`records, this`removal
      ensures Allowed(old(Now()), hash, RemoveReceipt) && Now() == Apply(old(Now()), RemoveReceipt)
      ensures removal.None? && records == old(records) - {old(removal).value.id}
    {
      records, removal := records - {removal.value.id}, None;
    }

    /** What lives in memory is lost when the server stops. */
    method Halt(hash: Hash)
      modifies this`looked, this`rescuing, this`holding, this`transfers, this`prepared, this`removal
      ensures Allowed(old(Now()), hash, Stop) && Now() == Apply(old(Now()), Stop)
    {
      hide Apply, Allowed;
      StopClears(Now(), hash);
      looked, rescuing, holding, transfers, prepared, removal := map[], map[], {}, {}, {}, None;
    }

    /** The scan over the other receipts. */
    method FindOthers(id: Id, digest: Digest) returns (shared: bool)
      ensures shared <==> Shared(Now(), id, digest)
    {
      shared := false;
      var rest := records.Keys - {id};
      while rest != {}
        invariant rest <= records.Keys - {id}
        invariant shared <==> exists other :: other in records.Keys - {id} - rest && records[other].digest == digest
      {
        var other :| other in rest;
        rest := rest - {other};
        if records[other].digest == digest { shared := true; }
      }
    }

    /** Scans the other receipts and unlinks part, blob and receipt, or refuses while
        the upload is under way; `stop` says where the server stops, if it does. */
    method RemoveLocalCopy(hash: Hash, id: Id, stop: nat) returns (r: Removing)
      requires removal.None? && (id in records ==> BlobFree(Now(), records[id].digest))
      modifies this
      ensures r == Missing <==> id !in old(records)
      ensures r == InTransfer <==> id in old(records) && (Busy(old(Now()), id) || StatusIs(old(Now()), id, {Queued, Transferring}))
      ensures r.Missing? || r.InTransfer? ==> Now() == old(Now())
      ensures r.Stopped? || r.Removed? ==> From(old(Now()), hash, RemovalSteps(id, stop)) == Some(Now())
      ensures r.Removed? ==> r.sharedBlobRetained == Shared(old(Now()), id, old(records)[id].digest) && stop !in {1, 2}
    {
      hide From, Apply, Allowed, BlobFree, Shared;
      if id !in records { return Missing; }
      if id in transfers || id in rescuing || records[id].status in {Queued, Transferring} { return InTransfer; }
      ghost var start := Now();
      var shared := FindOthers(id, records[id].digest);
      UnlinkPart(hash, id, shared);
      FirstStep(start, hash, RemovePart(id));
      ghost var before, steps := Now(), [RemovePart(id)];
      if stop == 1 {
        Halt(hash);
        FromStep(start, hash, steps, before, Stop);
        return Stopped;
      }
      UnlinkBlob(hash);
      FromStep(start, hash, steps, before, RemoveBlob);
      steps := steps + [RemoveBlob];
      before := Now();
      if stop == 2 {
        Halt(hash);
        FromStep(start, hash, steps, before, Stop);
        return Stopped;
      }
      UnlinkReceipt(hash);
      FromStep(start, hash, steps, before, RemoveReceipt);
      return Removed(shared);
    }
  }

  lemma StopClears(v: Vault, hash: Hash)
    ensures Allowed(v, hash, Stop)
    ensures Apply(v, Stop) == Vault(v.records, v.parts, v.blobs, v.uploads, map[], map[], {}, {}, {}, None)
  {
  }

  lemma NoSteps(v: Vault, hash: Hash)
    ensures From(v, hash, []) == Some(v)
  {
  }

  lemma FirstStep(v: Vault, hash: Hash, op: Op)
    requires Allowed(v, hash, op)
    ensures From(v, hash, [op]) == Some(Apply(v, op))
  {
    hide Allowed, Apply;
    FromStep(v, hash, [], v, op);
    assert [] + [op] == [op];
  }

  lemma SameBlobFree(v: Vault, w: Vault, digest: Digest)
    requires BlobFree(v, digest) && v.removal.None? && w.removal.None? && w.holding == v.holding && w.rescuing == v.rescuing
    ensures BlobFree(w, digest)
  {
  }

  lemma SameCanPrepare(v: Vault, w: Vault, hash: Hash, id: Id)
    requires w.parts == v.parts && w.blobs == v.blobs && id in v.records && id in w.records
    requires w.records[id].digest == v.records[id].digest && w.records[id].size == v.records[id].size
    ensures CanPrepare(w, hash, id) == CanPrepare(v, hash, id)
  {
  }

  /** Opening its own rescue does not lock the blob against it. */
  lemma OthersRescueFree(v: Vault, w: Vault, id: Id, digest: Digest)
    requires BlobFree(v, digest) && v.removal.None? && w.removal.None? && w.holding == v.holding && id !in v.holding
    requires id in w.rescuing && w.rescuing == v.rescuing[id := w.rescuing[id]]
    ensures BlobFree(w, digest)
  {
  }
}
