/**
  The tables of app/db.py that outlive or describe jobs, and what each
  transaction does to them: jobs, attempts (pair_runs), the durable baseline
  evidence (pair_history_state), the durable schedule state
  (job_definition_schedule_state) and the staged terminal intents.

  Names, keys, triggers and slots arrive stripped, "" standing for a blank one,
  and a result carries the history key it resolves to.
*/
module JobTables {
  import opened Results

  type Time = t: real | t >= 0.0 witness 0.0

  /** Fine is the status "ok", Failed is "error". */
  datatype Status = Running | Fine | Failed | Warned | Skipped | Cancelled | Stale

  /** `partial`: the stored summary is that of a verified partial restore. */
  datatype Job = Job(
    kind: string, status: Status, startedAt: Time, endedAt: Option<Time>,
    definition: string, definitionName: string, slot: Option<string>, dryRun: bool, trigger: string,
    partial: bool)

  /** One row of pair_runs; the table is a list in id order. */
  datatype Run = Run(
    job: nat, name: string, key: string, ok: bool, dryRun: bool, status: Status, startedAt: Time, endedAt: Option<Time>)

  datatype Evidence = Evidence(
    name: string, succeeded: bool, terminal: bool, firstSeen: Time, lastSeen: Time, lastSuccess: Option<Time>)

  datatype Pairs = Pairs(runs: seq<Run>, history: map<string, Evidence>)

  datatype Fact = Fact(jobId: nat, startedAt: Time, at: Time, status: Status, trigger: string, slot: Option<string>)

  datatype Schedule = Schedule(name: string, attempt: Option<Fact>, success: Option<Fact>, updatedAt: Time)

  datatype Intent = Intent(status: Status, summary: Summary, applied: bool, createdAt: Time)

  datatype Tables = Tables(
    jobs: map<nat, Job>, pairs: Pairs, schedule: map<string, Schedule>, intents: map<nat, Intent>, nextId: nat)

  const EMPTY := Tables(map[], Pairs([], map[]), map[], map[], 1)

  // ---------- arguments ----------

  datatype Attempt = Attempt(name: string, key: string, dryRun: bool, trigger: string)

  /** `partial` marks a verified partial restore. */
  datatype PairResult = PairResult(
    name: string, key: string, ok: bool, cancelled: bool, skipped: bool, dryRun: bool, partial: bool)

  datatype Due = Due(name: string, key: string)

  datatype Summary = Summary(pairs: seq<PairResult>, due: seq<Due>, dryRun: bool, trigger: string, slot: Option<string>,
                             partial: bool)

  datatype Op =
    | Start(kind: string, exclusive: bool, attempts: seq<Attempt>, definition: string, definitionName: string,
            slot: Option<string>, dryRun: Option<bool>, trigger: string, now: Time)
    | Finish(job: nat, status: Status, summary: Summary, now: Time)
    | Stage(job: nat, status: Status, summary: Summary, now: Time)
    | MarkApplied(job: nat)
    | MarkStale(ids: seq<nat>, now: Time)
    | Delete(removed: set<nat>)
    | Ask(name: string, key: string, legacy: string)

  const BACKUP_SCOPE := {"backup", "check", "quicksync", "restoretest", "recovery"}

  function ScopeOf(kind: string): set<string> {
    if kind in BACKUP_SCOPE then BACKUP_SCOPE else {kind}
  }

  // ---------- baseline evidence ----------

  function Max(a: Time, b: Time): Time { if a >= b then a else b }

  function Min(a: Time, b: Time): Time { if a <= b then a else b }

  function Latest(a: Option<Time>, b: Option<Time>): Option<Time> {
    if b.None? then a else if a.None? then b else Some(Max(a.value, b.value))
  }

  function Merged(known: Evidence, seen: Evidence): Evidence {
    Evidence(if seen.lastSeen >= known.lastSeen then seen.name else known.name,
             known.succeeded || seen.succeeded, known.terminal || seen.terminal,
             Min(known.firstSeen, seen.firstSeen), Max(known.lastSeen, seen.lastSeen),
             Latest(known.lastSuccess, seen.lastSuccess))
  }

  /** The upsert of `_record_pair_history_state`. */
  function Recorded(h: map<string, Evidence>, key: string, name: string, seenAt: Time, succeeded: bool, terminal: bool,
                    successAt: Time): map<string, Evidence> {
    if key == "" || name == "" then h
    else
      var seen := Evidence(name, succeeded, terminal, seenAt, seenAt,
                           if !succeeded then None else if successAt == 0.0 then Some(seenAt) else Some(successAt));
      h[key := if key in h then Merged(h[key], seen) else seen]
  }

  // ---------- attempts ----------

  predicate Holds(r: Run, job: nat, name: string) {
    r.job == job && r.name == name
  }

  /** ON CONFLICT(job_id, pair_name): everything but the start time is replaced. */
  function Upserted(runs: seq<Run>, r: Run): seq<Run> {
    if runs == [] then [r]
    else if Holds(runs[0], r.job, r.name) then [r.(startedAt := runs[0].startedAt)] + runs[1..]
    else [runs[0]] + Upserted(runs[1..], r)
  }

  predicate HasRun(runs: seq<Run>, job: nat, name: string) {
    exists i :: 0 <= i < |runs| && Holds(runs[i], job, name)
  }

  /** One attempt of a new job: INSERT OR IGNORE, and the key is seen. */
  function Reserved(p: Pairs, job: nat, a: Attempt, now: Time): Pairs {
    if a.name == "" then p
    else Pairs(if HasRun(p.runs, job, a.name) then p.runs
               else p.runs + [Run(job, a.name, a.key, false, a.dryRun, Running, now, None)],
               Recorded(p.history, a.key, a.name, now, false, false, now))
  }

  function ReservedAll(p: Pairs, job: nat, attempts: seq<Attempt>, now: Time): Pairs {
    if attempts == [] then p
    else Reserved(ReservedAll(p, job, attempts[..|attempts| - 1], now), job, attempts[|attempts| - 1], now)
  }

  /** What a summary says about one pair. */
  datatype Write = Write(name: string, key: string, ok: bool, dryRun: bool, status: Status)

  function PairStatus(kind: string, status: Status, dryRun: bool, r: PairResult): Status {
    if kind == "restoretest" && !dryRun && r.partial then Warned
    else if r.ok then Fine
    else if r.cancelled || status == Cancelled then Cancelled
    else if r.skipped then Skipped
    else Failed
  }

  function ResultWrite(kind: string, status: Status, s: Summary, r: PairResult): Write {
    var dryRun := r.dryRun || s.dryRun;
    Write(r.name, r.key, r.ok, dryRun, PairStatus(kind, status, dryRun, r))
  }

  function ResultWrites(kind: string, status: Status, s: Summary, pairs: seq<PairResult>): seq<Write> {
    if pairs == [] then []
    else
      var r := pairs[|pairs| - 1];
      ResultWrites(kind, status, s, pairs[..|pairs| - 1]) + if r.name == "" then [] else [ResultWrite(kind, status, s, r)]
  }

  function DueWrites(status: Status, s: Summary, due: seq<Due>): seq<Write> {
    if due == [] then []
    else
      var d := due[|due| - 1];
      DueWrites(status, s, due[..|due| - 1]) + if d.name == "" then [] else [Write(d.name, d.key, false, s.dryRun, status)]
  }

  function WritesOf(kind: string, status: Status, s: Summary): seq<Write> {
    ResultWrites(kind, status, s, s.pairs)
    + if status in {Failed, Stale, Cancelled} then DueWrites(status, s, s.due) else []
  }

  function Stored(p: Pairs, job: nat, started: Time, now: Time, terminal: bool, w: Write): Pairs {
    Pairs(Upserted(p.runs, Run(job, w.name, w.key, w.ok, w.dryRun, w.status, started, Some(now))),
          Recorded(p.history, w.key, w.name, now, w.ok && !w.dryRun, terminal, now))
  }

  function StoredAll(p: Pairs, job: nat, started: Time, now: Time, terminal: bool, ws: seq<Write>): Pairs {
    if ws == [] then p
    else Stored(StoredAll(p, job, started, now, terminal, ws[..|ws| - 1]), job, started, now, terminal, ws[|ws| - 1])
  }

  predicate Unfinished(r: Run, job: nat) {
    r.job == job && r.status == Running
  }

  function EndedRuns(runs: seq<Run>, job: nat, status: Status, now: Time): (r: seq<Run>)
    ensures |r| == |runs|
    ensures forall i :: 0 <= i < |r| ==>
              r[i] == if Unfinished(runs[i], job) then runs[i].(status := status, ok := false, endedAt := Some(now)) else runs[i]
  {
    seq(|runs|, i requires 0 <= i < |runs| =>
      if Unfinished(runs[i], job) then runs[i].(status := status, ok := false, endedAt := Some(now)) else runs[i])
  }

  function EndedHistory(h: map<string, Evidence>, runs: seq<Run>, job: nat, now: Time): map<string, Evidence> {
    if runs == [] then h
    else
      var before, r := EndedHistory(h, runs[..|runs| - 1], job, now), runs[|runs| - 1];
      if Unfinished(r, job) then Recorded(before, r.key, r.name, now, false, true, now) else before
  }

  /** `_terminalize_running_attempts` for one job. */
  function Ended(p: Pairs, job: nat, status: Status, now: Time): Pairs {
    Pairs(EndedRuns(p.runs, job, status, now), EndedHistory(p.history, p.runs, job, now))
  }

  function EndedAll(p: Pairs, ids: seq<nat>, now: Time): Pairs {
    if ids == [] then p else Ended(EndedAll(p, ids[..|ids| - 1], now), ids[|ids| - 1], Stale, now)
  }

  function UnfinishedStatus(status: Status): Status {
    if status in {Cancelled, Stale, Skipped} then status else Failed
  }

  /** `_store_pair_results`. */
  function FinishedPairs(p: Pairs, job: nat, j: Job, status: Status, s: Summary, now: Time): Pairs {
    var q := StoredAll(p, job, j.startedAt, now, status != Running, WritesOf(j.kind, status, s));
    if status == Running then q else Ended(q, job, UnfinishedStatus(status), now)
  }

  // ---------- the baseline verdict ----------

  datatype Verdict = New | Succeeded | Ambiguous

  predicate RealSuccess(r: Run) {
    r.ok && !r.dryRun
  }

  predicate HasEnded(r: Run) {
    r.status != Running || r.endedAt.Some?
  }

  function EndTime(r: Run): Time {
    if r.endedAt.Some? then r.endedAt.value else r.startedAt
  }

  /** The latest successful attempt of one of the keys, and of the name unless it is "". */
  function LastSuccess(runs: seq<Run>, keys: set<string>, name: string): Option<Run> {
    if runs == [] then None
    else
      var before, r := LastSuccess(runs[..|runs| - 1], keys, name), runs[|runs| - 1];
      if RealSuccess(r) && r.key in keys && (name == "" || r.name == name)
         && (before.None? || EndTime(r) >= EndTime(before.value)) then Some(r) else before
  }

  /** The older, name-based evidence applies. */
  predicate Legacy(h: map<string, Evidence>, name: string, key: string, legacy: string) {
    key != legacy && legacy in h && h[legacy].name == name
  }

  /** Some attempt of the key has ended, as far as the tables know. */
  predicate EverEnded(p: Pairs, name: string, key: string, legacy: string) {
    || (key in p.history && p.history[key].terminal)
    || (exists i :: 0 <= i < |p.runs| && p.runs[i].key == key && HasEnded(p.runs[i]))
    || (Legacy(p.history, name, key, legacy) && p.history[legacy].terminal)
  }

  datatype Answer = Answer(verdict: Verdict, history: map<string, Evidence>)

  /** `pair_baseline_state`: the verdict, and the evidence it carries over. */
  function Asked(p: Pairs, name: string, key: string, legacy: string): Answer {
    var h := p.history;
    if name == "" || key == "" then Answer(Ambiguous, h)
    else if key in h && h[key].succeeded then Answer(Succeeded, h)
    else
      var own := LastSuccess(p.runs, {key}, "");
      if own.Some? then
        var at := EndTime(own.value);
        Answer(Succeeded, Recorded(h, key, if own.value.name == "" then name else own.value.name, at, true, true, at))
      else if Legacy(h, name, key, legacy) && h[legacy].succeeded then
        var l := h[legacy];
        Answer(Succeeded, Recorded(h, key, name, l.lastSeen, true, l.terminal,
                                   if l.lastSuccess.Some? && l.lastSuccess.value != 0.0 then l.lastSuccess.value else l.lastSeen))
      else
        var older := if key == legacy then None else LastSuccess(p.runs, {"", legacy}, name);
        if older.Some? then
          var at := EndTime(older.value);
          Answer(Succeeded, Recorded(h, key, name, at, true, true, at))
        else
          Answer(if EverEnded(p, name, key, legacy) then Ambiguous else New, h)
  }

  // ---------- schedule state ----------

  datatype Recording = Recording(
    definition: string, name: string, jobId: nat, startedAt: Time, endedAt: Option<Time>, status: Status,
    trigger: string, slot: Option<string>, dryRun: bool)

  function FactOf(r: Recording): Fact {
    Fact(r.jobId, r.startedAt, if r.endedAt.Some? then r.endedAt.value else r.startedAt, r.status, r.trigger, r.slot)
  }

  predicate CountsAsAttempt(r: Recording) {
    r.definition != "" && !r.dryRun && r.trigger == "scheduler"
  }

  predicate CountsAsSuccess(r: Recording) {
    r.definition != "" && !r.dryRun && r.status == Fine
  }

  /** (start time, job id) is at least that of the fact. */
  predicate NotOlder(started: Time, jobId: nat, f: Option<Fact>) {
    f.None? || started > f.value.startedAt || (started == f.value.startedAt && jobId >= f.value.jobId)
  }

  function Newer(known: Option<Fact>, r: Recording, counts: bool): Option<Fact> {
    if counts && NotOlder(r.startedAt, r.jobId, known) then Some(FactOf(r)) else known
  }

  /** `_record_job_definition_schedule_state`. */
  function Noted(s: map<string, Schedule>, r: Recording): map<string, Schedule> {
    if !CountsAsAttempt(r) && !CountsAsSuccess(r) then s
    else
      var attempt, success := CountsAsAttempt(r), CountsAsSuccess(r);
      s[r.definition :=
        if r.definition !in s
        then Schedule(r.name, Newer(None, r, attempt), Newer(None, r, success), FactOf(r).at)
        else var known := s[r.definition];
             Schedule(if r.name == "" then known.name else r.name,
                      Newer(known.attempt, r, attempt), Newer(known.success, r, success), Max(known.updatedAt, FactOf(r).at))]
  }

  function NotedAll(s: map<string, Schedule>, rs: seq<Recording>): map<string, Schedule> {
    if rs == [] then s else Noted(NotedAll(s, rs[..|rs| - 1]), rs[|rs| - 1])
  }

  /** What the job's row says now, as the backfill and stale marking record it. */
  function RowRecording(id: nat, j: Job): Recording {
    Recording(j.definition, j.definitionName, id, j.startedAt, j.endedAt, j.status, j.trigger, j.slot, j.dryRun)
  }

  // ---------- jobs ----------

  function Triggers(attempts: seq<Attempt>): set<string> {
    set a | a in attempts && a.trigger != "" :: a.trigger
  }

  /** The trigger of a new job; `only` is what all attempts agree on, if they do. */
  function InferredTrigger(op: Op): string
    requires op.Start?
  {
    var triggers := Triggers(op.attempts);
    if op.trigger != "" then op.trigger
    else if |triggers| == 1 then TheOne(triggers)
    else if op.slot.Some? then "scheduler" else "manual"
  }

  function TheOne(s: set<string>): string
    requires |s| == 1
  {
    OneElement(s);
    var x :| x in s; x
  }

  lemma OneElement(s: set<string>)
    requires |s| == 1
    ensures forall x, y :: x in s && y in s ==> x == y
    ensures exists x :: x in s
  {
    var x :| x in s;
    assert |s - {x}| == 0;
    assert s - {x} == {};
    forall y | y in s ensures y == x {
      assert y !in s - {x};
    }
  }

  function InferredDryRun(op: Op): bool
    requires op.Start?
  {
    if op.dryRun.Some? then op.dryRun.value else op.attempts != [] && forall a :: a in op.attempts ==> a.dryRun
  }

  function NewJob(op: Op): Job
    requires op.Start?
  {
    Job(op.kind, Running, op.now, None, op.definition, op.definitionName, op.slot, InferredDryRun(op), InferredTrigger(op), false)
  }

  function EffectiveSlot(j: Job, s: Summary): Option<string> {
    if s.slot.Some? then s.slot else j.slot
  }

  /** The compare-and-swap of `job_finish`; a slot that is set stays. */
  function FinishedJob(j: Job, status: Status, s: Summary, now: Time): Job {
    j.(status := status, endedAt := Some(now), dryRun := j.dryRun || s.dryRun, partial := s.partial,
       trigger := if s.trigger != "" then s.trigger else j.trigger,
       slot := if j.slot.Some? then j.slot else EffectiveSlot(j, s))
  }

  predicate IsRunning(t: Tables, id: nat) {
    id in t.jobs && t.jobs[id].status == Running
  }

  // ---------- one transaction ----------

  function JobsAfter(t: Tables, op: Op): map<nat, Job> {
    match op
    case Start(_, _, _, _, _, _, _, _, _) => t.jobs[t.nextId := NewJob(op)]
    case Finish(id, status, s, now) =>
      if IsRunning(t, id) then t.jobs[id := FinishedJob(t.jobs[id], status, s, now)] else t.jobs
    case MarkStale(ids, now) =>
      map id | id in t.jobs :: if id in ids then t.jobs[id].(status := Stale, endedAt := Some(now)) else t.jobs[id]
    case Delete(removed) => t.jobs - removed
    case _ => t.jobs
  }

  function KeptRuns(runs: seq<Run>, removed: set<nat>): seq<Run> {
    if runs == [] then [] else (if runs[0].job in removed then [] else [runs[0]]) + KeptRuns(runs[1..], removed)
  }

  function PairsAfter(t: Tables, op: Op): Pairs {
    match op
    case Start(_, _, attempts, _, _, _, _, _, now) => ReservedAll(t.pairs, t.nextId, attempts, now)
    case Finish(id, status, s, now) =>
      if IsRunning(t, id) then FinishedPairs(t.pairs, id, t.jobs[id], status, s, now) else t.pairs
    case MarkStale(ids, now) => EndedAll(t.pairs, ids, now)
    case Delete(removed) => Pairs(KeptRuns(t.pairs.runs, removed), t.pairs.history)
    case Ask(name, key, legacy) => Pairs(t.pairs.runs, Asked(t.pairs, name, key, legacy).history)
    case _ => t.pairs
  }

  /** What a finish records: like its row, but with the slot the summary names. */
  function FinishRecording(id: nat, j: Job, status: Status, s: Summary, now: Time): Recording {
    RowRecording(id, FinishedJob(j, status, s, now)).(slot := EffectiveSlot(j, s))
  }

  function StaleRecordings(jobs: map<nat, Job>, ids: seq<nat>, now: Time): seq<Recording>
    requires forall id :: id in ids ==> id in jobs
  {
    seq(|ids|, i requires 0 <= i < |ids| => RowRecording(ids[i], jobs[ids[i]].(status := Stale, endedAt := Some(now))))
  }

  /** The calls of `_record_job_definition_schedule_state` in the transaction. */
  function RecordingsOf(t: Tables, op: Op): seq<Recording> {
    match op
    case Start(_, _, _, _, _, _, _, _, _) =>
      if InferredTrigger(op) == "scheduler" then [RowRecording(t.nextId, NewJob(op))] else []
    case Finish(id, status, s, now) =>
      if IsRunning(t, id) then [FinishRecording(id, t.jobs[id], status, s, now)] else []
    case MarkStale(ids, now) =>
      if forall id :: id in ids ==> id in t.jobs then StaleRecordings(t.jobs, ids, now) else []
    case _ => []
  }

  function IntentsAfter(t: Tables, op: Op): map<nat, Intent> {
    match op
    case Stage(id, status, s, now) => if id in t.intents then t.intents else t.intents[id := Intent(status, s, false, now)]
    case MarkApplied(id) => if id in t.intents then t.intents[id := t.intents[id].(applied := true)] else t.intents
    case Delete(removed) => t.intents - removed
    case _ => t.intents
  }

  function Apply(t: Tables, op: Op): Tables {
    Tables(JobsAfter(t, op), PairsAfter(t, op), NotedAll(t.schedule, RecordingsOf(t, op)), IntentsAfter(t, op),
           if op.Start? then t.nextId + 1 else t.nextId)
  }

  /** What the transactions demand before they write. */
  ghost predicate Allowed(t: Tables, op: Op) {
    match op
    case Start(kind, exclusive, _, _, _, _, _, _, _) =>
      1 <= |kind| <= 64 && (exclusive ==> !ScopeBusy(t, kind))
    case Stage(id, status, s, _) =>
      status != Running && id in t.jobs && (id in t.intents ==> t.intents[id].status == status && t.intents[id].summary == s)
    case MarkApplied(id) => id in t.intents ==> id in t.jobs && t.jobs[id].status == t.intents[id].status
    case MarkStale(ids, _) => (forall i :: 0 <= i < |ids| ==> IsRunning(t, ids[i])) && NoRepeats(ids)
    case Delete(removed) => forall id :: id in removed ==> !IsRunning(t, id)
    case _ => true
  }

  ghost predicate NoRepeats(ids: seq<nat>) {
    forall i, j :: 0 <= i < j < |ids| ==> ids[i] != ids[j]
  }

  predicate ScopeBusy(t: Tables, kind: string) {
    exists id :: id in t.jobs && t.jobs[id].status == Running && t.jobs[id].kind in ScopeOf(kind)
  }

  /** The tables after a run of transactions, or None if one of them was refused. */
  ghost function After(ops: seq<Op>): Option<Tables> {
    if ops == [] then Some(EMPTY)
    else
      var t, op := After(ops[..|ops| - 1]), ops[|ops| - 1];
      if t.Some? && Allowed(t.value, op) then Some(Apply(t.value, op)) else None
  }
}
