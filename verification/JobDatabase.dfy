/**
  `Database` of app/db.py, its job methods statement by statement, and
  `reconcile_locked_scope` of app/jobs/job_lifecycle.py.  Every method is one
  transaction of JobTables, or the composition of several.
*/
module JobDatabase {
  import opened Results
  import opened JobTables

  datatype Error = InvalidKind | ScopeTaken | NoSuchJob | NotTerminal | OtherIntent | NoIntent | CasConflict(actual: Option<Status>)

  /** Ending one more attempt of the list. */
  lemma RunsStep(all: seq<Run>, job: nat, status: Status, now: Time, i: nat, runs: seq<Run>)
    requires i < |all| && runs == EndedRuns(all[..i], job, status, now) + all[i..]
    ensures runs[i] == all[i]
    ensures runs[i := if Unfinished(all[i], job) then all[i].(status := status, ok := false, endedAt := Some(now)) else all[i]]
         == EndedRuns(all[..i + 1], job, status, now) + all[i + 1..]
  {
  }

  lemma HistoryStep(h: map<string, Evidence>, all: seq<Run>, job: nat, now: Time, i: nat)
    requires i < |all|
    ensures var before, r := EndedHistory(h, all[..i], job, now), all[i];
            EndedHistory(h, all[..i + 1], job, now)
            == if Unfinished(r, job) then Recorded(before, r.key, r.name, now, false, true, now) else before
  {
    hide Recorded;
    assert all[..i + 1][..i] == all[..i];
  }

  lemma EndedNone(h: map<string, Evidence>, all: seq<Run>, job: nat, status: Status, now: Time)
    ensures all == EndedRuns(all[..0], job, status, now) + all[0..] && h == EndedHistory(h, all[..0], job, now)
  {
  }

  lemma KeptStep(runs: seq<Run>, removed: set<nat>, i: nat, kept: seq<Run>)
    requires i < |runs|
    ensures kept + KeptRuns(runs[i..], removed)
         == (if runs[i].job in removed then kept else kept + [runs[i]]) + KeptRuns(runs[i + 1..], removed)
  {
    var rest := KeptRuns(runs[i + 1..], removed);
    assert runs[i..][1..] == runs[i + 1..];
    if runs[i].job in removed { assert [] + rest == rest; } else { assert kept + ([runs[i]] + rest) == kept + [runs[i]] + rest; }
  }

  lemma NothingKept(runs: seq<Run>, removed: set<nat>, kept: seq<Run>)
    requires runs == []
    ensures kept + KeptRuns(runs, removed) == kept
  {
  }

  lemma UpsertStep(all: seq<Run>, r: Run, i: nat)
    requires i <= |all|
    ensures all[..i] + Upserted(all[i..], r)
         == if i == |all| then all + [r]
            else if Holds(all[i], r.job, r.name) then all[i := r.(startedAt := all[i].startedAt)]
            else all[..i + 1] + Upserted(all[i + 1..], r)
  {
    if i < |all| {
      assert all[i..][1..] == all[i + 1..];
      assert all[..i + 1] == all[..i] + [all[i]];
    } else {
      assert all[i..] == [] && all[..i] == all;
    }
  }

  lemma StepMade(t: Tables, op: Op, jobs: map<nat, Job>, pairs: Pairs, schedule: map<string, Schedule>)
    requires op.Finish? || op.MarkStale?
    requires jobs == JobsAfter(t, op) && pairs == PairsAfter(t, op) && schedule == NotedAll(t.schedule, RecordingsOf(t, op))
    ensures Apply(t, op) == Tables(jobs, pairs, schedule, t.intents, t.nextId)
  {
  }

  /** A failed restore test whose summary is that of a verified partial restore. */
  predicate HistoricalWarning(j: Job) {
    j.kind == "restoretest" && j.status == Failed && j.partial
  }

  /** The latest jobs by start time; those started at one time come in any order. */
  ghost predicate AreNewest(jobs: map<nat, Job>, newest: set<nat>, most: nat) {
    && newest <= jobs.Keys && |newest| <= most
    && (newest != jobs.Keys ==> |newest| == most)
    && forall a, b :: a in newest && b in jobs && b !in newest ==> jobs[a].startedAt >= jobs[b].startedAt
  }

  /** In the order of staging; those staged at one time come in any order. */
  ghost predicate OldestFirst(intents: map<nat, Intent>, ids: seq<nat>) {
    forall i, j :: 0 <= i < j < |ids| && ids[i] in intents && ids[j] in intents ==> intents[ids[i]].createdAt <= intents[ids[j]].createdAt
  }

  /** The jobs among them that run, or have ended as their intents say. */
  function Recoverable(t: Tables, ids: seq<nat>): seq<nat> {
    if ids == [] then []
    else
      var id := ids[|ids| - 1];
      Recoverable(t, ids[..|ids| - 1])
      + if IsRunning(t, id) || (id in t.jobs && id in t.intents && t.jobs[id].status == t.intents[id].status) then [id] else []
  }

  function SetOf(ids: seq<nat>): set<nat> {
    set id | id in ids
  }

  /** What a job's row says after it has ended: a slot that is set stays, a dry run stays one. */
  predicate EndsAs(was: Job, j: Job, status: Status, s: Summary, now: Time) {
    && j.status == status && j.endedAt == Some(now) && j.partial == s.partial
    && j.kind == was.kind && j.startedAt == was.startedAt && j.definition == was.definition && j.definitionName == was.definitionName
    && (j.dryRun <==> was.dryRun || s.dryRun)
    && (if s.trigger == "" then j.trigger == was.trigger else j.trigger == s.trigger)
    && (if was.slot.None? then j.slot == s.slot else j.slot == was.slot)
  }

  /** Every attempt that names a trigger names this one. */
  ghost predicate AgreeOn(attempts: seq<Attempt>, trigger: string) {
    trigger != "" && (exists a :: a in attempts && a.trigger == trigger)
    && forall a :: a in attempts && a.trigger != "" ==> a.trigger == trigger
  }

  /** The row of a new job: its own trigger, or the one its attempts agree on, or one by its slot. */
  ghost predicate StartsAs(op: Op, j: Job)
    requires op.Start?
  {
    && j.status == Running && j.endedAt == None && j.kind == op.kind && j.startedAt == op.now && j.slot == op.slot
    && j.definition == op.definition && j.definitionName == op.definitionName && !j.partial
    && (op.trigger != "" ==> j.trigger == op.trigger)
    && (op.trigger == "" ==> forall x :: AgreeOn(op.attempts, x) ==> j.trigger == x)
    && (op.trigger == "" && (forall x :: !AgreeOn(op.attempts, x)) ==> j.trigger == if op.slot.Some? then "scheduler" else "manual")
    && (op.dryRun.Some? ==> j.dryRun == op.dryRun.value)
    && (op.dryRun.None? ==> (j.dryRun <==> op.attempts != [] && forall a :: a in op.attempts ==> a.dryRun))
  }

  lemma TriggerIsAgreed(op: Op)
    requires op.Start? && op.trigger == ""
    ensures forall x :: AgreeOn(op.attempts, x) ==> InferredTrigger(op) == x
    ensures (forall x :: !AgreeOn(op.attempts, x)) ==> InferredTrigger(op) == if op.slot.Some? then "scheduler" else "manual"
  {
    var triggers := Triggers(op.attempts);
    forall x | AgreeOn(op.attempts, x) ensures InferredTrigger(op) == x {
      assert x in triggers;
      assert triggers == {x};
    }
    if |triggers| == 1 {
      OneElement(triggers);
      var x :| x in triggers;
      assert forall a :: a in op.attempts && a.trigger != "" ==> a.trigger in triggers;
      assert AgreeOn(op.attempts, x);
    }
  }

  lemma StartedAs(op: Op)
    requires op.Start?
    ensures StartsAs(op, NewJob(op))
  {
    hide InferredTrigger, AgreeOn;
    if op.trigger == "" { TriggerIsAgreed(op); } else { GivenTrigger(op); }
  }

  lemma GivenTrigger(op: Op)
    requires op.Start? && op.trigger != ""
    ensures InferredTrigger(op) == op.trigger
  {
  }

  /** The five kinds of backup work exclude each other, any other kind only itself. */
  predicate Excludes(a: string, b: string) {
    a == b || (a in {"backup", "check", "quicksync", "restoretest", "recovery"} && b in {"backup", "check", "quicksync", "restoretest", "recovery"})
  }

  lemma ScopeExcludes(a: string, b: string)
    ensures a in ScopeOf(b) <==> Excludes(a, b)
  {
  }

  class Database {
    var jobs: map<nat, Job>
    var runs: seq<Run>
    var history: map<string, Evidence>
    var schedule: map<string, Schedule>
    var intents: map<nat, Intent>
    var nextId: nat

    ghost function Now(): Tables
      reads this
    {
      Tables(jobs, Pairs(runs, history), schedule, intents, nextId)
    }

    constructor ()
      ensures Now() == EMPTY
    {
      jobs, runs, history, schedule, intents, nextId := map[], [], map[], map[], map[], 1;
    }

    // ---------- the statements ----------

    method RecordPairHistoryState(key: string, name: string, seenAt: Time, succeeded: bool, terminal: bool, successAt: Time)
      modifies this`history
      ensures history == Recorded(old(history), key, name, seenAt, succeeded, terminal, successAt)
    {
      if key == "" || name == "" { return; }
      var succeededAt := None;
      if succeeded { succeededAt := if successAt == 0.0 then Some(seenAt) else Some(successAt); }
      var seen := Evidence(name, succeeded, terminal, seenAt, seenAt, succeededAt);
      if key !in history {
        history := history[key := seen];
      } else {
        history := history[key := Merged(history[key], seen)];
      }
    }

    method RecordScheduleState(r: Recording)
      modifies this`schedule
      ensures schedule == Noted(old(schedule), r)
    {
      if r.definition == "" || r.dryRun { return; }
      var schedulerAttempt, succeeded := r.trigger == "scheduler", r.status == Fine;
      if !schedulerAttempt && !succeeded { return; }
      var fact := FactOf(r);
      if r.definition !in schedule {
        schedule := schedule[r.definition :=
          Schedule(r.name, if schedulerAttempt then Some(fact) else None, if succeeded then Some(fact) else None, fact.at)];
        return;
      }
      var row := schedule[r.definition];
      var updated := row.(name := if r.name == "" then row.name else r.name, updatedAt := Max(row.updatedAt, fact.at));
      if schedulerAttempt && NotOlder(r.startedAt, r.jobId, row.attempt) { updated := updated.(attempt := Some(fact)); }
      if succeeded && NotOlder(r.startedAt, r.jobId, row.success) { updated := updated.(success := Some(fact)); }
      schedule := schedule[r.definition := updated];
    }

    method Upsert(r: Run)
      modifies this`runs
      ensures runs == Upserted(old(runs), r)
    {
      hide Upserted;
      var i := 0;
      ghost var all := runs;
      assert all[..0] + Upserted(all, r) == Upserted(all, r) && all[0..] == all;
      while i < |runs| && !Holds(runs[i], r.job, r.name)
        invariant i <= |runs| && runs == all
        invariant Upserted(all, r) == all[..i] + Upserted(all[i..], r)
        decreases |runs| - i
      {
        UpsertStep(all, r, i);
        i := i + 1;
      }
      UpsertStep(all, r, i);
      if i < |runs| {
        runs := runs[i := r.(startedAt := runs[i].startedAt)];
      } else {
        runs := runs + [r];
      }
    }

    method TerminalizeRunningAttempts(job: nat, status: Status, now: Time)
      modifies this`runs, this`history
      ensures Pairs(runs, history) == Ended(old(Pairs(runs, history)), job, status, now)
    {
      hide EndedRuns, EndedHistory, Recorded;
      ghost var all := runs;
      var i := 0;
      EndedNone(history, all, job, status, now);
      while i < |runs|
        invariant i <= |runs| == |all|
        invariant runs == EndedRuns(all[..i], job, status, now) + all[i..]
        invariant history == EndedHistory(old(history), all[..i], job, now)
        decreases |all| - i
      {
        RunsStep(all, job, status, now, i, runs);
        HistoryStep(old(history), all, job, now, i);
        var row := runs[i];
        if Unfinished(row, job) {
          runs := runs[i := row.(status := status, ok := false, endedAt := Some(now))];
          RecordPairHistoryState(row.key, row.name, now, false, true, now);
        } else {
          assert runs[i := row] == runs;
        }
        i := i + 1;
      }
      assert all[..|all|] == all && all[|all|..] == [];
    }

    method StoreWrite(job: nat, started: Time, now: Time, terminal: bool, w: Write)
      modifies this`runs, this`history
      ensures Pairs(runs, history) == Stored(old(Pairs(runs, history)), job, started, now, terminal, w)
    {
      hide Upserted, Recorded;
      Upsert(Run(job, w.name, w.key, w.ok, w.dryRun, w.status, started, Some(now)));
      RecordPairHistoryState(w.key, w.name, now, w.ok && !w.dryRun, terminal, now);
    }

    method StoreResults(job: nat, j: Job, status: Status, s: Summary, now: Time)
      modifies this`runs, this`history
      ensures Pairs(runs, history)
           == StoredAll(old(Pairs(runs, history)), job, j.startedAt, now, status != Running, ResultWrites(j.kind, status, s, s.pairs))
    {
      hide Stored, StoredAll, ResultWrite, ResultWrites;
      ghost var p := Pairs(runs, history);
      NoneStored(p, job, j.startedAt, now, status != Running, j.kind, status, s);
      for i := 0 to |s.pairs|
        invariant Pairs(runs, history)
               == StoredAll(p, job, j.startedAt, now, status != Running, ResultWrites(j.kind, status, s, s.pairs[..i]))
      {
        ResultStep(p, job, j.startedAt, now, status != Running, j.kind, status, s, i);
        var r := s.pairs[i];
        if r.name != "" { StoreWrite(job, j.startedAt, now, status != Running, ResultWrite(j.kind, status, s, r)); }
      }
      assert s.pairs[..|s.pairs|] == s.pairs;
    }

    method StoreDue(job: nat, started: Time, status: Status, s: Summary, now: Time)
      requires status != Running
      modifies this`runs, this`history
      ensures Pairs(runs, history)
           == StoredAll(old(Pairs(runs, history)), job, started, now, true, DueWrites(status, s, s.due))
    {
      hide Stored, StoredAll, DueWrites;
      ghost var p := Pairs(runs, history);
      NoneStored(p, job, started, now, true, "", status, s);
      for i := 0 to |s.due|
        invariant Pairs(runs, history) == StoredAll(p, job, started, now, true, DueWrites(status, s, s.due[..i]))
      {
        DueStep(p, job, started, now, status, s, i);
        var d := s.due[i];
        if d.name != "" { StoreWrite(job, started, now, true, Write(d.name, d.key, false, s.dryRun, status)); }
      }
      assert s.due[..|s.due|] == s.due;
    }

    method StorePairResults(job: nat, j: Job, status: Status, s: Summary, now: Time)
      modifies this`runs, this`history
      ensures Pairs(runs, history) == FinishedPairs(old(Pairs(runs, history)), job, j, status, s, now)
    {
      hide StoredAll, ResultWrites, DueWrites, EndedRuns, EndedHistory;
      ghost var p := Pairs(runs, history);
      StoreResults(job, j, status, s, now);
      ghost var results := ResultWrites(j.kind, status, s, s.pairs);
      if status in {Failed, Stale, Cancelled} {
        StoreDue(job, j.startedAt, status, s, now);
        StoredConcat(p, job, j.startedAt, now, true, results, DueWrites(status, s, s.due));
      } else {
        assert results + [] == results;
      }
      if status != Running { TerminalizeRunningAttempts(job, UnfinishedStatus(status), now); }
    }

    // ---------- starting and finishing ----------

    method Reserve(job: nat, attempts: seq<Attempt>, now: Time)
      modifies this`runs, this`history
      ensures Pairs(runs, history) == ReservedAll(old(Pairs(runs, history)), job, attempts, now)
    {
      hide Recorded, HasRun;
      assert attempts[..0] == [];
      for i := 0 to |attempts|
        invariant Pairs(runs, history) == ReservedAll(old(Pairs(runs, history)), job, attempts[..i], now)
      {
        assert attempts[..i + 1][..i] == attempts[..i];
        var a := attempts[i];
        if a.name == "" { continue; }
        if !HasRun(runs, job, a.name) {
          runs := runs + [Run(job, a.name, a.key, false, a.dryRun, Running, now, None)];
        }
        RecordPairHistoryState(a.key, a.name, now, false, false, now);
      }
      assert attempts[..|attempts|] == attempts;
    }

    /** `op` holds the arguments; the new job's id is returned. */
    method JobStart(op: Op) returns (r: Result<nat, Error>)
      requires op.Start?
      modifies this
      ensures r.Ok? <==> Allowed(old(Now()), op)
      ensures r.Ok? ==> r.value == old(nextId) && Now() == Apply(old(Now()), op)
      ensures r.Err? ==> Now() == old(Now())
      ensures r.Ok? ==> jobs.Keys == old(jobs).Keys + {r.value} && StartsAs(op, jobs[r.value])
      ensures r == Err(InvalidKind) <==> op.kind == "" || |op.kind| > 64
      ensures r == Err(ScopeTaken) ==>
                op.exclusive && exists id :: id in jobs && jobs[id].status == Running && Excludes(jobs[id].kind, op.kind)
      ensures r.Ok? && op.exclusive ==>
                forall id :: id in old(jobs) && old(jobs)[id].status == Running ==> !Excludes(old(jobs)[id].kind, op.kind)
    {
      hide NewJob, ReservedAll, Noted, ScopeOf, Excludes, StartsAs;
      forall a: string ensures a in ScopeOf(op.kind) <==> Excludes(a, op.kind) { ScopeExcludes(a, op.kind); }
      StartedAs(op);
      if |op.kind| == 0 || |op.kind| > 64 { return Err(InvalidKind); }
      if op.exclusive && exists id :: id in jobs && jobs[id].status == Running && jobs[id].kind in ScopeOf(op.kind) {
        return Err(ScopeTaken);
      }
      var id, job := nextId, NewJob(op);
      ghost var t := Now();
      jobs, nextId := jobs[id := job], id + 1;
      Reserve(id, op.attempts, op.now);
      Recordings(t, op);
      if InferredTrigger(op) == "scheduler" { RecordScheduleState(RowRecording(id, job)); }
      return Ok(id);
    }

    method JobFinish(id: nat, status: Status, s: Summary, now: Time) returns (r: Result<bool, Error>)
      modifies this
      ensures r.Err? <==> id !in old(jobs)
      ensures r.Ok? ==> (r.value <==> IsRunning(old(Now()), id))
      ensures Now() == Apply(old(Now()), Finish(id, status, s, now))
      ensures intents == old(intents) && nextId == old(nextId) && jobs.Keys == old(jobs).Keys
      ensures r == Ok(true) ==> EndsAs(old(jobs)[id], jobs[id], status, s, now) && forall k :: k in jobs && k != id ==> jobs[k] == old(jobs)[k]
      ensures r == Ok(false) ==> Now() == old(Now())
    {
      hide NotedAll, Noted, FinishedPairs, FinishedJob, RowRecording, EndsAs;
      ghost var t, op := Now(), Finish(id, status, s, now);
      Recordings(t, op);
      if id !in jobs { return Err(NoSuchJob); }
      var row := jobs[id];
      if row.status != Running { return Ok(false); }
      var finished := FinishedJob(row, status, s, now);
      FinishedEndsAs(row, status, s, now);
      jobs := jobs[id := finished];
      StorePairResults(id, row, status, s, now);
      RecordScheduleState(FinishRecording(id, row, status, s, now));
      return Ok(true);
    }

    // ---------- terminal intents ----------

    method JobTerminalStage(id: nat, status: Status, s: Summary, now: Time) returns (r: Result<(), Error>)
      modifies this
      ensures r.Ok? <==> Allowed(old(Now()), Stage(id, status, s, now))
      ensures r.Ok? ==> Now() == Apply(old(Now()), Stage(id, status, s, now))
      ensures r.Err? ==> Now() == old(Now())
    {
      assert NotedAll(schedule, []) == schedule;
      if status == Running { return Err(NotTerminal); }
      if id !in jobs { return Err(NoSuchJob); }
      if id !in intents {
        intents := intents[id := Intent(status, s, false, now)];
      } else if intents[id].status != status || intents[id].summary != s {
        return Err(OtherIntent);
      }
      return Ok(());
    }

    /** Reads the intent, finishes the job, and marks the intent: three transactions. */
    method JobTerminalApply(id: nat, now: Time) returns (r: Result<bool, Error>)
      requires forall k :: k in intents ==> k in jobs
      modifies this
      ensures r.Err? && r.error == NoIntent <==> id !in old(intents)
      ensures id in old(intents) ==> Completes(old(Now()), Now(), id, now, r.Ok?)
      ensures id !in old(intents) ==> Now() == old(Now())
      ensures id in old(intents) ==>
                var intent := old(intents)[id];
                var t := Apply(old(Now()), Finish(id, intent.status, intent.summary, now));
                if t.jobs[id].status == intent.status
                then Allowed(t, MarkApplied(id)) && Now() == Apply(t, MarkApplied(id)) && r == Ok(true)
                else Now() == t && r == Err(CasConflict(Some(t.jobs[id].status)))
    {
      hide FinishedPairs, NotedAll, Recorded, FinishedJob, Noted;
      if id !in intents { return Err(NoIntent); }
      var intent := intents[id];
      ghost var t0 := Now();
      var finished := JobFinish(id, intent.status, intent.summary, now);
      StaysKnown(t0, id, intent, now);
      var transitioned := finished.value;
      var actual := jobs[id].status;
      FinishedStatusIs(t0, id, intent, now);
      if !transitioned && actual != intent.status { return Err(CasConflict(Some(actual))); }
      MarkedIs(Now(), id);
      intents := intents[id := intents[id].(applied := true)];
      return Ok(transitioned || actual == intent.status);
    }

    // ---------- stale marking ----------

    method MarkAllStale(ids: seq<nat>, now: Time)
      requires (forall i :: 0 <= i < |ids| ==> IsRunning(Now(), ids[i])) && NoRepeats(ids)
      modifies this
      ensures Now() == Apply(old(Now()), MarkStale(ids, now))
    {
      hide NotedAll, Noted, EndedAll, RowRecording;
      ghost var t, op := Now(), MarkStale(ids, now);
      assert forall id :: id in ids ==> id in jobs;
      ghost var was := jobs;
      var recordings := StaleRecordings(jobs, ids, now);
      jobs := map id | id in jobs :: if id in ids then jobs[id].(status := Stale, endedAt := Some(now)) else jobs[id];
      TerminalizeAll(ids, now);
      RecordAll(recordings);
      StepMade(t, op, jobs, Pairs(runs, history), schedule);
    }

    method TerminalizeAll(ids: seq<nat>, now: Time)
      modifies this`runs, this`history
      ensures Pairs(runs, history) == EndedAll(old(Pairs(runs, history)), ids, now)
    {
      hide Ended;
      assert ids[..0] == [];
      for i := 0 to |ids|
        invariant Pairs(runs, history) == EndedAll(old(Pairs(runs, history)), ids[..i], now)
      {
        assert ids[..i + 1][..i] == ids[..i];
        TerminalizeRunningAttempts(ids[i], Stale, now);
      }
      assert ids[..|ids|] == ids;
    }

    method RecordAll(rs: seq<Recording>)
      modifies this`schedule
      ensures schedule == NotedAll(old(schedule), rs)
    {
      hide Noted;
      assert rs[..0] == [];
      for i := 0 to |rs|
        invariant schedule == NotedAll(old(schedule), rs[..i])
      {
        assert rs[..i + 1][..i] == rs[..i];
        RecordScheduleState(rs[i]);
      }
      assert rs[..|rs|] == rs;
    }

    method JobMarkStale(id: nat, now: Time) returns (transitioned: bool)
      modifies this
      ensures transitioned <==> IsRunning(old(Now()), id)
      ensures Now() == if transitioned then Apply(old(Now()), MarkStale([id], now)) else old(Now())
    {
      transitioned := id in jobs && jobs[id].status == Running;
      if transitioned { MarkAllStale([id], now); }
    }

    /** The ids of the running jobs the predicate selects, each once. */
    method SelectRunning(wanted: set<nat>) returns (ids: seq<nat>)
      ensures NoRepeats(ids)
      ensures forall id :: id in ids <==> id in wanted && IsRunning(Now(), id)
    {
      ids := [];
      var rest := set id | id in wanted && id in jobs && jobs[id].status == Running;
      while rest != {}
        invariant NoRepeats(ids)
        invariant forall id :: id in ids || id in rest <==> id in wanted && IsRunning(Now(), id)
        invariant forall id :: id in ids ==> id !in rest
        decreases rest
      {
        var id :| id in rest;
        ids := ids + [id];
        rest := rest - {id};
      }
    }

    /** An empty set of kinds means all kinds. */
    method JobsMarkAllRunningStale(kinds: set<string>, now: Time) returns (ghost ids: seq<nat>, count: nat)
      modifies this
      ensures forall id :: id in ids <==> IsRunning(old(Now()), id) && (kinds == {} || old(jobs)[id].kind in kinds)
      ensures Allowed(old(Now()), MarkStale(ids, now)) && Now() == Apply(old(Now()), MarkStale(ids, now)) && count == |ids|
    {
      hide NotedAll, EndedAll;
      var wanted := set id | id in jobs && (kinds == {} || jobs[id].kind in kinds);
      var found := SelectRunning(wanted);
      MarkAllStale(found, now);
      ids, count := found, |found|;
    }

    method JobsMarkStale(maxAge: int, kind: Option<string>, now: Time) returns (ghost ids: seq<nat>, count: nat)
      modifies this
      ensures forall id :: id in ids <==> IsRunning(old(Now()), id) && (kind.None? || old(jobs)[id].kind == kind.value)
                                          && old(jobs)[id].startedAt < now - (if maxAge < 60 then 60 else maxAge) as real
      ensures Allowed(old(Now()), MarkStale(ids, now)) && Now() == Apply(old(Now()), MarkStale(ids, now)) && count == |ids|
    {
      hide NotedAll, EndedAll;
      var cutoff := now - (if maxAge < 60 then 60 else maxAge) as real;
      var wanted := set id | id in jobs && jobs[id].startedAt < cutoff && (kind.None? || jobs[id].kind == kind.value);
      var found := SelectRunning(wanted);
      MarkAllStale(found, now);
      ids, count := found, |found|;
    }

    // ---------- deleting ----------

    /** Deletes with the cascades to attempts and intents. */
    method Cascade(removed: set<nat>)
      modifies this
      ensures Now() == Apply(old(Now()), Delete(removed))
    {
      assert NotedAll(schedule, []) == schedule;
      jobs, intents := jobs - removed, intents - removed;
      DropRuns(removed);
    }

    method DropRuns(removed: set<nat>)
      modifies this`runs
      ensures runs == KeptRuns(old(runs), removed)
    {
      hide KeptRuns;
      var i, kept := 0, [];
      assert runs[0..] == runs && [] + KeptRuns(runs, removed) == KeptRuns(runs, removed);
      while i < |runs|
        invariant i <= |runs| && runs == old(runs)
        invariant kept + KeptRuns(runs[i..], removed) == KeptRuns(runs, removed)
      {
        KeptStep(runs, removed, i, kept);
        if runs[i].job !in removed { kept := kept + [runs[i]]; }
        i := i + 1;
      }
      NothingKept(runs[i..], removed, kept);
      runs := kept;
    }

    method JobsDeleteFailed() returns (count: nat, ghost removed: set<nat>)
      modifies this
      ensures forall id :: id in removed <==>
                && id in old(jobs) && old(jobs)[id].status in {Failed, Stale, Cancelled}
                && !(old(jobs)[id].status == Failed && old(jobs)[id].kind == "restoretest" && old(jobs)[id].partial)
      ensures Allowed(old(Now()), Delete(removed)) && Now() == Apply(old(Now()), Delete(removed)) && count == |removed|
    {
      hide KeptRuns, NotedAll;
      var failed := set id | id in jobs && jobs[id].status in {Failed, Stale, Cancelled} && !HistoricalWarning(jobs[id]);
      Cascade(failed);
      count, removed := |failed|, failed;
    }

    /** The ids of the newest jobs. */
    method NewestJobs(most: nat) returns (newest: set<nat>)
      ensures AreNewest(jobs, newest, most)
    {
      newest := {};
      var rest := jobs.Keys;
      while |newest| < most && rest != {}
        invariant newest !! rest && newest + rest == jobs.Keys && |newest| <= most
        invariant forall a, b :: a in newest && b in rest ==> jobs[a].startedAt >= jobs[b].startedAt
        decreases rest
      {
        var id := Newest(rest);
        newest, rest := newest + {id}, rest - {id};
      }
      assert rest != {} ==> |newest| == most;
      if rest == {} { assert newest == jobs.Keys; }
    }

    method Newest(ids: set<nat>) returns (newest: nat)
      requires ids != {} && ids <= jobs.Keys
      ensures newest in ids && forall id :: id in ids ==> jobs[newest].startedAt >= jobs[id].startedAt
    {
      newest :| newest in ids;
      var rest := ids - {newest};
      while rest != {}
        invariant newest in ids && rest <= ids
        invariant forall id :: id in ids && id !in rest ==> jobs[newest].startedAt >= jobs[id].startedAt
        decreases rest
      {
        var id :| id in rest;
        if jobs[id].startedAt > jobs[newest].startedAt { newest := id; }
        rest := rest - {id};
      }
    }

    /** Old jobs go unless they run or are among the newest, `latest`. */
    method JobsPrune(days: int, keepLatest: int, now: Time) returns (count: nat, ghost latest: set<nat>)
      modifies this
      ensures AreNewest(old(jobs), latest, if keepLatest < 0 then 0 else keepLatest)
      ensures var cutoff := now - ((if days < 1 then 1 else days) * 86400) as real;
              var removed := set id | id in old(jobs) && old(jobs)[id].status != Running && old(jobs)[id].startedAt < cutoff && id !in latest;
              Allowed(old(Now()), Delete(removed)) && Now() == Apply(old(Now()), Delete(removed)) && count == |removed|
    {
      hide KeptRuns, NotedAll, AreNewest;
      var cutoff := now - ((if days < 1 then 1 else days) * 86400) as real;
      var kept := NewestJobs(if keepLatest < 0 then 0 else keepLatest);
      var removed := set id | id in jobs && jobs[id].status != Running && jobs[id].startedAt < cutoff && id !in kept;
      Cascade(removed);
      count, latest := |removed|, kept;
    }

    // ---------- recovery under the scope lock ----------

    /** The pending intents, oldest first. */
    method PendingIntents() returns (ids: seq<nat>)
      ensures NoRepeats(ids) && (forall id :: id in ids <==> id in intents && !intents[id].applied) && OldestFirst(intents, ids)
    {
      ids := [];
      var rest := set id | id in intents && !intents[id].applied;
      while rest != {}
        invariant NoRepeats(ids)
        invariant forall id :: id in ids || id in rest <==> id in intents && !intents[id].applied
        invariant forall id :: id in ids ==> id !in rest
        invariant OldestFirst(intents, ids)
        invariant forall i, id :: 0 <= i < |ids| && id in rest ==> intents[ids[i]].createdAt <= intents[id].createdAt
        decreases rest
      {
        var id := Oldest(rest);
        ids := ids + [id];
        rest := rest - {id};
      }
    }

    method Oldest(ids: set<nat>) returns (oldest: nat)
      requires ids != {} && ids <= intents.Keys
      ensures oldest in ids && forall id :: id in ids ==> intents[oldest].createdAt <= intents[id].createdAt
    {
      oldest :| oldest in ids;
      var rest := ids - {oldest};
      while rest != {}
        invariant oldest in ids && rest <= ids
        invariant forall id :: id in ids && id !in rest ==> intents[oldest].createdAt <= intents[id].createdAt
        decreases rest
      {
        var id :| id in rest;
        if intents[id].createdAt < intents[oldest].createdAt { oldest := id; }
        rest := rest - {id};
      }
    }

    /** Completes what was staged, oldest first; a conflicting intent is counted and left. */
    method JobTerminalRecoverPending(now: Time) returns (recoveredIds: seq<nat>, failed: nat, ghost ids: seq<nat>)
      requires forall k :: k in intents ==> k in jobs && intents[k].status != Running
      modifies this
      ensures Recovery(old(Now()), Now())
      ensures forall k :: k in intents ==> k in jobs && intents[k].status != Running
      ensures NoRepeats(ids) && OldestFirst(old(intents), ids)
      ensures forall id :: id in ids <==> id in old(intents) && !old(intents)[id].applied
      ensures recoveredIds == Recoverable(old(Now()), ids) && failed == |ids| - |recoveredIds|
    {
      hide Apply, Allowed, RecoveringTo, Pending, Recovery, NoRepeats, OldestFirst, Completes, Recoverable, SetOf;
      ghost var t := Now();
      var pending := PendingIntents();
      recoveredIds, failed, ids := [], 0, pending;
      RecoveryStarts(t);
      NoneYet(t, pending);
      for i := 0 to |pending|
        invariant forall k :: k in intents ==> k in jobs && intents[k].status != Running
        invariant RecoveringTo(t, Now(), SetOf(pending[..i]))
        invariant recoveredIds == Recoverable(t, pending[..i]) && failed == i - |recoveredIds|
      {
        RecoveringKnown(t, Now(), SetOf(pending[..i]));
        assert pending[i] in pending;
        NotYet(pending, i);
        ghost var before := Now();
        var r := JobTerminalApply(pending[i], now);
        if r.Ok? { recoveredIds := recoveredIds + [pending[i]]; } else { failed := failed + 1; }
        RecoveryTurn(t, before, Now(), pending, i, now, r.Ok?);
        RecoveringKnown(t, Now(), SetOf(pending[..i + 1]));
      }
      assert pending[..|pending|] == pending;
      AllTried(pending);
      RecoveryDone(t, Now(), SetOf(pending));
    }

    /** Called under the scope's lock; `active` says whether a worker still runs. */
    method ReconcileLockedScope(active: bool, kinds: set<string>, now: Time) returns (safe: bool, recoveredJobs: nat)
      requires forall k :: k in intents ==> k in jobs && intents[k].status != Running
      modifies this
      ensures safe <==> !active
      ensures active ==> Now() == old(Now()) && recoveredJobs == 0
      // nothing of the scope runs any more
      ensures safe ==> forall id :: InScope(Now(), id, kinds) ==> jobs[id].status != Running
      // a job staged while running has its staged status, and is not stale
      ensures safe ==> forall id :: id in old(intents) && !old(intents)[id].applied && IsRunning(old(Now()), id) ==>
                id in jobs && jobs[id].status == old(intents)[id].status && id in intents && intents[id].applied
      // a job of the scope that ran without being staged is stale, any other job is as before
      ensures safe ==> forall id :: id in old(jobs) && !(id in old(intents) && !old(intents)[id].applied) ==>
                && id in jobs
                && (if IsRunning(old(Now()), id) && InScope(old(Now()), id, kinds) then jobs[id].status == Stale
                    else jobs[id] == old(jobs)[id])
    {
      if active { return false, 0; }
      hide NotedAll, FinishedPairs, EndedAll;
      ghost var t := Now();
      var recovered, failed, _ := JobTerminalRecoverPending(now);
      ghost var m := Now();
      ghost var ids;
      ids, recoveredJobs := JobsMarkAllRunningStale(kinds, now);
      ReconcileEffect(t, m, ids, kinds, now);
      return true, recoveredJobs;
    }

    // ---------- the baseline question ----------

    method PairBaselineState(name: string, key: string, legacy: string) returns (verdict: Verdict)
      modifies this
      ensures verdict == Asked(old(Now()).pairs, name, key, legacy).verdict
      ensures Now() == Apply(old(Now()), Ask(name, key, legacy))
    {
      assert NotedAll(schedule, []) == schedule;
      hide LastSuccess, Recorded, NotedAll, EverEnded;
      if name == "" || key == "" { return Ambiguous; }
      if key in history && history[key].succeeded { return Succeeded; }
      var own := LastSuccess(runs, {key}, "");
      if own.Some? {
        var at := EndTime(own.value);
        RecordPairHistoryState(key, if own.value.name == "" then name else own.value.name, at, true, true, at);
        return Succeeded;
      }
      if key != legacy {
        if legacy in history && history[legacy].name == name && history[legacy].succeeded {
          var l := history[legacy];
          RecordPairHistoryState(key, name, l.lastSeen, true, l.terminal,
                                 if l.lastSuccess.Some? && l.lastSuccess.value != 0.0 then l.lastSuccess.value else l.lastSeen);
          return Succeeded;
        }
        var older := LastSuccess(runs, {"", legacy}, name);
        if older.Some? {
          var at := EndTime(older.value);
          RecordPairHistoryState(key, name, at, true, true, at);
          return Succeeded;
        }
      }
      var seen := TerminalSeen(name, key, legacy);
      return if seen then Ambiguous else New;
    }

    method TerminalSeen(name: string, key: string, legacy: string) returns (seen: bool)
      ensures seen <==> EverEnded(Pairs(runs, history), name, key, legacy)
    {
      seen := key in history && history[key].terminal;
      if !seen { seen := exists i :: 0 <= i < |runs| && runs[i].key == key && HasEnded(runs[i]); }
      if !seen && key != legacy { seen := legacy in history && history[legacy].name == name && history[legacy].terminal; }
    }
  }

  // ---------- lemmas for the methods ----------

  lemma NoneStored(p: Pairs, job: nat, started: Time, now: Time, terminal: bool, kind: string, status: Status, s: Summary)
    ensures StoredAll(p, job, started, now, terminal, ResultWrites(kind, status, s, s.pairs[..0])) == p
    ensures StoredAll(p, job, started, now, terminal, DueWrites(status, s, s.due[..0])) == p
  {
  }

  lemma OneMoreStored(p: Pairs, job: nat, started: Time, now: Time, terminal: bool, ws: seq<Write>, more: seq<Write>)
    requires |more| <= 1
    ensures StoredAll(p, job, started, now, terminal, ws + more)
         == var q := StoredAll(p, job, started, now, terminal, ws);
            if more == [] then q else Stored(q, job, started, now, terminal, more[0])
  {
    hide Stored;
    if more == [] { assert ws + more == ws; } else { assert (ws + more)[..|ws + more| - 1] == ws; }
  }

  /** Storing the results up to pair i, which is skipped when it has no name. */
  lemma ResultStep(p: Pairs, job: nat, started: Time, now: Time, terminal: bool, kind: string, status: Status, s: Summary, i: nat)
    requires i < |s.pairs|
    ensures StoredAll(p, job, started, now, terminal, ResultWrites(kind, status, s, s.pairs[..i + 1]))
         == var q := StoredAll(p, job, started, now, terminal, ResultWrites(kind, status, s, s.pairs[..i]));
            if s.pairs[i].name == "" then q else Stored(q, job, started, now, terminal, ResultWrite(kind, status, s, s.pairs[i]))
  {
    hide Stored, StoredAll, ResultWrite;
    assert s.pairs[..i + 1][..i] == s.pairs[..i];
    OneMoreStored(p, job, started, now, terminal, ResultWrites(kind, status, s, s.pairs[..i]),
                  if s.pairs[i].name == "" then [] else [ResultWrite(kind, status, s, s.pairs[i])]);
  }

  lemma DueStep(p: Pairs, job: nat, started: Time, now: Time, status: Status, s: Summary, i: nat)
    requires i < |s.due|
    ensures var d := s.due[i];
            StoredAll(p, job, started, now, true, DueWrites(status, s, s.due[..i + 1]))
            == var q := StoredAll(p, job, started, now, true, DueWrites(status, s, s.due[..i]));
               if d.name == "" then q else Stored(q, job, started, now, true, Write(d.name, d.key, false, s.dryRun, status))
  {
    hide Stored, StoredAll;
    assert s.due[..i + 1][..i] == s.due[..i];
    OneMoreStored(p, job, started, now, true, DueWrites(status, s, s.due[..i]),
                  if s.due[i].name == "" then [] else [Write(s.due[i].name, s.due[i].key, false, s.dryRun, status)]);
  }

  lemma {:induction false} StoredConcat(p: Pairs, job: nat, started: Time, now: Time, terminal: bool, a: seq<Write>, b: seq<Write>)
    ensures StoredAll(p, job, started, now, terminal, a + b)
         == StoredAll(StoredAll(p, job, started, now, terminal, a), job, started, now, terminal, b)
  {
    hide Stored;
    if b == [] {
      assert a + b == a;
    } else {
      StoredConcat(p, job, started, now, terminal, a, b[..|b| - 1]);
      assert (a + b)[..|a + b| - 1] == a + b[..|b| - 1];
    }
  }

  /** The recordings of a start or a finish, written out. */
  lemma Recordings(t: Tables, op: Op)
    requires op.Start? || op.Finish?
    ensures NotedAll(t.schedule, RecordingsOf(t, op))
         == if RecordingsOf(t, op) == [] then t.schedule else Noted(t.schedule, RecordingsOf(t, op)[0])
  {
    var rs := RecordingsOf(t, op);
    assert |rs| <= 1;
    if rs != [] { assert rs[..|rs| - 1] == [] && NotedAll(t.schedule, []) == t.schedule; }
  }

  lemma FinishedEndsAs(j: Job, status: Status, s: Summary, now: Time)
    ensures EndsAs(j, FinishedJob(j, status, s, now), status, s, now)
  {
  }

  lemma StaysKnown(t: Tables, id: nat, intent: Intent, now: Time)
    requires id in t.jobs
    ensures id in Apply(t, Finish(id, intent.status, intent.summary, now)).jobs
  {
  }

  lemma FinishedStatusIs(t: Tables, id: nat, intent: Intent, now: Time)
    requires id in t.jobs
    ensures var t' := Apply(t, Finish(id, intent.status, intent.summary, now));
            t'.jobs[id].status == (if IsRunning(t, id) then intent.status else t.jobs[id].status) && t'.intents == t.intents
  {
  }

  lemma MarkedIs(t: Tables, id: nat)
    requires id in t.intents && id in t.jobs && t.jobs[id].status == t.intents[id].status
    ensures Allowed(t, MarkApplied(id))
    ensures Apply(t, MarkApplied(id)) == t.(intents := t.intents[id := t.intents[id].(applied := true)])
  {
    assert NotedAll(t.schedule, []) == t.schedule;
  }

  // ---------- what recovery reaches ----------

  /** The pending intents of `done` have been tried, everything else is untouched. */
  ghost predicate RecoveringTo(t: Tables, m: Tables, done: set<nat>) {
    && m.jobs.Keys == t.jobs.Keys && m.intents.Keys == t.intents.Keys
    && (forall id :: id in t.intents ==> m.intents[id].status == t.intents[id].status && m.intents[id].summary == t.intents[id].summary)
    && (forall id :: id in t.jobs && id !in done ==> m.jobs[id] == t.jobs[id])
    && (forall id :: id in t.intents && id !in done ==> m.intents[id] == t.intents[id])
    && (forall id :: id in done && id in t.jobs && id in t.intents ==> Tried(t, m, id))
  }

  predicate Tried(t: Tables, m: Tables, id: nat)
    requires id in t.jobs && id in m.jobs && id in t.intents && id in m.intents
  {
    && m.jobs[id].kind == t.jobs[id].kind
    && if t.jobs[id].status == Running then m.jobs[id].status == t.intents[id].status && m.intents[id].applied
       else m.jobs[id] == t.jobs[id] && (m.intents[id].applied <==> t.intents[id].applied || t.jobs[id].status == t.intents[id].status)
  }

  /** Every pending intent has been tried: running jobs took it over. */
  ghost predicate Recovery(t: Tables, m: Tables) {
    exists done :: Pending(t, done) && RecoveringTo(t, m, done)
  }

  predicate Pending(t: Tables, done: set<nat>) {
    done == set id | id in t.intents && !t.intents[id].applied
  }

  lemma RecoveryStarts(t: Tables)
    ensures RecoveringTo(t, t, {})
  {
  }

  lemma RecoveryStep(t: Tables, m: Tables, done: set<nat>, id: nat, now: Time)
    requires RecoveringTo(t, m, done) && id !in done && id in t.intents && id in t.jobs
    ensures var f := Apply(m, Finish(id, m.intents[id].status, m.intents[id].summary, now));
            if f.jobs[id].status == m.intents[id].status then RecoveringTo(t, Apply(f, MarkApplied(id)), done + {id})
            else RecoveringTo(t, f, done + {id})
  {
    hide Apply, FinishedJob, RecoveringTo, Tried;
    StillUntried(t, m, done, id);
    var f := Apply(m, Finish(id, m.intents[id].status, m.intents[id].summary, now));
    FinishIs(m, id, m.intents[id].status, m.intents[id].summary, now);
    if f.jobs[id].status == m.intents[id].status {
      MarkedIs(f, id);
      IsTried(t, Apply(f, MarkApplied(id)), id);
      RecoveryKeeps(t, m, Apply(f, MarkApplied(id)), done, id);
    } else {
      IsTried(t, f, id);
      RecoveryKeeps(t, m, f, done, id);
    }
  }

  lemma StillUntried(t: Tables, m: Tables, done: set<nat>, id: nat)
    requires RecoveringTo(t, m, done) && id !in done && id in t.intents && id in t.jobs
    ensures id in m.jobs && id in m.intents && m.jobs[id] == t.jobs[id] && m.intents[id] == t.intents[id]
  {
  }

  lemma IsTried(t: Tables, n: Tables, id: nat)
    requires id in t.jobs && id in n.jobs && id in t.intents && id in n.intents
    requires n.jobs[id].kind == t.jobs[id].kind
    requires if t.jobs[id].status == Running then n.jobs[id].status == t.intents[id].status else n.jobs[id] == t.jobs[id]
    requires n.intents[id] == t.intents[id].(applied := t.intents[id].applied || n.jobs[id].status == t.intents[id].status)
    ensures Tried(t, n, id)
  {
  }

  lemma RecoveryKeeps(t: Tables, m: Tables, n: Tables, done: set<nat>, id: nat)
    requires RecoveringTo(t, m, done) && id !in done && id in t.intents && id in t.jobs
    requires n.jobs.Keys == m.jobs.Keys && n.intents.Keys == m.intents.Keys
    requires forall k :: k in m.jobs && k != id ==> n.jobs[k] == m.jobs[k]
    requires forall k :: k in m.intents && k != id ==> n.intents[k] == m.intents[k]
    requires n.intents[id].status == m.intents[id].status && n.intents[id].summary == m.intents[id].summary && Tried(t, n, id)
    ensures RecoveringTo(t, n, done + {id})
  {
    forall k | k in done && k in t.jobs && k in t.intents ensures Tried(t, n, k) { assert Tried(t, m, k); }
  }

  lemma FinishIs(t: Tables, id: nat, status: Status, s: Summary, now: Time)
    requires id in t.jobs
    ensures var t' := Apply(t, Finish(id, status, s, now));
            && t'.intents == t.intents
            && t'.jobs == (if IsRunning(t, id) then t.jobs[id := FinishedJob(t.jobs[id], status, s, now)] else t.jobs)
    ensures FinishedJob(t.jobs[id], status, s, now).status == status && FinishedJob(t.jobs[id], status, s, now).kind == t.jobs[id].kind
  {
  }

  lemma RecoveringKnown(t: Tables, m: Tables, done: set<nat>)
    requires RecoveringTo(t, m, done) && forall k :: k in t.intents ==> k in t.jobs && t.intents[k].status != Running
    ensures forall k :: k in m.intents ==> k in m.jobs && m.intents[k].status != Running
    ensures m.intents.Keys == t.intents.Keys && m.jobs.Keys == t.jobs.Keys
  {
  }

  lemma NoneYet(t: Tables, ids: seq<nat>)
    ensures SetOf(ids[..0]) == {} && Recoverable(t, ids[..0]) == []
  {
  }

  lemma AllTried(ids: seq<nat>)
    ensures forall id :: id in SetOf(ids) <==> id in ids
  {
  }

  /** Finishing the job as its intent says, and marking the intent unless another end stands. */
  predicate Completes(t: Tables, n: Tables, id: nat, now: Time, ok: bool) {
    id in t.intents && id in t.jobs &&
      var f := Apply(t, Finish(id, t.intents[id].status, t.intents[id].summary, now));
      id in f.jobs && (ok <==> f.jobs[id].status == t.intents[id].status) && n == if ok then Apply(f, MarkApplied(id)) else f
  }

  /** One turn of the recovery. */
  lemma RecoveryTurn(t: Tables, m: Tables, n: Tables, ids: seq<nat>, i: nat, now: Time, ok: bool)
    requires i < |ids| && ids[i] !in ids[..i] && ids[i] in t.intents && ids[i] in t.jobs && t.intents[ids[i]].status != Running
    requires RecoveringTo(t, m, SetOf(ids[..i])) && ids[i] in m.intents
    requires Completes(m, n, ids[i], now, ok)
    ensures RecoveringTo(t, n, SetOf(ids[..i + 1]))
    ensures Recoverable(t, ids[..i + 1]) == Recoverable(t, ids[..i]) + if ok then [ids[i]] else []
  {
    hide Apply, RecoveringTo;
    var id := ids[i];
    StillUntried(t, m, SetOf(ids[..i]), id);
    FinishIs(m, id, m.intents[id].status, m.intents[id].summary, now);
    RecoveryStep(t, m, SetOf(ids[..i]), id, now);
    assert ids[..i + 1][..i] == ids[..i];
    assert ids[..i + 1] == ids[..i] + [id];
    assert SetOf(ids[..i + 1]) == SetOf(ids[..i]) + {id};
  }

  lemma NotYet(ids: seq<nat>, i: nat)
    requires NoRepeats(ids) && i < |ids|
    ensures ids[i] !in ids[..i]
  {
  }

  lemma RecoveryDone(t: Tables, m: Tables, done: set<nat>)
    requires RecoveringTo(t, m, done)
    requires forall id :: id in done <==> id in t.intents && !t.intents[id].applied
    ensures Recovery(t, m)
  {
    assert Pending(t, done);
  }

  predicate InScope(t: Tables, id: nat, kinds: set<string>) {
    id in t.jobs && (kinds == {} || t.jobs[id].kind in kinds)
  }

  lemma ReconcileEffect(t: Tables, m: Tables, ids: seq<nat>, kinds: set<string>, now: Time)
    requires Recovery(t, m) && (forall k :: k in t.intents ==> k in t.jobs && t.intents[k].status != Running)
    requires forall id :: id in ids <==> IsRunning(m, id) && (kinds == {} || m.jobs[id].kind in kinds)
    ensures var n := Apply(m, MarkStale(ids, now));
            && (forall id :: InScope(n, id, kinds) ==> n.jobs[id].status != Running)
            && (forall id :: id in t.intents && !t.intents[id].applied && IsRunning(t, id) ==>
                  id in n.jobs && n.jobs[id].status == t.intents[id].status && id in n.intents && n.intents[id].applied)
            && (forall id :: id in t.jobs && !(id in t.intents && !t.intents[id].applied) ==>
                  && id in n.jobs
                  && (if IsRunning(t, id) && InScope(t, id, kinds) then n.jobs[id].status == Stale else n.jobs[id] == t.jobs[id]))
  {
    hide Recovery, Apply;
    RecoveredJobs(t, m);
    var n := Apply(m, MarkStale(ids, now));
    StaleIs(m, ids, now);
    forall id | InScope(n, id, kinds) ensures n.jobs[id].status != Running { StaleOrEnded(m, n, ids, kinds, now, id); }
    forall id | id in t.intents && !t.intents[id].applied && IsRunning(t, id)
      ensures id in n.jobs && n.jobs[id].status == t.intents[id].status && id in n.intents && n.intents[id].applied
    {
      assert id in m.jobs && !IsRunning(m, id);
    }
    forall id | id in t.jobs && !(id in t.intents && !t.intents[id].applied)
      ensures id in n.jobs
      ensures if IsRunning(t, id) && InScope(t, id, kinds) then n.jobs[id].status == Stale else n.jobs[id] == t.jobs[id]
    {
      assert id in m.jobs && m.jobs[id] == t.jobs[id];
    }
  }

  lemma StaleOrEnded(m: Tables, n: Tables, ids: seq<nat>, kinds: set<string>, now: Time, id: nat)
    requires forall k :: k in ids <==> IsRunning(m, k) && (kinds == {} || m.jobs[k].kind in kinds)
    requires InScope(n, id, kinds) && id in m.jobs
    requires n.jobs[id] == if id in ids then m.jobs[id].(status := Stale, endedAt := Some(now)) else m.jobs[id]
    ensures n.jobs[id].status != Running
  {
  }

  lemma RecoveredJobs(t: Tables, m: Tables)
    requires Recovery(t, m) && (forall k :: k in t.intents ==> k in t.jobs && t.intents[k].status != Running)
    ensures m.jobs.Keys == t.jobs.Keys && m.intents.Keys == t.intents.Keys
    ensures forall id :: id in t.intents && !t.intents[id].applied && IsRunning(t, id) ==>
              id in m.jobs && m.jobs[id].status == t.intents[id].status && id in m.intents && m.intents[id].applied
    ensures forall id :: id in t.jobs && !(id in t.intents && !t.intents[id].applied) ==> id in m.jobs && m.jobs[id] == t.jobs[id]
  {
    var done :| Pending(t, done) && RecoveringTo(t, m, done);
    forall id | id in t.intents && !t.intents[id].applied && IsRunning(t, id)
      ensures id in m.jobs && m.jobs[id].status == t.intents[id].status && id in m.intents && m.intents[id].applied
    {
      assert id in done && Tried(t, m, id);
    }
  }

  lemma StaleIs(t: Tables, ids: seq<nat>, now: Time)
    ensures var t' := Apply(t, MarkStale(ids, now));
            && t'.intents == t.intents && t'.jobs.Keys == t.jobs.Keys
            && forall id :: id in t.jobs ==>
                 t'.jobs[id] == if id in ids then t.jobs[id].(status := Stale, endedAt := Some(now)) else t.jobs[id]
  {
    hide NotedAll, RecordingsOf, PairsAfter;
  }
}
