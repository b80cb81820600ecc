/**
  What holds over every run of job transactions: a job leaves running once, a
  staged result stays and is what an applied job ended with, and no attempt runs
  under a job that does not.
*/
module JobLifecycle {
  import opened Results
  import opened JobTables

  // ---------- jobs ----------

  /** One step seen from a job that was there before. */
  lemma StepOnJob(t: Tables, op: Op, id: nat)
    requires Allowed(t, op) && id in t.jobs && id < t.nextId
    ensures id in JobsAfter(t, op) && t.jobs[id].status != Running ==> JobsAfter(t, op)[id] == t.jobs[id]
    ensures id in JobsAfter(t, op) ==> JobsAfter(t, op)[id].kind == t.jobs[id].kind
    ensures t.jobs[id].status == Running ==> id in JobsAfter(t, op)
  {
    match op
    case MarkStale(ids, now) => if id in ids { var i :| 0 <= i < |ids| && ids[i] == id; assert IsRunning(t, ids[i]); }
    case _ =>
  }

  ghost predicate KnownIds(t: Tables) {
    && (forall id :: id in t.jobs ==> id < t.nextId)
    && (forall id :: id in t.intents ==> id in t.jobs)
  }

  lemma StepKnownIds(t: Tables, op: Op)
    requires KnownIds(t) && Allowed(t, op)
    ensures KnownIds(Apply(t, op))
  {
    hide PairsAfter, NotedAll, RecordingsOf, NewJob, FinishedJob;
  }

  lemma {:induction false} RunKnownIds(ops: seq<Op>)
    requires After(ops).Some?
    ensures KnownIds(After(ops).value)
  {
    if ops != [] {
      hide Apply, Allowed, KnownIds;
      RunKnownIds(ops[..|ops| - 1]);
      StepKnownIds(After(ops[..|ops| - 1]).value, ops[|ops| - 1]);
    } else {
      assert KnownIds(EMPTY);
    }
  }

  /** An id below the next one is never given to another job. */
  lemma StepUsedId(t: Tables, op: Op, id: nat)
    requires id < t.nextId
    ensures id < Apply(t, op).nextId
    ensures id !in t.jobs ==> id !in JobsAfter(t, op)
  {
    hide PairsAfter, NotedAll, RecordingsOf, NewJob, FinishedJob;
  }

  /** A job leaves running at most once: what it ended with never changes, and a
      deleted job does not come back. */
  lemma {:induction false} LeavesRunningOnce(ops: seq<Op>, i: nat, id: nat)
    requires i <= |ops| && After(ops).Some? && After(ops[..i]).Some?
    requires var t := After(ops[..i]).value; id < t.nextId && !IsRunning(t, id)
    ensures var t, now := After(ops[..i]).value, After(ops).value;
            && !IsRunning(now, id) && id < now.nextId
            && (id in now.jobs ==> id in t.jobs && now.jobs[id] == t.jobs[id])
  {
    if i == |ops| {
      assert ops[..i] == ops;
    } else {
      var before, op := ops[..|ops| - 1], ops[|ops| - 1];
      assert before[..i] == ops[..i];
      LeavesRunningOnce(before, i, id);
      var t := After(before).value;
      hide JobsAfter, PairsAfter, NotedAll, RecordingsOf, IntentsAfter, Allowed;
      StepUsedId(t, op, id);
      if id in t.jobs { StepOnJob(t, op, id); }
    }
  }

  // ---------- staged intents ----------

  lemma StepOnIntent(t: Tables, op: Op, id: nat)
    requires Allowed(t, op) && id in t.intents
    ensures id in IntentsAfter(t, op) ==>
              && IntentsAfter(t, op)[id].status == t.intents[id].status
              && IntentsAfter(t, op)[id].summary == t.intents[id].summary
              && (t.intents[id].applied ==> IntentsAfter(t, op)[id].applied)
    ensures id !in IntentsAfter(t, op) ==> id !in JobsAfter(t, op)
  {
  }

  lemma StepNewIntent(t: Tables, op: Op, id: nat)
    requires Allowed(t, op) && id !in t.intents && id in IntentsAfter(t, op)
    ensures op.Stage? && op.job == id && id in t.jobs && !IntentsAfter(t, op)[id].applied
    ensures IntentsAfter(t, op)[id].status == op.status != Running
  {
  }

  /** A staged intent never changes its status or summary. */
  lemma {:induction false} StagedStays(ops: seq<Op>, i: nat, id: nat)
    requires i <= |ops| && After(ops).Some? && After(ops[..i]).Some?
    requires id in After(ops[..i]).value.intents
    ensures var intent, now := After(ops[..i]).value.intents[id], After(ops).value;
            if id in now.jobs
            then id in now.intents && now.intents[id].status == intent.status && now.intents[id].summary == intent.summary
                 && (intent.applied ==> now.intents[id].applied)
            else id !in now.intents
  {
    RunKnownIds(ops[..i]);
    if i == |ops| {
      assert ops[..i] == ops;
    } else {
      var before, op := ops[..|ops| - 1], ops[|ops| - 1];
      assert before[..i] == ops[..i];
      StagedStays(before, i, id);
      var t := After(before).value;
      UsedIdStays(before, i, id);
      hide JobsAfter, PairsAfter, NotedAll, RecordingsOf, IntentsAfter;
      StepUsedId(t, op, id);
      RunKnownIds(ops);
      if id in t.intents { StepOnIntent(t, op, id); }
    }
  }

  lemma {:induction false} UsedIdStays(ops: seq<Op>, i: nat, id: nat)
    requires i <= |ops| && After(ops).Some? && After(ops[..i]).Some? && id < After(ops[..i]).value.nextId
    ensures id < After(ops).value.nextId
  {
    if i == |ops| {
      assert ops[..i] == ops;
    } else {
      assert ops[..|ops| - 1][..i] == ops[..i];
      UsedIdStays(ops[..|ops| - 1], i, id);
      StepUsedId(After(ops[..|ops| - 1]).value, ops[|ops| - 1], id);
    }
  }

  ghost predicate IntentAgrees(t: Tables, id: nat) {
    id in t.intents ==>
      && id in t.jobs && t.intents[id].status != Running
      && (t.intents[id].applied ==> t.jobs[id].status == t.intents[id].status)
  }

  lemma StepIntentAgrees(t: Tables, op: Op, id: nat)
    requires KnownIds(t) && Allowed(t, op) && IntentAgrees(t, id)
    ensures IntentAgrees(Apply(t, op), id)
  {
    StepKnownIds(t, op);
    hide JobsAfter, PairsAfter, NotedAll, RecordingsOf;
    if id in t.intents {
      StepOnIntent(t, op, id);
      StepOnJob(t, op, id);
      if op.MarkApplied? { SameJobs(t, op); }
    } else if id in Apply(t, op).intents {
      StepNewIntent(t, op, id);
      SameJobs(t, op);
    }
  }

  lemma SameJobs(t: Tables, op: Op)
    requires op.Stage? || op.MarkApplied?
    ensures JobsAfter(t, op) == t.jobs
  {
  }

  /** An applied intent is what its job ended with, in every reachable state. */
  lemma {:induction false} AppliedAgrees(ops: seq<Op>, id: nat)
    requires After(ops).Some?
    ensures IntentAgrees(After(ops).value, id)
  {
    if ops != [] {
      hide Apply, Allowed;
      AppliedAgrees(ops[..|ops| - 1], id);
      RunKnownIds(ops[..|ops| - 1]);
      StepIntentAgrees(After(ops[..|ops| - 1]).value, ops[|ops| - 1], id);
    }
  }

  /** Once a job has ended as its intent says, marking the intent applied is
      never refused, whatever other transactions come in between. */
  lemma MarkingStaysAllowed(ops: seq<Op>, i: nat, id: nat)
    requires i <= |ops| && After(ops).Some? && After(ops[..i]).Some?
    requires var t := After(ops[..i]).value; id in t.intents && id in t.jobs && t.jobs[id].status == t.intents[id].status != Running
    ensures Allowed(After(ops).value, MarkApplied(id))
  {
    RunKnownIds(ops[..i]);
    RunKnownIds(ops);
    StagedStays(ops, i, id);
    LeavesRunningOnce(ops, i, id);
  }

  // ---------- attempts ----------

  /** Every attempt belongs to a job, and a running attempt to a running job. */
  ghost predicate AttemptsCovered(runs: seq<Run>, jobs: map<nat, Job>) {
    forall i :: 0 <= i < |runs| ==> Covered(runs[i], jobs)
  }

  predicate Covered(r: Run, jobs: map<nat, Job>) {
    r.job in jobs && (r.status == Running ==> jobs[r.job].status == Running)
  }

  lemma {:induction false} UpsertedCovered(runs: seq<Run>, r: Run, jobs: map<nat, Job>)
    requires AttemptsCovered(runs, jobs) && r.job in jobs && r.status != Running
    ensures AttemptsCovered(Upserted(runs, r), jobs)
  {
    if runs != [] && !Holds(runs[0], r.job, r.name) {
      UpsertedCovered(runs[1..], r, jobs);
    }
  }

  lemma {:induction false} StoredCovered(p: Pairs, job: nat, started: Time, now: Time, terminal: bool, ws: seq<Write>, jobs: map<nat, Job>)
    requires AttemptsCovered(p.runs, jobs) && job in jobs
    requires forall i :: 0 <= i < |ws| ==> ws[i].status != Running
    ensures AttemptsCovered(StoredAll(p, job, started, now, terminal, ws).runs, jobs)
  {
    if ws != [] {
      hide AttemptsCovered, Recorded;
      var before, w := ws[..|ws| - 1], ws[|ws| - 1];
      StoredCovered(p, job, started, now, terminal, before, jobs);
      UpsertedCovered(StoredAll(p, job, started, now, terminal, before).runs,
                      Run(job, w.name, w.key, w.ok, w.dryRun, w.status, started, Some(now)), jobs);
    }
  }

  lemma {:induction false} ResultsNotRunning(kind: string, status: Status, s: Summary, pairs: seq<PairResult>)
    ensures forall i :: 0 <= i < |ResultWrites(kind, status, s, pairs)| ==> ResultWrites(kind, status, s, pairs)[i].status != Running
  {
    if pairs != [] { ResultsNotRunning(kind, status, s, pairs[..|pairs| - 1]); }
  }

  lemma {:induction false} DuesNotRunning(status: Status, s: Summary, due: seq<Due>)
    requires status != Running
    ensures forall i :: 0 <= i < |DueWrites(status, s, due)| ==> DueWrites(status, s, due)[i].status != Running
  {
    if due != [] { DuesNotRunning(status, s, due[..|due| - 1]); }
  }

  lemma WritesNotRunning(kind: string, status: Status, s: Summary)
    ensures forall i :: 0 <= i < |WritesOf(kind, status, s)| ==> WritesOf(kind, status, s)[i].status != Running
  {
    ResultsNotRunning(kind, status, s, s.pairs);
    if status != Running { DuesNotRunning(status, s, s.due); }
  }

  lemma FinishCovered(t: Tables, op: Op)
    requires AttemptsCovered(t.pairs.runs, t.jobs) && op.Finish? && IsRunning(t, op.job)
    ensures AttemptsCovered(PairsAfter(t, op).runs, JobsAfter(t, op))
  {
    var j := t.jobs[op.job];
    var ws := WritesOf(j.kind, op.status, op.summary);
    WritesNotRunning(j.kind, op.status, op.summary);
    StoredCovered(t.pairs, op.job, j.startedAt, op.now, op.status != Running, ws, t.jobs);
    hide StoredAll, WritesOf, EndedHistory, FinishedJob;
    var q := StoredAll(t.pairs, op.job, j.startedAt, op.now, op.status != Running, ws);
    assert FinishedJob(j, op.status, op.summary, op.now).status == op.status by { FinishedStatus(j, op); }
    forall i | 0 <= i < |q.runs| ensures Covered(PairsAfter(t, op).runs[i], JobsAfter(t, op)) {
      assert Covered(q.runs[i], t.jobs);
    }
  }

  lemma FinishedStatus(j: Job, op: Op)
    requires op.Finish?
    ensures FinishedJob(j, op.status, op.summary, op.now).status == op.status
  {
  }

  lemma {:induction false} ReservedCovered(p: Pairs, job: nat, attempts: seq<Attempt>, now: Time, jobs: map<nat, Job>)
    requires AttemptsCovered(p.runs, jobs) && job in jobs && jobs[job].status == Running
    ensures AttemptsCovered(ReservedAll(p, job, attempts, now).runs, jobs)
  {
    if attempts != [] {
      hide Recorded, HasRun;
      ReservedCovered(p, job, attempts[..|attempts| - 1], now, jobs);
    }
  }

  lemma {:induction false} EndedCovered(p: Pairs, ids: seq<nat>, now: Time, jobs: map<nat, Job>)
    requires AttemptsCovered(p.runs, jobs)
    ensures AttemptsCovered(EndedAll(p, ids, now).runs, jobs)
    ensures forall i :: 0 <= i < |EndedAll(p, ids, now).runs| && EndedAll(p, ids, now).runs[i].job in ids ==>
              EndedAll(p, ids, now).runs[i].status != Running
  {
    if ids != [] {
      hide EndedHistory;
      var before := ids[..|ids| - 1];
      EndedCovered(p, before, now, jobs);
      assert ids == before + [ids[|ids| - 1]];
      var q := EndedAll(p, before, now);
      forall i | 0 <= i < |q.runs| ensures Covered(EndedAll(p, ids, now).runs[i], jobs) { assert Covered(q.runs[i], jobs); }
    }
  }

  lemma {:induction false} KeptCovered(runs: seq<Run>, removed: set<nat>, jobs: map<nat, Job>)
    requires AttemptsCovered(runs, jobs)
    ensures AttemptsCovered(KeptRuns(runs, removed), jobs - removed)
  {
    if runs != [] {
      assert Covered(runs[0], jobs);
      KeptCovered(runs[1..], removed, jobs);
    }
  }

  lemma MoreJobsCover(runs: seq<Run>, jobs: map<nat, Job>, more: map<nat, Job>)
    requires AttemptsCovered(runs, jobs)
    requires forall id :: id in jobs ==> id in more && more[id].status == jobs[id].status
    ensures AttemptsCovered(runs, more)
  {
    forall i | 0 <= i < |runs| ensures Covered(runs[i], more) { assert Covered(runs[i], jobs); }
  }

  lemma StaleCovered(t: Tables, op: Op)
    requires AttemptsCovered(t.pairs.runs, t.jobs) && op.MarkStale?
    ensures AttemptsCovered(PairsAfter(t, op).runs, JobsAfter(t, op))
  {
    EndedCovered(t.pairs, op.ids, op.now, t.jobs);
    hide EndedAll;
    var q := EndedAll(t.pairs, op.ids, op.now);
    forall i | 0 <= i < |q.runs| ensures Covered(q.runs[i], JobsAfter(t, op)) { assert Covered(q.runs[i], t.jobs); }
  }

  lemma StepCovered(t: Tables, op: Op)
    requires KnownIds(t) && Allowed(t, op) && AttemptsCovered(t.pairs.runs, t.jobs)
    ensures AttemptsCovered(PairsAfter(t, op).runs, JobsAfter(t, op))
  {
    hide AttemptsCovered, FinishedPairs, ReservedAll, EndedAll, NewJob, FinishedJob;
    match op
    case Start(_, _, attempts, _, _, _, _, _, now) =>
      assert NewJob(op).status == Running by { NewJobRuns(op); }
      MoreJobsCover(t.pairs.runs, t.jobs, JobsAfter(t, op));
      ReservedCovered(t.pairs, t.nextId, attempts, now, JobsAfter(t, op));
    case Finish(id, _, _, _) => if IsRunning(t, id) { FinishCovered(t, op); }
    case MarkStale(_, _) => StaleCovered(t, op);
    case Delete(removed) => KeptCovered(t.pairs.runs, removed, t.jobs);
    case _ =>
  }

  lemma NewJobRuns(op: Op)
    requires op.Start?
    ensures NewJob(op).status == Running && NewJob(op).kind == op.kind
  {
  }

  /** No attempt stays running under a job that has finished. */
  lemma {:induction false} NoRunningOrphans(ops: seq<Op>)
    requires After(ops).Some?
    ensures AttemptsCovered(After(ops).value.pairs.runs, After(ops).value.jobs)
  {
    if ops != [] {
      hide AttemptsCovered, JobsAfter, PairsAfter, NotedAll, RecordingsOf, IntentsAfter, Allowed, KnownIds;
      NoRunningOrphans(ops[..|ops| - 1]);
      RunKnownIds(ops[..|ops| - 1]);
      StepCovered(After(ops[..|ops| - 1]).value, ops[|ops| - 1]);
    }
  }

  // ---------- one running job per scope ----------

  ghost predicate OnePerScope(jobs: map<nat, Job>) {
    forall a, b :: a in jobs && b in jobs && a != b && jobs[a].status == Running && jobs[b].status == Running
      ==> ScopeOf(jobs[a].kind) !! ScopeOf(jobs[b].kind)
  }

  lemma ScopesPartition(a: string, b: string)
    ensures ScopeOf(a) == ScopeOf(b) || ScopeOf(a) !! ScopeOf(b)
    ensures a in ScopeOf(b) <==> ScopeOf(a) == ScopeOf(b)
  {
  }

  lemma StepOnePerScope(t: Tables, op: Op)
    requires KnownIds(t) && OnePerScope(t.jobs) && Allowed(t, op) && (op.Start? ==> op.exclusive)
    ensures OnePerScope(JobsAfter(t, op))
  {
    hide ScopeOf;
    var jobs := JobsAfter(t, op);
    if op.Start? {
      NewJobRuns(op);
      hide NewJob;
      forall id | id in t.jobs && t.jobs[id].status == Running ensures ScopeOf(op.kind) !! ScopeOf(t.jobs[id].kind) {
        ScopesPartition(t.jobs[id].kind, op.kind);
      }
    } else {
      forall id | id in jobs ensures id in t.jobs && jobs[id].kind == t.jobs[id].kind && (jobs[id].status == Running ==> t.jobs[id].status == Running) {
        StepOnJob(t, op, id);
      }
    }
  }

  /** When every reservation is exclusive, no two running jobs share a scope. */
  lemma {:induction false} RunOnePerScope(ops: seq<Op>)
    requires After(ops).Some? && forall i :: 0 <= i < |ops| && ops[i].Start? ==> ops[i].exclusive
    ensures OnePerScope(After(ops).value.jobs)
  {
    if ops != [] {
      hide OnePerScope, JobsAfter, PairsAfter, NotedAll, RecordingsOf, IntentsAfter, Allowed, KnownIds;
      RunOnePerScope(ops[..|ops| - 1]);
      RunKnownIds(ops[..|ops| - 1]);
      StepOnePerScope(After(ops[..|ops| - 1]).value, ops[|ops| - 1]);
    } else {
      assert OnePerScope(EMPTY.jobs);
    }
  }
}
