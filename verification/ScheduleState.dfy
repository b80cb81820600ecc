/**
  The durable schedule state over whole runs of job transactions: per definition
  it names the scheduler attempt and the successful real run with the greatest
  (start time, job id), whatever order jobs finish in; deleting jobs does not
  change it, and replaying the backfill keeps the winners and their status.
*/
module ScheduleState {
  import opened Results
  import opened JobTables

  // ---------- the log of recordings ----------

  /** Every recording the run has made, in order. */
  ghost function Log(ops: seq<Op>): seq<Recording>
    requires After(ops).Some?
  {
    if ops == [] then []
    else
      var before := ops[..|ops| - 1];
      Log(before) + RecordingsOf(After(before).value, ops[|ops| - 1])
  }

  lemma {:induction false} NotedConcat(s: map<string, Schedule>, a: seq<Recording>, b: seq<Recording>)
    ensures NotedAll(s, a + b) == NotedAll(NotedAll(s, a), b)
  {
    hide Noted;
    if b == [] {
      assert a + b == a;
    } else {
      NotedConcat(s, a, b[..|b| - 1]);
      assert (a + b)[..|a + b| - 1] == a + b[..|b| - 1];
    }
  }

  lemma {:induction false} ScheduleIsLog(ops: seq<Op>)
    requires After(ops).Some?
    ensures After(ops).value.schedule == NotedAll(map[], Log(ops))
  {
    if ops != [] {
      hide NotedAll, RecordingsOf, JobsAfter, PairsAfter, IntentsAfter, Allowed;
      var before := ops[..|ops| - 1];
      ScheduleIsLog(before);
      NotedConcat(map[], Log(before), RecordingsOf(After(before).value, ops[|ops| - 1]));
    } else {
      assert NotedAll(map[], []) == map[];
    }
  }

  // ---------- the state is the greatest recording ----------

  predicate Later(a: Recording, b: Recording) {
    a.startedAt > b.startedAt || (a.startedAt == b.startedAt && a.jobId > b.jobId)
  }

  type Counts = Recording -> bool

  function Attempts(definition: string): Counts {
    (r: Recording) => r.definition == definition != "" && !r.dryRun && r.trigger == "scheduler"
  }

  function Successes(definition: string): Counts {
    (r: Recording) => r.definition == definition != "" && !r.dryRun && r.status == Fine
  }

  /** Recording k is the greatest that counts, and the last one of its job. */
  ghost predicate Wins(log: seq<Recording>, counts: Counts, k: int) {
    && 0 <= k < |log| && counts(log[k])
    && (forall j :: 0 <= j < |log| && counts(log[j]) ==> !Later(log[j], log[k]))
    && (forall j :: k < j < |log| && counts(log[j]) ==> Later(log[k], log[j]))
  }

  predicate Any(log: seq<Recording>, counts: Counts) {
    exists j :: 0 <= j < |log| && counts(log[j])
  }

  ghost predicate IsWinner(log: seq<Recording>, counts: Counts, f: Option<Fact>) {
    if f.None? then !Any(log, counts) else exists k :: Wins(log, counts, k) && f.value == FactOf(log[k])
  }

  lemma NewerWins(log: seq<Recording>, counts: Counts, f: Option<Fact>, r: Recording)
    requires IsWinner(log, counts, f)
    ensures IsWinner(log + [r], counts, Newer(f, r, counts(r)))
  {
    var more := log + [r];
    if counts(r) && NotOlder(r.startedAt, r.jobId, f) {
      if f.Some? {
        var k :| Wins(log, counts, k) && f.value == FactOf(log[k]);
        LastWins(log, counts, k, r);
      } else {
        FirstWins(log, counts, r);
      }
      assert more[|log|] == r;
    } else if f.Some? {
      var k :| Wins(log, counts, k) && f.value == FactOf(log[k]);
      OldWins(log, counts, k, r);
      assert more[k] == log[k];
    } else {
      assert !Any(more, counts);
    }
  }

  lemma LastWins(log: seq<Recording>, counts: Counts, k: int, r: Recording)
    requires Wins(log, counts, k) && counts(r) && !Later(log[k], r)
    ensures Wins(log + [r], counts, |log|)
  {
  }

  lemma FirstWins(log: seq<Recording>, counts: Counts, r: Recording)
    requires !Any(log, counts) && counts(r)
    ensures Wins(log + [r], counts, |log|)
  {
  }

  lemma OldWins(log: seq<Recording>, counts: Counts, k: int, r: Recording)
    requires Wins(log, counts, k) && (counts(r) ==> Later(log[k], r))
    ensures Wins(log + [r], counts, k)
  {
  }

  function AttemptOf(s: map<string, Schedule>, d: string): Option<Fact> {
    if d in s then s[d].attempt else None
  }

  function SuccessOf(s: map<string, Schedule>, d: string): Option<Fact> {
    if d in s then s[d].success else None
  }

  lemma NotedFacts(s: map<string, Schedule>, r: Recording, d: string)
    ensures AttemptOf(Noted(s, r), d) == Newer(AttemptOf(s, d), r, Attempts(d)(r))
    ensures SuccessOf(Noted(s, r), d) == Newer(SuccessOf(s, d), r, Successes(d)(r))
  {
  }

  lemma {:induction false} LogWinners(log: seq<Recording>, d: string)
    ensures IsWinner(log, Attempts(d), AttemptOf(NotedAll(map[], log), d))
    ensures IsWinner(log, Successes(d), SuccessOf(NotedAll(map[], log), d))
  {
    if log == [] {
      assert !Any(log, Attempts(d)) && !Any(log, Successes(d));
    } else {
      hide Noted, Newer, IsWinner, AttemptOf, SuccessOf, Attempts, Successes;
      var before, r := log[..|log| - 1], log[|log| - 1];
      LogWinners(before, d);
      var s := NotedAll(map[], before);
      NotedFacts(s, r, d);
      NewerWins(before, Attempts(d), AttemptOf(s, d), r);
      NewerWins(before, Successes(d), SuccessOf(s, d), r);
      assert log == before + [r];
    }
  }

  /** After any run the schedule state names the winners of everything recorded. */
  lemma ScheduleNamesWinners(ops: seq<Op>, d: string)
    requires After(ops).Some?
    ensures IsWinner(Log(ops), Attempts(d), AttemptOf(After(ops).value.schedule, d))
    ensures IsWinner(Log(ops), Successes(d), SuccessOf(After(ops).value.schedule, d))
  {
    hide IsWinner, AttemptOf, SuccessOf, NotedAll, After;
    ScheduleIsLog(ops);
    LogWinners(Log(ops), d);
  }

  /** The winning job does not depend on the order of the recordings, nor on repeating them. */
  lemma OrderDoesNotMatter(a: seq<Recording>, b: seq<Recording>, counts: Counts, f: Option<Fact>, g: Option<Fact>)
    requires IsWinner(a, counts, f) && IsWinner(b, counts, g)
    requires forall r :: r in a <==> r in b
    ensures f.Some? <==> g.Some?
    ensures f.Some? ==> f.value.jobId == g.value.jobId && f.value.startedAt == g.value.startedAt
  {
    SameAny(a, b, counts);
    if f.Some? {
      var k :| Wins(a, counts, k) && f.value == FactOf(a[k]);
      assert a[k] in b && Any(a, counts);
      var i :| 0 <= i < |b| && b[i] == a[k];
      var m :| Wins(b, counts, m) && g.value == FactOf(b[m]);
      assert b[m] in a && !Later(b[i], b[m]);
      var n :| 0 <= n < |a| && a[n] == b[m];
      assert !Later(a[n], a[k]);
    }
  }

  lemma SameAny(a: seq<Recording>, b: seq<Recording>, counts: Counts)
    requires forall r :: r in a <==> r in b
    ensures Any(a, counts) <==> Any(b, counts)
  {
    if Any(a, counts) {
      var j :| 0 <= j < |a| && counts(a[j]);
      assert a[j] in b;
    }
    if Any(b, counts) {
      var j :| 0 <= j < |b| && counts(b[j]);
      assert b[j] in a;
    }
  }

  /** Deleting jobs, which is all pruning does, leaves the schedule state as it is. */
  lemma DeletingKeepsSchedule(t: Tables, removed: set<nat>)
    ensures Apply(t, Delete(removed)).schedule == t.schedule
  {
    assert NotedAll(t.schedule, []) == t.schedule;
  }

  // ---------- replaying the backfill ----------

  /** The recorded fact is that of a later job, or says of this one what its row says, but for the slot. */
  predicate Covers(f: Option<Fact>, r: Recording) {
    f.Some? && NotOlderFact(f.value, r) && ((f.value.startedAt, f.value.jobId) == (r.startedAt, r.jobId) ==> SameButSlot(f.value, FactOf(r)))
  }

  predicate NotOlderFact(f: Fact, r: Recording) {
    f.startedAt > r.startedAt || (f.startedAt == r.startedAt && f.jobId >= r.jobId)
  }

  predicate SameButSlot(f: Fact, g: Fact) {
    f.(slot := None) == g.(slot := None)
  }

  predicate Absorbed(s: map<string, Schedule>, r: Recording) {
    && (CountsAsAttempt(r) || CountsAsSuccess(r) ==> r.definition in s && FactOf(r).at <= s[r.definition].updatedAt)
    && (CountsAsAttempt(r) ==> Covers(AttemptOf(s, r.definition), r))
    && (CountsAsSuccess(r) ==> Covers(SuccessOf(s, r.definition), r))
  }

  lemma NewerCovers(f: Option<Fact>, r: Recording, counts: bool, other: Recording)
    requires Covers(f, other) && other.jobId != r.jobId
    ensures Covers(Newer(f, r, counts), other)
  {
  }

  lemma NewerCoversSelf(f: Option<Fact>, r: Recording)
    ensures Covers(Newer(f, r, true), r)
  {
  }

  /** A new recording of one job leaves the rows of the others absorbed. */
  lemma NotedKeepsOthers(s: map<string, Schedule>, r: Recording, other: Recording)
    requires Absorbed(s, other) && other.jobId != r.jobId
    ensures Absorbed(Noted(s, r), other)
  {
    var d := other.definition;
    NotedFacts(s, r, d);
    hide NotedAll;
    if CountsAsAttempt(other) { NewerCovers(AttemptOf(s, d), r, Attempts(d)(r), other); }
    if CountsAsSuccess(other) { NewerCovers(SuccessOf(s, d), r, Successes(d)(r), other); }
    NotedUpdated(s, r, d);
  }

  lemma NotedUpdated(s: map<string, Schedule>, r: Recording, d: string)
    ensures d in s ==> d in Noted(s, r) && s[d].updatedAt <= Noted(s, r)[d].updatedAt
    ensures (CountsAsAttempt(r) || CountsAsSuccess(r)) ==> r.definition in Noted(s, r) && FactOf(r).at <= Noted(s, r)[r.definition].updatedAt
  {
  }

  lemma NotedAbsorbsSelf(s: map<string, Schedule>, r: Recording, row: Recording)
    requires row == r.(slot := row.slot)
    ensures Absorbed(Noted(s, r), row)
  {
    NotedFacts(s, r, r.definition);
    NotedUpdated(s, r, r.definition);
    hide Noted;
    NewerCoversSelf(AttemptOf(s, r.definition), r);
    NewerCoversSelf(SuccessOf(s, r.definition), r);
  }

  /** Every job's row is absorbed by the schedule state. */
  ghost predicate RowsAbsorbed(s: map<string, Schedule>, jobs: map<nat, Job>) {
    forall id :: id in jobs ==> Absorbed(s, RowRecording(id, jobs[id]))
  }

  lemma RecordingAbsorbs(s: map<string, Schedule>, jobs: map<nat, Job>, id: nat, j: Job, r: Recording)
    requires RowsAbsorbed(s, jobs) && r.jobId == id && RowRecording(id, j) == r.(slot := j.slot)
    ensures RowsAbsorbed(Noted(s, r), jobs[id := j])
  {
    hide Noted, Absorbed;
    NotedAbsorbsSelf(s, r, RowRecording(id, j));
    forall other | other in jobs && other != id ensures Absorbed(Noted(s, r), RowRecording(other, jobs[other])) {
      NotedKeepsOthers(s, r, RowRecording(other, jobs[other]));
    }
  }

  lemma OneNoted(s: map<string, Schedule>, r: Recording)
    ensures NotedAll(s, [r]) == Noted(s, r) && NotedAll(s, []) == s
  {
    var one := [r];
    assert one[..|one| - 1] == [];
    assert NotedAll(s, one) == Noted(NotedAll(s, []), r);
  }

  /** Jobs that are marked stale one after the other. */
  function MarkedStale(jobs: map<nat, Job>, ids: seq<nat>, now: Time): map<nat, Job> {
    map id | id in jobs :: if id in ids then jobs[id].(status := Stale, endedAt := Some(now)) else jobs[id]
  }

  lemma MarkedLast(jobs: map<nat, Job>, ids: seq<nat>, now: Time)
    requires ids != [] && ids[|ids| - 1] in jobs
    ensures var last := ids[|ids| - 1];
            MarkedStale(jobs, ids, now) == MarkedStale(jobs, ids[..|ids| - 1], now)[last := jobs[last].(status := Stale, endedAt := Some(now))]
  {
    assert ids == ids[..|ids| - 1] + [ids[|ids| - 1]];
  }

  lemma {:induction false} StaleAbsorbs(s: map<string, Schedule>, jobs: map<nat, Job>, ids: seq<nat>, now: Time)
    requires RowsAbsorbed(s, jobs) && forall id :: id in ids ==> id in jobs
    ensures RowsAbsorbed(NotedAll(s, StaleRecordings(jobs, ids, now)), MarkedStale(jobs, ids, now))
  {
    hide Noted, Absorbed, RowsAbsorbed;
    if ids == [] {
      assert MarkedStale(jobs, ids, now) == jobs && StaleRecordings(jobs, ids, now) == [];
    } else {
      var before, last := ids[..|ids| - 1], ids[|ids| - 1];
      var all := StaleRecordings(jobs, ids, now);
      assert all[..|all| - 1] == StaleRecordings(jobs, before, now);
      StaleAbsorbs(s, jobs, before, now);
      MarkedLast(jobs, ids, now);
      RecordingAbsorbs(NotedAll(s, StaleRecordings(jobs, before, now)), MarkedStale(jobs, before, now), last,
                       jobs[last].(status := Stale, endedAt := Some(now)), all[|all| - 1]);
    }
  }

  lemma QuietStart(s: map<string, Schedule>, jobs: map<nat, Job>, id: nat, op: Op)
    requires RowsAbsorbed(s, jobs) && op.Start? && InferredTrigger(op) != "scheduler"
    ensures RowsAbsorbed(s, jobs[id := NewJob(op)])
  {
    hide InferredTrigger, InferredDryRun;
    assert !CountsAsAttempt(RowRecording(id, NewJob(op))) && !CountsAsSuccess(RowRecording(id, NewJob(op)));
  }

  lemma StepAbsorbs(t: Tables, op: Op)
    requires Allowed(t, op) && RowsAbsorbed(t.schedule, t.jobs)
    ensures RowsAbsorbed(NotedAll(t.schedule, RecordingsOf(t, op)), JobsAfter(t, op))
  {
    hide Noted, Absorbed, NotedAll, NewJob, FinishedJob, EffectiveSlot;
    var s := t.schedule;
    match op
    case Start(_, _, _, _, _, _, _, _, _) =>
      if InferredTrigger(op) == "scheduler" {
        OneNoted(s, RowRecording(t.nextId, NewJob(op)));
        RecordingAbsorbs(s, t.jobs, t.nextId, NewJob(op), RowRecording(t.nextId, NewJob(op)));
      } else {
        OneNoted(s, RowRecording(t.nextId, NewJob(op)));
        QuietStart(s, t.jobs, t.nextId, op);
      }
    case Finish(id, status, summary, now) =>
      if IsRunning(t, id) {
        var r := FinishRecording(id, t.jobs[id], status, summary, now);
        OneNoted(s, r);
        RecordingAbsorbs(s, t.jobs, id, FinishedJob(t.jobs[id], status, summary, now), r);
      } else {
        assert RecordingsOf(t, op) == [];
        NothingNoted(s);
      }
    case MarkStale(ids, now) =>
      assert forall id :: id in ids ==> id in t.jobs;
      StaleAbsorbs(s, t.jobs, ids, now);
      assert JobsAfter(t, op) == MarkedStale(t.jobs, ids, now);
    case _ => NothingNoted(s);
  }

  lemma NothingNoted(s: map<string, Schedule>)
    ensures NotedAll(s, []) == s
  {
  }

  lemma {:induction false} RunAbsorbs(ops: seq<Op>)
    requires After(ops).Some?
    ensures RowsAbsorbed(After(ops).value.schedule, After(ops).value.jobs)
  {
    if ops != [] {
      hide RowsAbsorbed, NotedAll, RecordingsOf, JobsAfter, PairsAfter, IntentsAfter, Allowed;
      RunAbsorbs(ops[..|ops| - 1]);
      StepAbsorbs(After(ops[..|ops| - 1]).value, ops[|ops| - 1]);
    }
  }

  predicate SameFact(f: Option<Fact>, g: Option<Fact>) {
    (f.None? && g.None?) || (f.Some? && g.Some? && SameButSlot(f.value, g.value))
  }

  /** The same definitions with the same winners: only names and slots may differ. */
  ghost predicate SameWinners(s: map<string, Schedule>, u: map<string, Schedule>) {
    && s.Keys == u.Keys
    && forall d :: d in s ==>
         SameFact(s[d].attempt, u[d].attempt) && SameFact(s[d].success, u[d].success) && s[d].updatedAt == u[d].updatedAt
  }

  lemma ReplayOne(s: map<string, Schedule>, r: Recording)
    requires Absorbed(s, r)
    ensures SameWinners(s, Noted(s, r))
  {
  }

  lemma AbsorbedAgain(s: map<string, Schedule>, u: map<string, Schedule>, r: Recording)
    requires Absorbed(s, r) && SameWinners(s, u)
    ensures Absorbed(u, r)
  {
    var d := r.definition;
    if d in s { assert SameFact(s[d].attempt, u[d].attempt) && SameFact(s[d].success, u[d].success); }
  }

  lemma WinnersTwice(s: map<string, Schedule>, u: map<string, Schedule>, v: map<string, Schedule>)
    requires SameWinners(s, u) && SameWinners(u, v)
    ensures SameWinners(s, v)
  {
    forall d | d in s
      ensures SameFact(s[d].attempt, v[d].attempt) && SameFact(s[d].success, v[d].success) && s[d].updatedAt == v[d].updatedAt
    {
      assert d in u;
    }
  }

  /** The rows the backfill reads, in the order it reads them. */
  function Rows(jobs: map<nat, Job>, ids: seq<nat>): seq<Recording>
    requires forall id :: id in ids ==> id in jobs
  {
    seq(|ids|, i requires 0 <= i < |ids| => RowRecording(ids[i], jobs[ids[i]]))
  }

  lemma {:induction false} ReplayAll(s: map<string, Schedule>, jobs: map<nat, Job>, ids: seq<nat>)
    requires RowsAbsorbed(s, jobs) && forall id :: id in ids ==> id in jobs
    ensures SameWinners(s, NotedAll(s, Rows(jobs, ids)))
  {
    hide Noted, Absorbed, SameWinners;
    if ids == [] {
      assert Rows(jobs, ids) == [];
      assert SameWinners(s, s) by { WinnersStay(s); }
    } else {
      var before, last := ids[..|ids| - 1], ids[|ids| - 1];
      var all := Rows(jobs, ids);
      assert all[..|all| - 1] == Rows(jobs, before);
      ReplayAll(s, jobs, before);
      var u := NotedAll(s, Rows(jobs, before));
      AbsorbedAgain(s, u, RowRecording(last, jobs[last]));
      ReplayOne(u, RowRecording(last, jobs[last]));
      WinnersTwice(s, u, NotedAll(s, all));
    }
  }

  lemma WinnersStay(s: map<string, Schedule>)
    ensures SameWinners(s, s)
  {
  }

  /** The backfill after any run, over the rows that are left and in any order,
      keeps every winner with its status, trigger and times. */
  lemma BackfillKeepsWinners(ops: seq<Op>, ids: seq<nat>)
    requires After(ops).Some? && forall id :: id in ids ==> id in After(ops).value.jobs
    ensures var t := After(ops).value; SameWinners(t.schedule, NotedAll(t.schedule, Rows(t.jobs, ids)))
  {
    hide RowsAbsorbed, SameWinners, NotedAll, After;
    RunAbsorbs(ops);
    ReplayAll(After(ops).value.schedule, After(ops).value.jobs, ids);
  }

  predicate Counted(r: Recording) {
    CountsAsAttempt(r) || CountsAsSuccess(r)
  }

  /** The last name the rows give the definition, "" if none does. */
  function LastName(rows: seq<Recording>, d: string): string {
    if rows == [] then ""
    else
      var r := rows[|rows| - 1];
      if r.definition == d && Counted(r) && r.name != "" then r.name else LastName(rows[..|rows| - 1], d)
  }

  /** The row of the job that the fact is about is among those replayed. */
  predicate RowOfFact(f: Fact, counts: Counts, jobs: map<nat, Job>, ids: seq<nat>) {
    && f.jobId in ids && f.jobId in jobs && jobs[f.jobId].startedAt == f.startedAt
    && counts(RowRecording(f.jobId, jobs[f.jobId]))
  }

  function RowsSlot(f: Option<Fact>, counts: Counts, jobs: map<nat, Job>, ids: seq<nat>): Option<Fact> {
    if f.Some? && RowOfFact(f.value, counts, jobs, ids) then Some(f.value.(slot := jobs[f.value.jobId].slot)) else f
  }

  /** What a replay makes of one definition: the last name the rows give it, and for
      its winners the slots of their rows. */
  function Replayed(k: Schedule, d: string, jobs: map<nat, Job>, ids: seq<nat>): Schedule
    requires forall id :: id in ids ==> id in jobs
  {
    var name := LastName(Rows(jobs, ids), d);
    Schedule(if name == "" then k.name else name,
             RowsSlot(k.attempt, Attempts(d), jobs, ids), RowsSlot(k.success, Successes(d), jobs, ids), k.updatedAt)
  }

  /** One row's effect on a fact that covers it: at most the slot. */
  lemma NewerIsSlot(f: Option<Fact>, g: Option<Fact>, counts: Counts, jobs: map<nat, Job>, ids: seq<nat>)
    requires ids != [] && ids[|ids| - 1] in jobs && g == RowsSlot(f, counts, jobs, ids[..|ids| - 1])
    requires var r := RowRecording(ids[|ids| - 1], jobs[ids[|ids| - 1]]); counts(r) ==> Covers(g, r)
    ensures var r := RowRecording(ids[|ids| - 1], jobs[ids[|ids| - 1]]);
            Newer(g, r, counts(r)) == RowsSlot(f, counts, jobs, ids)
  {
    var last := ids[|ids| - 1];
    assert ids == ids[..|ids| - 1] + [last];
  }

  lemma {:induction false} ReplayIs(s: map<string, Schedule>, jobs: map<nat, Job>, ids: seq<nat>, d: string)
    requires RowsAbsorbed(s, jobs) && forall id :: id in ids ==> id in jobs
    ensures d in NotedAll(s, Rows(jobs, ids)) <==> d in s
    ensures d in s ==> NotedAll(s, Rows(jobs, ids))[d] == Replayed(s[d], d, jobs, ids)
  {
    if ids == [] {
      assert Rows(jobs, ids) == [];
    } else {
      hide Noted, RowsSlot, RowsAbsorbed, Absorbed, SameWinners, LastName, Attempts, Successes;
      var before, last := ids[..|ids| - 1], ids[|ids| - 1];
      var all, r := Rows(jobs, ids), RowRecording(last, jobs[last]);
      assert all[..|all| - 1] == Rows(jobs, before);
      ReplayIs(s, jobs, before, d);
      ReplayAll(s, jobs, before);
      var u := NotedAll(s, Rows(jobs, before));
      assert Absorbed(s, r) by { RowAbsorbed(s, jobs, last); }
      AbsorbedAgain(s, u, r);
      ReplayAgain(u, r, d);
      LastNameLast(all, d);
      if d in s {
        AbsorbedCovers(u, r, d);
        NewerIsSlot(s[d].attempt, u[d].attempt, Attempts(d), jobs, ids);
        NewerIsSlot(s[d].success, u[d].success, Successes(d), jobs, ids);
      }
    }
  }

  lemma RowAbsorbed(s: map<string, Schedule>, jobs: map<nat, Job>, id: nat)
    requires RowsAbsorbed(s, jobs) && id in jobs
    ensures Absorbed(s, RowRecording(id, jobs[id]))
  {
  }

  lemma AbsorbedCovers(s: map<string, Schedule>, r: Recording, d: string)
    requires Absorbed(s, r) && d in s
    ensures Attempts(d)(r) ==> Covers(s[d].attempt, r)
    ensures Successes(d)(r) ==> Covers(s[d].success, r)
  {
  }

  lemma LastNameLast(rows: seq<Recording>, d: string)
    requires rows != []
    ensures var r := rows[|rows| - 1];
            LastName(rows, d) == if r.definition == d && Counted(r) && r.name != "" then r.name else LastName(rows[..|rows| - 1], d)
  {
  }

  lemma ReplayAgain(u: map<string, Schedule>, r: Recording, d: string)
    requires Absorbed(u, r)
    ensures d in Noted(u, r) <==> d in u
    ensures d in u ==>
              Noted(u, r)[d] == Schedule(if r.definition == d && Counted(r) && r.name != "" then r.name else u[d].name,
                                         Newer(u[d].attempt, r, Attempts(d)(r)), Newer(u[d].success, r, Successes(d)(r)), u[d].updatedAt)
  {
    hide NotOlder;
  }

  predicate SlotIsRow(f: Option<Fact>, counts: Counts, jobs: map<nat, Job>, ids: seq<nat>) {
    f.Some? && RowOfFact(f.value, counts, jobs, ids) ==> f.value.slot == jobs[f.value.jobId].slot
  }

  /** The names and slots the replay would write are there already. */
  ghost predicate SaysWhatRowsSay(s: map<string, Schedule>, jobs: map<nat, Job>, ids: seq<nat>)
    requires forall id :: id in ids ==> id in jobs
  {
    forall d :: d in s ==>
      && (LastName(Rows(jobs, ids), d) == "" || LastName(Rows(jobs, ids), d) == s[d].name)
      && SlotIsRow(s[d].attempt, Attempts(d), jobs, ids)
      && SlotIsRow(s[d].success, Successes(d), jobs, ids)
  }

  /** After any run, replaying rows changes nothing exactly when for every definition
      the last name among its counting rows is the recorded one, and the slots of the
      winners whose rows are replayed are those of the rows. */
  lemma ReplayChangesNothingExactly(ops: seq<Op>, ids: seq<nat>)
    requires After(ops).Some? && forall id :: id in ids ==> id in After(ops).value.jobs
    ensures var t := After(ops).value;
            NotedAll(t.schedule, Rows(t.jobs, ids)) == t.schedule <==> SaysWhatRowsSay(t.schedule, t.jobs, ids)
  {
    RunAbsorbs(ops);
    ReplayFixedExactly(After(ops).value.schedule, After(ops).value.jobs, ids);
    hide After;
  }

  lemma ReplayFixedExactly(s: map<string, Schedule>, jobs: map<nat, Job>, ids: seq<nat>)
    requires RowsAbsorbed(s, jobs) && forall id :: id in ids ==> id in jobs
    ensures NotedAll(s, Rows(jobs, ids)) == s <==> SaysWhatRowsSay(s, jobs, ids)
  {
    hide NotedAll, RowsAbsorbed, RowOfFact, LastName, Attempts, Successes;
    var u := NotedAll(s, Rows(jobs, ids));
    forall d: string ensures (d in u <==> d in s) && (d in s ==> u[d] == Replayed(s[d], d, jobs, ids)) {
      ReplayIs(s, jobs, ids, d);
    }
    if SaysWhatRowsSay(s, jobs, ids) { assert u == s; }
  }

  /** A second replay of the same rows changes nothing. */
  lemma SecondReplayChangesNothing(ops: seq<Op>, ids: seq<nat>)
    requires After(ops).Some? && forall id :: id in ids ==> id in After(ops).value.jobs
    ensures var t := After(ops).value; var once := NotedAll(t.schedule, Rows(t.jobs, ids));
            NotedAll(once, Rows(t.jobs, ids)) == once
  {
    RunAbsorbs(ops);
    ReplayTwice(After(ops).value.schedule, After(ops).value.jobs, ids);
    hide After;
  }

  lemma ReplayTwice(s: map<string, Schedule>, jobs: map<nat, Job>, ids: seq<nat>)
    requires RowsAbsorbed(s, jobs) && forall id :: id in ids ==> id in jobs
    ensures NotedAll(NotedAll(s, Rows(jobs, ids)), Rows(jobs, ids)) == NotedAll(s, Rows(jobs, ids))
  {
    hide NotedAll, Absorbed, SameWinners, RowOfFact, LastName, Attempts, Successes;
    var u := NotedAll(s, Rows(jobs, ids));
    ReplayAll(s, jobs, ids);
    forall id | id in jobs ensures Absorbed(u, RowRecording(id, jobs[id])) {
      AbsorbedAgain(s, u, RowRecording(id, jobs[id]));
    }
    forall d: string ensures (d in u <==> d in s) && (d in s ==> u[d] == Replayed(s[d], d, jobs, ids)) {
      ReplayIs(s, jobs, ids, d);
    }
    assert SaysWhatRowsSay(u, jobs, ids);
    ReplayFixedExactly(u, jobs, ids);
  }

  // ---------- a run that a replay does not leave alone ----------

  const NO_PAIRS := Summary([], [], false, "", None, false)

  const RENAMED: seq<Op> := [
    Start("backup", false, [], "d", "before", Some("mon"), Some(false), "scheduler", 1.0),
    Finish(1, Fine, NO_PAIRS.(slot := Some("tue")), 2.0),
    Start("backup", false, [], "d", "after", None, Some(false), "scheduler", 3.0),
    Finish(2, Failed, NO_PAIRS, 4.0),
    Delete({2})]

  const FIRST_JOB := Job("backup", Fine, 1.0, Some(2.0), "d", "before", Some("mon"), false, "scheduler", false)

  const SECOND_JOB := Job("backup", Running, 3.0, None, "d", "after", None, false, "scheduler", false)

  const FIRST_FACT := Fact(1, 1.0, 2.0, Fine, "scheduler", Some("tue"))

  const SECOND_FACT := Fact(2, 3.0, 4.0, Failed, "scheduler", None)

  /** The tables after each of its transactions. */
  function Renamed(k: nat): Tables
    requires k <= 5
  {
    if k == 0 then EMPTY
    else if k == 1 then
      Tables(map[1 := FIRST_JOB.(status := Running, endedAt := None)], EMPTY.pairs,
             map["d" := Schedule("before", Some(FIRST_FACT.(at := 1.0, status := Running, slot := Some("mon"))), None, 1.0)], map[], 2)
    else if k == 2 then
      Tables(map[1 := FIRST_JOB], EMPTY.pairs, map["d" := Schedule("before", Some(FIRST_FACT), Some(FIRST_FACT), 2.0)], map[], 2)
    else if k == 3 then
      Tables(map[1 := FIRST_JOB, 2 := SECOND_JOB], EMPTY.pairs,
             map["d" := Schedule("after", Some(SECOND_FACT.(at := 3.0, status := Running)), Some(FIRST_FACT), 3.0)], map[], 3)
    else
      Tables(if k == 4 then map[1 := FIRST_JOB, 2 := SECOND_JOB.(status := Failed, endedAt := Some(4.0))] else map[1 := FIRST_JOB],
             EMPTY.pairs, map["d" := Schedule("after", Some(SECOND_FACT), Some(FIRST_FACT), 4.0)], map[], 3)
  }

  lemma NoPairs(job: nat, j: Job, status: Status, s: Summary, now: Time)
    requires s.pairs == [] && s.due == []
    ensures FinishedPairs(EMPTY.pairs, job, j, status, s, now) == EMPTY.pairs
    ensures ReservedAll(EMPTY.pairs, job, [], now) == EMPTY.pairs
  {
    assert EndedRuns([], job, UnfinishedStatus(status), now) == [];
  }

  lemma RenamedStarts(first: bool)
    ensures var k := if first then 0 else 2;
            Allowed(Renamed(k), RENAMED[k]) && Apply(Renamed(k), RENAMED[k]) == Renamed(k + 1)
  {
    var k := if first then 0 else 2;
    var t, op := Renamed(k), RENAMED[k];
    NoPairs(t.nextId, FIRST_JOB, Fine, NO_PAIRS, op.now);
    OneNoted(t.schedule, RowRecording(t.nextId, NewJob(op)));
    hide NotedAll, FinishedPairs, ReservedAll;
    assert op.trigger == "scheduler";
  }

  lemma RenamedFinishes(first: bool)
    ensures var k := if first then 1 else 3;
            Allowed(Renamed(k), RENAMED[k]) && Apply(Renamed(k), RENAMED[k]) == Renamed(k + 1)
  {
    var k := if first then 1 else 3;
    var t, op := Renamed(k), RENAMED[k];
    NoPairs(op.job, t.jobs[op.job], op.status, op.summary, op.now);
    OneNoted(t.schedule, FinishRecording(op.job, t.jobs[op.job], op.status, op.summary, op.now));
    hide NotedAll, FinishedPairs, ReservedAll;
  }

  lemma RenamedDeletes()
    ensures Allowed(Renamed(4), RENAMED[4]) && Apply(Renamed(4), RENAMED[4]) == Renamed(5)
  {
    NothingNoted(Renamed(4).schedule);
    hide NotedAll;
  }

  lemma RenamedStep(k: nat)
    requires k < 5
    ensures Allowed(Renamed(k), RENAMED[k]) && Apply(Renamed(k), RENAMED[k]) == Renamed(k + 1)
  {
    hide Renamed, Allowed, Apply;
    if k == 0 || k == 2 { RenamedStarts(k == 0); }
    else if k == 1 || k == 3 { RenamedFinishes(k == 1); }
    else { RenamedDeletes(); }
  }

  lemma AfterOne(ops: seq<Op>, t: Tables, op: Op)
    requires After(ops) == Some(t) && Allowed(t, op)
    ensures After(ops + [op]) == Some(Apply(t, op))
  {
    hide Allowed, Apply;
    assert (ops + [op])[..|ops + [op]| - 1] == ops;
  }

  lemma TakeOneMore(ops: seq<Op>, k: nat)
    requires k < |ops|
    ensures ops[..k] + [ops[k]] == ops[..k + 1]
  {
  }

  lemma NothingRan()
    ensures After([]) == Some(Renamed(0))
  {
  }

  lemma {:induction false} RenamedRuns(k: nat)
    requires k <= 5 == |RENAMED|
    ensures After(RENAMED[..k]) == Some(Renamed(k))
  {
    hide Renamed, Allowed, Apply, After, RENAMED;
    if k == 0 {
      NothingRan();
    } else {
      RenamedRuns(k - 1);
      RenamedStep(k - 1);
      AfterOne(RENAMED[..k - 1], Renamed(k - 1), RENAMED[k - 1]);
      TakeOneMore(RENAMED, k - 1);
    }
  }

  /** Replaying the one row that is left overwrites the newer name and the slot of the success. */
  lemma ReplayOverwrites()
    ensures After(RENAMED) == Some(Renamed(5))
    ensures var t := Renamed(5);
            var once := NotedAll(t.schedule, Rows(t.jobs, [1]));
            && t.schedule["d"].name == "after" && once["d"].name == "before"
            && t.schedule["d"].success.value.slot == Some("tue") && once["d"].success.value.slot == Some("mon")
  {
    RenamedRuns(5);
    assert RENAMED[..5] == RENAMED;
    var t := Renamed(5);
    assert Rows(t.jobs, [1]) == [RowRecording(1, FIRST_JOB)];
    OneNoted(t.schedule, RowRecording(1, FIRST_JOB));
    hide NotedAll, After;
  }

  /** While the winning attempt's job still has a scheduler row, its status is that row's. */
  lemma AttemptStatusIsRow(ops: seq<Op>, d: string)
    requires After(ops).Some? && AttemptOf(After(ops).value.schedule, d).Some?
    ensures var t := After(ops).value;
            var f := AttemptOf(t.schedule, d).value;
            f.jobId in t.jobs && t.jobs[f.jobId].startedAt == f.startedAt && t.jobs[f.jobId].definition == d
              && CountsAsAttempt(RowRecording(f.jobId, t.jobs[f.jobId]))
            ==> f.status == t.jobs[f.jobId].status
  {
    RunAbsorbs(ops);
    hide After;
  }
}
