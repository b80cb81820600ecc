/**
  What becomes of every attempt (a row of pair_runs) when its job starts, is
  finished, goes stale or is deleted: the last thing the summary says about the
  pair decides, and what it does not mention ends with the job.
*/
module JobAttempts {
  import opened Results
  import opened JobTables
  import opened BaselineEvidence

  /** The attempt of the job for the pair. */
  function RunOf(runs: seq<Run>, job: nat, name: string): Option<Run> {
    if runs == [] then None else if Holds(runs[0], job, name) then Some(runs[0]) else RunOf(runs[1..], job, name)
  }

  lemma {:induction false} RunOfIs(runs: seq<Run>, job: nat, name: string)
    ensures RunOf(runs, job, name).Some? <==> HasRun(runs, job, name)
    ensures RunOf(runs, job, name).Some? ==> RunOf(runs, job, name).value in runs && Holds(RunOf(runs, job, name).value, job, name)
  {
    if runs != [] {
      HasHead(runs, job, name);
      RunOfIs(runs[1..], job, name);
    }
  }

  // ---------- storing ----------

  lemma {:induction false} UpsertedRunOf(runs: seq<Run>, r: Run, job: nat, name: string)
    ensures RunOf(Upserted(runs, r), job, name)
         == if !Holds(r, job, name) then RunOf(runs, job, name)
            else Some(r.(startedAt := if RunOf(runs, job, name).Some? then RunOf(runs, job, name).value.startedAt else r.startedAt))
  {
    var up := Upserted(runs, r);
    if runs == [] {
      assert up[1..] == [];
    } else if Holds(runs[0], r.job, r.name) {
      assert up[1..] == runs[1..];
    } else {
      assert up[1..] == Upserted(runs[1..], r);
      UpsertedRunOf(runs[1..], r, job, name);
    }
  }

  /** The last write about the pair. */
  function LastWrite(ws: seq<Write>, name: string): Option<Write> {
    if ws == [] then None else if ws[|ws| - 1].name == name then Some(ws[|ws| - 1]) else LastWrite(ws[..|ws| - 1], name)
  }

  function AsRun(job: nat, w: Write, started: Time, now: Time): Run {
    Run(job, w.name, w.key, w.ok, w.dryRun, w.status, started, Some(now))
  }

  function StartOf(was: Option<Run>, started: Time): Time {
    if was.Some? then was.value.startedAt else started
  }

  lemma {:induction false} StoredRunOf(p: Pairs, job: nat, started: Time, now: Time, terminal: bool, ws: seq<Write>, name: string)
    ensures RunOf(StoredAll(p, job, started, now, terminal, ws).runs, job, name)
         == match LastWrite(ws, name)
            case None => RunOf(p.runs, job, name)
            case Some(w) => Some(AsRun(job, w, StartOf(RunOf(p.runs, job, name), started), now))
  {
    if ws != [] {
      hide RunOf, Upserted, Recorded;
      var before, w := ws[..|ws| - 1], ws[|ws| - 1];
      StoredRunOf(p, job, started, now, terminal, before, name);
      UpsertedRunOf(StoredAll(p, job, started, now, terminal, before).runs, AsRun(job, w, started, now), job, name);
    }
  }

  lemma {:induction false} StoredOthers(p: Pairs, job: nat, started: Time, now: Time, terminal: bool, ws: seq<Write>, other: nat, name: string)
    requires other != job
    ensures RunOf(StoredAll(p, job, started, now, terminal, ws).runs, other, name) == RunOf(p.runs, other, name)
  {
    if ws != [] {
      hide RunOf, Upserted, Recorded;
      var before, w := ws[..|ws| - 1], ws[|ws| - 1];
      StoredOthers(p, job, started, now, terminal, before, other, name);
      UpsertedRunOf(StoredAll(p, job, started, now, terminal, before).runs, AsRun(job, w, started, now), other, name);
    }
  }

  function EndedRun(r: Run, status: Status, now: Time): Run {
    if r.status == Running then r.(status := status, ok := false, endedAt := Some(now)) else r
  }

  lemma {:induction false} EndedRunOf(runs: seq<Run>, ended: nat, status: Status, now: Time, job: nat, name: string)
    ensures RunOf(EndedRuns(runs, ended, status, now), job, name)
         == match RunOf(runs, job, name)
            case None => None
            case Some(r) => Some(if job == ended then EndedRun(r, status, now) else r)
  {
    if runs != [] {
      var up := EndedRuns(runs, ended, status, now);
      assert up[1..] == EndedRuns(runs[1..], ended, status, now);
      EndedRunOf(runs[1..], ended, status, now, job, name);
    }
  }

  // ---------- the last mention ----------

  lemma LastWriteMore(ws: seq<Write>, more: seq<Write>, name: string)
    requires |more| <= 1
    ensures LastWrite(ws + more, name) == if more != [] && more[0].name == name then Some(more[0]) else LastWrite(ws, name)
  {
    if more == [] { assert ws + more == ws; } else { assert (ws + more)[..|ws + more| - 1] == ws; }
  }

  lemma {:induction false} LastWriteConcat(a: seq<Write>, b: seq<Write>, name: string)
    ensures LastWrite(a + b, name) == if LastWrite(b, name).Some? then LastWrite(b, name) else LastWrite(a, name)
  {
    if b == [] {
      assert a + b == a;
    } else {
      assert (a + b)[..|a + b| - 1] == a + b[..|b| - 1];
      LastWriteConcat(a, b[..|b| - 1], name);
    }
  }

  /** Result i is the last one about its pair among the first n. */
  predicate LastResult(s: Summary, n: nat, i: nat, name: string) {
    i < n <= |s.pairs| && s.pairs[i].name == name && forall j :: i < j < n ==> s.pairs[j].name != name
  }

  predicate NoResult(s: Summary, n: nat, name: string) {
    n <= |s.pairs| && forall j :: 0 <= j < n ==> s.pairs[j].name != name
  }

  predicate LastDue(s: Summary, n: nat, i: nat, name: string) {
    i < n <= |s.due| && s.due[i].name == name && forall j :: i < j < n ==> s.due[j].name != name
  }

  predicate NoDue(s: Summary, n: nat, name: string) {
    n <= |s.due| && forall j :: 0 <= j < n ==> s.due[j].name != name
  }

  lemma {:induction false} ResultsLast(kind: string, status: Status, s: Summary, n: nat, i: nat, name: string)
    requires n <= |s.pairs| && name != ""
    ensures LastResult(s, n, i, name) ==> LastWrite(ResultWrites(kind, status, s, s.pairs[..n]), name) == Some(ResultWrite(kind, status, s, s.pairs[i]))
    ensures NoResult(s, n, name) ==> LastWrite(ResultWrites(kind, status, s, s.pairs[..n]), name) == None
  {
    if n > 0 {
      hide LastWrite, PairStatus;
      assert s.pairs[..n][..n - 1] == s.pairs[..n - 1];
      ResultsLast(kind, status, s, n - 1, i, name);
      var r := s.pairs[n - 1];
      LastWriteMore(ResultWrites(kind, status, s, s.pairs[..n - 1]), if r.name == "" then [] else [ResultWrite(kind, status, s, r)], name);
      assert LastResult(s, n, i, name) && i < n - 1 ==> LastResult(s, n - 1, i, name) && r.name != name;
    }
  }

  lemma {:induction false} DueLast(status: Status, s: Summary, n: nat, i: nat, name: string)
    requires n <= |s.due| && name != ""
    ensures LastDue(s, n, i, name) ==> LastWrite(DueWrites(status, s, s.due[..n]), name) == Some(Write(name, s.due[i].key, false, s.dryRun, status))
    ensures NoDue(s, n, name) ==> LastWrite(DueWrites(status, s, s.due[..n]), name) == None
  {
    if n > 0 {
      hide LastWrite;
      assert s.due[..n][..n - 1] == s.due[..n - 1];
      DueLast(status, s, n - 1, i, name);
      var d := s.due[n - 1];
      LastWriteMore(DueWrites(status, s, s.due[..n - 1]), if d.name == "" then [] else [Write(d.name, d.key, false, s.dryRun, status)], name);
      assert LastDue(s, n, i, name) && i < n - 1 ==> LastDue(s, n - 1, i, name) && d.name != name;
    }
  }

  /** In a run that failed, went stale or was cancelled the due pairs have their say after the results. */
  predicate DueCount(status: Status) {
    status in {Failed, Stale, Cancelled}
  }

  lemma WrittenLast(kind: string, status: Status, s: Summary, i: nat, name: string)
    requires name != ""
    ensures DueCount(status) && LastDue(s, |s.due|, i, name) ==>
              LastWrite(WritesOf(kind, status, s), name) == Some(Write(name, s.due[i].key, false, s.dryRun, status))
    ensures (DueCount(status) ==> NoDue(s, |s.due|, name)) && LastResult(s, |s.pairs|, i, name) ==>
              LastWrite(WritesOf(kind, status, s), name) == Some(ResultWrite(kind, status, s, s.pairs[i]))
    ensures (DueCount(status) ==> NoDue(s, |s.due|, name)) && NoResult(s, |s.pairs|, name) ==> LastWrite(WritesOf(kind, status, s), name) == None
  {
    hide ResultWrites, DueWrites, ResultWrite, NoDue, NoResult, LastDue, LastResult;
    assert s.pairs[..|s.pairs|] == s.pairs && s.due[..|s.due|] == s.due;
    ResultsLast(kind, status, s, |s.pairs|, i, name);
    DueLast(status, s, |s.due|, i, name);
    LastWriteConcat(ResultWrites(kind, status, s, s.pairs), if DueCount(status) then DueWrites(status, s, s.due) else [], name);
  }

  // ---------- what a finish makes of an attempt ----------

  lemma FinishedRunOf(t: Tables, op: Op, name: string)
    requires op.Finish? && IsRunning(t, op.job)
    ensures var j := t.jobs[op.job];
            var was, last := RunOf(t.pairs.runs, op.job, name), LastWrite(WritesOf(j.kind, op.status, op.summary), name);
            var stored := if last.None? then was else Some(AsRun(op.job, last.value, StartOf(was, j.startedAt), op.now));
            RunOf(PairsAfter(t, op).runs, op.job, name)
            == if op.status == Running || stored.None? then stored
               else Some(EndedRun(stored.value, UnfinishedStatus(op.status), op.now))
  {
    hide StoredAll, EndedRuns, EndedHistory, RunOf, WritesOf, EndedRun;
    var j := t.jobs[op.job];
    var ws := WritesOf(j.kind, op.status, op.summary);
    StoredRunOf(t.pairs, op.job, j.startedAt, op.now, op.status != Running, ws, name);
    EndedRunOf(StoredAll(t.pairs, op.job, j.startedAt, op.now, op.status != Running, ws).runs, op.job, UnfinishedStatus(op.status), op.now,
               op.job, name);
  }

  /** The last result about a pair decides its attempt, unless a due entry follows: key,
      success and dry run as reported, and the status by what the result says. */
  lemma AttemptOfResult(t: Tables, op: Op, i: nat)
    requires op.Finish? && IsRunning(t, op.job) && i < |op.summary.pairs| && op.summary.pairs[i].name != ""
    requires forall j :: i < j < |op.summary.pairs| ==> op.summary.pairs[j].name != op.summary.pairs[i].name
    requires op.status in {Failed, Stale, Cancelled} ==> forall d :: d in op.summary.due ==> d.name != op.summary.pairs[i].name
    ensures var x, j := op.summary.pairs[i], t.jobs[op.job];
            var was, now := RunOf(t.pairs.runs, op.job, x.name), RunOf(PairsAfter(t, op).runs, op.job, x.name);
            var dry := x.dryRun || op.summary.dryRun;
            && now.Some? && now.value.key == x.key && now.value.ok == x.ok && now.value.dryRun == dry
            && now.value.endedAt == Some(op.now) && now.value.startedAt == (if was.Some? then was.value.startedAt else j.startedAt)
            && (now.value.status == Warned <==> j.kind == "restoretest" && !dry && x.partial)
            && (now.value.status != Warned ==>
                  && (now.value.status == Fine <==> x.ok)
                  && (now.value.status == Cancelled <==> !x.ok && (x.cancelled || op.status == Cancelled))
                  && (now.value.status == Skipped <==> !x.ok && !x.cancelled && op.status != Cancelled && x.skipped)
                  && (now.value.status == Failed <==> !x.ok && !x.cancelled && op.status != Cancelled && !x.skipped))
  {
    hide RunOf, PairsAfter, WritesOf, UnfinishedStatus, LastWrite;
    FinishedRunOf(t, op, op.summary.pairs[i].name);
    WrittenLast(t.jobs[op.job].kind, op.status, op.summary, i, op.summary.pairs[i].name);
  }

  /** A due pair of a run that failed, went stale or was cancelled shares its fate. */
  lemma AttemptOfDue(t: Tables, op: Op, i: nat)
    requires op.Finish? && IsRunning(t, op.job) && op.status in {Failed, Stale, Cancelled}
    requires i < |op.summary.due| && op.summary.due[i].name != ""
    requires forall j :: i < j < |op.summary.due| ==> op.summary.due[j].name != op.summary.due[i].name
    ensures var d, was := op.summary.due[i], RunOf(t.pairs.runs, op.job, op.summary.due[i].name);
            RunOf(PairsAfter(t, op).runs, op.job, d.name)
            == Some(Run(op.job, d.name, d.key, false, op.summary.dryRun, op.status,
                        if was.Some? then was.value.startedAt else t.jobs[op.job].startedAt, Some(op.now)))
  {
    hide RunOf, PairsAfter, WritesOf, UnfinishedStatus, LastWrite;
    FinishedRunOf(t, op, op.summary.due[i].name);
    WrittenLast(t.jobs[op.job].kind, op.status, op.summary, i, op.summary.due[i].name);
  }

  /** An attempt the summary does not mention is left alone, unless it still runs when its
      job ends: then it ends unsuccessfully with it, as an error unless the job was cancelled,
      stale or skipped. */
  lemma AttemptLeft(t: Tables, op: Op, name: string)
    requires op.Finish? && IsRunning(t, op.job) && name != ""
    requires forall r :: r in op.summary.pairs ==> r.name != name
    requires op.status in {Failed, Stale, Cancelled} ==> forall d :: d in op.summary.due ==> d.name != name
    ensures var was, now := RunOf(t.pairs.runs, op.job, name), RunOf(PairsAfter(t, op).runs, op.job, name);
            && (was.None? || was.value.status != Running || op.status == Running ==> now == was)
            && (was.Some? && was.value.status == Running && op.status != Running ==>
                  && now.Some? && now == Some(was.value.(status := now.value.status, ok := false, endedAt := Some(op.now)))
                  && now.value.status == if op.status in {Fine, Failed, Warned} then Failed else op.status)
  {
    hide RunOf, PairsAfter, WritesOf, LastWrite;
    FinishedRunOf(t, op, name);
    WrittenLast(t.jobs[op.job].kind, op.status, op.summary, 0, name);
  }

  /** A finish of one job leaves the attempts of all others as they are. */
  lemma OtherAttemptsStay(t: Tables, op: Op, job: nat, name: string)
    requires op.Finish? && op.job != job
    ensures RunOf(PairsAfter(t, op).runs, job, name) == RunOf(t.pairs.runs, job, name)
  {
    hide RunOf, StoredAll, EndedRuns, EndedHistory, WritesOf;
    if IsRunning(t, op.job) {
      var j := t.jobs[op.job];
      var ws := WritesOf(j.kind, op.status, op.summary);
      StoredOthers(t.pairs, op.job, j.startedAt, op.now, op.status != Running, ws, job, name);
      EndedRunOf(StoredAll(t.pairs, op.job, j.startedAt, op.now, op.status != Running, ws).runs, op.job, UnfinishedStatus(op.status), op.now,
                 job, name);
    }
  }

  // ---------- stale marking, deleting, starting ----------

  lemma {:induction false} EndedAllRunOf(p: Pairs, ids: seq<nat>, now: Time, job: nat, name: string)
    ensures RunOf(EndedAll(p, ids, now).runs, job, name)
         == match RunOf(p.runs, job, name)
            case None => None
            case Some(r) => Some(if job in ids then EndedRun(r, Stale, now) else r)
  {
    if ids != [] {
      hide RunOf, EndedRuns, EndedHistory;
      var before, last := ids[..|ids| - 1], ids[|ids| - 1];
      assert ids == before + [last];
      EndedAllRunOf(p, before, now, job, name);
      EndedRunOf(EndedAll(p, before, now).runs, last, Stale, now, job, name);
    }
  }

  /** Marking jobs stale ends exactly their running attempts, as stale. */
  lemma AttemptGoesStale(t: Tables, op: Op, job: nat, name: string)
    requires op.MarkStale?
    ensures RunOf(PairsAfter(t, op).runs, job, name)
         == match RunOf(t.pairs.runs, job, name)
            case None => None
            case Some(r) => Some(if job in op.ids && r.status == Running then r.(status := Stale, ok := false, endedAt := Some(op.now)) else r)
  {
    hide RunOf, EndedAll;
    EndedAllRunOf(t.pairs, op.ids, op.now, job, name);
  }

  /** Deleting jobs deletes exactly their attempts. */
  lemma {:induction false} AttemptDeleted(runs: seq<Run>, removed: set<nat>, job: nat, name: string)
    ensures RunOf(KeptRuns(runs, removed), job, name) == if job in removed then None else RunOf(runs, job, name)
  {
    if runs != [] {
      AttemptDeleted(runs[1..], removed, job, name);
      var kept := KeptRuns(runs, removed);
      if runs[0].job in removed { assert kept == KeptRuns(runs[1..], removed); } else { assert kept[1..] == KeptRuns(runs[1..], removed); }
    }
  }

  lemma {:induction false} AppendedRunOf(runs: seq<Run>, r: Run, job: nat, name: string)
    ensures RunOf(runs + [r], job, name)
         == if RunOf(runs, job, name).Some? then RunOf(runs, job, name) else if Holds(r, job, name) then Some(r) else None
  {
    if runs == [] {
      assert runs + [r] == [r] && [r][1..] == [];
    } else {
      assert (runs + [r])[1..] == runs[1..] + [r];
      AppendedRunOf(runs[1..], r, job, name);
    }
  }

  /** A new job has one running attempt per pair name, under the key of the first attempt of
      that name, and the key has been seen. */
  lemma {:induction false} AttemptReserved(p: Pairs, job: nat, attempts: seq<Attempt>, now: Time, i: nat)
    requires i < |attempts| && attempts[i].name != "" && RunOf(p.runs, job, attempts[i].name).None?
    requires forall j :: 0 <= j < i ==> attempts[j].name != attempts[i].name
    ensures var a, q := attempts[i], ReservedAll(p, job, attempts, now);
            && RunOf(q.runs, job, a.name) == Some(Run(job, a.name, a.key, false, a.dryRun, Running, now, None))
            && (a.key != "" ==> a.key in q.history)
  {
    hide RunOf, Recorded;
    var before, last := attempts[..|attempts| - 1], attempts[|attempts| - 1];
    var q := ReservedAll(p, job, before, now);
    RunOfIs(q.runs, job, last.name);
    AppendedRunOf(q.runs, Run(job, last.name, last.key, false, last.dryRun, Running, now, None), job, attempts[i].name);
    RecordedKeys(q.history, last.key, last.name, now);
    if i < |before| {
      AttemptReserved(p, job, before, now, i);
    } else {
      NotReserved(p, job, before, now, attempts[i].name);
    }
  }

  lemma RecordedKeys(h: map<string, Evidence>, key: string, name: string, now: Time)
    ensures Recorded(h, key, name, now, false, false, now).Keys == h.Keys + if key == "" || name == "" then {} else {key}
  {
  }

  lemma {:induction false} NotReserved(p: Pairs, job: nat, attempts: seq<Attempt>, now: Time, name: string)
    requires RunOf(p.runs, job, name).None? && forall a :: a in attempts ==> a.name != name
    ensures RunOf(ReservedAll(p, job, attempts, now).runs, job, name).None?
  {
    if attempts != [] {
      hide RunOf, Recorded, HasRun;
      var before, last := attempts[..|attempts| - 1], attempts[|attempts| - 1];
      NotReserved(p, job, before, now, name);
      assert last in attempts;
      AppendedRunOf(ReservedAll(p, job, before, now).runs, Run(job, last.name, last.key, false, last.dryRun, Running, now, None), job, name);
    }
  }
}
