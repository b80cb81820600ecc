/**
  The baseline evidence over whole runs of job transactions: success is for ever,
  and a key whose attempt has ended is never new again, provided results carry
  the key that was reserved.  `_first_run_resync_allowed` in
  app/jobs/rclone_sync.py grants the automatic resync only for a new key.
*/
module BaselineEvidence {
  import opened Results
  import opened JobTables
  import opened JobLifecycle
  import opened SummaryReports

  // ---------- evidence only grows ----------

  predicate Proven(h: map<string, Evidence>, key: string) {
    key in h && h[key].succeeded
  }

  predicate Seen(h: map<string, Evidence>, key: string) {
    key in h && h[key].terminal
  }

  ghost predicate Grows(h: map<string, Evidence>, more: map<string, Evidence>) {
    forall k :: (Proven(h, k) ==> Proven(more, k)) && (Seen(h, k) ==> Seen(more, k))
  }

  lemma RecordedGrows(h: map<string, Evidence>, key: string, name: string, at: Time, succeeded: bool, terminal: bool, successAt: Time)
    ensures Grows(h, Recorded(h, key, name, at, succeeded, terminal, successAt))
    ensures key != "" && name != "" && succeeded ==> Proven(Recorded(h, key, name, at, succeeded, terminal, successAt), key)
    ensures key != "" && name != "" && terminal ==> Seen(Recorded(h, key, name, at, succeeded, terminal, successAt), key)
    ensures forall k :: Seen(Recorded(h, key, name, at, succeeded, terminal, successAt), k) ==> Seen(h, k) || (k == key != "" && terminal && name != "")
    ensures forall k :: Proven(Recorded(h, key, name, at, succeeded, terminal, successAt), k) ==> Proven(h, k) || (k == key != "" && succeeded && name != "")
  {
  }

  lemma {:induction false} ReservedGrows(p: Pairs, job: nat, attempts: seq<Attempt>, now: Time)
    ensures Grows(p.history, ReservedAll(p, job, attempts, now).history)
    ensures forall k :: Seen(ReservedAll(p, job, attempts, now).history, k) ==> Seen(p.history, k)
    ensures forall k :: Proven(ReservedAll(p, job, attempts, now).history, k) ==> Proven(p.history, k)
  {
    if attempts != [] {
      hide Recorded, Grows, Seen, Proven;
      var before, a := attempts[..|attempts| - 1], attempts[|attempts| - 1];
      ReservedGrows(p, job, before, now);
      var q := ReservedAll(p, job, before, now);
      RecordedGrows(q.history, a.key, a.name, now, false, false, now);
      GrowsOn(p.history, q.history, ReservedAll(p, job, attempts, now).history);
    } else {
      GrowsNot(p.history);
    }
  }

  lemma GrowsNot(h: map<string, Evidence>)
    ensures Grows(h, h)
  {
  }

  lemma GrowsOn(a: map<string, Evidence>, b: map<string, Evidence>, c: map<string, Evidence>)
    requires Grows(a, b) && (Grows(b, c) || b == c)
    ensures Grows(a, c)
  {
    hide Seen, Proven;
  }

  /** Some write names the key. */
  predicate Names(ws: seq<Write>, key: string) {
    exists i :: 0 <= i < |ws| && ws[i].key == key && ws[i].name != ""
  }

  predicate NamesSuccess(ws: seq<Write>, key: string) {
    exists i :: 0 <= i < |ws| && ws[i].key == key && ws[i].name != "" && ws[i].ok && !ws[i].dryRun
  }

  lemma {:induction false} StoredGrows(p: Pairs, job: nat, started: Time, now: Time, terminal: bool, ws: seq<Write>, key: string)
    ensures var h := StoredAll(p, job, started, now, terminal, ws).history;
            && Grows(p.history, h)
            && (Seen(h, key) <==> Seen(p.history, key) || (key != "" && terminal && Names(ws, key)))
            && (Proven(h, key) <==> Proven(p.history, key) || (key != "" && NamesSuccess(ws, key)))
  {
    if ws == [] {
      GrowsNot(p.history);
    } else {
      hide Recorded, Grows, Seen, Proven, Names, NamesSuccess, Upserted;
      var before, w := ws[..|ws| - 1], ws[|ws| - 1];
      StoredGrows(p, job, started, now, terminal, before, key);
      var q := StoredAll(p, job, started, now, terminal, before);
      var h := StoredAll(p, job, started, now, terminal, ws).history;
      RecordedGrows(q.history, w.key, w.name, now, w.ok && !w.dryRun, terminal, now);
      GrowsOn(p.history, q.history, h);
      NamesLast(ws, key);
      GrowsAt(q.history, h, key);
    }
  }

  lemma GrowsAt(h: map<string, Evidence>, more: map<string, Evidence>, key: string)
    requires Grows(h, more)
    ensures (Proven(h, key) ==> Proven(more, key)) && (Seen(h, key) ==> Seen(more, key))
  {
  }

  lemma NamesLast(ws: seq<Write>, key: string)
    requires ws != []
    ensures var before, w := ws[..|ws| - 1], ws[|ws| - 1];
            && (Names(ws, key) <==> Names(before, key) || (w.key == key && w.name != ""))
            && (NamesSuccess(ws, key) <==> NamesSuccess(before, key) || (w.key == key && w.name != "" && w.ok && !w.dryRun))
  {
    var before := ws[..|ws| - 1];
    assert forall i :: 0 <= i < |before| ==> before[i] == ws[i];
  }

  /** A running attempt of the job holds the key. */
  predicate HoldsKey(runs: seq<Run>, job: nat, key: string) {
    exists i :: 0 <= i < |runs| && Unfinished(runs[i], job) && runs[i].key == key && runs[i].name != ""
  }

  lemma HoldsKeyLast(runs: seq<Run>, job: nat, key: string)
    requires runs != []
    ensures var before, r := runs[..|runs| - 1], runs[|runs| - 1];
            HoldsKey(runs, job, key) <==> HoldsKey(before, job, key) || (Unfinished(r, job) && r.key == key && r.name != "")
  {
    var before := runs[..|runs| - 1];
    assert forall i :: 0 <= i < |before| ==> before[i] == runs[i];
  }

  lemma {:induction false} EndedHistoryGrows(h: map<string, Evidence>, runs: seq<Run>, job: nat, now: Time, key: string)
    ensures Grows(h, EndedHistory(h, runs, job, now))
    ensures Seen(EndedHistory(h, runs, job, now), key) <==> Seen(h, key) || (key != "" && HoldsKey(runs, job, key))
    ensures Proven(EndedHistory(h, runs, job, now), key) <==> Proven(h, key)
  {
    if runs == [] {
      GrowsNot(h);
    } else {
      hide Recorded, Grows, Seen, Proven, HoldsKey, Unfinished;
      var before, r := runs[..|runs| - 1], runs[|runs| - 1];
      EndedHistoryGrows(h, before, job, now, key);
      var q := EndedHistory(h, before, job, now);
      RecordedGrows(q, r.key, r.name, now, false, true, now);
      GrowsOn(h, q, EndedHistory(h, runs, job, now));
      HoldsKeyLast(runs, job, key);
      if Unfinished(r, job) { GrowsAt(q, EndedHistory(h, runs, job, now), key); }
    }
  }

  lemma {:induction false} EndedAllGrows(p: Pairs, ids: seq<nat>, now: Time, key: string)
    ensures Grows(p.history, EndedAll(p, ids, now).history)
    ensures Proven(EndedAll(p, ids, now).history, key) <==> Proven(p.history, key)
  {
    if ids == [] {
      GrowsNot(p.history);
    } else {
      hide Grows, Proven, EndedRuns, EndedHistory;
      var before := ids[..|ids| - 1];
      EndedAllGrows(p, before, now, key);
      var q := EndedAll(p, before, now);
      EndedHistoryGrows(q.history, q.runs, ids[|ids| - 1], now, key);
      GrowsOn(p.history, q.history, EndedAll(p, ids, now).history);
    }
  }

  lemma AskedGrows(p: Pairs, name: string, key: string, legacy: string)
    ensures Grows(p.history, Asked(p, name, key, legacy).history)
    ensures Asked(p, name, key, legacy).verdict == Succeeded ==> Proven(Asked(p, name, key, legacy).history, key)
  {
    hide Recorded, LastSuccess, Grows;
    GrowsNot(p.history);
    var h := p.history;
    if name != "" && key != "" && !Proven(h, key) {
      var own := LastSuccess(p.runs, {key}, "");
      if own.Some? {
        var at := EndTime(own.value);
        RecordedGrows(h, key, if own.value.name == "" then name else own.value.name, at, true, true, at);
      } else if Legacy(h, name, key, legacy) && h[legacy].succeeded {
        var l := h[legacy];
        RecordedGrows(h, key, name, l.lastSeen, true, l.terminal,
                      if l.lastSuccess.Some? && l.lastSuccess.value != 0.0 then l.lastSuccess.value else l.lastSeen);
      } else if key != legacy && LastSuccess(p.runs, {"", legacy}, name).Some? {
        var at := EndTime(LastSuccess(p.runs, {"", legacy}, name).value);
        RecordedGrows(h, key, name, at, true, true, at);
      }
    }
  }

  lemma StepGrows(t: Tables, op: Op)
    ensures Grows(t.pairs.history, PairsAfter(t, op).history)
  {
    hide Grows, StoredAll, EndedHistory, EndedAll, ReservedAll, Asked, EndedRuns;
    GrowsNot(t.pairs.history);
    match op
    case Start(_, _, attempts, _, _, _, _, _, now) => ReservedGrows(t.pairs, t.nextId, attempts, now);
    case Finish(id, status, s, now) =>
      if IsRunning(t, id) {
        var j := t.jobs[id];
        var q := StoredAll(t.pairs, id, j.startedAt, now, status != Running, WritesOf(j.kind, status, s));
        StoredGrows(t.pairs, id, j.startedAt, now, status != Running, WritesOf(j.kind, status, s), "k");
        EndedHistoryGrows(q.history, q.runs, id, now, "k");
        GrowsOn(t.pairs.history, q.history, PairsAfter(t, op).history);
      }
    case MarkStale(ids, now) => EndedAllGrows(t.pairs, ids, now, "k");
    case Ask(name, key, legacy) => AskedGrows(t.pairs, name, key, legacy);
    case _ =>
  }

  /** Evidence outlives every later start, finish, stale marking, deletion and question. */
  lemma {:induction false} RunGrows(ops: seq<Op>, i: nat)
    requires i <= |ops| && After(ops).Some? && After(ops[..i]).Some?
    ensures Grows(After(ops[..i]).value.pairs.history, After(ops).value.pairs.history)
  {
    if i == |ops| {
      assert ops[..i] == ops;
      GrowsNot(After(ops).value.pairs.history);
    } else {
      hide Grows, PairsAfter, JobsAfter, NotedAll, RecordingsOf, IntentsAfter, Allowed;
      var before := ops[..|ops| - 1];
      assert before[..i] == ops[..i];
      RunGrows(before, i);
      StepGrows(After(before).value, ops[|ops| - 1]);
      GrowsOn(After(ops[..i]).value.pairs.history, After(before).value.pairs.history, After(ops).value.pairs.history);
    }
  }

  // ---------- what a summary proves ----------

  lemma NamesAreReports(kind: string, status: Status, s: Summary, key: string)
    ensures NamesSuccess(WritesOf(kind, status, s), key) <==> ReportsSuccess(s, key)
    ensures Names(WritesOf(kind, status, s), key) <==> MentionsKey(status, s, key)
  {
    hide WritesOf, NamesSuccess, Names, Writes, ReportsFor, Mentions;
    NamedWrites(WritesOf(kind, status, s), key);
    forall name ensures Writes(WritesOf(kind, status, s), name, key, true) <==> ReportsFor(s, name, key) {
      WritesAreReports(kind, status, s, name, key);
    }
    forall name ensures Writes(WritesOf(kind, status, s), name, key, false) <==> Mentions(status, s, name, key) {
      WritesAreReports(kind, status, s, name, key);
    }
  }

  lemma NamedWrites(ws: seq<Write>, key: string)
    ensures NamesSuccess(ws, key) <==> exists name :: Writes(ws, name, key, true)
    ensures Names(ws, key) <==> exists name :: Writes(ws, name, key, false)
  {
    if NamesSuccess(ws, key) {
      var i :| 0 <= i < |ws| && ws[i].key == key && ws[i].name != "" && ws[i].ok && !ws[i].dryRun;
      assert IsWrite(ws[i], ws[i].name, key, true);
      assert Writes(ws, ws[i].name, key, true);
    }
    if Names(ws, key) {
      var i :| 0 <= i < |ws| && ws[i].key == key && ws[i].name != "";
      assert IsWrite(ws[i], ws[i].name, key, false);
      assert Writes(ws, ws[i].name, key, false);
    }
  }

  /** The summary reports some pair under the key. */
  ghost predicate MentionsKey(status: Status, s: Summary, key: string) {
    exists name :: Mentions(status, s, name, key)
  }

  /** A finish proves exactly the keys it reports a real success for, whatever its status. */
  lemma ProvenExactly(t: Tables, op: Op, key: string)
    requires op.Finish? && IsRunning(t, op.job)
    ensures Proven(PairsAfter(t, op).history, key)
       <==> Proven(t.pairs.history, key)
            || exists i :: key != "" && 0 <= i < |op.summary.pairs| && op.summary.pairs[i].name != "" && op.summary.pairs[i].key == key
                           && op.summary.pairs[i].ok && !op.summary.pairs[i].dryRun && !op.summary.dryRun
  {
    hide StoredAll, EndedHistory, EndedRuns, WritesOf, NamesSuccess, Proven, Grows;
    var j := t.jobs[op.job];
    var ws := WritesOf(j.kind, op.status, op.summary);
    StoredGrows(t.pairs, op.job, j.startedAt, op.now, op.status != Running, ws, key);
    var q := StoredAll(t.pairs, op.job, j.startedAt, op.now, op.status != Running, ws);
    EndedHistoryGrows(q.history, q.runs, op.job, op.now, key);
    NamesAreReports(j.kind, op.status, op.summary, key);
    ReportsAre(op.summary, key);
  }

  // ---------- success is for ever ----------

  function VerdictOf(t: Tables, name: string, key: string, legacy: string): Verdict {
    Asked(t.pairs, name, key, legacy).verdict
  }

  lemma ProvenSucceeds(p: Pairs, name: string, key: string, legacy: string)
    requires Proven(p.history, key) && name != "" && key != ""
    ensures Asked(p, name, key, legacy).verdict == Succeeded
  {
    hide Recorded, LastSuccess;
  }

  /** After a finish that reports a real success under the key, the verdict is
      "succeeded" through every later transaction, for every name asked about. */
  lemma SuccessIsForever(ops: seq<Op>, i: nat, key: string, name: string, legacy: string)
    requires i < |ops| && After(ops).Some? && After(ops[..i + 1]).Some? && After(ops[..i]).Some?
    requires key != "" && name != ""
    requires ops[i].Finish? && IsRunning(After(ops[..i]).value, ops[i].job)
    requires var s := ops[i].summary; exists k :: 0 <= k < |s.pairs| && s.pairs[k].name != "" && s.pairs[k].key == key
                                                  && s.pairs[k].ok && !s.pairs[k].dryRun && !s.dryRun
    ensures VerdictOf(After(ops).value, name, key, legacy) == Succeeded
  {
    hide After, PairsAfter, Asked, Grows;
    StepAt(ops, i);
    ProvenExactly(After(ops[..i]).value, ops[i], key);
    RunGrows(ops, i + 1);
    GrowsAt(After(ops[..i + 1]).value.pairs.history, After(ops).value.pairs.history, key);
    ProvenSucceeds(After(ops).value.pairs, name, key, legacy);
  }

  lemma StepAt(ops: seq<Op>, i: nat)
    requires i < |ops| && After(ops[..i + 1]).Some? && After(ops[..i]).Some?
    ensures After(ops[..i + 1]).value.pairs == PairsAfter(After(ops[..i]).value, ops[i])
  {
    hide PairsAfter, JobsAfter, IntentsAfter, NotedAll, RecordingsOf, Allowed;
    assert ops[..i + 1][..i] == ops[..i];
  }

  /** Once the question was answered "succeeded", on whatever evidence, it always will be. */
  lemma AnsweredSucceededIsForever(ops: seq<Op>, i: nat, name: string, legacy: string)
    requires i < |ops| && After(ops).Some? && After(ops[..i + 1]).Some? && After(ops[..i]).Some?
    requires ops[i].Ask? && name != ""
    requires VerdictOf(After(ops[..i]).value, ops[i].name, ops[i].key, ops[i].legacy) == Succeeded
    ensures VerdictOf(After(ops).value, name, ops[i].key, legacy) == Succeeded
  {
    hide After, PairsAfter, Asked, Grows;
    StepAt(ops, i);
    var t, op := After(ops[..i]).value, ops[i];
    AskProves(t, op);
    RunGrows(ops, i + 1);
    GrowsAt(After(ops[..i + 1]).value.pairs.history, After(ops).value.pairs.history, op.key);
    ProvenSucceeds(After(ops).value.pairs, name, op.key, legacy);
  }

  lemma AskProves(t: Tables, op: Op)
    requires op.Ask? && Asked(t.pairs, op.name, op.key, op.legacy).verdict == Succeeded
    ensures op.key != "" && Proven(PairsAfter(t, op).history, op.key)
  {
    AskedGrows(t.pairs, op.name, op.key, op.legacy);
    BlankIsAmbiguous(t.pairs, op.name, op.key, op.legacy);
  }

  lemma BlankIsAmbiguous(p: Pairs, name: string, key: string, legacy: string)
    ensures name == "" || key == "" ==> Asked(p, name, key, legacy).verdict == Ambiguous
  {
  }

  // ---------- an ended attempt is never new again ----------

  // The table holds at most one attempt per job and pair.

  ghost predicate UniqueRuns(runs: seq<Run>) {
    forall i, j :: 0 <= i < j < |runs| ==> runs[i].job != runs[j].job || runs[i].name != runs[j].name
  }

  lemma UniqueTail(runs: seq<Run>)
    requires runs != []
    ensures UniqueRuns(runs) <==> UniqueRuns(runs[1..]) && !HasRun(runs[1..], runs[0].job, runs[0].name)
  {
    var rest := runs[1..];
    assert runs == [runs[0]] + rest;
    if UniqueRuns(rest) && !HasRun(rest, runs[0].job, runs[0].name) {
      forall i, j | 0 <= i < j < |runs| ensures runs[i].job != runs[j].job || runs[i].name != runs[j].name {
        assert runs[j] == rest[j - 1] && (i > 0 ==> runs[i] == rest[i - 1]);
        assert !Holds(rest[j - 1], runs[0].job, runs[0].name);
      }
    }
  }

  lemma {:induction false} UpsertedHas(runs: seq<Run>, r: Run, job: nat, name: string)
    ensures HasRun(Upserted(runs, r), job, name) <==> HasRun(runs, job, name) || Holds(r, job, name)
  {
    if runs == [] {
      assert Upserted(runs, r)[0] == r;
    } else {
      HasHead(runs, job, name);
      HasHead(Upserted(runs, r), job, name);
      if Holds(runs[0], r.job, r.name) {
        assert Upserted(runs, r)[1..] == runs[1..];
      } else {
        UpsertedHas(runs[1..], r, job, name);
        assert Upserted(runs, r)[1..] == Upserted(runs[1..], r);
      }
    }
  }

  lemma HasHead(runs: seq<Run>, job: nat, name: string)
    requires runs != []
    ensures HasRun(runs, job, name) <==> Holds(runs[0], job, name) || HasRun(runs[1..], job, name)
  {
    assert forall i :: 0 < i < |runs| ==> runs[i] == runs[1..][i - 1];
  }

  lemma {:induction false} UpsertedUnique(runs: seq<Run>, r: Run)
    requires UniqueRuns(runs)
    ensures UniqueRuns(Upserted(runs, r))
  {
    if runs != [] {
      hide UniqueRuns, HasRun;
      var up := Upserted(runs, r);
      UniqueTail(runs);
      UniqueTail(up);
      if Holds(runs[0], r.job, r.name) {
        assert up[1..] == runs[1..];
      } else {
        assert up[1..] == Upserted(runs[1..], r);
        UpsertedUnique(runs[1..], r);
        UpsertedHas(runs[1..], r, runs[0].job, runs[0].name);
      }
    }
  }

  lemma {:induction false} StoredUnique(p: Pairs, job: nat, started: Time, now: Time, terminal: bool, ws: seq<Write>)
    requires UniqueRuns(p.runs)
    ensures UniqueRuns(StoredAll(p, job, started, now, terminal, ws).runs)
  {
    if ws != [] {
      hide UniqueRuns, Upserted, Recorded;
      var before, w := ws[..|ws| - 1], ws[|ws| - 1];
      StoredUnique(p, job, started, now, terminal, before);
      UpsertedUnique(StoredAll(p, job, started, now, terminal, before).runs,
                     Run(job, w.name, w.key, w.ok, w.dryRun, w.status, started, Some(now)));
    }
  }

  lemma EndedUnique(runs: seq<Run>, job: nat, status: Status, now: Time)
    requires UniqueRuns(runs)
    ensures UniqueRuns(EndedRuns(runs, job, status, now))
  {
    var ended := EndedRuns(runs, job, status, now);
    assert forall i :: 0 <= i < |runs| ==> ended[i].job == runs[i].job && ended[i].name == runs[i].name;
  }

  lemma {:induction false} EndedAllUnique(p: Pairs, ids: seq<nat>, now: Time)
    requires UniqueRuns(p.runs)
    ensures UniqueRuns(EndedAll(p, ids, now).runs)
  {
    if ids != [] {
      hide UniqueRuns, EndedRuns, EndedHistory;
      EndedAllUnique(p, ids[..|ids| - 1], now);
      EndedUnique(EndedAll(p, ids[..|ids| - 1], now).runs, ids[|ids| - 1], Stale, now);
    }
  }

  lemma {:induction false} ReservedUnique(p: Pairs, job: nat, attempts: seq<Attempt>, now: Time)
    requires UniqueRuns(p.runs)
    ensures UniqueRuns(ReservedAll(p, job, attempts, now).runs)
  {
    if attempts != [] {
      hide Recorded;
      var before, a := attempts[..|attempts| - 1], attempts[|attempts| - 1];
      ReservedUnique(p, job, before, now);
      var runs := ReservedAll(p, job, before, now).runs;
      AppendedUnique(runs, Run(job, a.name, a.key, false, a.dryRun, Running, now, None));
      hide UniqueRuns, HasRun;
    }
  }

  lemma AppendedUnique(runs: seq<Run>, r: Run)
    requires UniqueRuns(runs)
    ensures HasRun(runs, r.job, r.name) || UniqueRuns(runs + [r])
  {
    if !HasRun(runs, r.job, r.name) { assert forall i :: 0 <= i < |runs| ==> !Holds(runs[i], r.job, r.name); }
  }

  lemma {:induction false} KeptHas(runs: seq<Run>, removed: set<nat>, job: nat, name: string)
    ensures HasRun(KeptRuns(runs, removed), job, name) ==> HasRun(runs, job, name)
  {
    if runs != [] {
      KeptHas(runs[1..], removed, job, name);
      HasHead(runs, job, name);
      var kept := KeptRuns(runs, removed);
      if runs[0].job !in removed {
        assert kept[1..] == KeptRuns(runs[1..], removed);
        HasHead(kept, job, name);
      } else {
        assert kept == KeptRuns(runs[1..], removed);
      }
    }
  }

  lemma {:induction false} KeptUnique(runs: seq<Run>, removed: set<nat>)
    requires UniqueRuns(runs)
    ensures UniqueRuns(KeptRuns(runs, removed))
  {
    if runs != [] {
      hide UniqueRuns, HasRun;
      UniqueTail(runs);
      KeptUnique(runs[1..], removed);
      var kept := KeptRuns(runs, removed);
      if runs[0].job !in removed {
        assert kept[1..] == KeptRuns(runs[1..], removed);
        UniqueTail(kept);
        KeptHas(runs[1..], removed, runs[0].job, runs[0].name);
      } else {
        assert kept == KeptRuns(runs[1..], removed);
      }
    }
  }

  lemma StepUnique(t: Tables, op: Op)
    requires UniqueRuns(t.pairs.runs)
    ensures UniqueRuns(PairsAfter(t, op).runs)
  {
    hide UniqueRuns, StoredAll, EndedHistory, EndedRuns, EndedAll, ReservedAll, KeptRuns, Asked;
    match op
    case Start(_, _, attempts, _, _, _, _, _, now) => ReservedUnique(t.pairs, t.nextId, attempts, now);
    case Finish(id, status, s, now) =>
      if IsRunning(t, id) {
        var j := t.jobs[id];
        var ws := WritesOf(j.kind, status, s);
        StoredUnique(t.pairs, id, j.startedAt, now, status != Running, ws);
        EndedUnique(StoredAll(t.pairs, id, j.startedAt, now, status != Running, ws).runs, id, UnfinishedStatus(status), now);
      }
    case MarkStale(ids, now) => EndedAllUnique(t.pairs, ids, now);
    case Delete(removed) => KeptUnique(t.pairs.runs, removed);
    case _ =>
  }

  /** In every reachable state a job has at most one attempt per pair name. */
  lemma {:induction false} RunUnique(ops: seq<Op>)
    requires After(ops).Some?
    ensures UniqueRuns(After(ops).value.pairs.runs)
  {
    if ops != [] {
      hide UniqueRuns, PairsAfter, JobsAfter, IntentsAfter, NotedAll, RecordingsOf, Allowed;
      RunUnique(ops[..|ops| - 1]);
      StepUnique(After(ops[..|ops| - 1]).value, ops[|ops| - 1]);
    }
  }

  /** An unfinished attempt of the job, for none of these pairs, holds the key. */
  predicate HoldsBut(runs: seq<Run>, job: nat, key: string, names: set<string>) {
    exists i :: 0 <= i < |runs| && Unfinished(runs[i], job) && runs[i].key == key && runs[i].name != "" && runs[i].name !in names
  }

  function WrittenNames(ws: seq<Write>): set<string> {
    set i | 0 <= i < |ws| :: ws[i].name
  }

  lemma ButHead(runs: seq<Run>, job: nat, key: string, names: set<string>)
    requires runs != []
    ensures HoldsBut(runs, job, key, names)
       <==> (Unfinished(runs[0], job) && runs[0].key == key && runs[0].name != "" && runs[0].name !in names)
            || HoldsBut(runs[1..], job, key, names)
  {
    assert forall i :: 0 < i < |runs| ==> runs[i] == runs[1..][i - 1];
  }

  lemma {:induction false} UpsertedBut(runs: seq<Run>, r: Run, key: string, names: set<string>)
    requires UniqueRuns(runs) && r.status != Running
    ensures HoldsBut(Upserted(runs, r), r.job, key, names) <==> HoldsBut(runs, r.job, key, names + {r.name})
  {
    if runs != [] {
      hide HoldsBut, UniqueRuns;
      var up := Upserted(runs, r);
      UniqueTail(runs);
      ButHead(runs, r.job, key, names + {r.name});
      ButHead(up, r.job, key, names);
      if Holds(runs[0], r.job, r.name) {
        assert up[1..] == runs[1..];
        AbsentBut(runs[1..], r, key, names);
      } else {
        assert up[1..] == Upserted(runs[1..], r);
        UpsertedBut(runs[1..], r, key, names);
      }
    }
  }

  lemma AbsentBut(runs: seq<Run>, r: Run, key: string, names: set<string>)
    requires !HasRun(runs, r.job, r.name)
    ensures HoldsBut(runs, r.job, key, names) <==> HoldsBut(runs, r.job, key, names + {r.name})
  {
    assert forall i :: 0 <= i < |runs| ==> !Holds(runs[i], r.job, r.name);
  }

  lemma {:induction false} StoredBut(p: Pairs, job: nat, started: Time, now: Time, terminal: bool, ws: seq<Write>, key: string, names: set<string>)
    requires UniqueRuns(p.runs) && forall i :: 0 <= i < |ws| ==> ws[i].status != Running
    ensures HoldsBut(StoredAll(p, job, started, now, terminal, ws).runs, job, key, names)
       <==> HoldsBut(p.runs, job, key, names + WrittenNames(ws))
  {
    if ws == [] {
      assert names + WrittenNames(ws) == names;
    } else {
      hide UniqueRuns, HoldsBut, Upserted, Recorded;
      var before, w := ws[..|ws| - 1], ws[|ws| - 1];
      StoredUnique(p, job, started, now, terminal, before);
      StoredBut(p, job, started, now, terminal, before, key, names + {w.name});
      UpsertedBut(StoredAll(p, job, started, now, terminal, before).runs,
                  Run(job, w.name, w.key, w.ok, w.dryRun, w.status, started, Some(now)), key, names);
      assert names + {w.name} + WrittenNames(before) == names + WrittenNames(ws) by { NamesWritten(ws); }
    }
  }

  lemma NamesWritten(ws: seq<Write>)
    requires ws != []
    ensures WrittenNames(ws) == WrittenNames(ws[..|ws| - 1]) + {ws[|ws| - 1].name}
  {
    var before := ws[..|ws| - 1];
    forall n | n in WrittenNames(ws) ensures n in WrittenNames(before) + {ws[|ws| - 1].name} {
      var i :| 0 <= i < |ws| && ws[i].name == n;
      if i < |before| { assert before[i].name == n; }
    }
    forall n | n in WrittenNames(before) ensures n in WrittenNames(ws) {
      var i :| 0 <= i < |before| && before[i].name == n;
      assert ws[i].name == n;
    }
  }

  lemma {:induction false} ResultsEnd(kind: string, status: Status, s: Summary, pairs: seq<PairResult>)
    ensures forall i :: 0 <= i < |ResultWrites(kind, status, s, pairs)| ==> ResultWrites(kind, status, s, pairs)[i].status != Running
  {
    if pairs != [] { ResultsEnd(kind, status, s, pairs[..|pairs| - 1]); }
  }

  lemma {:induction false} DueEnds(status: Status, s: Summary, due: seq<Due>)
    requires status != Running
    ensures forall i :: 0 <= i < |DueWrites(status, s, due)| ==> DueWrites(status, s, due)[i].status != Running
  {
    if due != [] { DueEnds(status, s, due[..|due| - 1]); }
  }

  lemma WritesEnd(kind: string, status: Status, s: Summary)
    ensures forall i :: 0 <= i < |WritesOf(kind, status, s)| ==> WritesOf(kind, status, s)[i].status != Running
  {
    ResultsEnd(kind, status, s, s.pairs);
    if status != Running { DueEnds(status, s, s.due); }
  }

  /** The pairs the summary mentions. */
  ghost function Mentioned(status: Status, s: Summary): set<string> {
    (set r | r in s.pairs && r.name != "" :: r.name)
    + if status in {Failed, Stale, Cancelled} then set d | d in s.due && d.name != "" :: d.name else {}
  }

  lemma MentionedAre(status: Status, s: Summary, name: string)
    ensures name in Mentioned(status, s) <==> exists key :: Mentions(status, s, name, key)
  {
    if r :| r in s.pairs && r.name == name != "" {
      var i :| 0 <= i < |s.pairs| && s.pairs[i] == r;
      assert IsResult(s, i, name, r.key, false);
      assert Mentions(status, s, name, r.key);
    }
    if status in {Failed, Stale, Cancelled} {
      if d :| d in s.due && d.name == name != "" {
        var i :| 0 <= i < |s.due| && s.due[i] == d;
        assert IsDue(status, s, i, name, d.key);
        assert Mentions(status, s, name, d.key);
      }
    }
  }

  lemma WrittenAreMentioned(kind: string, status: Status, s: Summary)
    ensures WrittenNames(WritesOf(kind, status, s)) == Mentioned(status, s)
  {
    hide WritesOf, Mentions, Mentioned;
    var ws := WritesOf(kind, status, s);
    WritesNamed(kind, status, s);
    forall name ensures name in WrittenNames(ws) <==> name in Mentioned(status, s) {
      MentionedAre(status, s, name);
      forall key ensures Writes(ws, name, key, false) <==> Mentions(status, s, name, key) {
        WritesAreReports(kind, status, s, name, key);
      }
      NamesWriteSomeKey(ws, name);
    }
  }

  lemma NamesWriteSomeKey(ws: seq<Write>, name: string)
    requires forall i :: 0 <= i < |ws| ==> ws[i].name != ""
    ensures name in WrittenNames(ws) <==> exists key :: Writes(ws, name, key, false)
  {
    if i :| 0 <= i < |ws| && ws[i].name == name {
      assert IsWrite(ws[i], name, ws[i].key, false);
      assert Writes(ws, name, ws[i].key, false);
    }
  }

  /** Exactly what makes a key seen as ended when a running job is finished, after any
      run: it was seen before, or a result or due pair of the summary names it, or
      an unfinished attempt of the job, for a pair the summary does not mention,
      holds it. */
  lemma SeenExactly(ops: seq<Op>, op: Op, key: string)
    requires After(ops).Some? && op.Finish? && IsRunning(After(ops).value, op.job) && op.status != Running && key != ""
    ensures var t := After(ops).value;
            Seen(PairsAfter(t, op).history, key)
            <==> || Seen(t.pairs.history, key) || MentionsKey(op.status, op.summary, key)
                 || HoldsBut(t.pairs.runs, op.job, key, Mentioned(op.status, op.summary))
  {
    hide After, StoredAll, WritesOf, FinishedPairs, Seen, Names, UniqueRuns, Mentioned, MentionsKey;
    var t := After(ops).value;
    var j := t.jobs[op.job];
    var ws := WritesOf(j.kind, op.status, op.summary);
    RunUnique(ops);
    SeenAfterStoring(t, op, key);
    WritesEnd(j.kind, op.status, op.summary);
    StoredBut(t.pairs, op.job, j.startedAt, op.now, true, ws, key, {});
    assert {} + WrittenNames(ws) == WrittenNames(ws);
    HoldsButNone(StoredAll(t.pairs, op.job, j.startedAt, op.now, true, ws).runs, op.job, key);
    NamesAreReports(j.kind, op.status, op.summary, key);
    WrittenAreMentioned(j.kind, op.status, op.summary);
  }

  lemma HoldsButNone(runs: seq<Run>, job: nat, key: string)
    ensures HoldsBut(runs, job, key, {}) <==> HoldsKey(runs, job, key)
  {
  }

  lemma SeenAfterStoring(t: Tables, op: Op, key: string)
    requires op.Finish? && IsRunning(t, op.job) && op.status != Running && key != ""
    ensures var j := t.jobs[op.job];
            var ws := WritesOf(j.kind, op.status, op.summary);
            Seen(PairsAfter(t, op).history, key)
            <==> (Seen(t.pairs.history, key) || Names(ws, key)
                  || HoldsKey(StoredAll(t.pairs, op.job, j.startedAt, op.now, true, ws).runs, op.job, key))
  {
    hide StoredAll, WritesOf, EndedHistory, EndedRuns, Seen, Names, HoldsKey, Grows;
    var j := t.jobs[op.job];
    var ws := WritesOf(j.kind, op.status, op.summary);
    StoredGrows(t.pairs, op.job, j.startedAt, op.now, true, ws, key);
    var q := StoredAll(t.pairs, op.job, j.startedAt, op.now, true, ws);
    EndedHistoryGrows(q.history, q.runs, op.job, op.now, key);
  }

  /** The attempt (job, name) runs under the key. */
  predicate Reserves(runs: seq<Run>, job: nat, name: string, key: string) {
    exists i :: 0 <= i < |runs| && Holds(runs[i], job, name) && runs[i].status == Running && runs[i].key == key
  }

  /** Every result about the attempt carries its key. */
  predicate KeepsKey(ws: seq<Write>, name: string, key: string) {
    forall i :: 0 <= i < |ws| && ws[i].name == name ==> ws[i].key == key
  }

  lemma {:induction false} UpsertKeepsOthers(runs: seq<Run>, r: Run, name: string, key: string)
    requires Reserves(runs, r.job, name, key) && r.name != name
    ensures Reserves(Upserted(runs, r), r.job, name, key)
  {
    if !Holds(runs[0], r.job, r.name) {
      var up := Upserted(runs[1..], r);
      if Holds(runs[0], r.job, name) && runs[0].status == Running && runs[0].key == key {
        assert Holds(Upserted(runs, r)[0], r.job, name);
      } else {
        var i :| 0 <= i < |runs| && Holds(runs[i], r.job, name) && runs[i].status == Running && runs[i].key == key;
        assert runs[1..][i - 1] == runs[i];
        UpsertKeepsOthers(runs[1..], r, name, key);
        var k :| 0 <= k < |up| && Holds(up[k], r.job, name) && up[k].status == Running && up[k].key == key;
        assert Upserted(runs, r)[k + 1] == up[k];
      }
    } else {
      var i :| 0 <= i < |runs| && Holds(runs[i], r.job, name) && runs[i].status == Running && runs[i].key == key;
      assert Upserted(runs, r)[i] == runs[i];
    }
  }

  lemma {:induction false} StoresKeepOrName(p: Pairs, job: nat, started: Time, now: Time, terminal: bool, ws: seq<Write>,
                                            name: string, key: string)
    requires Reserves(p.runs, job, name, key) && KeepsKey(ws, name, key) && name != ""
    ensures Names(ws, key) || Reserves(StoredAll(p, job, started, now, terminal, ws).runs, job, name, key)
  {
    if ws != [] {
      hide Recorded, Names, Reserves, Upserted;
      var before, w := ws[..|ws| - 1], ws[|ws| - 1];
      assert forall i :: 0 <= i < |before| ==> before[i] == ws[i];
      StoresKeepOrName(p, job, started, now, terminal, before, name, key);
      NamesLast(ws, key);
      if w.name != name && !Names(before, key) {
        UpsertKeepsOthers(StoredAll(p, job, started, now, terminal, before).runs,
                          Run(job, w.name, w.key, w.ok, w.dryRun, w.status, started, Some(now)), name, key);
      }
    }
  }

  lemma ReservesHolds(runs: seq<Run>, job: nat, name: string, key: string)
    requires Reserves(runs, job, name, key) && name != ""
    ensures HoldsKey(runs, job, key)
  {
    var i :| 0 <= i < |runs| && Holds(runs[i], job, name) && runs[i].status == Running && runs[i].key == key;
    assert Unfinished(runs[i], job) && runs[i].key == key && runs[i].name != "";
  }

  /** A transaction does not overwrite the key of the attempt: a finish of the job
      reports the pair under this key only, and if it leaves the job running under none. */
  ghost predicate RespectsKey(t: Tables, op: Op, job: nat, name: string, key: string) {
    op.Finish? && op.job == job && IsRunning(t, job) ==>
      && (forall k :: Mentions(op.status, op.summary, name, k) ==> k == key)
      && (op.status == Running ==> !MentionsKey(op.status, op.summary, key))
  }

  lemma RespectedIs(kind: string, status: Status, s: Summary, name: string, key: string)
    requires name != ""
    ensures (forall k :: Mentions(status, s, name, k) ==> k == key) ==> KeepsKey(WritesOf(kind, status, s), name, key)
  {
    hide WritesOf, Mentions;
    var ws := WritesOf(kind, status, s);
    if forall k :: Mentions(status, s, name, k) ==> k == key {
      forall i | 0 <= i < |ws| && ws[i].name == name ensures ws[i].key == key {
        assert IsWrite(ws[i], name, ws[i].key, false) && Writes(ws, name, ws[i].key, false);
        WritesAreReports(kind, status, s, name, ws[i].key);
      }
    }
  }

  lemma FinishSees(t: Tables, op: Op, name: string, key: string)
    requires op.Finish? && IsRunning(t, op.job) && op.status != Running && key != "" && name != ""
    requires Reserves(t.pairs.runs, op.job, name, key) && RespectsKey(t, op, op.job, name, key)
    ensures Seen(PairsAfter(t, op).history, key)
  {
    hide StoredAll, WritesOf, Seen, Names, HoldsKey, Reserves, FinishedPairs, KeepsKey;
    var j := t.jobs[op.job];
    var ws := WritesOf(j.kind, op.status, op.summary);
    SeenAfterStoring(t, op, key);
    RespectedIs(j.kind, op.status, op.summary, name, key);
    StoresKeepOrName(t.pairs, op.job, j.startedAt, op.now, true, ws, name, key);
    var q := StoredAll(t.pairs, op.job, j.startedAt, op.now, true, ws);
    if Reserves(q.runs, op.job, name, key) { ReservesHolds(q.runs, op.job, name, key); }
  }

  lemma {:induction false} StaleSees(p: Pairs, ids: seq<nat>, now: Time, job: nat, name: string, key: string)
    requires key != "" && name != "" && Reserves(p.runs, job, name, key)
    ensures if job in ids then Seen(EndedAll(p, ids, now).history, key) else Reserves(EndedAll(p, ids, now).runs, job, name, key)
  {
    if ids != [] {
      hide Seen, Reserves, EndedHistory, EndedRuns, HoldsKey, Grows;
      var before, last := ids[..|ids| - 1], ids[|ids| - 1];
      assert ids == before + [last];
      StaleSees(p, before, now, job, name, key);
      var q := EndedAll(p, before, now);
      EndedHistoryGrows(q.history, q.runs, last, now, key);
      if job !in before {
        if last == job { ReservesHolds(q.runs, job, name, key); } else { EndedKeepsOthers(q.runs, last, Stale, now, job, name, key); }
      }
    }
  }

  lemma EndedKeepsOthers(runs: seq<Run>, ended: nat, status: Status, now: Time, job: nat, name: string, key: string)
    requires Reserves(runs, job, name, key) && ended != job
    ensures Reserves(EndedRuns(runs, ended, status, now), job, name, key)
  {
    var i :| 0 <= i < |runs| && Holds(runs[i], job, name) && runs[i].status == Running && runs[i].key == key;
    assert EndedRuns(runs, ended, status, now)[i] == runs[i];
  }

  lemma {:induction false} OthersStored(p: Pairs, other: nat, started: Time, now: Time, terminal: bool, ws: seq<Write>,
                                        job: nat, name: string, key: string)
    requires Reserves(p.runs, job, name, key) && other != job
    ensures Reserves(StoredAll(p, other, started, now, terminal, ws).runs, job, name, key)
  {
    if ws != [] {
      hide Reserves, Recorded, Upserted;
      var before, w := ws[..|ws| - 1], ws[|ws| - 1];
      OthersStored(p, other, started, now, terminal, before, job, name, key);
      UpsertOfOther(StoredAll(p, other, started, now, terminal, before).runs,
                    Run(other, w.name, w.key, w.ok, w.dryRun, w.status, started, Some(now)), job, name, key);
    }
  }

  lemma {:induction false} UpsertOfOther(runs: seq<Run>, r: Run, job: nat, name: string, key: string)
    requires Reserves(runs, job, name, key) && r.job != job
    ensures Reserves(Upserted(runs, r), job, name, key)
  {
    var i :| 0 <= i < |runs| && Holds(runs[i], job, name) && runs[i].status == Running && runs[i].key == key;
    if !Holds(runs[0], r.job, r.name) {
      if i == 0 {
        assert Upserted(runs, r)[0] == runs[0];
      } else {
        assert runs[1..][i - 1] == runs[i];
        UpsertOfOther(runs[1..], r, job, name, key);
        var up := Upserted(runs[1..], r);
        var k :| 0 <= k < |up| && Holds(up[k], job, name) && up[k].status == Running && up[k].key == key;
        assert Upserted(runs, r)[k + 1] == up[k];
      }
    } else {
      assert Upserted(runs, r)[i] == runs[i];
    }
  }

  lemma {:induction false} ReservingKeeps(p: Pairs, other: nat, attempts: seq<Attempt>, now: Time, job: nat, name: string, key: string)
    requires Reserves(p.runs, job, name, key)
    ensures Reserves(ReservedAll(p, other, attempts, now).runs, job, name, key)
  {
    if attempts != [] {
      hide Recorded, HasRun;
      ReservingKeeps(p, other, attempts[..|attempts| - 1], now, job, name, key);
      var q := ReservedAll(p, other, attempts[..|attempts| - 1], now);
      var i :| 0 <= i < |q.runs| && Holds(q.runs[i], job, name) && q.runs[i].status == Running && q.runs[i].key == key;
      assert ReservedAll(p, other, attempts, now).runs[i] == q.runs[i];
    }
  }

  lemma {:induction false} DeletingKeeps(runs: seq<Run>, removed: set<nat>, job: nat, name: string, key: string)
    requires Reserves(runs, job, name, key) && job !in removed
    ensures Reserves(KeptRuns(runs, removed), job, name, key)
  {
    var i :| 0 <= i < |runs| && Holds(runs[i], job, name) && runs[i].status == Running && runs[i].key == key;
    var kept := KeptRuns(runs, removed);
    if i == 0 {
      assert kept[0] == runs[0];
    } else {
      assert runs[1..][i - 1] == runs[i];
      DeletingKeeps(runs[1..], removed, job, name, key);
      var rest := KeptRuns(runs[1..], removed);
      var k :| 0 <= k < |rest| && Holds(rest[k], job, name) && rest[k].status == Running && rest[k].key == key;
      if runs[0].job in removed { assert kept[k] == rest[k]; } else { assert kept[k + 1] == rest[k]; }
    }
  }

  /** Either the attempt still runs under its key, or the key is seen as ended. */
  predicate Tracked(t: Tables, job: nat, name: string, key: string) {
    Seen(t.pairs.history, key) || (IsRunning(t, job) && Reserves(t.pairs.runs, job, name, key))
  }

  lemma StepTracks(t: Tables, op: Op, job: nat, name: string, key: string)
    requires KnownIds(t) && Allowed(t, op) && key != "" && name != ""
    requires Tracked(t, job, name, key) && RespectsKey(t, op, job, name, key)
    ensures Tracked(Apply(t, op), job, name, key)
  {
    hide Seen, Reserves, Grows, FinishedPairs, ReservedAll, EndedAll, KeptRuns, Asked, NotedAll, RecordingsOf, IntentsAfter, NewJob;
    StepGrows(t, op);
    GrowsAt(t.pairs.history, PairsAfter(t, op).history, key);
    if !Seen(t.pairs.history, key) {
      match op
      case Start(_, _, attempts, _, _, _, _, _, now) => ReservingKeeps(t.pairs, t.nextId, attempts, now, job, name, key);
      case Finish(id, status, s, now) =>
        if id == job { FinishTracks(t, op, name, key); } else if IsRunning(t, id) { OthersFinish(t, op, job, name, key); }
      case MarkStale(ids, now) => StaleSees(t.pairs, ids, now, job, name, key);
      case Delete(removed) => DeletingKeeps(t.pairs.runs, removed, job, name, key);
      case _ =>
    }
  }

  lemma FinishTracks(t: Tables, op: Op, name: string, key: string)
    requires op.Finish? && IsRunning(t, op.job) && key != "" && name != ""
    requires Reserves(t.pairs.runs, op.job, name, key) && RespectsKey(t, op, op.job, name, key)
    ensures Tracked(Apply(t, op), op.job, name, key)
  {
    hide Seen, Reserves, StoredAll, WritesOf, Ended, NotedAll, RecordingsOf, IntentsAfter, Names, KeepsKey;
    if op.status == Running {
      var j := t.jobs[op.job];
      RespectedIs(j.kind, op.status, op.summary, name, key);
      NamesAreReports(j.kind, op.status, op.summary, key);
      StoresKeepOrName(t.pairs, op.job, j.startedAt, op.now, false, WritesOf(j.kind, op.status, op.summary), name, key);
    } else {
      FinishSees(t, op, name, key);
    }
  }

  lemma OthersFinish(t: Tables, op: Op, job: nat, name: string, key: string)
    requires op.Finish? && IsRunning(t, op.job) && op.job != job && Reserves(t.pairs.runs, job, name, key)
    ensures Reserves(PairsAfter(t, op).runs, job, name, key)
  {
    hide Reserves, StoredAll, WritesOf, EndedHistory, EndedRuns;
    var j := t.jobs[op.job];
    var ws := WritesOf(j.kind, op.status, op.summary);
    OthersStored(t.pairs, op.job, j.startedAt, op.now, op.status != Running, ws, job, name, key);
    if op.status != Running {
      var q := StoredAll(t.pairs, op.job, j.startedAt, op.now, true, ws);
      EndedKeepsOthers(q.runs, op.job, UnfinishedStatus(op.status), op.now, job, name, key);
    }
  }

  lemma SeenIsNotNew(p: Pairs, name: string, key: string, legacy: string)
    requires Seen(p.history, key)
    ensures Asked(p, name, key, legacy).verdict != New
  {
    hide Recorded, LastSuccess;
  }

  /** No transaction from i on overwrites the key of the attempt. */
  ghost predicate RunRespectsKey(ops: seq<Op>, i: nat, job: nat, name: string, key: string) {
    forall k :: i <= k < |ops| && After(ops[..k]).Some? ==> RespectsKey(After(ops[..k]).value, ops[k], job, name, key)
  }

  lemma RespectsBefore(ops: seq<Op>, i: nat, job: nat, name: string, key: string)
    requires i < |ops| && RunRespectsKey(ops, i, job, name, key) && After(ops).Some?
    ensures RunRespectsKey(ops[..|ops| - 1], i, job, name, key)
    ensures RespectsKey(After(ops[..|ops| - 1]).value, ops[|ops| - 1], job, name, key)
  {
    hide RespectsKey, Apply, Allowed;
    var before := ops[..|ops| - 1];
    forall k | i <= k < |before| && After(before[..k]).Some?
      ensures RespectsKey(After(before[..k]).value, before[k], job, name, key)
    {
      assert before[..k] == ops[..k];
    }
  }

  lemma {:induction false} RunTracks(ops: seq<Op>, i: nat, job: nat, name: string, key: string)
    requires i <= |ops| && After(ops).Some? && After(ops[..i]).Some? && key != "" && name != ""
    requires Tracked(After(ops[..i]).value, job, name, key) && RunRespectsKey(ops, i, job, name, key)
    ensures Tracked(After(ops).value, job, name, key)
  {
    if i == |ops| {
      assert ops[..i] == ops;
    } else {
      hide Tracked, Apply, Allowed, RespectsKey, KnownIds, RunRespectsKey;
      var before, op := ops[..|ops| - 1], ops[|ops| - 1];
      assert before[..i] == ops[..i];
      RespectsBefore(ops, i, job, name, key);
      RunTracks(before, i, job, name, key);
      RunKnownIds(before);
      StepTracks(After(before).value, op, job, name, key);
    }
  }

  /** Once the reserved attempt's job has ended, the key is never new again, so
      the automatic first-run resync is never granted, through all later starts,
      finishes, stale markings, deletions and pruning. */
  lemma EndedIsNeverNew(ops: seq<Op>, i: nat, job: nat, name: string, key: string, asked: string, legacy: string)
    requires i <= |ops| && After(ops).Some? && After(ops[..i]).Some? && key != "" && name != ""
    requires IsRunning(After(ops[..i]).value, job) && Reserves(After(ops[..i]).value.pairs.runs, job, name, key)
    requires RunRespectsKey(ops, i, job, name, key)
    requires !IsRunning(After(ops).value, job)
    ensures VerdictOf(After(ops).value, asked, key, legacy) != New
  {
    hide Seen, Reserves, Asked, RunRespectsKey, Apply, Allowed;
    RunTracks(ops, i, job, name, key);
    SeenIsNotNew(After(ops).value.pairs, asked, key, legacy);
  }

  // ---------- when the key is overwritten ----------

  const LOST_START := Start("backup", true, [Attempt("photos", "id:1", false, "manual")], "", "", None, None, "", 1.0)
  const LOST_SUMMARY := Summary([PairResult("photos", "id:2", false, false, false, false, false)], [], false, "", None, false)
  const LOST_FINISH := Finish(1, Failed, LOST_SUMMARY, 2.0)

  /** A reserved key is lost when the result names another one: the attempt has
      failed, and the verdict is "new" as if it had never been made. */
  lemma LostKey()
    ensures After([LOST_START, LOST_FINISH]).Some?
    ensures VerdictOf(After([LOST_START, LOST_FINISH]).value, "photos", "id:1", "name:photos") == New
  {
    var ops := [LOST_START, LOST_FINISH];
    assert ops[..1] == [LOST_START] && [LOST_START][..0] == [];
    assert After([]) == Some(EMPTY) && Allowed(EMPTY, LOST_START);
    var t := Apply(EMPTY, LOST_START);
    assert After([LOST_START]) == Some(t);
    assert After(ops) == Some(Apply(t, LOST_FINISH));
    LostReserved(t);
    LostFinished(t);
  }

  lemma LostReserved(t: Tables)
    requires t == Apply(EMPTY, LOST_START)
    ensures t.pairs.runs == [Run(1, "photos", "id:1", false, false, Running, 1.0, None)]
    ensures t.pairs.history == map["id:1" := Evidence("photos", false, false, 1.0, 1.0, None)]
    ensures IsRunning(t, 1) && t.jobs[1].kind == "backup" && t.jobs[1].startedAt == 1.0
  {
    var a := Attempt("photos", "id:1", false, "manual");
    assert [a][..0] == [];
    assert ReservedAll(EMPTY.pairs, 1, [a], 1.0) == Reserved(EMPTY.pairs, 1, a, 1.0);
  }

  lemma LostFinished(t: Tables)
    requires t.pairs.runs == [Run(1, "photos", "id:1", false, false, Running, 1.0, None)]
    requires t.pairs.history == map["id:1" := Evidence("photos", false, false, 1.0, 1.0, None)]
    requires IsRunning(t, 1) && t.jobs[1].kind == "backup" && t.jobs[1].startedAt == 1.0
    ensures VerdictOf(Apply(t, LOST_FINISH), "photos", "id:1", "name:photos") == New
  {
    hide NotedAll, RecordingsOf, JobsAfter, IntentsAfter;
    var w := Write("photos", "id:2", false, false, Failed);
    var ws := WritesOf("backup", Failed, LOST_SUMMARY);
    assert LOST_SUMMARY.pairs[..0] == [];
    assert ws == [w];
    var r := Run(1, "photos", "id:2", false, false, Failed, 1.0, Some(2.0));
    assert ws[..|ws| - 1] == [];
    assert StoredAll(t.pairs, 1, 1.0, 2.0, true, []) == t.pairs;
    var q := StoredAll(t.pairs, 1, 1.0, 2.0, true, ws);
    assert q == Stored(t.pairs, 1, 1.0, 2.0, true, w);
    assert q.runs == [r];
    var p := Ended(q, 1, Failed, 2.0);
    assert p.runs == [r];
    assert q.runs[..|q.runs| - 1] == [] && !Unfinished(r, 1);
    assert EndedHistory(q.history, [], 1, 2.0) == q.history;
    assert p.history == q.history;
    LostVerdict(p);
  }

  lemma LostVerdict(p: Pairs)
    requires p.runs == [Run(1, "photos", "id:2", false, false, Failed, 1.0, Some(2.0))]
    requires "id:1" in p.history && !p.history["id:1"].succeeded && !p.history["id:1"].terminal && "name:photos" !in p.history
    ensures Asked(p, "photos", "id:1", "name:photos").verdict == New
  {
    assert p.runs[..0] == [];
    assert LastSuccess(p.runs, {"id:1"}, "") == None;
    assert LastSuccess(p.runs, {"", "name:photos"}, "photos") == None;
  }
}
