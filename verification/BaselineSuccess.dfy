/**
  Where the verdict "succeeded" of `pair_baseline_state` comes from, in the
  summaries themselves: a key is proven exactly by a finish that reports a real
  success under it, and by the older evidence a question has carried over.
*/
module BaselineSuccess {
  import opened Results
  import opened JobTables
  import opened SummaryReports
  import opened BaselineEvidence

  // ---------- successful attempts come from reports ----------

  ghost predicate Sourced(runs: seq<Run>, name: string, key: string) {
    exists i :: 0 <= i < |runs| && RealSuccess(runs[i]) && runs[i].name == name && runs[i].key == key
  }

  lemma SourcedHead(runs: seq<Run>, name: string, key: string)
    requires runs != []
    ensures Sourced(runs, name, key)
       <==> (RealSuccess(runs[0]) && runs[0].name == name && runs[0].key == key) || Sourced(runs[1..], name, key)
  {
    assert forall i :: 0 < i < |runs| ==> runs[i] == runs[1..][i - 1];
  }

  lemma {:induction false} UpsertedSource(runs: seq<Run>, r: Run, name: string, key: string)
    requires Sourced(Upserted(runs, r), name, key)
    ensures Sourced(runs, name, key) || (RealSuccess(r) && r.name == name && r.key == key)
  {
    if runs != [] {
      hide Sourced;
      var up := Upserted(runs, r);
      SourcedHead(runs, name, key);
      SourcedHead(up, name, key);
      if Holds(runs[0], r.job, r.name) {
        assert up[1..] == runs[1..];
      } else {
        assert up[1..] == Upserted(runs[1..], r);
        if Sourced(up[1..], name, key) { UpsertedSource(runs[1..], r, name, key); }
      }
    }
  }

  lemma {:induction false} StoredSource(p: Pairs, job: nat, started: Time, now: Time, terminal: bool, ws: seq<Write>, name: string, key: string)
    requires Sourced(StoredAll(p, job, started, now, terminal, ws).runs, name, key) && forall i :: 0 <= i < |ws| ==> ws[i].name != ""
    ensures Sourced(p.runs, name, key) || Writes(ws, name, key, true)
  {
    if ws != [] {
      hide Sourced, Writes, Recorded, Upserted;
      var before, w := ws[..|ws| - 1], ws[|ws| - 1];
      UpsertedSource(StoredAll(p, job, started, now, terminal, before).runs,
                     Run(job, w.name, w.key, w.ok, w.dryRun, w.status, started, Some(now)), name, key);
      assert ws == before + [w];
      WritesMore(before, [w], name, key, true);
      WrittenOnce([w], name, key, true);
      if !Writes([w], name, key, true) { StoredSource(p, job, started, now, terminal, before, name, key); }
    }
  }

  lemma EndedSource(runs: seq<Run>, job: nat, status: Status, now: Time, name: string, key: string)
    requires Sourced(EndedRuns(runs, job, status, now), name, key)
    ensures Sourced(runs, name, key)
  {
    var ended := EndedRuns(runs, job, status, now);
    var i :| 0 <= i < |ended| && RealSuccess(ended[i]) && ended[i].name == name && ended[i].key == key;
    assert ended[i] == runs[i];
  }

  lemma {:induction false} EndedAllSource(p: Pairs, ids: seq<nat>, now: Time, name: string, key: string)
    requires Sourced(EndedAll(p, ids, now).runs, name, key)
    ensures Sourced(p.runs, name, key)
  {
    if ids != [] {
      hide Sourced, EndedRuns, EndedHistory;
      EndedSource(EndedAll(p, ids[..|ids| - 1], now).runs, ids[|ids| - 1], Stale, now, name, key);
      EndedAllSource(p, ids[..|ids| - 1], now, name, key);
    }
  }

  lemma {:induction false} ReservedSource(p: Pairs, job: nat, attempts: seq<Attempt>, now: Time, name: string, key: string)
    requires Sourced(ReservedAll(p, job, attempts, now).runs, name, key)
    ensures Sourced(p.runs, name, key)
  {
    if attempts != [] {
      hide Recorded, HasRun;
      var before := attempts[..|attempts| - 1];
      var q, runs := ReservedAll(p, job, before, now), ReservedAll(p, job, attempts, now).runs;
      var i :| 0 <= i < |runs| && RealSuccess(runs[i]) && runs[i].name == name && runs[i].key == key;
      assert i < |q.runs| && runs[i] == q.runs[i];
      ReservedSource(p, job, before, now, name, key);
    }
  }

  lemma {:induction false} KeptSource(runs: seq<Run>, removed: set<nat>, name: string, key: string)
    requires Sourced(KeptRuns(runs, removed), name, key)
    ensures Sourced(runs, name, key)
  {
    if runs != [] {
      hide Sourced;
      var kept := KeptRuns(runs, removed);
      SourcedHead(runs, name, key);
      if runs[0].job in removed {
        assert kept == KeptRuns(runs[1..], removed);
        KeptSource(runs[1..], removed, name, key);
      } else {
        SourcedHead(kept, name, key);
        assert kept[1..] == KeptRuns(runs[1..], removed);
        if Sourced(kept[1..], name, key) { KeptSource(runs[1..], removed, name, key); }
      }
    }
  }

  /** The transaction finishes a running job and reports a real success of the pair under the key. */
  ghost predicate ReportedBy(t: Tables, op: Op, name: string, key: string) {
    op.Finish? && IsRunning(t, op.job) && ReportsFor(op.summary, name, key)
  }

  lemma FinishSource(t: Tables, op: Op, name: string, key: string)
    requires op.Finish? && IsRunning(t, op.job) && Sourced(PairsAfter(t, op).runs, name, key)
    ensures Sourced(t.pairs.runs, name, key) || ReportsFor(op.summary, name, key)
  {
    hide Sourced, StoredAll, WritesOf, EndedRuns, EndedHistory, ReportsFor, Writes;
    var j := t.jobs[op.job];
    var ws := WritesOf(j.kind, op.status, op.summary);
    var q := StoredAll(t.pairs, op.job, j.startedAt, op.now, op.status != Running, ws);
    if op.status != Running { EndedSource(q.runs, op.job, UnfinishedStatus(op.status), op.now, name, key); }
    WritesNamed(j.kind, op.status, op.summary);
    StoredSource(t.pairs, op.job, j.startedAt, op.now, op.status != Running, ws, name, key);
    WritesAreReports(j.kind, op.status, op.summary, name, key);
  }

  lemma StepSource(t: Tables, op: Op, name: string, key: string)
    requires Sourced(PairsAfter(t, op).runs, name, key)
    ensures Sourced(t.pairs.runs, name, key) || ReportedBy(t, op, name, key)
  {
    hide Sourced, ReservedAll, EndedAll, KeptRuns, FinishedPairs, Asked, ReportsFor;
    match op
    case Start(_, _, attempts, _, _, _, _, _, now) => ReservedSource(t.pairs, t.nextId, attempts, now, name, key);
    case Finish(id, status, s, now) => if IsRunning(t, id) { FinishSource(t, op, name, key); }
    case MarkStale(ids, now) => EndedAllSource(t.pairs, ids, now, name, key);
    case Delete(removed) => KeptSource(t.pairs.runs, removed, name, key);
    case _ =>
  }

  /** Some transaction of the run reported a real success of the pair under the key. */
  ghost predicate Reported(ops: seq<Op>, name: string, key: string) {
    ops != [] && (Reported(ops[..|ops| - 1], name, key)
                  || (After(ops[..|ops| - 1]).Some? && ReportedBy(After(ops[..|ops| - 1]).value, ops[|ops| - 1], name, key)))
  }

  ghost predicate ReportedKey(ops: seq<Op>, key: string) {
    exists name :: Reported(ops, name, key)
  }

  /** Every successful attempt in the table was reported in the run. */
  lemma {:induction false} RunSourced(ops: seq<Op>, name: string, key: string)
    requires After(ops).Some? && Sourced(After(ops).value.pairs.runs, name, key)
    ensures Reported(ops, name, key)
  {
    if ops != [] {
      hide Sourced, ReportedBy, PairsAfter, JobsAfter, IntentsAfter, NotedAll, RecordingsOf, Allowed;
      var before := ops[..|ops| - 1];
      StepSource(After(before).value, ops[|ops| - 1], name, key);
      if Sourced(After(before).value.pairs.runs, name, key) { RunSourced(before, name, key); }
    }
  }

  // ---------- the verdict, field by field ----------

  lemma {:induction false} LastSuccessIsLatest(runs: seq<Run>, keys: set<string>, name: string)
    ensures LastSuccess(runs, keys, name).Some?
       <==> exists i :: 0 <= i < |runs| && RealSuccess(runs[i]) && runs[i].key in keys && (name == "" || runs[i].name == name)
    ensures LastSuccess(runs, keys, name).Some? ==>
              var r := LastSuccess(runs, keys, name).value;
              && r in runs && RealSuccess(r) && r.key in keys && (name == "" || r.name == name)
              && forall i :: 0 <= i < |runs| && RealSuccess(runs[i]) && runs[i].key in keys && (name == "" || runs[i].name == name) ==>
                   EndTime(runs[i]) <= EndTime(r) == if r.endedAt.Some? then r.endedAt.value else r.startedAt
  {
    if runs != [] {
      var before := runs[..|runs| - 1];
      LastSuccessIsLatest(before, keys, name);
      assert runs == before + [runs[|runs| - 1]];
    }
  }

  /** A real success recorded among the attempts, under the key and any name. */
  ghost predicate SourcedKey(runs: seq<Run>, key: string) {
    exists name :: Sourced(runs, name, key)
  }

  /** What older, name-based history says for a pair that has a stable key now. */
  ghost predicate Inherits(p: Pairs, name: string, key: string, legacy: string) {
    key != legacy && (|| (Proven(p.history, legacy) && p.history[legacy].name == name)
                      || Sourced(p.runs, name, "") || Sourced(p.runs, name, legacy))
  }

  lemma LastSuccessSourced(runs: seq<Run>, name: string, key: string, legacy: string)
    ensures LastSuccess(runs, {key}, "").Some? <==> SourcedKey(runs, key)
    ensures name != "" ==> (LastSuccess(runs, {"", legacy}, name).Some? <==> Sourced(runs, name, "") || Sourced(runs, name, legacy))
  {
    LastSuccessIsLatest(runs, {key}, "");
    LastSuccessIsLatest(runs, {"", legacy}, name);
    hide LastSuccess;
    if i :| 0 <= i < |runs| && RealSuccess(runs[i]) && runs[i].key in {key} {
      assert Sourced(runs, runs[i].name, key);
    }
    if SourcedKey(runs, key) {
      var n :| Sourced(runs, n, key);
      var i :| 0 <= i < |runs| && RealSuccess(runs[i]) && runs[i].name == n && runs[i].key == key;
    }
  }

  /** The three verdicts: "succeeded" exactly with a success under the key or an older one of
      the name, otherwise "new" exactly when no attempt of the key is known to have ended. */
  lemma VerdictExactly(p: Pairs, name: string, key: string, legacy: string)
    ensures var verdict := Asked(p, name, key, legacy).verdict;
            && (verdict == Succeeded
                <==> name != "" && key != "" && (Proven(p.history, key) || SourcedKey(p.runs, key) || Inherits(p, name, key, legacy)))
            && (verdict == New
                <==> && verdict != Succeeded && name != "" && key != "" && !Seen(p.history, key)
                     && (forall i :: 0 <= i < |p.runs| && p.runs[i].key == key ==> p.runs[i].status == Running && p.runs[i].endedAt.None?)
                     && !(key != legacy && Seen(p.history, legacy) && p.history[legacy].name == name))
  {
    hide LastSuccess, Recorded, Sourced, SourcedKey;
    LastSuccessSourced(p.runs, name, key, legacy);
  }

  /** A question proves at most the key it asks about, and only with the answer "succeeded";
      then the key keeps that answer. */
  lemma AskedProves(p: Pairs, name: string, key: string, legacy: string, k: string)
    ensures Proven(Asked(p, name, key, legacy).history, k)
       <==> Proven(p.history, k) || (k == key && Asked(p, name, key, legacy).verdict == Succeeded)
  {
    hide LastSuccess, Proven, Recorded, Legacy;
    AskedGrows(p, name, key, legacy);
    GrowsAt(p.history, Asked(p, name, key, legacy).history, k);
    var h := p.history;
    assert Proven(h, key) <==> key in h && h[key].succeeded by { ProvenIs(h, key); }
    var own, older := LastSuccess(p.runs, {key}, ""), LastSuccess(p.runs, {"", legacy}, name);
    if own.Some? {
      var at := EndTime(own.value);
      RecordedGrows(h, key, if own.value.name == "" then name else own.value.name, at, true, true, at);
    }
    if Legacy(h, name, key, legacy) && legacy in h {
      var l := h[legacy];
      RecordedGrows(h, key, name, l.lastSeen, true, l.terminal,
                    if l.lastSuccess.Some? && l.lastSuccess.value != 0.0 then l.lastSuccess.value else l.lastSeen);
    }
    if older.Some? {
      var at := EndTime(older.value);
      RecordedGrows(h, key, name, at, true, true, at);
    }
    LegacyIn(h, name, key, legacy);
  }

  lemma ProvenIs(h: map<string, Evidence>, key: string)
    ensures Proven(h, key) <==> key in h && h[key].succeeded
  {
  }

  lemma LegacyIn(h: map<string, Evidence>, name: string, key: string, legacy: string)
    ensures Legacy(h, name, key, legacy) ==> legacy in h
  {
  }

  // ---------- the verdict over whole runs ----------

  /** A real success was reported for the key, or the older keys a question about it carried
      over were backed themselves. */
  ghost predicate Backed(ops: seq<Op>, key: string)
    decreases |ops|, 1
  {
    ReportedKey(ops, key) || (ops != [] && (Backed(ops[..|ops| - 1], key) || CarriedOver(ops, key)))
  }

  /** The last transaction asked about the key, naming older history that is backed. */
  ghost predicate CarriedOver(ops: seq<Op>, key: string)
    requires ops != []
    decreases |ops|, 0
  {
    var before, op := ops[..|ops| - 1], ops[|ops| - 1];
    op.Ask? && op.key == key && op.key != op.legacy
    && (Backed(before, op.legacy) || Reported(before, op.name, "") || Reported(before, op.name, op.legacy))
  }

  lemma StepProven(t: Tables, op: Op, key: string)
    ensures Proven(PairsAfter(t, op).history, key)
       <==> || Proven(t.pairs.history, key)
            || (op.Finish? && IsRunning(t, op.job) && key != "" && ReportsSuccess(op.summary, key))
            || (op.Ask? && op.key == key && Asked(t.pairs, op.name, op.key, op.legacy).verdict == Succeeded)
  {
    hide Proven, ReservedAll, EndedAll, KeptRuns, FinishedPairs, Asked, Grows, ReportsSuccess;
    match op
    case Start(_, _, attempts, _, _, _, _, _, now) =>
      ReservedGrows(t.pairs, t.nextId, attempts, now);
      GrowsAt(t.pairs.history, PairsAfter(t, op).history, key);
    case Finish(id, status, s, now) =>
      if IsRunning(t, id) {
        ProvenExactly(t, op, key);
        ReportsAre(s, key);
      }
    case MarkStale(ids, now) => EndedAllGrows(t.pairs, ids, now, key);
    case Ask(name, k, legacy) => AskedProves(t.pairs, name, k, legacy, key);
    case _ =>
  }

  lemma ReportedKeyNow(ops: seq<Op>, key: string)
    requires ops != [] && After(ops[..|ops| - 1]).Some?
    requires var t, op := After(ops[..|ops| - 1]).value, ops[|ops| - 1]; op.Finish? && IsRunning(t, op.job) && ReportsSuccess(op.summary, key)
    ensures ReportedKey(ops, key)
  {
    hide After, ReportsFor;
    var name :| ReportsFor(ops[|ops| - 1].summary, name, key);
    assert Reported(ops, name, key);
  }

  lemma SourcedIsReported(ops: seq<Op>, key: string)
    requires After(ops).Some? && SourcedKey(After(ops).value.pairs.runs, key)
    ensures ReportedKey(ops, key)
  {
    hide After, Sourced;
    var name :| Sourced(After(ops).value.pairs.runs, name, key);
    RunSourced(ops, name, key);
  }

  /** What a proven key goes back to. */
  lemma {:induction false} ProvenIsBacked(ops: seq<Op>, key: string)
    requires After(ops).Some? && Proven(After(ops).value.pairs.history, key)
    ensures Backed(ops, key)
    decreases |ops|, 0
  {
    hide Proven, PairsAfter, JobsAfter, IntentsAfter, NotedAll, RecordingsOf, Allowed, Asked, ReportedKey, ReportsSuccess;
    assert ops != [] by { NothingProven(key); }
    var before, op := ops[..|ops| - 1], ops[|ops| - 1];
    var t := After(before).value;
    StepProven(t, op, key);
    if Proven(t.pairs.history, key) {
      ProvenIsBacked(before, key);
    } else if op.Finish? {
      ReportedKeyNow(ops, key);
    } else {
      SucceededIsBacked(before, op.name, op.key, op.legacy);
      BackedSoon(ops, key);
    }
  }

  lemma NothingProven(key: string)
    ensures !Proven(After([]).value.pairs.history, key)
  {
  }

  ghost predicate BackedFor(ops: seq<Op>, name: string, key: string, legacy: string) {
    Backed(ops, key) || (key != legacy && (Backed(ops, legacy) || Reported(ops, name, "") || Reported(ops, name, legacy)))
  }

  lemma BackedSoon(ops: seq<Op>, key: string)
    requires ops != [] && ops[|ops| - 1].Ask? && ops[|ops| - 1].key == key
    requires BackedFor(ops[..|ops| - 1], ops[|ops| - 1].name, key, ops[|ops| - 1].legacy)
    ensures Backed(ops, key)
  {
  }

  /** The answer is "succeeded" only if a real success was reported for the key, or for the
      older, name-based keys that this question or an earlier one carries over. */
  lemma {:induction false} SucceededIsBacked(ops: seq<Op>, name: string, key: string, legacy: string)
    requires After(ops).Some? && VerdictOf(After(ops).value, name, key, legacy) == Succeeded
    ensures Backed(ops, key) || (key != legacy && (Backed(ops, legacy) || Reported(ops, name, "") || Reported(ops, name, legacy)))
    decreases |ops|, 1
  {
    hide After, Asked, Proven, Sourced, SourcedKey, Backed, ReportedKey;
    var p := After(ops).value.pairs;
    VerdictExactly(p, name, key, legacy);
    if Proven(p.history, key) {
      ProvenIsBacked(ops, key);
    } else if SourcedKey(p.runs, key) {
      SourcedIsReported(ops, key);
      ReportedIsBacked(ops, key);
    } else if Proven(p.history, legacy) {
      ProvenIsBacked(ops, legacy);
    } else if Sourced(p.runs, name, "") {
      RunSourced(ops, name, "");
    } else if Sourced(p.runs, name, legacy) {
      RunSourced(ops, name, legacy);
    }
  }

  lemma ReportedIsBacked(ops: seq<Op>, key: string)
    requires ReportedKey(ops, key)
    ensures Backed(ops, key)
  {
  }
}
