/**
  What a job's summary says about its pairs, on its own fields, and that
  `_store_pair_results` writes exactly that.
*/
module SummaryReports {
  import opened JobTables

  /** Result i is about the pair under the key; a real success when one is asked for. */
  predicate IsResult(s: Summary, i: nat, name: string, key: string, genuine: bool) {
    && i < |s.pairs| && s.pairs[i].name == name && s.pairs[i].key == key
    && (genuine ==> s.pairs[i].ok && !s.pairs[i].dryRun && !s.dryRun)
  }

  /** The pair was due in a run that failed, went stale or was cancelled. */
  predicate IsDue(status: Status, s: Summary, i: nat, name: string, key: string) {
    status in {Failed, Stale, Cancelled} && i < |s.due| && s.due[i] == Due(name, key)
  }

  ghost predicate HasResult(s: Summary, n: nat, name: string, key: string, genuine: bool) {
    exists i: nat :: i < n && IsResult(s, i, name, key, genuine)
  }

  ghost predicate HasDue(status: Status, s: Summary, n: nat, name: string, key: string) {
    exists i: nat :: i < n && IsDue(status, s, i, name, key)
  }

  /** The summary reports the pair under the key. */
  ghost predicate Mentions(status: Status, s: Summary, name: string, key: string) {
    name != "" && (HasResult(s, |s.pairs|, name, key, false) || HasDue(status, s, |s.due|, name, key))
  }

  /** The summary reports a real success of the pair under the key. */
  ghost predicate ReportsFor(s: Summary, name: string, key: string) {
    name != "" && HasResult(s, |s.pairs|, name, key, true)
  }

  ghost predicate ReportsSuccess(s: Summary, key: string) {
    exists name :: ReportsFor(s, name, key)
  }

  lemma ReportsAre(s: Summary, key: string)
    ensures ReportsSuccess(s, key)
       <==> exists i :: 0 <= i < |s.pairs| && s.pairs[i].name != "" && s.pairs[i].key == key && s.pairs[i].ok && !s.pairs[i].dryRun && !s.dryRun
  {
    if i :| 0 <= i < |s.pairs| && s.pairs[i].name != "" && s.pairs[i].key == key && s.pairs[i].ok && !s.pairs[i].dryRun && !s.dryRun {
      assert IsResult(s, i, s.pairs[i].name, key, true);
      assert ReportsFor(s, s.pairs[i].name, key);
    }
  }

  // ---------- the writes ----------

  predicate IsWrite(w: Write, name: string, key: string, genuine: bool) {
    w.name == name && name != "" && w.key == key && (genuine ==> w.ok && !w.dryRun)
  }

  ghost predicate Writes(ws: seq<Write>, name: string, key: string, genuine: bool) {
    exists i :: 0 <= i < |ws| && IsWrite(ws[i], name, key, genuine)
  }

  lemma WritesMore(ws: seq<Write>, more: seq<Write>, name: string, key: string, genuine: bool)
    ensures Writes(ws + more, name, key, genuine) <==> Writes(ws, name, key, genuine) || Writes(more, name, key, genuine)
  {
    hide IsWrite;
    var all := ws + more;
    assert forall i :: 0 <= i < |ws| ==> all[i] == ws[i];
    assert forall i :: 0 <= i < |more| ==> all[|ws| + i] == more[i];
    if i :| 0 <= i < |all| && IsWrite(all[i], name, key, genuine) {
      assert if i < |ws| then all[i] == ws[i] else all[i] == more[i - |ws|];
    }
  }

  lemma WrittenOnce(ws: seq<Write>, name: string, key: string, genuine: bool)
    requires |ws| <= 1
    ensures Writes(ws, name, key, genuine) <==> ws != [] && IsWrite(ws[0], name, key, genuine)
  {
  }

  lemma ResultLast(s: Summary, n: nat, name: string, key: string, genuine: bool)
    requires n > 0
    ensures HasResult(s, n, name, key, genuine) <==> HasResult(s, n - 1, name, key, genuine) || IsResult(s, n - 1, name, key, genuine)
  {
    hide IsResult;
    if i: nat :| i < n && IsResult(s, i, name, key, genuine) { assert i == n - 1 || HasResult(s, n - 1, name, key, genuine); }
  }

  lemma DueLast(status: Status, s: Summary, n: nat, name: string, key: string)
    requires n > 0
    ensures HasDue(status, s, n, name, key) <==> HasDue(status, s, n - 1, name, key) || IsDue(status, s, n - 1, name, key)
  {
    hide IsDue;
    if i: nat :| i < n && IsDue(status, s, i, name, key) { assert i == n - 1 || HasDue(status, s, n - 1, name, key); }
  }

  lemma {:induction false} ResultsWrite(kind: string, status: Status, s: Summary, n: nat, name: string, key: string, genuine: bool)
    requires n <= |s.pairs|
    ensures Writes(ResultWrites(kind, status, s, s.pairs[..n]), name, key, genuine) <==> name != "" && HasResult(s, n, name, key, genuine)
  {
    if n > 0 {
      hide HasResult, PairStatus, IsWrite, Writes;
      ResultLast(s, n, name, key, genuine);
      assert s.pairs[..n][..n - 1] == s.pairs[..n - 1];
      ResultsWrite(kind, status, s, n - 1, name, key, genuine);
      var r := s.pairs[n - 1];
      var more := if r.name == "" then [] else [ResultWrite(kind, status, s, r)];
      WritesMore(ResultWrites(kind, status, s, s.pairs[..n - 1]), more, name, key, genuine);
      hide ResultWrites;
      ResultWritten(kind, status, s, n - 1, more, name, key, genuine);
    }
  }

  lemma ResultWritten(kind: string, status: Status, s: Summary, i: nat, more: seq<Write>, name: string, key: string, genuine: bool)
    requires i < |s.pairs| && more == if s.pairs[i].name == "" then [] else [ResultWrite(kind, status, s, s.pairs[i])]
    ensures Writes(more, name, key, genuine) <==> name != "" && IsResult(s, i, name, key, genuine)
  {
    hide PairStatus, Writes;
    WrittenOnce(more, name, key, genuine);
  }

  lemma {:induction false} DueWrite(status: Status, s: Summary, n: nat, name: string, key: string, genuine: bool)
    requires n <= |s.due| && status in {Failed, Stale, Cancelled}
    ensures Writes(DueWrites(status, s, s.due[..n]), name, key, genuine) <==> name != "" && !genuine && HasDue(status, s, n, name, key)
  {
    if n > 0 {
      hide HasDue, IsWrite, Writes;
      DueLast(status, s, n, name, key);
      assert s.due[..n][..n - 1] == s.due[..n - 1];
      DueWrite(status, s, n - 1, name, key, genuine);
      var d := s.due[n - 1];
      var more := if d.name == "" then [] else [Write(d.name, d.key, false, s.dryRun, status)];
      WritesMore(DueWrites(status, s, s.due[..n - 1]), more, name, key, genuine);
      hide DueWrites;
      DueWritten(status, s, n - 1, more, name, key, genuine);
    }
  }

  lemma DueWritten(status: Status, s: Summary, i: nat, more: seq<Write>, name: string, key: string, genuine: bool)
    requires i < |s.due| && status in {Failed, Stale, Cancelled}
    requires more == if s.due[i].name == "" then [] else [Write(s.due[i].name, s.due[i].key, false, s.dryRun, status)]
    ensures Writes(more, name, key, genuine) <==> name != "" && !genuine && IsDue(status, s, i, name, key)
  {
    hide Writes;
    WrittenOnce(more, name, key, genuine);
  }

  /** The writes of a finish name exactly what its summary reports. */
  lemma WritesAreReports(kind: string, status: Status, s: Summary, name: string, key: string)
    ensures Writes(WritesOf(kind, status, s), name, key, true) <==> ReportsFor(s, name, key)
    ensures Writes(WritesOf(kind, status, s), name, key, false) <==> Mentions(status, s, name, key)
  {
    hide Writes, ResultWrites, DueWrites, HasResult, HasDue;
    assert s.pairs[..|s.pairs|] == s.pairs && s.due[..|s.due|] == s.due;
    forall genuine: bool ensures Writes(WritesOf(kind, status, s), name, key, genuine)
                         <==> if genuine then ReportsFor(s, name, key) else Mentions(status, s, name, key) {
      ResultsWrite(kind, status, s, |s.pairs|, name, key, genuine);
      if status in {Failed, Stale, Cancelled} {
        DueWrite(status, s, |s.due|, name, key, genuine);
        WritesMore(ResultWrites(kind, status, s, s.pairs), DueWrites(status, s, s.due), name, key, genuine);
      } else {
        NoDue(status, s, name, key);
        assert ResultWrites(kind, status, s, s.pairs) + [] == ResultWrites(kind, status, s, s.pairs);
      }
    }
  }

  lemma NoDue(status: Status, s: Summary, name: string, key: string)
    requires status !in {Failed, Stale, Cancelled}
    ensures !HasDue(status, s, |s.due|, name, key)
  {
  }

  lemma {:induction false} ResultsNamed(kind: string, status: Status, s: Summary, pairs: seq<PairResult>)
    ensures forall w :: w in ResultWrites(kind, status, s, pairs) ==> w.name != ""
  {
    if pairs != [] { ResultsNamed(kind, status, s, pairs[..|pairs| - 1]); }
  }

  lemma {:induction false} DueNamed(status: Status, s: Summary, due: seq<Due>)
    ensures forall w :: w in DueWrites(status, s, due) ==> w.name != ""
  {
    if due != [] { DueNamed(status, s, due[..|due| - 1]); }
  }

  lemma WritesNamed(kind: string, status: Status, s: Summary)
    ensures forall i :: 0 <= i < |WritesOf(kind, status, s)| ==> WritesOf(kind, status, s)[i].name != ""
  {
    hide ResultWrites, DueWrites;
    ResultsNamed(kind, status, s, s.pairs);
    DueNamed(status, s, s.due);
    forall w | w in WritesOf(kind, status, s) ensures w.name != "" { }
  }
}
