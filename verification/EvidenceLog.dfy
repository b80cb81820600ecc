/**
  The upsert of `_record_pair_history_state` over any list of sightings: what the
  row of a key says is a summary of all of them, whatever their order.
*/
module EvidenceLog {
  import opened Results
  import opened JobTables

  /** One call of the upsert. */
  datatype Sighting = Sighting(key: string, name: string, at: Time, succeeded: bool, terminal: bool, successAt: Time)

  function RecordedAll(h: map<string, Evidence>, log: seq<Sighting>): map<string, Evidence> {
    if log == [] then h
    else
      var s := log[|log| - 1];
      Recorded(RecordedAll(h, log[..|log| - 1]), s.key, s.name, s.at, s.succeeded, s.terminal, s.successAt)
  }

  /** A sighting the upsert does not ignore. */
  predicate Counts(s: Sighting, key: string) {
    s.key == key && key != "" && s.name != ""
  }

  function SuccessTime(s: Sighting): Time {
    if s.successAt == 0.0 then s.at else s.successAt
  }

  ghost predicate Saw(log: seq<Sighting>, key: string, i: int) {
    0 <= i < |log| && Counts(log[i], key)
  }

  /** The row summarizes the sightings of the key. */
  ghost predicate Summarizes(e: Evidence, log: seq<Sighting>, key: string) {
    && (e.succeeded <==> exists i :: Saw(log, key, i) && log[i].succeeded)
    && (e.terminal <==> exists i :: Saw(log, key, i) && log[i].terminal)
    // the first and the last time it was seen
    && (exists i :: Saw(log, key, i) && log[i].at == e.firstSeen)
    && (forall i :: Saw(log, key, i) ==> e.firstSeen <= log[i].at <= e.lastSeen)
    // under the name it was seen with last
    && (exists i :: Saw(log, key, i) && log[i].at == e.lastSeen && log[i].name == e.name
                    && forall j :: i < j && Saw(log, key, j) ==> log[j].at < log[i].at)
    // and the latest success
    && (e.lastSuccess.Some? <==> e.succeeded)
    && (forall i :: Saw(log, key, i) && log[i].succeeded ==> e.lastSuccess.Some? && SuccessTime(log[i]) <= e.lastSuccess.value)
    && (e.lastSuccess.Some? ==> exists i :: Saw(log, key, i) && log[i].succeeded && SuccessTime(log[i]) == e.lastSuccess.value)
  }

  lemma SawMore(log: seq<Sighting>, s: Sighting, key: string)
    ensures forall i :: Saw(log + [s], key, i) <==> Saw(log, key, i) || (i == |log| && Counts(s, key))
    ensures forall i :: 0 <= i < |log| ==> (log + [s])[i] == log[i]
  {
  }

  lemma SummaryStays(e: Evidence, log: seq<Sighting>, s: Sighting, key: string)
    requires Summarizes(e, log, key) && !Counts(s, key)
    ensures Summarizes(e, log + [s], key)
  {
    SawMore(log, s, key);
    hide Counts;
    var more := log + [s];
    assert forall i :: Saw(more, key, i) <==> Saw(log, key, i);
    assert forall i :: Saw(log, key, i) ==> i < |log| && more[i] == log[i];
  }

  function AsEvidence(s: Sighting): Evidence {
    Evidence(s.name, s.succeeded, s.terminal, s.at, s.at, if s.succeeded then Some(SuccessTime(s)) else None)
  }

  lemma FirstSummary(log: seq<Sighting>, s: Sighting, key: string)
    requires Counts(s, key) && forall i :: !Saw(log, key, i)
    ensures Summarizes(AsEvidence(s), log + [s], key)
  {
    SawMore(log, s, key);
    assert Saw(log + [s], key, |log|) && (log + [s])[|log|] == s;
  }

  lemma FlagsMerged(e: Evidence, log: seq<Sighting>, s: Sighting, key: string)
    requires Summarizes(e, log, key) && Counts(s, key)
    ensures var m, more := Merged(e, AsEvidence(s)), log + [s];
            && (m.succeeded <==> exists i :: Saw(more, key, i) && more[i].succeeded)
            && (m.terminal <==> exists i :: Saw(more, key, i) && more[i].terminal)
            && (exists i :: Saw(more, key, i) && more[i].at == m.firstSeen)
            && (forall i :: Saw(more, key, i) ==> m.firstSeen <= more[i].at <= m.lastSeen)
  {
    SawMore(log, s, key);
    var more := log + [s];
    hide Counts, Latest;
    assert Saw(more, key, |log|) && more[|log|] == s;
    var i :| Saw(log, key, i) && log[i].at == e.firstSeen;
    assert Saw(more, key, i) && more[i].at == e.firstSeen;
    forall i | Saw(log, key, i) ensures Saw(more, key, i) && more[i] == log[i] { }
  }

  lemma NameMerged(e: Evidence, log: seq<Sighting>, s: Sighting, key: string)
    requires Summarizes(e, log, key) && Counts(s, key)
    ensures var m, more := Merged(e, AsEvidence(s)), log + [s];
            exists i :: Saw(more, key, i) && more[i].at == m.lastSeen && more[i].name == m.name
                        && forall j :: i < j && Saw(more, key, j) ==> more[j].at < more[i].at
  {
    SawMore(log, s, key);
    var more := log + [s];
    hide Counts, Latest;
    assert Saw(more, key, |log|) && more[|log|] == s;
    if s.at >= e.lastSeen {
      assert forall j :: |log| < j ==> !Saw(more, key, j);
    } else {
      var i :| Saw(log, key, i) && log[i].at == e.lastSeen && log[i].name == e.name
               && forall j :: i < j && Saw(log, key, j) ==> log[j].at < log[i].at;
      assert Saw(more, key, i) && more[i] == log[i];
    }
  }

  lemma SuccessMerged(e: Evidence, log: seq<Sighting>, s: Sighting, key: string)
    requires Summarizes(e, log, key) && Counts(s, key)
    ensures var m, more := Merged(e, AsEvidence(s)), log + [s];
            && (m.lastSuccess.Some? <==> m.succeeded)
            && (forall i :: Saw(more, key, i) && more[i].succeeded ==> m.lastSuccess.Some? && SuccessTime(more[i]) <= m.lastSuccess.value)
            && (m.lastSuccess.Some? ==> exists i :: Saw(more, key, i) && more[i].succeeded && SuccessTime(more[i]) == m.lastSuccess.value)
  {
    SawMore(log, s, key);
    var more, m := log + [s], Merged(e, AsEvidence(s));
    hide Counts, SuccessTime;
    assert Saw(more, key, |log|) && more[|log|] == s;
    if e.lastSuccess.Some? {
      var i :| Saw(log, key, i) && log[i].succeeded && SuccessTime(log[i]) == e.lastSuccess.value;
      assert Saw(more, key, i) && more[i] == log[i];
    }
  }

  /** After any sightings of a key its row summarizes exactly those with a name: seen first and
      last, ever succeeded, ever ended, the latest success, and the name it had last. */
  lemma {:induction false} EvidenceSummarizes(log: seq<Sighting>, key: string)
    ensures key in RecordedAll(map[], log) <==> exists i :: Saw(log, key, i)
    ensures key in RecordedAll(map[], log) ==> Summarizes(RecordedAll(map[], log)[key], log, key)
  {
    if log != [] {
      var before, s := log[..|log| - 1], log[|log| - 1];
      EvidenceSummarizes(before, key);
      assert log == before + [s];
      SawMore(before, s, key);
      OneMore(RecordedAll(map[], before), s, key);
      hide Recorded, Summarizes;
      var h := RecordedAll(map[], before);
      if !Counts(s, key) {
        if key in h { SummaryStays(h[key], before, s, key); }
      } else if key in h {
        MergedSummary(h[key], before, s, key);
      } else {
        FirstSummary(before, s, key);
      }
      assert Counts(s, key) ==> Saw(log, key, |before|);
    }
  }

  lemma MergedSummary(e: Evidence, log: seq<Sighting>, s: Sighting, key: string)
    requires Summarizes(e, log, key) && Counts(s, key)
    ensures Summarizes(Merged(e, AsEvidence(s)), log + [s], key)
  {
    hide Merged, Counts;
    FlagsMerged(e, log, s, key);
    NameMerged(e, log, s, key);
    SuccessMerged(e, log, s, key);
  }

  lemma OneMore(h: map<string, Evidence>, s: Sighting, key: string)
    ensures var more := Recorded(h, s.key, s.name, s.at, s.succeeded, s.terminal, s.successAt);
            && (Counts(s, key) ==> key in more && more[key] == if key in h then Merged(h[key], AsEvidence(s)) else AsEvidence(s))
            && (!Counts(s, key) ==> (key in more <==> key in h) && (key in h ==> more[key] == h[key]))
  {
  }
}
