/**
  The anomaly guard (app/protection.py): baselines, quarantines and their
  acknowledgement.  Each update of the stored state is one transaction, so a run
  is a sequence of updates; a preflight reads, measures and then updates, and
  other updates may come in between.

  The state key of a pair, its resolved endpoints and the measurements are given
  with the pair.
*/
module Quarantine {
  import opened Results
  import PairPlanner
  import Text

  const MAX_BASELINES := 256

  /** `destructive`: a sync or bisync pair. */
  datatype Guarded = Guarded(key: string, endpoints: PairPlanner.Pair, destructive: bool)

  datatype Measurement = Failed | Measured(count: nat, bytes: nat, at: real)

  datatype Baseline = Baseline(count: nat, bytes: nat, measuredAt: real)

  datatype Settings = Settings(enabled: bool, fileDrop: real, sizeDrop: real, minimum: int)

  /** Records from before endpoints were stored have none. */
  datatype Quarantine = Quarantine(endpoints: Option<PairPlanner.Pair>)

  /** The baselines in the order of the stored object. */
  datatype State = State(baselines: seq<(string, Baseline)>, quarantines: map<string, Quarantine>)

  const EMPTY := State([], map[])

  // ---------- the anomaly ----------

  function LimitOf(percent: real): real {
    if percent == 0.0 then 35.0 else percent
  }

  function MinimumOf(files: int): int {
    if files == 0 then 100 else if files < 1 then 1 else files
  }

  function Drop(before: nat, now: nat): real {
    100.0 * (if before > now then before - now else 0) as real / (if before < 1 then 1 else before) as real
  }

  /** `evaluate_anomaly`: is the pair blocked? */
  predicate Anomalous(baseline: Option<Baseline>, m: Measurement, s: Settings) {
    && m.Measured? && baseline.Some? && baseline.value.count >= MinimumOf(s.minimum)
    && (Drop(baseline.value.count, m.count) >= LimitOf(s.fileDrop) || Drop(baseline.value.bytes, m.bytes) >= LimitOf(s.sizeDrop))
  }

  lemma DropMonotone(before: nat, now: nat, less: nat)
    requires less <= now
    ensures Drop(before, less) >= Drop(before, now) >= 0.0
    ensures Drop(before, now) <= 100.0
  {
    var d := (if before < 1 then 1 else before) as real;
    var a, b := (if before > less then before - less else 0) as real, (if before > now then before - now else 0) as real;
    Divides(100.0 * a, 100.0 * b, d);
    Divides(100.0 * b, 0.0, d);
    Divides(100.0 * d, 100.0 * b, d);
    assert 100.0 * d / d == 100.0;
  }

  lemma Divides(a: real, b: real, d: real)
    requires a >= b && d > 0.0
    ensures a / d >= b / d
  {
  }

  /** Losing more never unblocks: what is blocked stays blocked for fewer files and bytes. */
  lemma LosingMoreStaysBlocked(baseline: Option<Baseline>, m: Measurement, worse: Measurement, s: Settings)
    requires Anomalous(baseline, m, s) && worse.Measured? && worse.count <= m.count && worse.bytes <= m.bytes
    ensures Anomalous(baseline, worse, s)
  {
    hide Drop;
    DropMonotone(baseline.value.count, m.count, worse.count);
    DropMonotone(baseline.value.bytes, m.bytes, worse.bytes);
  }

  /** An emptied source with a large enough baseline is blocked for every limit up to 100 percent. */
  lemma EmptiedIsBlocked(baseline: Baseline, s: Settings, at: real)
    requires baseline.count >= MinimumOf(s.minimum) && s.fileDrop <= 100.0
    ensures Anomalous(Some(baseline), Measured(0, 0, at), s)
  {
    assert baseline.count >= 1;
    assert 100.0 * baseline.count as real / baseline.count as real == 100.0;
  }

  /** The guard blocks exactly a measured pair whose baseline has at least the minimum of files,
      100 when none is set, and that has lost at least the limit of its files or of its bytes,
      35 percent when none is set. */
  lemma AnomalyExactly(b: Baseline, m: Measurement, s: Settings)
    requires m.Measured?
    ensures Anomalous(Some(b), m, s)
       <==> && b.count >= (if s.minimum == 0 then 100 else 1) && b.count >= s.minimum
            && (LostAtLeast(b.count, m.count, s.fileDrop) || LostAtLeast(b.bytes, m.bytes, s.sizeDrop))
  {
    DropIsLoss(b.count, m.count, s.fileDrop);
    DropIsLoss(b.bytes, m.bytes, s.sizeDrop);
  }

  /** So many percent of what there was are gone; nothing at all counts as one. */
  predicate LostAtLeast(before: nat, now: nat, percent: real) {
    var limit := if percent == 0.0 then 35.0 else percent;
    if now >= before then limit <= 0.0 else 100.0 * (before - now) as real >= limit * before as real
  }

  lemma DropIsLoss(before: nat, now: nat, percent: real)
    ensures Drop(before, now) >= LimitOf(percent) <==> LostAtLeast(before, now, percent)
  {
    var d := (if before < 1 then 1 else before) as real;
    var lost := (if before > now then before - now else 0) as real;
    QuotientAtLeast(100.0 * lost, d, LimitOf(percent));
    if now >= before { assert lost == 0.0; SignOfProduct(LimitOf(percent), d); }
  }

  lemma SignOfProduct(x: real, d: real)
    requires d > 0.0
    ensures 0.0 >= x * d <==> x <= 0.0
  {
    if x > 0.0 { assert x * d > 0.0; }
    if x <= 0.0 { assert x * d <= 0.0; }
  }

  lemma QuotientAtLeast(a: real, d: real, x: real)
    requires d > 0.0
    ensures a / d >= x <==> a >= x * d
  {
    var q := a / d;
    assert q * d == a;
    if q >= x { assert (q - x) * d >= 0.0; }
    if q < x { assert (x - q) * d > 0.0; }
  }

  // ---------- baselines ----------

  function Lookup(items: seq<(string, Baseline)>, key: string): Option<Baseline> {
    if items == [] then None else if items[0].0 == key then Some(items[0].1) else Lookup(items[1..], key)
  }

  /** Assignment to a key: in its place, or at the end. */
  function Put(items: seq<(string, Baseline)>, key: string, b: Baseline): seq<(string, Baseline)> {
    if items == [] then [(key, b)]
    else if items[0].0 == key then [(key, b)] + items[1..]
    else [items[0]] + Put(items[1..], key, b)
  }

  /** Before the first strictly older one. */
  function Insert(sorted: seq<(string, Baseline)>, item: (string, Baseline)): (r: seq<(string, Baseline)>)
    ensures |r| == |sorted| + 1
  {
    if sorted == [] then [item]
    else if sorted[0].1.measuredAt < item.1.measuredAt then [item] + sorted
    else [sorted[0]] + Insert(sorted[1..], item)
  }

  /** Stable, newest first. */
  function NewestFirst(items: seq<(string, Baseline)>): (r: seq<(string, Baseline)>)
    ensures |r| == |items|
  {
    if items == [] then [] else Insert(NewestFirst(items[..|items| - 1]), items[|items| - 1])
  }

  function Bounded(items: seq<(string, Baseline)>): seq<(string, Baseline)> {
    if |items| > MAX_BASELINES then NewestFirst(items)[..MAX_BASELINES] else items
  }

  ghost predicate Descending(items: seq<(string, Baseline)>) {
    forall i, j :: 0 <= i < j < |items| ==> items[i].1.measuredAt >= items[j].1.measuredAt
  }

  lemma {:induction false} InsertHolds(sorted: seq<(string, Baseline)>, item: (string, Baseline))
    ensures multiset(Insert(sorted, item)) == multiset(sorted) + multiset{item}
    ensures forall x :: x in Insert(sorted, item) <==> x in sorted || x == item
  {
    if sorted != [] && sorted[0].1.measuredAt >= item.1.measuredAt {
      InsertHolds(sorted[1..], item);
      assert sorted == [sorted[0]] + sorted[1..];
    }
  }

  /** At most as new as the bound. */
  ghost predicate NoneNewer(items: seq<(string, Baseline)>, bound: real) {
    forall x :: x in items ==> x.1.measuredAt <= bound
  }

  lemma DescendingCons(head: (string, Baseline), rest: seq<(string, Baseline)>)
    ensures Descending([head] + rest) <==> Descending(rest) && NoneNewer(rest, head.1.measuredAt)
  {
    var all := [head] + rest;
    if Descending(all) {
      forall i, j | 0 <= i < j < |rest| ensures rest[i].1.measuredAt >= rest[j].1.measuredAt {
        assert all[i + 1] == rest[i] && all[j + 1] == rest[j];
      }
      forall x | x in rest ensures x.1.measuredAt <= head.1.measuredAt {
        var j :| 0 <= j < |rest| && rest[j] == x;
        assert all[0] == head && all[j + 1] == x;
      }
    }
  }

  lemma {:induction false} InsertDescends(sorted: seq<(string, Baseline)>, item: (string, Baseline))
    requires Descending(sorted)
    ensures Descending(Insert(sorted, item))
  {
    hide Descending;
    if sorted == [] {
      assert Descending([item]) by { NoneDescend(item); }
    } else {
      var head, rest := sorted[0], sorted[1..];
      assert sorted == [head] + rest;
      DescendingCons(head, rest);
      if head.1.measuredAt < item.1.measuredAt {
        assert NoneNewer(sorted, item.1.measuredAt);
        DescendingCons(item, sorted);
      } else {
        InsertDescends(rest, item);
        InsertHolds(rest, item);
        DescendingCons(head, Insert(rest, item));
      }
    }
  }

  lemma NoneDescend(item: (string, Baseline))
    ensures Descending([item])
  {
  }

  lemma {:induction false} NewestFirstSorts(items: seq<(string, Baseline)>)
    ensures Descending(NewestFirst(items)) && multiset(NewestFirst(items)) == multiset(items)
    ensures |NewestFirst(items)| == |items|
  {
    if items != [] {
      hide Insert, Descending;
      var front := items[..|items| - 1];
      assert items == front + [items[|items| - 1]];
      NewestFirstSorts(front);
      InsertHolds(NewestFirst(front), items[|items| - 1]);
      InsertDescends(NewestFirst(front), items[|items| - 1]);
    } else {
      assert Descending([]);
    }
  }

  /** The table stays within 256 entries; what is evicted is no newer than anything that is kept. */
  lemma OldestAreEvicted(items: seq<(string, Baseline)>)
    ensures |Bounded(items)| == if |items| > 256 then 256 else |items|
    ensures multiset(Bounded(items)) <= multiset(items)
    ensures forall kept: (string, Baseline), gone: (string, Baseline) :: kept in Bounded(items) && gone in multiset(items) - multiset(Bounded(items)) ==>
              kept.1.measuredAt >= gone.1.measuredAt
  {
    if |items| > MAX_BASELINES {
      NewestFirstSorts(items);
      hide NewestFirst;
      var all := NewestFirst(items);
      var front, back := all[..MAX_BASELINES], all[MAX_BASELINES..];
      assert all == front + back;
      assert multiset(items) - multiset(front) == multiset(back);
      forall kept: (string, Baseline), gone: (string, Baseline) | kept in front && gone in multiset(back) ensures kept.1.measuredAt >= gone.1.measuredAt {
        FrontIsNewer(all, kept, gone);
      }
    }
  }

  lemma FrontIsNewer(all: seq<(string, Baseline)>, kept: (string, Baseline), gone: (string, Baseline))
    requires Descending(all) && |all| >= MAX_BASELINES && kept in all[..MAX_BASELINES] && gone in all[MAX_BASELINES..]
    ensures kept.1.measuredAt >= gone.1.measuredAt
  {
    var i :| 0 <= i < MAX_BASELINES && all[..MAX_BASELINES][i] == kept;
    var j :| 0 <= j < |all| - MAX_BASELINES && all[MAX_BASELINES..][j] == gone;
    assert all[i] == kept && all[MAX_BASELINES + j] == gone;
  }

  lemma {:induction false} LookupPut(items: seq<(string, Baseline)>, key: string, b: Baseline, k: string)
    ensures Lookup(Put(items, key, b), k) == if k == key then Some(b) else Lookup(items, k)
    ensures |Put(items, key, b)| == if Lookup(items, key).Some? then |items| else |items| + 1
  {
    if items != [] && items[0].0 != key {
      LookupPut(items[1..], key, b, k);
      assert Put(items, key, b)[1..] == Put(items[1..], key, b);
    } else if items != [] {
      assert ([(key, b)] + items[1..])[1..] == items[1..];
    } else {
      assert [(key, b)][1..] == [];
    }
  }

  // ---------- updates ----------

  datatype Update =
    | Preflight(pair: Guarded, settings: Settings, measurement: Measurement)
    | RecordBaseline(pair: Guarded, measurement: Measurement)
    | Acknowledge(pair: Guarded)

  /** The acknowledging pair releases the quarantine: it is its own, or their endpoints overlap. */
  predicate Releases(host: PairPlanner.Host, pair: Guarded, key: string, q: Quarantine) {
    key == pair.key || (q.endpoints.Some? && PairPlanner.PairsConflict(host, pair.endpoints, q.endpoints.value))
  }

  function Released(host: PairPlanner.Host, quarantines: map<string, Quarantine>, pair: Guarded): map<string, Quarantine> {
    map key | key in quarantines && !Releases(host, pair, key, quarantines[key]) :: quarantines[key]
  }

  function Apply(host: PairPlanner.Host, s: State, u: Update): State {
    match u
    case Preflight(pair, settings, m) =>
      if pair.key in s.quarantines then s
      else
        State(Bounded(s.baselines),
              if Anomalous(Lookup(s.baselines, pair.key), m, settings)
              then s.quarantines[pair.key := Quarantine(Some(pair.endpoints))] else s.quarantines)
    case RecordBaseline(pair, m) =>
      if m.Failed? then s
      else State(Bounded(Put(s.baselines, pair.key, Baseline(m.count, m.bytes, m.at))), s.quarantines)
    case Acknowledge(pair) => State(Bounded(s.baselines), Released(host, s.quarantines, pair))
  }

  /** As long as no more than 256 baselines are kept, the pair's baseline is what was measured
      last, and no other baseline changes. */
  lemma RecordedIsLast(host: PairPlanner.Host, s: State, pair: Guarded, m: Measurement, key: string)
    requires m.Measured? && (|s.baselines| < 256 || (|s.baselines| == 256 && Lookup(s.baselines, pair.key).Some?))
    ensures Lookup(Apply(host, s, RecordBaseline(pair, m)).baselines, key)
         == if key == pair.key then Some(Baseline(m.count, m.bytes, m.at)) else Lookup(s.baselines, key)
    ensures Apply(host, s, RecordBaseline(pair, m)).quarantines == s.quarantines
  {
    LookupPut(s.baselines, pair.key, Baseline(m.count, m.bytes, m.at), key);
    LookupPut(s.baselines, pair.key, Baseline(m.count, m.bytes, m.at), pair.key);
  }

  function After(host: PairPlanner.Host, s: State, updates: seq<Update>): State {
    if updates == [] then s else Apply(host, After(host, s, updates[..|updates| - 1]), updates[|updates| - 1])
  }

  /** A step removes a quarantine exactly when it is an acknowledgement that releases it, and never changes one. */
  lemma StepOnQuarantine(host: PairPlanner.Host, s: State, u: Update, key: string)
    requires key in s.quarantines
    ensures key in Apply(host, s, u).quarantines <==> !(u.Acknowledge? && Releases(host, u.pair, key, s.quarantines[key]))
    ensures key in Apply(host, s, u).quarantines ==> Apply(host, s, u).quarantines[key] == s.quarantines[key]
  {
    hide PairPlanner.PairsConflict, Bounded, Put, Anomalous;
  }

  /** A quarantine survives every run of preflights, baseline updates and evictions
      until its own pair, or one that overlaps it, acknowledges it. */
  lemma {:induction false} SurvivesUntilReleased(host: PairPlanner.Host, s: State, updates: seq<Update>, key: string)
    requires key in s.quarantines
    requires forall i :: 0 <= i < |updates| && updates[i].Acknowledge? ==> !Releases(host, updates[i].pair, key, s.quarantines[key])
    ensures key in After(host, s, updates).quarantines && After(host, s, updates).quarantines[key] == s.quarantines[key]
  {
    if updates != [] {
      hide Releases, Apply;
      SurvivesUntilReleased(host, s, updates[..|updates| - 1], key);
      StepOnQuarantine(host, After(host, s, updates[..|updates| - 1]), updates[|updates| - 1], key);
    }
  }

  /** However long the run, the baselines stay within the limit they were in. */
  lemma {:induction false} BaselinesStayBounded(host: PairPlanner.Host, s: State, updates: seq<Update>)
    requires |s.baselines| <= 256
    ensures |After(host, s, updates).baselines| <= 256
  {
    if updates != [] {
      hide Anomalous, Released, Bounded, Put, Lookup;
      var before := After(host, s, updates[..|updates| - 1]);
      BaselinesStayBounded(host, s, updates[..|updates| - 1]);
      OldestAreEvicted(before.baselines);
      var u := updates[|updates| - 1];
      if u.RecordBaseline? && u.measurement.Measured? {
        OldestAreEvicted(Put(before.baselines, u.pair.key, Baseline(u.measurement.count, u.measurement.bytes, u.measurement.at)));
      }
    }
  }

  // ---------- blocking ----------

  /** Some quarantine applies to the pair; `configured` are the configured pairs. */
  predicate Blocked(host: PairPlanner.Host, s: State, pair: Guarded, configured: seq<Guarded>) {
    pair.destructive
    && (|| pair.key in s.quarantines
        || (exists key :: key in s.quarantines && Reaches(host, pair, s.quarantines[key]))
        || (exists i :: 0 <= i < |configured| && configured[i].key in s.quarantines
              && PairPlanner.PairsConflict(host, pair.endpoints, configured[i].endpoints)))
  }

  predicate Reaches(host: PairPlanner.Host, pair: Guarded, q: Quarantine) {
    q.endpoints.Some? && PairPlanner.PairsConflict(host, pair.endpoints, q.endpoints.value)
  }

  /** From the preflight that finds an anomaly on, every destructive pair that
      overlaps the anomalous one is blocked, through any later updates short of
      an acknowledgement that releases it. */
  lemma AnomalyBlocksOverlaps(host: PairPlanner.Host, s: State, u: Update, later: seq<Update>, other: Guarded, configured: seq<Guarded>)
    requires u.Preflight? && u.pair.key !in s.quarantines && Anomalous(Lookup(s.baselines, u.pair.key), u.measurement, u.settings)
    requires forall i :: 0 <= i < |later| && later[i].Acknowledge? ==>
               !Releases(host, later[i].pair, u.pair.key, Quarantine(Some(u.pair.endpoints)))
    requires other.destructive && (other.key == u.pair.key || PairPlanner.PairsConflict(host, other.endpoints, u.pair.endpoints))
    ensures Blocked(host, After(host, Apply(host, s, u), later), other, configured)
  {
    hide PairPlanner.PairsConflict, Anomalous, Bounded, Lookup;
    var t := Apply(host, s, u);
    assert u.pair.key in t.quarantines && t.quarantines[u.pair.key] == Quarantine(Some(u.pair.endpoints));
    SurvivesUntilReleased(host, t, later, u.pair.key);
    assert other.key == u.pair.key || Reaches(host, other, After(host, t, later).quarantines[u.pair.key]);
  }

  /** The configured pair overlaps, and its quarantine is not one that `pair` can release:
      it stores no endpoints, or other ones than the configured pair has now. */
  predicate Stands(host: PairPlanner.Host, s: State, pair: Guarded, configured: Guarded) {
    && configured.key in s.quarantines && !Releases(host, pair, configured.key, s.quarantines[configured.key])
    && PairPlanner.PairsConflict(host, pair.endpoints, configured.endpoints)
  }

  /** After its own acknowledgement a destructive pair is still blocked exactly by
      an overlapping configured pair whose quarantine it cannot release. */
  lemma AcknowledgingUnblocks(host: PairPlanner.Host, s: State, pair: Guarded, configured: seq<Guarded>)
    ensures Blocked(host, Apply(host, s, Acknowledge(pair)), pair, configured)
       <==> pair.destructive && exists i :: 0 <= i < |configured| && Stands(host, s, pair, configured[i])
  {
    hide PairPlanner.PairsConflict, Bounded;
    var t := Apply(host, s, Acknowledge(pair));
    assert pair.key !in t.quarantines && forall key :: key in t.quarantines ==> !Reaches(host, pair, t.quarantines[key]);
    forall i | 0 <= i < |configured|
      ensures Stands(host, s, pair, configured[i])
         <==> configured[i].key in t.quarantines && PairPlanner.PairsConflict(host, pair.endpoints, configured[i].endpoints)
    {
    }
  }

  // A pair that its own acknowledgement does not unblock.

  /** The quarantined pair when it was quarantined, and after its remote was changed. */
  const QUARANTINED := Guarded("q", PairPlanner.Pair("q", "", "a:x"), true)
  const MOVED := Guarded("q", PairPlanner.Pair("q", "", "b:y"), true)

  const ASKING := Guarded("p", PairPlanner.Pair("p", "", "b:y"), true)

  const DEFAULTS := Settings(true, 35.0, 35.0, 100)

  const EMPTIED: seq<Update> := [RecordBaseline(QUARANTINED, Measured(1000, 1000, 1.0)), Preflight(QUARANTINED, DEFAULTS, Measured(0, 0, 2.0))]

  lemma EmptiedIsQuarantined(host: PairPlanner.Host)
    ensures After(host, EMPTY, EMPTIED).quarantines == map["q" := Quarantine(Some(QUARANTINED.endpoints))]
  {
    var b := Baseline(1000, 1000, 1.0);
    assert EMPTIED[..1][..0] == [];
    assert EMPTIED[..1] == [EMPTIED[0]];
    assert After(host, EMPTY, [EMPTIED[0]]) == Apply(host, EMPTY, EMPTIED[0]) == State([("q", b)], map[]);
    EmptiedIsBlocked(b, DEFAULTS, 2.0);
    hide Anomalous, Drop;
  }

  lemma RemoteApart(host: PairPlanner.Host)
    requires PairPlanner.KeepsColons(host) && host.fold("a") != host.fold("b")
    ensures !PairPlanner.PathsOverlap(host, "b:y", "a:x") && PairPlanner.PathsOverlap(host, "b:y", "b:y")
  {
    PairPlanner.OverlapIsNesting(host, "b:y", "a:x");
    Text.BeforeHead("a", ":x", ':');
    Text.BeforeHead("b", ":y", ':');
    assert "a" + ":x" == "a:x" && "b" + ":y" == "b:y";
    hide PairPlanner.Parts, PairPlanner.RemotePath, Text.Before, PairPlanner.CanonicalRemote;
  }

  /** After the quarantined pair has moved to the remote of another, that one stays
      blocked by its quarantine even when it acknowledges. */
  lemma StaysBlocked(host: PairPlanner.Host)
    requires PairPlanner.KeepsColons(host) && host.fold("a") != host.fold("b")
    ensures var s := After(host, EMPTY, EMPTIED);
            && Blocked(host, s, ASKING, [MOVED])
            && Blocked(host, Apply(host, s, Acknowledge(ASKING)), ASKING, [MOVED])
  {
    hide After, Apply;
    EmptiedIsQuarantined(host);
    RemoteApart(host);
    var s := After(host, EMPTY, EMPTIED);
    AcknowledgingUnblocks(host, s, ASKING, [MOVED]);
    hide PairPlanner.PathsOverlap;
    assert Stands(host, s, ASKING, [MOVED][0]);
  }

  // ---------- the guard ----------

  datatype Finding = Finding(blocked: bool, enabled: bool)

  class Guard {
    const host: PairPlanner.Host
    var baselines: seq<(string, Baseline)>
    var quarantines: map<string, Quarantine>

    ghost function Now(): State
      reads this
    {
      State(baselines, quarantines)
    }

    constructor (host: PairPlanner.Host)
      ensures Now() == EMPTY && this.host == host
    {
      this.host, baselines, quarantines := host, [], map[];
    }

    /** The first of the quarantines that applies. */
    method ActiveQuarantine(pair: Guarded, configured: seq<Guarded>) returns (r: Option<Quarantine>)
      ensures r.Some? <==> Blocked(host, Now(), pair, configured)
      ensures r.Some? ==> exists key :: key in quarantines && quarantines[key] == r.value
    {
      hide PairPlanner.PairsConflict;
      if !pair.destructive { return None; }
      if pair.key in quarantines { return Some(quarantines[pair.key]); }
      var rest := quarantines.Keys;
      while rest != {}
        invariant rest <= quarantines.Keys
        invariant forall key :: key in quarantines && key !in rest ==> !Reaches(host, pair, quarantines[key])
        decreases rest
      {
        var key :| key in rest;
        if Reaches(host, pair, quarantines[key]) { return Some(quarantines[key]); }
        rest := rest - {key};
      }
      for i := 0 to |configured|
        invariant forall j :: 0 <= j < i && configured[j].key in quarantines ==>
                    !PairPlanner.PairsConflict(host, pair.endpoints, configured[j].endpoints)
      {
        if configured[i].key in quarantines && PairPlanner.PairsConflict(host, pair.endpoints, configured[i].endpoints) {
          return Some(quarantines[configured[i].key]);
        }
      }
      return None;
    }

    /** The update of the preflight; the measurement was taken before. */
    method UpdateFromMeasurement(pair: Guarded, settings: Settings, m: Measurement) returns (blocked: bool)
      modifies this
      ensures Now() == Apply(host, old(Now()), Preflight(pair, settings, m))
      ensures blocked <==> pair.key in quarantines
    {
      hide Bounded, Anomalous, Lookup;
      if pair.key in quarantines { return true; }
      blocked := Anomalous(Lookup(baselines, pair.key), m, settings);
      if blocked { quarantines := quarantines[pair.key := Quarantine(Some(pair.endpoints))]; }
      baselines := Bounded(baselines);
    }

    /** A standing quarantine blocks even with the guard switched off, before anything is measured. */
    method PreflightAnomalyGuard(pair: Guarded, configured: seq<Guarded>, settings: Settings, m: Measurement) returns (f: Finding)
      modifies this
      ensures Blocked(host, old(Now()), pair, configured) ==> f == Finding(true, true) && Now() == old(Now())
      ensures !Blocked(host, old(Now()), pair, configured) && (!settings.enabled || !pair.destructive) ==>
                f == Finding(false, false) && Now() == old(Now())
      ensures !Blocked(host, old(Now()), pair, configured) && settings.enabled && pair.destructive ==>
                && f.enabled && (f.blocked <==> Anomalous(Lookup(old(baselines), pair.key), m, settings))
                && Now() == Apply(host, old(Now()), Preflight(pair, settings, m))
    {
      hide Reaches, PairPlanner.PairsConflict, Bounded, Anomalous, Lookup;
      var existing := ActiveQuarantine(pair, configured);
      if existing.Some? { return Finding(true, true); }
      if !settings.enabled || !pair.destructive { return Finding(false, false); }
      var blocked := UpdateFromMeasurement(pair, settings, m);
      return Finding(blocked, true);
    }

    method RecordAnomalyBaseline(pair: Guarded, m: Measurement)
      modifies this
      ensures Now() == Apply(host, old(Now()), RecordBaseline(pair, m))
    {
      hide Bounded, Put;
      if m.Failed? { return; }
      baselines := Bounded(Put(baselines, pair.key, Baseline(m.count, m.bytes, m.at)));
    }

    method AcknowledgeQuarantine(pair: Guarded) returns (removed: bool)
      modifies this
      ensures Now() == Apply(host, old(Now()), Acknowledge(pair))
      ensures removed <==> exists key :: key in old(quarantines) && Releases(host, pair, key, old(quarantines)[key])
    {
      hide Releases, Bounded;
      removed := false;
      var rest, left := quarantines.Keys, quarantines;
      while rest != {}
        invariant rest <= quarantines.Keys && quarantines == old(quarantines) && baselines == old(baselines)
        invariant forall key :: key in left <==> key in quarantines && (key in rest || !Releases(host, pair, key, quarantines[key]))
        invariant forall key :: key in left ==> left[key] == quarantines[key]
        invariant removed <==> exists key :: key in quarantines && key !in rest && Releases(host, pair, key, quarantines[key])
        decreases rest
      {
        var key :| key in rest;
        if Releases(host, pair, key, quarantines[key]) {
          left := left - {key};
          removed := true;
        }
        rest := rest - {key};
      }
      assert left == Released(host, quarantines, pair);
      quarantines := left;
      baselines := Bounded(baselines);
    }
  }
}
