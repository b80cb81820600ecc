/**
  The conflict-aware parallel scheduler of one sync job
  (`run_job` and `_next_runnable_pair_index` in app/jobs/rclone_sync.py).

  A run is the list of its events.  `After` replays them from the selected
  pairs and is None as soon as an event was not allowed; the theorems are about
  every list of events it accepts, so about every completion order and every
  moment of cancellation.  The method `RunPairs` is proved to produce such a run.
*/
module PairScheduler {
  import opened Results
  import opened PairPlanner
  import Text

  datatype Outcome = Returned(ok: bool) | Raised | CancelledBeforeStart | NoResult

  datatype Event = Start(index: nat) | Finish(future: nat, outcome: Outcome) | Cancel

  datatype State = State(pending: seq<Pair>, running: map<nat, Pair>, results: map<string, Outcome>, submitted: nat)

  /** Which pairs must not run together; the job uses `PairsConflict`. */
  type Conflict = (Pair, Pair) -> bool

  ghost predicate Symmetric(conflict: Conflict) {
    forall a: Pair, b: Pair :: conflict(a, b) <==> conflict(b, a)
  }

  // ---------- the transition system ----------

  function Init(pairs: seq<Pair>): State {
    State(pairs, map[], map[], 0)
  }

  predicate Free(conflict: Conflict, pair: Pair, running: map<nat, Pair>) {
    forall f <- running :: !conflict(pair, running[f])
  }

  predicate Allowed(conflict: Conflict, limit: nat, s: State, e: Event) {
    match e
    case Start(k) =>
      && k < |s.pending| && |s.running| < limit
      && Free(conflict, s.pending[k], s.running)
      && forall j :: 0 <= j < k ==> !Free(conflict, s.pending[j], s.running)
    case Finish(f, outcome) => f in s.running && (outcome.Returned? || outcome.Raised?)
    case Cancel => s.pending != []
  }

  function NamesOf(pairs: seq<Pair>): set<string> {
    set p <- pairs :: p.name
  }

  /** The results with every waiting pair reported as cancelled. */
  function WithCancelled(results: map<string, Outcome>, waiting: seq<Pair>): map<string, Outcome> {
    if waiting == [] then results
    else WithCancelled(results, waiting[..|waiting| - 1])[waiting[|waiting| - 1].name := CancelledBeforeStart]
  }

  function Apply(conflict: Conflict, limit: nat, s: State, e: Event): State
    requires Allowed(conflict, limit, s, e)
  {
    match e
    case Start(k) =>
      State(s.pending[..k] + s.pending[k + 1..], s.running[s.submitted := s.pending[k]], s.results, s.submitted + 1)
    case Finish(f, outcome) =>
      State(s.pending, s.running - {f}, s.results[s.running[f].name := outcome], s.submitted)
    case Cancel =>
      State([], s.running, WithCancelled(s.results, s.pending), s.submitted)
  }

  function After(conflict: Conflict, limit: nat, pairs: seq<Pair>, events: seq<Event>): Option<State> {
    if events == [] then Some(Init(pairs))
    else
      var s := After(conflict, limit, pairs, events[..|events| - 1]);
      var e := events[|events| - 1];
      if s.Some? && Allowed(conflict, limit, s.value, e) then Some(Apply(conflict, limit, s.value, e)) else None
  }

  // ---------- what every reachable state keeps ----------

  predicate DistinctNames(pairs: seq<Pair>) {
    forall i, j :: 0 <= i < j < |pairs| ==> pairs[i].name != pairs[j].name
  }

  /** Running pairs do not overlap and stay within the limit. */
  ghost predicate Exclusive(conflict: Conflict, limit: nat, running: map<nat, Pair>) {
    && |running| <= limit
    && forall f, g :: f in running && g in running && f != g ==> !conflict(running[f], running[g])
  }

  function RunningNames(running: map<nat, Pair>): set<string> {
    set f <- running :: running[f].name
  }

  /** Every selected name is in exactly one place: waiting, running or reported. */
  ghost predicate Placed(pairs: seq<Pair>, s: State) {
    && DistinctNames(s.pending)
    && (forall f :: f in s.running ==> f < s.submitted)
    && (forall f, g :: f in s.running && g in s.running && f != g ==> s.running[f].name != s.running[g].name)
    && NamesOf(pairs) == NamesOf(s.pending) + RunningNames(s.running) + s.results.Keys
    && NamesOf(s.pending) !! RunningNames(s.running)
    && NamesOf(s.pending) + RunningNames(s.running) !! s.results.Keys
  }

  ghost predicate Inv(conflict: Conflict, limit: nat, pairs: seq<Pair>, s: State) {
    Exclusive(conflict, limit, s.running) && Placed(pairs, s)
  }

  lemma NamesWithout(pairs: seq<Pair>, k: nat)
    requires k < |pairs| && DistinctNames(pairs)
    ensures var rest := pairs[..k] + pairs[k + 1..];
            DistinctNames(rest) && NamesOf(rest) == NamesOf(pairs) - {pairs[k].name} && pairs[k].name in NamesOf(pairs)
  {
    var rest := pairs[..k] + pairs[k + 1..];
    forall p | p in pairs && p.name != pairs[k].name ensures p in rest {
      var i :| 0 <= i < |pairs| && pairs[i] == p;
      assert rest[if i < k then i else i - 1] == p;
    }
    DistinctWithout(pairs, k);
  }

  lemma DistinctWithout(pairs: seq<Pair>, k: nat)
    requires k < |pairs| && DistinctNames(pairs)
    ensures DistinctNames(pairs[..k] + pairs[k + 1..])
    ensures forall p :: p in pairs[..k] + pairs[k + 1..] ==> p in pairs && p.name != pairs[k].name
  {
    var rest := pairs[..k] + pairs[k + 1..];
    forall p | p in rest ensures p in pairs && p.name != pairs[k].name {
      var i :| 0 <= i < |rest| && rest[i] == p;
      assert p == pairs[if i < k then i else i + 1];
    }
  }

  lemma RunningWith(running: map<nat, Pair>, f: nat, pair: Pair)
    requires f !in running
    ensures RunningNames(running[f := pair]) == RunningNames(running) + {pair.name}
  {
    var more := running[f := pair];
    assert more[f].name == pair.name;
    forall g | g in running ensures more[g] == running[g] { }
  }

  lemma RunningWithout(running: map<nat, Pair>, f: nat)
    requires f in running
    requires forall g, h :: g in running && h in running && g != h ==> running[g].name != running[h].name
    ensures RunningNames(running - {f}) == RunningNames(running) - {running[f].name}
    ensures running[f].name in RunningNames(running) && |running - {f}| == |running| - 1
  {
    var less := running - {f};
    assert less.Keys == running.Keys - {f};
    forall g | g in less ensures less[g] == running[g] { }
  }

  lemma StartExclusive(conflict: Conflict, limit: nat, running: map<nat, Pair>, f: nat, pair: Pair)
    requires Symmetric(conflict) && Exclusive(conflict, limit, running) && f !in running
    requires |running| < limit && Free(conflict, pair, running)
    ensures Exclusive(conflict, limit, running[f := pair])
  {
  }

  lemma StartPlaced(conflict: Conflict, limit: nat, pairs: seq<Pair>, s: State, k: nat)
    requires Placed(pairs, s) && k < |s.pending|
    ensures Placed(pairs, State(s.pending[..k] + s.pending[k + 1..], s.running[s.submitted := s.pending[k]], s.results, s.submitted + 1))
  {
    NamesWithout(s.pending, k);
    RunningWith(s.running, s.submitted, s.pending[k]);
  }

  lemma StartInv(conflict: Conflict, limit: nat, pairs: seq<Pair>, s: State, k: nat)
    requires Symmetric(conflict) && Inv(conflict, limit, pairs, s) && Allowed(conflict, limit, s, Start(k))
    ensures Inv(conflict, limit, pairs, Apply(conflict, limit, s, Start(k)))
  {
    StartExclusive(conflict, limit, s.running, s.submitted, s.pending[k]);
    StartPlaced(conflict, limit, pairs, s, k);
  }

  lemma FinishInv(conflict: Conflict, limit: nat, pairs: seq<Pair>, s: State, f: nat, outcome: Outcome)
    requires Inv(conflict, limit, pairs, s) && Allowed(conflict, limit, s, Finish(f, outcome))
    ensures Inv(conflict, limit, pairs, Apply(conflict, limit, s, Finish(f, outcome)))
    ensures |Apply(conflict, limit, s, Finish(f, outcome)).running| == |s.running| - 1
  {
    RunningWithout(s.running, f);
  }

  lemma {:induction false} CancelledNames(results: map<string, Outcome>, waiting: seq<Pair>)
    ensures WithCancelled(results, waiting).Keys == results.Keys + NamesOf(waiting)
    ensures forall n :: n in WithCancelled(results, waiting) ==>
              WithCancelled(results, waiting)[n]
              == if n in NamesOf(waiting) then CancelledBeforeStart else results[n]
  {
    if waiting != [] {
      var before := waiting[..|waiting| - 1];
      CancelledNames(results, before);
      assert waiting == before + [waiting[|waiting| - 1]];
      assert NamesOf(waiting) == NamesOf(before) + {waiting[|waiting| - 1].name};
    }
  }

  lemma Move(waiting: set<string>, running: set<string>, reported: set<string>)
    requires waiting !! running && waiting + running !! reported
    ensures {} !! running && {} + running !! reported + waiting
    ensures waiting + running + reported == {} + running + (reported + waiting)
  {
  }

  lemma CancelInv(conflict: Conflict, limit: nat, pairs: seq<Pair>, s: State)
    requires Inv(conflict, limit, pairs, s)
    ensures Inv(conflict, limit, pairs, State([], s.running, WithCancelled(s.results, s.pending), s.submitted))
  {
    CancelledNames(s.results, s.pending);
    assert NamesOf([]) == {};
    Move(NamesOf(s.pending), RunningNames(s.running), s.results.Keys);
  }

  lemma InitInv(conflict: Conflict, limit: nat, pairs: seq<Pair>)
    requires DistinctNames(pairs)
    ensures Inv(conflict, limit, pairs, Init(pairs))
  {
  }

  /** Mutual exclusion, the limit and the placement hold after every run. */
  lemma {:induction false} RunIsSafe(conflict: Conflict, limit: nat, pairs: seq<Pair>, events: seq<Event>)
    requires Symmetric(conflict) && DistinctNames(pairs) && After(conflict, limit, pairs, events).Some?
    ensures Inv(conflict, limit, pairs, After(conflict, limit, pairs, events).value)
  {
    if events == [] {
      InitInv(conflict, limit, pairs);
    } else {
      RunIsSafe(conflict, limit, pairs, events[..|events| - 1]);
      var s := After(conflict, limit, pairs, events[..|events| - 1]).value;
      match events[|events| - 1]
      case Start(k) => StartInv(conflict, limit, pairs, s, k);
      case Finish(f, outcome) => FinishInv(conflict, limit, pairs, s, f, outcome);
      case Cancel => CancelInv(conflict, limit, pairs, s);
    }
  }

  /** With a worker slot at all, the loop can always take a step until nothing
      is pending or running: start the first waiting pair when none runs. */
  lemma NeverStalls(conflict: Conflict, limit: nat, s: State, outcome: Outcome)
    requires limit > 0 && (s.pending != [] || s.running != map[]) && outcome.Returned?
    ensures s.running == map[] ==> Allowed(conflict, limit, s, Start(0))
    ensures s.running != map[] ==> exists f :: Allowed(conflict, limit, s, Finish(f, outcome))
  {
    if s.running != map[] {
      var f :| f in s.running;
      assert Allowed(conflict, limit, s, Finish(f, outcome));
    }
  }

  function Weight(s: State): nat {
    2 * |s.pending| + |s.running|
  }

  /** Every run is finite: at most two events for each selected pair. */
  lemma {:induction false} RunIsShort(conflict: Conflict, limit: nat, pairs: seq<Pair>, events: seq<Event>)
    requires Symmetric(conflict) && DistinctNames(pairs) && After(conflict, limit, pairs, events).Some?
    ensures |events| + Weight(After(conflict, limit, pairs, events).value) <= 2 * |pairs|
  {
    if events != [] {
      var before := events[..|events| - 1];
      RunIsShort(conflict, limit, pairs, before);
      RunIsSafe(conflict, limit, pairs, before);
      var s := After(conflict, limit, pairs, before).value;
      match events[|events| - 1]
      case Start(k) =>
      case Finish(f, outcome) => FinishInv(conflict, limit, pairs, s, f, outcome);
      case Cancel =>
    }
  }

  /** The pair that event number i finishes. */
  ghost function FinishedPair(conflict: Conflict, limit: nat, pairs: seq<Pair>, events: seq<Event>, i: nat): Pair
    requires i < |events| && events[i].Finish? && After(conflict, limit, pairs, events[..i + 1]).Some?
  {
    assert events[..i + 1][..i] == events[..i];
    After(conflict, limit, pairs, events[..i]).value.running[events[i].future]
  }

  /** A reported result is never replaced. */
  lemma {:induction false} ResultsStay(conflict: Conflict, limit: nat, pairs: seq<Pair>, events: seq<Event>, i: nat, name: string)
    requires Symmetric(conflict) && DistinctNames(pairs) && i <= |events| && After(conflict, limit, pairs, events).Some?
    requires After(conflict, limit, pairs, events[..i]).Some? && name in After(conflict, limit, pairs, events[..i]).value.results
    ensures var s := After(conflict, limit, pairs, events).value;
            name in s.results && s.results[name] == After(conflict, limit, pairs, events[..i]).value.results[name]
  {
    if i == |events| {
      assert events[..i] == events;
    } else {
      var before := events[..|events| - 1];
      assert before[..i] == events[..i];
      ResultsStay(conflict, limit, pairs, before, i, name);
      RunIsSafe(conflict, limit, pairs, before);
      var s := After(conflict, limit, pairs, before).value;
      match events[|events| - 1]
      case Start(k) =>
      case Finish(f, outcome) => RunningWithout(s.running, f);
      case Cancel => CancelledNames(s.results, s.pending);
    }
  }

  /** The report at the end holds the outcome of every finished worker. */
  lemma OutcomeReported(conflict: Conflict, limit: nat, pairs: seq<Pair>, events: seq<Event>, i: nat)
    requires Symmetric(conflict) && DistinctNames(pairs) && After(conflict, limit, pairs, events).Some?
    requires i < |events| && events[i].Finish? && After(conflict, limit, pairs, events[..i + 1]).Some?
    ensures var name, s := FinishedPair(conflict, limit, pairs, events, i).name, After(conflict, limit, pairs, events).value;
            name in s.results && s.results[name] == events[i].outcome
  {
    hide Symmetric, DistinctNames;
    assert events[..i + 1][..i] == events[..i];
    ResultsStay(conflict, limit, pairs, events, i + 1, FinishedPair(conflict, limit, pairs, events, i).name);
  }

  /** No pair finishes twice. */
  lemma FinishedOnce(conflict: Conflict, limit: nat, pairs: seq<Pair>, events: seq<Event>, i: nat, j: nat)
    requires Symmetric(conflict) && DistinctNames(pairs) && i < j < |events| && events[i].Finish? && events[j].Finish?
    requires After(conflict, limit, pairs, events[..i + 1]).Some? && After(conflict, limit, pairs, events[..j + 1]).Some?
    ensures FinishedPair(conflict, limit, pairs, events, i).name != FinishedPair(conflict, limit, pairs, events, j).name
  {
    hide Apply, Symmetric, DistinctNames;
    var earlier := events[..j];
    assert events[..j + 1][..j] == earlier && earlier[..i + 1] == events[..i + 1];
    OutcomeReported(conflict, limit, pairs, earlier, i);
    assert FinishedPair(conflict, limit, pairs, earlier, i) == FinishedPair(conflict, limit, pairs, events, i) by {
      assert earlier[..i] == events[..i];
    }
    NotYetReported(conflict, limit, pairs, earlier, events[j].future);
  }

  lemma NotYetReported(conflict: Conflict, limit: nat, pairs: seq<Pair>, events: seq<Event>, f: nat)
    requires Symmetric(conflict) && DistinctNames(pairs) && After(conflict, limit, pairs, events).Some?
    requires f in After(conflict, limit, pairs, events).value.running
    ensures var s := After(conflict, limit, pairs, events).value; s.running[f].name !in s.results
  {
    RunIsSafe(conflict, limit, pairs, events);
    RunningWithout(After(conflict, limit, pairs, events).value.running, f);
  }

  /** What is reported is always a worker's outcome or the cancellation. */
  lemma {:induction false} RunReports(conflict: Conflict, limit: nat, pairs: seq<Pair>, events: seq<Event>)
    requires After(conflict, limit, pairs, events).Some?
    ensures var s := After(conflict, limit, pairs, events).value; forall n :: n in s.results ==> s.results[n] != NoResult
  {
    if events != [] {
      RunReports(conflict, limit, pairs, events[..|events| - 1]);
      var s := After(conflict, limit, pairs, events[..|events| - 1]).value;
      CancelledNames(s.results, s.pending);
    }
  }

  /** Event s starts this pair as worker number f. */
  ghost predicate StartsAt(conflict: Conflict, limit: nat, pairs: seq<Pair>, events: seq<Event>, s: nat, f: nat, pair: Pair) {
    && s < |events| && events[s].Start? && After(conflict, limit, pairs, events[..s]).Some?
    && var st := After(conflict, limit, pairs, events[..s]).value;
       events[s].index < |st.pending| && st.pending[events[s].index] == pair && st.submitted == f
  }

  /** The pair was started, and later its worker ended with this outcome. */
  ghost predicate RanTo(conflict: Conflict, limit: nat, pairs: seq<Pair>, events: seq<Event>, s: nat, e: nat, f: nat, pair: Pair, outcome: Outcome) {
    StartsAt(conflict, limit, pairs, events, s, f, pair) && s < e < |events| && events[e] == Finish(f, outcome)
  }

  lemma StartsEarlier(conflict: Conflict, limit: nat, pairs: seq<Pair>, events: seq<Event>, s: nat, f: nat, pair: Pair)
    requires events != [] && StartsAt(conflict, limit, pairs, events[..|events| - 1], s, f, pair)
    ensures StartsAt(conflict, limit, pairs, events, s, f, pair)
  {
    hide After;
    assert events[..|events| - 1][..s] == events[..s];
  }

  lemma {:induction false} RunningStarted(conflict: Conflict, limit: nat, pairs: seq<Pair>, events: seq<Event>, f: nat) returns (s: nat)
    requires After(conflict, limit, pairs, events).Some? && f in After(conflict, limit, pairs, events).value.running
    ensures StartsAt(conflict, limit, pairs, events, s, f, After(conflict, limit, pairs, events).value.running[f])
  {
    var before := events[..|events| - 1];
    var st := After(conflict, limit, pairs, before).value;
    if events[|events| - 1].Start? && f == st.submitted {
      s := |events| - 1;
    } else {
      s := RunningStarted(conflict, limit, pairs, before, f);
      StartsEarlier(conflict, limit, pairs, events, s, f, st.running[f]);
    }
  }

  predicate FinishesName(s: State, e: Event, name: string) {
    e.Finish? && e.future in s.running && s.running[e.future].name == name
  }

  lemma ReportedStep(conflict: Conflict, limit: nat, s: State, e: Event, name: string)
    requires Allowed(conflict, limit, s, e) && !e.Cancel? && name in Apply(conflict, limit, s, e).results
    ensures Apply(conflict, limit, s, e).results[name]
         == if FinishesName(s, e, name) then e.outcome else if name in s.results then s.results[name] else NoResult
    ensures FinishesName(s, e, name) || name in s.results
  {
  }

  lemma LastStep(conflict: Conflict, limit: nat, pairs: seq<Pair>, events: seq<Event>)
    requires events != [] && After(conflict, limit, pairs, events).Some?
    ensures var before := After(conflict, limit, pairs, events[..|events| - 1]);
            && before.Some? && Allowed(conflict, limit, before.value, events[|events| - 1])
            && After(conflict, limit, pairs, events) == Some(Apply(conflict, limit, before.value, events[|events| - 1]))
  {
  }

  /** Whatever is reported for a name is the outcome of a worker that was started
      for a pair of that name, or there was a cancellation. */
  lemma {:induction false} ReportedRan(conflict: Conflict, limit: nat, pairs: seq<Pair>, events: seq<Event>, name: string)
      returns (s: nat, e: nat, f: nat, pair: Pair)
    requires After(conflict, limit, pairs, events).Some? && name in After(conflict, limit, pairs, events).value.results && Cancel !in events
    ensures pair.name == name
    ensures RanTo(conflict, limit, pairs, events, s, e, f, pair, After(conflict, limit, pairs, events).value.results[name])
  {
    hide Allowed, Apply;
    assert events != [];
    var before, last := events[..|events| - 1], events[|events| - 1];
    LastStep(conflict, limit, pairs, events);
    hide After;
    var st := After(conflict, limit, pairs, before).value;
    assert last in events && forall x :: x in before ==> x in events;
    ReportedStep(conflict, limit, st, last, name);
    if FinishesName(st, last, name) {
      f, e, pair := last.future, |events| - 1, st.running[last.future];
      s := RunningStarted(conflict, limit, pairs, before, f);
    } else {
      s, e, f, pair := ReportedRan(conflict, limit, pairs, before, name);
    }
    StartsEarlier(conflict, limit, pairs, events, s, f, pair);
  }

  // ---------- rounds ----------

  /** What the loop meets: whether the check of round i sees the cancellation, how
      worker f ends (None when it raises), and which of the running workers the wait of
      round i finds done. */
  datatype Environment = Environment(cancelled: nat -> bool, result: nat -> Option<bool>, completed: (nat, set<nat>) -> set<nat>)

  ghost predicate Waits(env: Environment) {
    forall i, running :: running != {} ==> env.completed(i, running) != {} && env.completed(i, running) <= running
  }

  function Ending(env: Environment, f: nat): Outcome {
    if env.result(f).Some? then Returned(env.result(f).value) else Raised
  }

  datatype Round = Round(cancel: bool, starts: seq<nat>, finished: seq<nat>)

  function Starts(ks: seq<nat>): seq<Event> {
    seq(|ks|, i requires 0 <= i < |ks| => Start(ks[i]))
  }

  function Finishes(env: Environment, fs: seq<nat>): seq<Event> {
    seq(|fs|, i requires 0 <= i < |fs| => Finish(fs[i], Ending(env, fs[i])))
  }

  function Opening(r: Round): seq<Event> {
    (if r.cancel then [Cancel] else []) + Starts(r.starts)
  }

  function AllEvents(env: Environment, rounds: seq<Round>): seq<Event> {
    if rounds == [] then []
    else
      var r := rounds[|rounds| - 1];
      AllEvents(env, rounds[..|rounds| - 1]) + Opening(r) + Finishes(env, r.finished)
  }

  /** No waiting pair could be started as well. */
  predicate Saturated(conflict: Conflict, limit: nat, s: State) {
    s.pending == [] || |s.running| >= limit || forall j :: 0 <= j < |s.pending| ==> !Free(conflict, s.pending[j], s.running)
  }

  ghost predicate Distinct(fs: seq<nat>) {
    forall i, j :: 0 <= i < j < |fs| ==> fs[i] != fs[j]
  }

  /** Round i after these events: a cancellation exactly when its check sees one and pairs
      wait, then as many starts as possible, then exactly the workers found done. */
  ghost predicate RoundAfter(conflict: Conflict, limit: nat, pairs: seq<Pair>, env: Environment, before: seq<Event>, i: nat, r: Round) {
    && After(conflict, limit, pairs, before).Some?
    && (r.cancel <==> env.cancelled(i) && After(conflict, limit, pairs, before).value.pending != [])
    && After(conflict, limit, pairs, before + Opening(r)).Some?
    && var s := After(conflict, limit, pairs, before + Opening(r)).value;
       && Saturated(conflict, limit, s)
       && Distinct(r.finished)
       && (set f | f in r.finished) == if s.running == map[] then {} else env.completed(i, s.running.Keys)
  }

  ghost predicate InRounds(conflict: Conflict, limit: nat, pairs: seq<Pair>, env: Environment, rounds: seq<Round>) {
    forall i :: 0 <= i < |rounds| ==> RoundAfter(conflict, limit, pairs, env, AllEvents(env, rounds[..i]), i, rounds[i])
  }

  lemma OpeningIs(before: seq<Event>, cancelling: seq<Event>, cancel: bool, starts: seq<nat>)
    requires cancelling == before + if cancel then [Cancel] else []
    ensures cancelling + Starts(starts) == before + Opening(Round(cancel, starts, []))
  {
    hide Starts;
  }

  lemma OneRoundMore(conflict: Conflict, limit: nat, pairs: seq<Pair>, env: Environment, rounds: seq<Round>, r: Round)
    requires InRounds(conflict, limit, pairs, env, rounds)
    requires RoundAfter(conflict, limit, pairs, env, AllEvents(env, rounds), |rounds|, r)
    ensures InRounds(conflict, limit, pairs, env, rounds + [r])
    ensures AllEvents(env, rounds + [r]) == AllEvents(env, rounds) + Opening(r) + Finishes(env, r.finished)
  {
    hide RoundAfter;
    var more := rounds + [r];
    assert more[..|rounds|] == rounds;
    forall i | 0 <= i < |more| ensures RoundAfter(conflict, limit, pairs, env, AllEvents(env, more[..i]), i, more[i]) {
      if i < |rounds| { assert more[..i] == rounds[..i]; }
    }
  }

  /** Nothing is cancelled in a run whose checks see no cancellation. */
  lemma {:induction false} NeverCancelled(conflict: Conflict, limit: nat, pairs: seq<Pair>, env: Environment, rounds: seq<Round>)
    requires InRounds(conflict, limit, pairs, env, rounds) && forall i :: 0 <= i < |rounds| ==> !env.cancelled(i)
    ensures Cancel !in AllEvents(env, rounds)
  {
    if rounds != [] {
      var before := rounds[..|rounds| - 1];
      forall i | 0 <= i < |before| ensures before[..i] == rounds[..i] { }
      NeverCancelled(conflict, limit, pairs, env, before);
      assert RoundAfter(conflict, limit, pairs, env, AllEvents(env, rounds[..|before|]), |before|, rounds[|before|]);
      hide InRounds, RoundAfter;
      NoCancel(env, rounds[|before|]);
    }
  }

  lemma NoCancel(env: Environment, r: Round)
    requires !r.cancel
    ensures Cancel !in Opening(r) && Cancel !in Finishes(env, r.finished)
  {
  }

  /** Every finish carries the ending of its worker. */
  lemma {:induction false} EndingsAreWorkers(env: Environment, rounds: seq<Round>)
    ensures forall e :: 0 <= e < |AllEvents(env, rounds)| && AllEvents(env, rounds)[e].Finish? ==>
              AllEvents(env, rounds)[e].outcome == Ending(env, AllEvents(env, rounds)[e].future)
  {
    hide Ending;
    if rounds != [] { EndingsAreWorkers(env, rounds[..|rounds| - 1]); }
  }

  // ---------- the loop ----------

  method NextRunnable(conflict: Conflict, pending: seq<Pair>, running: map<nat, Pair>) returns (r: Option<nat>)
    ensures r.Some? ==> r.value < |pending| && Free(conflict, pending[r.value], running)
    ensures forall j :: 0 <= j < (if r.Some? then r.value else |pending|) ==> !Free(conflict, pending[j], running)
  {
    for i := 0 to |pending|
      invariant forall j :: 0 <= j < i ==> !Free(conflict, pending[j], running)
    {
      if Free(conflict, pending[i], running) { return Some(i); }
    }
    return None;
  }

  lemma RunExtends(conflict: Conflict, limit: nat, pairs: seq<Pair>, events: seq<Event>, e: Event)
    requires After(conflict, limit, pairs, events).Some? && Allowed(conflict, limit, After(conflict, limit, pairs, events).value, e)
    ensures After(conflict, limit, pairs, events + [e])
         == Some(Apply(conflict, limit, After(conflict, limit, pairs, events).value, e))
  {
    assert (events + [e])[..|events|] == events;
  }

  lemma NumberIsFresh(pairs: seq<Pair>, s: State)
    requires Placed(pairs, s)
    ensures s.submitted !in s.running
  {
    hide DistinctNames, NamesOf, RunningNames;
  }

  lemma Started(conflict: Conflict, limit: nat, s: State, k: nat)
    requires Allowed(conflict, limit, s, Start(k))
    ensures Apply(conflict, limit, s, Start(k))
         == State(s.pending[..k] + s.pending[k + 1..], s.running[s.submitted := s.pending[k]], s.results, s.submitted + 1)
  {
    hide Free;
  }

  /** The local state of one job: what waits, what runs, what is reported. */
  class PairRun {
    const conflict: Conflict
    const limit: nat
    const pairs: seq<Pair>
    var pending: seq<Pair>
    var running: map<nat, Pair>
    var results: map<string, Outcome>
    var submitted: nat
    ghost var events: seq<Event>

    ghost function Now(): State
      reads this
    {
      State(pending, running, results, submitted)
    }

    ghost predicate Valid()
      reads this
    {
      && limit > 0 && Symmetric(conflict) && DistinctNames(pairs)
      && After(conflict, limit, pairs, events) == Some(Now())
    }

    constructor (conflict: Conflict, limit: nat, pairs: seq<Pair>)
      requires limit > 0 && Symmetric(conflict) && DistinctNames(pairs)
      ensures Valid() && Now() == Init(pairs) && events == []
      ensures this.conflict == conflict && this.limit == limit && this.pairs == pairs
    {
      this.conflict, this.limit, this.pairs := conflict, limit, pairs;
      pending, running, results, submitted := pairs, map[], map[], 0;
      events := [];
    }

    /** Reports every waiting pair as cancelled. */
    method CancelPending()
      requires Valid() && pending != []
      modifies this
      ensures Valid() && events == old(events) + [Cancel]
      ensures Now() == Apply(conflict, limit, old(Now()), Cancel)
    {
      for i := 0 to |pending|
        invariant pending == old(pending) && running == old(running)
        invariant submitted == old(submitted) && events == old(events)
        invariant results == WithCancelled(old(results), pending[..i])
      {
        assert pending[..i + 1][..i] == pending[..i];
        results := results[pending[i].name := CancelledBeforeStart];
      }
      assert pending[..|pending|] == pending;
      pending := [];
      events := events + [Cancel];
      RunExtends(conflict, limit, pairs, old(events), Cancel);
    }

    /** Starts waiting pairs while a slot is free and some pair conflicts with nothing running. */
    method StartRunnable() returns (ghost starts: seq<nat>)
      requires Valid()
      modifies this
      ensures Valid() && results == old(results)
      ensures events == old(events) + Starts(starts) && Saturated(conflict, limit, Now())
      ensures Weight(Now()) <= Weight(old(Now()))
      ensures pending != old(pending) ==> Weight(Now()) < Weight(old(Now()))
      ensures pending != [] ==> running != map[]
      ensures |running| >= |old(running)| && (pending == old(pending) ==> running == old(running))
    {
      starts := [];
      assert events + Starts([]) == events;
      while pending != [] && |running| < limit
        invariant Valid() && results == old(results) && events == old(events) + Starts(starts)
        invariant |pending| <= |old(pending)| && |running| >= |old(running)|
        invariant if |pending| == |old(pending)| then Now() == old(Now()) else Weight(Now()) < Weight(old(Now()))
        decreases |pending|
      {
        var next := NextRunnable(conflict, pending, running);
        if next.None? {
          if running == map[] { assert Free(conflict, pending[0], running); }
          break;
        }
        assert Starts(starts + [next.value]) == Starts(starts) + [Start(next.value)];
        StartOne(next.value);
        starts := starts + [next.value];
      }
    }

    method StartOne(k: nat)
      requires Valid() && Allowed(conflict, limit, Now(), Start(k))
      modifies this
      ensures Valid() && events == old(events) + [Start(k)]
      ensures Now() == Apply(conflict, limit, old(Now()), Start(k))
      ensures |pending| == |old(pending)| - 1 && |running| == |old(running)| + 1
    {
      hide After, Placed, Exclusive, Symmetric, DistinctNames, Apply, Free;
      assert k < |pending|;
      RunExtends(conflict, limit, pairs, events, Start(k));
      RunIsSafe(conflict, limit, pairs, events);
      NumberIsFresh(pairs, Now());
      Started(conflict, limit, Now(), k);
      hide Allowed;
      running := running[submitted := pending[k]];
      pending := pending[..k] + pending[k + 1..];
      submitted := submitted + 1;
      events := events + [Start(k)];
    }

    /** Records one finished worker, whatever it returned or raised. */
    method Collect(future: nat, outcome: Outcome)
      requires Valid() && future in running && (outcome.Returned? || outcome.Raised?)
      modifies this
      ensures Valid() && events == old(events) + [Finish(future, outcome)]
      ensures Now() == Apply(conflict, limit, old(Now()), Finish(future, outcome))
      ensures |running| == |old(running)| - 1
    {
      RunExtends(conflict, limit, pairs, events, Finish(future, outcome));
      RunIsSafe(conflict, limit, pairs, events);
      FinishInv(conflict, limit, pairs, Now(), future, outcome);
      results := results[running[future].name := outcome];
      running := running - {future};
      events := events + [Finish(future, outcome)];
    }

    /** Collects the workers found done, in any order. */
    method CollectAll(env: Environment, found: set<nat>) returns (ghost finished: seq<nat>)
      requires Valid() && found <= running.Keys
      modifies this
      ensures Valid() && pending == old(pending) && events == old(events) + Finishes(env, finished)
      ensures Distinct(finished) && (set f | f in finished) == found
      ensures |running| == |old(running)| - |found|
    {
      hide After, Symmetric, DistinctNames, Inv, PairsConflict;
      finished := [];
      assert events + Finishes(env, []) == events;
      var done := found;
      while done != {}
        invariant Valid() && pending == old(pending) && done <= running.Keys && events == old(events) + Finishes(env, finished)
        invariant Distinct(finished) && done <= found && (forall f :: f in finished <==> f in found && f !in done)
        invariant |running| == |old(running)| - |found| + |done|
        decreases done
      {
        var future :| future in done;
        assert Finishes(env, finished + [future]) == Finishes(env, finished) + [Finish(future, Ending(env, future))];
        var outcome := if env.result(future).Some? then Returned(env.result(future).value) else Raised;
        Collect(future, outcome);
        finished := finished + [future];
        done := done - {future};
      }
    }

    /** One round of the job loop: the check, the starts and what the wait finds. */
    method OneRound(env: Environment, i: nat) returns (ghost r: Round)
      requires Valid() && Waits(env) && (pending != [] || running != map[])
      modifies this
      ensures Valid() && Weight(Now()) < Weight(old(Now()))
      ensures RoundAfter(conflict, limit, pairs, env, old(events), i, r)
      ensures events == old(events) + Opening(r) + Finishes(env, r.finished)
    {
      hide After, Saturated, Symmetric, DistinctNames;
      ghost var cancel := env.cancelled(i) && pending != [];
      if env.cancelled(i) && pending != [] {
        CancelPending();
      }
      ghost var cancelling := events;
      ghost var starts := StartRunnable();
      OpeningIs(old(events), cancelling, cancel, starts);
      ghost var opening := Opening(Round(cancel, starts, []));
      ghost var s, finished: seq<nat> := Now(), [];
      assert After(conflict, limit, pairs, old(events) + opening) == Some(s);
      if running != map[] {
        var done := env.completed(i, running.Keys);
        finished := CollectAll(env, done);
      } else {
        assert events + Finishes(env, []) == events;
      }
      assert (set f | f in finished) == if s.running == map[] then {} else env.completed(i, s.running.Keys);
      r := Round(cancel, starts, finished);
      assert Opening(r) == opening;
    }

    /** The job loop: every round cancels exactly when its check sees the cancellation
        while pairs wait, starts all it can, and collects exactly what the wait finds. */
    method Loop(env: Environment) returns (ghost rounds: seq<Round>)
      requires Valid() && Waits(env) && events == []
      modifies this
      ensures Valid() && pending == [] && running == map[]
      ensures InRounds(conflict, limit, pairs, env, rounds) && events == AllEvents(env, rounds)
    {
      hide After, RoundAfter, Opening, Finishes, Symmetric, DistinctNames;
      rounds := [];
      var i := 0;
      while pending != [] || running != map[]
        invariant Valid() && i == |rounds|
        invariant InRounds(conflict, limit, pairs, env, rounds) && events == AllEvents(env, rounds)
        decreases Weight(Now())
      {
        ghost var r := OneRound(env, i);
        OneRoundMore(conflict, limit, pairs, env, rounds, r);
        rounds := rounds + [r];
        i := i + 1;
      }
    }

    /** One result for each selected pair, in selection order. */
    method Report() returns (report: seq<Outcome>)
      requires Valid() && pending == [] && running == map[]
      ensures |report| == |pairs|
      ensures forall i :: 0 <= i < |pairs| ==>
                pairs[i].name in results && report[i] == results[pairs[i].name] && report[i] != NoResult
    {
      RunIsSafe(conflict, limit, pairs, events);
      RunReports(conflict, limit, pairs, events);
      report := seq(|pairs|, i requires 0 <= i < |pairs| reads this =>
        if pairs[i].name in results then results[pairs[i].name] else NoResult);
      forall i | 0 <= i < |pairs| ensures pairs[i].name in results {
        assert pairs[i].name in NamesOf(pairs);
      }
    }
  }

  // ---------- the front of the job ----------

  datatype Configured = Configured(pair: Pair, enabled: bool)

  function EnabledPairs(configured: seq<Configured>): seq<Pair> {
    if configured == [] then []
    else (if configured[0].enabled then [configured[0].pair] else []) + EnabledPairs(configured[1..])
  }

  /** The last pair with the name. */
  function Named(pairs: seq<Pair>, name: string): Option<Pair> {
    if pairs == [] then None
    else if pairs[|pairs| - 1].name == name then Some(pairs[|pairs| - 1])
    else Named(pairs[..|pairs| - 1], name)
  }

  function OfName(pairs: seq<Pair>, name: string): seq<Pair> {
    if name != "" && Named(pairs, name).Some? then [Named(pairs, name).value] else []
  }

  function InOrder(pairs: seq<Pair>, names: seq<string>): seq<Pair> {
    if names == [] then []
    else OfName(pairs, Text.Strip(names[0])) + InOrder(pairs, names[1..])
  }

  /** `_selected_pairs`: the enabled pairs, or those the filter names, in its order. */
  function Selected(configured: seq<Configured>, filter: seq<string>): seq<Pair> {
    if filter == [] then EnabledPairs(configured) else InOrder(EnabledPairs(configured), filter)
  }

  ghost predicate Increasing(ps: seq<nat>) {
    forall i, j :: 0 <= i < j < |ps| ==> ps[i] < ps[j]
  }

  lemma EnabledMore(configured: seq<Configured>, c: Configured)
    ensures EnabledPairs(configured + [c]) == EnabledPairs(configured) + if c.enabled then [c.pair] else []
  {
    if configured != [] {
      assert (configured + [c])[1..] == configured[1..] + [c];
    }
  }

  lemma {:induction false} InOrderMore(pairs: seq<Pair>, names: seq<string>, name: string)
    ensures InOrder(pairs, names + [name]) == InOrder(pairs, names) + OfName(pairs, Text.Strip(name))
  {
    hide OfName, Text.Strip;
    if names == [] {
      assert names + [name] == [name];
    } else {
      assert (names + [name])[1..] == names[1..] + [name];
      InOrderMore(pairs, names[1..], name);
    }
  }

  /** Without a filter exactly the enabled pairs are selected, in configured order. */
  lemma {:induction false} UnfilteredAreEnabled(configured: seq<Configured>) returns (ps: seq<nat>)
    ensures Increasing(ps) && forall k: nat :: k in ps <==> k < |configured| && configured[k].enabled
    ensures |Selected(configured, [])| == |ps|
    ensures forall i :: 0 <= i < |ps| ==> ps[i] < |configured| && Selected(configured, [])[i] == configured[ps[i]].pair
  {
    if configured == [] { return []; }
    var n := |configured| - 1;
    var before := configured[..n];
    ps := UnfilteredAreEnabled(before);
    assert before + [configured[n]] == configured;
    EnabledMore(before, configured[n]);
    assert forall i :: 0 <= i < |ps| ==> ps[i] in ps;
    if configured[n].enabled { ps := ps + [n]; }
  }

  /** Position k holds the last enabled pair of the name. */
  ghost predicate LastNamed(configured: seq<Configured>, name: string, k: nat) {
    && k < |configured| && configured[k].enabled && configured[k].pair.name == name
    && forall j :: k < j < |configured| && configured[j].enabled ==> configured[j].pair.name != name
  }

  ghost predicate IsNamed(configured: seq<Configured>, name: string) {
    exists k :: 0 <= k < |configured| && configured[k].enabled && configured[k].pair.name == name
  }

  lemma NamedMore(pairs: seq<Pair>, pair: Pair, name: string)
    ensures Named(pairs + [pair], name) == if pair.name == name then Some(pair) else Named(pairs, name)
  {
    assert (pairs + [pair])[..|pairs|] == pairs;
  }

  /** Either no enabled pair has the name, or k is the position of the last one. */
  ghost predicate Locates(configured: seq<Configured>, name: string, k: nat, found: Option<Pair>) {
    && (found.Some? <==> IsNamed(configured, name))
    && (found.Some? ==> LastNamed(configured, name, k) && found.value == configured[k].pair)
  }

  lemma LocatesMore(before: seq<Configured>, c: Configured, name: string, k: nat, found: Option<Pair>)
    requires Locates(before, name, k, found)
    ensures if c.enabled && c.pair.name == name
            then Locates(before + [c], name, |before|, Some(c.pair))
            else Locates(before + [c], name, k, found)
  {
    var more := before + [c];
    assert forall i :: 0 <= i < |before| ==> more[i] == before[i];
    assert more[|before|] == c;
  }

  lemma {:induction false} NamedIsLast(configured: seq<Configured>, name: string) returns (k: nat)
    ensures Locates(configured, name, k, Named(EnabledPairs(configured), name))
  {
    if configured == [] { return 0; }
    var n := |configured| - 1;
    var before, c := configured[..n], configured[n];
    assert before + [c] == configured;
    k := NamedIsLast(before, name);
    hide Locates;
    EnabledMore(before, c);
    if c.enabled { NamedMore(EnabledPairs(before), c.pair, name); }
    hide EnabledPairs, Named;
    LocatesMore(before, c, name, k, Named(EnabledPairs(before), name));
    if c.enabled && c.pair.name == name { k := n; }
    else if !c.enabled { assert EnabledPairs(before) + [] == EnabledPairs(before); }
  }

  /** Exactly these names of the filter are the stripped name of an enabled pair. */
  ghost predicate ChoosingNames(configured: seq<Configured>, filter: seq<string>, qs: seq<nat>) {
    Increasing(qs) && forall j: nat :: j in qs <==> j < |filter| && Chooses(configured, filter[j])
  }

  ghost predicate Chooses(configured: seq<Configured>, name: string) {
    Text.Strip(name) != "" && IsNamed(configured, Text.Strip(name))
  }

  lemma ChoosingMore(configured: seq<Configured>, filter: seq<string>, name: string, qs: seq<nat>)
    requires ChoosingNames(configured, filter, qs)
    ensures ChoosingNames(configured, filter + [name], if Chooses(configured, name) then qs + [|filter|] else qs)
  {
    hide Chooses;
    assert forall i :: 0 <= i < |qs| ==> qs[i] in qs;
  }

  /** The pairs at positions ks are the last enabled ones of the names at positions qs. */
  ghost predicate LastOfEach(configured: seq<Configured>, filter: seq<string>, qs: seq<nat>, ks: seq<nat>, pairs: seq<Pair>) {
    && |pairs| == |qs| == |ks|
    && forall i :: 0 <= i < |qs| ==> LastOf(configured, filter, qs[i], ks[i], pairs[i])
  }

  ghost predicate LastOf(configured: seq<Configured>, filter: seq<string>, q: nat, k: nat, pair: Pair) {
    q < |filter| && LastNamed(configured, Text.Strip(filter[q]), k) && pair == configured[k].pair
  }

  lemma LastOfMore(configured: seq<Configured>, filter: seq<string>, name: string, qs: seq<nat>, ks: seq<nat>, pairs: seq<Pair>)
    requires LastOfEach(configured, filter, qs, ks, pairs)
    ensures LastOfEach(configured, filter + [name], qs, ks, pairs)
  {
    hide LastNamed, Text.Strip;
  }

  lemma LastOfOneMore(configured: seq<Configured>, filter: seq<string>, qs: seq<nat>, ks: seq<nat>, pairs: seq<Pair>, q: nat, k: nat, pair: Pair)
    requires LastOfEach(configured, filter, qs, ks, pairs) && LastOf(configured, filter, q, k, pair)
    ensures LastOfEach(configured, filter, qs + [q], ks + [k], pairs + [pair])
  {
    hide LastOf;
  }

  /** With a filter the selected pairs are, for each of its names that is the stripped
      name of an enabled pair and in its order, the last enabled pair of that name. */
  lemma {:induction false} FilteredAreNamed(configured: seq<Configured>, filter: seq<string>) returns (qs: seq<nat>, ks: seq<nat>)
    requires filter != []
    ensures ChoosingNames(configured, filter, qs)
    ensures LastOfEach(configured, filter, qs, ks, Selected(configured, filter))
  {
    qs, ks := OrderedAreNamed(configured, filter);
  }

  lemma {:induction false} OrderedAreNamed(configured: seq<Configured>, filter: seq<string>) returns (qs: seq<nat>, ks: seq<nat>)
    ensures ChoosingNames(configured, filter, qs)
    ensures LastOfEach(configured, filter, qs, ks, InOrder(EnabledPairs(configured), filter))
  {
    hide IsNamed, Named, EnabledPairs, LastNamed, Text.Strip;
    if filter == [] { return [], []; }
    var n := |filter| - 1;
    assert filter == filter[..n] + [filter[n]];
    qs, ks := OrderedAreNamed(configured, filter[..n]);
    hide LastOfEach, ChoosingNames, Locates;
    var enabled := EnabledPairs(configured);
    var k := NamedIsLast(configured, Text.Strip(filter[n]));
    InOrderMore(enabled, filter[..n], filter[n]);
    qs, ks := OneNameMore(configured, enabled, filter[..n], filter[n], qs, ks, InOrder(enabled, filter[..n]), k);
  }

  lemma OneNameMore(configured: seq<Configured>, enabled: seq<Pair>, before: seq<string>, name: string, qs: seq<nat>, ks: seq<nat>, pairs: seq<Pair>, k: nat)
      returns (qs': seq<nat>, ks': seq<nat>)
    requires ChoosingNames(configured, before, qs) && LastOfEach(configured, before, qs, ks, pairs)
    requires Locates(configured, Text.Strip(name), k, Named(enabled, Text.Strip(name)))
    ensures ChoosingNames(configured, before + [name], qs')
    ensures LastOfEach(configured, before + [name], qs', ks', pairs + OfName(enabled, Text.Strip(name)))
  {
    hide IsNamed, Named, LastOfEach, ChoosingNames, LastNamed, Text.Strip;
    ChoosingMore(configured, before, name, qs);
    LastOfMore(configured, before, name, qs, ks, pairs);
    if Chooses(configured, name) {
      LastNamedAt(configured, Text.Strip(name), k);
      LastOfOneMore(configured, before + [name], qs, ks, pairs, |before|, k, configured[k].pair);
      qs', ks' := qs + [|before|], ks + [k];
    } else {
      assert pairs + [] == pairs;
      qs', ks' := qs, ks;
    }
  }

  lemma LastNamedAt(configured: seq<Configured>, name: string, k: nat)
    requires LastNamed(configured, name, k)
    ensures k < |configured|
  {
  }

  datatype JobReport = Disabled | NothingSelected | UnnamedPair | DuplicateNames | Ran(outcomes: seq<Outcome>, overlapping: bool)

  /** The checks before the run; `parallel` is the configured number of workers, already between 1 and 16. */
  method RunJob(host: Host, enabled: bool, configured: seq<Configured>, filter: seq<string>, parallel: nat, env: Environment) returns (r: JobReport)
    requires parallel > 0 && Waits(env)
    ensures var pairs := Selected(configured, filter);
            && (r.Disabled? <==> !enabled)
            && (r.NothingSelected? <==> enabled && pairs == [])
            && (r.UnnamedPair? ==> exists i :: 0 <= i < |pairs| && Text.Strip(pairs[i].name) == "")
            && (r.DuplicateNames? || r.Ran? ==> forall i :: 0 <= i < |pairs| ==> Text.Strip(pairs[i].name) != "")
            && (r.DuplicateNames? ==> exists i, j :: 0 <= i < j < |pairs| && host.fold(Text.Strip(pairs[i].name)) == host.fold(Text.Strip(pairs[j].name)))
            && (r.Ran? ==> forall i, j :: 0 <= i < j < |pairs| ==> host.fold(Text.Strip(pairs[i].name)) != host.fold(Text.Strip(pairs[j].name)))
            && (r.Ran? ==> (r.overlapping <==> exists i, j :: 0 <= i < j < |pairs| && EndpointsOverlap(host, pairs[i], pairs[j]))
                           && exists rounds: seq<Round> :: CompleteRun(host, pairs, parallel, env, rounds, r.outcomes))
  {
    hide PairsConflict, EndpointsOverlap, Text.Strip;
    if !enabled { return Disabled; }
    var pairs := Selected(configured, filter);
    if pairs == [] { return NothingSelected; }
    if !AllNamed(pairs) { return UnnamedPair; }
    if !DistinctFolded(host, pairs) {
      return DuplicateNames;
    }
    DistinctFoldedNames(host, pairs);
    var report := RunSelected(host, pairs, parallel, env);
    forall i, j | 0 <= i < j < |pairs| ensures PairsConflict(host, pairs[i], pairs[j]) <==> EndpointsOverlap(host, pairs[i], pairs[j]) {
      ConflictIsOverlap(host, pairs[i], pairs[j]);
    }
    return Ran(report, HasOverlappingPairs(host, pairs));
  }

  method RunSelected(host: Host, pairs: seq<Pair>, parallel: nat, env: Environment) returns (report: seq<Outcome>)
    requires parallel > 0 && pairs != [] && DistinctNames(pairs) && Waits(env)
    ensures exists rounds: seq<Round> :: CompleteRun(host, pairs, parallel, env, rounds, report)
  {
    PlannedSymmetric(host);
    var run := new PairRun(Planned(host), Workers(pairs, parallel), pairs);
    ghost var rounds := run.Loop(env);
    report := run.Report();
    RunKeepsApart(host, Workers(pairs, parallel), pairs, run.events);
    assert CompleteRun(host, pairs, parallel, env, rounds, report);
  }

  function Planned(host: Host): Conflict {
    (a: Pair, b: Pair) => PairsConflict(host, a, b)
  }

  lemma PlannedSymmetric(host: Host)
    ensures Symmetric(Planned(host))
  {
    forall a: Pair, b: Pair ensures Planned(host)(a, b) <==> Planned(host)(b, a) {
      ConflictSymmetric(host, a, b);
    }
  }

  function Workers(pairs: seq<Pair>, parallel: nat): nat {
    if parallel < |pairs| then parallel else |pairs|
  }

  predicate AllNamed(pairs: seq<Pair>) {
    forall i :: 0 <= i < |pairs| ==> Text.Strip(pairs[i].name) != ""
  }

  predicate DistinctFolded(host: Host, pairs: seq<Pair>) {
    forall i, j :: 0 <= i < j < |pairs| ==> host.fold(Text.Strip(pairs[i].name)) != host.fold(Text.Strip(pairs[j].name))
  }

  lemma DistinctFoldedNames(host: Host, pairs: seq<Pair>)
    requires DistinctFolded(host, pairs)
    ensures DistinctNames(pairs)
  {
  }

  /** At no moment do two workers run whose endpoints overlap, nor more than allowed. */
  ghost predicate KeepsApart(host: Host, limit: nat, pairs: seq<Pair>, events: seq<Event>) {
    forall k :: 0 <= k <= |events| && After(Planned(host), limit, pairs, events[..k]).Some? ==>
      var running := After(Planned(host), limit, pairs, events[..k]).value.running;
      |running| <= limit && forall f, g :: f in running && g in running && f != g ==> !EndpointsOverlap(host, running[f], running[g])
  }

  lemma RunKeepsApart(host: Host, limit: nat, pairs: seq<Pair>, events: seq<Event>)
    requires DistinctNames(pairs)
    ensures KeepsApart(host, limit, pairs, events)
  {
    hide PairsConflict, EndpointsOverlap, After;
    PlannedSymmetric(host);
    forall k | 0 <= k <= |events| && After(Planned(host), limit, pairs, events[..k]).Some?
      ensures var running := After(Planned(host), limit, pairs, events[..k]).value.running;
              |running| <= limit && forall f, g :: f in running && g in running && f != g ==> !EndpointsOverlap(host, running[f], running[g])
    {
      RunIsSafe(Planned(host), limit, pairs, events[..k]);
      forall p: Pair, q: Pair ensures PairsConflict(host, p, q) <==> EndpointsOverlap(host, p, q) { ConflictIsOverlap(host, p, q); }
    }
  }

  /** These rounds are a run to the end with as many workers as there are pairs and
      configured workers, and these are its results in selection order. */
  ghost predicate CompleteRun(host: Host, pairs: seq<Pair>, parallel: nat, env: Environment, rounds: seq<Round>, outcomes: seq<Outcome>) {
    var limit := if parallel < |pairs| then parallel else |pairs|;
    var events := AllEvents(env, rounds);
    var end := After(Planned(host), limit, pairs, events);
    && InRounds(Planned(host), limit, pairs, env, rounds)
    && KeepsApart(host, limit, pairs, events)
    && end.Some? && end.value.pending == [] && end.value.running == map[]
    && |outcomes| == |pairs|
    && forall i :: 0 <= i < |pairs| ==>
         pairs[i].name in end.value.results && outcomes[i] == end.value.results[pairs[i].name] && outcomes[i] != NoResult
  }

  /** Pair i was started, and this is how its worker ended. */
  ghost predicate RanPair(host: Host, limit: nat, pairs: seq<Pair>, env: Environment, events: seq<Event>, i: nat, outcome: Outcome) {
    exists s, e, f :: i < |pairs| && RanTo(Planned(host), limit, pairs, events, s, e, f, pairs[i], outcome)
                       && outcome == match env.result(f) case Some(ok) => Returned(ok) case None => Raised
  }

  /** When no check sees a cancellation every selected pair is started, and what is
      reported for it is how its own worker ended. */
  lemma UncancelledRuns(host: Host, pairs: seq<Pair>, parallel: nat, env: Environment, rounds: seq<Round>, outcomes: seq<Outcome>, i: nat)
    requires DistinctNames(pairs) && CompleteRun(host, pairs, parallel, env, rounds, outcomes)
    requires (forall k :: 0 <= k < |rounds| ==> !env.cancelled(k)) && i < |pairs|
    ensures RanPair(host, if parallel < |pairs| then parallel else |pairs|, pairs, env, AllEvents(env, rounds), i, outcomes[i])
  {
    hide After, AllEvents, RanTo, KeepsApart;
    var limit := if parallel < |pairs| then parallel else |pairs|;
    NeverCancelled(Planned(host), limit, pairs, env, rounds);
    hide InRounds;
    EndingsAreWorkers(env, rounds);
    var events := AllEvents(env, rounds);
    var s, e, f, pair := ReportedRan(Planned(host), limit, pairs, events, pairs[i].name);
    RanSelected(Planned(host), limit, pairs, events, s, e, f, pair, outcomes[i]);
    var j :| 0 <= j < |pairs| && pairs[j] == pair;
    assert j == i;
    RanFinish(Planned(host), limit, pairs, events, s, e, f, pair, outcomes[i]);
  }

  lemma RanFinish(conflict: Conflict, limit: nat, pairs: seq<Pair>, events: seq<Event>, s: nat, e: nat, f: nat, pair: Pair, outcome: Outcome)
    requires RanTo(conflict, limit, pairs, events, s, e, f, pair, outcome)
    ensures e < |events| && events[e] == Finish(f, outcome)
  {
  }

  lemma RanSelected(conflict: Conflict, limit: nat, pairs: seq<Pair>, events: seq<Event>, s: nat, e: nat, f: nat, pair: Pair, outcome: Outcome)
    requires RanTo(conflict, limit, pairs, events, s, e, f, pair, outcome)
    ensures pair in pairs
  {
    WaitingSelected(conflict, limit, pairs, events[..s]);
  }

  lemma {:induction false} WaitingSelected(conflict: Conflict, limit: nat, pairs: seq<Pair>, events: seq<Event>)
    requires After(conflict, limit, pairs, events).Some?
    ensures forall p :: p in After(conflict, limit, pairs, events).value.pending ==> p in pairs
  {
    if events != [] { WaitingSelected(conflict, limit, pairs, events[..|events| - 1]); }
  }
}
