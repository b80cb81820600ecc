/**
  Byte-budgeted choice of files for a restore test (app/jobs/restore_sampling.py).

  A sample is described by the set of positions it takes from the eligible files;
  `Pick` lists those files in input order.  The heap pass is proved optimal by an
  exchange argument on `Settled`: no skipped file precedes a kept one in
  (size, position) order, and none would still fit.
*/
module RestoreSampling {
  import opened Results

  // `None` stands for a value of the wrong type (booleans are not sizes).
  datatype Candidate = Malformed | Tuple(path: Option<string>, size: Option<int>)

  datatype File = File(path: string, size: nat)

  datatype Limit = Integer(n: int) | OtherType

  datatype SamplingError = LimitsMustBeIntegers

  // ---------- eligible files ----------

  predicate Usable(c: Candidate, budget: nat) {
    c.Tuple? && c.path.Some? && c.path.value != "" && c.size.Some? && 0 <= c.size.value <= budget
  }

  /** The candidate at k is usable and no earlier usable candidate has its path. */
  predicate FirstUsable(cs: seq<Candidate>, budget: nat, k: nat)
    requires k < |cs|
  {
    && Usable(cs[k], budget)
    && forall j :: 0 <= j < k && Usable(cs[j], budget) ==> cs[j].path != cs[k].path
  }

  /** The files of the first usable occurrences among the first n candidates, in order. */
  function Eligible(cs: seq<Candidate>, budget: nat, n: nat): (es: seq<File>)
    requires n <= |cs|
    ensures |es| <= n
    ensures forall i :: 0 <= i < |es| ==> es[i].path != "" && es[i].size <= budget
  {
    if n == 0 then []
    else
      var rest := Eligible(cs, budget, n - 1);
      if FirstUsable(cs, budget, n - 1) then rest + [File(cs[n - 1].path.value, cs[n - 1].size.value)] else rest
  }

  /** Some usable candidate among the first n has path p. */
  predicate Offered(cs: seq<Candidate>, budget: nat, n: nat, p: string)
    requires n <= |cs|
  {
    exists k :: 0 <= k < n && Usable(cs[k], budget) && cs[k].path.value == p
  }

  /** No two eligible files share a path, and every usable path is eligible. */
  lemma {:induction false} EligiblePaths(cs: seq<Candidate>, budget: nat, n: nat)
    requires n <= |cs|
    ensures var es := Eligible(cs, budget, n);
            && (forall i, j :: 0 <= i < j < |es| ==> es[i].path != es[j].path)
            && (forall i :: 0 <= i < |es| ==> Offered(cs, budget, n, es[i].path))
            && (forall p :: Offered(cs, budget, n, p) ==> exists i :: 0 <= i < |es| && es[i].path == p)
  {
    if n > 0 {
      EligiblePaths(cs, budget, n - 1);
      var rest, es := Eligible(cs, budget, n - 1), Eligible(cs, budget, n);
      assert forall p :: Offered(cs, budget, n - 1, p) ==> Offered(cs, budget, n, p);
      if FirstUsable(cs, budget, n - 1) {
        assert es[|rest|].path == cs[n - 1].path.value && Offered(cs, budget, n, cs[n - 1].path.value);
      }
      forall p | Offered(cs, budget, n, p) ensures exists i :: 0 <= i < |es| && es[i].path == p {
        if Offered(cs, budget, n - 1, p) {
          var i :| 0 <= i < |rest| && rest[i].path == p;
          assert es[i].path == p;
        }
      }
    }
  }

  // ---------- samples as sets of positions ----------

  function Total(fs: seq<File>): nat {
    if fs == [] then 0 else Total(fs[..|fs| - 1]) + fs[|fs| - 1].size
  }

  /** The files at the positions of S among the first n, in input order. */
  function Pick(es: seq<File>, S: set<nat>, n: nat): (fs: seq<File>)
    requires n <= |es|
  {
    if n == 0 then []
    else if n - 1 in S then Pick(es, S, n - 1) + [es[n - 1]]
    else Pick(es, S, n - 1)
  }

  /** How many of the first n positions S takes, and their bytes. */
  ghost function Count(S: set<nat>, n: nat): nat {
    if n == 0 then 0 else Count(S, n - 1) + if n - 1 in S then 1 else 0
  }

  ghost function Bytes(es: seq<File>, S: set<nat>, n: nat): nat
    requires n <= |es|
  {
    if n == 0 then 0 else Bytes(es, S, n - 1) + if n - 1 in S then es[n - 1].size else 0
  }

  ghost predicate Fits(es: seq<File>, S: set<nat>, n: nat, budget: nat)
    requires n <= |es|
  {
    Bytes(es, S, n) <= budget
  }

  lemma {:induction false} PickMeasures(es: seq<File>, S: set<nat>, n: nat)
    requires n <= |es|
    ensures |Pick(es, S, n)| == Count(S, n) && Total(Pick(es, S, n)) == Bytes(es, S, n)
  {
    if n > 0 {
      PickMeasures(es, S, n - 1);
      var fs := Pick(es, S, n - 1);
      assert (fs + [es[n - 1]])[..|fs|] == fs;
    }
  }

  lemma {:induction false} Frame(es: seq<File>, S: set<nat>, T: set<nat>, n: nat)
    requires n <= |es| && forall i :: 0 <= i < n ==> (i in S <==> i in T)
    ensures Count(S, n) == Count(T, n) && Bytes(es, S, n) == Bytes(es, T, n)
    ensures Pick(es, S, n) == Pick(es, T, n)
  {
    if n > 0 { Frame(es, S, T, n - 1); }
  }

  /** Dropping one position drops one file and its bytes. */
  lemma {:induction false} Remove(es: seq<File>, S: set<nat>, p: nat, n: nat)
    requires n <= |es| && p < n && p in S
    ensures Count(S - {p}, n) == Count(S, n) - 1
    ensures Bytes(es, S - {p}, n) == Bytes(es, S, n) - es[p].size
  {
    if p == n - 1 {
      Frame(es, S, S - {p}, n - 1);
    } else {
      Remove(es, S, p, n - 1);
    }
  }

  /** Positions past the last taken one add nothing. */
  lemma {:induction false} Tail(es: seq<File>, S: set<nat>, m: nat, n: nat)
    requires m <= n <= |es| && forall i :: i in S ==> i < m
    ensures Count(S, n) == Count(S, m) && Bytes(es, S, n) == Bytes(es, S, m)
    ensures Pick(es, S, n) == Pick(es, S, m)
  {
    if m < n { Tail(es, S, m, n - 1); }
  }

  // ---------- the exchange argument ----------

  /** w for every position taken. */
  ghost function Price(S: set<nat>, n: nat, w: nat): nat {
    if n == 0 then 0 else Price(S, n - 1, w) + if n - 1 in S then w else 0
  }

  lemma {:induction false} PriceIsProduct(S: set<nat>, n: nat, w: nat)
    ensures Price(S, n, w) == w * Count(S, n)
  {
    if n > 0 {
      PriceIsProduct(S, n - 1, w);
      assert w * (Count(S, n - 1) + 1) == w * Count(S, n - 1) + w;
    }
  }

  lemma {:induction false} ExchangePrices(es: seq<File>, S: set<nat>, T: set<nat>, n: nat, w: nat)
    requires n <= |es|
    requires forall i :: 0 <= i < n ==> if i in S then es[i].size <= w else w <= es[i].size
    ensures Bytes(es, T, n) - Bytes(es, S, n) >= Price(T, n, w) - Price(S, n, w)
  {
    if n > 0 { ExchangePrices(es, S, T, n - 1, w); }
  }

  /** When w separates kept sizes from skipped ones, every other sample pays at
      least w for each file it holds more than the kept one. */
  lemma Exchange(es: seq<File>, S: set<nat>, T: set<nat>, n: nat, w: nat)
    requires n <= |es|
    requires forall i :: 0 <= i < n ==> if i in S then es[i].size <= w else w <= es[i].size
    ensures Bytes(es, T, n) - Bytes(es, S, n) >= w * (Count(T, n) - Count(S, n))
  {
    ExchangePrices(es, S, T, n, w);
    PriceIsProduct(S, n, w);
    PriceIsProduct(T, n, w);
    assert w * (Count(T, n) - Count(S, n)) == w * Count(T, n) - w * Count(S, n);
  }

  // ---------- what the eviction heap keeps ----------

  /** Eviction order: the larger file goes first, the later one on equal sizes. */
  predicate Before(es: seq<File>, i: nat, j: nat)
    requires i < |es| && j < |es|
  {
    es[i].size < es[j].size || (es[i].size == es[j].size && i < j)
  }

  /** S takes only among the first n, and each taken position comes before each skipped one. */
  ghost predicate Smallest(es: seq<File>, S: set<nat>, n: nat)
    requires n <= |es|
  {
    && (forall i :: i in S ==> i < n)
    && forall i, j | i in S && 0 <= j < n && j !in S :: Before(es, i, j)
  }

  /** The heap invariant: the kept files fit, are the smallest, and no skipped file fits as well. */
  ghost predicate Settled(es: seq<File>, S: set<nat>, n: nat, budget: nat)
    requires n <= |es|
  {
    && Smallest(es, S, n)
    && Fits(es, S, n, budget)
    && forall j :: 0 <= j < n && j !in S ==> Bytes(es, S, n) + es[j].size > budget
  }

  /** A size that separates a settled sample from what it skipped; too large to add once more. */
  lemma {:induction false} Separator(es: seq<File>, S: set<nat>, n: nat, above: nat, k: nat) returns (w: nat)
    requires k <= n <= |es| && Smallest(es, S, n)
    requires forall i :: i in S ==> es[i].size <= above
    ensures forall j :: 0 <= j < k && j !in S ==> w <= es[j].size
    ensures w == above || exists j :: 0 <= j < k && j !in S && w == es[j].size
    ensures forall i :: i in S ==> es[i].size <= w
  {
    if k == 0 {
      w := above;
    } else {
      w := Separator(es, S, n, above, k - 1);
      if k - 1 !in S && es[k - 1].size < w {
        w := es[k - 1].size;
        assert forall i :: i in S ==> Before(es, i, k - 1);
      }
    }
  }

  function LargestSize(es: seq<File>): (w: nat)
    ensures forall i :: 0 <= i < |es| ==> es[i].size <= w
  {
    if es == [] then 0
    else
      var w := LargestSize(es[..|es| - 1]);
      if w < es[|es| - 1].size then es[|es| - 1].size else w
  }

  /** A settled sample has maximum feasible cardinality, and least bytes among
      all samples at least that large. */
  lemma SettledIsOptimal(es: seq<File>, S: set<nat>, n: nat, budget: nat, T: set<nat>)
    requires n <= |es| && Settled(es, S, n, budget)
    ensures Fits(es, T, n, budget) ==> Count(T, n) <= Count(S, n)
    ensures Count(T, n) >= Count(S, n) ==> Bytes(es, T, n) >= Bytes(es, S, n)
  {
    var w := Separator(es, S, n, LargestSize(es) + budget + 1, n);
    Exchange(es, S, T, n, w);
    AtLeastOnce(w, Count(T, n) - Count(S, n));
  }

  lemma AtLeastOnce(w: nat, d: int)
    ensures d > 0 ==> w * d >= w
    ensures d == 0 ==> w * d == 0
  {
    if d > 0 { assert w * d == w + w * (d - 1); }
  }

  /** Pushing a file that fits keeps the sample settled. */
  lemma SettledPush(es: seq<File>, S: set<nat>, n: nat, budget: nat)
    requires n < |es| && Settled(es, S, n, budget)
    requires Bytes(es, S, n) + es[n].size <= budget
    ensures Settled(es, S + {n}, n + 1, budget)
    ensures Bytes(es, S + {n}, n + 1) == Bytes(es, S, n) + es[n].size
    ensures Count(S + {n}, n + 1) == Count(S, n) + 1
  {
    Frame(es, S, S + {n}, n);
    forall i, j | i in S + {n} && 0 <= j < n + 1 && j !in S + {n} ensures Before(es, i, j) {
      if i == n { assert Bytes(es, S, n) + es[j].size > budget; }
    }
  }

  /** Pushing a file that does not fit and evicting the last in eviction order keeps it settled. */
  lemma SettledEvict(es: seq<File>, S: set<nat>, n: nat, budget: nat, p: nat)
    requires n < |es| && Settled(es, S, n, budget)
    requires Bytes(es, S, n) + es[n].size > budget
    requires p in S + {n} && forall i :: i in S + {n} && i != p ==> Before(es, i, p)
    ensures Settled(es, (S + {n}) - {p}, n + 1, budget)
    ensures Bytes(es, (S + {n}) - {p}, n + 1) == Bytes(es, S, n) + es[n].size - es[p].size
    ensures Count((S + {n}) - {p}, n + 1) == Count(S, n)
  {
    Frame(es, S, S + {n}, n);
    Remove(es, S + {n}, p, n + 1);
    var V := (S + {n}) - {p};
    forall i, j | i in V && 0 <= j < n + 1 && j !in V ensures Before(es, i, j) {
      if j != p && i == n { assert Before(es, n, p) && Before(es, p, j); }
    }
    forall j | 0 <= j < n + 1 && j !in V ensures Bytes(es, V, n + 1) + es[j].size > budget {
      if j != p && p != n { assert Before(es, p, j); }
    }
  }

  // ---------- the order-greedy choice ----------

  /** Positions taken in input order while they fit, until `want` are taken. */
  ghost function Greedy(es: seq<File>, n: nat, want: nat, budget: nat): (g: set<nat>)
    requires n <= |es|
    ensures forall i :: i in g ==> i < n
  {
    if n == 0 then {}
    else
      var g := Greedy(es, n - 1, want, budget);
      if Count(g, n - 1) < want && Bytes(es, g, n - 1) + es[n - 1].size <= budget then g + {n - 1} else g
  }

  ghost function GreedyFiles(es: seq<File>, n: nat, want: nat, budget: nat): seq<File>
    requires n <= |es|
  {
    Pick(es, Greedy(es, n, want, budget), n)
  }

  /** One more file extends the greedy list at its end when it fits and is wanted. */
  lemma {:induction false} GreedyStep(es: seq<File>, n: nat, want: nat, budget: nat)
    requires n < |es|
    ensures var fs := GreedyFiles(es, n, want, budget);
            GreedyFiles(es, n + 1, want, budget)
            == if |fs| < want && Total(fs) + es[n].size <= budget then fs + [es[n]] else fs
  {
    var g := Greedy(es, n, want, budget);
    PickMeasures(es, g, n);
    Frame(es, g, g + {n}, n);
  }

  lemma {:induction false} GreedyFits(es: seq<File>, n: nat, want: nat, budget: nat)
    requires n <= |es|
    ensures Total(GreedyFiles(es, n, want, budget)) <= budget && |GreedyFiles(es, n, want, budget)| <= want
  {
    if n > 0 {
      GreedyFits(es, n - 1, want, budget);
      GreedyStep(es, n - 1, want, budget);
      TotalPush(GreedyFiles(es, n - 1, want, budget), es[n - 1]);
    }
  }

  lemma TotalPush(fs: seq<File>, f: File)
    ensures Total(fs + [f]) == Total(fs) + f.size
  {
    assert (fs + [f])[..|fs|] == fs;
  }

  /** A full greedy choice is never extended by later files. */
  lemma {:induction false} GreedyDone(es: seq<File>, m: nat, n: nat, want: nat, budget: nat)
    requires m <= n <= |es| && |GreedyFiles(es, m, want, budget)| == want
    ensures GreedyFiles(es, n, want, budget) == GreedyFiles(es, m, want, budget)
  {
    if m < n {
      GreedyDone(es, m, n - 1, want, budget);
      GreedyStep(es, n - 1, want, budget);
    }
  }

  // ---------- the selection ----------

  /** No sample of the first n files that fits has `want` files. */
  ghost predicate TooFew(es: seq<File>, n: nat, want: nat, budget: nat)
    requires n <= |es|
  {
    forall T: set<nat> :: Bytes(es, T, n) <= budget ==> Count(T, n) < want
  }

  /** fs is what the heap keeps of the first m files, m being the whole list or
      the least prefix that can hold `want` files: the least bytes any sample
      that large needs, ties kept earliest-first. */
  ghost predicate HeapChoice(es: seq<File>, fs: seq<File>, want: nat, S: set<nat>, m: nat, budget: nat) {
    && m <= |es|
    && Smallest(es, S, m)
    && fs == Pick(es, S, m)
    && (forall T: set<nat> :: Count(T, m) >= |fs| ==> Bytes(es, T, m) >= Total(fs))
    && (m == |es| || |fs| == want)
    && (m > 0 ==> TooFew(es, m - 1, want, budget))
  }

  /** What the helper promises of its result for valid limits. */
  ghost predicate IsBestSample(es: seq<File>, fs: seq<File>, want: nat, budget: nat) {
    var greedy := GreedyFiles(es, |es|, want, budget);
    // an input-ordered part of the eligible files that fits the budget
    && (exists S: set<nat> :: fs == Pick(es, S, |es|))
    && Total(fs) <= budget
    // as many files as feasible, up to the wanted number
    && |fs| <= want
    && (forall T: set<nat> :: Bytes(es, T, |es|) <= budget ==> |fs| == want || Count(T, |es|) <= |fs|)
    // the greedy choice whenever it has as many, otherwise the heap's
    && (if |fs| == |greedy| then fs == greedy
        else exists S: set<nat>, m: nat :: HeapChoice(es, fs, want, S, m, budget))
  }

  // ---------- the selection, said of the candidates ----------

  ghost predicate Increasing(ps: seq<nat>) {
    forall i, j :: 0 <= i < j < |ps| ==> ps[i] < ps[j]
  }

  /** The candidate at k is this file, its size within the budget, and no earlier
      candidate offers the path with a size within the budget. */
  ghost predicate FirstOf(cs: seq<Candidate>, budget: nat, f: File, k: nat) {
    && k < |cs| && cs[k] == Tuple(Some(f.path), Some(f.size)) && f.path != "" && f.size <= budget
    && forall j: nat, size: nat :: j < k && size <= budget ==> cs[j] != Tuple(Some(f.path), Some(size))
  }

  /** The files stand at these positions, in order. */
  ghost predicate FilesAt(cs: seq<Candidate>, budget: nat, fs: seq<File>, ps: seq<nat>) {
    && |ps| == |fs| && Increasing(ps)
    && forall i :: 0 <= i < |fs| ==> FirstOf(cs, budget, fs[i], ps[i])
  }

  ghost predicate AllBelow(ps: seq<nat>, end: nat) {
    forall i :: 0 <= i < |ps| ==> ps[i] < end
  }

  /** How many of the positions come before k. */
  ghost function Below(ps: seq<nat>, k: nat): (b: nat)
    ensures b <= |ps|
  {
    if ps == [] then 0 else Below(ps[..|ps| - 1], k) + if ps[|ps| - 1] < k then 1 else 0
  }

  /** Each file is taken exactly when fewer than `want` are taken before it and it fits with them. */
  ghost predicate GreedyAt(cs: seq<Candidate>, budget: nat, want: nat, fs: seq<File>, ps: seq<nat>) {
    && FilesAt(cs, budget, fs, ps)
    && forall f: File, k: nat :: FirstOf(cs, budget, f, k) ==>
         (k in ps <==> Below(ps, k) < want && Total(fs[..Below(ps, k)]) + f.size <= budget)
  }

  /** The least bytes for so many files of the candidates before `end`, earlier ones on
      equal sizes; before `end - 1` there is no room for `want` files, and `end` is
      the end of all usable candidates unless `want` are found. */
  ghost predicate CheapestAt(cs: seq<Candidate>, budget: nat, want: nat, fs: seq<File>, ps: seq<nat>, end: nat) {
    && FilesAt(cs, budget, fs, ps) && AllBelow(ps, end) && end > 0
    && (forall gs, qs :: FilesAt(cs, budget, gs, qs) && AllBelow(qs, end) && |gs| >= |fs| ==> Total(gs) >= Total(fs))
    && (forall i, f: File, k: nat :: 0 <= i < |fs| && FirstOf(cs, budget, f, k) && k < end && k !in ps ==>
          fs[i].size < f.size || (fs[i].size == f.size && ps[i] < k))
    && (forall gs, qs :: FilesAt(cs, budget, gs, qs) && AllBelow(qs, end - 1) && Total(gs) <= budget ==> |gs| < want)
    && (|fs| == want || forall f: File, k: nat :: FirstOf(cs, budget, f, k) ==> k < end)
  }

  /** What the helper promises, of the candidates alone. */
  ghost predicate BestOf(cs: seq<Candidate>, fs: seq<File>, want: nat, budget: nat) {
    && (exists ps :: FilesAt(cs, budget, fs, ps))
    && Total(fs) <= budget && |fs| <= want
    && (forall gs, qs :: FilesAt(cs, budget, gs, qs) && Total(gs) <= budget ==> |fs| == want || |gs| <= |fs|)
    && exists gs :: IsGreedy(cs, budget, want, gs) && if |gs| == |fs| then fs == gs else IsCheapest(cs, budget, want, fs)
  }

  ghost predicate IsGreedy(cs: seq<Candidate>, budget: nat, want: nat, gs: seq<File>) {
    exists qs :: GreedyAt(cs, budget, want, gs, qs)
  }

  ghost predicate IsCheapest(cs: seq<Candidate>, budget: nat, want: nat, fs: seq<File>) {
    exists ps, end :: CheapestAt(cs, budget, want, fs, ps, end)
  }

  /** Where the eligible files stand. */
  ghost function Where(cs: seq<Candidate>, budget: nat, n: nat): (ps: seq<nat>)
    requires n <= |cs|
    ensures |ps| == |Eligible(cs, budget, n)|
    ensures AllBelow(ps, n)
  {
    if n == 0 then []
    else
      var rest := Where(cs, budget, n - 1);
      if FirstUsable(cs, budget, n - 1) then rest + [n - 1] else rest
  }

  lemma FirstUsableIs(cs: seq<Candidate>, budget: nat, k: nat)
    requires k < |cs|
    ensures FirstUsable(cs, budget, k) <==> exists f: File :: FirstOf(cs, budget, f, k)
    ensures forall f :: FirstOf(cs, budget, f, k) ==> f == File(cs[k].path.value, cs[k].size.value)
    ensures FirstUsable(cs, budget, k) ==> FirstOf(cs, budget, File(cs[k].path.value, cs[k].size.value), k)
  {
    if f :| FirstOf(cs, budget, f, k) {
      forall j | 0 <= j < k && Usable(cs[j], budget) ensures cs[j].path != cs[k].path {
        var size: nat := cs[j].size.value;
        assert cs[j] != Tuple(Some(f.path), Some(size));
      }
    }
    if FirstUsable(cs, budget, k) {
      forall j: nat, size: nat | j < k && size <= budget ensures cs[j] != Tuple(Some(cs[k].path.value), Some(size)) {
        assert Usable(cs[j], budget) ==> cs[j].path != cs[k].path;
      }
      assert FirstOf(cs, budget, File(cs[k].path.value, cs[k].size.value), k);
    }
  }

  lemma AppendAt(cs: seq<Candidate>, budget: nat, fs: seq<File>, ps: seq<nat>, f: File, k: nat)
    requires FilesAt(cs, budget, fs, ps) && AllBelow(ps, k) && FirstOf(cs, budget, f, k)
    ensures FilesAt(cs, budget, fs + [f], ps + [k])
  {
    hide FirstOf;
  }

  /** The eligible files are exactly the first usable candidates, with their own sizes. */
  lemma {:induction false} EligibleAt(cs: seq<Candidate>, budget: nat, n: nat)
    requires n <= |cs|
    ensures FilesAt(cs, budget, Eligible(cs, budget, n), Where(cs, budget, n))
    ensures forall f: File, k: nat :: FirstOf(cs, budget, f, k) && k < n ==> k in Where(cs, budget, n)
  {
    hide FirstOf, FirstUsable, FilesAt;
    if n > 0 {
      EligibleAt(cs, budget, n - 1);
      FirstUsableIs(cs, budget, n - 1);
      if FirstUsable(cs, budget, n - 1) {
        AppendAt(cs, budget, Eligible(cs, budget, n - 1), Where(cs, budget, n - 1), File(cs[n - 1].path.value, cs[n - 1].size.value), n - 1);
      }
      forall f: File, k: nat | FirstOf(cs, budget, f, k) && k < n ensures k in Where(cs, budget, n) {
        if k < n - 1 { assert k in Where(cs, budget, n - 1); }
      }
    } else {
      assert FilesAt(cs, budget, [], []) by { NoFilesAt(cs, budget); }
    }
  }

  lemma EligibleComplete(cs: seq<Candidate>, budget: nat)
    ensures var ps := Where(cs, budget, |cs|);
            FilesAt(cs, budget, Eligible(cs, budget, |cs|), ps) && forall f: File, k: nat :: FirstOf(cs, budget, f, k) ==> k in ps
  {
    hide FilesAt;
    EligibleAt(cs, budget, |cs|);
    forall f: File, k: nat | FirstOf(cs, budget, f, k) ensures k in Where(cs, budget, |cs|) { InCandidates(cs, budget, f, k); }
  }

  lemma NoFilesAt(cs: seq<Candidate>, budget: nat)
    ensures FilesAt(cs, budget, [], [])
  {
  }

  /** The positions a set takes, like Pick. */
  ghost function Picked(ps: seq<nat>, S: set<nat>, n: nat): (qs: seq<nat>)
    requires n <= |ps|
    ensures forall x :: x in qs <==> exists i :: 0 <= i < n && i in S && ps[i] == x
  {
    if n == 0 then []
    else if n - 1 in S then Picked(ps, S, n - 1) + [ps[n - 1]]
    else Picked(ps, S, n - 1)
  }

  lemma PickedBelow(ps: seq<nat>, S: set<nat>, n: nat)
    requires n < |ps| && Increasing(ps)
    ensures AllBelow(Picked(ps, S, n), ps[n])
  {
    forall i | 0 <= i < |Picked(ps, S, n)| ensures Picked(ps, S, n)[i] < ps[n] { assert Picked(ps, S, n)[i] in Picked(ps, S, n); }
  }

  lemma {:induction false} PickedAt(cs: seq<Candidate>, budget: nat, es: seq<File>, ps: seq<nat>, S: set<nat>, n: nat)
    requires FilesAt(cs, budget, es, ps) && n <= |es|
    ensures FilesAt(cs, budget, Pick(es, S, n), Picked(ps, S, n))
  {
    hide FirstOf;
    if n > 0 {
      PickedAt(cs, budget, es, ps, S, n - 1);
      PickedBelow(ps, S, n - 1);
      if n - 1 in S { AppendAt(cs, budget, Pick(es, S, n - 1), Picked(ps, S, n - 1), es[n - 1], ps[n - 1]); }
    }
  }

  lemma HasMember(ps: seq<nat>)
    ensures ps != [] ==> exists x :: x in ps
  {
    if ps != [] { assert ps[0] in ps; }
  }

  lemma LastIsMost(a: seq<nat>, x: nat)
    requires Increasing(a) && x in a
    ensures x <= a[|a| - 1]
  {
  }

  lemma FrontMembers(a: seq<nat>, z: nat)
    requires a != [] && Increasing(a)
    ensures z in a[..|a| - 1] <==> z in a && z != a[|a| - 1]
  {
    assert a == a[..|a| - 1] + [a[|a| - 1]];
  }

  lemma {:induction false} SameMembers(a: seq<nat>, b: seq<nat>)
    requires Increasing(a) && Increasing(b) && forall x :: x in a <==> x in b
    ensures a == b
  {
    HasMember(a);
    HasMember(b);
    if a != [] && b != [] {
      var x, y, a', b' := a[|a| - 1], b[|b| - 1], a[..|a| - 1], b[..|b| - 1];
      assert x in a && y in b;
      LastIsMost(a, y);
      LastIsMost(b, x);
      forall z ensures z in a' <==> z in b' {
        FrontMembers(a, z);
        FrontMembers(b, z);
      }
      assert Increasing(a') && Increasing(b');
      hide Increasing;
      SameMembers(a', b');
      assert a == a' + [x] && b == b' + [x];
    }
  }

  lemma SameFiles(cs: seq<Candidate>, budget: nat, fs: seq<File>, gs: seq<File>, ps: seq<nat>)
    requires FilesAt(cs, budget, fs, ps) && FilesAt(cs, budget, gs, ps)
    ensures fs == gs
  {
    forall i | 0 <= i < |fs| ensures fs[i] == gs[i] { assert FirstOf(cs, budget, fs[i], ps[i]) && FirstOf(cs, budget, gs[i], ps[i]); }
  }

  ghost function Taken(ps: seq<nat>, qs: seq<nat>): set<nat> {
    set i | 0 <= i < |ps| && ps[i] in qs
  }

  /** Every choice of first usable candidates is a set of eligible files. */
  lemma ChoiceIsPick(cs: seq<Candidate>, budget: nat, gs: seq<File>, qs: seq<nat>)
    requires FilesAt(cs, budget, gs, qs)
    ensures var es, ps := Eligible(cs, budget, |cs|), Where(cs, budget, |cs|);
            gs == Pick(es, Taken(ps, qs), |es|) && qs == Picked(ps, Taken(ps, qs), |es|)
  {
    hide FirstOf;
    var es, ps := Eligible(cs, budget, |cs|), Where(cs, budget, |cs|);
    var S := Taken(ps, qs);
    EligibleAt(cs, budget, |cs|);
    PickedAt(cs, budget, es, ps, S, |es|);
    forall x ensures x in qs <==> x in Picked(ps, S, |es|) {
      if x in qs {
        var j :| 0 <= j < |qs| && qs[j] == x;
        assert FirstOf(cs, budget, gs[j], x);
        assert x < |cs| by { InCandidates(cs, budget, gs[j], x); }
      }
    }
    SameMembers(qs, Picked(ps, S, |es|));
    SameFiles(cs, budget, gs, Pick(es, S, |es|), qs);
  }

  lemma InCandidates(cs: seq<Candidate>, budget: nat, f: File, k: nat)
    requires FirstOf(cs, budget, f, k)
    ensures k < |cs|
  {
  }

  /** A choice before the m-th eligible file's end is a set of the first m. */
  lemma ChoiceBefore(cs: seq<Candidate>, budget: nat, gs: seq<File>, qs: seq<nat>, m: nat, end: nat)
    requires FilesAt(cs, budget, gs, qs) && AllBelow(qs, end) && m <= |Eligible(cs, budget, |cs|)|
    requires forall i :: m <= i < |Where(cs, budget, |cs|)| ==> Where(cs, budget, |cs|)[i] >= end
    ensures var es, S := Eligible(cs, budget, |cs|), Taken(Where(cs, budget, |cs|), qs);
            |gs| == Count(S, m) && Total(gs) == Bytes(es, S, m)
  {
    hide FilesAt;
    var es, ps := Eligible(cs, budget, |cs|), Where(cs, budget, |cs|);
    var S := Taken(ps, qs);
    ChoiceIsPick(cs, budget, gs, qs);
    forall i | i in S ensures i < m { assert ps[i] in qs; }
    Tail(es, S, m, |es|);
    PickMeasures(es, S, m);
  }

  lemma {:induction false} PickPrefix(es: seq<File>, S: set<nat>, i: nat, n: nat)
    requires i <= n <= |es|
    ensures Count(S, i) <= Count(S, n) == |Pick(es, S, n)| && Pick(es, S, n)[..Count(S, i)] == Pick(es, S, i)
  {
    PickMeasures(es, S, n);
    PickMeasures(es, S, i);
    if i < n { PickPrefix(es, S, i, n - 1); }
  }

  lemma {:induction false} BelowPicked(ps: seq<nat>, S: set<nat>, i: nat, n: nat)
    requires Increasing(ps) && i < |ps| && n <= |ps|
    ensures Below(Picked(ps, S, n), ps[i]) == Count(S, if n < i then n else i)
  {
    if n == 0 { assert Picked(ps, S, n) == []; }
    if n > 0 {
      hide Picked, Below, Increasing;
      BelowPicked(ps, S, i, n - 1);
      PickedLast(ps, S, n);
      BelowLast(Picked(ps, S, n - 1), ps[n - 1], ps[i]);
      InOrder(ps, n - 1, i);
    } else {
      NoneBelow(ps[i]);
    }
  }

  lemma NoneBelow(k: nat)
    ensures Below([], k) == 0
  {
  }

  lemma InOrder(ps: seq<nat>, i: nat, j: nat)
    requires Increasing(ps) && i < |ps| && j < |ps|
    ensures ps[i] < ps[j] <==> i < j
  {
  }

  lemma PickedLast(ps: seq<nat>, S: set<nat>, n: nat)
    requires 0 < n <= |ps|
    ensures Picked(ps, S, n) == Picked(ps, S, n - 1) + if n - 1 in S then [ps[n - 1]] else []
  {
    assert Picked(ps, S, n - 1) + [] == Picked(ps, S, n - 1);
  }

  lemma BelowLast(front: seq<nat>, p: nat, k: nat)
    ensures Below(front + [p], k) == Below(front, k) + if p < k then 1 else 0
    ensures Below(front + [], k) == Below(front, k)
  {
    assert (front + [p])[..|front|] == front && front + [] == front;
  }

  lemma {:induction false} GreedyMember(es: seq<File>, n: nat, want: nat, budget: nat, i: nat)
    requires i < n <= |es|
    ensures var G := Greedy(es, n, want, budget);
            i in G <==> Count(G, i) < want && Bytes(es, G, i) + es[i].size <= budget
  {
    var G, g := Greedy(es, n, want, budget), Greedy(es, n - 1, want, budget);
    Frame(es, G, g, i);
    if i < n - 1 { GreedyMember(es, n - 1, want, budget, i); }
  }

  lemma GreedyIsGreedy(cs: seq<Candidate>, want: nat, budget: nat)
    ensures var es, ps := Eligible(cs, budget, |cs|), Where(cs, budget, |cs|);
            GreedyAt(cs, budget, want, GreedyFiles(es, |es|, want, budget), Picked(ps, Greedy(es, |es|, want, budget), |es|))
  {
    hide FirstOf;
    var es, ps := Eligible(cs, budget, |cs|), Where(cs, budget, |cs|);
    var G := Greedy(es, |es|, want, budget);
    var gs, qs := Pick(es, G, |es|), Picked(ps, G, |es|);
    EligibleAt(cs, budget, |cs|);
    PickedAt(cs, budget, es, ps, G, |es|);
    forall f: File, k: nat | FirstOf(cs, budget, f, k)
      ensures k in qs <==> Below(qs, k) < want && Total(gs[..Below(qs, k)]) + f.size <= budget
    {
      InCandidates(cs, budget, f, k);
      assert k in ps;
      var i :| 0 <= i < |ps| && ps[i] == k;
      FirstUsableIs(cs, budget, k);
      assert FirstOf(cs, budget, es[i], k);
      GreedyMember(es, |es|, want, budget, i);
      BelowPicked(ps, G, i, |es|);
      PickPrefix(es, G, i, |es|);
      PickMeasures(es, G, i);
      PickedIs(ps, G, i, |es|);
    }
  }

  lemma PickedIs(ps: seq<nat>, S: set<nat>, i: nat, n: nat)
    requires Increasing(ps) && i < n <= |ps|
    ensures ps[i] in Picked(ps, S, n) <==> i in S
  {
  }

  /** What the heap keeps is the cheapest choice of a beginning of the candidates. */
  lemma HeapIsCheapest(cs: seq<Candidate>, fs: seq<File>, want: nat, S: set<nat>, m: nat, budget: nat)
    requires HeapChoice(Eligible(cs, budget, |cs|), fs, want, S, m, budget) && m > 0
    ensures IsCheapest(cs, budget, want, fs)
  {
    hide FirstOf, FilesAt, HeapChoice;
    var es, ps := Eligible(cs, budget, |cs|), Where(cs, budget, |cs|);
    HeapIsAt(cs, fs, want, S, m, budget);
    var end, qs := ps[m - 1] + 1, Picked(ps, S, m);
    forall gs, ds | FilesAt(cs, budget, gs, ds)
      ensures AllBelow(ds, end) && |gs| >= |fs| ==> Total(gs) >= Total(fs)
      ensures AllBelow(ds, end - 1) && Total(gs) <= budget ==> |gs| < want
    {
      NoneCheaper(cs, fs, want, S, m, budget, gs, ds);
    }
    forall i, f: File, k: nat | 0 <= i < |fs| && FirstOf(cs, budget, f, k) && k < end && k !in qs
      ensures fs[i].size < f.size || (fs[i].size == f.size && qs[i] < k)
    {
      TakenBefore(cs, budget, fs, S, m, i, f, k);
    }
    if |fs| != want { AllSeen(cs, fs, want, S, m, budget); }
    assert CheapestAt(cs, budget, want, fs, qs, end);
  }

  lemma HeapIsAt(cs: seq<Candidate>, fs: seq<File>, want: nat, S: set<nat>, m: nat, budget: nat)
    requires HeapChoice(Eligible(cs, budget, |cs|), fs, want, S, m, budget) && m > 0
    ensures var es, ps := Eligible(cs, budget, |cs|), Where(cs, budget, |cs|); var qs := Picked(ps, S, m);
            && m <= |es| && Smallest(es, S, m) && fs == Pick(es, S, m)
            && FilesAt(cs, budget, fs, qs) && AllBelow(qs, ps[m - 1] + 1) && |fs| == |qs| && Increasing(ps)
  {
    hide FirstOf;
    var es, ps := Eligible(cs, budget, |cs|), Where(cs, budget, |cs|);
    EligibleAt(cs, budget, |cs|);
    PickedAt(cs, budget, es, ps, S, m);
    var qs := Picked(ps, S, m);
    forall i | 0 <= i < |qs| ensures qs[i] < ps[m - 1] + 1 { assert qs[i] in qs; }
  }

  lemma NoneCheaper(cs: seq<Candidate>, fs: seq<File>, want: nat, S: set<nat>, m: nat, budget: nat, gs: seq<File>, ds: seq<nat>)
    requires HeapChoice(Eligible(cs, budget, |cs|), fs, want, S, m, budget) && m > 0 && FilesAt(cs, budget, gs, ds)
    ensures var end := Where(cs, budget, |cs|)[m - 1] + 1;
            && (AllBelow(ds, end) && |gs| >= |fs| ==> Total(gs) >= Total(fs))
            && (AllBelow(ds, end - 1) && Total(gs) <= budget ==> |gs| < want)
  {
    hide FirstOf, FilesAt, Smallest;
    HeapIsAt(cs, fs, want, S, m, budget);
    var end := Where(cs, budget, |cs|)[m - 1] + 1;
    if AllBelow(ds, end) { ChoiceBefore(cs, budget, gs, ds, m, end); }
    if AllBelow(ds, end - 1) { ChoiceBefore(cs, budget, gs, ds, m - 1, end - 1); }
  }

  lemma AllSeen(cs: seq<Candidate>, fs: seq<File>, want: nat, S: set<nat>, m: nat, budget: nat)
    requires HeapChoice(Eligible(cs, budget, |cs|), fs, want, S, m, budget) && m > 0 && |fs| != want
    ensures forall f: File, k: nat :: FirstOf(cs, budget, f, k) ==> k < Where(cs, budget, |cs|)[m - 1] + 1
  {
    hide FirstOf, FilesAt, Smallest;
    HeapIsAt(cs, fs, want, S, m, budget);
    EligibleAt(cs, budget, |cs|);
    forall f: File, k: nat | FirstOf(cs, budget, f, k) ensures k < Where(cs, budget, |cs|)[m - 1] + 1 {
      InCandidates(cs, budget, f, k);
      assert k in Where(cs, budget, |cs|);
    }
  }

  lemma TakenBefore(cs: seq<Candidate>, budget: nat, fs: seq<File>, S: set<nat>, m: nat, i: nat, f: File, k: nat)
    requires 0 < m <= |Eligible(cs, budget, |cs|)|
    requires var es, ps := Eligible(cs, budget, |cs|), Where(cs, budget, |cs|);
             && Smallest(es, S, m) && fs == Pick(es, S, m) && i < |fs| == |Picked(ps, S, m)|
             && FirstOf(cs, budget, f, k) && k <= ps[m - 1] && k !in Picked(ps, S, m)
    ensures fs[i].size < f.size || (fs[i].size == f.size && Picked(Where(cs, budget, |cs|), S, m)[i] < k)
  {
    hide FirstOf;
    var es, ps := Eligible(cs, budget, |cs|), Where(cs, budget, |cs|);
    var qs := Picked(ps, S, m);
    EligibleAt(cs, budget, |cs|);
    PickedAt(cs, budget, es, ps, S, m);
    InCandidates(cs, budget, f, k);
    assert k in ps;
    var j :| 0 <= j < |ps| && ps[j] == k;
    assert j < m;
    assert qs[i] in qs;
    var h :| 0 <= h < m && h in S && ps[h] == qs[i];
    FirstUsableIs(cs, budget, k);
    FirstUsableIs(cs, budget, qs[i]);
    assert FirstOf(cs, budget, es[j], k) && FirstOf(cs, budget, es[h], qs[i]) && FirstOf(cs, budget, fs[i], qs[i]);
    PickedIs(ps, S, j, m);
    assert Before(es, h, j);
  }

  /** The promise on the eligible files is the promise on the candidates. */
  lemma BestIsBest(cs: seq<Candidate>, fs: seq<File>, want: nat, budget: nat)
    requires want > 0 && IsBestSample(Eligible(cs, budget, |cs|), fs, want, budget)
    ensures BestOf(cs, fs, want, budget)
  {
    hide FilesAt, CheapestAt, GreedyAt, HeapChoice, GreedyFiles, Eligible, Where;
    var es := Eligible(cs, budget, |cs|);
    NoneBetter(cs, fs, want, budget);
    GreedyIsGreedy(cs, want, budget);
    var gs := GreedyFiles(es, |es|, want, budget);
    assert IsGreedy(cs, budget, want, gs);
    if |gs| != |fs| {
      var T, m :| HeapChoice(es, fs, want, T, m, budget);
      HeapTakesSome(es, fs, want, T, m, budget);
      HeapIsCheapest(cs, fs, want, T, m, budget);
    }
  }

  lemma NoneBetter(cs: seq<Candidate>, fs: seq<File>, want: nat, budget: nat)
    requires IsBestSample(Eligible(cs, budget, |cs|), fs, want, budget)
    ensures exists ps :: FilesAt(cs, budget, fs, ps)
    ensures forall gs, qs :: FilesAt(cs, budget, gs, qs) && Total(gs) <= budget ==> |fs| == want || |gs| <= |fs|
  {
    hide FirstOf, HeapChoice, GreedyFiles;
    var es, ps := Eligible(cs, budget, |cs|), Where(cs, budget, |cs|);
    EligibleAt(cs, budget, |cs|);
    var S :| fs == Pick(es, S, |es|);
    PickedAt(cs, budget, es, ps, S, |es|);
    forall gs, qs | FilesAt(cs, budget, gs, qs) && Total(gs) <= budget ensures |fs| == want || |gs| <= |fs| {
      ChoiceIsPick(cs, budget, gs, qs);
      PickMeasures(es, Taken(ps, qs), |es|);
    }
  }

  lemma {:induction false} CountBound(S: set<nat>, n: nat)
    ensures Count(S, n) <= n
  {
    if n > 0 { CountBound(S, n - 1); }
  }

  lemma HeapTakesSome(es: seq<File>, fs: seq<File>, want: nat, S: set<nat>, m: nat, budget: nat)
    requires want > 0 && HeapChoice(es, fs, want, S, m, budget) && |fs| != |GreedyFiles(es, |es|, want, budget)|
    ensures m > 0
  {
    hide Smallest, TooFew;
    PickMeasures(es, S, m);
    CountBound(S, m);
    PickMeasures(es, Greedy(es, |es|, want, budget), |es|);
    CountBound(Greedy(es, |es|, want, budget), |es|);
  }

  /** A later, smaller occurrence of a path, which the first one hides. */
  const HIDDEN: seq<Candidate> := [Tuple(Some("a"), Some(6)), Tuple(Some("a"), Some(1)), Tuple(Some("b"), Some(6))]

  /** Within 10 bytes there is room for ("a", 1) and ("b", 6), but the first valid
      occurrence wins and so one file is the most that is chosen. */
  lemma FirstOccurrenceWins(fs: seq<File>)
    requires BestOf(HIDDEN, fs, 2, 10)
    ensures |fs| <= 1
  {
    hide IsGreedy, IsCheapest;
    var ps :| FilesAt(HIDDEN, 10, fs, ps);
    if |fs| == 2 { TwoCost(fs, ps); }
  }

  lemma TwoCost(fs: seq<File>, ps: seq<nat>)
    requires FilesAt(HIDDEN, 10, fs, ps) && |fs| == 2
    ensures Total(fs) == 12
  {
    TotalOfTwo(fs);
    assert HIDDEN[0] == Tuple(Some("a"), Some(6));
    assert FirstOf(HIDDEN, 10, fs[0], ps[0]) && FirstOf(HIDDEN, 10, fs[1], ps[1]);
  }

  lemma TotalOfTwo(fs: seq<File>)
    requires |fs| == 2
    ensures Total(fs) == fs[0].size + fs[1].size
  {
    assert fs[..1][..0] == [] && Total(fs[..1]) == fs[0].size;
  }

  /** Removes the position that comes last in eviction order. */
  method PopLargest(es: seq<File>, heap: seq<nat>) returns (p: nat, rest: seq<nat>)
    requires heap != [] && forall i :: 0 <= i < |heap| ==> heap[i] < |es|
    requires Distinct(heap)
    ensures p in heap && forall i :: i in heap && i != p ==> Before(es, i, p)
    ensures Distinct(rest) && |rest| == |heap| - 1 && Members(rest) == Members(heap) - {p}
  {
    var k := 0;
    for i := 1 to |heap|
      invariant 0 <= k < i <= |heap|
      invariant forall j :: 0 <= j < i && j != k ==> Before(es, heap[j], heap[k])
    {
      if Before(es, heap[k], heap[i]) { k := i; }
    }
    p, rest := heap[k], heap[..k] + heap[k + 1..];
    MembersRemoved(heap, k);
  }

  ghost predicate Distinct(heap: seq<nat>) {
    forall i, j :: 0 <= i < j < |heap| ==> heap[i] != heap[j]
  }

  ghost function Members(heap: seq<nat>): set<nat> {
    set i | i in heap
  }

  lemma MembersRemoved(heap: seq<nat>, k: nat)
    requires k < |heap| && Distinct(heap)
    ensures var rest := heap[..k] + heap[k + 1..]; Distinct(rest) && Members(rest) == Members(heap) - {heap[k]}
  {
    var rest := heap[..k] + heap[k + 1..];
    forall x ensures x in rest <==> x in heap && x != heap[k] {
      if x in heap && x != heap[k] {
        var i :| 0 <= i < |heap| && heap[i] == x;
        assert rest[if i < k then i else i - 1] == x;
      }
    }
  }

  method EligibleFiles(cs: seq<Candidate>, budget: nat) returns (eligible: seq<File>)
    ensures eligible == Eligible(cs, budget, |cs|)
    ensures exists ps :: FilesAt(cs, budget, eligible, ps) && forall f: File, k: nat :: FirstOf(cs, budget, f, k) ==> k in ps
  {
    EligibleComplete(cs, budget);
    hide FilesAt, FirstOf;
    eligible := [];
    var seen: set<string> := {};
    for i := 0 to |cs|
      invariant eligible == Eligible(cs, budget, i)
      invariant forall p :: p in seen <==> exists k :: 0 <= k < i && Usable(cs[k], budget) && cs[k].path.value == p
    {
      var c := cs[i];
      if c.Tuple? && c.path.Some? && c.path.value != "" && c.size.Some? && 0 <= c.size.value <= budget
         && c.path.value !in seen {
        seen := seen + {c.path.value};
        eligible := eligible + [File(c.path.value, c.size.value)];
      }
    }
  }

  /** The greedy pass, left early once `want` files are taken. */
  method GreedyPass(es: seq<File>, want: nat, budget: nat) returns (greedy: seq<File>)
    requires want > 0
    ensures greedy == GreedyFiles(es, |es|, want, budget)
  {
    greedy := [];
    var bytes := 0;
    for i := 0 to |es|
      invariant greedy == GreedyFiles(es, i, want, budget) && |greedy| < want
      invariant bytes == Total(greedy)
    {
      GreedyStep(es, i, want, budget);
      if bytes + es[i].size <= budget {
        TotalPush(greedy, es[i]);
        greedy := greedy + [es[i]];
        bytes := bytes + es[i].size;
        if |greedy| == want {
          GreedyDone(es, i + 1, |es|, want, budget);
          return;
        }
      }
    }
  }

  lemma SettledTooFew(es: seq<File>, S: set<nat>, n: nat, want: nat, budget: nat)
    requires n <= |es| && Settled(es, S, n, budget) && Count(S, n) < want
    ensures TooFew(es, n, want, budget)
  {
    forall T: set<nat> | Bytes(es, T, n) <= budget ensures Count(T, n) < want {
      SettledIsOptimal(es, S, n, budget, T);
    }
  }

  lemma NothingKept(es: seq<File>, budget: nat)
    ensures Settled(es, {}, 0, budget) && Count({}, 0) == 0 && Bytes(es, {}, 0) == 0
  {
  }

  lemma KeptInRange(es: seq<File>, S: set<nat>, n: nat, budget: nat)
    requires n <= |es| && Settled(es, S, n, budget)
    ensures forall i :: i in S ==> i < n
  {
  }

  /** The eviction heap over growing prefixes. */
  method HeapPass(es: seq<File>, want: nat, budget: nat) returns (heap: seq<nat>, ghost m: nat)
    requires want > 0 && forall i :: 0 <= i < |es| ==> es[i].size <= budget
    ensures m <= |es| && Settled(es, Members(heap), m, budget)
    ensures |heap| == Count(Members(heap), m) <= want
    ensures m == |es| || |heap| == want
    ensures m > 0 ==> TooFew(es, m - 1, want, budget)
  {
    hide TooFew, Settled, Bytes, Count;
    NothingKept(es, budget);
    heap := [];
    assert Members(heap) == {};
    var bytes := 0;
    var index := 0;
    while index < |es|
      invariant index <= |es| && Distinct(heap)
      invariant Settled(es, Members(heap), index, budget)
      invariant |heap| == Count(Members(heap), index) < want
      invariant bytes == Bytes(es, Members(heap), index)
      invariant index > 0 ==> TooFew(es, index - 1, want, budget)
    {
      ghost var S := Members(heap);
      KeptInRange(es, S, index, budget);
      assert forall i :: 0 <= i < |heap| ==> heap[i] in S;
      SettledTooFew(es, S, index, want, budget);
      heap := heap + [index];
      bytes := bytes + es[index].size;
      assert Members(heap) == S + {index};
      if bytes > budget {
        assert forall i :: 0 <= i < |heap| ==> heap[i] in Members(heap);
        var p;
        p, heap := PopLargest(es, heap);
        SettledEvict(es, S, index, budget, p);
        bytes := bytes - es[p].size;
      } else {
        SettledPush(es, S, index, budget);
      }
      index := index + 1;
      if |heap| == want { break; }
    }
    m := index;
  }

  lemma HeapIsBest(es: seq<File>, S: set<nat>, m: nat, want: nat, budget: nat)
    requires want > 0 && m <= |es| && Settled(es, S, m, budget)
    requires Count(S, m) <= want && (m == |es| || Count(S, m) == want)
    requires m > 0 ==> TooFew(es, m - 1, want, budget)
    ensures Pick(es, S, m) == Pick(es, S, |es|) && |Pick(es, S, m)| == Count(S, m)
    ensures Total(Pick(es, S, m)) <= budget
    ensures HeapChoice(es, Pick(es, S, m), want, S, m, budget)
    ensures forall T: set<nat> :: Bytes(es, T, |es|) <= budget ==> Count(S, m) == want || Count(T, |es|) <= Count(S, m)
  {
    Tail(es, S, m, |es|);
    PickMeasures(es, S, m);
    forall T: set<nat>
      ensures Count(T, m) >= Count(S, m) ==> Bytes(es, T, m) >= Bytes(es, S, m)
      ensures Fits(es, T, m, budget) ==> Count(T, m) <= Count(S, m)
    {
      SettledIsOptimal(es, S, m, budget, T);
    }
  }

  /** The greedy choice is best when none that fits has more than `most` files and it has so many. */
  lemma GreedySuffices(es: seq<File>, want: nat, budget: nat, most: nat)
    requires var greedy := GreedyFiles(es, |es|, want, budget);
             |greedy| >= most && forall T: set<nat> :: Bytes(es, T, |es|) <= budget ==> most == want || Count(T, |es|) <= most
    ensures IsBestSample(es, GreedyFiles(es, |es|, want, budget), want, budget)
  {
    hide HeapChoice;
    GreedyFits(es, |es|, want, budget);
  }

  /** The whole helper, with its early returns in the source's order. */
  method SelectBudgetedSample(cs: seq<Candidate>, sampleSize: Limit, maxTotalBytes: Limit)
    returns (r: Result<seq<File>, SamplingError>)
    ensures r.Err? <==> sampleSize.OtherType? || maxTotalBytes.OtherType?
    ensures r.Ok? && (sampleSize.n <= 0 || maxTotalBytes.n < 0) ==> r.value == []
    ensures r.Ok? && sampleSize.n > 0 && maxTotalBytes.n >= 0 ==>
              IsBestSample(Eligible(cs, maxTotalBytes.n, |cs|), r.value, sampleSize.n, maxTotalBytes.n)
              && BestOf(cs, r.value, sampleSize.n, maxTotalBytes.n)
  {
    hide BestOf, HeapChoice;
    if sampleSize.OtherType? || maxTotalBytes.OtherType? {
      return Err(LimitsMustBeIntegers);
    }
    var want, budget := sampleSize.n, maxTotalBytes.n;
    if want <= 0 || budget < 0 {
      return Ok([]);
    }
    var es := EligibleFiles(cs, budget);
    var greedy := GreedyPass(es, want, budget);
    GreedyFits(es, |es|, want, budget);
    if |greedy| == want {
      GreedySuffices(es, want, budget, want);
      BestIsBest(cs, greedy, want, budget);
      return Ok(greedy);
    }
    var heap;
    ghost var m;
    heap, m := HeapPass(es, want, budget);
    var kept := set i | i in heap;
    assert kept == Members(heap);
    HeapIsBest(es, kept, m, want, budget);
    if |heap| <= |greedy| {
      GreedySuffices(es, want, budget, |heap|);
      BestIsBest(cs, greedy, want, budget);
      return Ok(greedy);
    }
    BestIsBest(cs, Pick(es, kept, |es|), want, budget);
    return Ok(Pick(es, kept, |es|));
  }
}
