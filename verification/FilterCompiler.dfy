/**
  The filter compiler: `_protected_filter_args` in app/jobs/rclone_sync.py with
  `normalize_filter_aliases` in app/rclone_args.py.

  All filter options of a command become one ordered list of --filter rules.
  Which rule matches which path is rclone's business and a parameter here.
*/
module FilterCompiler {
  import opened Results
  import Text

  datatype Error = CombinedShortFlags | FilesFrom | DeleteExcluded | MissingValue | BadFilterFile | FilterReset

  /** The regular filter files of at most 1 MiB, as lines. */
  type Files = map<string, seq<string>>

  const RESERVED_SUBTREES := ["Sicherpfad", ".sicherpfad-snapshots", ".rclone-versions"]

  // ---------- flags ----------

  datatype Group = Include | IncludeFrom | Exclude | ExcludeFrom | Filter | FilterFrom

  function GroupOf(flag: string): Option<Group> {
    if flag == "--include" then Some(Include)
    else if flag == "--include-from" then Some(IncludeFrom)
    else if flag == "--exclude" then Some(Exclude)
    else if flag == "--exclude-from" then Some(ExcludeFrom)
    else if flag == "--filter" then Some(Filter)
    else if flag == "--filter-from" || flag == "--filters-file" then Some(FilterFrom)
    else None
  }

  predicate IsFilesFrom(flag: string) {
    flag == "--files-from" || flag == "--files-from-raw" || flag == "--files-from0"
  }

  /** The flags whose next argument is their value. */
  predicate TakesValue(token: string) {
    GroupOf(token).Some? || IsFilesFrom(token)
  }

  predicate StartsWith(s: string, prefix: string) {
    prefix <= s
  }

  /** "-abcf...": short flags combined with the filter flag. */
  predicate Combined(token: string) {
    |token| > 1 && token[0] == '-' && exists k :: 0 < k < |token| && token[k] == 'f' && forall i :: 0 < i < k ==> IsLetter(token[i])
  }

  predicate IsLetter(c: char) {
    'a' <= c <= 'z' || 'A' <= c <= 'Z'
  }

  // ---------- normalizing the short filter flag ----------

  datatype Rewrite = Same | As(token: string) | Refused

  /** What happens to a token that is not the value of the token before it. */
  function RewriteOf(token: string): Rewrite {
    if TakesValue(token) then Same
    else if token == "-f" then As("--filter")
    else if StartsWith(token, "-f=") then As("--filter=" + token[3..])
    else if StartsWith(token, "-f") then As("--filter=" + token[2..])
    else if Combined(token) && !StartsWith(token, "--") then Refused
    else Same
  }

  function Cons(head: seq<string>, tail: Result<seq<string>, Error>): Result<seq<string>, Error> {
    match tail
    case Ok(rest) => Ok(head + rest)
    case Err(e) => Err(e)
  }

  function Normalize(args: seq<string>): Result<seq<string>, Error> {
    if args == [] then Ok([])
    else
      var token := args[0];
      if RewriteOf(token).Refused? then Err(CombinedShortFlags)
      else
        var written := if RewriteOf(token).As? then RewriteOf(token).token else token;
        if (TakesValue(token) || token == "-f") && |args| > 1 then Cons([written, args[1]], Normalize(args[2..]))
        else Cons([written], Normalize(args[1..]))
  }

  method NormalizeFilterAliases(args: seq<string>) returns (r: Result<seq<string>, Error>)
    ensures r == Normalize(args)
  {
    var normalized: seq<string> := [];
    var index := 0;
    ConsNothing(Normalize(args));
    assert args[0..] == args;
    while index < |args|
      invariant 0 <= index <= |args|
      invariant Cons(normalized, Normalize(args[index..])) == Normalize(args)
    {
      var token := args[index];
      if RewriteOf(token).Refused? { return Err(CombinedShortFlags); }
      ghost var before := normalized;
      var written := if RewriteOf(token).As? then RewriteOf(token).token else token;
      normalized := normalized + [written];
      ghost var head := [written];
      if (TakesValue(token) || token == "-f") && index + 1 < |args| {
        normalized := normalized + [args[index + 1]];
        head := [written, args[index + 1]];
        assert args[index..][2..] == args[index + 2..];
        index := index + 1;
      } else {
        assert args[index..][1..] == args[index + 1..];
      }
      index := index + 1;
      assert normalized == before + head;
      ConsTwice(before, head, Normalize(args[index..]));
    }
    assert normalized + [] == normalized;
    return Ok(normalized);
  }

  lemma ConsNothing(tail: Result<seq<string>, Error>)
    ensures Cons([], tail) == tail
  {
    if tail.Ok? { assert [] + tail.value == tail.value; }
  }

  lemma ConsTwice(a: seq<string>, b: seq<string>, tail: Result<seq<string>, Error>)
    ensures Cons(a, Cons(b, tail)) == Cons(a + b, tail)
  {
    if tail.Ok? { assert a + (b + tail.value) == a + b + tail.value; }
  }

  // ---------- sorting the arguments into groups ----------

  /** A filter value and the group of flags it came from. */
  datatype Entry = Entry(group: Group, value: string)

  /** The values of one group, in order: one of the source's six lists. */
  function Values(entries: seq<Entry>, g: Group): seq<string> {
    if entries == [] then []
    else (if entries[0].group == g then [entries[0].value] else []) + Values(entries[1..], g)
  }

  datatype Sorted = Sorted(remainder: seq<string>, entries: seq<Entry>)

  const NOTHING := Sorted([], [])

  function Append(a: Sorted, b: Sorted): Sorted {
    Sorted(a.remainder + b.remainder, a.entries + b.entries)
  }

  function Join(a: Sorted, tail: Result<Sorted, Error>): Result<Sorted, Error> {
    match tail
    case Ok(b) => Ok(Append(a, b))
    case Err(e) => Err(e)
  }

  lemma JoinTwice(a: Sorted, b: Sorted, tail: Result<Sorted, Error>)
    ensures Join(a, Join(b, tail)) == Join(Append(a, b), tail)
  {
    if tail.Ok? {
      var c := tail.value;
      assert a.remainder + (b.remainder + c.remainder) == a.remainder + b.remainder + c.remainder;
      assert a.entries + (b.entries + c.entries) == a.entries + b.entries + c.entries;
    }
  }

  lemma JoinNothing(a: Sorted, tail: Result<Sorted, Error>)
    ensures Join(NOTHING, tail) == tail && Join(a, Ok(NOTHING)) == Ok(a)
  {
    if tail.Ok? { assert [] + tail.value.remainder == tail.value.remainder && [] + tail.value.entries == tail.value.entries; }
    assert a.remainder + [] == a.remainder && a.entries + [] == a.entries;
  }

  function Tagged(g: Group, values: seq<string>): seq<Entry> {
    if values == [] then [] else [Entry(g, values[0])] + Tagged(g, values[1..])
  }

  function FlagOf(token: string): string {
    Text.Before(token, '=')
  }

  /** What follows the first equals sign, if there is one. */
  function InlineValue(token: string): Option<string> {
    var flag := FlagOf(token);
    if |flag| < |token| then Some(token[|flag| + 1..]) else None
  }

  function Lower(s: string): (r: string) {
    if s == "" then "" else [if 'A' <= s[0] <= 'Z' then (s[0] as int + 32) as char else s[0]] + Lower(s[1..])
  }

  predicate TurnedOff(value: Option<string>) {
    value.Some? && Lower(value.value) in ["false", "0"]
  }

  predicate ReadsFile(g: Group) {
    g in {IncludeFrom, ExcludeFrom, FilterFrom}
  }

  predicate IsRuleLine(line: string) {
    line != "" && line[0] != '#' && line[0] != ';'
  }

  function RuleLines(lines: seq<string>): seq<string> {
    if lines == [] then []
    else
      var line := Text.Strip(lines[0]);
      (if IsRuleLine(line) then [line] else []) + RuleLines(lines[1..])
  }

  function ValuesOf(files: Files, g: Group, value: string): Result<seq<string>, Error> {
    if !ReadsFile(g) then Ok([Text.Strip(value)])
    else if value == "-" || value !in files then Err(BadFilterFile)
    else Ok(RuleLines(files[value]))
  }

  datatype Taken = Taken(sorted: Sorted, used: nat)

  /** One turn of the scan: what the first one or two arguments contribute. */
  function Take(files: Files, args: seq<string>): (r: Result<Taken, Error>)
    requires args != []
    ensures r.Ok? ==> 1 <= r.value.used <= 2 && r.value.used <= |args|
  {
    var token := args[0];
    var flag, inline := FlagOf(token), InlineValue(token);
    if IsFilesFrom(flag) then Err(FilesFrom)
    else if flag == "--delete-excluded" && !TurnedOff(inline) then Err(DeleteExcluded)
    else match GroupOf(flag)
      case None => Ok(Taken(Sorted([token], []), 1))
      case Some(g) =>
        if inline.None? && |args| == 1 then Err(MissingValue)
        else
          match ValuesOf(files, g, if inline.Some? then inline.value else args[1])
          case Err(e) => Err(e)
          case Ok(values) => Ok(Taken(Sorted([], Tagged(g, values)), if inline.Some? then 1 else 2))
  }

  function Sort(files: Files, args: seq<string>): Result<Sorted, Error> {
    if args == [] then Ok(NOTHING)
    else match Take(files, args)
      case Err(e) => Err(e)
      case Ok(taken) => Join(taken.sorted, Sort(files, args[taken.used..]))
  }

  method SortArguments(files: Files, args: seq<string>) returns (r: Result<Sorted, Error>)
    ensures r == Sort(files, args)
  {
    hide Take;
    var sorted := NOTHING;
    var index := 0;
    JoinNothing(NOTHING, Sort(files, args));
    assert args[0..] == args;
    while index < |args|
      invariant 0 <= index <= |args|
      invariant Join(sorted, Sort(files, args[index..])) == Sort(files, args)
    {
      var taken := Take(files, args[index..]);
      if taken.Err? { return Err(taken.error); }
      assert args[index..][taken.value.used..] == args[index + taken.value.used..];
      JoinTwice(sorted, taken.value.sorted, Sort(files, args[index + taken.value.used..]));
      sorted := Append(sorted, taken.value.sorted);
      index := index + taken.value.used;
    }
    JoinNothing(sorted, Ok(NOTHING));
    return Ok(sorted);
  }

  // ---------- the rules ----------

  function Prefixed(prefix: string, patterns: seq<string>): (r: seq<string>)
    ensures |r| == |patterns|
    ensures forall i :: 0 <= i < |r| ==> r[i] == prefix + patterns[i]
  {
    seq(|patterns|, i requires 0 <= i < |patterns| => prefix + patterns[i])
  }

  function ReservedPatterns(): seq<string> {
    seq(|RESERVED_SUBTREES|, i requires 0 <= i < |RESERVED_SUBTREES| => "/" + RESERVED_SUBTREES[i] + "/**")
  }

  const RESERVED_RULES: seq<string> := Prefixed("- ", ReservedPatterns())
  const DROP_REST := "- **"

  predicate HasIncludes(entries: seq<Entry>) {
    Values(entries, Include) != [] || Values(entries, IncludeFrom) != []
  }

  function UserRules(entries: seq<Entry>): seq<string> {
    Prefixed("- ", Values(entries, Exclude)) + Prefixed("- ", Values(entries, ExcludeFrom))
    + Values(entries, Filter) + Values(entries, FilterFrom)
    + Prefixed("+ ", Values(entries, Include)) + Prefixed("+ ", Values(entries, IncludeFrom))
    + if HasIncludes(entries) then [DROP_REST] else []
  }

  /** dict.fromkeys: the first of equal rules stays. */
  function Dedupe(rules: seq<string>): (r: seq<string>)
    ensures forall x :: x in r <==> x in rules
  {
    if rules == [] then []
    else
      var front := Dedupe(rules[..|rules| - 1]);
      var last := rules[|rules| - 1];
      if last in front then front else front + [last]
  }

  function AsArguments(rules: seq<string>): (r: seq<string>)
    ensures |r| == 2 * |rules|
  {
    if rules == [] then [] else ["--filter", rules[0]] + AsArguments(rules[1..])
  }

  function Compiled(s: Sorted): Result<seq<string>, Error> {
    if "!" in Values(s.entries, Filter) || "!" in Values(s.entries, FilterFrom) then Err(FilterReset)
    else Ok(s.remainder + AsArguments(Dedupe(RESERVED_RULES + UserRules(s.entries))))
  }

  function Compile(files: Files, args: seq<string>): Result<seq<string>, Error> {
    match Normalize(args)
    case Err(e) => Err(e)
    case Ok(normalized) =>
      match Sort(files, normalized)
      case Err(e) => Err(e)
      case Ok(sorted) => Compiled(sorted)
  }

  method ProtectedFilterArgs(files: Files, args: seq<string>) returns (r: Result<seq<string>, Error>)
    ensures r == Compile(files, args)
  {
    var normalized := NormalizeFilterAliases(args);
    if normalized.Err? { return Err(normalized.error); }
    var sorted := SortArguments(files, normalized.value);
    if sorted.Err? { return Err(sorted.error); }
    return Compiled(sorted.value);
  }

  // ---------- what the rules decide ----------

  /** Which rule matches which path. */
  type Matcher = (string, string) -> bool

  datatype Decision = Kept | Excluded

  /** rclone's first-match semantics; a path no rule matches is kept. */
  function Decide(m: Matcher, rules: seq<string>, path: string): Decision {
    if rules == [] then Kept
    else if m(rules[0], path) then (if rules[0] != "" && rules[0][0] == '+' then Kept else Excluded)
    else Decide(m, rules[1..], path)
  }

  predicate Hit(m: Matcher, rules: seq<string>, path: string) {
    exists i :: 0 <= i < |rules| && m(rules[i], path)
  }

  lemma {:induction false} DecideConcat(m: Matcher, a: seq<string>, b: seq<string>, path: string)
    ensures Decide(m, a + b, path) == if Hit(m, a, path) then Decide(m, a, path) else Decide(m, b, path)
    ensures Hit(m, a + b, path) <==> Hit(m, a, path) || Hit(m, b, path)
  {
    if a == [] {
      assert a + b == b;
    } else {
      assert (a + b)[1..] == a[1..] + b;
      DecideConcat(m, a[1..], b, path);
      HitHead(m, a, path);
      HitHead(m, a + b, path);
    }
  }

  lemma HitHead(m: Matcher, rules: seq<string>, path: string)
    requires rules != []
    ensures Hit(m, rules, path) <==> m(rules[0], path) || Hit(m, rules[1..], path)
  {
    if Hit(m, rules, path) && !m(rules[0], path) {
      var i :| 0 <= i < |rules| && m(rules[i], path);
      assert rules[1..][i - 1] == rules[i];
    }
    if Hit(m, rules[1..], path) {
      var i :| 0 <= i < |rules[1..]| && m(rules[1..][i], path);
      assert rules[i + 1] == rules[1..][i];
    }
  }

  lemma {:induction false} MissKeeps(m: Matcher, rules: seq<string>, path: string)
    requires !Hit(m, rules, path)
    ensures Decide(m, rules, path) == Kept
  {
    if rules != [] {
      HitHead(m, rules, path);
      MissKeeps(m, rules[1..], path);
    }
  }

  lemma {:induction false} DecidePrefixed(m: Matcher, prefix: string, patterns: seq<string>, path: string)
    requires prefix == "- " || prefix == "+ "
    ensures Hit(m, Prefixed(prefix, patterns), path) ==>
              Decide(m, Prefixed(prefix, patterns), path) == if prefix == "+ " then Kept else Excluded
  {
    if patterns != [] {
      assert Prefixed(prefix, patterns)[1..] == Prefixed(prefix, patterns[1..]);
      DecidePrefixed(m, prefix, patterns[1..], path);
      HitHead(m, Prefixed(prefix, patterns), path);
    }
  }

  /** Removing repeated rules changes no decision. */
  lemma {:induction false} DedupeDecidesSame(m: Matcher, rules: seq<string>, path: string)
    ensures Decide(m, Dedupe(rules), path) == Decide(m, rules, path)
    ensures Hit(m, Dedupe(rules), path) <==> Hit(m, rules, path)
  {
    if rules != [] {
      var front, last := rules[..|rules| - 1], rules[|rules| - 1];
      DedupeDecidesSame(m, front, path);
      assert rules == front + [last];
      DecideConcat(m, front, [last], path);
      DecideConcat(m, Dedupe(front), [last], path);
      if last in Dedupe(front) && !Hit(m, front, path) {
        var i :| 0 <= i < |front| && front[i] == last;
        MissKeeps(m, front, path);
      }
    }
  }

  /** The vault, the snapshots and the kept versions. */
  predicate IsReserved(name: string) {
    name == "Sicherpfad" || name == ".sicherpfad-snapshots" || name == ".rclone-versions"
  }

  predicate InReserved(path: string) {
    exists i :: 0 <= i < |path| && path[i] == '/' && IsReserved(path[..i])
  }

  /** What is needed of rclone's matching: the pattern of a rooted name and two stars matches
      exactly what is below the name, and two stars alone match everything. */
  ghost predicate MatchesAsRclone(m: Matcher) {
    && (forall name, path :: IsReserved(name) ==> (m("- " + ("/" + name + "/**"), path) <==> name + "/" <= path))
    && (forall path :: m("- **", path))
  }

  lemma ReservedRule(m: Matcher, i: nat, path: string)
    requires MatchesAsRclone(m) && i < |RESERVED_SUBTREES|
    ensures |RESERVED_RULES| == |RESERVED_SUBTREES| && (m(RESERVED_RULES[i], path) <==> RESERVED_SUBTREES[i] + "/" <= path)
  {
    ReservedNames();
    assert RESERVED_RULES[i] == "- " + ("/" + RESERVED_SUBTREES[i] + "/**");
    hide IsReserved;
  }

  lemma ReservedNames()
    ensures forall name :: IsReserved(name) <==> name in RESERVED_SUBTREES
  {
    assert RESERVED_SUBTREES[0] == "Sicherpfad" && RESERVED_SUBTREES[1] == ".sicherpfad-snapshots"
           && RESERVED_SUBTREES[2] == ".rclone-versions";
  }

  lemma Below(name: string, path: string)
    ensures name + "/" <= path <==> |name| < |path| && path[|name|] == '/' && path[..|name|] == name
  {
  }

  lemma ReservedHit(m: Matcher, path: string)
    requires MatchesAsRclone(m)
    ensures Hit(m, RESERVED_RULES, path) <==> InReserved(path)
  {
    ReservedNames();
    if InReserved(path) {
      var k :| 0 <= k < |path| && path[k] == '/' && IsReserved(path[..k]);
      var i :| 0 <= i < |RESERVED_SUBTREES| && RESERVED_SUBTREES[i] == path[..k];
      Below(path[..k], path);
      ReservedRule(m, i, path);
    }
    if Hit(m, RESERVED_RULES, path) {
      var i :| 0 <= i < |RESERVED_RULES| && m(RESERVED_RULES[i], path);
      HitIsReserved(m, i, path);
    }
  }

  lemma HitIsReserved(m: Matcher, i: nat, path: string)
    requires MatchesAsRclone(m) && i < |RESERVED_RULES| && m(RESERVED_RULES[i], path)
    ensures InReserved(path)
  {
    ReservedNames();
    ReservedRule(m, i, path);
    hide MatchesAsRclone, IsReserved;
    var name := RESERVED_SUBTREES[i];
    Below(name, path);
    assert IsReserved(path[..|name|]);
  }

  /** Some pattern of the group, written with its prefix, matches. */
  predicate AnyOf(m: Matcher, prefix: string, entries: seq<Entry>, g: Group, path: string) {
    Hit(m, Prefixed(prefix, Values(entries, g)), path)
  }

  /** The compiled rules, read first-match-wins: reserved subtrees are always
      excluded; then excludes; then the explicit filters in order; then
      includes; and the rest is dropped exactly when an include exists. */
  lemma RulesMean(m: Matcher, entries: seq<Entry>, path: string)
    requires MatchesAsRclone(m)
    ensures var filters := Values(entries, Filter) + Values(entries, FilterFrom);
            Decide(m, Dedupe(RESERVED_RULES + UserRules(entries)), path)
            == if InReserved(path) then Excluded
               else if AnyOf(m, "- ", entries, Exclude, path) || AnyOf(m, "- ", entries, ExcludeFrom, path) then Excluded
               else if Hit(m, filters, path) then Decide(m, filters, path)
               else if AnyOf(m, "+ ", entries, Include, path) || AnyOf(m, "+ ", entries, IncludeFrom, path) then Kept
               else if HasIncludes(entries) then Excluded
               else Kept
  {
    var exclude, excludeFrom := Prefixed("- ", Values(entries, Exclude)), Prefixed("- ", Values(entries, ExcludeFrom));
    var filter, filterFrom := Values(entries, Filter), Values(entries, FilterFrom);
    var inc, incFrom := Prefixed("+ ", Values(entries, Include)), Prefixed("+ ", Values(entries, IncludeFrom));
    var drop := if HasIncludes(entries) then [DROP_REST] else [];
    DedupeDecidesSame(m, RESERVED_RULES + UserRules(entries), path);
    DecideConcat(m, RESERVED_RULES, UserRules(entries), path);
    ReservedExclude(m, path);
    ReservedHit(m, path);
    assert m(DROP_REST, path);
    hide MatchesAsRclone, InReserved;
    DecideConcat(m, exclude + excludeFrom + filter + filterFrom + inc + incFrom, drop, path);
    DecideConcat(m, exclude + excludeFrom + filter + filterFrom + inc, incFrom, path);
    DecideConcat(m, exclude + excludeFrom + filter + filterFrom, inc, path);
    DecideConcat(m, exclude + excludeFrom + filter, filterFrom, path);
    DecideConcat(m, exclude + excludeFrom, filter, path);
    DecideConcat(m, exclude, excludeFrom, path);
    DecideConcat(m, filter, filterFrom, path);
    DecidePrefixed(m, "- ", Values(entries, Exclude), path);
    DecidePrefixed(m, "- ", Values(entries, ExcludeFrom), path);
    DecidePrefixed(m, "+ ", Values(entries, Include), path);
    DecidePrefixed(m, "+ ", Values(entries, IncludeFrom), path);
  }

  lemma ReservedExclude(m: Matcher, path: string)
    ensures Hit(m, RESERVED_RULES, path) ==> Decide(m, RESERVED_RULES, path) == Excluded
  {
    DecidePrefixed(m, "- ", ReservedPatterns(), path);
  }

  // ---------- compiling the compiled arguments ----------

  /** Every token stands where it is read, and none is left to rewrite. */
  predicate NormalForm(tokens: seq<string>) {
    tokens == []
    || (&& RewriteOf(tokens[0]) == Same
        && if TakesValue(tokens[0]) && |tokens| > 1 then NormalForm(tokens[2..]) else NormalForm(tokens[1..]))
  }

  lemma {:induction false} NormalizeMakesNormal(args: seq<string>)
    requires Normalize(args).Ok?
    ensures NormalForm(Normalize(args).value)
  {
    if args != [] {
      var token := args[0];
      var written := if RewriteOf(token).As? then RewriteOf(token).token else token;
      RewriteWrites(token);
      if (TakesValue(token) || token == "-f") && |args| > 1 {
        NormalizeMakesNormal(args[2..]);
        assert ([written, args[1]] + Normalize(args[2..]).value)[2..] == Normalize(args[2..]).value;
      } else {
        NormalizeMakesNormal(args[1..]);
        assert ([written] + Normalize(args[1..]).value)[1..] == Normalize(args[1..]).value;
        if TakesValue(written) { assert args[1..] == []; }
      }
    }
  }

  /** A rewritten token is final, and takes the next argument as its value exactly when the original did. */
  lemma RewriteWrites(token: string)
    requires !RewriteOf(token).Refused?
    ensures var written := if RewriteOf(token).As? then RewriteOf(token).token else token;
            RewriteOf(written) == Same && (TakesValue(written) <==> TakesValue(token) || token == "-f")
  {
    if RewriteOf(token).As? && token != "-f" {
      var written := RewriteOf(token).token;
      assert written[0] == '-' && written[1] == '-' && written[8] == '=';
      NoEquals(written);
      assert !StartsWith(written, "-f") && StartsWith(written, "--");
    }
  }

  /** No option that takes a value contains an equals sign. */
  lemma NoEquals(token: string)
    ensures TakesValue(token) ==> '=' !in token && FlagOf(token) == token
  {
    if TakesValue(token) {
      assert token in ["--include", "--include-from", "--exclude", "--exclude-from", "--filter", "--filter-from",
                       "--filters-file", "--files-from", "--files-from-raw", "--files-from0"];
    }
  }

  lemma {:induction false} NormalStays(tokens: seq<string>)
    requires NormalForm(tokens)
    ensures Normalize(tokens) == Ok(tokens)
  {
    if tokens != [] {
      if TakesValue(tokens[0]) && |tokens| > 1 {
        NormalStays(tokens[2..]);
        assert tokens == [tokens[0], tokens[1]] + tokens[2..];
      } else {
        NormalStays(tokens[1..]);
        assert tokens == [tokens[0]] + tokens[1..];
      }
    }
  }

  /** A token the compiler passes through. */
  predicate Plain(token: string) {
    && RewriteOf(token) == Same && GroupOf(FlagOf(token)).None? && !IsFilesFrom(FlagOf(token))
    && !(FlagOf(token) == "--delete-excluded" && !TurnedOff(InlineValue(token)))
  }

  predicate GoodEntry(e: Entry) {
    Text.Stripped(e.value) && (e.value == "" ==> !ReadsFile(e.group))
  }

  ghost predicate AllPlain(tokens: seq<string>) {
    forall i :: 0 <= i < |tokens| ==> Plain(tokens[i])
  }

  ghost predicate AllGood(entries: seq<Entry>) {
    forall i :: 0 <= i < |entries| ==> GoodEntry(entries[i])
  }

  /** From arguments in normal form: what remains is plain, values are stripped,
      and lines of filter files are never empty. */
  ghost predicate WellSorted(s: Sorted) {
    AllPlain(s.remainder) && AllGood(s.entries)
  }

  lemma WellAppend(a: Sorted, b: Sorted)
    requires WellSorted(a) && WellSorted(b)
    ensures WellSorted(Append(a, b))
  {
  }

  lemma {:induction false} SortIsWell(files: Files, tokens: seq<string>)
    requires NormalForm(tokens) && Sort(files, tokens).Ok?
    ensures WellSorted(Sort(files, tokens).value)
  {
    if tokens != [] {
      var taken := Take(files, tokens).value;
      TakeIsWell(files, tokens);
      TakeKeepsForm(files, tokens);
      SortIsWell(files, tokens[taken.used..]);
      WellAppend(taken.sorted, Sort(files, tokens[taken.used..]).value);
    }
  }

  lemma TakeKeepsForm(files: Files, tokens: seq<string>)
    requires tokens != [] && NormalForm(tokens) && Take(files, tokens).Ok?
    ensures NormalForm(tokens[Take(files, tokens).value.used..])
  {
    NoEquals(tokens[0]);
    InlineIffEquals(tokens[0]);
  }

  lemma InlineIffEquals(token: string)
    ensures InlineValue(token).Some? <==> '=' in token
    ensures '=' !in token ==> FlagOf(token) == token
  {
  }

  lemma TakeIsWell(files: Files, tokens: seq<string>)
    requires tokens != [] && RewriteOf(tokens[0]) == Same && Take(files, tokens).Ok?
    ensures WellSorted(Take(files, tokens).value.sorted)
  {
    hide Text.Strip, Text.IsSpace, FlagOf, InlineValue, GroupOf, IsFilesFrom, TurnedOff, RuleLines;
    var token := tokens[0];
    if GroupOf(FlagOf(token)).Some? {
      var g := GroupOf(FlagOf(token)).value;
      var value := if InlineValue(token).Some? then InlineValue(token).value else tokens[1];
      if ReadsFile(g) {
        RuleLinesGood(g, files[value]);
      } else {
        Text.StripFixed(value);
        TaggedGood(g, [Text.Strip(value)]);
      }
    }
  }

  lemma {:induction false} TaggedGood(g: Group, values: seq<string>)
    requires forall i :: 0 <= i < |values| ==> GoodEntry(Entry(g, values[i]))
    ensures forall i :: 0 <= i < |Tagged(g, values)| ==> GoodEntry(Tagged(g, values)[i])
  {
    if values != [] { TaggedGood(g, values[1..]); }
  }

  lemma {:induction false} RuleLinesGood(g: Group, lines: seq<string>)
    ensures AllGood(Tagged(g, RuleLines(lines)))
  {
    hide Text.Strip, GoodEntry;
    if lines != [] {
      RuleLinesGood(g, lines[1..]);
      var line := Text.Strip(lines[0]);
      if IsRuleLine(line) {
        StrippedLine(g, lines[0]);
        assert ([line] + RuleLines(lines[1..]))[1..] == RuleLines(lines[1..]);
      } else {
        assert [] + RuleLines(lines[1..]) == RuleLines(lines[1..]);
      }
    }
  }

  lemma StrippedLine(g: Group, line: string)
    requires Text.Strip(line) != ""
    ensures GoodEntry(Entry(g, Text.Strip(line)))
  {
    Text.StripFixed(line);
  }

  function StripAll(rules: seq<string>): (r: seq<string>)
    ensures |r| == |rules| && forall i :: 0 <= i < |r| ==> r[i] == Text.Strip(rules[i])
  {
    seq(|rules|, i requires 0 <= i < |rules| => Text.Strip(rules[i]))
  }

  lemma {:induction false} OutputIsNormal(remainder: seq<string>, rules: seq<string>)
    requires AllPlain(remainder)
    ensures NormalForm(remainder + AsArguments(rules))
  {
    hide Plain;
    if remainder == [] {
      RulesAreNormal(rules);
      assert [] + AsArguments(rules) == AsArguments(rules);
    } else {
      OutputIsNormal(remainder[1..], rules);
      assert (remainder + AsArguments(rules))[1..] == remainder[1..] + AsArguments(rules);
      PlainFirst(remainder + AsArguments(rules));
    }
  }

  lemma PlainFirst(tokens: seq<string>)
    requires tokens != [] && Plain(tokens[0]) && NormalForm(tokens[1..])
    ensures NormalForm(tokens)
  {
    PlainStands(tokens[0]);
  }

  lemma {:induction false} RulesAreNormal(rules: seq<string>)
    ensures NormalForm(AsArguments(rules))
  {
    if rules != [] {
      RulesAreNormal(rules[1..]);
      assert AsArguments(rules)[2..] == AsArguments(rules[1..]);
    }
  }

  lemma PlainStands(token: string)
    requires Plain(token)
    ensures !TakesValue(token) && RewriteOf(token) == Same
  {
    NoEquals(token);
  }

  lemma TakePlain(files: Files, tokens: seq<string>)
    requires tokens != [] && Plain(tokens[0])
    ensures Take(files, tokens) == Ok(Taken(Sorted([tokens[0]], []), 1))
  {
  }

  lemma TakeFilter(files: Files, tokens: seq<string>)
    requires |tokens| >= 2 && tokens[0] == "--filter"
    ensures Take(files, tokens) == Ok(Taken(Sorted([], [Entry(Filter, Text.Strip(tokens[1]))]), 2))
  {
    FilterFlag(tokens[0]);
    assert ValuesOf(files, Filter, tokens[1]) == Ok([Text.Strip(tokens[1])]);
    TaggedOne(Filter, Text.Strip(tokens[1]));
  }

  lemma TaggedOne(g: Group, value: string)
    ensures Tagged(g, [value]) == [Entry(g, value)]
  {
    assert [value][1..] == [];
    assert Tagged(g, [value]) == [Entry(g, value)] + Tagged(g, []);
  }

  lemma FilterFlag(token: string)
    requires token == "--filter"
    ensures FlagOf(token) == token && InlineValue(token) == None && !IsFilesFrom(token) && token != "--delete-excluded"
    ensures GroupOf(token) == Some(Filter)
  {
    assert |token| == 8 && token[2] == 'f' && '=' !in token;
  }

  lemma {:induction false} OutputSorts(files: Files, remainder: seq<string>, rules: seq<string>)
    requires AllPlain(remainder)
    ensures Sort(files, remainder + AsArguments(rules)) == Ok(Sorted(remainder, Tagged(Filter, StripAll(rules))))
  {
    hide Plain, Take, Sort, Tagged, StripAll, AsArguments;
    var tokens := remainder + AsArguments(rules);
    if remainder == [] {
      RulesSort(files, rules);
      assert tokens == AsArguments(rules);
    } else {
      OutputSorts(files, remainder[1..], rules);
      assert tokens[1..] == remainder[1..] + AsArguments(rules);
      assert tokens[..1] == remainder[..1];
      SortPlain(files, tokens, Sorted(remainder[1..], Tagged(Filter, StripAll(rules))));
      assert remainder == [remainder[0]] + remainder[1..];
    }
  }

  lemma SortPlain(files: Files, tokens: seq<string>, rest: Sorted)
    requires tokens != [] && AllPlain(tokens[..1]) && Sort(files, tokens[1..]) == Ok(rest)
    ensures Sort(files, tokens) == Ok(Sorted([tokens[0]] + rest.remainder, rest.entries))
  {
    assert Plain(tokens[..1][0]);
    TakePlain(files, tokens);
    assert [] + rest.entries == rest.entries;
  }

  lemma SortFilter(files: Files, tokens: seq<string>, rest: Sorted)
    requires |tokens| >= 2 && tokens[0] == "--filter" && Sort(files, tokens[2..]) == Ok(rest)
    ensures Sort(files, tokens) == Ok(Sorted(rest.remainder, [Entry(Filter, Text.Strip(tokens[1]))] + rest.entries))
  {
    hide Take, Text.Strip;
    TakeFilter(files, tokens);
    assert [] + rest.remainder == rest.remainder;
  }

  lemma {:induction false} RulesSort(files: Files, rules: seq<string>)
    ensures Sort(files, AsArguments(rules)) == Ok(Sorted([], Tagged(Filter, StripAll(rules))))
  {
    hide Take, Text.Strip;
    if rules != [] {
      RulesSort(files, rules[1..]);
      var tokens := AsArguments(rules);
      assert tokens[2..] == AsArguments(rules[1..]);
      assert StripAll(rules)[1..] == StripAll(rules[1..]);
      SortFilter(files, tokens, Sorted([], Tagged(Filter, StripAll(rules[1..]))));
    }
  }

  lemma {:induction false} TaggedValues(values: seq<string>, g: Group)
    ensures Values(Tagged(Filter, values), g) == if g == Filter then values else []
  {
    if values != [] {
      TaggedValues(values[1..], g);
      assert Tagged(Filter, values)[1..] == Tagged(Filter, values[1..]);
    }
  }

  /** Elements of s that are new after `seen`, each once. */
  function Unseen(seen: seq<string>, s: seq<string>): (r: seq<string>)
    ensures forall i :: 0 <= i < |r| ==> r[i] !in seen && r[i] in s
  {
    if s == [] then []
    else
      var front := Unseen(seen, s[..|s| - 1]);
      var last := s[|s| - 1];
      if last in seen || last in front then front else front + [last]
  }

  predicate NoRepeats(s: seq<string>) {
    forall i, j :: 0 <= i < j < |s| ==> s[i] != s[j]
  }

  lemma {:induction false} DedupeSplits(a: seq<string>, s: seq<string>)
    ensures Dedupe(a + s) == Dedupe(a) + Unseen(a, s) && NoRepeats(Unseen(a, s))
  {
    if s == [] {
      assert a + s == a && Dedupe(a) + [] == Dedupe(a);
    } else {
      var front, last := s[..|s| - 1], s[|s| - 1];
      DedupeSplits(a, front);
      assert (a + s)[..|a + s| - 1] == a + front && (a + s)[|a + s| - 1] == last;
      assert Dedupe(a) + (Unseen(a, front) + [last]) == Dedupe(a) + Unseen(a, front) + [last];
    }
  }

  lemma {:induction false} UnseenSkips(a: seq<string>, p: seq<string>, q: seq<string>)
    requires Within(p, a) && NoRepeats(q) && Apart(q, a)
    ensures Unseen(a, p + q) == q
  {
    if q == [] {
      UnseenNone(a, p);
      assert p + q == p;
    } else {
      var front, last := q[..|q| - 1], q[|q| - 1];
      assert Apart(front, a);
      UnseenSkips(a, p, front);
      assert (p + q)[..|p + q| - 1] == p + front;
      assert (p + q)[|p + q| - 1] == last && last !in front;
      assert q == front + [last];
    }
  }

  lemma {:induction false} UnseenNone(a: seq<string>, p: seq<string>)
    requires Within(p, a)
    ensures Unseen(a, p) == []
  {
    if p != [] { UnseenNone(a, p[..|p| - 1]); }
  }

  ghost predicate Within(p: seq<string>, a: seq<string>) {
    forall i :: 0 <= i < |p| ==> p[i] in a
  }

  ghost predicate Apart(q: seq<string>, a: seq<string>) {
    forall i :: 0 <= i < |q| ==> q[i] !in a
  }

  /** Putting the reserved rules in front of rules that start with them adds nothing. */
  lemma DedupeAbsorbs(a: seq<string>, x: seq<string>)
    ensures Dedupe(a + Dedupe(a + x)) == Dedupe(a + x)
  {
    DedupeSplits(a, x);
    DedupeSplits(a, Dedupe(a + x));
    UnseenSkips(a, Dedupe(a), Unseen(a, x));
  }

  lemma {:induction false} AsArgumentsInjective(a: seq<string>, b: seq<string>)
    requires AsArguments(a) == AsArguments(b)
    ensures a == b
  {
    if a != [] && b != [] {
      assert AsArguments(a)[1] == a[0] && AsArguments(b)[1] == b[0];
      assert AsArguments(a)[2..] == AsArguments(a[1..]) && AsArguments(b)[2..] == AsArguments(b[1..]);
      AsArgumentsInjective(a[1..], b[1..]);
    }
  }

  /** No --exclude or --include of the arguments has an empty pattern. */
  predicate PatternsNamed(entries: seq<Entry>) {
    "" !in Values(entries, Exclude) && "" !in Values(entries, Include)
  }

  ghost predicate AllStripped(rules: seq<string>) {
    forall i :: 0 <= i < |rules| ==> Text.Stripped(rules[i])
  }

  lemma {:induction false} ValuesGood(entries: seq<Entry>, g: Group)
    requires AllGood(entries)
    ensures AllStripped(Values(entries, g)) && (ReadsFile(g) ==> "" !in Values(entries, g))
  {
    if entries != [] { ValuesGood(entries[1..], g); }
  }

  lemma PrefixedStripped(prefix: string, patterns: seq<string>)
    requires (prefix == "- " || prefix == "+ ") && AllStripped(patterns)
    ensures AllStripped(Prefixed(prefix, patterns)) <==> "" !in patterns
  {
    forall i | 0 <= i < |patterns| ensures Text.Stripped(prefix + patterns[i]) <==> patterns[i] != "" {
      if patterns[i] == "" { assert prefix + patterns[i] == prefix; }
    }
    if "" in patterns {
      var i :| 0 <= i < |patterns| && patterns[i] == "";
      assert !Text.Stripped(Prefixed(prefix, patterns)[i]);
    }
  }

  lemma StrippedConcat(a: seq<string>, b: seq<string>)
    ensures AllStripped(a + b) <==> AllStripped(a) && AllStripped(b)
  {
    forall i | 0 <= i < |a| ensures (a + b)[i] == a[i] { }
    forall i | 0 <= i < |b| ensures (a + b)[|a| + i] == b[i] { }
  }

  lemma RulesStripped(entries: seq<Entry>)
    requires AllGood(entries)
    ensures AllStripped(RESERVED_RULES + UserRules(entries)) <==> PatternsNamed(entries)
  {
    var x1, x2 := Prefixed("- ", Values(entries, Exclude)), Prefixed("- ", Values(entries, ExcludeFrom));
    var f1, f2 := Values(entries, Filter), Values(entries, FilterFrom);
    var y1, y2 := Prefixed("+ ", Values(entries, Include)), Prefixed("+ ", Values(entries, IncludeFrom));
    var drop := if HasIncludes(entries) then [DROP_REST] else [];
    GroupStripped(entries);
    ReservedStripped();
    StrippedConcat(RESERVED_RULES, UserRules(entries));
    StrippedSeven(x1, x2, f1, f2, y1, y2, drop);
  }

  lemma StrippedSeven(a: seq<string>, b: seq<string>, c: seq<string>, d: seq<string>, e: seq<string>, f: seq<string>, g: seq<string>)
    ensures AllStripped(a + b + c + d + e + f + g)
       <==> AllStripped(a) && AllStripped(b) && AllStripped(c) && AllStripped(d) && AllStripped(e) && AllStripped(f) && AllStripped(g)
  {
    StrippedConcat(a, b);
    StrippedConcat(a + b, c);
    StrippedConcat(a + b + c, d);
    StrippedConcat(a + b + c + d, e);
    StrippedConcat(a + b + c + d + e, f);
    StrippedConcat(a + b + c + d + e + f, g);
  }

  /** Which of the groups' rules survive stripping. */
  lemma GroupStripped(entries: seq<Entry>)
    requires AllGood(entries)
    ensures AllStripped(Prefixed("- ", Values(entries, Exclude))) <==> "" !in Values(entries, Exclude)
    ensures AllStripped(Prefixed("+ ", Values(entries, Include))) <==> "" !in Values(entries, Include)
    ensures AllStripped(Prefixed("- ", Values(entries, ExcludeFrom))) && AllStripped(Prefixed("+ ", Values(entries, IncludeFrom)))
    ensures AllStripped(Values(entries, Filter)) && AllStripped(Values(entries, FilterFrom))
  {
    ValuesGood(entries, Exclude);
    ValuesGood(entries, ExcludeFrom);
    ValuesGood(entries, Include);
    ValuesGood(entries, IncludeFrom);
    ValuesGood(entries, Filter);
    ValuesGood(entries, FilterFrom);
    PrefixedStripped("- ", Values(entries, Exclude));
    PrefixedStripped("- ", Values(entries, ExcludeFrom));
    PrefixedStripped("+ ", Values(entries, Include));
    PrefixedStripped("+ ", Values(entries, IncludeFrom));
  }

  lemma DedupeStripped(rules: seq<string>)
    ensures AllStripped(Dedupe(rules)) <==> AllStripped(rules)
  {
    forall i | 0 <= i < |rules| ensures rules[i] in Dedupe(rules) { }
    forall i | 0 <= i < |Dedupe(rules)| ensures Dedupe(rules)[i] in rules { }
  }

  /** Compiling the compiled arguments again changes nothing exactly when no
      --exclude or --include has an empty pattern: "- " would become "-". */
  lemma CompileTwice(files: Files, args: seq<string>)
    ensures Compile(files, args).Ok? ==>
              var out := Compile(files, args).value;
              (Compile(files, out) == Ok(out)) <==> PatternsNamed(Sort(files, Normalize(args).value).value.entries)
  {
    if Compile(files, args).Ok? {
      hide AllStripped, PatternsNamed, NormalForm, UserRules, AllPlain, AllGood;
      NormalizeMakesNormal(args);
      SortIsWell(files, Normalize(args).value);
      var s := Sort(files, Normalize(args).value).value;
      var rules := Dedupe(RESERVED_RULES + UserRules(s.entries));
      OutputIsNormal(s.remainder, rules);
      NormalStays(s.remainder + AsArguments(rules));
      OutputSorts(files, s.remainder, rules);
      RulesStripped(s.entries);
      DedupeStripped(RESERVED_RULES + UserRules(s.entries));
      SecondCompile(s, rules);
    }
  }

  /** An empty exclude compiles to arguments that compile to others. */
  lemma EmptyPatternChanges(files: Files)
    ensures Compile(files, ["--exclude", ""]).Ok?
    ensures var out := Compile(files, ["--exclude", ""]).value; Compile(files, out) != Ok(out)
  {
    var args := ["--exclude", ""];
    EmptyExclude(files);
    CompileTwice(files, args);
    assert Values([Entry(Exclude, "")], Exclude)[0] == "";
    hide Normalize, Sort, UserRules, Dedupe;
  }

  lemma ExcludeFlag()
    ensures GroupOf("--exclude") == Some(Exclude) && '=' !in "--exclude" && !IsFilesFrom("--exclude") && "--exclude" != "--delete-excluded"
    ensures !ReadsFile(Exclude)
  {
  }

  /** A flag with its value in the next argument. */
  lemma TakeNext(files: Files, flag: string, value: string, g: Group)
    requires GroupOf(flag) == Some(g) && '=' !in flag && !IsFilesFrom(flag) && flag != "--delete-excluded" && !ReadsFile(g)
    ensures Normalize([flag, value]) == Ok([flag, value])
    ensures Sort(files, [flag, value]) == Ok(Sorted([], [Entry(g, Text.Strip(value))]))
  {
    hide GroupOf, IsFilesFrom, Text.Strip, RewriteOf;
    var args := [flag, value];
    NamedStays(flag, g);
    assert args[2..] == [] && [flag, value] + [] == args && Normalize([]) == Ok([]);
    Text.BeforeHead(flag, "", '=');
    assert flag + "" == flag;
    TaggedOne(g, Text.Strip(value));
    assert Take(files, args) == Ok(Taken(Sorted([], [Entry(g, Text.Strip(value))]), 2));
    JoinNothing(Sorted([], [Entry(g, Text.Strip(value))]), Ok(NOTHING));
  }

  lemma NamedStays(flag: string, g: Group)
    requires GroupOf(flag) == Some(g)
    ensures TakesValue(flag) && RewriteOf(flag) == Same
  {
    hide GroupOf;
  }

  lemma EmptyExclude(files: Files)
    ensures Normalize(["--exclude", ""]) == Ok(["--exclude", ""])
    ensures Sort(files, ["--exclude", ""]) == Ok(Sorted([], [Entry(Exclude, "")]))
    ensures Values([Entry(Exclude, "")], Exclude) == [""]
    ensures Values([Entry(Exclude, "")], Filter) == [] && Values([Entry(Exclude, "")], FilterFrom) == []
  {
    hide GroupOf, IsFilesFrom, Text.Strip, Normalize, Sort, Values, ReadsFile;
    ExcludeFlag();
    TakeNext(files, "--exclude", "", Exclude);
    BlankStrips();
    OneEntry(Exclude, "", Exclude);
    OneEntry(Exclude, "", Filter);
    OneEntry(Exclude, "", FilterFrom);
  }

  lemma BlankStrips()
    ensures Text.Strip("") == ""
  {
  }

  lemma OneEntry(g: Group, value: string, of: Group)
    ensures Values([Entry(g, value)], of) == if g == of then [value] else []
  {
    assert [Entry(g, value)][1..] == [] && [value] + [] == [value];
  }

  lemma SecondCompile(s: Sorted, rules: seq<string>)
    requires rules == Dedupe(RESERVED_RULES + UserRules(s.entries))
    requires "!" !in Values(s.entries, Filter) && "!" !in Values(s.entries, FilterFrom)
    ensures (Compiled(Sorted(s.remainder, Tagged(Filter, StripAll(rules)))) == Ok(s.remainder + AsArguments(rules)))
       <==> AllStripped(rules)
  {
    if AllStripped(rules) {
      StripAllFixed(rules);
      NoReset(s.entries);
      RecompiledIs(s.remainder, rules);
      DedupeAbsorbs(RESERVED_RULES, UserRules(s.entries));
    } else if "!" !in StripAll(rules) {
      RecompiledIs(s.remainder, StripAll(rules));
      StripsChange(s, rules);
    } else {
      FilterValues(StripAll(rules));
    }
  }

  lemma FilterValues(rules: seq<string>)
    ensures Values(Tagged(Filter, rules), Filter) == rules
  {
    TaggedValues(rules, Filter);
  }

  /** Compiling rules that all came in as --filter puts the reserved rules in front. */
  lemma RecompiledIs(remainder: seq<string>, rules: seq<string>)
    requires "!" !in rules
    ensures Compiled(Sorted(remainder, Tagged(Filter, rules))) == Ok(remainder + AsArguments(Dedupe(RESERVED_RULES + rules)))
  {
    var entries := Tagged(Filter, rules);
    TaggedValues(rules, Include);
    TaggedValues(rules, IncludeFrom);
    TaggedValues(rules, Exclude);
    TaggedValues(rules, ExcludeFrom);
    TaggedValues(rules, Filter);
    TaggedValues(rules, FilterFrom);
    FilterOnly(entries, rules);
    hide UserRules, Values, Tagged, Dedupe;
  }

  lemma FilterOnly(entries: seq<Entry>, rules: seq<string>)
    requires Values(entries, Filter) == rules && forall g :: g != Filter ==> Values(entries, g) == []
    ensures UserRules(entries) == rules
  {
    hide Values;
    assert Values(entries, Exclude) == [] && Values(entries, ExcludeFrom) == [] && Values(entries, FilterFrom) == [];
    assert Values(entries, Include) == [] && Values(entries, IncludeFrom) == [];
  }

  lemma StripAllFixed(rules: seq<string>)
    ensures AllStripped(rules) ==> StripAll(rules) == rules
    ensures AllStripped(StripAll(rules))
  {
    forall i | 0 <= i < |rules|
      ensures Text.Stripped(StripAll(rules)[i]) && (Text.Stripped(rules[i]) <==> StripAll(rules)[i] == rules[i])
    {
      Text.StripFixed(rules[i]);
    }
  }

  /** A rule that stripping changes is not reproduced. */
  lemma StripsChange(s: Sorted, rules: seq<string>)
    requires !AllStripped(rules)
    ensures s.remainder + AsArguments(Dedupe(RESERVED_RULES + StripAll(rules))) != s.remainder + AsArguments(rules)
  {
    var again := Dedupe(RESERVED_RULES + StripAll(rules));
    StripAllFixed(rules);
    ReservedStripped();
    StrippedConcat(RESERVED_RULES, StripAll(rules));
    DedupeStripped(RESERVED_RULES + StripAll(rules));
    assert (s.remainder + AsArguments(rules))[|s.remainder|..] == AsArguments(rules);
    assert (s.remainder + AsArguments(again))[|s.remainder|..] == AsArguments(again);
    if AsArguments(again) == AsArguments(rules) {
      AsArgumentsInjective(again, rules);
    }
  }

  lemma ReservedStripped()
    ensures AllStripped(RESERVED_RULES)
  {
    PrefixedStripped("- ", ReservedPatterns());
  }

  lemma NoReset(entries: seq<Entry>)
    requires "!" !in Values(entries, Filter) && "!" !in Values(entries, FilterFrom)
    ensures "!" !in Dedupe(RESERVED_RULES + UserRules(entries))
  {
    PrefixedNoReset("- ", ReservedPatterns());
    PrefixedNoReset("- ", Values(entries, Exclude));
    PrefixedNoReset("- ", Values(entries, ExcludeFrom));
    PrefixedNoReset("+ ", Values(entries, Include));
    PrefixedNoReset("+ ", Values(entries, IncludeFrom));
    hide Prefixed, ReservedPatterns;
    assert DROP_REST != "!";
    assert "!" !in UserRules(entries);
  }

  lemma PrefixedNoReset(prefix: string, patterns: seq<string>)
    requires |prefix| == 2
    ensures "!" !in Prefixed(prefix, patterns)
  {
    forall i | 0 <= i < |patterns| ensures Prefixed(prefix, patterns)[i] != "!" {
      assert |Prefixed(prefix, patterns)[i]| >= 2;
    }
  }

  // ---------- includes after a compiled include ----------

  function WithoutIncludes(entries: seq<Entry>): seq<Entry> {
    if entries == [] then []
    else (if entries[0].group in {Include, IncludeFrom} then [] else [entries[0]]) + WithoutIncludes(entries[1..])
  }

  lemma ValuesCons(e: Entry, rest: seq<Entry>, g: Group)
    ensures Values([e] + rest, g) == (if e.group == g then [e.value] else []) + Values(rest, g)
  {
    assert ([e] + rest)[1..] == rest;
  }

  lemma {:induction false} WithoutIncludesValues(entries: seq<Entry>, g: Group)
    ensures Values(WithoutIncludes(entries), g) == if g in {Include, IncludeFrom} then [] else Values(entries, g)
  {
    if entries != [] {
      WithoutIncludesValues(entries[1..], g);
      var rest := WithoutIncludes(entries[1..]);
      if entries[0].group in {Include, IncludeFrom} { assert [] + rest == rest; } else { ValuesCons(entries[0], rest, g); }
    }
  }

  /** Once an earlier compilation has dropped the rest with "- **", an include
      given beside the compiled rules decides nothing any more. */
  lemma LaterIncludesAreDead(m: Matcher, entries: seq<Entry>, path: string)
    requires MatchesAsRclone(m) && DROP_REST in Values(entries, Filter)
    ensures Decide(m, Dedupe(RESERVED_RULES + UserRules(entries)), path)
         == Decide(m, Dedupe(RESERVED_RULES + UserRules(WithoutIncludes(entries))), path)
  {
    var fewer := WithoutIncludes(entries);
    WithoutIncludesValues(entries, Exclude);
    WithoutIncludesValues(entries, ExcludeFrom);
    WithoutIncludesValues(entries, Filter);
    WithoutIncludesValues(entries, FilterFrom);
    DropRestHits(m, Values(entries, Filter), Values(entries, FilterFrom), path);
    RulesMean(m, entries, path);
    RulesMean(m, fewer, path);
  }

  lemma DropRestHits(m: Matcher, filter: seq<string>, filterFrom: seq<string>, path: string)
    requires m(DROP_REST, path) && DROP_REST in filter
    ensures Hit(m, filter + filterFrom, path)
  {
    var i :| 0 <= i < |filter| && filter[i] == DROP_REST;
    assert (filter + filterFrom)[i] == DROP_REST;
  }
}
