/**
  The filter compiler seen from the command line: what any list of arguments
  means, option by option and in every spelling, and which lists are refused.
*/
module FilterOptions {
  import opened Results
  import opened FilterCompiler
  import Text

  // ---------- the options ----------

  datatype Flag = IncludeFlag | IncludeFromFlag | ExcludeFlag | ExcludeFromFlag | FilterFlag | FilterFromFlag | FiltersFileFlag

  datatype Kind = Including | Excluding | Filtering

  datatype ShortForm = Next | Equals | Attached

  datatype Choice =
    | Rule(flag: Flag, value: string, inlined: bool)
    | Short(value: string, form: ShortForm)
    | FileList(name: string, value: string, inlined: bool)
    | DeleteExcludedFlag(setting: Option<string>)
    | CombinedFlags(token: string)
    | Other(token: string)
    | Dangling(name: string)

  function NameOf(f: Flag): string {
    match f
    case IncludeFlag => "--include"
    case IncludeFromFlag => "--include-from"
    case ExcludeFlag => "--exclude"
    case ExcludeFromFlag => "--exclude-from"
    case FilterFlag => "--filter"
    case FilterFromFlag => "--filter-from"
    case FiltersFileFlag => "--filters-file"
  }

  function KindOf(f: Flag): Kind {
    match f
    case IncludeFlag => Including
    case IncludeFromFlag => Including
    case ExcludeFlag => Excluding
    case ExcludeFromFlag => Excluding
    case _ => Filtering
  }

  predicate FromFile(f: Flag) {
    f in {IncludeFromFlag, ExcludeFromFlag, FilterFromFlag, FiltersFileFlag}
  }

  predicate IsFileList(name: string) {
    name == "--files-from" || name == "--files-from-raw" || name == "--files-from0"
  }

  /** A flag that waits for a value. */
  predicate WaitsForValue(name: string) {
    name == "-f" || IsFileList(name) || exists f :: name == NameOf(f)
  }

  /** How the option is written. */
  function Render(o: Choice): seq<string> {
    match o
    case Rule(f, value, inlined) => if inlined then [NameOf(f) + "=" + value] else [NameOf(f), value]
    case Short(value, form) =>
      (match form
       case Next => ["-f", value]
       case Equals => ["-f=" + value]
       case Attached => ["-f" + value])
    case FileList(name, value, inlined) => if inlined then [name + "=" + value] else [name, value]
    case DeleteExcludedFlag(value) => [if value.Some? then "--delete-excluded=" + value.value else "--delete-excluded"]
    case CombinedFlags(token) => [token]
    case Other(token) => [token]
    case Dangling(name) => [name]
  }

  function RenderAll(os: seq<Choice>): seq<string> {
    if os == [] then [] else Render(os[0]) + RenderAll(os[1..])
  }

  /** A dash, letters and among them the f of the short filter flag. */
  predicate CombinesFilter(token: string) {
    exists k :: 0 < k < |token| && token[0] == '-' && token[k] == 'f' && forall i :: 0 < i < k ==> 'a' <= token[i] <= 'z' || 'A' <= token[i] <= 'Z'
  }

  lemma CombinedIs(token: string)
    ensures Combined(token) <==> CombinesFilter(token)
  {
  }

  /** "0", or "false" in any case. */
  predicate SaysNo(value: string) {
    value == "0"
    || (|value| == 5 && value[0] in "fF" && value[1] in "aA" && value[2] in "lL" && value[3] in "sS" && value[4] in "eE")
  }

  lemma {:induction false} LowerAt(value: string, i: nat)
    requires i < |value|
    ensures |Lower(value)| == |value|
    ensures Lower(value)[i] == if 'A' <= value[i] <= 'Z' then (value[i] as int + 32) as char else value[i]
  {
    LowerLength(value);
    if i > 0 { LowerAt(value[1..], i - 1); }
  }

  lemma LowerLength(value: string)
    ensures |Lower(value)| == |value|
  {
  }

  lemma SaysNoIs(value: string)
    ensures SaysNo(value) <==> Lower(value) in ["false", "0"]
  {
    LowerLength(value);
    forall i | 0 <= i < |value|
      ensures Lower(value)[i] == if 'A' <= value[i] <= 'Z' then (value[i] as int + 32) as char else value[i]
    {
      LowerAt(value, i);
    }
    hide Lower;
    if |value| == 1 { assert Lower(value) == "0" <==> value == "0"; }
    if |value| == 5 { assert Lower(value) == "false" <==> SaysNo(value) by { FiveLetters(value, Lower(value)); } }
  }

  lemma FiveLetters(value: string, lower: string)
    requires |value| == |lower| == 5
    requires forall i :: 0 <= i < 5 ==> lower[i] == if 'A' <= value[i] <= 'Z' then (value[i] as int + 32) as char else value[i]
    ensures lower == "false" <==> SaysNo(value)
  {
  }

  ghost predicate WellFormed(o: Choice) {
    match o
    case Short(value, form) => form.Attached? ==> value != "" && value[0] != '='
    case FileList(name, _, _) => IsFileList(name)
    case CombinedFlags(token) => CombinesFilter(token) && !StartsWith(token, "--") && !StartsWith(token, "-f")
    case Other(token) => Plain(token) && FlagOf(token) != "--delete-excluded"
    case Dangling(name) => WaitsForValue(name)
    case _ => true
  }

  /** Only the last option can lack its value. */
  ghost predicate AllFormed(os: seq<Choice>) {
    && (forall i :: 0 <= i < |os| ==> WellFormed(os[i]))
    && (forall i :: 0 <= i < |os| - 1 ==> !os[i].Dangling?)
  }

  // ---------- what the options mean ----------

  predicate Usable(files: Files, file: string) {
    file != "-" && file in files
  }

  /** Why an option is refused on its own. */
  function Problem(files: Files, o: Choice): Option<Error> {
    match o
    case FileList(_, _, _) => Some(FilesFrom)
    case DeleteExcludedFlag(value) => if value.Some? && SaysNo(value.value) then None else Some(DeleteExcluded)
    case Dangling(name) => Some(if IsFileList(name) then FilesFrom else MissingValue)
    case Rule(f, value, _) => if FromFile(f) && !Usable(files, value) then Some(BadFilterFile) else None
    case _ => None
  }

  /** The patterns the option gives: its value, or the lines of its file that say something. */
  function Patterns(files: Files, o: Choice): seq<string> {
    match o
    case Rule(f, value, _) =>
      if !FromFile(f) then [Text.Strip(value)] else if Usable(files, value) then RuleLines(files[value]) else []
    case Short(value, _) => [Text.Strip(value)]
    case _ => []
  }

  predicate Is(o: Choice, kind: Kind, fromFile: bool) {
    if o.Short? then kind == Filtering && !fromFile
    else o.Rule? && KindOf(o.flag) == kind && FromFile(o.flag) == fromFile
  }

  /** The patterns of one kind, all on the command line or all from files, in order. */
  function Given(files: Files, os: seq<Choice>, kind: Kind, fromFile: bool): seq<string> {
    if os == [] then []
    else (if Is(os[0], kind, fromFile) then Patterns(files, os[0]) else []) + Given(files, os[1..], kind, fromFile)
  }

  /** Some option of the kind gives the pattern. */
  ghost predicate Gives(files: Files, os: seq<Choice>, kind: Kind, pattern: string) {
    exists o :: o in os && (Is(o, kind, false) || Is(o, kind, true)) && pattern in Patterns(files, o)
  }

  /** The filter rules: those on the command line come before those from files. */
  function FilterRules(files: Files, os: seq<Choice>): seq<string> {
    Given(files, os, Filtering, false) + Given(files, os, Filtering, true)
  }

  function OtherTokens(os: seq<Choice>): seq<string> {
    if os == [] then [] else (if os[0].Other? || os[0].DeleteExcludedFlag? then Render(os[0]) else []) + OtherTokens(os[1..])
  }

  /** The first option refused on its own. */
  function FirstProblem(files: Files, os: seq<Choice>): Option<Error> {
    if os == [] then None else if Problem(files, os[0]).Some? then Problem(files, os[0]) else FirstProblem(files, os[1..])
  }

  /** Combined short flags are refused before anything else, a reset of the filters last. */
  ghost function Refusal(files: Files, os: seq<Choice>): Option<Error> {
    if exists o :: o in os && o.CombinedFlags? then Some(CombinedShortFlags)
    else if FirstProblem(files, os).Some? then FirstProblem(files, os)
    else if "!" in FilterRules(files, os) then Some(FilterReset)
    else None
  }

  // ---------- normalizing ----------

  /** The option after normalizing. */
  function Written(o: Choice): seq<string> {
    match o
    case Short(value, form) => if form.Next? then ["--filter", value] else ["--filter=" + value]
    case Dangling(name) => [if name == "-f" then "--filter" else name]
    case _ => Render(o)
  }

  function WrittenAll(os: seq<Choice>): seq<string> {
    if os == [] then [] else Written(os[0]) + WrittenAll(os[1..])
  }

  const VALUE_FLAGS := ["--include", "--include-from", "--exclude", "--exclude-from", "--filter", "--filter-from", "--filters-file",
                        "--files-from", "--files-from-raw", "--files-from0"]

  lemma TakesIs(name: string)
    ensures TakesValue(name) <==> name in VALUE_FLAGS
  {
  }

  lemma WaitsIs(name: string)
    ensures WaitsForValue(name) <==> name == "-f" || name in VALUE_FLAGS
  {
    assert NameOf(IncludeFlag) == "--include" && NameOf(IncludeFromFlag) == "--include-from" && NameOf(ExcludeFlag) == "--exclude"
           && NameOf(ExcludeFromFlag) == "--exclude-from" && NameOf(FilterFlag) == "--filter" && NameOf(FilterFromFlag) == "--filter-from"
           && NameOf(FiltersFileFlag) == "--filters-file";
  }

  lemma NoValueFlag(name: string)
    requires name == "-f"
    ensures '=' !in name && name !in VALUE_FLAGS && "--delete-excluded" !in VALUE_FLAGS
  {
    assert forall i :: 0 <= i < |VALUE_FLAGS| ==> VALUE_FLAGS[i][1] == '-';
  }

  lemma FlagsTakeValues(name: string)
    ensures TakesValue(name) || name == "-f" <==> WaitsForValue(name)
    ensures WaitsForValue(name) ==> '=' !in name && FlagOf(name) == name && name != "--delete-excluded"
  {
    NoEquals(name);
    TakesIs(name);
    WaitsIs(name);
    NoValueFlag("-f");
    InlineIffEquals("-f");
    hide WaitsForValue, TakesValue, VALUE_FLAGS;
  }

  lemma NameWaits(f: Flag)
    ensures WaitsForValue(NameOf(f))
  {
  }

  /** A flag with its value behind an equals sign is a token of its own. */
  lemma InlinedToken(name: string, value: string)
    requires '=' !in name
    ensures var token := name + "=" + value; FlagOf(token) == name && InlineValue(token) == Some(value) && '=' in token
  {
    var token := name + "=" + value;
    assert token == name + ("=" + value) && token[|name|] == '=';
    Text.BeforeHead(name, "=" + value, '=');
    assert token[|name| + 1..] == value;
  }

  lemma LongStays(token: string)
    requires StartsWith(token, "--") && '=' in token
    ensures RewriteOf(token) == Same && !TakesValue(token) && token != "-f"
  {
    NoEquals(token);
    assert token[0] == '-' && token[1] == '-';
  }

  /** What normalizing does to one option. */
  lemma NormalizeOne(o: Choice, rest: seq<string>)
    requires WellFormed(o) && (o.Dangling? ==> rest == [])
    ensures Normalize(Render(o) + rest) == if o.CombinedFlags? then Err(CombinedShortFlags) else Cons(Written(o), Normalize(rest))
  {
    hide Normalize, RewriteOf, TakesValue, Plain, WaitsForValue;
    var args := Render(o) + rest;
    match o
    case Rule(f, value, inlined) => FlagNormalizes(NameOf(f), value, inlined, rest) by { NameWaits(f); }
    case FileList(name, value, inlined) => FlagNormalizes(name, value, inlined, rest) by { ListWaits(name); }
    case Short(value, form) => ShortNormalizes(value, form, rest);
    case DeleteExcludedFlag(value) => DeleteNormalizes(o, rest);
    case CombinedFlags(token) => CombinedNormalizes(token, rest);
    case Other(token) => PlainNormalizes(token, rest);
    case Dangling(name) => DanglingNormalizes(name);
  }

  lemma ListWaits(name: string)
    requires IsFileList(name)
    ensures WaitsForValue(name)
  {
  }

  lemma FlagNormalizes(name: string, value: string, inlined: bool, rest: seq<string>)
    requires WaitsForValue(name) && name != "-f"
    ensures !inlined ==> Normalize([name, value] + rest) == Cons([name, value], Normalize(rest))
    ensures inlined ==> Normalize([name + "=" + value] + rest) == Cons([name + "=" + value], Normalize(rest))
  {
    FlagsTakeValues(name);
    hide WaitsForValue;
    if inlined {
      var token := name + "=" + value;
      InlinedToken(name, value);
      LongName(name);
      assert StartsWith(token, "--");
      LongStays(token);
      assert ([token] + rest)[1..] == rest;
    } else {
      assert ([name, value] + rest)[2..] == rest;
    }
  }

  lemma LongName(name: string)
    requires TakesValue(name)
    ensures StartsWith(name, "--")
  {
  }

  lemma ShortNormalizes(value: string, form: ShortForm, rest: seq<string>)
    requires WellFormed(Short(value, form))
    ensures Normalize(Render(Short(value, form)) + rest) == Cons(Written(Short(value, form)), Normalize(rest))
  {
    var token := Render(Short(value, form))[0];
    ShortRewrites(value, form);
    hide RewriteOf, TakesValue;
    var args := Render(Short(value, form)) + rest;
    if form.Next? { assert args[2..] == rest; } else { assert args[1..] == rest; }
  }

  lemma ShortRewrites(value: string, form: ShortForm)
    requires WellFormed(Short(value, form))
    ensures var token := Render(Short(value, form))[0];
            && !TakesValue(token) && (token == "-f" <==> form.Next?)
            && RewriteOf(token) == As(Written(Short(value, form))[0])
  {
    var token := Render(Short(value, form))[0];
    assert token[0] == '-' && token[1] == 'f';
    if TakesValue(token) { SecondDash(token); }
    hide TakesValue, Combined;
    if form.Equals? { assert token[3..] == value; }
    if form.Attached? { assert token[2..] == value && token[2] != '='; }
  }

  lemma SecondDash(token: string)
    requires TakesValue(token)
    ensures |token| > 1 && token[1] == '-'
  {
    TakesIs(token);
  }

  lemma DeleteNormalizes(o: Choice, rest: seq<string>)
    requires o.DeleteExcludedFlag?
    ensures Normalize(Render(o) + rest) == Cons(Written(o), Normalize(rest))
  {
    var token := Render(o)[0];
    assert token[0] == '-' && token[1] == '-' && token[2] == 'd';
    assert (Render(o) + rest)[1..] == rest;
    NotAFlag(token);
  }

  lemma NotAFlag(token: string)
    requires |token| > 2 && token[0] == '-' && token[1] == '-' && token[2] == 'd'
    ensures !TakesValue(token) && RewriteOf(token) == Same && token != "-f"
  {
    assert StartsWith(token, "--") && !StartsWith(token, "-f");
  }

  lemma CombinedNormalizes(token: string, rest: seq<string>)
    requires WellFormed(CombinedFlags(token))
    ensures Normalize([token] + rest) == Err(CombinedShortFlags)
  {
    CombinedIsRefused(token);
    hide RewriteOf;
  }

  lemma CombinedIsRefused(token: string)
    requires WellFormed(CombinedFlags(token))
    ensures RewriteOf(token).Refused?
  {
    CombinedIs(token);
    hide Combined, CombinesFilter;
    if TakesValue(token) { LongName(token); }
  }

  lemma PlainNormalizes(token: string, rest: seq<string>)
    requires Plain(token)
    ensures Normalize([token] + rest) == Cons([token], Normalize(rest))
  {
    PlainStands(token);
    NotShort(token);
    hide RewriteOf, TakesValue, Plain;
    assert ([token] + rest)[1..] == rest;
  }

  lemma NotShort(token: string)
    requires Plain(token)
    ensures token != "-f"
  {
  }

  lemma DanglingNormalizes(name: string)
    requires WaitsForValue(name)
    ensures Normalize([name] + []) == Cons(Written(Dangling(name)), Normalize([]))
  {
    FlagsTakeValues(name);
    assert [name] + [] == [name] && [name][1..] == [];
    DanglingRewrites(name);
    hide RewriteOf, TakesValue, WaitsForValue;
  }

  lemma DanglingRewrites(name: string)
    requires WaitsForValue(name)
    ensures if name == "-f" then RewriteOf(name) == As("--filter") && !TakesValue(name) else RewriteOf(name) == Same
  {
    FlagsTakeValues(name);
  }

  lemma {:induction false} NormalizeAll(os: seq<Choice>)
    requires AllFormed(os)
    ensures Normalize(RenderAll(os))
         == if exists o :: o in os && o.CombinedFlags? then Err(CombinedShortFlags) else Ok(WrittenAll(os))
  {
    hide Normalize, WellFormed, Render, Written;
    if os == [] {
      EmptyNormalizes();
    } else {
      NormalizeAll(os[1..]);
      assert os[0].Dangling? ==> os[1..] == [];
      NormalizeOne(os[0], RenderAll(os[1..]));
      assert os == [os[0]] + os[1..];
    }
  }

  lemma EmptyNormalizes()
    ensures Normalize([]) == Ok([])
  {
  }

  // ---------- sorting ----------

  function GroupFor(kind: Kind, fromFile: bool): Group {
    match kind
    case Including => if fromFile then IncludeFrom else Include
    case Excluding => if fromFile then ExcludeFrom else Exclude
    case Filtering => if fromFile then FilterFrom else Filter
  }

  function Entries(files: Files, o: Choice): seq<Entry> {
    match o
    case Rule(f, _, _) => Tagged(GroupFor(KindOf(f), FromFile(f)), Patterns(files, o))
    case Short(_, _) => Tagged(Filter, Patterns(files, o))
    case _ => []
  }

  function EntriesAll(files: Files, os: seq<Choice>): seq<Entry> {
    if os == [] then [] else Entries(files, os[0]) + EntriesAll(files, os[1..])
  }

  function Turn(files: Files, o: Choice): Result<Taken, Error> {
    if Problem(files, o).Some? then Err(Problem(files, o).value)
    else Ok(Taken(Sorted(OtherTokens([o]), Entries(files, o)), |Written(o)|))
  }

  /** The scan takes the options one by one. */
  lemma TakeOne(files: Files, o: Choice, rest: seq<string>)
    requires WellFormed(o) && !o.CombinedFlags? && (o.Dangling? ==> rest == [])
    ensures Take(files, Written(o) + rest) == Turn(files, o)
  {
    hide Take, Problem, GroupOf, Plain, TakesValue, RuleLines, Text.Strip;
    match o
    case Rule(f, value, inlined) => TakeRule(files, o, rest);
    case Short(value, form) => TakeShort(files, o, rest);
    case FileList(name, value, inlined) => TakeList(files, o, rest);
    case DeleteExcludedFlag(value) => TakeDelete(files, o, rest);
    case Other(token) => TakeOther(files, o, rest);
    case Dangling(name) => TakeDangling(files, o);
  }

  lemma OthersOf(o: Choice)
    ensures OtherTokens([o]) == if o.Other? || o.DeleteExcludedFlag? then Render(o) else []
  {
    hide Render;
    assert [o][1..] == [] && OtherTokens([]) == [];
    var head := if o.Other? || o.DeleteExcludedFlag? then Render(o) else [];
    assert head + [] == head;
  }

  lemma GroupOfName(f: Flag)
    ensures GroupOf(NameOf(f)) == Some(GroupFor(KindOf(f), FromFile(f)))
    ensures !IsFilesFrom(NameOf(f)) && NameOf(f) != "--delete-excluded" && '=' !in NameOf(f)
    ensures ReadsFile(GroupFor(KindOf(f), FromFile(f))) <==> FromFile(f)
  {
    FlagsTakeValues(NameOf(f)) by { NameWaits(f); }
  }

  /** A flag of a group with its value, in either spelling. */
  lemma TakeValued(files: Files, name: string, g: Group, value: string, inlined: bool, rest: seq<string>)
    requires GroupOf(name) == Some(g) && !IsFilesFrom(name) && name != "--delete-excluded" && '=' !in name
    ensures Take(files, (if inlined then [name + "=" + value] else [name, value]) + rest)
         == var values := ValuesOf(files, g, value);
            if values.Err? then Err(values.error) else Ok(Taken(Sorted([], Tagged(g, values.value)), if inlined then 1 else 2))
  {
    hide GroupOf, IsFilesFrom, ValuesOf;
    if inlined { InlinedToken(name, value); } else { InlineIffEquals(name); }
  }

  lemma ValuesArePatterns(files: Files, f: Flag, value: string, inlined: bool)
    ensures ValuesOf(files, GroupFor(KindOf(f), FromFile(f)), value)
         == var o := Rule(f, value, inlined);
            if Problem(files, o).Some? then Err(Problem(files, o).value) else Ok(Patterns(files, o))
  {
    hide RuleLines, Text.Strip;
    GroupOfName(f);
  }

  lemma TakeRule(files: Files, o: Choice, rest: seq<string>)
    requires o.Rule?
    ensures Take(files, Written(o) + rest) == Turn(files, o)
  {
    hide Take, GroupOf, ValuesOf, Patterns, NameOf, Problem;
    GroupOfName(o.flag);
    TakeValued(files, NameOf(o.flag), GroupFor(KindOf(o.flag), FromFile(o.flag)), o.value, o.inlined, rest);
    ValuesArePatterns(files, o.flag, o.value, o.inlined);
    OthersOf(o);
  }

  lemma TakeShort(files: Files, o: Choice, rest: seq<string>)
    requires o.Short?
    ensures Take(files, Written(o) + rest) == Turn(files, o)
  {
    hide Take, GroupOf, Text.Strip;
    FilterName();
    TakeValued(files, "--filter", Filter, o.value, !o.form.Next?, rest);
    assert "--filter=" + o.value == "--filter" + "=" + o.value;
    hide NameOf;
    OthersOf(o);
  }

  lemma FilterName()
    ensures GroupOf("--filter") == Some(Filter) && !IsFilesFrom("--filter") && "--filter" != "--delete-excluded" && '=' !in "--filter"
  {
    GroupOfName(FilterFlag);
  }

  lemma TakeList(files: Files, o: Choice, rest: seq<string>)
    requires o.FileList? && IsFileList(o.name)
    ensures Take(files, Written(o) + rest) == Turn(files, o)
  {
    FlagsTakeValues(o.name) by { ListWaits(o.name); }
    hide GroupOf, WaitsForValue, TakesValue;
    if o.inlined { InlinedToken(o.name, o.value); }
  }

  lemma TakeDelete(files: Files, o: Choice, rest: seq<string>)
    requires o.DeleteExcludedFlag?
    ensures Take(files, Written(o) + rest) == Turn(files, o)
  {
    if o.setting.Some? { SaysNoIs(o.setting.value); }
    hide Lower, SaysNo;
    var name := "--delete-excluded";
    OthersOf(o);
    assert GroupOf(name) == None && !IsFilesFrom(name);
    NoEqualsIn(name);
    if o.setting.Some? {
      InlinedToken(name, o.setting.value);
      assert name + "=" + o.setting.value == "--delete-excluded=" + o.setting.value;
    } else {
      InlineIffEquals(name);
    }
    hide GroupOf;
  }

  lemma NoEqualsIn(name: string)
    requires name == "--delete-excluded"
    ensures '=' !in name
  {
  }

  lemma TakeOther(files: Files, o: Choice, rest: seq<string>)
    requires o.Other? && Plain(o.token)
    ensures Take(files, Written(o) + rest) == Turn(files, o)
  {
    hide Take, Plain;
    TakePlain(files, [o.token] + rest);
    OthersOf(o);
  }

  lemma TakeLast(files: Files, name: string)
    requires FlagOf(name) == name && InlineValue(name) == None && name != "--delete-excluded" && TakesValue(name)
    ensures Take(files, [name]) == Err(if IsFileList(name) then FilesFrom else MissingValue)
  {
    hide GroupOf;
  }

  lemma DanglingName(o: Choice)
    requires o.Dangling? && WaitsForValue(o.name)
    ensures var name := Written(o)[0];
            && Written(o) == [name] && FlagOf(name) == name && InlineValue(name) == None && name != "--delete-excluded"
            && TakesValue(name) && (IsFileList(name) <==> IsFileList(o.name))
  {
    hide WaitsForValue, TakesValue, IsFileList, Text.Before;
    FlagsTakeValues(o.name);
    FlagsTakeValues("--filter") by { FilterWaits(); }
    FilterNoList();
    FilterTakes();
    InlineIffEquals(Written(o)[0]);
  }

  lemma TakeDangling(files: Files, o: Choice)
    requires o.Dangling? && WaitsForValue(o.name)
    ensures Take(files, Written(o) + []) == Turn(files, o)
  {
    hide WaitsForValue, TakesValue, Take, IsFileList, FlagOf, InlineValue;
    DanglingName(o);
    TakeLast(files, Written(o)[0]);
    assert Written(o) + [] == Written(o);
  }

  lemma FilterTakes()
    ensures TakesValue("--filter")
  {
  }

  lemma FilterWaits()
    ensures WaitsForValue("--filter")
  {
    NameWaits(FilterFlag);
  }

  lemma FilterNoList()
    ensures !IsFileList("--filter") && !IsFileList("-f")
  {
  }

  lemma {:induction false} SortAll(files: Files, os: seq<Choice>)
    requires AllFormed(os) && forall o :: o in os ==> !o.CombinedFlags?
    ensures Sort(files, WrittenAll(os))
         == if FirstProblem(files, os).Some? then Err(FirstProblem(files, os).value)
            else Ok(Sorted(OtherTokens(os), EntriesAll(files, os)))
  {
    hide Take, WellFormed, Render, Written, Problem, Entries;
    if os != [] {
      assert forall o :: o in os[1..] ==> o in os;
      SortAll(files, os[1..]);
      assert os[0].Dangling? ==> os[1..] == [];
      TakeOne(files, os[0], WrittenAll(os[1..]));
      SomethingWritten(os[0]);
      var args := WrittenAll(os);
      assert args[|Written(os[0])|..] == WrittenAll(os[1..]);
      assert args == Written(os[0]) + WrittenAll(os[1..]);
      OthersFirst(os);
    }
  }

  lemma SomethingWritten(o: Choice)
    ensures Written(o) != []
  {
  }

  lemma OthersFirst(os: seq<Choice>)
    requires os != []
    ensures OtherTokens(os) == OtherTokens([os[0]]) + OtherTokens(os[1..])
  {
    hide Render;
    assert [os[0]][1..] == [];
    var head := if os[0].Other? || os[0].DeleteExcludedFlag? then Render(os[0]) else [];
    assert head + [] == head;
  }

  // ---------- the values of each group ----------

  lemma {:induction false} ValuesTagged(g: Group, values: seq<string>, of: Group)
    ensures Values(Tagged(g, values), of) == if g == of then values else []
  {
    if values != [] {
      ValuesTagged(g, values[1..], of);
      assert Tagged(g, values)[1..] == Tagged(g, values[1..]);
    }
  }

  lemma {:induction false} ValuesConcat(a: seq<Entry>, b: seq<Entry>, g: Group)
    ensures Values(a + b, g) == Values(a, g) + Values(b, g)
  {
    if a != [] { assert (a + b)[0] == a[0]; }
    if a == [] {
      assert a + b == b;
    } else {
      ValuesConcat(a[1..], b, g);
      assert (a + b)[1..] == a[1..] + b;
    }
  }

  lemma EntriesValues(files: Files, o: Choice, kind: Kind, fromFile: bool)
    ensures Values(Entries(files, o), GroupFor(kind, fromFile)) == if Is(o, kind, fromFile) then Patterns(files, o) else []
  {
    hide Patterns;
    if o.Rule? { ValuesTagged(GroupFor(KindOf(o.flag), FromFile(o.flag)), Patterns(files, o), GroupFor(kind, fromFile)); }
    if o.Short? { ValuesTagged(Filter, Patterns(files, o), GroupFor(kind, fromFile)); }
  }

  lemma {:induction false} ValuesAreGiven(files: Files, os: seq<Choice>, kind: Kind, fromFile: bool)
    ensures Values(EntriesAll(files, os), GroupFor(kind, fromFile)) == Given(files, os, kind, fromFile)
  {
    if os != [] {
      hide Entries, Patterns, Is;
      EntriesValues(files, os[0], kind, fromFile);
      ValuesAreGiven(files, os[1..], kind, fromFile);
      ValuesConcat(Entries(files, os[0]), EntriesAll(files, os[1..]), GroupFor(kind, fromFile));
    }
  }

  ghost predicate GivesFrom(files: Files, os: seq<Choice>, kind: Kind, fromFile: bool, pattern: string) {
    exists o :: o in os && Is(o, kind, fromFile) && pattern in Patterns(files, o)
  }

  lemma GivesHead(files: Files, os: seq<Choice>, kind: Kind, fromFile: bool, pattern: string)
    requires os != []
    ensures GivesFrom(files, os, kind, fromFile, pattern)
       <==> (Is(os[0], kind, fromFile) && pattern in Patterns(files, os[0])) || GivesFrom(files, os[1..], kind, fromFile, pattern)
  {
    hide Is, Patterns;
    assert os == [os[0]] + os[1..];
    assert forall o :: o in os <==> o == os[0] || o in os[1..];
  }

  lemma {:induction false} InGiven(files: Files, os: seq<Choice>, kind: Kind, fromFile: bool, pattern: string)
    ensures pattern in Given(files, os, kind, fromFile) <==> GivesFrom(files, os, kind, fromFile, pattern)
  {
    if os != [] {
      hide Is, Patterns, GivesFrom;
      GivesHead(files, os, kind, fromFile, pattern);
      InGiven(files, os[1..], kind, fromFile, pattern);
    }
  }

  lemma GivenAreGives(files: Files, os: seq<Choice>, kind: Kind, pattern: string)
    ensures Gives(files, os, kind, pattern)
       <==> pattern in Given(files, os, kind, false) || pattern in Given(files, os, kind, true)
  {
    hide Is, Patterns, Given;
    InGiven(files, os, kind, false, pattern);
    InGiven(files, os, kind, true, pattern);
  }

  /** Some pattern of the kind matches. */
  ghost predicate Matched(m: Matcher, prefix: string, files: Files, os: seq<Choice>, kind: Kind, path: string) {
    exists pattern :: Gives(files, os, kind, pattern) && m(prefix + pattern, path)
  }

  lemma HitPrefixed(m: Matcher, prefix: string, patterns: seq<string>, path: string)
    ensures Hit(m, Prefixed(prefix, patterns), path) <==> exists p :: p in patterns && m(prefix + p, path)
  {
    if p :| p in patterns && m(prefix + p, path) {
      var i :| 0 <= i < |patterns| && patterns[i] == p;
      assert Prefixed(prefix, patterns)[i] == prefix + p;
    }
  }

  lemma MatchedIsAny(m: Matcher, prefix: string, files: Files, os: seq<Choice>, kind: Kind, path: string)
    ensures Matched(m, prefix, files, os, kind, path)
       <==> || AnyOf(m, prefix, EntriesAll(files, os), GroupFor(kind, false), path)
            || AnyOf(m, prefix, EntriesAll(files, os), GroupFor(kind, true), path)
  {
    hide Given, EntriesAll, Gives, Hit;
    ValuesAreGiven(files, os, kind, false);
    ValuesAreGiven(files, os, kind, true);
    HitPrefixed(m, prefix, Given(files, os, kind, false), path);
    HitPrefixed(m, prefix, Given(files, os, kind, true), path);
    forall pattern ensures Gives(files, os, kind, pattern)
                      <==> pattern in Given(files, os, kind, false) || pattern in Given(files, os, kind, true) {
      GivenAreGives(files, os, kind, pattern);
    }
  }

  lemma IncludesAreGiven(files: Files, os: seq<Choice>)
    ensures HasIncludes(EntriesAll(files, os)) <==> exists pattern :: Gives(files, os, Including, pattern)
  {
    hide Given, EntriesAll, Gives;
    ValuesAreGiven(files, os, Including, false);
    ValuesAreGiven(files, os, Including, true);
    forall pattern ensures Gives(files, os, Including, pattern)
                      <==> pattern in Given(files, os, Including, false) || pattern in Given(files, os, Including, true) {
      GivenAreGives(files, os, Including, pattern);
    }
    if Given(files, os, Including, false) != [] { assert Gives(files, os, Including, Given(files, os, Including, false)[0]); }
    if Given(files, os, Including, true) != [] { assert Gives(files, os, Including, Given(files, os, Including, true)[0]); }
  }

  // ---------- the theorems ----------

  /** What the options decide about a path: a reserved subtree and a path some --exclude or
      --exclude-from pattern matches are excluded; otherwise the first matching filter rule
      decides; otherwise the paths of --include and --include-from patterns are kept, and the
      rest is dropped exactly when there is such a pattern. */
  ghost function Verdict(m: Matcher, files: Files, os: seq<Choice>, path: string): Decision {
    if InReserved(path) || Matched(m, "- ", files, os, Excluding, path) then Excluded
    else if Hit(m, FilterRules(files, os), path) then Decide(m, FilterRules(files, os), path)
    else if Matched(m, "+ ", files, os, Including, path) then Kept
    else if exists pattern :: Gives(files, os, Including, pattern) then Excluded
    else Kept
  }

  /** These tokens are the other arguments, and then each rule behind a --filter. */
  ghost predicate IsOutput(out: seq<string>, others: seq<string>, rules: seq<string>) {
    && |out| == |others| + 2 * |rules| && out[..|others|] == others
    && forall i :: 0 <= i < |rules| ==> out[|others| + 2 * i] == "--filter" && out[|others| + 2 * i + 1] == rules[i]
  }

  /** Options are refused exactly for these reasons, and otherwise compile to rules that
      decide every path as the options mean it, after the arguments that are no filters. */
  lemma OptionsDecide(m: Matcher, files: Files, os: seq<Choice>) returns (rules: seq<string>)
    requires MatchesAsRclone(m) && AllFormed(os)
    ensures Compile(files, RenderAll(os)).Err? <==> Refusal(files, os).Some?
    ensures Refusal(files, os).Some? ==> Compile(files, RenderAll(os)).error == Refusal(files, os).value
    ensures Refusal(files, os).None? ==>
              && IsOutput(Compile(files, RenderAll(os)).value, OtherTokens(os), rules)
              && forall path :: Decide(m, rules, path) == Verdict(m, files, os, path)
  {
    hide Normalize, Sort, RenderAll, AllFormed, FirstProblem, Given, Dedupe, UserRules, MatchesAsRclone, Verdict, AsArguments;
    rules := [];
    NormalizeAll(os);
    if o :| o in os && o.CombinedFlags? { return; }
    SortAll(files, os);
    if FirstProblem(files, os).Some? { return; }
    var entries := EntriesAll(files, os);
    ValuesAreGiven(files, os, Filtering, false);
    ValuesAreGiven(files, os, Filtering, true);
    rules := Dedupe(RESERVED_RULES + UserRules(entries));
    OutputIs(OtherTokens(os), rules);
    forall path ensures Decide(m, rules, path) == Verdict(m, files, os, path) {
      VerdictIs(m, files, os, path);
    }
  }

  lemma {:induction false} ArgumentsAt(rules: seq<string>, i: nat)
    requires i < |rules|
    ensures AsArguments(rules)[2 * i] == "--filter" && AsArguments(rules)[2 * i + 1] == rules[i]
  {
    if i > 0 { ArgumentsAt(rules[1..], i - 1); }
  }

  lemma NamedValues(files: Files, os: seq<Choice>, f: Flag)
    requires f == ExcludeFlag || f == IncludeFlag
    ensures "" in Given(files, os, KindOf(f), false) <==> exists o :: o in os && o.Rule? && o.flag == f && Text.Strip(o.value) == ""
  {
    hide Given, Text.Strip, RuleLines;
    InGiven(files, os, KindOf(f), false, "");
    if o :| o in os && Is(o, KindOf(f), false) && "" in Patterns(files, o) { assert o.flag == f; }
    if o :| o in os && o.Rule? && o.flag == f && Text.Strip(o.value) == "" { assert Patterns(files, o) == [""]; }
  }

  /** Compiling the output of any arguments again changes nothing exactly when no value of
      an --exclude or --include is blank. */
  lemma OptionsCompileTwice(files: Files, os: seq<Choice>)
    requires AllFormed(os) && Compile(files, RenderAll(os)).Ok?
    ensures var out := Compile(files, RenderAll(os)).value;
            Compile(files, out) == Ok(out)
            <==> forall o :: o in os && o.Rule? && o.flag in {ExcludeFlag, IncludeFlag} ==> Text.Strip(o.value) != ""
  {
    CompileTwice(files, RenderAll(os));
    NormalizeAll(os);
    hide Normalize, Sort, RenderAll, AllFormed, Given, Dedupe, UserRules, AsArguments, Values, Text.Strip;
    SortAll(files, os);
    ValuesAreGiven(files, os, Excluding, false);
    ValuesAreGiven(files, os, Including, false);
    NamedValues(files, os, ExcludeFlag);
    NamedValues(files, os, IncludeFlag);
  }

  lemma OutputIs(others: seq<string>, rules: seq<string>)
    ensures IsOutput(others + AsArguments(rules), others, rules)
  {
    hide AsArguments;
    forall i | 0 <= i < |rules|
      ensures AsArguments(rules)[2 * i] == "--filter" && AsArguments(rules)[2 * i + 1] == rules[i]
    {
      ArgumentsAt(rules, i);
    }
  }

  lemma VerdictIs(m: Matcher, files: Files, os: seq<Choice>, path: string)
    requires MatchesAsRclone(m)
    ensures Decide(m, Dedupe(RESERVED_RULES + UserRules(EntriesAll(files, os))), path) == Verdict(m, files, os, path)
  {
    hide MatchesAsRclone, Dedupe, UserRules, Given, EntriesAll, Matched, AnyOf, Hit, Gives;
    RulesMean(m, EntriesAll(files, os), path);
    ValuesAreGiven(files, os, Filtering, false);
    ValuesAreGiven(files, os, Filtering, true);
    MatchedIsAny(m, "- ", files, os, Excluding, path);
    MatchedIsAny(m, "+ ", files, os, Including, path);
    IncludesAreGiven(files, os);
  }

  /** Every list of arguments is a list of such options, so the theorem is about them all. */
  lemma {:induction false} ArgumentsAreOptions(args: seq<string>) returns (os: seq<Choice>)
    ensures AllFormed(os) && RenderAll(os) == args
  {
    if args == [] { return []; }
    hide WellFormed, Render, RenderAll;
    var o, used := FirstOption(args);
    var rest := ArgumentsAreOptions(args[used..]);
    RenderCons(o, rest);
    os := [o] + rest;
    assert args == args[..used] + args[used..];
    if o.Dangling? { NothingRendered(rest); }
  }

  lemma NothingRendered(os: seq<Choice>)
    requires RenderAll(os) == []
    ensures os == []
  {
  }

  lemma RenderCons(o: Choice, rest: seq<Choice>)
    ensures RenderAll([o] + rest) == Render(o) + RenderAll(rest)
  {
    assert ([o] + rest)[1..] == rest;
  }

  lemma FirstOption(args: seq<string>) returns (o: Choice, used: nat)
    requires args != []
    ensures WellFormed(o) && 0 < used <= |args| && Render(o) == args[..used] && (o.Dangling? ==> used == |args|)
  {
    var token := args[0];
    FlagsTakeValues(token);
    assert args[..1] == [token];
    if WaitsForValue(token) {
      if |args| == 1 { return Dangling(token), 1; }
      used := 2;
      assert args[..2] == [token, args[1]];
      o := WaitingOption(token, args[1]);
    } else {
      used := 1;
      o := OneToken(token);
    }
  }

  lemma WaitingOption(name: string, value: string) returns (o: Choice)
    requires WaitsForValue(name)
    ensures WellFormed(o) && Render(o) == [name, value] && !o.Dangling?
  {
    if name == "-f" {
      o := Short(value, Next);
    } else if IsFileList(name) {
      o := FileList(name, value, false);
    } else {
      var f :| name == NameOf(f);
      o := Rule(f, value, false);
    }
  }

  lemma OneToken(token: string) returns (o: Choice)
    requires !WaitsForValue(token)
    ensures WellFormed(o) && Render(o) == [token] && !o.Dangling?
  {
    var flag := FlagOf(token);
    Split(token);
    FlagsTakeValues(flag);
    if '=' in token && WaitsForValue(flag) && flag != "-f" {
      o := InlinedOption(flag, token[|flag| + 1..]);
    } else if flag == "--delete-excluded" {
      assert "--delete-excluded" + "=" == "--delete-excluded=";
      o := DeleteExcludedFlag(InlineValue(token));
    } else if StartsWith(token, "-f=") {
      assert token == "-f=" + token[3..];
      o := Short(token[3..], Equals);
    } else if StartsWith(token, "-f") {
      assert token == "-f" + token[2..];
      assert token != "-f";
      o := Short(token[2..], Attached);
    } else if Combined(token) && !StartsWith(token, "--") {
      CombinedIs(token);
      o := CombinedFlags(token);
    } else {
      o := Other(token);
    }
  }

  lemma Split(token: string)
    ensures var flag := FlagOf(token);
            if '=' in token then token == flag + "=" + token[|flag| + 1..] && InlineValue(token) == Some(token[|flag| + 1..])
            else token == flag && InlineValue(token) == None
  {
    InlineIffEquals(token);
  }

  lemma InlinedOption(flag: string, value: string) returns (o: Choice)
    requires WaitsForValue(flag) && flag != "-f"
    ensures WellFormed(o) && Render(o) == [flag + "=" + value] && !o.Dangling?
  {
    if IsFileList(flag) {
      o := FileList(flag, value, true);
    } else {
      var f :| flag == NameOf(f);
      o := Rule(f, value, true);
    }
  }

  // ---------- the lines of a filter file ----------

  /** A line that says something: neither blank nor a comment. */
  predicate Speaks(line: string) {
    Text.Strip(line) != "" && Text.Strip(line)[0] != '#' && Text.Strip(line)[0] != ';'
  }

  ghost predicate Increasing(ps: seq<nat>) {
    forall i, j :: 0 <= i < j < |ps| ==> ps[i] < ps[j]
  }

  /** The patterns of a file are its speaking lines, stripped and in order. */
  lemma {:induction false} RuleLinesAreSpeaking(lines: seq<string>) returns (ps: seq<nat>)
    ensures Increasing(ps) && forall k: nat :: k in ps <==> k < |lines| && Speaks(lines[k])
    ensures |RuleLines(lines)| == |ps|
    ensures forall i :: 0 <= i < |ps| ==> ps[i] < |lines| && RuleLines(lines)[i] == Text.Strip(lines[ps[i]])
  {
    hide Text.Strip, Speaks;
    if lines == [] { return []; }
    var n := |lines| - 1;
    ps := RuleLinesAreSpeaking(lines[..n]);
    assert lines == lines[..n] + [lines[n]];
    RuleLinesMore(lines[..n], lines[n]);
    hide RuleLines;
    assert forall i :: 0 <= i < |ps| ==> ps[i] in ps;
    if Speaks(lines[n]) { ps := ps + [n]; }
  }

  lemma {:induction false} RuleLinesMore(lines: seq<string>, line: string)
    ensures RuleLines(lines + [line]) == RuleLines(lines) + if Speaks(line) then [Text.Strip(line)] else []
  {
    hide Text.Strip;
    if lines == [] {
      assert lines + [line] == [line] && [line][1..] == [];
    } else {
      RuleLinesMore(lines[1..], line);
      assert (lines + [line])[1..] == lines[1..] + [line];
    }
  }
}
