/**
  The lock-file printer and its offline checker (scripts/update_dependency_lock.py).

  The digest of the pins, the matcher of the pin pattern and the normalized
  distribution name are given functions; the matcher accepts exactly the texts
  the pattern describes.
*/
module DependencyLock {
  import opened Results
  import Text

  // ---------- text ----------

  /** The line boundaries of str.splitlines. */
  predicate IsBreak(c: char) {
    '\n' <= c <= '\r' || '\U{001C}' <= c <= '\U{001E}' || c == '\U{0085}' || c == '\U{2028}' || c == '\U{2029}'
  }

  /** The same by code point. */
  lemma BreaksByCode(c: char)
    ensures IsBreak(c) <==> c as int in {10, 11, 12, 13, 28, 29, 30, 133, 8232, 8233}
  {
  }

  predicate OneLine(s: string) {
    forall i :: 0 <= i < |s| ==> !IsBreak(s[i])
  }

  function LineEnd(s: string): (i: nat)
    ensures i <= |s| && OneLine(s[..i]) && (i < |s| ==> IsBreak(s[i]))
  {
    if s == "" || IsBreak(s[0]) then 0 else 1 + LineEnd(s[1..])
  }

  function SplitLines(s: string): seq<string>
    decreases |s|
  {
    if s == "" then []
    else
      var i := LineEnd(s);
      if i == |s| then [s]
      else [s[..i]] + SplitLines(s[if s[i] == '\r' && i + 1 < |s| && s[i + 1] == '\n' then i + 2 else i + 1..])
  }

  /** The lines, each with its newline. */
  function Terminated(lines: seq<string>): string {
    if lines == [] then "" else lines[0] + "\n" + Terminated(lines[1..])
  }

  ghost predicate AllOneLine(lines: seq<string>) {
    forall i :: 0 <= i < |lines| ==> OneLine(lines[i])
  }

  lemma {:induction false} LineEndIs(line: string, rest: string)
    requires OneLine(line) && (rest == "" || IsBreak(rest[0]))
    ensures LineEnd(line + rest) == |line|
  {
    if line == "" {
      assert line + rest == rest;
    } else {
      assert (line + rest)[1..] == line[1..] + rest;
      LineEndIs(line[1..], rest);
    }
  }

  lemma {:induction false} SplitTerminated(lines: seq<string>)
    requires AllOneLine(lines)
    ensures SplitLines(Terminated(lines)) == lines
  {
    hide LineEnd;
    if lines != [] {
      var rest := Terminated(lines[1..]);
      var text := Terminated(lines);
      assert text == lines[0] + ("\n" + rest);
      LineEndIs(lines[0], "\n" + rest);
      assert text[|lines[0]| + 1..] == rest && text[..|lines[0]|] == lines[0];
      SplitTerminated(lines[1..]);
    }
  }

  lemma {:induction false} SplitIsOneLine(s: string)
    ensures AllOneLine(SplitLines(s))
    decreases |s|
  {
    if s != "" {
      var i := LineEnd(s);
      if i == |s| { assert s[..i] == s; }
      else { SplitIsOneLine(s[if s[i] == '\r' && i + 1 < |s| && s[i + 1] == '\n' then i + 2 else i + 1..]); }
    }
  }

  /** The words between runs of white space. */
  function Words(s: string): seq<string>
    decreases |s|
  {
    if s == "" then []
    else if Text.IsSpace(s[0]) then Words(s[1..])
    else var i := WordEnd(s); [s[..i]] + Words(s[i..])
  }

  function WordEnd(s: string): (i: nat)
    ensures i <= |s| && (s != "" && !Text.IsSpace(s[0]) ==> i > 0)
  {
    if s == "" || Text.IsSpace(s[0]) then 0 else 1 + WordEnd(s[1..])
  }

  predicate IsWord(s: string) {
    s != "" && forall i :: 0 <= i < |s| ==> !Text.IsSpace(s[i])
  }

  function Spaced(words: seq<string>): string {
    if words == [] then "" else if |words| == 1 then words[0] else words[0] + " " + Spaced(words[1..])
  }

  lemma {:induction false} WordEndIs(word: string, rest: string)
    requires (forall i :: 0 <= i < |word| ==> !Text.IsSpace(word[i])) && (rest == "" || Text.IsSpace(rest[0]))
    ensures WordEnd(word + rest) == |word|
  {
    if word == "" {
      assert word + rest == rest;
    } else {
      assert (word + rest)[1..] == word[1..] + rest;
      WordEndIs(word[1..], rest);
    }
  }

  lemma FirstWord(word: string, rest: string)
    requires IsWord(word) && (rest == "" || Text.IsSpace(rest[0]))
    ensures Words(word + rest) == [word] + Words(rest)
  {
    hide WordEnd;
    var s := word + rest;
    assert s[0] == word[0];
    WordEndIs(word, rest);
    assert s[..|word|] == word && s[|word|..] == rest;
  }

  lemma {:induction false} WordsOfSpaced(words: seq<string>)
    requires forall i :: 0 <= i < |words| ==> IsWord(words[i])
    ensures Words(Spaced(words)) == words
  {
    hide Words, IsWord;
    if words == [] {
      assert Words("") == [] by { NoWords(); }
    } else if |words| == 1 {
      FirstWord(words[0], "");
      assert words[0] + "" == words[0] && Words("") == [] by { NoWords(); }
    } else {
      WordsOfSpaced(words[1..]);
      var rest := " " + Spaced(words[1..]);
      assert words[0] + " " + Spaced(words[1..]) == words[0] + rest;
      FirstWord(words[0], rest);
      SpaceFirst(Spaced(words[1..]));
    }
  }

  lemma NoWords()
    ensures Words("") == []
  {
  }

  lemma SpaceFirst(s: string)
    ensures Words(" " + s) == Words(s)
  {
    assert (" " + s)[1..] == s;
  }

  const MARK := " --hash="

  predicate MarkAt(s: string, i: nat) {
    i + |MARK| <= |s| && s[i..i + |MARK|] == MARK
  }

  ghost predicate HasMark(s: string) {
    exists i: nat :: MarkAt(s, i)
  }

  /** The first place the mark begins. */
  function FindMark(s: string): (r: Option<nat>)
    ensures r.Some? ==> MarkAt(s, r.value) && forall i: nat :: i < r.value ==> !MarkAt(s, i)
    ensures r.None? ==> !HasMark(s)
  {
    if |s| < |MARK| then None
    else if s[..|MARK|] == MARK then Some(0)
    else
      var rest := FindMark(s[1..]);
      assert forall i: nat :: i > 0 ==> (MarkAt(s, i) <==> MarkAt(s[1..], i - 1)) by { MarkShift(s); }
      if rest.Some? then Some(rest.value + 1) else None
  }

  lemma Shifted(s: string, from: nat, i: nat)
    requires from + i + |MARK| <= |s|
    ensures s[from + i..from + i + |MARK|] == s[from..][i..i + |MARK|]
  {
  }

  lemma MarkShift(s: string)
    requires s != ""
    ensures forall i: nat :: i > 0 ==> (MarkAt(s, i) <==> MarkAt(s[1..], i - 1))
  {
    forall i: nat | i > 0 ensures MarkAt(s, i) <==> MarkAt(s[1..], i - 1) {
      if i + |MARK| <= |s| { Shifted(s, 1, i - 1); }
    }
  }

  // ---------- pins ----------

  predicate IsAlnum(c: char) {
    'a' <= c <= 'z' || 'A' <= c <= 'Z' || '0' <= c <= '9'
  }

  ghost predicate Made(s: string, more: string) {
    s != "" && IsAlnum(s[0]) && forall i :: 0 <= i < |s| ==> IsAlnum(s[i]) || s[i] in more
  }

  ghost predicate IsExtras(s: string) {
    s == "" || (|s| > 2 && s[0] == '[' && s[|s| - 1] == ']' && forall i :: 0 < i < |s| - 1 ==> IsAlnum(s[i]) || s[i] in "_,.-")
  }

  predicate AllSpace(s: string) {
    forall i :: 0 <= i < |s| ==> Text.IsSpace(s[i])
  }

  predicate Unreturned(s: string) {
    s != "" && '\r' !in s && '\n' !in s
  }

  ghost predicate SpacedOut(s: string, a: string, b: string) {
    s == a + b && AllSpace(a) && Unreturned(b)
  }

  ghost predicate IsCondition(s: string) {
    exists a, b :: SpacedOut(s, a, b)
  }

  ghost predicate MarkerParts(s: string, a: string, b: string) {
    s == a + ";" + b && AllSpace(a) && IsCondition(b)
  }

  /** An optional environment marker: a semicolon among spaces, then anything on the line. */
  ghost predicate IsMarker(s: string) {
    s == "" || exists a, b :: MarkerParts(s, a, b)
  }

  ghost predicate PinParts(s: string, a: string, b: string, c: string, d: string) {
    s == a + b + "==" + c + d && Made(a, "_.-") && IsExtras(b) && Made(c, "_.+!-") && IsMarker(d)
  }

  /** The pin pattern: name, extras, "==", version, marker. */
  ghost predicate PinText(s: string) {
    exists a, b, c, d :: PinParts(s, a, b, c, d)
  }

  type Matcher = string -> bool

  ghost predicate MatchesPins(isPin: Matcher) {
    forall s :: isPin(s) <==> PinText(s)
  }

  lemma PinStart(isPin: Matcher, s: string)
    requires MatchesPins(isPin) && isPin(s)
    ensures s != "" && IsAlnum(s[0]) && !Text.IsSpace(s[0])
  {
    var a, b, c, d :| PinParts(s, a, b, c, d);
    assert s[0] == a[0];
  }

  /** What the checker can give back: no space at the ends, one line, no hash mark. */
  ghost predicate Clean(pin: string) {
    Text.Stripped(pin) && OneLine(pin) && !HasMark(pin)
  }

  // ---------- the printer ----------

  predicate IsHex(c: char) {
    '0' <= c <= '9' || 'a' <= c <= 'f'
  }

  predicate IsDigest(s: string) {
    |s| == 64 && forall i :: 0 <= i < 64 ==> IsHex(s[i])
  }

  const HASH_OPTION := "--hash=sha256:"

  function HashOption(digest: string): string {
    HASH_OPTION + digest
  }

  /** One hash line; all but the last are continued. */
  function HashLine(digest: string, last: bool): string {
    if last then "    " + HashOption(digest) else "    " + (HashOption(digest) + " \\")
  }

  function HashLines(digests: seq<string>): seq<string> {
    if digests == [] then [] else [HashLine(digests[0], |digests| == 1)] + HashLines(digests[1..])
  }

  function PinLines(pin: string, digests: seq<string>): seq<string> {
    [pin + " \\"] + HashLines(digests) + [""]
  }

  datatype Locked = Locked(pin: string, digests: seq<string>)

  function LockedLines(locked: seq<Locked>): seq<string> {
    if locked == [] then [] else PinLines(locked[0].pin, locked[0].digests) + LockedLines(locked[1..])
  }

  type Digest = seq<string> -> string

  function DigestLine(digest: Digest, pins: seq<string>): string {
    "# Runtime pins SHA-256: " + digest(pins)
  }

  function Pins(locked: seq<Locked>): seq<string> {
    seq(|locked|, i requires 0 <= i < |locked| => locked[i].pin)
  }

  /** The explanation a lock begins with. */
  ghost predicate Comments(preamble: seq<string>) {
    forall i :: 0 <= i < |preamble| ==> IsComment(preamble[i])
  }

  predicate IsComment(line: string) {
    line != "" && line[0] == '#' && OneLine(line)
  }

  function LockLines(preamble: seq<string>, digest: Digest, locked: seq<Locked>): seq<string> {
    preamble + [DigestLine(digest, Pins(locked)), ""] + LockedLines(locked)
  }

  /** `build_lock`; the last of the joined lines is empty. */
  function Build(preamble: seq<string>, digest: Digest, locked: seq<Locked>): string {
    Terminated(LockLines(preamble, digest, locked))
  }

  // ---------- the checker ----------

  datatype Error = Changed | Unterminated | NoHashes | BadPin | BadHash | Differs

  function Piece(line: string): string
    requires line != ""
  {
    if line[|line| - 1] == '\\' then Text.Strip(line[..|line| - 1]) + " " else line
  }

  predicate IsSkipped(line: string) {
    line == "" || line[0] == '#'
  }

  /** The lines joined over their continuations. */
  function Logical(lines: seq<string>, pending: string): Result<seq<string>, Error> {
    if lines == [] then if pending == "" then Ok([]) else Err(Unterminated)
    else
      var line := Text.Strip(lines[0]);
      if IsSkipped(line) then Logical(lines[1..], pending)
      else if line[|line| - 1] == '\\' then Logical(lines[1..], pending + Piece(line))
      else
        match Logical(lines[1..], "")
        case Err(e) => Err(e)
        case Ok(rest) => Ok([Text.Strip(pending + line)] + rest)
  }

  predicate IsHashOption(s: string) {
    |s| == |HASH_OPTION| + 64 && s[..|HASH_OPTION|] == HASH_OPTION && IsDigest(s[|HASH_OPTION|..])
  }

  /** One logical line: the pin, and the digests of its hash options. */
  function Decoded(isPin: Matcher, line: string): Result<Locked, Error> {
    var start := FindMark(line);
    if start.None? then Err(NoHashes)
    else
      var pin := Text.Strip(line[..start.value]);
      var options := Words(Text.Strip(line[start.value..]));
      if !isPin(pin) then Err(BadPin)
      else if options == [] || exists i :: 0 <= i < |options| && !IsHashOption(options[i]) then Err(BadHash)
      else Ok(Locked(pin, seq(|options|, i requires 0 <= i < |options| => options[i][|HASH_OPTION|..])))
  }

  function DecodedAll(isPin: Matcher, lines: seq<string>): Result<seq<Locked>, Error> {
    if lines == [] then Ok([])
    else
      match Decoded(isPin, lines[0])
      case Err(e) => Err(e)
      case Ok(first) =>
        match DecodedAll(isPin, lines[1..])
        case Err(e) => Err(e)
        case Ok(rest) => Ok([first] + rest)
  }

  /** What a lock says. */
  function Decode(isPin: Matcher, lock: string): Result<seq<Locked>, Error> {
    match Logical(SplitLines(lock), "")
    case Err(e) => Err(e)
    case Ok(lines) => DecodedAll(isPin, lines)
  }

  /** `validate_lock`, with what it has decoded. */
  function Validate(isPin: Matcher, digest: Digest, pins: seq<string>, lock: string): Result<seq<Locked>, Error> {
    if DigestLine(digest, pins) !in SplitLines(lock) then Err(Changed)
    else
      match Decode(isPin, lock)
      case Err(e) => Err(e)
      case Ok(locked) => if Pins(locked) == pins then Ok(locked) else Err(Differs)
  }

  // ---------- what an accepted lock says ----------

  /** Each pin has a digest, and a digest is 64 lower-case hexadecimal digits. */
  ghost predicate AllHashed(locked: seq<Locked>) {
    forall i :: 0 <= i < |locked| ==>
      locked[i].digests != [] && forall j :: 0 <= j < |locked[i].digests| ==> Sha256(locked[i].digests[j])
  }

  predicate Sha256(s: string) {
    |s| == 64 && forall i :: 0 <= i < |s| ==> s[i] in "0123456789abcdef"
  }

  lemma Sha256IsDigest(s: string)
    ensures Sha256(s) <==> IsDigest(s)
  {
    if |s| == 64 {
      forall i | 0 <= i < 64 ensures s[i] in "0123456789abcdef" <==> IsHex(s[i]) { HexDigits(s[i]); }
    }
  }

  lemma HexDigits(c: char)
    ensures c in "0123456789abcdef" <==> IsHex(c)
  {
    assert "0123456789abcdef" == ['0', '1', '2', '3', '4', '5', '6', '7', '8', '9', 'a', 'b', 'c', 'd', 'e', 'f'];
  }

  lemma DecodedIsHashed(isPin: Matcher, line: string)
    requires Decoded(isPin, line).Ok?
    ensures var l := Decoded(isPin, line).value;
            isPin(l.pin) && l.digests != [] && forall j :: 0 <= j < |l.digests| ==> Sha256(l.digests[j])
  {
    hide Words, FindMark, IsDigest, Sha256, Text.Strip;
    var l := Decoded(isPin, line).value;
    forall j | 0 <= j < |l.digests| ensures Sha256(l.digests[j]) {
      assert IsDigest(l.digests[j]);
      Sha256IsDigest(l.digests[j]);
    }
  }

  lemma {:induction false} DecodedAreHashed(isPin: Matcher, lines: seq<string>)
    requires DecodedAll(isPin, lines).Ok?
    ensures AllHashed(DecodedAll(isPin, lines).value)
    ensures forall i :: 0 <= i < |DecodedAll(isPin, lines).value| ==> isPin(DecodedAll(isPin, lines).value[i].pin)
  {
    hide Decoded, IsDigest, Sha256;
    if lines != [] {
      DecodedIsHashed(isPin, lines[0]);
      DecodedAreHashed(isPin, lines[1..]);
    }
  }

  lemma {:induction false} DecodedAreClean(isPin: Matcher, lines: seq<string>)
    requires DecodedAll(isPin, lines).Ok? && AllOneLine(lines)
    ensures forall i :: 0 <= i < |DecodedAll(isPin, lines).value| ==> Clean(DecodedAll(isPin, lines).value[i].pin)
  {
    hide Clean, Decoded, OneLine;
    if lines != [] {
      assert OneLine(lines[0]);
      DecodedAreClean(isPin, lines[1..]);
      DecodedIsClean(isPin, lines[0]);
    }
  }

  lemma DecodedIsClean(isPin: Matcher, line: string)
    requires Decoded(isPin, line).Ok? && OneLine(line)
    ensures Clean(Decoded(isPin, line).value.pin)
  {
    hide Words;
    var start := FindMark(line).value;
    var head := line[..start];
    Text.StripFixed(head);
    StripOneLine(head);
    var pin := Text.Strip(head);
    NoMarkBefore(line, start, pin);
  }

  /** Stripping takes a part of the text. */
  lemma StripPart(s: string) returns (i: nat, j: nat)
    ensures i <= j <= |s| && Text.Strip(s) == s[i..j]
  {
    hide Text.IsSpace, Text.LStrip, Text.RStrip;
    var l, r := Text.LStrip(s), Text.Strip(s);
    i, j := |s| - |l|, |s| - |l| + |r|;
    assert s[i..] == l && r <= l;
    PrefixIs(r, l);
    SameStart(s, i, |r|);
  }

  lemma PrefixIs(r: string, l: string)
    requires r <= l
    ensures r == l[..|r|]
  {
  }

  lemma SameStart(s: string, i: nat, n: nat)
    requires i + n <= |s|
    ensures s[i..][..n] == s[i..i + n]
  {
  }

  lemma StripOneLine(s: string)
    requires OneLine(s)
    ensures OneLine(Text.Strip(s))
  {
    hide Text.Strip, IsBreak;
    var i, j := StripPart(s);
  }

  lemma SameSlice(line: string, i: nat, j: nat, k: nat, n: nat)
    requires i <= j <= |line| && k + n <= j - i
    ensures line[i..j][k..k + n] == line[i + k..i + k + n]
  {
    var a, b := line[i..j][k..k + n], line[i + k..i + k + n];
    assert |a| == |b| && forall x :: 0 <= x < n ==> a[x] == b[x];
  }

  lemma NoMarkBefore(line: string, start: nat, pin: string)
    requires start <= |line| && (forall i: nat :: i < start ==> !MarkAt(line, i)) && pin == Text.Strip(line[..start])
    ensures !HasMark(pin)
  {
    hide Text.Strip;
    var head := line[..start];
    var i, j := StripPart(head);
    assert pin == line[i..j];
    forall k: nat ensures !MarkAt(pin, k) {
      if k + |MARK| <= |pin| {
        SameSlice(line, i, j, k, |MARK|);
        assert !MarkAt(line, i + k);
      }
    }
  }

  lemma {:induction false} LogicalOneLine(lines: seq<string>, pending: string)
    requires AllOneLine(lines) && OneLine(pending) && Logical(lines, pending).Ok?
    ensures AllOneLine(Logical(lines, pending).value)
  {
    hide OneLine, Text.Strip;
    if lines != [] {
      var line := Text.Strip(lines[0]);
      StripOneLine(lines[0]);
      if IsSkipped(line) {
        LogicalOneLine(lines[1..], pending);
      } else if line[|line| - 1] == '\\' {
        PieceOneLine(line, pending);
        LogicalOneLine(lines[1..], pending + Piece(line));
      } else {
        OneLineEmpty();
        LogicalOneLine(lines[1..], "");
        OneLineJoin(pending, line);
        StripOneLine(pending + line);
      }
    }
  }

  lemma OneLineEmpty()
    ensures OneLine("") && OneLine(" ")
  {
  }

  lemma OneLineJoin(a: string, b: string)
    requires OneLine(a) && OneLine(b)
    ensures OneLine(a + b)
  {
  }

  lemma PieceOneLine(line: string, pending: string)
    requires line != "" && OneLine(line) && OneLine(pending) && line[|line| - 1] == '\\'
    ensures OneLine(pending + Piece(line))
  {
    hide Text.Strip;
    var core := line[..|line| - 1];
    assert OneLine(core);
    StripOneLine(core);
    hide OneLine;
    OneLineEmpty();
    OneLineJoin(Text.Strip(core), " ");
    OneLineJoin(pending, Piece(line));
  }

  /** Any accepted lock decodes to the required pins in order, each with at least
      one valid hash, and all the pins are clean. */
  lemma AcceptedDecodes(isPin: Matcher, digest: Digest, pins: seq<string>, lock: string)
    requires Validate(isPin, digest, pins, lock).Ok?
    ensures var locked := Validate(isPin, digest, pins, lock).value;
            Decode(isPin, lock) == Ok(locked) && Pins(locked) == pins && AllHashed(locked)
    ensures ("# Runtime pins SHA-256: " + digest(pins)) in SplitLines(lock)
    ensures forall i :: 0 <= i < |pins| ==> isPin(pins[i]) && Clean(pins[i])
  {
    hide SplitLines, Logical, DecodedAll, AllHashed, Clean;
    SplitIsOneLine(lock);
    LogicalOneLine(SplitLines(lock), "");
    var lines := Logical(SplitLines(lock), "").value;
    DecodedAreHashed(isPin, lines);
    DecodedAreClean(isPin, lines);
    var locked := DecodedAll(isPin, lines).value;
    forall i | 0 <= i < |pins| ensures isPin(pins[i]) && Clean(pins[i]) { assert pins[i] == locked[i].pin; }
  }

  // ---------- the round trip ----------

  predicate Printable(isPin: Matcher, l: Locked) {
    isPin(l.pin) && l.digests != [] && forall i :: 0 <= i < |l.digests| ==> IsDigest(l.digests[i])
  }

  ghost predicate AllPrintable(isPin: Matcher, locked: seq<Locked>) {
    forall i :: 0 <= i < |locked| ==> Printable(isPin, locked[i])
  }

  ghost predicate AllClean(locked: seq<Locked>) {
    forall i :: 0 <= i < |locked| ==> Clean(locked[i].pin)
  }

  function Options(digests: seq<string>): (r: seq<string>)
    ensures |r| == |digests| && forall i :: 0 <= i < |r| ==> r[i] == HashOption(digests[i])
  {
    seq(|digests|, i requires 0 <= i < |digests| => HashOption(digests[i]))
  }

  lemma OptionShape(d: string)
    requires IsDigest(d)
    ensures var o := HashOption(d);
            && IsWord(o) && IsHashOption(o) && OneLine(o) && o[|HASH_OPTION|..] == d && o[0] == '-' && o[|o| - 1] != '\\'
  {
    var o := HashOption(d);
    assert o[..|HASH_OPTION|] == HASH_OPTION && o[|HASH_OPTION|..] == d;
    assert o[|o| - 1] == d[63];
    forall i | 0 <= i < |o| ensures !Text.IsSpace(o[i]) && !IsBreak(o[i]) {
      if i < |HASH_OPTION| { assert o[i] in HASH_OPTION; } else { assert o[i] == d[i - |HASH_OPTION|]; }
    }
  }

  /** Spaces around a text go, the text stays. */
  lemma StripIs(core: string, before: string, after: string)
    requires core != "" && Text.Stripped(core)
    requires (before == "" || before == "    ") && (after == "" || after == " ")
    ensures Text.Strip(before + core + after) == core
  {
    hide Text.IsSpace, Text.LStrip, Text.RStrip;
    var s := core + after;
    assert s[0] == core[0];
    LStripSpaces(before, s);
    Associates(before, core, after);
    if after == "" { NothingAround(core); } else { RStripSpace(core); }
    KeepsCore(core);
  }

  lemma Associates(a: string, b: string, c: string)
    ensures a + b + c == a + (b + c)
  {
  }

  lemma KeepsCore(core: string)
    requires core != "" && !Text.IsSpace(core[|core| - 1])
    ensures Text.RStrip(core) == core
  {
  }

  lemma RStripSpace(core: string)
    requires core != "" && !Text.IsSpace(core[|core| - 1])
    ensures Text.RStrip(core + " ") == core
  {
    hide Text.IsSpace;
    assert Text.IsSpace(' ') by { SpaceIsSpace(); }
    assert (core + " ")[..|core + " "| - 1] == core;
  }

  lemma LStripSpaces(before: string, s: string)
    requires s != "" && !Text.IsSpace(s[0]) && (before == "" || before == "    ")
    ensures Text.LStrip(before + s) == s
  {
    hide Text.LStrip, Text.IsSpace;
    if before == "" {
      assert before + s == s;
    } else {
      FourSpaces(s);
      DropSpace(" " + (" " + (" " + s)));
      DropSpace(" " + (" " + s));
      DropSpace(" " + s);
      DropSpace(s);
      StripsNothing(s);
    }
  }

  lemma StripsNothing(s: string)
    requires s != "" && !Text.IsSpace(s[0])
    ensures Text.LStrip(s) == s
  {
  }

  lemma FourSpaces(s: string)
    ensures "    " + s == " " + (" " + (" " + (" " + s)))
  {
  }

  lemma DropSpace(s: string)
    ensures Text.LStrip(" " + s) == Text.LStrip(s)
  {
    hide Text.IsSpace;
    assert Text.IsSpace(' ') by { SpaceIsSpace(); }
    assert (" " + s)[1..] == s;
  }

  lemma SpaceIsSpace()
    ensures Text.IsSpace(' ')
  {
  }

  /** Reading the hash lines after a pending pin. */
  lemma {:induction false} HashesAreRead(digests: seq<string>, rest: seq<string>, pending: string)
    requires digests != [] && forall i :: 0 <= i < |digests| ==> IsDigest(digests[i])
    ensures Logical(HashLines(digests) + rest, pending) == Finished(pending + Spaced(Options(digests)), Logical(rest, ""))
  {
    hide Text.Strip, IsDigest, IsWord, IsHashOption, IsSkipped, Piece, Logical, Spaced, Options, Finished, HashLines, HashOption;
    var option, more := HashOption(digests[0]), digests[1..];
    OptionShape(digests[0]);
    var lines := HashLines(digests) + rest;
    FirstHashLine(digests, rest);
    if more == [] {
      OptionStripped(option);
      NothingMore(rest);
      OneOption(digests);
      LogicalEnds(lines, pending, option);
    } else {
      ContinuedOption(option);
      HashesAreRead(more, rest, pending + (option + " "));
      SpacedStep(pending, option, digests);
      LogicalContinues(lines, pending, option + " \\", option + " ");
    }
  }

  lemma FirstHashLine(digests: seq<string>, rest: seq<string>)
    requires digests != []
    ensures var lines := HashLines(digests) + rest;
            && lines != [] && lines[1..] == HashLines(digests[1..]) + rest
            && lines[0] == HashLine(digests[0], |digests| == 1)
  {
    hide HashLine;
    HeadAndTail(HashLine(digests[0], |digests| == 1), HashLines(digests[1..]), rest);
  }

  lemma HeadAndTail(head: string, tail: seq<string>, rest: seq<string>)
    ensures var all := [head] + tail + rest; all != [] && all[0] == head && all[1..] == tail + rest
  {
  }

  lemma NothingMore(rest: seq<string>)
    ensures HashLines([]) + rest == rest
  {
  }

  /** A finished logical line in front of the others. */
  function Finished(line: string, rest: Result<seq<string>, Error>): Result<seq<string>, Error> {
    match rest
    case Err(e) => Err(e)
    case Ok(lines) => Ok([Text.Strip(line)] + lines)
  }

  lemma OneOption(digests: seq<string>)
    requires |digests| == 1
    ensures Spaced(Options(digests)) == HashOption(digests[0])
  {
  }

  lemma LogicalEnds(lines: seq<string>, pending: string, line: string)
    requires lines != [] && Text.Strip(lines[0]) == line && !IsSkipped(line) && line[|line| - 1] != '\\'
    ensures Logical(lines, pending) == Finished(pending + line, Logical(lines[1..], ""))
  {
    hide Text.Strip;
  }

  lemma SpacedStep(pending: string, option: string, digests: seq<string>)
    requires |digests| > 1 && option == HashOption(digests[0])
    ensures pending + (option + " ") + Spaced(Options(digests[1..])) == pending + Spaced(Options(digests))
  {
    assert Options(digests)[1..] == Options(digests[1..]);
    var rest := Spaced(Options(digests[1..]));
    assert Spaced(Options(digests)) == option + " " + rest;
    hide Spaced, Options;
    assert pending + (option + " ") + rest == pending + (option + " " + rest);
  }

  /** A stripped line that goes on in the next, contributing the piece. */
  predicate Continuation(line: string, piece: string) {
    line != "" && line[0] != '#' && line[|line| - 1] == '\\' && Piece(line) == piece
  }

  lemma LogicalContinues(lines: seq<string>, pending: string, line: string, piece: string)
    requires lines != [] && Text.Strip(lines[0]) == line && Continuation(line, piece)
    ensures Logical(lines, pending) == Logical(lines[1..], pending + piece)
  {
  }

  lemma OptionStripped(option: string)
    requires IsWord(option) && option[0] == '-'
    ensures Text.Strip("    " + option) == option && !IsSkipped(option)
  {
    WordEnds(option);
    StripIs(option, "    ", "");
    hide Text.Strip, IsWord;
    NothingAround("    " + option);
  }

  lemma ContinuedOption(option: string)
    requires IsWord(option) && option[0] == '-'
    ensures Text.Strip("    " + (option + " \\")) == option + " \\"
    ensures Continuation(option + " \\", option + " ")
  {
    assert Text.Stripped(option) by { assert !Text.IsSpace(option[0]) && !Text.IsSpace(option[|option| - 1]); }
    Slashed(option, "    ");
  }

  lemma ContinuedPin(pin: string)
    requires pin != "" && Text.Stripped(pin) && pin[0] != '#'
    ensures Text.Strip(pin + " \\") == pin + " \\"
    ensures Continuation(pin + " \\", pin + " ")
  {
    hide Text.Strip, Text.Stripped, Continuation;
    Slashed(pin, "");
    assert "" + (pin + " \\") == pin + " \\";
  }

  /** A text with a continuation mark behind it. */
  lemma Slashed(core: string, before: string)
    requires core != "" && Text.Stripped(core) && core[0] != '#' && (before == "" || before == "    ")
    ensures Text.Strip(before + (core + " \\")) == core + " \\"
    ensures Continuation(core + " \\", core + " ")
  {
    hide Text.Strip, Text.IsSpace;
    var line := core + " \\";
    assert line[0] == core[0] && line[|line| - 1] == '\\';
    assert !Text.IsSpace('\\') by { SlashIsNoSpace(); }
    assert before + line + "" == before + line;
    StripIs(line, before, "");
    StripIs(core, "", " ");
    assert line[..|line| - 1] == core + " ";
    assert "" + core + " " == core + " ";
  }

  lemma SlashIsNoSpace()
    ensures !Text.IsSpace('\\')
  {
  }

  /** The logical line of a pin. */
  function LogicalLine(l: Locked): string {
    l.pin + " " + Spaced(Options(l.digests))
  }

  lemma {:induction false} SpacedEnds(words: seq<string>)
    requires words != [] && forall i :: 0 <= i < |words| ==> IsWord(words[i])
    ensures Spaced(words) != "" && Text.Stripped(Spaced(words)) && words[0] <= Spaced(words)
  {
    hide IsWord, Text.Stripped;
    assert IsWord(words[0]);
    if |words| > 1 {
      SpacedEnds(words[1..]);
      JoinEnds(words[0], Spaced(words[1..]));
    } else {
      WordEnds(words[0]);
    }
  }

  lemma WordEnds(w: string)
    requires IsWord(w)
    ensures w != "" && Text.Stripped(w)
  {
    assert !Text.IsSpace(w[0]) && !Text.IsSpace(w[|w| - 1]);
  }

  lemma JoinEnds(w: string, rest: string)
    requires IsWord(w) && rest != "" && Text.Stripped(rest)
    ensures w + " " + rest != "" && Text.Stripped(w + " " + rest) && w <= w + " " + rest
  {
    hide Text.IsSpace;
    var s := w + " " + rest;
    assert s[0] == w[0] && s[|s| - 1] == rest[|rest| - 1];
  }

  lemma OptionsAreWords(digests: seq<string>)
    requires digests != [] && forall i :: 0 <= i < |digests| ==> IsDigest(digests[i])
    ensures forall i :: 0 <= i < |digests| ==> IsWord(Options(digests)[i]) && IsHashOption(Options(digests)[i])
  {
    hide IsDigest, IsWord, IsHashOption;
    forall i | 0 <= i < |digests| ensures IsWord(Options(digests)[i]) && IsHashOption(Options(digests)[i]) { OptionShape(digests[i]); }
  }

  lemma LineStripped(l: Locked)
    requires l.pin != "" && Text.Stripped(l.pin) && l.digests != [] && forall i :: 0 <= i < |l.digests| ==> IsDigest(l.digests[i])
    ensures Text.Strip(LogicalLine(l)) == LogicalLine(l)
  {
    OptionsAreWords(l.digests);
    hide IsDigest, IsHashOption;
    var tail := Spaced(Options(l.digests));
    SpacedEnds(Options(l.digests));
    hide IsWord;
    var line := LogicalLine(l);
    assert line[0] == l.pin[0] && line[|line| - 1] == tail[|tail| - 1];
    assert "" + line + "" == line;
    StripIs(line, "", "");
  }

  function LogicalLines(locked: seq<Locked>): seq<string> {
    if locked == [] then [] else [LogicalLine(locked[0])] + LogicalLines(locked[1..])
  }

  lemma {:induction false} LockedIsRead(isPin: Matcher, locked: seq<Locked>)
    requires MatchesPins(isPin) && AllPrintable(isPin, locked) && AllClean(locked)
    ensures Logical(LockedLines(locked), "") == Ok(LogicalLines(locked))
  {
    hide MatchesPins, Logical, LogicalLine, Printable, Clean;
    if locked == [] {
      NothingRead();
    } else {
      assert Printable(isPin, locked[0]) && Clean(locked[0].pin);
      LockedIsRead(isPin, locked[1..]);
      PinShape(isPin, locked[0]);
      BlockIsRead(locked[0], LockedLines(locked[1..]), LogicalLines(locked[1..]));
    }
  }

  lemma NothingRead()
    ensures Logical([], "") == Ok([])
  {
  }

  lemma PinShape(isPin: Matcher, l: Locked)
    requires MatchesPins(isPin) && Printable(isPin, l) && Clean(l.pin)
    ensures l.pin != "" && Text.Stripped(l.pin) && l.pin[0] != '#'
    ensures l.digests != [] && forall i :: 0 <= i < |l.digests| ==> IsDigest(l.digests[i])
  {
    hide MatchesPins, IsDigest, HasMark, OneLine;
    PinStart(isPin, l.pin);
  }

  lemma BlockIsRead(l: Locked, rest: seq<string>, more: seq<string>)
    requires l.pin != "" && Text.Stripped(l.pin) && l.pin[0] != '#' && Logical(rest, "") == Ok(more)
    requires l.digests != [] && forall i :: 0 <= i < |l.digests| ==> IsDigest(l.digests[i])
    ensures Logical(PinLines(l.pin, l.digests) + rest, "") == Ok([LogicalLine(l)] + more)
  {
    hide IsDigest, Text.Strip, Text.Stripped, HashLines, Spaced, Options, Logical;
    var lines := PinLines(l.pin, l.digests) + rest;
    assert lines == [l.pin + " \\"] + (HashLines(l.digests) + ([""] + rest));
    ContinuedPin(l.pin);
    LogicalContinues(lines, "", l.pin + " \\", l.pin + " ");
    assert lines[1..] == HashLines(l.digests) + ([""] + rest);
    assert "" + (l.pin + " ") == l.pin + " ";
    HashesAreRead(l.digests, [""] + rest, l.pin + " ");
    BlankSkipped(rest, "");
    LineStripped(l);
  }

  lemma BlankSkipped(rest: seq<string>, pending: string)
    ensures Logical([""] + rest, pending) == Logical(rest, pending)
  {
    assert ([""] + rest)[1..] == rest;
    assert Text.Strip("") == "";
  }

  lemma CommentSkipped(line: string, rest: seq<string>, pending: string)
    requires line != "" && line[0] == '#'
    ensures Logical([line] + rest, pending) == Logical(rest, pending)
  {
    hide Text.IsSpace, Text.LStrip, Text.RStrip;
    assert ([line] + rest)[1..] == rest;
    assert !Text.IsSpace('#') by { HashIsNoSpace(); }
    assert Text.LStrip(line) == line;
    CommentStrip(line);
  }

  lemma HashIsNoSpace()
    ensures !Text.IsSpace('#')
  {
  }

  lemma {:induction false} CommentStrip(line: string)
    requires line != "" && line[0] == '#'
    ensures Text.RStrip(line) != "" && Text.RStrip(line)[0] == '#'
  {
    if Text.IsSpace(line[|line| - 1]) { CommentStrip(line[..|line| - 1]); }
  }

  lemma {:induction false} CommentsSkipped(preamble: seq<string>, rest: seq<string>)
    requires Comments(preamble)
    ensures Logical(preamble + rest, "") == Logical(rest, "")
  {
    hide Logical, IsComment;
    if preamble == [] {
      assert preamble + rest == rest;
    } else {
      CommentsSkipped(preamble[1..], rest);
      assert IsComment(preamble[0]);
      CommentStart(preamble[0]);
      CommentSkipped(preamble[0], preamble[1..] + rest, "");
      assert preamble + rest == [preamble[0]] + (preamble[1..] + rest);
    }
  }

  lemma CommentStart(line: string)
    requires IsComment(line)
    ensures line != "" && line[0] == '#' && OneLine(line)
  {
  }

  lemma HeaderSkipped(preamble: seq<string>, digest: Digest, pins: seq<string>, rest: seq<string>)
    requires Comments(preamble)
    ensures Logical(preamble + [DigestLine(digest, pins), ""] + rest, "") == Logical(rest, "")
  {
    hide Logical;
    var d := DigestLine(digest, pins);
    assert d[0] == '#';
    CommentsSkipped(preamble, [d] + ([""] + rest));
    CommentSkipped(d, [""] + rest, "");
    BlankSkipped(rest, "");
    assert preamble + [d, ""] + rest == preamble + ([d] + ([""] + rest));
  }

  /** The mark is found right behind a clean pin. */
  lemma MarkBehind(pin: string, tail: string)
    requires !HasMark(pin) && |tail| >= |MARK| && tail[..|MARK|] == MARK
    ensures FindMark(pin + tail) == Some(|pin|)
  {
    var s := pin + tail;
    assert s[|pin|..|pin| + |MARK|] == tail[..|MARK|];
    assert MarkAt(s, |pin|);
    forall i: nat | i < |pin| ensures !MarkAt(s, i) { NoOverlap(pin, tail, i); }
  }

  lemma NoOverlap(pin: string, tail: string, i: nat)
    requires !HasMark(pin) && |tail| >= |MARK| && tail[..|MARK|] == MARK && i < |pin|
    ensures !MarkAt(pin + tail, i)
  {
    assert !MarkAt(pin, i);
    assert tail[0] == tail[..|MARK|][0] == ' ';
    var s := pin + tail;
    if i + |MARK| <= |pin| {
      assert s[i..i + |MARK|] == pin[i..i + |MARK|];
    } else if i + |MARK| <= |s| {
      assert s[i..i + |MARK|][|pin| - i] == ' ' && MARK[|pin| - i] != ' ';
    }
  }

  lemma LineDecodes(isPin: Matcher, l: Locked)
    requires Printable(isPin, l) && Clean(l.pin) && l.pin != ""
    ensures Decoded(isPin, LogicalLine(l)) == Ok(l)
  {
    hide IsDigest, Words, FindMark, Text.Strip, OneLine, IsWord, IsHashOption, Spaced, Options, HasMark;
    var options := Options(l.digests);
    var tail := " " + Spaced(options);
    OptionsAreWords(l.digests);
    SpacedEnds(options);
    TailMarked(l.digests);
    var line := LogicalLine(l);
    assert line == l.pin + tail;
    MarkBehind(l.pin, tail);
    assert line[..|l.pin|] == l.pin && line[|l.pin|..] == tail;
    StripIs(l.pin, "", "");
    assert "" + l.pin + "" == l.pin;
    TailStripped(Spaced(options));
    WordsOfSpaced(options);
    OptionsBack(l.digests, options);
  }

  lemma TailMarked(digests: seq<string>)
    requires digests != [] && forall i :: 0 <= i < |digests| ==> IsDigest(digests[i])
    ensures var tail := " " + Spaced(Options(digests)); |tail| >= |MARK| && tail[..|MARK|] == MARK
  {
    hide IsDigest, IsWord, IsHashOption;
    OptionsAreWords(digests);
    SpacedEnds(Options(digests));
    var first, all := HashOption(digests[0]), Spaced(Options(digests));
    assert first <= all && first[..7] == "--hash=";
    assert all[..7] == first[..7];
    assert " " + all[..7] == MARK;
    assert (" " + all)[..8] == " " + all[..7];
  }

  lemma TailStripped(s: string)
    requires s != "" && Text.Stripped(s)
    ensures Text.Strip(" " + s) == s
  {
    hide Text.LStrip, Text.RStrip, Text.Stripped;
    DropSpace(s);
    StripIs(s, "", "");
    NothingAround(s);
  }

  lemma NothingAround(s: string)
    ensures "" + s + "" == s && s + "" == s
  {
  }

  lemma OptionsBack(digests: seq<string>, options: seq<string>)
    requires options == Options(digests)
    ensures |options| == |digests| && forall i :: 0 <= i < |options| ==> |options[i]| >= |HASH_OPTION|
    ensures seq(|options|, i requires 0 <= i < |options| => options[i][|HASH_OPTION|..]) == digests
  {
    forall i | 0 <= i < |options| ensures options[i][|HASH_OPTION|..] == digests[i] { }
  }

  lemma {:induction false} AllDecode(isPin: Matcher, locked: seq<Locked>)
    requires MatchesPins(isPin) && AllPrintable(isPin, locked) && AllClean(locked)
    ensures DecodedAll(isPin, LogicalLines(locked)) == Ok(locked)
  {
    hide MatchesPins, Clean, Printable, LogicalLine, Decoded;
    if locked != [] {
      assert Printable(isPin, locked[0]) && Clean(locked[0].pin);
      PrintablePin(isPin, locked[0]);
      PinStart(isPin, locked[0].pin);
      LineDecodes(isPin, locked[0]);
      AllDecode(isPin, locked[1..]);
      assert LogicalLines(locked)[1..] == LogicalLines(locked[1..]);
      assert [locked[0]] + locked[1..] == locked;
    }
  }

  lemma PrintablePin(isPin: Matcher, l: Locked)
    requires Printable(isPin, l)
    ensures isPin(l.pin)
  {
  }

  lemma {:induction false} HashLinesOneLine(digests: seq<string>)
    requires forall i :: 0 <= i < |digests| ==> IsDigest(digests[i])
    ensures AllOneLine(HashLines(digests))
  {
    hide IsDigest, IsWord, IsHashOption, HashLine, OneLine;
    if digests != [] {
      HashLineOneLine(digests[0], |digests| == 1);
      HashLinesOneLine(digests[1..]);
    }
  }

  lemma HashLineOneLine(digest: string, last: bool)
    requires IsDigest(digest)
    ensures OneLine(HashLine(digest, last))
  {
    hide IsDigest, IsWord, IsHashOption, HashOption, OneLine;
    OptionShape(digest);
    AroundOptions();
    OneLineJoin(HashOption(digest), " \\");
    OneLineJoin("    ", HashOption(digest));
    OneLineJoin("    ", HashOption(digest) + " \\");
  }

  lemma AroundOptions()
    ensures OneLine("    ") && OneLine(" \\")
  {
  }

  lemma {:induction false} LockedOneLine(isPin: Matcher, locked: seq<Locked>)
    requires AllPrintable(isPin, locked) && AllClean(locked)
    ensures AllOneLine(LockedLines(locked))
  {
    hide IsDigest, HasMark, Text.Stripped, HashLines;
    if locked != [] {
      assert Printable(isPin, locked[0]) && Clean(locked[0].pin);
      LockedOneLine(isPin, locked[1..]);
      HashLinesOneLine(locked[0].digests);
      AroundOptions();
      OneLineJoin(locked[0].pin, " \\");
    }
  }

  lemma HeaderOneLine(preamble: seq<string>, digest: Digest, pins: seq<string>)
    requires Comments(preamble) && OneLine(digest(pins))
    ensures AllOneLine(preamble + [DigestLine(digest, pins), ""])
  {
    hide OneLine, IsComment;
    var d := DigestLine(digest, pins);
    assert OneLine("# Runtime pins SHA-256: ") by { PrefixOneLine(); }
    OneLineJoin("# Runtime pins SHA-256: ", digest(pins));
    OneLineEmpty();
    forall i | 0 <= i < |preamble| ensures OneLine(preamble[i]) {
      assert IsComment(preamble[i]);
      CommentStart(preamble[i]);
    }
  }

  lemma PrefixOneLine()
    ensures OneLine("# Runtime pins SHA-256: ")
  {
  }

  /** For clean pins and any non-empty lists of digests, the checker accepts the
      printed lock, and reads back exactly the pins and digests, in order. */
  lemma RoundTrip(isPin: Matcher, preamble: seq<string>, digest: Digest, locked: seq<Locked>)
    requires MatchesPins(isPin) && Comments(preamble) && AllPrintable(isPin, locked) && OneLine(digest(Pins(locked)))
    requires AllClean(locked)
    ensures Validate(isPin, digest, Pins(locked), Build(preamble, digest, locked)) == Ok(locked)
  {
    hide MatchesPins, Comments, AllPrintable, AllClean, SplitLines, Terminated, Logical, LockedLines, DecodedAll, DigestLine,
         LogicalLines, OneLine;
    var line := DigestLine(digest, Pins(locked));
    var header := preamble + [line, ""];
    var lines := LockLines(preamble, digest, locked);
    HeaderOneLine(preamble, digest, Pins(locked));
    LockedOneLine(isPin, locked);
    OneLineLines(header, LockedLines(locked));
    SplitTerminated(lines);
    assert lines[|preamble|] == line;
    HeaderSkipped(preamble, digest, Pins(locked), LockedLines(locked));
    LockedIsRead(isPin, locked);
    AllDecode(isPin, locked);
  }

  lemma OneLineLines(a: seq<string>, b: seq<string>)
    requires AllOneLine(a) && AllOneLine(b)
    ensures AllOneLine(a + b)
  {
    hide OneLine;
  }

  /** The printed lock is accepted exactly when every pin is clean. */
  lemma AcceptedIffClean(isPin: Matcher, preamble: seq<string>, digest: Digest, locked: seq<Locked>)
    requires MatchesPins(isPin) && Comments(preamble) && AllPrintable(isPin, locked) && OneLine(digest(Pins(locked)))
    ensures Validate(isPin, digest, Pins(locked), Build(preamble, digest, locked)).Ok? <==> AllClean(locked)
  {
    hide MatchesPins, Comments, AllPrintable, AllClean, Validate, Build, OneLine;
    if AllClean(locked) {
      RoundTrip(isPin, preamble, digest, locked);
    } else if Validate(isPin, digest, Pins(locked), Build(preamble, digest, locked)).Ok? {
      AcceptedClean(isPin, digest, locked, Build(preamble, digest, locked));
    }
  }

  /** A pin with a hash mark in its environment marker. */
  const MARKED := "a==1; --hash=x"

  lemma MarkedMarker()
    ensures IsMarker("; --hash=x")
  {
    var d, e := "; --hash=x", " --hash=x";
    assert e == "" + e && AllSpace("") && Unreturned(e);
    assert SpacedOut(e, "", e);
    assert d == "" + ";" + e;
    assert MarkerParts(d, "", e);
  }

  lemma MarkedIsPin()
    ensures PinText(MARKED)
  {
    hide IsMarker;
    MarkedMarker();
    assert Made("a", "_.-") && Made("1", "_.+!-") && IsExtras("");
    hide Made, IsExtras;
    assert MARKED == "a" + "" + "==" + "1" + "; --hash=x";
    assert PinParts(MARKED, "a", "", "1", "; --hash=x");
  }

  lemma MarkedHasMark()
    ensures HasMark(MARKED)
  {
    assert MARKED[5..13] == MARK;
    assert MarkAt(MARKED, 5);
  }

  /** It is a pin, and the lock printed for it is refused, whatever its digests are. */
  lemma MarkedIsRefused(isPin: Matcher, preamble: seq<string>, digest: Digest, digests: seq<string>)
    requires MatchesPins(isPin) && Comments(preamble) && OneLine(digest([MARKED]))
    requires digests != [] && forall i :: 0 <= i < |digests| ==> IsDigest(digests[i])
    ensures isPin(MARKED) && Validate(isPin, digest, [MARKED], Build(preamble, digest, [Locked(MARKED, digests)])).Err?
  {
    hide MARKED, PinText, HasMark, IsDigest, OneLine, Comments, Validate, Build;
    MarkedIsPin();
    MarkedHasMark();
    var locked := [Locked(MARKED, digests)];
    assert Pins(locked) == [MARKED];
    assert !Clean(locked[0].pin) && Printable(isPin, locked[0]);
    AcceptedIffClean(isPin, preamble, digest, locked);
  }

  lemma AcceptedClean(isPin: Matcher, digest: Digest, locked: seq<Locked>, lock: string)
    requires Validate(isPin, digest, Pins(locked), lock).Ok?
    ensures AllClean(locked)
  {
    hide Validate, Clean, Decode, AllHashed;
    AcceptedDecodes(isPin, digest, Pins(locked), lock);
    forall i | 0 <= i < |locked| ensures Clean(locked[i].pin) { assert Pins(locked)[i] == locked[i].pin; }
  }

  /** How a pin is printed: itself, then a line for each digest, all but the last continued,
      and an empty line. */
  lemma {:induction false} PrintedLines(pin: string, digests: seq<string>, i: nat)
    requires i < |digests|
    ensures var lines := PinLines(pin, digests);
            && |lines| == |digests| + 2 && lines[0] == pin + " \\" && lines[|digests| + 1] == ""
            && lines[1 + i] == "    " + ("--hash=sha256:" + digests[i]) + if i < |digests| - 1 then " \\" else ""
  {
    HashLineAt(digests, i);
    hide HashLines;
  }

  lemma {:induction false} HashLineAt(digests: seq<string>, i: nat)
    requires i < |digests|
    ensures |HashLines(digests)| == |digests|
    ensures HashLines(digests)[i] == "    " + ("--hash=sha256:" + digests[i]) + if i < |digests| - 1 then " \\" else ""
  {
    HashLinesCount(digests);
    if i > 0 {
      HashLineAt(digests[1..], i - 1);
    } else {
      var option := HashOption(digests[0]);
      assert "    " + (option + " \\") == "    " + option + " \\";
      assert "    " + option + "" == "    " + option;
    }
  }

  lemma HashLinesCount(digests: seq<string>)
    ensures |HashLines(digests)| == |digests|
  {
  }

  // ---------- requirements ----------

  datatype ReadError = NotAPin | Duplicate | NoPins

  function ReadLines(isPin: Matcher, nameOf: string -> string, lines: seq<string>, names: set<string>): Result<seq<string>, ReadError> {
    if lines == [] then Ok([])
    else
      var line := Text.Strip(lines[0]);
      if IsSkipped(line) then ReadLines(isPin, nameOf, lines[1..], names)
      else if !isPin(line) then Err(NotAPin)
      else if nameOf(line) in names then Err(Duplicate)
      else
        match ReadLines(isPin, nameOf, lines[1..], names + {nameOf(line)})
        case Err(e) => Err(e)
        case Ok(rest) => Ok([line] + rest)
  }

  /** The stripped lines that are neither blank nor comments. */
  function Spoken(lines: seq<string>): seq<string> {
    if lines == [] then []
    else
      var line, rest := Text.Strip(lines[0]), Spoken(lines[1..]);
      if line == "" || line[0] == '#' then rest else [line] + rest
  }

  ghost predicate Pinned(isPin: Matcher, nameOf: string -> string, lines: seq<string>, names: set<string>) {
    && (forall i :: 0 <= i < |lines| ==> isPin(lines[i]) && nameOf(lines[i]) !in names)
    && (forall i, j :: 0 <= i < j < |lines| ==> nameOf(lines[i]) != nameOf(lines[j]))
  }

  lemma PinnedHead(isPin: Matcher, nameOf: string -> string, line: string, rest: seq<string>, names: set<string>)
    ensures Pinned(isPin, nameOf, [line] + rest, names)
       <==> isPin(line) && nameOf(line) !in names && Pinned(isPin, nameOf, rest, names + {nameOf(line)})
  {
    var all := [line] + rest;
    assert all[0] == line && forall i :: 0 <= i < |rest| ==> all[i + 1] == rest[i];
    if Pinned(isPin, nameOf, rest, names + {nameOf(line)}) && isPin(line) && nameOf(line) !in names {
      forall i, j | 0 <= i < j < |all| ensures nameOf(all[i]) != nameOf(all[j]) {
        assert all[j] == rest[j - 1] && (i > 0 ==> all[i] == rest[i - 1]);
      }
    }
    if Pinned(isPin, nameOf, all, names) {
      forall i | 0 <= i < |rest| ensures isPin(rest[i]) && nameOf(rest[i]) !in names + {nameOf(line)} { assert all[i + 1] == rest[i]; }
    }
  }

  /** Requirements are read exactly when every line that says something is a pin and no two
      name the same distribution; they are those lines, in order. */
  lemma {:induction false} ReadsExactly(isPin: Matcher, nameOf: string -> string, lines: seq<string>, names: set<string>)
    ensures ReadLines(isPin, nameOf, lines, names).Ok? <==> Pinned(isPin, nameOf, Spoken(lines), names)
    ensures ReadLines(isPin, nameOf, lines, names).Ok? ==> ReadLines(isPin, nameOf, lines, names).value == Spoken(lines)
  {
    if lines != [] {
      hide Text.Strip, Pinned;
      var line := Text.Strip(lines[0]);
      PinnedHead(isPin, nameOf, line, Spoken(lines[1..]), names);
      ReadsExactly(isPin, nameOf, lines[1..], names);
      ReadsExactly(isPin, nameOf, lines[1..], names + {nameOf(line)});
    } else {
      assert Spoken(lines) == [];
    }
  }

  method ReadRequirements(isPin: Matcher, nameOf: string -> string, source: string) returns (r: Result<seq<string>, ReadError>)
    ensures r == match ReadLines(isPin, nameOf, SplitLines(source), {})
                 case Err(e) => Err(e)
                 case Ok(pins) => if pins == [] then Err(NoPins) else Ok(pins)
    ensures r.Ok? ==> forall i :: 0 <= i < |r.value| ==> isPin(r.value[i]) && (Clean(r.value[i]) <==> !HasMark(r.value[i]))
  {
    hide Text.Strip, SplitLines, OneLine, HasMark, Text.Stripped;
    var lines := SplitLines(source);
    SplitIsOneLine(source);
    var pins: seq<string>, names: set<string> := [], {};
    ghost var all := ReadLines(isPin, nameOf, lines, {});
    assert lines[0..] == lines;
    AfterNone(all);
    for i := 0 to |lines|
      invariant all == After(pins, ReadLines(isPin, nameOf, lines[i..], names))
      invariant forall k :: 0 <= k < |pins| ==> isPin(pins[k]) && (Clean(pins[k]) <==> !HasMark(pins[k]))
    {
      assert lines[i..][1..] == lines[i + 1..];
      var line := Text.Strip(lines[i]);
      if IsSkipped(line) { continue; }
      if !isPin(line) { return Err(NotAPin); }
      var name := nameOf(line);
      if name in names { return Err(Duplicate); }
      StrippedLine(lines[i]);
      AfterMore(pins, line, ReadLines(isPin, nameOf, lines[i + 1..], names + {name}));
      names := names + {name};
      pins := pins + [line];
    }
    assert lines[|lines|..] == [] && pins + [] == pins;
    return if pins == [] then Err(NoPins) else Ok(pins);
  }

  lemma StrippedLine(raw: string)
    requires OneLine(raw)
    ensures OneLine(Text.Strip(raw)) && Text.Stripped(Text.Strip(raw))
  {
    StripOneLine(raw);
    Text.StripFixed(raw);
  }

  function After(front: seq<string>, r: Result<seq<string>, ReadError>): Result<seq<string>, ReadError> {
    match r
    case Err(e) => Err(e)
    case Ok(rest) => Ok(front + rest)
  }

  lemma AfterNone(r: Result<seq<string>, ReadError>)
    ensures After([], r) == r
  {
    if r.Ok? { assert [] + r.value == r.value; }
  }

  lemma AfterMore(front: seq<string>, line: string, r: Result<seq<string>, ReadError>)
    ensures After(front, After([line], r)) == After(front + [line], r)
  {
    if r.Ok? { assert front + ([line] + r.value) == front + [line] + r.value; }
  }

  // ---------- the loops ----------

  method BuildLock(preamble: seq<string>, digest: Digest, locked: seq<Locked>) returns (lock: string)
    ensures lock == Build(preamble, digest, locked)
  {
    hide LockedLines, PinLines;
    var lines := preamble + [DigestLine(digest, Pins(locked)), ""];
    var rest: seq<string> := [];
    assert locked[0..] == locked && [] + LockedLines(locked) == LockedLines(locked);
    for i := 0 to |locked|
      invariant rest + LockedLines(locked[i..]) == LockedLines(locked)
    {
      LockedStep(locked, i, rest);
      var more := PinBlock(locked[i].pin, locked[i].digests);
      rest := rest + more;
    }
    assert LockedLines(locked[|locked|..]) == [] by { NoneLocked(locked); }
    assert rest == LockedLines(locked);
    lines := lines + rest;
    lock := Terminated(lines);
  }

  lemma NoneLocked(locked: seq<Locked>)
    ensures LockedLines(locked[|locked|..]) == []
  {
  }

  lemma LockedStep(locked: seq<Locked>, i: nat, rest: seq<string>)
    requires i < |locked|
    ensures rest + LockedLines(locked[i..]) == rest + PinLines(locked[i].pin, locked[i].digests) + LockedLines(locked[i + 1..])
  {
    hide PinLines;
    assert locked[i..][1..] == locked[i + 1..];
    var block, more := PinLines(locked[i].pin, locked[i].digests), LockedLines(locked[i + 1..]);
    assert rest + (block + more) == rest + block + more;
  }

  method PinBlock(pin: string, digests: seq<string>) returns (lines: seq<string>)
    ensures lines == PinLines(pin, digests)
  {
    hide HashLines, HashLine;
    lines := [pin + " \\"];
    assert digests[0..] == digests;
    for index := 0 to |digests|
      invariant lines + HashLines(digests[index..]) == [pin + " \\"] + HashLines(digests)
    {
      HashStep(digests, index, lines);
      lines := lines + [HashLine(digests[index], index == |digests| - 1)];
    }
    assert lines == [pin + " \\"] + HashLines(digests) by { NoHashLines(digests, lines); }
    lines := lines + [""];
  }

  lemma NoHashLines(digests: seq<string>, lines: seq<string>)
    ensures lines + HashLines(digests[|digests|..]) == lines
  {
  }

  lemma HashStep(digests: seq<string>, i: nat, lines: seq<string>)
    requires i < |digests|
    ensures lines + HashLines(digests[i..]) == lines + [HashLine(digests[i], i == |digests| - 1)] + HashLines(digests[i + 1..])
  {
    hide HashLine;
    assert digests[i..][1..] == digests[i + 1..];
    var line := HashLine(digests[i], i == |digests| - 1);
    assert lines + ([line] + HashLines(digests[i + 1..])) == lines + [line] + HashLines(digests[i + 1..]);
  }
}
