/**
  The incremental reader of a remote listing (app/recovery_points.py, `_remote_listing`).

  The JSON decoder of single values is a parameter: it says of a text whether it
  starts with an object and where that object ends.  The reader around it, the
  array grammar of section 5 of RFC 8259 and the block boundaries are modelled in full.
*/
module RemoteListing {
  import opened Results
  import Text
  import opened Utf8

  const MAX_BROWSE_ITEMS: nat := 500

  /** What `raw_decode` finds at the start of a text. */
  datatype Value = Undecodable | NotObject | Object(end: nat)

  type JsonDecoder = string -> Value

  /** Objects are self-delimiting: they begin with a brace, more text does not
      change where they end, and they need no text after their end.  What starts
      like another value never becomes an object. */
  ghost predicate SelfDelimiting(dec: JsonDecoder) {
    forall s: string, t: string :: Delimits(dec, s, t)
  }

  ghost predicate Delimits(dec: JsonDecoder, s: string, t: string) {
    && (dec(s).Object? ==> 0 < dec(s).end <= |s| && s[0] == '{' && dec(s + t) == dec(s))
    && (dec(s).NotObject? ==> !dec(s + t).Object?)
    && (dec(s + t).Object? && dec(s + t).end <= |s| ==> dec(s) == dec(s + t))
  }

  // ---------- the parser ----------

  datatype Parser = Parser(pending: string, started: bool, needValue: bool, mayEnd: bool, finished: bool, items: seq<string>)

  datatype Progress = Waiting(p: Parser) | Rejected | Truncated(items: seq<string>)

  const START := Parser("", false, true, true, false, [])

  /** `parse()` with the caller's check after each item: consumes what is decidable. */
  ghost function Parse(dec: JsonDecoder, p: Parser, s: string): (r: Progress)
    requires SelfDelimiting(dec)
    decreases |s|
  {
    assert Delimits(dec, s, "");
    if s == "" then Waiting(p.(pending := ""))
    else if Text.IsSpace(s[0]) then Parse(dec, p, s[1..])
    else if p.finished then Rejected
    else if !p.started then
      if s[0] != '[' then Rejected else Parse(dec, p.(started := true), s[1..])
    else if s[0] == ']' && (!p.needValue || p.mayEnd) then Parse(dec, p.(finished := true), s[1..])
    else if !p.needValue then
      if s[0] != ',' then Rejected else Parse(dec, p.(needValue := true, mayEnd := false), s[1..])
    else
      match dec(s)
      case Undecodable => Waiting(p.(pending := s))
      case NotObject => Rejected
      case Object(end) =>
        if |p.items| == MAX_BROWSE_ITEMS then Truncated(p.items)
        else Parse(dec, p.(needValue := false, items := p.items + [s[..end]]), s[end..])
  }

  // ---------- the reader ----------

  datatype Answer = Listing(items: seq<string>, truncated: bool) | Invalid

  /** The final parse: everything must be consumed and the array closed. */
  function Settle(r: Progress): Answer {
    match r
    case Waiting(p) => if p.finished && p.pending == "" then Listing(p.items, false) else Invalid
    case Rejected => Invalid
    case Truncated(items) => Listing(items, true)
  }

  function Concat(blocks: seq<Bytes>): Bytes {
    if blocks == [] then [] else blocks[0] + Concat(blocks[1..])
  }

  /** The reader over the remaining blocks, with kept bytes and parser state. */
  ghost function Run(dec: JsonDecoder, next: Decoder, rest: Bytes, p: Parser, blocks: seq<Bytes>): Answer
    requires SelfDelimiting(dec) && Incremental(next)
    decreases |blocks|
  {
    if blocks == [] then
      if rest != [] then Invalid else Settle(Parse(dec, p, p.pending))
    else
      var d := Decode(next, rest + blocks[0]);
      if !d.ok then Invalid
      else match Parse(dec, p, p.pending + d.text)
        case Waiting(q) => Run(dec, next, d.rest, q, blocks[1..])
        case Rejected => Invalid
        case Truncated(items) => Listing(items, true)
  }

  /** The answer in terms of the whole output. */
  ghost function Verdict(dec: JsonDecoder, d: Decoded, r: Progress): Answer {
    if r.Truncated? then Listing(r.items, true)
    else if !d.ok || d.rest != [] then Invalid
    else Settle(r)
  }

  ghost function Read(dec: JsonDecoder, next: Decoder, bytes: Bytes): Answer
    requires SelfDelimiting(dec) && Incremental(next)
  {
    Verdict(dec, Decode(next, bytes), Parse(dec, START, Decode(next, bytes).text))
  }

  // ---------- block boundaries do not matter ----------

  /** What more text does to a parse. */
  ghost predicate Continues(dec: JsonDecoder, r: Progress, whole: Progress, t: string)
    requires SelfDelimiting(dec)
  {
    match r
    case Waiting(q) => whole == Parse(dec, q, q.pending + t)
    case Rejected => !whole.Truncated? && Settle(whole) == Invalid
    case Truncated(items) => whole == r
  }

  lemma {:induction false} ParseMore(dec: JsonDecoder, p: Parser, s: string, t: string)
    requires SelfDelimiting(dec)
    ensures Continues(dec, Parse(dec, p, s), Parse(dec, p, s + t), t)
    decreases |s|
  {
    if s == "" {
      assert s + t == t && "" + t == t;
      SameState(dec, p, "", t);
    } else {
      assert (s + t)[1..] == s[1..] + t && (s + t)[0] == s[0];
      if Text.IsSpace(s[0]) {
        ParseMore(dec, p, s[1..], t);
      } else if p.finished {
      } else if !p.started {
        ParseMore(dec, p.(started := true), s[1..], t);
      } else if s[0] == ']' && (!p.needValue || p.mayEnd) {
        ParseMore(dec, p.(finished := true), s[1..], t);
      } else if !p.needValue {
        ParseMore(dec, p.(needValue := true, mayEnd := false), s[1..], t);
      } else {
        ValueMore(dec, p, s, t);
      }
    }
  }

  lemma {:induction false} ValueMore(dec: JsonDecoder, p: Parser, s: string, t: string)
    requires SelfDelimiting(dec) && s != "" && !Text.IsSpace(s[0])
    requires p.started && !p.finished && p.needValue && !(s[0] == ']' && p.mayEnd)
    ensures Continues(dec, Parse(dec, p, s), Parse(dec, p, s + t), t)
    decreases |s|, 0
  {
    assert Delimits(dec, s, t);
    if dec(s).Object? && |p.items| != MAX_BROWSE_ITEMS {
      var end := dec(s).end;
      assert (s + t)[..end] == s[..end] && (s + t)[end..] == s[end..] + t;
      ParseMore(dec, p.(needValue := false, items := p.items + [s[..end]]), s[end..], t);
    } else if dec(s).Undecodable? {
      SameState(dec, p, s, s + t);
    }
  }

  /** What is pending does not matter to a parse. */
  lemma {:induction false} SameState(dec: JsonDecoder, p: Parser, pending: string, s: string)
    requires SelfDelimiting(dec)
    ensures Parse(dec, p.(pending := pending), s) == Parse(dec, p, s)
    decreases |s|
  {
    if s != "" {
      assert Delimits(dec, s, "");
      if Text.IsSpace(s[0]) {
        SameState(dec, p, pending, s[1..]);
      } else if !p.finished && !p.started {
        SameState(dec, p.(started := true), pending, s[1..]);
      } else if s[0] == ']' && (!p.needValue || p.mayEnd) {
        SameState(dec, p.(finished := true), pending, s[1..]);
      } else if !p.needValue {
        SameState(dec, p.(needValue := true, mayEnd := false), pending, s[1..]);
      } else if dec(s).Object? {
        var end := dec(s).end;
        SameState(dec, p.(needValue := false, items := p.items + [s[..end]]), pending, s[end..]);
      }
    }
  }

  /** The general statement, from any point of the run. */
  lemma {:induction false} RunIsVerdict(dec: JsonDecoder, next: Decoder, rest: Bytes, p: Parser, blocks: seq<Bytes>)
    requires SelfDelimiting(dec) && Incremental(next) && next(rest).NeedMore?
    ensures var d := Decode(next, rest + Concat(blocks));
            var r := Parse(dec, p, p.pending + d.text);
            && (d.ok && Settled(dec, p) ==> Run(dec, next, rest, p, blocks) == Verdict(dec, d, r))
            && (!d.ok && Settled(dec, p) ==> Run(dec, next, rest, p, blocks) in {Invalid, Verdict(dec, d, r)})
    decreases |blocks|
  {
    if blocks == [] {
      assert rest + Concat(blocks) == rest;
      assert p.pending + "" == p.pending;
    } else if Settled(dec, p) {
      var d1, others := Decode(next, rest + blocks[0]), Concat(blocks[1..]);
      assert rest + Concat(blocks) == (rest + blocks[0]) + others;
      DecodeInBlocks(next, rest + blocks[0], others);
      RestWaits(next, rest + blocks[0]);
      if d1.ok {
        var e := Decode(next, d1.rest + others);
        assert p.pending + (d1.text + e.text) == (p.pending + d1.text) + e.text;
        ParseMore(dec, p, p.pending + d1.text, e.text);
        var r1 := Parse(dec, p, p.pending + d1.text);
        if r1.Waiting? {
          WaitingSettled(dec, p, p.pending + d1.text);
          RunIsVerdict(dec, next, d1.rest, r1.p, blocks[1..]);
        }
      }
    }
  }

  /** Parsing what a parser waits on again changes nothing. */
  ghost predicate Settled(dec: JsonDecoder, p: Parser)
    requires SelfDelimiting(dec)
  {
    Parse(dec, p, p.pending) == Waiting(p)
  }

  lemma {:induction false} WaitingSettled(dec: JsonDecoder, p: Parser, s: string)
    requires SelfDelimiting(dec) && Parse(dec, p, s).Waiting?
    ensures Settled(dec, Parse(dec, p, s).p)
    decreases |s|
  {
    assert Delimits(dec, s, "");
    if s != "" {
      if Text.IsSpace(s[0]) {
        WaitingSettled(dec, p, s[1..]);
      } else if !p.started {
        WaitingSettled(dec, p.(started := true), s[1..]);
      } else if s[0] == ']' && (!p.needValue || p.mayEnd) {
        WaitingSettled(dec, p.(finished := true), s[1..]);
      } else if !p.needValue {
        WaitingSettled(dec, p.(needValue := true, mayEnd := false), s[1..]);
      } else if dec(s).Object? {
        WaitingSettled(dec, p.(needValue := false, items := p.items + [s[..dec(s).end]]), s[dec(s).end..]);
      }
    }
  }

  /** Cutting the output into blocks differently never changes the answer. */
  ghost predicate CutsAgree(dec: JsonDecoder, next: Decoder, bytes: Bytes)
    requires SelfDelimiting(dec) && Incremental(next)
  {
    forall blocks: seq<Bytes> :: Concat(blocks) == bytes ==> Run(dec, next, [], START, blocks) == Read(dec, next, bytes)
  }

  /** True of all output but one kind: bytes that are not UTF-8 after more
      objects than are shown.  There the answer depends on whether the block that
      completes the last object reaches the bad byte. */
  lemma CutsAgreeExactly(dec: JsonDecoder, next: Decoder, bytes: Bytes)
    requires SelfDelimiting(dec) && Incremental(next)
    ensures CutsAgree(dec, next, bytes)
       <==> Decode(next, bytes).ok || !Parse(dec, START, Decode(next, bytes).text).Truncated?
  {
    var d := Decode(next, bytes);
    var r := Parse(dec, START, d.text);
    assert Decides(next, [], []);
    forall blocks: seq<Bytes> | Concat(blocks) == bytes
      ensures d.ok || !r.Truncated? ==> Run(dec, next, [], START, blocks) == Read(dec, next, bytes)
    {
      RunIsVerdict(dec, next, [], START, blocks);
      assert [] + bytes == bytes && "" + d.text == d.text;
    }
    if !d.ok && r.Truncated? {
      assert Concat([bytes]) == bytes + Concat([]) == bytes;
      assert [] + bytes == bytes;
      assert Run(dec, next, [], START, [bytes]) == Invalid;
    }
  }

  /** The two cuts that disagree. */
  lemma BadByteCuts(dec: JsonDecoder, next: Decoder, bytes: Bytes)
    requires SelfDelimiting(dec) && Incremental(next)
    requires !Decode(next, bytes).ok && Parse(dec, START, Decode(next, bytes).text).Truncated?
    ensures var d := Decode(next, bytes);
            var good := bytes[..|bytes| - |d.rest|];
            && Concat([bytes]) == bytes && Concat([good, d.rest]) == bytes
            && Run(dec, next, [], START, [bytes]) == Invalid
            && Run(dec, next, [], START, [good, d.rest]) == Listing(Parse(dec, START, d.text).items, true)
  {
    var d := Decode(next, bytes);
    var good := bytes[..|bytes| - |d.rest|];
    GoodPart(next, bytes);
    assert [good, d.rest][1..] == [d.rest] && Concat([d.rest]) == d.rest + [] == d.rest;
    assert Concat([good, d.rest]) == good + d.rest == bytes;
    assert [] + bytes == bytes && [] + good == good && "" + d.text == d.text;
    assert Concat([bytes]) == bytes + [];
  }

  // ---------- what is accepted: arrays of objects ----------

  type Space = char -> bool

  /** White space in section 2 of RFC 8259. */
  predicate JsonSpace(c: char) {
    c == ' ' || c == '\t' || c == '\n' || c == '\r'
  }

  /** No more than the reader strips. */
  ghost predicate Narrow(space: Space) {
    forall c :: space(c) ==> Text.IsSpace(c)
  }

  ghost predicate Blank(space: Space, s: string) {
    forall i :: 0 <= i < |s| ==> space(s[i])
  }

  ghost predicate IsObject(dec: JsonDecoder, o: string) {
    dec(o) == Object(|o|)
  }

  /** The grammar of RFC 8259 for an array of objects, read from each position,
      with white space of the given kind between the tokens.  When not `closed` the
      text may go on in any way after the last object. */
  ghost predicate AfterArray(space: Space, s: string) {
    Blank(space, s)
  }

  /** s is a gap of white space, then the token, then the rest. */
  ghost predicate Splits(space: Space, s: string, gap: string, token: string, rest: string) {
    Blank(space, gap) && s == gap + token + rest
  }

  /** The token after a value: the end of the array, or a separator. */
  function Separator(objs: seq<string>): string {
    if objs == [] then "]" else ","
  }

  ghost predicate AfterValue(space: Space, dec: JsonDecoder, s: string, objs: seq<string>, closed: bool)
    decreases |objs|, 2
  {
    (objs == [] && !closed) || exists gap, rest :: Splits(space, s, gap, Separator(objs), rest) && AfterSeparator(space, dec, rest, objs, closed)
  }

  ghost predicate AfterSeparator(space: Space, dec: JsonDecoder, s: string, objs: seq<string>, closed: bool)
    decreases |objs|, 1
  {
    if objs == [] then AfterArray(space, s) else BeforeValue(space, dec, s, objs, closed)
  }

  ghost predicate BeforeValue(space: Space, dec: JsonDecoder, s: string, objs: seq<string>, closed: bool)
    requires objs != []
    decreases |objs|, 0
  {
    exists gap, rest :: Splits(space, s, gap, objs[0], rest) && IsObject(dec, objs[0]) && AfterValue(space, dec, rest, objs[1..], closed)
  }

  ghost predicate InArray(space: Space, dec: JsonDecoder, s: string, objs: seq<string>, closed: bool) {
    if objs == [] then AfterValue(space, dec, s, [], closed) else BeforeValue(space, dec, s, objs, closed)
  }

  ghost predicate ArrayOf(space: Space, dec: JsonDecoder, s: string, objs: seq<string>, closed: bool) {
    exists gap, rest :: Splits(space, s, gap, "[", rest) && InArray(space, dec, rest, objs, closed)
  }

  /** What may follow in the state of p. */
  ghost predicate Shape(space: Space, dec: JsonDecoder, p: Parser, s: string, objs: seq<string>, closed: bool) {
    if p.finished then objs == [] && AfterArray(space, s)
    else if !p.started then ArrayOf(space, dec, s, objs, closed)
    else if !p.needValue then AfterValue(space, dec, s, objs, closed)
    else if objs != [] then BeforeValue(space, dec, s, objs, closed)
    else p.mayEnd && AfterValue(space, dec, s, [], closed)
  }

  /** The states the reader passes through. */
  predicate Reachable(p: Parser) {
    && (!p.started ==> !p.finished && p.needValue && p.mayEnd)
    && |p.items| <= MAX_BROWSE_ITEMS
  }

  // A gap in front of a token is exactly the leading white space.

  lemma NoGap(space: Space, s: string, gap: string, token: string, rest: string)
    requires Splits(space, s, gap, token, rest) && token != "" && s != "" && !space(s[0])
    ensures gap == "" && s == token + rest && s[..|token|] == token && s[|token|..] == rest
  {
    assert s[0] == (gap + token)[0];
    assert "" + token + rest == token + rest;
  }

  lemma NoGapNeeded(space: Space, s: string, k: nat)
    requires k <= |s|
    ensures Splits(space, s, "", s[..k], s[k..])
  {
  }

  lemma ShorterGap(space: Space, s: string, gap: string, token: string, rest: string)
    requires Splits(space, s, gap, token, rest) && token != "" && !space(token[0]) && s != "" && space(s[0])
    ensures gap != "" && Splits(space, s[1..], gap[1..], token, rest)
  {
    assert s[0] == (gap + token)[0];
    assert gap + token + rest == [gap[0]] + (gap[1..] + token + rest);
  }

  lemma LongerGap(space: Space, s: string, gap: string, token: string, rest: string)
    requires s != "" && space(s[0]) && Splits(space, s[1..], gap, token, rest)
    ensures Splits(space, s, [s[0]] + gap, token, rest)
  {
    assert s == [s[0]] + s[1..];
    assert [s[0]] + (gap + token + rest) == ([s[0]] + gap) + token + rest;
  }

  lemma AfterValueHere(space: Space, dec: JsonDecoder, s: string, objs: seq<string>, closed: bool)
    requires s != "" && !space(s[0])
    requires closed || objs != []
    ensures AfterValue(space, dec, s, objs, closed) <==> s[..1] == Separator(objs) && AfterSeparator(space, dec, s[1..], objs, closed)
  {
    if AfterValue(space, dec, s, objs, closed) {
      var gap, rest :| Splits(space, s, gap, Separator(objs), rest) && AfterSeparator(space, dec, rest, objs, closed);
      NoGap(space, s, gap, Separator(objs), rest);
    }
    NoGapNeeded(space, s, 1);
  }

  lemma AfterValueSkip(space: Space, dec: JsonDecoder, s: string, objs: seq<string>, closed: bool)
    requires Narrow(space) && s != "" && space(s[0])
    ensures AfterValue(space, dec, s, objs, closed) <==> AfterValue(space, dec, s[1..], objs, closed)
  {
    if AfterValue(space, dec, s, objs, closed) && (objs != [] || closed) {
      var gap, rest :| Splits(space, s, gap, Separator(objs), rest) && AfterSeparator(space, dec, rest, objs, closed);
      ShorterGap(space, s, gap, Separator(objs), rest);
    }
    if AfterValue(space, dec, s[1..], objs, closed) && (objs != [] || closed) {
      var gap, rest :| Splits(space, s[1..], gap, Separator(objs), rest) && AfterSeparator(space, dec, rest, objs, closed);
      LongerGap(space, s, gap, Separator(objs), rest);
    }
  }

  lemma BeforeValueHere(space: Space, dec: JsonDecoder, s: string, objs: seq<string>, closed: bool)
    requires SelfDelimiting(dec) && objs != [] && s != "" && !space(s[0])
    ensures BeforeValue(space, dec, s, objs, closed)
       <==> dec(s).Object? && dec(s).end <= |s| && objs[0] == s[..dec(s).end] && AfterValue(space, dec, s[dec(s).end..], objs[1..], closed)
  {
    if BeforeValue(space, dec, s, objs, closed) {
      var gap, rest :| Splits(space, s, gap, objs[0], rest) && IsObject(dec, objs[0]) && AfterValue(space, dec, rest, objs[1..], closed);
      assert Delimits(dec, objs[0], rest);
      NoGap(space, s, gap, objs[0], rest);
    }
    assert Delimits(dec, s, "");
    if dec(s).Object? && objs[0] == s[..dec(s).end] {
      NoGapNeeded(space, s, dec(s).end);
      assert objs[0] + s[dec(s).end..] == s && Delimits(dec, objs[0], s[dec(s).end..]);
    }
  }

  lemma BeforeValueSkip(space: Space, dec: JsonDecoder, s: string, objs: seq<string>, closed: bool)
    requires Narrow(space) && SelfDelimiting(dec) && objs != [] && s != "" && space(s[0])
    ensures BeforeValue(space, dec, s, objs, closed) <==> BeforeValue(space, dec, s[1..], objs, closed)
  {
    assert Delimits(dec, objs[0], "");
    if BeforeValue(space, dec, s, objs, closed) {
      var gap, rest :| Splits(space, s, gap, objs[0], rest) && IsObject(dec, objs[0]) && AfterValue(space, dec, rest, objs[1..], closed);
      ShorterGap(space, s, gap, objs[0], rest);
    }
    if BeforeValue(space, dec, s[1..], objs, closed) {
      var gap, rest :| Splits(space, s[1..], gap, objs[0], rest) && IsObject(dec, objs[0]) && AfterValue(space, dec, rest, objs[1..], closed);
      LongerGap(space, s, gap, objs[0], rest);
    }
  }

  lemma ArrayHere(space: Space, dec: JsonDecoder, s: string, objs: seq<string>, closed: bool)
    requires s != "" && !space(s[0])
    ensures ArrayOf(space, dec, s, objs, closed) <==> s[0] == '[' && InArray(space, dec, s[1..], objs, closed)
  {
    if ArrayOf(space, dec, s, objs, closed) {
      var gap, rest :| Splits(space, s, gap, "[", rest) && InArray(space, dec, rest, objs, closed);
      NoGap(space, s, gap, "[", rest);
    }
    NoGapNeeded(space, s, 1);
    assert s[..1] == [s[0]];
  }

  lemma ArraySkip(space: Space, dec: JsonDecoder, s: string, objs: seq<string>, closed: bool)
    requires Narrow(space) && s != "" && space(s[0])
    ensures ArrayOf(space, dec, s, objs, closed) <==> ArrayOf(space, dec, s[1..], objs, closed)
  {
    if ArrayOf(space, dec, s, objs, closed) {
      var gap, rest :| Splits(space, s, gap, "[", rest) && InArray(space, dec, rest, objs, closed);
      ShorterGap(space, s, gap, "[", rest);
    }
    if ArrayOf(space, dec, s[1..], objs, closed) {
      var gap, rest :| Splits(space, s[1..], gap, "[", rest) && InArray(space, dec, rest, objs, closed);
      LongerGap(space, s, gap, "[", rest);
    }
  }

  lemma ShapeSkip(space: Space, dec: JsonDecoder, p: Parser, s: string, objs: seq<string>, closed: bool)
    requires Narrow(space) && SelfDelimiting(dec) && s != "" && space(s[0])
    ensures Shape(space, dec, p, s, objs, closed) <==> Shape(space, dec, p, s[1..], objs, closed)
  {
    ArraySkip(space, dec, s, objs, closed);
    AfterValueSkip(space, dec, s, objs, closed);
    AfterValueSkip(space, dec, s, [], closed);
    if objs != [] { BeforeValueSkip(space, dec, s, objs, closed); }
    if Blank(space, s[1..]) {
      forall i | 0 <= i < |s| ensures space(s[i]) { if i > 0 { assert s[i] == s[1..][i - 1]; } }
    }
  }

  /** The state after one token. */
  lemma ShapeToken(space: Space, dec: JsonDecoder, p: Parser, s: string, objs: seq<string>, closed: bool)
    requires SelfDelimiting(dec) && Reachable(p) && s != "" && !space(s[0])
    requires closed || objs != []
    ensures Shape(space, dec, p, s, objs, closed)
       <==> if p.finished then false
            else if !p.started then s[0] == '[' && Shape(space, dec, p.(started := true), s[1..], objs, closed)
            else if s[0] == ']' && (!p.needValue || p.mayEnd) then Shape(space, dec, p.(finished := true), s[1..], objs, closed)
            else if !p.needValue then s[0] == ',' && Shape(space, dec, p.(needValue := true, mayEnd := false), s[1..], objs, closed)
            else objs != [] && BeforeValue(space, dec, s, objs, closed)
  {
    ArrayHere(space, dec, s, objs, closed);
    AfterValueHere(space, dec, s, objs, closed);
    assert s[..1] == [s[0]];
    assert Delimits(dec, s, "");
    if objs != [] { BeforeValueHere(space, dec, s, objs, closed); }
  }

  /** The reader only ever adds items. */
  lemma {:induction false} ItemsGrow(dec: JsonDecoder, p: Parser, s: string)
    requires SelfDelimiting(dec)
    ensures var a := Settle(Parse(dec, p, s)); a.Listing? ==> p.items <= a.items
    decreases |s|
  {
    assert Delimits(dec, s, "");
    if s != "" {
      if Text.IsSpace(s[0]) {
        ItemsGrow(dec, p, s[1..]);
      } else if !p.finished && !p.started {
        ItemsGrow(dec, p.(started := true), s[1..]);
      } else if s[0] == ']' && (!p.needValue || p.mayEnd) {
        ItemsGrow(dec, p.(finished := true), s[1..]);
      } else if !p.needValue {
        ItemsGrow(dec, p.(needValue := true, mayEnd := false), s[1..]);
      } else if dec(s).Object? {
        ItemsGrow(dec, p.(needValue := false, items := p.items + [s[..dec(s).end]]), s[dec(s).end..]);
      }
    }
  }

  /** From any state: the reader lists exactly the objects of what the grammar allows next. */
  lemma {:induction false} AcceptsFrom(dec: JsonDecoder, p: Parser, s: string, objs: seq<string>)
    requires SelfDelimiting(dec) && Reachable(p)
    ensures Settle(Parse(dec, p, s)) == Listing(p.items + objs, false)
       <==> |p.items| + |objs| <= MAX_BROWSE_ITEMS && Shape(Text.IsSpace, dec, p, s, objs, true)
    decreases |s|
  {
    if s == "" {
      EmptyShape(Text.IsSpace, dec, p, objs, true);
    } else if Text.IsSpace(s[0]) {
      ShapeSkip(Text.IsSpace, dec, p, s, objs, true);
      AcceptsFrom(dec, p, s[1..], objs);
    } else {
      ShapeToken(Text.IsSpace, dec, p, s, objs, true);
      if p.finished {
      } else if !p.started {
        AcceptsFrom(dec, p.(started := true), s[1..], objs);
      } else if s[0] == ']' && (!p.needValue || p.mayEnd) {
        AcceptsFrom(dec, p.(finished := true), s[1..], objs);
      } else if !p.needValue {
        AcceptsFrom(dec, p.(needValue := true, mayEnd := false), s[1..], objs);
      } else {
        AcceptsValue(dec, p, s, objs);
      }
    }
  }

  lemma EmptyShape(space: Space, dec: JsonDecoder, p: Parser, objs: seq<string>, closed: bool)
    requires SelfDelimiting(dec) && (closed || objs != [])
    ensures Shape(space, dec, p, "", objs, closed) <==> p.finished && objs == []
    ensures p.items + objs == p.items <==> objs == []
  {
    forall gap: string, token: string, rest: string | token != "" ensures !Splits(space, "", gap, token, rest) {
      assert |gap + token + rest| > 0;
    }
    if objs != [] {
      assert Delimits(dec, objs[0], "");
      assert |p.items + objs| > |p.items|;
    }
  }

  lemma {:induction false} AcceptsValue(dec: JsonDecoder, p: Parser, s: string, objs: seq<string>)
    requires SelfDelimiting(dec) && Reachable(p) && s != "" && !Text.IsSpace(s[0])
    requires p.started && !p.finished && p.needValue && !(s[0] == ']' && p.mayEnd)
    ensures Settle(Parse(dec, p, s)) == Listing(p.items + objs, false)
       <==> |p.items| + |objs| <= MAX_BROWSE_ITEMS && objs != [] && BeforeValue(Text.IsSpace, dec, s, objs, true)
    decreases |s|, 0
  {
    assert Delimits(dec, s, "");
    if objs != [] { BeforeValueHere(Text.IsSpace, dec, s, objs, true); }
    if dec(s).Object? && |p.items| < MAX_BROWSE_ITEMS {
      var end := dec(s).end;
      var p' := p.(needValue := false, items := p.items + [s[..end]]);
      ItemsGrow(dec, p', s[end..]);
      if objs == [] {
        assert |p.items + objs| < |p'.items|;
      } else if objs[0] == s[..end] {
        AcceptsFrom(dec, p', s[end..], objs[1..]);
        assert p'.items + objs[1..] == p.items + objs;
      } else {
        assert (p.items + objs)[|p.items|] == objs[0] && p'.items[|p.items|] == s[..end];
      }
    }
  }

  /** One object more than is shown means truncation, whatever follows it. */
  lemma {:induction false} TruncatesFrom(dec: JsonDecoder, p: Parser, s: string, objs: seq<string>)
    requires SelfDelimiting(dec) && Reachable(p)
    requires |p.items| + |objs| == MAX_BROWSE_ITEMS + 1 && Shape(Text.IsSpace, dec, p, s, objs, false)
    ensures Parse(dec, p, s) == Truncated(p.items + objs[..|objs| - 1])
    decreases |s|
  {
    if s == "" {
      EmptyShape(Text.IsSpace, dec, p, objs, false);
    } else if Text.IsSpace(s[0]) {
      ShapeSkip(Text.IsSpace, dec, p, s, objs, false);
      TruncatesFrom(dec, p, s[1..], objs);
    } else {
      ShapeToken(Text.IsSpace, dec, p, s, objs, false);
      if !p.started {
        TruncatesFrom(dec, p.(started := true), s[1..], objs);
      } else if s[0] == ']' && (!p.needValue || p.mayEnd) {
        assert false;  // a closed array has no more objects
      } else if !p.needValue {
        TruncatesFrom(dec, p.(needValue := true, mayEnd := false), s[1..], objs);
      } else {
        assert Delimits(dec, s, "");
        BeforeValueHere(Text.IsSpace, dec, s, objs, false);
        if |p.items| < MAX_BROWSE_ITEMS {
          var end := dec(s).end;
          TruncatesFrom(dec, p.(needValue := false, items := p.items + [s[..end]]), s[end..], objs[1..]);
          assert p.items + [s[..end]] + objs[1..][..|objs| - 2] == p.items + objs[..|objs| - 1];
        } else {
          assert p.items + objs[..0] == p.items;
        }
      }
    }
  }

  /** A truncated answer shows the first objects of a longer array. */
  lemma {:induction false} TruncatedShows(dec: JsonDecoder, p: Parser, s: string) returns (objs: seq<string>)
    requires SelfDelimiting(dec) && Reachable(p) && Parse(dec, p, s).Truncated?
    ensures |p.items| + |objs| == MAX_BROWSE_ITEMS + 1 && Shape(Text.IsSpace, dec, p, s, objs, false)
    ensures Parse(dec, p, s).items == p.items + objs[..|objs| - 1]
    decreases |s|
  {
    assert Delimits(dec, s, "");
    if Text.IsSpace(s[0]) {
      objs := TruncatedShows(dec, p, s[1..]);
      ShapeSkip(Text.IsSpace, dec, p, s, objs, false);
    } else if !p.started {
      objs := TruncatedShows(dec, p.(started := true), s[1..]);
      ShapeToken(Text.IsSpace, dec, p, s, objs, false);
    } else if s[0] == ']' && (!p.needValue || p.mayEnd) {
      objs := TruncatedShows(dec, p.(finished := true), s[1..]);
      ShapeToken(Text.IsSpace, dec, p, s, objs, false);
    } else if !p.needValue {
      objs := TruncatedShows(dec, p.(needValue := true, mayEnd := false), s[1..]);
      ShapeToken(Text.IsSpace, dec, p, s, objs, false);
    } else {
      objs := ValueShows(dec, p, s);
    }
  }

  lemma {:induction false} ValueShows(dec: JsonDecoder, p: Parser, s: string) returns (objs: seq<string>)
    requires SelfDelimiting(dec) && Reachable(p) && Parse(dec, p, s).Truncated?
    requires s != "" && !Text.IsSpace(s[0]) && p.started && !p.finished && p.needValue && !(s[0] == ']' && p.mayEnd)
    ensures |p.items| + |objs| == MAX_BROWSE_ITEMS + 1 && Shape(Text.IsSpace, dec, p, s, objs, false)
    ensures Parse(dec, p, s).items == p.items + objs[..|objs| - 1]
    decreases |s|, 0
  {
    assert Delimits(dec, s, "");
    var o, rest := s[..dec(s).end], s[dec(s).end..];
    if |p.items| == MAX_BROWSE_ITEMS {
      objs := [o];
      assert p.items + objs[..0] == p.items;
    } else {
      var more := TruncatedShows(dec, p.(needValue := false, items := p.items + [o]), rest);
      objs := [o] + more;
      assert objs[1..] == more;
      assert p.items + [o] + more[..|more| - 1] == p.items + objs[..|objs| - 1];
    }
    BeforeValueHere(Text.IsSpace, dec, s, objs, false);
  }

  /** Not truncated, the reader accepts exactly the arrays of at most 500
      objects, and lists exactly their objects in order. */
  lemma AcceptsExactly(dec: JsonDecoder, next: Decoder, bytes: Bytes, objs: seq<string>)
    requires SelfDelimiting(dec) && Incremental(next)
    ensures var d := Decode(next, bytes);
            (Read(dec, next, bytes) == Listing(objs, false))
            <==> (d.ok && d.rest == [] && |objs| <= 500 && ArrayOf(Text.IsSpace, dec, d.text, objs, true))
  {
    var d := Decode(next, bytes);
    AcceptsFrom(dec, START, d.text, objs);
    assert [] + objs == objs;
  }

  /** The decoded text starts an array with these objects; more text may follow. */
  ghost predicate StartsArray(dec: JsonDecoder, text: string, objs: seq<string>) {
    ArrayOf(Text.IsSpace, dec, text, objs, false)
  }

  /** The answer is truncated exactly when the decodable text starts an array
      with one object more than is shown; the shown ones are the first 500. */
  lemma TruncatesExactly(dec: JsonDecoder, next: Decoder, bytes: Bytes, shown: seq<string>)
    requires SelfDelimiting(dec) && Incremental(next)
    ensures (Read(dec, next, bytes) == Listing(shown, true))
       <==> (|shown| == 500 && exists o :: StartsArray(dec, Decode(next, bytes).text, shown + [o]))
  {
    var text := Decode(next, bytes).text;
    if Parse(dec, START, text).Truncated? {
      var objs := TruncatedShows(dec, START, text);
      assert objs == objs[..|objs| - 1] + [objs[|objs| - 1]];
      assert [] + objs[..|objs| - 1] == objs[..|objs| - 1];
      assert StartsArray(dec, text, objs[..|objs| - 1] + [objs[|objs| - 1]]);
    }
    if |shown| == MAX_BROWSE_ITEMS && exists o :: StartsArray(dec, text, shown + [o]) {
      var o :| StartsArray(dec, text, shown + [o]);
      TruncatesFrom(dec, START, text, shown + [o]);
      assert (shown + [o])[..|shown|] == shown && [] + shown == shown;
    }
  }

  // ---------- white space that JSON does not have ----------

  /** The white space the reader skips between the tokens. */
  ghost function Skipped(dec: JsonDecoder, p: Parser, s: string): string
    requires SelfDelimiting(dec)
    decreases |s|
  {
    assert Delimits(dec, s, "");
    if s == "" then ""
    else if Text.IsSpace(s[0]) then [s[0]] + Skipped(dec, p, s[1..])
    else if p.finished then ""
    else if !p.started then Skipped(dec, p.(started := true), s[1..])
    else if s[0] == ']' && (!p.needValue || p.mayEnd) then Skipped(dec, p.(finished := true), s[1..])
    else if !p.needValue then Skipped(dec, p.(needValue := true, mayEnd := false), s[1..])
    else if dec(s).Object? then Skipped(dec, p.(needValue := false), s[dec(s).end..])
    else ""
  }

  lemma NoOddStart(s: string, gap: string, token: string, rest: string)
    requires Splits(JsonSpace, s, gap, token, rest) && token != "" && !Text.IsSpace(token[0])
    ensures s != "" && (Text.IsSpace(s[0]) ==> JsonSpace(s[0]))
  {
    if gap != "" { assert s[0] == gap[0]; } else { assert s[0] == token[0]; }
  }

  lemma NoOddAfterValue(dec: JsonDecoder, s: string, objs: seq<string>)
    requires AfterValue(JsonSpace, dec, s, objs, true)
    ensures s != "" && (Text.IsSpace(s[0]) ==> JsonSpace(s[0]))
  {
    var gap, rest :| Splits(JsonSpace, s, gap, Separator(objs), rest) && AfterSeparator(JsonSpace, dec, rest, objs, true);
    NoOddStart(s, gap, Separator(objs), rest);
  }

  lemma NoOddBeforeValue(dec: JsonDecoder, s: string, objs: seq<string>)
    requires SelfDelimiting(dec) && objs != [] && BeforeValue(JsonSpace, dec, s, objs, true)
    ensures s != "" && (Text.IsSpace(s[0]) ==> JsonSpace(s[0]))
  {
    var gap, rest :| Splits(JsonSpace, s, gap, objs[0], rest) && IsObject(dec, objs[0]) && AfterValue(JsonSpace, dec, rest, objs[1..], true);
    assert Delimits(dec, objs[0], "");
    NoOddStart(s, gap, objs[0], rest);
  }

  /** JSON text never goes on with another white-space character. */
  lemma NoOddShape(dec: JsonDecoder, p: Parser, s: string, objs: seq<string>)
    requires SelfDelimiting(dec) && s != "" && Shape(JsonSpace, dec, p, s, objs, true)
    ensures Text.IsSpace(s[0]) ==> JsonSpace(s[0])
  {
    if p.finished {
    } else if !p.started {
      var gap, rest :| Splits(JsonSpace, s, gap, "[", rest) && InArray(JsonSpace, dec, rest, objs, true);
      NoOddStart(s, gap, "[", rest);
    } else if !p.needValue || objs == [] {
      NoOddAfterValue(dec, s, objs);
    } else {
      NoOddBeforeValue(dec, s, objs);
    }
  }

  lemma {:induction false} JsonFrom(dec: JsonDecoder, p: Parser, s: string, objs: seq<string>)
    requires SelfDelimiting(dec) && Reachable(p) && Shape(Text.IsSpace, dec, p, s, objs, true)
    ensures Shape(JsonSpace, dec, p, s, objs, true) <==> Blank(JsonSpace, Skipped(dec, p, s))
    decreases |s|
  {
    if s == "" {
      EmptyShape(Text.IsSpace, dec, p, objs, true);
      EmptyShape(JsonSpace, dec, p, objs, true);
    } else if Text.IsSpace(s[0]) {
      ShapeSkip(Text.IsSpace, dec, p, s, objs, true);
      JsonFrom(dec, p, s[1..], objs);
      BlankMore(s[0], Skipped(dec, p, s[1..]));
      JsonSkips(dec, p, s, objs);
    } else {
      ShapeToken(Text.IsSpace, dec, p, s, objs, true);
      ShapeToken(JsonSpace, dec, p, s, objs, true);
      if !p.started {
        JsonFrom(dec, p.(started := true), s[1..], objs);
      } else if s[0] == ']' && (!p.needValue || p.mayEnd) {
        JsonFrom(dec, p.(finished := true), s[1..], objs);
      } else if !p.needValue {
        JsonFrom(dec, p.(needValue := true, mayEnd := false), s[1..], objs);
      } else {
        JsonValue(dec, p, s, objs);
      }
    }
  }

  lemma {:induction false} JsonValue(dec: JsonDecoder, p: Parser, s: string, objs: seq<string>)
    requires SelfDelimiting(dec) && Reachable(p) && Shape(Text.IsSpace, dec, p, s, objs, true)
    requires s != "" && !Text.IsSpace(s[0]) && p.started && !p.finished && p.needValue && !(s[0] == ']' && p.mayEnd) && objs != []
    ensures Shape(JsonSpace, dec, p, s, objs, true) <==> Blank(JsonSpace, Skipped(dec, p, s))
    decreases |s|, 0
  {
    assert Delimits(dec, s, "");
    BeforeValueHere(Text.IsSpace, dec, s, objs, true);
    BeforeValueHere(JsonSpace, dec, s, objs, true);
    JsonFrom(dec, p.(needValue := false), s[dec(s).end..], objs[1..]);
  }

  lemma JsonSkips(dec: JsonDecoder, p: Parser, s: string, objs: seq<string>)
    requires SelfDelimiting(dec) && s != "" && Text.IsSpace(s[0])
    ensures Shape(JsonSpace, dec, p, s, objs, true) <==> JsonSpace(s[0]) && Shape(JsonSpace, dec, p, s[1..], objs, true)
  {
    hide Shape;
    if JsonSpace(s[0]) {
      ShapeSkip(JsonSpace, dec, p, s, objs, true);
    } else if Shape(JsonSpace, dec, p, s, objs, true) {
      NoOddShape(dec, p, s, objs);
    }
  }

  lemma BlankMore(c: char, s: string)
    ensures Blank(JsonSpace, [c] + s) <==> JsonSpace(c) && Blank(JsonSpace, s)
  {
    assert ([c] + s)[0] == c && forall i :: 0 <= i < |s| ==> ([c] + s)[i + 1] == s[i];
  }

  // ---------- the output as UTF-8 ----------

  /** The answer to the bytes of a whole output. */
  ghost function ReadUtf8(dec: JsonDecoder, bytes: Bytes): Answer
    requires SelfDelimiting(dec)
  {
    NextIncremental();
    Read(dec, Next, bytes)
  }

  /** Exactly the encodings of arrays of at most 500 objects are listed whole. */
  lemma Utf8AcceptsExactly(dec: JsonDecoder, bytes: Bytes, objs: seq<string>)
    requires SelfDelimiting(dec)
    ensures ReadUtf8(dec, bytes) == Listing(objs, false)
       <==> |objs| <= 500 && exists text :: bytes == Encode(text) && ArrayOf(Text.IsSpace, dec, text, objs, true)
  {
    NextIncremental();
    hide Next, Encode, ArrayOf;
    AcceptsExactly(dec, Next, bytes, objs);
    DecodesExactly(bytes, Decode(Next, bytes).text);
    if text :| bytes == Encode(text) && ArrayOf(Text.IsSpace, dec, text, objs, true) { DecodesExactly(bytes, text); }
  }

  /** What is listed whole is an array of RFC 8259 exactly when all the white space
      skipped between its tokens is JSON's own. */
  lemma JsonExactly(dec: JsonDecoder, text: string, objs: seq<string>)
    requires SelfDelimiting(dec) && ReadUtf8(dec, Encode(text)) == Listing(objs, false)
    ensures ArrayOf(JsonSpace, dec, text, objs, true) <==> Blank(JsonSpace, Skipped(dec, START, text))
  {
    NextIncremental();
    hide Next, Encode, ArrayOf, Parse;
    AcceptsExactly(dec, Next, Encode(text), objs);
    DecodesExactly(Encode(text), text);
    JsonFrom(dec, START, text, objs);
  }

  /** An empty array around a no-break space. */
  const NO_BREAK := "[\U{00A0}]"

  /** It is listed, and is no array of RFC 8259. */
  lemma NoBreakIsListed(dec: JsonDecoder)
    requires SelfDelimiting(dec)
    ensures ReadUtf8(dec, Encode(NO_BREAK)) == Listing([], false)
    ensures forall objs :: !ArrayOf(JsonSpace, dec, NO_BREAK, objs, true)
  {
    NextIncremental();
    hide Next, Encode;
    DecodesExactly(Encode(NO_BREAK), NO_BREAK);
    var inside := START.(started := true);
    assert NO_BREAK[1..][1..] == "]" && "]"[1..] == "";
    assert Parse(dec, START, NO_BREAK) == Parse(dec, inside, NO_BREAK[1..]) == Parse(dec, inside, "]");
    assert Parse(dec, inside, "]") == Parse(dec, inside.(finished := true), "");
    forall objs ensures !ArrayOf(JsonSpace, dec, NO_BREAK, objs, true) {
      ArrayHere(JsonSpace, dec, NO_BREAK, objs, true);
      if InArray(JsonSpace, dec, NO_BREAK[1..], objs, true) { NoOddShape(dec, inside, NO_BREAK[1..], objs); }
    }
  }

  /** All cuts of an output agree exactly unless more objects than are shown are
      followed by a byte that is impossible in UTF-8. */
  lemma Utf8CutsAgreeExactly(dec: JsonDecoder, bytes: Bytes)
    requires SelfDelimiting(dec)
    ensures Incremental(Next)
    ensures CutsAgree(dec, Next, bytes)
       <==> !exists text, rest :: bytes == Encode(text) + rest && Next(rest).Bad? && Parse(dec, START, text).Truncated?
  {
    NextIncremental();
    hide Next, Encode, Parse;
    CutsAgreeExactly(dec, Next, bytes);
    EncodeDecoded(bytes);
    RestWaits(Next, bytes);
    if text, rest :| bytes == Encode(text) + rest && Next(rest).Bad? && Parse(dec, START, text).Truncated? {
      DecodeEncoded(text);
      DecodeInBlocks(Next, Encode(text), rest);
      assert [] + rest == rest && text + "" == text;
    }
  }

  /** The listing is truncated exactly when the output begins with the encoding of an
      array with one object more than is shown. */
  lemma Utf8TruncatesExactly(dec: JsonDecoder, bytes: Bytes, shown: seq<string>)
    requires SelfDelimiting(dec)
    ensures ReadUtf8(dec, bytes) == Listing(shown, true)
       <==> |shown| == 500 && exists text, o :: Encode(text) <= bytes && StartsArray(dec, text, shown + [o])
  {
    NextIncremental();
    hide Next, Encode, StartsArray;
    TruncatesExactly(dec, Next, bytes, shown);
    EncodeDecoded(bytes);
    if text, o :| |shown| == MAX_BROWSE_ITEMS && Encode(text) <= bytes && StartsArray(dec, text, shown + [o]) {
      TruncatedPrefix(dec, bytes, text, shown, o);
    }
  }

  lemma TruncatedPrefix(dec: JsonDecoder, bytes: Bytes, text: string, shown: seq<string>, o: string)
    requires SelfDelimiting(dec) && Incremental(Next)
    requires |shown| == MAX_BROWSE_ITEMS && Encode(text) <= bytes && StartsArray(dec, text, shown + [o])
    ensures Parse(dec, START, Decode(Next, bytes).text) == Truncated(shown)
  {
    hide Next, Encode;
    var rest := bytes[|Encode(text)|..];
    DecodeEncoded(text);
    DecodeInBlocks(Next, Encode(text), rest);
    assert Encode(text) + rest == bytes;
    TruncatesFrom(dec, START, text, shown + [o]);
    assert (shown + [o])[..|shown|] == shown && [] + shown == shown;
    ParseMore(dec, START, text, Decode(Next, rest).text);
    assert [] + rest == rest;
  }

  // ---------- the reader as it runs ----------

  /** The variables of `_remote_listing`. */
  class Reader {
    const dec: JsonDecoder
    const next: Decoder
    var undecoded: Bytes
    var pending: string
    var started: bool
    var needValue: bool
    var mayEnd: bool
    var finished: bool
    var items: seq<string>

    ghost function Now(): Parser
      reads this
    {
      Parser(pending, started, needValue, mayEnd, finished, items)
    }

    ghost predicate Valid()
      reads this
    {
      SelfDelimiting(dec) && Incremental(next) && |items| <= MAX_BROWSE_ITEMS
    }

    constructor (dec: JsonDecoder, next: Decoder)
      requires SelfDelimiting(dec) && Incremental(next)
      ensures Valid() && Now() == START && undecoded == [] && this.dec == dec && this.next == next
    {
      this.dec, this.next := dec, next;
      undecoded, pending, items := [], "", [];
      started, needValue, mayEnd, finished := false, true, true, false;
    }

    /** The incremental UTF-8 decoder: delivers the text a block completes. */
    method DecodeBlock(block: Bytes) returns (text: string, ok: bool)
      requires Valid()
      modifies this`undecoded
      ensures var d := Decode(next, old(undecoded) + block); ok == d.ok && (ok ==> text == d.text && undecoded == d.rest)
    {
      undecoded := undecoded + block;
      text := "";
      ghost var whole := undecoded;
      while true
        invariant Decode(next, whole) == Prepended(text, Decode(next, undecoded))
        decreases |undecoded|
      {
        assert Decides(next, undecoded, []);
        match next(undecoded)
        case NeedMore =>
          assert text + "" == text;
          return text, true;
        case Bad =>
          return text, false;
        case Char(c, n) =>
          ghost var d := Decode(next, undecoded[n..]);
          assert text + ([c] + d.text) == (text + [c]) + d.text;
          text := text + [c];
          undecoded := undecoded[n..];
      }
    }

    /** `parse()` with the check of its caller: consumes pending text token by token. */
    method ParsePending() returns (verdict: Progress)
      requires Valid()
      modifies this`pending, this`started, this`needValue, this`mayEnd, this`finished, this`items
      ensures Valid() && verdict == Parse(dec, old(Now()), old(pending))
      ensures verdict.Waiting? ==> verdict.p == Now()
    {
      ghost var expected := Parse(dec, Now(), pending);
      while true
        invariant Valid() && Parse(dec, Now(), pending) == expected
        decreases |pending|
      {
        assert Delimits(dec, pending, "");
        if pending == "" {
          return Waiting(Parser(pending, started, needValue, mayEnd, finished, items));
        }
        hide SelfDelimiting, Incremental;
        if Text.IsSpace(pending[0]) {
          Advance(1);
        } else if finished {
          return Rejected;
        } else if !started {
          if pending[0] != '[' { return Rejected; }
          started := true;
          Advance(1);
        } else if pending[0] == ']' && (!needValue || mayEnd) {
          finished := true;
          Advance(1);
        } else if !needValue {
          if pending[0] != ',' { return Rejected; }
          needValue, mayEnd := true, false;
          Advance(1);
        } else {
          match dec(pending)
          case Undecodable =>
            return Waiting(Parser(pending, started, needValue, mayEnd, finished, items));
          case NotObject =>
            return Rejected;
          case Object(end) =>
            if |items| == MAX_BROWSE_ITEMS { return Truncated(items); }
            items, needValue := items + [pending[..end]], false;
            Advance(end);
        }
      }
    }

    method Advance(n: nat)
      requires Valid() && 0 < n <= |pending|
      modifies this`pending
      ensures pending == old(pending)[n..]
      ensures Parse(dec, Now(), pending) == Parse(dec, old(Now()), pending)
    {
      SameState(dec, Now(), pending[n..], pending[n..]);
      pending := pending[n..];
    }

    /** The loop over the blocks and the final parse. */
    method RemoteListing(blocks: seq<Bytes>) returns (answer: Answer)
      requires Valid() && Now() == START && undecoded == []
      modifies this
      ensures answer == Run(dec, next, [], START, blocks)
    {
      var i := 0;
      while i < |blocks|
        invariant Valid() && 0 <= i <= |blocks|
        invariant Run(dec, next, undecoded, Now(), blocks[i..]) == Run(dec, next, [], START, blocks)
      {
        assert blocks[i..][1..] == blocks[i + 1..];
        var text, ok := DecodeBlock(blocks[i]);
        if !ok { return Invalid; }
        SameState(dec, Now(), pending + text, pending + text);
        pending := pending + text;
        var verdict := ParsePending();
        match verdict {
          case Rejected => return Invalid;
          case Truncated(shown) => return Listing(shown, true);
          case Waiting(_) =>
        }
        i := i + 1;
      }
      if undecoded != [] { return Invalid; }
      var verdict := ParsePending();
      return Settle(verdict);
    }
  }

  function Prepended(text: string, d: Decoded): Decoded {
    Decoded(text + d.text, d.rest, d.ok)
  }
}
