/**
  Strict incremental UTF-8 decoding, as Python's incremental decoder does it:
  complete characters are delivered, an unfinished one is kept for the next
  block, and an impossible byte is an error.
*/
module Utf8 {
  type Bytes = seq<int>

  datatype Step = NeedMore | Bad | Char(c: char, size: nat)

  predicate Between(lo: int, x: int, hi: int) {
    lo <= x <= hi
  }

  /** The bytes a second byte may lie between, by first byte. */
  function Second(first: int): (int, int) {
    if first == 0xE0 then (0xA0, 0xBF)
    else if first == 0xED then (0x80, 0x9F)
    else if first == 0xF0 then (0x90, 0xBF)
    else if first == 0xF4 then (0x80, 0x8F)
    else (0x80, 0xBF)
  }

  function Length(first: int): nat {
    if Between(0, first, 0x7F) then 1
    else if Between(0xC2, first, 0xDF) then 2
    else if Between(0xE0, first, 0xEF) then 3
    else if Between(0xF0, first, 0xF4) then 4
    else 0
  }

  predicate GoodAt(bs: Bytes, i: nat)
    requires i < |bs|
  {
    if i == 0 then true
    else if i == 1 then Between(Second(bs[0]).0, bs[1], Second(bs[0]).1)
    else Between(0x80, bs[i], 0xBF)
  }

  function CodePoint(bs: Bytes, n: nat): (c: char)
    requires 1 <= n <= 4 && n <= |bs| && Length(bs[0]) == n
    requires forall i :: 0 <= i < n ==> GoodAt(bs, i)
  {
    if n == 1 then bs[0] as char
    else
      assert GoodAt(bs, 1);
      if n == 2 then ((bs[0] - 0xC0) * 64 + (bs[1] - 0x80)) as char
      else
        assert GoodAt(bs, 2);
        if n == 3 then ((bs[0] - 0xE0) * 4096 + (bs[1] - 0x80) * 64 + (bs[2] - 0x80)) as char
        else
          assert GoodAt(bs, 3);
          ((bs[0] - 0xF0) * 262144 + (bs[1] - 0x80) * 4096 + (bs[2] - 0x80) * 64 + (bs[3] - 0x80)) as char
  }

  /** The first character, if the bytes decide it. */
  function Next(bs: Bytes): (s: Step)
    ensures s.Char? ==> 1 <= s.size <= |bs|
  {
    if bs == [] then NeedMore
    else
      var n := Length(bs[0]);
      if n == 0 || exists i :: 0 <= i < n && i < |bs| && !GoodAt(bs, i) then Bad
      else if |bs| < n then NeedMore
      else Char(CodePoint(bs, n), n)
  }

  /** More bytes never change a decision. */
  lemma NextDecided(a: Bytes, b: Bytes)
    ensures !Next(a).NeedMore? ==> Next(a + b) == Next(a)
  {
    if !Next(a).NeedMore? {
      var n := Length(a[0]);
      assert forall i :: 0 <= i < |a| ==> (a + b)[i] == a[i];
      forall i | 0 <= i < n && i < |a| ensures GoodAt(a + b, i) <==> GoodAt(a, i) { }
    }
  }

  // ---------- decoding a stream ----------

  /** A decoder of single characters. */
  type Decoder = Bytes -> Step

  /** What holds of a block a and a block b after it: a decided character is
      within a, stays decided, and needs only its own bytes. */
  ghost predicate Decides(next: Decoder, a: Bytes, b: Bytes) {
    && (next(a).Char? ==> 1 <= next(a).size <= |a|)
    && (!next(a).NeedMore? ==> next(a + b) == next(a))
    && (next(a + b).Char? && next(a + b).size <= |a| ==> next(a) == next(a + b))
    && (a == [] ==> next(a) == NeedMore)
  }

  ghost predicate Incremental(next: Decoder) {
    forall a: Bytes, b: Bytes :: Decides(next, a, b)
  }

  lemma NextPrefix(bs: Bytes, k: nat)
    requires k <= |bs| && Next(bs).Char? && Next(bs).size <= k
    ensures Next(bs[..k]) == Next(bs)
  {
    assert bs == bs[..k] + bs[k..];
    NextDecided(bs[..k], bs[k..]);
    var n := Length(bs[0]);
    forall i | 0 <= i < n ensures GoodAt(bs[..k], i) { assert GoodAt(bs, i); }
  }

  lemma NextIncremental()
    ensures Incremental(Next)
  {
    forall a: Bytes, b: Bytes ensures Decides(Next, a, b) {
      NextDecided(a, b);
      if Next(a + b).Char? && Next(a + b).size <= |a| {
        NextPrefix(a + b, |a|);
        assert (a + b)[..|a|] == a;
      }
    }
  }

  datatype Decoded = Decoded(text: string, rest: Bytes, ok: bool)

  function Push(c: char, d: Decoded): Decoded {
    Decoded([c] + d.text, d.rest, d.ok)
  }

  /** Everything decodable now; `rest` is kept, `ok` fails at an impossible byte. */
  ghost function Decode(next: Decoder, bs: Bytes): (d: Decoded)
    requires Incremental(next)
    ensures |d.rest| <= |bs|
    decreases |bs|
  {
    assert Decides(next, bs, []);
    match next(bs)
    case NeedMore => Decoded("", bs, true)
    case Bad => Decoded("", bs, false)
    case Char(c, n) => Push(c, Decode(next, bs[n..]))
  }

  /** The result of decoding a second block after a first one. */
  ghost function Then(next: Decoder, d: Decoded, b: Bytes): Decoded
    requires Incremental(next)
  {
    if !d.ok then Decoded(d.text, d.rest + b, false)
    else
      var e := Decode(next, d.rest + b);
      Decoded(d.text + e.text, e.rest, e.ok)
  }

  lemma PushThen(next: Decoder, c: char, d: Decoded, b: Bytes)
    requires Incremental(next)
    ensures Then(next, Push(c, d), b) == Push(c, Then(next, d, b))
  {
    if d.ok {
      var e := Decode(next, d.rest + b);
      assert ([c] + d.text) + e.text == [c] + (d.text + e.text);
    }
  }

  /** Decoding in two blocks is decoding at once. */
  lemma {:induction false} DecodeInBlocks(next: Decoder, a: Bytes, b: Bytes)
    requires Incremental(next)
    ensures Decode(next, a + b) == Then(next, Decode(next, a), b)
    decreases |a|
  {
    assert Decides(next, a, b);
    match next(a)
    case NeedMore =>
      var e := Decode(next, a + b);
      assert "" + e.text == e.text;
    case Bad =>
    case Char(c, n) =>
      assert (a + b)[n..] == a[n..] + b;
      DecodeInBlocks(next, a[n..], b);
      PushThen(next, c, Decode(next, a[n..]), b);
  }

  /** The bytes before an impossible byte, or before an unfinished character, decode on their own. */
  lemma {:induction false} GoodPart(next: Decoder, bs: Bytes)
    requires Incremental(next)
    ensures var d := Decode(next, bs);
            && bs[|bs| - |d.rest|..] == d.rest
            && Decode(next, bs[..|bs| - |d.rest|]) == Decoded(d.text, [], true)
    decreases |bs|
  {
    var k := |bs| - |Decode(next, bs).rest|;
    assert Decides(next, bs, []);
    match next(bs)
    case NeedMore =>
      assert bs[..k] == [] && Decides(next, [], []);
    case Bad =>
      assert bs[..k] == [] && Decides(next, [], []);
    case Char(c, n) =>
      GoodPart(next, bs[n..]);
      assert bs[n..][..k - n] == bs[..k][n..];
      assert bs[n..][k - n..] == bs[k..];
      assert bs[..k] + bs[k..] == bs && Decides(next, bs[..k], bs[k..]);
  }

  /** The kept bytes are undecided, so looking again without more changes nothing. */
  lemma {:induction false} RestWaits(next: Decoder, bs: Bytes)
    requires Incremental(next)
    ensures var d := Decode(next, bs); if d.ok then next(d.rest).NeedMore? else next(d.rest).Bad?
    decreases |bs|
  {
    assert Decides(next, bs, []);
    if next(bs).Char? { RestWaits(next, bs[next(bs).size..]); }
  }

  // ---------- the encoding ----------

  /** A code point in one to four bytes. */
  function Units(x: nat): (bs: Bytes)
    ensures 1 <= |bs| <= 4
  {
    var y := x / 64;
    if x < 0x80 then [x]
    else if x < 0x800 then [0xC0 + y, 0x80 + x % 64]
    else if x < 0x10000 then [0xE0 + y / 64, 0x80 + y % 64, 0x80 + x % 64]
    else [0xF0 + y / 64 / 64, 0x80 + y / 64 % 64, 0x80 + y % 64, 0x80 + x % 64]
  }

  /** The number a CodePoint is made from. */
  function Scalar(bs: Bytes): int
    requires 1 <= |bs| <= 4
  {
    if |bs| == 1 then bs[0]
    else if |bs| == 2 then (bs[0] - 0xC0) * 64 + (bs[1] - 0x80)
    else if |bs| == 3 then (bs[0] - 0xE0) * 4096 + (bs[1] - 0x80) * 64 + (bs[2] - 0x80)
    else (bs[0] - 0xF0) * 262144 + (bs[1] - 0x80) * 4096 + (bs[2] - 0x80) * 64 + (bs[3] - 0x80)
  }

  lemma ScalarOfUnits(x: nat)
    ensures Scalar(Units(x)) == x
  {
  }

  lemma Digits(high: int, low: int)
    requires 0 <= low < 64
    ensures (high * 64 + low) / 64 == high && (high * 64 + low) % 64 == low
  {
  }

  lemma UnitsOfTwo(bs: Bytes)
    requires |bs| == 2 && Length(bs[0]) == 2 && GoodAt(bs, 1)
    ensures 0x80 <= Scalar(bs) < 0x800 && Units(Scalar(bs)) == bs
  {
    Digits(bs[0] - 0xC0, bs[1] - 0x80);
  }

  lemma UnitsOfThree(bs: Bytes)
    requires |bs| == 3 && Length(bs[0]) == 3 && GoodAt(bs, 1) && GoodAt(bs, 2)
    ensures 0x800 <= Scalar(bs) < 0x10000 && Units(Scalar(bs)) == bs
  {
    var high := (bs[0] - 0xE0) * 64 + (bs[1] - 0x80);
    Digits(bs[0] - 0xE0, bs[1] - 0x80);
    Digits(high, bs[2] - 0x80);
    assert Scalar(bs) == high * 64 + (bs[2] - 0x80);
  }

  lemma UnitsOfFour(bs: Bytes)
    requires |bs| == 4 && Length(bs[0]) == 4 && GoodAt(bs, 1) && GoodAt(bs, 2) && GoodAt(bs, 3)
    ensures 0x10000 <= Scalar(bs) < 0x110000 && Units(Scalar(bs)) == bs
  {
    var top := (bs[0] - 0xF0) * 64 + (bs[1] - 0x80);
    var high := top * 64 + (bs[2] - 0x80);
    Digits(bs[0] - 0xF0, bs[1] - 0x80);
    Digits(top, bs[2] - 0x80);
    Digits(high, bs[3] - 0x80);
    assert Scalar(bs) == high * 64 + (bs[3] - 0x80);
  }

  /** Section 3 of RFC 3629: one to four bytes by size of the code point. */
  function EncodeChar(c: char): (bs: Bytes)
    ensures 1 <= |bs| <= 4
  {
    Units(c as int)
  }

  function Encode(text: string): Bytes {
    if text == "" then [] else EncodeChar(text[0]) + Encode(text[1..])
  }

  lemma EncodedIsGood(c: char)
    ensures var bs := EncodeChar(c); Length(bs[0]) == |bs| && forall i :: 0 <= i < |bs| ==> GoodAt(bs, i)
  {
    var x := c as int;
    assert x < 0xD800 || 0xE000 <= x < 0x110000;
  }

  lemma PointIsScalar(bs: Bytes, n: nat)
    requires 1 <= n <= 4 && n <= |bs| && Length(bs[0]) == n
    requires forall i :: 0 <= i < n ==> GoodAt(bs, i)
    ensures CodePoint(bs, n) as int == Scalar(bs[..n])
  {
    assert GoodAt(bs, 0) && (n > 1 ==> GoodAt(bs, 1)) && (n > 2 ==> GoodAt(bs, 2)) && (n > 3 ==> GoodAt(bs, 3));
  }

  lemma NextEncoded(c: char, b: Bytes)
    ensures Next(EncodeChar(c) + b) == Char(c, |EncodeChar(c)|)
  {
    var bs := EncodeChar(c);
    EncodedIsGood(c);
    PointIsScalar(bs, |bs|);
    ScalarOfUnits(c as int);
    assert bs[..|bs|] == bs;
    NextDecided(bs, b);
    hide CodePoint, Units, Scalar;
  }

  /** The bytes of a decided character are its encoding. */
  lemma CharIsEncoded(bs: Bytes)
    requires Next(bs).Char?
    ensures bs[..Next(bs).size] == EncodeChar(Next(bs).c)
  {
    var n := Length(bs[0]);
    assert forall i :: 0 <= i < n ==> GoodAt(bs, i);
    PointIsScalar(bs, n);
    UnitsOfScalar(bs[..n]) by {
      forall i | 0 <= i < n ensures GoodAt(bs[..n], i) { assert GoodAt(bs, i); }
    }
    hide CodePoint, Units, Scalar;
  }

  lemma UnitsOfScalar(bs: Bytes)
    requires 1 <= |bs| <= 4 && Length(bs[0]) == |bs| && forall i :: 0 <= i < |bs| ==> GoodAt(bs, i)
    ensures Scalar(bs) >= 0 && Units(Scalar(bs)) == bs
  {
    assert GoodAt(bs, |bs| - 1);
    match |bs|
    case 2 => UnitsOfTwo(bs);
    case 3 => assert GoodAt(bs, 1); UnitsOfThree(bs);
    case 4 => assert GoodAt(bs, 1) && GoodAt(bs, 2); UnitsOfFour(bs);
    case _ => assert bs == [bs[0]];
  }

  lemma {:induction false} DecodeEncoded(text: string)
    requires Incremental(Next)
    ensures Decode(Next, Encode(text)) == Decoded(text, [], true)
  {
    if text != "" {
      hide Next;
      var bs := EncodeChar(text[0]);
      NextEncoded(text[0], Encode(text[1..]));
      assert (bs + Encode(text[1..]))[|bs|..] == Encode(text[1..]);
      DecodeEncoded(text[1..]);
      assert text == [text[0]] + text[1..];
    }
  }

  /** What is decoded and what is kept are the whole. */
  lemma {:induction false} EncodeDecoded(bs: Bytes)
    requires Incremental(Next)
    ensures var d := Decode(Next, bs); bs == Encode(d.text) + d.rest
    decreases |bs|
  {
    hide Next, EncodeChar;
    assert Decides(Next, bs, []);
    if Next(bs).Char? {
      var c, n := Next(bs).c, Next(bs).size;
      CharIsEncoded(bs);
      EncodeDecoded(bs[n..]);
      var d := Decode(Next, bs[n..]);
      assert ([c] + d.text)[1..] == d.text;
      assert bs == bs[..n] + (Encode(d.text) + d.rest) == (bs[..n] + Encode(d.text)) + d.rest;
    }
  }

  /** The decoder takes the whole exactly when it is the encoding of some text, and
      then delivers that text. */
  lemma DecodesExactly(bs: Bytes, text: string)
    ensures Incremental(Next)
    ensures Decode(Next, bs) == Decoded(text, [], true) <==> bs == Encode(text)
  {
    NextIncremental();
    DecodeEncoded(text);
    EncodeDecoded(bs);
    hide Next, Encode;
    assert Encode(text) + [] == Encode(text);
  }
}
