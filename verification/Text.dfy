/** The string operations of the modelled sources that several modules share. */
module Text {
  /** White space as str.strip, str.lstrip and str.split see it. */
  predicate IsSpace(c: char) {
    '\t' <= c <= '\r' || '\U{001C}' <= c <= ' ' || c == '\U{0085}' || c == '\U{00A0}' || c == '\U{1680}'
    || '\U{2000}' <= c <= '\U{200A}' || c == '\U{2028}' || c == '\U{2029}' || c == '\U{202F}' || c == '\U{205F}' || c == '\U{3000}'
  }

  /** The same by code point. */
  lemma SpacesByCode(c: char)
    ensures IsSpace(c) <==> var n := c as int;
                            9 <= n <= 13 || 28 <= n <= 32 || 8192 <= n <= 8202 || n in {133, 160, 5760, 8232, 8233, 8239, 8287, 12288}
  {
  }

  function LStrip(s: string): (r: string)
    ensures r != "" ==> !IsSpace(r[0])
    ensures |r| <= |s| && s[|s| - |r|..] == r
    ensures s != "" && !IsSpace(s[0]) ==> r == s
  {
    if s != "" && IsSpace(s[0]) then LStrip(s[1..]) else s
  }

  function RStrip(s: string): (r: string)
    ensures r != "" ==> !IsSpace(r[|r| - 1])
    ensures r <= s
    ensures s != "" && !IsSpace(s[|s| - 1]) ==> r == s
  {
    if s != "" && IsSpace(s[|s| - 1]) then RStrip(s[..|s| - 1]) else s
  }

  function Strip(s: string): (r: string)
    ensures r != "" ==> !IsSpace(r[0]) && !IsSpace(r[|r| - 1])
  {
    RStrip(LStrip(s))
  }

  /** No space at either end: exactly the strings that stripping leaves alone. */
  predicate Stripped(s: string) {
    s == "" || (!IsSpace(s[0]) && !IsSpace(s[|s| - 1]))
  }

  lemma StripFixed(s: string)
    ensures Stripped(Strip(s))
    ensures Stripped(s) <==> Strip(s) == s
  {
  }

  /** Everything before the first c, and whether c occurs. */
  function Before(s: string, c: char): (r: string)
    ensures r <= s && c !in r
    ensures |r| < |s| ==> s[|r|] == c
    ensures c in s <==> |r| < |s|
  {
    if s == "" || s[0] == c then "" else [s[0]] + Before(s[1..], c)
  }

  /** The first c of x is the first c of every longer string. */
  lemma {:induction false} BeforeExtends(x: string, y: string, c: char)
    requires x <= y && c in x
    ensures Before(x, c) == Before(y, c)
  {
    if x[0] != c {
      BeforeExtends(x[1..], y[1..], c);
    }
  }

  lemma {:induction false} BeforeHead(head: string, tail: string, c: char)
    requires c !in head && (tail == "" || tail[0] == c)
    ensures Before(head + tail, c) == head
  {
    if head == "" {
      assert head + tail == tail;
    } else {
      BeforeHead(head[1..], tail, c);
      assert (head + tail)[1..] == head[1..] + tail;
    }
  }
}
