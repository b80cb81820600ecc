/**
  The progress tracker of app/jobs/rclone_sync.py (`_LogProgressTracker`), fed
  with the log in chunks of any size.  What a line's marker is, is a parameter;
  only a blank line is known to have none.
*/
module ProgressTracker {
  import opened Results

  datatype Marker = Log(text: string) | Stats(kind: string, value: seq<string>)

  type Marking = string -> Option<Marker>

  const REMEMBERED := 64

  datatype Tracker = Tracker(partial: string, structured: map<string, seq<string>>, recent: seq<string>)

  datatype Fed = Fed(tracker: Tracker, advanced: bool)

  predicate IsBreak(c: char) {
    c == '\r' || c == '\n'
  }

  function Last64(logs: seq<string>): seq<string> {
    if |logs| > REMEMBERED then logs[|logs| - REMEMBERED..] else logs
  }

  predicate IsNews(t: Tracker, marker: Option<Marker>) {
    match marker
    case None => false
    case Some(Log(text)) => text !in t.recent
    case Some(Stats(kind, value)) => kind !in t.structured || t.structured[kind] != value
  }

  /** One whole line. */
  function Line(mark: Marking, t: Tracker, line: string): Fed {
    if !IsNews(t, mark(line)) then Fed(t, false)
    else
      match mark(line).value
      case Log(text) => Fed(t.(recent := Last64(t.recent + [text])), true)
      case Stats(kind, value) => Fed(t.(structured := t.structured[kind := value]), true)
  }

  function Then(a: bool, f: Fed): Fed {
    Fed(f.tracker, a || f.advanced)
  }

  function Lines(mark: Marking, t: Tracker, lines: seq<string>): Fed
    decreases |lines|
  {
    if lines == [] then Fed(t, false)
    else var f := Line(mark, t, lines[0]); Then(f.advanced, Lines(mark, f.tracker, lines[1..]))
  }

  // ---------- splitting ----------

  function Head(text: string): string {
    if text == "" || IsBreak(text[0]) then "" else [text[0]] + Head(text[1..])
  }

  function Rest(text: string): string {
    if text == "" || IsBreak(text[0]) then text else Rest(text[1..])
  }

  function SkipBreaks(text: string): string {
    if text != "" && IsBreak(text[0]) then SkipBreaks(text[1..]) else text
  }

  lemma {:induction false} HeadRest(text: string)
    ensures text == Head(text) + Rest(text) && (Rest(text) == "" || IsBreak(Rest(text)[0]))
    ensures forall i :: 0 <= i < |Head(text)| ==> !IsBreak(Head(text)[i])
    ensures |SkipBreaks(text)| <= |text|
  {
    if text != "" { HeadRest(text[1..]); }
  }

  /** Splitting at each run of line breaks. */
  function Split(text: string): (r: seq<string>)
    ensures r != []
    decreases |text|
  {
    HeadRest(text);
    if Rest(text) == "" then [text]
    else HeadRest(Rest(text)[1..]); [Head(text)] + Split(SkipBreaks(Rest(text)[1..]))
  }

  predicate Open(text: string) {
    text != "" && !IsBreak(text[|text| - 1])
  }

  /** `feed`. */
  function Feeding(mark: Marking, t: Tracker, chunk: string): Fed {
    var text := t.partial + chunk;
    var lines := Split(text);
    if Open(text) then Lines(mark, t.(partial := lines[|lines| - 1]), lines[..|lines| - 1])
    else Lines(mark, t.(partial := ""), lines)
  }

  // ---------- one character at a time ----------

  function Char(mark: Marking, t: Tracker, c: char): Fed {
    if IsBreak(c) then Line(mark, t.(partial := ""), t.partial) else Fed(t.(partial := t.partial + [c]), false)
  }

  function Chars(mark: Marking, t: Tracker, text: string): Fed
    decreases |text|
  {
    if text == "" then Fed(t, false)
    else var f := Char(mark, t, text[0]); Then(f.advanced, Chars(mark, f.tracker, text[1..]))
  }

  lemma {:induction false} CharsConcat(mark: Marking, t: Tracker, a: string, b: string)
    ensures Chars(mark, t, a + b) == (var f := Chars(mark, t, a); Then(f.advanced, Chars(mark, f.tracker, b)))
    decreases |a|
  {
    hide Char;
    if a == "" {
      assert a + b == b;
    } else {
      assert (a + b)[1..] == a[1..] + b;
      CharsConcat(mark, Char(mark, t, a[0]).tracker, a[1..], b);
    }
  }

  lemma {:induction false} CharsOfLine(mark: Marking, t: Tracker, text: string)
    requires forall i :: 0 <= i < |text| ==> !IsBreak(text[i])
    ensures Chars(mark, t, text) == Fed(t.(partial := t.partial + text), false)
    decreases |text|
  {
    hide Line;
    if text == "" {
      assert t.partial + text == t.partial;
    } else {
      CharsOfLine(mark, t.(partial := t.partial + [text[0]]), text[1..]);
      assert t.partial + [text[0]] + text[1..] == t.partial + text;
    }
  }

  lemma {:induction false} CharsOfBreaks(mark: Marking, t: Tracker, text: string)
    requires mark("") == None && t.partial == ""
    ensures Chars(mark, t, text) == Chars(mark, t, SkipBreaks(text))
  {
    if text != "" && IsBreak(text[0]) {
      assert t.(partial := "") == t;
      CharsOfBreaks(mark, t, text[1..]);
    }
  }

  /** A line with its end, from nothing. */
  lemma CharsOfHead(mark: Marking, t: Tracker, text: string)
    requires mark("") == None && t.partial == "" && Rest(text) != ""
    ensures Chars(mark, t, text)
         == (var f := Line(mark, t, Head(text)); Then(f.advanced, Chars(mark, f.tracker, SkipBreaks(Rest(text)[1..]))))
  {
    hide Head, Rest, SkipBreaks;
    HeadRest(text);
    var head, rest := Head(text), Rest(text);
    CharsConcat(mark, t, head, rest);
    CharsOfLine(mark, t, head);
    assert "" + head == head;
    var u := t.(partial := head);
    assert u.(partial := "") == t;
    var f := Line(mark, t, head);
    KeepsPartial(mark, t, head);
    CharsOfBreaks(mark, f.tracker, rest[1..]);
  }

  lemma KeepsPartial(mark: Marking, t: Tracker, line: string)
    ensures Line(mark, t, line).tracker.partial == t.partial
  {
  }

  lemma OpenRest(text: string)
    requires Rest(text) != ""
    ensures Open(text) <==> Open(SkipBreaks(Rest(text)[1..]))
  {
    HeadRest(text);
    SkippedEnd(Rest(text)[1..]);
  }

  lemma {:induction false} SkippedEnd(text: string)
    ensures Open(text) <==> Open(SkipBreaks(text))
    ensures SkipBreaks(text) == "" ==> forall i :: 0 <= i < |text| ==> IsBreak(text[i])
  {
    if text != "" && IsBreak(text[0]) { SkippedEnd(text[1..]); }
  }

  /** The lines of a text, processed from an empty partial line. */
  function Texted(mark: Marking, t: Tracker, text: string): Fed {
    var lines := Split(text);
    if Open(text) then
      var f := Lines(mark, t, lines[..|lines| - 1]);
      Fed(f.tracker.(partial := lines[|lines| - 1]), f.advanced)
    else Lines(mark, t, lines)
  }

  lemma {:induction false} TextedIsChars(mark: Marking, t: Tracker, text: string)
    requires mark("") == None && t.partial == ""
    ensures Texted(mark, t, text) == Chars(mark, t, text)
    decreases |text|
  {
    hide Line, Head, Rest, SkipBreaks;
    HeadRest(text);
    if Rest(text) == "" {
      assert Head(text) == text by { assert Head(text) + "" == Head(text); }
      CharsOfLine(mark, t, text);
      LastLine(mark, t, text);
    } else {
      HeadRest(Rest(text)[1..]);
      var f, rest := Line(mark, t, Head(text)), SkipBreaks(Rest(text)[1..]);
      KeepsPartial(mark, t, Head(text));
      CharsOfHead(mark, t, text);
      TextedIsChars(mark, f.tracker, rest);
      OpenRest(text);
      SplitHead(mark, t, text);
    }
  }

  lemma LastLine(mark: Marking, t: Tracker, text: string)
    requires mark("") == None && t.partial == "" && Split(text) == [text] && (text == "" || Open(text))
    ensures Texted(mark, t, text) == Fed(t.(partial := "" + text), false)
  {
    assert "" + text == text;
    var lines := Split(text);
    assert lines[..|lines| - 1] == [];
    if text == "" { assert Lines(mark, t, [""]) == Fed(t, false) by { assert [""][1..] == []; } }
  }

  lemma SplitHead(mark: Marking, t: Tracker, text: string)
    requires Rest(text) != "" && (Open(text) <==> Open(SkipBreaks(Rest(text)[1..])))
    requires |SkipBreaks(Rest(text)[1..])| < |text|
    ensures Texted(mark, t, text)
         == (var f := Line(mark, t, Head(text)); Then(f.advanced, Texted(mark, f.tracker, SkipBreaks(Rest(text)[1..]))))
  {
    hide Line, Head, Rest, SkipBreaks, Open;
    var rest := SkipBreaks(Rest(text)[1..]);
    var lines, tail := Split(text), Split(rest);
    assert lines == [Head(text)] + tail;
    assert lines[1..] == tail;
    assert lines[..|lines| - 1] == [Head(text)] + tail[..|tail| - 1];
    assert ([Head(text)] + tail[..|tail| - 1])[1..] == tail[..|tail| - 1];
  }

  lemma {:induction false} LinesPartial(mark: Marking, t: Tracker, lines: seq<string>, partial: string)
    ensures Lines(mark, t.(partial := partial), lines)
         == (var f := Lines(mark, t, lines); Fed(f.tracker.(partial := partial), f.advanced))
    decreases |lines|
  {
    if lines != [] {
      var f := Line(mark, t, lines[0]);
      assert Line(mark, t.(partial := partial), lines[0]) == Fed(f.tracker.(partial := partial), f.advanced);
      LinesPartial(mark, f.tracker, lines[1..], partial);
    }
  }

  /** The partial line is the unfinished line: it never contains a line break. */
  predicate Unbroken(t: Tracker) {
    forall i :: 0 <= i < |t.partial| ==> !IsBreak(t.partial[i])
  }

  /** Feeding a chunk is feeding its characters. */
  lemma FeedIsChars(mark: Marking, t: Tracker, chunk: string)
    requires mark("") == None && Unbroken(t)
    ensures Feeding(mark, t, chunk) == Chars(mark, t, chunk)
  {
    hide Lines, Line, Split, Chars;
    var empty := t.(partial := "");
    TextedIsChars(mark, empty, t.partial + chunk);
    CharsConcat(mark, empty, t.partial, chunk);
    CharsOfLine(mark, empty, t.partial);
    assert "" + t.partial == t.partial;
    assert empty.(partial := t.partial) == t;
    var lines := Split(t.partial + chunk);
    LinesPartial(mark, empty, lines[..|lines| - 1], lines[|lines| - 1]);
  }

  lemma {:induction false} CharsUnbroken(mark: Marking, t: Tracker, text: string)
    requires Unbroken(t)
    ensures Unbroken(Chars(mark, t, text).tracker)
    decreases |text|
  {
    if text != "" { CharsUnbroken(mark, Char(mark, t, text[0]).tracker, text[1..]); }
  }

  function FeedAll(mark: Marking, t: Tracker, chunks: seq<string>): Fed
    decreases |chunks|
  {
    if chunks == [] then Fed(t, false)
    else var f := Feeding(mark, t, chunks[0]); Then(f.advanced, FeedAll(mark, f.tracker, chunks[1..]))
  }

  function Joined(chunks: seq<string>): string {
    if chunks == [] then "" else chunks[0] + Joined(chunks[1..])
  }

  /** The final state, and whether any progress was reported, depend only on the
      text and not on how it was cut into chunks. */
  lemma {:induction false} CutsDoNotMatter(mark: Marking, t: Tracker, chunks: seq<string>)
    requires mark("") == None && Unbroken(t)
    ensures FeedAll(mark, t, chunks) == Feeding(mark, t, Joined(chunks))
    decreases |chunks|
  {
    hide Feeding, Chars, Unbroken;
    FeedIsChars(mark, t, Joined(chunks));
    if chunks == [] {
      assert Chars(mark, t, "") == Fed(t, false) by { NoChars(mark, t); }
    } else {
      FeedIsChars(mark, t, chunks[0]);
      CharsUnbroken(mark, t, chunks[0]);
      var f := Feeding(mark, t, chunks[0]);
      CutsDoNotMatter(mark, f.tracker, chunks[1..]);
      FeedIsChars(mark, f.tracker, Joined(chunks[1..]));
      CharsConcat(mark, t, chunks[0], Joined(chunks[1..]));
    }
  }

  lemma NoChars(mark: Marking, t: Tracker)
    ensures Chars(mark, t, "") == Fed(t, false)
  {
  }

  // ---------- repeats ----------

  /** None of the lines is news. */
  ghost predicate NoNews(mark: Marking, t: Tracker, lines: seq<string>) {
    forall i :: 0 <= i < |lines| ==> !IsNews(t, mark(lines[i]))
  }

  /** Lines that repeat the current counters or a remembered log line are no
      progress and change nothing, in any number. */
  lemma {:induction false} RepeatsAreNoProgress(mark: Marking, t: Tracker, lines: seq<string>)
    requires NoNews(mark, t, lines)
    ensures Lines(mark, t, lines) == Fed(t, false)
  {
    if lines != [] {
      assert !IsNews(t, mark(lines[0]));
      assert forall i :: 0 <= i < |lines[1..]| ==> lines[1..][i] == lines[i + 1];
      RepeatsAreNoProgress(mark, t, lines[1..]);
    }
  }

  /** A line that was just processed is no news. */
  lemma JustSeenIsNoNews(mark: Marking, t: Tracker, line: string)
    requires |t.recent| <= REMEMBERED
    ensures !IsNews(Line(mark, t, line).tracker, mark(line))
    ensures |Line(mark, t, line).tracker.recent| <= REMEMBERED
  {
    if mark(line).Some? && mark(line).value.Log? && IsNews(t, mark(line)) {
      var logs := t.recent + [mark(line).value.text];
      assert logs[|logs| - 1] == mark(line).value.text;
      assert Last64(logs)[|Last64(logs)| - 1] == logs[|logs| - 1];
    }
  }

  /** The last value of the counter the lines report, or the one there was. */
  function LastValue(mark: Marking, lines: seq<string>, kind: string, before: Option<seq<string>>): Option<seq<string>> {
    if lines == [] then before
    else
      var marker := mark(lines[|lines| - 1]);
      if marker.Some? && marker.value.Stats? && marker.value.kind == kind then Some(marker.value.value)
      else LastValue(mark, lines[..|lines| - 1], kind, before)
  }

  function Known(t: Tracker, kind: string): Option<seq<string>> {
    if kind in t.structured then Some(t.structured[kind]) else None
  }

  lemma {:induction false} LinesMore(mark: Marking, t: Tracker, lines: seq<string>, line: string)
    ensures Lines(mark, t, lines + [line]).tracker == Line(mark, Lines(mark, t, lines).tracker, line).tracker
    decreases |lines|
  {
    if lines == [] {
      assert lines + [line] == [line] && [line][1..] == [];
    } else {
      assert (lines + [line])[1..] == lines[1..] + [line];
      LinesMore(mark, Line(mark, t, lines[0]).tracker, lines[1..], line);
    }
  }

  /** After any lines the tracker knows each counter's last value. */
  lemma {:induction false} CountersAreLast(mark: Marking, t: Tracker, lines: seq<string>, kind: string)
    ensures Known(Lines(mark, t, lines).tracker, kind) == LastValue(mark, lines, kind, Known(t, kind))
  {
    if lines != [] {
      var front, last := lines[..|lines| - 1], lines[|lines| - 1];
      assert lines == front + [last];
      CountersAreLast(mark, t, front, kind);
      LinesMore(mark, t, front, last);
      hide Lines;
    }
  }

  /** A line that reports a counter is progress exactly when the counter's last value is
      another one, or none. */
  lemma CounterAdvances(mark: Marking, t: Tracker, lines: seq<string>, line: string, kind: string, value: seq<string>)
    requires mark(line) == Some(Stats(kind, value))
    ensures Line(mark, Lines(mark, t, lines).tracker, line).advanced <==> LastValue(mark, lines, kind, Known(t, kind)) != Some(value)
  {
    hide Lines, LastValue;
    CountersAreLast(mark, t, lines, kind);
  }

  // ---------- a cycle of log lines ----------

  /** n distinct log lines, over and over. */
  function Cycle(lines: seq<string>, k: nat): (r: seq<string>)
    requires lines != []
    ensures |r| == k
  {
    seq(k, i requires 0 <= i < k => lines[i % |lines|])
  }

  ghost predicate DistinctLogs(mark: Marking, lines: seq<string>) {
    && (forall i :: 0 <= i < |lines| ==> mark(lines[i]) == Some(Log(lines[i])))
    && (forall i, j :: 0 <= i < j < |lines| ==> lines[i] != lines[j])
  }

  function Remembering(k: nat, lines: seq<string>): Tracker
    requires lines != []
  {
    Tracker("", map[], Last64(Cycle(lines, k)))
  }

  lemma ModsDiffer(i: nat, j: nat, n: nat)
    requires n > 0 && i < j < i + n
    ensures i % n != j % n
  {
    if i % n == j % n {
      var a, b := i / n, j / n;
      assert i == n * a + i % n && j == n * b + j % n;
      assert j - i == n * (b - a);
      Multiple(n, b - a);
    }
  }

  lemma Multiple(n: nat, d: int)
    ensures n * d <= 0 || n * d >= n
  {
    if d >= 1 { assert n * d >= n; } else { assert n * d <= 0; }
  }

  /** With more than 64 distinct lines, the next one is always forgotten already. */
  lemma LongCycleForgets(lines: seq<string>, k: nat)
    requires |lines| > REMEMBERED && forall i, j :: 0 <= i < j < |lines| ==> lines[i] != lines[j]
    ensures lines[k % |lines|] !in Last64(Cycle(lines, k))
  {
    var fed := Cycle(lines, k);
    var from := if k > REMEMBERED then k - REMEMBERED else 0;
    assert Last64(fed) == fed[from..];
    forall i | from <= i < k ensures fed[i] != lines[k % |lines|] { ModsDiffer(i, k, |lines|); }
  }

  lemma CycleStep(mark: Marking, lines: seq<string>, k: nat)
    requires |lines| > REMEMBERED && DistinctLogs(mark, lines)
    ensures Line(mark, Remembering(k, lines), lines[k % |lines|]) == Fed(Remembering(k + 1, lines), true)
  {
    LongCycleForgets(lines, k);
    var line := lines[k % |lines|];
    assert mark(line) == Some(Log(line));
    assert Cycle(lines, k + 1) == Cycle(lines, k) + [line];
    LastOfLast(Cycle(lines, k), line);
  }

  lemma LastOfLast(logs: seq<string>, line: string)
    ensures Last64(Last64(logs) + [line]) == Last64(logs + [line])
  {
  }

  /** m lines of the cycle, from number k on. */
  function Stretch(lines: seq<string>, k: nat, m: nat): seq<string>
    requires lines != []
  {
    seq(m, i requires 0 <= i < m => lines[(k + i) % |lines|])
  }

  lemma StretchHead(lines: seq<string>, k: nat, m: nat)
    requires lines != [] && m > 0
    ensures Stretch(lines, k, m) != [] && Stretch(lines, k, m)[0] == lines[k % |lines|]
    ensures Stretch(lines, k, m)[1..] == Stretch(lines, k + 1, m - 1)
  {
  }

  lemma {:induction false} AllAdvance(mark: Marking, lines: seq<string>, k: nat, m: nat)
    requires |lines| > REMEMBERED && DistinctLogs(mark, lines)
    ensures Lines(mark, Remembering(k, lines), Stretch(lines, k, m)) == Fed(Remembering(k + m, lines), m > 0)
    decreases m
  {
    hide Line, Remembering, DistinctLogs, Stretch;
    if m > 0 {
      StretchHead(lines, k, m);
      CycleStep(mark, lines, k);
      AllAdvance(mark, lines, k + 1, m - 1);
    } else {
      assert Stretch(lines, k, m) == [] by { NoStretch(lines, k); }
    }
  }

  lemma NoStretch(lines: seq<string>, k: nat)
    requires lines != []
    ensures Stretch(lines, k, 0) == []
  {
  }

  /** Lines that come round again count as progress for ever exactly when there
      are more than 64 of them: any later stretch of the cycle advances. */
  lemma CycleAdvances(mark: Marking, lines: seq<string>, k: nat, m: nat)
    requires lines != [] && DistinctLogs(mark, lines) && k >= |lines| && m > 0
    ensures Lines(mark, Lines(mark, Tracker("", map[], []), Cycle(lines, k)).tracker, Stretch(lines, k, m)).advanced
       <==> |lines| > 64
  {
    hide Line, DistinctLogs;
    var fed := Stretch(lines, k, m);
    if |lines| > REMEMBERED {
      assert Cycle(lines, k) == Stretch(lines, 0, k);
      assert Last64(Cycle(lines, 0)) == [];
      AllAdvance(mark, lines, 0, k);
      AllAdvance(mark, lines, k, m);
    } else {
      ShortCycle(mark, lines, k);
      AllKnown(mark, lines, fed);
      RepeatsAreNoProgress(mark, Tracker("", map[], lines), fed);
    }
  }

  lemma AllKnown(mark: Marking, lines: seq<string>, fed: seq<string>)
    requires DistinctLogs(mark, lines) && forall i :: 0 <= i < |fed| ==> fed[i] in lines
    ensures NoNews(mark, Tracker("", map[], lines), fed)
  {
    forall i | 0 <= i < |fed| ensures !IsNews(Tracker("", map[], lines), mark(fed[i])) {
      var j :| 0 <= j < |lines| && lines[j] == fed[i];
      assert mark(lines[j]) == Some(Log(lines[j]));
    }
  }

  lemma {:induction false} FirstRound(mark: Marking, lines: seq<string>, k: nat)
    requires |lines| <= REMEMBERED && DistinctLogs(mark, lines) && k <= |lines|
    ensures Lines(mark, Tracker("", map[], lines[..k]), lines[k..]).tracker == Tracker("", map[], lines)
    decreases |lines| - k
  {
    if k == |lines| {
      assert lines[..k] == lines && lines[k..] == [];
    } else {
      var t := Tracker("", map[], lines[..k]);
      assert mark(lines[k]) == Some(Log(lines[k])) && lines[k] !in lines[..k];
      assert lines[..k] + [lines[k]] == lines[..k + 1];
      assert lines[k..][1..] == lines[k + 1..];
      FirstRound(mark, lines, k + 1);
    }
  }

  lemma {:induction false} LinesConcat(mark: Marking, t: Tracker, a: seq<string>, b: seq<string>)
    ensures Lines(mark, t, a + b) == (var f := Lines(mark, t, a); Then(f.advanced, Lines(mark, f.tracker, b)))
    decreases |a|
  {
    hide Line;
    if a == [] {
      assert a + b == b;
    } else {
      assert (a + b)[1..] == a[1..] + b;
      LinesConcat(mark, Line(mark, t, a[0]).tracker, a[1..], b);
    }
  }

  lemma ShortCycle(mark: Marking, lines: seq<string>, k: nat)
    requires 0 < |lines| <= REMEMBERED && DistinctLogs(mark, lines) && k >= |lines|
    ensures Lines(mark, Tracker("", map[], []), Cycle(lines, k)).tracker == Tracker("", map[], lines)
  {
    hide Lines, DistinctLogs, IsNews, Cycle, NoNews;
    var later := Cycle(lines, k)[|lines|..];
    RoundAndRest(lines, k);
    assert lines[..0] == [] && lines[0..] == lines;
    FirstRound(mark, lines, 0);
    LinesConcat(mark, Tracker("", map[], []), lines, later);
    AllKnown(mark, lines, later);
    RepeatsAreNoProgress(mark, Tracker("", map[], lines), later);
  }

  lemma RoundAndRest(lines: seq<string>, k: nat)
    requires 0 < |lines| && k >= |lines|
    ensures Cycle(lines, k) == lines + Cycle(lines, k)[|lines|..]
    ensures forall i :: 0 <= i < k - |lines| ==> Cycle(lines, k)[|lines|..][i] in lines
  {
    assert Cycle(lines, k)[..|lines|] == lines;
  }

  // ---------- the object ----------

  class LogProgressTracker {
    const mark: Marking
    var partial: string
    var structured: map<string, seq<string>>
    var recent: seq<string>

    ghost function Now(): Tracker
      reads this
    {
      Tracker(partial, structured, recent)
    }

    constructor (mark: Marking)
      ensures Now() == Tracker("", map[], []) && this.mark == mark
    {
      this.mark, partial, structured, recent := mark, "", map[], [];
    }

    method Feed(chunk: string) returns (advanced: bool)
      modifies this
      ensures Fed(Now(), advanced) == Feeding(mark, old(Now()), chunk)
    {
      hide Line, Split;
      var text := partial + chunk;
      var lines := Split(text);
      if text != "" && !IsBreak(text[|text| - 1]) {
        partial := lines[|lines| - 1];
        lines := lines[..|lines| - 1];
      } else {
        partial := "";
      }
      ghost var start := Now();
      advanced := false;
      var i := 0;
      assert lines[0..] == lines;
      while i < |lines|
        invariant i <= |lines|
        invariant Then(advanced, Lines(mark, Now(), lines[i..])) == Lines(mark, start, lines)
      {
        var news := OneLine(lines[i]);
        advanced := advanced || news;
        assert lines[i..][1..] == lines[i + 1..];
        i := i + 1;
      }
    }

    method OneLine(line: string) returns (news: bool)
      modifies this`structured, this`recent
      ensures Fed(Now(), news) == Line(mark, old(Now()), line)
    {
      var marker := mark(line);
      if marker.None? { return false; }
      match marker.value
      case Log(text) =>
        if text in recent { return false; }
        recent := Last64(recent + [text]);
        return true;
      case Stats(kind, value) =>
        if kind in structured && structured[kind] == value { return false; }
        structured := structured[kind := value];
        return true;
    }
  }
}
