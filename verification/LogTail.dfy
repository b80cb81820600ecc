/**
  The byte-budgeted LRU cache of log tails (app/jobs/log_tail.py).

  `Answer` is what a call returns from the entry it finds and from what it sees of
  the file, whatever has happened to the file; `QuietReadExactly` says when that is
  the plain tail.  In a world of files that only grow, the ghost field `files`, it
  always is.  A read is three phases, and only the first and last hold the cache
  lock, so other threads may change the cache in between: the middle depends on
  the entry it was given alone.
*/
module LogTail {
  import opened Results

  // Nothing here depends on the range of a byte.
  type Bytes = seq<int>

  const CACHE_MAX_BYTES: nat := 16 * 1024 * 1024
  const CACHE_MAX_ENTRIES: nat := 128

  datatype Stat = Stat(device: int, inode: int, size: nat, mtime: int, ctime: int)

  datatype Entry = Entry(stat: Stat, data: Bytes)

  /** What a call sees of a file at one moment. */
  datatype View = View(stat: Stat, content: Bytes)

  datatype FileId = FileId(path: string, device: int, inode: int)

  type World = map<FileId, Bytes>

  /** The last n bytes, or all of them. */
  function Tail(s: Bytes, n: nat): (r: Bytes)
    ensures |r| == if |s| < n then |s| else n
  {
    if |s| <= n then s else s[|s| - n..]
  }

  lemma TailIsSuffix(s: Bytes, n: nat)
    ensures exists k :: 0 <= k <= |s| && Tail(s, n) == s[k..] && |s| - k == if |s| < n then |s| else n
  {
    var k := if |s| <= n then 0 else |s| - n;
    assert Tail(s, n) == s[k..];
  }

  lemma TailOfWindow(s: Bytes, a: nat, b: nat, n: nat)
    requires a <= b <= |s|
    ensures Tail(s[a..b], n) == s[if b - a <= n then a else b - n..b]
  {
  }

  lemma TailOfTail(s: Bytes, m: nat, n: nat)
    requires n <= m
    ensures Tail(Tail(s, m), n) == Tail(s, n)
  {
  }

  lemma TailOfConcat(x: Bytes, y: Bytes, n: nat)
    ensures Tail(x + y, n) == if n <= |y| then Tail(y, n) else Tail(x, n - |y|) + y
  {
  }

  function Min(a: nat, b: nat): nat {
    if a < b then a else b
  }

  function Max(a: nat, b: nat): nat {
    if a < b then b else a
  }

  /** handle.seek(offset); handle.read(n) */
  function ReadAt(content: Bytes, offset: nat, n: nat): (r: Bytes)
    ensures offset <= |content| ==> |r| == Min(n, |content| - offset)
  {
    if offset > |content| then [] else content[offset..offset + Min(n, |content| - offset)]
  }

  predicate Unchanged(cached: Entry, now: Stat) {
    cached.stat == now
  }

  predicate SameFile(cached: Entry, now: Stat) {
    cached.stat.inode != 0 && now.inode != 0 && cached.stat.device == now.device && cached.stat.inode == now.inode
  }

  // ---------- the world ----------

  function IdOf(path: string, stat: Stat): FileId {
    FileId(path, stat.device, stat.inode)
  }

  ghost predicate Saw(files: World, path: string, v: View) {
    && |v.content| == v.stat.size
    && IdOf(path, v.stat) in files && v.content <= files[IdOf(path, v.stat)]
  }

  /** data are the last bytes of the file's first stat.size bytes. */
  ghost predicate EndsAt(files: World, path: string, stat: Stat, data: Bytes) {
    var id := IdOf(path, stat);
    && id in files && |data| <= stat.size <= |files[id]|
    && data == files[id][stat.size - |data|..stat.size]
  }

  ghost predicate Grows(before: World, after: World) {
    forall id :: id in before ==> id in after && before[id] <= after[id]
  }

  /** A snapshot stays one while files grow. */
  lemma EndsAtStays(before: World, after: World, path: string, stat: Stat, data: Bytes)
    requires Grows(before, after) && EndsAt(before, path, stat, data)
    ensures EndsAt(after, path, stat, data)
  {
    var id := IdOf(path, stat);
    assert before[id] == after[id][..|before[id]|];
  }

  lemma SuffixEndsAt(files: World, path: string, stat: Stat, data: Bytes, n: nat)
    requires EndsAt(files, path, stat, data)
    ensures EndsAt(files, path, stat, Tail(data, n))
  {
  }

  // ---------- reading the file ----------

  datatype Reading = Reading(raw: Bytes, cacheData: Bytes, position: nat)

  /** Whether the cached bytes may be extended by what was appended since. */
  predicate CanExtend(cached: Option<Entry>, atOpen: Stat, read: Bytes, limit: nat) {
    && cached.Some? && SameFile(cached.value, atOpen)
    && atOpen.size > cached.value.stat.size
    && |cached.value.data| >= Min(limit, cached.value.stat.size)
    && atOpen.size - cached.value.stat.size <= Max(limit, |cached.value.data|)
    // the boundary byte
    && cached.value.stat.size > 0
    && ReadAt(read, cached.value.stat.size - 1, 1) == Tail(cached.value.data, 1)
  }

  /** The unlocked middle of `read_tail`; `read` is the content the reads see. */
  function ReadFile(cached: Option<Entry>, atOpen: Stat, read: Bytes, limit: nat): Reading {
    if CanExtend(cached, atOpen, read, limit) then
      var capacity := Max(limit, |cached.value.data|);
      var added := ReadAt(read, cached.value.stat.size, capacity);
      var cacheData := Tail(cached.value.data + added, capacity);
      Reading(Tail(cacheData, limit), cacheData, cached.value.stat.size + |added|)
    else
      var offset := if atOpen.size <= limit then 0 else atOpen.size - limit;
      var raw := ReadAt(read, offset, limit);
      Reading(raw, raw, offset + |raw|)
  }

  /** An uncached read of the same file. */
  function PlainRead(atOpen: Stat, read: Bytes, limit: nat): Bytes {
    ReadFile(None, atOpen, read, limit).raw
  }

  predicate Hit(cached: Option<Entry>, now: Stat, limit: nat) {
    cached.Some? && Unchanged(cached.value, now) && |cached.value.data| >= Min(limit, cached.value.stat.size)
  }

  /** What a call returns.  `first` is what path.stat sees, `atOpen` and `read` what the
      open handle shows; None where the operating system refuses. */
  function Answer(cached: Option<Entry>, first: Option<View>, atOpen: Option<View>, read: Bytes, limit: nat): Bytes {
    if first.None? then []
    else if Hit(cached, first.value.stat, limit) then Tail(cached.value.data, limit)
    else if atOpen.None? then []
    else ReadFile(cached, atOpen.value.stat, read, limit).raw
  }

  /** A read, cached or not, returns the last `limit` bytes of the file as it
      was at some point between the open and the read, and keeps a snapshot of
      that point for the cache. */
  lemma ReadingIsTail(files: World, path: string, cached: Option<Entry>, atOpen: View, read: Bytes, limit: nat)
    requires limit > 0 && Saw(files, path, atOpen) && atOpen.content <= read <= files[IdOf(path, atOpen.stat)]
    requires cached.Some? ==> EndsAt(files, path, cached.value.stat, cached.value.data)
    ensures var r := ReadFile(cached, atOpen.stat, read, limit);
            && atOpen.stat.size <= r.position <= |read|
            && r.raw == Tail(read[..r.position], limit)
            && |r.cacheData| <= r.position && r.cacheData == read[r.position - |r.cacheData|..r.position]
  {
    hide Tail, ReadAt, ReadFile, CanExtend, ExtensionEnd;
    if cached.Some? && CanExtend(cached, atOpen.stat, read, limit) {
      var e := cached.value;
      EntryInRead(files, path, e, atOpen, read, limit);
      ExtensionReads(e, atOpen.stat, read, limit);
      ExtendedIsTail(read, e.stat.size - |e.data|, ExtensionEnd(e, read, limit), Max(limit, |e.data|), limit);
    } else {
      if cached.Some? { RejectedIsPlain(cached.value, atOpen.stat, read, limit); }
      PlainIsTail(atOpen.stat, read, limit);
    }
  }

  lemma EntryInRead(files: World, path: string, e: Entry, atOpen: View, read: Bytes, limit: nat)
    requires Saw(files, path, atOpen) && atOpen.content <= read <= files[IdOf(path, atOpen.stat)]
    requires EndsAt(files, path, e.stat, e.data) && CanExtend(Some(e), atOpen.stat, read, limit)
    ensures e.stat.size <= |read| && e.data == read[e.stat.size - |e.data|..e.stat.size]
  {
    hide ReadAt, Tail;
  }

  /** Where an extended read stops. */
  function ExtensionEnd(e: Entry, read: Bytes, limit: nat): nat {
    e.stat.size + |ReadAt(read, e.stat.size, Max(limit, |e.data|))|
  }

  lemma ExtensionReads(e: Entry, atOpen: Stat, read: Bytes, limit: nat)
    requires limit > 0 && atOpen.size <= |read| && CanExtend(Some(e), atOpen, read, limit)
    requires |e.data| <= e.stat.size <= |read| && e.data == read[e.stat.size - |e.data|..e.stat.size]
    ensures var capacity, start, end := Max(limit, |e.data|), e.stat.size - |e.data|, ExtensionEnd(e, read, limit);
            && atOpen.size <= end <= |read| && (start == 0 || limit <= end - start) && limit <= capacity
            && ReadFile(Some(e), atOpen, read, limit)
               == Reading(Tail(Tail(read[start..end], capacity), limit), Tail(read[start..end], capacity), end)
  {
    hide Tail;
    var end := ExtensionEnd(e, read, limit);
    assert ReadAt(read, e.stat.size, Max(limit, |e.data|)) == read[e.stat.size..end];
    Joined(read, e.stat.size - |e.data|, e.stat.size, end);
  }

  lemma PlainIsTail(atOpen: Stat, read: Bytes, limit: nat)
    requires limit > 0 && atOpen.size <= |read|
    ensures var r := ReadFile(None, atOpen, read, limit);
            && atOpen.size <= r.position <= |read|
            && r.raw == Tail(read[..r.position], limit) && r.cacheData == r.raw
            && r.raw == read[r.position - |r.raw|..r.position]
  {
    var offset := if atOpen.size <= limit then 0 else atOpen.size - limit;
    var end := offset + |ReadAt(read, offset, limit)|;
    SameTail(read, offset, end, limit);
  }

  lemma ExtendedIsTail(read: Bytes, start: nat, end: nat, capacity: nat, limit: nat)
    requires start <= end <= |read| && limit <= capacity && (start == 0 || limit <= end - start)
    ensures Tail(Tail(read[start..end], capacity), limit) == Tail(read[..end], limit)
    ensures var kept := Tail(read[start..end], capacity); |kept| <= end && kept == read[end - |kept|..end]
  {
    TailOfTail(read[start..end], capacity, limit);
    TailOfWindow(read, start, end, capacity);
    SameTail(read, start, end, limit);
  }

  lemma PrefixOf(a: Bytes, b: Bytes, c: Bytes)
    requires a <= b <= c
    ensures a <= c
  {
  }

  lemma Joined(s: Bytes, a: nat, b: nat, c: nat)
    requires a <= b <= c <= |s|
    ensures s[a..b] + s[b..c] == s[a..c]
  {
  }

  /** A window at least as long as the tail, or as the whole, has the same tail. */
  lemma SameTail(s: Bytes, a: nat, b: nat, n: nat)
    requires a <= b <= |s| && (a == 0 || n <= b - a)
    ensures Tail(s[a..b], n) == Tail(s[..b], n)
  {
    assert s[..b] == s[0..b];
    TailOfWindow(s, a, b, n);
    TailOfWindow(s, 0, b, n);
  }

  /** While nothing is appended during the call, a cached read and a plain read
      both return exactly the last `limit` bytes of the file. */
  lemma CachedReadIsPlainRead(files: World, path: string, cached: Option<Entry>, atOpen: View, limit: nat)
    requires limit > 0 && Saw(files, path, atOpen)
    requires cached.Some? ==> EndsAt(files, path, cached.value.stat, cached.value.data)
    ensures ReadFile(cached, atOpen.stat, atOpen.content, limit).raw == PlainRead(atOpen.stat, atOpen.content, limit)
    ensures PlainRead(atOpen.stat, atOpen.content, limit) == Tail(atOpen.content, limit)
  {
    hide ReadFile, PlainRead, Tail, EndsAt;
    ReadingIsTail(files, path, cached, atOpen, atOpen.content, limit);
    PlainRaw(atOpen, limit);
    assert atOpen.content[..|atOpen.content|] == atOpen.content;
  }

  /** A cache hit returns what a plain read of the observed file would. */
  lemma HitIsPlainRead(files: World, path: string, e: Entry, v: View, limit: nat)
    requires limit > 0 && Saw(files, path, v) && EndsAt(files, path, e.stat, e.data)
    requires Unchanged(e, v.stat) && |e.data| >= Min(limit, e.stat.size)
    ensures Tail(e.data, limit) == PlainRead(v.stat, v.content, limit)
  {
    CachedReadIsPlainRead(files, path, None, v, limit);
    assert v.content == files[IdOf(path, v.stat)][..v.stat.size];
  }

  /** Without the growth assumption one boundary byte is not enough: a file cut
      and regrown in place passes the check and is spliced with stale bytes. */
  lemma SpliceAfterTruncation()
    ensures var stale := Entry(Stat(1, 7, 2, 0, 0), [1, 2]);
            var file := View(Stat(1, 7, 3, 5, 5), [9, 2, 3]);
            && CanExtend(Some(stale), file.stat, file.content, 1024)
            && ReadFile(Some(stale), file.stat, file.content, 1024).raw == [1, 2, 3]
            && PlainRead(file.stat, file.content, 1024) == [9, 2, 3]
  {
    var stale := Entry(Stat(1, 7, 2, 0, 0), [1, 2]);
    var file: Bytes := [9, 2, 3];
    assert ReadAt(file, 1, 1) == [2] && ReadAt(file, 2, 1024) == [3];
    assert [1, 2] + [3] == [1, 2, 3];
  }

  /** An extended read agrees with a plain read exactly when the cached bytes it still
      shows are the file's bytes. */
  lemma SpliceExactly(e: Entry, v: View, limit: nat)
    requires limit > 0 && |v.content| == v.stat.size && |e.data| <= e.stat.size
    requires CanExtend(Some(e), v.stat, v.content, limit)
    ensures (ReadFile(Some(e), v.stat, v.content, limit).raw == PlainRead(v.stat, v.content, limit))
       <==> (Tail(e.data, Shown(e, v.stat, limit)) == v.content[..e.stat.size][e.stat.size - Shown(e, v.stat, limit)..])
  {
    var added, below := v.content[e.stat.size..], v.content[..e.stat.size];
    hide ReadFile, PlainRead, ReadAt;
    ExtendedRaw(e, v, limit);
    PlainRaw(v, limit);
    assert v.content == below + added;
    SameSplice(e.data, below, added, limit);
    ShownTails(e, v.stat, below, limit);
  }

  // ---------- any history of a file ----------

  /** Neither a hit nor an extension: the file is read anew. */
  predicate Rejected(e: Entry, v: View, limit: nat) {
    !Hit(Some(e), v.stat, limit) && !CanExtend(Some(e), v.stat, v.content, limit)
  }

  /** How many of the entry's bytes the answer shows. */
  function ShownBytes(e: Entry, now: Stat, limit: nat): nat {
    if Unchanged(e, now) then Min(limit, |e.data|) else Shown(e, now, limit)
  }

  /** The entry's last k bytes stand in the file where the entry has them. */
  predicate InPlace(e: Entry, content: Bytes, k: nat)
    requires k <= e.stat.size
  {
    e.stat.size <= |content| && Tail(e.data, k) == content[e.stat.size - k..e.stat.size]
  }

  /** For any entry and any file, a call during which the file does not change returns
      the plain tail exactly when a guard rejects the entry (another file or none,
      another size, too little to show, too much appended, another boundary byte)
      or the bytes it shows are still in place. */
  lemma QuietReadExactly(e: Entry, v: View, limit: nat)
    requires limit > 0 && |v.content| == v.stat.size && |e.data| <= e.stat.size
    ensures ShownBytes(e, v.stat, limit) <= e.stat.size
    ensures Answer(Some(e), Some(v), Some(v), v.content, limit) == Tail(v.content, limit)
       <==> Rejected(e, v, limit) || InPlace(e, v.content, ShownBytes(e, v.stat, limit))
  {
    hide CanExtend, Tail;
    PlainRaw(v, limit);
    if Hit(Some(e), v.stat, limit) {
      HitExactly(e, v, limit);
    } else if CanExtend(Some(e), v.stat, v.content, limit) {
      ExtensionExactly(e, v, limit);
    } else {
      RejectedIsPlain(e, v.stat, v.content, limit);
    }
  }

  /** With the same stat and enough cached bytes the file is not even opened. */
  lemma SameStatIsHit(e: Entry, v: View, limit: nat)
    requires v.stat == e.stat && (|e.data| >= limit || |e.data| >= e.stat.size)
    ensures Answer(Some(e), Some(v), None, [], limit) == Tail(e.data, limit)
  {
    hide Tail;
  }

  lemma OneByte(s: Bytes, k: nat)
    requires k < |s|
    ensures ReadAt(s, k, 1) == [s[k]]
  {
    assert s[k..k + 1] == [s[k]];
  }

  lemma LastByte(s: Bytes)
    requires s != []
    ensures Tail(s, 1) == [s[|s| - 1]]
  {
  }

  /** Any change in the stat of a file that has not grown, another file under the path, and a
      grown file with another byte at the old end, no number of its own or more appended than
      the entry and the limit hold: all are read anew, whatever the entry says. */
  lemma ChangeIsRead(e: Entry, v: View, limit: nat)
    requires limit > 0 && |v.content| == v.stat.size && 0 < |e.data| <= e.stat.size
    requires v.stat.mtime != e.stat.mtime || v.stat.ctime != e.stat.ctime || v.stat.size != e.stat.size
             || v.stat.device != e.stat.device || v.stat.inode != e.stat.inode
    requires || v.stat.size <= e.stat.size || v.stat.device != e.stat.device || v.stat.inode != e.stat.inode || v.stat.inode == 0
             || v.content[e.stat.size - 1] != e.data[|e.data| - 1]
             || (v.stat.size > e.stat.size + limit && v.stat.size > e.stat.size + |e.data|)
    ensures Answer(Some(e), Some(v), Some(v), v.content, limit) == Tail(v.content, limit)
  {
    PlainRaw(v, limit);
    assert e.stat != v.stat;
    if 0 < e.stat.size < v.stat.size {
      OneByte(v.content, e.stat.size - 1);
      LastByte(e.data);
    }
    hide Tail, ReadAt;
    RejectedIsPlain(e, v.stat, v.content, limit);
  }

  lemma RejectedIsPlain(e: Entry, atOpen: Stat, read: Bytes, limit: nat)
    requires !CanExtend(Some(e), atOpen, read, limit)
    ensures ReadFile(Some(e), atOpen, read, limit) == ReadFile(None, atOpen, read, limit)
  {
  }

  lemma ExtensionExactly(e: Entry, v: View, limit: nat)
    requires limit > 0 && |v.content| == v.stat.size && |e.data| <= e.stat.size && CanExtend(Some(e), v.stat, v.content, limit)
    ensures e.stat.size < v.stat.size
    ensures ReadFile(Some(e), v.stat, v.content, limit).raw == Tail(v.content, limit) <==> InPlace(e, v.content, Shown(e, v.stat, limit))
  {
    SpliceExactly(e, v, limit);
    PlainRaw(v, limit);
    Window(v.content, e.stat.size, Shown(e, v.stat, limit));
    hide ReadFile, PlainRead, Tail, ReadAt;
  }

  lemma Window(s: Bytes, n: nat, k: nat)
    requires k <= n <= |s|
    ensures s[..n][n - k..] == s[n - k..n]
  {
  }

  lemma HitExactly(e: Entry, v: View, limit: nat)
    requires |v.content| == v.stat.size && |e.data| <= e.stat.size && Hit(Some(e), v.stat, limit)
    ensures Tail(e.data, limit) == Tail(v.content, limit) <==> InPlace(e, v.content, Min(limit, |e.data|))
  {
    var n, k := |v.content|, Min(limit, |e.data|);
    assert k == Min(limit, n);
    assert Tail(v.content, limit) == v.content[n - k..n];
    assert Tail(e.data, limit) == Tail(e.data, k);
    hide Tail;
  }

  /** The entry holds the last bytes of one version of the file. */
  predicate StoredFrom(e: Entry, v: View) {
    e.stat == v.stat && |v.content| == v.stat.size && |e.data| <= |v.content| && e.data == v.content[|v.content| - |e.data|..]
  }

  lemma StoredTail(e: Entry, v: View, k: nat)
    requires StoredFrom(e, v) && k <= |e.data|
    ensures Tail(e.data, k) == v.content[e.stat.size - k..]
  {
  }

  /** After any history of appending, cutting, rewriting and replacing: an entry stored
      from one version answers for a later one as a plain read does exactly when a
      guard rejects it or the bytes shown are the same in both versions. */
  lemma HistoryExactly(history: seq<View>, i: nat, j: nat, e: Entry, limit: nat)
    requires limit > 0 && i <= j < |history| && StoredFrom(e, history[i]) && |history[j].content| == history[j].stat.size
    ensures var was, now, k, n := history[i].content, history[j].content, ShownBytes(e, history[j].stat, limit), e.stat.size;
            k <= n == |was|
            && (Answer(Some(e), Some(history[j]), Some(history[j]), now, limit) == Tail(now, limit)
                <==> Rejected(e, history[j], limit) || (n <= |now| && now[n - k..n] == was[n - k..]))
  {
    hide Answer, Rejected, Tail;
    QuietReadExactly(e, history[j], limit);
    StoredTail(e, history[i], ShownBytes(e, history[j].stat, limit));
  }

  /** In particular always when no version since has lost or changed the bytes the
      file had then, whatever was appended. */
  lemma UncutHistory(history: seq<View>, i: nat, j: nat, e: Entry, limit: nat)
    requires limit > 0 && i <= j < |history| && StoredFrom(e, history[i]) && |history[j].content| == history[j].stat.size
    requires forall k :: i <= k <= j ==> history[i].content <= history[k].content
    ensures Answer(Some(e), Some(history[j]), Some(history[j]), history[j].content, limit) == Tail(history[j].content, limit)
  {
    HistoryExactly(history, i, j, e, limit);
    hide Answer, ShownBytes, Rejected;
  }

  lemma ExtendedRaw(e: Entry, v: View, limit: nat)
    requires |v.content| == v.stat.size && CanExtend(Some(e), v.stat, v.content, limit)
    ensures ReadFile(Some(e), v.stat, v.content, limit).raw == Tail(e.data + v.content[e.stat.size..], limit)
  {
    var capacity := Max(limit, |e.data|);
    assert ReadAt(v.content, e.stat.size, capacity) == v.content[e.stat.size..];
    TailOfTail(e.data + v.content[e.stat.size..], capacity, limit);
  }

  lemma PlainRaw(v: View, limit: nat)
    requires limit > 0 && |v.content| == v.stat.size
    ensures PlainRead(v.stat, v.content, limit) == Tail(v.content, limit)
  {
    PlainIsTail(v.stat, v.content, limit);
    assert v.content[..|v.content|] == v.content;
  }

  lemma SameSplice(x: Bytes, y: Bytes, added: Bytes, n: nat)
    requires n > |added| ==> |Tail(x, n - |added|)| == |Tail(y, n - |added|)|
    ensures Tail(x + added, n) == Tail(y + added, n) <==> n <= |added| || Tail(x, n - |added|) == Tail(y, n - |added|)
  {
    TailOfConcat(x, added, n);
    TailOfConcat(y, added, n);
    if n > |added| { SamePrefix(Tail(x, n - |added|), Tail(y, n - |added|), added); }
  }

  lemma ShownTails(e: Entry, now: Stat, below: Bytes, limit: nat)
    requires |below| == e.stat.size < now.size && Min(limit, e.stat.size) <= |e.data| <= e.stat.size
    ensures var added, shown := now.size - e.stat.size, Shown(e, now, limit);
            && (limit > added ==> Tail(e.data, limit - added) == Tail(e.data, shown))
            && (limit > added ==> Tail(below, limit - added) == below[|below| - shown..])
            && (limit <= added ==> shown == 0)
  {
  }

  /** How many cached bytes an extended read still shows. */
  function Shown(e: Entry, now: Stat, limit: nat): nat {
    Min(|e.data|, if limit < now.size - e.stat.size || now.size < e.stat.size then 0 else limit - (now.size - e.stat.size))
  }

  lemma SamePrefix(a: Bytes, b: Bytes, c: Bytes)
    requires |a| == |b|
    ensures a + c == b + c <==> a == b
  {
    if a + c == b + c { assert a == (a + c)[..|a|] && b == (b + c)[..|a|]; }
  }

  // ---------- the cache ----------

  datatype Slot = Slot(key: string, entry: Entry)

  function Held(items: seq<Slot>): nat {
    if items == [] then 0 else |items[0].entry.data| + Held(items[1..])
  }

  lemma {:induction false} HeldConcat(a: seq<Slot>, b: seq<Slot>)
    ensures Held(a + b) == Held(a) + Held(b)
  {
    if a == [] {
      assert a + b == b;
    } else {
      HeldConcat(a[1..], b);
      assert (a + b)[1..] == a[1..] + b;
    }
  }

  lemma HeldWithout(items: seq<Slot>, k: nat)
    requires k < |items|
    ensures Held(items[..k] + items[k + 1..]) == Held(items) - |items[k].entry.data|
  {
    HeldConcat(items[..k], items[k + 1..]);
    HeldConcat(items[..k], items[k..]);
    assert items[..k] + items[k..] == items && items[k..][1..] == items[k + 1..];
  }

  ghost predicate DistinctKeys(items: seq<Slot>) {
    forall i, j :: 0 <= i < j < |items| ==> items[i].key != items[j].key
  }

  /** The slots of all other keys, in order. */
  function Without(items: seq<Slot>, key: string): (r: seq<Slot>)
    ensures forall i :: 0 <= i < |r| ==> r[i].key != key && r[i] in items
  {
    if items == [] then [] else (if items[0].key == key then [] else [items[0]]) + Without(items[1..], key)
  }

  lemma {:induction false} WithoutAbsent(items: seq<Slot>, key: string)
    requires forall i :: 0 <= i < |items| ==> items[i].key != key
    ensures Without(items, key) == items
  {
    if items != [] { WithoutAbsent(items[1..], key); }
  }

  lemma {:induction false} WithoutPresent(items: seq<Slot>, k: nat)
    requires k < |items| && DistinctKeys(items)
    ensures Without(items, items[k].key) == items[..k] + items[k + 1..]
  {
    if k == 0 {
      WithoutAbsent(items[1..], items[0].key);
    } else {
      WithoutPresent(items[1..], k - 1);
      assert items[..k] + items[k + 1..] == [items[0]] + (items[1..][..k - 1] + items[1..][k..]);
    }
  }

  /** Every cached entry is a non-empty suffix of its file at the cached size. */
  ghost predicate Snapshots(files: World, items: seq<Slot>) {
    items == [] || (IsSnapshot(files, items[0]) && Snapshots(files, items[1..]))
  }

  ghost predicate IsSnapshot(files: World, slot: Slot) {
    slot.entry.data != [] && EndsAt(files, slot.key, slot.entry.stat, slot.entry.data)
  }

  lemma {:induction false} SnapshotsConcat(files: World, a: seq<Slot>, b: seq<Slot>)
    ensures Snapshots(files, a + b) <==> Snapshots(files, a) && Snapshots(files, b)
  {
    if a == [] {
      assert a + b == b;
    } else {
      SnapshotsConcat(files, a[1..], b);
      assert (a + b)[1..] == a[1..] + b;
    }
  }

  lemma SnapshotsWithout(files: World, items: seq<Slot>, k: nat)
    requires k < |items| && Snapshots(files, items)
    ensures Snapshots(files, items[..k] + items[k + 1..]) && IsSnapshot(files, items[k])
  {
    SnapshotsConcat(files, items[..k], items[k..]);
    assert items[..k] + items[k..] == items && items[k..][1..] == items[k + 1..];
    SnapshotsConcat(files, items[..k], items[k + 1..]);
  }

  lemma {:induction false} SnapshotsStay(before: World, after: World, items: seq<Slot>)
    requires Grows(before, after) && Snapshots(before, items)
    ensures Snapshots(after, items)
  {
    if items != [] {
      EndsAtStays(before, after, items[0].key, items[0].entry.stat, items[0].entry.data);
      SnapshotsStay(before, after, items[1..]);
    }
  }

  predicate Crowded(items: seq<Slot>, size: nat) {
    Held(items) + size > CACHE_MAX_BYTES || |items| >= CACHE_MAX_ENTRIES
  }

  /** Drops least recently used entries until one of `size` bytes fits. */
  function Evicted(items: seq<Slot>, size: nat): (r: seq<Slot>) {
    if items != [] && Crowded(items, size) then Evicted(items[1..], size) else items
  }

  /** What is left is the longest suffix with room for the new entry. */
  lemma {:induction false} EvictedLeastRecent(items: seq<Slot>, size: nat)
    requires size <= CACHE_MAX_BYTES
    ensures var k := |items| - |Evicted(items, size)|;
            && 0 <= k && Evicted(items, size) == items[k..] && !Crowded(items[k..], size)
            && (forall j :: 0 <= j < k ==> Crowded(items[j..], size))
  {
    if items != [] && Crowded(items, size) {
      EvictedLeastRecent(items[1..], size);
      forall j | 0 < j <= |items| ensures items[1..][j - 1..] == items[j..] { }
    }
  }

  predicate Fitting(items: seq<Slot>) {
    forall i :: 0 <= i < |items| ==> 0 < |items[i].entry.data| <= items[i].entry.stat.size
  }

  function EntryOf(items: seq<Slot>, key: string): Option<Entry> {
    if items == [] then None else if items[0].key == key then Some(items[0].entry) else EntryOf(items[1..], key)
  }

  lemma {:induction false} EntryAt(items: seq<Slot>, k: nat)
    requires k < |items| && DistinctKeys(items)
    ensures EntryOf(items, items[k].key) == Some(items[k].entry)
  {
    if k > 0 { EntryAt(items[1..], k - 1); }
  }

  lemma {:induction false} EntryAbsent(items: seq<Slot>, key: string)
    requires forall i :: 0 <= i < |items| ==> items[i].key != key
    ensures EntryOf(items, key) == None
  {
    if items != [] { EntryAbsent(items[1..], key); }
  }

  /** What a cache keeps when it loses slot k. */
  lemma SlotGone(files: World, items: seq<Slot>, k: nat)
    requires k < |items| && DistinctKeys(items) && Fitting(items)
    ensures var rest := items[..k] + items[k + 1..];
            && rest == Without(items, items[k].key) && DistinctKeys(rest) && Fitting(rest)
            && Held(rest) == Held(items) - |items[k].entry.data|
            && (forall i :: 0 <= i < |rest| ==> rest[i].key != items[k].key)
            && (Snapshots(files, items) ==> Snapshots(files, rest) && IsSnapshot(files, items[k]))
  {
    hide Snapshots, Held, Without;
    HeldWithout(items, k);
    WithoutPresent(items, k);
    if Snapshots(files, items) { SnapshotsWithout(files, items, k); }
  }

  /** The cache after a read: the entry of a read that reached the end of the file is the
      newest, and any other read leaves none. */
  function Kept(items: seq<Slot>, key: string, r: Reading, final: Stat): seq<Slot> {
    var rest, kept := Without(items, key), Tail(r.cacheData, CACHE_MAX_BYTES);
    if r.position != final.size || kept == [] then rest else Evicted(rest, |kept|) + [Slot(key, Entry(final, kept))]
  }

  class Cache {
    var items: seq<Slot>       // least recently used first
    var bytes: int
    ghost var files: World

    ghost predicate Valid()
      reads this
    {
      && DistinctKeys(items) && Fitting(items)
      && bytes == Held(items) <= CACHE_MAX_BYTES
      && |items| <= CACHE_MAX_ENTRIES
    }

    /** Files have only grown so far: every entry ends a version of its file. */
    ghost predicate Truthful()
      reads this
    {
      Snapshots(files, items)
    }

    constructor (ghost world: World)
      ensures Valid() && Truthful() && items == [] && files == world
    {
      items, bytes, files := [], 0, world;
    }

    /** Log files grow, new ones appear. */
    ghost method Grow(world: World)
      requires Valid() && Truthful() && Grows(files, world)
      modifies this`files
      ensures Valid() && Truthful() && files == world
    {
      SnapshotsStay(files, world, items);
      files := world;
    }

    method Find(key: string) returns (k: Option<nat>)
      ensures k.Some? ==> k.value < |items| && items[k.value].key == key
      ensures k.None? ==> forall i :: 0 <= i < |items| ==> items[i].key != key
    {
      for i := 0 to |items|
        invariant forall j :: 0 <= j < i ==> items[j].key != key
      {
        if items[i].key == key { return Some(i); }
      }
      return None;
    }

    /** OrderedDict.pop with the byte counter. */
    method Pop(key: string)
      requires Valid()
      modifies this`items, this`bytes
      ensures Valid() && (old(Truthful()) ==> Truthful()) && items == Without(old(items), key)
      ensures forall i :: 0 <= i < |items| ==> items[i].key != key
    {
      hide Snapshots, Held, Without, Fitting, DistinctKeys;
      var k := Find(key);
      if k.Some? {
        SlotGone(files, items, k.value);
        bytes := bytes - |items[k.value].entry.data|;
        items := items[..k.value] + items[k.value + 1..];
      } else {
        WithoutAbsent(items, key);
      }
    }

    method CacheDrop(key: string)
      requires Valid()
      modifies this`items, this`bytes
      ensures Valid() && (old(Truthful()) ==> Truthful()) && items == Without(old(items), key)
    {
      Pop(key);
      bytes := if bytes < 0 then 0 else bytes;
    }

    /** Stores the last bytes as the newest entry, evicting the least recently used
        entries, and no more than the limits require. */
    method CachePut(key: string, stat: Stat, data: Bytes)
      requires Valid() && |data| <= stat.size
      modifies this`items, this`bytes
      ensures Valid() && (old(Truthful()) && EndsAt(files, key, stat, data) ==> Truthful())
      ensures var rest, kept := Without(old(items), key), Tail(data, CACHE_MAX_BYTES);
              items == if kept == [] then rest else Evicted(rest, |kept|) + [Slot(key, Entry(stat, kept))]
    {
      var kept := Tail(data, CACHE_MAX_BYTES);
      Pop(key);
      if kept == [] {
        bytes := if bytes < 0 then 0 else bytes;
        return;
      }
      if EndsAt(files, key, stat, data) { SuffixEndsAt(files, key, stat, data, CACHE_MAX_BYTES); }
      hide Snapshots, Held, Without, DistinctKeys, Fitting, Tail;
      Evict(key, |kept|);
      Append(Slot(key, Entry(stat, kept)));
    }

    method Evict(key: string, size: nat)
      requires Valid() && size <= CACHE_MAX_BYTES && forall i :: 0 <= i < |items| ==> items[i].key != key
      modifies this`items, this`bytes
      ensures Valid() && (old(Truthful()) ==> Truthful()) && items == Evicted(old(items), size)
      ensures Held(items) + size <= CACHE_MAX_BYTES && |items| < CACHE_MAX_ENTRIES
      ensures forall i :: 0 <= i < |items| ==> items[i].key != key
    {
      while items != [] && (bytes + size > CACHE_MAX_BYTES || |items| >= CACHE_MAX_ENTRIES)
        invariant Valid() && files == old(files) && (old(Truthful()) ==> Truthful())
        invariant Evicted(items, size) == Evicted(old(items), size)
        invariant forall i :: 0 <= i < |items| ==> items[i].key != key
        decreases |items|
      {
        bytes := bytes - |items[0].entry.data|;
        items := items[1..];
      }
    }

    method Append(slot: Slot)
      requires Valid() && 0 < |slot.entry.data| <= slot.entry.stat.size
      requires Held(items) + |slot.entry.data| <= CACHE_MAX_BYTES && |items| < CACHE_MAX_ENTRIES
      requires forall i :: 0 <= i < |items| ==> items[i].key != slot.key
      modifies this`items, this`bytes
      ensures Valid() && (old(Truthful()) && IsSnapshot(files, slot) ==> Truthful()) && items == old(items) + [slot]
    {
      HeldConcat(items, [slot]);
      SnapshotsConcat(files, items, [slot]);
      items := items + [slot];
      bytes := bytes + |slot.entry.data|;
    }

    /** The locked lookup: a hit moves the entry to the newest end. */
    method Lookup(key: string, now: Stat, limit: nat) returns (hit: Option<Bytes>, cached: Option<Entry>)
      requires Valid() && limit > 0
      modifies this`items, this`bytes
      ensures Valid() && (old(Truthful()) ==> Truthful())
      ensures cached == EntryOf(old(items), key) && (cached.Some? ==> |cached.value.data| <= cached.value.stat.size)
      ensures hit == if Hit(cached, now, limit) then Some(Tail(cached.value.data, limit)) else None
      ensures if hit.Some? then items == Without(old(items), key) + [Slot(key, cached.value)] else items == old(items)
      ensures old(Truthful()) && cached.Some? ==> EndsAt(files, key, cached.value.stat, cached.value.data)
    {
      var k := Find(key);
      if k.None? {
        EntryAbsent(items, key);
        return None, None;
      }
      hide Snapshots, Held, Without, DistinctKeys, EntryOf;
      var slot := items[k.value];
      var entry := slot.entry;
      EntryAt(items, k.value);
      SlotGone(files, items, k.value);
      cached := Some(entry);
      hit := None;
      if Unchanged(entry, now) && |entry.data| >= Min(limit, entry.stat.size) {
        hit := Some(Tail(entry.data, limit));
        Pop(key);
        Append(slot);
      }
    }

    /** All that the call sees belongs to files that only grow. */
    ghost predicate SeesGrowth(path: string, first: Option<View>, atOpen: Option<View>, read: Bytes, final: View)
      reads this
    {
      && (first.Some? ==> Saw(files, path, first.value))
      && (atOpen.Some? ==> Saw(files, path, atOpen.value) && Saw(files, path, final)
                           && IdOf(path, final.stat) == IdOf(path, atOpen.value.stat)
                           && atOpen.value.content <= read <= final.content)
    }

    /** The whole call; `final` is the last fstat.  While files only grow, the answer is
        the tail of a version that the file had during the call. */
    method ReadTail(path: string, maxBytes: int, first: Option<View>, atOpen: Option<View>, read: Bytes, final: View)
      returns (raw: Bytes, ghost version: Bytes)
      requires Valid()
      modifies this`items, this`bytes
      ensures Valid() && Held(items) <= 16777216 && |items| <= 128
      ensures raw == Answer(EntryOf(old(items), path), first, atOpen, read, if maxBytes < 1024 then 1024 else maxBytes)
      ensures old(Truthful()) && SeesGrowth(path, first, atOpen, read, final) && first.Some? ==>
                && Truthful() && raw == Tail(version, if maxBytes < 1024 then 1024 else maxBytes)
                && (version != first.value.content ==>
                      if atOpen.Some? then atOpen.value.content <= version <= read else version == [])
      ensures var cached, limit := EntryOf(old(items), path), if maxBytes < 1024 then 1024 else maxBytes;
              if first.None? then items == old(items)
              else if Hit(cached, first.value.stat, limit) then items == Without(old(items), path) + [Slot(path, cached.value)]
              else if atOpen.None? then items == old(items)
              else items == Kept(old(items), path, ReadFile(cached, atOpen.value.stat, read, limit), final.stat)
    {
      if first.None? { return [], []; }
      var limit: nat := if maxBytes < 1024 then 1024 else maxBytes;
      var hit, cached := Lookup(path, first.value.stat, limit);
      if hit.Some? {
        if old(Truthful()) && SeesGrowth(path, first, atOpen, read, final) {
          HitIsPlainRead(files, path, cached.value, first.value, limit);
          PlainRaw(first.value, limit);
        }
        return hit.value, first.value.content;
      }
      if atOpen.None? { return [], []; }
      hide ReadFile, Snapshots;
      raw, version := Load(path, cached, limit, atOpen.value, read, final);
    }

    /** The read after a miss: unlocked, then stored or dropped under the lock.
        The cache may have changed since the lookup that found `cached`. */
    method Load(path: string, cached: Option<Entry>, limit: nat, atOpen: View, read: Bytes, final: View)
      returns (raw: Bytes, ghost version: Bytes)
      requires Valid() && limit > 0 && (cached.Some? ==> |cached.value.data| <= cached.value.stat.size)
      modifies this`items, this`bytes
      ensures Valid() && raw == ReadFile(cached, atOpen.stat, read, limit).raw
      ensures items == Kept(old(items), path, ReadFile(cached, atOpen.stat, read, limit), final.stat)
      ensures old(Truthful()) && SeesGrowth(path, None, Some(atOpen), read, final)
              && (cached.Some? ==> EndsAt(files, path, cached.value.stat, cached.value.data)) ==>
                Truthful() && raw == Tail(version, limit) && atOpen.content <= version <= read
    {
      hide Snapshots, ReadFile, Tail, DistinctKeys, Fitting, Held;
      var r := ReadFile(cached, atOpen.stat, read, limit);
      KeepsNoMore(cached, atOpen.stat, read, limit);
      version := if r.position <= |read| then read[..r.position] else [];
      if SeesGrowth(path, None, Some(atOpen), read, final) && (cached.Some? ==> EndsAt(files, path, cached.value.stat, cached.value.data)) {
        GrowthIsTail(files, path, cached, atOpen, read, final, limit);
      }
      raw := r.raw;
      if r.position == final.stat.size {
        CachePut(path, final.stat, r.cacheData);
      } else {
        CacheDrop(path);
      }
    }
  }

  lemma GrowthIsTail(files: World, path: string, cached: Option<Entry>, atOpen: View, read: Bytes, final: View, limit: nat)
    requires limit > 0 && Saw(files, path, atOpen) && Saw(files, path, final) && IdOf(path, final.stat) == IdOf(path, atOpen.stat)
    requires atOpen.content <= read <= final.content
    requires cached.Some? ==> EndsAt(files, path, cached.value.stat, cached.value.data)
    ensures var r := ReadFile(cached, atOpen.stat, read, limit);
            && r.position <= |read| && r.raw == Tail(read[..r.position], limit) && atOpen.content <= read[..r.position] <= read
            && (r.position == final.stat.size ==> EndsAt(files, path, final.stat, r.cacheData))
  {
    hide ReadFile, Tail;
    PrefixOf(read, final.content, files[IdOf(path, final.stat)]);
    ReadingIsTail(files, path, cached, atOpen, read, limit);
  }

  lemma KeepsNoMore(cached: Option<Entry>, atOpen: Stat, read: Bytes, limit: nat)
    requires cached.Some? ==> |cached.value.data| <= cached.value.stat.size
    ensures var r := ReadFile(cached, atOpen, read, limit); |r.cacheData| <= r.position
  {
  }
}
