/**
  Recovery snapshots (app/recovery_snapshots.py): inventory, capture, the
  manifest loader, and the verified restore.

  A folder's walk is given as the list of items it yields; the digest, the encoded
  size of a manifest and the pair's fingerprint are given.
*/
module RecoverySnapshots {
  import opened Results
  import Text

  type Bytes = seq<bv8>
  type Hash = Bytes -> string

  const MAX_FILES := 100000
  const MAX_MANIFEST_BYTES := 32 * 1024 * 1024
  const MIB := 1024 * 1024
  const MAX_BYTES := 51200 * 1024 * 1024

  // ---------- safe relative paths ----------

  /** The components of a posix path: empty ones and "." do not count. */
  function Components(s: string): seq<string>
    decreases |s|
  {
    if s == "" then []
    else if s[0] == '/' then Components(s[1..])
    else
      var head := Text.Before(s, '/');
      (if head == "." then [] else [head]) + Components(s[|head|..])
  }

  function Joined(parts: seq<string>): string {
    if parts == [] then "" else if |parts| == 1 then parts[0] else parts[0] + "/" + Joined(parts[1..])
  }

  predicate Plain(s: string) {
    forall i :: 0 <= i < |s| ==> ' ' <= s[i] && s[i] != '\\' && s[i] != ':'
  }

  /** `_relative`: the normalized path, or None when it is not safe. */
  function Relative(value: string): Option<string> {
    if value == "" || |value| > 1024 || value[0] == '/' || ".." in Components(value) || !Plain(value) then None
    else if Components(value) == [] then Some(".")
    else Some(Joined(Components(value)))
  }

  predicate IsComponent(s: string) {
    s != "" && s != "." && '/' !in s
  }

  ghost predicate AllComponents(parts: seq<string>) {
    forall i :: 0 <= i < |parts| ==> IsComponent(parts[i])
  }

  lemma {:induction false} ComponentsShape(s: string)
    ensures AllComponents(Components(s))
    decreases |s|
  {
    if s != "" {
      if s[0] == '/' { ComponentsShape(s[1..]); }
      else {
        var head := Text.Before(s, '/');
        assert head != "";
        ComponentsShape(s[|head|..]);
      }
    }
  }

  lemma BeforeSlash(head: string, tail: string)
    requires '/' !in head && (tail == "" || tail[0] == '/')
    ensures Text.Before(head + tail, '/') == head
  {
    Text.BeforeHead(head, tail, '/');
  }

  lemma OneComponent(head: string, tail: string)
    requires IsComponent(head) && (tail == "" || tail[0] == '/')
    ensures Components(head + tail) == [head] + Components(tail)
  {
    BeforeSlash(head, tail);
    assert (head + tail)[0] == head[0];
    assert (head + tail)[|head|..] == tail;
  }

  lemma {:induction false} ComponentsOfJoined(parts: seq<string>)
    requires AllComponents(parts)
    ensures Components(Joined(parts)) == parts
  {
    hide Components, IsComponent;
    if parts == [] {
      assert Components("") == [] by { NoComponents(); }
    } else if |parts| == 1 {
      OneComponent(parts[0], "");
      NoComponents();
      assert parts[0] + "" == parts[0];
    } else {
      var tail := "/" + Joined(parts[1..]);
      ComponentsOfJoined(parts[1..]);
      SlashSkipped(Joined(parts[1..]));
      OneComponent(parts[0], tail);
      assert parts[0] + "/" + Joined(parts[1..]) == parts[0] + tail;
    }
  }

  lemma NoComponents()
    ensures Components("") == []
  {
  }

  lemma SlashSkipped(s: string)
    ensures Components("/" + s) == Components(s)
  {
    assert ("/" + s)[1..] == s;
  }

  lemma {:induction false} JoinedIsPlain(parts: seq<string>)
    requires forall i :: 0 <= i < |parts| ==> Plain(parts[i])
    ensures Plain(Joined(parts))
  {
    if |parts| > 1 { JoinedIsPlain(parts[1..]); }
  }

  lemma {:induction false} ComponentsPlain(s: string)
    requires Plain(s)
    ensures forall i :: 0 <= i < |Components(s)| ==> Plain(Components(s)[i])
    decreases |s|
  {
    if s != "" {
      if s[0] == '/' { ComponentsPlain(s[1..]); }
      else { ComponentsPlain(s[|Text.Before(s, '/')|..]); }
    }
  }

  lemma {:induction false} JoinedNotLonger(s: string)
    ensures |Joined(Components(s))| <= |s|
    decreases |s|
  {
    if s != "" {
      if s[0] == '/' {
        JoinedNotLonger(s[1..]);
      } else {
        var head := Text.Before(s, '/');
        var rest := s[|head|..];
        JoinedNotLonger(rest);
        if rest != "" { JoinedNotLonger(rest[1..]); }
        ConsLength(if head == "." then [] else [head], Components(rest));
      }
    }
  }

  lemma ConsLength(head: seq<string>, tail: seq<string>)
    requires |head| <= 1
    ensures |Joined(head + tail)| <= |Joined(tail)| + (if head == [] then 0 else |head[0]| + if tail == [] then 0 else 1)
  {
    if head == [] { assert head + tail == tail; }
    else if tail == [] { assert head + tail == head; }
    else { assert (head + tail)[1..] == tail; }
  }

  lemma JoinedStart(parts: seq<string>)
    requires parts != [] && AllComponents(parts)
    ensures Joined(parts) != "" && Joined(parts)[0] != '/'
  {
    assert IsComponent(parts[0]);
    assert parts[0][0] in parts[0];
    if |parts| > 1 { assert Joined(parts)[0] == parts[0][0]; }
  }

  /** A normalized path is safe, and normalizing it again changes nothing. */
  lemma RelativeIsStable(value: string)
    requires Relative(value).Some?
    ensures Relative(Relative(value).value) == Relative(value)
  {
    var parts := Components(value);
    ComponentsShape(value);
    if parts == [] {
      var dot := ".";
      assert Text.Before(dot, '/') == dot by { BeforeSlash(dot, ""); assert dot + "" == dot; }
      assert dot[1..] == "" && Components(dot) == [] + Components("");
    } else {
      hide Components, Joined, IsComponent, Plain;
      ComponentsOfJoined(parts);
      ComponentsPlain(value);
      JoinedIsPlain(parts);
      JoinedNotLonger(value);
      JoinedStart(parts);
    }
  }

  /** A component of the path from position k on is two dots, at position i. */
  predicate UpAt(value: string, i: int, k: nat) {
    && k <= i && i + 2 <= |value| && value[i] == '.' && value[i + 1] == '.'
    && (i == k || value[i - 1] == '/') && (i + 2 == |value| || value[i + 2] == '/')
  }

  ghost predicate GoesUp(value: string, k: nat) {
    exists i :: UpAt(value, i, k)
  }

  lemma {:induction false} UpInComponents(value: string, k: nat)
    requires k <= |value|
    ensures ".." in Components(value[k..]) <==> GoesUp(value, k)
    decreases |value| - k
  {
    hide GoesUp;
    var s := value[k..];
    if s == "" {
      NothingUp(value, k);
    } else if value[k] == '/' {
      assert s[1..] == value[k + 1..];
      UpInComponents(value, k + 1);
      UpAfterSlash(value, k);
    } else {
      var n := |Text.Before(s, '/')|;
      assert s[n..] == value[k + n..] && s[..n] == value[k..k + n];
      UpInComponents(value, k + n);
      UpAfterHead(value, k, n);
      ComponentsSplit(s);
    }
  }

  lemma ComponentsSplit(s: string)
    requires s != "" && s[0] != '/'
    ensures var head := Text.Before(s, '/'); ".." in Components(s) <==> head == ".." || ".." in Components(s[|head|..])
  {
  }

  lemma NothingUp(value: string, k: nat)
    requires k == |value|
    ensures !GoesUp(value, k)
  {
  }

  lemma UpAfterSlash(value: string, k: nat)
    requires k < |value| && value[k] == '/'
    ensures GoesUp(value, k) <==> GoesUp(value, k + 1)
  {
    if i :| UpAt(value, i, k) { assert UpAt(value, i, k + 1); }
    var next := k + 1;
    if i :| UpAt(value, i, next) { assert UpAt(value, i, k); }
  }

  lemma UpAfterHead(value: string, k: nat, n: nat)
    requires 0 < n && k + n <= |value| && (k + n < |value| ==> value[k + n] == '/') && '/' !in value[k..k + n]
    ensures GoesUp(value, k) <==> value[k..k + n] == ".." || GoesUp(value, k + n)
  {
    assert forall j :: k <= j < k + n ==> value[j] == value[k..k + n][j - k] && value[j] != '/';
    if i :| UpAt(value, i, k) {
      if i == k {
        assert n == 2 && value[k..k + n] == "..";
      } else {
        assert UpAt(value, i, k + n);
      }
    }
    if value[k..k + n] == ".." { assert UpAt(value, k, k); }
    var next := k + n;
    if i :| UpAt(value, i, next) { assert i > next && UpAt(value, i, k); }
  }

  /** A path is refused exactly when it is empty, longer than 1024, rooted, goes up anywhere,
      or has a control character, a backslash or a colon. */
  lemma RelativeExactly(value: string)
    ensures Relative(value).None?
       <==> || value == "" || |value| > 1024 || value[0] == '/' || GoesUp(value, 0)
            || exists i :: 0 <= i < |value| && (value[i] as int < 32 || value[i] == '\\' || value[i] == ':')
  {
    hide Components, Joined;
    UpInComponents(value, 0);
    assert value[0..] == value;
    hide GoesUp;
  }

  // ---------- inventory ----------

  datatype Item =
    | File(path: string, content: Bytes, modified: int, changes: bool)
    | Folder(path: string)
    | Link(path: string)
    | Special(path: string)

  datatype Info = Info(size: nat, modified: int, sha: string)

  datatype Inventory = Inventory(files: map<string, Info>, directories: seq<string>)

  datatype Error = UnsafePath | HasLink | HasSpecial | TooMany | Changed | Incomplete | Moved | TooLarge | NoSpace

  datatype Progress = Progress(inventory: Inventory, total: nat)

  predicate Full(p: Progress, limit: nat) {
    |p.inventory.files| + |p.inventory.directories| > MAX_FILES || p.total > limit
  }

  /** One item of the walk. */
  function Seen(hash: Hash, limit: nat, p: Progress, item: Item): Result<Progress, Error> {
    if item.Link? then Err(HasLink)
    else if Relative(item.path).None? then Err(UnsafePath)
    else
      var path, inv := Relative(item.path).value, p.inventory;
      match item
      case Folder(_) =>
        var next := Progress(inv.(directories := inv.directories + [path]), p.total);
        if Full(next, limit) then Err(TooMany) else Ok(next)
      case File(_, content, modified, changes) =>
        if |inv.files| + |inv.directories| >= MAX_FILES || p.total + |content| > limit then Err(TooMany)
        else if changes then Err(Changed)
        else
          var next := Progress(inv.(files := inv.files[path := Info(|content|, modified, hash(content))]), p.total + |content|);
          if Full(next, limit) then Err(TooMany) else Ok(next)
      case _ => Err(HasSpecial)
  }

  function Listed(hash: Hash, limit: nat, items: seq<Item>): Result<Progress, Error> {
    if items == [] then Ok(Progress(Inventory(map[], []), 0))
    else
      match Listed(hash, limit, items[..|items| - 1])
      case Err(e) => Err(e)
      case Ok(p) => Seen(hash, limit, p, items[|items| - 1])
  }

  method InventoryLocal(hash: Hash, limit: nat, items: seq<Item>) returns (r: Result<Inventory, Error>)
    ensures match Listed(hash, limit, items)
            case Err(e) => r == Err(e)
            case Ok(p) => r == Ok(p.inventory)
  {
    hide Seen;
    var p := Progress(Inventory(map[], []), 0);
    assert items[..0] == [];
    for i := 0 to |items|
      invariant Listed(hash, limit, items[..i]) == Ok(p)
    {
      assert items[..i + 1][..i] == items[..i];
      var next := Seen(hash, limit, p, items[i]);
      if next.Err? {
        FailsOn(hash, limit, items, i + 1);
        return Err(next.error);
      }
      p := next.value;
    }
    assert items[..|items|] == items;
    return Ok(p.inventory);
  }

  lemma {:induction false} FailsOn(hash: Hash, limit: nat, items: seq<Item>, i: nat)
    requires i <= |items| && Listed(hash, limit, items[..i]).Err?
    ensures Listed(hash, limit, items) == Listed(hash, limit, items[..i])
    decreases |items|
  {
    hide Seen;
    if i == |items| {
      assert items[..i] == items;
    } else {
      var front := items[..|items| - 1];
      assert front[..i] == items[..i];
      FailsOn(hash, limit, front, i);
    }
  }

  /** What the walk of a folder with these files yields, apart from the order and the folders. */
  ghost predicate Shows(items: seq<Item>, data: map<string, Bytes>) {
    && (forall i :: 0 <= i < |items| && items[i].File? ==> items[i].path in data && data[items[i].path] == items[i].content)
    && (forall p :: p in data ==> exists i :: 0 <= i < |items| && items[i].File? && items[i].path == p)
  }

  /** Normalized safe paths. */
  ghost predicate SafePaths(inv: Inventory) {
    && (forall path :: path in inv.files ==> Relative(path) == Some(path))
    && (forall i :: 0 <= i < |inv.directories| ==> Relative(inv.directories[i]) == Some(inv.directories[i]))
  }

  ghost predicate FromItem(hash: Hash, items: seq<Item>, path: string, info: Info) {
    exists i :: 0 <= i < |items| && items[i].File? && Relative(items[i].path) == Some(path)
      && info == Info(|items[i].content|, items[i].modified, hash(items[i].content))
  }

  /** Every entry is some file of the walk. */
  ghost predicate FromWalk(hash: Hash, items: seq<Item>, files: map<string, Info>) {
    forall path :: path in files ==> FromItem(hash, items, path, files[path])
  }

  predicate Entered(item: Item, files: map<string, Info>) {
    item.File? ==> Relative(item.path).Some? && Relative(item.path).value in files
  }

  /** Every file of the walk has an entry. */
  ghost predicate AllEntered(items: seq<Item>, files: map<string, Info>) {
    forall i :: 0 <= i < |items| ==> Entered(items[i], files)
  }

  lemma FromMore(hash: Hash, items: seq<Item>, item: Item, path: string, info: Info)
    requires FromItem(hash, items, path, info)
    ensures FromItem(hash, items + [item], path, info)
  {
    hide Relative;
    var i :| 0 <= i < |items| && items[i].File? && Relative(items[i].path) == Some(path)
             && info == Info(|items[i].content|, items[i].modified, hash(items[i].content));
    assert (items + [item])[i] == items[i];
  }

  lemma SeenSafe(hash: Hash, limit: nat, p: Progress, item: Item)
    requires SafePaths(p.inventory) && Seen(hash, limit, p, item).Ok?
    ensures SafePaths(Seen(hash, limit, p, item).value.inventory) && !Full(Seen(hash, limit, p, item).value, limit)
  {
    hide Relative, Full;
    assert Relative(item.path).Some?;
    RelativeIsStable(item.path);
  }

  /** What seeing an item does to the entries. */
  lemma SeenFiles(hash: Hash, limit: nat, p: Progress, item: Item)
    requires Seen(hash, limit, p, item).Ok?
    ensures var next := Seen(hash, limit, p, item).value;
            if item.File? then
              && Relative(item.path).Some? && next.total == p.total + |item.content|
              && next.inventory.files == p.inventory.files[Relative(item.path).value := Info(|item.content|, item.modified, hash(item.content))]
            else next.inventory.files == p.inventory.files && next.total == p.total
  {
    hide Relative;
  }

  lemma SeenFrom(hash: Hash, limit: nat, items: seq<Item>, p: Progress, item: Item)
    requires FromWalk(hash, items, p.inventory.files) && AllEntered(items, p.inventory.files) && Seen(hash, limit, p, item).Ok?
    ensures FromWalk(hash, items + [item], Seen(hash, limit, p, item).value.inventory.files)
    ensures AllEntered(items + [item], Seen(hash, limit, p, item).value.inventory.files)
  {
    SeenFiles(hash, limit, p, item);
    hide Relative, Seen;
    var more, files := items + [item], Seen(hash, limit, p, item).value.inventory.files;
    assert more[|items|] == item;
    forall path | path in files ensures FromItem(hash, more, path, files[path]) {
      if item.File? && Relative(item.path) == Some(path) {
        assert files[path] == Info(|item.content|, item.modified, hash(item.content));
      } else {
        FromMore(hash, items, item, path, files[path]);
      }
    }
    forall i | 0 <= i < |more| ensures Entered(more[i], files) {
      if i < |items| { assert Entered(items[i], p.inventory.files) && more[i] == items[i]; }
    }
  }

  /** What every inventory holds: safe normalized paths, exactly the walk's files
      with their own sizes and digests, and the limits. */
  lemma {:induction false} ListedSound(hash: Hash, limit: nat, items: seq<Item>)
    requires Listed(hash, limit, items).Ok?
    ensures var p := Listed(hash, limit, items).value;
            && SafePaths(p.inventory) && !Full(p, limit)
            && FromWalk(hash, items, p.inventory.files) && AllEntered(items, p.inventory.files)
  {
    hide Seen, SafePaths, FromWalk, AllEntered, Full;
    if items == [] {
      NothingSound(hash, limit);
    } else {
      var front := items[..|items| - 1];
      ListedSound(hash, limit, front);
      var p := Listed(hash, limit, front).value;
      SeenSafe(hash, limit, p, items[|items| - 1]);
      SeenFrom(hash, limit, front, p, items[|items| - 1]);
      assert items == front + [items[|items| - 1]];
    }
  }

  lemma NothingSound(hash: Hash, limit: nat)
    ensures var p := Progress(Inventory(map[], []), 0);
            SafePaths(p.inventory) && !Full(p, limit) && FromWalk(hash, [], p.inventory.files) && AllEntered([], p.inventory.files)
  {
  }

  /** A larger limit does not change an inventory that fits the smaller one. */
  lemma {:induction false} LargerLimit(hash: Hash, limit: nat, larger: nat, items: seq<Item>)
    requires limit <= larger && Listed(hash, limit, items).Ok?
    ensures Listed(hash, larger, items) == Listed(hash, limit, items)
  {
    hide Relative;
    if items != [] { LargerLimit(hash, limit, larger, items[..|items| - 1]); }
  }

  /** A regular file that stands still, or a folder, under a safe path. */
  predicate Admissible(item: Item) {
    ((item.File? && !item.changes) || item.Folder?) && Relative(item.path).Some?
  }

  ghost predicate AllAdmissible(items: seq<Item>) {
    forall i :: 0 <= i < |items| ==> Admissible(items[i])
  }

  function Sizes(items: seq<Item>): nat {
    if items == [] then 0
    else Sizes(items[..|items| - 1]) + if items[|items| - 1].File? then |items[|items| - 1].content| else 0
  }

  /** No two files of the walk have the same normalized path. */
  ghost predicate DistinctFiles(items: seq<Item>) {
    forall i, j :: 0 <= i < j < |items| && items[i].File? && items[j].File? ==> Relative(items[i].path) != Relative(items[j].path)
  }

  lemma NewPath(hash: Hash, items: seq<Item>, item: Item, files: map<string, Info>)
    requires FromWalk(hash, items, files) && DistinctFiles(items + [item]) && item.File? && Relative(item.path).Some?
    ensures Relative(item.path).value !in files
  {
    hide Relative, DistinctFiles;
    var path := Relative(item.path).value;
    OthersDiffer(items, item);
    assert path in files ==> FromItem(hash, items, path, files[path]);
  }

  lemma OthersDiffer(items: seq<Item>, item: Item)
    requires DistinctFiles(items + [item]) && item.File?
    ensures forall i :: 0 <= i < |items| && items[i].File? ==> Relative(items[i].path) != Relative(item.path)
  {
    hide Relative;
    var more := items + [item];
    assert more[|items|] == item && forall i :: 0 <= i < |items| ==> more[i] == items[i];
  }

  lemma SeenExactly(hash: Hash, limit: nat, p: Progress, item: Item)
    requires item.File? && Relative(item.path).Some? ==> Relative(item.path).value !in p.inventory.files
    requires !Full(p, limit)
    ensures var count := |p.inventory.files| + |p.inventory.directories|;
            var added := if item.File? then |item.content| else 0;
            && (Seen(hash, limit, p, item).Ok? <==> Admissible(item) && count + 1 <= 100000 && p.total + added <= limit)
            && (Seen(hash, limit, p, item).Ok? ==>
                  var next := Seen(hash, limit, p, item).value;
                  |next.inventory.files| + |next.inventory.directories| == count + 1 && next.total == p.total + added)
  {
    hide Relative;
  }

  lemma AdmissibleLast(items: seq<Item>, item: Item)
    ensures AllAdmissible(items + [item]) <==> AllAdmissible(items) && Admissible(item)
  {
    hide Admissible;
    var more := items + [item];
    assert more[|items|] == item && forall i :: 0 <= i < |items| ==> more[i] == items[i];
  }

  /** A walk is inventoried exactly when it shows nothing but folders and regular files that
      do not change while they are read, under safe paths, at most 100000 of them, and no more
      bytes than the limit. */
  lemma {:induction false} ListedExactly(hash: Hash, limit: nat, items: seq<Item>)
    requires DistinctFiles(items)
    ensures Listed(hash, limit, items).Ok? <==> AllAdmissible(items) && |items| <= 100000 && Sizes(items) <= limit
    ensures Listed(hash, limit, items).Ok? ==>
              var p := Listed(hash, limit, items).value;
              && |p.inventory.files| + |p.inventory.directories| == |items| && p.total == Sizes(items)
              && FromWalk(hash, items, p.inventory.files)
  {
    if items != [] {
      hide Relative, Admissible, AllAdmissible, FromWalk, Full, Seen;
      var front, item := items[..|items| - 1], items[|items| - 1];
      assert items == front + [item];
      assert DistinctFiles(front) by { assert forall i :: 0 <= i < |front| ==> front[i] == items[i]; }
      ListedExactly(hash, limit, front);
      AdmissibleLast(front, item);
      if Listed(hash, limit, front).Ok? {
        var p := Listed(hash, limit, front).value;
        NotFull(hash, limit, front);
        if item.File? && Relative(item.path).Some? { NewPath(hash, front, item, p.inventory.files); }
        SeenExactly(hash, limit, p, item);
        if Seen(hash, limit, p, item).Ok? { StillFromWalk(hash, limit, front, p, item); }
      }
    }
  }

  lemma NotFull(hash: Hash, limit: nat, items: seq<Item>)
    requires Listed(hash, limit, items).Ok?
    ensures !Full(Listed(hash, limit, items).value, limit)
  {
    ListedSound(hash, limit, items);
  }

  lemma StillFromWalk(hash: Hash, limit: nat, items: seq<Item>, p: Progress, item: Item)
    requires FromWalk(hash, items, p.inventory.files) && Listed(hash, limit, items) == Ok(p) && Seen(hash, limit, p, item).Ok?
    ensures FromWalk(hash, items + [item], Seen(hash, limit, p, item).value.inventory.files)
  {
    hide Seen, Relative;
    ListedSound(hash, limit, items);
    SeenFrom(hash, limit, items, p, item);
  }

  // ---------- totals ----------

  function SumSizes(files: map<string, Info>, order: seq<string>): nat {
    if order == [] then 0
    else SumSizes(files, order[..|order| - 1]) + if order[|order| - 1] in files then files[order[|order| - 1]].size else 0
  }

  /** Every key once. */
  ghost predicate Lists(order: seq<string>, keys: set<string>) {
    && (forall i, j :: 0 <= i < j < |order| ==> order[i] != order[j])
    && forall k :: k in keys <==> k in order
  }

  lemma {:induction false} SumDepends(a: map<string, Info>, b: map<string, Info>, order: seq<string>)
    requires forall k :: k in order ==> k in a && k in b && a[k].size == b[k].size
    ensures SumSizes(a, order) == SumSizes(b, order)
  {
    if order != [] {
      assert order == order[..|order| - 1] + [order[|order| - 1]];
      SumDepends(a, b, order[..|order| - 1]);
    }
  }

  // ---------- capture ----------

  datatype Entry = Entry(path: string, size: nat, sha: string)

  datatype Manifest = Manifest(
    id: string, fingerprint: string, complete: bool, totalBytes: nat, files: nat, directories: seq<string>, entries: seq<Entry>)

  type Encoded = Manifest -> nat

  function EntriesOf(files: map<string, Info>, order: seq<string>): seq<Entry>
    requires forall k :: k in order ==> k in files
  {
    seq(|order|, i requires 0 <= i < |order| => Entry(order[i], files[order[i]].size, files[order[i]].sha))
  }

  /** The three inventories agree: nothing moved while it was copied. */
  predicate Agree(before: Inventory, captured: Inventory, after: Inventory) {
    && captured.files.Keys == before.files.Keys
    && (forall p :: p in before.files ==> captured.files[p].size == before.files[p].size)
    && before == after
    && (forall d :: d in before.directories ==> d in captured.directories)
  }

  /** `capture_snapshot` from the inventories of the target before, of the copy, and
      of the target after; `order` are the sorted paths. */
  method CaptureSnapshot(before: Inventory, captured: Inventory, after: Inventory, order: seq<string>, id: string, fingerprint: string,
                         encoded: Encoded) returns (r: Result<Manifest, Error>)
    requires Lists(order, captured.files.Keys)
    ensures r.Err? || Agree(before, captured, after)
    ensures r.Ok? ==>
              && before == after && captured.files.Keys == before.files.Keys
              && (forall p :: p in before.files ==> captured.files[p].size == before.files[p].size)
              && (forall d :: d in before.directories ==> d in captured.directories)
    ensures Agree(before, captured, after) ==>
              var m := ManifestOf(before, captured, order, id, fingerprint);
              if encoded(m) <= MAX_MANIFEST_BYTES then r == Ok(m) else r == Err(TooLarge)
  {
    hide SumSizes;
    if captured.files.Keys != before.files.Keys || exists p :: p in before.files && captured.files[p].size != before.files[p].size {
      return Err(Incomplete);
    }
    if before != after { return Err(Moved); }
    if exists d :: d in before.directories && d !in captured.directories { return Err(Incomplete); }
    var required := Required(before, order);
    var entries := Entries(captured, order);
    var manifest := Manifest(id, fingerprint, true, required, |order|, captured.directories, entries);
    if encoded(manifest) > MAX_MANIFEST_BYTES { return Err(TooLarge); }
    return Ok(manifest);
  }

  function ManifestOf(before: Inventory, captured: Inventory, order: seq<string>, id: string, fingerprint: string): Manifest
    requires forall k :: k in order ==> k in captured.files
  {
    Manifest(id, fingerprint, true, SumSizes(before.files, order), |order|, captured.directories, EntriesOf(captured.files, order))
  }

  method Required(before: Inventory, order: seq<string>) returns (required: nat)
    requires forall k :: k in order ==> k in before.files
    ensures required == SumSizes(before.files, order)
  {
    required := 0;
    assert order[..0] == [];
    for i := 0 to |order|
      invariant required == SumSizes(before.files, order[..i])
    {
      assert order[..i + 1][..i] == order[..i];
      assert order[i] in order;
      required := required + before.files[order[i]].size;
    }
    assert order[..|order|] == order;
  }

  method Entries(captured: Inventory, order: seq<string>) returns (entries: seq<Entry>)
    requires forall k :: k in order ==> k in captured.files
    ensures entries == EntriesOf(captured.files, order)
  {
    entries := [];
    for i := 0 to |order|
      invariant |entries| == i
      invariant forall k :: 0 <= k < i ==> entries[k] == Entry(order[k], captured.files[order[k]].size, captured.files[order[k]].sha)
    {
      assert order[i] in order;
      entries := entries + [Entry(order[i], captured.files[order[i]].size, captured.files[order[i]].sha)];
    }
  }

  type Folder = map<string, Bytes>

  /** What copying one file of the target finds; `stays`: nothing changed while it was read. */
  datatype Reading = Reading(content: Bytes, modified: int, stays: bool)

  type Target = map<string, Reading>

  const RESERVE := 64 * MIB

  /** `_copy_verified_file` succeeds. */
  predicate CopiesWell(hash: Hash, info: Info, r: Reading) {
    r.stays && |r.content| == info.size && r.modified == info.modified && hash(r.content) == info.sha
  }

  predicate AllCopyWell(hash: Hash, files: map<string, Info>, target: Target) {
    forall p :: p in files ==> p in target && CopiesWell(hash, files[p], target[p])
  }

  function Contents(files: map<string, Info>, target: Target): Folder {
    map p | p in files && p in target :: target[p].content
  }

  method CopyFiles(hash: Hash, files: map<string, Info>, target: Target) returns (r: Option<Folder>)
    ensures r == if AllCopyWell(hash, files, target) then Some(Contents(files, target)) else None
    ensures r.Some? <==> forall p :: p in files ==>
              && p in target && target[p].stays && target[p].modified == files[p].modified
              && |target[p].content| == files[p].size && hash(target[p].content) == files[p].sha
  {
    var data: Folder := map[];
    var rest := files.Keys;
    while rest != {}
      invariant rest <= files.Keys && data.Keys == files.Keys - rest
      invariant forall p :: p in data ==> p in target && CopiesWell(hash, files[p], target[p]) && data[p] == target[p].content
      decreases rest
    {
      var p :| p in rest;
      if p !in target || !CopiesWell(hash, files[p], target[p]) { return None; }
      data := data[p := target[p].content];
      rest := rest - {p};
    }
    assert data == Contents(files, target);
    return Some(data);
  }

  function InventoryOf(hash: Hash, limit: nat, items: seq<Item>): Inventory
    requires Listed(hash, limit, items).Ok?
  {
    Listed(hash, limit, items).value.inventory
  }

  /** Enough room, every file copied intact, and the three inventories agree. */
  ghost predicate Capturable(hash: Hash, limit: nat, first: seq<Item>, target: Target, free: nat, walk: Folder -> seq<Item>,
                             last: seq<Item>, order: seq<string>) {
    && Listed(hash, limit, first).Ok? && Lists(order, InventoryOf(hash, limit, first).files.Keys)
    && var before := InventoryOf(hash, limit, first);
       && free >= SumSizes(before.files, order) + 67108864
       && AllCopyWell(hash, before.files, target)
       && var copy := walk(Contents(before.files, target));
          && Listed(hash, limit, copy).Ok? && Listed(hash, limit, last).Ok?
          && Agree(before, InventoryOf(hash, limit, copy), InventoryOf(hash, limit, last))
  }

  /** The capture of a local target: `first` and `last` are its walks before and after the
      copying, `target` what the copying reads, `walk` what walking a folder yields. */
  method CaptureLocal(hash: Hash, limit: nat, first: seq<Item>, target: Target, free: nat, walk: Folder -> seq<Item>, last: seq<Item>,
                      order: seq<string>, id: string, fingerprint: string, encoded: Encoded)
    returns (r: Result<Manifest, Error>, data: Folder)
    requires Listed(hash, limit, first).Ok? ==> Lists(order, InventoryOf(hash, limit, first).files.Keys)
    ensures r.Ok? ==> Capturable(hash, limit, first, target, free, walk, last, order)
    ensures Capturable(hash, limit, first, target, free, walk, last, order) ==>
              var before := InventoryOf(hash, limit, first);
              && data == Contents(before.files, target)
              && var m := ManifestOf(before, InventoryOf(hash, limit, walk(data)), order, id, fingerprint);
                 if encoded(m) <= MAX_MANIFEST_BYTES then r == Ok(m) else r == Err(TooLarge)
  {
    hide Listed, SumSizes, AllCopyWell, ManifestOf;
    data := map[];
    var before := InventoryLocal(hash, limit, first);
    if before.Err? { return Err(before.error), data; }
    var required := Required(before.value, order);
    if free < required + RESERVE { return Err(NoSpace), data; }
    var copied := CopyFiles(hash, before.value.files, target);
    if copied.None? { return Err(Changed), data; }
    data := copied.value;
    var captured := InventoryLocal(hash, limit, walk(data));
    if captured.Err? { return Err(captured.error), data; }
    if captured.value.files.Keys != before.value.files.Keys { return Err(Incomplete), data; }
    var after := InventoryLocal(hash, limit, last);
    if after.Err? { return Err(after.error), data; }
    r := CaptureSnapshot(before.value, captured.value, after.value, order, id, fingerprint, encoded);
  }

  // ---------- the loader ----------

  predicate IsHex(c: char) {
    '0' <= c <= '9' || 'a' <= c <= 'f'
  }

  predicate IsDigest(s: string) {
    |s| == 64 && forall i :: 0 <= i < 64 ==> IsHex(s[i])
  }

  function TotalOf(entries: seq<Entry>): nat {
    if entries == [] then 0 else TotalOf(entries[..|entries| - 1]) + entries[|entries| - 1].size
  }

  /** What the loader demands of a manifest file. */
  ghost predicate Accepted(m: Manifest, bytes: nat, id: string, fingerprint: string) {
    && bytes <= MAX_MANIFEST_BYTES && m.id == id && m.fingerprint == fingerprint && m.complete
    && |m.entries| + |m.directories| <= MAX_FILES
    && Uniquely(m.entries)
    && (forall i :: 0 <= i < |m.directories| ==> Relative(m.directories[i]).Some?)
    && TotalOf(m.entries) == m.totalBytes <= MAX_BYTES && |m.entries| == m.files
  }

  datatype LoadError = TooBig | NotThisPair | Damaged | Unsafe | Unfinished

  predicate Valid(e: Entry) {
    Relative(e.path).Some? && IsDigest(e.sha)
  }

  ghost predicate Uniquely(entries: seq<Entry>) {
    && (forall i :: 0 <= i < |entries| ==> Valid(entries[i]))
    && (forall i, j :: 0 <= i < j < |entries| ==> Relative(entries[i].path) != Relative(entries[j].path))
  }

  /** `load_manifest` on a file that exists and parses. */
  method LoadManifest(m: Manifest, bytes: nat, id: string, fingerprint: string) returns (r: Result<Manifest, LoadError>)
    ensures r.Ok? <==> Accepted(m, bytes, id, fingerprint)
    ensures r.Ok? ==> r.value == m
    ensures r.Ok? ==>
              && m.id == id && m.fingerprint == fingerprint && m.complete && bytes <= 33554432
              && |m.entries| == m.files && |m.entries| + |m.directories| <= 100000 && m.totalBytes <= 53687091200
              && (forall e :: e in m.entries ==> Relative(e.path).Some? && |e.sha| == 64)
              && (forall d :: d in m.directories ==> Relative(d).Some?)
  {
    hide Relative, IsHex, TotalOf;
    if bytes > MAX_MANIFEST_BYTES { return Err(TooBig); }
    if m.id != id || m.fingerprint != fingerprint || !m.complete { return Err(NotThisPair); }
    if |m.entries| > MAX_FILES { return Err(Damaged); }
    var checked := CheckEntries(m.entries);
    if checked.Err? { return Err(checked.error); }
    if |m.directories| + |m.entries| > MAX_FILES { return Err(Damaged); }
    for i := 0 to |m.directories|
      invariant forall k :: 0 <= k < i ==> Relative(m.directories[k]).Some?
    {
      if Relative(m.directories[i]).None? { return Err(Unsafe); }
    }
    if checked.value > MAX_BYTES || checked.value != m.totalBytes || |m.entries| != m.files { return Err(Unfinished); }
    return Ok(m);
  }

  method CheckEntries(entries: seq<Entry>) returns (r: Result<nat, LoadError>)
    ensures r.Ok? <==> Uniquely(entries)
    ensures r.Ok? ==> r.value == TotalOf(entries)
  {
    hide Relative, IsDigest;
    var total, paths := 0, {};
    for i := 0 to |entries|
      invariant total == TotalOf(entries[..i]) && Uniquely(entries[..i])
      invariant forall p :: p in paths <==> PathIn(entries[..i], p)
    {
      var relative := Relative(entries[i].path);
      assert entries[..i + 1][..i] == entries[..i];
      UniqueStep(entries, i);
      if relative.None? { return Err(Unsafe); }
      if relative.value in paths || !IsDigest(entries[i].sha) { return Err(Damaged); }
      total := total + entries[i].size;
      paths := paths + {relative.value};
    }
    assert entries[..|entries|] == entries;
    return Ok(total);
  }

  ghost predicate PathIn(entries: seq<Entry>, p: string) {
    exists k :: 0 <= k < |entries| && Relative(entries[k].path) == Some(p)
  }

  /** One more entry is unique when its path is new; a bad one spoils the whole list. */
  lemma UniqueStep(entries: seq<Entry>, i: nat)
    requires i < |entries| && Uniquely(entries[..i])
    ensures var good := Valid(entries[i]) && !PathIn(entries[..i], Relative(entries[i].path).value);
            (Uniquely(entries[..i + 1]) <==> good) && (Uniquely(entries) ==> good)
    ensures Relative(entries[i].path).Some? ==>
              forall p :: PathIn(entries[..i + 1], p) <==> PathIn(entries[..i], p) || p == Relative(entries[i].path).value
  {
    hide Relative, IsDigest;
    var front, more := entries[..i], entries[..i + 1];
    assert more == front + [entries[i]];
    PathStep(front, entries[i]);
    if Valid(entries[i]) && PathIn(front, Relative(entries[i].path).value) {
      var k :| 0 <= k < i && Relative(front[k].path) == Relative(entries[i].path);
      assert entries[k] == front[k] && more[k] == front[k] && more[i] == entries[i];
    }
    if Uniquely(more) { assert Valid(more[i]); }
    if Valid(entries[i]) && !PathIn(front, Relative(entries[i].path).value) {
      forall k | 0 <= k < i ensures Relative(more[k].path) != Relative(more[i].path) {
        assert more[k] == front[k] && Valid(front[k]);
      }
    }
  }

  lemma PathStep(front: seq<Entry>, e: Entry)
    ensures Relative(e.path).Some? ==> forall p :: PathIn(front + [e], p) <==> PathIn(front, p) || p == Relative(e.path).value
  {
    hide Relative;
    var more := front + [e];
    forall p ensures PathIn(more, p) <==> PathIn(front, p) || Relative(e.path) == Some(p) {
      if PathIn(front, p) {
        var k :| 0 <= k < |front| && Relative(front[k].path) == Some(p);
        assert more[k] == front[k];
      }
      if PathIn(more, p) {
        var k :| 0 <= k < |more| && Relative(more[k].path) == Some(p);
        if k < |front| { assert front[k] == more[k]; }
      }
      assert more[|front|] == e;
    }
  }

  // ---------- what capture publishes, the loader accepts ----------

  lemma {:induction false} TotalIsSum(files: map<string, Info>, order: seq<string>)
    requires forall k :: k in order ==> k in files
    ensures TotalOf(EntriesOf(files, order)) == SumSizes(files, order)
  {
    if order != [] {
      var front := order[..|order| - 1];
      assert order == front + [order[|order| - 1]];
      var entries := EntriesOf(files, order);
      assert entries[..|entries| - 1] == EntriesOf(files, front);
      TotalIsSum(files, front);
    }
  }

  /** The files' sizes add up to no more than the walk's running total. */
  lemma {:induction false} TotalOfWalk(hash: Hash, limit: nat, items: seq<Item>, order: seq<string>)
    requires Listed(hash, limit, items).Ok? && Lists(order, Listed(hash, limit, items).value.inventory.files.Keys)
    ensures SumSizes(Listed(hash, limit, items).value.inventory.files, order) <= Listed(hash, limit, items).value.total
    decreases |items|
  {
    hide Relative, Seen;
    if items == [] {
      NothingListed(order);
    } else {
      var front, last := items[..|items| - 1], items[|items| - 1];
      var p := Listed(hash, limit, front).value;
      SeenFiles(hash, limit, p, last);
      if last.File? {
        var path := Relative(last.path).value;
        var fewer := AddedFile(p.inventory.files, path, Info(|last.content|, last.modified, hash(last.content)), order);
        TotalOfWalk(hash, limit, front, fewer);
      } else {
        TotalOfWalk(hash, limit, front, order);
      }
    }
  }

  lemma NothingListed(order: seq<string>)
    requires forall k :: k !in order
    ensures order == []
  {
    if order != [] { HeadListed(order); }
  }

  lemma HeadListed(order: seq<string>)
    requires order != []
    ensures exists k :: k in order
  {
    assert order[0] in order;
  }

  /** Entering one file adds at most its size. */
  lemma AddedFile(files: map<string, Info>, path: string, info: Info, order: seq<string>) returns (fewer: seq<string>)
    requires Lists(order, files[path := info].Keys)
    ensures Lists(fewer, files.Keys) && SumSizes(files[path := info], order) <= SumSizes(files, fewer) + info.size
  {
    var more := files[path := info];
    assert path in order;
    var i := IndexOf(order, path);
    var rest := order[..i] + order[i + 1..];
    RestLists(order, i);
    Without(more, order, path);
    SumDepends(more, files, rest);
    if path in files {
      fewer := order;
      Without(files, order, path);
    } else {
      fewer := rest;
    }
  }

  function IndexOf(order: seq<string>, path: string): (i: nat)
    requires path in order
    ensures i < |order| && order[i] == path
  {
    if order[0] == path then 0 else 1 + IndexOf(order[1..], path)
  }

  lemma RestLists(order: seq<string>, i: nat)
    requires i < |order| && forall k, n :: 0 <= k < n < |order| ==> order[k] != order[n]
    ensures var rest := order[..i] + order[i + 1..];
            (forall k, n :: 0 <= k < n < |rest| ==> rest[k] != rest[n]) && forall k :: k in rest <==> k in order && k != order[i]
  {
    var rest := order[..i] + order[i + 1..];
    forall k | k in order && k != order[i] ensures k in rest {
      var n :| 0 <= n < |order| && order[n] == k;
      assert rest[if n < i then n else n - 1] == k;
    }
  }

  lemma {:induction false} SumSplit(files: map<string, Info>, a: seq<string>, b: seq<string>)
    ensures SumSizes(files, a + b) == SumSizes(files, a) + SumSizes(files, b)
  {
    if b == [] {
      assert a + b == a;
    } else {
      assert (a + b)[..|a + b| - 1] == a + b[..|b| - 1];
      SumSplit(files, a, b[..|b| - 1]);
    }
  }

  lemma Without(files: map<string, Info>, order: seq<string>, path: string)
    requires path in order && path in files
    ensures var i := IndexOf(order, path);
            SumSizes(files, order) == SumSizes(files, order[..i] + order[i + 1..]) + files[path].size
  {
    var i := IndexOf(order, path);
    assert order == order[..i] + [path] + order[i + 1..];
    SumSplit(files, order[..i] + [path], order[i + 1..]);
    SumSplit(files, order[..i], [path]);
    SumSplit(files, order[..i], order[i + 1..]);
    assert SumSizes(files, [path]) == files[path].size by { assert [path][..0] == []; }
  }

  /** As many listed keys as keys. */
  lemma {:induction false} ListedCount(order: seq<string>, keys: set<string>)
    requires Lists(order, keys)
    ensures |order| == |keys|
  {
    if order == [] {
      assert keys == {};
    } else {
      var front, last := order[..|order| - 1], order[|order| - 1];
      assert order == front + [last];
      forall k ensures k in keys - {last} <==> k in front { }
      ListedCount(front, keys - {last});
    }
  }

  /** Every manifest that capture publishes is accepted by the loader for the same
      id and data path: unique safe paths, valid digests, counts, totals and limits. */
  lemma PublishedIsAccepted(hash: Hash, limit: nat, items: seq<Item>, before: Inventory, order: seq<string>, id: string,
                            fingerprint: string, bytes: nat)
    requires limit <= MAX_BYTES && bytes <= MAX_MANIFEST_BYTES && Listed(hash, limit, items).Ok?
    requires Lists(order, Listed(hash, limit, items).value.inventory.files.Keys)
    requires Agree(before, Listed(hash, limit, items).value.inventory, before)
    requires forall b :: IsDigest(hash(b))
    ensures Accepted(ManifestOf(before, Listed(hash, limit, items).value.inventory, order, id, fingerprint), bytes, id, fingerprint)
  {
    var p := Listed(hash, limit, items).value;
    var captured := p.inventory;
    ListedSound(hash, limit, items);
    TotalOfWalk(hash, limit, items, order);
    hide Listed, Relative, IsDigest, SumSizes, TotalOf, Uniquely;
    DigestsValid(hash, items, captured.files);
    EntriesAccepted(captured, order);
    TotalIsSum(captured.files, order);
    SumDepends(before.files, captured.files, order);
    ListedCount(order, captured.files.Keys);
    KeyCount(captured.files);
  }

  lemma EntriesAccepted(inv: Inventory, order: seq<string>)
    requires SafePaths(inv) && Lists(order, inv.files.Keys) && forall path :: path in inv.files ==> IsDigest(inv.files[path].sha)
    ensures Uniquely(EntriesOf(inv.files, order)) && forall i :: 0 <= i < |inv.directories| ==> Relative(inv.directories[i]).Some?
  {
    hide Relative, IsDigest;
    var entries := EntriesOf(inv.files, order);
    forall i | 0 <= i < |entries| ensures Relative(entries[i].path) == Some(order[i]) && IsDigest(entries[i].sha) {
      assert order[i] in order;
    }
  }

  lemma KeyCount(files: map<string, Info>)
    ensures |files.Keys| == |files|
  {
  }

  lemma DigestsValid(hash: Hash, items: seq<Item>, files: map<string, Info>)
    requires FromWalk(hash, items, files) && forall b :: IsDigest(hash(b))
    ensures forall path :: path in files ==> IsDigest(files[path].sha)
  {
    hide IsDigest, Relative;
    forall path | path in files ensures IsDigest(files[path].sha) {
      assert FromItem(hash, items, path, files[path]);
      var i :| 0 <= i < |items| && items[i].File? && Relative(items[i].path) == Some(path)
               && files[path] == Info(|items[i].content|, items[i].modified, hash(items[i].content));
    }
  }

  // ---------- restore ----------

  predicate NamedIn(entries: seq<Entry>, path: string) {
    exists i :: 0 <= i < |entries| && entries[i].path == path
  }

  predicate Intact(hash: Hash, source: Folder, e: Entry) {
    e.path in source && |source[e.path]| == e.size && hash(source[e.path]) == e.sha
  }

  /** The files of the manifest with the source's bytes. */
  ghost predicate CopyOf(data: Folder, source: Folder, entries: seq<Entry>) {
    && (forall p :: p in data <==> NamedIn(entries, p))
    && (forall p :: p in data ==> p in source && data[p] == source[p])
  }

  /** The inventory names exactly the manifest's files with the same sizes and digests. */
  predicate Matches(files: map<string, Info>, entries: seq<Entry>) {
    && (forall p :: p in files ==> NamedIn(entries, p))
    && (forall i :: 0 <= i < |entries| ==>
          entries[i].path in files && files[entries[i].path].size == entries[i].size && files[entries[i].path].sha == entries[i].sha)
  }

  predicate Verifies(hash: Hash, items: seq<Item>, entries: seq<Entry>) {
    var listed := Listed(hash, MAX_BYTES, items);
    listed.Ok? && Matches(listed.value.inventory.files, entries)
  }

  /** A walk verifies only if every file it shows is one of the manifest's, and it shows each
      of those with the manifest's size and digest. */
  lemma VerifiesShows(hash: Hash, items: seq<Item>, entries: seq<Entry>)
    requires Verifies(hash, items, entries)
    ensures forall i :: 0 <= i < |items| && items[i].File? ==>
              Relative(items[i].path).Some? && exists e :: e in entries && e.path == Relative(items[i].path).value
    ensures forall e :: e in entries ==> exists i :: 0 <= i < |items| && items[i].File? && Relative(items[i].path) == Some(e.path)
                                                     && |items[i].content| == e.size && hash(items[i].content) == e.sha
  {
    hide Relative, Listed;
    ListedSound(hash, MAX_BYTES, items);
    var files := Listed(hash, MAX_BYTES, items).value.inventory.files;
    forall i | 0 <= i < |items| && items[i].File?
      ensures Relative(items[i].path).Some? && exists e :: e in entries && e.path == Relative(items[i].path).value
    {
      assert Entered(items[i], files);
      assert NamedIn(entries, Relative(items[i].path).value);
      var k :| 0 <= k < |entries| && entries[k].path == Relative(items[i].path).value;
      assert entries[k] in entries;
    }
    forall e | e in entries
      ensures exists i :: 0 <= i < |items| && items[i].File? && Relative(items[i].path) == Some(e.path)
                          && |items[i].content| == e.size && hash(items[i].content) == e.sha
    {
      var k :| 0 <= k < |entries| && entries[k] == e;
      assert entries[k].path in files && FromItem(hash, items, e.path, files[e.path]);
    }
  }

  ghost predicate CopyVerifies(hash: Hash, walk: Folder -> seq<Item>, source: Folder, entries: seq<Entry>) {
    forall d :: CopyOf(d, source, entries) ==> Verifies(hash, walk(d), entries)
  }

  function LimitOf(maxMb: nat): nat {
    (if maxMb < 1 then 1 else if maxMb > 51200 then 51200 else maxMb) * MIB
  }

  lemma LimitIs(maxMb: nat, n: nat)
    ensures LimitOf(maxMb) <= 53687091200 && (LimitOf(maxMb) <= maxMb * 1048576 || LimitOf(maxMb) <= 1048576)
    ensures n <= 53687091200 && n <= maxMb * 1048576 ==> n <= LimitOf(maxMb)
  {
  }

  ghost predicate AllIntact(hash: Hash, source: Folder, entries: seq<Entry>) {
    forall i :: 0 <= i < |entries| ==> Intact(hash, source, entries[i])
  }

  /** `run_snapshot_restore` on an accepted manifest: `walk` is what walking the
      restored folder yields. */
  method RestoreSnapshot(hash: Hash, m: Manifest, maxMb: nat, source: Folder, walk: Folder -> seq<Item>)
    returns (verified: bool, data: Folder)
    requires forall i, j :: 0 <= i < j < |m.entries| ==> m.entries[i].path != m.entries[j].path
    ensures verified ==> CopyOf(data, source, m.entries) && AllIntact(hash, source, m.entries) && Verifies(hash, walk(data), m.entries)
    ensures verified ==> m.totalBytes <= 53687091200 && (m.totalBytes <= maxMb * 1048576 || m.totalBytes <= 1048576)
    ensures m.totalBytes <= 53687091200 && m.totalBytes <= maxMb * 1048576 ==> m.totalBytes <= LimitOf(maxMb)
    ensures m.totalBytes <= LimitOf(maxMb) && AllIntact(hash, source, m.entries) && CopyVerifies(hash, walk, source, m.entries) ==> verified
  {
    hide Listed, CopyOf, LimitOf;
    LimitIs(maxMb, m.totalBytes);
    data := map[];
    if m.totalBytes > LimitOf(maxMb) { return false, data; }
    assert m.entries[..0] == [];
    assert CopyOf(data, source, []) by { NothingCopied(source); }
    for i := 0 to |m.entries|
      invariant CopyOf(data, source, m.entries[..i])
      invariant forall k :: 0 <= k < i ==> Intact(hash, source, m.entries[k])
    {
      var entry := m.entries[i];
      if entry.path !in source || |source[entry.path]| != entry.size || hash(source[entry.path]) != entry.sha {
        assert !Intact(hash, source, m.entries[i]);
        return false, map[];
      }
      CopyOne(data, source, m.entries, i);
      data := data[entry.path := source[entry.path]];
    }
    assert m.entries[..|m.entries|] == m.entries;
    var actual := InventoryLocal(hash, MAX_BYTES, walk(data));
    if actual.Err? || !Matches(actual.value.files, m.entries) {
      assert !Verifies(hash, walk(data), m.entries);
      return false, map[];
    }
    return true, data;
  }

  lemma NothingCopied(source: Folder)
    ensures CopyOf(map[], source, [])
  {
  }

  lemma NamedLast(entries: seq<Entry>, i: nat, p: string)
    requires i < |entries|
    ensures NamedIn(entries[..i + 1], p) <==> NamedIn(entries[..i], p) || p == entries[i].path
  {
    assert entries[..i + 1][i] == entries[i];
    if NamedIn(entries[..i], p) {
      var k :| 0 <= k < i && entries[..i][k].path == p;
      assert entries[..i + 1][k].path == p;
    }
    if NamedIn(entries[..i + 1], p) {
      var k :| 0 <= k < i + 1 && entries[..i + 1][k].path == p;
      if k < i { assert entries[..i][k].path == p; }
    }
  }

  lemma CopyOne(data: Folder, source: Folder, entries: seq<Entry>, i: nat)
    requires i < |entries| && CopyOf(data, source, entries[..i]) && entries[i].path in source
    ensures CopyOf(data[entries[i].path := source[entries[i].path]], source, entries[..i + 1])
  {
    hide NamedIn;
    var more := data[entries[i].path := source[entries[i].path]];
    forall p ensures p in more <==> NamedIn(entries[..i + 1], p) { NamedLast(entries, i, p); }
  }

  // ---------- a verified restore is the snapshot ----------

  ghost predicate Injective(hash: Hash) {
    forall a, b :: hash(a) == hash(b) ==> a == b
  }

  /** The folder the manifest was captured from. */
  ghost predicate Describes(hash: Hash, entries: seq<Entry>, folder: Folder) {
    && (forall p :: p in folder <==> NamedIn(entries, p))
    && AllIntact(hash, folder, entries)
  }

  /** With a digest that tells contents apart, a verified restore is byte for byte
      the captured folder, even when the stored copy was altered in between. */
  lemma VerifiedIsCaptured(hash: Hash, entries: seq<Entry>, captured: Folder, source: Folder, data: Folder)
    requires Injective(hash) && Describes(hash, entries, captured)
    requires CopyOf(data, source, entries) && AllIntact(hash, source, entries)
    ensures data == captured
  {
    hide Injective;
    forall p | p in captured ensures p in data && data[p] == captured[p] {
      assert NamedIn(entries, p);
      var i :| 0 <= i < |entries| && entries[i].path == p;
      assert Intact(hash, source, entries[i]) && Intact(hash, captured, entries[i]);
      SameContent(hash, source[p], captured[p]);
    }
    assert forall p :: p in data ==> NamedIn(entries, p);
  }

  lemma SameContent(hash: Hash, a: Bytes, b: Bytes)
    requires Injective(hash) && hash(a) == hash(b)
    ensures a == b
  {
  }

  /** A published manifest describes the folder its inventory was taken of, when
      the walk yields each file under its normalized path. */
  lemma PublishedDescribes(hash: Hash, limit: nat, items: seq<Item>, folder: Folder, order: seq<string>)
    requires Listed(hash, limit, items).Ok? && Shows(items, folder) && Normal(items)
    requires Lists(order, Listed(hash, limit, items).value.inventory.files.Keys)
    ensures Describes(hash, EntriesOf(Listed(hash, limit, items).value.inventory.files, order), folder)
  {
    ListedMirrors(hash, limit, items, folder);
    hide Listed, Relative, Full, Shows, Normal;
    MirrorDescribes(hash, Listed(hash, limit, items).value.inventory.files, folder, order);
  }

  /** With a digest that tells contents apart, what a capture stores is byte for byte the
      target its first walk has seen. */
  lemma CapturedIsTarget(hash: Hash, limit: nat, first: seq<Item>, target: Target, folder: Folder)
    requires Injective(hash) && Listed(hash, limit, first).Ok? && Shows(first, folder) && Normal(first)
    requires AllCopyWell(hash, InventoryOf(hash, limit, first).files, target)
    ensures Contents(InventoryOf(hash, limit, first).files, target) == folder
  {
    ListedMirrors(hash, limit, first, folder);
    hide Listed, Shows, Normal, Injective;
    var files := InventoryOf(hash, limit, first).files;
    var data := Contents(files, target);
    forall p | p in folder ensures p in data && data[p] == folder[p] {
      assert CopiesWell(hash, files[p], target[p]);
      SameContent(hash, target[p].content, folder[p]);
    }
    assert data.Keys == folder.Keys;
  }

  /** The walk yields each file under its normalized path. */
  ghost predicate Normal(items: seq<Item>) {
    forall i :: 0 <= i < |items| && items[i].File? ==> Relative(items[i].path) == Some(items[i].path)
  }

  /** The inventory has the folder's files with their sizes and digests. */
  ghost predicate Mirrors(hash: Hash, files: map<string, Info>, folder: Folder) {
    files.Keys == folder.Keys && forall p :: p in folder ==> files[p].size == |folder[p]| && files[p].sha == hash(folder[p])
  }

  lemma ListedMirrors(hash: Hash, limit: nat, items: seq<Item>, folder: Folder)
    requires Listed(hash, limit, items).Ok? && Shows(items, folder) && Normal(items)
    ensures Mirrors(hash, Listed(hash, limit, items).value.inventory.files, folder)
  {
    hide Shows, Normal, Full, FromItem, AllEntered, SafePaths;
    ListedSound(hash, limit, items);
    hide Listed;
    var files := Listed(hash, limit, items).value.inventory.files;
    forall p | p in files ensures p in folder && files[p].size == |folder[p]| && files[p].sha == hash(folder[p]) {
      assert FromItem(hash, items, p, files[p]);
      EntryMirrors(hash, items, folder, p, files[p]);
    }
    forall p | p in folder ensures p in files { FolderEntered(items, folder, files, p); }
  }

  lemma EntryMirrors(hash: Hash, items: seq<Item>, folder: Folder, p: string, info: Info)
    requires FromItem(hash, items, p, info) && Shows(items, folder) && Normal(items)
    ensures p in folder && info.size == |folder[p]| && info.sha == hash(folder[p])
  {
    hide Relative;
    var k :| 0 <= k < |items| && items[k].File? && Relative(items[k].path) == Some(p)
             && info == Info(|items[k].content|, items[k].modified, hash(items[k].content));
  }

  lemma FolderEntered(items: seq<Item>, folder: Folder, files: map<string, Info>, p: string)
    requires AllEntered(items, files) && Shows(items, folder) && Normal(items) && p in folder
    ensures p in files
  {
    hide Relative;
    var k :| 0 <= k < |items| && items[k].File? && items[k].path == p;
    assert Entered(items[k], files);
  }

  lemma MirrorDescribes(hash: Hash, files: map<string, Info>, folder: Folder, order: seq<string>)
    requires Mirrors(hash, files, folder) && Lists(order, files.Keys)
    ensures Describes(hash, EntriesOf(files, order), folder)
  {
    var entries := EntriesOf(files, order);
    forall i | 0 <= i < |entries| ensures Intact(hash, folder, entries[i]) { assert order[i] in order; }
    forall p ensures p in folder <==> NamedIn(entries, p) {
      if p in folder {
        assert p in order;
        var i :| 0 <= i < |order| && order[i] == p;
        assert entries[i].path == p;
      }
      if NamedIn(entries, p) {
        var i :| 0 <= i < |entries| && entries[i].path == p;
        assert order[i] in order;
      }
    }
  }

  /** Walking a folder that a manifest describes gives an inventory that matches it. */
  lemma DescribedMatches(hash: Hash, limit: nat, items: seq<Item>, folder: Folder, entries: seq<Entry>)
    requires Listed(hash, limit, items).Ok? && Shows(items, folder) && Normal(items) && Describes(hash, entries, folder)
    ensures Matches(Listed(hash, limit, items).value.inventory.files, entries)
  {
    ListedMirrors(hash, limit, items, folder);
    hide Listed, Relative, Shows, Normal, NamedIn;
    var files := Listed(hash, limit, items).value.inventory.files;
    forall i | 0 <= i < |entries| ensures entries[i].path in files && files[entries[i].path].size == entries[i].size
                                         && files[entries[i].path].sha == entries[i].sha
    {
      assert Intact(hash, folder, entries[i]);
    }
  }

  /** An untouched snapshot restores: the copy of the captured folder is that
      folder, and walking it verifies under the restore's larger limit. */
  lemma UntouchedRestores(hash: Hash, limit: nat, folder: Folder, walk: Folder -> seq<Item>, order: seq<string>)
    requires limit <= MAX_BYTES && Listed(hash, limit, walk(folder)).Ok? && Shows(walk(folder), folder) && Normal(walk(folder))
    requires Lists(order, Listed(hash, limit, walk(folder)).value.inventory.files.Keys)
    ensures var entries := EntriesOf(Listed(hash, limit, walk(folder)).value.inventory.files, order);
            AllIntact(hash, folder, entries) && CopyVerifies(hash, walk, folder, entries)
            && forall d :: CopyOf(d, folder, entries) ==> d == folder
  {
    var entries := EntriesOf(Listed(hash, limit, walk(folder)).value.inventory.files, order);
    PublishedDescribes(hash, limit, walk(folder), folder, order);
    LargerLimit(hash, limit, MAX_BYTES, walk(folder));
    DescribedMatches(hash, MAX_BYTES, walk(folder), folder, entries);
    hide Listed, Shows, Normal, Relative, Describes, CopyOf, Matches;
    assert AllIntact(hash, folder, entries) by { DescribedIntact(hash, entries, folder); }
    hide AllIntact;
    forall d | CopyOf(d, folder, entries) ensures d == folder && Verifies(hash, walk(d), entries) {
      SameFolder(hash, entries, folder, d);
    }
  }

  lemma DescribedIntact(hash: Hash, entries: seq<Entry>, folder: Folder)
    requires Describes(hash, entries, folder)
    ensures AllIntact(hash, folder, entries)
  {
  }

  lemma SameFolder(hash: Hash, entries: seq<Entry>, folder: Folder, data: Folder)
    requires Describes(hash, entries, folder) && CopyOf(data, folder, entries)
    ensures data == folder
  {
    hide Intact;
    assert forall p :: p in data <==> p in folder;
  }
}
