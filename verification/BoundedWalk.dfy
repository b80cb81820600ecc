/**
  The bounded directory walk (app/recovery_walk.py): an explicit stack and an
  entry budget, against recursive preorder.

  A directory tree is given as data.  A directory may fail to be read, after some
  entries or at once; `order` is how the caller has arranged the directory list
  it was handed before the walk goes on.
*/
module BoundedWalk {
  import opened Results

  datatype Entry =
    | File(name: string)
    | Link(name: string, toDirectory: bool)
    | Sub(name: string, tree: Tree)

  datatype Tree = Dir(entries: seq<Entry>, failsAfter: Option<nat>, order: seq<Entry>)

  type Path = seq<string>

  predicate IsDirectory(e: Entry) {
    e.Sub? || (e.Link? && e.toDirectory)
  }

  function Directories(es: seq<Entry>): seq<Entry> {
    if es == [] then []
    else Directories(es[..|es| - 1]) + if IsDirectory(es[|es| - 1]) then [es[|es| - 1]] else []
  }

  function Names(es: seq<Entry>): seq<string> {
    seq(|es|, i requires 0 <= i < |es| => es[i].name)
  }

  function Filenames(es: seq<Entry>): seq<string> {
    if es == [] then []
    else Filenames(es[..|es| - 1]) + if IsDirectory(es[|es| - 1]) then [] else [es[|es| - 1].name]
  }

  /** How many entries reading the directory yields. */
  function ScanCount(t: Tree): nat {
    if t.failsAfter.Some? && t.failsAfter.value < |t.entries| then t.failsAfter.value else |t.entries|
  }

  // ---------- recursive preorder ----------

  datatype Node = Node(path: Path, tree: Tree)

  function Nodes(path: Path, t: Tree): seq<Node>
    decreases t
  {
    [Node(path, t)] + if t.failsAfter.Some? then [] else NodesAll(path, t.order)
  }

  function NodesAll(path: Path, es: seq<Entry>): seq<Node>
    decreases es
  {
    if es == [] then []
    else (if es[0].Sub? then Nodes(path + [es[0].name], es[0].tree) else []) + NodesAll(path, es[1..])
  }

  datatype Event = Visited(path: Path, directories: seq<string>, filenames: seq<string>) | Unreadable(path: Path)

  datatype Walk = Walk(events: seq<Event>, limited: bool)

  function EventOf(n: Node): Event {
    if n.tree.failsAfter.Some? then Unreadable(n.path)
    else Visited(n.path, Names(Directories(n.tree.entries)), Filenames(n.tree.entries))
  }

  function Before(events: seq<Event>, w: Walk): Walk {
    Walk(events + w.events, w.limited)
  }

  /** Reading the nodes in order with room for that many more entries. */
  function Budgeted(nodes: seq<Node>, room: int): Walk {
    if nodes == [] then Walk([], false)
    else
      var count := ScanCount(nodes[0].tree);
      if count > room then Walk([], true) else Before([EventOf(nodes[0])], Budgeted(nodes[1..], room - count))
  }

  // ---------- the limit ----------

  function Scanned(nodes: seq<Node>): nat {
    if nodes == [] then 0 else ScanCount(nodes[0].tree) + Scanned(nodes[1..])
  }

  lemma {:induction false} LimitedIff(nodes: seq<Node>, room: int)
    requires room >= 0
    ensures Budgeted(nodes, room).limited <==> Scanned(nodes) > room
    ensures !Budgeted(nodes, room).limited ==> |Budgeted(nodes, room).events| == |nodes|
  {
    if nodes != [] && ScanCount(nodes[0].tree) <= room { LimitedIff(nodes[1..], room - ScanCount(nodes[0].tree)); }
  }

  /** How many entries the tree holds below its readable directories, links not followed. */
  function Total(t: Tree): nat
    decreases t
  {
    ScanCount(t) + if t.failsAfter.Some? then 0 else TotalAll(t.entries)
  }

  function TotalAll(es: seq<Entry>): nat
    decreases es
  {
    if es == [] then 0 else (if es[0].Sub? then Total(es[0].tree) else 0) + TotalAll(es[1..])
  }

  function TotalOf(e: Entry): nat {
    if e.Sub? then Total(e.tree) else 0
  }

  /** The caller's order is some order of the directories it was handed, at every level. */
  ghost predicate Arranged(t: Tree)
    decreases t
  {
    multiset(t.order) == multiset(Directories(t.entries)) && ArrangedAll(t.entries) && ArrangedAll(t.order)
  }

  ghost predicate ArrangedAll(es: seq<Entry>)
    decreases es
  {
    es == [] || ((es[0].Sub? ==> Arranged(es[0].tree)) && ArrangedAll(es[1..]))
  }

  lemma {:induction false} TotalSplit(a: seq<Entry>, b: seq<Entry>)
    ensures TotalAll(a + b) == TotalAll(a) + TotalAll(b)
  {
    hide Total;
    if a == [] {
      assert a + b == b;
    } else {
      assert (a + b)[1..] == a[1..] + b;
      TotalSplit(a[1..], b);
    }
  }

  lemma {:induction false} TotalPermuted(a: seq<Entry>, b: seq<Entry>)
    requires multiset(a) == multiset(b)
    ensures TotalAll(a) == TotalAll(b)
  {
    hide Total;
    if a == [] {
      assert |multiset(b)| == 0;
      assert b == [];
    } else {
      assert a == [a[0]] + a[1..];
      assert a[0] in multiset(b);
      var k :| 0 <= k < |b| && b[k] == a[0];
      var rest := b[..k] + b[k + 1..];
      assert b == b[..k] + [b[k]] + b[k + 1..];
      assert multiset(a[1..]) == multiset(a) - multiset{a[0]};
      assert multiset(rest) == multiset(b) - multiset{b[k]};
      TotalPermuted(a[1..], rest);
      TotalSplit(b[..k] + [b[k]], b[k + 1..]);
      TotalSplit(b[..k], [b[k]]);
      TotalSplit(b[..k], b[k + 1..]);
      OneTotal(b[k]);
    }
  }

  lemma OneTotal(e: Entry)
    ensures TotalAll([e]) == TotalOf(e)
  {
    assert TotalAll([e][1..]) == 0;
  }

  lemma {:induction false} TotalOfDirectories(es: seq<Entry>)
    ensures TotalAll(Directories(es)) == TotalAll(es)
  {
    if es != [] {
      hide Total;
      var front, last := es[..|es| - 1], es[|es| - 1];
      TotalOfDirectories(front);
      assert es == front + [last];
      TotalSplit(front, [last]);
      OneTotal(last);
      if IsDirectory(last) { TotalSplit(Directories(front), [last]); } else { assert Directories(front) + [] == Directories(front); }
    }
  }

  lemma {:induction false} ScannedSplit(a: seq<Node>, b: seq<Node>)
    ensures Scanned(a + b) == Scanned(a) + Scanned(b)
  {
    hide ScanCount;
    if a == [] {
      assert a + b == b;
    } else {
      assert (a + b)[1..] == a[1..] + b;
      ScannedSplit(a[1..], b);
    }
  }

  lemma {:induction false} ScannedIsTotal(path: Path, t: Tree)
    requires Arranged(t)
    ensures Scanned(Nodes(path, t)) == Total(t)
    decreases t
  {
    hide Arranged, ArrangedAll, Total, TotalAll, ScanCount;
    var kids := if t.failsAfter.Some? then [] else NodesAll(path, t.order);
    ScannedSplit([Node(path, t)], kids);
    assert Scanned([Node(path, t)]) == ScanCount(t) by { assert Scanned([Node(path, t)][1..]) == 0; }
    TotalIs(t);
    if t.failsAfter.None? {
      ArrangedIs(t);
      ScannedAllIsTotal(path, t.order);
      TotalPermuted(t.order, Directories(t.entries));
      TotalOfDirectories(t.entries);
    }
  }

  lemma TotalIs(t: Tree)
    ensures Total(t) == ScanCount(t) + if t.failsAfter.Some? then 0 else TotalAll(t.entries)
  {
  }

  lemma ArrangedIs(t: Tree)
    requires Arranged(t)
    ensures multiset(t.order) == multiset(Directories(t.entries)) && ArrangedAll(t.entries) && ArrangedAll(t.order)
  {
  }

  lemma {:induction false} ScannedAllIsTotal(path: Path, es: seq<Entry>)
    requires ArrangedAll(es)
    ensures Scanned(NodesAll(path, es)) == TotalAll(es)
    decreases es
  {
    if es != [] {
      hide Nodes, Total, Scanned, Arranged;
      var head := if es[0].Sub? then Nodes(path + [es[0].name], es[0].tree) else [];
      if es[0].Sub? { ScannedIsTotal(path + [es[0].name], es[0].tree); } else { NothingScanned(); }
      ScannedAllIsTotal(path, es[1..]);
      ScannedSplit(head, NodesAll(path, es[1..]));
    } else {
      NothingScanned();
    }
  }

  lemma NothingScanned()
    ensures Scanned([]) == 0
  {
  }

  // ---------- what a visit shows ----------

  ghost predicate Increasing(ps: seq<nat>) {
    forall i, j :: 0 <= i < j < |ps| ==> ps[i] < ps[j]
  }

  /** These are the names of exactly the entries at these positions, in order. */
  ghost predicate NamesAt(names: seq<string>, es: seq<Entry>, ps: seq<nat>) {
    && |names| == |ps| && Increasing(ps)
    && forall i :: 0 <= i < |ps| ==> ps[i] < |es| && names[i] == es[ps[i]].name
  }

  lemma NamesMore(names: seq<string>, es: seq<Entry>, ps: seq<nat>, e: Entry)
    requires NamesAt(names, es, ps)
    ensures NamesAt(names, es + [e], ps) && NamesAt(names + [e.name], es + [e], ps + [|es|])
  {
  }

  lemma NamesAppend(es: seq<Entry>, e: Entry)
    ensures Names(es + [e]) == Names(es) + [e.name]
  {
  }

  lemma {:induction false} VisitShows(es: seq<Entry>) returns (ds: seq<nat>, fs: seq<nat>)
    ensures NamesAt(Names(Directories(es)), es, ds) && NamesAt(Filenames(es), es, fs)
    ensures forall k: nat :: k in ds <==> k < |es| && (es[k].Sub? || (es[k].Link? && es[k].toDirectory))
    ensures forall k: nat :: k in fs <==> k < |es| && (es[k].File? || (es[k].Link? && !es[k].toDirectory))
  {
    if es == [] { return [], []; }
    var n := |es| - 1;
    ds, fs := VisitShows(es[..n]);
    assert es == es[..n] + [es[n]];
    hide NamesAt;
    NamesMore(Names(Directories(es[..n])), es[..n], ds, es[n]);
    NamesMore(Filenames(es[..n]), es[..n], fs, es[n]);
    NamesAppend(Directories(es[..n]), es[n]);
    if IsDirectory(es[n]) { ds := ds + [n]; } else { fs := fs + [n]; }
  }

  /** Reading a directory to the end reports each of its entries once: folders and links to
      folders in one list, files and other links in the other, each in reading order; one that
      cannot be read is reported as such. */
  lemma EventShows(n: Node) returns (ds: seq<nat>, fs: seq<nat>)
    ensures n.tree.failsAfter.Some? ==> EventOf(n) == Unreadable(n.path)
    ensures n.tree.failsAfter.None? ==>
              && EventOf(n).Visited? && EventOf(n).path == n.path
              && NamesAt(EventOf(n).directories, n.tree.entries, ds) && NamesAt(EventOf(n).filenames, n.tree.entries, fs)
    ensures forall k: nat :: k in ds <==> k < |n.tree.entries| && (n.tree.entries[k].Sub? || (n.tree.entries[k].Link? && n.tree.entries[k].toDirectory))
    ensures forall k: nat :: k in fs <==> k < |n.tree.entries| && (n.tree.entries[k].File? || (n.tree.entries[k].Link? && !n.tree.entries[k].toDirectory))
  {
    ds, fs := VisitShows(n.tree.entries);
  }

  // ---------- every directory once ----------

  /** Names are unique within each directory. */
  ghost predicate Distinct(es: seq<Entry>) {
    forall i, j :: 0 <= i < j < |es| ==> es[i].name != es[j].name
  }

  ghost predicate WellNamed(t: Tree)
    decreases t
  {
    Distinct(t.entries) && WellNamedAll(t.entries) && WellNamedAll(t.order)
  }

  ghost predicate WellNamedAll(es: seq<Entry>)
    decreases es
  {
    es == [] || ((es[0].Sub? ==> WellNamed(es[0].tree)) && WellNamedAll(es[1..]))
  }

  /** Following names through readable directories, links not followed. */
  function Find(t: Tree, path: Path): Option<Tree>
    decreases t
  {
    if path == [] then Some(t)
    else if t.failsAfter.Some? then None
    else FindIn(t.entries, path)
  }

  function FindIn(es: seq<Entry>, path: Path): Option<Tree>
    requires path != []
    decreases es
  {
    if es == [] then None
    else if es[0].name == path[0] && es[0].Sub? then Find(es[0].tree, path[1..])
    else FindIn(es[1..], path)
  }

  lemma {:induction false} DirectoriesAre(es: seq<Entry>, e: Entry)
    ensures e in Directories(es) <==> e in es && IsDirectory(e)
  {
    if es != [] {
      DirectoriesAre(es[..|es| - 1], e);
      assert es == es[..|es| - 1] + [es[|es| - 1]];
    }
  }

  lemma OrderAre(t: Tree, e: Entry)
    requires Arranged(t)
    ensures e in t.order <==> e in t.entries && IsDirectory(e)
  {
    hide ArrangedAll;
    DirectoriesAre(t.entries, e);
    assert e in multiset(t.order) <==> e in multiset(Directories(t.entries));
  }

  lemma {:induction false} DirectoriesDistinct(es: seq<Entry>)
    requires Distinct(es)
    ensures Distinct(Directories(es))
  {
    if es != [] {
      var front, last := es[..|es| - 1], es[|es| - 1];
      DirectoriesDistinct(front);
      forall e | e in Directories(front) ensures e.name != last.name {
        DirectoriesAre(front, e);
        var i :| 0 <= i < |front| && front[i] == e;
        assert es[i] == e;
      }
    }
  }

  lemma OrderDistinct(a: seq<Entry>, b: seq<Entry>)
    requires multiset(a) == multiset(b) && Distinct(b)
    ensures Distinct(a)
  {
    forall i, j | 0 <= i < j < |a| ensures a[i].name != a[j].name {
      if a[i].name == a[j].name {
        assert a[i] in multiset(b) && a[j] in multiset(b);
        var k :| 0 <= k < |b| && b[k] == a[i];
        var m :| 0 <= m < |b| && b[m] == a[j];
        assert k == m;
        TwiceInMultiset(a, i, j);
        OnceInMultiset(b, k);
      }
    }
  }

  lemma TwiceInMultiset(a: seq<Entry>, i: nat, j: nat)
    requires i < j < |a| && a[i] == a[j]
    ensures multiset(a)[a[i]] >= 2
  {
    assert a == a[..j] + [a[j]] + a[j + 1..];
    assert multiset(a) == multiset(a[..j]) + multiset{a[j]} + multiset(a[j + 1..]);
    assert a[..j][i] == a[i];
    assert a[i] in multiset(a[..j]);
  }

  lemma OnceInMultiset(b: seq<Entry>, k: nat)
    requires Distinct(b) && k < |b|
    ensures multiset(b)[b[k]] == 1
  {
    assert b == b[..k] + [b[k]] + b[k + 1..];
    assert multiset(b) == multiset(b[..k]) + multiset{b[k]} + multiset(b[k + 1..]);
    assert b[k] !in b[..k] && b[k] !in b[k + 1..];
  }

  /** The walk's directories are exactly those that following names finds. */
  ghost predicate Leads(path: Path, t: Tree, n: Node) {
    path <= n.path && Find(t, n.path[|path|..]) == Some(n.tree)
  }

  ghost predicate LeadsIn(path: Path, es: seq<Entry>, n: Node) {
    path < n.path && FindIn(es, n.path[|path|..]) == Some(n.tree)
  }

  lemma {:induction false} FindInOrder(a: seq<Entry>, b: seq<Entry>, path: Path)
    requires path != [] && Distinct(a) && Distinct(b) && forall e: Entry :: e.Sub? ==> (e in a <==> e in b)
    ensures FindIn(a, path) == FindIn(b, path)
  {
    hide Find;
    FindInIs(a, path);
    FindInIs(b, path);
  }

  lemma {:induction false} FindInIs(es: seq<Entry>, path: Path)
    requires path != [] && Distinct(es)
    ensures forall e :: e in es && e.Sub? && e.name == path[0] ==> FindIn(es, path) == Find(e.tree, path[1..])
    ensures (forall e :: e in es && e.Sub? ==> e.name != path[0]) ==> FindIn(es, path) == None
  {
    if es != [] {
      hide Find;
      FindInIs(es[1..], path);
      assert es == [es[0]] + es[1..];
      forall e | e in es && e.Sub? && e.name == path[0] ensures FindIn(es, path) == Find(e.tree, path[1..]) {
        var i :| 0 <= i < |es| && es[i] == e;
        if i > 0 { assert es[1..][i - 1] == e && es[0].name != e.name; }
      }
    }
  }

  lemma OrderFinds(t: Tree, path: Path)
    requires Arranged(t) && Distinct(t.entries) && path != []
    ensures FindIn(t.order, path) == FindIn(t.entries, path) && Distinct(t.order)
  {
    hide Find, FindIn, ArrangedAll;
    DirectoriesDistinct(t.entries);
    OrderDistinct(t.order, Directories(t.entries));
    forall e: Entry | e.Sub? ensures e in t.order <==> e in t.entries { OrderAre(t, e); }
    FindInOrder(t.order, t.entries, path);
  }

  lemma {:induction false} NodesLead(path: Path, t: Tree, n: Node)
    requires Arranged(t) && WellNamed(t)
    ensures n in Nodes(path, t) <==> Leads(path, t, n)
    decreases t
  {
    hide Arranged, WellNamed, ArrangedAll, WellNamedAll, Distinct, FindIn, NodesAll;
    ArrangedIs(t);
    WellNamedIs(t);
    if t.failsAfter.None? {
      OrderDistinctNames(t);
      NodesAllLead(path, t.order, n);
      if path < n.path { OrderFinds(t, n.path[|path|..]); }
    }
    if path <= n.path && |n.path| == |path| { assert n.path == path; }
  }

  lemma OrderDistinctNames(t: Tree)
    requires Arranged(t) && Distinct(t.entries)
    ensures Distinct(t.order)
  {
    hide ArrangedAll;
    DirectoriesDistinct(t.entries);
    OrderDistinct(t.order, Directories(t.entries));
  }

  lemma WellNamedIs(t: Tree)
    requires WellNamed(t)
    ensures Distinct(t.entries) && WellNamedAll(t.entries) && WellNamedAll(t.order)
  {
  }

  lemma {:induction false} NodesAllLead(path: Path, es: seq<Entry>, n: Node)
    requires ArrangedAll(es) && WellNamedAll(es) && Distinct(es)
    ensures n in NodesAll(path, es) <==> LeadsIn(path, es, n)
    decreases es
  {
    if es != [] {
      hide Arranged, WellNamed, Nodes, Find;
      var e, deeper := es[0], path + [es[0].name];
      NodesAllLead(path, es[1..], n);
      if e.Sub? { NodesLead(deeper, e.tree, n); }
      if path < n.path {
        var rest := n.path[|path|..];
        SplitPath(path, e.name, n.path);
        FindInIs(es, rest);
        if rest[0] == e.name { NotAgain(es, rest); }
      }
    }
  }

  lemma SplitPath(path: Path, name: string, full: Path)
    requires path < full
    ensures path + [name] <= full <==> full[|path|..][0] == name
    ensures path + [name] <= full ==> full[|path + [name]|..] == full[|path|..][1..]
  {
  }

  /** The first entry's name does not lead into the others. */
  lemma NotAgain(es: seq<Entry>, path: Path)
    requires es != [] && path != [] && Distinct(es) && path[0] == es[0].name
    ensures FindIn(es[1..], path) == None
  {
    hide Find;
    FindInIs(es[1..], path);
    forall e | e in es[1..] ensures e.name != path[0] {
      var i :| 0 <= i < |es[1..]| && es[1..][i] == e;
      assert es[i + 1] == e;
    }
  }

  ghost predicate OncePerPath(nodes: seq<Node>) {
    forall i, j :: 0 <= i < j < |nodes| ==> nodes[i].path != nodes[j].path
  }

  lemma {:induction false} NodesOnce(path: Path, t: Tree)
    requires Arranged(t) && WellNamed(t)
    ensures OncePerPath(Nodes(path, t))
    decreases t
  {
    hide Arranged, WellNamed, ArrangedAll, WellNamedAll, Distinct, NodesAll, FindIn;
    ArrangedIs(t);
    WellNamedIs(t);
    if t.failsAfter.None? {
      OrderDistinctNames(t);
      NodesAllOnce(path, t.order);
      var kids := NodesAll(path, t.order);
      forall n | n in kids ensures n.path != path { NodesAllLead(path, t.order, n); }
    }
  }

  lemma {:induction false} NodesAllOnce(path: Path, es: seq<Entry>)
    requires ArrangedAll(es) && WellNamedAll(es) && Distinct(es)
    ensures OncePerPath(NodesAll(path, es))
    decreases es
  {
    if es != [] {
      hide Arranged, WellNamed, Nodes, Find, FindIn;
      var e, deeper := es[0], path + [es[0].name];
      NodesAllOnce(path, es[1..]);
      if e.Sub? {
        NodesOnce(deeper, e.tree);
        forall m, n | m in Nodes(deeper, e.tree) && n in NodesAll(path, es[1..]) ensures m.path != n.path {
          NodesLead(deeper, e.tree, m);
          NodesAllLead(path, es[1..], n);
          SplitPath(path, e.name, m.path);
          if m.path == n.path { NotAgain(es, n.path[|path|..]); }
        }
      }
    }
  }

  // ---------- the walk ----------

  /** The stack, top first. */
  function Stacked(pending: seq<Node>): seq<Node> {
    if pending == [] then []
    else Nodes(pending[|pending| - 1].path, pending[|pending| - 1].tree) + Stacked(pending[..|pending| - 1])
  }

  function Pushed(path: Path, es: seq<Entry>): seq<Node> {
    if es == [] then []
    else Pushed(path, es[1..]) + if es[0].Sub? then [Node(path + [es[0].name], es[0].tree)] else []
  }

  lemma StackedTop(below: seq<Node>, top: Node, path: Path, es: seq<Entry>, rest: seq<Node>)
    requires es != [] && es[0].Sub? && top == Node(path + [es[0].name], es[0].tree)
    requires Stacked(below) == NodesAll(path, es[1..]) + rest
    ensures Stacked(below + [top]) == NodesAll(path, es) + rest
  {
    hide Nodes;
    assert (below + [top])[..|below + [top]| - 1] == below;
    var head := Nodes(top.path, top.tree);
    assert head + (NodesAll(path, es[1..]) + rest) == head + NodesAll(path, es[1..]) + rest;
  }

  lemma {:induction false} StackedPush(pending: seq<Node>, path: Path, es: seq<Entry>)
    ensures Stacked(pending + Pushed(path, es)) == NodesAll(path, es) + Stacked(pending)
  {
    hide Nodes, Stacked;
    if es == [] {
      assert pending + [] == pending && [] + Stacked(pending) == Stacked(pending);
    } else {
      StackedPush(pending, path, es[1..]);
      var below := pending + Pushed(path, es[1..]);
      if es[0].Sub? {
        var top := Node(path + [es[0].name], es[0].tree);
        assert pending + Pushed(path, es) == below + [top];
        StackedTop(below, top, path, es, Stacked(pending));
      } else {
        assert pending + Pushed(path, es) == below;
        assert [] + NodesAll(path, es[1..]) == NodesAll(path, es[1..]);
      }
    }
  }

  lemma PopIs(pending: seq<Node>)
    requires pending != []
    ensures var top, below := pending[|pending| - 1], pending[..|pending| - 1];
            Stacked(pending) == [top] + ((if top.tree.failsAfter.Some? then [] else NodesAll(top.path, top.tree.order)) + Stacked(below))
  {
    var top, below := pending[|pending| - 1], pending[..|pending| - 1];
    var kids := if top.tree.failsAfter.Some? then [] else NodesAll(top.path, top.tree.order);
    assert [top] + kids + Stacked(below) == [top] + (kids + Stacked(below));
  }

  lemma BudgetedHead(n: Node, rest: seq<Node>, room: int)
    ensures Budgeted([n] + rest, room)
         == if ScanCount(n.tree) > room then Walk([], true) else Before([EventOf(n)], Budgeted(rest, room - ScanCount(n.tree)))
  {
    assert ([n] + rest)[1..] == rest;
  }

  lemma BeforeTwice(a: seq<Event>, b: seq<Event>, w: Walk)
    ensures Before(a, Before(b, w)) == Before(a + b, w) && Before([], w) == w
  {
    assert a + (b + w.events) == a + b + w.events && [] + w.events == w.events;
  }

  datatype Scan = Complete | Failed | OverLimit

  /** The scandir loop. */
  method ScanDirectory(t: Tree, already: nat, maxEntries: nat)
    returns (scan: Scan, scanned: nat, directories: seq<Entry>, filenames: seq<string>)
    requires already <= maxEntries
    ensures scan.OverLimit? <==> already + ScanCount(t) > maxEntries
    ensures !scan.OverLimit? ==> scanned == already + ScanCount(t) && (scan.Failed? <==> t.failsAfter.Some?)
    ensures scan.Complete? ==> directories == Directories(t.entries) && filenames == Filenames(t.entries)
  {
    scanned, directories, filenames := already, [], [];
    var i := 0;
    while i < ScanCount(t)
      invariant i <= ScanCount(t) && scanned == already + i <= maxEntries
      invariant directories == Directories(t.entries[..i]) && filenames == Filenames(t.entries[..i])
    {
      scanned := scanned + 1;
      if scanned > maxEntries { return OverLimit, scanned, directories, filenames; }
      var entry := t.entries[i];
      assert t.entries[..i + 1][..i] == t.entries[..i];
      if IsDirectory(entry) { directories := directories + [entry]; } else { filenames := filenames + [entry.name]; }
      i := i + 1;
    }
    if t.failsAfter.Some? { return Failed, scanned, directories, filenames; }
    assert t.entries[..|t.entries|] == t.entries;
    return Complete, scanned, directories, filenames;
  }

  method PushSubdirectories(pending: seq<Node>, path: Path, order: seq<Entry>) returns (more: seq<Node>)
    ensures more == pending + Pushed(path, order)
  {
    more := pending;
    var i := |order|;
    assert order[|order|..] == [];
    while i > 0
      invariant 0 <= i <= |order| && more == pending + Pushed(path, order[i..])
    {
      i := i - 1;
      assert order[i..][1..] == order[i + 1..];
      if order[i].Sub? { more := more + [Node(path + [order[i].name], order[i].tree)]; }
    }
    assert order[0..] == order;
  }

  /** The stack loop does exactly what recursive preorder under the budget does. */
  method Run(root: Tree, maxEntries: nat) returns (w: Walk)
    ensures w == Budgeted(Nodes([], root), maxEntries)
  {
    hide Budgeted, Nodes, NodesAll, Before, EventOf, ScanCount, Pushed;
    var pending := [Node([], root)];
    var scanned: nat, events: seq<Event> := 0, [];
    OneStacked(Node([], root));
    BeforeTwice([], [], Budgeted(Nodes([], root), maxEntries));
    while pending != []
      invariant scanned <= maxEntries
      invariant Before(events, Budgeted(Stacked(pending), maxEntries - scanned)) == Budgeted(Nodes([], root), maxEntries)
      decreases |Stacked(pending)|
    {
      var current, below := pending[|pending| - 1], pending[..|pending| - 1];
      PopIs(pending);
      ghost var rest := (if current.tree.failsAfter.Some? then [] else NodesAll(current.path, current.tree.order)) + Stacked(below);
      BudgetedHead(current, rest, maxEntries - scanned);
      var scan, count, directories, filenames := ScanDirectory(current.tree, scanned, maxEntries);
      if scan.OverLimit? {
        EndsLimited(events);
        return Walk(events, true);
      }
      BeforeTwice(events, [EventOf(current)], Budgeted(rest, maxEntries - count));
      scanned := count;
      EventIs(current);
      if scan.Failed? {
        events := events + [Unreadable(current.path)];
        pending := below;
        assert rest == Stacked(below);
      } else {
        events := events + [Visited(current.path, Names(directories), filenames)];
        pending := PushSubdirectories(below, current.path, current.tree.order);
        StackedPush(below, current.path, current.tree.order);
      }
    }
    EndsWell(events, maxEntries - scanned);
    return Walk(events, false);
  }

  lemma OneStacked(n: Node)
    ensures Stacked([n]) == Nodes(n.path, n.tree)
  {
    assert [n][..0] == [] && Stacked([n][..0]) == [];
    assert Nodes(n.path, n.tree) + [] == Nodes(n.path, n.tree);
  }

  lemma EventIs(n: Node)
    ensures EventOf(n) == if n.tree.failsAfter.Some? then Unreadable(n.path)
                          else Visited(n.path, Names(Directories(n.tree.entries)), Filenames(n.tree.entries))
  {
  }

  lemma EndsLimited(events: seq<Event>)
    ensures Before(events, Walk([], true)) == Walk(events, true)
  {
    assert events + [] == events;
  }

  lemma EndsWell(events: seq<Event>, room: int)
    ensures Before(events, Budgeted(Stacked([]), room)) == Walk(events, false)
  {
    assert events + [] == events;
  }

  /** The limit error is raised exactly when the tree holds more entries than allowed. */
  lemma LimitExactly(root: Tree, maxEntries: nat)
    requires Arranged(root)
    ensures Budgeted(Nodes([], root), maxEntries).limited <==> Total(root) > maxEntries
  {
    hide Arranged;
    LimitedIff(Nodes([], root), maxEntries);
    ScannedIsTotal([], root);
  }

  /** Every directory that names lead to is in the walk exactly once, and nothing else is. */
  lemma EveryDirectoryOnce(root: Tree, n: Node)
    requires Arranged(root) && WellNamed(root)
    ensures n in Nodes([], root) <==> Find(root, n.path) == Some(n.tree)
    ensures OncePerPath(Nodes([], root))
  {
    hide Arranged, WellNamed;
    NodesLead([], root, n);
    NodesOnce([], root);
    assert n.path[0..] == n.path;
  }
}
