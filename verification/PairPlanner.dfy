/**
  Which sync pairs may not run together (app/jobs/pair_planner.py).

  Case folding and the resolution of local paths belong to the host and are
  parameters; resolution yields the components of the resolved path, or None
  when the operating system refuses.
*/
module PairPlanner {
  import opened Results
  import Text

  datatype Host = Host(fold: string -> string, resolve: string -> Option<seq<string>>)

  datatype Pair = Pair(name: string, local: string, remote: string)

  predicate IsRemote(path: string) {
    path != "" && path[0] != '/' && path[0] != '-' && ':' in path
  }

  function TrimLeft(s: string): (r: string)
    ensures r == "" || r[0] != '/'
  {
    if s != "" && s[0] == '/' then TrimLeft(s[1..]) else s
  }

  function TrimRight(s: string): (r: string)
    ensures r == "" || r[|r| - 1] != '/'
    ensures r <= s
  {
    if s != "" && s[|s| - 1] == '/' then TrimRight(s[..|s| - 1]) else s
  }

  function RemoteName(value: string): string {
    Text.Before(value, ':')
  }

  /** The path after the colon with one leading slash and no trailing one; "" at the root. */
  function RemotePath(value: string): (p: string)
    ensures p == "" || p[0] == '/'
  {
    var name := RemoteName(value);
    var raw := if |name| < |value| then value[|name| + 1..] else "";
    TrimRight("/" + TrimLeft(raw))
  }

  function CanonicalRemote(host: Host, value: string): string {
    host.fold(RemoteName(value)) + ":" + RemotePath(value)
  }

  function Folded(host: Host, parts: seq<string>): (r: seq<string>)
    ensures |r| == |parts|
  {
    seq(|parts|, i requires 0 <= i < |parts| => host.fold(parts[i]))
  }

  predicate PathsOverlap(host: Host, a: string, b: string) {
    if a == "" || b == "" || IsRemote(a) != IsRemote(b) then false
    else if IsRemote(a) then
      var aa, bb := CanonicalRemote(host, a), CanonicalRemote(host, b);
      aa == bb || bb + "/" <= aa || aa + "/" <= bb
    else if host.resolve(a).None? || host.resolve(b).None? then true
    else
      var aa, bb := Folded(host, host.resolve(a).value), Folded(host, host.resolve(b).value);
      aa == bb || bb <= aa || aa <= bb
  }

  predicate PairsConflict(host: Host, first: Pair, second: Pair) {
    || PathsOverlap(host, first.local, second.local)
    || PathsOverlap(host, first.local, second.remote)
    || PathsOverlap(host, first.remote, second.local)
    || PathsOverlap(host, first.remote, second.remote)
  }

  predicate HasOverlappingPairs(host: Host, pairs: seq<Pair>) {
    exists i, j :: 0 <= i < j < |pairs| && PairsConflict(host, pairs[i], pairs[j])
  }

  // ---------- what overlapping means ----------

  /** The slash-separated parts of a rooted path. */
  function Parts(p: string): seq<string>
    requires p == "" || p[0] == '/'
  {
    if p == "" then []
    else
      var head := Text.Before(p[1..], '/');
      [head] + Parts(p[1 + |head|..])
  }

  /** y is x itself or something below it. */
  predicate AtOrBelow(y: string, x: string) {
    x == y || x + "/" <= y
  }

  /** Prefix on parts is prefix on strings up to a separator. */
  lemma {:induction false} PartsPrefix(q: string, p: string)
    requires (q == "" || q[0] == '/') && (p == "" || p[0] == '/')
    ensures Parts(q) <= Parts(p) <==> AtOrBelow(p, q)
    decreases |q|
  {
    if q != "" && p != "" {
      var hq, hp := Text.Before(q[1..], '/'), Text.Before(p[1..], '/');
      var q', p' := q[1 + |hq|..], p[1 + |hp|..];
      PartsPrefix(q', p');
      PushHead(hq, Parts(q'), hp, Parts(p'));
      JoinHead(hq, q', hp, p');
      Decompose(q);
      Decompose(p);
    }
  }

  lemma Decompose(p: string)
    requires p != "" && p[0] == '/'
    ensures var h := Text.Before(p[1..], '/'); p == "/" + h + p[1 + |h|..]
  {
    hide Text.Before;
    var h := Text.Before(p[1..], '/');
    assert p[1..][|h|..] == p[1 + |h|..];
    assert p == "/" + p[1..];
  }

  lemma JoinHead(hq: string, q: string, hp: string, p: string)
    requires '/' !in hq && '/' !in hp && (q == "" || q[0] == '/') && (p == "" || p[0] == '/')
    ensures AtOrBelow("/" + hp + p, "/" + hq + q) <==> hq == hp && AtOrBelow(p, q)
  {
    assert "/" + hp + p == "/" + (hp + p) && "/" + hq + q == "/" + (hq + q);
    Extend("/", hq + q, hp + p);
    if AtOrBelow(hp + p, hq + q) { SameHead(hq, q, hp, p); }
    if hq == hp { Extend(hq, q, p); }
  }

  lemma PushHead(a: string, s: seq<string>, b: string, t: seq<string>)
    ensures [a] + s <= [b] + t <==> a == b && s <= t
  {
    if [a] + s <= [b] + t {
      assert ([a] + s)[0] == ([b] + t)[0];
      assert s == ([a] + s)[1..] && t == ([b] + t)[1..];
    }
  }

  /** A common beginning does not matter. */
  lemma Extend(h: string, x: string, y: string)
    ensures AtOrBelow(h + y, h + x) <==> AtOrBelow(y, x)
  {
    assert (h + x)[|h|..] == x && (h + y)[|h|..] == y;
    assert (h + x) + "/" == h + (x + "/");
    if (h + x) + "/" <= h + y {
      assert (h + (x + "/"))[|h|..] == x + "/";
    }
  }

  /** Slash-free heads agree when one path is at or below the other. */
  lemma SameHead(hq: string, q: string, hp: string, p: string)
    requires '/' !in hq && '/' !in hp && (q == "" || q[0] == '/') && (p == "" || p[0] == '/')
    requires AtOrBelow(hp + p, hq + q)
    ensures hq == hp
  {
    var x, y := (hq + q) + "/", (hp + p) + "/";
    assert x <= y;
    assert x == hq + (q + "/") && y == hp + (p + "/");
    Text.BeforeHead(hq, q + "/", '/');
    Text.BeforeHead(hp, p + "/", '/');
    Text.BeforeExtends(x, y, '/');
  }

  /** Where an endpoint lies: which remote (None for local), and its folded parts. */
  datatype Place = Place(remote: Option<string>, parts: seq<string>)

  function PlaceOf(host: Host, path: string): Option<Place> {
    if IsRemote(path) then Some(Place(Some(host.fold(RemoteName(path))), Parts(RemotePath(path))))
    else match host.resolve(path)
      case None => None
      case Some(parts) => Some(Place(None, Folded(host, parts)))
  }

  predicate Inside(inner: Place, outer: Place) {
    inner.remote == outer.remote && outer.parts <= inner.parts
  }

  /** Folding never creates or removes the colon that ends a remote name. */
  ghost predicate KeepsColons(host: Host) {
    forall s: string :: ':' !in s ==> ':' !in host.fold(s)
  }

  /** Two endpoints overlap exactly when one lies inside the other, or when an
      endpoint of the same kind cannot be placed. */
  lemma OverlapIsNesting(host: Host, a: string, b: string)
    requires KeepsColons(host)
    ensures PathsOverlap(host, a, b)
       <==> && a != "" && b != "" && IsRemote(a) == IsRemote(b)
            && (|| PlaceOf(host, a).None? || PlaceOf(host, b).None?
                || Inside(PlaceOf(host, a).value, PlaceOf(host, b).value)
                || Inside(PlaceOf(host, b).value, PlaceOf(host, a).value))
  {
    if IsRemote(a) && IsRemote(b) {
      RemoteNesting(host, a, b);
      RemoteNesting(host, b, a);
    }
  }

  lemma RemoteNesting(host: Host, a: string, b: string)
    requires KeepsColons(host) && IsRemote(a) && IsRemote(b)
    ensures AtOrBelow(CanonicalRemote(host, a), CanonicalRemote(host, b))
       <==> Inside(PlaceOf(host, a).value, PlaceOf(host, b).value)
  {
    var na, nb := host.fold(RemoteName(a)), host.fold(RemoteName(b));
    var pa, pb := RemotePath(a), RemotePath(b);
    PartsPrefix(pb, pa);
    ColonSplit(na, pa, nb, pb);
  }

  /** A colon-free name and the rest are recovered from their concatenation. */
  lemma ColonSplit(na: string, pa: string, nb: string, pb: string)
    requires ':' !in na && ':' !in nb
    ensures AtOrBelow(na + ":" + pa, nb + ":" + pb) <==> na == nb && AtOrBelow(pa, pb)
  {
    var x, y := na + ":" + pa, nb + ":" + pb;
    assert x == na + (":" + pa) && y == nb + (":" + pb);
    if AtOrBelow(x, y) {
      Text.BeforeHead(na, ":" + pa, ':');
      Text.BeforeHead(nb, ":" + pb, ':');
      Text.BeforeExtends(y, x, ':');
    }
    if na == nb { Extend(na + ":", pb, pa); }
  }

  /** Some endpoint of one pair overlaps some endpoint of the other. */
  ghost predicate EndpointsOverlap(host: Host, first: Pair, second: Pair) {
    exists a, b :: a in [first.local, first.remote] && b in [second.local, second.remote] && PathsOverlap(host, a, b)
  }

  lemma ConflictIsOverlap(host: Host, first: Pair, second: Pair)
    ensures PairsConflict(host, first, second) <==> EndpointsOverlap(host, first, second)
  {
    hide PathsOverlap;
    assert first.local in [first.local, first.remote] && first.remote in [first.local, first.remote];
    assert second.local in [second.local, second.remote] && second.remote in [second.local, second.remote];
  }

  function Slashes(n: nat): (r: string)
    ensures |r| == n && forall i :: 0 <= i < n ==> r[i] == '/'
  {
    seq(n, _ => '/')
  }

  /** The parts, each after a slash. */
  function Rooted(parts: seq<string>): (r: string)
    ensures parts == [] <==> r == ""
    ensures r == "" || r[0] == '/'
  {
    if parts == [] then "" else "/" + parts[0] + Rooted(parts[1..])
  }

  lemma TrimmedLeft(n: nat, s: string)
    requires s == "" || s[0] != '/'
    ensures TrimLeft(Slashes(n) + s) == s
  {
    if n > 0 {
      assert (Slashes(n) + s)[1..] == Slashes(n - 1) + s;
      TrimmedLeft(n - 1, s);
    } else {
      assert Slashes(0) + s == s;
    }
  }

  lemma TrimmedRight(s: string, n: nat)
    requires s == "" || s[|s| - 1] != '/'
    ensures TrimRight(s + Slashes(n)) == s
  {
    if n > 0 {
      assert (s + Slashes(n))[..|s + Slashes(n)| - 1] == s + Slashes(n - 1);
      TrimmedRight(s, n - 1);
    } else {
      assert s + Slashes(0) == s;
    }
  }

  lemma PartsOfNext(head: string, rest: string)
    requires '/' !in head && (rest == "" || rest[0] == '/')
    ensures Parts("/" + head + rest) == [head] + Parts(rest)
  {
    var p := "/" + head + rest;
    assert p[1..] == head + rest && p[1 + |head|..] == rest;
    Text.BeforeHead(head, rest, '/');
  }

  lemma {:induction false} PartsOfRooted(parts: seq<string>)
    requires forall p :: p in parts ==> '/' !in p
    ensures Parts(Rooted(parts)) == parts
  {
    if parts != [] {
      assert parts[0] in parts;
      PartsOfRooted(parts[1..]);
      PartsOfNext(parts[0], Rooted(parts[1..]));
    }
  }

  lemma {:induction false} RootedEnd(parts: seq<string>)
    requires parts != [] && parts[|parts| - 1] != "" && '/' !in parts[|parts| - 1]
    ensures var r := Rooted(parts); r[|r| - 1] != '/'
  {
    if |parts| > 1 { RootedEnd(parts[1..]); }
    else { assert Rooted(parts[1..]) == ""; assert parts[0][|parts[0]| - 1] in parts[0]; }
  }

  lemma RemoteSplit(name: string, raw: string)
    requires ':' !in name
    ensures RemoteName(name + ":" + raw) == name && RemotePath(name + ":" + raw) == TrimRight("/" + TrimLeft(raw))
  {
    assert name + ":" + raw == name + (":" + raw);
    Text.BeforeHead(name, ":" + raw, ':');
    assert (name + ":" + raw)[|name| + 1..] == raw;
  }

  lemma PathPlaced(parts: seq<string>, before: nat, after: nat)
    requires parts != [] && forall p :: p in parts ==> p != "" && '/' !in p
    ensures TrimRight("/" + TrimLeft(Slashes(before) + (Rooted(parts)[1..] + Slashes(after)))) == Rooted(parts)
  {
    hide TrimLeft, TrimRight, Slashes;
    var body := Rooted(parts)[1..] + Slashes(after);
    assert parts[0] in parts && parts[|parts| - 1] in parts;
    assert parts[0][0] in parts[0] && body[0] == parts[0][0];
    TrimmedLeft(before, body);
    RootedEnd(parts);
    assert "/" + body == Rooted(parts) + Slashes(after);
    TrimmedRight(Rooted(parts), after);
  }

  /** `name:/a/b/` with any number of slashes at either end is at a/b of the remote `name`. */
  lemma RemotePlaced(host: Host, name: string, parts: seq<string>, before: nat, after: nat)
    requires name != "" && name[0] != '/' && name[0] != '-' && ':' !in name
    requires parts != [] && forall p :: p in parts ==> p != "" && '/' !in p
    ensures PlaceOf(host, name + ":" + (Slashes(before) + (Rooted(parts)[1..] + Slashes(after))))
         == Some(Place(Some(host.fold(name)), parts))
  {
    hide TrimLeft, TrimRight, Slashes, Rooted, Parts, RemoteName, RemotePath;
    var raw := Slashes(before) + (Rooted(parts)[1..] + Slashes(after));
    RemoteSplit(name, raw);
    PathPlaced(parts, before, after);
    PartsOfRooted(parts);
    assert (name + ":" + raw)[|name|] == ':';
  }

  /** An absolute path, one that starts like an option and one without a colon is local,
      at its resolved parts up to case. */
  lemma LocalPlaced(host: Host, path: string, resolved: seq<string>)
    requires path == "" || path[0] == '/' || path[0] == '-' || ':' !in path
    requires host.resolve(path) == Some(resolved)
    ensures var place := PlaceOf(host, path);
            && place.Some? && place.value.remote.None? && |place.value.parts| == |resolved|
            && forall i :: 0 <= i < |resolved| ==> place.value.parts[i] == host.fold(resolved[i])
  {
  }

  /** Which of the two pairs is planned first does not matter. */
  lemma ConflictSymmetric(host: Host, first: Pair, second: Pair)
    ensures PairsConflict(host, first, second) <==> PairsConflict(host, second, first)
  {
    hide PathsOverlap;
    OverlapSymmetric(host, first.local, second.local);
    OverlapSymmetric(host, first.local, second.remote);
    OverlapSymmetric(host, first.remote, second.local);
    OverlapSymmetric(host, first.remote, second.remote);
  }

  lemma OverlapSymmetric(host: Host, a: string, b: string)
    ensures PathsOverlap(host, a, b) <==> PathsOverlap(host, b, a)
  {
    hide IsRemote, CanonicalRemote, Folded;
  }
}
