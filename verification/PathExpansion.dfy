/**
 `_get_path_keys` and the path part of `_filter_new`: expanding a slash path
 with wildcards into concrete paths, and building the filtered tree from them.
 */
module PathExpansion {
  import opened Json
  import opened Text
  import opened MetadataPaths

  type Path = seq<Key>

  // ---- lists of paths ---------------------------------------------------------------

  function Prefixed(p: Path, tails: seq<Path>): (r: seq<Path>)
    ensures |r| == |tails|
    ensures forall i :: 0 <= i < |tails| ==> r[i] == p + tails[i]
  {
    seq(|tails|, i requires 0 <= i < |tails| => p + tails[i])
  }

  /** Every head with every tail, head by head. */
  function Join(heads: seq<Path>, tails: seq<Path>): seq<Path> {
    if heads == [] then [] else Join(heads[..|heads| - 1], tails) + Prefixed(heads[|heads| - 1], tails)
  }

  function Indices(n: nat): (r: seq<Path>)
    ensures |r| == n
    ensures forall i :: 0 <= i < n ==> r[i] == [Idx(i)]
  {
    seq(n, i requires 0 <= i < n => [Idx(i)])
  }

  lemma {:induction false} JoinAppend(a: seq<Path>, b: seq<Path>, tails: seq<Path>)
    ensures Join(a + b, tails) == Join(a, tails) + Join(b, tails)
  {
    if b == [] {
      assert a + b == a;
    } else {
      var ab, n := a + b, |b| - 1;
      assert ab[..|ab| - 1] == a + b[..n] && ab[|ab| - 1] == b[n];
      JoinAppend(a, b[..n], tails);
      var (x, y, z) := (Join(a, tails), Join(b[..n], tails), Prefixed(b[n], tails));
      assert (x + y) + z == x + (y + z);
    }
  }

  lemma JoinNext(a: seq<Path>, i: nat, tails: seq<Path>)
    requires i < |a|
    ensures Join(a[..i + 1], tails) == Join(a[..i], tails) + Prefixed(a[i], tails)
  {
    assert a[..i + 1][..i] == a[..i];
  }

  lemma JoinOne(p: Path, tails: seq<Path>)
    ensures Join([p], tails) == Prefixed(p, tails)
  {
    assert [p][..0] == [];
  }

  lemma {:induction false} PrefixedJoin(p: Path, b: seq<Path>, tails: seq<Path>)
    ensures Prefixed(p, Join(b, tails)) == Join(Prefixed(p, b), tails)
  {
    if b != [] {
      var n := |b| - 1;
      PrefixedJoin(p, b[..n], tails);
      assert Prefixed(p, b)[..n] == Prefixed(p, b[..n]);
      assert Prefixed(p, Join(b[..n], tails) + Prefixed(b[n], tails))
          == Prefixed(p, Join(b[..n], tails)) + Prefixed(p, Prefixed(b[n], tails));
      forall i | 0 <= i < |tails| ensures p + (b[n] + tails[i]) == (p + b[n]) + tails[i] {}
      assert Prefixed(p, Prefixed(b[n], tails)) == Prefixed(p + b[n], tails);
    }
  }

  lemma {:induction false} JoinAssociates(a: seq<Path>, b: seq<Path>, tails: seq<Path>)
    ensures Join(Join(a, b), tails) == Join(a, Join(b, tails))
  {
    if a != [] {
      var n := |a| - 1;
      JoinAssociates(a[..n], b, tails);
      JoinAppend(Join(a[..n], b), Prefixed(a[n], b), tails);
      PrefixedJoin(a[n], b, tails);
    }
  }

  lemma {:induction false} JoinOneTail(a: seq<Path>, tails: seq<Path>)
    requires |tails| == 1 && tails[0] == []
    ensures |Join(a, tails)| == |a|
    ensures forall i :: 0 <= i < |a| ==> Join(a, tails)[i] == a[i]
  {
    if a != [] {
      var n := |a| - 1;
      JoinOneTail(a[..n], tails);
      assert a[n] + tails[0] == a[n];
    }
  }

  lemma JoinUnit(a: seq<Path>)
    ensures Join(a, [[]]) == a
  {
    JoinOneTail(a, [[]]);
  }

  /** Where an element of a join comes from. */
  lemma {:induction false} JoinMember(a: seq<Path>, tails: seq<Path>, p: Path)
    ensures p in Join(a, tails) <==> exists i, j :: 0 <= i < |a| && 0 <= j < |tails| && p == a[i] + tails[j]
  {
    if a != [] {
      var n := |a| - 1;
      JoinMember(a[..n], tails, p);
      if p in Join(a[..n], tails) {
        var i, j :| 0 <= i < n && 0 <= j < |tails| && p == a[..n][i] + tails[j];
        assert p == a[i] + tails[j];
      }
      if p in Prefixed(a[n], tails) {
        var j :| 0 <= j < |tails| && p == Prefixed(a[n], tails)[j];
        assert p == a[n] + tails[j];
      }
      if i, j :| 0 <= i < |a| && 0 <= j < |tails| && p == a[i] + tails[j] {
        if i < n {
          assert p == a[..n][i] + tails[j];
        } else {
          assert p == Prefixed(a[n], tails)[j];
        }
      }
    }
  }

  predicate AllDistinct(ps: seq<Path>) {
    forall i, j :: 0 <= i < j < |ps| ==> ps[i] != ps[j]
  }

  predicate AllOfLength(ps: seq<Path>, n: nat) {
    forall i :: 0 <= i < |ps| ==> |ps[i]| == n
  }

  lemma PrefixedShape(p: Path, tails: seq<Path>, n: nat)
    requires AllDistinct(tails) && AllOfLength(tails, n)
    ensures AllDistinct(Prefixed(p, tails)) && AllOfLength(Prefixed(p, tails), |p| + n)
  {
    var r := Prefixed(p, tails);
    forall i, j | 0 <= i < j < |r| ensures r[i] != r[j] {
      assert r[i][|p|..] == tails[i] && r[j][|p|..] == tails[j];
    }
  }

  /** Extensions of other heads of the same length are not among the extensions of `p`. */
  lemma OtherHeads(a: seq<Path>, p: Path, tails: seq<Path>, m: nat, q: Path)
    requires AllOfLength(a, m) && |p| == m && p !in a && q in Join(a, tails)
    ensures q !in Prefixed(p, tails)
  {
    JoinMember(a, tails, q);
    var x, y :| 0 <= x < |a| && 0 <= y < |tails| && q == a[x] + tails[y];
    assert q[..m] == a[x];
    forall j | 0 <= j < |tails| ensures Prefixed(p, tails)[j] != q {
      assert (p + tails[j])[..m] == p;
    }
  }

  lemma AppendDistinct(a: seq<Path>, b: seq<Path>)
    requires AllDistinct(a) && AllDistinct(b) && forall p :: p in a ==> p !in b
    ensures AllDistinct(a + b)
  {
    forall i, j | 0 <= i < |a| && 0 <= j < |b| ensures a[i] != b[j] {
      assert a[i] in a && b[j] in b;
    }
  }

  lemma OneMoreTime(k: nat, n: nat)
    ensures (k + 1) * n == k * n + n
  {
  }

  lemma {:induction false} JoinShape(a: seq<Path>, tails: seq<Path>, m: nat, n: nat)
    requires AllDistinct(a) && AllDistinct(tails) && AllOfLength(a, m) && AllOfLength(tails, n)
    ensures AllDistinct(Join(a, tails)) && AllOfLength(Join(a, tails), m + n)
    ensures |Join(a, tails)| == |a| * |tails|
  {
    if a != [] {
      var k := |a| - 1;
      JoinShape(a[..k], tails, m, n);
      PrefixedShape(a[k], tails, n);
      forall p | p in Join(a[..k], tails) ensures p !in Prefixed(a[k], tails) {
        OtherHeads(a[..k], a[k], tails, m, p);
      }
      AppendDistinct(Join(a[..k], tails), Prefixed(a[k], tails));
      OneMoreTime(k, |tails|);
    }
  }

  // ---- expansion ----------------------------------------------------------------------

  datatype Expansion = Paths(ps: seq<Path>) | Invalid

  /** The key under which `k` is stored: `k` itself, or else the last key whose lower-case form is `k`. */
  function Resolve(items: seq<Entry>, k: string): string {
    if Has(items, k) then k else LastLower(items, k)
  }

  function LastLower(items: seq<Entry>, k: string): string {
    if items == [] then k
    else if Lower(items[|items| - 1].key) == k then items[|items| - 1].key
    else LastLower(items[..|items| - 1], k)
  }

  function Under(head: seq<Path>, e: Expansion): Expansion {
    if e.Paths? then Paths(Join(head, e.ps)) else Invalid
  }

  /** What one key contributes to every path so far, and the node the rest of the path applies to. */
  datatype KeyStep = Onward(head: seq<Path>, next: Json) | Stuck

  function Follow(meta: Json, key: string): KeyStep {
    if IsDigits(key) && meta.List? then
      var n := ToNat(key);
      if n < |meta.elems| then Onward([[Idx(n)]], meta.elems[n]) else Stuck
    else if key == "*" || key == "" then
      if !meta.List? then Onward([[]], meta)
      else if meta.elems == [] then Stuck
      else Onward(Indices(|meta.elems|), meta.elems[0])
    else if meta.Dict? && Has(meta.items, Resolve(meta.items, key)) then
      var k := Resolve(meta.items, key);
      Onward([[Name(k)]], Get(meta.items, k))
    else Stuck
  }

  function Expand(meta: Json, path: seq<string>): Expansion {
    if path == [] then Paths([[]])
    else
      match Follow(meta, path[0])
      case Stuck => Invalid
      case Onward(head, next) => Under(head, Expand(next, path[1..]))
  }

  /** The list while the loop below is at `i`: extended paths, then those still to be extended. */
  ghost function Extending(paths: seq<Path>, i: nat, tails: seq<Path>): seq<Path>
    requires i <= |paths|
  {
    Join(paths[..i], tails) + paths[i..]
  }

  lemma ExtendStep(paths: seq<Path>, i: nat, t: Path)
    requires i < |paths|
    ensures var r := Extending(paths, i, [t]);
            |r| == |paths| && r[i] == paths[i] && Extending(paths, i + 1, [t]) == r[i := paths[i] + t]
  {
    var r, done := Extending(paths, i, [t]), Join(paths[..i], [t]);
    JoinLength(paths[..i], t);
    JoinNext(paths, i, [t]);
    assert Prefixed(paths[i], [t]) == [paths[i] + t];
    assert r[i := paths[i] + t] == (done + [paths[i] + t]) + paths[i + 1..];
  }

  /** The loop that appends one key to every path so far. */
  method AppendKey(paths: seq<Path>, k: Key) returns (r: seq<Path>)
    ensures r == Join(paths, [[k]])
  {
    r := paths;
    var i := 0;
    assert r == Extending(paths, 0, [[k]]);
    while i < |paths|
      invariant 0 <= i <= |paths| && |r| == |paths|
      invariant r == Extending(paths, i, [[k]])
    {
      ExtendStep(paths, i, [k]);
      r := r[i := r[i] + [k]];
      i := i + 1;
    }
    assert paths[..i] == paths;
  }

  lemma {:induction false} JoinLength(a: seq<Path>, t: Path)
    ensures |Join(a, [t])| == |a|
  {
    if a != [] {
      JoinLength(a[..|a| - 1], t);
    }
  }

  function Without(l: seq<Path>, p: Path): seq<Path> {
    if l == [] then [] else if l[0] == p then l[1..] else [l[0]] + Without(l[1..], p)
  }

  /** The inner loop of the wildcard: one path with every index of the list. */
  method AppendIndices(base: seq<Path>, p: Path, n: nat) returns (r: seq<Path>)
    ensures r == base + Prefixed(p, Indices(n))
  {
    r := base;
    var i := 0;
    while i < n
      invariant 0 <= i <= n
      invariant r == base + Prefixed(p, Indices(n))[..i]
    {
      r := r + [p + [Idx(i)]];
      i := i + 1;
    }
  }

  /** The list while the wildcard's outer loop is at `j`: the paths still to be replaced, then their replacements. */
  ghost function Replacing(paths: seq<Path>, j: nat, tails: seq<Path>): seq<Path>
    requires j <= |paths|
  {
    paths[j..] + Join(paths[..j], tails)
  }

  lemma ReplaceStep(paths: seq<Path>, j: nat, tails: seq<Path>)
    requires j < |paths|
    ensures Without(Replacing(paths, j, tails), paths[j]) + Prefixed(paths[j], tails)
         == Replacing(paths, j + 1, tails)
  {
    var (rest, done, more) := (paths[j + 1..], Join(paths[..j], tails), Prefixed(paths[j], tails));
    var r := Replacing(paths, j, tails);
    assert r[0] == paths[j] && r[1..] == rest + done;
    JoinNext(paths, j, tails);
    assert (rest + done) + more == rest + (done + more);
  }

  /** The loop that replaces every path so far by its n extensions: remove one, append n. */
  method ReplaceByIndices(paths: seq<Path>, n: nat) returns (r: seq<Path>)
    ensures r == Join(paths, Indices(n))
  {
    r := paths;
    var j := 0;
    assert r == Replacing(paths, 0, Indices(n));
    while j < |paths|
      invariant 0 <= j <= |paths|
      invariant r == Replacing(paths, j, Indices(n))
    {
      ReplaceStep(paths, j, Indices(n));
      r := Without(r, paths[j]);
      r := AppendIndices(r, paths[j], n);
      j := j + 1;
    }
    assert paths[..j] == paths;
  }

  /** What one key does to the paths so far. */
  method OneKey(meta: Json, key: string, keys: seq<Path>) returns (ok: bool, r: seq<Path>, next: Json)
    ensures ok <==> Follow(meta, key).Onward?
    ensures ok ==> r == Join(keys, Follow(meta, key).head) && next == Follow(meta, key).next
  {
    ok, r, next := false, keys, meta;
    if IsDigits(key) && meta.List? {
      var n := ToNat(key);
      if n < |meta.elems| {
        r := AppendKey(keys, Idx(n));
        ok, next := true, meta.elems[n];
      }
    } else if key == "*" || key == "" {
      if !meta.List? {
        JoinUnit(keys);
        ok := true;
      } else {
        r := ReplaceByIndices(keys, |meta.elems|);
        if |meta.elems| > 0 {
          ok, next := true, meta.elems[0];
        }
      }
    } else if meta.Dict? {
      var k := Resolve(meta.items, key);
      r := AppendKey(keys, Name(k));
      if Has(meta.items, k) {
        ok, next := true, Get(meta.items, k);
      }
    }
  }

  /** `_get_path_keys`: the list of paths is extended key by key; `ok` is false where the program raises. */
  method GetPathKeys(meta: Json, path: seq<string>, newKeys: seq<Path>) returns (ok: bool, r: seq<Path>)
    requires path != []
    ensures ok <==> Expand(meta, path).Paths?
    ensures ok ==> r == Join(if newKeys == [] then [[]] else newKeys, Expand(meta, path).ps)
    decreases |path|
  {
    var keys: seq<Path> := if |newKeys| == 0 then [[]] else newKeys;
    var next;
    ok, r, next := OneKey(meta, path[0], keys);
    if !ok {
      return;
    }
    ghost var head := Follow(meta, path[0]).head;
    if |path| > 1 {
      JoinNonEmpty(keys, head);
      ok, r := GetPathKeys(next, path[1..], r);
      if ok {
        JoinAssociates(keys, head, Expand(next, path[1..]).ps);
      }
    } else {
      assert path[1..] == [];
      JoinUnit(head);
    }
  }

  lemma {:induction false} JoinNonEmpty(a: seq<Path>, b: seq<Path>)
    requires a != [] && b != []
    ensures Join(a, b) != []
  {
  }

  lemma JoinIdentity(ps: seq<Path>)
    ensures Join([[]], ps) == ps
  {
    JoinOne([], ps);
    forall i | 0 <= i < |ps| ensures [] + ps[i] == ps[i] {}
    assert Prefixed([], ps) == ps;
  }
}
