/**
 What path filters guarantee: the shape of an expansion, that its paths resolve,
 and that the filtered tree reads like the source along every one of them.
 */
module PathFilter {
  import opened Json
  import opened Text
  import opened MetadataPaths
  import opened PathExpansion

  /** The value a path leads to through lists and dictionaries only. */
  function Walk(t: Json, p: Path): Lookup
    decreases |p|
  {
    if p == [] then Found(t)
    else
      match t
      case List(elems) => if p[0].Idx? && p[0].i < |elems| then Walk(elems[p[0].i], p[1..]) else Missing
      case Dict(items) => if p[0].Name? && Has(items, p[0].s) then Walk(Get(items, p[0].s), p[1..]) else Missing
      case _ => Missing
  }

  lemma {:induction false} WalkIsGet(t: Json, p: Path)
    requires p != [] && Walk(t, p).Found?
    ensures GetByPath(t, p) == Walk(t, p)
    decreases |p|
  {
    if |p| > 1 {
      WalkIsGet(Down(t, p[0]).v, p[1..]);
    } else {
      assert p[1..] == [];
    }
  }

  lemma {:induction false} TextHoldsNothing(s: string, p: Path)
    ensures !GetByPath(Str(s), p).Found?
    decreases |p|
  {
    if |p| > 1 && Down(Str(s), p[0]).Found? {
      TextHoldsNothing([s[p[0].i]], p[1..]);
    }
  }

  /** A read finds a value exactly when the path leads to it through lists and dictionaries. */
  lemma {:induction false} GetIsWalk(t: Json, p: Path, v: Json)
    ensures GetByPath(t, p) == Found(v) <==> p != [] && Walk(t, p) == Found(v)
    decreases |p|
  {
    if |p| > 1 {
      if Down(t, p[0]).Found? {
        GetIsWalk(Down(t, p[0]).v, p[1..], v);
        if t.Str? {
          TextHoldsNothing(t.s, p);
        }
      }
    } else if |p| == 1 {
      assert p[1..] == [];
    }
  }

  lemma {:induction false} GetAfter(t: Json, p: Path, i: nat)
    requires i < |p| && Walk(t, p[..i]).Found?
    ensures GetByPath(t, p) == GetByPath(Walk(t, p[..i]).v, p[i..])
    decreases i
  {
    if i == 0 {
      assert p[..0] == [] && p[0..] == p;
    } else {
      assert p[..i][1..] == p[1..][..i - 1] && p[..i][0] == p[0] && p[1..][i - 1..] == p[i..];
      GetAfter(Down(t, p[0]).v, p[1..], i - 1);
    }
  }

  /** Python takes numbers and truth values to be the same: the list has the number. */
  predicate NumberIn(k: nat, elems: seq<Json>) {
    exists j :: 0 <= j < |elems| &&
      (elems[j] == Num(k as real) || (elems[j] == Bool(true) && k == 1) || (elems[j] == Bool(false) && k == 0))
  }

  ghost predicate Within(part: string, s: string) {
    exists front: string, back: string :: s == front + part + back
  }

  lemma {:induction false} OccursIs(part: string, s: string)
    ensures Occurs(part, s) <==> Within(part, s)
  {
    if part <= s {
      assert s == "" + part + s[|part|..];
    } else if s != "" {
      OccursIs(part, s[1..]);
      if front, back :| s == front + part + back {
        assert front != "" by {
          assert front == "" ==> front + part == part;
        }
        assert s[1..] == front[1..] + part + back;
      }
      if front, back :| s[1..] == front + part + back {
        assert s == ([s[0]] + front) + part + back;
      }
    }
  }

  /** Where a read finds nothing: None where a name is missing, at any depth, or a final index; else it raises. */
  lemma {:induction false} ReadStops(t: Json, p: Path, i: nat)
    requires i < |p| && Walk(t, p[..i]).Found?
    ensures var (d, k, last, r) := (Walk(t, p[..i]).v, p[i], i == |p| - 1, GetByPath(t, p));
            && (d.Dict? && k.Name? && !Has(d.items, k.s) ==> r == Missing)
            && (d.Dict? && k.Idx? ==> r == if last then Missing else Raised)
            && (d.List? && k.Idx? && k.i >= |d.elems| ==>
                  r == if last && !NumberIn(k.i, d.elems) then Missing else Raised)
            && (d.List? && k.Name? && last ==> r == Raised)
            && (d.List? && k.Name? && !last ==> r == if Str(k.s) in d.elems then Raised else Missing)
            && (d.Null? || d.Bool? || d.Num? ==> r == Raised)
  {
    GetAfter(t, p, i);
    assert p[i..][0] == p[i];
  }

  /** A read that comes to a text: an index goes on with one character of it, a name is looked for in it. */
  lemma {:induction false} ReadStopsInText(t: Json, p: Path, i: nat, s: string)
    requires i < |p| && Walk(t, p[..i]) == Found(Str(s))
    ensures var (k, last, r) := (p[i], i == |p| - 1, GetByPath(t, p));
            match k
            case Name(n) => r == if Within(n, s) then Raised else Missing
            case Idx(x) => r == if last || x >= |s| then Raised else GetByPath(Str([s[x]]), p[i + 1..])
  {
    GetAfter(t, p, i);
    assert p[i..][0] == p[i] && p[i..][1..] == p[i + 1..];
    if p[i].Name? {
      OccursIs(p[i].s, s);
    }
  }

  /** What becomes of a write that goes on below an existing container. */
  lemma {:induction false} SetAfter(t: Json, p: Path, i: nat, v: Json, create: bool)
    requires i < |p| && Walk(t, p[..i]).Found?
    ensures var (r, o) := (SetByPath(t, p, v, create), SetByPath(Walk(t, p[..i]).v, p[i..], v, create));
            && (o.Failed? ==> r.Failed?) && (o.IntKeyed? ==> r.IntKeyed?) && (o.Done? ==> r.Done?)
            && (o == Unset(Walk(t, p[..i]).v) ==> r == Unset(t))
    decreases i
  {
    if i == 0 {
      assert p[..0] == [] && p[0..] == p;
    } else {
      var child := Down(t, p[0]).v;
      assert p[..i][1..] == p[1..][..i - 1] && p[..i][0] == p[0] && p[1..][i - 1..] == p[i..];
      SetAfter(child, p[1..], i - 1, v, create);
      assert Prepare(t, p[0], p[1], create) == Into(t, child);
      AttachSame(t, p[0]);
    }
  }

  /** Putting the child back as it was changes nothing. */
  lemma AttachSame(t: Json, k: Key)
    requires !t.Str? && Down(t, k).Found?
    ensures Attach(t, k, Unset(Down(t, k).v)) == Unset(t)
  {
    if t.Dict? && k.Name? {
      PutSame(t.items, k.s);
    }
  }

  /** Where a write stops: with creation off a missing name leaves everything as it is, and the errors. */
  lemma {:induction false} WriteStops(t: Json, p: Path, i: nat, v: Json, create: bool)
    requires i < |p| && Walk(t, p[..i]).Found?
    ensures var (d, k, last, r) := (Walk(t, p[..i]).v, p[i], i == |p| - 1, SetByPath(t, p, v, create));
            && (d.Dict? && k.Name? && !Has(d.items, k.s) && !last && !create ==> r == Unset(t))
            && (!d.List? && k.Idx? && !last ==> r == Failed)
            && (d.List? && k.Name? && !last ==> r == if create || Str(k.s) in d.elems then Failed else Unset(t))
            && (d.Str? && k.Name? && !last ==> r == if create || Within(k.s, d.s) then Failed else Unset(t))
            && (d.Null? || d.Bool? || d.Num? ==> r == Failed)
            && (d.Dict? && k.Name? && last ==> r.Done?)
            && (d.Dict? && k.Idx? && last ==> r == IntKeyed)
            && (d.List? && last ==> if k.Idx? then r.Done? else r == Failed)
            && (!d.List? && !d.Dict? && last ==> r == Failed)
  {
    SetAfter(t, p, i, v, create);
    assert p[i..][0] == p[i];
    if Walk(t, p[..i]).v.Str? && p[i].Name? {
      OccursIs(p[i].s, Walk(t, p[..i]).v.s);
    }
  }

  // ---- the shape of an expansion --------------------------------------------------------

  /** The product of the lengths of the lists a wildcard meets. */
  function WildcardProduct(meta: Json, path: seq<string>): nat {
    if path == [] then 1
    else
      var key, rest := path[0], path[1..];
      if IsDigits(key) && meta.List? then
        if ToNat(key) < |meta.elems| then WildcardProduct(meta.elems[ToNat(key)], rest) else 0
      else if key == "*" || key == "" then
        if !meta.List? then WildcardProduct(meta, rest)
        else if meta.elems == [] then 0
        else |meta.elems| * WildcardProduct(meta.elems[0], rest)
      else if meta.Dict? && Has(meta.items, Resolve(meta.items, key)) then
        WildcardProduct(Get(meta.items, Resolve(meta.items, key)), rest)
      else 0
  }

  /** The keys that end up in the concrete paths: wildcards on anything but a list leave no trace. */
  function Depth(meta: Json, path: seq<string>): nat {
    if path == [] || Follow(meta, path[0]).Stuck? then 0
    else
      var next := Follow(meta, path[0]).next;
      Depth(next, path[1..]) + (if path[0] in {"*", ""} && !meta.List? then 0 else 1)
  }

  lemma HeadShape(meta: Json, key: string)
    requires Follow(meta, key).Onward?
    ensures var head := Follow(meta, key).head;
            && AllDistinct(head) && head != []
            && AllOfLength(head, if key in {"*", ""} && !meta.List? then 0 else 1)
            && |head| == (if key in {"*", ""} && meta.List? then |meta.elems| else 1)
  {
    var head := Follow(meta, key).head;
    if key in {"*", ""} && meta.List? {
      assert forall i, j :: 0 <= i < j < |head| ==> head[i][0] != head[j][0];
    }
  }

  lemma ProductStep(meta: Json, path: seq<string>)
    requires path != [] && Follow(meta, path[0]).Onward?
    ensures var f := Follow(meta, path[0]);
            WildcardProduct(meta, path) == |f.head| * WildcardProduct(f.next, path[1..])
  {
    var f := Follow(meta, path[0]);
    var rest := WildcardProduct(f.next, path[1..]);
    assert |f.head| == 1 ==> |f.head| * rest == rest;
  }

  /** Concrete paths are distinct, of one length, and as many as the product of the wildcard lists. */
  lemma {:induction false} ExpansionShape(meta: Json, path: seq<string>)
    requires Expand(meta, path).Paths?
    ensures var ps := Expand(meta, path).ps;
            && AllDistinct(ps)
            && AllOfLength(ps, Depth(meta, path))
            && |ps| == WildcardProduct(meta, path)
    decreases |path|
  {
    if path != [] {
      var f := Follow(meta, path[0]);
      HeadShape(meta, path[0]);
      ProductStep(meta, path);
      var (d, tails) := (Depth(f.next, path[1..]), Expand(f.next, path[1..]));
      assert Expand(meta, path) == Under(f.head, tails);
      ExpansionShape(f.next, path[1..]);
      JoinShape(f.head, tails.ps, |f.head[0]|, d);
    }
  }

  // ---- the paths resolve ---------------------------------------------------------------------

  /** Same kind of node, same keys in the same order, same lengths, all the way down. */
  predicate SameShape(a: Json, b: Json) {
    match (a, b)
    case (List(x), List(y)) => |x| == |y| && forall i :: 0 <= i < |x| ==> SameShape(x[i], y[i])
    case (Dict(x), Dict(y)) =>
      |x| == |y| && forall i :: 0 <= i < |x| ==> x[i].key == y[i].key && SameShape(x[i].val, y[i].val)
    case _ => !a.List? && !b.List? && !a.Dict? && !b.Dict?
  }

  /** Every list element has the shape of element 0. */
  predicate Uniform(t: Json) {
    match t
    case List(elems) => forall i :: 0 <= i < |elems| ==> SameShape(elems[0], elems[i]) && Uniform(elems[i])
    case Dict(items) => forall i :: 0 <= i < |items| ==> Uniform(items[i].val)
    case _ => true
  }

  lemma {:induction false} SameKeys(x: seq<Entry>, y: seq<Entry>, k: string)
    requires |x| == |y| && forall i :: 0 <= i < |x| ==> x[i].key == y[i].key
    ensures Find(x, k) == Find(y, k) && LastLower(x, k) == LastLower(y, k)
  {
    if Has(x, k) {
      FindUnique(y, k, Find(x, k));
    }
    if Has(y, k) {
      FindUnique(x, k, Find(y, k));
    }
    if x != [] {
      SameKeys(x[..|x| - 1], y[..|y| - 1], k);
    }
  }

  lemma {:induction false} SameShapeSameStep(a: Json, b: Json, key: string)
    requires SameShape(a, b)
    ensures var (f, g) := (Follow(a, key), Follow(b, key));
            f.Onward? == g.Onward? && (f.Onward? ==> f.head == g.head && SameShape(f.next, g.next))
  {
    if a.Dict? {
      SameKeys(a.items, b.items, key);
      SameKeys(a.items, b.items, Resolve(a.items, key));
    }
  }

  lemma {:induction false} SameShapeSameExpansion(a: Json, b: Json, path: seq<string>)
    requires SameShape(a, b)
    ensures Expand(a, path) == Expand(b, path)
    decreases |path|
  {
    if path != [] {
      SameShapeSameStep(a, b, path[0]);
      if Follow(a, path[0]).Onward? {
        SameShapeSameExpansion(Follow(a, path[0]).next, Follow(b, path[0]).next, path[1..]);
      }
    }
  }

  /** Wherever a key leads, every element it fans out to expands like the one the walk continues with. */
  lemma StepResolves(meta: Json, key: string, rest: seq<string>, k: Key)
    requires Uniform(meta) && Follow(meta, key).Onward? && [k] in Follow(meta, key).head
    ensures Down(meta, k).Found? && Uniform(Down(meta, k).v)
    ensures Expand(Down(meta, k).v, rest) == Expand(Follow(meta, key).next, rest)
    ensures forall p :: Walk(meta, [k] + p) == Walk(Down(meta, k).v, p)
  {
    var child := Down(meta, k).v;
    if meta.List? && key in {"*", ""} {
      SameShapeSameExpansion(Follow(meta, key).next, child, rest);
    }
    forall p ensures Walk(meta, [k] + p) == Walk(child, p) {
      WalkDown(meta, k, p);
    }
  }

  lemma WalkDown(meta: Json, k: Key, p: Path)
    requires (meta.List? || meta.Dict?) && Down(meta, k).Found?
    ensures Walk(meta, [k] + p) == Walk(Down(meta, k).v, p)
  {
    assert ([k] + p)[1..] == p;
  }

  lemma TraceLess(meta: Json, key: string)
    requires Follow(meta, key).Onward? && Follow(meta, key).head == [[]]
    ensures Follow(meta, key).next == meta
  {
    var head := Follow(meta, key).head;
    assert head[0] == [];
  }

  /** In a uniform tree every concrete path leads to a value. */
  lemma {:induction false} PathsResolve(meta: Json, path: seq<string>, p: Path)
    requires Uniform(meta) && Expand(meta, path).Paths? && p in Expand(meta, path).ps
    ensures Walk(meta, p).Found?
    decreases |path|
  {
    if path != [] {
      var key, rest := path[0], path[1..];
      var f := Follow(meta, key);
      var tails := Expand(f.next, rest);
      assert Expand(meta, path) == Under(f.head, tails);
      if f.head == [[]] {
        TraceLess(meta, key);
        JoinIdentity(tails.ps);
        PathsResolve(meta, rest, p);
      } else {
        HeadShape(meta, key);
        HeadAndTail(f.head, tails.ps, p);
        StepResolves(meta, key, rest, p[0]);
        PathsResolve(Down(meta, p[0]).v, rest, p[1..]);
        assert p == [p[0]] + p[1..];
      }
    }
  }

  lemma HeadAndTail(heads: seq<Path>, tails: seq<Path>, p: Path)
    requires p in Join(heads, tails) && AllOfLength(heads, 1)
    ensures p != [] && [p[0]] in heads && p[1..] in tails
  {
    JoinMember(heads, tails, p);
    var i, j :| 0 <= i < |heads| && 0 <= j < |tails| && p == heads[i] + tails[j];
    assert p[1..] == tails[j] && [p[0]] == heads[i];
  }

  // ---- which paths an expansion has ---------------------------------------------------------------

  /** The key a name stands for: itself, or else the last key that is the name in lower case. */
  ghost predicate KeyFor(items: seq<Entry>, name: string, k: string) {
    if exists i :: 0 <= i < |items| && items[i].key == name then k == name
    else exists i :: 0 <= i < |items| && IsLastLower(items, name, i) && items[i].key == k
  }

  ghost predicate IsLastLower(items: seq<Entry>, name: string, i: nat)
    requires i < |items|
  {
    Lower(items[i].key) == name && forall j :: i < j < |items| ==> Lower(items[j].key) != name
  }

  /** The path fits the filter, key by key, in the tree itself. */
  ghost predicate Matches(t: Json, filter: seq<string>, p: Path)
    decreases |filter|
  {
    if filter == [] then p == []
    else
      var (key, rest) := (filter[0], filter[1..]);
      if IsDigits(key) && t.List? then
        p != [] && p[0] == Idx(ToNat(key)) && p[0].i < |t.elems| && Matches(t.elems[p[0].i], rest, p[1..])
      else if key == "*" || key == "" then
        if t.List? then p != [] && p[0].Idx? && p[0].i < |t.elems| && Matches(t.elems[p[0].i], rest, p[1..])
        else Matches(t, rest, p)
      else
        && t.Dict? && p != [] && p[0].Name? && KeyFor(t.items, key, p[0].s) && Has(t.items, p[0].s)
        && Matches(Get(t.items, p[0].s), rest, p[1..])
  }

  lemma LastLowerOneMore(front: seq<Entry>, last: Entry, name: string, i: nat)
    requires i < |front|
    ensures Lower(last.key) != name && IsLastLower(front, name, i) ==> IsLastLower(front + [last], name, i)
    ensures Lower(last.key) == name ==> IsLastLower(front + [last], name, |front|)
  {
  }

  lemma {:induction false} LastLowerAt(items: seq<Entry>, name: string) returns (i: nat)
    ensures i < |items| ==> IsLastLower(items, name, i) && LastLower(items, name) == items[i].key
    ensures i >= |items| ==>
              LastLower(items, name) == name && forall j :: 0 <= j < |items| ==> Lower(items[j].key) != name
  {
    var n := |items| - 1;
    if items == [] {
      i := 0;
    } else if Lower(items[n].key) == name {
      i := n;
    } else {
      i := LastLowerAt(items[..n], name);
      if i >= n {
        i := n + 1;
        forall j | 0 <= j < n ensures Lower(items[j].key) != name {
          assert items[..n][j] == items[j];
        }
      } else {
        LastLowerOneMore(items[..n], items[n], name, i);
        assert items == items[..n] + [items[n]];
      }
    }
  }

  lemma KeyForIs(items: seq<Entry>, name: string, k: string)
    ensures KeyFor(items, name, k) && Has(items, k) <==> Has(items, Resolve(items, name)) && k == Resolve(items, name)
  {
    HasIff(items, name);
    var i := LastLowerAt(items, name);
    if i < |items| {
      HasIff(items, items[i].key);
    }
    if j :| 0 <= j < |items| && IsLastLower(items, name, j) {
      assert j == i;
    }
  }

  /** One key of a filter: what the expansion follows is what matches. */
  lemma MatchStep(t: Json, filter: seq<string>, p: Path)
    requires filter != [] && !(filter[0] in {"*", ""} && !t.List?)
    ensures var f := Follow(t, filter[0]);
            Matches(t, filter, p) <==>
            && f.Onward? && p != [] && [p[0]] in f.head
            && Down(t, p[0]).Found? && Matches(Down(t, p[0]).v, filter[1..], p[1..])
  {
    var key := filter[0];
    if IsDigits(key) && t.List? {
    } else if key in {"*", ""} {
      if p != [] && p[0].Idx? && p[0].i < |t.elems| {
        assert Indices(|t.elems|)[p[0].i] == [p[0]];
      }
    } else if t.Dict? && p != [] && p[0].Name? {
      KeyForIs(t.items, key, p[0].s);
    }
  }

  lemma {:induction false} ExpansionNonEmpty(meta: Json, path: seq<string>)
    requires Expand(meta, path).Paths?
    ensures Expand(meta, path).ps != []
    decreases |path|
  {
    if path != [] {
      var f := Follow(meta, path[0]);
      ExpansionNonEmpty(f.next, path[1..]);
      HeadShape(meta, path[0]);
      JoinNonEmpty(f.head, Expand(f.next, path[1..]).ps);
    }
  }

  /** In a uniform tree an expansion is exactly the paths that match, and invalid exactly when none does. */
  lemma {:induction false} ExpansionIsMatching(t: Json, filter: seq<string>, p: Path)
    requires Uniform(t)
    ensures Matches(t, filter, p) <==> Expand(t, filter).Paths? && p in Expand(t, filter).ps
    ensures Expand(t, filter).Paths? ==> Expand(t, filter).ps != []
    decreases |filter|
  {
    if Expand(t, filter).Paths? {
      ExpansionNonEmpty(t, filter);
    }
    if filter != [] {
      var (key, rest) := (filter[0], filter[1..]);
      var f := Follow(t, key);
      if key in {"*", ""} && !t.List? {
        ExpansionIsMatching(t, rest, p);
        if Expand(t, rest).Paths? {
          JoinIdentity(Expand(t, rest).ps);
        }
      } else {
        MatchStep(t, filter, p);
        if f.Onward? {
          FollowedMatches(t, filter, p);
        }
      }
    }
  }

  lemma {:induction false} FollowedMatches(t: Json, filter: seq<string>, p: Path)
    requires Uniform(t) && filter != [] && !(filter[0] in {"*", ""} && !t.List?)
    requires Follow(t, filter[0]).Onward?
    ensures Matches(t, filter, p) <==> Expand(t, filter).Paths? && p in Expand(t, filter).ps
    decreases |filter|, 0
  {
    var (key, rest) := (filter[0], filter[1..]);
    var f := Follow(t, key);
    var tails := Expand(f.next, rest);
    HeadShape(t, key);
    MatchStep(t, filter, p);
    if p != [] && [p[0]] in f.head {
      StepResolves(t, key, rest, p[0]);
      ExpansionIsMatching(Down(t, p[0]).v, rest, p[1..]);
    }
    if tails.Paths? {
      if p in Join(f.head, tails.ps) {
        HeadAndTail(f.head, tails.ps, p);
      }
      if p != [] && [p[0]] in f.head && p[1..] in tails.ps {
        HeadThenTail(f.head, tails.ps, p);
      }
    }
  }

  lemma HeadThenTail(heads: seq<Path>, tails: seq<Path>, p: Path)
    requires p != [] && [p[0]] in heads && p[1..] in tails
    ensures p in Join(heads, tails)
  {
    var i :| 0 <= i < |heads| && heads[i] == [p[0]];
    var j :| 0 <= j < |tails| && tails[j] == p[1..];
    assert p == heads[i] + tails[j];
    JoinMember(heads, tails, p);
  }

  // ---- the filtered tree ------------------------------------------------------------------------

  datatype Pick = Pick(path: Path, value: Json)
  datatype Picks = Picked(picks: seq<Pick>) | Bad
  datatype Tree = Tree(t: Json) | NoTree

  /** The values at concrete paths; a missing one is None, which is stored as null. */
  function PickAll(meta: Json, ps: seq<Path>): Picks {
    if ps == [] then Picked([])
    else
      var n := |ps| - 1;
      match PickAll(meta, ps[..n])
      case Bad => Bad
      case Picked(picks) =>
        match GetByPath(meta, ps[n])
        case Found(v) => Picked(picks + [Pick(ps[n], v)])
        case Missing => Picked(picks + [Pick(ps[n], Null)])
        case Raised => Bad
  }

  predicate Raises(meta: Json, p: Path) {
    GetByPath(meta, p) == Raised
  }

  /** There are no picks exactly when the read of some path raises. */
  lemma {:induction false} BadWhenRaised(meta: Json, ps: seq<Path>)
    ensures PickAll(meta, ps) == Bad <==> exists i :: 0 <= i < |ps| && Raises(meta, ps[i])
  {
    if ps != [] {
      var n := |ps| - 1;
      BadWhenRaised(meta, ps[..n]);
      forall i | 0 <= i < n ensures ps[..n][i] == ps[i] {}
      if PickAll(meta, ps[..n]) == Bad {
        var i :| 0 <= i < n && Raises(meta, ps[..n][i]);
        assert Raises(meta, ps[i]);
      } else {
        assert PickAll(meta, ps) == Bad <==> Raises(meta, ps[n]);
      }
    }
  }

  predicate PickIs(meta: Json, p: Path, pick: Pick) {
    pick == Pick(p, if GetByPath(meta, p).Found? then GetByPath(meta, p).v else Null)
  }

  /** Every path is picked, in order, a missing value as null. */
  lemma {:induction false} PicksAre(meta: Json, ps: seq<Path>)
    requires PickAll(meta, ps).Picked?
    ensures var picks := PickAll(meta, ps).picks;
            |picks| == |ps| && forall i :: 0 <= i < |ps| ==> PickIs(meta, ps[i], picks[i])
  {
    if ps != [] {
      var n := |ps| - 1;
      PicksAre(meta, ps[..n]);
      var (picks, front) := (PickAll(meta, ps).picks, PickAll(meta, ps[..n]).picks);
      forall i | 0 <= i < n ensures PickIs(meta, ps[i], picks[i]) {
        assert PickIs(meta, ps[..n][i], front[i]);
      }
    }
  }

  function FilterPicks(meta: Json, filter: seq<string>): Picks {
    match Expand(meta, filter)
    case Invalid => Bad
    case Paths(ps) => PickAll(meta, ps)
  }

  /** What the first `n` filters pick, when one picks what `pick` says. */
  function Gather(pick: seq<string> -> Picks, filters: seq<seq<string>>, n: nat): Picks
    requires n <= |filters|
  {
    if n == 0 then Picked([])
    else
      match Gather(pick, filters, n - 1)
      case Bad => Bad
      case Picked(a) =>
        match pick(filters[n - 1])
        case Bad => Bad
        case Picked(b) => Picked(a + b)
  }

  function Picker(meta: Json): seq<string> -> Picks {
    filter => FilterPicks(meta, filter)
  }

  function PickFilters(meta: Json, filters: seq<seq<string>>): Picks {
    Gather(Picker(meta), filters, |filters|)
  }

  function StoreAll(t: Json, picks: seq<Pick>): Tree {
    if picks == [] then Tree(t)
    else
      var n := |picks| - 1;
      match StoreAll(t, picks[..n])
      case NoTree => NoTree
      case Tree(u) =>
        match SetByPath(u, picks[n].path, picks[n].value, true)
        case Done(d) => Tree(d)
        case _ => NoTree
  }

  /** `_filter_new` when every key is a path. */
  function FilterPaths(meta: Json, filters: seq<seq<string>>): Tree {
    match PickFilters(meta, filters)
    case Bad => NoTree
    case Picked(picks) => StoreAll(Dict([]), picks)
  }

  method PickPaths(meta: Json, ps: seq<Path>) returns (r: Picks)
    ensures r == PickAll(meta, ps)
  {
    var picks: seq<Pick> := [];
    var i, bad := 0, false;
    while i < |ps|
      invariant 0 <= i <= |ps|
      invariant PickAll(meta, ps[..i]) == if bad then Bad else Picked(picks)
    {
      var v := ReadPath(meta, ps[i]);
      if v.Raised? {
        bad := true;
      } else {
        picks := picks + [Pick(ps[i], if v.Found? then v.v else Null)];
      }
      assert ps[..i + 1][..i] == ps[..i];
      i := i + 1;
    }
    assert ps[..i] == ps;
    r := if bad then Bad else Picked(picks);
  }

  method FilterOne(meta: Json, filter: seq<string>) returns (r: Picks)
    requires filter != []
    ensures r == FilterPicks(meta, filter)
  {
    var ok, ps := GetPathKeys(meta, filter, []);
    if !ok {
      return Bad;
    }
    JoinIdentity(Expand(meta, filter).ps);
    r := PickPaths(meta, ps);
  }

  /** The loop over the filters. */
  method PickEach(meta: Json, filters: seq<seq<string>>) returns (r: Picks)
    requires forall i :: 0 <= i < |filters| ==> |filters[i]| > 1
    ensures r == Gather(Picker(meta), filters, |filters|)
  {
    ghost var pick := Picker(meta);
    var picks: seq<Pick> := [];
    var i := 0;
    while i < |filters|
      invariant 0 <= i <= |filters|
      invariant Gather(pick, filters, i) == Picked(picks)
    {
      var more := FilterOne(meta, filters[i]);
      GatherNext(pick, filters, i, more);
      if more.Bad? {
        BadStays(pick, filters, i + 1);
        return Bad;
      }
      picks := picks + more.picks;
      i := i + 1;
    }
    r := Picked(picks);
  }

  method FilterNew(meta: Json, filters: seq<seq<string>>) returns (r: Tree)
    requires forall i :: 0 <= i < |filters| ==> |filters[i]| > 1     // a key with a slash, split at the slashes
    ensures r == FilterPaths(meta, filters)
  {
    var picks := PickEach(meta, filters);
    match picks {
      case Bad => r := NoTree;
      case Picked(ps) => r := StorePaths(ps);
    }
  }

  method StorePaths(picks: seq<Pick>) returns (r: Tree)
    ensures r == StoreAll(Dict([]), picks)
  {
    var t := Dict([]);
    var i := 0;
    while i < |picks|
      invariant 0 <= i <= |picks|
      invariant StoreAll(Dict([]), picks[..i]) == Tree(t)
    {
      var o := WritePath(t, picks[i].path, picks[i].value, true);
      assert picks[..i + 1][..i] == picks[..i];
      if !o.Done? {
        FailStays(Dict([]), picks, i + 1);
        return NoTree;
      }
      t, i := o.d, i + 1;
    }
    assert picks[..i] == picks;
    r := Tree(t);
  }

  lemma GatherNext(pick: seq<string> -> Picks, filters: seq<seq<string>>, n: nat, more: Picks)
    requires n < |filters| && Gather(pick, filters, n).Picked? && pick(filters[n]) == more
    ensures Gather(pick, filters, n + 1) ==
            if more.Bad? then Bad else Picked(Gather(pick, filters, n).picks + more.picks)
  {
  }

  lemma {:induction false} BadStays(pick: seq<string> -> Picks, filters: seq<seq<string>>, i: nat)
    requires i <= |filters| && Gather(pick, filters, i) == Bad
    ensures Gather(pick, filters, |filters|) == Bad
    decreases |filters| - i
  {
    if i < |filters| {
      BadStays(pick, filters, i + 1);
    }
  }

  lemma {:induction false} FailStays(t: Json, picks: seq<Pick>, i: nat)
    requires i <= |picks| && StoreAll(t, picks[..i]) == NoTree
    ensures StoreAll(t, picks) == NoTree
  {
    if i < |picks| {
      assert picks[..|picks| - 1][..i] == picks[..i];
      FailStays(t, picks[..|picks| - 1], i);
    } else {
      assert picks[..i] == picks;
    }
  }

  // ---- the filtered tree reads like the source --------------------------------------------------

  /** `t` is a partial copy of `s`: same containers where it has any, `{}` standing in for skipped list elements. */
  predicate PartOf(t: Json, s: Json) {
    || t == s
    || (t.Dict? && s.Dict? && forall i :: 0 <= i < |t.items| ==>
          Has(s.items, t.items[i].key) && PartOf(t.items[i].val, Get(s.items, t.items[i].key)))
    || (t.List? && s.List? && |t.elems| <= |s.elems| && forall i :: 0 <= i < |t.elems| ==>
          t.elems[i] == Dict([]) || PartOf(t.elems[i], s.elems[i]))
  }

  predicate NoAdjacentIndices(p: Path) {
    |p| > 1 ==> (p[0].Name? || p[1].Name?) && NoAdjacentIndices(p[1..])
  }

  /** The path a list element must be stored at before this one: the same with the last index one lower. */
  function Previous(p: Path): Path
    requires p != [] && p[|p| - 1].Idx? && p[|p| - 1].i > 0
  {
    p[..|p| - 1] + [Idx(p[|p| - 1].i - 1)]
  }

  /** Ends in a field name or in the first index of a list, so that nothing need be stored before it. */
  predicate StandsAlone(p: Path) {
    p == [] || p[|p| - 1].Name? || p[|p| - 1].i == 0
  }

  /** Where the previous element is, the next one can be appended or replaced. */
  lemma {:induction false} RoomBehind(t: Json, p: Path)
    requires !StandsAlone(p) && Walk(t, Previous(p)).Found?
    ensures Fits(t, p, true)
    decreases |p|
  {
    var before := Previous(p);
    if |p| > 1 {
      assert before[0] == p[0] && before[1..] == Previous(p[1..]);
      RoomBehind(Down(t, p[0]).v, p[1..]);
    } else {
      assert before == [Idx(p[0].i - 1)];
    }
  }

  lemma {:induction false} StoreSame(s: Json, p: Path)
    requires p != [] && Walk(s, p).Found?
    ensures SetByPath(s, p, Walk(s, p).v, true) == Done(s)
    decreases |p|
  {
    if |p| == 1 {
      assert p[1..] == [];
      if s.Dict? {
        PutSame(s.items, p[0].s);
      }
    } else {
      StoreSame(Down(s, p[0]).v, p[1..]);
      if s.Dict? {
        PutSame(s.items, p[0].s);
      }
    }
  }

  lemma PutPart(t: seq<Entry>, s: seq<Entry>, k: string, v: Json)
    requires forall i :: 0 <= i < |t| ==> Has(s, t[i].key) && PartOf(t[i].val, Get(s, t[i].key))
    requires Has(s, k) && PartOf(v, Get(s, k))
    ensures PartOf(Dict(Put(t, k, v)), Dict(s))
  {
    var r := Put(t, k, v);
    forall i | 0 <= i < |r| ensures Has(s, r[i].key) && PartOf(r[i].val, Get(s, r[i].key)) {
      if i < |t| && i != Find(t, k) {
        assert r[i] == t[i];
      }
    }
  }

  /** Where the walk enters a dictionary entry, the entry is, or becomes, a partial copy of the source's. */
  lemma EnterDict(t: Json, s: Json, p: Path)
    requires PartOf(t, s) && s.Dict? && t != s && |p| > 1 && Walk(s, p).Found?
    ensures Prepare(t, p[0], p[1], true).Into?
    ensures var q := Prepare(t, p[0], p[1], true);
            q.parent.Dict? && PartOf(q.child, Get(s.items, p[0].s)) && PartOf(q.parent, s)
  {
    var k := p[0].s;
    var child := Get(s.items, k);
    assert Walk(child, p[1..]).Found?;
    if !Has(t.items, k) {
      PutPart(t.items, s.items, k, if p[1].Idx? then List([]) else Dict([]));
    }
  }

  /** Where it enters a list element, the padding is a partial copy of the source's dictionary. */
  lemma EnterList(t: Json, s: Json, p: Path)
    requires PartOf(t, s) && s.List? && t != s && |p| > 1 && Walk(s, p).Found? && NoAdjacentIndices(p)
    ensures Prepare(t, p[0], p[1], true).Into?
    ensures var q := Prepare(t, p[0], p[1], true);
            && q.parent.List? && p[0].i < |q.parent.elems| <= |s.elems| && q.parent.elems[p[0].i] == q.child
            && PartOf(q.child, s.elems[p[0].i])
            && forall i :: 0 <= i < |q.parent.elems| ==>
                 q.parent.elems[i] == Dict([]) || PartOf(q.parent.elems[i], s.elems[i])
  {
    assert p[1].Name?;
    assert Walk(s.elems[p[0].i], p[1..]).Found?;
  }

  /** The container after a write below `k`, in terms of the child that came out of it. */
  function Replaced(parent: Json, k: Key, c: Json): Json {
    match parent
    case Dict(items) => if k.Name? then Dict(Put(items, k.s, c)) else parent
    case List(elems) =>
      if !k.Idx? || k.i > |elems| then parent
      else if k.i == |elems| then List(elems + [c])
      else List(elems[k.i := c])
    case _ => parent
  }

  lemma StoreBelow(t: Json, p: Path, v: Json, c: Json)
    requires |p| > 1 && Prepare(t, p[0], p[1], true).Into?
    requires SetByPath(Prepare(t, p[0], p[1], true).child, p[1..], v, true) == Done(c)
    ensures SetByPath(t, p, v, true) == Done(Replaced(Prepare(t, p[0], p[1], true).parent, p[0], c))
  {
  }

  /** Walking into the replaced child, and into the others. */
  lemma WalkReplaced(parent: Json, k: Key, c: Json, q: Path)
    requires q != []
    requires (parent.Dict? && k.Name?) || (parent.List? && k.Idx? && k.i <= |parent.elems|)
    ensures Walk(Replaced(parent, k, c), q) == if q[0] == k then Walk(c, q[1..]) else Walk(parent, q)
  {
    if parent.Dict? {
      PutGet(parent.items, k.s, c);
      if q[0].Name? && q[0] != k {
        PutOther(parent.items, k.s, c, q[0].s);
      }
    }
  }

  /** Preparing the way to one child leaves what is below the others. */
  lemma WalkPrepared(t: Json, k: Key, next: Key, q: Path)
    requires Prepare(t, k, next, true).Into? && q != [] && q[0] != k && Walk(t, q).Found?
    ensures Walk(Prepare(t, k, next, true).parent, q) == Walk(t, q)
  {
    if t.Dict? && k.Name? && q[0].Name? {
      PutOther(t.items, k.s, if next.Idx? then List([]) else Dict([]), q[0].s);
    }
  }

  /** The walk of a write enters a partial copy of the source's child; replacing it leaves a partial copy. */
  lemma {:induction false} EnterPart(t: Json, s: Json, p: Path) returns (sc: Json)
    requires PartOf(t, s) && t != s && |p| > 1 && NoAdjacentIndices(p) && Fits(t, p, true) && Walk(s, p).Found?
    ensures Prepare(t, p[0], p[1], true).Into?
    ensures var q := Prepare(t, p[0], p[1], true);
            && ((q.parent.Dict? && p[0].Name?) || (q.parent.List? && p[0].Idx? && p[0].i < |q.parent.elems|))
            && PartOf(q.child, sc) && Fits(q.child, p[1..], true)
            && forall c :: PartOf(c, sc) ==> PartOf(Replaced(q.parent, p[0], c), s)
    ensures Walk(s, p) == Walk(sc, p[1..]) && NoAdjacentIndices(p[1..])
    ensures forall q: Path :: q != [] && q[0] == p[0] ==> Walk(s, q) == Walk(sc, q[1..])
  {
    var q := Prepare(t, p[0], p[1], true);
    if s.Dict? {
      sc := Get(s.items, p[0].s);
      EnterDict(t, s, p);
      forall c | PartOf(c, sc) ensures PartOf(Replaced(q.parent, p[0], c), s) {
        PutPart(q.parent.items, s.items, p[0].s, c);
      }
    } else {
      sc := s.elems[p[0].i];
      EnterList(t, s, p);
    }
    FitsBelow(t, p);
  }

  lemma FitsBelow(t: Json, p: Path)
    requires |p| > 1 && Prepare(t, p[0], p[1], true).Into?
    ensures Fits(t, p, true) == Fits(Prepare(t, p[0], p[1], true).child, p[1..], true)
  {
  }

  /** The last key names a field, or an element that is there or comes next. */
  lemma StoreLast(t: Json, s: Json, k: Key, v: Json)
    requires PartOf(t, s) && t != s && Walk(s, [k]) == Found(v) && Fits(t, [k], true)
    ensures (t.Dict? && k.Name?) || (t.List? && k.Idx? && k.i <= |t.elems|)
    ensures SetByPath(t, [k], v, true) == Done(Replaced(t, k, v)) && PartOf(Replaced(t, k, v), s)
    ensures forall q: Path :: q != [] && q[0] == k ==> Walk(s, q) == Walk(v, q[1..])
  {
    assert [k][1..] == [];
    if k.Name? {
      PutPart(t.items, s.items, k.s, v);
    }
  }

  /** Storing a source value into a partial copy gives a partial copy that has it. */
  lemma {:induction false} StorePart(t: Json, s: Json, p: Path)
    requires PartOf(t, s) && p != [] && NoAdjacentIndices(p) && Fits(t, p, true) && Walk(s, p).Found?
    ensures var o := SetByPath(t, p, Walk(s, p).v, true);
            o.Done? && PartOf(o.d, s) && Walk(o.d, p) == Walk(s, p)
    decreases |p|
  {
    var v := Walk(s, p).v;
    if t == s {
      StoreSame(s, p);
    } else if |p| == 1 {
      assert p == [p[0]];
      StoreLast(t, s, p[0], v);
      WalkReplaced(t, p[0], v, p);
    } else {
      var q := Prepare(t, p[0], p[1], true);
      var sc := EnterPart(t, s, p);
      StorePart(q.child, sc, p[1..]);
      var c := SetByPath(q.child, p[1..], v, true).d;
      StoreBelow(t, p, v, c);
      WalkReplaced(q.parent, p[0], c, p);
    }
  }

  /** Storing one source value keeps every source value stored before. */
  lemma {:induction false} StoreKeeps(t: Json, s: Json, p: Path, q: Path)
    requires PartOf(t, s) && p != [] && NoAdjacentIndices(p) && Fits(t, p, true) && Walk(s, p).Found?
    requires Walk(s, q).Found? && Walk(t, q) == Walk(s, q)
    ensures var o := SetByPath(t, p, Walk(s, p).v, true);
            o.Done? && Walk(o.d, q) == Walk(s, q)
    decreases |p|
  {
    var v := Walk(s, p).v;
    if t == s {
      StoreSame(s, p);
    } else if q == [] {
      StorePart(t, s, p);
    } else if |p| == 1 {
      assert p == [p[0]];
      StoreLast(t, s, p[0], v);
      WalkReplaced(t, p[0], v, q);
    } else {
      var r := Prepare(t, p[0], p[1], true);
      var sc := EnterPart(t, s, p);
      StorePart(r.child, sc, p[1..]);
      var c := SetByPath(r.child, p[1..], v, true).d;
      StoreBelow(t, p, v, c);
      WalkReplaced(r.parent, p[0], c, q);
      if q[0] == p[0] {
        StoreKeeps(r.child, sc, p[1..], q[1..]);
      } else {
        WalkPrepared(t, p[0], p[1], q);
      }
    }
  }

  /** Picks of source values, each list element after the one before it. */
  predicate GoodPicks(s: Json, picks: seq<Pick>) {
    forall i :: 0 <= i < |picks| ==> GoodPick(s, picks[i]) && Preceded(picks, i)
  }

  predicate GoodPick(s: Json, pick: Pick) {
    pick.path != [] && NoAdjacentIndices(pick.path) && Walk(s, pick.path) == Found(pick.value)
  }

  predicate Preceded(picks: seq<Pick>, i: nat)
    requires i < |picks|
  {
    StandsAlone(picks[i].path) || exists j :: 0 <= j < i && picks[j].path == Previous(picks[i].path)
  }

  predicate ReadsLike(t: Json, s: Json, picks: seq<Pick>) {
    forall i :: 0 <= i < |picks| ==> Alike(t, s, picks[i].path)
  }

  predicate Alike(t: Json, s: Json, p: Path) {
    Walk(t, p) == Walk(s, p)
  }

  lemma {:induction false} StoreNext(u: Json, s: Json, picks: seq<Pick>, p: Path)
    requires PartOf(u, s) && p != [] && NoAdjacentIndices(p) && Fits(u, p, true) && Walk(s, p).Found?
    requires GoodPicks(s, picks) && ReadsLike(u, s, picks)
    ensures var o := SetByPath(u, p, Walk(s, p).v, true);
            o.Done? && PartOf(o.d, s) && Alike(o.d, s, p) && ReadsLike(o.d, s, picks)
  {
    StorePart(u, s, p);
    forall i | 0 <= i < |picks| ensures Alike(SetByPath(u, p, Walk(s, p).v, true).d, s, picks[i].path) {
      assert GoodPick(s, picks[i]) && Alike(u, s, picks[i].path);
      StoreKeeps(u, s, p, picks[i].path);
    }
  }

  lemma {:induction false} StoreAllGrows(t: Json, picks: seq<Pick>, pick: Pick, u: Json)
    requires StoreAll(t, picks) == Tree(u) && SetByPath(u, pick.path, pick.value, true).Done?
    ensures StoreAll(t, picks + [pick]) == Tree(SetByPath(u, pick.path, pick.value, true).d)
  {
    assert (picks + [pick])[..|picks|] == picks;
  }

  /** The next pick has its place in the tree that holds the earlier ones. */
  lemma {:induction false} NextFits(u: Json, s: Json, picks: seq<Pick>)
    requires picks != [] && GoodPicks(s, picks) && ReadsLike(u, s, picks[..|picks| - 1])
    ensures Fits(u, picks[|picks| - 1].path, true)
  {
    var n := |picks| - 1;
    var p := picks[n].path;
    assert GoodPick(s, picks[n]) && Preceded(picks, n);
    if !StandsAlone(p) {
      var j :| 0 <= j < n && picks[j].path == Previous(p);
      assert GoodPick(s, picks[j]) && picks[..n][j] == picks[j];
      assert Alike(u, s, picks[..n][j].path);
      RoomBehind(u, p);
    }
  }

  lemma GoodPrefix(s: Json, picks: seq<Pick>)
    requires picks != [] && GoodPicks(s, picks)
    ensures GoodPicks(s, picks[..|picks| - 1])
  {
    var front := picks[..|picks| - 1];
    forall i | 0 <= i < |front| ensures GoodPick(s, front[i]) && Preceded(front, i) {
      assert front[i] == picks[i] && GoodPick(s, picks[i]) && Preceded(picks, i);
      if !StandsAlone(picks[i].path) {
        var j :| 0 <= j < i && picks[j].path == Previous(picks[i].path);
        assert front[j] == picks[j];
      }
    }
  }

  lemma {:induction false} StoreOneMore(s: Json, front: seq<Pick>, last: Pick, u: Json)
    requires StoreAll(Dict([]), front) == Tree(u) && PartOf(u, s) && GoodPicks(s, front) && ReadsLike(u, s, front)
    requires GoodPick(s, last) && Fits(u, last.path, true)
    ensures var r := StoreAll(Dict([]), front + [last]);
            r.Tree? && PartOf(r.t, s) && ReadsLike(r.t, s, front + [last])
  {
    StoreNext(u, s, front, last.path);
    StoreAllGrows(Dict([]), front, last, u);
  }

  lemma {:induction false} StoreAllReads(s: Json, picks: seq<Pick>)
    requires s.Dict? && GoodPicks(s, picks)
    ensures var r := StoreAll(Dict([]), picks);
            r.Tree? && PartOf(r.t, s) && ReadsLike(r.t, s, picks)
  {
    if picks != [] {
      var n := |picks| - 1;
      var front, last := picks[..n], picks[n];
      GoodPrefix(s, picks);
      StoreAllReads(s, front);
      var u := StoreAll(Dict([]), front).t;
      NextFits(u, s, picks);
      assert GoodPick(s, last) && picks == front + [last];
      StoreOneMore(s, front, last, u);
    }
  }

  // ---- list elements come in order ----------------------------------------------------------------

  /** Every path either stands alone or comes after the one of the list element before it. */
  predicate Chained(ps: seq<Path>) {
    forall i :: 0 <= i < |ps| ==> PathPreceded(ps, i)
  }

  predicate PathPreceded(ps: seq<Path>, i: nat)
    requires i < |ps|
  {
    StandsAlone(ps[i]) || exists j :: 0 <= j < i && ps[j] == Previous(ps[i])
  }

  lemma AppendChained(a: seq<Path>, b: seq<Path>)
    requires Chained(a) && Chained(b)
    ensures Chained(a + b)
  {
    forall i | 0 <= i < |a + b| ensures PathPreceded(a + b, i) {
      if i < |a| {
        assert PathPreceded(a, i);
        if !StandsAlone(a[i]) {
          var j :| 0 <= j < i && a[j] == Previous(a[i]);
          assert (a + b)[j] == a[j];
        }
      } else {
        var k := i - |a|;
        assert PathPreceded(b, k);
        if !StandsAlone(b[k]) {
          var j :| 0 <= j < k && b[j] == Previous(b[k]);
          assert (a + b)[|a| + j] == b[j];
        }
      }
    }
  }

  lemma PrefixedChained(p: Path, tails: seq<Path>)
    requires Chained(tails) && [] !in tails
    ensures Chained(Prefixed(p, tails))
  {
    var r := Prefixed(p, tails);
    forall i | 0 <= i < |r| ensures PathPreceded(r, i) {
      assert tails[i] in tails && PathPreceded(tails, i);
      assert r[i][|r[i]| - 1] == tails[i][|tails[i]| - 1];
      if !StandsAlone(tails[i]) {
        var j :| 0 <= j < i && tails[j] == Previous(tails[i]);
        assert r[j] == Previous(r[i]);
      }
    }
  }

  lemma {:induction false} JoinChained(heads: seq<Path>, tails: seq<Path>)
    requires Chained(tails) && [] !in tails
    ensures Chained(Join(heads, tails))
  {
    if heads != [] {
      var n := |heads| - 1;
      JoinChained(heads[..n], tails);
      PrefixedChained(heads[n], tails);
      AppendChained(Join(heads[..n], tails), Prefixed(heads[n], tails));
    }
  }

  /** The last key that leaves a trace is a name, a wildcard, or index 0: whatever follows it fans out nowhere. */
  predicate EndsOpen(meta: Json, path: seq<string>) {
    path == [] || Follow(meta, path[0]).Stuck?
    || var next := Follow(meta, path[0]).next;
       && EndsOpen(next, path[1..])
       && (Depth(next, path[1..]) == 0 && IsDigits(path[0]) && meta.List? ==> ToNat(path[0]) == 0)
  }

  lemma HeadChained(meta: Json, key: string)
    requires Follow(meta, key).Onward? && (IsDigits(key) && meta.List? ==> ToNat(key) == 0)
    ensures Chained(Follow(meta, key).head)
  {
    var head := Follow(meta, key).head;
    if key in {"*", ""} && meta.List? {
      forall i | 0 <= i < |head| ensures PathPreceded(head, i) {
        if i > 0 {
          assert head[i - 1] == Previous(head[i]);
        }
      }
    }
  }

  /** A filter that ends open lists the elements of its last list in order. */
  lemma {:induction false} ExpansionChained(meta: Json, path: seq<string>)
    requires Expand(meta, path).Paths? && EndsOpen(meta, path)
    ensures Chained(Expand(meta, path).ps)
    decreases |path|
  {
    if path != [] {
      var f := Follow(meta, path[0]);
      var tails := Expand(f.next, path[1..]).ps;
      assert Expand(meta, path) == Under(f.head, Expand(f.next, path[1..]));
      ExpansionChained(f.next, path[1..]);
      ExpansionShape(f.next, path[1..]);
      if Depth(f.next, path[1..]) == 0 {
        ExpansionNonEmpty(f.next, path[1..]);
        OnlyEmptyPath(tails);
        JoinUnit(f.head);
        HeadChained(meta, path[0]);
      } else {
        JoinChained(f.head, tails);
      }
    }
  }

  lemma OnlyEmptyPath(ps: seq<Path>)
    requires ps != [] && AllDistinct(ps) && AllOfLength(ps, 0)
    ensures ps == [[]]
  {
    var n := |ps| - 1;
    assert ps[n] == ps[0];
  }

  // ---- the filters a caller may use ----------------------------------------------------------------

  /** It ends in a name, a wildcard or index 0, and no concrete path has two adjacent indices. */
  predicate GoodFilter(meta: Json, filter: seq<string>)
    requires Expand(meta, filter).Paths?
  {
    && Depth(meta, filter) > 0 && EndsOpen(meta, filter)
    && forall p :: p in Expand(meta, filter).ps ==> NoAdjacentIndices(p)
  }

  predicate GoodFilters(meta: Json, filters: seq<seq<string>>) {
    forall i :: 0 <= i < |filters| ==> Expand(meta, filters[i]).Paths? && GoodFilter(meta, filters[i])
  }

  lemma PickAllGrows(meta: Json, ps: seq<Path>, p: Path)
    requires PickAll(meta, ps).Picked? && GetByPath(meta, p).Found?
    ensures PickAll(meta, ps + [p]) == Picked(PickAll(meta, ps).picks + [Pick(p, GetByPath(meta, p).v)])
  {
    assert (ps + [p])[..|ps|] == ps;
  }

  predicate Resolves(meta: Json, p: Path) {
    p != [] && NoAdjacentIndices(p) && Walk(meta, p).Found?
  }

  /** The picks of some paths: those paths in order, with the source's values. */
  predicate PicksOf(meta: Json, picks: seq<Pick>, ps: seq<Path>) {
    |picks| == |ps| && forall i :: 0 <= i < |ps| ==> picks[i].path == ps[i] && GoodPick(meta, picks[i])
  }

  lemma PickResolves(meta: Json, p: Path)
    requires Resolves(meta, p)
    ensures GetByPath(meta, p).Found? && GoodPick(meta, Pick(p, GetByPath(meta, p).v))
  {
    WalkIsGet(meta, p);
  }

  lemma PicksOfGrow(meta: Json, picks: seq<Pick>, ps: seq<Path>, pick: Pick)
    requires PicksOf(meta, picks, ps) && GoodPick(meta, pick)
    ensures PicksOf(meta, picks + [pick], ps + [pick.path])
  {
  }

  lemma {:induction false} PickAllGood(meta: Json, ps: seq<Path>)
    requires forall i :: 0 <= i < |ps| ==> Resolves(meta, ps[i])
    ensures PickAll(meta, ps).Picked? && PicksOf(meta, PickAll(meta, ps).picks, ps)
  {
    if ps != [] {
      var n := |ps| - 1;
      var front, last := ps[..n], ps[n];
      PickAllGood(meta, front);
      PickResolves(meta, last);
      PickAllGrows(meta, front, last);
      PicksOfGrow(meta, PickAll(meta, front).picks, front, Pick(last, GetByPath(meta, last).v));
      assert ps == front + [last];
    }
  }

  lemma ChainedPicks(meta: Json, picks: seq<Pick>, ps: seq<Path>)
    requires PicksOf(meta, picks, ps) && Chained(ps)
    ensures GoodPicks(meta, picks)
  {
    forall i | 0 <= i < |picks| ensures GoodPick(meta, picks[i]) && Preceded(picks, i) {
      assert picks[i].path == ps[i] && PathPreceded(ps, i);
      if !StandsAlone(ps[i]) {
        var j :| 0 <= j < i && ps[j] == Previous(ps[i]);
        assert picks[j].path == ps[j];
      }
    }
  }

  lemma {:induction false} PickOneFilter(meta: Json, filter: seq<string>)
    requires Uniform(meta) && Expand(meta, filter).Paths? && GoodFilter(meta, filter)
    ensures var r := PickAll(meta, Expand(meta, filter).ps);
            r.Picked? && PicksOf(meta, r.picks, Expand(meta, filter).ps) && GoodPicks(meta, r.picks)
  {
    var ps := Expand(meta, filter).ps;
    ExpansionShape(meta, filter);
    ExpansionChained(meta, filter);
    forall i | 0 <= i < |ps| ensures Resolves(meta, ps[i]) {
      assert ps[i] in ps && |ps[i]| == Depth(meta, filter);
      PathsResolve(meta, filter, ps[i]);
    }
    PickAllGood(meta, ps);
    ChainedPicks(meta, PickAll(meta, ps).picks, ps);
  }

  lemma GoodPicksAppend(s: Json, a: seq<Pick>, b: seq<Pick>)
    requires GoodPicks(s, a) && GoodPicks(s, b)
    ensures GoodPicks(s, a + b)
  {
    var r := a + b;
    forall i | 0 <= i < |r| ensures GoodPick(s, r[i]) && Preceded(r, i) {
      if i < |a| {
        assert GoodPick(s, a[i]) && Preceded(a, i);
        if !StandsAlone(a[i].path) {
          var j :| 0 <= j < i && a[j].path == Previous(a[i].path);
          assert r[j] == a[j];
        }
      } else {
        var k := i - |a|;
        assert GoodPick(s, b[k]) && Preceded(b, k);
        if !StandsAlone(b[k].path) {
          var j :| 0 <= j < k && b[j].path == Previous(b[k].path);
          assert r[|a| + j] == b[j];
        }
      }
    }
  }

  predicate PicksPath(picks: seq<Pick>, p: Path) {
    exists j :: 0 <= j < |picks| && picks[j].path == p
  }

  predicate GoodIfPicked(meta: Json, r: Picks) {
    r.Picked? && GoodPicks(meta, r.picks)
  }

  lemma {:induction false} GatherGood(
      meta: Json, pick: seq<string> -> Picks, filters: seq<seq<string>>, n: nat)
    requires n <= |filters| && forall i :: 0 <= i < n ==> GoodIfPicked(meta, pick(filters[i]))
    ensures GoodIfPicked(meta, Gather(pick, filters, n))
  {
    if n > 0 {
      GatherGood(meta, pick, filters, n - 1);
      GoodPicksAppend(meta, Gather(pick, filters, n - 1).picks, pick(filters[n - 1]).picks);
    }
  }

  lemma PickFiltersGood(meta: Json, filters: seq<seq<string>>)
    requires Uniform(meta) && GoodFilters(meta, filters)
    ensures GoodIfPicked(meta, PickFilters(meta, filters))
  {
    var pick := Picker(meta);
    forall i | 0 <= i < |filters| ensures GoodIfPicked(meta, pick(filters[i])) {
      PickOneFilter(meta, filters[i]);
    }
    GatherGood(meta, pick, filters, |filters|);
  }

  lemma PicksPathEither(a: seq<Pick>, b: seq<Pick>, p: Path)
    requires PicksPath(a, p) || PicksPath(b, p)
    ensures PicksPath(a + b, p)
  {
    if j :| 0 <= j < |a| && a[j].path == p {
      assert (a + b)[j].path == p;
    } else {
      var j :| 0 <= j < |b| && b[j].path == p;
      assert (a + b)[|a| + j].path == p;
    }
  }

  lemma {:induction false} PickOneCovers(meta: Json, filter: seq<string>, p: Path)
    requires Uniform(meta) && Expand(meta, filter).Paths? && GoodFilter(meta, filter) && p in Expand(meta, filter).ps
    ensures PickAll(meta, Expand(meta, filter).ps).Picked?
    ensures PicksPath(PickAll(meta, Expand(meta, filter).ps).picks, p)
  {
    PickOneFilter(meta, filter);
    var ps := Expand(meta, filter).ps;
    var j :| 0 <= j < |ps| && ps[j] == p;
    assert PickAll(meta, ps).picks[j].path == p;
  }

  /** The picks of a filter are still there when more filters follow. */
  lemma {:induction false} PicksStay(
      pick: seq<string> -> Picks, filters: seq<seq<string>>, i: nat, n: nat, p: Path)
    requires i < n <= |filters| && Gather(pick, filters, n).Picked?
    requires pick(filters[i]).Picked? && PicksPath(pick(filters[i]).picks, p)
    ensures PicksPath(Gather(pick, filters, n).picks, p)
  {
    if i < n - 1 {
      PicksStay(pick, filters, i, n - 1, p);
    }
    PicksPathEither(Gather(pick, filters, n - 1).picks, pick(filters[n - 1]).picks, p);
  }

  /** The tree built by path filters reads back the source value at every concrete path. */
  lemma {:induction false} FilteredTreeReadsBack(meta: Json, filters: seq<seq<string>>, i: nat, p: Path)
    requires meta.Dict? && Uniform(meta) && GoodFilters(meta, filters)
    requires i < |filters| && p in Expand(meta, filters[i]).ps
    ensures FilterPaths(meta, filters).Tree?
    ensures GetByPath(FilterPaths(meta, filters).t, p) == GetByPath(meta, p) && GetByPath(meta, p).Found?
    ensures PartOf(FilterPaths(meta, filters).t, meta)
  {
    PickFiltersGood(meta, filters);
    var picks := PickFilters(meta, filters).picks;
    StoreAllReads(meta, picks);
    PickOneCovers(meta, filters[i], p);
    PicksStay(Picker(meta), filters, i, |filters|, p);
    var j :| 0 <= j < |picks| && picks[j].path == p;
    WalkIsGet(meta, p);
    WalkIsGet(FilterPaths(meta, filters).t, p);
  }

  // ---- why the conditions are there ------------------------------------------------------------------

  /** One path stored in an empty tree: what is needed to read it back. */
  predicate Storable(p: Path) {
    p != [] && p[0].Name? && NoAdjacentIndices(p) && (p[|p| - 1].Idx? ==> p[|p| - 1].i == 0)
  }

  predicate ReadsBack(t: Json, p: Path, v: Json) {
    SetByPath(t, p, v, true).Done? && GetByPath(SetByPath(t, p, v, true).d, p) == Found(v)
  }

  lemma ReadsBackBelow(t: Json, p: Path, v: Json)
    requires |p| > 1 && Prepare(t, p[0], p[1], true).Into?
    ensures ReadsBack(t, p, v) <==> ReadsBack(Prepare(t, p[0], p[1], true).child, p[1..], v)
  {
    var o := SetByPath(Prepare(t, p[0], p[1], true).child, p[1..], v, true);
    if o.Done? {
      SameKey(t, p[0], p[1], true, o);
    }
  }

  lemma {:induction false} EmptyContainer(t: Json, p: Path, v: Json)
    requires p != [] && t == (if p[0].Idx? then List([]) else Dict([]))
    ensures ReadsBack(t, p, v) <==> NoAdjacentIndices(p) && (p[|p| - 1].Idx? ==> p[|p| - 1].i == 0)
    decreases |p|
  {
    if |p| > 1 {
      ReadsBackBelow(t, p, v);
      var child := Prepare(t, p[0], p[1], true).child;
      if p[0].Name? || p[1].Name? {
        EmptyContainer(child, p[1..], v);
      } else {
        assert child == Dict([]);
        assert !SetByPath(child, p[1..], v, true).Done?;
      }
    }
  }

  /** A single concrete path reads back from the filtered tree exactly when it is storable. */
  lemma SinglePathReadsBack(p: Path, v: Json)
    ensures ReadsBack(Dict([]), p, v) <==> Storable(p)
  {
    if p != [] && p[0].Name? {
      EmptyContainer(Dict([]), p, v);
    }
  }

  // ---- one filter, exactly -----------------------------------------------------------------------------

  /** Which keys of a path are indices. */
  function Kinds(p: Path): (r: seq<bool>)
    ensures |r| == |p| && forall i :: 0 <= i < |p| ==> r[i] == p[i].Idx?
  {
    seq(|p|, i requires 0 <= i < |p| => p[i].Idx?)
  }

  function KindsOf(meta: Json, path: seq<string>): seq<bool> {
    if path == [] || Follow(meta, path[0]).Stuck? then []
    else
      var f := Follow(meta, path[0]);
      (if f.head == [] then [] else Kinds(f.head[0])) + KindsOf(f.next, path[1..])
  }

  lemma HeadKinds(meta: Json, key: string)
    requires Follow(meta, key).Onward?
    ensures var head := Follow(meta, key).head;
            head != [] && forall i :: 0 <= i < |head| ==> Kinds(head[i]) == Kinds(head[0])
  {
  }

  lemma JoinSplit(heads: seq<Path>, tails: seq<Path>, p: Path) returns (i: nat, j: nat)
    requires p in Join(heads, tails)
    ensures i < |heads| && j < |tails| && p == heads[i] + tails[j]
  {
    JoinMember(heads, tails, p);
    i, j :| 0 <= i < |heads| && 0 <= j < |tails| && p == heads[i] + tails[j];
  }

  lemma KindsAppend(p: Path, q: Path)
    ensures Kinds(p + q) == Kinds(p) + Kinds(q)
  {
  }

  /** The paths of one expansion have their indices in the same places. */
  lemma {:induction false} ExpansionKinds(meta: Json, path: seq<string>, p: Path)
    requires Expand(meta, path).Paths? && p in Expand(meta, path).ps
    ensures Kinds(p) == KindsOf(meta, path)
    decreases |path|
  {
    if path != [] {
      var f := Follow(meta, path[0]);
      var tails := Expand(f.next, path[1..]).ps;
      assert Expand(meta, path) == Under(f.head, Expand(f.next, path[1..]));
      HeadKinds(meta, path[0]);
      var i, j := JoinSplit(f.head, tails, p);
      ExpansionKinds(f.next, path[1..], tails[j]);
      KindsAppend(f.head[i], tails[j]);
    }
  }

  lemma {:induction false} SameAdjacency(p: Path, q: Path)
    requires Kinds(p) == Kinds(q)
    ensures NoAdjacentIndices(p) == NoAdjacentIndices(q)
  {
    assert |p| == |Kinds(p)| && |q| == |Kinds(q)|;
    if |p| > 1 {
      assert Kinds(p)[0] == Kinds(q)[0] && Kinds(p)[1] == Kinds(q)[1];
      assert Kinds(p[1..]) == Kinds(p)[1..] && Kinds(q[1..]) == Kinds(q)[1..];
      SameAdjacency(p[1..], q[1..]);
    }
  }

  predicate AllEndIn(ps: seq<Path>, k: Key) {
    forall p :: p in ps ==> p != [] && p[|p| - 1] == k
  }

  lemma JoinEnds(heads: seq<Path>, tails: seq<Path>, k: Key)
    requires AllEndIn(tails, k)
    ensures AllEndIn(Join(heads, tails), k)
  {
    forall p | p in Join(heads, tails) ensures p != [] && p[|p| - 1] == k {
      var i, j := JoinSplit(heads, tails, p);
      assert tails[j] in tails;
    }
  }

  /** A filter that does not end open ends every path in one and the same index other than 0. */
  lemma {:induction false} EndsInIndex(meta: Json, path: seq<string>) returns (m: nat)
    requires Expand(meta, path).Paths? && !EndsOpen(meta, path)
    ensures m > 0 && AllEndIn(Expand(meta, path).ps, Idx(m))
    decreases |path|
  {
    var f := Follow(meta, path[0]);
    var tails := Expand(f.next, path[1..]).ps;
    assert Expand(meta, path) == Under(f.head, Expand(f.next, path[1..]));
    if EndsOpen(f.next, path[1..]) {
      m := ToNat(path[0]);
      ExpansionShape(f.next, path[1..]);
      ExpansionNonEmpty(f.next, path[1..]);
      OnlyEmptyPath(tails);
      JoinUnit(f.head);
    } else {
      m := EndsInIndex(f.next, path[1..]);
      JoinEnds(f.head, tails, Idx(m));
    }
  }

  /** Adjacent indices cannot be created. */
  lemma {:induction false} AdjacentFails(t: Json, p: Path, v: Json)
    requires p != [] && t == (if p[0].Idx? then List([]) else Dict([])) && !NoAdjacentIndices(p)
    ensures !SetByPath(t, p, v, true).Done?
    decreases |p|
  {
    var child := Prepare(t, p[0], p[1], true).child;
    if p[0].Name? || p[1].Name? {
      AdjacentFails(child, p[1..], v);
    } else {
      assert child == Dict([]);
    }
  }

  lemma FirstElementHere(name: string, m: nat, v: Json)
    ensures var o := SetByPath(Dict([]), [Name(name), Idx(m)], v, true);
            o.Done? && GetByPath(o.d, [Name(name)]) == Found(List([v]))
  {
    var (k, last) := (Name(name), Idx(m));
    assert [k, last][1..] == [last];
    var none: seq<Json> := [];
    assert none + [v] == [v];
    assert Store(List(none), last, v) == Done(List([v]));
    SameKey(Dict([]), k, last, true, Done(List([v])));
  }

  lemma OneKeyDeeper(d: Json, base: Path, c: Json)
    requires |base| > 1 && Down(d, base[0]) == Found(c)
    ensures GetByPath(d, base) == GetByPath(c, base[1..])
  {
  }

  lemma {:induction false} DoneBelow(t: Json, p: Path, v: Json, c: Json)
    requires |p| > 1 && Prepare(t, p[0], p[1], true).Into?
    requires SetByPath(Prepare(t, p[0], p[1], true).child, p[1..], v, true) == Done(c)
    ensures var o := SetByPath(t, p, v, true);
            o.Done? && Down(o.d, p[0]) == Found(c)
  {
    SameKey(t, p[0], p[1], true, Done(c));
  }

  /** The first element stored for a new list becomes its only one, whatever its index. */
  lemma {:induction false} FirstElement(t: Json, p: Path, v: Json)
    requires |p| > 1 && t == (if p[0].Idx? then List([]) else Dict([]))
    requires NoAdjacentIndices(p) && p[|p| - 1].Idx?
    ensures var o := SetByPath(t, p, v, true);
            o.Done? && GetByPath(o.d, p[..|p| - 1]) == Found(List([v]))
    decreases |p|
  {
    if |p| == 2 {
      assert p == [p[0], p[1]] && p[..1] == [p[0]];
      FirstElementHere(p[0].s, p[1].i, v);
    } else {
      var child := Prepare(t, p[0], p[1], true).child;
      FirstElement(child, p[1..], v);
      var c := SetByPath(child, p[1..], v, true).d;
      DoneBelow(t, p, v, c);
      OneKeyDeeper(SetByPath(t, p, v, true).d, p[..|p| - 1], c);
      assert p[..|p| - 1][1..] == p[1..][..|p| - 2];
    }
  }

  /** Reading one key beyond a path that ends in a name. */
  lemma {:induction false} OneKeyMore(t: Json, base: Path, k: Key)
    requires base != [] && base[|base| - 1].Name? && GetByPath(t, base).Found?
    ensures GetByPath(t, base + [k]) == Final(GetByPath(t, base).v, k)
    decreases |base|
  {
    if |base| == 1 {
      assert (base + [k])[1..] == [k];
    } else {
      assert (base + [k])[1..] == base[1..] + [k];
      OneKeyMore(Down(t, base[0]).v, base[1..], k);
    }
  }

  lemma PrefixIsTaken(base: Path, p: Path)
    requires base <= p
    ensures p[..|base|] == base
  {
  }

  lemma Apart(p: Path, base: Path)
    requires |p| == |base| + 1 && p[..|base|] != base
    ensures !Comparable(p, base)
  {
    if base <= p {
      PrefixIsTaken(base, p);
    }
  }

  /** Storing other paths of the same length that end in an index leaves that list alone. */
  lemma {:induction false} ListStays(t: Json, picks: seq<Pick>, base: Path, l: Json)
    requires picks != [] && base != [] && StoreAll(Dict([]), picks).Tree?
    requires StoreAll(Dict([]), picks[..1]).Tree? && GetByPath(StoreAll(Dict([]), picks[..1]).t, base) == Found(l)
    requires forall i :: 1 <= i < |picks| ==> |picks[i].path| == |base| + 1 && picks[i].path[..|base|] != base
    ensures GetByPath(StoreAll(Dict([]), picks).t, base) == Found(l)
    decreases |picks|
  {
    var n := |picks| - 1;
    if n == 0 {
      assert picks[..1] == picks;
    } else {
      var front, p := picks[..n], picks[n];
      assert front[..1] == picks[..1];
      ListStays(t, front, base, l);
      var u := StoreAll(Dict([]), front).t;
      Apart(p.path, base);
      WriteFrame(u, p.path, p.value, true, base);
    }
  }

  /** What a caller of one filter hopes for. */
  predicate FilterReadsBack(meta: Json, filter: seq<string>)
    requires Expand(meta, filter).Paths?
  {
    && FilterPaths(meta, [filter]).Tree?
    && forall p :: p in Expand(meta, filter).ps ==> GetByPath(FilterPaths(meta, [filter]).t, p) == GetByPath(meta, p)
  }

  lemma OneFilter(meta: Json, filter: seq<string>)
    ensures PickFilters(meta, [filter]) == FilterPicks(meta, filter)
  {
    var (pick, r) := (Picker(meta), FilterPicks(meta, filter));
    GatherNext(pick, [filter], 0, r);
    if r.Picked? {
      assert [] + r.picks == r.picks;
    }
  }

  /** Without an open end the first list element read back is missing: it is its list's only one. */
  lemma {:induction false} UnopenedMisses(meta: Json, filter: seq<string>)
    requires meta.Dict? && Uniform(meta) && Expand(meta, filter).Paths? && !EndsOpen(meta, filter)
    requires forall p :: p in Expand(meta, filter).ps ==> NoAdjacentIndices(p)
    ensures !FilterReadsBack(meta, filter)
  {
    var ps := Expand(meta, filter).ps;
    var m := EndsInIndex(meta, filter);
    ExpansionNonEmpty(meta, filter);
    ExpansionShape(meta, filter);
    OneFilter(meta, filter);
    forall i | 0 <= i < |ps| ensures Resolves(meta, ps[i]) {
      assert ps[i] in ps;
      PathsResolve(meta, filter, ps[i]);
    }
    PickAllGood(meta, ps);
    var picks := PickAll(meta, ps).picks;
    if StoreAll(Dict([]), picks).Tree? {
      FirstMisses(meta, ps, picks, m);
      PickResolves(meta, ps[0]);
    }
  }

  /** The first pick is stored under a name, as the only element of a new list. */
  lemma FirstStored(meta: Json, pick: Pick, m: nat) returns (base: Path)
    requires meta.Dict? && GoodPick(meta, pick) && pick.path[|pick.path| - 1] == Idx(m)
    ensures base != [] && base[|base| - 1].Name? && pick.path == base + [Idx(m)]
    ensures var r := StoreAll(Dict([]), [pick]);
            r.Tree? && GetByPath(r.t, base) == Found(List([pick.value]))
  {
    var p := pick.path;
    base := p[..|p| - 1];
    assert p == base + [Idx(m)];
    if |p| > 1 {
      LastIsName(p);
      FirstElement(Dict([]), p, pick.value);
      OneStored(Dict([]), pick);
    }
  }

  lemma {:induction false} FirstMisses(meta: Json, ps: seq<Path>, picks: seq<Pick>, m: nat)
    requires meta.Dict? && ps != [] && PicksOf(meta, picks, ps) && AllDistinct(ps) && AllOfLength(ps, |ps[0]|) && m > 0
    requires AllEndIn(ps, Idx(m))
    requires StoreAll(Dict([]), picks).Tree?
    ensures !GetByPath(StoreAll(Dict([]), picks).t, ps[0]).Found?
  {
    assert ps[0] in ps && picks[0].path == ps[0] && GoodPick(meta, picks[0]);
    var base := FirstStored(meta, picks[0], m);
    OtherBases(meta, ps, picks, base, m);
    StaysTheOnly(picks, base, picks[0].value, m);
  }

  /** The list made by the first pick never gets a second element. */
  lemma {:induction false} StaysTheOnly(picks: seq<Pick>, base: Path, v: Json, m: nat)
    requires picks != [] && StoreAll(Dict([]), picks).Tree? && m > 0
    requires base != [] && base[|base| - 1].Name?
    requires StoreAll(Dict([]), [picks[0]]).Tree?
    requires GetByPath(StoreAll(Dict([]), [picks[0]]).t, base) == Found(List([v]))
    requires forall i :: 1 <= i < |picks| ==> |picks[i].path| == |base| + 1 && picks[i].path[..|base|] != base
    ensures !GetByPath(StoreAll(Dict([]), picks).t, base + [Idx(m)]).Found?
  {
    assert picks[..1] == [picks[0]];
    ListStays(Dict([]), picks, base, List([v]));
    BeyondTheOnly(StoreAll(Dict([]), picks).t, base, v, m);
  }

  lemma BeyondTheOnly(t: Json, base: Path, v: Json, m: nat)
    requires base != [] && base[|base| - 1].Name? && GetByPath(t, base) == Found(List([v])) && m > 0
    ensures !GetByPath(t, base + [Idx(m)]).Found?
  {
    OneKeyMore(t, base, Idx(m));
  }

  lemma OtherBases(meta: Json, ps: seq<Path>, picks: seq<Pick>, base: Path, m: nat)
    requires ps != [] && PicksOf(meta, picks, ps) && AllDistinct(ps) && AllOfLength(ps, |ps[0]|)
    requires AllEndIn(ps, Idx(m)) && ps[0] == base + [Idx(m)]
    ensures forall i :: 1 <= i < |picks| ==> |picks[i].path| == |base| + 1 && picks[i].path[..|base|] != base
  {
    forall i | 1 <= i < |picks| ensures |picks[i].path| == |base| + 1 && picks[i].path[..|base|] != base {
      assert picks[i].path == ps[i] && ps[0] != ps[i] && ps[i] in ps;
      SameEnds(base, ps[i], Idx(m));
    }
  }

  lemma SameEnds(base: Path, q: Path, k: Key)
    requires base + [k] != q && q != [] && q[|q| - 1] == k
    ensures q[..|q| - 1] != base
  {
    assert q == q[..|q| - 1] + [k];
  }

  lemma {:induction false} LastIsName(p: Path)
    requires |p| > 1 && NoAdjacentIndices(p) && p[|p| - 1].Idx?
    ensures p[|p| - 2].Name?
  {
    if |p| > 2 {
      LastIsName(p[1..]);
    }
  }

  /** Adjacent indices make the very first write fail. */
  lemma {:induction false} AdjacentMisses(meta: Json, filter: seq<string>, p: Path)
    requires Expand(meta, filter).Paths? && p in Expand(meta, filter).ps && !NoAdjacentIndices(p)
    ensures !FilterReadsBack(meta, filter)
  {
    var ps := Expand(meta, filter).ps;
    ExpansionNonEmpty(meta, filter);
    OneFilter(meta, filter);
    ExpansionKinds(meta, filter, p);
    ExpansionKinds(meta, filter, ps[0]);
    SameAdjacency(p, ps[0]);
    if PickAll(meta, ps).Picked? {
      PicksAre(meta, ps);
      var picks := PickAll(meta, ps).picks;
      FirstFails(picks);
    }
  }

  lemma OneStored(t: Json, pick: Pick)
    ensures StoreAll(t, [pick]) ==
            match SetByPath(t, pick.path, pick.value, true)
            case Done(d) => Tree(d)
            case _ => NoTree
  {
    assert [pick][..0] == [];
  }

  lemma AdjacentNeverDone(p: Path, v: Json)
    requires !NoAdjacentIndices(p)
    ensures !SetByPath(Dict([]), p, v, true).Done?
  {
    if p[0].Name? {
      AdjacentFails(Dict([]), p, v);
    }
  }

  lemma {:induction false} FailsFromFirst(picks: seq<Pick>)
    requires picks != [] && StoreAll(Dict([]), [picks[0]]).NoTree?
    ensures StoreAll(Dict([]), picks).NoTree?
  {
    assert picks[..1] == [picks[0]];
    FailStays(Dict([]), picks, 1);
  }

  lemma FirstFails(picks: seq<Pick>)
    requires picks != [] && !NoAdjacentIndices(picks[0].path)
    ensures StoreAll(Dict([]), picks).NoTree?
  {
    AdjacentNeverDone(picks[0].path, picks[0].value);
    OneStored(Dict([]), picks[0]);
    FailsFromFirst(picks);
  }

  /** A filter without a key that leaves a trace has the empty path, which cannot be read. */
  lemma {:induction false} TracelessMisses(meta: Json, filter: seq<string>)
    requires Expand(meta, filter).Paths? && Depth(meta, filter) == 0
    ensures !FilterReadsBack(meta, filter)
  {
    ExpansionNonEmpty(meta, filter);
    ExpansionShape(meta, filter);
    OnlyEmptyPath(Expand(meta, filter).ps);
    OneFilter(meta, filter);
    EmptyPathIsBad(meta);
  }

  lemma EmptyPathIsBad(meta: Json)
    ensures PickAll(meta, [[]]) == Bad
  {
    var none: Path := [];
    assert [none][..0] == [];
  }

  /**
   Over a uniform tree, one filter builds a tree that reads back the source
   value at every concrete path exactly when it ends in a name, a wildcard or
   index 0 and no concrete path has two adjacent indices.
   */
  lemma {:induction false} OneFilterReadsBack(meta: Json, filter: seq<string>)
    requires meta.Dict? && Uniform(meta) && Expand(meta, filter).Paths?
    ensures FilterReadsBack(meta, filter) <==> GoodFilter(meta, filter)
  {
    if GoodFilter(meta, filter) {
      assert GoodFilters(meta, [filter]);
      ExpansionNonEmpty(meta, filter);
      forall p | p in Expand(meta, filter).ps
        ensures FilterPaths(meta, [filter]).Tree?
        ensures GetByPath(FilterPaths(meta, [filter]).t, p) == GetByPath(meta, p)
      {
        FilteredTreeReadsBack(meta, [filter], 0, p);
      }
      FilteredTreeReadsBack(meta, [filter], 0, Expand(meta, filter).ps[0]);
    } else if Depth(meta, filter) == 0 {
      TracelessMisses(meta, filter);
    } else if p :| p in Expand(meta, filter).ps && !NoAdjacentIndices(p) {
      AdjacentMisses(meta, filter, p);
    } else {
      UnopenedMisses(meta, filter);
    }
  }
}
