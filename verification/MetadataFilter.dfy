/** `OCIMetadata._filter`: keep the branches of a JSON tree that lead to a selected key. */
module MetadataFilter {
  import opened Wrappers
  import opened Json
  import opened Text

  /** `k in keys or k.lower() in keys`. */
  predicate Selected(k: string, keys: seq<string>) {
    k in keys || Lower(k) in keys
  }

  /** None where nothing is selected. */
  function Filter(t: Json, keys: seq<string>): Option<Json> {
    match t
    case List(elems) =>
      var kept := FilterElems(elems, keys);
      if kept == [] then None else Some(List(kept))
    case Dict(items) =>
      var kept := FilterItems(items, keys);
      if kept == [] then None else Some(Dict(kept))
    case _ => None
  }

  function FilterElems(elems: seq<Json>, keys: seq<string>): seq<Json> {
    if elems == [] then []
    else
      var n := |elems| - 1;
      var e := Filter(elems[n], keys);
      FilterElems(elems[..n], keys) + (if e.Some? then [e.value] else [])
  }

  function FilterItem(e: Entry, keys: seq<string>): seq<Entry> {
    if Selected(e.key, keys) then [e]
    else
      var v := Filter(e.val, keys);
      if v.Some? then [Entry(e.key, v.value)] else []
  }

  function FilterItems(items: seq<Entry>, keys: seq<string>): seq<Entry> {
    if items == [] then []
    else
      var n := |items| - 1;
      FilterItems(items[..n], keys) + FilterItem(items[n], keys)
  }

  method FilterTree(t: Json, keys: seq<string>) returns (r: Option<Json>)
    ensures r == Filter(t, keys)
    decreases t
  {
    match t {
      case List(elems) =>
        var kept: seq<Json> := [];
        for i := 0 to |elems|
          invariant kept == FilterElems(elems[..i], keys)
        {
          var e := FilterTree(elems[i], keys);
          assert elems[..i + 1][..i] == elems[..i];
          if e.Some? {
            kept := kept + [e.value];
          }
        }
        assert elems[..|elems|] == elems;
        r := if kept == [] then None else Some(List(kept));
      case Dict(items) =>
        var kept: seq<Entry> := [];
        for i := 0 to |items|
          invariant kept == FilterItems(items[..i], keys)
        {
          assert items[..i + 1][..i] == items[..i];
          if Selected(items[i].key, keys) {
            kept := kept + [items[i]];
          } else {
            var v := FilterTree(items[i].val, keys);
            if v.Some? {
              kept := kept + [Entry(items[i].key, v.value)];
            }
          }
        }
        assert items[..|items|] == items;
        r := if kept == [] then None else Some(Dict(kept));
      case _ =>
        r := None;
    }
  }

  // ---- nothing selected is lost -----------------------------------------------------

  /** A key is asked for as it is written, or in lower case. */
  predicate Asked(k: string, keys: seq<string>) {
    exists i :: 0 <= i < |keys| && (keys[i] == k || keys[i] == Lower(k))
  }

  /** The topmost selected entries, in document order. */
  function Selection(t: Json, keys: seq<string>): seq<Entry> {
    match t
    case List(elems) => SelectionElems(elems, keys)
    case Dict(items) => SelectionItems(items, keys)
    case _ => []
  }

  function SelectionElems(elems: seq<Json>, keys: seq<string>): seq<Entry> {
    if elems == [] then []
    else SelectionElems(elems[..|elems| - 1], keys) + Selection(elems[|elems| - 1], keys)
  }

  function SelectionItem(e: Entry, keys: seq<string>): seq<Entry> {
    if Asked(e.key, keys) then [e] else Selection(e.val, keys)
  }

  function SelectionItems(items: seq<Entry>, keys: seq<string>): seq<Entry> {
    if items == [] then []
    else SelectionItems(items[..|items| - 1], keys) + SelectionItem(items[|items| - 1], keys)
  }

  /** Every branch leads to a selected key: no empty container, no leaf outside a selected entry. */
  predicate Tight(t: Json, keys: seq<string>) {
    match t
    case List(elems) => elems != [] && forall i :: 0 <= i < |elems| ==> Tight(elems[i], keys)
    case Dict(items) =>
      items != [] && forall i :: 0 <= i < |items| ==> Asked(items[i].key, keys) || Tight(items[i].val, keys)
    case _ => false
  }

  /** `f` is `t` with list elements and dictionary entries deleted. */
  predicate Pruned(f: Json, t: Json)
    decreases t
  {
    f == t || match (f, t)
      case (List(x), List(y)) => PrunedElems(x, y)
      case (Dict(x), Dict(y)) => PrunedItems(x, y)
      case _ => false
  }

  predicate PrunedElems(x: seq<Json>, y: seq<Json>)
    decreases y
  {
    if y == [] then x == []
    else
      var (m, n) := (|x| - 1, |y| - 1);
      PrunedElems(x, y[..n]) || (x != [] && Pruned(x[m], y[n]) && PrunedElems(x[..m], y[..n]))
  }

  predicate PrunedItems(x: seq<Entry>, y: seq<Entry>)
    decreases y
  {
    if y == [] then x == []
    else
      var (m, n) := (|x| - 1, |y| - 1);
      || PrunedItems(x, y[..n])
      || (x != [] && x[m].key == y[n].key && Pruned(x[m].val, y[n].val) && PrunedItems(x[..m], y[..n]))
  }

  /** The filter returns None exactly when nothing is selected; otherwise a tight pruning with the same selection. */
  lemma {:induction false} FilterIsExact(t: Json, keys: seq<string>)
    ensures var r := Filter(t, keys);
            && (r == None <==> Selection(t, keys) == [])
            && (r.Some? ==>
                  && Tight(r.value, keys)
                  && Pruned(r.value, t)
                  && Selection(r.value, keys) == Selection(t, keys))
    decreases t
  {
    match t {
      case List(elems) => ElemsExact(elems, keys);
      case Dict(items) => ItemsExact(items, keys);
      case _ =>
    }
  }

  lemma {:induction false} ElemsExact(elems: seq<Json>, keys: seq<string>)
    ensures var kept := FilterElems(elems, keys);
            && (kept == [] <==> SelectionElems(elems, keys) == [])
            && (forall i :: 0 <= i < |kept| ==> Tight(kept[i], keys))
            && PrunedElems(kept, elems)
            && SelectionElems(kept, keys) == SelectionElems(elems, keys)
    decreases elems
  {
    if elems != [] {
      var n := |elems| - 1;
      ElemsExact(elems[..n], keys);
      FilterIsExact(elems[n], keys);
      var front, kept := FilterElems(elems[..n], keys), FilterElems(elems, keys);
      if Filter(elems[n], keys).Some? {
        assert kept[..|front|] == front;
      } else {
        assert kept == front;
      }
    }
  }

  lemma {:induction false} ItemExact(e: Entry, keys: seq<string>)
    ensures var r := FilterItem(e, keys);
            && |r| <= 1 && (r == [] <==> SelectionItem(e, keys) == [])
            && (r != [] ==>
                  && r[0].key == e.key && Pruned(r[0].val, e.val)
                  && (Asked(r[0].key, keys) || Tight(r[0].val, keys))
                  && SelectionItem(r[0], keys) == SelectionItem(e, keys))
    decreases e
  {
    FilterIsExact(e.val, keys);
  }

  lemma {:induction false} ItemsExact(items: seq<Entry>, keys: seq<string>)
    ensures var kept := FilterItems(items, keys);
            && (kept == [] <==> SelectionItems(items, keys) == [])
            && (forall i :: 0 <= i < |kept| ==> Asked(kept[i].key, keys) || Tight(kept[i].val, keys))
            && PrunedItems(kept, items)
            && SelectionItems(kept, keys) == SelectionItems(items, keys)
    decreases items
  {
    if items != [] {
      var n := |items| - 1;
      ItemsExact(items[..n], keys);
      ItemExact(items[n], keys);
      var front, kept := FilterItems(items[..n], keys), FilterItems(items, keys);
      if FilterItem(items[n], keys) == [] {
        assert kept == front;
      } else {
        assert kept[..|front|] == front;
      }
    }
  }

  // ---- idempotence ----------------------------------------------------------------------

  /** Filtering changes nothing exactly when the tree is already tight. */
  lemma {:induction false} FixedIffTight(t: Json, keys: seq<string>)
    ensures Filter(t, keys) == Some(t) <==> Tight(t, keys)
    decreases t
  {
    FilterIsExact(t, keys);
    if Tight(t, keys) {
      match t {
        case List(elems) => TightElems(elems, keys);
        case Dict(items) => TightItems(items, keys);
      }
    }
  }

  lemma {:induction false} TightElems(elems: seq<Json>, keys: seq<string>)
    requires forall i :: 0 <= i < |elems| ==> Tight(elems[i], keys)
    ensures FilterElems(elems, keys) == elems
    decreases elems
  {
    if elems != [] {
      var n := |elems| - 1;
      TightElems(elems[..n], keys);
      FixedIffTight(elems[n], keys);
      assert elems == elems[..n] + [elems[n]];
    }
  }

  lemma {:induction false} TightItems(items: seq<Entry>, keys: seq<string>)
    requires forall i :: 0 <= i < |items| ==> Asked(items[i].key, keys) || Tight(items[i].val, keys)
    ensures FilterItems(items, keys) == items
    decreases items
  {
    if items != [] {
      var n := |items| - 1;
      TightItems(items[..n], keys);
      if !Asked(items[n].key, keys) {
        FixedIffTight(items[n].val, keys);
      }
      assert items == items[..n] + [items[n]];
    }
  }

  /** Filtering twice is filtering once. */
  lemma FilterTwice(t: Json, keys: seq<string>)
    requires Filter(t, keys).Some?
    ensures Filter(Filter(t, keys).value, keys) == Filter(t, keys)
  {
    FilterIsExact(t, keys);
    FixedIffTight(Filter(t, keys).value, keys);
  }

  // ---- one entry ----------------------------------------------------------------------------------

  /** The entry is somewhere in the tree. */
  ghost predicate Contains(t: Json, e: Entry) {
    match t
    case List(elems) => exists i :: 0 <= i < |elems| && Contains(elems[i], e)
    case Dict(items) => exists i :: 0 <= i < |items| && (items[i] == e || Contains(items[i].val, e))
    case _ => false
  }

  lemma {:induction false} ElemKept(elems: seq<Json>, keys: seq<string>, i: nat)
    requires i < |elems| && Filter(elems[i], keys).Some?
    ensures Filter(elems[i], keys).value in FilterElems(elems, keys)
  {
    var n := |elems| - 1;
    if i < n {
      ElemKept(elems[..n], keys, i);
    }
  }

  lemma {:induction false} ItemKept(items: seq<Entry>, keys: seq<string>, i: nat, e: Entry)
    requires i < |items| && FilterItem(items[i], keys) == [e]
    ensures e in FilterItems(items, keys)
  {
    var n := |items| - 1;
    if i < n {
      ItemKept(items[..n], keys, i, e);
    }
  }

  /** An entry that is asked for, anywhere in the tree, survives with its whole value. */
  lemma {:induction false} AskedSurvives(t: Json, keys: seq<string>, e: Entry)
    requires Contains(t, e) && Asked(e.key, keys)
    ensures Filter(t, keys).Some? && Contains(Filter(t, keys).value, e)
    decreases t
  {
    match t {
      case List(elems) =>
        var i :| 0 <= i < |elems| && Contains(elems[i], e);
        AskedSurvives(elems[i], keys, e);
        ElemKept(elems, keys, i);
        var kept := FilterElems(elems, keys);
        var j :| 0 <= j < |kept| && kept[j] == Filter(elems[i], keys).value;
        assert Contains(kept[j], e);
      case Dict(items) =>
        var i :| 0 <= i < |items| && (items[i] == e || Contains(items[i].val, e));
        var f := items[i];
        if !Asked(f.key, keys) {
          AskedSurvives(f.val, keys, e);
          f := Entry(f.key, Filter(f.val, keys).value);
        }
        ItemKept(items, keys, i, f);
        var kept := FilterItems(items, keys);
        var j :| 0 <= j < |kept| && kept[j] == f;
        assert kept[j] == e || Contains(kept[j].val, e);
    }
  }
}
