/** `_get_by_path` and `_set_by_path`: reading and writing a JSON tree by a sequence of keys. */
module MetadataPaths {
  import opened Json

  datatype Key = Idx(i: nat) | Name(s: string)

  // ---- reading -------------------------------------------------------------------

  datatype Lookup = Found(v: Json) | Missing | Raised

  predicate Occurs(part: string, s: string) {
    part <= s || (s != "" && Occurs(part, s[1..]))
  }

  /** `k in d` for an integer and a list: Python compares numbers and booleans alike. */
  predicate IntIn(k: nat, elems: seq<Json>) {
    exists i :: 0 <= i < |elems| &&
      (elems[i] == Num(k as real) || (k == 1 && elems[i] == Bool(true)) || (k == 0 && elems[i] == Bool(false)))
  }

  /** One key before the last. */
  function Down(d: Json, k: Key): Lookup {
    match k
    case Idx(i) =>
      (match d
       case List(elems) => if i < |elems| then Found(elems[i]) else Raised
       case Str(s) => if i < |s| then Found(Str([s[i]])) else Raised
       case _ => Raised)
    case Name(s) =>
      match d
      case Dict(items) => if Has(items, s) then Found(Get(items, s)) else Missing
      case List(elems) => if Str(s) in elems then Raised else Missing
      case Str(t) => if Occurs(s, t) then Raised else Missing
      case _ => Raised
  }

  /** The last key. */
  function Final(d: Json, k: Key): Lookup {
    match k
    case Idx(i) =>
      (match d
       case List(elems) => if i < |elems| then Found(elems[i]) else if IntIn(i, elems) then Raised else Missing
       case Dict(_) => Missing
       case _ => Raised)
    case Name(s) =>
      match d
      case Dict(items) => if Has(items, s) then Found(Get(items, s)) else Missing
      case Str(t) => if Occurs(s, t) then Raised else Missing
      case _ => Raised
  }

  function GetByPath(d: Json, keys: seq<Key>): Lookup
    decreases |keys|
  {
    if keys == [] then Raised
    else if |keys| == 1 then Final(d, keys[0])
    else
      match Down(d, keys[0])
      case Found(v) => GetByPath(v, keys[1..])
      case other => other
  }

  method ReadPath(dic: Json, keys: seq<Key>) returns (r: Lookup)
    ensures r == GetByPath(dic, keys)
  {
    if |keys| == 0 {
      return Raised;
    }
    var d, i := dic, 0;
    while i < |keys| - 1
      invariant 0 <= i < |keys|
      invariant GetByPath(dic, keys) == GetByPath(d, keys[i..])
    {
      assert keys[i..][1..] == keys[i + 1..];
      r := Down(d, keys[i]);
      if !r.Found? {
        return;
      }
      d, i := r.v, i + 1;
    }
    r := Final(d, keys[i]);
  }

  // ---- writing --------------------------------------------------------------------

  /**
   Done: the value was stored.  Unset: a key was missing and creation was off;
   the tree may have been padded on the way.  IntKeyed: a dictionary got an
   integer key, which is no longer JSON.
   */
  datatype Outcome = Done(d: Json) | Unset(d: Json) | IntKeyed | Failed

  function Padding(n: nat): (r: seq<Json>)
    ensures |r| == n
    ensures forall i :: 0 <= i < n ==> r[i] == Dict([])
  {
    seq(n, _ => Dict([]))
  }

  /** The container made ready for key `k`, and the child the walk goes to; or the outcome that ends the walk. */
  datatype Prepared = Into(parent: Json, child: Json) | Stop(o: Outcome)

  function Prepare(d: Json, k: Key, next: Key, create: bool): Prepared {
    match k
    case Idx(i) =>
      if !d.List? then Stop(Failed)
      else
        var elems := if |d.elems| <= i then d.elems + Padding(i + 1 - |d.elems|) else d.elems;
        Into(List(elems), elems[i])
    case Name(s) =>
      match d
      case Dict(items) =>
        if Has(items, s) then Into(d, Get(items, s))
        else if create then
          var child := if next.Idx? then List([]) else Dict([]);
          Into(Dict(Put(items, s, child)), child)
        else Stop(Unset(d))
      case List(elems) => if Str(s) in elems || create then Stop(Failed) else Stop(Unset(d))
      case Str(t) => if Occurs(s, t) || create then Stop(Failed) else Stop(Unset(d))
      case _ => Stop(Failed)
  }

  function Store(d: Json, k: Key, v: Json): Outcome {
    match d
    case List(elems) =>
      if k.Name? then Failed
      else if k.i >= |elems| then Done(List(elems + [v]))
      else Done(List(elems[k.i := v]))
    case Dict(items) => if k.Name? then Done(Dict(Put(items, k.s, v))) else IntKeyed
    case _ => Failed
  }

  /** `parent` with the child at `k` replaced by what became of it. */
  function Attach(parent: Json, k: Key, o: Outcome): Outcome {
    match o
    case IntKeyed => IntKeyed
    case Failed => Failed
    case _ =>
      var d :=
        if parent.List? && k.Idx? && k.i < |parent.elems| then List(parent.elems[k.i := o.d])
        else if parent.Dict? && k.Name? then Dict(Put(parent.items, k.s, o.d))
        else parent;
      if o.Done? then Done(d) else Unset(d)
  }

  function SetByPath(d: Json, keys: seq<Key>, v: Json, create: bool): Outcome
    decreases |keys|
  {
    if keys == [] then Failed
    else if |keys| == 1 then Store(d, keys[0], v)
    else
      match Prepare(d, keys[0], keys[1], create)
      case Into(parent, child) => Attach(parent, keys[0], SetByPath(child, keys[1..], v, create))
      case Stop(o) => o
  }

  function Rebuild(trail: seq<Json>, keys: seq<Key>, o: Outcome): Outcome
    requires |trail| <= |keys|
  {
    if trail == [] then o
    else
      var n := |trail| - 1;
      Rebuild(trail[..n], keys[..n], Attach(trail[n], keys[n], o))
  }

  lemma RebuildSnoc(trail: seq<Json>, parent: Json, keys: seq<Key>, o: Outcome)
    requires |keys| == |trail| + 1
    ensures Rebuild(trail + [parent], keys, o)
         == Rebuild(trail, keys[..|trail|], Attach(parent, keys[|trail|], o))
  {
    assert (trail + [parent])[..|trail|] == trail;
  }

  lemma SetStep(d: Json, keys: seq<Key>, i: nat, v: Json, create: bool)
    requires i + 1 < |keys|
    ensures SetByPath(d, keys[i..], v, create) ==
            match Prepare(d, keys[i], keys[i + 1], create)
            case Into(parent, child) => Attach(parent, keys[i], SetByPath(child, keys[i + 1..], v, create))
            case Stop(o) => o
  {
    assert keys[i..][1..] == keys[i + 1..] && keys[i..][0] == keys[i] && keys[i..][1] == keys[i + 1];
  }

  /** The loop of `_set_by_path`; `trail` holds the containers passed on the way down. */
  method WritePath(dic: Json, keys: seq<Key>, v: Json, create: bool) returns (r: Outcome)
    ensures r == SetByPath(dic, keys, v, create)
  {
    if |keys| == 0 {
      return Failed;
    }
    var d, i := dic, 0;
    var trail: seq<Json> := [];
    ghost var whole := SetByPath(dic, keys, v, create);
    while i < |keys| - 1
      invariant 0 <= i < |keys| && |trail| == i
      invariant whole == Rebuild(trail, keys[..i], SetByPath(d, keys[i..], v, create))
    {
      SetStep(d, keys, i, v, create);
      match Prepare(d, keys[i], keys[i + 1], create) {
        case Into(parent, child) =>
          RebuildSnoc(trail, parent, keys[..i + 1], SetByPath(child, keys[i + 1..], v, create));
          assert keys[..i + 1][..i] == keys[..i];
          trail, d, i := trail + [parent], child, i + 1;
        case Stop(o) =>
          r := Climb(trail, keys[..i], o);
          return;
      }
    }
    r := Climb(trail, keys[..i], Store(d, keys[i], v));
  }

  /** The containers passed on the way down, updated from the innermost out. */
  method Climb(trail: seq<Json>, keys: seq<Key>, o: Outcome) returns (r: Outcome)
    requires |trail| == |keys|
    ensures r == Rebuild(trail, keys, o)
  {
    r := o;
    var i := |trail|;
    assert trail[..i] == trail && keys[..i] == keys;
    while i > 0
      invariant 0 <= i <= |trail|
      invariant Rebuild(trail, keys, o) == Rebuild(trail[..i], keys[..i], r)
    {
      i := i - 1;
      assert trail[..i + 1] == trail[..i] + [trail[i]] && keys[..i + 1][..i] == keys[..i];
      RebuildSnoc(trail[..i], trail[i], keys[..i + 1], r);
      r := Attach(trail[i], keys[i], r);
    }
  }

  // ---- laws ------------------------------------------------------------------------

  /** The container the last key is applied to. */
  function Landing(d: Json, keys: seq<Key>, create: bool): Json
    decreases |keys|
  {
    if |keys| <= 1 then d
    else
      match Prepare(d, keys[0], keys[1], create)
      case Into(_, child) => Landing(child, keys[1..], create)
      case Stop(_) => d
  }

  /** The guard of the append: a final index must not lie beyond the end of its list. */
  predicate Fits(d: Json, keys: seq<Key>, create: bool)
    requires keys != []
  {
    var k, at := keys[|keys| - 1], Landing(d, keys, create);
    k.Idx? && at.List? ==> k.i <= |at.elems|
  }

  predicate Comparable(p: seq<Key>, q: seq<Key>) {
    p <= q || q <= p
  }

  /** What the write does to the container it passes through, seen from another key. */
  lemma OtherKey(d: Json, k: Key, next: Key, create: bool, o: Outcome, q: Key)
    requires q != k && (o.Done? || o.Unset?)
    requires Prepare(d, k, next, create).Into?
    ensures var d' := Attach(Prepare(d, k, next, create).parent, k, o).d;
            && (Down(d, q).Found? ==> Down(d', q) == Down(d, q))
            && (Final(d, q).Found? ==> Final(d', q) == Final(d, q))
  {
    if d.Dict? && k.Name? && q.Name? {
      var child := if next.Idx? then List([]) else Dict([]);
      PutOther(d.items, k.s, child, q.s);
      PutOther(Prepare(d, k, next, create).parent.items, k.s, o.d, q.s);
    }
  }

  /** The same for the key itself, when it was there before. */
  lemma SameKey(d: Json, k: Key, next: Key, create: bool, o: Outcome)
    requires o.Done? || o.Unset?
    requires Prepare(d, k, next, create).Into?
    ensures var d' := Attach(Prepare(d, k, next, create).parent, k, o).d;
            && Down(d', k) == Found(o.d)
            && (Down(d, k).Found? ==> Prepare(d, k, next, create).child == Down(d, k).v)
  {
    if d.Dict? && k.Name? {
      PutGet(Prepare(d, k, next, create).parent.items, k.s, o.d);
    }
  }

  lemma StoreRead(d: Json, k: Key, v: Json)
    requires Store(d, k, v).Done?
    ensures Final(Store(d, k, v).d, k) == Found(v) <==> (k.Idx? && d.List? ==> k.i <= |d.elems|)
  {
    if d.Dict? {
      PutGet(d.items, k.s, v);
    }
  }

  /** What was written is read back exactly when the final index was not beyond the end of its list. */
  lemma {:induction false} ReadAfterWrite(d: Json, keys: seq<Key>, v: Json, create: bool)
    requires SetByPath(d, keys, v, create).Done?
    ensures GetByPath(SetByPath(d, keys, v, create).d, keys) == Found(v) <==> Fits(d, keys, create)
    decreases |keys|
  {
    if |keys| == 1 {
      StoreRead(d, keys[0], v);
    } else {
      var p := Prepare(d, keys[0], keys[1], create);
      var o := SetByPath(p.child, keys[1..], v, create);
      SameKey(d, keys[0], keys[1], create, o);
      ReadAfterWrite(p.child, keys[1..], v, create);
    }
  }

  lemma StoreFrame(d: Json, k: Key, v: Json, q: seq<Key>)
    requires Store(d, k, v).Done? && GetByPath(d, q).Found? && q[0] != k
    ensures GetByPath(Store(d, k, v).d, q) == GetByPath(d, q)
  {
    if d.Dict? && q[0].Name? {
      PutOther(d.items, k.s, v, q[0].s);
    }
  }

  /** A write leaves every path alone that is neither a prefix nor an extension of the written one. */
  lemma {:induction false} WriteFrame(d: Json, keys: seq<Key>, v: Json, create: bool, q: seq<Key>)
    requires SetByPath(d, keys, v, create).Done? || SetByPath(d, keys, v, create).Unset?
    requires GetByPath(d, q).Found? && !Comparable(keys, q)
    ensures GetByPath(SetByPath(d, keys, v, create).d, q) == GetByPath(d, q)
    decreases |keys|
  {
    if |keys| == 1 {
      StoreFrame(d, keys[0], v, q);
    } else {
      var p := Prepare(d, keys[0], keys[1], create);
      if p.Into? {
        var o := SetByPath(p.child, keys[1..], v, create);
        if q[0] != keys[0] {
          OtherKey(d, keys[0], keys[1], create, o, q[0]);
        } else {
          assert keys == [keys[0]] + keys[1..] && q == [q[0]] + q[1..];
          assert q[1..] != [];
          SameKey(d, keys[0], keys[1], create, o);
          WriteFrame(p.child, keys[1..], v, create, q[1..]);
        }
      }
    }
  }
}
