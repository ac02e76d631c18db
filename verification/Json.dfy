/** Instance metadata as JSON trees; a dictionary is the list of its entries in insertion order. */
module Json {
  datatype Json =
    | Null
    | Bool(b: bool)
    | Num(n: real)
    | Str(s: string)
    | List(elems: seq<Json>)
    | Dict(items: seq<Entry>)

  datatype Entry = Entry(key: string, val: Json)

  /** The index of a key, or the length when it is absent. */
  function Find(items: seq<Entry>, k: string): (i: nat)
    ensures i <= |items|
    ensures i < |items| ==> items[i].key == k
    ensures forall j :: 0 <= j < i ==> items[j].key != k
  {
    if items == [] || items[0].key == k then 0 else 1 + Find(items[1..], k)
  }

  predicate Has(items: seq<Entry>, k: string) {
    Find(items, k) < |items|
  }

  function Get(items: seq<Entry>, k: string): Json
    requires Has(items, k)
  {
    items[Find(items, k)].val
  }

  /** d[k] = v: in place for a known key, at the end for a new one. */
  function Put(items: seq<Entry>, k: string, v: Json): (r: seq<Entry>) {
    var i := Find(items, k);
    if i < |items| then items[i := Entry(k, v)] else items + [Entry(k, v)]
  }

  lemma PutGet(items: seq<Entry>, k: string, v: Json)
    ensures Has(Put(items, k, v), k) && Get(Put(items, k, v), k) == v
  {
    FindUnique(Put(items, k, v), k, Find(items, k));
  }

  lemma PutOther(items: seq<Entry>, k: string, v: Json, x: string)
    requires x != k
    ensures Has(Put(items, k, v), x) <==> Has(items, x)
    ensures Has(items, x) ==> Get(Put(items, k, v), x) == Get(items, x)
  {
    var r := Put(items, k, v);
    if Has(items, x) {
      FindUnique(r, x, Find(items, x));
    }
    if Has(r, x) {
      assert items[Find(r, x)].key == x;
    }
  }

  lemma FindUnique(items: seq<Entry>, k: string, i: nat)
    requires i < |items| && items[i].key == k
    requires forall j :: 0 <= j < i ==> items[j].key != k
    ensures Find(items, k) == i
  {
  }

  lemma HasIff(items: seq<Entry>, k: string)
    ensures Has(items, k) <==> exists i :: 0 <= i < |items| && items[i].key == k
  {
  }

  /** Overwriting an entry with its own value changes nothing. */
  lemma PutSame(items: seq<Entry>, k: string)
    requires Has(items, k)
    ensures Put(items, k, Get(items, k)) == items
  {
  }

  predicate Distinct(items: seq<Entry>) {
    forall i, j :: 0 <= i < j < |items| ==> items[i].key != items[j].key
  }

  /** What a parsed document is: keys distinct in every dictionary. */
  predicate Wf(t: Json) {
    match t
    case List(elems) => forall i :: 0 <= i < |elems| ==> Wf(elems[i])
    case Dict(items) => Distinct(items) && forall i :: 0 <= i < |items| ==> Wf(items[i].val)
    case _ => true
  }
}
