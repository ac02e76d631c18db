/**
 The two key-renaming passes of the metadata: SDK names to the names of the
 metadata service (`lifecycle_state` to `state`), and back.
 */
module NameConversion {
  import opened Wrappers
  import opened Json
  import opened Text

  /** `_attribute_map`. */
  const ATTRIBUTES: seq<(string, string)> := [
    ("lifecycle_state", "state"),
    ("availability_domain", "availabilityDomain"),
    ("display_name", "displayName"),
    ("compartment_id", "compartmentId"),
    ("defined_tags", "definedTags"),
    ("freeform_tags", "freeformTags"),
    ("time_created", "timeCreated"),
    ("source_details", "sourceDetails"),
    ("launch_options", "launchOptions"),
    ("image_id", "imageId"),
    ("fault_domain", "faultDomain"),
    ("launch_mode", "launchMode"),
    ("ipxe_script", "ipxeScript"),
    ("extended_metadata", "extendedMetadata"),
    ("boot_volume_type", "bootVolumeType"),
    ("network_type", "networkType"),
    ("remote_data_volume_type", "remoteDataVolumeType"),
    ("source_type", "sourceType"),
    ("boot_volume_id", "bootVolumeId"),
    ("is_primary", "isPrimary"),
    ("public_ip", "publicIp"),
    ("skip_source_dest_check", "skipSourceDestCheck"),
    ("private_ip", "privateIp"),
    ("mac_address", "macAddr"),
    ("hostname_label", "hostnameLabel"),
    ("subnet_cidr_block", "subnetCidrBlock"),
    ("vnic_id", "vnicId"),
    ("virtual_router_ip", "virtualRouterIp"),
    ("nic_index", "nicIndex"),
    ("vlan_tag", "vlanTag")]

  /** First row with this SDK name, or the table's length. */
  function BySdk(table: seq<(string, string)>, k: string): (r: nat)
    ensures r <= |table|
    ensures r < |table| ==> table[r].0 == k
    ensures forall j :: 0 <= j < r ==> table[j].0 != k
  {
    if table == [] || table[0].0 == k then 0 else 1 + BySdk(table[1..], k)
  }

  /** First row whose lower-cased service name is this, or the table's length. */
  function ByLower(table: seq<(string, string)>, k: string): (r: nat)
    ensures r <= |table|
    ensures r < |table| ==> Lower(table[r].1) == k
    ensures forall j :: 0 <= j < r ==> Lower(table[j].1) != k
  {
    if table == [] || Lower(table[0].1) == k then 0 else 1 + ByLower(table[1..], k)
  }

  predicate IsSdkName(k: string) {
    BySdk(ATTRIBUTES, k) < |ATTRIBUTES|
  }

  predicate IsInverseKey(k: string) {
    ByLower(ATTRIBUTES, k) < |ATTRIBUTES|
  }

  function CamelKey(k: string): string {
    if IsSdkName(k) then ATTRIBUTES[BySdk(ATTRIBUTES, k)].1 else k
  }

  function UnderscoreKey(k: string): string {
    var n := Lower(k);
    if IsInverseKey(n) then ATTRIBUTES[ByLower(ATTRIBUTES, n)].0 else n
  }

  // ---- the table is invertible ---------------------------------------------------

  /** The row a lower-cased service name belongs to, told from its length and end letters. */
  function Row(s: string): nat {
    match |s|
    case 5 => 0
    case 6 => 26
    case 7 => if s[0] == 'i' then 9 else if s[0] == 'm' then 23 else 29
    case 8 => if s[0] == 'p' then 20 else 28
    case 9 => if s[0] == 'i' then 19 else 22
    case 10 => if s[0] == 'l' then 11 else if s[0] == 'i' then 12 else 17
    case 11 =>
      if s[0] == 'd' then (if s[10] == 'e' then 2 else 4)
      else if s[0] == 't' then 6 else if s[0] == 'f' then 10 else 15
    case 12 => if s[0] == 'f' then 5 else 18
    case 13 => if s[0] == 'c' then 3 else if s[0] == 's' then 7 else if s[0] == 'l' then 8 else 24
    case 14 => 14
    case 15 => if s[0] == 's' then 25 else 27
    case 16 => 13
    case 18 => 1
    case 19 => 21
    case 20 => 16
    case _ => |ATTRIBUTES|
  }

  lemma RowsDiffer(i: nat)
    requires i < |ATTRIBUTES|
    ensures Row(Lower(ATTRIBUTES[i].1)) == i
  {
  }

  /** No two service names agree in lower case. */
  lemma ServiceNamesDiffer(i: nat, j: nat)
    requires i < |ATTRIBUTES| && j < |ATTRIBUTES| && Lower(ATTRIBUTES[i].1) == Lower(ATTRIBUTES[j].1)
    ensures i == j
  {
    RowsDiffer(i);
    RowsDiffer(j);
  }

  /** Keys that survive the round trip. */
  predicate GoodKey(k: string) {
    IsSdkName(k) || (Lower(k) == k && !IsInverseKey(k))
  }

  lemma LowerTwice(k: string)
    ensures Lower(Lower(k)) == Lower(k)
  {
  }

  /** Renaming a key and renaming it back gives the key exactly when it is good; the result is good in any case. */
  lemma KeyRoundTrip(k: string)
    ensures UnderscoreKey(CamelKey(k)) == k <==> GoodKey(k)
    ensures GoodKey(UnderscoreKey(CamelKey(k)))
  {
    var n := Lower(CamelKey(k));
    LowerTwice(CamelKey(k));
    var j := ByLower(ATTRIBUTES, n);
    if j < |ATTRIBUTES| {
      assert IsSdkName(ATTRIBUTES[j].0);
    }
    if IsSdkName(k) {
      var i := BySdk(ATTRIBUTES, k);
      assert Lower(ATTRIBUTES[i].1) == n;
      ServiceNamesDiffer(i, j);
    }
  }

  // ---- trees ---------------------------------------------------------------------

  /** Both passes: `f` renames every dictionary key, all else stays; colliding keys overwrite one another. */
  function Convert(f: string -> string, t: Json): Json {
    match t
    case List(elems) => List(ConvertElems(f, elems))
    case Dict(items) => Dict(ConvertItems(f, items))
    case _ => t
  }

  function ConvertElems(f: string -> string, elems: seq<Json>): (r: seq<Json>)
    ensures |r| == |elems|
  {
    if elems == [] then []
    else
      var n := |elems| - 1;
      ConvertElems(f, elems[..n]) + [Convert(f, elems[n])]
  }

  function ConvertItems(f: string -> string, items: seq<Entry>): seq<Entry> {
    if items == [] then []
    else
      var n := |items| - 1;
      Put(ConvertItems(f, items[..n]), f(items[n].key), Convert(f, items[n].val))
  }

  /** The recursive walk of either pass. */
  method ConvertTree(f: string -> string, t: Json) returns (r: Json)
    ensures r == Convert(f, t)
    decreases t
  {
    match t {
      case List(elems) =>
        var out := ConvertList(f, elems);
        r := List(out);
      case Dict(items) =>
        var out := ConvertDict(f, items);
        r := Dict(out);
      case _ =>
        r := t;
    }
  }

  method ConvertList(f: string -> string, elems: seq<Json>) returns (out: seq<Json>)
    ensures out == ConvertElems(f, elems)
    decreases elems
  {
    out := [];
    for i := 0 to |elems|
      invariant out == ConvertElems(f, elems[..i])
    {
      var e := ConvertTree(f, elems[i]);
      assert elems[..i + 1][..i] == elems[..i];
      out := out + [e];
    }
    assert elems[..|elems|] == elems;
  }

  method ConvertDict(f: string -> string, items: seq<Entry>) returns (out: seq<Entry>)
    ensures out == ConvertItems(f, items)
    decreases items
  {
    out := [];
    for i := 0 to |items|
      invariant out == ConvertItems(f, items[..i])
    {
      var e := ConvertTree(f, items[i].val);
      assert items[..i + 1] == items[..i] + [items[i]];
      ConvertItemsNext(f, items[..i], items[i]);
      out := Put(out, f(items[i].key), e);
    }
    assert items[..|items|] == items;
  }

  /** `_name_convert_camel_case` and `_name_convert_underscore`. */
  method NameConvertCamelCase(t: Json) returns (r: Json)
    ensures r == Convert(CamelKey, t)
  {
    r := ConvertTree(CamelKey, t);
  }

  method NameConvertUnderscore(t: Json) returns (r: Json)
    ensures r == Convert(UnderscoreKey, t)
  {
    r := ConvertTree(UnderscoreKey, t);
  }

  lemma {:induction false} ConvertElemsAt(f: string -> string, elems: seq<Json>, i: nat)
    requires i < |elems|
    ensures ConvertElems(f, elems)[i] == Convert(f, elems[i])
  {
    var n := |elems| - 1;
    if i < n {
      ConvertElemsAt(f, elems[..n], i);
    }
  }

  lemma ConvertItemsNext(f: string -> string, front: seq<Entry>, last: Entry)
    ensures ConvertItems(f, front + [last]) == Put(ConvertItems(f, front), f(last.key), Convert(f, last.val))
  {
    assert (front + [last])[..|front|] == front;
  }

  lemma PutKey(items: seq<Entry>, k: string, v: Json, j: nat)
    requires j < |Put(items, k, v)|
    ensures Put(items, k, v)[j].key == k || (j < |items| && Put(items, k, v)[j].key == items[j].key)
  {
  }

  lemma PutNew(items: seq<Entry>, k: string, v: Json)
    requires forall j :: 0 <= j < |items| ==> items[j].key != k
    ensures Put(items, k, v) == items + [Entry(k, v)]
  {
    HasIff(items, k);
  }

  /** Every new key comes from an old one. */
  lemma {:induction false} ConvertItemsKeys(f: string -> string, items: seq<Entry>, j: nat) returns (i: nat)
    requires j < |ConvertItems(f, items)|
    ensures i < |items| && ConvertItems(f, items)[j].key == f(items[i].key)
  {
    var n := |items| - 1;
    var front, last := items[..n], items[n];
    assert items == front + [last];
    ConvertItemsNext(f, front, last);
    var key := ConvertItems(f, items)[j].key;
    PutKey(ConvertItems(f, front), f(last.key), Convert(f, last.val), j);
    i := n;
    if key != f(last.key) {
      i := ConvertItemsKeys(f, front, j);
      assert front[i] == items[i];
    }
  }

  predicate NoCollision(f: string -> string, items: seq<Entry>) {
    forall i, j :: 0 <= i < j < |items| ==> f(items[i].key) != f(items[j].key)
  }

  function RenamedAll(f: string -> string, items: seq<Entry>): (r: seq<Entry>)
    ensures |r| == |items|
    ensures forall i :: 0 <= i < |items| ==> r[i] == Entry(f(items[i].key), Convert(f, items[i].val))
  {
    seq(|items|, i requires 0 <= i < |items| => Entry(f(items[i].key), Convert(f, items[i].val)))
  }

  lemma RenamedNext(f: string -> string, front: seq<Entry>, last: Entry)
    requires NoCollision(f, front + [last]) && ConvertItems(f, front) == RenamedAll(f, front)
    ensures ConvertItems(f, front + [last]) == RenamedAll(f, front + [last])
  {
    var all := front + [last];
    ConvertItemsNext(f, front, last);
    forall j | 0 <= j < |front| ensures RenamedAll(f, front)[j].key != f(last.key) {
      assert all[j] == front[j] && all[|front|] == last;
    }
    PutNew(RenamedAll(f, front), f(last.key), Convert(f, last.val));
    assert RenamedAll(f, all) == RenamedAll(f, front) + [Entry(f(last.key), Convert(f, last.val))];
  }

  /** Without collisions a dictionary keeps its entries, in order. */
  lemma {:induction false} ConvertItemsAt(f: string -> string, items: seq<Entry>)
    requires NoCollision(f, items)
    ensures ConvertItems(f, items) == RenamedAll(f, items)
  {
    if items != [] {
      var n := |items| - 1;
      var front, last := items[..n], items[n];
      assert items == front + [last];
      ConvertItemsAt(f, front);
      RenamedNext(f, front, last);
    }
  }

  // ---- the round trip, for any two renamings -----------------------------------------------

  /** Every dictionary key in the tree satisfies `good`. */
  predicate AllKeys(good: string -> bool, t: Json) {
    match t
    case List(elems) => forall i :: 0 <= i < |elems| ==> AllKeys(good, elems[i])
    case Dict(items) => forall i :: 0 <= i < |items| ==> good(items[i].key) && AllKeys(good, items[i].val)
    case _ => true
  }

  predicate KeysGood(good: string -> bool, items: seq<Entry>) {
    forall i :: 0 <= i < |items| ==> good(items[i].key)
  }

  /** The good keys are those that `g` brings back from `f`, and whatever it brings back is good. */
  ghost predicate Undoes(f: string -> string, g: string -> string, good: string -> bool) {
    && (forall k :: good(k) <==> g(f(k)) == k)
    && (forall k :: good(g(f(k))))
  }

  function BackAgain(f: string -> string, g: string -> string, items: seq<Entry>): seq<Entry> {
    ConvertItems(g, ConvertItems(f, items))
  }

  /** A dictionary whose keys are all good comes back entry by entry. */
  lemma GoodDict(f: string -> string, g: string -> string, good: string -> bool, items: seq<Entry>)
    requires Undoes(f, g, good) && Distinct(items) && KeysGood(good, items)
    ensures |BackAgain(f, g, items)| == |items|
    ensures forall i :: 0 <= i < |items| ==>
              BackAgain(f, g, items)[i] == Entry(items[i].key, Convert(g, Convert(f, items[i].val)))
  {
    forall i, j | 0 <= i < j < |items| ensures f(items[i].key) != f(items[j].key) {
      assert g(f(items[i].key)) == items[i].key && g(f(items[j].key)) == items[j].key;
    }
    ConvertItemsAt(f, items);
    ConvertItemsAt(g, RenamedAll(f, items));
  }

  /** Whatever the input, a dictionary that comes out has good keys only. */
  lemma KeysComeOutGood(f: string -> string, g: string -> string, good: string -> bool, items: seq<Entry>, j: nat)
    requires Undoes(f, g, good) && j < |BackAgain(f, g, items)|
    ensures good(BackAgain(f, g, items)[j].key)
  {
    var i := ConvertItemsKeys(g, ConvertItems(f, items), j);
    var k := ConvertItemsKeys(f, items, i);
  }

  predicate ValueBack(f: string -> string, g: string -> string, e: Entry) {
    Convert(g, Convert(f, e.val)) == e.val
  }

  lemma DictRoundTrip(f: string -> string, g: string -> string, good: string -> bool, items: seq<Entry>)
    requires Undoes(f, g, good) && Distinct(items)
    ensures BackAgain(f, g, items) == items <==>
            KeysGood(good, items) && forall i :: 0 <= i < |items| ==> ValueBack(f, g, items[i])
  {
    if BackAgain(f, g, items) == items {
      forall i | 0 <= i < |items| ensures good(items[i].key) {
        KeysComeOutGood(f, g, good, items, i);
      }
    }
    if KeysGood(good, items) {
      GoodDict(f, g, good, items);
      SameEntries(BackAgain(f, g, items), items);
    }
  }

  lemma SameEntries(a: seq<Entry>, b: seq<Entry>)
    requires |a| == |b| && forall i :: 0 <= i < |a| ==> a[i].key == b[i].key
    ensures a == b <==> forall i :: 0 <= i < |a| ==> a[i].val == b[i].val
  {
    if forall i :: 0 <= i < |a| ==> a[i].val == b[i].val {
      forall i | 0 <= i < |a| ensures a[i] == b[i] {}
    }
  }

  lemma ListBack(f: string -> string, g: string -> string, elems: seq<Json>)
    ensures |ConvertElems(g, ConvertElems(f, elems))| == |elems|
    ensures forall i :: 0 <= i < |elems| ==>
              ConvertElems(g, ConvertElems(f, elems))[i] == Convert(g, Convert(f, elems[i]))
  {
    forall i | 0 <= i < |elems|
      ensures ConvertElems(g, ConvertElems(f, elems))[i] == Convert(g, Convert(f, elems[i]))
    {
      ConvertElemsAt(f, elems, i);
      ConvertElemsAt(g, ConvertElems(f, elems), i);
    }
  }

  lemma {:induction false} RoundTripOf(f: string -> string, g: string -> string, good: string -> bool, t: Json)
    requires Undoes(f, g, good) && Wf(t)
    ensures Convert(g, Convert(f, t)) == t <==> AllKeys(good, t)
    decreases t
  {
    match t {
      case List(elems) =>
        ListBack(f, g, elems);
        forall i | 0 <= i < |elems| ensures Convert(g, Convert(f, elems[i])) == elems[i] <==> AllKeys(good, elems[i]) {
          RoundTripOf(f, g, good, elems[i]);
        }
        SameElems(ConvertElems(g, ConvertElems(f, elems)), elems);
      case Dict(items) =>
        forall i | 0 <= i < |items| ensures ValueBack(f, g, items[i]) <==> AllKeys(good, items[i].val) {
          RoundTripOf(f, g, good, items[i].val);
        }
        DictRoundTrip(f, g, good, items);
      case _ =>
    }
  }

  lemma SameElems(a: seq<Json>, b: seq<Json>)
    requires |a| == |b|
    ensures a == b <==> forall i :: 0 <= i < |a| ==> a[i] == b[i]
  {
  }

  /** The second pass undoes the first exactly on the documents all of whose keys are good. */
  lemma RoundTrip(t: Json)
    requires Wf(t)
    ensures Convert(UnderscoreKey, Convert(CamelKey, t)) == t <==> AllKeys(GoodKey, t)
  {
    forall k: string
      ensures GoodKey(k) <==> UnderscoreKey(CamelKey(k)) == k
      ensures GoodKey(UnderscoreKey(CamelKey(k)))
    {
      KeyRoundTrip(k);
    }
    RoundTripOf(CamelKey, UnderscoreKey, GoodKey, t);
  }

  // ---- what the names become ------------------------------------------------------------------------

  /** The row an SDK name belongs to, told from its length and some letters. */
  function SdkRow(s: string): nat {
    match |s|
    case 7 => 26
    case 8 => if s[0] == 'i' then 9 else 29
    case 9 => if s[0] == 'p' then 20 else 28
    case 10 => if s[0] == 'i' then 19 else 22
    case 11 => if s[0] == 'l' then 11 else if s[0] == 'i' then 12 else if s[0] == 's' then 17 else 23
    case 12 =>
      if s[2] == 's' then 2 else if s[2] == 'f' then 4 else if s[2] == 'm' then 6 else if s[2] == 'u' then 10 else 15
    case 13 => 5
    case 14 =>
      if s[0] == 'c' then 3 else if s[0] == 's' then 7 else if s[0] == 'l' then 8 else if s[0] == 'b' then 18 else 24
    case 15 => 0
    case 16 => 14
    case 17 => if s[0] == 'e' then 13 else if s[0] == 's' then 25 else 27
    case 19 => 1
    case 22 => 21
    case 23 => 16
    case _ => |ATTRIBUTES|
  }

  lemma SdkRowsDiffer(i: nat)
    requires i < |ATTRIBUTES|
    ensures SdkRow(ATTRIBUTES[i].0) == i
  {
  }

  /** Every row of the table is used. */
  lemma CamelOfRow(i: nat)
    requires i < |ATTRIBUTES|
    ensures IsSdkName(ATTRIBUTES[i].0) && CamelKey(ATTRIBUTES[i].0) == ATTRIBUTES[i].1
  {
    var r := BySdk(ATTRIBUTES, ATTRIBUTES[i].0);
    assert r <= i;
    SdkRowsDiffer(i);
    SdkRowsDiffer(r);
  }

  /** Every other key stays as it is. */
  lemma OtherKeysStay(k: string)
    requires forall i :: 0 <= i < |ATTRIBUTES| ==> ATTRIBUTES[i].0 != k
    ensures CamelKey(k) == k
  {
  }

  /** In whatever letters it is written, a service name becomes the SDK name again; every other key goes lower case. */
  lemma ServiceNamesBecome(k: string, i: nat)
    ensures i < |ATTRIBUTES| && Lower(k) == Lower(ATTRIBUTES[i].1) ==> UnderscoreKey(k) == ATTRIBUTES[i].0
    ensures !IsInverseKey(Lower(k)) ==> UnderscoreKey(k) == Lower(k)
  {
    if i < |ATTRIBUTES| && Lower(k) == Lower(ATTRIBUTES[i].1) {
      ServiceNamesDiffer(i, ByLower(ATTRIBUTES, Lower(k)));
    }
  }

  /** Entry `i` is the last one of the first `n` that gets the name. */
  ghost predicate LastOfName(f: string -> string, items: seq<Entry>, n: nat, i: nat, key: string) {
    && i < n <= |items| && f(items[i].key) == key
    && forall j :: i < j < n ==> f(items[j].key) != key
  }

  /** What a dictionary holds under a name; None when the name is not there. */
  function Held(items: seq<Entry>, key: string): Option<Json> {
    if Has(items, key) then Some(Get(items, key)) else None
  }

  lemma HeldAfterPut(items: seq<Entry>, k: string, v: Json, key: string)
    ensures Held(Put(items, k, v), key) == if k == key then Some(v) else Held(items, key)
  {
    PutGet(items, k, v);
    if k != key {
      PutOther(items, k, v, key);
    }
  }

  /** The new value of the last entry that gets the name, and nothing when none does. */
  ghost predicate IsLast(f: string -> string, g: Json -> Json, items: seq<Entry>, n: nat, key: string, v: Option<Json>)
    requires n <= |items|
  {
    && (v.None? ==> forall i :: 0 <= i < n ==> f(items[i].key) != key)
    && (v.Some? ==> exists i: nat :: LastOfName(f, items, n, i, key) && v.value == g(items[i].val))
  }

  lemma LastOneMore(f: string -> string, g: Json -> Json, items: seq<Entry>, n: nat, key: string, v: Option<Json>)
    requires n < |items| && IsLast(f, g, items, n, key, v)
    ensures IsLast(f, g, items, n + 1, key, if f(items[n].key) == key then Some(g(items[n].val)) else v)
  {
    if f(items[n].key) == key {
      assert LastOfName(f, items, n + 1, n, key);
    } else if v.Some? {
      var i: nat :| LastOfName(f, items, n, i, key) && v.value == g(items[i].val);
      assert LastOfName(f, items, n + 1, i, key);
    }
  }

  lemma ConvertFirst(f: string -> string, items: seq<Entry>, n: nat, key: string)
    requires n < |items|
    ensures Held(ConvertItems(f, items[..n + 1]), key) ==
            if f(items[n].key) == key then Some(Convert(f, items[n].val)) else Held(ConvertItems(f, items[..n]), key)
  {
    assert items[..n + 1][..n] == items[..n];
    HeldAfterPut(ConvertItems(f, items[..n]), f(items[n].key), Convert(f, items[n].val), key);
  }

  lemma {:induction false} LastWinsUpTo(
      f: string -> string, g: Json -> Json, items: seq<Entry>, n: nat, key: string)
    requires n <= |items| && forall v :: g(v) == Convert(f, v)
    ensures IsLast(f, g, items, n, key, Held(ConvertItems(f, items[..n]), key))
  {
    if n > 0 {
      LastWinsUpTo(f, g, items, n - 1, key);
      LastOneMore(f, g, items, n - 1, key, Held(ConvertItems(f, items[..n - 1]), key));
      ConvertFirst(f, items, n - 1, key);
    }
  }

  /** Of entries that get the same name the last one wins, and a name nothing gets is not there. */
  lemma LastWins(f: string -> string, items: seq<Entry>, key: string)
    ensures IsLast(f, v => Convert(f, v), items, |items|, key, Held(ConvertItems(f, items), key))
  {
    LastWinsUpTo(f, v => Convert(f, v), items, |items|, key);
    assert items[..|items|] == items;
  }
}
