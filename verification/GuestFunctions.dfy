/**
 Choosing virtual functions for a guest on a bare-metal host: `_find_vlan`,
 `find_unassigned_vf_by_phys`, `test_vnic_and_assign_vf` and the loop of `create`
 that calls them once per requested address.
 */
module GuestFunctions {
  import opened Wrappers

  datatype Vf = Vf(mac: string, pci: string, num: string)
  datatype Vnic = Vnic(ip: string, mac: string)

  /** An interface of a domain; `device` is the `dev` attribute of its source, empty for a network or a bridge. */
  datatype Nic = Nic(mac: string, device: string)

  /** What one call reads from the host; `functions` is None when no physical interface matches (the lookup raises). */
  datatype Host = Host(
    vnics: seq<Vnic>,
    domains: seq<seq<Nic>>,                // the interfaces of each domain
    configured: seq<Option<string>>,       // MACs of configured interfaces, None for those not present
    functions: Option<seq<Vf>>)

  type Id = (string, string)

  function IdOf(v: Vf): Id {
    (v.pci, v.num)
  }

  const ZERO_MAC := "00:00:00:00:00:00"

  // ---- what the host's own lists say --------------------------------------------------

  /** Function `i` is the last one of its MAC, the one a dictionary by MAC keeps. */
  ghost predicate Stands(functions: seq<Vf>, i: nat) {
    i < |functions| && forall k :: i < k < |functions| ==> functions[k].mac != functions[i].mac
  }

  ghost predicate Configured(h: Host, mac: string) {
    mac != "00:00:00:00:00:00" && exists i :: 0 <= i < |h.configured| && h.configured[i] == Some(mac)
  }

  ghost predicate HasNic(domain: seq<Nic>, mac: string) {
    exists j :: 0 <= j < |domain| && domain[j].mac == mac
  }

  ghost predicate Held(h: Host, mac: string) {
    exists i :: 0 <= i < |h.domains| && HasNic(h.domains[i], mac)
  }

  /** Neither configured, nor held by a domain, nor given away before. */
  ghost predicate Free(h: Host, functions: seq<Vf>, before: seq<Id>, i: nat) {
    && Stands(functions, i)
    && !Configured(h, functions[i].mac) && !Held(h, functions[i].mac)
    && (functions[i].pci, functions[i].num) !in before
  }

  ghost predicate FreeMac(h: Host, functions: seq<Vf>, before: seq<Id>, mac: string) {
    exists i: nat :: Free(h, functions, before, i) && functions[i].mac == mac
  }

  /** The free function of the wanted MAC; without one, the free one whose MAC is listed first. */
  ghost predicate Picked(h: Host, functions: seq<Vf>, wanted: string, before: seq<Id>, v: Vf) {
    && (exists i: nat :: Free(h, functions, before, i) && functions[i] == v)
    && (if FreeMac(h, functions, before, wanted) then v.mac == wanted else
          exists a: nat :: FirstOfMac(functions, a, v.mac) &&
                      forall b :: 0 <= b < a ==> !FreeMac(h, functions, before, functions[b].mac))
  }

  ghost predicate FirstOfMac(functions: seq<Vf>, a: nat, mac: string) {
    a < |functions| && functions[a].mac == mac && forall b :: 0 <= b < a ==> functions[b].mac != mac
  }

  // ---- the dictionary of functions by MAC ---------------------------------------------

  predicate OnePerMac(vfs: seq<Vf>) {
    forall i, j :: 0 <= i < j < |vfs| ==> vfs[i].mac != vfs[j].mac
  }

  /** The dictionary by MAC: a later function of the same MAC takes the place of the earlier. */
  function Place(vfs: seq<Vf>, v: Vf): seq<Vf> {
    if vfs == [] then [v]
    else if vfs[0].mac == v.mac then [v] + vfs[1..]
    else [vfs[0]] + Place(vfs[1..], v)
  }

  function ByMac(functions: seq<Vf>): seq<Vf> {
    if functions == [] then []
    else Place(ByMac(functions[..|functions| - 1]), functions[|functions| - 1])
  }

  /** Where the function goes: in the place of the one of its MAC, or at the end. */
  lemma {:induction false} PlaceIs(vfs: seq<Vf>, v: Vf) returns (p: nat)
    ensures p <= |vfs| && forall k :: 0 <= k < p ==> vfs[k].mac != v.mac
    ensures p < |vfs| ==> vfs[p].mac == v.mac && Place(vfs, v) == vfs[p := v]
    ensures p == |vfs| ==> Place(vfs, v) == vfs + [v]
  {
    if vfs == [] || vfs[0].mac == v.mac {
      p := 0;
    } else {
      p := PlaceIs(vfs[1..], v);
      p := p + 1;
      assert vfs == [vfs[0]] + vfs[1..];
    }
  }

  lemma PlaceOnePerMac(vfs: seq<Vf>, v: Vf)
    requires OnePerMac(vfs)
    ensures OnePerMac(Place(vfs, v))
    ensures forall x :: x in Place(vfs, v) <==> x == v || (x in vfs && x.mac != v.mac)
  {
    var p := PlaceIs(vfs, v);
    var r := Place(vfs, v);
    assert r[p] == v;
    forall k | 0 <= k < |vfs| && k != p ensures r[k] == vfs[k] {}
    forall x | x in vfs && x.mac != v.mac ensures x in r {
      var k :| 0 <= k < |vfs| && vfs[k] == x;
      assert r[k] == x;
    }
  }

  lemma StandsOneMore(front: seq<Vf>, v: Vf, i: nat)
    ensures Stands(front + [v], i) <==> i == |front| || (Stands(front, i) && front[i].mac != v.mac)
  {
    var all := front + [v];
    if Stands(all, i) && i < |front| {
      assert all[|front|].mac != all[i].mac;
      forall k | i < k < |front| ensures front[k].mac != front[i].mac {
        assert all[k].mac != all[i].mac;
      }
    }
  }

  /** The dictionary has one function for each MAC, the last one listed. */
  lemma {:induction false} ByMacExactly(functions: seq<Vf>)
    ensures OnePerMac(ByMac(functions))
    ensures forall x :: x in ByMac(functions) <==> exists i: nat :: Stands(functions, i) && functions[i] == x
  {
    if functions != [] {
      var (front, v) := (functions[..|functions| - 1], functions[|functions| - 1]);
      assert functions == front + [v];
      ByMacExactly(front);
      PlaceOnePerMac(ByMac(front), v);
      forall x ensures x in ByMac(functions) <==> exists i: nat :: Stands(functions, i) && functions[i] == x {
        StandingOneMore(front, v, x);
      }
    }
  }

  lemma StandingOneMore(front: seq<Vf>, v: Vf, x: Vf)
    ensures (exists i: nat :: Stands(front + [v], i) && (front + [v])[i] == x) <==>
            x == v || (x.mac != v.mac && exists i: nat :: Stands(front, i) && front[i] == x)
  {
    var all := front + [v];
    StandsOneMore(front, v, |front|);
    if i: nat :| Stands(all, i) && all[i] == x {
      StandsOneMore(front, v, i);
    }
    if i: nat :| Stands(front, i) && front[i] == x && x.mac != v.mac {
      StandsOneMore(front, v, i);
      assert all[i] == x;
    }
    if x == v {
      assert Stands(all, |front|) && all[|front|] == v;
    }
  }

  /** Where a MAC is listed first; the length of the list when it is not. */
  function FirstAt(functions: seq<Vf>, mac: string): (r: nat)
    ensures r <= |functions|
    ensures r < |functions| ==> FirstOfMac(functions, r, mac)
    ensures r == |functions| ==> forall k :: 0 <= k < |functions| ==> functions[k].mac != mac
  {
    if functions == [] then 0
    else
      var n := |functions| - 1;
      var r := FirstAt(functions[..n], mac);
      assert forall k :: 0 <= k < n ==> functions[..n][k] == functions[k];
      if r < n || functions[n].mac == mac then r else n + 1
  }

  /** The MACs of the dictionary are in the order in which they are first listed. */
  predicate Ordered(functions: seq<Vf>, vfs: seq<Vf>) {
    && (forall p :: 0 <= p < |vfs| ==> FirstAt(functions, vfs[p].mac) < |functions|)
    && forall p, q :: 0 <= p < q < |vfs| ==> FirstAt(functions, vfs[p].mac) < FirstAt(functions, vfs[q].mac)
  }

  lemma FirstAtOneMore(front: seq<Vf>, v: Vf, mac: string)
    ensures FirstAt(front, mac) < |front| ==> FirstAt(front + [v], mac) == FirstAt(front, mac)
    ensures FirstAt(front, mac) == |front| && v.mac == mac ==> FirstAt(front + [v], mac) == |front|
  {
    assert (front + [v])[..|front|] == front;
  }

  lemma {:induction false} ByMacOrdered(functions: seq<Vf>)
    ensures Ordered(functions, ByMac(functions))
  {
    if functions != [] {
      var (front, v) := (functions[..|functions| - 1], functions[|functions| - 1]);
      assert functions == front + [v];
      ByMacOrdered(front);
      ByMacHasAll(front, v.mac);
      PlaceOrdered(front, ByMac(front), v);
    }
  }

  lemma {:induction false} ByMacHasAll(functions: seq<Vf>, mac: string)
    ensures FirstAt(functions, mac) < |functions| ==>
              exists p :: 0 <= p < |ByMac(functions)| && ByMac(functions)[p].mac == mac
  {
    if functions != [] {
      var (front, v) := (functions[..|functions| - 1], functions[|functions| - 1]);
      assert functions == front + [v];
      ByMacHasAll(front, mac);
      var p := PlaceIs(ByMac(front), v);
      assert ByMac(functions) == Place(ByMac(front), v) && ByMac(functions)[p] == v;
      if mac != v.mac && FirstAt(functions, mac) < |functions| {
        assert functions[FirstAt(functions, mac)] == front[FirstAt(functions, mac)];
        var q :| 0 <= q < |ByMac(front)| && ByMac(front)[q].mac == mac;
        assert q != p && ByMac(functions)[q] == ByMac(front)[q];
      }
    }
  }

  lemma {:induction false} PlaceOrdered(front: seq<Vf>, vfs: seq<Vf>, v: Vf)
    requires Ordered(front, vfs)
    requires FirstAt(front, v.mac) < |front| ==> exists p :: 0 <= p < |vfs| && vfs[p].mac == v.mac
    ensures Ordered(front + [v], Place(vfs, v))
  {
    var p := PlaceIs(vfs, v);
    var r := Place(vfs, v);
    FirstAtOneMore(front, v, v.mac);
    forall k | 0 <= k < |vfs|
      ensures r[k].mac == vfs[k].mac && FirstAt(front + [v], r[k].mac) == FirstAt(front, vfs[k].mac) < |front|
    {
      FirstAtOneMore(front, v, vfs[k].mac);
    }
  }

  /** The functions in order, without those of some MACs and those of some identities. */
  function Keep(vfs: seq<Vf>, macs: set<string>, ids: set<Id>): (r: seq<Vf>)
    ensures macs == {} && ids == {} ==> r == vfs
  {
    if vfs == [] then []
    else
      var n := |vfs| - 1;
      assert vfs == vfs[..n] + [vfs[n]];
      Keep(vfs[..n], macs, ids) + (if vfs[n].mac in macs || IdOf(vfs[n]) in ids then [] else [vfs[n]])
  }

  lemma {:induction false} KeepMembers(vfs: seq<Vf>, macs: set<string>, ids: set<Id>)
    ensures forall x :: x in Keep(vfs, macs, ids) <==> x in vfs && x.mac !in macs && IdOf(x) !in ids
  {
    if vfs != [] {
      var n := |vfs| - 1;
      assert vfs == vfs[..n] + [vfs[n]];
      KeepMembers(vfs[..n], macs, ids);
    }
  }

  lemma {:induction false} KeepFirst(vfs: seq<Vf>, macs: set<string>, ids: set<Id>) returns (p: nat)
    requires Keep(vfs, macs, ids) != []
    ensures p < |vfs| && vfs[p] == Keep(vfs, macs, ids)[0]
    ensures forall k :: 0 <= k < p ==> vfs[k].mac in macs || IdOf(vfs[k]) in ids
  {
    var n := |vfs| - 1;
    if Keep(vfs[..n], macs, ids) != [] {
      p := KeepFirst(vfs[..n], macs, ids);
    } else {
      p := n;
      KeepMembers(vfs[..n], macs, ids);
      forall k | 0 <= k < n ensures vfs[k].mac in macs || IdOf(vfs[k]) in ids {
        assert vfs[k] == vfs[..n][k] && vfs[k] in vfs[..n];
      }
    }
  }

  function ConfiguredMacs(h: Host): (r: set<string>)
    ensures forall m :: m in r <==> Configured(h, m)
  {
    set i | 0 <= i < |h.configured| && h.configured[i].Some? && h.configured[i].value != ZERO_MAC
      :: h.configured[i].value
  }

  function DomainMacs(h: Host): (r: set<string>)
    ensures forall m :: m in r <==> Held(h, m)
  {
    MacsOfFirst(h.domains, |h.domains|)
  }

  function MacsOf(domain: seq<Nic>): (r: seq<string>)
    ensures |r| == |domain|
    ensures forall j :: 0 <= j < |domain| ==> r[j] == domain[j].mac
  {
    seq(|domain|, j requires 0 <= j < |domain| => domain[j].mac)
  }

  lemma MacsOfMembers(domain: seq<Nic>)
    ensures forall m :: m in MacsOf(domain) <==> exists j :: 0 <= j < |domain| && domain[j].mac == m
  {
    forall j | 0 <= j < |domain| ensures domain[j].mac in MacsOf(domain) {
      assert MacsOf(domain)[j] == domain[j].mac;
    }
  }

  function MacsOfFirst(domains: seq<seq<Nic>>, n: nat): set<string>
    requires n <= |domains|
  {
    set i, j | 0 <= i < n && 0 <= j < |domains[i]| :: domains[i][j].mac
  }

  lemma OneDomainMore(domains: seq<seq<Nic>>, n: nat)
    requires n < |domains|
    ensures MacsOfFirst(domains, n + 1) == MacsOfFirst(domains, n) + SetOf(MacsOf(domains[n]))
  {
    MacsOfMembers(domains[n]);
  }

  function Candidates(h: Host, functions: seq<Vf>, blacklist: seq<Id>): seq<Vf> {
    Keep(ByMac(functions), ConfiguredMacs(h) + DomainMacs(h), set x | x in blacklist)
  }

  function SetOfFirst(macs: seq<string>, n: nat): set<string>
    requires n <= |macs|
  {
    set k | 0 <= k < n :: macs[k]
  }

  lemma OneMacMore(macs: seq<string>, n: nat)
    requires n < |macs|
    ensures SetOfFirst(macs, n + 1) == SetOfFirst(macs, n) + {macs[n]}
  {
  }

  function SetOf(macs: seq<string>): (r: set<string>)
    ensures forall m :: m in r <==> m in macs
  {
    SetOfFirst(macs, |macs|)
  }

  /** Deleting the entries of one MAC after another. */
  method WithoutMacs(vfs: seq<Vf>, macs: seq<string>) returns (r: seq<Vf>)
    ensures r == Keep(vfs, SetOf(macs), {})
  {
    r := vfs;
    var i := 0;
    while i < |macs|
      invariant 0 <= i <= |macs|
      invariant r == Keep(vfs, SetOfFirst(macs, i), {})
    {
      KeepMoreMacs(vfs, SetOfFirst(macs, i), {macs[i]});
      OneMacMore(macs, i);
      r := Keep(r, {macs[i]}, {});
      i := i + 1;
    }
  }

  method WithoutConfigured(vfs: seq<Vf>, h: Host) returns (r: seq<Vf>)
    ensures r == Keep(vfs, ConfiguredMacs(h), {})
  {
    var macs: seq<string> := [];
    var i := 0;
    while i < |h.configured|
      invariant 0 <= i <= |h.configured|
      invariant forall m :: m in macs <==> exists k :: 0 <= k < i && h.configured[k] == Some(m) && m != ZERO_MAC
    {
      if h.configured[i].Some? && h.configured[i].value != ZERO_MAC {
        macs := macs + [h.configured[i].value];
      }
      i := i + 1;
    }
    r := WithoutMacs(vfs, macs);
    assert SetOf(macs) == ConfiguredMacs(h);
  }

  method WithoutDomains(vfs: seq<Vf>, h: Host) returns (r: seq<Vf>)
    ensures r == Keep(vfs, DomainMacs(h), {})
  {
    r := vfs;
    var i := 0;
    while i < |h.domains|
      invariant 0 <= i <= |h.domains|
      invariant r == Keep(vfs, MacsOfFirst(h.domains, i), {})
    {
      var macs := MacsOf(h.domains[i]);
      r := WithoutMacs(r, macs);
      KeepMoreMacs(vfs, MacsOfFirst(h.domains, i), SetOf(macs));
      OneDomainMore(h.domains, i);
      i := i + 1;
    }
  }

  /** The three rounds of deletions. */
  method WithoutTaken(h: Host, functions: seq<Vf>, blacklist: seq<Id>) returns (r: seq<Vf>)
    ensures r == Candidates(h, functions, blacklist)
  {
    var all := ByMac(functions);
    r := WithoutConfigured(all, h);
    r := WithoutDomains(r, h);
    KeepMoreMacs(all, ConfiguredMacs(h), DomainMacs(h));
    var taken := set x | x in blacklist;
    KeepThenIds(all, ConfiguredMacs(h) + DomainMacs(h), taken);
    r := Keep(r, {}, taken);
  }

  lemma KeepThenIds(vfs: seq<Vf>, macs: set<string>, ids: set<Id>)
    ensures Keep(Keep(vfs, macs, {}), {}, ids) == Keep(vfs, macs, ids)
  {
    KeepMore(vfs, macs, {}, {}, ids);
    assert macs + {} == macs && {} + ids == ids;
  }

  method Search(vfs: seq<Vf>, wanted: string) returns (r: Vf)
    requires vfs != []
    ensures r in vfs
    ensures (exists v :: v in vfs && v.mac == wanted) ==> r.mac == wanted
    ensures r.mac != wanted ==> r == vfs[0]
  {
    var i := 0;
    while i < |vfs|
      invariant 0 <= i <= |vfs|
      invariant forall k :: 0 <= k < i ==> vfs[k].mac != wanted
    {
      if vfs[i].mac == wanted {
        return vfs[i];
      }
      i := i + 1;
    }
    r := vfs[0];
  }

  method FindUnassigned(h: Host, functions: seq<Vf>, wanted: string, blacklist: seq<Id>) returns (r: Option<Vf>)
    ensures r == None <==> forall i: nat :: !Free(h, functions, blacklist, i)
    ensures r.Some? ==> Picked(h, functions, wanted, blacklist, r.value)
  {
    var vfs := WithoutTaken(h, functions, blacklist);
    CandidatesAreFree(h, functions, blacklist);
    if |vfs| == 0 {
      NoneFree(h, functions, blacklist);
      return None;
    }
    var v := Search(vfs, wanted);
    FirstCandidate(h, functions, blacklist);
    r := Some(v);
  }

  lemma NoneFree(h: Host, functions: seq<Vf>, before: seq<Id>)
    requires Candidates(h, functions, before) == []
    ensures forall i: nat :: !Free(h, functions, before, i)
  {
    forall i: nat ensures !Free(h, functions, before, i) {
      if Free(h, functions, before, i) {
        FreeIsCandidate(h, functions, before, i);
      }
    }
  }

  /** The candidates are the free functions. */
  lemma CandidatesAreFree(h: Host, functions: seq<Vf>, before: seq<Id>)
    ensures forall v :: v in Candidates(h, functions, before) <==>
                        exists i: nat :: Free(h, functions, before, i) && functions[i] == v
  {
    ByMacExactly(functions);
    KeepMembers(ByMac(functions), ConfiguredMacs(h) + DomainMacs(h), set x | x in before);
  }

  lemma FreeIsCandidate(h: Host, functions: seq<Vf>, before: seq<Id>, i: nat)
    requires Free(h, functions, before, i)
    ensures functions[i] in Candidates(h, functions, before)
  {
    CandidatesAreFree(h, functions, before);
  }

  lemma NoneFreeBefore(h: Host, functions: seq<Vf>, before: seq<Id>, a: nat)
    requires a <= |functions|
    requires forall i: nat :: Free(h, functions, before, i) ==> a <= FirstAt(functions, functions[i].mac)
    ensures forall b :: 0 <= b < a ==> !FreeMac(h, functions, before, functions[b].mac)
  {
    forall b, i: nat | 0 <= b < a && Free(h, functions, before, i) ensures functions[i].mac != functions[b].mac {
      assert a <= FirstAt(functions, functions[i].mac);
    }
  }

  /** Before position `p` of the dictionary everything is taken. */
  ghost predicate TakenBefore(h: Host, vfs: seq<Vf>, before: seq<Id>, p: nat) {
    forall k :: 0 <= k < p && k < |vfs| ==>
      Configured(h, vfs[k].mac) || Held(h, vfs[k].mac) || IdOf(vfs[k]) in before
  }

  /** So a free function does not come before it. */
  lemma FreeComesLater(h: Host, functions: seq<Vf>, vfs: seq<Vf>, before: seq<Id>, p: nat, q: nat, i: nat)
    requires p < |vfs| && q < |vfs| && TakenBefore(h, vfs, before, p) && Ordered(functions, vfs)
    requires Free(h, functions, before, i) && vfs[q] == functions[i]
    ensures FirstAt(functions, vfs[p].mac) <= FirstAt(functions, functions[i].mac)
  {
    assert q >= p;
  }

  lemma Position(functions: seq<Vf>, i: nat) returns (q: nat)
    requires Stands(functions, i)
    ensures q < |ByMac(functions)| && ByMac(functions)[q] == functions[i]
  {
    ByMacExactly(functions);
    assert functions[i] in ByMac(functions);
    q :| 0 <= q < |ByMac(functions)| && ByMac(functions)[q] == functions[i];
  }

  lemma FirstTaken(h: Host, functions: seq<Vf>, before: seq<Id>) returns (p: nat)
    requires Candidates(h, functions, before) != []
    ensures p < |ByMac(functions)| && ByMac(functions)[p] == Candidates(h, functions, before)[0]
    ensures TakenBefore(h, ByMac(functions), before, p)
  {
    p := KeepFirst(ByMac(functions), ConfiguredMacs(h) + DomainMacs(h), set x | x in before);
  }

  /** The first candidate is the free function whose MAC is listed first. */
  lemma {:induction false} FirstCandidate(h: Host, functions: seq<Vf>, before: seq<Id>)
    requires Candidates(h, functions, before) != []
    ensures var v := Candidates(h, functions, before)[0];
            exists a: nat :: FirstOfMac(functions, a, v.mac) &&
                             forall b :: 0 <= b < a ==> !FreeMac(h, functions, before, functions[b].mac)
  {
    var p := FirstTaken(h, functions, before);
    ByMacOrdered(functions);
    var vfs := ByMac(functions);
    var a := FirstAt(functions, vfs[p].mac);
    forall i: nat | Free(h, functions, before, i) ensures a <= FirstAt(functions, functions[i].mac) {
      var q := Position(functions, i);
      FreeComesLater(h, functions, vfs, before, p, q, i);
    }
    NoneFreeBefore(h, functions, before, a);
    assert FirstOfMac(functions, a, vfs[p].mac);
  }

  /** Deleting in rounds is deleting at once. */
  lemma {:induction false} KeepMore(vfs: seq<Vf>, macs: set<string>, ids: set<Id>, macs': set<string>, ids': set<Id>)
    ensures Keep(Keep(vfs, macs, ids), macs', ids') == Keep(vfs, macs + macs', ids + ids')
  {
    if vfs != [] {
      var n := |vfs| - 1;
      KeepMore(vfs[..n], macs, ids, macs', ids');
      var rest := Keep(vfs[..n], macs, ids);
      if vfs[n].mac in macs || IdOf(vfs[n]) in ids {
        assert Keep(vfs, macs, ids) == rest;
      } else {
        assert Keep(vfs, macs, ids)[..|rest|] == rest;
      }
    }
  }

  lemma KeepMoreMacs(vfs: seq<Vf>, macs: set<string>, macs': set<string>)
    ensures Keep(Keep(vfs, macs, {}), macs', {}) == Keep(vfs, macs + macs', {})
  {
    KeepMore(vfs, macs, {}, macs', {});
    var none: set<Id> := {};
    assert none + none == none;
  }

  // ---- one address, and all of them ---------------------------------------------------

  /** A domain's dictionary of interfaces, device names by MAC. */
  function Devices(domain: seq<Nic>): map<string, string> {
    if domain == [] then map[]
    else
      var n := |domain| - 1;
      Devices(domain[..n])[domain[n].mac := domain[n].device]
  }

  /** The test `i.get(mac)` of _find_vlan: an empty device name does not pass it. */
  predicate Holds(domain: seq<Nic>, mac: string) {
    mac in Devices(domain) && Devices(domain)[mac] != ""
  }

  /** The interface the dictionary keeps for the MAC, the domain's last one, has a device name. */
  ghost predicate Assigned(domain: seq<Nic>, j: nat, mac: string) {
    && j < |domain| && domain[j].mac == mac && domain[j].device != ""
    && forall k :: j < k < |domain| ==> domain[k].mac != mac
  }

  /** A domain has an interface of that MAC with a device name, and none of that MAC after it. */
  ghost predicate UsedBy(domain: seq<Nic>, mac: string) {
    exists j: nat :: Assigned(domain, j, mac)
  }

  ghost predicate InUse(h: Host, mac: string) {
    exists i :: 0 <= i < |h.domains| && UsedBy(h.domains[i], mac)
  }

  method FindVlan(h: Host, mac: string) returns (domain: Option<nat>)
    ensures domain.Some? <==> InUse(h, mac)
    ensures domain.Some? ==>
              && domain.value < |h.domains| && UsedBy(h.domains[domain.value], mac)
              && forall i :: 0 <= i < domain.value ==> !UsedBy(h.domains[i], mac)
  {
    var i := 0;
    while i < |h.domains|
      invariant 0 <= i <= |h.domains|
      invariant forall k :: 0 <= k < i ==> !UsedBy(h.domains[k], mac)
    {
      HoldsExactly(h.domains[i], mac);
      if Holds(h.domains[i], mac) {
        return Some(i);
      }
      i := i + 1;
    }
    domain := None;
  }

  lemma {:induction false} HoldsExactly(domain: seq<Nic>, mac: string)
    ensures Holds(domain, mac) <==> UsedBy(domain, mac)
  {
    if domain != [] {
      var n := |domain| - 1;
      HoldsExactly(domain[..n], mac);
      if domain[n].mac == mac {
        assert domain[n].device != "" ==> Assigned(domain, n, mac);
      } else {
        if j: nat :| Assigned(domain, j, mac) {
          assert Assigned(domain[..n], j, mac);
        }
        if j: nat :| Assigned(domain[..n], j, mac) {
          assert Assigned(domain, j, mac);
        }
      }
    }
  }

  /** What is in use is held; what is held need not be in use. */
  lemma UsedIsHeld(h: Host, mac: string)
    ensures InUse(h, mac) ==> Held(h, mac)
  {
    if i :| 0 <= i < |h.domains| && UsedBy(h.domains[i], mac) {
      var j: nat :| Assigned(h.domains[i], j, mac);
      assert HasNic(h.domains[i], mac);
    }
  }

  /** The first VNIC of that address. */
  ghost predicate FirstOfIp(vnics: seq<Vnic>, k: nat, ip: string) {
    k < |vnics| && vnics[k].ip == ip && forall j :: 0 <= j < k ==> vnics[j].ip != ip
  }

  method FindVnicByIp(vnics: seq<Vnic>, ip: string) returns (vnic: Option<nat>)
    ensures vnic.Some? ==> FirstOfIp(vnics, vnic.value, ip)
    ensures vnic.None? ==> forall k :: 0 <= k < |vnics| ==> vnics[k].ip != ip
  {
    var i := 0;
    while i < |vnics|
      invariant 0 <= i <= |vnics|
      invariant forall k :: 0 <= k < i ==> vnics[k].ip != ip
    {
      if vnics[i].ip == ip {
        return Some(i);
      }
      i := i + 1;
    }
    vnic := None;
  }

  /** `h`: the host as that call finds it; `networkOk`: whether create_networking succeeds. */
  datatype Wish = Wish(ip: string, h: Host, networkOk: bool)

  ghost predicate Known(w: Wish) {
    exists k :: 0 <= k < |w.h.vnics| && w.h.vnics[k].ip == w.ip
  }

  /** What a virtual function chosen for a wish must be. */
  ghost predicate Suits(w: Wish, v: Vf, before: seq<Id>) {
    exists k: nat :: FirstOfIp(w.h.vnics, k, w.ip) && SuitsVnic(w.h, w.h.vnics[k].mac, v, before)
  }

  ghost predicate SuitsVnic(h: Host, mac: string, v: Vf, before: seq<Id>) {
    !InUse(h, mac) && h.functions.Some? && Picked(h, h.functions.value, mac, before, v)
  }

  datatype Choice = Chosen(vf: Vf) | NotGiven | Raised

  /** When the call dies: the address is free, but its physical interface is not among the host's. */
  ghost predicate Dies(w: Wish) {
    w.h.functions.None? && exists k: nat :: FirstOfIp(w.h.vnics, k, w.ip) && !InUse(w.h, w.h.vnics[k].mac)
  }

  /** When no function can be given: no such address, already in use, or nothing left. */
  ghost predicate Hopeless(w: Wish, before: seq<Id>) {
    || !Known(w)
    || (exists k: nat :: FirstOfIp(w.h.vnics, k, w.ip) && InUse(w.h, w.h.vnics[k].mac))
    || (w.h.functions.Some? && forall i: nat :: !Free(w.h, w.h.functions.value, before, i))
  }

  method TestVnicAndAssignVf(w: Wish, blacklist: seq<Id>) returns (r: Choice)
    ensures r.Chosen? ==> Suits(w, r.vf, blacklist)
    ensures r.NotGiven? <==> Hopeless(w, blacklist)
    ensures r.Raised? <==> Dies(w)
  {
    var k := FindVnicByIp(w.h.vnics, w.ip);
    if k.None? {
      return NotGiven;
    }
    var mac := w.h.vnics[k.value].mac;
    var domain := FindVlan(w.h, mac);
    if domain.Some? {
      return NotGiven;
    }
    if w.h.functions.None? {
      return Raised;
    }
    var found := FindUnassigned(w.h, w.h.functions.value, mac, blacklist);
    if found.Some? {
      assert SuitsVnic(w.h, mac, found.value, blacklist);
      r := Chosen(found.value);
    } else {
      r := NotGiven;
    }
  }

  /**
   A VNIC that some domain has already, on a host with functions left: it is
   refused exactly when one of those domains has it with a device name.
   Otherwise it is given away once more, with a function of another MAC.
   */
  lemma HeldIsRefused(w: Wish, k: nat, before: seq<Id>, i: nat)
    requires FirstOfIp(w.h.vnics, k, w.ip) && Held(w.h, w.h.vnics[k].mac)
    requires w.h.functions.Some? && Free(w.h, w.h.functions.value, before, i)
    ensures Hopeless(w, before) <==> InUse(w.h, w.h.vnics[k].mac)
    ensures forall v :: Suits(w, v, before) ==> v.mac != w.h.vnics[k].mac
  {
  }

  /** Such a host: one domain has the VNIC on a libvirt network, one function is free. */
  lemma GivenAwayTwice(ip: string, v: Vf, mac: string) returns (w: Wish)
    requires v.mac != mac
    ensures w.h.vnics == [Vnic(ip, mac)] && w.ip == ip && Held(w.h, mac)
    ensures !Hopeless(w, []) && !Dies(w) && Suits(w, v, [])
  {
    var domain := [Nic(mac, "")];
    var h := Host([Vnic(ip, mac)], [domain], [], Some([v]));
    w := Wish(ip, h, true);
    assert domain[0].mac == mac && HasNic(h.domains[0], mac);
    assert FirstOfIp(h.vnics, 0, ip);
    assert Free(h, [v], [], 0) && [v][0] == v;
    assert !FreeMac(h, [v], [], mac);
    assert FirstOfMac([v], 0, v.mac);
    assert SuitsVnic(h, mac, v, []);
  }

  predicate DistinctIds(ids: seq<Id>) {
    forall i, j :: 0 <= i < j < |ids| ==> ids[i] != ids[j]
  }

  function Ids(vfs: seq<Vf>): (r: seq<Id>)
    ensures |r| == |vfs|
    ensures forall i :: 0 <= i < |vfs| ==> r[i] == IdOf(vfs[i])
  {
    seq(|vfs|, i requires 0 <= i < |vfs| => IdOf(vfs[i]))
  }

  lemma IdsGrow(vfs: seq<Vf>, v: Vf)
    ensures Ids(vfs + [v]) == Ids(vfs) + [IdOf(v)]
  {
  }

  /** Every function given so far suits its wish and is none of those before it. */
  ghost predicate AllSuit(wishes: seq<Wish>, chosen: seq<Vf>)
    requires |chosen| <= |wishes|
  {
    forall k :: 0 <= k < |chosen| ==> Suits(wishes[k], chosen[k], Ids(chosen)[..k])
  }

  lemma OneMoreSuits(wishes: seq<Wish>, chosen: seq<Vf>, v: Vf)
    requires |chosen| < |wishes| && AllSuit(wishes, chosen) && Suits(wishes[|chosen|], v, Ids(chosen))
    ensures AllSuit(wishes, chosen + [v])
  {
    var n, more := |chosen|, chosen + [v];
    IdsGrow(chosen, v);
    assert Ids(more)[..n] == Ids(chosen);
    forall k | 0 <= k < |more| ensures Suits(wishes[k], more[k], Ids(more)[..k]) {
      if k < n {
        assert Ids(more)[..k] == Ids(chosen)[..k];
      }
    }
  }

  /** AllGiven: create goes on; Stopped: it returns 1; Died: the lookup of a physical interface raised. */
  datatype Ending = AllGiven | Stopped | Died

  /** The network loop of `create`: on success every wish has a function of its own. */
  method AssignAll(wishes: seq<Wish>) returns (ending: Ending, chosen: seq<Vf>)
    ensures |chosen| <= |wishes| && forall i :: 0 <= i < |chosen| - 1 ==> wishes[i].networkOk
    ensures ending.AllGiven? ==> |chosen| == |wishes| && forall i :: 0 <= i < |wishes| ==> wishes[i].networkOk
    ensures ending.Stopped? ==>
              || (chosen != [] && !wishes[|chosen| - 1].networkOk)
              || (|chosen| < |wishes| && Hopeless(wishes[|chosen|], Ids(chosen)))
    ensures ending.Died? ==> |chosen| < |wishes| && Dies(wishes[|chosen|])
    ensures AllSuit(wishes, chosen)
    ensures DistinctIds(Ids(chosen))
  {
    chosen := [];
    var blacklist: seq<Id> := [];
    var i := 0;
    while i < |wishes|
      invariant 0 <= i == |chosen| <= |wishes| && blacklist == Ids(chosen)
      invariant AllSuit(wishes, chosen)
      invariant DistinctIds(Ids(chosen)) && forall k :: 0 <= k < i ==> wishes[k].networkOk
    {
      var r := TestVnicAndAssignVf(wishes[i], blacklist);
      if !r.Chosen? {
        return if r.Raised? then Died else Stopped, chosen;
      }
      OneMoreSuits(wishes, chosen, r.vf);
      IdsGrow(chosen, r.vf);
      chosen := chosen + [r.vf];
      blacklist := blacklist + [IdOf(r.vf)];
      if !wishes[i].networkOk {
        return Stopped, chosen;
      }
      i := i + 1;
    }
    ending := AllGiven;
  }
}
