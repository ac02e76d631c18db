/**
 Network interfaces as `vnicutils` sees them: dictionaries in which an absent
 key reads as '-', joined from what the metadata lists and what the system has.
 */
module Interfaces {
  import opened Wrappers

  /** `_intf_dict`: its text-valued keys, and its two list-valued ones. */
  datatype Intf = Intf(
    text: map<string, string>,
    secondary: Option<seq<string>>,    // SECONDARY_ADDRS
    missing: Option<seq<string>>)      // MISSING_SECONDARY_IPS

  /** intf[key], with `__missing__`. */
  function Read(i: Intf, key: string): string {
    if key in i.text then i.text[key] else "-"
  }

  function SetText(i: Intf, key: string, v: string): Intf {
    i.(text := i.text[key := v])
  }

  function AddrsOf(l: Option<seq<string>>): seq<string> {
    if l.Some? then l.value else []
  }

  /** i.update(other) */
  function Update(i: Intf, other: Intf): Intf {
    Intf(i.text + other.text,
         if other.secondary.Some? then other.secondary else i.secondary,
         if other.missing.Some? then other.missing else i.missing)
  }

  /** The elements of `a` that are not in `b`, each once. */
  function Minus(a: seq<string>, b: seq<string>): (r: seq<string>)
    ensures forall x :: x in r <==> x in a && x !in b
  {
    if a == [] then []
    else
      var n := |a| - 1;
      assert a == a[..n] + [a[n]];
      var rest := Minus(a[..n], b);
      if a[n] in b || a[n] in rest then rest else rest + [a[n]]
  }

  function WithMac(system: seq<Intf>, mac: string): seq<Intf> {
    if system == [] then []
    else
      var n := |system| - 1;
      WithMac(system[..n], mac) + (if Read(system[n], "MAC") == mac then [system[n]] else [])
  }

  function WithoutMac(system: seq<Intf>, mac: string): seq<Intf> {
    if system == [] then []
    else
      var n := |system| - 1;
      WithoutMac(system[..n], mac) + (if Read(system[n], "MAC") != mac then [system[n]] else [])
  }

  function OfType(candidates: seq<Intf>, types: set<string>): seq<Intf> {
    if candidates == [] then []
    else
      var n := |candidates| - 1;
      OfType(candidates[..n], types) + (if Read(candidates[n], "LINKTYPE") in types then [candidates[n]] else [])
  }

  // ---- correlation ----------------------------------------------------------------------

  /** Whether an address is link local; None where the address cannot be parsed and the test raises. */
  type LinkLocal = map<string, bool>

  datatype Joined = Joined(intf: Intf) | Raised

  /** '-' for an interface that carries a proper address, 'ADD' otherwise. */
  function StateFrom(source: Intf, ll: LinkLocal): Option<string> {
    if "ADDR" !in source.text then Some("ADD")
    else if source.text["ADDR"] !in ll then None
    else Some(if ll[source.text["ADDR"]] then "ADD" else "-")
  }

  function Finish(i: Intf, state: Option<string>, missing: seq<string>): Joined {
    if state.None? then Raised
    else
      var j := SetText(i, "CONFSTATE", state.value);
      Joined.Joined(if missing != [] then j.(missing := Some(missing)) else j)
  }

  /** A macvlan and its vlan, merged into the metadata's interface. */
  function PairUp(i: Intf, m: Intf, v: Intf): Intf {
    var j := SetText(SetText(Update(i, m), "VLAN", Read(v, "IFACE")), "IFACE", Read(m, "LINK"));
    if v.secondary.Some? then j.(secondary := v.secondary) else j
  }

  /** One metadata interface with the system interfaces of its MAC. */
  function JoinOne(i: Intf, candidates: seq<Intf>, ll: LinkLocal): Joined {
    if |candidates| == 0 then Finish(i, Some("ADD"), [])
    else if |candidates| == 1 then
      var c := candidates[0];
      Finish(Update(i, c), StateFrom(c, ll), Minus(AddrsOf(i.secondary), AddrsOf(c.secondary)))
    else
      var macvlans, vlans := OfType(candidates, {"macvlan", "macvtap"}), OfType(candidates, {"vlan"});
      if macvlans == [] || vlans == [] then Finish(i, Some("ADD"), [])
      else
        var (m, v) := (macvlans[0], vlans[0]);
        Finish(PairUp(i, m, v), StateFrom(v, ll), Minus(AddrsOf(i.secondary), AddrsOf(v.secondary)))
  }

  datatype Correlation = Correlated(intfs: seq<Intf>, left: seq<Intf>) | CorrelationRaised

  /** What the next metadata interface adds to the correlation so far. */
  function CorrelateOne(c: Correlation, i: Intf, ll: LinkLocal): Correlation {
    match c
    case CorrelationRaised => CorrelationRaised
    case Correlated(intfs, left) =>
      match JoinOne(i, WithMac(left, Read(i, "MAC")), ll)
      case Raised => CorrelationRaised
      case Joined(j) => Correlated(intfs + [j], WithoutMac(left, Read(i, "MAC")))
  }

  function Correlate(md: seq<Intf>, system: seq<Intf>, ll: LinkLocal): Correlation {
    if md == [] then Correlated([], system)
    else CorrelateOne(Correlate(md[..|md| - 1], system, ll), md[|md| - 1], ll)
  }

  lemma {:induction false} CorrelateNext(front: seq<Intf>, last: Intf, system: seq<Intf>, ll: LinkLocal)
    ensures Correlate(front + [last], system, ll) == CorrelateOne(Correlate(front, system, ll), last, ll)
  {
    assert (front + [last])[..|front|] == front;
  }

  /** `correlate_network_interface_data`; with no metadata it raises on a name its loop never bound. */
  method CorrelateData(md: seq<Intf>, system: seq<Intf>, ll: LinkLocal) returns (r: Correlation)
    ensures r == if md == [] then CorrelationRaised else Correlate(md, system, ll)
  {
    var intfs: seq<Intf> := [];
    var left := system;
    var i := 0;
    while i < |md|
      invariant 0 <= i <= |md|
      invariant Through(md, i, system, ll) == Correlated(intfs, left)
    {
      var mac := Read(md[i], "MAC");
      var j := JoinOne(md[i], WithMac(left, mac), ll);
      CorrelateStep(md, i, system, ll);
      if j.Raised? {
        RaisedStays(md, system, ll, i + 1);
        return CorrelationRaised;
      }
      intfs, left, i := intfs + [j.intf], WithoutMac(left, mac), i + 1;
    }
    if |md| == 0 {
      return CorrelationRaised;
    }
    ThroughAll(md, system, ll);
    r := Correlated(intfs, left);
  }

  ghost function Through(md: seq<Intf>, i: nat, system: seq<Intf>, ll: LinkLocal): Correlation
    requires i <= |md|
  {
    Correlate(md[..i], system, ll)
  }

  lemma {:induction false} ThroughAll(md: seq<Intf>, system: seq<Intf>, ll: LinkLocal)
    ensures Through(md, |md|, system, ll) == Correlate(md, system, ll)
  {
    assert md[..|md|] == md;
  }

  lemma CorrelateStep(md: seq<Intf>, i: nat, system: seq<Intf>, ll: LinkLocal)
    requires i < |md|
    ensures Through(md, i + 1, system, ll) == CorrelateOne(Through(md, i, system, ll), md[i], ll)
  {
    assert md[..i + 1] == md[..i] + [md[i]];
    CorrelateNext(md[..i], md[i], system, ll);
  }

  lemma {:induction false} RaisedStays(md: seq<Intf>, system: seq<Intf>, ll: LinkLocal, i: nat)
    requires i <= |md| && Through(md, i, system, ll).CorrelationRaised?
    ensures Correlate(md, system, ll).CorrelationRaised?
    decreases |md| - i
  {
    if i < |md| {
      CorrelateStep(md, i, system, ll);
      RaisedStays(md, system, ll, i + 1);
    } else {
      ThroughAll(md, system, ll);
    }
  }

  // ---- conservation -----------------------------------------------------------------------

  lemma {:induction false} MacMembers(system: seq<Intf>, mac: string)
    ensures forall s :: s in WithMac(system, mac) <==> s in system && Read(s, "MAC") == mac
    ensures forall s :: s in WithoutMac(system, mac) <==> s in system && Read(s, "MAC") != mac
    ensures |WithMac(system, mac)| + |WithoutMac(system, mac)| == |system|
  {
    if system != [] {
      var n := |system| - 1;
      var front, last := system[..n], system[n];
      MacMembers(front, mac);
      assert system == front + [last];
      var same := Read(last, "MAC") == mac;
      assert WithMac(system, mac) == WithMac(front, mac) + if same then [last] else [];
      assert WithoutMac(system, mac) == WithoutMac(front, mac) + if same then [] else [last];
    }
  }

  lemma {:induction false} OfTypeMembers(candidates: seq<Intf>, types: set<string>)
    ensures forall s :: s in OfType(candidates, types) ==> s in candidates && Read(s, "LINKTYPE") in types
  {
    if candidates != [] {
      var n := |candidates| - 1;
      OfTypeMembers(candidates[..n], types);
      assert candidates == candidates[..n] + [candidates[n]];
    }
  }

  predicate Covers(i: Intf, j: Intf) {
    && Read(j, "MAC") == Read(i, "MAC")
    && forall a :: a in AddrsOf(i.secondary) ==> a in AddrsOf(j.secondary) || a in AddrsOf(j.missing)
  }

  lemma FinishCovers(i: Intf, k: Intf, state: Option<string>, held: seq<string>)
    requires state.Some? && Read(k, "MAC") == Read(i, "MAC")
    requires forall a :: a in AddrsOf(i.secondary) && a in held ==> a in AddrsOf(k.secondary)
    ensures Covers(i, Finish(k, state, Minus(AddrsOf(i.secondary), held)).intf)
  {
  }

  lemma UpdateCovers(i: Intf, c: Intf, state: Option<string>)
    requires state.Some? && Read(c, "MAC") == Read(i, "MAC")
    ensures Covers(i, Finish(Update(i, c), state, Minus(AddrsOf(i.secondary), AddrsOf(c.secondary))).intf)
  {
    FinishCovers(i, Update(i, c), state, AddrsOf(c.secondary));
  }

  lemma PairCovers(i: Intf, m: Intf, v: Intf, state: Option<string>)
    requires state.Some? && Read(m, "MAC") == Read(i, "MAC")
    ensures Covers(i, Finish(PairUp(i, m, v), state, Minus(AddrsOf(i.secondary), AddrsOf(v.secondary))).intf)
  {
    FinishCovers(i, PairUp(i, m, v), state, AddrsOf(v.secondary));
  }

  /** Joining keeps the MAC, and no secondary address of the metadata is forgotten. */
  lemma JoinKeeps(i: Intf, candidates: seq<Intf>, ll: LinkLocal)
    requires forall c :: c in candidates ==> Read(c, "MAC") == Read(i, "MAC")
    requires JoinOne(i, candidates, ll).Joined?
    ensures Covers(i, JoinOne(i, candidates, ll).intf)
  {
    if |candidates| == 1 {
      assert candidates[0] in candidates;
      UpdateCovers(i, candidates[0], StateFrom(candidates[0], ll));
    } else if |candidates| > 1 {
      var macvlans, vlans := OfType(candidates, {"macvlan", "macvtap"}), OfType(candidates, {"vlan"});
      OfTypeMembers(candidates, {"macvlan", "macvtap"});
      if macvlans != [] && vlans != [] {
        assert macvlans[0] in macvlans;
        PairCovers(i, macvlans[0], vlans[0], StateFrom(vlans[0], ll));
      }
    }
  }

  /** Whether a system interface carries an address that is not link local. */
  predicate Addressed(c: Intf, ll: LinkLocal) {
    "ADDR" in c.text && c.text["ADDR"] in ll && !ll[c.text["ADDR"]]
  }

  /** A joined interface is to be added, or in order; in order only if a candidate carries a proper address. */
  lemma JoinedState(i: Intf, candidates: seq<Intf>, ll: LinkLocal)
    requires JoinOne(i, candidates, ll).Joined?
    ensures var state := Read(JoinOne(i, candidates, ll).intf, "CONFSTATE");
            && (state == "ADD" || state == "-")
            && (state == "-" ==> exists c :: c in candidates && Addressed(c, ll))
            && (|candidates| == 1 ==> (state == "-" <==> Addressed(candidates[0], ll)))
            && (candidates == [] ==> state == "ADD")
  {
    var vlans := OfType(candidates, {"vlan"});
    OfTypeMembers(candidates, {"vlan"});
    if |candidates| == 1 {
      assert candidates[0] in candidates;
    } else if vlans != [] {
      assert vlans[0] in vlans;
    }
  }

  predicate MacIn(md: seq<Intf>, mac: string) {
    exists i :: 0 <= i < |md| && Read(md[i], "MAC") == mac
  }

  /** The system interfaces no metadata interface claims, in their order. */
  function Unclaimed(system: seq<Intf>, md: seq<Intf>): seq<Intf> {
    if system == [] then []
    else
      var n := |system| - 1;
      Unclaimed(system[..n], md) + (if MacIn(md, Read(system[n], "MAC")) then [] else [system[n]])
  }

  lemma {:induction false} UnclaimedStep(system: seq<Intf>, md: seq<Intf>)
    requires md != []
    ensures var n := |md| - 1;
            WithoutMac(Unclaimed(system, md[..n]), Read(md[n], "MAC")) == Unclaimed(system, md)
  {
    var n := |md| - 1;
    var mac := Read(md[n], "MAC");
    if system != [] {
      var k := |system| - 1;
      var s := system[k];
      UnclaimedStep(system[..k], md);
      MacInPrefix(md, Read(s, "MAC"));
      var front := Unclaimed(system[..k], md[..n]);
      if MacIn(md[..n], Read(s, "MAC")) {
        assert Unclaimed(system, md[..n]) == front;
      } else {
        assert Unclaimed(system, md[..n])[..|front|] == front;
      }
    }
  }

  lemma MacInPrefix(md: seq<Intf>, mac: string)
    requires md != []
    ensures var n := |md| - 1;
            MacIn(md, mac) <==> MacIn(md[..n], mac) || Read(md[n], "MAC") == mac
  {
    var n := |md| - 1;
    if i :| 0 <= i < n && Read(md[..n][i], "MAC") == mac {
      assert Read(md[i], "MAC") == mac;
    }
    if i :| 0 <= i < |md| && Read(md[i], "MAC") == mac {
      assert i < n ==> Read(md[..n][i], "MAC") == mac;
    }
  }

  lemma {:induction false} NobodyClaims(system: seq<Intf>)
    ensures Unclaimed(system, []) == system
  {
    if system != [] {
      var n := |system| - 1;
      NobodyClaims(system[..n]);
      assert !MacIn([], Read(system[n], "MAC"));
      assert system == system[..n] + [system[n]];
    }
  }

  /**
   The result has each metadata interface once and in order, with all its
   secondary addresses present or marked missing, and leaves exactly the system
   interfaces whose MAC no metadata interface has.
   */
  lemma {:induction false} CorrelationConserves(md: seq<Intf>, system: seq<Intf>, ll: LinkLocal)
    requires Correlate(md, system, ll).Correlated?
    ensures var r := Correlate(md, system, ll);
            && |r.intfs| == |md|
            && (forall i :: 0 <= i < |md| ==> Covers(md[i], r.intfs[i]))
            && r.left == Unclaimed(system, md)
  {
    if md == [] {
      NobodyClaims(system);
    } else {
      var n := |md| - 1;
      var front, last := md[..n], md[n];
      assert md == front + [last];
      CorrelateNext(front, last, system, ll);
      CorrelationConserves(front, system, ll);
      var left := Unclaimed(system, front);
      MacMembers(left, Read(last, "MAC"));
      JoinKeeps(last, WithMac(left, Read(last, "MAC")), ll);
      UnclaimedStep(system, md);
    }
  }

  lemma JoinSucceeds(i: Intf, candidates: seq<Intf>, ll: LinkLocal)
    requires forall c :: c in candidates && "ADDR" in c.text ==> c.text["ADDR"] in ll
    ensures JoinOne(i, candidates, ll).Joined?
  {
    OfTypeMembers(candidates, {"vlan"});
    var vlans := OfType(candidates, {"vlan"});
    if |candidates| == 1 {
      assert candidates[0] in candidates;
    } else if vlans != [] {
      assert vlans[0] in vlans;
    }
  }

  /** Correlation succeeds whenever every system address can be parsed. */
  lemma {:induction false} CorrelationSucceeds(md: seq<Intf>, system: seq<Intf>, ll: LinkLocal)
    requires forall s :: s in system && "ADDR" in s.text ==> s.text["ADDR"] in ll
    ensures Correlate(md, system, ll).Correlated?
    ensures forall s :: s in Correlate(md, system, ll).left ==> s in system
  {
    if md != [] {
      var n := |md| - 1;
      CorrelationSucceeds(md[..n], system, ll);
      var left := Correlate(md[..n], system, ll).left;
      MacMembers(left, Read(md[n], "MAC"));
      JoinSucceeds(md[n], WithMac(left, Read(md[n], "MAC")), ll);
    }
  }

  // ---- get_network_config --------------------------------------------------------------------

  /** `_is_intf_excluded`, `_is_intf_deconfigured`: an item names an interface by device, VNIC or address. */
  predicate Named(items: seq<string>, i: Intf) {
    exists k :: 0 <= k < |items| &&
      (items[k] == Read(i, "IFACE") || items[k] == Read(i, "VNIC") || items[k] == Read(i, "ADDR"))
  }

  /** The last round: excluded interfaces, then the revert for virtual functions. */
  function LastRound(i: Intf, exclude: seq<string>): Intf {
    var j := if Named(exclude, i) then SetText(i, "CONFSTATE", "EXCL") else i;
    if Read(j, "is_vf") != "" && Read(j, "CONFSTATE") == "DELETE" then SetText(j, "CONFSTATE", "-") else j
  }

  function MarkDelete(left: seq<Intf>): (r: seq<Intf>)
    ensures |r| == |left|
    ensures forall i :: 0 <= i < |left| ==> r[i] == SetText(left[i], "CONFSTATE", "DELETE")
  {
    seq(|left|, i requires 0 <= i < |left| => SetText(left[i], "CONFSTATE", "DELETE"))
  }

  function LastRoundAll(l: seq<Intf>, exclude: seq<string>): (r: seq<Intf>)
    ensures |r| == |l|
    ensures forall i :: 0 <= i < |l| ==> r[i] == LastRound(l[i], exclude)
  {
    seq(|l|, i requires 0 <= i < |l| => LastRound(l[i], exclude))
  }

  function NetworkConfig(c: Correlation, exclude: seq<string>): seq<Intf>
    requires c.Correlated?
  {
    LastRoundAll(c.intfs + MarkDelete(c.left), exclude)
  }

  method GetNetworkConfig(md: seq<Intf>, system: seq<Intf>, exclude: seq<string>, ll: LinkLocal)
    returns (ok: bool, r: seq<Intf>)
    ensures ok <==> md != [] && Correlate(md, system, ll).Correlated?
    ensures ok ==> r == NetworkConfig(Correlate(md, system, ll), exclude)
  {
    var c := CorrelateData(md, system, ll);
    if c.CorrelationRaised? {
      return false, [];
    }
    r := AppendDeleted(c.intfs, c.left);
    r := RunLastRound(r, exclude);
    ok := true;
  }

  /** The loop that appends what no metadata interface claims. */
  method AppendDeleted(intfs: seq<Intf>, left: seq<Intf>) returns (r: seq<Intf>)
    ensures r == intfs + MarkDelete(left)
  {
    r := intfs;
    for i := 0 to |left|
      invariant r == intfs + MarkDelete(left)[..i]
    {
      r := r + [SetText(left[i], "CONFSTATE", "DELETE")];
    }
    assert MarkDelete(left)[..|left|] == MarkDelete(left);
  }

  /** The loop that marks excluded interfaces and reverts the deletion of virtual functions. */
  method RunLastRound(all: seq<Intf>, exclude: seq<string>) returns (r: seq<Intf>)
    ensures r == LastRoundAll(all, exclude)
  {
    r := all;
    for i := 0 to |r|
      invariant |r| == |all|
      invariant forall j :: 0 <= j < i ==> r[j] == LastRound(all[j], exclude)
      invariant forall j :: i <= j < |r| ==> r[j] == all[j]
    {
      var intf := r[i];
      if Named(exclude, intf) {
        intf := SetText(intf, "CONFSTATE", "EXCL");
      }
      if Read(intf, "is_vf") != "" && Read(intf, "CONFSTATE") == "DELETE" {
        intf := SetText(intf, "CONFSTATE", "-");
      }
      r := r[i := intf];
    }
  }

  /** The last round touches CONFSTATE only. */
  lemma LastRoundKeeps(i: Intf, exclude: seq<string>)
    ensures var j := LastRound(i, exclude);
            && j.secondary == i.secondary && j.missing == i.missing
            && forall key :: key != "CONFSTATE" ==> Read(j, key) == Read(i, key)
  {
  }

  lemma LastRoundCovers(i: Intf, j: Intf, exclude: seq<string>)
    requires Covers(i, j)
    ensures Covers(i, LastRound(j, exclude))
  {
    LastRoundKeeps(j, exclude);
  }

  /** The same interface but for its state. */
  ghost predicate SameBut(i: Intf, j: Intf) {
    && j.secondary == i.secondary && j.missing == i.missing
    && forall key :: key != "CONFSTATE" ==> Read(j, key) == Read(i, key)
  }

  lemma DeleteKeeps(i: Intf, exclude: seq<string>)
    ensures SameBut(i, LastRound(SetText(i, "CONFSTATE", "DELETE"), exclude))
  {
    LastRoundKeeps(SetText(i, "CONFSTATE", "DELETE"), exclude);
  }

  lemma {:induction false} ConfigAt(c: Correlation, exclude: seq<string>)
    requires c.Correlated?
    ensures var r := NetworkConfig(c, exclude);
            && |r| == |c.intfs| + |c.left|
            && (forall i :: 0 <= i < |c.intfs| ==> r[i] == LastRound(c.intfs[i], exclude))
            && forall i :: 0 <= i < |c.left| ==>
                 r[|c.intfs| + i] == LastRound(SetText(c.left[i], "CONFSTATE", "DELETE"), exclude)
  {
    var all, r := c.intfs + MarkDelete(c.left), NetworkConfig(c, exclude);
    assert r == LastRoundAll(all, exclude);
    forall i | 0 <= i < |c.intfs| ensures r[i] == LastRound(c.intfs[i], exclude) {
      assert all[i] == c.intfs[i];
    }
    forall i | 0 <= i < |c.left|
      ensures r[|c.intfs| + i] == LastRound(SetText(c.left[i], "CONFSTATE", "DELETE"), exclude)
    {
      assert all[|c.intfs| + i] == MarkDelete(c.left)[i];
    }
  }

  /** From the correlation to the report nothing but the states changes. */
  lemma {:induction false} OnlyStatesChange(c: Correlation, exclude: seq<string>)
    requires c.Correlated?
    ensures var r := NetworkConfig(c, exclude);
            && |r| == |c.intfs| + |c.left|
            && (forall i :: 0 <= i < |c.intfs| ==> SameBut(c.intfs[i], r[i]))
            && forall i :: 0 <= i < |c.left| ==> SameBut(c.left[i], r[|c.intfs| + i])
  {
    ConfigAt(c, exclude);
    var r := NetworkConfig(c, exclude);
    forall i | 0 <= i < |c.intfs| ensures SameBut(c.intfs[i], r[i]) {
      LastRoundKeeps(c.intfs[i], exclude);
    }
    forall i | 0 <= i < |c.left| ensures SameBut(c.left[i], r[|c.intfs| + i]) {
      DeleteKeeps(c.left[i], exclude);
    }
  }

  /** Every interface of both sources is in the configuration: the metadata's in order, then the unclaimed ones. */
  lemma ConfigConserves(md: seq<Intf>, system: seq<Intf>, exclude: seq<string>, ll: LinkLocal)
    requires Correlate(md, system, ll).Correlated?
    ensures var r := NetworkConfig(Correlate(md, system, ll), exclude);
            var left := Unclaimed(system, md);
            && |r| == |md| + |left|
            && (forall i :: 0 <= i < |md| ==> Covers(md[i], r[i]))
            && forall i :: 0 <= i < |left| ==> SameBut(left[i], r[|md| + i])
  {
    CorrelationConserves(md, system, ll);
    var c := Correlate(md, system, ll);
    var r := NetworkConfig(c, exclude);
    ConfigAt(c, exclude);
    forall i | 0 <= i < |md| ensures Covers(md[i], r[i]) {
      LastRoundCovers(md[i], c.intfs[i], exclude);
    }
    forall i | 0 <= i < |c.left| ensures SameBut(c.left[i], r[|md| + i]) {
      DeleteKeeps(c.left[i], exclude);
    }
  }

  /** An interface stays marked for deletion exactly when it is unexcluded and its is_vf entry is present and empty. */
  lemma DeleteSurvives(i: Intf, exclude: seq<string>)
    ensures Read(LastRound(i, exclude), "CONFSTATE") == "DELETE" <==>
            Read(i, "CONFSTATE") == "DELETE" && !Named(exclude, i) && "is_vf" in i.text && i.text["is_vf"] == ""
  {
  }

  predicate NoneDeleted(intfs: seq<Intf>) {
    forall i :: 0 <= i < |intfs| ==> Read(intfs[i], "CONFSTATE") != "DELETE"
  }

  lemma {:induction false} CorrelatedState(md: seq<Intf>, system: seq<Intf>, ll: LinkLocal)
    requires Correlate(md, system, ll).Correlated?
    ensures NoneDeleted(Correlate(md, system, ll).intfs)
  {
    if md != [] {
      var front, last := md[..|md| - 1], md[|md| - 1];
      CorrelatedState(front, system, ll);
      JoinedState(last, WithMac(Correlate(front, system, ll).left, Read(last, "MAC")), ll);
    }
  }

  lemma CorrelationSizes(md: seq<Intf>, system: seq<Intf>, ll: LinkLocal)
    requires Correlate(md, system, ll).Correlated?
    ensures var c := Correlate(md, system, ll);
            |c.intfs| == |md| && c.left == Unclaimed(system, md)
  {
    CorrelationConserves(md, system, ll);
  }

  /** Entry `k` of a report is marked for deletion exactly when it stands for an interface left over that may go. */
  predicate MarkedExactly(report: seq<Intf>, k: nat, kept: nat, left: seq<Intf>, exclude: seq<string>) {
    && k < |report| == kept + |left|
    && (Read(report[k], "CONFSTATE") == "DELETE" <==> k >= kept && MayGo(left[k - kept], exclude))
  }

  /** Not excluded, with an is_vf entry that is present and empty. */
  predicate MayGo(i: Intf, exclude: seq<string>) {
    !Named(exclude, i) && "is_vf" in i.text && i.text["is_vf"] == ""
  }

  lemma {:induction false} MarkedInReport(c: Correlation, exclude: seq<string>, k: nat)
    requires c.Correlated? && NoneDeleted(c.intfs) && k < |NetworkConfig(c, exclude)|
    ensures MarkedExactly(NetworkConfig(c, exclude), k, |c.intfs|, c.left, exclude)
  {
    ConfigAt(c, exclude);
    if k < |c.intfs| {
      DeleteSurvives(c.intfs[k], exclude);
    } else {
      MarkedIsDeleted(c.left[k - |c.intfs|], exclude);
      assert NetworkConfig(c, exclude)[|c.intfs| + (k - |c.intfs|)] == NetworkConfig(c, exclude)[k];
    }
  }

  /**
   Which interfaces are reported for deletion: exactly those of the system that
   no metadata interface claims, that are not excluded, and whose is_vf entry is
   present and empty.
   */
  lemma {:induction false} DeletedExactly(md: seq<Intf>, system: seq<Intf>, exclude: seq<string>, ll: LinkLocal, k: nat)
    requires Correlate(md, system, ll).Correlated?
    requires k < |NetworkConfig(Correlate(md, system, ll), exclude)|
    ensures MarkedExactly(NetworkConfig(Correlate(md, system, ll), exclude), k, |md|, Unclaimed(system, md), exclude)
  {
    CorrelationSizes(md, system, ll);
    CorrelatedState(md, system, ll);
    MarkedInReport(Correlate(md, system, ll), exclude, k);
  }

  lemma MarkedIsDeleted(i: Intf, exclude: seq<string>)
    ensures Read(LastRound(SetText(i, "CONFSTATE", "DELETE"), exclude), "CONFSTATE") == "DELETE" <==>
            MayGo(i, exclude)
  {
    DeleteSurvives(SetText(i, "CONFSTATE", "DELETE"), exclude);
    NameUnchanged(i, exclude);
  }

  lemma NameUnchanged(i: Intf, items: seq<string>)
    ensures Named(items, SetText(i, "CONFSTATE", "DELETE")) == Named(items, i)
  {
    var j := SetText(i, "CONFSTATE", "DELETE");
    assert Read(j, "IFACE") == Read(i, "IFACE");
    assert Read(j, "VNIC") == Read(i, "VNIC") && Read(j, "ADDR") == Read(i, "ADDR");
  }

  /** Nothing ever writes is_vf, so no interface is ever reported for deletion. */
  lemma {:induction false} NothingIsDeleted(
      md: seq<Intf>, system: seq<Intf>, exclude: seq<string>, ll: LinkLocal, k: nat)
    requires forall i :: i in md || i in system ==> "is_vf" !in i.text
    requires Correlate(md, system, ll).Correlated?
    requires k < |NetworkConfig(Correlate(md, system, ll), exclude)|
    ensures Read(NetworkConfig(Correlate(md, system, ll), exclude)[k], "CONFSTATE") != "DELETE"
  {
    NoVfFlag(md, system, ll);
    var c := Correlate(md, system, ll);
    var all := c.intfs + MarkDelete(c.left);
    if k < |c.intfs| {
      assert all[k] in c.intfs;
    } else {
      assert c.left[k - |c.intfs|] in c.left;
    }
    DeleteSurvives(all[k], exclude);
  }

  lemma {:induction false} NoVfFlag(md: seq<Intf>, system: seq<Intf>, ll: LinkLocal)
    requires forall i :: i in md || i in system ==> "is_vf" !in i.text
    requires Correlate(md, system, ll).Correlated?
    ensures var c := Correlate(md, system, ll);
            forall i :: i in c.intfs || i in c.left ==> "is_vf" !in i.text
  {
    if md != [] {
      var n := |md| - 1;
      assert md[n] in md;
      forall i | i in md[..n] ensures i in md {}
      NoVfFlag(md[..n], system, ll);
      var left := Correlate(md[..n], system, ll).left;
      var mac := Read(md[n], "MAC");
      MacMembers(left, mac);
      NoVfJoin(md[n], WithMac(left, mac), ll);
    }
  }

  lemma NoVfJoin(i: Intf, candidates: seq<Intf>, ll: LinkLocal)
    requires "is_vf" !in i.text && forall c :: c in candidates ==> "is_vf" !in c.text
    requires JoinOne(i, candidates, ll).Joined?
    ensures "is_vf" !in JoinOne(i, candidates, ll).intf.text
  {
    var macvlans := OfType(candidates, {"macvlan", "macvtap"});
    OfTypeMembers(candidates, {"macvlan", "macvtap"});
    if |candidates| == 1 {
      assert candidates[0] in candidates;
    } else if macvlans != [] {
      assert macvlans[0] in macvlans;
    }
  }

  // ---- what a reported interface holds ------------------------------------------------------------

  /** The first metadata interface of its MAC; the later ones find no candidate left. */
  ghost predicate FirstOfMac(md: seq<Intf>, i: nat) {
    i < |md| && forall k :: 0 <= k < i ==> Read(md[k], "MAC") != Read(md[i], "MAC")
  }

  ghost predicate TheOnly(system: seq<Intf>, k: nat, mac: string) {
    && k < |system| && Read(system[k], "MAC") == mac
    && forall j :: 0 <= j < |system| && j != k ==> Read(system[j], "MAC") != mac
  }

  predicate IsOf(s: Intf, mac: string, types: set<string>) {
    Read(s, "MAC") == mac && Read(s, "LINKTYPE") in types
  }

  ghost predicate FirstOf(system: seq<Intf>, k: nat, mac: string, types: set<string>) {
    && k < |system| && IsOf(system[k], mac, types)
    && forall j :: 0 <= j < k ==> !IsOf(system[j], mac, types)
  }

  ghost predicate NoneOf(system: seq<Intf>, mac: string, types: set<string>) {
    forall j :: 0 <= j < |system| ==> !IsOf(system[j], mac, types)
  }

  /** Every key of `j` but some is `c`'s where `c` has it, and `i`'s otherwise. */
  ghost predicate MergesBut(i: Intf, c: Intf, j: Intf, keys: set<string>) {
    forall key :: key !in keys ==>
      && (key in j.text <==> key in c.text || key in i.text)
      && (key in j.text ==> j.text[key] == if key in c.text then c.text[key] else i.text[key])
  }

  /** The addresses of `i` that are not held are marked missing; when there are none, `kept` is. */
  ghost predicate MarksMissing(i: Intf, held: seq<string>, kept: Option<seq<string>>, j: Intf) {
    if exists a :: a in AddrsOf(i.secondary) && a !in held then
      j.missing.Some? && forall a :: a in j.missing.value <==> a in AddrsOf(i.secondary) && a !in held
    else j.missing == kept
  }

  function OneOr<T>(a: Option<T>, b: Option<T>): Option<T> {
    if a.Some? then a else b
  }

  /** `j` is `i` with the data of its one system interface `c`. */
  ghost predicate JoinedWithOne(i: Intf, c: Intf, j: Intf) {
    && MergesBut(i, c, j, {"CONFSTATE"})
    && j.secondary == OneOr(c.secondary, i.secondary)
    && MarksMissing(i, AddrsOf(c.secondary), OneOr(c.missing, i.missing), j)
  }

  /** `j` is `i` with the data of macvlan `m`, on its link, and the name and addresses of vlan `v`. */
  ghost predicate JoinedWithPair(i: Intf, m: Intf, v: Intf, j: Intf) {
    && MergesBut(i, m, j, {"CONFSTATE", "IFACE", "VLAN"})
    && Read(j, "IFACE") == Read(m, "LINK") && Read(j, "VLAN") == Read(v, "IFACE")
    && j.secondary == OneOr(v.secondary, OneOr(m.secondary, i.secondary))
    && MarksMissing(i, AddrsOf(v.secondary), OneOr(m.missing, i.missing), j)
  }

  /** `j` is `i` but for its state. */
  ghost predicate JoinedWithNone(i: Intf, j: Intf) {
    MergesBut(i, i, j, {"CONFSTATE"}) && j.secondary == i.secondary && j.missing == i.missing
  }

  // ---- the candidates, found in the system's list -------------------------------------------------------

  lemma {:induction false} UnclaimedOfMac(system: seq<Intf>, md: seq<Intf>, mac: string)
    ensures WithMac(Unclaimed(system, md), mac) == if MacIn(md, mac) then [] else WithMac(system, mac)
  {
    if system != [] {
      var (front, last) := (system[..|system| - 1], system[|system| - 1]);
      UnclaimedOfMac(front, md, mac);
      if MacIn(md, Read(last, "MAC")) {
        assert Unclaimed(system, md) == Unclaimed(front, md);
      } else {
        WithMacNext(Unclaimed(front, md), last, mac);
        assert Unclaimed(system, md) == Unclaimed(front, md) + [last];
      }
    }
  }

  lemma WithMacNext(front: seq<Intf>, last: Intf, mac: string)
    ensures WithMac(front + [last], mac) == WithMac(front, mac) + if Read(last, "MAC") == mac then [last] else []
  {
    assert (front + [last])[..|front|] == front;
  }

  lemma OfTypeNext(front: seq<Intf>, last: Intf, types: set<string>)
    ensures OfType(front + [last], types)
         == OfType(front, types) + if Read(last, "LINKTYPE") in types then [last] else []
  {
    assert (front + [last])[..|front|] == front;
  }

  ghost predicate HasMac(system: seq<Intf>, k: nat, mac: string) {
    k < |system| && Read(system[k], "MAC") == mac
  }

  lemma {:induction false} NoneHere(system: seq<Intf>, mac: string)
    requires forall j: nat :: !HasMac(system, j, mac)
    ensures WithMac(system, mac) == []
  {
    if system != [] {
      var (front, last) := (system[..|system| - 1], system[|system| - 1]);
      assert system == front + [last] && HasMac(system, |front|, mac) == (Read(last, "MAC") == mac);
      forall j: nat ensures !HasMac(front, j, mac) {
        assert !HasMac(system, j, mac);
      }
      NoneHere(front, mac);
    }
  }

  lemma {:induction false} OneHere(system: seq<Intf>, k: nat, mac: string)
    requires TheOnly(system, k, mac)
    ensures WithMac(system, mac) == [system[k]]
  {
    var n := |system| - 1;
    var front := system[..n];
    forall j | 0 <= j < n ensures front[j] == system[j] {}
    if k < n {
      OneHere(front, k, mac);
    } else {
      NoneHere(front, mac);
    }
  }

  lemma {:induction false} SomeHere(system: seq<Intf>, k: nat, mac: string)
    requires HasMac(system, k, mac)
    ensures WithMac(system, mac) != []
  {
    MacMembers(system, mac);
    assert system[k] in WithMac(system, mac);
  }

  lemma {:induction false} TwoHere(system: seq<Intf>, j: nat, k: nat, mac: string)
    requires j < k && HasMac(system, j, mac) && HasMac(system, k, mac)
    ensures |WithMac(system, mac)| >= 2
  {
    var n := |system| - 1;
    var front := system[..n];
    assert front[j] == system[j];
    if k < n {
      assert front[k] == system[k];
      TwoHere(front, j, k, mac);
    } else {
      SomeHere(front, j, mac);
    }
  }

  /** One candidate is the only interface of its MAC. */
  lemma {:induction false} WhichOne(system: seq<Intf>, mac: string) returns (k: nat)
    requires |WithMac(system, mac)| == 1
    ensures TheOnly(system, k, mac)
  {
    MacMembers(system, mac);
    assert WithMac(system, mac)[0] in system;
    k :| 0 <= k < |system| && system[k] == WithMac(system, mac)[0];
    forall j | 0 <= j < |system| && j != k ensures Read(system[j], "MAC") != mac {
      if HasMac(system, j, mac) {
        TwoHere(system, if j < k then j else k, if j < k then k else j, mac);
      }
    }
  }

  /** The first candidate of a type is the system's first of that MAC and type. */
  lemma {:induction false} FirstIs(system: seq<Intf>, k: nat, mac: string, types: set<string>)
    requires FirstOf(system, k, mac, types)
    ensures var found := OfType(WithMac(system, mac), types);
            found != [] && found[0] == system[k]
  {
    var (front, last) := (system[..|system| - 1], system[|system| - 1]);
    assert system == front + [last];
    WithMacNext(front, last, mac);
    if Read(last, "MAC") == mac {
      OfTypeNext(WithMac(front, mac), last, types);
    } else {
      assert WithMac(front, mac) + [] == WithMac(front, mac);
    }
    forall j | 0 <= j < |front| ensures front[j] == system[j] {}
    if k < |front| {
      FirstIs(front, k, mac, types);
    } else {
      NoneIs(front, mac, types);
    }
  }

  lemma {:induction false} NobodyOfType(cs: seq<Intf>, types: set<string>)
    requires forall c :: c in cs ==> Read(c, "LINKTYPE") !in types
    ensures OfType(cs, types) == []
  {
    if cs != [] {
      var n := |cs| - 1;
      assert cs == cs[..n] + [cs[n]];
      NobodyOfType(cs[..n], types);
    }
  }

  lemma {:induction false} NoneIs(system: seq<Intf>, mac: string, types: set<string>)
    requires NoneOf(system, mac, types)
    ensures OfType(WithMac(system, mac), types) == []
  {
    MacMembers(system, mac);
    forall c | c in WithMac(system, mac) ensures Read(c, "LINKTYPE") !in types {
      var j :| 0 <= j < |system| && system[j] == c;
      assert !IsOf(system[j], mac, types);
    }
    NobodyOfType(WithMac(system, mac), types);
  }

  lemma {:induction false} LeastOf(system: seq<Intf>, j: nat, mac: string, types: set<string>) returns (k: nat)
    requires j < |system| && IsOf(system[j], mac, types)
    ensures FirstOf(system, k, mac, types)
    decreases j
  {
    if i: nat :| i < j && IsOf(system[i], mac, types) {
      k := LeastOf(system, i, mac, types);
    } else {
      k := j;
    }
  }

  const MACVLANS := {"macvlan", "macvtap"}
  const VLANS := {"vlan"}

  /** The system interfaces the loop finds for metadata interface `i`. */
  function Found(md: seq<Intf>, system: seq<Intf>, i: nat): seq<Intf>
    requires i < |md|
  {
    WithMac(Unclaimed(system, md[..i]), Read(md[i], "MAC"))
  }

  lemma {:induction false} FoundIs(md: seq<Intf>, system: seq<Intf>, i: nat)
    requires i < |md|
    ensures Found(md, system, i) == if FirstOfMac(md, i) then WithMac(system, Read(md[i], "MAC")) else []
  {
    UnclaimedOfMac(system, md[..i], Read(md[i], "MAC"));
    if k :| 0 <= k < i && Read(md[k], "MAC") == Read(md[i], "MAC") {
      assert md[..i][k] == md[k];
    }
  }

  lemma FoundBefore(front: seq<Intf>, last: Intf, system: seq<Intf>, i: nat)
    requires i < |front|
    ensures Found(front + [last], system, i) == Found(front, system, i) && (front + [last])[i] == front[i]
  {
    assert (front + [last])[..i] == front[..i];
  }

  /** Each interface of the correlation is joined with what the loop finds for it. */
  lemma {:induction false} CorrelateAt(md: seq<Intf>, system: seq<Intf>, ll: LinkLocal, i: nat)
    requires Correlate(md, system, ll).Correlated? && i < |md|
    ensures |Correlate(md, system, ll).intfs| == |md|
    ensures JoinOne(md[i], Found(md, system, i), ll) == Joined.Joined(Correlate(md, system, ll).intfs[i])
  {
    var (front, last) := (md[..|md| - 1], md[|md| - 1]);
    assert md == front + [last];
    CorrelateNext(front, last, system, ll);
    CorrelationSizes(front, system, ll);
    if i < |front| {
      CorrelateAt(front, system, ll, i);
      FoundBefore(front, last, system, i);
    } else {
      assert md[..i] == front;
    }
  }

  lemma FinishMarks(i: Intf, k: Intf, state: string, held: seq<string>)
    ensures var j := Finish(k, Some(state), Minus(AddrsOf(i.secondary), held)).intf;
            && j.text == k.text["CONFSTATE" := state] && j.secondary == k.secondary
            && MarksMissing(i, held, k.missing, j)
  {
    var missing := Minus(AddrsOf(i.secondary), held);
    if missing != [] {
      assert missing[0] in missing;
    }
  }

  lemma JoinsOne(i: Intf, c: Intf, ll: LinkLocal)
    ensures JoinOne(i, [c], ll).Raised? <==> StateFrom(c, ll) == None
    ensures JoinOne(i, [c], ll).Joined? ==>
              && JoinedWithOne(i, c, JoinOne(i, [c], ll).intf)
              && Read(JoinOne(i, [c], ll).intf, "CONFSTATE") == if Addressed(c, ll) then "-" else "ADD"
  {
    if StateFrom(c, ll).Some? {
      FinishMarks(i, Update(i, c), StateFrom(c, ll).value, AddrsOf(c.secondary));
    }
  }

  lemma PairsUp(i: Intf, m: Intf, v: Intf, state: string)
    ensures var missing := Minus(AddrsOf(i.secondary), AddrsOf(v.secondary));
            JoinedWithPair(i, m, v, Finish(PairUp(i, m, v), Some(state), missing).intf)
  {
    FinishMarks(i, PairUp(i, m, v), state, AddrsOf(v.secondary));
  }

  lemma JoinsPair(i: Intf, cs: seq<Intf>, m: Intf, v: Intf, ll: LinkLocal)
    requires |cs| >= 2 && OfType(cs, MACVLANS) != [] && OfType(cs, MACVLANS)[0] == m
    requires OfType(cs, VLANS) != [] && OfType(cs, VLANS)[0] == v
    ensures JoinOne(i, cs, ll).Raised? <==> StateFrom(v, ll) == None
    ensures JoinOne(i, cs, ll).Joined? ==>
              && JoinedWithPair(i, m, v, JoinOne(i, cs, ll).intf)
              && Read(JoinOne(i, cs, ll).intf, "CONFSTATE") == if Addressed(v, ll) then "-" else "ADD"
  {
    assert JoinOne(i, cs, ll)
        == Finish(PairUp(i, m, v), StateFrom(v, ll), Minus(AddrsOf(i.secondary), AddrsOf(v.secondary)));
    if StateFrom(v, ll).Some? {
      PairsUp(i, m, v, StateFrom(v, ll).value);
    }
  }

  lemma JoinsNone(i: Intf, cs: seq<Intf>, ll: LinkLocal)
    requires |cs| == 0 || (|cs| >= 2 && (OfType(cs, MACVLANS) == [] || OfType(cs, VLANS) == []))
    ensures JoinOne(i, cs, ll).Joined?
    ensures JoinedWithNone(i, JoinOne(i, cs, ll).intf)
    ensures Read(JoinOne(i, cs, ll).intf, "CONFSTATE") == "ADD"
  {
  }

  /** The interface's device, VNIC or address is on a list. */
  predicate ListedIn(j: Intf, items: seq<string>) {
    Read(j, "IFACE") in items || Read(j, "VNIC") in items || Read(j, "ADDR") in items
  }

  lemma NamedIsListed(items: seq<string>, j: Intf)
    ensures Named(items, j) <==> ListedIn(j, items)
  {
  }

  /** The last round changes the state of an interface that is not to be deleted only by excluding it. */
  lemma LastRoundState(j: Intf, exclude: seq<string>)
    requires Read(j, "CONFSTATE") != "DELETE"
    ensures Read(LastRound(j, exclude), "CONFSTATE") == if ListedIn(j, exclude) then "EXCL" else Read(j, "CONFSTATE")
  {
    NamedIsListed(exclude, j);
  }

  /** The same merge with the state of the report. */
  lemma SameJoined(i: Intf, c: Intf, m: Intf, v: Intf, j: Intf, r: Intf)
    requires SameText(j, r)
    ensures JoinedWithOne(i, c, j) ==> JoinedWithOne(i, c, r)
    ensures JoinedWithPair(i, m, v, j) ==> JoinedWithPair(i, m, v, r)
    ensures JoinedWithNone(i, j) ==> JoinedWithNone(i, r)
  {
  }

  ghost predicate SameText(j: Intf, r: Intf) {
    && r.secondary == j.secondary && r.missing == j.missing
    && forall key :: key != "CONFSTATE" ==>
         (key in r.text <==> key in j.text) && (key in r.text ==> r.text[key] == j.text[key])
  }

  lemma LastRoundText(j: Intf, exclude: seq<string>)
    ensures SameText(j, LastRound(j, exclude))
    ensures ListedIn(LastRound(j, exclude), exclude) <==> ListedIn(j, exclude)
  {
  }

  /** What the correlation and the report have for metadata interface `i`. */
  function Joint(md: seq<Intf>, system: seq<Intf>, ll: LinkLocal, i: nat): Intf
    requires Correlate(md, system, ll).Correlated? && i < |Correlate(md, system, ll).intfs|
  {
    Correlate(md, system, ll).intfs[i]
  }

  ghost predicate Reports(r: Intf, exclude: seq<string>, state: string) {
    Read(r, "CONFSTATE") == if ListedIn(r, exclude) then "EXCL" else state
  }

  lemma {:induction false} ReportAt(md: seq<Intf>, system: seq<Intf>, exclude: seq<string>, ll: LinkLocal, i: nat)
    requires Correlate(md, system, ll).Correlated? && i < |md|
    ensures i < |Correlate(md, system, ll).intfs| && i < |NetworkConfig(Correlate(md, system, ll), exclude)|
    ensures NetworkConfig(Correlate(md, system, ll), exclude)[i] == LastRound(Joint(md, system, ll, i), exclude)
  {
    CorrelationSizes(md, system, ll);
    ConfigAt(Correlate(md, system, ll), exclude);
  }

  /**
   A metadata interface with one system interface `k` of its MAC: in the report
   the system's keys and addresses win, the metadata's others stay, addresses the
   system lacks are marked missing, and it is in order exactly if `k` carries an
   address that is not link local.
   */
  lemma {:induction false} ReportedWithOne(
      md: seq<Intf>, system: seq<Intf>, exclude: seq<string>, ll: LinkLocal, i: nat, k: nat)
    requires Correlate(md, system, ll).Correlated?
    requires FirstOfMac(md, i) && TheOnly(system, k, Read(md[i], "MAC"))
    ensures i < |NetworkConfig(Correlate(md, system, ll), exclude)|
    ensures var r := NetworkConfig(Correlate(md, system, ll), exclude)[i];
            && JoinedWithOne(md[i], system[k], r)
            && Reports(r, exclude, if Addressed(system[k], ll) then "-" else "ADD")
  {
    FoundIs(md, system, i);
    OneHere(system, k, Read(md[i], "MAC"));
    CorrelateAt(md, system, ll, i);
    JoinsOne(md[i], system[k], ll);
    ReportAt(md, system, exclude, ll, i);
    Finally(md[i], system[k], system[k], system[k], Joint(md, system, ll, i), exclude);
  }

  lemma Finally(i: Intf, c: Intf, m: Intf, v: Intf, j: Intf, exclude: seq<string>)
    requires Read(j, "CONFSTATE") != "DELETE"
    ensures var r := LastRound(j, exclude);
            && (JoinedWithOne(i, c, j) ==> JoinedWithOne(i, c, r))
            && (JoinedWithPair(i, m, v, j) ==> JoinedWithPair(i, m, v, r))
            && (JoinedWithNone(i, j) ==> JoinedWithNone(i, r))
            && Reports(r, exclude, Read(j, "CONFSTATE"))
  {
    LastRoundText(j, exclude);
    LastRoundState(j, exclude);
    SameJoined(i, c, m, v, j, LastRound(j, exclude));
  }

  /**
   With a macvlan and a vlan of its MAC, `a` and `b` the system's first: the
   macvlan's keys win, IFACE is the macvlan's link, VLAN the vlan's name, the
   vlan's addresses win, and the vlan's address decides the state.
   */
  lemma {:induction false} ReportedWithPair(
      md: seq<Intf>, system: seq<Intf>, exclude: seq<string>, ll: LinkLocal, i: nat, a: nat, b: nat)
    requires Correlate(md, system, ll).Correlated? && FirstOfMac(md, i)
    requires FirstOf(system, a, Read(md[i], "MAC"), {"macvlan", "macvtap"})
    requires FirstOf(system, b, Read(md[i], "MAC"), {"vlan"})
    ensures i < |NetworkConfig(Correlate(md, system, ll), exclude)|
    ensures var r := NetworkConfig(Correlate(md, system, ll), exclude)[i];
            && JoinedWithPair(md[i], system[a], system[b], r)
            && Reports(r, exclude, if Addressed(system[b], ll) then "-" else "ADD")
  {
    PairFound(md, system, i, a, b);
    CorrelateAt(md, system, ll, i);
    JoinsPair(md[i], Found(md, system, i), system[a], system[b], ll);
    ReportAt(md, system, exclude, ll, i);
    Finally(md[i], system[a], system[a], system[b], Joint(md, system, ll, i), exclude);
  }

  lemma {:induction false} PairFound(md: seq<Intf>, system: seq<Intf>, i: nat, a: nat, b: nat)
    requires FirstOfMac(md, i) && FirstOf(system, a, Read(md[i], "MAC"), MACVLANS)
    requires FirstOf(system, b, Read(md[i], "MAC"), VLANS)
    ensures var cs := Found(md, system, i);
            && |cs| >= 2 && OfType(cs, MACVLANS) != [] && OfType(cs, MACVLANS)[0] == system[a]
            && OfType(cs, VLANS) != [] && OfType(cs, VLANS)[0] == system[b]
  {
    var mac := Read(md[i], "MAC");
    FoundIs(md, system, i);
    assert a != b;
    TwoHere(system, if a < b then a else b, if a < b then b else a, mac);
    FirstIs(system, a, mac, MACVLANS);
    FirstIs(system, b, mac, VLANS);
  }

  /** No candidate: none of the MAC, an earlier metadata interface has taken them, or they are no such pair. */
  ghost predicate Unmatched(md: seq<Intf>, system: seq<Intf>, i: nat)
    requires i < |md|
  {
    var mac := Read(md[i], "MAC");
    || !FirstOfMac(md, i)
    || (forall j: nat :: !HasMac(system, j, mac))
    || ((NoneOf(system, mac, {"macvlan", "macvtap"}) || NoneOf(system, mac, {"vlan"})) &&
        exists j: nat, k: nat :: j < k && HasMac(system, j, mac) && HasMac(system, k, mac))
  }

  /** Then the report has the metadata interface as it is, to be added. */
  lemma {:induction false} ReportedWithNone(
      md: seq<Intf>, system: seq<Intf>, exclude: seq<string>, ll: LinkLocal, i: nat)
    requires Correlate(md, system, ll).Correlated? && i < |md| && Unmatched(md, system, i)
    ensures i < |NetworkConfig(Correlate(md, system, ll), exclude)|
    ensures var r := NetworkConfig(Correlate(md, system, ll), exclude)[i];
            JoinedWithNone(md[i], r) && Reports(r, exclude, "ADD")
  {
    UnmatchedFound(md, system, i);
    CorrelateAt(md, system, ll, i);
    JoinsNone(md[i], Found(md, system, i), ll);
    ReportAt(md, system, exclude, ll, i);
    Finally(md[i], md[i], md[i], md[i], Joint(md, system, ll, i), exclude);
  }

  lemma {:induction false} UnmatchedFound(md: seq<Intf>, system: seq<Intf>, i: nat)
    requires i < |md| && Unmatched(md, system, i)
    ensures var cs := Found(md, system, i);
            |cs| == 0 || (|cs| >= 2 && (OfType(cs, MACVLANS) == [] || OfType(cs, VLANS) == []))
  {
    var mac := Read(md[i], "MAC");
    FoundIs(md, system, i);
    if FirstOfMac(md, i) {
      if forall j: nat :: !HasMac(system, j, mac) {
        NoneHere(system, mac);
      } else {
        var j: nat, k: nat :| j < k && HasMac(system, j, mac) && HasMac(system, k, mac);
        TwoHere(system, j, k, mac);
        if NoneOf(system, mac, MACVLANS) {
          NoneIs(system, mac, MACVLANS);
        } else {
          NoneIs(system, mac, VLANS);
        }
      }
    }
  }

  /** Every metadata interface is in one of the three cases. */
  lemma {:induction false} ThreeCases(md: seq<Intf>, system: seq<Intf>, i: nat)
    requires i < |md|
    ensures var mac := Read(md[i], "MAC");
            || Unmatched(md, system, i)
            || (exists k: nat :: TheOnly(system, k, mac))
            || (exists a: nat, b: nat :: FirstOf(system, a, mac, MACVLANS) && FirstOf(system, b, mac, VLANS))
  {
    var mac := Read(md[i], "MAC");
    if !Unmatched(md, system, i) {
      var j: nat :| HasMac(system, j, mac);
      if k: nat :| k != j && HasMac(system, k, mac) {
        var x: nat :| x < |system| && IsOf(system[x], mac, MACVLANS);
        var y: nat :| y < |system| && IsOf(system[y], mac, VLANS);
        var a := LeastOf(system, x, mac, MACVLANS);
        var b := LeastOf(system, y, mac, VLANS);
      } else {
        forall x | 0 <= x < |system| && x != j ensures Read(system[x], "MAC") != mac {
          assert !HasMac(system, x, mac);
        }
        assert TheOnly(system, j, mac);
      }
    }
  }

  /** An interface left over is to be deleted, unless it is excluded or its is_vf entry is absent or not empty. */
  lemma {:induction false} LeftState(c: Correlation, exclude: seq<string>, k: nat)
    requires c.Correlated? && k < |c.left|
    ensures |NetworkConfig(c, exclude)| == |c.intfs| + |c.left|
    ensures var r := NetworkConfig(c, exclude)[|c.intfs| + k];
            SameText(c.left[k], r) &&
            Read(r, "CONFSTATE") ==
              if ListedIn(c.left[k], exclude) then "EXCL"
              else if "is_vf" in c.left[k].text && c.left[k].text["is_vf"] == "" then "DELETE" else "-"
  {
    ConfigAt(c, exclude);
    DeletedState(c.left[k], exclude);
  }

  lemma DeletedState(i: Intf, exclude: seq<string>)
    ensures var r := LastRound(SetText(i, "CONFSTATE", "DELETE"), exclude);
            SameText(i, r) &&
            Read(r, "CONFSTATE") ==
              if ListedIn(i, exclude) then "EXCL"
              else if "is_vf" in i.text && i.text["is_vf"] == "" then "DELETE" else "-"
  {
    var j := SetText(i, "CONFSTATE", "DELETE");
    NamedIsListed(exclude, j);
    LastRoundText(j, exclude);
  }

  predicate Unparsable(c: Intf, ll: LinkLocal) {
    "ADDR" in c.text && c.text["ADDR"] !in ll
  }

  ghost predicate OneBreaks(system: seq<Intf>, ll: LinkLocal, mac: string) {
    exists k: nat :: TheOnly(system, k, mac) && Unparsable(system[k], ll)
  }

  ghost predicate PairBreaks(system: seq<Intf>, ll: LinkLocal, mac: string) {
    && (exists a: nat :: FirstOf(system, a, mac, {"macvlan", "macvtap"}))
    && exists b: nat :: FirstOf(system, b, mac, {"vlan"}) && Unparsable(system[b], ll)
  }

  /** The address that decides the state of metadata interface `i` cannot be parsed. */
  ghost predicate Breaks(md: seq<Intf>, system: seq<Intf>, ll: LinkLocal, i: nat) {
    && FirstOfMac(md, i)
    && (OneBreaks(system, ll, Read(md[i], "MAC")) || PairBreaks(system, ll, Read(md[i], "MAC")))
  }

  /** The three cases exclude one another. */
  lemma {:induction false} OnlyOneCase(system: seq<Intf>, mac: string)
    ensures forall k: nat, a: nat, b: nat ::
              TheOnly(system, k, mac) && FirstOf(system, a, mac, MACVLANS) ==> !FirstOf(system, b, mac, VLANS)
    ensures forall k: nat :: TheOnly(system, k, mac) ==> HasMac(system, k, mac)
    ensures forall k: nat, j: nat :: TheOnly(system, k, mac) && HasMac(system, j, mac) ==> j == k
    ensures forall a: nat, types :: FirstOf(system, a, mac, types) ==>
              HasMac(system, a, mac) && !NoneOf(system, mac, types)
  {
  }

  lemma {:induction false} UnmatchedHolds(md: seq<Intf>, system: seq<Intf>, ll: LinkLocal, i: nat)
    requires i < |md| && Unmatched(md, system, i)
    ensures !Breaks(md, system, ll, i)
  {
    OnlyOneCase(system, Read(md[i], "MAC"));
  }

  lemma {:induction false} BreaksWithOne(md: seq<Intf>, system: seq<Intf>, ll: LinkLocal, i: nat, k: nat)
    requires FirstOfMac(md, i) && TheOnly(system, k, Read(md[i], "MAC"))
    ensures Breaks(md, system, ll, i) <==> Unparsable(system[k], ll)
  {
    OnlyOneCase(system, Read(md[i], "MAC"));
  }

  lemma NotTheOnly(system: seq<Intf>, a: nat, b: nat, mac: string)
    requires HasMac(system, a, mac) && HasMac(system, b, mac) && a != b
    ensures forall k: nat :: !TheOnly(system, k, mac)
  {
  }

  lemma FirstOfUnique(system: seq<Intf>, a: nat, mac: string, types: set<string>)
    requires FirstOf(system, a, mac, types)
    ensures forall b: nat :: FirstOf(system, b, mac, types) ==> b == a
  {
  }

  lemma {:induction false} BreaksWithPair(md: seq<Intf>, system: seq<Intf>, ll: LinkLocal, i: nat, a: nat, b: nat)
    requires FirstOfMac(md, i)
    requires FirstOf(system, a, Read(md[i], "MAC"), MACVLANS) && FirstOf(system, b, Read(md[i], "MAC"), VLANS)
    ensures Breaks(md, system, ll, i) <==> Unparsable(system[b], ll)
  {
    NotTheOnly(system, a, b, Read(md[i], "MAC"));
    FirstOfUnique(system, b, Read(md[i], "MAC"), VLANS);
  }

  lemma {:induction false} JoinRaises(md: seq<Intf>, system: seq<Intf>, ll: LinkLocal, i: nat)
    requires i < |md|
    ensures JoinOne(md[i], Found(md, system, i), ll).Raised? <==> Breaks(md, system, ll, i)
  {
    var (mac, cs) := (Read(md[i], "MAC"), Found(md, system, i));
    ThreeCases(md, system, i);
    if Unmatched(md, system, i) {
      UnmatchedFound(md, system, i);
      JoinsNone(md[i], cs, ll);
      UnmatchedHolds(md, system, ll, i);
    } else if k: nat :| TheOnly(system, k, mac) {
      RaisesWithOne(md, system, ll, i, k);
    } else {
      var a: nat, b: nat :| FirstOf(system, a, mac, MACVLANS) && FirstOf(system, b, mac, VLANS);
      PairFound(md, system, i, a, b);
      JoinsPair(md[i], cs, system[a], system[b], ll);
      BreaksWithPair(md, system, ll, i, a, b);
    }
  }

  lemma {:induction false} RaisesWithOne(md: seq<Intf>, system: seq<Intf>, ll: LinkLocal, i: nat, k: nat)
    requires FirstOfMac(md, i) && TheOnly(system, k, Read(md[i], "MAC"))
    ensures JoinOne(md[i], Found(md, system, i), ll).Raised? <==> Breaks(md, system, ll, i)
  {
    FoundIs(md, system, i);
    OneHere(system, k, Read(md[i], "MAC"));
    JoinsOne(md[i], system[k], ll);
    BreaksWithOne(md, system, ll, i, k);
  }

  /** The correlation raises exactly when such an address cannot be parsed. */
  lemma {:induction false} CorrelationRaises(md: seq<Intf>, system: seq<Intf>, ll: LinkLocal)
    ensures Correlate(md, system, ll).CorrelationRaised? <==> exists i: nat :: Breaks(md, system, ll, i)
  {
    if md != [] {
      var (front, last) := (md[..|md| - 1], md[|md| - 1]);
      assert md == front + [last];
      CorrelationRaises(front, system, ll);
      CorrelateNext(front, last, system, ll);
      JoinRaises(md, system, ll, |front|);
      BreaksOneMore(front, last, system, ll);
      if Correlate(front, system, ll).Correlated? {
        CorrelationSizes(front, system, ll);
        assert md[..|front|] == front;
      }
    }
  }

  lemma BreaksOneMore(front: seq<Intf>, last: Intf, system: seq<Intf>, ll: LinkLocal)
    ensures forall i: nat :: i < |front| ==> (Breaks(front + [last], system, ll, i) <==> Breaks(front, system, ll, i))
  {
    forall i: nat | i < |front| ensures Breaks(front + [last], system, ll, i) <==> Breaks(front, system, ll, i) {
      assert FirstOfMac(front + [last], i) <==> FirstOfMac(front, i) by {
        forall k | 0 <= k <= i ensures (front + [last])[k] == front[k] {}
      }
    }
  }
}
