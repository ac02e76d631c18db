/**
 The persistent exclude and deconfig lists of `VNICUtils`, changed by the
 operator's commands and respected by the daemon's automatic configuration.
 */
module VnicLists {
  import opened StoredFiles
  import opened Wrappers
  import opened Interfaces
  import Runs

  datatype Info = Info(exclude: seq<string>, deconfig: seq<string>)

  datatype Event = Configured(intf: Intf) | ConfigFailed(intf: Intf) | Removed(intf: Intf) | Modified(intf: Intf)

  /** What one auto_config call is given: the interfaces as `get_network_config` reports them, and what will fail. */
  datatype Request = Request(
    intfs: seq<Intf>, secIp: seq<(string, string)>, operator: bool, fails: set<Intf>)

  // ---- which interfaces are touched ------------------------------------------------------

  function AddMissing(i: Intf, secIp: seq<(string, string)>): Intf {
    if secIp == [] then i
    else
      var n := |secIp| - 1;
      var j := AddMissing(i, secIp[..n]);
      if secIp[n].1 != Read(i, "VNIC") || secIp[n].0 in AddrsOf(j.missing) then j
      else j.(missing := Some(AddrsOf(j.missing) + [secIp[n].0]))
  }

  datatype Verdict = Verdict(intf: Intf, configure: bool, remove: bool, alter: bool)

  function Judge(i: Intf, info: Info, q: Request): Verdict {
    if Named(info.exclude, i) then Verdict(i, false, false, false)
    else
      var allowed := q.operator || !Named(info.deconfig, i);
      var j := AddMissing(i, q.secIp);
      var configure := Read(j, "CONFSTATE") == "ADD" && allowed;
      var k := if configure && AddrsOf(j.secondary) != [] then j.(missing := j.secondary) else j;
      Verdict(k, configure, Read(k, "CONFSTATE") == "DELETE", allowed && k.missing.Some?)
  }

  datatype Worklists = Worklists(configure: seq<Intf>, remove: seq<Intf>, alter: seq<Intf>)

  function Classify(intfs: seq<Intf>, info: Info, q: Request): Worklists {
    if intfs == [] then Worklists([], [], [])
    else
      var n := |intfs| - 1;
      var w := Classify(intfs[..n], info, q);
      var v := Judge(intfs[n], info, q);
      Worklists(if v.configure then w.configure + [v.intf] else w.configure,
                if v.remove then w.remove + [v.intf] else w.remove,
                if v.alter then w.alter + [v.intf] else w.alter)
  }

  // ---- the lists ---------------------------------------------------------------------------

  /** list.remove(x), for an x that may be absent. */
  function Drop(l: seq<string>, x: string): seq<string> {
    if l == [] then [] else if l[0] == x then l[1..] else [l[0]] + Drop(l[1..], x)
  }

  function AddOnce(l: seq<string>, x: string): seq<string> {
    if x in l then l else l + [x]
  }

  predicate NoRepeats(l: seq<string>) {
    forall i, j :: 0 <= i < j < |l| ==> l[i] != l[j]
  }

  /** The lists, every version of them that `save_vnic_info` was given, and what was done to interfaces. */
  datatype Sweep = Sweep(info: Info, saves: seq<Info>, events: seq<Event>, stopped: bool)

  function Start(info: Info): Sweep {
    Sweep(info, [], [], false)
  }

  /** The lists are saved whenever they change. */
  function Change(s: Sweep, info: Info): Sweep {
    if info == s.info then s else s.(info := info, saves := s.saves + [info])
  }

  /** The configuration round: a configured address leaves the deconfig list. */
  function ConfigureOne(s: Sweep, i: Intf, fails: set<Intf>): Sweep {
    if i in fails then s.(events := s.events + [ConfigFailed(i)])
    else
      Change(s, s.info.(deconfig := Drop(s.info.deconfig, Read(i, "ADDR")))).(events := s.events + [Configured(i)])
  }

  function ConfigureAll(info: Info, work: seq<Intf>, fails: set<Intf>): Sweep {
    if work == [] then Start(info)
    else ConfigureOne(ConfigureAll(info, work[..|work| - 1], fails), work[|work| - 1], fails)
  }

  function EventsOf(work: seq<Intf>, alter: bool): (r: seq<Event>)
    ensures |r| == |work|
    ensures forall i :: 0 <= i < |work| ==> r[i] == if alter then Modified(work[i]) else Removed(work[i])
  {
    seq(|work|, i requires 0 <= i < |work| => if alter then Modified(work[i]) else Removed(work[i]))
  }

  function AutoConfig(info: Info, q: Request): Sweep {
    var w := Classify(q.intfs, info, q);
    var s := ConfigureAll(info, w.configure, q.fails);
    s.(events := s.events + EventsOf(w.remove, false) + EventsOf(w.alter, true))
  }

  /** auto_deconfig without addresses: skip what must stay, unconfigure the rest, stop at the first failure. */
  predicate Stays(i: Intf, info: Info, valid: set<string>) {
    || "ADDR" !in i.text || i.text["ADDR"] !in valid
    || "IS_PRIMARY" in i.text
    || Read(i, "CONFSTATE") == "ADD"
    || Named(info.exclude, i)
  }

  function DeconfigOne(s: Sweep, i: Intf, valid: set<string>, fails: set<Intf>): Sweep {
    if s.stopped || Stays(i, s.info, valid) then s
    else if i in fails then s.(stopped := true)
    else
      Change(s, s.info.(deconfig := AddOnce(s.info.deconfig, Read(i, "ADDR")))).(events := s.events + [Removed(i)])
  }

  function DeconfigAll(info: Info, intfs: seq<Intf>, valid: set<string>, fails: set<Intf>): Sweep {
    if intfs == [] then Start(info)
    else DeconfigOne(DeconfigAll(info, intfs[..|intfs| - 1], valid, fails), intfs[|intfs| - 1], valid, fails)
  }

  // ---- the program ---------------------------------------------------------------------------

  /** `saves`: what `save_vnic_info` has been given, in order. */
  class VnicUtils {
    var exclude: seq<string>
    var deconfig: seq<string>
    var saves: seq<Info>

    function Lists(): Info
      reads this
    {
      Info(exclude, deconfig)
    }

    /** Everything the operations below compute, with the events of the current one. */
    function State(events: seq<Event>, stopped: bool): Sweep
      reads this
    {
      Sweep(Lists(), saves, events, stopped)
    }

    constructor (info: Info)
      ensures Lists() == info && saves == []
    {
      exclude, deconfig, saves := info.exclude, info.deconfig, [];
    }

    /** The item is listed afterwards, nothing else changes, and a change is saved. */
    method Exclude(item: string)
      modifies this
      ensures item in exclude && old(exclude) <= exclude && deconfig == old(deconfig)
      ensures old(NoRepeats(exclude)) ==> NoRepeats(exclude)
      ensures State([], false) == Change(old(State([], false)), old(Lists()).(exclude := AddOnce(old(exclude), item)))
    {
      if item !in exclude {
        exclude := exclude + [item];
        saves := saves + [Lists()];
      }
    }

    /** Every other item stays listed, the item does not if it was listed once, and a change is saved. */
    method Include(item: string)
      modifies this
      ensures forall y :: y != item ==> (y in exclude <==> y in old(exclude))
      ensures old(NoRepeats(exclude)) ==> NoRepeats(exclude) && item !in exclude
      ensures State([], false) == Change(old(State([], false)), old(Lists()).(exclude := Drop(old(exclude), item)))
    {
      DropMembers(exclude, item);
      DropShorter(exclude, item);
      if item in exclude {
        exclude := Drop(exclude, item);
        saves := saves + [Lists()];
      }
    }

    /** The same for the deconfig list. */
    method Unconfig(item: string)
      modifies this
      ensures item in deconfig && old(deconfig) <= deconfig && exclude == old(exclude)
      ensures old(NoRepeats(deconfig)) ==> NoRepeats(deconfig)
      ensures State([], false) == Change(old(State([], false)), old(Lists()).(deconfig := AddOnce(old(deconfig), item)))
    {
      if item !in deconfig {
        deconfig := deconfig + [item];
        saves := saves + [Lists()];
      }
    }

    method Config(item: string)
      modifies this
      ensures forall y :: y != item ==> (y in deconfig <==> y in old(deconfig))
      ensures old(NoRepeats(deconfig)) ==> NoRepeats(deconfig) && item !in deconfig
      ensures State([], false) == Change(old(State([], false)), old(Lists()).(deconfig := Drop(old(deconfig), item)))
    {
      DropMembers(deconfig, item);
      DropShorter(deconfig, item);
      if item in deconfig {
        deconfig := Drop(deconfig, item);
        saves := saves + [Lists()];
      }
    }

    method SortOut(q: Request) returns (w: Worklists)
      ensures w == Classify(q.intfs, Lists(), q)
    {
      var configure, remove, alter: seq<Intf> := [], [], [];
      var i := 0;
      while i < |q.intfs|
        invariant 0 <= i <= |q.intfs|
        invariant Worklists(configure, remove, alter) == Classify(q.intfs[..i], Lists(), q)
      {
        assert q.intfs[..i + 1][..i] == q.intfs[..i];
        var v := Judge(q.intfs[i], Lists(), q);
        if v.configure {
          configure := configure + [v.intf];
        }
        if v.remove {
          remove := remove + [v.intf];
        }
        if v.alter {
          alter := alter + [v.intf];
        }
        i := i + 1;
      }
      assert q.intfs[..i] == q.intfs;
      w := Worklists(configure, remove, alter);
    }

    method AutoConfigure(q: Request) returns (events: seq<Event>)
      modifies this
      ensures State(events, false) == Later(old(saves), AutoConfig(old(Lists()), q))
    {
      var w := SortOut(q);
      events := ConfigureRound(w.configure, q.fails);
      events := events + EventsOf(w.remove, false) + EventsOf(w.alter, true);
    }

    method ConfigureRound(work: seq<Intf>, fails: set<Intf>) returns (events: seq<Event>)
      modifies this
      ensures State(events, false) == Later(old(saves), ConfigureAll(old(Lists()), work, fails))
    {
      events := [];
      var i := 0;
      while i < |work|
        invariant 0 <= i <= |work|
        invariant State(events, false) == Later(old(saves), ConfigureAll(old(Lists()), work[..i], fails))
      {
        ghost var s := ConfigureAll(old(Lists()), work[..i], fails);
        ConfigureNext(old(Lists()), work, fails, i);
        if work[i] in fails {
          events := events + [ConfigFailed(work[i])];
        } else {
          ChangeLater(old(saves), s, s.info.(deconfig := Drop(s.info.deconfig, Read(work[i], "ADDR"))));
          Config(Read(work[i], "ADDR"));
          events := events + [Configured(work[i])];
        }
        i := i + 1;
      }
      assert work[..i] == work;
    }

    method AutoDeconfigure(intfs: seq<Intf>, valid: set<string>, fails: set<Intf>)
      returns (events: seq<Event>, stopped: bool)
      modifies this
      ensures State(events, stopped) == Later(old(saves), DeconfigAll(old(Lists()), intfs, valid, fails))
    {
      events, stopped := [], false;
      var i := 0;
      while i < |intfs|
        invariant 0 <= i <= |intfs|
        invariant State(events, stopped) == Later(old(saves), DeconfigAll(old(Lists()), intfs[..i], valid, fails))
      {
        ghost var s := DeconfigAll(old(Lists()), intfs[..i], valid, fails);
        DeconfigNext(old(Lists()), intfs, valid, fails, i);
        if !stopped && !Stays(intfs[i], Lists(), valid) {
          if intfs[i] in fails {
            stopped := true;
          } else {
            ChangeLater(old(saves), s, s.info.(deconfig := AddOnce(s.info.deconfig, Read(intfs[i], "ADDR"))));
            Unconfig(Read(intfs[i], "ADDR"));
            events := events + [Removed(intfs[i])];
          }
        }
        i := i + 1;
      }
      assert intfs[..i] == intfs;
    }
  }

  /** The same work, after other versions have been saved. */
  function Later(saved: seq<Info>, s: Sweep): Sweep {
    s.(saves := saved + s.saves)
  }

  lemma ChangeLater(saved: seq<Info>, s: Sweep, info: Info)
    ensures Change(Later(saved, s), info) == Later(saved, Change(s, info))
  {
    assert (saved + s.saves) + [info] == saved + (s.saves + [info]);
  }

  lemma ConfigureNext(info: Info, work: seq<Intf>, fails: set<Intf>, i: nat)
    requires i < |work|
    ensures ConfigureAll(info, work[..i + 1], fails)
         == ConfigureOne(ConfigureAll(info, work[..i], fails), work[i], fails)
  {
    assert work[..i + 1][..i] == work[..i];
  }

  lemma DeconfigNext(info: Info, intfs: seq<Intf>, valid: set<string>, fails: set<Intf>, i: nat)
    requires i < |intfs|
    ensures DeconfigAll(info, intfs[..i + 1], valid, fails)
         == DeconfigOne(DeconfigAll(info, intfs[..i], valid, fails), intfs[i], valid, fails)
  {
    assert intfs[..i + 1][..i] == intfs[..i];
  }

  // ---- laws of the lists -------------------------------------------------------------------------

  lemma {:induction false} DropShorter(l: seq<string>, x: string)
    ensures |Drop(l, x)| == |l| - (if x in l then 1 else 0)
    ensures x !in l ==> Drop(l, x) == l
  {
    if l != [] && l[0] != x {
      DropShorter(l[1..], x);
      assert l == [l[0]] + l[1..];
    }
  }

  lemma {:induction false} DropMembers(l: seq<string>, x: string)
    ensures forall y :: y in Drop(l, x) ==> y in l
    ensures forall y :: y in l && y != x ==> y in Drop(l, x)
    ensures NoRepeats(l) ==> NoRepeats(Drop(l, x)) && x !in Drop(l, x)
  {
    if l != [] && l[0] != x {
      DropMembers(l[1..], x);
      assert l == [l[0]] + l[1..];
      if NoRepeats(l) {
        assert l[0] !in l[1..];
      }
    } else if l != [] {
      assert l == [l[0]] + l[1..];
    }
  }

  /** What is worked on was reported, and passed the tests. */
  lemma {:induction false} ClassifyMembers(intfs: seq<Intf>, info: Info, q: Request)
    ensures var w := Classify(intfs, info, q);
            && (forall j :: j in w.configure || j in w.alter ==>
                  !Named(info.exclude, j) && (q.operator || !Named(info.deconfig, j)))
            && (forall j :: j in w.configure ==> Read(j, "CONFSTATE") == "ADD")
            && (forall j :: j in w.remove ==> Read(j, "CONFSTATE") == "DELETE" && !Named(info.exclude, j))
  {
    if intfs != [] {
      var n := |intfs| - 1;
      ClassifyMembers(intfs[..n], info, q);
      JudgeKeepsName(intfs[n], info, q);
    }
  }

  lemma {:induction false} AddMissingKeeps(i: Intf, secIp: seq<(string, string)>)
    ensures AddMissing(i, secIp).text == i.text && AddMissing(i, secIp).secondary == i.secondary
  {
    if secIp != [] {
      AddMissingKeeps(i, secIp[..|secIp| - 1]);
    }
  }

  lemma JudgeKeepsName(i: Intf, info: Info, q: Request)
    ensures Judge(i, info, q).intf.text == i.text
    ensures Named(info.exclude, Judge(i, info, q).intf) == Named(info.exclude, i)
    ensures Named(info.deconfig, Judge(i, info, q).intf) == Named(info.deconfig, i)
  {
    AddMissingKeeps(i, q.secIp);
  }

  /** Every reported interface that passes the tests is on the configuration list. */
  lemma {:induction false} ClassifyForgetsNone(intfs: seq<Intf>, info: Info, q: Request, i: Intf)
    requires i in intfs && Judge(i, info, q).configure
    ensures Judge(i, info, q).intf in Classify(intfs, info, q).configure
  {
    var n := |intfs| - 1;
    assert intfs == intfs[..n] + [intfs[n]];
    if i in intfs[..n] {
      ClassifyForgetsNone(intfs[..n], info, q, i);
    }
  }

  lemma {:induction false} ConfigureAllTries(info: Info, work: seq<Intf>, fails: set<Intf>, j: Intf)
    requires j in work
    ensures (if j in fails then ConfigFailed(j) else Configured(j)) in ConfigureAll(info, work, fails).events
  {
    var n := |work| - 1;
    assert work == work[..n] + [work[n]];
    if j in work[..n] {
      ConfigureAllTries(info, work[..n], fails, j);
    }
  }

  /**
   auto_config tries every reported interface that needs configuring, is not
   excluded, and is not on the deconfig list unless an operator asks.
   */
  lemma AutoConfigForgetsNone(info: Info, q: Request, i: Intf)
    requires i in q.intfs && Read(i, "CONFSTATE") == "ADD" && !ListedIn(i, info.exclude)
    requires q.operator || !ListedIn(i, info.deconfig)
    ensures exists e :: e in AutoConfig(info, q).events && (e.Configured? || e.ConfigFailed?) && e.intf.text == i.text
  {
    NamedIsListed(info.exclude, i);
    NamedIsListed(info.deconfig, i);
    AddMissingKeeps(i, q.secIp);
    JudgeKeepsName(i, info, q);
    var w := Classify(q.intfs, info, q);
    var j := Judge(i, info, q).intf;
    ClassifyForgetsNone(q.intfs, info, q, i);
    ConfigureAllTries(info, w.configure, q.fails, j);
    assert (if j in q.fails then ConfigFailed(j) else Configured(j)) in AutoConfig(info, q).events;
  }

  /** What one configuration does to the lists, seen from address `a`. */
  lemma ConfigureOneEffect(s: Sweep, i: Intf, fails: set<Intf>, a: string)
    ensures var r := ConfigureOne(s, i, fails);
            && r.info.exclude == s.info.exclude
            && (NoRepeats(s.info.deconfig) ==> NoRepeats(r.info.deconfig))
            && (i !in fails && NoRepeats(s.info.deconfig) ==> Read(i, "ADDR") !in r.info.deconfig)
            && (a in r.info.deconfig ==> a in s.info.deconfig)
            && (a in s.info.deconfig && (i in fails || Read(i, "ADDR") != a) ==> a in r.info.deconfig)
            && (r.saves == s.saves || r.saves == s.saves + [r.info])
            && r.events == s.events + [if i in fails then ConfigFailed(i) else Configured(i)]
  {
    DropMembers(s.info.deconfig, Read(i, "ADDR"));
  }

  lemma {:induction false} ConfigureAllEvents(info: Info, work: seq<Intf>, fails: set<Intf>)
    ensures var s := ConfigureAll(info, work, fails);
            && |s.events| == |work| && s.info.exclude == info.exclude
            && forall k :: 0 <= k < |work| ==>
                 s.events[k] == if work[k] in fails then ConfigFailed(work[k]) else Configured(work[k])
  {
    if work != [] {
      var n := |work| - 1;
      ConfigureAllEvents(info, work[..n], fails);
      ConfigureOneEffect(ConfigureAll(info, work[..n], fails), work[n], fails, "");
    }
  }

  /** Some configuration of the address succeeds. */
  predicate Configures(work: seq<Intf>, fails: set<Intf>, a: string) {
    exists k :: 0 <= k < |work| && work[k] !in fails && Read(work[k], "ADDR") == a
  }

  /** An address is off the list after the round exactly when it was off before or was configured in it. */
  lemma {:induction false} ConfigureAllEffect(info: Info, work: seq<Intf>, fails: set<Intf>, a: string)
    requires NoRepeats(info.deconfig)
    ensures var s := ConfigureAll(info, work, fails);
            && NoRepeats(s.info.deconfig)
            && (a in s.info.deconfig <==>
                  a in info.deconfig && !Configures(work, fails, a))
  {
    if work != [] {
      var n := |work| - 1;
      ConfigureAllEffect(info, work[..n], fails, a);
      ConfigureOneEffect(ConfigureAll(info, work[..n], fails), work[n], fails, a);
      ConfiguresPrefix(work, fails, a);
    }
  }

  lemma ConfiguresPrefix(work: seq<Intf>, fails: set<Intf>, a: string)
    requires work != []
    ensures var n := |work| - 1;
            Configures(work, fails, a) <==>
            Configures(work[..n], fails, a) || (work[n] !in fails && Read(work[n], "ADDR") == a)
  {
    var n := |work| - 1;
    if k :| 0 <= k < n && work[..n][k] !in fails && Read(work[..n][k], "ADDR") == a {
      assert work[k] !in fails && Read(work[k], "ADDR") == a;
    }
    if k :| 0 <= k < |work| && work[k] !in fails && Read(work[k], "ADDR") == a {
      assert k < n ==> work[..n][k] !in fails && Read(work[..n][k], "ADDR") == a;
    }
  }

  /** Names on the list keep an interface out of the work, so its configuration drops nothing and saves nothing. */
  lemma {:induction false} UnnamedConfigureAll(info: Info, work: seq<Intf>, fails: set<Intf>)
    requires forall j :: j in work ==> !Named(info.deconfig, j)
    ensures ConfigureAll(info, work, fails).info == info && ConfigureAll(info, work, fails).saves == []
  {
    if work != [] {
      var n := |work| - 1;
      forall j | j in work[..n] ensures j in work {}
      UnnamedConfigureAll(info, work[..n], fails);
      assert work[n] in work;
      DropShorter(info.deconfig, Read(work[n], "ADDR"));
    }
  }

  /** What auto_config touches is not excluded; but for removing, the deconfig list allows it or an operator asks. */
  lemma AutoConfigRespects(info: Info, q: Request)
    ensures forall e :: e in AutoConfig(info, q).events ==>
              && !Named(info.exclude, e.intf)
              && (!q.operator && !e.Removed? ==> !Named(info.deconfig, e.intf))
  {
    var w := Classify(q.intfs, info, q);
    ClassifyMembers(q.intfs, info, q);
    ConfigureAllEvents(info, w.configure, q.fails);
    var es := ConfigureAll(info, w.configure, q.fails).events;
    forall e | e in AutoConfig(info, q).events
      ensures !Named(info.exclude, e.intf) && (!q.operator && !e.Removed? ==> !Named(info.deconfig, e.intf))
    {
      if e in es {
        var k :| 0 <= k < |es| && es[k] == e;
        assert w.configure[k] in w.configure;
      }
    }
  }

  /** A daemon pass leaves both lists alone, and neither configures nor modifies an interface they name. */
  lemma DaemonRespectsLists(info: Info, q: Request)
    requires !q.operator
    ensures AutoConfig(info, q).info == info && AutoConfig(info, q).saves == []
    ensures forall e :: e in AutoConfig(info, q).events ==>
              !ListedIn(e.intf, info.exclude) && (!e.Removed? ==> !ListedIn(e.intf, info.deconfig))
  {
    ClassifyMembers(q.intfs, info, q);
    UnnamedConfigureAll(info, Classify(q.intfs, info, q).configure, q.fails);
    AutoConfigRespects(info, q);
    forall e | e in AutoConfig(info, q).events
      ensures !ListedIn(e.intf, info.exclude) && (!e.Removed? ==> !ListedIn(e.intf, info.deconfig))
    {
      NamedIsListed(info.exclude, e.intf);
      NamedIsListed(info.deconfig, e.intf);
    }
  }

  /** What one unconfigure does. */
  lemma DeconfigOneEffect(s: Sweep, i: Intf, valid: set<string>, fails: set<Intf>)
    ensures var r := DeconfigOne(s, i, valid, fails);
            && r.info.exclude == s.info.exclude && s.info.deconfig <= r.info.deconfig
            && (NoRepeats(s.info.deconfig) ==> NoRepeats(r.info.deconfig))
            && (r.saves == s.saves || r.saves == s.saves + [r.info])
            && (r.events == s.events
                || (r.events == s.events + [Removed(i)] && !Stays(i, s.info, valid)
                    && Read(i, "ADDR") in r.info.deconfig))
  {
  }

  lemma {:induction false} DeconfigAllEffect(info: Info, intfs: seq<Intf>, valid: set<string>, fails: set<Intf>)
    ensures var s := DeconfigAll(info, intfs, valid, fails);
            && s.info.exclude == info.exclude && info.deconfig <= s.info.deconfig
            && (NoRepeats(info.deconfig) ==> NoRepeats(s.info.deconfig))
            && (forall e :: e in s.events ==>
                  e.Removed? && Read(e.intf, "ADDR") in s.info.deconfig && !Named(info.exclude, e.intf))
  {
    if intfs != [] {
      var n := |intfs| - 1;
      DeconfigAllEffect(info, intfs[..n], valid, fails);
      var m := DeconfigAll(info, intfs[..n], valid, fails);
      DeconfigOneEffect(m, intfs[n], valid, fails);
      var s := DeconfigOne(m, intfs[n], valid, fails);
      forall y | y in m.info.deconfig ensures y in s.info.deconfig {
        assert s.info.deconfig == m.info.deconfig + s.info.deconfig[|m.info.deconfig|..];
      }
    }
  }

  predicate Reached(s: Sweep, i: Intf) {
    Read(i, "ADDR") in s.info.deconfig && Removed(i) in s.events
  }

  lemma DeconfigStepReaches(s: Sweep, last: Intf, valid: set<string>, fails: set<Intf>, i: Intf)
    requires !DeconfigOne(s, last, valid, fails).stopped && !Stays(i, s.info, valid)
    requires Reached(s, i) || i == last
    ensures !s.stopped && Reached(DeconfigOne(s, last, valid, fails), i)
  {
  }

  /** An unconfigure that runs to its end puts the address of every interface that may be unconfigured on the list. */
  lemma {:induction false} DeconfigReachesAll(
      info: Info, intfs: seq<Intf>, valid: set<string>, fails: set<Intf>, i: Intf)
    requires !DeconfigAll(info, intfs, valid, fails).stopped && i in intfs && Touchable(i, info.exclude, valid)
    ensures Read(i, "ADDR") in DeconfigAll(info, intfs, valid, fails).info.deconfig
    ensures Removed(i) in DeconfigAll(info, intfs, valid, fails).events
  {
    var n := |intfs| - 1;
    var front, last := intfs[..n], intfs[n];
    DeconfigAllEffect(info, front, valid, fails);
    var s := DeconfigAll(info, front, valid, fails);
    if i != last {
      assert i in front by {
        assert intfs == front + [last];
      }
      DeconfigReachesAll(info, front, valid, fails, i);
    }
    NamedIsListed(info.exclude, i);
    DeconfigStepReaches(s, last, valid, fails, i);
  }

  // ---- the files --------------------------------------------------------------------------------------

  /** The lists in their old place and in the cache directory; nobody looks at the times of these files. */
  datatype Files = Files(older: Stored<Info>, newer: Stored<Info>)

  const NO_LISTS := Info([], [])

  /** Whether `load_cache_11876` finds the lists: both files must exist, and the old one be copied and parsed. */
  predicate Loads(f: Files, copyOk: bool) {
    !f.newer.Absent? && f.older.Content? && copyOk
  }

  /** `get_vnic_info`: lists that cannot be loaded are taken to be empty. */
  function Load(f: Files, copyOk: bool): (Files, Info) {
    if f.newer.Absent? || f.older.Absent? || !copyOk then (f, NO_LISTS)
    else (Files(f.older, f.older), if f.older.Content? then f.older.value else NO_LISTS)
  }

  datatype Write = Write(older: Outcome, newer: Outcome)

  /** `save_vnic_info`, once for each of the first `k` versions; the k-th save meets the k-th write result. */
  function SaveFirst(f: Files, saves: seq<Info>, writes: seq<Write>, k: nat): Files
    requires k <= |saves|
  {
    if k == 0 then f
    else
      var g := SaveFirst(f, saves, writes, k - 1);
      var w := if k - 1 < |writes| then writes[k - 1] else Write(Written, Written);
      Files(Save(g.older, saves[k - 1], w.older, 0), Save(g.newer, saves[k - 1], w.newer, 0))
  }

  function SaveAll(f: Files, saves: seq<Info>, writes: seq<Write>): Files {
    SaveFirst(f, saves, writes, |saves|)
  }

  lemma {:induction false} SavedFirst(f: Files, saves: seq<Info>, writes: seq<Write>, k: nat)
    requires k <= |saves|
    ensures var g := SaveFirst(f, saves, writes, k).older;
            g.Content? ==> (f.older.Content? && g.value == f.older.value) || g.value in saves
  {
    if k > 0 {
      SavedFirst(f, saves, writes, k - 1);
    }
  }

  /** What the file holds in the end is one of the versions saved, or what it held before. */
  lemma {:induction false} SavedVersions(f: Files, saves: seq<Info>, writes: seq<Write>)
    ensures var g := SaveAll(f, saves, writes).older;
            g.Content? ==> (f.older.Content? && g.value == f.older.value) || g.value in saves
  {
    SavedFirst(f, saves, writes, |saves|);
  }

  /** Loading copies the file it reads over the other; a step that saves nothing does no more to either. */
  lemma QuietStepCopies(f: Files, step: Step)
    requires Perform(Load(f, step.copyOk).1, step.op).saves == []
    ensures After(f, step).older == f.older
    ensures After(f, step).newer ==
            if f.newer.Absent? || f.older.Absent? || !step.copyOk then f.newer else f.older
  {
  }

  /** What was saved last, with both writes done, is what the next load finds. */
  lemma {:induction false} SavedIsLoaded(f: Files, saves: seq<Info>, writes: seq<Write>)
    requires saves != []
    requires var n := |saves| - 1; n < |writes| ==> writes[n] == Write(Written, Written)
    ensures Load(SaveAll(f, saves, writes), true).1 == saves[|saves| - 1]
    ensures Loads(SaveAll(f, saves, writes), true)
  {
  }

  // ---- runs of operator and daemon ------------------------------------------------------------------

  datatype Op =
    | Exclude(item: string)
    | Include(item: string)
    | Auto(q: Request)
    | Deconfigure(intfs: seq<Intf>, valid: set<string>, fails: set<Intf>)

  /** Every command and every pass starts by loading the lists. */
  datatype Step = Step(op: Op, copyOk: bool, writes: seq<Write>)

  function Perform(info: Info, op: Op): Sweep {
    match op
    case Exclude(x) => Change(Start(info), info.(exclude := AddOnce(info.exclude, x)))
    case Include(x) => Change(Start(info), info.(exclude := Drop(info.exclude, x)))
    case Auto(q) => AutoConfig(info, q)
    case Deconfigure(intfs, valid, fails) => DeconfigAll(info, intfs, valid, fails)
  }

  function After(f: Files, step: Step): Files {
    var (g, info) := Load(f, step.copyOk);
    SaveAll(g, Perform(info, step.op).saves, step.writes)
  }

  /** The files after the first `k` steps. */
  function FilesAt(f: Files, steps: seq<Step>, k: nat): Files
    requires k <= |steps|
  {
    if k == 0 then f else After(FilesAt(f, steps, k - 1), steps[k - 1])
  }

  /** What happens at step k, from the files the steps before it left. */
  function At(f: Files, steps: seq<Step>, k: nat): Sweep
    requires k < |steps|
  {
    Perform(Load(FilesAt(f, steps, k), steps[k].copyOk).1, steps[k].op)
  }

  // ---- no repeats -----------------------------------------------------------------------------------------

  predicate Sound(info: Info) {
    NoRepeats(info.exclude) && NoRepeats(info.deconfig)
  }

  predicate AllSound(infos: seq<Info>) {
    forall k :: 0 <= k < |infos| ==> Sound(infos[k])
  }

  lemma {:induction false} ConfigureAllSound(info: Info, work: seq<Intf>, fails: set<Intf>)
    requires Sound(info)
    ensures Sound(ConfigureAll(info, work, fails).info) && AllSound(ConfigureAll(info, work, fails).saves)
  {
    if work != [] {
      var n := |work| - 1;
      ConfigureAllSound(info, work[..n], fails);
      ConfigureOneEffect(ConfigureAll(info, work[..n], fails), work[n], fails, "");
    }
  }

  lemma {:induction false} DeconfigAllSound(info: Info, intfs: seq<Intf>, valid: set<string>, fails: set<Intf>)
    requires Sound(info)
    ensures var s := DeconfigAll(info, intfs, valid, fails);
            Sound(s.info) && AllSound(s.saves)
  {
    if intfs != [] {
      var n := |intfs| - 1;
      DeconfigAllSound(info, intfs[..n], valid, fails);
      DeconfigOneEffect(DeconfigAll(info, intfs[..n], valid, fails), intfs[n], valid, fails);
    }
  }

  lemma PerformSound(info: Info, op: Op)
    requires Sound(info)
    ensures Sound(Perform(info, op).info) && AllSound(Perform(info, op).saves)
  {
    match op {
      case Exclude(x) =>
      case Include(x) => DropMembers(info.exclude, x);
      case Auto(q) => ConfigureAllSound(info, Classify(q.intfs, info, q).configure, q.fails);
      case Deconfigure(intfs, valid, fails) => DeconfigAllSound(info, intfs, valid, fails);
    }
  }

  /** Over any run, whatever fails, neither list on disk ever holds an item twice. */
  lemma {:induction false} ListsHaveNoRepeats(f: Files, steps: seq<Step>, k: nat)
    requires k <= |steps| && (f.older.Content? ==> Sound(f.older.value))
    ensures FilesAt(f, steps, k).older.Content? ==> Sound(FilesAt(f, steps, k).older.value)
  {
    if k > 0 {
      ListsHaveNoRepeats(f, steps, k - 1);
      AfterSound(FilesAt(f, steps, k - 1), steps[k - 1]);
    }
  }

  lemma {:induction false} AfterSound(f: Files, step: Step)
    requires f.older.Content? ==> Sound(f.older.value)
    ensures After(f, step).older.Content? ==> Sound(After(f, step).older.value)
  {
    var (g, info) := Load(f, step.copyOk);
    PerformSound(info, step.op);
    SavedVersions(g, Perform(info, step.op).saves, step.writes);
  }

  // ---- what stays on the lists ------------------------------------------------------------------------------

  /** An operator's configuration of address `a` that succeeded, in one command. */
  predicate Releases(info: Info, op: Op, a: string) {
    && op.Auto? && op.q.operator
    && exists e :: e in Perform(info, op).events && e.Configured? && Read(e.intf, "ADDR") == a
  }

  lemma ConfiguredEvents(info: Info, q: Request, a: string)
    ensures Configures(Classify(q.intfs, info, q).configure, q.fails, a) <==>
            exists e :: e in AutoConfig(info, q).events && e.Configured? && Read(e.intf, "ADDR") == a
  {
    var work := Classify(q.intfs, info, q).configure;
    ConfigureAllEvents(info, work, q.fails);
    var es, all := ConfigureAll(info, work, q.fails).events, AutoConfig(info, q).events;
    assert |es| == |work| && all[..|es|] == es;
    if k :| 0 <= k < |work| && work[k] !in q.fails && Read(work[k], "ADDR") == a {
      assert all[k] == Configured(work[k]);
    }
    if e :| e in all && e.Configured? && Read(e.intf, "ADDR") == a {
      var k :| 0 <= k < |all| && all[k] == e;
      assert k < |es| && es[k] == e;
      assert work[k] !in q.fails && Read(work[k], "ADDR") == a;
    }
  }

  /** An address leaves the deconfig list exactly when an operator's configuration of it succeeded. */
  lemma OnlyOperatorReleases(info: Info, op: Op, a: string)
    requires NoRepeats(info.deconfig) && a in info.deconfig
    ensures a !in Perform(info, op).info.deconfig <==> Releases(info, op, a)
  {
    match op {
      case Auto(q) =>
        ConfigureAllEffect(info, Classify(q.intfs, info, q).configure, q.fails, a);
        ConfiguredEvents(info, q, a);
        if !q.operator {
          DaemonRespectsLists(info, q);
        }
      case Deconfigure(intfs, valid, fails) => DeconfigAllKeeps(info, intfs, valid, fails, a);
      case _ =>
    }
  }

  predicate AllList(infos: seq<Info>, a: string) {
    forall k :: 0 <= k < |infos| ==> a in infos[k].deconfig
  }

  lemma {:induction false} ConfigureAllKeeps(info: Info, work: seq<Intf>, fails: set<Intf>, a: string)
    requires a in info.deconfig && forall k :: 0 <= k < |work| ==> work[k] in fails || Read(work[k], "ADDR") != a
    ensures a in ConfigureAll(info, work, fails).info.deconfig && AllList(ConfigureAll(info, work, fails).saves, a)
  {
    if work != [] {
      var n := |work| - 1;
      ConfigureAllKeeps(info, work[..n], fails, a);
      ConfigureOneEffect(ConfigureAll(info, work[..n], fails), work[n], fails, a);
    }
  }

  lemma {:induction false} DeconfigAllKeeps(
      info: Info, intfs: seq<Intf>, valid: set<string>, fails: set<Intf>, a: string)
    requires a in info.deconfig
    ensures var s := DeconfigAll(info, intfs, valid, fails);
            a in s.info.deconfig && AllList(s.saves, a)
  {
    if intfs != [] {
      var n := |intfs| - 1;
      DeconfigAllKeeps(info, intfs[..n], valid, fails, a);
      var m := DeconfigAll(info, intfs[..n], valid, fails);
      DeconfigOneEffect(m, intfs[n], valid, fails);
      var l := DeconfigOne(m, intfs[n], valid, fails).info.deconfig;
      assert l == m.info.deconfig + l[|m.info.deconfig|..];
    }
  }

  /** Without a release every version saved still lists the address. */
  lemma PerformKeeps(info: Info, op: Op, a: string)
    requires a in info.deconfig && !Releases(info, op, a)
    ensures AllList(Perform(info, op).saves, a)
  {
    match op {
      case Auto(q) =>
        if q.operator {
          var w := Classify(q.intfs, info, q);
          ConfigureAllEvents(info, w.configure, q.fails);
          var es := ConfigureAll(info, w.configure, q.fails).events;
          forall k | 0 <= k < |w.configure| ensures w.configure[k] in q.fails || Read(w.configure[k], "ADDR") != a {
            assert es[k] in Perform(info, op).events;
          }
          ConfigureAllKeeps(info, w.configure, q.fails, a);
        } else {
          DaemonRespectsLists(info, q);
        }
      case Deconfigure(intfs, valid, fails) => DeconfigAllKeeps(info, intfs, valid, fails, a);
      case _ =>
    }
  }

  predicate Lists(f: Files, a: string) {
    f.older.Content? && a in f.older.value.deconfig
  }

  predicate ReleasedAt(f: Files, steps: seq<Step>, k: nat, a: string)
    requires k < |steps|
  {
    Releases(Load(FilesAt(f, steps, k), steps[k].copyOk).1, steps[k].op, a)
  }

  /** Every step from `i` to `j` could load the lists. */
  predicate LoadsAt(f: Files, steps: seq<Step>, k: nat)
    requires k < |steps|
  {
    Loads(FilesAt(f, steps, k), steps[k].copyOk)
  }

  predicate LoadsAll(f: Files, steps: seq<Step>, i: nat, j: nat)
    requires j <= |steps|
  {
    forall k :: i <= k < j ==> LoadsAt(f, steps, k)
  }

  lemma AfterKeepsListed(f: Files, step: Step, a: string)
    requires Lists(f, a) && Loads(f, step.copyOk) && !Releases(Load(f, step.copyOk).1, step.op, a)
    ensures After(f, step).older.Content? ==> Lists(After(f, step), a)
  {
    var (g, info) := Load(f, step.copyOk);
    PerformKeeps(info, step.op, a);
    SavedVersions(g, Perform(info, step.op).saves, step.writes);
  }

  /** An address stays listed until an operator's configuration of it succeeds, as long as the lists can be loaded. */
  lemma {:induction false} StaysListed(f: Files, steps: seq<Step>, i: nat, j: nat, a: string)
    requires i <= j < |steps| && Lists(FilesAt(f, steps, i), a) && LoadsAll(f, steps, i, j + 1)
    requires forall k :: i <= k < j ==> !ReleasedAt(f, steps, k, a)
    ensures Lists(FilesAt(f, steps, j), a)
  {
    if i < j {
      StaysListed(f, steps, i, j - 1, a);
      assert !ReleasedAt(f, steps, j - 1, a);
      LoadsBoth(f, steps, i, j);
      AfterKeepsListed(FilesAt(f, steps, j - 1), steps[j - 1], a);
    }
  }

  lemma LoadsBoth(f: Files, steps: seq<Step>, i: nat, j: nat)
    requires i < j < |steps| && LoadsAll(f, steps, i, j + 1)
    ensures LoadsAt(f, steps, j - 1) && LoadsAt(f, steps, j)
  {
  }

  /** So until then no daemon pass configures or modifies an interface with that address. */
  lemma {:induction false} UnconfiguredIsLeftAlone(f: Files, steps: seq<Step>, i: nat, j: nat, a: string, e: Event)
    requires i <= j < |steps| && Lists(FilesAt(f, steps, i), a) && LoadsAll(f, steps, i, j + 1)
    requires forall k :: i <= k < j ==> !ReleasedAt(f, steps, k, a)
    requires steps[j].op.Auto? && !steps[j].op.q.operator && e in At(f, steps, j).events && !e.Removed?
    ensures Read(e.intf, "ADDR") != a
  {
    StaysListed(f, steps, i, j, a);
    assert LoadsAt(f, steps, j);
    var info := Load(FilesAt(f, steps, j), steps[j].copyOk).1;
    DaemonRespectsLists(info, steps[j].op.q);
  }

  // ---- exactly what is touched --------------------------------------------------------------------------------

  predicate Permitted(i: Intf, info: Info, q: Request) {
    !ListedIn(i, info.exclude) && (q.operator || !ListedIn(i, info.deconfig))
  }

  predicate ToConfigure(i: Intf, info: Info, q: Request) {
    Permitted(i, info, q) && Read(i, "CONFSTATE") == "ADD"
  }

  predicate ToRemove(i: Intf, info: Info) {
    !ListedIn(i, info.exclude) && Read(i, "CONFSTATE") == "DELETE"
  }

  /** An address was asked for on the interface's VNIC. */
  predicate AskedFor(i: Intf, secIp: seq<(string, string)>) {
    exists k :: 0 <= k < |secIp| && secIp[k].1 == Read(i, "VNIC")
  }

  /** Addresses are missing, or asked for, or come with a new interface. */
  predicate ToAlter(i: Intf, info: Info, q: Request) {
    && Permitted(i, info, q)
    && (i.missing.Some? || AskedFor(i, q.secIp) || (Read(i, "CONFSTATE") == "ADD" && AddrsOf(i.secondary) != []))
  }

  /** The missing addresses with those asked for. */
  ghost predicate WithAsked(i: Intf, secIp: seq<(string, string)>, j: Intf) {
    && (j.missing.Some? <==> i.missing.Some? || AskedFor(i, secIp))
    && forall a :: a in AddrsOf(j.missing) <==> a in AddrsOf(i.missing) || (a, Read(i, "VNIC")) in secIp
  }

  /** The interface as the work rounds get it: a new one is given all its secondary addresses. */
  ghost predicate Prepared(i: Intf, j: Intf, info: Info, q: Request) {
    && j.text == i.text && j.secondary == i.secondary
    && (if ToConfigure(i, info, q) && AddrsOf(i.secondary) != [] then j.missing == i.secondary
        else WithAsked(i, q.secIp, j))
  }

  lemma {:induction false} AddMissingExactly(i: Intf, secIp: seq<(string, string)>)
    ensures WithAsked(i, secIp, AddMissing(i, secIp))
  {
    if secIp != [] {
      var n := |secIp| - 1;
      AddMissingExactly(i, secIp[..n]);
      assert secIp == secIp[..n] + [secIp[n]];
      AskedOneMore(i, secIp[..n], secIp[n]);
    }
  }

  lemma AskedOneMore(i: Intf, front: seq<(string, string)>, last: (string, string))
    ensures AskedFor(i, front + [last]) <==> AskedFor(i, front) || last.1 == Read(i, "VNIC")
  {
    var all := front + [last];
    assert all[|front|] == last;
    if k :| 0 <= k < |front| && front[k].1 == Read(i, "VNIC") {
      assert all[k] == front[k];
    }
  }

  lemma JudgeExactly(i: Intf, info: Info, q: Request)
    ensures var v := Judge(i, info, q);
            && (v.configure <==> ToConfigure(i, info, q))
            && (v.remove <==> ToRemove(i, info))
            && (v.alter <==> ToAlter(i, info, q))
            && (!ListedIn(i, info.exclude) ==> Prepared(i, v.intf, info, q))
  {
    NamedIsListed(info.exclude, i);
    NamedIsListed(info.deconfig, i);
    AddMissingKeeps(i, q.secIp);
    AddMissingExactly(i, q.secIp);
  }

  /** New interfaces are configured in the first round, others removed in the next, and addresses added in the last. */
  function Round(e: Event): nat {
    match e
    case Removed(_) => 1
    case Modified(_) => 2
    case _ => 0
  }

  predicate DueIn(i: Intf, info: Info, q: Request, round: nat) {
    match round
    case 0 => ToConfigure(i, info, q)
    case 1 => ToRemove(i, info)
    case _ => ToAlter(i, info, q)
  }

  function Worklist(w: Worklists, round: nat): seq<Intf> {
    match round
    case 0 => w.configure
    case 1 => w.remove
    case _ => w.alter
  }

  /** How many of the first `n` interfaces are due in the round. */
  function DueBefore(intfs: seq<Intf>, n: nat, info: Info, q: Request, round: nat): nat
    requires n <= |intfs|
  {
    if n == 0 then 0
    else DueBefore(intfs, n - 1, info, q, round) + (if DueIn(intfs[n - 1], info, q, round) then 1 else 0)
  }

  lemma WorkNext(intfs: seq<Intf>, n: nat, info: Info, q: Request, round: nat)
    requires n < |intfs|
    ensures Worklist(Classify(intfs[..n + 1], info, q), round) ==
            Worklist(Classify(intfs[..n], info, q), round) +
              (if DueIn(intfs[n], info, q, round) then [Judge(intfs[n], info, q).intf] else [])
  {
    assert intfs[..n + 1][..n] == intfs[..n];
    JudgeExactly(intfs[n], info, q);
  }

  /** The work list of a round, by the interfaces due in it. */
  function WorkOf(intfs: seq<Intf>, n: nat, info: Info, q: Request, round: nat): (r: seq<Intf>)
    requires n <= |intfs|
    ensures |r| == DueBefore(intfs, n, info, q, round)
  {
    if n == 0 then []
    else
      WorkOf(intfs, n - 1, info, q, round) +
        (if DueIn(intfs[n - 1], info, q, round) then [Judge(intfs[n - 1], info, q).intf] else [])
  }

  predicate WorkIs(intfs: seq<Intf>, info: Info, q: Request, round: nat, n: nat) {
    n <= |intfs| ==> Worklist(Classify(intfs[..n], info, q), round) == WorkOf(intfs, n, info, q, round)
  }

  lemma WorkIsNext(intfs: seq<Intf>, info: Info, q: Request, round: nat, n: nat)
    requires n < |intfs| && WorkIs(intfs, info, q, round, n)
    ensures WorkIs(intfs, info, q, round, n + 1)
  {
    WorkNext(intfs, n, info, q, round);
  }

  lemma {:induction false} WorkIsAll(intfs: seq<Intf>, info: Info, q: Request, round: nat)
    ensures Worklist(Classify(intfs, info, q), round) == WorkOf(intfs, |intfs|, info, q, round)
  {
    var good := (n: nat) => WorkIs(intfs, info, q, round, n);
    forall n: nat | 0 <= n < |intfs| && good(n) ensures good(n + 1) {
      WorkIsNext(intfs, info, q, round, n);
    }
    Runs.KeptBetween(good, 0, |intfs|);
    assert WorkIs(intfs, info, q, round, |intfs|);
    assert intfs[..|intfs|] == intfs;
  }

  /** Interface `k` comes after those due before it. */
  lemma {:induction false} WorkItem(intfs: seq<Intf>, n: nat, info: Info, q: Request, round: nat, k: nat)
    requires k < n <= |intfs| && DueIn(intfs[k], info, q, round)
    ensures var (w, j) := (WorkOf(intfs, n, info, q, round), DueBefore(intfs, k, info, q, round));
            j < |w| && w[j] == Judge(intfs[k], info, q).intf
  {
    if k < n - 1 {
      WorkItem(intfs, n - 1, info, q, round, k);
    }
  }

  /** What an event says of the reported interface it comes from. */
  ghost predicate Due(e: Event, i: Intf, info: Info, q: Request) {
    && Prepared(i, e.intf, info, q)
    && match e
       case Configured(j) => ToConfigure(i, info, q) && j !in q.fails
       case ConfigFailed(j) => ToConfigure(i, info, q) && j in q.fails
       case Removed(_) => ToRemove(i, info)
       case Modified(_) => ToAlter(i, info, q)
  }

  /** The events of a round: one for each interface due, in the order of the report. */
  ghost predicate RoundDone(es: seq<Event>, info: Info, q: Request, round: nat) {
    && |es| == DueBefore(q.intfs, |q.intfs|, info, q, round)
    && forall k: nat :: k < |q.intfs| && DueIn(q.intfs[k], info, q, round) ==> DoneFor(es, info, q, round, k)
  }

  ghost predicate DoneFor(es: seq<Event>, info: Info, q: Request, round: nat, k: nat)
    requires k < |q.intfs|
  {
    var j := DueBefore(q.intfs, k, info, q, round);
    j < |es| && Round(es[j]) == round && Due(es[j], q.intfs[k], info, q)
  }

  function RoundEvents(info: Info, q: Request, round: nat): seq<Event> {
    var work := Worklist(Classify(q.intfs, info, q), round);
    if round == 0 then ConfigureAll(info, work, q.fails).events else EventsOf(work, round == 2)
  }

  lemma RoundEventsAre(info: Info, q: Request, round: nat)
    requires round < 3
    ensures var (work, es) := (Worklist(Classify(q.intfs, info, q), round), RoundEvents(info, q, round));
            && |es| == |work|
            && (forall a :: 0 <= a < |es| ==> es[a].intf == work[a] && Round(es[a]) == round)
            && (round == 0 ==> forall a :: 0 <= a < |es| ==> (es[a].ConfigFailed? <==> es[a].intf in q.fails))
  {
    ConfigureAllEvents(info, Worklist(Classify(q.intfs, info, q), 0), q.fails);
  }

  lemma RoundIsDone(info: Info, q: Request, round: nat)
    requires round < 3
    ensures RoundDone(RoundEvents(info, q, round), info, q, round)
  {
    var (n, es) := (|q.intfs|, RoundEvents(info, q, round));
    WorkIsAll(q.intfs, info, q, round);
    RoundEventsAre(info, q, round);
    forall k: nat | k < n && DueIn(q.intfs[k], info, q, round) ensures DoneFor(es, info, q, round, k) {
      WorkItem(q.intfs, n, info, q, round, k);
      DueWhenWanted(es[DueBefore(q.intfs, k, info, q, round)], q.intfs[k], info, q, round);
    }
  }

  lemma DueWhenWanted(e: Event, i: Intf, info: Info, q: Request, round: nat)
    requires DueIn(i, info, q, round) && e.intf == Judge(i, info, q).intf && Round(e) == round
    requires round == 0 ==> (e.ConfigFailed? <==> e.intf in q.fails)
    ensures Due(e, i, info, q)
  {
    JudgeExactly(i, info, q);
  }

  /**
   Everything that is due is done and nothing else: first new interfaces are configured, then
   those in state DELETE removed, then addresses added, each round in the order of the report.
   */
  lemma AutoConfigInOrder(info: Info, q: Request) returns (first: seq<Event>, second: seq<Event>, third: seq<Event>)
    ensures AutoConfig(info, q).events == first + second + third
    ensures RoundDone(first, info, q, 0) && RoundDone(second, info, q, 1) && RoundDone(third, info, q, 2)
  {
    RoundIsDone(info, q, 0);
    RoundIsDone(info, q, 1);
    RoundIsDone(info, q, 2);
    first, second, third := RoundEvents(info, q, 0), RoundEvents(info, q, 1), RoundEvents(info, q, 2);
  }

  /** The j-th event of a round is about the interface due after j others. */
  lemma {:induction false} DueAt(q: Request, n: nat, info: Info, round: nat, j: nat) returns (k: nat)
    requires n <= |q.intfs| && j < DueBefore(q.intfs, n, info, q, round)
    ensures k < n && DueIn(q.intfs[k], info, q, round) && DueBefore(q.intfs, k, info, q, round) == j
  {
    if DueIn(q.intfs[n - 1], info, q, round) && j == DueBefore(q.intfs, n - 1, info, q, round) {
      k := n - 1;
    } else {
      k := DueAt(q, n - 1, info, round, j);
    }
  }

  /** Nothing is touched but what is due. */
  lemma OnlyWhatIsDue(info: Info, q: Request, e: Event) returns (k: nat)
    requires e in AutoConfig(info, q).events
    ensures k < |q.intfs| && Due(e, q.intfs[k], info, q)
  {
    var first, second, third := AutoConfigInOrder(info, q);
    var (round, es) := if e in first then (0, first) else if e in second then (1, second) else (2, third);
    var j :| 0 <= j < |es| && es[j] == e;
    k := DueAt(q, |q.intfs|, info, round, j);
    assert DoneFor(es, info, q, round, k);
  }

  /** An unconfigure may touch it: a valid address, not the primary, configured, and not excluded. */
  predicate Touchable(i: Intf, exclude: seq<string>, valid: set<string>) {
    && "ADDR" in i.text && i.text["ADDR"] in valid && "IS_PRIMARY" !in i.text
    && Read(i, "CONFSTATE") != "ADD" && !ListedIn(i, exclude)
  }

  /** Interface `k` is reached and taken down: it may be touched, and nothing up to it that may be failed. */
  ghost predicate TakenDown(intfs: seq<Intf>, exclude: seq<string>, valid: set<string>, fails: set<Intf>, k: int) {
    && 0 <= k < |intfs| && Touchable(intfs[k], exclude, valid)
    && forall x :: 0 <= x <= k && Touchable(intfs[x], exclude, valid) ==> intfs[x] !in fails
  }

  lemma TakenDownPrefix(
      front: seq<Intf>, last: Intf, exclude: seq<string>, valid: set<string>, fails: set<Intf>, k: int)
    requires k < |front|
    ensures TakenDown(front + [last], exclude, valid, fails, k) <==> TakenDown(front, exclude, valid, fails, k)
  {
    var all := front + [last];
    forall x | 0 <= x < |front| ensures all[x] == front[x] {}
  }

  ghost predicate SomeFails(intfs: seq<Intf>, exclude: seq<string>, valid: set<string>, fails: set<Intf>) {
    exists x :: 0 <= x < |intfs| && Touchable(intfs[x], exclude, valid) && intfs[x] in fails
  }

  lemma SomeFailsOneMore(
      front: seq<Intf>, last: Intf, exclude: seq<string>, valid: set<string>, fails: set<Intf>)
    ensures SomeFails(front + [last], exclude, valid, fails) <==>
            SomeFails(front, exclude, valid, fails) || (Touchable(last, exclude, valid) && last in fails)
  {
    var all := front + [last];
    assert all[|front|] == last;
    if x :| 0 <= x < |front| && Touchable(front[x], exclude, valid) && front[x] in fails {
      assert all[x] == front[x];
    }
  }

  /** An unconfigure stops exactly when something it may touch fails. */
  lemma {:induction false} DeconfigStops(info: Info, intfs: seq<Intf>, valid: set<string>, fails: set<Intf>)
    ensures var s := DeconfigAll(info, intfs, valid, fails);
            s.info.exclude == info.exclude && (s.stopped <==> SomeFails(intfs, info.exclude, valid, fails))
  {
    if intfs != [] {
      var (front, last) := (intfs[..|intfs| - 1], intfs[|intfs| - 1]);
      DeconfigStops(info, front, valid, fails);
      SomeFailsOneMore(front, last, info.exclude, valid, fails);
      NamedIsListed(info.exclude, last);
      DeconfigOneEffect(DeconfigAll(info, front, valid, fails), last, valid, fails);
      assert intfs == front + [last];
    }
  }

  ghost predicate DownAs(
      e: Event, intfs: seq<Intf>, exclude: seq<string>, valid: set<string>, fails: set<Intf>)
  {
    exists k :: TakenDown(intfs, exclude, valid, fails, k) && e == Removed(intfs[k])
  }

  lemma DownAsOneMore(
      e: Event, front: seq<Intf>, last: Intf, exclude: seq<string>, valid: set<string>, fails: set<Intf>)
    ensures DownAs(e, front + [last], exclude, valid, fails) <==>
            || DownAs(e, front, exclude, valid, fails)
            || (e == Removed(last) && Touchable(last, exclude, valid)
                && !SomeFails(front + [last], exclude, valid, fails))
  {
    var (all, n) := (front + [last], |front|);
    assert all[n] == last;
    assert TakenDown(all, exclude, valid, fails, n) <==>
           Touchable(last, exclude, valid) && !SomeFails(all, exclude, valid, fails);
    forall k | 0 <= k < n
      ensures all[k] == front[k]
      ensures TakenDown(all, exclude, valid, fails, k) <==> TakenDown(front, exclude, valid, fails, k)
    {
      TakenDownPrefix(front, last, exclude, valid, fails, k);
    }
  }

  lemma DeconfigOneEvents(s: Sweep, i: Intf, valid: set<string>, fails: set<Intf>, e: Event)
    ensures e in DeconfigOne(s, i, valid, fails).events <==>
            || e in s.events
            || (e == Removed(i) && !s.stopped && Touchable(i, s.info.exclude, valid) && i !in fails)
  {
    NamedIsListed(s.info.exclude, i);
  }

  ghost predicate DownSoFar(
      info: Info, intfs: seq<Intf>, valid: set<string>, fails: set<Intf>, e: Event, k: nat)
    requires k <= |intfs|
  {
    e in DeconfigAll(info, intfs[..k], valid, fails).events <==> DownAs(e, intfs[..k], info.exclude, valid, fails)
  }

  lemma DownSoFarNext(
      info: Info, intfs: seq<Intf>, valid: set<string>, fails: set<Intf>, e: Event, k: nat)
    requires k < |intfs| && DownSoFar(info, intfs, valid, fails, e, k)
    ensures DownSoFar(info, intfs, valid, fails, e, k + 1)
  {
    var (front, last, more) := (intfs[..k], intfs[k], intfs[..k + 1]);
    assert front + [last] == more;
    DeconfigExactlyNext(info, front, last, valid, fails, e);
    assert DownAs(e, more, info.exclude, valid, fails) == DownAs(e, front + [last], info.exclude, valid, fails);
  }

  lemma {:induction false} DownUpTo(
      info: Info, intfs: seq<Intf>, valid: set<string>, fails: set<Intf>, e: Event, k: nat)
    requires k <= |intfs|
    ensures DownSoFar(info, intfs, valid, fails, e, k)
  {
    if k == 0 {
      assert intfs[..0] == [];
    } else {
      DownUpTo(info, intfs, valid, fails, e, k - 1);
      DownSoFarNext(info, intfs, valid, fails, e, k - 1);
    }
  }

  /** What an unconfigure takes down: exactly what it may touch, up to the first of them that fails. */
  lemma DeconfigExactly(
      info: Info, intfs: seq<Intf>, valid: set<string>, fails: set<Intf>, e: Event)
    ensures e in DeconfigAll(info, intfs, valid, fails).events <==> DownAs(e, intfs, info.exclude, valid, fails)
  {
    DownUpTo(info, intfs, valid, fails, e, |intfs|);
    assert intfs[..|intfs|] == intfs;
  }

  lemma {:induction false} DeconfigExactlyNext(
      info: Info, front: seq<Intf>, last: Intf, valid: set<string>, fails: set<Intf>, e: Event)
    requires e in DeconfigAll(info, front, valid, fails).events <==> DownAs(e, front, info.exclude, valid, fails)
    ensures e in DeconfigAll(info, front + [last], valid, fails).events <==>
            DownAs(e, front + [last], info.exclude, valid, fails)
  {
    DeconfigStops(info, front, valid, fails);
    DeconfigOneEvents(DeconfigAll(info, front, valid, fails), last, valid, fails, e);
    SomeFailsOneMore(front, last, info.exclude, valid, fails);
    DownAsOneMore(e, front, last, info.exclude, valid, fails);
    assert (front + [last])[..|front|] == front;
  }

  // ---- when the lists cannot be loaded ---------------------------------------------------------------------

  /** Whether a pass tries to configure the interface. */
  predicate Tried(events: seq<Event>, i: Intf) {
    exists e :: e in events && (e.Configured? || e.ConfigFailed?) && e.intf.text == i.text
  }

  /**
   A daemon pass configures an interface that its deconfig list on disk names
   exactly when it cannot load the lists, which it then takes to be empty.
   */
  lemma FailedLoadReconfigures(f: Files, q: Request, copyOk: bool, i: Intf)
    requires !q.operator && i in q.intfs && Read(i, "CONFSTATE") == "ADD"
    requires f.older.Content? && ListedIn(i, f.older.value.deconfig)
    ensures Tried(Perform(Load(f, copyOk).1, Auto(q)).events, i) <==> !Loads(f, copyOk)
  {
    var info := Load(f, copyOk).1;
    if Loads(f, copyOk) {
      forall e | e in AutoConfig(info, q).events && e.intf.text == i.text
        ensures ListedIn(e.intf, info.deconfig) == ListedIn(i, info.deconfig)
      {
      }
      DaemonRespectsLists(info, q);
    } else {
      AutoConfigForgetsNone(info, q, i);
    }
  }

  predicate RemovedAddress(events: seq<Event>, a: string) {
    exists k :: 0 <= k < |events| && events[k].Removed? && Read(events[k].intf, "ADDR") == a
  }

  /** From empty lists a configuration has nothing to take off them. */
  lemma {:induction false} ConfigureFromNothing(work: seq<Intf>, fails: set<Intf>)
    ensures ConfigureAll(NO_LISTS, work, fails).info == NO_LISTS && ConfigureAll(NO_LISTS, work, fails).saves == []
  {
    if work != [] {
      ConfigureFromNothing(work[..|work| - 1], fails);
    }
  }

  /** From empty lists an unconfigure lists the addresses it removes, and nothing else. */
  lemma {:induction false} DeconfigFromNothing(intfs: seq<Intf>, valid: set<string>, fails: set<Intf>)
    ensures OnlyRemoved(DeconfigAll(NO_LISTS, intfs, valid, fails))
  {
    if intfs != [] {
      var n := |intfs| - 1;
      DeconfigFromNothing(intfs[..n], valid, fails);
      OnlyRemovedStep(DeconfigAll(NO_LISTS, intfs[..n], valid, fails), intfs[n], valid, fails);
    }
  }

  ghost predicate OnlyRemoved(s: Sweep) {
    && s.info.exclude == []
    && (forall a :: a in s.info.deconfig <==> RemovedAddress(s.events, a))
    && (s.saves == [] <==> s.events == [])
    && (s.saves == [] ==> s.info == NO_LISTS)
    && (s.saves != [] ==> s.saves[|s.saves| - 1] == s.info)
  }

  lemma OnlyRemovedStep(s: Sweep, i: Intf, valid: set<string>, fails: set<Intf>)
    requires OnlyRemoved(s)
    ensures OnlyRemoved(DeconfigOne(s, i, valid, fails))
  {
    var r, n := DeconfigOne(s, i, valid, fails), |s.events|;
    if r.events != s.events {
      forall a ensures RemovedAddress(r.events, a) <==> RemovedAddress(s.events, a) || a == Read(i, "ADDR") {
        assert r.events[n] == Removed(i);
        assert forall k :: 0 <= k < n ==> r.events[k] == s.events[k];
      }
    }
  }

  /** The write of the last version saved to the old file. */
  function LastWrite(step: Step, n: nat): Outcome
    requires n > 0
  {
    if n - 1 < |step.writes| then step.writes[n - 1].older else Written
  }

  lemma LastSave(f: Files, saves: seq<Info>, step: Step)
    requires saves != [] && LastWrite(step, |saves|) == Written
    ensures SaveAll(f, saves, step.writes).older == Content(0, saves[|saves| - 1])
  {
  }

  /**
   A command that could not load the lists and saves its own change leaves only
   that change on disk, whatever both lists held: the item it excluded, or the
   addresses it unconfigured.  Including and configuring save nothing then.
   */
  lemma {:induction false} FailedLoadForgets(f: Files, step: Step)
    requires !Loads(f, step.copyOk)
    ensures var s := Perform(NO_LISTS, step.op);
            && (s.saves == [] <==> !step.op.Exclude? && (step.op.Deconfigure? ==> s.events == []))
            && (s.saves != [] && LastWrite(step, |s.saves|) == Written ==>
                  && After(f, step).older == Content(0, s.info)
                  && (step.op.Exclude? ==> s.info == Info([step.op.item], []))
                  && (step.op.Deconfigure? ==>
                        && s.info.exclude == []
                        && forall a :: a in s.info.deconfig <==> RemovedAddress(s.events, a)))
  {
    var s := Perform(NO_LISTS, step.op);
    SavedFromNothing(step.op);
    if s.saves != [] && LastWrite(step, |s.saves|) == Written {
      LastSave(Load(f, step.copyOk).0, s.saves, step);
    }
  }

  lemma {:induction false} SavedFromNothing(op: Op)
    ensures var s := Perform(NO_LISTS, op);
            && (s.saves == [] <==> !op.Exclude? && (op.Deconfigure? ==> s.events == []))
            && (s.saves != [] ==> s.saves[|s.saves| - 1] == s.info)
            && (op.Exclude? ==> s.info == Info([op.item], []))
            && (op.Deconfigure? ==> OnlyRemoved(s))
  {
    match op {
      case Exclude(x) => assert AddOnce(NO_LISTS.exclude, x) == [x];
      case Include(x) =>
      case Auto(q) => ConfigureFromNothing(Classify(q.intfs, NO_LISTS, q).configure, q.fails);
      case Deconfigure(intfs, valid, fails) => DeconfigFromNothing(intfs, valid, fails);
    }
  }

  // ---- the exclude list ---------------------------------------------------------------------------------------

  lemma {:induction false} ConfigureAllExcludes(info: Info, work: seq<Intf>, fails: set<Intf>)
    ensures forall k :: 0 <= k < |ConfigureAll(info, work, fails).saves| ==>
              ConfigureAll(info, work, fails).saves[k].exclude == info.exclude
    ensures ConfigureAll(info, work, fails).info.exclude == info.exclude
  {
    if work != [] {
      var n := |work| - 1;
      ConfigureAllExcludes(info, work[..n], fails);
      ConfigureOneEffect(ConfigureAll(info, work[..n], fails), work[n], fails, "");
    }
  }

  lemma {:induction false} DeconfigAllExcludes(info: Info, intfs: seq<Intf>, valid: set<string>, fails: set<Intf>)
    ensures var s := DeconfigAll(info, intfs, valid, fails);
            s.info.exclude == info.exclude && forall k :: 0 <= k < |s.saves| ==> s.saves[k].exclude == info.exclude
  {
    if intfs != [] {
      var n := |intfs| - 1;
      DeconfigAllExcludes(info, intfs[..n], valid, fails);
      DeconfigOneEffect(DeconfigAll(info, intfs[..n], valid, fails), intfs[n], valid, fails);
    }
  }

  /** Nothing but including it takes an item off the exclude list, in any version saved. */
  lemma ExcludedUnlessIncluded(info: Info, op: Op, x: string)
    requires x in info.exclude && op != Include(x)
    ensures x in Perform(info, op).info.exclude
    ensures forall k :: 0 <= k < |Perform(info, op).saves| ==> x in Perform(info, op).saves[k].exclude
  {
    match op {
      case Exclude(y) =>
      case Include(y) => DropMembers(info.exclude, y);
      case Auto(q) => ConfigureAllExcludes(info, Classify(q.intfs, info, q).configure, q.fails);
      case Deconfigure(intfs, valid, fails) => DeconfigAllExcludes(info, intfs, valid, fails);
    }
  }

  /** An item leaves the exclude list exactly by being included. */
  lemma OnlyIncludeReleases(info: Info, op: Op, x: string)
    requires NoRepeats(info.exclude) && x in info.exclude
    ensures x !in Perform(info, op).info.exclude <==> op == Include(x)
  {
    if op == Include(x) {
      DropMembers(info.exclude, x);
    } else {
      ExcludedUnlessIncluded(info, op, x);
    }
  }

  predicate Excludes(f: Files, x: string) {
    f.older.Content? && x in f.older.value.exclude
  }

  lemma AfterKeepsExcluded(f: Files, step: Step, x: string)
    requires Excludes(f, x) && Loads(f, step.copyOk) && step.op != Include(x)
    ensures After(f, step).older.Content? ==> Excludes(After(f, step), x)
  {
    var (g, info) := Load(f, step.copyOk);
    ExcludedUnlessIncluded(info, step.op, x);
    SavedVersions(g, Perform(info, step.op).saves, step.writes);
  }

  predicate IncludedAt(steps: seq<Step>, k: nat, x: string)
    requires k < |steps|
  {
    steps[k].op == Include(x)
  }

  lemma ExcludedOneMore(f: Files, steps: seq<Step>, k: nat, x: string)
    requires k < |steps| && Excludes(FilesAt(f, steps, k), x) && !IncludedAt(steps, k, x)
    requires LoadsAt(f, steps, k) && FilesAt(f, steps, k + 1).older.Content?
    ensures Excludes(FilesAt(f, steps, k + 1), x)
  {
    AfterKeepsExcluded(FilesAt(f, steps, k), steps[k], x);
  }

  lemma {:induction false} StaysExcluded(f: Files, steps: seq<Step>, i: nat, j: nat, x: string)
    requires i <= j < |steps| && Excludes(FilesAt(f, steps, i), x) && LoadsAll(f, steps, i, j + 1)
    requires forall k :: i <= k < j ==> !IncludedAt(steps, k, x)
    ensures Excludes(FilesAt(f, steps, j), x)
  {
    if i < j {
      StaysExcluded(f, steps, i, j - 1, x);
      LoadsBoth(f, steps, i, j);
      ExcludedOneMore(f, steps, j - 1, x);
    }
  }

  /** Until it is included again, neither operator nor daemon touches an interface that an excluded item names. */
  lemma {:induction false} ExcludedIsLeftAlone(f: Files, steps: seq<Step>, i: nat, j: nat, x: string, e: Event)
    requires i <= j < |steps| && Excludes(FilesAt(f, steps, i), x) && LoadsAll(f, steps, i, j + 1)
    requires forall k :: i <= k < j ==> !IncludedAt(steps, k, x)
    requires e in At(f, steps, j).events
    ensures x != Read(e.intf, "IFACE") && x != Read(e.intf, "VNIC") && x != Read(e.intf, "ADDR")
  {
    StaysExcluded(f, steps, i, j, x);
    assert LoadsAt(f, steps, j);
    var info := Load(FilesAt(f, steps, j), steps[j].copyOk).1;
    match steps[j].op {
      case Auto(q) => AutoConfigRespects(info, q);
      case Deconfigure(intfs, valid, fails) => DeconfigAllEffect(info, intfs, valid, fails);
      case _ =>
    }
    assert !Named(info.exclude, e.intf);
    var k :| 0 <= k < |info.exclude| && info.exclude[k] == x;
  }
}
