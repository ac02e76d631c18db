/**
 The ignore list over whole runs of the block-volume worker: who gets off it,
 how fast the clean-up empties it, and what a failed write of it does.
 */
module IgnoreRuns {
  import opened StoredFiles
  import opened Wrappers
  import opened IscsiPass
  import opened IscsiRuns
  import opened IgnoreCleanup

  /** The list in memory is not older than the file it came from, so it is not read again. */
  predicate Settled(st: State) {
    st.ctx.Running? && st.ctx.ignore != [] && st.ctx.ignoreTs.Some? ==>
      0 < st.ctx.ignoreTs.value && MTime(st.disk.oldIgnore) <= st.ctx.ignoreTs.value
  }

  /** Entries leave the list only by being detached, and the flag tells whether any did. */
  predicate KeepsIgnored(s: Sweep, r: Sweep, x: Iqn) {
    && (x in r.ignore ==> x in s.ignore)
    && (x in s.ignore && Detached(x) !in r.events ==> x in r.ignore)
    && s.events <= r.events
    && |r.ignore| <= |s.ignore|
    && (r.ignChanged <==> s.ignChanged || |r.ignore| < |s.ignore|)
    && (x in s.ignore && Detached(x) in r.events && Detached(x) !in s.events ==> |r.ignore| < |s.ignore|)
  }

  /** What one step does to the list: nothing, or one removal with its event. */
  lemma StepOnList(s: Sweep, dev: Device, volumes: seq<Volume>, cfg: Config)
    ensures var r := DetachOne(s, dev, volumes, cfg);
            || (r.ignore == s.ignore && r.events == s.events && r.ignChanged == s.ignChanged)
            || (r.ignore == RemoveFirst(s.ignore, dev.iqn) && r.events == s.events + [Detached(dev.iqn)]
                && r.ignChanged == (s.ignChanged || dev.iqn in s.ignore))
  {
  }

  lemma StepKeepsIgnored(s: Sweep, dev: Device, volumes: seq<Volume>, cfg: Config, x: Iqn)
    ensures KeepsIgnored(s, DetachOne(s, dev, volumes, cfg), x)
  {
    StepOnList(s, dev, volumes, cfg);
    RemoveFirstMembers(s.ignore, dev.iqn, x);
    RemoveFirstShorter(s.ignore, dev.iqn);
  }

  lemma KeepsIgnoredChain(s: Sweep, m: Sweep, r: Sweep, x: Iqn)
    requires KeepsIgnored(s, m, x) && KeepsIgnored(m, r, x)
    ensures KeepsIgnored(s, r, x)
  {
    if i :| 0 <= i < |m.events| && m.events[i] == Detached(x) {
      assert r.events[i] == Detached(x);
    }
  }

  /** The detach loop only takes detached volumes off the list. */
  lemma {:induction false} DetachKeepsIgnored(
      s: Sweep, session: seq<Device>, volumes: seq<Volume>, cfg: Config, x: Iqn)
    ensures KeepsIgnored(s, DetachAll(s, session, volumes, cfg), x)
  {
    if session != [] {
      var n := |session| - 1;
      var m := DetachAll(s, session[..n], volumes, cfg);
      DetachKeepsIgnored(s, session[..n], volumes, cfg, x);
      StepKeepsIgnored(m, session[n], volumes, cfg, x);
      KeepsIgnoredChain(s, m, DetachOne(m, session[n], volumes, cfg), x);
    }
  }

  /** The list from the start of a pass to the end of its detach loop. */
  lemma ScanIgnore(st: State, inp: Input, cfg: Config, x: Iqn)
    requires StartOf(st).ignoreTs.Some? && DiskOk(st.disk)
    ensures var (d, ts, s) := Scan(StartOf(st), st.disk, inp, cfg);
            var ignore := ListInUse(st, inp);
            && (x in s.ignore ==> x in ignore)
            && (x in ignore && Detached(x) !in s.events ==> x in s.ignore)
            && (ignore != [] ==> 0 < ts)
            && (0 < ts ==> MTime(st.disk.oldIgnore) <= ts)
            && d.oldIgnore == st.disk.oldIgnore
            && d.clock >= st.disk.clock
            && |s.ignore| <= |ignore|
            && (s.ignChanged <==> |s.ignore| < |ignore|)
  {
    var ctx := StartOf(st);
    var (d, ts, ignore) := Reload(ctx.ignoreTs.value, ctx.ignore, st.disk, inp.copyOk);
    var w0 := Early(d, LoadFailed(d.cache), inp);
    var w := AttachAll(w0, inp.volumes, inp.session, ignore);
    AttachClock(w0, inp.volumes, inp.session, ignore);
    DetachKeepsIgnored(StartSweep(ctx.offline, ignore, w, inp.session), inp.session, inp.volumes, cfg, x);
  }

  /** One pass and the ignore list, complete or not. */
  lemma PassIgnore(st: State, inp: Input, cfg: Config, x: Iqn)
    requires Settled(st) && DiskOk(st.disk)
    ensures var r := Pass(st, inp, cfg);
            && Settled(r.state)
            && (x in IgnoreOf(st.ctx) ==>
                  && (forall c :: Attached(x, c) !in r.events)
                  && (!Connected(inp.volumes, x) && Detached(x) !in r.events ==> x in IgnoreOf(r.state.ctx)))
  {
    var ctx := StartOf(st);
    if ctx.ignoreTs.Some? {
      AttachedExactly(st, inp, cfg, x);
      ScanIgnore(st, inp, cfg, x);
      var s := Scan(ctx, st.disk, inp, cfg).2;
      CleanMembers(s.ignore, 0, Iqns(inp.volumes), x);
    }
  }

  lemma {:induction false} AttachClock(w: Work, volumes: seq<Volume>, session: seq<Device>, ignore: seq<Iqn>)
    ensures AttachAll(w, volumes, session, ignore).clock >= w.clock
  {
    if volumes != [] {
      AttachClock(w, volumes[..|volumes| - 1], session, ignore);
    }
  }

  /** With no outside edit, an ignored volume is attached only after a pass that saw it connected or detached it. */
  lemma {:induction false} AttachedOnlyAfterRelease(run: seq<Snap>, cfg: Config, i: nat, j: nat, x: Iqn)
    requires IsRun(run, cfg) && IgnoreUntouched(run) && i < j < |run| && run[0].before.ctx == Fresh
    requires x in IgnoreOf(run[i].res.state.ctx)
    requires exists c :: Attached(x, c) in run[j].res.events
    ensures exists k :: i < k < j && (Connected(run[k].inp.volumes, x) || Detached(x) in run[k].res.events)
  {
    var k := 0;
    while k < j
      invariant k <= j && Settled(run[k].before)
      invariant k <= i || x in IgnoreOf(run[k].before.ctx)
                || exists q :: i < q < k && (Connected(run[q].inp.volumes, x) || Detached(x) in run[q].res.events)
    {
      PassIgnore(run[k].before, run[k].inp, cfg, x);
      k := k + 1;
      assert run[k].before.ctx == run[k - 1].res.state.ctx;
      assert run[k].before.disk.oldIgnore == run[k - 1].res.state.disk.oldIgnore;
    }
    PassIgnore(run[j].before, run[j].inp, cfg, x);
  }

  // ---- the list after the detach loop ------------------------------------------------------

  /** The list without the volumes the detach loop takes off. */
  function Undetached(l: seq<Iqn>, before: map<Iqn, int>, session: seq<Device>, cfg: Config): seq<Iqn> {
    if l == [] then []
    else
      var n := |l| - 1;
      Undetached(l[..n], before, session, cfg) + (if Reached(before, session, cfg, l[n]) then [] else [l[n]])
  }

  lemma {:induction false} UndetachedMembers(
      l: seq<Iqn>, before: map<Iqn, int>, session: seq<Device>, cfg: Config, x: Iqn)
    ensures x in Undetached(l, before, session, cfg) <==> x in l && !Reached(before, session, cfg, x)
    ensures NoRepeats(l) ==> NoRepeats(Undetached(l, before, session, cfg))
  {
    if l != [] {
      var n := |l| - 1;
      UndetachedMembers(l[..n], before, session, cfg, x);
      assert l == l[..n] + [l[n]];
      if NoRepeats(l) {
        UndetachedMembers(l[..n], before, session, cfg, l[n]);
      }
    }
  }

  lemma {:induction false} NobodyDetached(l: seq<Iqn>, before: map<Iqn, int>, cfg: Config)
    ensures Undetached(l, before, [], cfg) == l
  {
    if l != [] {
      NobodyDetached(l[..|l| - 1], before, cfg);
      assert l == l[..|l| - 1] + [l[|l| - 1]];
    }
  }

  lemma {:induction false} RemoveLast(l: seq<Iqn>, b: Iqn, x: Iqn)
    ensures RemoveFirst(l + [b], x) ==
            if x in l then RemoveFirst(l, x) + [b] else if b == x then l else l + [b]
  {
    if l == [] {
      assert [] + [b] == [b];
    } else {
      assert (l + [b])[1..] == l[1..] + [b];
      assert l == [l[0]] + l[1..];
      RemoveLast(l[1..], b, x);
    }
  }

  /** Filters of one list whose verdicts differ on `x` at most. */
  lemma OneMoreGone(front: seq<Iqn>, b: Iqn, x: Iqn, gone: bool)
    requires b == x ==> x !in front
    ensures b == x && gone ==> RemoveFirst(front + [b], x) == front && RemoveFirst(front, x) == front
    ensures b != x ==> RemoveFirst(front + [b], x) == RemoveFirst(front, x) + [b]
  {
    RemoveLast(front, b, x);
    RemoveFirstShorter(front, x);
  }

  /** One more device in the session takes at most its own volume off the list. */
  lemma {:induction false} UndetachedStep(l: seq<Iqn>, before: map<Iqn, int>, session: seq<Device>, cfg: Config)
    requires session != [] && NoRepeats(l)
    requires !Reached(before, session[..|session| - 1], cfg, session[|session| - 1].iqn)
    ensures var n := |session| - 1;
            var x := session[n].iqn;
            var front := Undetached(l, before, session[..n], cfg);
            Undetached(l, before, session, cfg) ==
            if Reached(before, session, cfg, x) then RemoveFirst(front, x) else front
  {
    if l != [] {
      var n, k := |session| - 1, |l| - 1;
      var x, last := session[n].iqn, l[k];
      UndetachedStep(l[..k], before, session, cfg);
      SameVerdict(before, session, cfg, last);
      var front := Undetached(l[..k], before, session[..n], cfg);
      UndetachedMembers(l[..k], before, session[..n], cfg, x);
      assert last == x ==> x !in l[..k];
      OneMoreGone(front, last, x, Reached(before, session, cfg, x));
      assert front + [] == front && RemoveFirst(front, x) + [] == RemoveFirst(front, x);
    }
  }

  lemma SameVerdict(before: map<Iqn, int>, session: seq<Device>, cfg: Config, y: Iqn)
    requires session != []
    ensures var n := |session| - 1;
            y != session[n].iqn ==> (Reached(before, session, cfg, y) <==> Reached(before, session[..n], cfg, y))
  {
    ReachedPrefix(before, session, cfg, y);
  }

  lemma {:induction false} SweepLeaves(s: Sweep, session: seq<Device>, volumes: seq<Volume>, cfg: Config)
    requires IsDict(session) && !s.aborted && s.after == map[] && NoRepeats(s.ignore)
    requires forall x :: Detached(x) !in s.events
    ensures DetachAll(s, session, volumes, cfg).ignore == Undetached(s.ignore, s.before, session, cfg)
  {
    if session == [] {
      NobodyDetached(s.ignore, s.before, cfg);
    } else {
      var n := |session| - 1;
      var dev, m := session[n], DetachAll(s, session[..n], volumes, cfg);
      SweepLeaves(s, session[..n], volumes, cfg);
      NotReachedBefore(s.before, session, cfg);
      UndetachedStep(s.ignore, s.before, session, cfg);
      SweepDetaches(s, session[..n], volumes, cfg, dev.iqn);
      SweepDetaches(s, session, volumes, cfg, dev.iqn);
      StepTakesOff(m, dev, volumes, cfg);
    }
  }

  lemma StepTakesOff(s: Sweep, dev: Device, volumes: seq<Volume>, cfg: Config)
    requires Detached(dev.iqn) !in s.events
    ensures var r := DetachOne(s, dev, volumes, cfg);
            r.ignore == if Detached(dev.iqn) in r.events then RemoveFirst(s.ignore, dev.iqn) else s.ignore
  {
    StepOnList(s, dev, volumes, cfg);
  }

  /** After the detach loop, complete or not, the list is the one in use less the volumes detached. */
  lemma ScanLeaves(st: State, inp: Input, cfg: Config)
    requires StartOf(st).ignoreTs.Some? && IsDict(inp.session) && NoRepeats(ListInUse(st, inp))
    ensures Scan(StartOf(st), st.disk, inp, cfg).2.ignore
         == Undetached(ListInUse(st, inp), OfflineOf(st.ctx), inp.session, cfg)
  {
    var ctx := StartOf(st);
    var (d, ts, ignore) := Reload(ctx.ignoreTs.value, ctx.ignore, st.disk, inp.copyOk);
    var w0 := Early(d, LoadFailed(d.cache), inp);
    var w := AttachAll(w0, inp.volumes, inp.session, ignore);
    AttachEffect(w0, inp.volumes, inp.session, ignore, "");
    SweepLeaves(StartSweep(ctx.offline, ignore, w, inp.session), inp.session, inp.volumes, cfg);
  }

  // ---- how fast the clean-up empties the list ------------------------------------------------

  lemma {:induction false} DetachCounts(
      s: Sweep, session: seq<Device>, volumes: seq<Volume>, cfg: Config, conn: set<Iqn>)
    ensures CountIn(DetachAll(s, session, volumes, cfg).ignore, conn) <= CountIn(s.ignore, conn)
  {
    if session != [] {
      var n := |session| - 1;
      var m := DetachAll(s, session[..n], volumes, cfg);
      DetachCounts(s, session[..n], volumes, cfg, conn);
      StepOnList(m, session[n], volumes, cfg);
      RemoveFirstShorter(m.ignore, session[n].iqn);
      if session[n].iqn in m.ignore {
        RemoveFirstCounts(m.ignore, session[n].iqn, conn);
      }
    }
  }

  function Pow2(n: nat): nat {
    if n == 0 then 1 else 2 * Pow2(n - 1)
  }

  /** Like Settled, for an empty list too. */
  predicate Current(st: State) {
    && st.ctx.Running? && st.ctx.ignoreTs.Some?
    && 0 < st.ctx.ignoreTs.value && MTime(st.disk.oldIgnore) <= st.ctx.ignoreTs.value
  }

  /** The pass has the list: it is in memory and not outdated, or it can be read. */
  predicate HasList(st: State, inp: Input) {
    var ctx := StartOf(st);
    ctx.ignoreTs.Some? && 0 < Reload(ctx.ignoreTs.value, ctx.ignore, st.disk, inp.copyOk).1
  }

  /** What a complete pass makes of the list: the clean-up of what the detach loop left; it is not read again. */
  lemma AfterPass(st: State, inp: Input, cfg: Config)
    requires HasList(st, inp) && DiskOk(st.disk) && Pass(st, inp, cfg).completed
    ensures var st' := Pass(st, inp, cfg).state;
            var left := Scan(StartOf(st), st.disk, inp, cfg).2.ignore;
            && st'.ctx.Running? && st'.ctx.ignore == CleanFrom(left, 0, Iqns(inp.volumes))
            && (st'.ctx.ignoreTs.Some? ==> Current(st') && forall inp' :: ListInUse(st', inp') == st'.ctx.ignore)
            && (st'.ctx.ignoreTs == None <==>
                  |st'.ctx.ignore| < |ListInUse(st, inp)| && inp.newIgnoreWrite != Written)
  {
    ScanIgnore(st, inp, cfg, "");
  }

  /** A complete pass that still has a timestamp is current again, and at least halves the connected entries. */
  lemma PassHalves(st: State, inp: Input, cfg: Config)
    requires HasList(st, inp) && DiskOk(st.disk) && Pass(st, inp, cfg).completed
    ensures 2 * CountIn(IgnoreOf(Pass(st, inp, cfg).state.ctx), Iqns(inp.volumes))
            <= CountIn(ListInUse(st, inp), Iqns(inp.volumes))
    ensures Pass(st, inp, cfg).state.ctx.ignoreTs.Some? ==> Current(Pass(st, inp, cfg).state)
  {
    var ctx := StartOf(st);
    var conn := Iqns(inp.volumes);
    var (d, ts, ignore) := Reload(ctx.ignoreTs.value, ctx.ignore, st.disk, inp.copyOk);
    var w := AttachAll(Early(d, LoadFailed(d.cache), inp), inp.volumes, inp.session, ignore);
    DetachCounts(StartSweep(ctx.offline, ignore, w, inp.session), inp.session, inp.volumes, cfg, conn);
    CleanHalves(Scan(ctx, st.disk, inp, cfg).2.ignore, conn);
    AfterPass(st, inp, cfg);
  }

  /** While the instance keeps the same volumes, `n` complete passes leave at most count / 2^n connected entries. */
  lemma {:induction false} CleanupIsLogarithmic(run: seq<Snap>, cfg: Config, conn: set<Iqn>, n: nat)
    requires IsRun(run, cfg) && IgnoreUntouched(run) && 0 < n <= |run| && HasList(run[0].before, run[0].inp)
    requires forall i :: 0 <= i < |run| ==> run[i].res.completed && Iqns(run[i].inp.volumes) == conn
    ensures Pow2(n) * CountIn(IgnoreOf(run[n - 1].res.state.ctx), conn)
            <= CountIn(ListInUse(run[0].before, run[0].inp), conn)
    ensures HasList(run[n - 1].before, run[n - 1].inp)
  {
    var p := run[n - 1];
    if n > 1 {
      var q := run[n - 2];
      CleanupIsLogarithmic(run, cfg, conn, n - 1);
      assert p.before.ctx == q.res.state.ctx && p.before.disk.oldIgnore == q.res.state.disk.oldIgnore;
      PassHalves(q.before, q.inp, cfg);
      assert StartOf(p.before).ignoreTs.Some?;
      assert Current(p.before) && ListInUse(p.before, p.inp) == p.before.ctx.ignore;
      PassHalves(p.before, p.inp, cfg);
      DoubleScale(Pow2(n - 1), CountIn(IgnoreOf(p.res.state.ctx), conn), CountIn(p.before.ctx.ignore, conn));
    } else {
      PassHalves(p.before, p.inp, cfg);
      assert Pow2(1) == 2;
    }
  }

  lemma DoubleScale(k: nat, a: nat, b: nat)
    requires 2 * a <= b
    ensures (2 * k) * a <= k * b
  {
    assert k * (2 * a) <= k * b;
  }

  lemma NothingLeft(k: nat, a: nat, b: nat)
    requires k * a <= b < k
    ensures a == 0
  {
    AtLeast(k, a);
  }

  lemma AtLeast(k: nat, a: nat)
    ensures a > 0 ==> k <= k * a
  {
    if a > 0 {
      assert k * a == k + k * (a - 1);
    }
  }

  /** So after log2(count) + 1 such passes no connected volume is left on the list. */
  lemma {:induction false} CleanupFinishes(run: seq<Snap>, cfg: Config, conn: set<Iqn>, n: nat, x: Iqn)
    requires IsRun(run, cfg) && IgnoreUntouched(run) && 0 < n <= |run| && HasList(run[0].before, run[0].inp)
    requires forall i :: 0 <= i < |run| ==> run[i].res.completed && Iqns(run[i].inp.volumes) == conn
    requires CountIn(ListInUse(run[0].before, run[0].inp), conn) < Pow2(n)
    ensures x in IgnoreOf(run[n - 1].res.state.ctx) ==> x !in conn
  {
    var left := IgnoreOf(run[n - 1].res.state.ctx);
    CleanupIsLogarithmic(run, cfg, conn, n);
    NothingLeft(Pow2(n), CountIn(left, conn), CountIn(ListInUse(run[0].before, run[0].inp), conn));
    NoneIn(left, conn);
  }

  // ---- results that contradict the stated purpose -----------------------------------------------

  /**
   The list is there so that the daemon leaves manually detached volumes alone.
   But the clean-up drops a volume because it is still connected.  On a list
   without repeats the volume at index `p`, after the detach loop, is attached
   by the next pass exactly when it was dropped - an even number of connected
   entries directly before it - and the list could be saved, and nothing else
   keeps the next pass from attaching it.
   */
  lemma IgnoredVolumeIsReattached(st: State, inp: Input, inp': Input, cfg: Config, p: nat)
    requires DiskOk(st.disk) && IsDict(inp.session) && NoRepeats(ListInUse(st, inp))
    requires Pass(st, inp, cfg).completed
    requires p < |Undetached(ListInUse(st, inp), OfflineOf(st.ctx), inp.session, cfg)|
    ensures var l := Undetached(ListInUse(st, inp), OfflineOf(st.ctx), inp.session, cfg);
            var x, st' := l[p], Pass(st, inp, cfg).state;
            && (forall c :: Attached(x, c) !in Pass(st, inp, cfg).events)
            && ((exists c :: Attached(x, c) in Pass(st', inp', cfg).events) <==>
                  && Connected(inp.volumes, x) && RunBefore(l, 0, p, Iqns(inp.volumes)) % 2 == 0
                  && inp.newIgnoreWrite == Written
                  && Connected(inp'.volumes, x) && !InSession(inp'.session, x) && x !in LoadFailed(st'.disk.cache))
  {
    var l := Undetached(ListInUse(st, inp), OfflineOf(st.ctx), inp.session, cfg);
    var x, st' := l[p], Pass(st, inp, cfg).state;
    UndetachedMembers(ListInUse(st, inp), OfflineOf(st.ctx), inp.session, cfg, x);
    AttachedExactly(st, inp, cfg, x);
    ScanLeaves(st, inp, cfg);
    ScanIgnore(st, inp, cfg, x);
    AfterPass(st, inp, cfg);
    CleanExactly(l, p, Iqns(inp.volumes));
    if st'.ctx.ignoreTs.Some? {
      AttachedExactly(st', inp', cfg, x);
    }
    SurvivesOrShorter(l, x, Iqns(inp.volumes));
  }

  lemma SurvivesOrShorter(l: seq<Iqn>, x: Iqn, conn: set<Iqn>)
    requires x in l
    ensures x in CleanFrom(l, 0, conn) || |CleanFrom(l, 0, conn)| < |l|
  {
    CleanShortens(l, 0, conn);
    CleanMembers(l, 0, conn, x);
  }

  /** An entry the detach loop takes off was detached by it. */
  lemma {:induction false} ShorterMeansDetached(
      s: Sweep, session: seq<Device>, volumes: seq<Volume>, cfg: Config) returns (x: Iqn)
    requires |DetachAll(s, session, volumes, cfg).ignore| < |s.ignore|
    ensures x in s.ignore && Detached(x) in DetachAll(s, session, volumes, cfg).events
  {
    var n := |session| - 1;
    var m := DetachAll(s, session[..n], volumes, cfg);
    StepOnList(m, session[n], volumes, cfg);
    if |m.ignore| < |s.ignore| {
      x := ShorterMeansDetached(s, session[..n], volumes, cfg);
      StepKeepsIgnored(m, session[n], volumes, cfg, x);
    } else {
      x := session[n].iqn;
      RemoveFirstShorter(m.ignore, x);
      DetachKeepsIgnored(s, session[..n], volumes, cfg, x);
    }
  }

  /** The list gets shorter exactly when it holds a volume that is connected, or reached by the detach loop. */
  lemma ListShortens(st: State, inp: Input, cfg: Config)
    requires Pass(st, inp, cfg).completed && IsDict(inp.session) && DiskOk(st.disk)
    ensures |CleanFrom(Scan(StartOf(st), st.disk, inp, cfg).2.ignore, 0, Iqns(inp.volumes))| < |ListInUse(st, inp)|
       <==> exists x :: x in ListInUse(st, inp)
                     && (Connected(inp.volumes, x) || Reached(OfflineOf(st.ctx), inp.session, cfg, x))
  {
    var ctx := StartOf(st);
    var (d, ts, ignore) := Reload(ctx.ignoreTs.value, ctx.ignore, st.disk, inp.copyOk);
    var w0 := Early(d, LoadFailed(d.cache), inp);
    var w := AttachAll(w0, inp.volumes, inp.session, ignore);
    var s := StartSweep(ctx.offline, ignore, w, inp.session);
    var left := DetachAll(s, inp.session, inp.volumes, cfg).ignore;
    AttachEffect(w0, inp.volumes, inp.session, ignore, "");
    CleanShortens(left, 0, Iqns(inp.volumes));
    if |left| < |ignore| {
      var x := ShorterMeansDetached(s, inp.session, inp.volumes, cfg);
      SweepDetaches(s, inp.session, inp.volumes, cfg, x);
    } else if k :| 0 <= k < |left| && left[k] in Iqns(inp.volumes) {
      DetachKeepsIgnored(s, inp.session, inp.volumes, cfg, left[k]);
    }
    if x :| x in ignore && (Connected(inp.volumes, x) || Reached(OfflineOf(st.ctx), inp.session, cfg, x)) {
      DetachKeepsIgnored(s, inp.session, inp.volumes, cfg, x);
      SweepDetaches(s, inp.session, inp.volumes, cfg, x);
      ListedOrShorter(s, inp.session, inp.volumes, cfg, x);
      if x in left {
        var k :| 0 <= k < |left| && left[k] == x;
      }
    }
  }

  lemma {:induction false} ListedOrShorter(
      s: Sweep, session: seq<Device>, volumes: seq<Volume>, cfg: Config, x: Iqn)
    requires x in s.ignore
    ensures var r := DetachAll(s, session, volumes, cfg);
            x in r.ignore || |r.ignore| < |s.ignore|
  {
    if session != [] {
      var n := |session| - 1;
      var m := DetachAll(s, session[..n], volumes, cfg);
      ListedOrShorter(s, session[..n], volumes, cfg, x);
      DetachKeepsIgnored(s, session[..n], volumes, cfg, x);
      StepOnList(m, session[n], volumes, cfg);
      RemoveFirstShorter(m.ignore, session[n].iqn);
    }
  }

  /** Offline, with the count used up and auto-detach on. */
  predicate Due(before: map<Iqn, int>, session: seq<Device>, cfg: Config, x: Iqn) {
    OfflineIn(session, x) && NextCount(Lookup(before, x), cfg) == None
  }

  /**
   When a complete pass leaves no timestamp: exactly when the list could not be
   written and held a volume that was connected, or offline and due for detaching.
   */
  lemma WedgeCause(st: State, inp: Input, cfg: Config)
    requires Pass(st, inp, cfg).completed && IsDict(inp.session) && DiskOk(st.disk)
    ensures Pass(st, inp, cfg).state.ctx.ignoreTs == None <==>
            && inp.newIgnoreWrite != Written
            && exists x :: x in ListInUse(st, inp) &&
                 (Connected(inp.volumes, x) || Due(OfflineOf(st.ctx), inp.session, cfg, x))
  {
    ListShortens(st, inp, cfg);
    ScanIgnore(st, inp, cfg, "");
    PassCompletes(st, inp, cfg);
    forall x
      ensures Reached(OfflineOf(st.ctx), inp.session, cfg, x) <==> Due(OfflineOf(st.ctx), inp.session, cfg, x)
    {
      CompleteReachesAll(OfflineOf(st.ctx), inp.session, cfg, x);
    }
  }

  /** From then on every pass raises before it looks at a volume: nothing is attached or detached again. */
  lemma {:induction false} WedgedForever(run: seq<Snap>, cfg: Config, i: nat, j: nat)
    requires IsRun(run, cfg) && i <= j < |run|
    requires run[i].before.ctx.Running? && run[i].before.ctx.ignoreTs == None
    ensures run[j].before.ctx == run[i].before.ctx
    ensures !run[j].res.completed && run[j].res.events == [] && run[j].res.state == run[j].before
  {
    if i < j {
      WedgedForever(run, cfg, i, j - 1);
    }
  }

  // ---- which list a pass obeys -------------------------------------------------------------------

  ghost predicate Recorded(disk: Disk, x: Iqn) {
    disk.cache.Content? && x in disk.cache.value
  }

  /**
   The pass acts by the list `l`: it attaches what is connected, not on `l`, not
   in its session and not recorded as failed, with the code the attach returned;
   and when it completes its own list is `l` less what was connected or detached
   - all of the rest, and nothing else.
   */
  ghost predicate Obeys(st: State, inp: Input, cfg: Config, l: seq<Iqn>) {
    var r := Pass(st, inp, cfg);
    && (forall x :: Attaches(r, x) <==>
          Connected(inp.volumes, x) && x !in l && !InSession(inp.session, x) && !Recorded(st.disk, x))
    && (forall x, c :: Attached(x, c) in r.events ==> HasCode(inp.volumes, x, c))
    && (r.completed ==> r.state.ctx.Running? && forall x :: KeepsEntry(r, inp, l, x))
  }

  ghost predicate Attaches(r: PassResult, x: Iqn) {
    exists c :: Attached(x, c) in r.events
  }

  ghost predicate KeepsEntry(r: PassResult, inp: Input, l: seq<Iqn>, x: Iqn)
    requires r.state.ctx.Running?
  {
    && (x in r.state.ctx.ignore ==> x in l)
    && (x in l && !Connected(inp.volumes, x) && Detached(x) !in r.events ==> x in r.state.ctx.ignore)
  }

  predicate HasCode(volumes: seq<Volume>, x: Iqn, c: int) {
    exists i :: 0 <= i < |volumes| && volumes[i].iqn == x && volumes[i].attachCode == c
  }

  lemma {:induction false} LoopCodes(w: Work, volumes: seq<Volume>, session: seq<Device>, ignore: seq<Iqn>)
    requires forall x, c :: Attached(x, c) !in w.events
    ensures forall x, c :: Attached(x, c) in AttachAll(w, volumes, session, ignore).events ==> HasCode(volumes, x, c)
  {
    if volumes != [] {
      var n := |volumes| - 1;
      LoopCodes(w, volumes[..n], session, ignore);
      forall x, c | HasCode(volumes[..n], x, c) ensures HasCode(volumes, x, c) {
        var i :| 0 <= i < n && volumes[..n][i].iqn == x && volumes[..n][i].attachCode == c;
        assert volumes[i] == volumes[..n][i];
      }
      assert HasCode(volumes, volumes[n].iqn, volumes[n].attachCode);
    }
  }

  lemma KeepsListInUse(st: State, inp: Input, cfg: Config, x: Iqn)
    requires Pass(st, inp, cfg).completed && DiskOk(st.disk)
    ensures Pass(st, inp, cfg).state.ctx.Running? && KeepsEntry(Pass(st, inp, cfg), inp, ListInUse(st, inp), x)
  {
    var s := Scan(StartOf(st), st.disk, inp, cfg).2;
    ScanIgnore(st, inp, cfg, x);
    CleanMembers(s.ignore, 0, Iqns(inp.volumes), x);
  }

  lemma CodesOfPass(st: State, inp: Input, cfg: Config)
    requires StartOf(st).ignoreTs.Some?
    ensures forall x, c :: Attached(x, c) in Pass(st, inp, cfg).events ==> HasCode(inp.volumes, x, c)
  {
    AttachesComeFromLoop(st, inp, cfg);
    LoopCodes(Early(st.disk, LoadFailed(st.disk.cache), inp), inp.volumes, inp.session, ListInUse(st, inp));
  }

  lemma AttachesByList(st: State, inp: Input, cfg: Config, x: Iqn)
    requires StartOf(st).ignoreTs.Some?
    ensures Attaches(Pass(st, inp, cfg), x) <==>
            && Connected(inp.volumes, x) && x !in ListInUse(st, inp)
            && !InSession(inp.session, x) && !Recorded(st.disk, x)
  {
    AttachedExactly(st, inp, cfg, x);
  }

  lemma ObeysListInUse(st: State, inp: Input, cfg: Config)
    requires StartOf(st).ignoreTs.Some? && DiskOk(st.disk)
    ensures Obeys(st, inp, cfg, ListInUse(st, inp))
  {
    var r, l := Pass(st, inp, cfg), ListInUse(st, inp);
    CodesOfPass(st, inp, cfg);
    forall x ensures Attaches(r, x) <==>
        Connected(inp.volumes, x) && x !in l && !InSession(inp.session, x) && !Recorded(st.disk, x)
    {
      AttachesByList(st, inp, cfg, x);
    }
    if r.completed {
      KeepsListInUse(st, inp, cfg, "");
      forall x ensures KeepsEntry(r, inp, l, x) {
        KeepsListInUse(st, inp, cfg, x);
      }
    }
  }

  /** The daemon has no list yet, or the file is newer than the list it has. */
  ghost predicate MustRead(st: State) {
    st.ctx.Running? && st.ctx.ignoreTs != Some(0) ==>
      st.ctx.ignoreTs.Some? && !st.disk.oldIgnore.Absent? && st.disk.oldIgnore.at > st.ctx.ignoreTs.value
  }

  /** A pass that must read the list, and can, acts by the list in the file. */
  lemma StoredListIsObeyed(st: State, inp: Input, cfg: Config, t: nat, l: seq<Iqn>)
    requires DiskOk(st.disk) && MustRead(st)
    requires inp.copyOk && !st.disk.newIgnore.Absent? && st.disk.oldIgnore == Content(t, l)
    ensures Obeys(st, inp, cfg, l)
  {
    ObeysListInUse(st, inp, cfg);
  }

  /** One that must read it and cannot acts as if nothing were ignored. */
  lemma UnreadableListIsEmpty(st: State, inp: Input, cfg: Config)
    requires DiskOk(st.disk) && MustRead(st)
    requires !inp.copyOk || st.disk.newIgnore.Absent? || !st.disk.oldIgnore.Content?
    ensures Obeys(st, inp, cfg, [])
  {
    ObeysListInUse(st, inp, cfg);
  }

  /** One that need not read it acts by the list it has, whatever is in the file. */
  lemma MemoryListIsObeyed(st: State, inp: Input, cfg: Config)
    requires DiskOk(st.disk) && st.ctx.Running? && st.ctx.ignoreTs.Some? && !MustRead(st)
    ensures Obeys(st, inp, cfg, st.ctx.ignore)
  {
    ObeysListInUse(st, inp, cfg);
  }

  ghost predicate SameMembers(a: seq<Iqn>, b: seq<Iqn>) {
    forall x :: x in a <==> x in b
  }

  /** What the pass writes: both files get the list it ends with if that is shorter; otherwise the old file stays. */
  lemma ShorterListIsSaved(st: State, inp: Input, cfg: Config)
    requires Pass(st, inp, cfg).completed && DiskOk(st.disk)
    ensures var (st', l) := (Pass(st, inp, cfg).state, ListInUse(st, inp));
            && (|st'.ctx.ignore| == |l| ==> st'.disk.oldIgnore == st.disk.oldIgnore)
            && (|st'.ctx.ignore| < |l| && inp.oldIgnoreWrite == Written ==>
                  st'.disk.oldIgnore.Content? && SameMembers(st'.disk.oldIgnore.value, st'.ctx.ignore))
            && (|st'.ctx.ignore| < |l| && inp.newIgnoreWrite == Written ==>
                  && st'.disk.newIgnore.Content? && SameMembers(st'.disk.newIgnore.value, st'.ctx.ignore)
                  && st'.ctx.ignoreTs == Some(st'.disk.newIgnore.at))
            && |st'.ctx.ignore| <= |l|
  {
    ScanIgnore(st, inp, cfg, "");
  }

  /** So a daemon started anew after such a pass acts by the same list. */
  lemma ListSurvivesRestart(st: State, inp: Input, inp': Input, cfg: Config)
    requires Pass(st, inp, cfg).completed && DiskOk(st.disk) && DiskOk(Pass(st, inp, cfg).state.disk)
    requires |Pass(st, inp, cfg).state.ctx.ignore| < |ListInUse(st, inp)|
    requires inp.oldIgnoreWrite == Written && inp.newIgnoreWrite == Written && inp'.copyOk
    ensures var st' := Pass(st, inp, cfg).state;
            && st'.disk.oldIgnore.Content? && SameMembers(st'.disk.oldIgnore.value, st'.ctx.ignore)
            && Obeys(State(Fresh, st'.disk), inp', cfg, st'.disk.oldIgnore.value)
  {
    var st' := Pass(st, inp, cfg).state;
    ShorterListIsSaved(st, inp, cfg);
    StoredListIsObeyed(State(Fresh, st'.disk), inp', cfg, st'.disk.oldIgnore.at, st'.disk.oldIgnore.value);
  }

  // ---- the files a pass leaves ------------------------------------------------------------------------

  /** Reading the list copies the old file over the new one; after that only saving a shorter list changes it. */
  lemma ReadingCopies(st: State, inp: Input, cfg: Config)
    requires DiskOk(st.disk) && MustRead(st) && StartOf(st).ignoreTs.Some?
    requires inp.copyOk && !st.disk.newIgnore.Absent? && !st.disk.oldIgnore.Absent?
    ensures var r := Pass(st, inp, cfg);
            !r.completed || |r.state.ctx.ignore| == |ListInUse(st, inp)| ==>
              if st.disk.oldIgnore.Content?
              then r.state.disk.newIgnore.Content? && r.state.disk.newIgnore.value == st.disk.oldIgnore.value
              else r.state.disk.newIgnore.Garbled?
  {
    ScanIgnore(st, inp, cfg, "");
  }

  lemma {:induction false} AttachesLeaveContent(
      w: Work, volumes: seq<Volume>, session: seq<Device>, ignore: seq<Iqn>)
    requires !w.cache.Garbled? && forall i :: 0 <= i < |volumes| ==> volumes[i].cacheWrite != Torn
    ensures !AttachAll(w, volumes, session, ignore).cache.Garbled?
  {
    if volumes != [] {
      AttachesLeaveContent(w, volumes[..|volumes| - 1], session, ignore);
    }
  }

  /** A complete pass leaves a cache file that can be read if its last write succeeds and no write was torn.
      Without volumes a pass that raises writes one too. */
  lemma CacheIsThere(st: State, inp: Input, cfg: Config)
    requires StartOf(st).ignoreTs.Some?
    ensures var r := Pass(st, inp, cfg);
            && (r.completed && inp.finalWrite == Written && NoTornWrite(inp) && !st.disk.cache.Garbled? ==>
                  r.state.disk.cache.Content?)
            && (!r.completed && inp.volumes == [] && inp.earlyWrite == Written ==>
                  r.state.disk.cache.Content? && r.state.disk.cache.value == LoadFailed(st.disk.cache))
  {
    if NoTornWrite(inp) && !st.disk.cache.Garbled? {
      var ctx := StartOf(st);
      var (d, _, ignore) := Reload(ctx.ignoreTs.value, ctx.ignore, st.disk, inp.copyOk);
      AttachesLeaveContent(Early(d, LoadFailed(d.cache), inp), inp.volumes, inp.session, ignore);
    }
  }

  /** The failure was there before, with its code, or comes from an attach of this pass that returned the code. */
  ghost predicate CodeKnown(w: map<Iqn, int>, volumes: seq<Volume>, x: Iqn, c: int) {
    (x in w && w[x] == c) || (c != 0 && HasCode(volumes, x, c))
  }

  lemma {:induction false} FailedCodes(
      w: Work, volumes: seq<Volume>, session: seq<Device>, ignore: seq<Iqn>, x: Iqn)
    ensures var f := AttachAll(w, volumes, session, ignore).failed;
            x in f ==> CodeKnown(w.failed, volumes, x, f[x])
  {
    if volumes != [] {
      var n := |volumes| - 1;
      FailedCodes(w, volumes[..n], session, ignore, x);
      forall c | HasCode(volumes[..n], x, c) ensures HasCode(volumes, x, c) {
        var i :| 0 <= i < n && volumes[..n][i].iqn == x && volumes[..n][i].attachCode == c;
        assert volumes[i] == volumes[..n][i];
      }
      assert HasCode(volumes, volumes[n].iqn, volumes[n].attachCode);
    }
  }

  lemma {:induction false} FailuresHaveCodes(st: State, inp: Input, cfg: Config, x: Iqn)
    requires x in Pass(st, inp, cfg).failed
    ensures CodeKnown(LoadFailed(st.disk.cache), inp.volumes, x, Pass(st, inp, cfg).failed[x])
  {
    var ctx := StartOf(st);
    if ctx.ignoreTs.Some? {
      var (d, ts, ignore) := Reload(ctx.ignoreTs.value, ctx.ignore, st.disk, inp.copyOk);
      var w0 := Early(d, LoadFailed(d.cache), inp);
      var w := AttachAll(w0, inp.volumes, inp.session, ignore);
      FailedCodes(w0, inp.volumes, inp.session, ignore, x);
      DetachLeavesFailures(StartSweep(ctx.offline, ignore, w, inp.session), inp.session, inp.volumes, cfg);
    }
  }
}
