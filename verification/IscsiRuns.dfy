/**
 What holds over whole runs of the block-volume worker: any number of passes,
 with arbitrary sessions, volumes and write results, and with other programs
 editing the files between two passes.
 */
module IscsiRuns {
  import opened StoredFiles
  import opened Wrappers
  import opened IscsiPass

  datatype Snap = Snap(before: State, inp: Input, res: PassResult)

  /** Only the files may change between two passes, and the clock never goes back. */
  predicate IsRun(run: seq<Snap>, cfg: Config) {
    && (forall i :: 0 <= i < |run| ==>
          && run[i].res == Pass(run[i].before, run[i].inp, cfg)
          && IsDict(run[i].inp.session)
          && DiskOk(run[i].before.disk))
    && (forall i :: 0 < i < |run| ==>
          && run[i].before.ctx == run[i - 1].res.state.ctx
          && run[i - 1].res.state.disk.clock <= run[i].before.disk.clock)
  }

  predicate DiskOk(d: Disk) {
    && MTime(d.oldIgnore) <= d.clock
    && MTime(d.newIgnore) <= d.clock
    && MTime(d.cache) <= d.clock
  }

  /** Nobody else writes the iscsiadm cache. */
  predicate CacheUntouched(run: seq<Snap>) {
    forall i :: 0 < i < |run| ==> run[i].before.disk.cache == run[i - 1].res.state.disk.cache
  }

  /** Nobody else writes the ignore list. */
  predicate IgnoreUntouched(run: seq<Snap>) {
    forall i :: 0 < i < |run| ==> run[i].before.disk.oldIgnore == run[i - 1].res.state.disk.oldIgnore
  }

  /** A name that ends in `boot:uefi`. */
  predicate EndsInBoot(x: Iqn) {
    |x| >= 9 && x[|x| - 9..] == "boot:uefi"
  }

  /** No boot device, and in one of the two states of a lost session. */
  predicate Lost(dev: Device) {
    !EndsInBoot(dev.iqn) && (dev.state == Some("blocked") || dev.state == Some("transport-offline"))
  }

  predicate OfflineIn(session: seq<Device>, x: Iqn) {
    exists i :: 0 <= i < |session| && session[i].iqn == x && Lost(session[i])
  }

  lemma LostIsOffline(dev: Device)
    ensures DeviceOffline(dev) <==> Lost(dev)
  {
    assert |BOOT| == 9;
  }

  function Lookup(m: map<Iqn, int>, x: Iqn): Option<int> {
    if x in m then Some(m[x]) else None
  }

  // ---- the detach loop, one iqn at a time -----------------------------------------

  /** The test that was meant to spare volumes the instance still lists never holds. */
  lemma VolumesNeverSpareADevice(iqn: Iqn, volumes: seq<Volume>)
    ensures !StringInVolumes(iqn, volumes)
  {
  }

  /** None means: detach now. */
  function NextCount(prev: Option<int>, cfg: Config): Option<int> {
    if prev.None? then Some(1)
    else if prev.value < cfg.detachRetry then Some(prev.value + 1)
    else if !cfg.autoDetach then Some(cfg.detachRetry + 1)
    else None
  }

  lemma {:induction false} OfflineInPrefix(session: seq<Device>, x: Iqn)
    requires session != []
    ensures var n := |session| - 1;
            OfflineIn(session, x) <==> OfflineIn(session[..n], x) || (session[n].iqn == x && Lost(session[n]))
  {
    var n := |session| - 1;
    if OfflineIn(session, x) {
      var i :| 0 <= i < |session| && session[i].iqn == x && Lost(session[i]);
      if i < n {
        assert session[..n][i] == session[i];
      }
    }
    if OfflineIn(session[..n], x) {
      var i :| 0 <= i < n && session[..n][i].iqn == x && Lost(session[..n][i]);
      assert session[i] == session[..n][i];
    }
  }

  predicate SameFor(s: Sweep, r: Sweep, x: Iqn) {
    && Lookup(r.after, x) == Lookup(s.after, x)
    && Lookup(r.before, x) == Lookup(s.before, x)
    && (Detached(x) in r.events <==> Detached(x) in s.events)
  }

  /** One step of the loop leaves other volumes, and every volume that is not offline, as they were. */
  lemma OtherStep(s: Sweep, dev: Device, volumes: seq<Volume>, cfg: Config, x: Iqn)
    requires dev.iqn != x || !Lost(dev)
    ensures SameFor(s, DetachOne(s, dev, volumes, cfg), x)
  {
  }

  /** One step of the loop on an offline volume. */
  lemma OwnStep(s: Sweep, dev: Device, volumes: seq<Volume>, cfg: Config)
    requires Lost(dev) && !DetachOne(s, dev, volumes, cfg).aborted
    ensures var (r, x) := (DetachOne(s, dev, volumes, cfg), dev.iqn);
            var next := NextCount(Lookup(s.before, x), cfg);
            if next.Some? then
              && Lookup(r.after, x) == next && Lookup(r.before, x) == Lookup(s.before, x)
              && (Detached(x) in r.events <==> Detached(x) in s.events)
            else
              Lookup(r.after, x) == Lookup(s.after, x) && Detached(x) in r.events
  {
    VolumesNeverSpareADevice(dev.iqn, volumes);
  }

  lemma {:induction false} DetachEffect(s: Sweep, session: seq<Device>, volumes: seq<Volume>, cfg: Config, x: Iqn)
    requires IsDict(session) && !DetachAll(s, session, volumes, cfg).aborted && s.after == map[]
    ensures var r := DetachAll(s, session, volumes, cfg);
            var due := OfflineIn(session, x) && NextCount(Lookup(s.before, x), cfg) == None;
            && Lookup(r.after, x) == (if OfflineIn(session, x) then NextCount(Lookup(s.before, x), cfg) else None)
            && (!due ==> Lookup(r.before, x) == Lookup(s.before, x))
            && (Detached(x) in r.events <==> Detached(x) in s.events || due)
  {
    if session != [] {
      var n := |session| - 1;
      OfflineInPrefix(session, x);
      var dev, m := session[n], DetachAll(s, session[..n], volumes, cfg);
      DetachEffect(s, session[..n], volumes, cfg, x);
      if dev.iqn == x && Lost(dev) {
        assert !OfflineIn(session[..n], x);
        OwnStep(m, dev, volumes, cfg);
      } else {
        OtherStep(m, dev, volumes, cfg, x);
      }
    }
  }

  /** The loop adds no attach. */
  lemma {:induction false} DetachEvents(s: Sweep, session: seq<Device>, volumes: seq<Volume>, cfg: Config)
    ensures var r := DetachAll(s, session, volumes, cfg);
            && s.events <= r.events
            && forall i :: |s.events| <= i < |r.events| ==> r.events[i].Detached?
  {
    if session != [] {
      DetachEvents(s, session[..|session| - 1], volumes, cfg);
    }
  }

  /** Due for detaching, without the persistent portal the detach needs. */
  predicate DueWithoutPortal(before: map<Iqn, int>, dev: Device, cfg: Config) {
    Lost(dev) && dev.portal == None && NextCount(Lookup(before, dev.iqn), cfg) == None
  }

  predicate SomeDueWithoutPortal(before: map<Iqn, int>, session: seq<Device>, cfg: Config) {
    exists i :: 0 <= i < |session| && DueWithoutPortal(before, session[i], cfg)
  }

  lemma DuePrefix(before: map<Iqn, int>, session: seq<Device>, cfg: Config)
    requires session != []
    ensures var n := |session| - 1;
            SomeDueWithoutPortal(before, session, cfg) <==>
            SomeDueWithoutPortal(before, session[..n], cfg) || DueWithoutPortal(before, session[n], cfg)
  {
    var n := |session| - 1;
    if i :| 0 <= i < n && DueWithoutPortal(before, session[..n][i], cfg) {
      assert DueWithoutPortal(before, session[i], cfg);
    }
    if i :| 0 <= i < |session| && DueWithoutPortal(before, session[i], cfg) {
      assert i < n ==> DueWithoutPortal(before, session[..n][i], cfg);
    }
  }

  lemma RaisingStep(s: Sweep, dev: Device, volumes: seq<Volume>, cfg: Config)
    ensures DetachOne(s, dev, volumes, cfg).aborted <==> s.aborted || DueWithoutPortal(s.before, dev, cfg)
  {
    VolumesNeverSpareADevice(dev.iqn, volumes);
  }

  /** The loop raises exactly when a device due for detaching has no persistent portal. */
  lemma {:induction false} DetachRaises(s: Sweep, session: seq<Device>, volumes: seq<Volume>, cfg: Config)
    requires IsDict(session) && !s.aborted && s.after == map[]
    ensures DetachAll(s, session, volumes, cfg).aborted <==> SomeDueWithoutPortal(s.before, session, cfg)
  {
    if session != [] {
      var n := |session| - 1;
      var dev, m := session[n], DetachAll(s, session[..n], volumes, cfg);
      DetachRaises(s, session[..n], volumes, cfg);
      DuePrefix(s.before, session, cfg);
      RaisingStep(m, dev, volumes, cfg);
      if !m.aborted {
        DetachEffect(s, session[..n], volumes, cfg, dev.iqn);
        assert !OfflineIn(session[..n], dev.iqn);
      }
    }
  }

  /** Found offline, and not behind a device whose detaching raises. */
  predicate InReach(before: map<Iqn, int>, session: seq<Device>, cfg: Config, x: Iqn) {
    exists i :: 0 <= i < |session| && session[i].iqn == x && Lost(session[i])
             && !SomeDueWithoutPortal(before, session[..i + 1], cfg)
  }

  /** Due for detaching, and reached before the loop raises. */
  predicate Reached(before: map<Iqn, int>, session: seq<Device>, cfg: Config, x: Iqn) {
    NextCount(Lookup(before, x), cfg) == None && InReach(before, session, cfg, x)
  }

  lemma ReachedPrefix(before: map<Iqn, int>, session: seq<Device>, cfg: Config, x: Iqn)
    requires session != []
    ensures var n := |session| - 1;
            Reached(before, session, cfg, x) <==>
            || Reached(before, session[..n], cfg, x)
            || (session[n].iqn == x && Lost(session[n]) && NextCount(Lookup(before, x), cfg) == None
                && !SomeDueWithoutPortal(before, session, cfg))
  {
    var n := |session| - 1;
    assert session[..n + 1] == session;
    forall i | 0 <= i < n ensures session[..n][i] == session[i] && session[..n][..i + 1] == session[..i + 1] {}
  }

  /** What a step does to the volumes it detaches, and to no others. */
  lemma StepDetaches(s: Sweep, dev: Device, volumes: seq<Volume>, cfg: Config, x: Iqn)
    ensures var r := DetachOne(s, dev, volumes, cfg);
            var now := !s.aborted && dev.iqn == x && Lost(dev) && dev.portal.Some?
                       && NextCount(Lookup(s.before, x), cfg) == None;
            && (Detached(x) in r.events <==> Detached(x) in s.events || now)
            && Lookup(r.before, x) == if now then None else Lookup(s.before, x)
  {
    VolumesNeverSpareADevice(dev.iqn, volumes);
  }

  /** Complete or not, the loop detaches exactly the due volumes it reaches, and forgets the counts of those only. */
  lemma {:induction false} SweepDetaches(s: Sweep, session: seq<Device>, volumes: seq<Volume>, cfg: Config, x: Iqn)
    requires IsDict(session) && !s.aborted && s.after == map[] && Detached(x) !in s.events
    ensures var r := DetachAll(s, session, volumes, cfg);
            && (Detached(x) in r.events <==> Reached(s.before, session, cfg, x))
            && Lookup(r.before, x) == if Detached(x) in r.events then None else Lookup(s.before, x)
  {
    if session != [] {
      var n := |session| - 1;
      var dev, m := session[n], DetachAll(s, session[..n], volumes, cfg);
      SweepDetaches(s, session[..n], volumes, cfg, x);
      StepDetaches(m, dev, volumes, cfg, x);
      ReachedPrefix(s.before, session, cfg, x);
      DetachRaises(s, session[..n], volumes, cfg);
      DuePrefix(s.before, session, cfg);
      if dev.iqn == x {
        NotReachedBefore(s.before, session, cfg);
      }
    }
  }

  lemma NotReachedBefore(before: map<Iqn, int>, session: seq<Device>, cfg: Config)
    requires IsDict(session) && session != []
    ensures var n := |session| - 1;
            !Reached(before, session[..n], cfg, session[n].iqn)
  {
  }

  /**
   Which passes complete: the ignore timestamp must be a number and every device
   due must have a portal.  The timestamp of the password file is not part of the model.
   */
  lemma PassCompletes(st: State, inp: Input, cfg: Config)
    requires IsDict(inp.session)
    ensures var before := if st.ctx.Fresh? then map[] else st.ctx.offline;
            Pass(st, inp, cfg).completed <==>
              && (st.ctx.Running? ==> st.ctx.ignoreTs.Some?)
              && !SomeDueWithoutPortal(before, inp.session, cfg)
  {
    var ctx := if st.ctx.Fresh? then FIRST else st.ctx;
    if ctx.ignoreTs.Some? {
      var (d, ts, ignore) := Reload(ctx.ignoreTs.value, ctx.ignore, st.disk, inp.copyOk);
      var w := AttachAll(Early(d, LoadFailed(d.cache), inp), inp.volumes, inp.session, ignore);
      DetachRaises(StartSweep(ctx.offline, ignore, w, inp.session), inp.session, inp.volumes, cfg);
    }
  }

  // ---- the attach loop ------------------------------------------------------------------

  /** What the attach loop may do with one iqn; `w` is the loop's starting point. */
  lemma {:induction false} AttachEffect(w: Work, volumes: seq<Volume>, session: seq<Device>, ignore: seq<Iqn>, x: Iqn)
    ensures var r := AttachAll(w, volumes, session, ignore);
            && w.events <= r.events
            && w.failed.Keys <= r.failed.Keys
            && (x in r.failed && x !in w.failed ==> !InSession(session, x))
            && (forall i :: |w.events| <= i < |r.events| ==> r.events[i].Attached?)
            && (forall i :: |w.events| <= i < |r.events| && r.events[i].iqn == x ==>
                  && x !in ignore && x !in w.failed && !InSession(session, x) && Connected(volumes, x)
                  && (r.events[i].code != 0 ==>
                        (x in r.failed && forall j :: i < j < |r.events| ==> r.events[j].iqn != x)))
            && (x !in w.failed && x in r.failed ==> r.changed)
            && (w.changed ==> r.changed)
            && (!r.changed ==> r.failed == w.failed)
  {
    if volumes != [] {
      var n := |volumes| - 1;
      AttachEffect(w, volumes[..n], session, ignore, x);
      VolumesPrefix(volumes, x);
    }
  }

  /** The cache file after the attach loop still lists every failure it listed, unless a write died half-way. */
  lemma {:induction false} AttachCache(w: Work, volumes: seq<Volume>, session: seq<Device>, ignore: seq<Iqn>)
    requires LoadFailed(w.cache).Keys <= w.failed.Keys
    requires forall i :: 0 <= i < |volumes| ==> volumes[i].cacheWrite != Torn
    ensures var r := AttachAll(w, volumes, session, ignore);
            && LoadFailed(w.cache).Keys <= LoadFailed(r.cache).Keys <= r.failed.Keys
            && (!r.changed && LoadFailed(w.cache) == w.failed ==> LoadFailed(r.cache) == r.failed)
            && r.clock >= w.clock && MTime(r.cache) <= r.clock + MTime(w.cache)
            && (w.cache.Content? ==> r.cache.Content?)
  {
    if volumes != [] {
      var n := |volumes| - 1;
      AttachCache(w, volumes[..n], session, ignore);
      AttachEffect(w, volumes[..n], session, ignore, "");
    }
  }

  // ---- one pass, as the runs see it --------------------------------------------------------

  function IgnoreOf(ctx: Context): seq<Iqn> {
    if ctx.Fresh? then [] else ctx.ignore
  }

  function OfflineOf(ctx: Context): map<Iqn, int> {
    if ctx.Fresh? then map[] else ctx.offline
  }

  predicate NoTornWrite(inp: Input) {
    && inp.earlyWrite != Torn && inp.finalWrite != Torn
    && forall i :: 0 <= i < |inp.volumes| ==> inp.volumes[i].cacheWrite != Torn
  }

  /** A pass, complete or not, detaches exactly the due volumes it reaches. */
  lemma PassDetaches(st: State, inp: Input, cfg: Config, x: Iqn)
    requires IsDict(inp.session)
    ensures var r := Pass(st, inp, cfg);
            && (Detached(x) in r.events <==>
                  StartOf(st).ignoreTs.Some? && Reached(OfflineOf(st.ctx), inp.session, cfg, x))
            && (!r.completed ==>
                  Lookup(OfflineOf(r.state.ctx), x) ==
                  if Detached(x) in r.events then None else Lookup(OfflineOf(st.ctx), x))
  {
    var ctx := StartOf(st);
    if ctx.ignoreTs.Some? {
      var (d, ts, ignore) := Reload(ctx.ignoreTs.value, ctx.ignore, st.disk, inp.copyOk);
      var w0 := Early(d, LoadFailed(d.cache), inp);
      var w := AttachAll(w0, inp.volumes, inp.session, ignore);
      AttachEffect(w0, inp.volumes, inp.session, ignore, x);
      SweepDetaches(StartSweep(ctx.offline, ignore, w, inp.session), inp.session, inp.volumes, cfg, x);
      FreshNeverRaises(st, inp, cfg);
    }
  }

  /** A daemon that has not yet counted anything has nothing due. */
  lemma FreshNeverRaises(st: State, inp: Input, cfg: Config)
    requires IsDict(inp.session)
    ensures st.ctx.Fresh? ==> Pass(st, inp, cfg).completed
  {
    PassCompletes(st, inp, cfg);
  }

  /** In a complete pass every due volume is reached. */
  lemma CompleteReachesAll(before: map<Iqn, int>, session: seq<Device>, cfg: Config, x: Iqn)
    requires !SomeDueWithoutPortal(before, session, cfg)
    ensures Reached(before, session, cfg, x) <==>
            OfflineIn(session, x) && NextCount(Lookup(before, x), cfg) == None
  {
    if OfflineIn(session, x) {
      var i :| 0 <= i < |session| && session[i].iqn == x && Lost(session[i]);
      var part := session[..i + 1];
      forall j | 0 <= j < |part| ensures !DueWithoutPortal(before, part[j], cfg) {
        assert part[j] == session[j];
      }
    }
  }

  /** One pass and the offline count of one iqn. */
  lemma PassCounts(st: State, inp: Input, cfg: Config, x: Iqn)
    requires IsDict(inp.session) && Pass(st, inp, cfg).completed
    ensures var r := Pass(st, inp, cfg);
            var next := NextCount(Lookup(OfflineOf(st.ctx), x), cfg);
            && r.state.ctx.Running?
            && Lookup(r.state.ctx.offline, x) == (if OfflineIn(inp.session, x) then next else None)
            && (Detached(x) in r.events <==> OfflineIn(inp.session, x) && next == None)
  {
    var ctx := StartOf(st);
    var (d, ts, ignore) := Reload(ctx.ignoreTs.value, ctx.ignore, st.disk, inp.copyOk);
    var w0 := Early(d, LoadFailed(d.cache), inp);
    var w := AttachAll(w0, inp.volumes, inp.session, ignore);
    AttachEffect(w0, inp.volumes, inp.session, ignore, x);
    DetachEffect(StartSweep(ctx.offline, ignore, w, inp.session), inp.session, inp.volumes, cfg, x);
  }

  // ---- what was meant to spare connected volumes ------------------------------------------

  /** Which volumes are detached does not depend on what the instance lists. */
  lemma ListingSparesNothing(st: State, inp: Input, inp': Input, cfg: Config, x: Iqn)
    requires IsDict(inp.session) && inp'.session == inp.session
    ensures Detached(x) in Pass(st, inp, cfg).events <==> Detached(x) in Pass(st, inp', cfg).events
  {
    PassDetaches(st, inp, cfg, x);
    PassDetaches(st, inp', cfg, x);
  }

  /** The boot device is never detached, in any pass, complete or not. */
  lemma BootNeverDetached(st: State, inp: Input, cfg: Config, x: Iqn)
    requires IsDict(inp.session) && EndsInBoot(x)
    ensures Detached(x) !in Pass(st, inp, cfg).events
  {
    PassDetaches(st, inp, cfg, x);
  }

  // ---- offline counters ----------------------------------------------------------------------

  function Max(a: int, b: int): int { if a >= b then a else b }
  function Min(a: int, b: int): int { if a <= b then a else b }

  /**
   Complete passes, up to pass `n`, that found `x` offline since it was last
   detached or found online; passes that raised do not look at every volume.
   */
  function Streak(run: seq<Snap>, n: nat, x: Iqn): nat
    requires n <= |run|
  {
    if n == 0 || Detached(x) in run[n - 1].res.events then 0
    else if !run[n - 1].res.completed then Streak(run, n - 1, x)
    else if !OfflineIn(run[n - 1].inp.session, x) then 0
    else Streak(run, n - 1, x) + 1
  }

  function Shown(k: nat, cfg: Config): int {
    if k == 1 then 1 else Min(k, cfg.detachRetry + 1)
  }

  function CountOf(k: nat, cfg: Config): Option<int> {
    if k == 0 then None else Some(Shown(k, cfg))
  }

  lemma NextCountOf(k: nat, cfg: Config)
    requires cfg.autoDetach ==> k <= Max(cfg.detachRetry, 1)
    ensures NextCount(CountOf(k, cfg), cfg) ==
            if cfg.autoDetach && k == Max(cfg.detachRetry, 1) then None else CountOf(k + 1, cfg)
  {
  }

  /** After `n` passes the counter of every iqn is its streak, capped; a zero streak has no counter. */
  lemma {:induction false} OfflineCounters(run: seq<Snap>, n: nat, cfg: Config, x: Iqn)
    requires IsRun(run, cfg) && n <= |run|
    requires |run| > 0 ==> run[0].before.ctx == Fresh
    ensures var offline := if n == 0 then map[] else OfflineOf(run[n - 1].res.state.ctx);
            Lookup(offline, x) == CountOf(Streak(run, n, x), cfg)
    ensures cfg.autoDetach ==> Streak(run, n, x) <= Max(cfg.detachRetry, 1)
  {
    if n > 0 {
      var p := run[n - 1];
      OfflineCounters(run, n - 1, cfg, x);
      assert n > 1 ==> p.before.ctx == run[n - 2].res.state.ctx;
      assert Lookup(OfflineOf(p.before.ctx), x) == CountOf(Streak(run, n - 1, x), cfg);
      NextCountOf(Streak(run, n - 1, x), cfg);
      if p.res.completed {
        PassCounts(p.before, p.inp, cfg, x);
      } else {
        PassDetaches(p.before, p.inp, cfg, x);
      }
    }
  }

  /**
   A volume is detached in pass `n` exactly when that is its offline pass number
   max(detach_retry, 1) + 1; in a pass that raises, if it comes before the raising device.
   */
  lemma {:induction false} DetachTiming(run: seq<Snap>, n: nat, cfg: Config, x: Iqn)
    requires IsRun(run, cfg) && n < |run| && run[0].before.ctx == Fresh
    ensures var full := cfg.autoDetach && Streak(run, n, x) == Max(cfg.detachRetry, 1);
            && (run[n].res.completed ==>
                  (Detached(x) in run[n].res.events <==> full && OfflineIn(run[n].inp.session, x)))
            && (!run[n].res.completed ==>
                  (Detached(x) in run[n].res.events <==>
                     && full && StartOf(run[n].before).ignoreTs.Some?
                     && InReach(OfflineOf(run[n].before.ctx), run[n].inp.session, cfg, x)))
  {
    var p := run[n];
    OfflineCounters(run, n, cfg, x);
    assert n > 0 ==> p.before.ctx == run[n - 1].res.state.ctx;
    assert Lookup(OfflineOf(p.before.ctx), x) == CountOf(Streak(run, n, x), cfg);
    NextCountOf(Streak(run, n, x), cfg);
    PassDetaches(p.before, p.inp, cfg, x);
    if p.res.completed {
      PassCounts(p.before, p.inp, cfg, x);
    }
  }

  // ---- a volume in use is detached ------------------------------------------------------------------

  /** The instance lists `x`, its session is offline, and every write succeeds. */
  function OfflineInput(x: Iqn, portal: string): Input {
    Input([Device(x, Some("blocked"), Some(portal))], [Volume(x, 0, Written)],
          true, Written, Written, Written, Written)
  }

  lemma OfflineInputIs(x: Iqn, portal: string)
    requires !EndsInBoot(x)
    ensures var inp := OfflineInput(x, portal);
            IsDict(inp.session) && OfflineIn(inp.session, x) && Connected(inp.volumes, x)
    ensures forall before, cfg :: !SomeDueWithoutPortal(before, OfflineInput(x, portal).session, cfg)
  {
    var inp := OfflineInput(x, portal);
    assert inp.volumes[0].iqn == x && inp.session[0].iqn == x;
  }

  predicate Timed(ctx: Context) {
    ctx.Running? ==> ctx.ignoreTs.Some?
  }

  lemma WrittenKeepsTime(st: State, inp: Input, cfg: Config)
    requires Pass(st, inp, cfg).completed && inp.newIgnoreWrite == Written
    ensures Pass(st, inp, cfg).state.ctx.Running? && Timed(Pass(st, inp, cfg).state.ctx)
  {
  }

  lemma OfflinePass(st: State, x: Iqn, portal: string, cfg: Config)
    requires !EndsInBoot(x) && Timed(st.ctx)
    ensures var r := Pass(st, OfflineInput(x, portal), cfg);
            r.completed && Timed(r.state.ctx)
  {
    OfflineInputIs(x, portal);
    PassCompletes(st, OfflineInput(x, portal), cfg);
    WrittenKeepsTime(st, OfflineInput(x, portal), cfg);
  }

  /** One pass more, from the files as somebody may have left them. */
  lemma RunGoesOn(run: seq<Snap>, snap: Snap, cfg: Config)
    requires IsRun(run, cfg) && snap.res == Pass(snap.before, snap.inp, cfg)
    requires IsDict(snap.inp.session) && DiskOk(snap.before.disk)
    requires run != [] ==> var last := run[|run| - 1].res.state;
                           snap.before.ctx == last.ctx && last.disk.clock <= snap.before.disk.clock
    ensures IsRun(run + [snap], cfg)
  {
    var (more, n) := (run + [snap], |run|);
    assert more[..n] == run && more[n] == snap;
    forall i | 0 <= i < |more|
      ensures more[i].res == Pass(more[i].before, more[i].inp, cfg)
      ensures IsDict(more[i].inp.session) && DiskOk(more[i].before.disk)
    {
      assert i < n ==> more[i] == run[i];
    }
    forall i | 0 < i < |more|
      ensures more[i].before.ctx == more[i - 1].res.state.ctx
      ensures more[i - 1].res.state.disk.clock <= more[i].before.disk.clock
    {
      assert more[i - 1] == run[i - 1];
      assert i < n ==> more[i] == run[i];
    }
  }

  predicate AllOffline(run: seq<Snap>, x: Iqn, portal: string) {
    forall i :: 0 <= i < |run| ==> run[i].inp == OfflineInput(x, portal) && run[i].res.completed
  }

  /** `k` such passes in a row from the start of the daemon. */
  lemma {:induction false} OfflineRun(x: Iqn, portal: string, cfg: Config, k: nat) returns (run: seq<Snap>)
    requires !EndsInBoot(x) && k > 0
    ensures |run| == k && IsRun(run, cfg) && run[0].before.ctx == Fresh && AllOffline(run, x, portal)
    ensures Timed(run[k - 1].res.state.ctx)
  {
    var inp, before, front := OfflineInput(x, portal), State(Fresh, Disk(0, Absent, Absent, Absent)), [];
    if k > 1 {
      front := OfflineRun(x, portal, cfg, k - 1);
      var last := front[k - 2].res.state;
      before := State(last.ctx, Disk(last.disk.clock, Absent, Absent, Absent));
    }
    var snap := Snap(before, inp, Pass(before, inp, cfg));
    OfflineInputIs(x, portal);
    OfflinePass(before, x, portal, cfg);
    RunGoesOn(front, snap, cfg);
    run := front + [snap];
  }

  lemma {:induction false} OfflineStreak(run: seq<Snap>, n: nat, cfg: Config, x: Iqn)
    requires IsRun(run, cfg) && n <= |run| && n <= Max(cfg.detachRetry, 1)
    requires |run| > 0 ==> run[0].before.ctx == Fresh
    requires forall i :: 0 <= i < |run| ==> run[i].res.completed && OfflineIn(run[i].inp.session, x)
    ensures Streak(run, n, x) == n
  {
    if n > 0 {
      OfflineStreak(run, n - 1, cfg, x);
      DetachTiming(run, n - 1, cfg, x);
    }
  }

  /** For every volume but a boot device, and every detach_retry: a run in which the instance lists it all along. */
  lemma {:induction false} ListedVolumeIsDetached(x: Iqn, retry: int, portal: string)
    returns (run: seq<Snap>, cfg: Config)
    requires !EndsInBoot(x)
    ensures cfg.detachRetry == retry && IsRun(run, cfg) && |run| > 0 && run[0].before.ctx == Fresh
    ensures forall i :: 0 <= i < |run| ==> run[i].res.completed && Connected(run[i].inp.volumes, x)
    ensures Detached(x) in run[|run| - 1].res.events
  {
    cfg := Config(true, retry);
    var n := Max(retry, 1);
    run := OfflineRun(x, portal, cfg, n + 1);
    OfflineInputIs(x, portal);
    OfflineStreak(run, n, cfg, x);
    DetachTiming(run, n, cfg, x);
  }

  function CompleteIn(run: seq<Snap>, from: nat, n: nat): nat
    requires from <= n <= |run|
  {
    if from == n then 0 else CompleteIn(run, from, n - 1) + (if run[n - 1].res.completed then 1 else 0)
  }

  /** A streak counts the complete passes from `from` on: all offline, none detaching, and none before them to count. */
  lemma {:induction false} StreakIsConsecutive(run: seq<Snap>, n: nat, x: Iqn) returns (from: nat)
    requires n <= |run|
    ensures from <= n && Streak(run, n, x) == CompleteIn(run, from, n)
    ensures forall i :: from <= i < n ==>
              Detached(x) !in run[i].res.events && (run[i].res.completed ==> OfflineIn(run[i].inp.session, x))
    ensures from > 0 ==>
              || Detached(x) in run[from - 1].res.events
              || (run[from - 1].res.completed && !OfflineIn(run[from - 1].inp.session, x))
  {
    if n == 0 {
      from := 0;
    } else {
      var p := run[n - 1];
      if Detached(x) in p.res.events || (p.res.completed && !OfflineIn(p.inp.session, x)) {
        from := n;
      } else {
        from := StreakIsConsecutive(run, n - 1, x);
      }
    }
  }

  // ---- attach failures -------------------------------------------------------------------------

  /** The loops of a pass, named for the lemmas below. */
  function StartOf(st: State): Context {
    if st.ctx.Fresh? then FIRST else st.ctx
  }

  function ListInUse(st: State, inp: Input): seq<Iqn> {
    var ctx := StartOf(st);
    if ctx.ignoreTs.None? then [] else Reload(ctx.ignoreTs.value, ctx.ignore, st.disk, inp.copyOk).2
  }

  lemma SessionPrefix(session: seq<Device>, x: Iqn)
    requires session != []
    ensures var n := |session| - 1;
            InSession(session, x) <==> InSession(session[..n], x) || session[n].iqn == x
  {
    var n := |session| - 1;
    if InSession(session[..n], x) {
      var i :| 0 <= i < n && session[..n][i].iqn == x;
      assert session[i].iqn == x;
    }
    if InSession(session, x) {
      var i :| 0 <= i < |session| && session[i].iqn == x;
      assert i < n ==> session[..n][i].iqn == x;
    }
  }

  lemma VolumesPrefix(volumes: seq<Volume>, x: Iqn)
    requires volumes != []
    ensures var n := |volumes| - 1;
            Connected(volumes, x) <==> Connected(volumes[..n], x) || volumes[n].iqn == x
  {
    var n := |volumes| - 1;
    if Connected(volumes[..n], x) {
      var i :| 0 <= i < n && volumes[..n][i].iqn == x;
      assert volumes[i].iqn == x;
    }
    if Connected(volumes, x) {
      var i :| 0 <= i < |volumes| && volumes[i].iqn == x;
      assert i < n ==> volumes[..n][i].iqn == x;
    }
  }

  /** Failures of volumes in the session are gone when the detach loop starts, so it deletes none. */
  lemma {:induction false} DetachLeavesFailures(s: Sweep, session: seq<Device>, volumes: seq<Volume>, cfg: Config)
    requires forall x :: x in s.failed ==> !InSession(session, x)
    ensures DetachAll(s, session, volumes, cfg).failed == s.failed
    ensures s.changed ==> DetachAll(s, session, volumes, cfg).changed
  {
    if session != [] {
      var n := |session| - 1;
      forall x | x in s.failed ensures !InSession(session[..n], x) {
        SessionPrefix(session, x);
      }
      DetachLeavesFailures(s, session[..n], volumes, cfg);
      var m := DetachAll(s, session[..n], volumes, cfg);
      assert InSession(session, session[n].iqn);
      assert session[n].iqn !in m.failed;
    }
  }

  /** At the end of a pass no recorded failure is in that pass's session. */
  lemma FailuresOutsideSession(st: State, inp: Input, cfg: Config, x: Iqn)
    ensures x in Pass(st, inp, cfg).failed ==> !InSession(inp.session, x)
  {
    var ctx := StartOf(st);
    if ctx.ignoreTs.Some? {
      var (d, ts, ignore) := Reload(ctx.ignoreTs.value, ctx.ignore, st.disk, inp.copyOk);
      var w := AttachAll(Early(d, LoadFailed(d.cache), inp), inp.volumes, inp.session, ignore);
      DetachLeavesFailures(StartSweep(ctx.offline, ignore, w, inp.session), inp.session, inp.volumes, cfg);
    }
  }

  /** The pass up to the detach loop: the failures it carries, and the cache it has left on disk. */
  lemma ScanFailures(ctx: Context, disk: Disk, inp: Input, cfg: Config)
    requires ctx.Running? && ctx.ignoreTs.Some? && NoTornWrite(inp)
    ensures var (d, ts, s) := Scan(ctx, disk, inp, cfg);
            var ignore := Reload(ctx.ignoreTs.value, ctx.ignore, disk, inp.copyOk).2;
            var w0 := Early(disk, LoadFailed(disk.cache), inp);
            var w := AttachAll(w0, inp.volumes, inp.session, ignore);
            && s.failed == DropSeen(w.failed, inp.session)
            && (forall x :: x in LoadFailed(disk.cache) && !InSession(inp.session, x) ==> x in LoadFailed(d.cache))
            && (forall x :: x in LoadFailed(d.cache) ==> x in w.failed)
            && (!s.changed ==> LoadFailed(d.cache) == s.failed)
  {
    var (d, ts, ignore) := Reload(ctx.ignoreTs.value, ctx.ignore, disk, inp.copyOk);
    var w1 := Early(d, LoadFailed(d.cache), inp);
    var w0 := Early(disk, LoadFailed(disk.cache), inp);
    AttachTimeFree(w0, w1, inp.volumes, inp.session, ignore);
    var w := AttachAll(w1, inp.volumes, inp.session, ignore);
    AttachCache(w1, inp.volumes, inp.session, ignore);
    AttachEffect(w1, inp.volumes, inp.session, ignore, "");
    DetachLeavesFailures(StartSweep(ctx.offline, ignore, w, inp.session), inp.session, inp.volumes, cfg);
  }

  /** The attach loop does not look at the clock. */
  lemma {:induction false} AttachTimeFree(
      a: Work, b: Work, volumes: seq<Volume>, session: seq<Device>, ignore: seq<Iqn>)
    requires a.failed == b.failed && a.events == b.events && a.changed == b.changed
    ensures var (r, q) := (AttachAll(a, volumes, session, ignore), AttachAll(b, volumes, session, ignore));
            r.failed == q.failed && r.events == q.events && r.changed == q.changed
  {
    if volumes != [] {
      AttachTimeFree(a, b, volumes[..|volumes| - 1], session, ignore);
    }
  }

  /** The next pass would load exactly the failures this pass holds in memory. */
  lemma CacheHoldsFailures(st: State, inp: Input, cfg: Config)
    requires Pass(st, inp, cfg).completed && NoTornWrite(inp) && inp.finalWrite == Written
    ensures LoadFailed(Pass(st, inp, cfg).state.disk.cache) == Pass(st, inp, cfg).failed
  {
    ScanFailures(StartOf(st), st.disk, inp, cfg);
  }

  /** A recorded failure outlives every pass, complete or not, whose session lacks the volume; it is not retried. */
  lemma FailureRemembered(st: State, inp: Input, cfg: Config, x: Iqn)
    requires NoTornWrite(inp) && x in LoadFailed(st.disk.cache) && !InSession(inp.session, x)
    ensures x in LoadFailed(Pass(st, inp, cfg).state.disk.cache)
    ensures forall c :: Attached(x, c) !in Pass(st, inp, cfg).events
  {
    var ctx := StartOf(st);
    if ctx.ignoreTs.Some? {
      ScanFailures(ctx, st.disk, inp, cfg);
      AttachedExactly(st, inp, cfg, x);
      var (d, ts, s) := Scan(ctx, st.disk, inp, cfg);
      var ignore := ListInUse(st, inp);
      AttachEffect(Early(st.disk, LoadFailed(st.disk.cache), inp), inp.volumes, inp.session, ignore, x);
    }
  }

  lemma OnlyDetachesAdded(a: seq<Event>, r: seq<Event>)
    requires a <= r && forall i :: |a| <= i < |r| ==> r[i].Detached?
    ensures forall x, c :: Attached(x, c) in r <==> Attached(x, c) in a
  {
    assert r == a + r[|a|..];
  }

  /** The attaches of a pass are those of its attach loop. */
  lemma AttachesComeFromLoop(st: State, inp: Input, cfg: Config)
    requires StartOf(st).ignoreTs.Some?
    ensures var w0 := Early(st.disk, LoadFailed(st.disk.cache), inp);
            var w := AttachAll(w0, inp.volumes, inp.session, ListInUse(st, inp));
            forall x, c :: Attached(x, c) in Pass(st, inp, cfg).events <==> Attached(x, c) in w.events
  {
    var ctx := StartOf(st);
    var (d, ts, ignore) := Reload(ctx.ignoreTs.value, ctx.ignore, st.disk, inp.copyOk);
    var w1 := Early(d, LoadFailed(d.cache), inp);
    AttachTimeFree(Early(st.disk, LoadFailed(st.disk.cache), inp), w1, inp.volumes, inp.session, ignore);
    var w := AttachAll(w1, inp.volumes, inp.session, ignore);
    DetachEvents(StartSweep(ctx.offline, ignore, w, inp.session), inp.session, inp.volumes, cfg);
    OnlyDetachesAdded(w.events, Pass(st, inp, cfg).events);
  }

  lemma LoopAttachesExactly(w: Work, volumes: seq<Volume>, session: seq<Device>, ignore: seq<Iqn>, x: Iqn)
    requires w.events == []
    ensures (exists c :: Attached(x, c) in AttachAll(w, volumes, session, ignore).events) <==>
            Connected(volumes, x) && x !in ignore && !InSession(session, x) && x !in w.failed
  {
    AttachEffect(w, volumes, session, ignore, x);
    var r := AttachAll(w, volumes, session, ignore);
    if c :| Attached(x, c) in r.events {
      var i :| 0 <= i < |r.events| && r.events[i] == Attached(x, c);
      assert r.events[i].iqn == x;
    }
    if Connected(volumes, x) && x !in ignore && !InSession(session, x) && x !in w.failed {
      AttachHappens(w, volumes, session, ignore, x);
    }
  }

  /** What a pass attaches: connected, not ignored, not in the session, not failed before. */
  lemma AttachedExactly(st: State, inp: Input, cfg: Config, x: Iqn)
    requires StartOf(st).ignoreTs.Some?
    ensures (exists c :: Attached(x, c) in Pass(st, inp, cfg).events) <==>
            && Connected(inp.volumes, x) && x !in ListInUse(st, inp)
            && !InSession(inp.session, x) && x !in LoadFailed(st.disk.cache)
  {
    AttachesComeFromLoop(st, inp, cfg);
    var w := Early(st.disk, LoadFailed(st.disk.cache), inp);
    LoopAttachesExactly(w, inp.volumes, inp.session, ListInUse(st, inp), x);
  }

  lemma {:induction false} AttachHappens(w: Work, volumes: seq<Volume>, session: seq<Device>, ignore: seq<Iqn>, x: Iqn)
    requires Connected(volumes, x) && x !in ignore && !InSession(session, x) && x !in w.failed
    ensures exists c :: Attached(x, c) in AttachAll(w, volumes, session, ignore).events
  {
    var n := |volumes| - 1;
    var r := AttachAll(w, volumes[..n], session, ignore);
    if Connected(volumes[..n], x) {
      AttachHappens(w, volumes[..n], session, ignore, x);
      AttachEffect(r, [volumes[n]], session, ignore, x);
      var c :| Attached(x, c) in r.events;
      assert [volumes[n]][..0] == [];
      assert AttachAll(r, [], session, ignore) == r;
      assert AttachAll(r, [volumes[n]], session, ignore) == AttachOne(r, volumes[n], session, ignore);
      assert Attached(x, c) in AttachOne(r, volumes[n], session, ignore).events;
    } else {
      VolumesPrefix(volumes, x);
      NotFailedUnlessConnected(w, volumes[..n], session, ignore, x);
      assert Attached(x, volumes[n].attachCode) in AttachOne(r, volumes[n], session, ignore).events;
    }
  }

  lemma {:induction false} NotFailedUnlessConnected(
      w: Work, volumes: seq<Volume>, session: seq<Device>, ignore: seq<Iqn>, x: Iqn)
    requires !Connected(volumes, x) && x !in w.failed
    ensures x !in AttachAll(w, volumes, session, ignore).failed
  {
    if volumes != [] {
      var n := |volumes| - 1;
      VolumesPrefix(volumes, x);
      NotFailedUnlessConnected(w, volumes[..n], session, ignore, x);
    }
  }

  /** A failed attach is on disk by the end of a complete pass, and is that pass's last attach of the volume. */
  lemma FailureRecorded(st: State, inp: Input, cfg: Config, i: nat)
    requires Pass(st, inp, cfg).completed && NoTornWrite(inp) && inp.finalWrite == Written
    requires i < |Pass(st, inp, cfg).events|
    requires var e := Pass(st, inp, cfg).events[i]; e.Attached? && e.code != 0
    ensures var r := Pass(st, inp, cfg);
            var x := r.events[i].iqn;
            && x in LoadFailed(r.state.disk.cache)
            && forall j :: i < j < |r.events| && r.events[j].Attached? ==> r.events[j].iqn != x
  {
    var r := Pass(st, inp, cfg);
    var x := r.events[i].iqn;
    var ctx := StartOf(st);
    var (d, ts, ignore) := Reload(ctx.ignoreTs.value, ctx.ignore, st.disk, inp.copyOk);
    var w0 := Early(d, LoadFailed(d.cache), inp);
    var w := AttachAll(w0, inp.volumes, inp.session, ignore);
    AttachEffect(w0, inp.volumes, inp.session, ignore, x);
    DetachEvents(StartSweep(ctx.offline, ignore, w, inp.session), inp.session, inp.volumes, cfg);
    CacheHoldsFailures(st, inp, cfg);
    AttachTimeFree(Early(st.disk, LoadFailed(st.disk.cache), inp), w0, inp.volumes, inp.session, ignore);
    ScanFailures(ctx, st.disk, inp, cfg);
    assert w.events[i] == r.events[i];
  }

  /** Attached and failed, at index `a` of the volumes. */
  predicate FailsAt(volumes: seq<Volume>, a: nat, x: Iqn)
    requires a < |volumes|
  {
    volumes[a].iqn == x && volumes[a].attachCode != 0
  }

  /** The volume at index `b` makes the attach loop write the failures collected so far. */
  predicate SavesAt(volumes: seq<Volume>, b: nat, session: seq<Device>, ignore: seq<Iqn>)
    requires b < |volumes|
  {
    volumes[b].iqn !in ignore && InSession(session, volumes[b].iqn) && volumes[b].cacheWrite == Written
  }

  predicate Fails(volumes: seq<Volume>, x: Iqn) {
    exists a :: 0 <= a < |volumes| && FailsAt(volumes, a, x)
  }

  predicate FailsThenSaves(volumes: seq<Volume>, session: seq<Device>, ignore: seq<Iqn>, x: Iqn) {
    exists b :: 0 <= b < |volumes| && SavesAt(volumes, b, session, ignore) && Fails(volumes[..b], x)
  }

  lemma FailsPrefix(volumes: seq<Volume>, x: Iqn)
    requires volumes != []
    ensures var n := |volumes| - 1;
            Fails(volumes, x) <==> Fails(volumes[..n], x) || FailsAt(volumes, n, x)
  {
    var n := |volumes| - 1;
    if a :| 0 <= a < n && FailsAt(volumes[..n], a, x) {
      assert FailsAt(volumes, a, x);
    }
    if a :| 0 <= a < |volumes| && FailsAt(volumes, a, x) {
      assert a < n ==> FailsAt(volumes[..n], a, x);
    }
  }

  lemma FailsThenSavesPrefix(volumes: seq<Volume>, session: seq<Device>, ignore: seq<Iqn>, x: Iqn)
    requires volumes != []
    ensures var n := |volumes| - 1;
            FailsThenSaves(volumes, session, ignore, x) <==>
            || FailsThenSaves(volumes[..n], session, ignore, x)
            || (SavesAt(volumes, n, session, ignore) && Fails(volumes[..n], x))
  {
    var n := |volumes| - 1;
    forall b | 0 <= b < n
      ensures volumes[..n][..b] == volumes[..b]
      ensures SavesAt(volumes[..n], b, session, ignore) == SavesAt(volumes, b, session, ignore)
    {
    }
    if b :| 0 <= b < n && SavesAt(volumes[..n], b, session, ignore) && Fails(volumes[..n][..b], x) {
      assert SavesAt(volumes, b, session, ignore) && Fails(volumes[..b], x);
    }
    if b :| 0 <= b < |volumes| && SavesAt(volumes, b, session, ignore) && Fails(volumes[..b], x) {
      assert b < n ==> SavesAt(volumes[..n], b, session, ignore) && Fails(volumes[..n][..b], x);
    }
  }

  lemma LoopDiskStep(w: Work, v: Volume, session: seq<Device>, ignore: seq<Iqn>, x: Iqn)
    requires x !in ignore && !InSession(session, x) && v.cacheWrite != Torn
    ensures var r := AttachOne(w, v, session, ignore);
            && (x in r.failed <==> x in w.failed || (v.iqn == x && v.attachCode != 0))
            && (x in LoadFailed(r.cache) <==>
                  if SavesAt([v], 0, session, ignore) then x in w.failed else x in LoadFailed(w.cache))
  {
  }

  /** A failed attach reaches the disk during the loop exactly when a later volume of the session causes a write. */
  lemma {:induction false} LoopDisk(w: Work, volumes: seq<Volume>, session: seq<Device>, ignore: seq<Iqn>, x: Iqn)
    requires x !in ignore && !InSession(session, x) && x !in w.failed && x !in LoadFailed(w.cache)
    requires forall i :: 0 <= i < |volumes| ==> volumes[i].cacheWrite != Torn
    ensures var r := AttachAll(w, volumes, session, ignore);
            && (x in r.failed <==> Fails(volumes, x))
            && (x in LoadFailed(r.cache) <==> FailsThenSaves(volumes, session, ignore, x))
  {
    if volumes != [] {
      var n := |volumes| - 1;
      var front := volumes[..n];
      LoopDisk(w, front, session, ignore, x);
      LoopDiskStep(AttachAll(w, front, session, ignore), volumes[n], session, ignore, x);
      FailsPrefix(volumes, x);
      FailsThenSavesPrefix(volumes, session, ignore, x);
      if FailsThenSaves(front, session, ignore, x) {
        var b :| 0 <= b < n && SavesAt(front, b, session, ignore) && Fails(front[..b], x);
        var a :| 0 <= a < b && FailsAt(front[..b], a, x);
        assert FailsAt(front, a, x);
      }
    }
  }

  /**
   After a pass that raised, a volume first tried in it is a recorded failure
   exactly when its attach failed and a later volume caused a write.
   */
  lemma FailureAfterRaise(st: State, inp: Input, cfg: Config, x: Iqn)
    requires !Pass(st, inp, cfg).completed && StartOf(st).ignoreTs.Some? && NoTornWrite(inp)
    requires x !in ListInUse(st, inp) && !InSession(inp.session, x) && x !in LoadFailed(st.disk.cache)
    ensures x in LoadFailed(Pass(st, inp, cfg).state.disk.cache) <==>
            FailsThenSaves(inp.volumes, inp.session, ListInUse(st, inp), x)
  {
    var ctx := StartOf(st);
    var (d, ts, ignore) := Reload(ctx.ignoreTs.value, ctx.ignore, st.disk, inp.copyOk);
    LoopDisk(Early(d, LoadFailed(d.cache), inp), inp.volumes, inp.session, ignore, x);
  }

  /** So when nothing was written after the failure, the next pass tries the volume again. */
  lemma RetriedAfterRaise(st: State, inp: Input, inp': Input, cfg: Config, x: Iqn)
    requires !Pass(st, inp, cfg).completed && StartOf(st).ignoreTs.Some? && NoTornWrite(inp)
    requires x !in ListInUse(st, inp) && !InSession(inp.session, x) && x !in LoadFailed(st.disk.cache)
    ensures var st' := Pass(st, inp, cfg).state;
            (exists c :: Attached(x, c) in Pass(st', inp', cfg).events) <==>
            && Connected(inp'.volumes, x) && x !in ListInUse(st', inp') && !InSession(inp'.session, x)
            && !FailsThenSaves(inp.volumes, inp.session, ListInUse(st, inp), x)
  {
    FailureAfterRaise(st, inp, cfg, x);
    AttachedExactly(Pass(st, inp, cfg).state, inp', cfg, x);
  }

  /** A failure that is on disk is not retried until a pass has seen the volume in its session. */
  lemma {:induction false} RecordedIsNotRetried(run: seq<Snap>, cfg: Config, i: nat, j: nat, x: Iqn)
    requires IsRun(run, cfg) && CacheUntouched(run) && i < j < |run|
    requires forall k :: i < k <= j ==> NoTornWrite(run[k].inp)
    requires x in LoadFailed(run[i].res.state.disk.cache)
    requires forall k :: i < k < j ==> !InSession(run[k].inp.session, x)
    ensures forall c :: Attached(x, c) !in run[j].res.events
  {
    var k := i + 1;
    while k < j
      invariant i < k <= j
      invariant x in LoadFailed(run[k].before.disk.cache)
    {
      FailureRemembered(run[k].before, run[k].inp, cfg, x);
      k := k + 1;
      assert run[k].before.disk.cache == run[k - 1].res.state.disk.cache;
    }
    if StartOf(run[j].before).ignoreTs.Some? {
      AttachedExactly(run[j].before, run[j].inp, cfg, x);
    }
  }

  /** After a failed attach there is no further one until a pass in between has seen the volume in its session. */
  lemma NoRetryUntilSeen(run: seq<Snap>, cfg: Config, i: nat, e: nat, j: nat)
    requires IsRun(run, cfg) && CacheUntouched(run) && i < j < |run|
    requires forall k :: i <= k <= j ==> NoTornWrite(run[k].inp)
    requires e < |run[i].res.events| && run[i].res.events[e].Attached? && run[i].res.events[e].code != 0
    requires var x := run[i].res.events[e].iqn;
             if run[i].res.completed then run[i].inp.finalWrite == Written
             else FailsThenSaves(run[i].inp.volumes, run[i].inp.session, ListInUse(run[i].before, run[i].inp), x)
    requires forall k :: i < k < j ==> !InSession(run[k].inp.session, run[i].res.events[e].iqn)
    ensures forall c :: Attached(run[i].res.events[e].iqn, c) !in run[j].res.events
  {
    var p := run[i];
    var x := p.res.events[e].iqn;
    if p.res.completed {
      FailureRecorded(p.before, p.inp, cfg, e);
    } else {
      assert p.res.events[e] == Attached(x, p.res.events[e].code);
      AttachedExactly(p.before, p.inp, cfg, x);
      FailureAfterRaise(p.before, p.inp, cfg, x);
    }
    RecordedIsNotRetried(run, cfg, i, j, x);
  }
}
