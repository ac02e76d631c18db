/**
 One call of `iscsi_func`, the block-volume worker of the `ocid` daemon.

 A pass reads the iscsiadm session, the volumes connected to the instance and
 two files (the list of volumes to leave alone and the attach failures seen so
 far), attaches and detaches volumes, and writes the files back.  Everything
 the pass learns from outside is its `Input`; everything it keeps is `State`.

 The functions say what a pass computes; class `IscsiWorker` computes it with
 the loops and field updates of the program.
 */
module IscsiPass {
  import opened StoredFiles
  import opened Wrappers

  type Iqn = string

  datatype Device = Device(iqn: Iqn, state: Option<string>, portal: Option<string>)
  datatype Volume = Volume(iqn: Iqn, attachCode: int, cacheWrite: Outcome)
  datatype Event = Attached(iqn: Iqn, code: int) | Detached(iqn: Iqn)

  datatype Config = Config(autoDetach: bool, detachRetry: int)

  datatype Disk = Disk(
    clock: nat,
    oldIgnore: Stored<seq<Iqn>>,     // /var/lib/oci-utils/ignore_iqns
    newIgnore: Stored<seq<Iqn>>,     // the same list in the cache directory
    cache: Stored<map<Iqn, int>>)    // the attach failures half of the iscsiadm cache

  /** `Fresh`: iscsi_func has not yet returned a context of its own. */
  datatype Context =
    | Fresh
    | Running(ignoreTs: Option<nat>, ignore: seq<Iqn>, offline: map<Iqn, int>)

  datatype State = State(ctx: Context, disk: Disk)

  datatype Input = Input(
    session: seq<Device>,
    volumes: seq<Volume>,
    copyOk: bool,
    earlyWrite: Outcome,
    finalWrite: Outcome,
    oldIgnoreWrite: Outcome,
    newIgnoreWrite: Outcome)

  datatype PassResult = PassResult(state: State, completed: bool, events: seq<Event>, failed: map<Iqn, int>)

  // ---- files ---------------------------------------------------------------

  function LoadFailed(cache: Stored<map<Iqn, int>>): map<Iqn, int> {
    if cache.Content? then cache.value else map[]
  }

  /** `load_cache_11876` on the ignore list; both files must exist, the old one is copied over the new one. */
  function LoadIgnore(d: Disk, copyOk: bool): (Disk, nat, seq<Iqn>) {
    if d.newIgnore.Absent? || d.oldIgnore.Absent? || !copyOk then (d, 0, [])
    else
      var t := d.clock + 1;
      if d.oldIgnore.Content?
      then (d.(clock := t, newIgnore := Content(t, d.oldIgnore.value)), t, d.oldIgnore.value)
      else (d.(clock := t, newIgnore := Garbled(t)), 0, [])
  }

  function Reload(ts: nat, ignore: seq<Iqn>, d: Disk, copyOk: bool): (Disk, nat, seq<Iqn>) {
    if ts == 0 || MTime(d.oldIgnore) > ts then LoadIgnore(d, copyOk) else (d, ts, ignore)
  }

  /** The timestamp is that of the new file, or None when that write failed. */
  function SaveIgnore(d: Disk, ignore: seq<Iqn>, inp: Input): (Disk, Option<nat>) {
    var t := d.clock + 2;
    (d.(clock := t,
        oldIgnore := Save(d.oldIgnore, Dedup(ignore), inp.oldIgnoreWrite, t - 1),
        newIgnore := Save(d.newIgnore, Dedup(ignore), inp.newIgnoreWrite, t)),
     if inp.newIgnoreWrite.Written? then Some(t) else None)
  }

  function Dedup(l: seq<Iqn>): (r: seq<Iqn>)
    ensures forall x :: x in r <==> x in l
  {
    if l == [] then []
    else
      var rest := Dedup(l[..|l| - 1]);
      assert l == l[..|l| - 1] + [l[|l| - 1]];
      if l[|l| - 1] in rest then rest else rest + [l[|l| - 1]]
  }

  // ---- session and volumes ---------------------------------------------------

  predicate InSession(session: seq<Device>, iqn: Iqn) {
    exists i :: 0 <= i < |session| && session[i].iqn == iqn
  }

  /** The session is a dictionary: each iqn occurs once. */
  predicate IsDict(session: seq<Device>) {
    forall i, j :: 0 <= i < j < |session| ==> session[i].iqn != session[j].iqn
  }

  predicate Connected(volumes: seq<Volume>, iqn: Iqn) {
    exists i :: 0 <= i < |volumes| && volumes[i].iqn == iqn
  }

  function Iqns(volumes: seq<Volume>): (r: set<Iqn>)
    ensures forall x :: x in r <==> Connected(volumes, x)
  {
    set i | 0 <= i < |volumes| :: volumes[i].iqn
  }

  const BOOT := "boot:uefi"

  predicate IsBoot(iqn: Iqn) {
    |iqn| >= |BOOT| && iqn[|iqn| - |BOOT|..] == BOOT
  }

  predicate DeviceOffline(dev: Device) {
    && !IsBoot(dev.iqn)
    && dev.state.Some?
    && (dev.state.value == "blocked" || dev.state.value == "transport-offline")
  }

  /** A Python value as it meets `iqn not in inst_volumes`: a string, or one of the volume dictionaries. */
  datatype PyValue = PyStr(s: string) | PyVolume(v: Volume)

  predicate StringInVolumes(iqn: Iqn, volumes: seq<Volume>) {
    exists i :: 0 <= i < |volumes| && PyStr(iqn) == PyVolume(volumes[i])
  }

  // ---- the attach loop ---------------------------------------------------------

  datatype Work = Work(
    failed: map<Iqn, int>, cache: Stored<map<Iqn, int>>, clock: nat, changed: bool, events: seq<Event>)

  function AttachOne(w: Work, v: Volume, session: seq<Device>, ignore: seq<Iqn>): Work {
    if v.iqn in ignore then w
    else if !InSession(session, v.iqn) then
      if v.iqn in w.failed then w
      else w.(changed := true,
              events := w.events + [Attached(v.iqn, v.attachCode)],
              failed := if v.attachCode != 0 then w.failed[v.iqn := v.attachCode] else w.failed)
    else w.(clock := w.clock + 1, cache := Save(w.cache, w.failed, v.cacheWrite, w.clock + 1))
  }

  function AttachAll(w: Work, volumes: seq<Volume>, session: seq<Device>, ignore: seq<Iqn>): Work {
    if volumes == [] then w
    else
      var n := |volumes| - 1;
      AttachOne(AttachAll(w, volumes[..n], session, ignore), volumes[n], session, ignore)
  }

  function DropSeen(failed: map<Iqn, int>, session: seq<Device>): map<Iqn, int> {
    map k | k in failed && !InSession(session, k) :: failed[k]
  }

  // ---- the detach loop -----------------------------------------------------------

  datatype Sweep = Sweep(
    before: map<Iqn, int>, after: map<Iqn, int>, ignore: seq<Iqn>, failed: map<Iqn, int>,
    ignChanged: bool, changed: bool, events: seq<Event>, aborted: bool)

  function RemoveFirst(l: seq<Iqn>, x: Iqn): seq<Iqn> {
    if l == [] then []
    else if l[0] == x then l[1..]
    else [l[0]] + RemoveFirst(l[1..], x)
  }

  /** A volume is detached, and every trace of it dropped. */
  function Forget(s: Sweep, iqn: Iqn): Sweep {
    s.(changed := true,
       events := s.events + [Detached(iqn)],
       before := s.before - {iqn},
       ignore := RemoveFirst(s.ignore, iqn),
       ignChanged := s.ignChanged || iqn in s.ignore,
       failed := s.failed - {iqn})
  }

  function DetachOne(s: Sweep, dev: Device, volumes: seq<Volume>, cfg: Config): Sweep {
    var iqn := dev.iqn;
    if s.aborted || !DeviceOffline(dev) then s
    else if StringInVolumes(iqn, volumes) then s
    else if iqn !in s.before then s.(after := s.after[iqn := 1])
    else if s.before[iqn] < cfg.detachRetry then s.(after := s.after[iqn := s.before[iqn] + 1])
    else if !cfg.autoDetach then s.(after := s.after[iqn := cfg.detachRetry + 1])
    else if dev.portal.None? then s.(aborted := true, changed := true)
    else Forget(s, iqn)
  }

  function DetachAll(s: Sweep, session: seq<Device>, volumes: seq<Volume>, cfg: Config): Sweep {
    if session == [] then s
    else
      var n := |session| - 1;
      DetachOne(DetachAll(s, session[..n], volumes, cfg), session[n], volumes, cfg)
  }

  lemma {:induction false} DetachNext(s: Sweep, session: seq<Device>, i: nat, volumes: seq<Volume>, cfg: Config)
    requires i < |session|
    ensures DetachAll(s, session[..i + 1], volumes, cfg)
         == DetachOne(DetachAll(s, session[..i], volumes, cfg), session[i], volumes, cfg)
  {
    assert session[..i + 1][..i] == session[..i];
  }

  // ---- the clean-up of the ignore list ---------------------------------------------

  /** `for x in l: if x in conn: l.remove(x)`, at index `i`: the list shrinks under the running index. */
  function CleanFrom(l: seq<Iqn>, i: nat, conn: set<Iqn>): (r: seq<Iqn>)
    ensures |r| <= |l|
    decreases |l| - i
  {
    if i >= |l| then l
    else if l[i] in conn then
      RemoveFirstShorter(l, l[i]);
      CleanFrom(RemoveFirst(l, l[i]), i + 1, conn)
    else CleanFrom(l, i + 1, conn)
  }

  lemma {:induction false} RemoveFirstShorter(l: seq<Iqn>, x: Iqn)
    ensures x in l ==> |RemoveFirst(l, x)| == |l| - 1
    ensures x !in l ==> RemoveFirst(l, x) == l
  {
    if l != [] && l[0] != x {
      RemoveFirstShorter(l[1..], x);
      assert l == [l[0]] + l[1..];
    }
  }

  // ---- a whole pass ------------------------------------------------------------------

  const FIRST := Running(Some(0), [], map[])

  function Early(d: Disk, failed: map<Iqn, int>, inp: Input): Work {
    if inp.volumes == []
    then Work(failed, Save(d.cache, failed, inp.earlyWrite, d.clock + 1), d.clock + 1, false, [])
    else Work(failed, d.cache, d.clock, false, [])
  }

  /** The detach loop's starting point, after the attach loop has done `w`. */
  function StartSweep(offline: map<Iqn, int>, ignore: seq<Iqn>, w: Work, session: seq<Device>): Sweep {
    var failed := DropSeen(w.failed, session);
    Sweep(offline, map[], ignore, failed, false, w.changed || failed != w.failed, w.events, false)
  }

  /** Everything up to the end of the detach loop, starting from a context whose timestamp is a number. */
  function Scan(ctx: Context, disk: Disk, inp: Input, cfg: Config): (Disk, nat, Sweep)
    requires ctx.Running? && ctx.ignoreTs.Some?
  {
    var (d, ts, ignore) := Reload(ctx.ignoreTs.value, ctx.ignore, disk, inp.copyOk);
    var w := AttachAll(Early(d, LoadFailed(d.cache), inp), inp.volumes, inp.session, ignore);
    var s := StartSweep(ctx.offline, ignore, w, inp.session);
    (d.(clock := w.clock, cache := w.cache), ts, DetachAll(s, inp.session, inp.volumes, cfg))
  }

  /** The clean-up and the rewriting of changed files. */
  function Finish(d: Disk, ts: nat, s: Sweep, inp: Input): (Disk, Option<nat>, seq<Iqn>) {
    var ignore := CleanFrom(s.ignore, 0, Iqns(inp.volumes));
    var (d1, ts1) :=
      if s.ignChanged || |ignore| < |s.ignore| then SaveIgnore(d, ignore, inp) else (d, Some(ts));
    var t := d1.clock + 1;
    var cache :=
      if s.changed || d1.cache.Absent? then Save(d1.cache, s.failed, inp.finalWrite, t)
      else if d1.cache.Content? then Content(t, d1.cache.value) else Garbled(t);
    (d1.(clock := t, cache := cache), ts1, ignore)
  }

  function Pass(st: State, inp: Input, cfg: Config): PassResult {
    var ctx := if st.ctx.Fresh? then FIRST else st.ctx;
    if ctx.ignoreTs.None? then PassResult(st, false, [], map[])   // number compared with None
    else
      var (d, ts, s) := Scan(ctx, st.disk, inp, cfg);
      if s.aborted then                                              // no 'persistent_portal_ip'
        var left := if st.ctx.Fresh? then Fresh else Running(Some(ts), s.ignore, s.before);
        PassResult(State(left, d), false, s.events, s.failed)
      else
        var (d', ts', ignore) := Finish(d, ts, s, inp);
        PassResult(State(Running(ts', ignore, s.after), d'), true, s.events, s.failed)
  }

  // ---- the program ---------------------------------------------------------------------

  class IscsiWorker {
    const cfg: Config
    var started: bool
    var ignoreTs: Option<nat>
    var ignoreIqns: seq<Iqn>
    var offlineVols: map<Iqn, int>
    var disk: Disk

    function Context(): Context
      reads this
    {
      if started then Running(ignoreTs, ignoreIqns, offlineVols) else Fresh
    }

    constructor (cfg: Config, disk: Disk)
      ensures this.cfg == cfg && this.disk == disk && Context() == Fresh
    {
      this.cfg, this.disk := cfg, disk;
      started, ignoreTs, ignoreIqns, offlineVols := false, Some(0), [], map[];
    }

    /** The removal loop over the ignore list, which is both iterated and shortened. */
    method CleanIgnore(conn: set<Iqn>) returns (changed: bool)
      modifies this`ignoreIqns
      ensures ignoreIqns == CleanFrom(old(ignoreIqns), 0, conn)
      ensures changed == (|ignoreIqns| < |old(ignoreIqns)|)
    {
      changed := false;
      var i := 0;
      while i < |ignoreIqns|
        invariant CleanFrom(ignoreIqns, i, conn) == CleanFrom(old(ignoreIqns), 0, conn)
        invariant |ignoreIqns| <= |old(ignoreIqns)|
        invariant changed == (|ignoreIqns| < |old(ignoreIqns)|)
        decreases |ignoreIqns| - i
      {
        if ignoreIqns[i] in conn {
          RemoveFirstShorter(ignoreIqns, ignoreIqns[i]);
          ignoreIqns := RemoveFirst(ignoreIqns, ignoreIqns[i]);
          changed := true;
        }
        i := i + 1;
      }
    }

    method AttachVolumes(inp: Input, failed: map<Iqn, int>) returns (w: Work)
      modifies this`disk
      ensures w == AttachAll(Early(old(disk), failed, inp), inp.volumes, inp.session, ignoreIqns)
      ensures disk == old(disk).(clock := w.clock, cache := w.cache)
    {
      var fails, changed, events := failed, false, [];
      if inp.volumes == [] {
        disk := disk.(clock := disk.clock + 1, cache := Save(disk.cache, fails, inp.earlyWrite, disk.clock + 1));
      }
      var i := 0;
      while i < |inp.volumes|
        invariant 0 <= i <= |inp.volumes|
        invariant disk == old(disk).(clock := disk.clock, cache := disk.cache)
        invariant Work(fails, disk.cache, disk.clock, changed, events) ==
                  AttachAll(Early(old(disk), failed, inp), inp.volumes[..i], inp.session, ignoreIqns)
      {
        var v := inp.volumes[i];
        if v.iqn !in ignoreIqns {
          if !InSession(inp.session, v.iqn) {
            if v.iqn !in fails {
              changed := true;
              events := events + [Attached(v.iqn, v.attachCode)];
              if v.attachCode != 0 {
                fails := fails[v.iqn := v.attachCode];
              }
            }
          } else {
            disk := disk.(clock := disk.clock + 1, cache := Save(disk.cache, fails, v.cacheWrite, disk.clock + 1));
          }
        }
        assert inp.volumes[..i + 1][..i] == inp.volumes[..i];
        i := i + 1;
      }
      assert inp.volumes[..i] == inp.volumes;
      w := Work(fails, disk.cache, disk.clock, changed, events);
    }

    method DetachLost(inp: Input, s0: Sweep) returns (s: Sweep)
      requires s0.before == offlineVols && s0.ignore == ignoreIqns && !s0.aborted
      modifies this`offlineVols, this`ignoreIqns
      ensures s == DetachAll(s0, inp.session, inp.volumes, cfg)
      ensures offlineVols == s.before && ignoreIqns == s.ignore
    {
      s := s0;
      var i := 0;
      while i < |inp.session|
        invariant 0 <= i <= |inp.session|
        invariant s == DetachAll(s0, inp.session[..i], inp.volumes, cfg)
        invariant offlineVols == s.before && ignoreIqns == s.ignore
      {
        var dev := inp.session[i];
        var iqn := dev.iqn;
        DetachNext(s0, inp.session, i, inp.volumes, cfg);
        if !s.aborted && DeviceOffline(dev) && !StringInVolumes(iqn, inp.volumes) {
          if iqn !in offlineVols {
            s := s.(after := s.after[iqn := 1]);
          } else if offlineVols[iqn] < cfg.detachRetry {
            s := s.(after := s.after[iqn := offlineVols[iqn] + 1]);
          } else if !cfg.autoDetach {
            s := s.(after := s.after[iqn := cfg.detachRetry + 1]);
          } else if dev.portal.None? {
            s := s.(aborted := true, changed := true);
          } else {
            s := Forget(s, iqn);
            offlineVols, ignoreIqns := offlineVols - {iqn}, RemoveFirst(ignoreIqns, iqn);
          }
        }
        i := i + 1;
      }
      assert inp.session[..i] == inp.session;
    }

    /** Lines up to the end of the detach loop. */
    method Poll(inp: Input) returns (s: Sweep)
      requires ignoreTs.Some?
      modifies this
      ensures started == old(started) && ignoreTs.Some?
      ensures (disk, ignoreTs.value, s) ==
              Scan(Running(old(ignoreTs), old(ignoreIqns), old(offlineVols)), old(disk), inp, cfg)
      ensures offlineVols == s.before && ignoreIqns == s.ignore
    {
      var ts := ignoreTs.value;
      if ts == 0 || MTime(disk.oldIgnore) > ts {
        var (d, t, l) := LoadIgnore(disk, inp.copyOk);
        disk, ts, ignoreIqns := d, t, l;
        ignoreTs := Some(ts);
      }
      var w := AttachVolumes(inp, LoadFailed(disk.cache));
      s := DetachLost(inp, StartSweep(offlineVols, ignoreIqns, w, inp.session));
    }

    /** The clean-up of the ignore list and the rewriting of changed files. */
    method WriteBack(inp: Input, s: Sweep)
      requires ignoreTs.Some? && ignoreIqns == s.ignore
      modifies this`disk, this`ignoreTs, this`ignoreIqns
      ensures (disk, ignoreTs, ignoreIqns) == Finish(old(disk), old(ignoreTs).value, s, inp)
    {
      var cleaned := CleanIgnore(Iqns(inp.volumes));
      if s.ignChanged || cleaned {
        var (d, t) := SaveIgnore(disk, ignoreIqns, inp);
        disk, ignoreTs := d, t;
      }
      var t := disk.clock + 1;
      if s.changed || disk.cache.Absent? {
        disk := disk.(clock := t, cache := Save(disk.cache, s.failed, inp.finalWrite, t));
      } else {
        disk := disk.(clock := t, cache := if disk.cache.Content? then Content(t, disk.cache.value) else Garbled(t));
      }
    }

    /** iscsi_func. When it raises, the caller keeps the old context, which by then may have been changed in place. */
    method Run(inp: Input) returns (completed: bool, events: seq<Event>, failed: map<Iqn, int>)
      modifies this
      ensures PassResult(State(Context(), disk), completed, events, failed)
           == Pass(State(old(Context()), old(disk)), inp, cfg)
    {
      if !started {
        ignoreTs, ignoreIqns, offlineVols := Some(0), [], map[];
      }
      if ignoreTs.None? {
        return false, [], map[];
      }
      var s := Poll(inp);
      if !s.aborted {
        started := true;
        offlineVols := s.after;
        WriteBack(inp, s);
      }
      completed, events, failed := !s.aborted, s.events, s.failed;
    }
  }
}
