/**
 `write_cache` and `load_cache` on one file.

 A writer opens the file without truncating it, takes an exclusive lock, writes
 its bytes over the old ones, truncates at the end of what it wrote (which also
 flushes), reads the modification time and unlocks.  A reader reads the
 modification time first, then opens, takes a shared lock and reads to the end.
 Any number of processes do this in any interleaving.
 */
module CacheFile {
  import opened Runs
  import opened Wrappers

  newtype byte = x: int | 0 <= x < 256

  // ---- the file as a buffer ------------------------------------------------------

  function Zeros(n: nat): (r: seq<byte>)
    ensures |r| == n
  {
    seq(n, _ => 0)
  }

  /** Writing `chunk` at offset `pos`; a gap reads as zeros. */
  function Overlay(old_: seq<byte>, pos: nat, chunk: seq<byte>): seq<byte> {
    if pos + |chunk| <= |old_| then old_[..pos] + chunk + old_[pos + |chunk|..]
    else if pos <= |old_| then old_[..pos] + chunk
    else old_ + Zeros(pos - |old_|) + chunk
  }

  /** Byte by byte: the chunk where it was written, the old bytes elsewhere, and zeros between the two. */
  lemma OverlayIs(old_: seq<byte>, pos: nat, chunk: seq<byte>)
    ensures var r := Overlay(old_, pos, chunk);
            && |r| == (if pos + |chunk| > |old_| then pos + |chunk| else |old_|)
            && forall x :: 0 <= x < |r| ==>
                 r[x] == if pos <= x < pos + |chunk| then chunk[x - pos] else if x < |old_| then old_[x] else 0
  {
  }

  lemma OverlayExtends(b: seq<byte>, data: seq<byte>, pos: nat, k: nat)
    requires pos + k <= |data| && pos <= |b| && b[..pos] == data[..pos]
    ensures var r := Overlay(b, pos, data[pos..pos + k]);
            pos + k <= |r| && r[..pos + k] == data[..pos + k]
  {
    var r := Overlay(b, pos, data[pos..pos + k]);
    assert r[..pos + k] == b[..pos] + data[pos..pos + k];
    assert data[..pos + k] == data[..pos] + data[pos..pos + k];
  }

  lemma OverlayFromStart(old_: seq<byte>, chunk: seq<byte>)
    ensures Overlay(old_, 0, chunk) == chunk + if |chunk| <= |old_| then old_[|chunk|..] else []
  {
    assert old_[..0] + chunk == chunk;
  }

  /** Writing the start of the data from the beginning, then the next chunk behind it. */
  lemma OverlayGoesOn(old_: seq<byte>, data: seq<byte>, pos: nat, k: nat)
    requires pos + k <= |data|
    ensures Overlay(Overlay(old_, 0, data[..pos]), pos, data[pos..pos + k]) == Overlay(old_, 0, data[..pos + k])
  {
    var (a, b) := (data[..pos], data[pos..pos + k]);
    var x := Overlay(old_, 0, a);
    OverlayFromStart(old_, a);
    OverlayFromStart(old_, data[..pos + k]);
    assert data[..pos + k] == a + b && x[..pos] == a;
    if pos + k <= |old_| {
      assert x[pos + k..] == old_[pos + k..];
    } else if pos + k <= |x| {
      assert x[pos + k..] == [] && a + b + [] == a + b;
    }
  }

  class CacheFile {
    var present: bool
    var bytes: seq<byte>
    var mtime: nat
    var clock: nat

    predicate Valid()
      reads this
    {
      mtime <= clock && (!present ==> bytes == [] && mtime == 0)
    }

    constructor (present: bool, bytes: seq<byte>, mtime: nat)
      requires !present ==> bytes == [] && mtime == 0
      ensures Valid() && this.present == present && this.bytes == bytes && this.mtime == mtime
    {
      this.present, this.bytes, this.mtime, clock := present, bytes, mtime, mtime;
    }

    method WriteAt(pos: nat, chunk: seq<byte>)
      requires Valid() && present
      modifies this
      ensures Valid() && present && bytes == Overlay(old(bytes), pos, chunk)
      ensures mtime == clock == old(clock) + 1
    {
      bytes := Overlay(bytes, pos, chunk);
      clock := clock + 1;
      mtime := clock;
    }

    method Truncate(pos: nat)
      requires Valid() && present && pos <= |bytes|
      modifies this
      ensures Valid() && present && bytes == old(bytes)[..pos]
      ensures mtime == clock == old(clock) + 1
    {
      bytes := bytes[..pos];
      clock := clock + 1;
      mtime := clock;
    }

    /** write_cache without interference; the file object hands the data on in chunks of its own size. */
    method WriteCache(data: seq<byte>, chunkSize: nat) returns (ts: nat)
      requires Valid() && chunkSize > 0
      modifies this
      ensures Valid() && present && bytes == data
      ensures ts == mtime && ts > old(mtime)
    {
      if !present {
        present, clock := true, clock + 1;
        mtime := clock;
      }
      var pos := 0;
      while pos < |data|
        invariant Valid() && present && clock >= old(clock)
        invariant pos <= |data| && pos <= |bytes| && bytes[..pos] == data[..pos]
      {
        var k := if |data| - pos < chunkSize then |data| - pos else chunkSize;
        OverlayExtends(bytes, data, pos, k);
        WriteAt(pos, data[pos..pos + k]);
        pos := pos + k;
      }
      Truncate(pos);
      assert data[..|data|] == data;
      ts := mtime;
    }

    /** load_cache without interference, up to the parsing; None for a missing file. */
    method LoadCache(chunkSize: nat) returns (ts: nat, content: seq<byte>)
      requires Valid() && chunkSize > 0
      ensures ts == mtime && content == bytes
    {
      ts, content := mtime, [];
      if !present {
        return;
      }
      while |content| < |bytes|
        invariant |content| <= |bytes| && content == bytes[..|content|]
        decreases |bytes| - |content|
      {
        var rest := |bytes| - |content|;
        var k := if rest < chunkSize then rest else chunkSize;
        content := content + bytes[|content|..|content| + k];
      }
    }
  }

  // ---- processes --------------------------------------------------------------------

  datatype Result =
    | Nothing
    | GaveUp                                             // (0, None), or None from a writer
    | Wrote(wts: nat, wseen: nat)
    | Loaded(ts: nat, content: seq<byte>, seen: nat)

  /** `Commit`: the file as a finished write left it; `seen` numbers in results point into the log of commits. */
  datatype Commit = Commit(data: seq<byte>, at: nat)

  datatype Proc =
    | Idle(result: Result)
    // writer
    | WOpen(data: seq<byte>)
    | WLock(data: seq<byte>)
    | WFill(data: seq<byte>, pos: nat)                   // exclusive lock held
    | WStamp(mine: nat)                                  // truncated, lock held
    | WUnlock(wts: nat, mine: nat)                       // lock held
    | WBroken(data: seq<byte>, pos: nat)                 // a write failed, lock held
    | WLate(data: seq<byte>, pos: nat)                   // unlocked, close() still flushes
    // reader
    | RStat
    | ROpen(ts: nat)
    | RLock(ts: nat)
    | RRead(ts: nat, acc: seq<byte>)                     // shared lock held
    | RUnlock(ts: nat, acc: seq<byte>, seen: nat)        // shared lock held

  datatype System = System(
    procs: seq<Proc>, present: bool, bytes: seq<byte>, mtime: nat, clock: nat, log: seq<Commit>)

  predicate Exclusive(p: Proc) {
    p.WFill? || p.WStamp? || p.WUnlock? || p.WBroken?
  }

  predicate Shared(p: Proc) {
    p.RRead? || p.RUnlock?
  }

  predicate CanLockExclusive(s: System, i: nat) {
    forall j :: 0 <= j < |s.procs| && j != i ==> !Exclusive(s.procs[j]) && !Shared(s.procs[j])
  }

  predicate CanLockShared(s: System, i: nat) {
    forall j :: 0 <= j < |s.procs| && j != i ==> !Exclusive(s.procs[j])
  }

  /** `Go(i, k)`: process i's next access, moving k bytes when it reads or writes. */
  datatype Step =
    | BeginWrite(i: nat, data: seq<byte>)
    | BeginLoad(i: nat)
    | Go(i: nat, k: nat)
    | Fail(i: nat)               // open or lock fails, or the content cannot be serialised
    | BreakOff(i: nat)           // a write fails part-way

  predicate Enabled(s: System, step: Step) {
    && step.i < |s.procs|
    && var p := s.procs[step.i];
       match step
       case BeginWrite(_, _) => p.Idle?
       case BeginLoad(_) => p.Idle?
       case Fail(_) => p.WOpen? || p.WLock? || p.ROpen? || p.RLock?
       case BreakOff(_) => p.WFill? && p.pos < |p.data|
       case Go(i, k) =>
         match p
         case Idle(_) => false
         case WLock(_) => CanLockExclusive(s, i)
         case WFill(data, pos) => pos < |data| ==> 1 <= k <= |data| - pos
         case WLate(data, pos) => pos + k <= |data|
         case RLock(_) => CanLockShared(s, i)
         case RRead(_, acc) => |acc| < |s.bytes| ==> 1 <= k <= |s.bytes| - |acc|
         case _ => true
  }

  function Write(s: System, pos: nat, chunk: seq<byte>): System {
    s.(bytes := Overlay(s.bytes, pos, chunk), mtime := s.clock + 1, clock := s.clock + 1)
  }

  function LastIndex(s: System): nat {
    if s.log == [] then 0 else |s.log| - 1
  }

  function Advance(s: System, i: nat, k: nat): (t: System)
    requires Enabled(s, Go(i, k))
    ensures |t.procs| == |s.procs|
  {
    var t := s.clock + 1;
    match s.procs[i]
    case Idle(_) => s
    case WOpen(data) =>
      var s1 := s.(procs := s.procs[i := WLock(data)]);
      if s.present then s1
      else s1.(present := true, mtime := t, clock := t, log := s.log + [Commit([], t)])
    case WLock(data) => s.(procs := s.procs[i := WFill(data, 0)])
    case WFill(data, pos) =>
      if pos < |data| then
        Write(s, pos, data[pos..pos + k]).(procs := s.procs[i := WFill(data, pos + k)])
      else
        var cut := if pos <= |s.bytes| then s.bytes[..pos] else s.bytes + Zeros(pos - |s.bytes|);
        s.(procs := s.procs[i := WStamp(|s.log|)], bytes := cut, mtime := t, clock := t,
           log := s.log + [Commit(data, t)])
    case WStamp(mine) => s.(procs := s.procs[i := WUnlock(s.mtime, mine)])
    case WUnlock(ts, mine) => s.(procs := s.procs[i := Idle(Wrote(ts, mine))])
    case WBroken(data, pos) => s.(procs := s.procs[i := WLate(data, pos)])
    case WLate(data, pos) => Write(s, pos, data[pos..pos + k]).(procs := s.procs[i := Idle(GaveUp)])
    case RStat => s.(procs := s.procs[i := if s.present then ROpen(s.mtime) else Idle(GaveUp)])
    case ROpen(ts) => s.(procs := s.procs[i := RLock(ts)])
    case RLock(ts) => s.(procs := s.procs[i := RRead(ts, [])])
    case RRead(ts, acc) =>
      if |acc| < |s.bytes| then s.(procs := s.procs[i := RRead(ts, acc + s.bytes[|acc|..|acc| + k])])
      else s.(procs := s.procs[i := RUnlock(ts, acc, LastIndex(s))])
    case RUnlock(ts, acc, seen) => s.(procs := s.procs[i := Idle(Loaded(ts, acc, seen))])
  }

  function Apply(s: System, step: Step): (t: System)
    requires Enabled(s, step)
    ensures |t.procs| == |s.procs|
  {
    match step
    case BeginWrite(i, data) => s.(procs := s.procs[i := WOpen(data)])
    case BeginLoad(i) => s.(procs := s.procs[i := RStat])
    case Fail(i) => s.(procs := s.procs[i := Idle(GaveUp)])
    case BreakOff(i) => s.(procs := s.procs[i := WBroken(s.procs[i].data, s.procs[i].pos)])
    case Go(i, k) => Advance(s, i, k)
  }

  predicate IsRun(run: seq<System>, steps: seq<Step>) {
    && |run| == |steps| + 1
    && forall n :: 0 <= n < |steps| ==> Enabled(run[n], steps[n]) && run[n + 1] == Apply(run[n], steps[n])
  }

  predicate Initial(s: System) {
    && (forall i :: 0 <= i < |s.procs| ==> s.procs[i] == Idle(Nothing))
    && s.mtime <= s.clock && (!s.present ==> s.bytes == [])
    && s.log == [Commit(s.bytes, s.mtime)]
  }

  // ---- the invariant -------------------------------------------------------------------

  function Last(s: System): Commit
    requires s.log != []
  {
    s.log[|s.log| - 1]
  }

  predicate LogOk(s: System) {
    && s.log != []
    && Last(s).at <= s.mtime <= s.clock
    && (forall i, j :: 0 <= i < j < |s.log| ==> s.log[i].at < s.log[j].at)
    && (!s.present ==> s.bytes == [] && |s.log| == 1)
  }

  /** What one process knows; what was read or written before commit number `from` does not matter. */
  predicate ProcOk(s: System, p: Proc, from: nat)
    requires s.log != []
  {
    match p
    case Idle(Wrote(ts, mine)) => mine < |s.log| && (mine >= from ==> ts == s.log[mine].at)
    case Idle(Loaded(ts, content, seen)) =>
      seen < |s.log| && (seen >= from ==> content == s.log[seen].data && ts <= s.log[seen].at)
    case WLock(_) => s.present
    case WFill(data, pos) => s.present && pos <= |data| && s.bytes == Overlay(Last(s).data, 0, data[..pos])
    case WStamp(mine) => s.present && mine == |s.log| - 1 && s.bytes == Last(s).data && s.mtime == Last(s).at
    case WUnlock(ts, mine) =>
      && s.present && mine == |s.log| - 1 && s.bytes == Last(s).data && s.mtime == Last(s).at && ts == Last(s).at
    case WBroken(_, _) => false
    case WLate(_, _) => false
    case ROpen(ts) => s.present && ts <= s.mtime
    case RLock(ts) => s.present && ts <= s.mtime
    case RRead(ts, acc) => s.present && ts <= Last(s).at && |acc| <= |Last(s).data| && acc == Last(s).data[..|acc|]
    case RUnlock(ts, acc, seen) => s.present && seen == |s.log| - 1 && ts <= Last(s).at && acc == Last(s).data
    case _ => true
  }

  predicate LocksOk(procs: seq<Proc>) {
    forall i, j :: 0 <= i < |procs| && 0 <= j < |procs| && i != j && Exclusive(procs[i]) ==>
      !Exclusive(procs[j]) && !Shared(procs[j])
  }

  predicate Busy(procs: seq<Proc>) {
    exists i :: 0 <= i < |procs| && procs[i].WFill?
  }

  predicate Inv(s: System, from: nat) {
    && LogOk(s) && LocksOk(s.procs)
    && (forall i :: 0 <= i < |s.procs| ==> ProcOk(s, s.procs[i], from))
    && (!Busy(s.procs) ==> s.bytes == Last(s).data && s.mtime == Last(s).at)
  }

  // ---- what every step keeps ---------------------------------------------------------------

  lemma InitialInv(s: System)
    requires Initial(s)
    ensures Inv(s, 0)
  {
  }

  /** A process may keep its lock, give it up, or take one that nobody else's stands against. */
  lemma LocksAfter(procs: seq<Proc>, i: nat, p: Proc)
    requires LocksOk(procs) && i < |procs|
    requires Exclusive(p) && !Exclusive(procs[i]) ==>
               forall j :: 0 <= j < |procs| && j != i ==> !Exclusive(procs[j]) && !Shared(procs[j])
    requires Shared(p) && !Shared(procs[i]) ==> forall j :: 0 <= j < |procs| && j != i ==> !Exclusive(procs[j])
    ensures LocksOk(procs[i := p])
  {
  }

  lemma BusyAfter(procs: seq<Proc>, i: nat, p: Proc)
    requires i < |procs| && !procs[i].WFill? && !p.WFill?
    ensures Busy(procs[i := p]) <==> Busy(procs)
  {
    var after := procs[i := p];
    if k :| 0 <= k < |procs| && procs[k].WFill? {
      assert after[k].WFill?;
    }
    if k :| 0 <= k < |after| && after[k].WFill? {
      assert procs[k].WFill?;
    }
  }

  /** What a process knows is about the file and the log only. */
  lemma KnownOfFile(s: System, procs: seq<Proc>, p: Proc, from: nat)
    requires s.log != [] && ProcOk(s, p, from)
    ensures ProcOk(s.(procs := procs), p, from)
  {
  }

  /** A step of process i that leaves the file alone, and neither takes nor leaves the filling phase. */
  lemma LocalStep(s: System, from: nat, i: nat, p: Proc)
    requires Inv(s, from) && i < |s.procs| && ProcOk(s, p, from)
    requires !s.procs[i].WFill? && !p.WFill?
    requires Exclusive(p) ==> Exclusive(s.procs[i])
    requires Shared(p) ==> Shared(s.procs[i]) || CanLockShared(s, i)
    ensures Inv(s.(procs := s.procs[i := p]), from)
  {
    var s' := s.(procs := s.procs[i := p]);
    LocksAfter(s.procs, i, p);
    BusyAfter(s.procs, i, p);
    forall j | 0 <= j < |s'.procs| ensures ProcOk(s', s'.procs[j], from) {
      KnownOfFile(s, s'.procs, s'.procs[j], from);
    }
  }

  /** Taking the exclusive lock. */
  lemma LockStep(s: System, from: nat, i: nat)
    requires Inv(s, from) && Enabled(s, Go(i, 0)) && s.procs[i].WLock?
    ensures Inv(Apply(s, Go(i, 0)), from)
  {
    var s' := Apply(s, Go(i, 0));
    assert s'.procs[i].WFill?;
  }

  /** Writing a chunk: nobody else is reading or writing. */
  lemma FillStep(s: System, from: nat, i: nat, k: nat)
    requires Inv(s, from) && Enabled(s, Go(i, k)) && s.procs[i].WFill? && s.procs[i].pos < |s.procs[i].data|
    ensures Inv(Apply(s, Go(i, k)), from)
  {
    var s' := Apply(s, Go(i, k));
    var p := s.procs[i];
    assert ProcOk(s, p, from);
    OverlayGoesOn(Last(s).data, p.data, p.pos, k);
    assert s'.procs[i].WFill?;
    forall j | 0 <= j < |s.procs| ensures ProcOk(s', s'.procs[j], from) {
      assert ProcOk(s, s.procs[j], from);
    }
  }

  /** Truncating at the end of the data completes the write. */
  lemma TruncateStep(s: System, from: nat, i: nat, k: nat)
    requires Inv(s, from) && Enabled(s, Go(i, k)) && s.procs[i].WFill? && s.procs[i].pos == |s.procs[i].data|
    ensures Inv(Apply(s, Go(i, k)), from)
    ensures Apply(s, Go(i, k)).bytes == s.procs[i].data
  {
    var s' := Apply(s, Go(i, k));
    var data := s.procs[i].data;
    assert data[..|data|] == data;
    forall j | 0 <= j < |s.procs| ensures ProcOk(s', s'.procs[j], from) {
      assert ProcOk(s, s.procs[j], from);
    }
  }

  /** Creating the file, empty. */
  lemma CreateStep(s: System, from: nat, i: nat, k: nat)
    requires Inv(s, from) && Enabled(s, Go(i, k)) && s.procs[i].WOpen? && !s.present
    ensures Inv(Apply(s, Go(i, k)), from)
  {
    var s' := Apply(s, Go(i, k));
    forall j | 0 <= j < |s.procs| ensures ProcOk(s', s'.procs[j], from) && !s'.procs[j].WFill? {
      assert ProcOk(s, s.procs[j], from);
    }
  }

  /** Reading a chunk, or finding the end of the file. */
  lemma ReadStep(s: System, from: nat, i: nat, k: nat)
    requires Inv(s, from) && Enabled(s, Go(i, k)) && s.procs[i].RRead?
    ensures Inv(Apply(s, Go(i, k)), from)
  {
    assert ProcOk(s, s.procs[i], from);
    assert !Busy(s.procs);
    var acc := s.procs[i].acc;
    if |acc| < |s.bytes| {
      assert acc + s.bytes[|acc|..|acc| + k] == s.bytes[..|acc| + k];
    } else {
      assert acc == s.bytes;
    }
    LocalStep(s, from, i, Apply(s, Go(i, k)).procs[i]);
  }

  /** A step that only reads, gives up a lock, or asks for one. */
  lemma QuietStep(s: System, from: nat, i: nat, k: nat)
    requires Inv(s, from) && Enabled(s, Go(i, k))
    requires var p := s.procs[i];
             p.WStamp? || p.WUnlock? || p.RStat? || p.ROpen? || p.RUnlock? || (p.WOpen? && s.present)
    ensures Inv(Apply(s, Go(i, k)), from)
  {
    assert ProcOk(s, s.procs[i], from);
    LocalStep(s, from, i, Apply(s, Go(i, k)).procs[i]);
  }

  /** Beginning an operation, or giving up before holding a lock. */
  lemma OutsideStep(s: System, from: nat, step: Step)
    requires Inv(s, from) && Enabled(s, step) && (step.BeginWrite? || step.BeginLoad? || step.Fail?)
    ensures Inv(Apply(s, step), from)
  {
    LocalStep(s, from, step.i, Apply(s, step).procs[step.i]);
  }

  lemma StepKeepsInv(s: System, from: nat, step: Step)
    requires Inv(s, from) && Enabled(s, step) && !step.BreakOff?
    ensures Inv(Apply(s, step), from)
  {
    var i := step.i;
    var p := s.procs[i];
    assert ProcOk(s, p, from);
    if !step.Go? {
      OutsideStep(s, from, step);
    } else if p.WLock? {
      LockStep(s, from, i);
    } else if p.WFill? {
      if p.pos < |p.data| {
        FillStep(s, from, i, step.k);
      } else {
        TruncateStep(s, from, i, step.k);
      }
    } else if p.RRead? {
      ReadStep(s, from, i, step.k);
    } else if p.RLock? {
      LockSharedStep(s, from, i, step.k);
    } else if p.WOpen? && !s.present {
      CreateStep(s, from, i, step.k);
    } else {
      QuietStep(s, from, i, step.k);
    }
  }

  lemma LockSharedStep(s: System, from: nat, i: nat, k: nat)
    requires Inv(s, from) && Enabled(s, Go(i, k)) && s.procs[i].RLock?
    ensures Inv(Apply(s, Go(i, k)), from)
  {
    assert ProcOk(s, s.procs[i], from);
    assert !Busy(s.procs);
    LocalStep(s, from, i, RRead(s.procs[i].ts, []));
  }

  lemma {:induction false} RunKeepsInv(run: seq<System>, steps: seq<Step>, from: nat, m: nat, n: nat)
    requires IsRun(run, steps) && m <= n < |run| && Inv(run[m], from)
    requires forall x :: m <= x < n ==> !steps[x].BreakOff?
    ensures Inv(run[n], from)
  {
    forall x | m <= x < n && Inv(run[x], from) ensures Inv(run[x + 1], from) {
      StepKeepsInv(run[x], from, steps[x]);
    }
    KeptBetween((x: nat) => x < |run| && Inv(run[x], from), m, n);
  }

  // ---- main results ----------------------------------------------------------------------------

  /** The log only grows. */
  lemma {:induction false} LogGrows(run: seq<System>, steps: seq<Step>, n: nat, m: nat)
    requires IsRun(run, steps) && n <= m < |run|
    ensures run[n].log <= run[m].log && |run[n].procs| == |run[m].procs|
  {
    if n < m {
      LogGrows(run, steps, n, m - 1);
    }
  }

  /** What a reader has under its lock, and what one has returned since commit number `from`. */
  predicate ReadsWhole(s: System, i: nat, from: nat)
    requires i < |s.procs|
  {
    && (s.procs[i].RRead? ==> s.log != [] && s.bytes == Last(s).data && s.procs[i].acc <= s.bytes)
    && (s.procs[i].Idle? && s.procs[i].result.Loaded? ==>
          var r := s.procs[i].result;
          r.seen < |s.log| && (r.seen >= from ==> r.content == s.log[r.seen].data))
  }

  lemma InvReadsWhole(s: System, from: nat, i: nat)
    requires Inv(s, from) && i < |s.procs|
    ensures ReadsWhole(s, i, from)
  {
    assert ProcOk(s, s.procs[i], from);
    if s.procs[i].RRead? {
      assert !Busy(s.procs);
    }
  }

  /**
   In every interleaving without a broken-off write, what a reader has under
   its lock is the start of the content left by the latest completed write, and
   what it returns is the whole of it.
   */
  lemma {:induction false} ReadersSeeWholeWrites(run: seq<System>, steps: seq<Step>, n: nat, i: nat)
    requires IsRun(run, steps) && Initial(run[0]) && n < |run| && i < |run[n].procs|
    requires forall m :: 0 <= m < n ==> !steps[m].BreakOff?
    ensures ReadsWhole(run[n], i, 0)
  {
    InitialInv(run[0]);
    RunKeepsInv(run, steps, 0, 0, n);
    InvReadsWhole(run[n], 0, i);
  }

  /** A commit is an empty new file, or the data of a writer that truncates; each has a later time. */
  lemma CommitsAreWrites(s: System, from: nat, step: Step)
    requires Inv(s, from) && Enabled(s, step) && !step.BreakOff?
    ensures var (s', p) := (Apply(s, step), s.procs[step.i]);
            if step.Go? && p.WOpen? && !s.present then
              s'.present && s'.bytes == [] && s'.log == s.log + [Commit([], s'.mtime)] && s'.mtime > s.mtime
            else if step.Go? && p.WFill? && p.pos == |p.data| then
              s'.bytes == p.data && s'.log == s.log + [Commit(p.data, s'.mtime)] && s'.mtime > s.mtime
            else s'.log == s.log
  {
    if step.Go? && s.procs[step.i].WFill? && s.procs[step.i].pos == |s.procs[step.i].data| {
      assert ProcOk(s, s.procs[step.i], from);
      TruncateStep(s, from, step.i, step.k);
    }
  }

  function ResultTime(r: Result): nat
    requires r.Loaded? || r.Wrote?
  {
    if r.Loaded? then r.ts else r.wts
  }

  function ResultSeen(r: Result): nat
    requires r.Loaded? || r.Wrote?
  {
    if r.Loaded? then r.seen else r.wseen
  }

  /**
   The timestamp that comes with a content is never newer than that content, so
   at any later moment, whatever the process does by then, every write completed
   after that content shows as a later modification time; and after a write, when
   nobody is writing, the time is later only if somebody wrote.
   */
  lemma {:induction false} LaterWritesAreNoticed(run: seq<System>, steps: seq<Step>, n: nat, m: nat, i: nat)
    requires IsRun(run, steps) && Initial(run[0]) && n <= m < |run| && i < |run[n].procs|
    requires forall x :: 0 <= x < m ==> !steps[x].BreakOff?
    requires run[n].procs[i].Idle? && (run[n].procs[i].result.Loaded? || run[n].procs[i].result.Wrote?)
    ensures var (s, r) := (run[m], run[n].procs[i].result);
            && ResultSeen(r) < |s.log| && ResultTime(r) <= s.log[ResultSeen(r)].at
            && (ResultSeen(r) < |s.log| - 1 ==> s.mtime > ResultTime(r))
            && (r.Wrote? && !Busy(s.procs) ==> (s.mtime > r.wts <==> r.wseen < |s.log| - 1))
  {
    InitialInv(run[0]);
    RunKeepsInv(run, steps, 0, 0, n);
    assert ProcOk(run[n], run[n].procs[i], 0);
    RunKeepsInv(run, steps, 0, 0, m);
    LogGrows(run, steps, n, m);
  }

  /** Which modification time a reader has in hand. */
  predicate HasTime(p: Proc, t: nat) {
    match p
    case ROpen(ts) => ts == t
    case RLock(ts) => ts == t
    case RRead(ts, _) => ts == t
    case RUnlock(ts, _, _) => ts == t
    case _ => false
  }

  lemma {:induction false} TimeInHand(run: seq<System>, steps: seq<Step>, a: nat, n: nat, i: nat)
    requires IsRun(run, steps) && a < n < |run| && i < |run[a].procs|
    requires run[a].present && run[a].procs[i].RStat? && steps[a].i == i
    requires forall x :: a < x <= n ==> i < |run[x].procs| && !run[x].procs[i].Idle?
    ensures HasTime(run[n].procs[i], run[a].mtime)
  {
    assert Enabled(run[n - 1], steps[n - 1]) && run[n] == Apply(run[n - 1], steps[n - 1]);
    if a < n - 1 {
      TimeInHand(run, steps, a, n - 1, i);
    }
  }

  /**
   In every interleaving the timestamp a reader returns is the modification time at its first
   access `a`, before it opens the file, whatever is written while it waits; a missing file is given up at once.
   */
  lemma {:induction false} TimeIsFromStat(run: seq<System>, steps: seq<Step>, a: nat, b: nat, i: nat)
    requires IsRun(run, steps) && a < b < |steps| && i < |run[a].procs| && i < |run[b + 1].procs|
    requires run[a].procs[i].RStat? && steps[a].i == i
    requires forall x :: a < x <= b ==> i < |run[x].procs| && !run[x].procs[i].Idle?
    requires run[b + 1].procs[i].Idle?
    ensures run[a].present
    ensures run[b + 1].procs[i].result == GaveUp ||
              (run[b + 1].procs[i].result.Loaded? && run[b + 1].procs[i].result.ts == run[a].mtime)
  {
    assert Enabled(run[a], steps[a]) && run[a + 1] == Apply(run[a], steps[a]);
    assert !run[a + 1].procs[i].Idle?;
    TimeInHand(run, steps, a, b, i);
    assert Enabled(run[b], steps[b]) && run[b + 1] == Apply(run[b], steps[b]);
  }

  // ---- the one way it fails ------------------------------------------------------------------------

  /** The file when only the first `p` bytes of the new data made it: the old content shows behind them. */
  function Mixture(old_: seq<byte>, data: seq<byte>, p: nat): seq<byte>
    requires p <= |data|
  {
    Overlay(old_, 0, data[..p])
  }

  function With(s: System, i: nat, p: Proc): System
    requires i < |s.procs|
  {
    s.(procs := s.procs[i := p])
  }

  lemma WithTwice(s: System, i: nat, p: Proc, q: Proc)
    requires i < |s.procs|
    ensures With(With(s, i, p), i, q) == With(s, i, q)
  {
    assert s.procs[i := p][i := q] == s.procs[i := q];
  }

  /** One step, if it is possible. */
  function Attempt(s: System, step: Step): Option<System> {
    if Enabled(s, step) then Some(Apply(s, step)) else None
  }

  /** What can be played is a run. */
  lemma {:induction false} PlayIsRun(s: System, steps: seq<Step>) returns (run: seq<System>)
    requires Play(Attempt, s, steps).Some?
    ensures IsRun(run, steps) && run[0] == s && run[|steps|] == Play(Attempt, s, steps).value
  {
    run := PlayTrace(Attempt, s, steps);
    forall m | 0 <= m < |steps| ensures Enabled(run[m], steps[m]) && run[m + 1] == Apply(run[m], steps[m]) {
      assert Attempt(run[m], steps[m]) == Some(run[m + 1]);
    }
  }

  lemma {:induction false} Then(s: System, front: seq<Step>, t: System, step: Step, u: System)
    requires Play(Attempt, s, front) == Some(t) && Attempt(t, step) == Some(u)
    ensures Play(Attempt, s, front + [step]) == Some(u)
  {
    PlayNext(Attempt, s, front, t, step);
  }

  lemma {:induction false} First(s: System, step: Step, u: System)
    requires Attempt(s, step) == Some(u)
    ensures Play(Attempt, s, [step]) == Some(u)
  {
    Then(s, [], s, step, u);
    assert [] + [step] == [step];
  }

  /** Nobody else is about to write or holds a lock that would stop a reader. */
  predicate Undisturbed(s: System, j: nat)
    requires j < |s.procs|
  {
    s.present && s.procs[j].Idle? && CanLockShared(s, j)
  }

  /** The reader's accesses up to its lock. */
  function LockSteps(j: nat): seq<Step> {
    [BeginLoad(j)] + [Go(j, 0)] + [Go(j, 0)] + [Go(j, 0)]
  }

  lemma StatAndOpen(s: System, j: nat)
    requires j < |s.procs| && Undisturbed(s, j)
    ensures Attempt(s, BeginLoad(j)) == Some(With(s, j, RStat))
    ensures Attempt(With(s, j, RStat), Go(j, 0)) == Some(With(s, j, ROpen(s.mtime)))
    ensures Attempt(With(s, j, ROpen(s.mtime)), Go(j, 0)) == Some(With(s, j, RLock(s.mtime)))
    ensures Attempt(With(s, j, RLock(s.mtime)), Go(j, 0)) == Some(With(s, j, RRead(s.mtime, [])))
  {
    WithTwice(s, j, RStat, ROpen(s.mtime));
    WithTwice(s, j, ROpen(s.mtime), RLock(s.mtime));
    WithTwice(s, j, RLock(s.mtime), RRead(s.mtime, []));
  }

  lemma {:induction false} ReaderGetsLock(s: System, j: nat)
    requires j < |s.procs| && Undisturbed(s, j)
    ensures Play(Attempt, s, LockSteps(j)) == Some(With(s, j, RRead(s.mtime, [])))
  {
    var a, b, c := With(s, j, RStat), With(s, j, ROpen(s.mtime)), With(s, j, RLock(s.mtime));
    StatAndOpen(s, j);
    First(s, BeginLoad(j), a);
    Then(s, [BeginLoad(j)], a, Go(j, 0), b);
    Then(s, [BeginLoad(j)] + [Go(j, 0)], b, Go(j, 0), c);
    Then(s, [BeginLoad(j)] + [Go(j, 0)] + [Go(j, 0)], c, Go(j, 0), With(s, j, RRead(s.mtime, [])));
  }

  /** Reading the whole file in one piece. */
  function ReadSteps(s: System, j: nat): seq<Step> {
    if s.bytes == [] then [] else [Go(j, |s.bytes|)]
  }

  lemma ReadAndUnlock(s: System, j: nat)
    requires j < |s.procs|
    ensures var (e, f) := (RRead(s.mtime, s.bytes), RUnlock(s.mtime, s.bytes, LastIndex(s)));
            && (s.bytes != [] ==>
                  Attempt(With(s, j, RRead(s.mtime, [])), Go(j, |s.bytes|)) == Some(With(s, j, e)))
            && Attempt(With(s, j, e), Go(j, 0)) == Some(With(s, j, f))
            && Attempt(With(s, j, f), Go(j, 0)) == Some(With(s, j, Idle(Loaded(s.mtime, s.bytes, LastIndex(s)))))
  {
    assert [] + s.bytes[0..0 + |s.bytes|] == s.bytes;
    var e, f := RRead(s.mtime, s.bytes), RUnlock(s.mtime, s.bytes, LastIndex(s));
    WithTwice(s, j, RRead(s.mtime, []), e);
    WithTwice(s, j, e, f);
    WithTwice(s, j, f, Idle(Loaded(s.mtime, s.bytes, LastIndex(s))));
  }

  lemma {:induction false} ReaderReads(s: System, j: nat)
    requires j < |s.procs| && Undisturbed(s, j)
    ensures Play(Attempt, s, LockSteps(j) + ReadSteps(s, j)) == Some(With(s, j, RRead(s.mtime, s.bytes)))
  {
    ReaderGetsLock(s, j);
    ReadAndUnlock(s, j);
    if s.bytes != [] {
      Then(s, LockSteps(j), With(s, j, RRead(s.mtime, [])), Go(j, |s.bytes|), With(s, j, RRead(s.mtime, s.bytes)));
    } else {
      assert LockSteps(j) + [] == LockSteps(j);
    }
  }

  /** An undisturbed reader returns exactly what is in the file. */
  lemma {:induction false} ReaderReturns(s: System, j: nat)
    requires j < |s.procs| && Undisturbed(s, j)
    ensures Play(Attempt, s, LockSteps(j) + ReadSteps(s, j) + [Go(j, 0)] + [Go(j, 0)])
         == Some(With(s, j, Idle(Loaded(s.mtime, s.bytes, LastIndex(s)))))
  {
    var e, f := With(s, j, RRead(s.mtime, s.bytes)), With(s, j, RUnlock(s.mtime, s.bytes, LastIndex(s)));
    var steps := LockSteps(j) + ReadSteps(s, j);
    ReaderReads(s, j);
    ReadAndUnlock(s, j);
    Then(s, steps, e, Go(j, 0), f);
    Then(s, steps + [Go(j, 0)], f, Go(j, 0), With(s, j, Idle(Loaded(s.mtime, s.bytes, LastIndex(s)))));
  }

  /** The file after a write was broken off at `pos`, unlocked, and `k` more bytes were flushed by close(). */
  function Broken(s: System, i: nat, k: nat): System
    requires i < |s.procs| && s.procs[i].WFill? && s.procs[i].pos + k <= |s.procs[i].data|
  {
    var (data, pos) := (s.procs[i].data, s.procs[i].pos);
    With(Write(s, pos, data[pos..pos + k]), i, Idle(GaveUp))
  }

  lemma BrokenContent(s: System, from: nat, i: nat, k: nat)
    requires Inv(s, from) && i < |s.procs| && s.procs[i].WFill? && s.procs[i].pos + k <= |s.procs[i].data|
    ensures Broken(s, i, k).bytes == Mixture(Last(s).data, s.procs[i].data, s.procs[i].pos + k)
  {
    assert ProcOk(s, s.procs[i], from);
    OverlayGoesOn(Last(s).data, s.procs[i].data, s.procs[i].pos, k);
  }

  lemma LateFlush(s: System, i: nat, k: nat)
    requires i < |s.procs| && s.procs[i].WFill? && s.procs[i].pos + k <= |s.procs[i].data|
    ensures var late := WLate(s.procs[i].data, s.procs[i].pos);
            Attempt(With(s, i, late), Go(i, k)) == Some(Broken(s, i, k))
  {
    WithTwice(s, i, WLate(s.procs[i].data, s.procs[i].pos), Idle(GaveUp));
  }

  /** The write breaks off, the lock goes, and close() flushes k more bytes. */
  function BreakSteps(i: nat, k: nat): seq<Step> {
    [BreakOff(i)] + [Go(i, 0)] + [Go(i, k)]
  }

  lemma BreakAndUnlock(s: System, i: nat)
    requires i < |s.procs| && s.procs[i].WFill? && s.procs[i].pos < |s.procs[i].data|
    ensures var (data, pos) := (s.procs[i].data, s.procs[i].pos);
            && Attempt(s, BreakOff(i)) == Some(With(s, i, WBroken(data, pos)))
            && Attempt(With(s, i, WBroken(data, pos)), Go(i, 0)) == Some(With(s, i, WLate(data, pos)))
  {
    var (data, pos) := (s.procs[i].data, s.procs[i].pos);
    WithTwice(s, i, WBroken(data, pos), WLate(data, pos));
  }

  lemma {:induction false} WriteBreaks(s: System, i: nat, k: nat)
    requires i < |s.procs| && s.procs[i].WFill? && s.procs[i].pos < |s.procs[i].data|
    requires s.procs[i].pos + k <= |s.procs[i].data|
    ensures Play(Attempt, s, BreakSteps(i, k)) == Some(Broken(s, i, k))
  {
    var (data, pos) := (s.procs[i].data, s.procs[i].pos);
    var a, b := With(s, i, WBroken(data, pos)), With(s, i, WLate(data, pos));
    BreakAndUnlock(s, i);
    First(s, BreakOff(i), a);
    Then(s, [BreakOff(i)], a, Go(i, 0), b);
    LateFlush(s, i, k);
    Then(s, [BreakOff(i)] + [Go(i, 0)], b, Go(i, k), Broken(s, i, k));
  }

  /**
   What a broken-off write leaves, for every old content, every new one, every
   place where it breaks off and every late flush: the first bytes of the new
   data over the old content, and nothing in the log.
   */
  lemma {:induction false} BrokenWriteLeaves(s: System, from: nat, i: nat, k: nat)
    requires Inv(s, from) && i < |s.procs| && s.procs[i].WFill? && s.procs[i].pos < |s.procs[i].data|
    requires s.procs[i].pos + k <= |s.procs[i].data|
    ensures Play(Attempt, s, BreakSteps(i, k)) == Some(Broken(s, i, k))
    ensures Broken(s, i, k).bytes == Mixture(Last(s).data, s.procs[i].data, s.procs[i].pos + k)
    ensures Broken(s, i, k).log == s.log
  {
    WriteBreaks(s, i, k);
    BrokenContent(s, from, i, k);
  }

  /** The next undisturbed reader is handed that mixture. */
  lemma {:induction false} BrokenWriteIsVisible(s: System, from: nat, i: nat, k: nat, j: nat)
    returns (steps: seq<Step>, t: System)
    requires Inv(s, from) && i < |s.procs| && s.procs[i].WFill? && s.procs[i].pos < |s.procs[i].data|
    requires s.procs[i].pos + k <= |s.procs[i].data|
    requires j < |s.procs| && j != i && s.procs[j].Idle?
    ensures BreakSteps(i, k) <= steps && Play(Attempt, s, steps) == Some(t) && t.log == s.log && |t.procs| == |s.procs|
    ensures t.procs[j].Idle? && t.procs[j].result.Loaded?
    ensures t.procs[j].result.content == Mixture(Last(s).data, s.procs[i].data, s.procs[i].pos + k)
  {
    var b := Broken(s, i, k);
    BrokenWriteLeaves(s, from, i, k);
    forall m | 0 <= m < |b.procs| && m != j ensures !Exclusive(b.procs[m]) {
      assert m != i ==> b.procs[m] == s.procs[m];
    }
    assert ProcOk(s, s.procs[i], from);
    ReaderReturns(b, j);
    t := With(b, j, Idle(Loaded(b.mtime, b.bytes, LastIndex(b))));
    var more := LockSteps(j) + ReadSteps(b, j) + [Go(j, 0)] + [Go(j, 0)];
    PlayOn(Attempt, s, BreakSteps(i, k), b, more);
    steps := BreakSteps(i, k) + more;
  }

  /** When the mixture is the old content, and when the new one. */
  lemma MixtureIsWhole(old_: seq<byte>, data: seq<byte>, p: nat)
    requires p <= |data|
    ensures Mixture(old_, data, p) == old_ <==> data[..p] <= old_
    ensures Mixture(old_, data, p) == data <==>
            if p <= |old_| then old_[p..] == data[p..] else p == |data|
  {
    var r := Mixture(old_, data, p);
    assert r[0..0 + p] == data[..p] && r[..p] == r[0..0 + p];
    assert data == data[..p] + data[p..];
    if p <= |old_| {
      assert r == data[..p] + old_[p..];
      assert old_ == old_[..p] + old_[p..];
      assert r[p..] == old_[p..] && data[p..] == data[p..];
    }
  }

  predicate Committed(s: System, content: seq<byte>) {
    exists n :: 0 <= n < |s.log| && s.log[n].data == content
  }

  /**
   So a broken-off write cannot be told from a whole one exactly when the
   mixture happens to be a content that some write left: the old content, when
   nothing was changed, or an earlier one.
   */
  lemma BrokenWriteShows(s: System, from: nat, i: nat, k: nat)
    requires Inv(s, from) && i < |s.procs| && s.procs[i].WFill? && s.procs[i].pos < |s.procs[i].data|
    requires s.procs[i].pos + k <= |s.procs[i].data|
    ensures var (old_, data, p) := (Last(s).data, s.procs[i].data, s.procs[i].pos + k);
            var b := Broken(s, i, k);
            && (Committed(b, b.bytes) <==> Committed(s, Mixture(old_, data, p)))
            && (data[..p] <= old_ ==> Committed(b, b.bytes))
            && (forall n :: 0 <= n < |s.log| && s.log[n].data == b.bytes && !(data[..p] <= old_) ==> n < |s.log| - 1)
  {
    var (old_, data, p) := (Last(s).data, s.procs[i].data, s.procs[i].pos + k);
    BrokenWriteLeaves(s, from, i, k);
    MixtureIsWhole(old_, data, p);
    if data[..p] <= old_ {
      assert s.log[|s.log| - 1].data == Mixture(old_, data, p);
    }
  }

  lemma OpenAndLock(s: System, i: nat, data: seq<byte>)
    requires Initial(s) && s.present && i < |s.procs|
    ensures Attempt(s, BeginWrite(i, data)) == Some(With(s, i, WOpen(data)))
    ensures Attempt(With(s, i, WOpen(data)), Go(i, 0)) == Some(With(s, i, WLock(data)))
    ensures Attempt(With(s, i, WLock(data)), Go(i, 0)) == Some(With(s, i, WFill(data, 0)))
  {
    WithTwice(s, i, WOpen(data), WLock(data));
    WithTwice(s, i, WLock(data), WFill(data, 0));
  }

  lemma AttemptKeepsInv(s: System, from: nat, step: Step)
    requires Inv(s, from) && Attempt(s, step).Some? && !step.BreakOff?
    ensures Inv(Attempt(s, step).value, from)
  {
    StepKeepsInv(s, from, step);
  }

  lemma {:induction false} WriteCanStart(s: System, i: nat, data: seq<byte>)
    requires Initial(s) && s.present && i < |s.procs|
    ensures Play(Attempt, s, [BeginWrite(i, data)] + [Go(i, 0)] + [Go(i, 0)]) == Some(With(s, i, WFill(data, 0)))
    ensures Inv(With(s, i, WFill(data, 0)), 0)
  {
    var a, b, c := With(s, i, WOpen(data)), With(s, i, WLock(data)), With(s, i, WFill(data, 0));
    OpenAndLock(s, i, data);
    InitialInv(s);
    AttemptKeepsInv(s, 0, BeginWrite(i, data));
    AttemptKeepsInv(a, 0, Go(i, 0));
    AttemptKeepsInv(b, 0, Go(i, 0));
    First(s, BeginWrite(i, data), a);
    Then(s, [BeginWrite(i, data)], a, Go(i, 0), b);
    Then(s, [BeginWrite(i, data)] + [Go(i, 0)], b, Go(i, 0), c);
  }

  /** Every such write can come about: any content in the file, any data, any number of bytes written. */
  lemma {:induction false} WriteCanReach(s: System, i: nat, data: seq<byte>, pos: nat)
    returns (steps: seq<Step>, t: System)
    requires Initial(s) && s.present && i < |s.procs| && pos <= |data|
    ensures Play(Attempt, s, steps) == Some(t) && Inv(t, 0) && |t.procs| == |s.procs|
    ensures t.procs[i] == WFill(data, pos) && t.log == s.log
    ensures forall j :: 0 <= j < |t.procs| && j != i ==> t.procs[j].Idle?
  {
    steps := [BeginWrite(i, data)] + [Go(i, 0)] + [Go(i, 0)];
    t := With(s, i, WFill(data, 0));
    WriteCanStart(s, i, data);
    if pos > 0 {
      AttemptKeepsInv(t, 0, Go(i, pos));
      var u := Attempt(t, Go(i, pos)).value;
      Then(s, steps, t, Go(i, pos), u);
      steps, t := steps + [Go(i, pos)], u;
    }
  }

  /**
   From any first state with a file there is a run in which a reader returns the
   first bytes of new data over the old content: for every data, every place where
   the write breaks off and every late flush.  No write has left that content,
   unless the new bytes were there already.
   */
  lemma {:induction false} MixtureIsRead(s: System, i: nat, j: nat, data: seq<byte>, pos: nat, k: nat)
    returns (run: seq<System>, steps: seq<Step>)
    requires Initial(s) && s.present && i < |s.procs| && j < |s.procs| && i != j
    requires pos < |data| && pos + k <= |data|
    ensures IsRun(run, steps) && run[0] == s && run[|steps|].log == s.log && |run[|steps|].procs| == |s.procs|
    ensures var t := run[|steps|];
            && t.procs[j].Idle? && t.procs[j].result.Loaded?
            && t.procs[j].result.content == Mixture(s.bytes, data, pos + k)
            && (Committed(t, t.procs[j].result.content) <==> data[..pos + k] <= s.bytes)
  {
    var front, u := WriteCanReach(s, i, data, pos);
    var more, t := BrokenWriteIsVisible(u, 0, i, k, j);
    PlayOn(Attempt, s, front, u, more);
    steps := front + more;
    run := PlayIsRun(s, steps);
    MixtureIsWhole(s.bytes, data, pos + k);
    assert s.log[0].data == s.bytes;
  }

  // ---- and how it ends ---------------------------------------------------------------------------------

  /** What holds in every run, whatever writes break off. */
  predicate ProcBase(s: System, p: Proc) {
    match p
    case Idle(Wrote(_, mine)) => mine < |s.log|
    case Idle(Loaded(_, _, seen)) => seen < |s.log|
    case WLock(_) => s.present
    case WFill(data, pos) => s.present && pos <= |data|
    case WStamp(mine) => s.present && mine < |s.log|
    case WUnlock(_, mine) => s.present && mine < |s.log|
    case WBroken(data, pos) => s.present && pos <= |data|
    case WLate(data, pos) => s.present && pos <= |data|
    case ROpen(ts) => s.present && ts <= s.mtime
    case RLock(ts) => s.present && ts <= s.mtime
    case RRead(_, _) => s.present
    case RUnlock(_, _, seen) => s.present && seen < |s.log|
    case _ => true
  }

  predicate Base(s: System) {
    LogOk(s) && LocksOk(s.procs) && forall i :: 0 <= i < |s.procs| ==> ProcBase(s, s.procs[i])
  }

  lemma StepKeepsLog(s: System, step: Step)
    requires Base(s) && Enabled(s, step)
    ensures LogOk(Apply(s, step)) && s.log <= Apply(s, step).log
    ensures Apply(s, step).mtime >= s.mtime && (s.present ==> Apply(s, step).present)
  {
    assert ProcBase(s, s.procs[step.i]);
  }

  lemma StepKeepsLocks(s: System, step: Step)
    requires Base(s) && Enabled(s, step)
    ensures LocksOk(Apply(s, step).procs)
  {
    var i := step.i;
    var p := Apply(s, step).procs[i];
    assert Apply(s, step).procs == s.procs[i := p];
    LocksAfter(s.procs, i, p);
  }

  /** What a process holds stays good while the log and the time grow. */
  lemma BaseStays(s: System, t: System, p: Proc)
    requires ProcBase(s, p) && |s.log| <= |t.log| && s.mtime <= t.mtime && (s.present ==> t.present)
    ensures ProcBase(t, p)
  {
  }

  lemma OwnBase(s: System, step: Step)
    requires Base(s) && Enabled(s, step)
    ensures ProcBase(Apply(s, step), Apply(s, step).procs[step.i])
  {
    assert ProcBase(s, s.procs[step.i]);
  }

  lemma StepKeepsBase(s: System, step: Step)
    requires Base(s) && Enabled(s, step)
    ensures Base(Apply(s, step))
  {
    var t := Apply(s, step);
    StepKeepsLog(s, step);
    StepKeepsLocks(s, step);
    OwnBase(s, step);
    OthersStay(s, step);
    forall j | 0 <= j < |t.procs| ensures ProcBase(t, t.procs[j]) {
      if j != step.i {
        BaseStays(s, t, s.procs[j]);
      }
    }
  }

  lemma OthersStay(s: System, step: Step)
    requires Enabled(s, step)
    ensures forall j :: 0 <= j < |s.procs| && j != step.i ==> Apply(s, step).procs[j] == s.procs[j]
  {
  }

  lemma {:induction false} RunKeepsBase(run: seq<System>, steps: seq<Step>, n: nat)
    requires IsRun(run, steps) && Initial(run[0]) && n < |run|
    ensures Base(run[n])
  {
    if n > 0 {
      RunKeepsBase(run, steps, n - 1);
      assert run[n] == Apply(run[n - 1], steps[n - 1]);
      StepKeepsBase(run[n - 1], steps[n - 1]);
    }
  }

  /** Nobody has still to flush after a write of its own broke off. */
  predicate NoLateFlush(procs: seq<Proc>) {
    forall i :: 0 <= i < |procs| ==> !procs[i].WLate?
  }

  /** Writer `i` has put the start of its data over `old_`, whatever that is. */
  predicate Mending(s: System, i: nat, data: seq<byte>, old_: seq<byte>) {
    && Base(s) && NoLateFlush(s.procs) && i < |s.procs| && s.procs[i].WFill? && s.procs[i].data == data
    && s.bytes == Overlay(old_, 0, data[..s.procs[i].pos])
  }

  /** While one writer has the lock, and no late flush is pending, nobody else gets at the file. */
  lemma OthersLeaveFile(s: System, step: Step, i: nat)
    requires Base(s) && NoLateFlush(s.procs) && i < |s.procs| && s.procs[i].WFill?
    requires Enabled(s, step) && step.i != i
    ensures var t := Apply(s, step);
            t.bytes == s.bytes && NoLateFlush(t.procs) && t.procs[i] == s.procs[i]
  {
    assert ProcBase(s, s.procs[i]);
    assert !Exclusive(s.procs[step.i]) && !s.procs[step.i].WLate?;
  }

  lemma OwnChunk(s: System, i: nat, k: nat, old_: seq<byte>)
    requires i < |s.procs| && s.procs[i].WFill? && s.procs[i].pos < |s.procs[i].data| && Enabled(s, Go(i, k))
    requires s.bytes == Overlay(old_, 0, s.procs[i].data[..s.procs[i].pos])
    ensures var (t, data, pos) := (Apply(s, Go(i, k)), s.procs[i].data, s.procs[i].pos);
            && t.procs == s.procs[i := WFill(data, pos + k)]
            && t.bytes == Overlay(old_, 0, data[..pos + k])
  {
    OverlayGoesOn(old_, s.procs[i].data, s.procs[i].pos, k);
  }

  lemma MendingGoesOn(s: System, step: Step, i: nat, data: seq<byte>, old_: seq<byte>)
    requires Mending(s, i, data, old_) && Enabled(s, step) && Apply(s, step).procs[i].WFill?
    ensures Mending(Apply(s, step), i, data, old_)
  {
    StepKeepsBase(s, step);
    if step.i == i {
      assert ProcBase(s, s.procs[i]);
      OwnChunk(s, i, step.k, old_);
    } else {
      OthersLeaveFile(s, step, i);
    }
  }

  /** The truncation at the end of the data puts everything in order again. */
  lemma MendingEnds(s: System, step: Step, i: nat, data: seq<byte>, old_: seq<byte>)
    requires Mending(s, i, data, old_) && Enabled(s, step) && Apply(s, step).procs[i].WStamp?
    ensures var t := Apply(s, step);
            t.bytes == data && |t.log| == |s.log| + 1 && Inv(t, |s.log|)
  {
    var t := Apply(s, step);
    assert step.i == i && ProcBase(s, s.procs[i]);
    assert data[..|data|] == data;
    StepKeepsLog(s, step);
    StepKeepsLocks(s, step);
    forall j | 0 <= j < |t.procs| ensures ProcOk(t, t.procs[j], |s.log|) {
      assert ProcBase(s, s.procs[j]);
    }
  }

  lemma {:induction false} MendingRun(run: seq<System>, steps: seq<Step>, m: nat, n: nat, i: nat)
    requires IsRun(run, steps) && m <= n < |run| && i < |run[m].procs| && run[m].procs[i].WFill?
    requires Mending(run[m], i, run[m].procs[i].data, run[m].bytes)
    requires forall x :: m <= x <= n ==> i < |run[x].procs| && run[x].procs[i].WFill?
    ensures Mending(run[n], i, run[m].procs[i].data, run[m].bytes)
  {
    if m < n {
      MendingRun(run, steps, m, n - 1, i);
      assert run[n] == Apply(run[n - 1], steps[n - 1]);
      MendingGoesOn(run[n - 1], steps[n - 1], i, run[m].procs[i].data, run[m].bytes);
    }
  }

  lemma MendingStarts(s: System, i: nat)
    requires Base(s) && NoLateFlush(s.procs) && i < |s.procs| && s.procs[i].WFill? && s.procs[i].pos == 0
    ensures Mending(s, i, s.procs[i].data, s.bytes)
  {
    OverlayFromStart(s.bytes, s.procs[i].data[..0]);
  }

  /** Writer `i` has the lock from state `m` on, and truncates in the step to state `q`. */
  predicate Completes(run: seq<System>, m: nat, q: nat, i: nat) {
    && m < q < |run|
    && (forall x :: m <= x <= q ==> i < |run[x].procs|)
    && run[m].procs[i].WFill? && run[m].procs[i].pos == 0
    && (forall x :: m <= x < q ==> run[x].procs[i].WFill?) && run[q].procs[i].WStamp?
  }

  lemma MendingLast(run: seq<System>, steps: seq<Step>, q: nat, i: nat, data: seq<byte>, old_: seq<byte>)
    requires IsRun(run, steps) && 0 < q < |run| && Mending(run[q - 1], i, data, old_)
    requires i < |run[q].procs| && run[q].procs[i].WStamp?
    ensures run[q].bytes == data && run[q].log != [] && Inv(run[q], |run[q].log| - 1)
  {
    assert Enabled(run[q - 1], steps[q - 1]) && run[q] == Apply(run[q - 1], steps[q - 1]);
    MendingEnds(run[q - 1], steps[q - 1], i, data, old_);
  }

  lemma {:induction false} Mended(run: seq<System>, steps: seq<Step>, m: nat, q: nat, i: nat)
    requires IsRun(run, steps) && Completes(run, m, q, i) && Base(run[m]) && NoLateFlush(run[m].procs)
    ensures run[q].bytes == run[m].procs[i].data && run[q].log != [] && Inv(run[q], |run[q].log| - 1)
  {
    MendingStarts(run[m], i);
    MendingRun(run, steps, m, q - 1, i);
    MendingLast(run, steps, q, i, run[m].procs[i].data, run[m].bytes);
  }

  /**
   Whatever has been broken off before: a write that begins when no late flush is
   pending, and is completed, leaves exactly its data, and from there on until the
   next broken-off write readers see whole writes again.
   */
  lemma {:induction false} CompletedWriteMends(
      run: seq<System>, steps: seq<Step>, m: nat, q: nat, n: nat, i: nat, j: nat)
    requires IsRun(run, steps) && Initial(run[0]) && Completes(run, m, q, i) && NoLateFlush(run[m].procs)
    requires q <= n < |run| && j < |run[n].procs| && forall x :: q <= x < n ==> !steps[x].BreakOff?
    ensures run[q].bytes == run[m].procs[i].data && run[q].log != []
    ensures ReadsWhole(run[n], j, |run[q].log| - 1)
  {
    RunKeepsBase(run, steps, m);
    Mended(run, steps, m, q, i);
    RunKeepsInv(run, steps, |run[q].log| - 1, q, n);
    InvReadsWhole(run[n], |run[q].log| - 1, j);
  }

  // ---- every write that truncates returns its timestamp --------------------------------------------------

  lemma {:induction false} OthersKeep(run: seq<System>, steps: seq<Step>, m: nat, n: nat, i: nat)
    requires IsRun(run, steps) && m <= n < |run| && i < |run[m].procs|
    requires forall x :: m <= x < n ==> steps[x].i != i
    ensures i < |run[n].procs| && run[n].procs[i] == run[m].procs[i]
  {
    if m < n {
      OthersKeep(run, steps, m, n - 1, i);
      assert run[n] == Apply(run[n - 1], steps[n - 1]);
    }
  }

  /**
   In every interleaving a writer that has truncated the file, and makes its two
   remaining accesses `a` and `b`, ends having written: its result is the time of
   its own commit.
   */
  lemma {:induction false} WriterEndsInWrote(run: seq<System>, steps: seq<Step>, m: nat, a: nat, b: nat, i: nat)
    requires IsRun(run, steps) && Initial(run[0]) && m <= a < b < |steps|
    requires forall x :: 0 <= x < b ==> !steps[x].BreakOff?
    requires i < |run[m].procs| && run[m].procs[i].WStamp?
    requires steps[a].i == i && steps[b].i == i
    requires forall x :: m <= x < b && x != a ==> steps[x].i != i
    ensures var mine := run[m].procs[i].mine;
            && mine < |run[b + 1].log| && i < |run[b + 1].procs|
            && run[b + 1].procs[i] == Idle(Wrote(run[b + 1].log[mine].at, mine))
  {
    var mine := run[m].procs[i].mine;
    OthersKeep(run, steps, m, a, i);
    InitialInv(run[0]);
    RunKeepsInv(run, steps, 0, 0, a);
    assert ProcOk(run[a], run[a].procs[i], 0);
    assert Enabled(run[a], steps[a]) && run[a + 1] == Apply(run[a], steps[a]);
    OthersKeep(run, steps, a + 1, b, i);
    assert Enabled(run[b], steps[b]) && run[b + 1] == Apply(run[b], steps[b]);
    LogGrows(run, steps, a, b + 1);
  }
}
