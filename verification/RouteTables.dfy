/**
 `add_route_table` and `delete_route_table`: naming routing tables in the text
 file /etc/iproute2/rt_tables, with a backup that is restored when the write fails.
 */
module RouteTables {
  import opened Runs
  import opened Wrappers
  import opened Text

  const LOWEST := 10
  const LIMIT := 255

  // ---- one line ----------------------------------------------------------------------

  /** `len(line.strip()) > 0 and not line.startswith('#')`. */
  predicate IsActive(line: string) {
    Words(line) != [] && line[..1] != "#"
  }

  /** The table number and name of an active line; None where the program would raise. */
  function Parse(line: string): Option<(int, string)>
    requires IsActive(line)
  {
    var w := Words(line);
    match ParseInt(w[0])
    case None => None
    case Some(n) => if |w| < 2 then None else Some((n, w[1]))
  }

  predicate Names(line: string, name: string) {
    |Words(line)| > 1 && Words(line)[1] == name
  }

  function NewLine(n: int, name: string): string {
    Shown(n) + "\t" + name + "\n"
  }

  lemma NewLineReads(n: int, name: string)
    requires IsWord(name)
    ensures var line := NewLine(n, name);
            IsLine(line) && Words(line) == [Shown(n), name] && IsActive(line) && Parse(line) == Some((n, name))
  {
    ShownParses(n);
    TwoWords(Shown(n), name);
    var line := NewLine(n, name);
    assert line[0] == Shown(n)[0];
    assert line[..1] == [line[0]];
  }

  /** The lines that count are those with something on them, but not the comments. */
  lemma LineCounts(line: string)
    ensures IsActive(line) <==> line != "" && line[0] != '#' && exists i :: 0 <= i < |line| && !IsSpace(line[i])
  {
    HasWords(line, "");
    if line != "" {
      assert line[..1] == [line[0]];
    }
  }

  /** The scan ends at line `i`: an active line that cannot be read, or that has the name, and none such before it. */
  ghost predicate StopsAt(lines: seq<string>, name: string, i: int) {
    0 <= i < |lines| && Stops(lines[i], name) && forall j :: 0 <= j < i ==> !Stops(lines[j], name)
  }

  predicate Stops(line: string, name: string) {
    IsActive(line) && (Parse(line).None? || Parse(line).value.1 == name)
  }

  /** Some active line has the number. */
  ghost predicate Taken(lines: seq<string>, n: int) {
    exists i :: 0 <= i < |lines| && IsActive(lines[i]) && Parse(lines[i]).Some? && Parse(lines[i]).value.0 == n
  }

  /** The least number from 10 to 254 that no line has; -1 when there is none. */
  ghost predicate LeastUntaken(lines: seq<string>, n: int) {
    if n == -1 then forall k :: 10 <= k <= 254 ==> Taken(lines, k)
    else 10 <= n <= 254 && !Taken(lines, n) && forall k :: 10 <= k < n ==> Taken(lines, k)
  }

  // ---- adding ---------------------------------------------------------------------------

  datatype Scan = Numbers(nums: seq<int>) | Exists | Raises

  /** The loop over the lines: it stops at the first line of that name, and raises at the first it cannot read. */
  function ScanLines(lines: seq<string>, name: string): Scan {
    if lines == [] then Numbers([])
    else
      var n := |lines| - 1;
      match ScanLines(lines[..n], name)
      case Numbers(nums) =>
        if !IsActive(lines[n]) then Numbers(nums)
        else if Parse(lines[n]).None? then Raises
        else if Parse(lines[n]).value.1 == name then Exists
        else Numbers(nums + [Parse(lines[n]).value.0])
      case other => other
  }

  function FirstFree(n: nat, nums: seq<int>): (r: int)
    ensures r == -1 || n <= r < LIMIT
    ensures r != -1 ==> r !in nums && forall k :: n <= k < r ==> k in nums
    ensures r == -1 ==> forall k :: n <= k < LIMIT ==> k in nums
    decreases LIMIT - n
  {
    if n >= LIMIT then -1 else if n !in nums then n else FirstFree(n + 1, nums)
  }

  datatype Plan = Keep | Fail | Rewrite(text: string)

  function AddPlan(text: string, name: string): Plan {
    match ScanLines(Lines(text), name)
    case Exists => Keep
    case Raises => Fail
    case Numbers(nums) => Rewrite(text + NewLine(FirstFree(LOWEST, nums), name))
  }

  // ---- deleting ----------------------------------------------------------------------------

  function Others(lines: seq<string>, name: string): seq<string> {
    if lines == [] then []
    else
      var n := |lines| - 1;
      Others(lines[..n], name) + (if Names(lines[n], name) then [] else [lines[n]])
  }

  function DeletePlan(text: string, name: string): Plan {
    Rewrite(Concat(Others(Lines(text), name)))
  }

  // ---- the file -------------------------------------------------------------------------------

  /** What the shell commands do; a failed write may leave anything in the file. */
  datatype Io = Io(backupOk: bool, writeOk: bool, garbage: string, restoreOk: bool)

  datatype Reply = Answer(ok: bool) | Raised

  datatype Files = Files(table: string, backup: Option<string>)

  function Carry(f: Files, plan: Plan, io: Io): (Files, Reply) {
    match plan
    case Keep => (f, Answer(true))
    case Fail => (f, Raised)
    case Rewrite(text) =>
      if !io.backupOk then (f, Answer(false))
      else if io.writeOk then (Files(text, None), Answer(true))
      else (Files(if io.restoreOk then f.table else io.garbage, Some(f.table)), Answer(false))
  }

  /** The loop over the lines of the table. */
  method ReadNumbers(lines: seq<string>, name: string) returns (r: Scan)
    ensures r == ScanLines(lines, name)
    ensures r.Numbers? ==> forall i :: 0 <= i < |lines| ==> !Stops(lines[i], name)
    ensures r.Numbers? ==> forall n :: n in r.nums <==> Taken(lines, n)
    ensures r.Exists? ==> exists i :: StopsAt(lines, name, i) && Parse(lines[i]).Some?
    ensures r.Raises? ==> exists i :: StopsAt(lines, name, i) && Parse(lines[i]).None?
  {
    var nums: seq<int> := [];
    var i := 0;
    while i < |lines|
      invariant 0 <= i <= |lines|
      invariant forall j :: 0 <= j < i ==> !Stops(lines[j], name)
      invariant forall n :: n in nums <==> Taken(lines[..i], n)
      invariant ScanLines(lines[..i], name) == Numbers(nums)
    {
      assert lines[..i + 1][..i] == lines[..i];
      if IsActive(lines[i]) {
        if Parse(lines[i]).None? {
          assert StopsAt(lines, name, i);
          ScanStops(lines, name, i + 1);
          return Raises;
        }
        if Parse(lines[i]).value.1 == name {
          assert StopsAt(lines, name, i);
          ScanStops(lines, name, i + 1);
          return Exists;
        }
        nums := nums + [Parse(lines[i]).value.0];
      }
      TakenOneMore(lines, i);
      i := i + 1;
    }
    assert lines[..i] == lines;
    r := Numbers(nums);
  }

  /** The loop over the numbers 10 to 254; -1 when all are taken. */
  method LeastFree(nums: seq<int>) returns (free: int)
    ensures free == -1 ==> forall k :: LOWEST <= k < LIMIT ==> k in nums
    ensures free != -1 ==> LOWEST <= free < LIMIT && free !in nums && forall k :: LOWEST <= k < free ==> k in nums
    ensures free == FirstFree(LOWEST, nums)
  {
    var n := LOWEST;
    while n < LIMIT
      invariant LOWEST <= n <= LIMIT
      invariant forall k :: LOWEST <= k < n ==> k in nums
      invariant FirstFree(LOWEST, nums) == FirstFree(n, nums)
    {
      if n !in nums {
        return n;
      }
      n := n + 1;
    }
    free := -1;
  }

  class RouteTableFile {
    var table: string
    var backup: Option<string>

    constructor (table: string)
      ensures this.table == table && backup == None
    {
      this.table, backup := table, None;
    }

    /** The new text gets there as a whole, or the old one stays, unless the restore fails too. */
    method Replace(text: string, io: Io) returns (ok: bool)
      modifies this
      ensures ok <==> io.backupOk && io.writeOk
      ensures ok ==> table == text && backup == None
      ensures !ok && (!io.backupOk || io.restoreOk) ==> table == old(table)
      ensures !ok ==> backup == if io.backupOk then Some(old(table)) else old(backup)
      ensures !ok && io.backupOk && !io.restoreOk ==> table == io.garbage
    {
      if !io.backupOk {
        return false;
      }
      backup := Some(table);
      table := if io.writeOk then text else io.garbage;
      if !io.writeOk {
        if io.restoreOk {
          table := backup.value;
        }
        return false;
      }
      backup := None;
      ok := true;
    }

    method AddRouteTable(name: string, io: Io) returns (r: Reply)
      modifies this
      ensures (Files(table, backup), r) == Carry(Files(old(table), old(backup)), AddPlan(old(table), name), io)
      ensures forall i :: StopsAt(Lines(old(table)), name, i) ==>
                && table == old(table) && backup == old(backup)
                && r == if Parse(Lines(old(table))[i]).None? then Raised else Answer(true)
      ensures (forall i :: !StopsAt(Lines(old(table)), name, i)) ==>
                && r == Answer(io.backupOk && io.writeOk)
                && (io.backupOk && io.writeOk ==>
                      exists n :: LeastUntaken(Lines(old(table)), n) && table == old(table) + NewLine(n, name))
                && (!io.backupOk || (!io.writeOk && io.restoreOk) ==> table == old(table))
    {
      var lines := Lines(table);
      var scan := ReadNumbers(lines, name);
      match scan {
        case Exists => r := Answer(true);
        case Raises => r := Raised;
        case Numbers(nums) =>
          var free := LeastFree(nums);
          assert LeastUntaken(lines, free);
          ConcatOneMore(table, NewLine(free, name));
          var ok := Replace(Concat(lines + [NewLine(free, name)]), io);
          r := Answer(ok);
      }
    }

    method DeleteRouteTable(name: string, io: Io) returns (r: Reply)
      modifies this
      ensures (Files(table, backup), r) == Carry(Files(old(table), old(backup)), DeletePlan(old(table), name), io)
      ensures r == Answer(io.backupOk && io.writeOk)
      ensures io.backupOk && io.writeOk ==> table == Concat(Others(Lines(old(table)), name))
      ensures !io.backupOk || (!io.writeOk && io.restoreOk) ==> table == old(table)
    {
      var lines := Lines(table);
      var kept: seq<string> := [];
      var i := 0;
      while i < |lines|
        invariant 0 <= i <= |lines|
        invariant kept == Others(lines[..i], name)
      {
        assert lines[..i + 1][..i] == lines[..i];
        if !Names(lines[i], name) {
          kept := kept + [lines[i]];
        }
        i := i + 1;
      }
      assert lines[..i] == lines;
      var ok := Replace(Concat(kept), io);
      r := Answer(ok);
    }
  }

  lemma {:induction false} ScanStops(lines: seq<string>, name: string, i: nat)
    requires i <= |lines| && !ScanLines(lines[..i], name).Numbers?
    ensures ScanLines(lines, name) == ScanLines(lines[..i], name)
  {
    if i < |lines| {
      assert lines[..|lines| - 1][..i] == lines[..i];
      ScanStops(lines[..|lines| - 1], name, i);
    } else {
      assert lines[..i] == lines;
    }
  }

  lemma TakenOneMore(lines: seq<string>, i: nat)
    requires i < |lines|
    ensures forall n ::
              Taken(lines[..i + 1], n) <==>
              Taken(lines[..i], n) || (IsActive(lines[i]) && Parse(lines[i]).Some? && Parse(lines[i]).value.0 == n)
  {
    forall n
      ensures Taken(lines[..i + 1], n) <==>
              Taken(lines[..i], n) || (IsActive(lines[i]) && Parse(lines[i]).Some? && Parse(lines[i]).value.0 == n)
    {
      var (a, b) := (lines[..i], lines[..i + 1]);
      assert b == a + [lines[i]] && b[i] == lines[i];
      if k :| 0 <= k < |a| && IsActive(a[k]) && Parse(a[k]).Some? && Parse(a[k]).value.0 == n {
        assert b[k] == a[k];
      }
    }
  }

  // ---- the number chosen ---------------------------------------------------------------------------

  function CutAt(nums: seq<int>, i: nat): seq<int>
    requires i < |nums|
  {
    nums[..i] + nums[i + 1..]
  }

  /** A list that holds every number of a range is at least as long as the range. */
  lemma {:induction false} Pigeonhole(nums: seq<int>, lo: int, hi: int)
    requires lo <= hi && forall k :: lo <= k < hi ==> k in nums
    ensures hi - lo <= |nums|
    decreases hi - lo
  {
    if lo < hi {
      assert hi - 1 in nums;
      var i :| 0 <= i < |nums| && nums[i] == hi - 1;
      forall k | lo <= k < hi - 1 ensures k in CutAt(nums, i) {
        assert k in nums;
        var j :| 0 <= j < |nums| && nums[j] == k;
        assert k == CutAt(nums, i)[if j < i then j else j - 1];
      }
      Pigeonhole(CutAt(nums, i), lo, hi - 1);
    }
  }

  /** Below 245 entries the number written is the least free one of 10..254. */
  lemma LeastFreeNumber(nums: seq<int>)
    ensures |nums| < LIMIT - LOWEST ==> FirstFree(LOWEST, nums) != -1
    ensures FirstFree(LOWEST, nums) == -1 <==> forall k :: LOWEST <= k < LIMIT ==> k in nums
  {
    if forall k :: LOWEST <= k < LIMIT ==> k in nums {
      Pigeonhole(nums, LOWEST, LIMIT);
    }
  }

  // ---- what the table keeps ---------------------------------------------------------------------------

  /** Every line is whole, and every active line can be read. */
  predicate Readable(lines: seq<string>) {
    forall i :: 0 <= i < |lines| ==> IsLine(lines[i]) && (IsActive(lines[i]) ==> Parse(lines[i]).Some?)
  }

  function LineEntry(line: string): seq<(int, string)> {
    if IsActive(line) && Parse(line).Some? then [Parse(line).value] else []
  }

  function Entries(lines: seq<string>): seq<(int, string)> {
    if lines == [] then []
    else
      var n := |lines| - 1;
      Entries(lines[..n]) + LineEntry(lines[n])
  }

  predicate DistinctEntries(es: seq<(int, string)>) {
    forall i, j :: 0 <= i < j < |es| ==> es[i].0 != es[j].0 && es[i].1 != es[j].1
  }

  predicate GoodTable(text: string) {
    Readable(Lines(text)) && DistinctEntries(Entries(Lines(text)))
  }

  predicate HasName(es: seq<(int, string)>, name: string) {
    exists i :: 0 <= i < |es| && es[i].1 == name
  }

  function FirstColumn(es: seq<(int, string)>): (r: seq<int>)
    ensures |r| == |es|
    ensures forall i :: 0 <= i < |es| ==> r[i] == es[i].0
  {
    seq(|es|, i requires 0 <= i < |es| => es[i].0)
  }

  /** On a readable table the scan finds the name, or collects the numbers of all entries. */
  lemma {:induction false} ScanReadable(lines: seq<string>, name: string)
    requires Readable(lines)
    ensures ScanLines(lines, name) ==
            if HasName(Entries(lines), name) then Exists else Numbers(FirstColumn(Entries(lines)))
  {
    if lines != [] {
      var n := |lines| - 1;
      ScanReadable(lines[..n], name);
      var front, es := Entries(lines[..n]), Entries(lines);
      if HasName(front, name) {
        var i :| 0 <= i < |front| && front[i].1 == name;
        assert es[i].1 == name;
      } else if IsActive(lines[n]) {
        assert es[|front|] == Parse(lines[n]).value;
        assert FirstColumn(es) == FirstColumn(front) + [es[|front|].0];
      } else {
        assert es == front;
      }
    }
  }

  lemma ConcatOneMore(text: string, line: string)
    ensures Concat(Lines(text) + [line]) == text + line
  {
    ConcatLines(text, "");
    ConcatAppend(Lines(text), [line]);
    assert Concat([line]) == line + Concat([]);
    assert "" + text == text && line + "" == line;
  }

  /** The new line ends up as the last line of a newline-terminated file. */
  lemma AddedLines(text: string, line: string)
    requires (forall i :: 0 <= i < |Lines(text)| ==> IsLine(Lines(text)[i])) && IsLine(line)
    ensures Lines(text + line) == Lines(text) + [line]
  {
    ConcatOneMore(text, line);
    LinesConcat(Lines(text) + [line]);
  }

  /** Whether another entry can be added without repeating a number: one of 10..254 is free, or -1 still is. */
  predicate HasRoom(es: seq<(int, string)>) {
    FirstFree(LOWEST, FirstColumn(es)) != -1 || -1 !in FirstColumn(es)
  }

  lemma OneMoreEntry(es: seq<(int, string)>, n: int, name: string)
    requires DistinctEntries(es) && !HasName(es, name)
    ensures DistinctEntries(es + [(n, name)]) <==> n !in FirstColumn(es)
  {
    var all := es + [(n, name)];
    forall i | 0 <= i < |es| ensures FirstColumn(es)[i] == all[i].0 {}
    if DistinctEntries(all) {
      forall i | 0 <= i < |es| ensures all[i].0 != all[|es|].0 {}
    }
  }

  /** Adding a new name adds one entry, with the least free number; the table stays good exactly when it had room. */
  lemma {:induction false} AddKeepsTable(text: string, name: string)
    requires GoodTable(text) && IsWord(name) && !HasName(Entries(Lines(text)), name)
    ensures var es := Entries(Lines(text));
            var n := FirstFree(LOWEST, FirstColumn(es));
            && AddPlan(text, name) == Rewrite(text + NewLine(n, name))
            && Entries(Lines(text + NewLine(n, name))) == es + [(n, name)]
            && (GoodTable(text + NewLine(n, name)) <==> HasRoom(es))
            && (|es| < LIMIT - LOWEST ==> LOWEST <= n < LIMIT && HasRoom(es))
  {
    var es := Entries(Lines(text));
    var n := FirstFree(LOWEST, FirstColumn(es));
    ScanReadable(Lines(text), name);
    LeastFreeNumber(FirstColumn(es));
    NewLineReads(n, name);
    AddedLines(text, NewLine(n, name));
    EntriesAppend(Lines(text), NewLine(n, name));
    ReadableAppend(Lines(text), NewLine(n, name));
    OneMoreEntry(es, n, name);
  }

  lemma ReadableAppend(lines: seq<string>, line: string)
    requires Readable(lines) && IsLine(line) && (IsActive(line) ==> Parse(line).Some?)
    ensures Readable(lines + [line])
  {
  }

  function WithoutName(es: seq<(int, string)>, name: string): seq<(int, string)> {
    if es == [] then []
    else
      var n := |es| - 1;
      WithoutName(es[..n], name) + (if es[n].1 == name then [] else [es[n]])
  }

  lemma EntriesAppend(lines: seq<string>, line: string)
    ensures Entries(lines + [line]) == Entries(lines) + LineEntry(line)
  {
    assert (lines + [line])[..|lines|] == lines;
  }

  lemma WithoutAppend(es: seq<(int, string)>, line: string, name: string)
    ensures WithoutName(es + LineEntry(line), name) ==
            WithoutName(es, name) + (if Names(line, name) then [] else LineEntry(line))
  {
    if LineEntry(line) != [] {
      assert (es + LineEntry(line))[..|es|] == es;
    } else {
      assert es + LineEntry(line) == es;
    }
  }

  lemma {:induction false} OthersEntries(lines: seq<string>, name: string)
    ensures Entries(Others(lines, name)) == WithoutName(Entries(lines), name)
  {
    if lines != [] {
      var n := |lines| - 1;
      OthersEntries(lines[..n], name);
      var kept := Others(lines[..n], name);
      EntriesAppend(kept, lines[n]);
      assert Others(lines, name) == if Names(lines[n], name) then kept else kept + [lines[n]];
      assert WithoutName(Entries(lines[..n]), name) + [] == WithoutName(Entries(lines[..n]), name);
      WithoutAppend(Entries(lines[..n]), lines[n], name);
    }
  }

  lemma {:induction false} OthersReadable(lines: seq<string>, name: string)
    requires Readable(lines)
    ensures Readable(Others(lines, name))
  {
    if lines != [] {
      OthersReadable(lines[..|lines| - 1], name);
    }
  }

  lemma {:induction false} WithoutDistinct(es: seq<(int, string)>, name: string)
    requires DistinctEntries(es)
    ensures DistinctEntries(WithoutName(es, name))
    ensures forall e :: e in WithoutName(es, name) <==> e in es && e.1 != name
    ensures |WithoutName(es, name)| <= |es|
  {
    if es != [] {
      var n := |es| - 1;
      WithoutDistinct(es[..n], name);
      assert es == es[..n] + [es[n]];
      var front := WithoutName(es[..n], name);
      forall i | 0 <= i < |front| ensures front[i].0 != es[n].0 && front[i].1 != es[n].1 {
        assert front[i] in front;
      }
    }
  }

  /** Deleting a name keeps the table good and removes exactly its entries. */
  lemma {:induction false} DeleteKeepsTable(text: string, name: string)
    requires GoodTable(text)
    ensures var text' := DeletePlan(text, name).text;
            && GoodTable(text')
            && Entries(Lines(text')) == WithoutName(Entries(Lines(text)), name)
  {
    var lines := Lines(text);
    OthersReadable(lines, name);
    OthersEntries(lines, name);
    WithoutDistinct(Entries(lines), name);
    LinesConcat(Others(lines, name));
  }

  // ---- delete undoes add --------------------------------------------------------------------------------

  lemma {:induction false} OthersAll(lines: seq<string>, name: string)
    ensures |Others(lines, name)| <= |lines|
    ensures Others(lines, name) == lines <==> forall i :: 0 <= i < |lines| ==> !Names(lines[i], name)
  {
    if lines != [] {
      var n := |lines| - 1;
      OthersAll(lines[..n], name);
      assert lines == lines[..n] + [lines[n]];
    }
  }

  /**
   Deleting a name that was just added restores a newline-terminated file
   exactly when no line used the name before; comment lines count too, because
   deleting does not skip them.
   */
  lemma DeleteUndoesAdd(text: string, name: string)
    requires Terminated(text) && IsWord(name) && AddPlan(text, name).Rewrite?
    ensures DeletePlan(AddPlan(text, name).text, name).text == text <==>
            forall i :: 0 <= i < |Lines(text)| ==> !Names(Lines(text)[i], name)
  {
    var lines := Lines(text);
    TerminatedLines(text, "");
    var n := FirstFree(LOWEST, ScanLines(lines, name).nums);
    NewLineReads(n, name);
    AddedLines(text, NewLine(n, name));
    var more := lines + [NewLine(n, name)];
    assert more[..|lines|] == lines;
    assert Others(more, name) == Others(lines, name);
    OthersAll(lines, name);
    ConcatLines(text, "");
    assert "" + text == text;
    OthersWhole(lines, name);
    LinesConcat(Others(lines, name));
  }

  lemma {:induction false} OthersWhole(lines: seq<string>, name: string)
    requires forall i :: 0 <= i < |lines| ==> IsLine(lines[i])
    ensures forall i :: 0 <= i < |Others(lines, name)| ==> IsLine(Others(lines, name)[i])
  {
    if lines != [] {
      OthersWhole(lines[..|lines| - 1], name);
    }
  }

  lemma {:induction false} OneMoreLine(text: string, line: string, word: string)
    requires IsLine(line)
    ensures |SplitLines(text + line, word)| == |SplitLines(text, word)| +
              (if (if text == "" then word == "" else text[|text| - 1] == '\n') then 1 else 0)
  {
    if text == "" {
      assert text + line == line + "";
      LineSplits(line, "", word);
    } else {
      assert (text + line)[1..] == text[1..] + line;
      if text[0] == '\n' {
        OneMoreLine(text[1..], line, "");
      } else {
        OneMoreLine(text[1..], line, word + [text[0]]);
      }
    }
  }

  /** The new entry gets a line of its own exactly when the file ended in a newline; else it joins the last line. */
  lemma NewEntryIsALine(text: string, line: string)
    requires IsLine(line)
    ensures Lines(text + line) == Lines(text) + [line] <==> Terminated(text)
  {
    OneMoreLine(text, line, "");
    if Terminated(text) {
      TerminatedLines(text, "");
      AddedLines(text, line);
    }
  }

  // ---- runs ------------------------------------------------------------------------------------------------

  datatype Op = Add(name: string, io: Io) | Delete(name: string, io: Io)

  function PlanOf(table: string, op: Op): Plan {
    match op
    case Add(name, _) => AddPlan(table, name)
    case Delete(name, _) => DeletePlan(table, name)
  }

  /** What an operation makes of the table; the backup file has no part in it. */
  function Perform(table: string, op: Op): string {
    Carry(Files(table, None), PlanOf(table, op), op.io).0.table
  }

  /** Whether an operation rewrites the table in full. */
  predicate Succeeds(table: string, op: Op) {
    PlanOf(table, op).Rewrite? && op.io.backupOk && op.io.writeOk
  }

  /** An operation writes all its text or changes nothing, exactly as long as the restore works where it is needed. */
  lemma AllOrNothing(table: string, op: Op)
    ensures Succeeds(table, op) ==> Perform(table, op) == PlanOf(table, op).text
    ensures !Succeeds(table, op) ==>
              (Perform(table, op) == table <==>
                 || !PlanOf(table, op).Rewrite? || !op.io.backupOk || op.io.restoreOk || op.io.garbage == table)
  {
  }

  /** Over any run with working restores the table is what the successful operations alone would have made of it. */
  lemma {:induction false} FailedOpsVanish(table: string, ops: seq<Op>, k: nat)
    requires k <= |ops| && forall i :: 0 <= i < k ==> ops[i].io.restoreOk
    ensures var done := Counted(Perform, Succeeds, table, ops, k);
            After(Perform, table, ops, k) == After(Perform, table, done, |done|)
  {
    forall i | 0 <= i < k && !Succeeds(After(Perform, table, ops, i), ops[i])
      ensures Perform(After(Perform, table, ops, i), ops[i]) == After(Perform, table, ops, i)
    {
      AllOrNothing(After(Perform, table, ops, i), ops[i]);
    }
    OnlyCountedMatter(Perform, Succeeds, table, ops, k);
  }

  lemma StepKeepsTable(table: string, op: Op)
    requires GoodTable(table) && Fits(table, op)
    ensures GoodTable(Perform(table, op))
  {
    AllOrNothing(table, op);
    match op {
      case Add(name, _) =>
        ScanReadable(Lines(table), name);
        if !HasName(Entries(Lines(table)), name) {
          AddKeepsTable(table, name);
        }
      case Delete(name, _) =>
        DeleteKeepsTable(table, name);
    }
  }

  /** What an operation of a run needs: a name that is a word, and room for another entry. */
  predicate Fits(table: string, op: Op) {
    op.io.restoreOk && (op.Add? ==> IsWord(op.name) && HasRoom(Entries(Lines(table))))
  }

  /**
   Over any run of adds and deletes numbers and names stay distinct, as long as
   every add finds room; below 245 entries it does.
   */
  lemma {:induction false} RunKeepsTable(table: string, ops: seq<Op>, k: nat)
    requires k <= |ops| && GoodTable(table)
    requires forall i :: 0 <= i < k ==> Fits(After(Perform, table, ops, i), ops[i])
    ensures GoodTable(After(Perform, table, ops, k))
  {
    forall i | 0 <= i < k && GoodTable(After(Perform, table, ops, i))
      ensures GoodTable(Perform(After(Perform, table, ops, i), ops[i]))
    {
      StepKeepsTable(After(Perform, table, ops, i), ops[i]);
    }
    Kept(Perform, GoodTable, table, ops, k);
  }

  // ---- what no operation takes away ------------------------------------------------------------------------

  lemma {:induction false} NoStopNumbers(lines: seq<string>, name: string)
    requires forall j :: 0 <= j < |lines| ==> !Stops(lines[j], name)
    ensures ScanLines(lines, name).Numbers?
  {
    if lines != [] {
      NoStopNumbers(lines[..|lines| - 1], name);
    }
  }

  /**
   Adding a name that the table has, or to a table that cannot be read up to it,
   leaves the file and the backup alone, whatever the commands would have done.
   */
  lemma {:induction false} StoppedAddKeeps(f: Files, name: string, io: Io, i: int)
    requires StopsAt(Lines(f.table), name, i)
    ensures Carry(f, PlanOf(f.table, Add(name, io)), io)
         == (f, if Parse(Lines(f.table)[i]).None? then Raised else Answer(true))
    ensures Perform(f.table, Add(name, io)) == f.table
  {
    var lines := Lines(f.table);
    NoStopNumbers(lines[..i], name);
    assert lines[..i + 1][..i] == lines[..i] && lines[..i + 1][i] == lines[i];
    ScanStops(lines, name, i + 1);
  }

  /** Some active line reads as the entry. */
  ghost predicate OnLine(lines: seq<string>, e: (int, string)) {
    exists i :: 0 <= i < |lines| && IsActive(lines[i]) && Parse(lines[i]) == Some(e)
  }

  lemma OnLineOneMore(front: seq<string>, last: string, e: (int, string))
    ensures OnLine(front + [last], e) <==> OnLine(front, e) || (IsActive(last) && Parse(last) == Some(e))
  {
    var all := front + [last];
    assert all[|front|] == last;
    if i :| 0 <= i < |front| && IsActive(front[i]) && Parse(front[i]) == Some(e) {
      assert all[i] == front[i];
    }
  }

  /** The entries are those of the active lines that can be read. */
  lemma {:induction false} EntryLine(lines: seq<string>, e: (int, string))
    ensures e in Entries(lines) <==> OnLine(lines, e)
  {
    if lines != [] {
      var (front, last) := (lines[..|lines| - 1], lines[|lines| - 1]);
      EntryLine(front, e);
      OnLineOneMore(front, last, e);
      EntriesAppend(front, last);
      assert lines == front + [last];
    }
  }

  lemma {:induction false} FirstStop(lines: seq<string>, name: string, k: nat) returns (i: int)
    requires k < |lines| && Stops(lines[k], name)
    ensures StopsAt(lines, name, i)
    decreases k
  {
    if j :| 0 <= j < k && Stops(lines[j], name) {
      i := FirstStop(lines, name, j);
    } else {
      i := k;
    }
  }

  /** In a table that can be read, adding a name it has changes nothing and answers that all is well. */
  lemma {:induction false} AddingAgainKeeps(f: Files, name: string, io: Io)
    requires Readable(Lines(f.table)) && HasName(Entries(Lines(f.table)), name)
    ensures Carry(f, PlanOf(f.table, Add(name, io)), io) == (f, Answer(true))
  {
    var (lines, es) := (Lines(f.table), Entries(Lines(f.table)));
    var k :| 0 <= k < |es| && es[k].1 == name;
    EntryLine(lines, es[k]);
    assert es[k] in es;
    var j :| 0 <= j < |lines| && IsActive(lines[j]) && Parse(lines[j]) == Some(es[k]);
    var i := FirstStop(lines, name, j);
    StoppedAddKeeps(f, name, io, i);
  }

  /** Whatever name is added, a newline-terminated table keeps its entries, and its newline. */
  lemma {:induction false} AddKeepsEntries(text: string, name: string, n: int, e: (int, string))
    requires Terminated(text) && e in Entries(Lines(text))
    ensures Terminated(text + NewLine(n, name)) && e in Entries(Lines(text + NewLine(n, name)))
  {
    var (lines, more) := (Lines(text), Lines(NewLine(n, name)));
    LinesAppend(text, NewLine(n, name));
    EntryLine(lines, e);
    EntryLine(lines + more, e);
    var i :| 0 <= i < |lines| && IsActive(lines[i]) && Parse(lines[i]) == Some(e);
    assert (lines + more)[i] == lines[i];
  }

  /** Each line as often as before, but for those of the name. */
  lemma {:induction false} OthersExactly(lines: seq<string>, name: string, line: string)
    ensures multiset(Others(lines, name))[line] ==
            if |Words(line)| > 1 && Words(line)[1] == name then 0 else multiset(lines)[line]
  {
    if lines != [] {
      var n := |lines| - 1;
      OthersExactly(lines[..n], name, line);
      assert lines == lines[..n] + [lines[n]];
    }
  }

  lemma {:induction false} DeleteKeepsEntries(text: string, name: string, e: (int, string))
    requires Terminated(text) && e in Entries(Lines(text)) && e.1 != name
    ensures Terminated(DeletePlan(text, name).text) && e in Entries(Lines(DeletePlan(text, name).text))
  {
    var (lines, kept) := (Lines(text), Others(Lines(text), name));
    TerminatedLines(text, "");
    OthersWhole(lines, name);
    LinesConcat(kept);
    WholeTerminated(kept);
    EntryLine(lines, e);
    var i :| 0 <= i < |lines| && IsActive(lines[i]) && Parse(lines[i]) == Some(e);
    OthersExactly(lines, name, lines[i]);
    assert lines[i] in kept;
    var k :| 0 <= k < |kept| && kept[k] == lines[i];
    EntryLine(kept, e);
  }

  lemma {:induction false} WholeTerminated(lines: seq<string>)
    requires forall i :: 0 <= i < |lines| ==> IsLine(lines[i])
    ensures Terminated(Concat(lines))
  {
    if lines != [] {
      WholeTerminated(lines[1..]);
    }
  }

  predicate HasEntry(table: string, e: (int, string)) {
    Terminated(table) && e in Entries(Lines(table))
  }

  predicate Spares(op: Op, e: (int, string)) {
    op.io.restoreOk && (op.Delete? ==> op.name != e.1)
  }

  lemma {:induction false} StepKeepsEntry(table: string, op: Op, e: (int, string))
    requires HasEntry(table, e) && Spares(op, e)
    ensures HasEntry(Perform(table, op), e)
  {
    AllOrNothing(table, op);
    if Succeeds(table, op) {
      match op {
        case Add(name, _) =>
          var n := FirstFree(LOWEST, ScanLines(Lines(table), name).nums);
          AddKeepsEntries(table, name, n, e);
        case Delete(name, _) => DeleteKeepsEntries(table, name, e);
      }
    }
  }

  /**
   Over any run with working restores, whatever names are added and whatever
   fails, an entry stays in the table until its name is deleted.
   */
  lemma {:induction false} EntriesStay(table: string, ops: seq<Op>, k: nat, e: (int, string))
    requires k <= |ops| && Terminated(table) && e in Entries(Lines(table))
    requires forall i :: 0 <= i < k ==> Spares(ops[i], e)
    ensures e in Entries(Lines(After(Perform, table, ops, k)))
  {
    forall i | 0 <= i < k && HasEntry(After(Perform, table, ops, i), e)
      ensures HasEntry(Perform(After(Perform, table, ops, i), ops[i]), e)
    {
      StepKeepsEntry(After(Perform, table, ops, i), ops[i], e);
    }
    Kept(Perform, (t: string) => HasEntry(t, e), table, ops, k);
  }
}
