/** `iscsiadm.session`: collecting the devices of a session report, section by section. */
module SessionReport {
  import opened Wrappers

  type Info = map<string, string>

  /** One line: the start of a section (None when the name cannot be read), or the fields it sets, mostly none. */
  datatype Line = Target(name: Option<string>) | Fields(info: Info)

  datatype State = State(devices: map<string, Info>, info: Info, target: Option<string>)

  function Flush(s: State): State {
    if s.target.Some? && s.info != map[] then State(s.devices[s.target.value := s.info], map[], s.target) else s
  }

  function Advance(s: State, line: Line): State {
    match line
    case Target(name) => Flush(s).(target := name)
    case Fields(info) => s.(info := s.info + info)
  }

  function Read(lines: seq<Line>): State {
    if lines == [] then State(map[], map[], None) else Advance(Read(lines[..|lines| - 1]), lines[|lines| - 1])
  }

  lemma ReadOneMore(front: seq<Line>, line: Line)
    ensures Read(front + [line]) == Advance(Read(front), line)
  {
    assert (front + [line])[..|front|] == front;
  }

  method Session(lines: seq<Line>) returns (devices: map<string, Info>)
    ensures devices == Flush(Read(lines)).devices
  {
    devices := map[];
    var info: Info := map[];
    var target: Option<string> := None;
    var i := 0;
    while i < |lines|
      invariant 0 <= i <= |lines|
      invariant Read(lines[..i]) == State(devices, info, target)
    {
      assert lines[..i + 1][..i] == lines[..i];
      match lines[i] {
        case Target(name) =>
          if target.Some? && info != map[] {
            devices := devices[target.value := info];
            info := map[];
          }
          target := name;
        case Fields(f) =>
          info := info + f;
      }
      i := i + 1;
    }
    assert lines[..i] == lines;
    if target.Some? && info != map[] {
      devices := devices[target.value := info];
    }
  }

  // ---- sections ---------------------------------------------------------------------

  /** A target line and the field lines after it. */
  datatype Section = Section(name: Option<string>, body: seq<Info>)

  const NOTHING: Info := map[]

  function Sum(body: seq<Info>): Info {
    if body == [] then NOTHING else Sum(body[..|body| - 1]) + body[|body| - 1]
  }

  function FieldLines(body: seq<Info>): seq<Line> {
    if body == [] then [] else FieldLines(body[..|body| - 1]) + [Fields(body[|body| - 1])]
  }

  function Lines(ss: seq<Section>): seq<Line> {
    if ss == [] then []
    else
      var n := |ss| - 1;
      Lines(ss[..n]) + ([Target(ss[n].name)] + FieldLines(ss[n].body))
  }

  /** One more field line in the last section. */
  function Longer(ss: seq<Section>, info: Info): (r: seq<Section>)
    requires ss != []
    ensures r != []
  {
    var n := |ss| - 1;
    ss[..n] + [Section(ss[n].name, ss[n].body + [info])]
  }

  lemma OneSectionMore(ss: seq<Section>, last: Section)
    ensures Lines(ss + [last]) == Lines(ss) + ([Target(last.name)] + FieldLines(last.body))
  {
    assert (ss + [last])[..|ss|] == ss;
  }

  lemma OneLineMore(ss: seq<Section>, info: Info)
    requires ss != []
    ensures Lines(Longer(ss, info)) == Lines(ss) + [Fields(info)]
  {
    var n := |ss| - 1;
    var body := ss[n].body + [info];
    assert body[..|body| - 1] == ss[n].body;
    OneSectionMore(ss[..n], Section(ss[n].name, body));
    OneSectionMore(ss[..n], ss[n]);
    assert ss == ss[..n] + [ss[n]];
  }

  lemma OneTargetMore(ss: seq<Section>, name: Option<string>)
    ensures Lines(ss + [Section(name, [])]) == Lines(ss) + [Target(name)]
  {
    OneSectionMore(ss, Section(name, []));
    assert [Target(name)] + FieldLines([]) == [Target(name)];
  }

  /** The sections of a report one line longer. */
  function Extended(ss: seq<Section>, line: Line): (r: seq<Section>)
    requires ss != []
    ensures r != []
  {
    match line
    case Target(name) => ss + [Section(name, [])]
    case Fields(info) => Longer(ss, info)
  }

  lemma ExtendedPrints(ss: seq<Section>, line: Line)
    requires ss != []
    ensures Lines(Extended(ss, line)) == Lines(ss) + [line]
  {
    match line {
      case Target(name) => OneTargetMore(ss, name);
      case Fields(info) => OneLineMore(ss, info);
    }
  }

  lemma FirstAndLast(first: Line, lines: seq<Line>)
    requires lines != []
    ensures var n := |lines| - 1;
            ([first] + lines[..n]) + [lines[n]] == [first] + lines
  {
    assert lines == lines[..|lines| - 1] + [lines[|lines| - 1]];
  }

  lemma OneSection()
    ensures Lines([Section(None, [])]) == [Target(None)]
  {
    OneTargetMore([], None);
    assert [] + [Section(None, [])] == [Section(None, [])];
  }

  /** A report cut at its target lines; those before the first one are an unnamed section. */
  function Sections(lines: seq<Line>): (r: seq<Section>)
    ensures r != [] && Lines(r) == [Target(None)] + lines
  {
    if lines == [] then
      OneSection();
      [Section(None, [])]
    else
      var n := |lines| - 1;
      ExtendedPrints(Sections(lines[..n]), lines[n]);
      FirstAndLast(Target(None), lines);
      Extended(Sections(lines[..n]), lines[n])
  }

  /** An unnamed section at the start makes no difference to the parser. */
  lemma {:induction false} LeadingTarget(lines: seq<Line>)
    ensures Read([Target(None)] + lines) == Read(lines)
  {
    if lines == [] {
      ReadOneMore([], Target(None));
      assert [] + [Target(None)] == [Target(None)] + lines;
    } else {
      var n := |lines| - 1;
      LeadingTarget(lines[..n]);
      ReadOneMore([Target(None)] + lines[..n], lines[n]);
      assert [Target(None)] + lines == ([Target(None)] + lines[..n]) + [lines[n]];
    }
  }

  /** So the parser's state after a report is its state after the report's sections. */
  lemma ReadIsSections(lines: seq<Line>)
    ensures Read(lines) == Read(Lines(Sections(lines)))
  {
    LeadingTarget(lines);
  }

  /** Two ways to cut one list: off its last line, and off its first. */
  lemma BothEnds(front: seq<Line>, last: Line, first: Line, lines: seq<Line>)
    requires front != [] && front + [last] == [first] + lines
    ensures lines != [] && last == lines[|lines| - 1] && front == [first] + lines[..|lines| - 1]
  {
    var whole := front + [last];
    assert whole[..|front|] == front && whole[|front|] == last;
    assert |lines| == |front| && ([first] + lines)[|front|] == lines[|front| - 1];
    assert ([first] + lines)[..|front|] == [first] + lines[..|lines| - 1];
  }

  lemma {:induction false} SomeLines(ss: seq<Section>)
    requires ss != []
    ensures Lines(ss) != []
  {
  }

  /** The sections of a report are the only ones that print it. */
  lemma {:induction false} OnlySections(ss: seq<Section>, lines: seq<Line>)
    requires ss != [] && Lines(ss) == [Target(None)] + lines
    ensures ss == Sections(lines)
    decreases |lines|
  {
    var n := |ss| - 1;
    var (name, body) := (ss[n].name, ss[n].body);
    assert ss == ss[..n] + [ss[n]];
    if body != [] {
      var m := |body| - 1;
      var shorter := ss[..n] + [Section(name, body[..m])];
      assert shorter[..n] == ss[..n] && body == body[..m] + [body[m]];
      OnlyLonger(shorter, body[m], ss, lines);
    } else {
      OneSectionMore(ss[..n], ss[n]);
      assert Lines(ss) == Lines(ss[..n]) + [Target(name)];
      if n > 0 {
        SomeLines(ss[..n]);
        BothEnds(Lines(ss[..n]), Target(name), Target(None), lines);
        OnlySections(ss[..n], lines[..|lines| - 1]);
      } else {
        assert Lines(ss)[0] == Target(name) && lines == [];
      }
    }
  }

  lemma {:induction false} OnlyLonger(shorter: seq<Section>, info: Info, ss: seq<Section>, lines: seq<Line>)
    requires shorter != [] && ss == Longer(shorter, info) && Lines(ss) == [Target(None)] + lines
    ensures ss == Sections(lines)
    decreases |lines|, 0
  {
    OneLineMore(shorter, info);
    SomeLines(shorter);
    BothEnds(Lines(shorter), Fields(info), Target(None), lines);
    OnlySections(shorter, lines[..|lines| - 1]);
  }

  /** The fields of the unnamed sections a report ends in. */
  function Loose(ss: seq<Section>): Info {
    if ss == [] || ss[|ss| - 1].name.Some? then NOTHING
    else Loose(ss[..|ss| - 1]) + Sum(ss[|ss| - 1].body)
  }

  /** What a section collects: its own fields on top of those of the unnamed sections just before it. */
  function Collected(ss: seq<Section>): Info
    requires ss != []
  {
    Loose(ss[..|ss| - 1]) + Sum(ss[|ss| - 1].body)
  }

  function Devices(ss: seq<Section>): map<string, Info> {
    if ss == [] then map[]
    else
      var n := |ss| - 1;
      var d := Devices(ss[..n]);
      if ss[n].name.Some? && Collected(ss) != NOTHING then d[ss[n].name.value := Collected(ss)] else d
  }

  lemma {:induction false} ReadBody(front: seq<Line>, body: seq<Info>)
    ensures var s := Read(front);
            Read(front + FieldLines(body)) == s.(info := s.info + Sum(body))
  {
    if body == [] {
      assert front + FieldLines(body) == front;
      assert Read(front).info + NOTHING == Read(front).info;
    } else {
      var n := |body| - 1;
      ReadBody(front, body[..n]);
      assert front + FieldLines(body) == (front + FieldLines(body[..n])) + [Fields(body[n])];
      ReadOneMore(front + FieldLines(body[..n]), Fields(body[n]));
      PlusAssociates(Read(front).info, Sum(body[..n]), body[n]);
    }
  }

  lemma PlusAssociates(a: Info, b: Info, c: Info)
    ensures (a + b) + c == a + (b + c)
  {
  }

  /** The loop's state after whole sections. */
  predicate After(s: State, ss: seq<Section>) {
    if ss == [] then s == State(map[], NOTHING, None)
    else s == State(Devices(ss[..|ss| - 1]), Collected(ss), ss[|ss| - 1].name)
  }

  lemma {:induction false} ReadOneSection(front: seq<Line>, section: Section)
    ensures var t := Advance(Read(front), Target(section.name));
            Read(front + ([Target(section.name)] + FieldLines(section.body))) == t.(info := t.info + Sum(section.body))
  {
    ReadOneMore(front, Target(section.name));
    ReadBody(front + [Target(section.name)], section.body);
    assert front + ([Target(section.name)] + FieldLines(section.body))
        == (front + [Target(section.name)]) + FieldLines(section.body);
  }

  lemma {:induction false} ReadSections(ss: seq<Section>)
    ensures After(Read(Lines(ss)), ss)
  {
    if ss != [] {
      var n := |ss| - 1;
      ReadSections(ss[..n]);
      ReadOneSection(Lines(ss[..n]), ss[n]);
      assert ss == ss[..n] + [ss[n]];
      OneSectionMore(ss[..n], ss[n]);
      SectionStep(Read(Lines(ss[..n])), ss);
    }
  }

  lemma SectionStep(s: State, ss: seq<Section>)
    requires ss != [] && After(s, ss[..|ss| - 1])
    ensures var n := |ss| - 1;
            var t := Advance(s, Target(ss[n].name));
            After(t.(info := t.info + Sum(ss[n].body)), ss)
    ensures Flush(s).devices == Devices(ss[..|ss| - 1])
  {
    var n := |ss| - 1;
    if n > 0 {
      assert ss[..n][n - 1] == ss[n - 1];
    }
  }

  /** What one would expect: every named section with fields of its own, the last one of a name winning. */
  function OwnFields(ss: seq<Section>): map<string, Info> {
    if ss == [] then map[]
    else
      var n := |ss| - 1;
      var d := OwnFields(ss[..n]);
      if ss[n].name.Some? && Sum(ss[n].body) != NOTHING then d[ss[n].name.value := Sum(ss[n].body)] else d
  }

  /** What the parser returns for any report, section by section. */
  lemma {:induction false} ReportIsDevices(lines: seq<Line>)
    ensures Flush(Read(lines)).devices == Devices(Sections(lines))
  {
    ReadIsSections(lines);
    ReadSections(Sections(lines));
  }

  lemma NothingPlus(i: Info)
    ensures NOTHING + i == i
  {
  }

  // ---- whose fields a device gets ----------------------------------------------------

  /** A section collects its own fields only, exactly when it has every loose key before it itself. */
  lemma OwnOnly(ss: seq<Section>)
    requires ss != []
    ensures var n := |ss| - 1;
            Collected(ss) == Sum(ss[n].body) <==> Loose(ss[..n]).Keys <= Sum(ss[n].body).Keys
  {
    var n := |ss| - 1;
    PlusIsOwn(Loose(ss[..n]), Sum(ss[n].body));
  }

  lemma OtherSection(front: seq<Section>, last: Section, name: string)
    requires last.name != Some(name)
    ensures name in Devices(front + [last]) <==> name in Devices(front)
    ensures name in Devices(front) ==> Devices(front + [last])[name] == Devices(front)[name]
  {
    assert (front + [last])[..|front|] == front;
  }

  /** The device of the last section of a name is what that section collected, if anything. */
  lemma {:induction false} DeviceIsCollected(part: seq<Section>, later: seq<Section>, name: string)
    requires part != [] && part[|part| - 1].name == Some(name) && Collected(part) != NOTHING
    requires forall j :: 0 <= j < |later| ==> later[j].name != Some(name)
    ensures name in Devices(part + later) && Devices(part + later)[name] == Collected(part)
  {
    if later == [] {
      assert part + later == part;
    } else {
      var m := |later| - 1;
      DeviceIsCollected(part, later[..m], name);
      OtherSection(part + later[..m], later[m], name);
      assert part + later == (part + later[..m]) + [later[m]];
    }
  }

  /** Section `k` is the last one of its name, and has fields of its own. */
  predicate LastOwn(ss: seq<Section>, k: nat, name: string) {
    && k < |ss| && ss[k].name == Some(name) && Sum(ss[k].body) != NOTHING
    && forall j :: k < j < |ss| ==> ss[j].name != Some(name)
  }

  lemma {:induction false} LastOwnIsDevice(ss: seq<Section>, k: nat, name: string)
    requires LastOwn(ss, k, name)
    ensures name in Devices(ss) && Devices(ss)[name] == Loose(ss[..k]) + Sum(ss[k].body)
  {
    var (part, later) := (ss[..k + 1], ss[k + 1..]);
    assert part[..k] == ss[..k] && ss == part + later;
    NotNothing(Loose(ss[..k]), Sum(ss[k].body));
    DeviceIsCollected(part, later, name);
  }

  lemma PlusIsOwn(a: Info, b: Info)
    ensures a + b == b <==> a.Keys <= b.Keys
  {
    assert (a + b).Keys == a.Keys + b.Keys;
  }

  /**
   In any report, a device whose last section, number `k`, has fields of its own is
   reported with them on top of those of the unnamed sections directly before;
   so with exactly its own if and only if it repeats all their keys.
   */
  lemma {:induction false} DeviceIsOwn(lines: seq<Line>, k: nat, name: string)
    requires LastOwn(Sections(lines), k, name)
    ensures var (ss, devices) := (Sections(lines), Flush(Read(lines)).devices);
            && name in devices && devices[name] == Loose(ss[..k]) + Sum(ss[k].body)
            && (devices[name] == Sum(ss[k].body) <==> Loose(ss[..k]).Keys <= Sum(ss[k].body).Keys)
  {
    var ss := Sections(lines);
    ReportIsDevices(lines);
    LastOwnIsDevice(ss, k, name);
    PlusIsOwn(Loose(ss[..k]), Sum(ss[k].body));
  }

  lemma NotNothing(a: Info, b: Info)
    requires b != NOTHING
    ensures a + b != NOTHING
  {
    var k :| k in b.Keys;
    assert k in a + b;
  }

  predicate DistinctNames(ss: seq<Section>) {
    forall i, j :: 0 <= i < j < |ss| && ss[i].name.Some? ==> ss[j].name != ss[i].name
  }

  /** Every named section repeats the keys of the unnamed sections directly before it. */
  predicate NothingLeaks(ss: seq<Section>) {
    forall i :: 0 <= i < |ss| && ss[i].name.Some? ==> Loose(ss[..i]).Keys <= Sum(ss[i].body).Keys
  }

  lemma NothingLeaksPrefix(ss: seq<Section>)
    requires ss != []
    ensures var n := |ss| - 1;
            NothingLeaks(ss) <==>
            NothingLeaks(ss[..n]) && (ss[n].name.Some? ==> Loose(ss[..n]).Keys <= Sum(ss[n].body).Keys)
  {
    var n := |ss| - 1;
    forall i | 0 <= i < n ensures ss[..n][i] == ss[i] && ss[..n][..i] == ss[..i] {}
    if NothingLeaks(ss) {
      forall i | 0 <= i < n && ss[..n][i].name.Some? ensures Loose(ss[..n][..i]).Keys <= Sum(ss[..n][i].body).Keys {
        assert ss[i].name.Some?;
      }
    }
    if NothingLeaks(ss[..n]) {
      forall i | 0 <= i < n && ss[i].name.Some? ensures Loose(ss[..i]).Keys <= Sum(ss[i].body).Keys {
        assert ss[..n][i].name.Some?;
      }
    }
  }

  lemma {:induction false} NamesOf(ss: seq<Section>, name: string)
    ensures name in Devices(ss) || name in OwnFields(ss) ==> exists i :: 0 <= i < |ss| && ss[i].name == Some(name)
  {
    if ss != [] {
      var n := |ss| - 1;
      NamesOf(ss[..n], name);
      if i :| 0 <= i < n && ss[..n][i].name == Some(name) {
        assert ss[i].name == Some(name);
      }
      if ss[n].name == Some(name) {
        assert ss[n].name == Some(name);
      }
    }
  }

  /** The last section's name is new, so the entries before it and its own do not mix. */
  lemma NewName(ss: seq<Section>)
    requires ss != [] && DistinctNames(ss) && ss[|ss| - 1].name.Some?
    ensures var n := |ss| - 1;
            ss[n].name.value !in Devices(ss[..n]) && ss[n].name.value !in OwnFields(ss[..n])
  {
    var n := |ss| - 1;
    NamesOf(ss[..n], ss[n].name.value);
  }

  /** When every name occurs once, each device gets its own fields and nothing else exactly when nothing leaks. */
  lemma {:induction false} OwnExactly(ss: seq<Section>)
    requires DistinctNames(ss)
    ensures Devices(ss) == OwnFields(ss) <==> NothingLeaks(ss)
  {
    if ss != [] {
      var n := |ss| - 1;
      OwnExactly(ss[..n]);
      NothingLeaksPrefix(ss);
      OwnOnly(ss);
      if ss[n].name.Some? {
        NewName(ss);
        var (c, o) := (Collected(ss), Sum(ss[n].body));
        ExtendDiffers(Devices(ss[..n]), OwnFields(ss[..n]), ss[n].name.value, c, o);
      }
    }
  }

  function Extend(d: map<string, Info>, name: string, i: Info): map<string, Info> {
    if i != NOTHING then d[name := i] else d
  }

  lemma ExtendDiffers(a: map<string, Info>, b: map<string, Info>, name: string, c: Info, o: Info)
    requires name !in a && name !in b
    ensures Extend(a, name, c) == Extend(b, name, o) <==> a == b && c == o
  {
    var (x, y) := (Extend(a, name, c), Extend(b, name, o));
    if x == y {
      assert x - {name} == a && y - {name} == b;
      assert (name in x <==> c != NOTHING) && (name in y <==> o != NOTHING);
    }
  }

  /** The parser's result is the devices with their own fields exactly when nothing leaks. */
  lemma {:induction false} SectionsStayApart(lines: seq<Line>)
    requires DistinctNames(Sections(lines))
    ensures Flush(Read(lines)).devices == OwnFields(Sections(lines)) <==> NothingLeaks(Sections(lines))
  {
    ReportIsDevices(lines);
    OwnExactly(Sections(lines));
  }

  predicate UnnamedAreEmpty(ss: seq<Section>) {
    forall i :: 0 <= i < |ss| && ss[i].name.None? ==> Sum(ss[i].body) == NOTHING
  }

  lemma {:induction false} OwnCollected(ss: seq<Section>)
    requires UnnamedAreEmpty(ss)
    ensures ss != [] ==> Collected(ss) == Sum(ss[|ss| - 1].body)
    ensures Devices(ss) == OwnFields(ss)
  {
    if ss != [] {
      OwnCollected(ss[..|ss| - 1]);
      NothingPlus(Sum(ss[|ss| - 1].body));
    }
  }

  /** When no unnamed section carries fields the same holds whether or not names repeat; the last section wins. */
  lemma {:induction false} RepeatedNames(lines: seq<Line>)
    requires UnnamedAreEmpty(Sections(lines))
    ensures Flush(Read(lines)).devices == OwnFields(Sections(lines))
  {
    ReportIsDevices(lines);
    OwnCollected(Sections(lines));
  }
}
