/** Python's view of text, on ASCII: letters, decimal numbers, words and lines. */
module Text {
  import opened Wrappers

  // ---- letters (ASCII) -----------------------------------------------------------

  function LowerChar(c: char): char {
    if 'A' <= c <= 'Z' then (c as int - 'A' as int + 'a' as int) as char else c
  }

  function Lower(s: string): (r: string)
    ensures |r| == |s|
    ensures forall i :: 0 <= i < |s| ==> r[i] == LowerChar(s[i])
  {
    seq(|s|, i requires 0 <= i < |s| => LowerChar(s[i]))
  }

  lemma LowerLetters(c: char)
    ensures Lower("ABCDEFGHIJKLMNOPQRSTUVWXYZ") == "abcdefghijklmnopqrstuvwxyz"
    ensures !('A' <= c <= 'Z') ==> LowerChar(c) == c
  {
  }

  predicate IsDigits(s: string) {
    s != "" && forall i :: 0 <= i < |s| ==> '0' <= s[i] <= '9'
  }

  function ToNat(s: string): nat
    requires forall i :: 0 <= i < |s| ==> '0' <= s[i] <= '9'
  {
    if s == "" then 0 else 10 * ToNat(s[..|s| - 1]) + (s[|s| - 1] as int - '0' as int)
  }

  function Digit(d: nat): char
    requires d < 10
  {
    ('0' as int + d) as char
  }

  /** '%d' of a natural number. */
  function Digits(n: nat): (r: string)
    ensures IsDigits(r)
  {
    if n < 10 then [Digit(n)] else Digits(n / 10) + [Digit(n % 10)]
  }

  lemma {:induction false} DigitsParse(n: nat)
    ensures ToNat(Digits(n)) == n
  {
    var s := Digits(n);
    if n >= 10 {
      DigitsParse(n / 10);
      assert s[..|s| - 1] == Digits(n / 10);
    } else {
      assert s[..0] == "";
    }
  }

  function Shown(n: int): string {
    if n >= 0 then Digits(n) else "-" + Digits(-n)
  }

  /** int(s): an optional sign and digits. */
  function ParseInt(s: string): Option<int> {
    if IsDigits(s) then Some(ToNat(s))
    else if s != "" && (s[0] == '-' || s[0] == '+') && IsDigits(s[1..]) then
      Some(if s[0] == '-' then -(ToNat(s[1..]) as int) else ToNat(s[1..]))
    else None
  }

  lemma ShownParses(n: int)
    ensures ParseInt(Shown(n)) == Some(n)
    ensures IsWord(Shown(n))
  {
    if n >= 0 {
      DigitsParse(n);
    } else {
      DigitsParse(-n);
      assert Shown(n)[1..] == Digits(-n);
    }
  }

  /** What int(s) reads: digits, with at most one sign in front, which a minus makes negative. */
  lemma IntegersRead(sign: char, s: string)
    requires s != "" && forall i :: 0 <= i < |s| ==> '0' <= s[i] <= '9'
    ensures ParseInt(s) == Some(ToNat(s))
    ensures ParseInt([sign] + s) ==
            if sign == '+' then Some(ToNat(s))
            else if sign == '-' then Some(-(ToNat(s) as int))
            else if '0' <= sign <= '9' then Some(ToNat([sign] + s))
            else None
  {
    var t := [sign] + s;
    assert t[0] == sign && t[1..] == s;
    assert IsDigits(t) <==> '0' <= sign <= '9';
  }

  lemma OnlyIntegersRead(s: string)
    requires ParseInt(s).Some?
    ensures s != "" && ('0' <= s[0] <= '9' || ((s[0] == '-' || s[0] == '+') && |s| > 1))
    ensures forall i :: 1 <= i < |s| ==> '0' <= s[i] <= '9'
  {
    if !IsDigits(s) {
      forall i | 1 <= i < |s| ensures '0' <= s[i] <= '9' {
        assert s[i] == s[1..][i - 1];
      }
    }
  }

  // ---- words ---------------------------------------------------------------------

  predicate IsSpace(c: char) {
    c == ' ' || '\t' <= c <= '\r'
  }

  predicate IsWord(s: string) {
    s != "" && forall i :: 0 <= i < |s| ==> !IsSpace(s[i])
  }

  /** s.split(), with `word` the word being read. */
  function Split(s: string, word: string): seq<string> {
    var done := if word == "" then [] else [word];
    if s == "" then done
    else if IsSpace(s[0]) then done + Split(s[1..], "")
    else Split(s[1..], word + [s[0]])
  }

  function Words(s: string): seq<string> {
    Split(s, "")
  }

  lemma {:induction false} SplitWord(w: string, rest: string, word: string)
    requires forall i :: 0 <= i < |w| ==> !IsSpace(w[i])
    ensures Split(w + rest, word) == Split(rest, word + w)
  {
    if w == "" {
      assert w + rest == rest && word + w == word;
    } else {
      assert (w + rest)[1..] == w[1..] + rest;
      assert word + [w[0]] + w[1..] == word + w;
      SplitWord(w[1..], rest, word + [w[0]]);
    }
  }

  lemma {:induction false} SplitAtSpace(a: string, c: char, b: string, word: string)
    requires IsSpace(c)
    ensures Split(a + [c] + b, word) == Split(a, word) + Words(b)
  {
    var s := a + [c] + b;
    if a == "" {
      assert s == [c] + b && s[1..] == b;
    } else {
      assert s[1..] == a[1..] + [c] + b;
      SplitAtSpace(a[1..], c, b, if IsSpace(a[0]) then "" else word + [a[0]]);
    }
  }

  /** What s.split() is: white space separates, a text without any is one word, and the empty text none. */
  lemma WordsAre(a: string, c: char, b: string)
    ensures c == ' ' || c == '\t' || c == '\n' || c == '\r' || c == 11 as char || c == 12 as char ==>
              Words(a + [c] + b) == Words(a) + Words(b)
    ensures Words("") == []
    ensures a != "" && (forall i :: 0 <= i < |a| ==> !IsSpace(a[i])) ==> Words(a) == [a]
  {
    if IsSpace(c) {
      SplitAtSpace(a, c, b, "");
    }
    if a != "" && forall i :: 0 <= i < |a| ==> !IsSpace(a[i]) {
      SplitWord(a, "", "");
      assert a + "" == a && "" + a == a;
    }
  }

  /** A text has words exactly when not all of it is white space. */
  lemma {:induction false} HasWords(s: string, word: string)
    ensures Split(s, word) != [] <==> word != "" || exists i :: 0 <= i < |s| && !IsSpace(s[i])
  {
    if s != "" {
      HasWords(s[1..], if IsSpace(s[0]) then "" else word + [s[0]]);
      if i :| 0 <= i < |s| && !IsSpace(s[i]) && IsSpace(s[0]) {
        assert s[1..][i - 1] == s[i];
      }
      if i :| 0 <= i < |s[1..]| && !IsSpace(s[1..][i]) {
        assert s[i + 1] == s[1..][i];
      }
    }
  }

  /** Two words, a tab between them and a newline after. */
  lemma TwoWords(a: string, b: string)
    requires IsWord(a) && IsWord(b)
    ensures Words(a + "\t" + b + "\n") == [a, b]
  {
    var rest := "\t" + b + "\n";
    assert a + "\t" + b + "\n" == a + rest;
    SplitWord(a, rest, "");
    assert "" + a == a && "" + b == b;
    assert rest[1..] == b + "\n";
    SplitWord(b, "\n", "");
    assert "\n"[1..] == "";
    assert Split("\n", b) == [b] + Split("", "");
  }

  // ---- lines ---------------------------------------------------------------------

  /** f.readlines(), with `line` the line being read. */
  function SplitLines(s: string, line: string): seq<string> {
    if s == "" then (if line == "" then [] else [line])
    else if s[0] == '\n' then [line + "\n"] + SplitLines(s[1..], "")
    else SplitLines(s[1..], line + [s[0]])
  }

  function Lines(s: string): seq<string> {
    SplitLines(s, "")
  }

  /** ''.join(lines) */
  function Concat(lines: seq<string>): string {
    if lines == [] then "" else lines[0] + Concat(lines[1..])
  }

  lemma {:induction false} ConcatAppend(a: seq<string>, b: seq<string>)
    ensures Concat(a + b) == Concat(a) + Concat(b)
  {
    if a == [] {
      assert a + b == b;
    } else {
      assert (a + b)[1..] == a[1..] + b;
      ConcatAppend(a[1..], b);
      assert a[0] + (Concat(a[1..]) + Concat(b)) == (a[0] + Concat(a[1..])) + Concat(b);
    }
  }

  /** Joining the lines of a text gives the text. */
  lemma {:induction false} ConcatLines(s: string, line: string)
    ensures Concat(SplitLines(s, line)) == line + s
  {
    if s == "" {
      assert line + s == line;
      if line != "" {
        assert [line][1..] == [];
        assert line + Concat([]) == line;
      }
    } else if s[0] == '\n' {
      ConcatLines(s[1..], "");
      var rest := SplitLines(s[1..], "");
      assert ([line + "\n"] + rest)[1..] == rest;
      assert "" + s[1..] == s[1..];
      assert (line + "\n") + s[1..] == line + s;
    } else {
      ConcatLines(s[1..], line + [s[0]]);
      assert line + [s[0]] + s[1..] == line + s;
    }
  }

  /** A whole line: a newline at the end and nowhere else. */
  predicate IsLine(s: string) {
    s != "" && s[|s| - 1] == '\n' && forall i :: 0 <= i < |s| - 1 ==> s[i] != '\n'
  }

  lemma {:induction false} LineSplits(s: string, rest: string, line: string)
    requires IsLine(s)
    ensures SplitLines(s + rest, line) == [line + s] + SplitLines(rest, "")
  {
    assert (s + rest)[1..] == s[1..] + rest;
    if |s| == 1 {
      assert s == "\n" && s[1..] + rest == rest;
    } else {
      LineSplits(s[1..], rest, line + [s[0]]);
      assert line + [s[0]] + s[1..] == line + s;
    }
  }

  /** Whole lines joined and split again are the same lines. */
  lemma {:induction false} LinesConcat(lines: seq<string>)
    requires forall i :: 0 <= i < |lines| ==> IsLine(lines[i])
    ensures Lines(Concat(lines)) == lines
  {
    if lines != [] {
      LineSplits(lines[0], Concat(lines[1..]), "");
      LinesConcat(lines[1..]);
      assert "" + lines[0] == lines[0];
      assert lines == [lines[0]] + lines[1..];
    }
  }

  predicate Terminated(s: string) {
    s == "" || s[|s| - 1] == '\n'
  }

  lemma {:induction false} LinesBefore(lines: seq<string>, rest: string)
    requires forall i :: 0 <= i < |lines| ==> IsLine(lines[i])
    ensures Lines(Concat(lines) + rest) == lines + Lines(rest)
  {
    if lines == [] {
      assert "" + rest == rest;
    } else {
      assert Concat(lines) + rest == lines[0] + (Concat(lines[1..]) + rest);
      LineSplits(lines[0], Concat(lines[1..]) + rest, "");
      LinesBefore(lines[1..], rest);
      assert "" + lines[0] == lines[0];
      assert lines == [lines[0]] + lines[1..];
    }
  }

  /** What follows a newline-terminated text has lines of its own. */
  lemma LinesAppend(s: string, rest: string)
    requires Terminated(s)
    ensures Lines(s + rest) == Lines(s) + Lines(rest)
  {
    TerminatedLines(s, "");
    ConcatLines(s, "");
    assert "" + s == s;
    LinesBefore(Lines(s), rest);
  }

  /** The lines of a newline-terminated text are whole lines. */
  lemma {:induction false} TerminatedLines(s: string, line: string)
    requires Terminated(s) && (s == "" ==> line == "")
    requires forall i :: 0 <= i < |line| ==> line[i] != '\n'
    ensures forall i :: 0 <= i < |SplitLines(s, line)| ==> IsLine(SplitLines(s, line)[i])
  {
    if s != "" {
      if s[0] == '\n' {
        TerminatedLines(s[1..], "");
      } else {
        TerminatedLines(s[1..], line + [s[0]]);
      }
    }
  }
}
