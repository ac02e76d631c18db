/**
 The clean-up of the ignore list, a loop that removes from the list it runs
 over and therefore skips the element after each removal.
 */
module IgnoreCleanup {
  import opened IscsiPass

  function CountIn(l: seq<Iqn>, conn: set<Iqn>): nat {
    if l == [] then 0 else CountIn(l[..|l| - 1], conn) + (if l[|l| - 1] in conn then 1 else 0)
  }

  function Unconnected(l: seq<Iqn>, conn: set<Iqn>): seq<Iqn> {
    if l == [] then []
    else Unconnected(l[..|l| - 1], conn) + (if l[|l| - 1] in conn then [] else [l[|l| - 1]])
  }

  lemma {:induction false} Append(a: seq<Iqn>, b: seq<Iqn>, conn: set<Iqn>)
    ensures CountIn(a + b, conn) == CountIn(a, conn) + CountIn(b, conn)
    ensures Unconnected(a + b, conn) == Unconnected(a, conn) + Unconnected(b, conn)
  {
    if b == [] {
      assert a + b == a;
    } else {
      var n := |b| - 1;
      assert (a + b)[..|a| + n] == a + b[..n];
      Append(a, b[..n], conn);
    }
  }

  /** RemoveFirst cuts out one occurrence. */
  lemma {:induction false} RemoveFirstSplits(l: seq<Iqn>, x: Iqn) returns (j: nat)
    requires x in l
    ensures j < |l| && l[j] == x && forall k :: 0 <= k < j ==> l[k] != x
    ensures RemoveFirst(l, x) == l[..j] + l[j + 1..]
  {
    if l[0] == x {
      j := 0;
    } else {
      assert l == [l[0]] + l[1..];
      var k := RemoveFirstSplits(l[1..], x);
      j := k + 1;
      assert l[..j] == [l[0]] + l[1..][..k];
      assert l[j + 1..] == l[1..][k + 1..];
    }
  }

  lemma {:induction false} RemoveFirstCounts(l: seq<Iqn>, x: Iqn, conn: set<Iqn>)
    requires x in l
    ensures CountIn(RemoveFirst(l, x), conn) == CountIn(l, conn) - (if x in conn then 1 else 0)
    ensures x in conn ==> Unconnected(RemoveFirst(l, x), conn) == Unconnected(l, conn)
  {
    var j := RemoveFirstSplits(l, x);
    assert l == (l[..j] + [x]) + l[j + 1..];
    Append(l[..j] + [x], l[j + 1..], conn);
    Append(l[..j], [x], conn);
    Append(l[..j], l[j + 1..], conn);
    assert CountIn([x], conn) == (if x in conn then 1 else 0) by {
      assert [x][..0] == [];
    }
    assert Unconnected([x], conn) == (if x in conn then [] else [x]) by {
      assert [x][..0] == [];
    }
    assert Unconnected(l[..j], conn) + [] == Unconnected(l[..j], conn);
  }

  lemma {:induction false} RemoveFirstMembers(l: seq<Iqn>, x: Iqn, y: Iqn)
    ensures y in RemoveFirst(l, x) ==> y in l
    ensures y in l && y != x ==> y in RemoveFirst(l, x)
  {
    if l != [] {
      assert l == [l[0]] + l[1..];
      if l[0] != x {
        RemoveFirstMembers(l[1..], x, y);
      }
    }
  }

  /** The volumes not connected survive the clean-up, all of them and in their order. */
  lemma {:induction false} CleanKeepsUnconnected(l: seq<Iqn>, i: nat, conn: set<Iqn>)
    ensures Unconnected(CleanFrom(l, i, conn), conn) == Unconnected(l, conn)
    decreases |l| - i
  {
    if i < |l| {
      if l[i] in conn {
        RemoveFirstShorter(l, l[i]);
        RemoveFirstCounts(l, l[i], conn);
        CleanKeepsUnconnected(RemoveFirst(l, l[i]), i + 1, conn);
      } else {
        CleanKeepsUnconnected(l, i + 1, conn);
      }
    }
  }

  lemma {:induction false} CleanMembers(l: seq<Iqn>, i: nat, conn: set<Iqn>, y: Iqn)
    ensures y in CleanFrom(l, i, conn) ==> y in l
    ensures y in l && y !in conn ==> y in CleanFrom(l, i, conn)
    decreases |l| - i
  {
    if i < |l| {
      if l[i] in conn {
        RemoveFirstShorter(l, l[i]);
        RemoveFirstMembers(l, l[i], y);
        CleanMembers(RemoveFirst(l, l[i]), i + 1, conn, y);
      } else {
        CleanMembers(l, i + 1, conn, y);
      }
    }
  }

  /** Of the connected entries from index `i` on, at most half survive. */
  lemma {:induction false} CleanHalvesFrom(l: seq<Iqn>, i: nat, conn: set<Iqn>)
    requires i <= |l|
    ensures 2 * (CountIn(CleanFrom(l, i, conn), conn) - CountIn(l[..i], conn)) <= CountIn(l[i..], conn)
    decreases |l| - i
  {
    if i == |l| {
      assert l[..i] == l;
    } else {
      var x := l[i];
      assert l[..i + 1] == l[..i] + [x] && l[i..] == [x] + l[i + 1..];
      Append(l[..i], [x], conn);
      Append([x], l[i + 1..], conn);
      assert [x][..0] == [];
      if x !in conn {
        CleanHalvesFrom(l, i + 1, conn);
      } else {
        RemoveFirstShorter(l, x);
        var l' := RemoveFirst(l, x);
        RemoveFirstCounts(l, x, conn);
        assert l == l[..i] + l[i..];
        Append(l[..i], l[i..], conn);
        if i + 1 <= |l'| {
          CleanStep(l, i, conn);
          CleanHalvesFrom(l', i + 1, conn);
        } else {
          assert l[i + 1..] == [];
        }
      }
    }
  }

  /** After a removal at index `i` the next index leaves one element unseen. */
  lemma {:induction false} CleanStep(l: seq<Iqn>, i: nat, conn: set<Iqn>)
    requires i + 1 < |l| && l[i] in conn
    ensures var l' := RemoveFirst(l, l[i]);
            var skipped := if l[i + 1] in conn then 1 else 0;
            && |l'| == |l| - 1
            && CountIn(l'[..i + 1], conn) == CountIn(l[..i], conn) + skipped
            && CountIn(l'[i + 1..], conn) == CountIn(l[i..], conn) - 1 - skipped
  {
    var x, y := l[i], l[i + 1];
    var l' := RemoveFirst(l, x);
    RemovedTail(l, i);
    RemoveFirstCounts(l, x, conn);
    CountSplit(l', i + 1, conn);
    CountSplit(l, i, conn);
    CountFirst(l[i..], conn);
    CountFirst(l[i + 1..], conn);
    assert l[i..][1..] == l[i + 1..] && l[i + 1..][1..] == l[i + 2..];
  }

  lemma RemovedTail(l: seq<Iqn>, i: nat)
    requires i + 1 < |l|
    ensures |RemoveFirst(l, l[i])| == |l| - 1 && RemoveFirst(l, l[i])[i + 1..] == l[i + 2..]
  {
    var j := RemoveFirstSplits(l, l[i]);
    assert j <= i;
  }

  lemma CountSplit(l: seq<Iqn>, i: nat, conn: set<Iqn>)
    requires i <= |l|
    ensures CountIn(l, conn) == CountIn(l[..i], conn) + CountIn(l[i..], conn)
  {
    assert l == l[..i] + l[i..];
    Append(l[..i], l[i..], conn);
  }

  lemma CountFirst(l: seq<Iqn>, conn: set<Iqn>)
    requires l != []
    ensures CountIn(l, conn) == (if l[0] in conn then 1 else 0) + CountIn(l[1..], conn)
  {
    assert l == [l[0]] + l[1..];
    assert [l[0]][..0] == [];
    Append([l[0]], l[1..], conn);
  }

  /** A clean-up drops at least half of the connected entries, repeats included. */
  lemma CleanHalves(l: seq<Iqn>, conn: set<Iqn>)
    ensures 2 * CountIn(CleanFrom(l, 0, conn), conn) <= CountIn(l, conn)
  {
    CleanHalvesFrom(l, 0, conn);
    assert l[0..] == l;
  }

  lemma {:induction false} NoneIn(l: seq<Iqn>, conn: set<Iqn>)
    ensures CountIn(l, conn) == 0 <==> forall x :: x in l ==> x !in conn
  {
    if l != [] {
      var n := |l| - 1;
      NoneIn(l[..n], conn);
      assert l == l[..n] + [l[n]];
    }
  }

  // ---- exactly which entries survive --------------------------------------------------

  predicate NoRepeats(l: seq<Iqn>) {
    forall i, j :: 0 <= i < j < |l| ==> l[i] != l[j]
  }

  /** How many connected entries stand directly before index `j`, counted back to index `i` at most. */
  function RunBefore(l: seq<Iqn>, i: nat, j: nat, conn: set<Iqn>): nat
    requires i <= j <= |l|
  {
    if j == i || l[j - 1] !in conn then 0 else 1 + RunBefore(l, i, j - 1, conn)
  }

  lemma {:induction false} RunStops(l: seq<Iqn>, i: nat, j: nat, conn: set<Iqn>)
    requires i < j <= |l| && l[i] !in conn
    ensures RunBefore(l, i, j, conn) == RunBefore(l, i + 1, j, conn)
  {
    if j > i + 1 {
      RunStops(l, i, j - 1, conn);
    }
  }

  /** Two connected entries more at the far end do not change the parity. */
  lemma {:induction false} RunOfTwo(l: seq<Iqn>, i: nat, j: nat, conn: set<Iqn>)
    requires i + 2 <= j <= |l| && l[i] in conn
    ensures RunBefore(l, i, j, conn) % 2 == RunBefore(l, i + 2, j, conn) % 2
  {
    if j > i + 2 {
      RunOfTwo(l, i, j - 1, conn);
    } else {
      assert RunBefore(l, i, i + 1, conn) == 1;
    }
  }

  lemma {:induction false} RunShifted(l: seq<Iqn>, l': seq<Iqn>, i: nat, j: nat, conn: set<Iqn>)
    requires i <= j < |l| && |l'| == |l| - 1 && 0 < i && forall k :: i <= k < j ==> l'[k - 1] == l[k]
    ensures RunBefore(l', i - 1, j - 1, conn) == RunBefore(l, i, j, conn)
  {
    if i < j {
      RunShifted(l, l', i, j - 1, conn);
    }
  }

  lemma RemoveAt(l: seq<Iqn>, i: nat)
    requires i < |l| && NoRepeats(l)
    ensures var r := RemoveFirst(l, l[i]);
            && |r| == |l| - 1 && NoRepeats(r) && l[i] !in r
            && (forall k :: 0 <= k < i ==> r[k] == l[k])
            && forall k :: i < k < |l| ==> r[k - 1] == l[k]
  {
    var j := RemoveFirstSplits(l, l[i]);
  }

  /** What the loop has passed stays. */
  lemma {:induction false} Survivor(l: seq<Iqn>, i: nat, j: nat, conn: set<Iqn>)
    requires j < |l| && j < i && NoRepeats(l)
    ensures l[j] in CleanFrom(l, i, conn)
    decreases |l| - i
  {
    if i < |l| && l[i] in conn {
      RemoveAt(l, i);
      var l' := RemoveFirst(l, l[i]);
      assert l'[j] == l[j];
      Survivor(l', i + 1, j, conn);
    } else if i < |l| {
      Survivor(l, i + 1, j, conn);
    }
  }

  /** After a removal at `i` the removed entry is gone, and its neighbours up to `i + 1` are passed by. */
  lemma NearRemoval(l: seq<Iqn>, i: nat, j: nat, conn: set<Iqn>)
    requires i < |l| && l[i] in conn && j < |l| && j <= i + 1 && NoRepeats(l)
    ensures l[j] in CleanFrom(l, i, conn) <==> j != i
  {
    RemoveAt(l, i);
    var l' := RemoveFirst(l, l[i]);
    if j == i {
      CleanMembers(l', i + 1, conn, l[i]);
    } else {
      var k := if j < i then j else i;
      assert l'[k] == l[j];
      Survivor(l', i + 1, k, conn);
    }
  }

  /** Entries farther on move down by one, and the run before them changes by none or two. */
  lemma FarRemoval(l: seq<Iqn>, i: nat, j: nat, conn: set<Iqn>)
    requires i + 2 <= j < |l| && l[i] in conn && NoRepeats(l)
    ensures var l' := RemoveFirst(l, l[i]);
            && |l'| == |l| - 1 && NoRepeats(l') && l'[j - 1] == l[j]
            && RunBefore(l', i + 1, j - 1, conn) % 2 == RunBefore(l, i, j, conn) % 2
  {
    RemoveAt(l, i);
    RunShifted(l, RemoveFirst(l, l[i]), i + 2, j, conn);
    RunOfTwo(l, i, j, conn);
  }

  /** From index `i` on an entry survives exactly when unconnected, or preceded by an odd run of connected ones. */
  lemma {:induction false} CleanFromExactly(l: seq<Iqn>, i: nat, j: nat, conn: set<Iqn>)
    requires i <= |l| && j < |l| && NoRepeats(l)
    ensures l[j] in CleanFrom(l, i, conn) <==> j < i || l[j] !in conn || RunBefore(l, i, j, conn) % 2 == 1
    decreases |l| - i
  {
    if i < |l| && l[i] !in conn {
      CleanFromExactly(l, i + 1, j, conn);
      if i < j {
        RunStops(l, i, j, conn);
      }
    } else if i < |l| && j <= i + 1 {
      NearRemoval(l, i, j, conn);
    } else if i < |l| {
      FarRemoval(l, i, j, conn);
      CleanFromExactly(RemoveFirst(l, l[i]), i + 1, j - 1, conn);
    }
  }

  /** On a list without repeats an entry survives exactly when it is unconnected or skipped by a removal before it. */
  lemma CleanExactly(l: seq<Iqn>, j: nat, conn: set<Iqn>)
    requires j < |l| && NoRepeats(l)
    ensures l[j] in CleanFrom(l, 0, conn) <==> l[j] !in conn || RunBefore(l, 0, j, conn) % 2 == 1
  {
    CleanFromExactly(l, 0, j, conn);
  }

  /** The clean-up shortens a list exactly when it holds a connected entry. */
  lemma {:induction false} CleanShortens(l: seq<Iqn>, i: nat, conn: set<Iqn>)
    ensures |CleanFrom(l, i, conn)| < |l| <==> exists k :: i <= k < |l| && l[k] in conn
    decreases |l| - i
  {
    if i < |l| && l[i] in conn {
      RemoveFirstShorter(l, l[i]);
    } else if i < |l| {
      CleanShortens(l, i + 1, conn);
    }
  }
}
