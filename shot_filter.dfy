/** The split of the rescaled shot table into the made shots and the missed shots.

    Each sub-table is a boolean-mask selection on the shot_result column by exact
    string equality, so it keeps the selected rows in their original order. A row
    whose result is any other string ("Made", "1", "") is in neither sub-table and
    is never plotted.
 */
module ShotFilter {
  import opened ShotTable

  /** The result value of a made shot. */
  const Made: string := "made"
  /** The result value of a missed shot. */
  const Missed: string := "missed"

  /** The sub-table of the rows whose result equals wanted. Every selected row
      carries that result, and a row is selected exactly when it is in the table
      with that result (WithResultMultiplicity gives the number of copies). */
  function WithResult(rows: seq<Shot>, wanted: string): (r: seq<Shot>)
    ensures |r| <= |rows|
    ensures forall i :: 0 <= i < |r| ==> r[i].result == wanted
    ensures forall s {:trigger s in r} :: s in r <==> s in rows && s.result == wanted
  {
    if rows == [] then []
    else if rows[0].result == wanted then [rows[0]] + WithResult(rows[1..], wanted)
      else WithResult(rows[1..], wanted)
  }

  /** The rows that are neither made nor missed: the ones the chart silently drops. */
  function Unplotted(rows: seq<Shot>): (r: seq<Shot>)
    ensures |r| <= |rows|
    ensures forall i :: 0 <= i < |r| ==> r[i].result != Made && r[i].result != Missed
    ensures forall s {:trigger s in r} :: s in r <==> s in rows && s.result != Made && s.result != Missed
  {
    if rows == [] then []
    else if rows[0].result != Made && rows[0].result != Missed then [rows[0]] + Unplotted(rows[1..])
      else Unplotted(rows[1..])
  }

  /** sub is obtained from s by deleting elements, keeping the rest in order. */
  ghost predicate SubsequenceOf(sub: seq<Shot>, s: seq<Shot>)
    decreases |s|
  {
    if sub == [] then true
    else if s == [] then false
    else if sub[0] == s[0] then SubsequenceOf(sub[1..], s[1..])
    else SubsequenceOf(sub, s[1..])
  }

  /** Selection keeps the relative order of the selected rows. */
  lemma {:induction false} WithResultIsSubsequence(rows: seq<Shot>, wanted: string)
    ensures SubsequenceOf(WithResult(rows, wanted), rows)
  {
    if rows != [] {
      WithResultIsSubsequence(rows[1..], wanted);
      var rest := WithResult(rows[1..], wanted);
      if rows[0].result == wanted {
        assert WithResult(rows, wanted) == [rows[0]] + rest;
        assert ([rows[0]] + rest)[1..] == rest;
      } else {
        SkipKeepsSubsequence(rest, rows);
      }
    }
  }

  /** A subsequence of the tail is a subsequence of the whole. */
  lemma {:induction false} SkipKeepsSubsequence(sub: seq<Shot>, s: seq<Shot>)
    requires s != []
    requires SubsequenceOf(sub, s[1..])
    ensures SubsequenceOf(sub, s)
    decreases |s|, |sub|
  {
    if sub != [] && sub[0] == s[0] {
      SubsequenceOfTail(sub, s[1..]);
    }
  }

  /** Dropping the first element of a subsequence leaves a subsequence. */
  lemma {:induction false} SubsequenceOfTail(sub: seq<Shot>, s: seq<Shot>)
    requires sub != []
    requires SubsequenceOf(sub, s)
    ensures SubsequenceOf(sub[1..], s)
    decreases |s|, |sub|
  {
    if sub[0] != s[0] {
      SubsequenceOfTail(sub, s[1..]);
    }
    SkipKeepsSubsequence(sub[1..], s);
  }

  /** Selecting from two tables one after the other gives the two selections one
      after the other: the selection is order-preserving. */
  lemma {:induction false} WithResultAppend(a: seq<Shot>, b: seq<Shot>, wanted: string)
    ensures WithResult(a + b, wanted) == WithResult(a, wanted) + WithResult(b, wanted)
  {
    if a != [] {
      assert (a + b)[0] == a[0] && (a + b)[1..] == a[1..] + b;
      WithResultAppend(a[1..], b, wanted);
      if a[0].result == wanted {
        calc {
          WithResult(a + b, wanted);
          [a[0]] + WithResult(a[1..] + b, wanted);
          [a[0]] + (WithResult(a[1..], wanted) + WithResult(b, wanted));
          ([a[0]] + WithResult(a[1..], wanted)) + WithResult(b, wanted);
        }
      }
    } else {
      assert a + b == b;
    }
  }

  /** Selecting from a table that starts with row x: x is kept exactly when it
      carries the wanted result, and the rest is selected from the tail. */
  lemma SelectCons(x: Shot, t: seq<Shot>, wanted: string)
    ensures WithResult([x] + t, wanted) == (if x.result == wanted then [x] else []) + WithResult(t, wanted)
    ensures Unplotted([x] + t) == (if x.result != Made && x.result != Missed then [x] else []) + Unplotted(t)
  {
    assert ([x] + t)[0] == x && ([x] + t)[1..] == t;
  }

  /** A row with the wanted result is selected as many times as it occurs in the
      table, any other row not at all. */
  lemma {:induction false} WithResultMultiplicity(rows: seq<Shot>, wanted: string)
    ensures forall s {:trigger multiset(WithResult(rows, wanted))[s]} ::
      multiset(WithResult(rows, wanted))[s] == (if s.result == wanted then multiset(rows)[s] else 0)
  {
    if rows != [] {
      var x, t := rows[0], rows[1..];
      WithResultMultiplicity(t, wanted);
      assert rows == [x] + t;
      SelectCons(x, t, wanted);
    }
  }

  /** Made, missed and dropped rows together are the whole table, row for row. */
  lemma {:induction false} MadeMissedPartition(rows: seq<Shot>)
    ensures multiset(WithResult(rows, Made)) + multiset(WithResult(rows, Missed)) + multiset(Unplotted(rows))
      == multiset(rows)
  {
    if rows != [] {
      var x, t := rows[0], rows[1..];
      MadeMissedPartition(t);
      assert rows == [x] + t;
      SelectCons(x, t, Made);
      SelectCons(x, t, Missed);
    }
  }

  /** No row is both made and missed, and the two sub-tables together are never
      longer than the table: they are as long as it less the dropped rows. */
  lemma MadeMissedCounts(rows: seq<Shot>)
    ensures multiset(WithResult(rows, Made)) !! multiset(WithResult(rows, Missed))
    ensures |WithResult(rows, Made)| + |WithResult(rows, Missed)| == |rows| - |Unplotted(rows)|
  {
    var made, missed, other := WithResult(rows, Made), WithResult(rows, Missed), Unplotted(rows);
    MadeMissedPartition(rows);
    assert |multiset(made) + multiset(missed) + multiset(other)| == |multiset(rows)|;
    forall s | s in multiset(made) ensures s !in multiset(missed) {
      assert s in made;
    }
  }

  /** Every row of the table is plotted exactly when every result is "made" or
      "missed". */
  lemma AllPlottedIff(rows: seq<Shot>)
    ensures |WithResult(rows, Made)| + |WithResult(rows, Missed)| == |rows|
        <==> forall i :: 0 <= i < |rows| ==> rows[i].result == Made || rows[i].result == Missed
  {
    MadeMissedCounts(rows);
    var other := Unplotted(rows);
    if other != [] {
      assert other[0] in other;
      var i :| 0 <= i < |rows| && rows[i] == other[0];
      assert rows[i].result != Made && rows[i].result != Missed;
    } else {
      forall i | 0 <= i < |rows| ensures rows[i].result == Made || rows[i].result == Missed {
        assert rows[i] !in other;
      }
    }
  }

  /** Rescaling the coordinates leaves every result alone, so selecting after the
      rewrite picks the rewritten images of the rows that selecting before it
      would pick. */
  lemma {:induction false} WithResultRescaleAll(rows: seq<Shot>, wanted: string)
    ensures WithResult(RescaleAll(rows), wanted) == RescaleAll(WithResult(rows, wanted))
  {
    if rows != [] {
      var r := RescaleAll(rows);
      assert r[1..] == RescaleAll(rows[1..]);
      assert r == [r[0]] + r[1..];
      WithResultRescaleAll(rows[1..], wanted);
    }
  }

  /** A table with one row of each kind: exact, case-sensitive matching leaves
      "Made" and "1" out of both sub-tables. */
  lemma CaseSensitiveExample()
    ensures var rows := [Shot(1.0, 2.0, "made"), Shot(3.0, 4.0, "Made"),
                         Shot(5.0, 6.0, "missed"), Shot(7.0, 8.0, "1")];
      WithResult(rows, Made) == [rows[0]] &&
      WithResult(rows, Missed) == [rows[2]] &&
      Unplotted(rows) == [rows[1], rows[3]]
  {
    var rows := [Shot(1.0, 2.0, "made"), Shot(3.0, 4.0, "Made"),
                 Shot(5.0, 6.0, "missed"), Shot(7.0, 8.0, "1")];
    assert rows[1..] == [rows[1], rows[2], rows[3]];
    assert rows[2..] == [rows[2], rows[3]];
    assert rows[3..] == [rows[3]];
    assert rows[1..][1..] == rows[2..];
    assert rows[2..][1..] == rows[3..];
    assert rows[3..][1..] == [];
  }
}
