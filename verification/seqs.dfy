/** Appending a list of lists, in order, as a loop that appends one list
    per step builds it. */
module Seqs {
  /** The lists in order, appended into one. */
  function Flatten<T>(xss: seq<seq<T>>): seq<T> {
    if |xss| == 0 then [] else Flatten(xss[..|xss| - 1]) + xss[|xss| - 1]
  }

  /** `lines` holds the first `c` lists, appended in order. */
  ghost predicate Built<T>(lines: seq<T>, columns: seq<seq<T>>, c: nat)
    requires c <= |columns|
  {
    lines == Flatten(columns[..c])
  }

  lemma BuiltNext<T>(lines: seq<T>, columns: seq<seq<T>>, c: nat, column: seq<T>)
    requires c < |columns| && Built(lines, columns, c) && column == columns[c]
    ensures Built(lines + column, columns, c + 1)
  {
    FlattenNext(columns, c);
  }

  lemma BuiltAll<T>(lines: seq<T>, columns: seq<seq<T>>)
    requires Built(lines, columns, |columns|)
    ensures lines == Flatten(columns)
  {
    assert columns[..|columns|] == columns;
  }

  lemma FlattenNext<T>(xss: seq<seq<T>>, c: nat)
    requires c < |xss|
    ensures Flatten(xss[..c + 1]) == Flatten(xss[..c]) + xss[c]
  {
    assert xss[..c + 1][..c] == xss[..c];
  }

  /** Lists of `m` elements each flatten to `|xss| m` elements, and element
      `j` of list `i` lands at `i m + j`. */
  lemma {:induction false} FlattenAt<T>(xss: seq<seq<T>>, m: nat, i: nat, j: nat)
    requires forall k :: 0 <= k < |xss| ==> |xss[k]| == m
    requires i < |xss| && j < m
    ensures |Flatten(xss)| == |xss| * m
    ensures i * m + j < |Flatten(xss)| && Flatten(xss)[i * m + j] == xss[i][j]
  {
    FlattenLength(xss, m);
    var n := |xss|;
    var init := xss[..n - 1];
    FlattenLength(init, m);
    if i < n - 1 {
      FlattenAt(init, m, i, j);
    } else {
      assert i * m + j == (n - 1) * m + j;
    }
  }

  lemma {:induction false} FlattenLength<T>(xss: seq<seq<T>>, m: nat)
    requires forall k :: 0 <= k < |xss| ==> |xss[k]| == m
    ensures |Flatten(xss)| == |xss| * m
  {
    if |xss| > 0 {
      FlattenLength(xss[..|xss| - 1], m);
      assert (|xss| - 1) * m + m == |xss| * m;
    }
  }
}
