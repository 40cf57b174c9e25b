/** The longest common subsequence table behind move edits (sqlglot/diff.py, `_lcs`). */
module Lcs {

  /** Pairs of positions, ascending on both sides, whose elements are related. */
  ghost predicate IsAlignment<T>(a: seq<T>, b: seq<T>, equal: (T, T) -> bool, m: seq<(nat, nat)>) {
    && (forall k :: 0 <= k < |m| ==> m[k].0 < |a| && m[k].1 < |b| && equal(a[m[k].0], b[m[k].1]))
    && (forall k, l :: 0 <= k < l < |m| ==> m[k].0 < m[l].0 && m[k].1 < m[l].1)
  }

  /** The left elements that an alignment picks. */
  ghost function Picked<T>(a: seq<T>, m: seq<(nat, nat)>): seq<T>
    requires forall k :: 0 <= k < |m| ==> m[k].0 < |a|
  {
    seq(|m|, k requires 0 <= k < |m| => a[m[k].0])
  }

  function Longer<T>(s: seq<T>, t: seq<T>): seq<T> {
    if |s| > |t| then s else t
  }

  /** Entry (i, j) of the table. */
  ghost function Entry<T>(a: seq<T>, b: seq<T>, equal: (T, T) -> bool, i: nat, j: nat): seq<T>
    requires i <= |a| && j <= |b|
  {
    if i == 0 || j == 0 then []
    else if equal(a[i - 1], b[j - 1]) then Entry(a, b, equal, i - 1, j - 1) + [a[i - 1]]
    else Longer(Entry(a, b, equal, i - 1, j), Entry(a, b, equal, i, j - 1))
  }

  lemma {:induction false} EntryAligns<T>(a: seq<T>, b: seq<T>, equal: (T, T) -> bool, i: nat, j: nat)
    returns (m: seq<(nat, nat)>)
    requires i <= |a| && j <= |b|
    ensures IsAlignment(a, b, equal, m) && Picked(a, m) == Entry(a, b, equal, i, j)
    ensures forall k :: 0 <= k < |m| ==> m[k].0 < i && m[k].1 < j
    decreases i, j
  {
    if i == 0 || j == 0 {
      m := [];
    } else if equal(a[i - 1], b[j - 1]) {
      hide IsAlignment, Picked;
      var before := EntryAligns(a, b, equal, i - 1, j - 1);
      OneMore(a, b, equal, before, i, j);
      m := before + [(i - 1, j - 1)];
    } else if |Entry(a, b, equal, i - 1, j)| > |Entry(a, b, equal, i, j - 1)| {
      m := EntryAligns(a, b, equal, i - 1, j);
    } else {
      m := EntryAligns(a, b, equal, i, j - 1);
    }
  }

  lemma {:induction false} OneMore<T>(a: seq<T>, b: seq<T>, equal: (T, T) -> bool, m: seq<(nat, nat)>, i: nat, j: nat)
    requires 0 < i <= |a| && 0 < j <= |b| && equal(a[i - 1], b[j - 1]) && IsAlignment(a, b, equal, m)
    requires forall k :: 0 <= k < |m| ==> m[k].0 < i - 1 && m[k].1 < j - 1
    ensures IsAlignment(a, b, equal, m + [(i - 1, j - 1)])
    ensures Picked(a, m + [(i - 1, j - 1)]) == Picked(a, m) + [a[i - 1]]
  {
  }

  /** The exchange argument: taking a related pair of last elements is never worse, whatever the relation. */
  lemma {:induction false} EntryIsLongest<T>(a: seq<T>, b: seq<T>, equal: (T, T) -> bool, i: nat, j: nat,
      m: seq<(nat, nat)>)
    requires i <= |a| && j <= |b| && IsAlignment(a, b, equal, m)
    requires forall k :: 0 <= k < |m| ==> m[k].0 < i && m[k].1 < j
    ensures |m| <= |Entry(a, b, equal, i, j)|
    decreases i, j
  {
    if m != [] {
      var last := m[|m| - 1];
      if equal(a[i - 1], b[j - 1]) {
        EntryIsLongest(a, b, equal, i - 1, j - 1, m[..|m| - 1]);
      } else if last.0 < i - 1 {
        EntryIsLongest(a, b, equal, i - 1, j, m);
      } else {
        EntryIsLongest(a, b, equal, i, j - 1, m);
      }
    }
  }

  /** `lcs` is the longest among all sequences of left elements that align with the right side. */
  ghost predicate IsLongestCommon<T(!new)>(a: seq<T>, b: seq<T>, equal: (T, T) -> bool, lcs: seq<T>) {
    && (exists m :: IsAlignment(a, b, equal, m) && Picked(a, m) == lcs)
    && (forall m :: IsAlignment(a, b, equal, m) ==> |m| <= |lcs|)
  }

  ghost predicate RowFilled<T>(a: seq<T>, b: seq<T>, equal: (T, T) -> bool, table: array2<seq<T>>, i: nat, width: nat)
    requires i < table.Length0 == |a| + 1 && width <= table.Length1 == |b| + 1
    reads table
  {
    forall l {:trigger table[i, l]} :: 0 <= l < width ==> table[i, l] == Entry(a, b, equal, i, l)
  }

  /** One row of the table; only the row above is read. */
  method FillRow<T>(a: seq<T>, b: seq<T>, equal: (T, T) -> bool, table: array2<seq<T>>, i: nat)
    requires i < table.Length0 == |a| + 1 && table.Length1 == |b| + 1
    requires i > 0 ==> RowFilled(a, b, equal, table, i - 1, |b| + 1)
    modifies table
    ensures RowFilled(a, b, equal, table, i, |b| + 1)
  {
    for j := 0 to |b| + 1
      invariant i > 0 ==> RowFilled(a, b, equal, table, i - 1, |b| + 1)
      invariant RowFilled(a, b, equal, table, i, j)
    {
      if i == 0 || j == 0 {
        table[i, j] := [];
      } else if equal(a[i - 1], b[j - 1]) {
        table[i, j] := table[i - 1, j - 1] + [a[i - 1]];
      } else {
        table[i, j] := Longer(table[i - 1, j], table[i, j - 1]);
      }
    }
  }

  method Compute<T(0, !new)>(a: seq<T>, b: seq<T>, equal: (T, T) -> bool) returns (lcs: seq<T>)
    ensures IsLongestCommon(a, b, equal, lcs)
  {
    var table := new seq<T>[|a| + 1, |b| + 1];
    for i := 0 to |a| + 1
      invariant i > 0 ==> RowFilled(a, b, equal, table, i - 1, |b| + 1)
    {
      FillRow(a, b, equal, table, i);
    }
    lcs := table[|a|, |b|];
    EntryIsLongestCommon(a, b, equal);
  }

  lemma {:induction false} EntryIsLongestCommon<T(!new)>(a: seq<T>, b: seq<T>, equal: (T, T) -> bool)
    ensures IsLongestCommon(a, b, equal, Entry(a, b, equal, |a|, |b|))
  {
    var best := EntryAligns(a, b, equal, |a|, |b|);
    forall m | IsAlignment(a, b, equal, m) ensures |m| <= |Entry(a, b, equal, |a|, |b|)| {
      EntryIsLongest(a, b, equal, |a|, |b|, m);
    }
  }
}
