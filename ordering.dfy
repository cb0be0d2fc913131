/** The final ordering of merged pull requests: `Array.prototype.sort` with the
    comparator "later merge first". The engine's sort is stable, so an insertion
    sort serves as its reference definition; the lemmas prove that it orders by
    merge time, newest first, permutes its input, and keeps ties in input order. */
module MergeOrder {
  import opened PullRequests

  function Key(m: MergedPR): int {
    m.mergedAt.instant
  }

  /** Non-increasing by merge time. */
  predicate SortedNewestFirst(s: seq<MergedPR>) {
    forall i, j :: 0 <= i < j < |s| ==> Key(s[i]) >= Key(s[j])
  }

  /** The elements merged at instant `t`, in order. */
  function MergedAt(s: seq<MergedPR>, t: int): seq<MergedPR>
    decreases |s|
  {
    if s == [] then [] else (if Key(s[0]) == t then [s[0]] else []) + MergedAt(s[1..], t)
  }

  /** Places `x` before the first element merged no later than it. */
  function Insert(x: MergedPR, s: seq<MergedPR>): (r: seq<MergedPR>)
    ensures |r| == |s| + 1
    decreases |s|
  {
    if s == [] || Key(s[0]) <= Key(x) then [x] + s else [s[0]] + Insert(x, s[1..])
  }

  /** A stable sort under the comparator "later merge time first". */
  function SortNewestFirst(s: seq<MergedPR>): (r: seq<MergedPR>)
    ensures |r| == |s|
    decreases |s|
  {
    if s == [] then [] else Insert(s[0], SortNewestFirst(s[1..]))
  }

  lemma {:induction false} InsertPermutation(x: MergedPR, s: seq<MergedPR>)
    ensures multiset(Insert(x, s)) == multiset([x] + s)
    ensures |Insert(x, s)| == |s| + 1
    decreases |s|
  {
    if s != [] && Key(s[0]) > Key(x) {
      InsertPermutation(x, s[1..]);
      assert s == [s[0]] + s[1..];
    }
  }

  lemma {:induction false} InsertSorted(x: MergedPR, s: seq<MergedPR>)
    requires SortedNewestFirst(s)
    ensures SortedNewestFirst(Insert(x, s))
    decreases |s|
  {
    if s != [] && Key(s[0]) > Key(x) {
      InsertSorted(x, s[1..]);
      InsertPermutation(x, s[1..]);
      var t := Insert(x, s[1..]);
      forall k | 0 <= k < |t| ensures Key(s[0]) >= Key(t[k]) {
        assert t[k] in multiset(t);
        assert t[k] in multiset([x] + s[1..]);
        assert t[k] == x || t[k] in s[1..];
      }
    }
  }

  /** The result is ordered newest first and is a permutation of the input. */
  lemma {:induction false} SortSortedPermutation(s: seq<MergedPR>)
    ensures SortedNewestFirst(SortNewestFirst(s))
    ensures multiset(SortNewestFirst(s)) == multiset(s)
    ensures |SortNewestFirst(s)| == |s|
    decreases |s|
  {
    if s != [] {
      SortSortedPermutation(s[1..]);
      InsertSorted(s[0], SortNewestFirst(s[1..]));
      InsertPermutation(s[0], SortNewestFirst(s[1..]));
      assert s == [s[0]] + s[1..];
    }
  }

  lemma MergedAtCons(y: MergedPR, r: seq<MergedPR>, t: int)
    ensures MergedAt([y] + r, t) == (if Key(y) == t then [y] else []) + MergedAt(r, t)
  {
    assert ([y] + r)[1..] == r;
  }

  /** Inserting never reorders `x` against an element merged at the same time. */
  lemma {:induction false} InsertMergedAt(x: MergedPR, s: seq<MergedPR>, t: int)
    ensures MergedAt(Insert(x, s), t) == MergedAt([x] + s, t)
    decreases |s|
  {
    if s != [] && Key(s[0]) > Key(x) {
      var r := s[1..];
      var a := if Key(s[0]) == t then [s[0]] else [];
      var b := if Key(x) == t then [x] else [];
      assert s == [s[0]] + r;
      assert Insert(x, s) == [s[0]] + Insert(x, r);
      InsertMergedAt(x, r, t);
      MergedAtCons(s[0], Insert(x, r), t);
      MergedAtCons(x, r, t);
      MergedAtCons(x, s, t);
      MergedAtCons(s[0], r, t);
      assert a == [] || b == [];
      calc {
        MergedAt(Insert(x, s), t);
        a + MergedAt(Insert(x, r), t);
        a + (b + MergedAt(r, t));
        b + (a + MergedAt(r, t));
        b + MergedAt(s, t);
        MergedAt([x] + s, t);
      }
    }
  }

  /** Stability: for every merge instant, the elements merged then appear in the
      result in the same relative order as in the input. */
  lemma {:induction false} SortStable(s: seq<MergedPR>, t: int)
    ensures MergedAt(SortNewestFirst(s), t) == MergedAt(s, t)
    decreases |s|
  {
    if s != [] {
      SortStable(s[1..], t);
      InsertMergedAt(s[0], SortNewestFirst(s[1..]), t);
      MergedAtCons(s[0], SortNewestFirst(s[1..]), t);
      MergedAtCons(s[0], s[1..], t);
      assert s == [s[0]] + s[1..];
    }
  }
}
