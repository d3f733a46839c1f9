/**
 * The data side of `plot_class_counts`: the class names and the counts of
 * a tally, both in ascending class-id order, as the bar chart draws them.
 */
module ClassPlot {
  import opened Wrappers
  import CountPlot

  /** Whether `ks` is strictly increasing. */
  predicate Increasing(ks: seq<int>)
  {
    forall i, j :: 0 <= i < j < |ks| ==> ks[i] < ks[j]
  }

  /** `m` is the least element of `s`. */
  predicate IsLeast(m: int, s: set<int>)
  {
    m in s && forall x :: x in s ==> m <= x
  }

  /** A set with no members is the empty set. */
  lemma NoMembersEmpty(s: set<int>)
    requires forall y :: y !in s
    ensures s == {}
  {
    var e: set<int> := {};
    assert forall y :: y in s <==> y in e;
  }

  /** A set of non-zero size has a member. */
  lemma NonEmptyHasMember(s: set<int>)
    requires |s| > 0
    ensures exists y :: y in s
  {
    if forall y :: y !in s {
      NoMembersEmpty(s);
    }
  }

  /** A finite non-empty set of integers has a least element. */
  lemma {:induction false} LeastExists(s: set<int>)
    requires |s| > 0
    ensures exists m :: IsLeast(m, s)
    decreases |s|
  {
    NonEmptyHasMember(s);
    var y :| y in s;
    var rest := s - {y};
    if |rest| == 0 {
      forall x | x in s
        ensures y <= x
      {
        assert x !in rest;
      }
      assert IsLeast(y, s);
    } else {
      LeastExists(rest);
      var least :| IsLeast(least, rest);
      var m := if y < least then y else least;
      forall x | x in s
        ensures m <= x
      {
        if x != y {
          assert x in rest;
        }
      }
      assert IsLeast(m, s);
    }
  }

  /** `ks` lists exactly the members of `s`, in ascending order. */
  predicate InOrder(ks: seq<int>, s: set<int>)
  {
    && Increasing(ks)
    && (forall i :: 0 <= i < |ks| ==> ks[i] in s)
    && (forall x :: x in s ==> x in ks)
  }

  /** `sorted(keys)`: the keys in ascending order. */
  function SortedKeys(s: set<int>): (ks: seq<int>)
    ensures InOrder(ks, s)
    ensures |ks| == |s|
    decreases |s|
  {
    if |s| == 0 then []
    else
      LeastExists(s);
      var m :| IsLeast(m, s);
      [m] + SortedKeys(s - {m})
  }

  /** The position of the first key without a name, or `|ks|` when every key has one. */
  function FirstMissing(ks: seq<int>): (i: nat)
    ensures i <= |ks|
    ensures forall j :: 0 <= j < i ==> ks[j] in CountPlot.ClassIds
    ensures i < |ks| ==> ks[i] !in CountPlot.ClassIds
  {
    if ks == [] || ks[0] !in CountPlot.ClassIds then 0 else 1 + FirstMissing(ks[1..])
  }

  /** Every key of `ks` has a class name. */
  predicate AllNamed(ks: seq<int>)
  {
    forall i :: 0 <= i < |ks| ==> ks[i] in CountPlot.ClassIds
  }

  /** `[class_names[class_id] for class_id in ks]`, for keys that all have a name. */
  function NamesOf(ks: seq<int>): (names: seq<string>)
    requires AllNamed(ks)
    ensures |names| == |ks|
    ensures forall i :: 0 <= i < |ks| ==> names[i] == CountPlot.ClassNames[ks[i]]
  {
    seq(|ks|, i requires 0 <= i < |ks| => CountPlot.ClassNames[ks[i]])
  }

  /** `[class_counts[class_id] for class_id in ks]`, for keys of the map. */
  function CountsAt(classCounts: map<int, nat>, ks: seq<int>): (counts: seq<nat>)
    requires forall i :: 0 <= i < |ks| ==> ks[i] in classCounts
    ensures |counts| == |ks|
    ensures forall i :: 0 <= i < |ks| ==> counts[i] == classCounts[ks[i]]
  {
    seq(|ks|, i requires 0 <= i < |ks| => classCounts[ks[i]])
  }

  /**
   * The two lists `plot_class_counts` draws: class names and counts, both in
   * ascending class-id order. A key with no name raises KeyError, reported
   * with the least such key, the first the comprehension meets.
   */
  function PlotSeries(classCounts: map<int, nat>): (r: Result<(seq<string>, seq<nat>), int>)
    ensures r.Success? <==> classCounts.Keys <= CountPlot.ClassIds
    ensures r.Success? ==>
              var ks := SortedKeys(classCounts.Keys);
              && AllNamed(ks)
              && r.value == (NamesOf(ks), CountsAt(classCounts, ks))
    ensures r.Failure? ==>
              && r.error in classCounts && r.error !in CountPlot.ClassIds
              && forall k :: k in classCounts && k < r.error ==> k in CountPlot.ClassIds
  {
    var ks := SortedKeys(classCounts.Keys);
    var missing := FirstMissing(ks);
    if missing < |ks| then
      FirstMissingIsLeast(classCounts, ks, missing);
      Failure(ks[missing])
    else
      NamedKeys(classCounts, ks);
      Success((NamesOf(ks), CountsAt(classCounts, ks)))
  }

  /** When every sorted key has a name, every key of the map has one. */
  lemma NamedKeys(classCounts: map<int, nat>, ks: seq<int>)
    requires InOrder(ks, classCounts.Keys)
    requires AllNamed(ks)
    ensures classCounts.Keys <= CountPlot.ClassIds
  {
    forall k | k in classCounts
      ensures k in CountPlot.ClassIds
    {
      assert k in ks;
    }
  }

  /** The key at the first position without a name is the least key without one. */
  lemma FirstMissingIsLeast(classCounts: map<int, nat>, ks: seq<int>, i: nat)
    requires InOrder(ks, classCounts.Keys)
    requires i < |ks| && ks[i] !in CountPlot.ClassIds
    requires forall j :: 0 <= j < i ==> ks[j] in CountPlot.ClassIds
    ensures ks[i] in classCounts
    ensures forall k :: k in classCounts && k < ks[i] ==> k in CountPlot.ClassIds
  {
    forall k | k in classCounts && k < ks[i]
      ensures k in CountPlot.ClassIds
    {
      assert k in ks;
      var j :| 0 <= j < |ks| && ks[j] == k;
      assert j < i;
    }
  }

  /**
   * The tally of `CountClassesInFolder` always plots: the bars are every
   * class name in class-id order, each with its own count.
   */
  lemma PlotOfTally(classCounts: map<int, nat>)
    requires classCounts.Keys == CountPlot.ClassIds
    ensures PlotSeries(classCounts).Success?
    ensures PlotSeries(classCounts).value.0 == CountPlot.ClassNames
    ensures |PlotSeries(classCounts).value.1| == 15
    ensures forall i :: 0 <= i < 15 ==> PlotSeries(classCounts).value.1[i] == classCounts[i]
  {
    var ks := SortedKeys(classCounts.Keys);
    ClassIdsInOrder(ks);
    NamesInIdOrder(ks);
  }

  /** Naming the ids `0, 1, ..., 14` gives the class names in order. */
  lemma NamesInIdOrder(ks: seq<int>)
    requires |ks| == 15 && forall i :: 0 <= i < 15 ==> ks[i] == i
    ensures AllNamed(ks) && NamesOf(ks) == CountPlot.ClassNames
  {
    assert AllNamed(ks);
    assert forall i :: 0 <= i < 15 ==> NamesOf(ks)[i] == CountPlot.ClassNames[i];
  }

  /** Listing the class ids in ascending order gives `0, 1, ..., 14`. */
  lemma ClassIdsInOrder(ks: seq<int>)
    requires InOrder(ks, CountPlot.ClassIds)
    ensures |ks| == 15 && forall i :: 0 <= i < 15 ==> ks[i] == i
  {
    forall i | 0 <= i < |ks|
      ensures 0 <= ks[i] < 15
    {
      assert ks[i] in CountPlot.ClassIds;
    }
    forall v | 0 <= v < 15
      ensures v in ks
    {
      assert v in CountPlot.ClassIds;
    }
    IncreasingRange(ks, 15);
  }

  /**
   * An increasing sequence whose values lie in `0..n-1` and include each of
   * them is `0, 1, ..., n-1`.
   */
  lemma IncreasingRange(ks: seq<int>, n: nat)
    requires Increasing(ks)
    requires forall i :: 0 <= i < |ks| ==> 0 <= ks[i] < n
    requires forall v :: 0 <= v < n ==> v in ks
    ensures |ks| == n && forall i :: 0 <= i < n ==> ks[i] == i
  {
    if n > 0 {
      Settled(ks, n, n - 1);
    }
    if |ks| > n {
      Climbs(ks, |ks| - 1);
      assert false;
    }
  }

  /** The values `0..i` sit at their own positions. */
  lemma {:induction false} Settled(ks: seq<int>, n: nat, i: nat)
    requires Increasing(ks)
    requires forall j :: 0 <= j < |ks| ==> 0 <= ks[j] < n
    requires forall v :: 0 <= v < n ==> v in ks
    requires i < n
    ensures i < |ks| && forall j :: 0 <= j <= i ==> ks[j] == j
  {
    if i > 0 {
      Settled(ks, n, i - 1);
    }
    assert i in ks;
    var at :| 0 <= at < |ks| && ks[at] == i;
    Climbs(ks, at);
  }

  /** In an increasing sequence of values at least 0, entry `i` is at least `i`. */
  lemma {:induction false} Climbs(ks: seq<int>, i: nat)
    requires Increasing(ks) && i < |ks|
    requires forall j :: 0 <= j < |ks| ==> 0 <= ks[j]
    ensures ks[i] >= i
  {
    if i > 0 {
      Climbs(ks, i - 1);
    }
  }
}
