/**
  The one-edit test of discovery name matching, on strings as sequences of code units: equal, one substitution, one
  insertion, one deletion or one swap of neighbours.
 */
module EditDistance {

  /** One unit replaced. */
  ghost predicate Substituted<T>(a: seq<T>, b: seq<T>, i: nat) {
    |a| == |b| && i < |a| && b == a[i := b[i]]
  }

  /** One unit of `long` left out gives `short`. */
  ghost predicate Inserted<T>(short: seq<T>, long: seq<T>, i: nat) {
    |long| == |short| + 1 && i < |long| && short == long[..i] + long[i + 1..]
  }

  /** Two neighbours swapped. */
  ghost predicate Swapped<T>(a: seq<T>, b: seq<T>, i: nat) {
    |a| == |b| && i + 1 < |a| && b == a[i := a[i + 1]][i + 1 := a[i]]
  }

  ghost predicate WithinOneEdit<T>(a: seq<T>, b: seq<T>) {
    || a == b
    || (exists i: nat :: Substituted(a, b, i))
    || (exists i: nat :: Inserted(a, b, i))
    || (exists i: nat :: Inserted(b, a, i))
    || (exists i: nat :: Swapped(a, b, i))
  }

  /** The places below `n` where the two differ. */
  ghost function Differences<T>(a: seq<T>, b: seq<T>, n: nat): set<int>
    requires |a| == |b| && n <= |a|
  {
    set k | 0 <= k < n && a[k] != b[k]
  }

  lemma NextDifference<T>(a: seq<T>, b: seq<T>, n: nat)
    requires |a| == |b| && n < |a|
    ensures Differences(a, b, n + 1) == if a[n] != b[n] then Differences(a, b, n) + {n} else Differences(a, b, n)
    ensures n !in Differences(a, b, n)
  {
  }

  lemma SetOfOne(s: set<int>, x: int)
    requires |s| == 1 && x in s
    ensures s == {x}
  {
    assert |s - {x}| == 0;
  }

  lemma SetOfTwo(s: set<int>, x: int, y: int)
    requires |s| == 2 && x in s && y in s && x != y
    ensures s == {x, y}
  {
    assert |s - {x, y}| == 0;
  }

  /** Equal lengths: the edits and the places of difference. */
  lemma SameLengthEdits<T>(a: seq<T>, b: seq<T>, i: nat)
    requires |a| == |b|
    ensures Substituted(a, b, i) ==> Differences(a, b, |a|) <= {i}
    ensures i < |a| && Differences(a, b, |a|) <= {i} ==> Substituted(a, b, i)
    ensures Swapped(a, b, i) ==> a == b || Differences(a, b, |a|) == {i, i + 1}
    ensures i + 1 < |a| && Differences(a, b, |a|) <= {i, i + 1} && a[i] == b[i + 1] && a[i + 1] == b[i] ==> Swapped(a, b, i)
  {
    if Swapped(a, b, i) && a[i] == a[i + 1] { assert a == b; }
    if i + 1 < |a| && Differences(a, b, |a|) <= {i, i + 1} && a[i] == b[i + 1] && a[i + 1] == b[i] {
      forall k | 0 <= k < |a| && k != i && k != i + 1 ensures a[k] == b[k] { assert k !in Differences(a, b, |a|); }
    }
    if i < |a| && Differences(a, b, |a|) <= {i} {
      forall k | 0 <= k < |a| && k != i ensures a[k] == b[k] { assert k !in Differences(a, b, |a|); }
    }
  }

  /** Strings of equal length: count the differences and look at the first. */
  method SameLengthWithinOne<T(==)>(left: seq<T>, right: seq<T>) returns (r: bool)
    requires |left| == |right| && left != right
    ensures r <==> WithinOneEdit(left, right)
  {
    var firstDiff, diffCount := -1, 0;
    var index := 0;
    while index < |left|
      invariant 0 <= index <= |left| && diffCount == |Differences(left, right, index)|
      invariant firstDiff < 0 <==> Differences(left, right, index) == {}
      invariant firstDiff >= 0 ==> firstDiff in Differences(left, right, index) && forall k :: 0 <= k < firstDiff ==> left[k] == right[k]
    {
      NextDifference(left, right, index);
      if left[index] != right[index] {
        if firstDiff < 0 {
          forall k | 0 <= k < index ensures left[k] == right[k] { assert k !in Differences(left, right, index); }
          firstDiff := index;
        }
        diffCount := diffCount + 1;
      }
      index := index + 1;
    }
    ghost var all := Differences(left, right, |left|);
    r := diffCount == 1
      || (diffCount == 2 && firstDiff + 1 < |left| && left[firstDiff] == right[firstDiff + 1] && left[firstDiff + 1] == right[firstDiff]);
    SameLengthDecides(left, right, firstDiff, r);
  }

  lemma NoDifference<T>(a: seq<T>, b: seq<T>)
    requires |a| == |b| && Differences(a, b, |a|) == {}
    ensures a == b
  {
    forall k | 0 <= k < |a| ensures a[k] == b[k] { assert k !in Differences(a, b, |a|); }
  }

  /** What the count and the first difference say. */
  lemma SameLengthDecides<T>(a: seq<T>, b: seq<T>, first: int, r: bool)
    requires |a| == |b| && a != b
    requires var all := Differences(a, b, |a|);
      && (first < 0 <==> all == {}) && (first >= 0 ==> first in all && forall k :: 0 <= k < first ==> a[k] == b[k])
      && (r <==> |all| == 1 || (|all| == 2 && first + 1 < |a| && a[first] == b[first + 1] && a[first + 1] == b[first]))
    ensures r <==> WithinOneEdit(a, b)
  {
    var all := Differences(a, b, |a|);
    if all == {} { NoDifference(a, b); }
    if r { SameLengthSound(a, b, first); }
    if WithinOneEdit(a, b) { SameLengthComplete(a, b, first); }
  }

  lemma SameLengthSound<T>(a: seq<T>, b: seq<T>, first: nat)
    requires |a| == |b| && first in Differences(a, b, |a|)
    requires var all := Differences(a, b, |a|);
      |all| == 1 || (|all| == 2 && first + 1 < |a| && a[first] == b[first + 1] && a[first + 1] == b[first])
    ensures WithinOneEdit(a, b)
  {
    var all := Differences(a, b, |a|);
    SameLengthEdits(a, b, first);
    if |all| == 1 {
      SetOfOne(all, first);
      assert Substituted(a, b, first);
    } else {
      assert first + 1 in all;
      SetOfTwo(all, first, first + 1);
      assert Swapped(a, b, first);
    }
  }

  lemma SameLengthComplete<T>(a: seq<T>, b: seq<T>, first: nat)
    requires |a| == |b| && a != b && WithinOneEdit(a, b)
    requires first in Differences(a, b, |a|) && forall k :: 0 <= k < first ==> a[k] == b[k]
    ensures var all := Differences(a, b, |a|);
      |all| == 1 || (|all| == 2 && first + 1 < |a| && a[first] == b[first + 1] && a[first + 1] == b[first])
  {
    var all := Differences(a, b, |a|);
    if i: nat :| Substituted(a, b, i) {
      SameLengthEdits(a, b, i);
      assert all == {i};
    } else {
      var i: nat :| Swapped(a, b, i);
      SameLengthEdits(a, b, i);
      assert all == {i, i + 1} && i in all;
      assert first == i;
    }
  }

  // ----- lengths that differ by one -----

  /** The greedy walk so far: no mismatch yet, or one at `p` after which the rest lines up shifted by one. */
  ghost predicate Walked<T>(short: seq<T>, long: seq<T>, s: nat, l: nat, edits: nat, p: nat) {
    && s <= |short| && l <= |long| && l == s + edits && edits <= 1
    && (edits == 0 ==> short[..s] == long[..s])
    && (edits == 1 ==> p <= s && p < |long| && short[..p] == long[..p] && short[p..s] == long[p + 1..l] && (p < |short| ==> short[p] != long[p]))
  }

  /** The walk through strings whose lengths differ by one. */
  method GreedyWithinOne<T(==)>(shorter: seq<T>, longer: seq<T>) returns (r: bool)
    requires |longer| == |shorter| + 1
    ensures r <==> exists i: nat :: Inserted(shorter, longer, i)
  {
    var shorterIndex, longerIndex, edits := 0, 0, 0;
    ghost var p := 0;
    while shorterIndex < |shorter| && longerIndex < |longer|
      invariant Walked(shorter, longer, shorterIndex, longerIndex, edits, p)
      decreases |shorter| - shorterIndex + |longer| - longerIndex
    {
      if shorter[shorterIndex] == longer[longerIndex] {
        WalkOn(shorter, longer, shorterIndex, longerIndex, edits, p);
        shorterIndex := shorterIndex + 1;
        longerIndex := longerIndex + 1;
      } else {
        if edits == 1 {
          NotInserted(shorter, longer, shorterIndex, p);
          return false;
        }
        p := shorterIndex;
        edits := edits + 1;
        longerIndex := longerIndex + 1;
      }
    }
    WalkedThrough(shorter, longer, shorterIndex, longerIndex, edits, p);
    return true;
  }

  lemma WalkOn<T>(short: seq<T>, long: seq<T>, s: nat, l: nat, edits: nat, p: nat)
    requires Walked(short, long, s, l, edits, p) && s < |short| && l < |long| && short[s] == long[l]
    ensures Walked(short, long, s + 1, l + 1, edits, p)
  {
    if edits == 1 {
      assert short[p..s + 1] == short[p..s] + [short[s]];
      assert long[p + 1..l + 1] == long[p + 1..l] + [long[l]];
    } else {
      assert short[..s + 1] == short[..s] + [short[s]] && long[..s + 1] == long[..s] + [long[s]];
    }
  }

  /** A second mismatch rules out every insertion: none before the first mismatch, none after it. */
  lemma NotInserted<T>(short: seq<T>, long: seq<T>, s: nat, p: nat)
    requires Walked(short, long, s, s + 1, 1, p) && s < |short| && |long| == |short| + 1 && short[s] != long[s + 1]
    ensures !exists i: nat :: Inserted(short, long, i)
  {
    forall i: nat ensures !Inserted(short, long, i) {
      if i < |long| && i <= p {
        assert (long[..i] + long[i + 1..])[s] == long[s + 1];
      } else if i < |long| {
        assert (long[..i] + long[i + 1..])[p] == long[p];
      }
    }
  }

  lemma WalkedThrough<T>(short: seq<T>, long: seq<T>, s: nat, l: nat, edits: nat, p: nat)
    requires Walked(short, long, s, l, edits, p) && |long| == |short| + 1 && (s >= |short| || l >= |long|)
    ensures exists i: nat :: Inserted(short, long, i)
  {
    if edits == 0 {
      assert short == short[..s];
      assert Inserted(short, long, |short|);
    } else {
      assert s == |short| && l == |long|;
      assert short == short[..p] + short[p..s];
      assert Inserted(short, long, p);
    }
  }

  /** `damerauLevenshteinAtMostOne`: true exactly when one edit at most separates the strings. */
  method DamerauLevenshteinAtMostOne<T(==)>(left: seq<T>, right: seq<T>) returns (r: bool)
    ensures r <==> WithinOneEdit(left, right)
  {
    if left == right { return true; }
    if |left| > |right| + 1 || |right| > |left| + 1 { return false; }
    if |left| == |right| {
      r := SameLengthWithinOne(left, right);
      return;
    }
    var shorter, longer := if |left| < |right| then left else right, if |left| < |right| then right else left;
    r := GreedyWithinOne(shorter, longer);
  }
}
