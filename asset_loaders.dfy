/** The registry of asset loaders: a list kept in order of non-increasing priority, so that
    loaders for formats with a header identifier are probed before headerless formats. */
module AssetLoaderRegistry {

  /** A loader for one asset type; only its load priority matters to the registry. */
  class AssetLoader {
    const priority: int

    constructor (priority: int)
      ensures this.priority == priority
    {
      this.priority := priority;
    }

    function GetPriority(): (p: int)
      ensures p == priority
    {
      priority
    }
  }

  /** Higher priority comes first; equal priorities may come in any order. */
  predicate SortedByPriority(s: seq<AssetLoader>) {
    forall i, j | 0 <= i < j < |s| :: s[i].priority >= s[j].priority
  }

  /** Reference definition of an insertion: x goes after every loader of strictly higher
      priority and before the first one whose priority is at most its own. */
  function InsertByPriority(s: seq<AssetLoader>, x: AssetLoader): (r: seq<AssetLoader>)
    ensures |r| == |s| + 1
    ensures multiset(r) == multiset(s) + multiset{x}
  {
    if s == [] || s[0].priority <= x.priority then [x] + s
    else
      assert s == [s[0]] + s[1..];
      [s[0]] + InsertByPriority(s[1..], x)
  }

  /** Putting x at k of a non-empty list is keeping its head and putting x at k - 1 of its tail. */
  lemma SpliceOfTail(s: seq<AssetLoader>, x: AssetLoader, k: nat)
    requires 0 < k <= |s|
    ensures [s[0]] + (s[1..][..k - 1] + [x] + s[1..][k - 1..]) == s[..k] + [x] + s[k..]
  {
    assert s[..k] == [s[0]] + s[1..][..k - 1];
    assert s[k..] == s[1..][k - 1..];
  }

  /** Where s is partitioned at k (strictly higher priorities first), the insertion puts x at k. */
  lemma {:induction false} InsertAtPartition(s: seq<AssetLoader>, x: AssetLoader, k: nat)
    requires k <= |s|
    requires forall i | 0 <= i < k :: s[i].priority > x.priority
    requires forall i | k <= i < |s| :: s[i].priority <= x.priority
    ensures InsertByPriority(s, x) == s[..k] + [x] + s[k..]
    decreases k
  {
    if k > 0 {
      InsertAtPartition(s[1..], x, k - 1);
      SpliceOfTail(s, x, k);
    } else {
      assert s[..k] + [x] + s[k..] == [x] + s;
    }
  }

  /** The partition point of a sorted list: the number of loaders of strictly higher priority. */
  function HigherCount(s: seq<AssetLoader>, x: AssetLoader): (k: nat)
    ensures k <= |s|
  {
    if s == [] || s[0].priority <= x.priority then 0 else 1 + HigherCount(s[1..], x)
  }

  /** In a sorted list the loaders before the count are exactly those of strictly higher priority. */
  lemma {:induction false} HigherCountPartitions(s: seq<AssetLoader>, x: AssetLoader)
    requires SortedByPriority(s)
    ensures forall i | 0 <= i < HigherCount(s, x) :: s[i].priority > x.priority
    ensures forall i | HigherCount(s, x) <= i < |s| :: s[i].priority <= x.priority
    decreases |s|
  {
    var k := HigherCount(s, x);
    if s != [] && s[0].priority > x.priority {
      HigherCountPartitions(s[1..], x);
      forall i | 0 <= i < k ensures s[i].priority > x.priority {
        if i > 0 { assert s[i] == s[1..][i - 1]; }
      }
      forall i | k <= i < |s| ensures s[i].priority <= x.priority {
        assert s[i] == s[1..][i - 1];
      }
    }
  }

  /** Putting x at the partition point of a sorted list keeps it sorted. */
  lemma SpliceKeepsSorted(s: seq<AssetLoader>, x: AssetLoader, k: nat)
    requires SortedByPriority(s) && k <= |s|
    requires forall i | 0 <= i < k :: s[i].priority > x.priority
    requires forall i | k <= i < |s| :: s[i].priority <= x.priority
    ensures SortedByPriority(s[..k] + [x] + s[k..])
  {
    var r := s[..k] + [x] + s[k..];
    forall i, j | 0 <= i < j < |r| ensures r[i].priority >= r[j].priority {
      if i < k && j > k { assert r[i] == s[i] && r[j] == s[j - 1]; }
      else if i < k && j < k { assert r[i] == s[i] && r[j] == s[j]; }
      else if i > k { assert r[i] == s[i - 1] && r[j] == s[j - 1]; }
    }
  }

  /** In a sorted list the new loader follows every higher-priority loader and precedes every
      other one, the existing loaders keep their relative order, and the list stays sorted. */
  lemma InsertedPlacement(s: seq<AssetLoader>, x: AssetLoader)
    requires SortedByPriority(s)
    ensures var k := HigherCount(s, x);
      && InsertByPriority(s, x) == s[..k] + [x] + s[k..]
      && (forall i | 0 <= i < k :: s[i].priority > x.priority)
      && (forall i | k <= i < |s| :: s[i].priority <= x.priority)
    ensures SortedByPriority(InsertByPriority(s, x))
  {
    var k := HigherCount(s, x);
    HigherCountPartitions(s, x);
    InsertAtPartition(s, x, k);
    SpliceKeepsSorted(s, x, k);
  }

  /** The AssetLoaders list. */
  class AssetLoaders {
    var loaders: seq<AssetLoader>

    /** The list is ordered by non-increasing priority. */
    ghost predicate Valid()
      reads this
    {
      SortedByPriority(loaders)
    }

    constructor ()
      ensures loaders == [] && Valid()
    {
      loaders := [];
    }

    /** The loaders in stored order: a higher-priority loader is always probed earlier. */
    function GetLoaders(): (r: seq<AssetLoader>)
      reads this
      requires Valid()
      ensures |r| == |loaders| && forall i | 0 <= i < |r| :: r[i] == loaders[i]
      ensures forall i, j | 0 <= i < j < |r| :: r[i].GetPriority() >= r[j].GetPriority()
    {
      loaders
    }

    /** Binary search for the first loader whose priority is at most that of the given one,
        as `std::upper_bound` with the comparison `lhs.priority >= rhs.priority` finds it. */
    method UpperBound(loader: AssetLoader) returns (index: nat)
      requires Valid()
      ensures index <= |loaders|
      ensures forall i | 0 <= i < index :: loaders[i].priority > loader.priority
      ensures forall i | index <= i < |loaders| :: loaders[i].priority <= loader.priority
    {
      var low, high := 0, |loaders|;
      while low < high
        invariant 0 <= low <= high <= |loaders|
        invariant forall i | 0 <= i < low :: loaders[i].priority > loader.priority
        invariant forall i | high <= i < |loaders| :: loaders[i].priority <= loader.priority
      {
        var middle := (low + high) / 2;
        if loader.GetPriority() >= loaders[middle].GetPriority() {
          high := middle;
        } else {
          low := middle + 1;
        }
      }
      return low;
    }

    /** Inserts a non-null loader at its upper bound. */
    method Add(loader: AssetLoader?)
      requires loader != null
      requires Valid()
      modifies this
      ensures Valid()
      ensures loaders == InsertByPriority(old(loaders), loader)
    {
      var index := UpperBound(loader);
      InsertAtPartition(loaders, loader, index);
      SpliceKeepsSorted(loaders, loader, index);
      loaders := loaders[..index] + [loader] + loaders[index..];
    }
  }
}
