/**
 * `sorted(active_plugins, key=lambda plugin: plugin.priority)`: Python's `sorted` is a stable
 * sort, so the result is ordered by ascending priority and plugins of equal priority keep
 * their order from the input list.
 */
module PrioritySort {
  import opened Plugins

  predicate SortedByPriority(s: seq<Plugin>) {
    forall i, j :: 0 <= i < j < |s| ==> s[i].priority <= s[j].priority
  }

  /** The plugins of `s` whose priority is `k`, in their order in `s`. */
  function WithPriority(s: seq<Plugin>, k: int): seq<Plugin> {
    if s == [] then []
    else (if s[0].priority == k then [s[0]] else []) + WithPriority(s[1..], k)
  }

  /** Puts `x` in front of the first element whose priority is not below its own. */
  function Insert(x: Plugin, s: seq<Plugin>): seq<Plugin> {
    if s == [] || x.priority <= s[0].priority then [x] + s
    else [s[0]] + Insert(x, s[1..])
  }

  /** Insertion sort by priority: the head of the list is placed before every later plugin of equal priority. */
  function SortByPriority(s: seq<Plugin>): seq<Plugin> {
    if s == [] then [] else Insert(s[0], SortByPriority(s[1..]))
  }

  lemma {:induction false} InsertKeepsSorted(x: Plugin, s: seq<Plugin>)
    requires SortedByPriority(s)
    ensures SortedByPriority(Insert(x, s))
    ensures Insert(x, s)[0] == x || (s != [] && Insert(x, s)[0] == s[0])
  {
    if s != [] && x.priority > s[0].priority {
      InsertKeepsSorted(x, s[1..]);
      var t := Insert(x, s[1..]);
      assert s[0].priority <= t[0].priority;
    }
  }

  lemma {:induction false} InsertPermutes(x: Plugin, s: seq<Plugin>)
    ensures multiset(Insert(x, s)) == multiset{x} + multiset(s)
  {
    if s != [] && x.priority > s[0].priority {
      InsertPermutes(x, s[1..]);
      assert s == [s[0]] + s[1..];
    }
  }

  lemma {:induction false} InsertWithPriority(x: Plugin, s: seq<Plugin>, k: int)
    ensures WithPriority(Insert(x, s), k) ==
      (if x.priority == k then [x] + WithPriority(s, k) else WithPriority(s, k))
  {
    if s == [] || x.priority <= s[0].priority {
      assert ([x] + s)[1..] == s;
    } else {
      InsertWithPriority(x, s[1..], k);
      assert ([s[0]] + Insert(x, s[1..]))[1..] == Insert(x, s[1..]);
    }
  }

  /**
   * The sorted list is ordered by ascending priority, is a permutation of its input, and is
   * stable: for every priority value, the plugins with that priority appear in input order.
   */
  lemma {:induction false} SortByPriorityCorrect(s: seq<Plugin>)
    ensures SortedByPriority(SortByPriority(s))
    ensures multiset(SortByPriority(s)) == multiset(s)
    ensures |SortByPriority(s)| == |s|
    ensures forall k :: WithPriority(SortByPriority(s), k) == WithPriority(s, k)
  {
    if s != [] {
      SortByPriorityCorrect(s[1..]);
      InsertKeepsSorted(s[0], SortByPriority(s[1..]));
      InsertPermutes(s[0], SortByPriority(s[1..]));
      assert s == [s[0]] + s[1..];
      forall k ensures WithPriority(SortByPriority(s), k) == WithPriority(s, k) {
        InsertWithPriority(s[0], SortByPriority(s[1..]), k);
      }
      assert |SortByPriority(s)| == |multiset(SortByPriority(s))|;
    }
  }

  /**
   * Sortedness and stability fix the order completely: any sorted list that keeps, for every
   * priority, the input order of that priority's plugins is the result of `SortByPriority`.
   */
  lemma {:induction false} StableSortUnique(s: seq<Plugin>, t: seq<Plugin>)
    requires SortedByPriority(t)
    requires forall k :: WithPriority(t, k) == WithPriority(s, k)
    ensures t == SortByPriority(s)
  {
    SortByPriorityCorrect(s);
    SortedStableEqual(t, SortByPriority(s));
  }

  lemma {:induction false} SortedStableEqual(a: seq<Plugin>, b: seq<Plugin>)
    requires SortedByPriority(a) && SortedByPriority(b)
    requires forall k :: WithPriority(a, k) == WithPriority(b, k)
    ensures a == b
    decreases |a| + |b|
  {
    WithPriorityOfHead(a);
    WithPriorityOfHead(b);
    if a != [] && b != [] {
      SameHead(a, b);
      TailsAgree(a, b);
      SortedTail(a);
      SortedTail(b);
      SortedStableEqual(a[1..], b[1..]);
      assert a == [a[0]] + a[1..] && b == [b[0]] + b[1..];
    }
  }

  /** Sorted lists with the same per-priority subsequences start with the same plugin. */
  lemma SameHead(a: seq<Plugin>, b: seq<Plugin>)
    requires SortedByPriority(a) && SortedByPriority(b) && a != [] && b != []
    requires forall k :: WithPriority(a, k) == WithPriority(b, k)
    ensures a[0] == b[0]
  {
    var pa, pb := a[0].priority, b[0].priority;
    WithPriorityOfHead(a);
    WithPriorityOfHead(b);
    MinPriority(a);
    MinPriority(b);
    assert pa == pb;
    assert a[0] == WithPriority(a, pa)[0] == WithPriority(b, pa)[0] == b[0];
  }

  /** Two lists with the same head and the same per-priority subsequences agree on their tails too. */
  lemma TailsAgree(a: seq<Plugin>, b: seq<Plugin>)
    requires a != [] && b != [] && a[0] == b[0]
    requires forall k :: WithPriority(a, k) == WithPriority(b, k)
    ensures forall k :: WithPriority(a[1..], k) == WithPriority(b[1..], k)
  {
    forall k ensures WithPriority(a[1..], k) == WithPriority(b[1..], k) {
      WithPriorityOfTail(a, k);
      WithPriorityOfTail(b, k);
    }
  }

  lemma WithPriorityOfTail(s: seq<Plugin>, k: int)
    requires s != []
    ensures s[0].priority == k ==> WithPriority(s, k) != [] && WithPriority(s[1..], k) == WithPriority(s, k)[1..]
    ensures s[0].priority != k ==> WithPriority(s[1..], k) == WithPriority(s, k)
  {
    if s[0].priority == k {
      assert WithPriority(s, k) == [s[0]] + WithPriority(s[1..], k);
    } else {
      assert WithPriority(s, k) == [] + WithPriority(s[1..], k);
    }
  }

  lemma SortedTail(s: seq<Plugin>)
    requires SortedByPriority(s) && s != []
    ensures SortedByPriority(s[1..])
  {
    forall i, j | 0 <= i < j < |s| - 1 ensures s[1..][i].priority <= s[1..][j].priority {
      assert s[1..][i] == s[i + 1] && s[1..][j] == s[j + 1];
    }
  }

  lemma WithPriorityOfHead(s: seq<Plugin>)
    ensures s != [] ==> WithPriority(s, s[0].priority) != []
  {
  }

  /** In a sorted list no priority below the head's occurs. */
  lemma {:induction false} MinPriority(s: seq<Plugin>)
    requires SortedByPriority(s) && s != []
    ensures forall k :: k < s[0].priority ==> WithPriority(s, k) == []
    ensures WithPriority(s, s[0].priority)[0] == s[0]
  {
    forall k | k < s[0].priority ensures WithPriority(s, k) == [] {
      NoneBelow(s, k);
    }
  }

  lemma {:induction false} NoneBelow(s: seq<Plugin>, k: int)
    requires forall i :: 0 <= i < |s| ==> k < s[i].priority
    ensures WithPriority(s, k) == []
  {
    if s != [] {
      NoneBelow(s[1..], k);
    }
  }
}
