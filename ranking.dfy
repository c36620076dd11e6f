/**
 * The ranking step of `calculateOptimalShot`: JavaScript's
 * `Array.prototype.sort`, which is stable, called with a comparator that
 * orders by a numeric key (`key(a) - key(b)`), and the element such a sort
 * leaves last. The key itself is supplied by the caller.
 */
module Ranking {
  import opened Candidates

  predicate SortedByKey(s: seq<Candidate>, key: Candidate -> nat)
  {
    forall i, j :: 0 <= i < j < |s| ==> key(s[i]) <= key(s[j])
  }

  /**
   * Insert `x` into `t` behind every element whose key is not larger,
   * scanning from the back, as a stable insertion sort does.
   */
  function Insert(t: seq<Candidate>, x: Candidate, key: Candidate -> nat): (r: seq<Candidate>)
    ensures |r| == |t| + 1
  {
    if t == [] then [x]
    else if key(t[|t| - 1]) > key(x) then Insert(t[..|t| - 1], x, key) + [t[|t| - 1]]
    else t + [x]
  }

  /** The stable ascending sort by `key`, as an insertion sort. */
  function SortByKey(s: seq<Candidate>, key: Candidate -> nat): (r: seq<Candidate>)
    ensures |r| == |s|
  {
    if s == [] then [] else Insert(SortByKey(s[..|s| - 1], key), s[|s| - 1], key)
  }

  /** The elements of `s` whose key is `d`, in the order of `s`. */
  function WithKey(s: seq<Candidate>, key: Candidate -> nat, d: nat): seq<Candidate>
  {
    if s == [] then [] else WithKey(s[..|s| - 1], key, d) + IfKeyIs(s[|s| - 1], key, d)
  }

  /** `[c]` when the key of `c` is `d`, otherwise nothing. */
  function IfKeyIs(c: Candidate, key: Candidate -> nat, d: nat): seq<Candidate>
  {
    if key(c) == d then [c] else []
  }

  /**
   * The index of the element with the largest key that comes latest in `s`:
   * no key is larger, and every later key is smaller.
   */
  function LastMaxIndex(s: seq<Candidate>, key: Candidate -> nat): (k: nat)
    requires |s| > 0
    ensures k < |s|
    ensures forall i :: 0 <= i < |s| ==> key(s[i]) <= key(s[k])
    ensures forall i :: k < i < |s| ==> key(s[i]) < key(s[k])
  {
    if |s| == 1 then 0
    else
      var k := LastMaxIndex(s[..|s| - 1], key);
      if key(s[|s| - 1]) >= key(s[k]) then |s| - 1 else k
  }

  /** Inserting adds `x` and loses nothing. */
  lemma {:induction false} InsertPermutes(t: seq<Candidate>, x: Candidate, key: Candidate -> nat)
    ensures multiset(Insert(t, x, key)) == multiset(t) + multiset{x}
  {
    if t != [] && key(t[|t| - 1]) > key(x) {
      InsertPermutes(t[..|t| - 1], x, key);
      assert t == t[..|t| - 1] + [t[|t| - 1]];
    }
  }

  lemma InsertMembers(t: seq<Candidate>, x: Candidate, key: Candidate -> nat, c: Candidate)
    ensures c in Insert(t, x, key) <==> c in t || c == x
  {
    InsertPermutes(t, x, key);
    assert c in Insert(t, x, key) <==> c in multiset(Insert(t, x, key));
    assert c in t <==> c in multiset(t);
  }

  /** The sort rearranges `s`: it neither loses nor adds an element. */
  lemma {:induction false} SortByKeyPermutes(s: seq<Candidate>, key: Candidate -> nat)
    ensures multiset(SortByKey(s, key)) == multiset(s)
  {
    if s != [] {
      SortByKeyPermutes(s[..|s| - 1], key);
      InsertPermutes(SortByKey(s[..|s| - 1], key), s[|s| - 1], key);
      assert s == s[..|s| - 1] + [s[|s| - 1]];
    }
  }

  /** Inserting into a sorted sequence keeps it sorted. */
  lemma {:induction false} InsertSorted(t: seq<Candidate>, x: Candidate, key: Candidate -> nat)
    requires SortedByKey(t, key)
    ensures SortedByKey(Insert(t, x, key), key)
  {
    if t == [] {
    } else if key(t[|t| - 1]) > key(x) {
      var front, last := t[..|t| - 1], t[|t| - 1];
      assert SortedByKey(front, key) by {
        forall i, j | 0 <= i < j < |front| ensures key(front[i]) <= key(front[j]) {
          assert front[i] == t[i] && front[j] == t[j];
        }
      }
      InsertSorted(front, x, key);
      var head := Insert(front, x, key);
      var r := head + [last];
      forall i | 0 <= i < |head|
        ensures key(head[i]) <= key(last)
      {
        InsertMembers(front, x, key, head[i]);
        if head[i] != x {
          var j :| 0 <= j < |front| && front[j] == head[i];
          assert t[j] == head[i];
        }
      }
      forall i, j | 0 <= i < j < |r|
        ensures key(r[i]) <= key(r[j])
      {
        assert r[i] == head[i];
        if j < |head| {
          assert r[j] == head[j];
        }
      }
    } else {
      var r := t + [x];
      forall i, j | 0 <= i < j < |r|
        ensures key(r[i]) <= key(r[j])
      {
        assert r[i] == t[i];
        if j < |t| {
          assert r[j] == t[j];
        } else {
          assert key(t[i]) <= key(t[|t| - 1]);
        }
      }
    }
  }

  /** The sort orders by key, ascending. */
  lemma {:induction false} SortByKeySorted(s: seq<Candidate>, key: Candidate -> nat)
    ensures SortedByKey(SortByKey(s, key), key)
  {
    if s != [] {
      SortByKeySorted(s[..|s| - 1], key);
      InsertSorted(SortByKey(s[..|s| - 1], key), s[|s| - 1], key);
    }
  }

  lemma WithKeyAppend(s: seq<Candidate>, x: Candidate, key: Candidate -> nat, d: nat)
    ensures WithKey(s + [x], key, d) == WithKey(s, key, d) + IfKeyIs(x, key, d)
  {
    assert (s + [x])[..|s|] == s;
  }

  /** Where `x` lands, every element behind it has a larger key than `x`. */
  lemma {:induction false} InsertStable(t: seq<Candidate>, x: Candidate, key: Candidate -> nat, d: nat)
    ensures WithKey(Insert(t, x, key), key, d) == WithKey(t, key, d) + IfKeyIs(x, key, d)
  {
    if t == [] {
      WithKeyAppend([], x, key, d);
    } else if key(t[|t| - 1]) > key(x) {
      var front, last := t[..|t| - 1], t[|t| - 1];
      assert t == front + [last];
      var head := Insert(front, x, key);
      assert Insert(t, x, key) == head + [last];
      InsertStable(front, x, key, d);
      WithKeyAppend(head, last, key, d);
      WithKeyAppend(front, last, key, d);
      assert IfKeyIs(x, key, d) + IfKeyIs(last, key, d) == IfKeyIs(last, key, d) + IfKeyIs(x, key, d) by {
        assert IfKeyIs(x, key, d) == [] || IfKeyIs(last, key, d) == [];
      }
      calc {
        WithKey(Insert(t, x, key), key, d);
      ==
        WithKey(head, key, d) + IfKeyIs(last, key, d);
      ==
        WithKey(front, key, d) + IfKeyIs(x, key, d) + IfKeyIs(last, key, d);
      ==
        WithKey(front, key, d) + (IfKeyIs(x, key, d) + IfKeyIs(last, key, d));
      ==
        WithKey(front, key, d) + (IfKeyIs(last, key, d) + IfKeyIs(x, key, d));
      ==
        WithKey(front, key, d) + IfKeyIs(last, key, d) + IfKeyIs(x, key, d);
      ==
        WithKey(t, key, d) + IfKeyIs(x, key, d);
      }
    } else {
      WithKeyAppend(t, x, key, d);
    }
  }

  /**
   * The sort is stable: for every key value, the elements with that key keep
   * their relative order.
   */
  lemma {:induction false} SortByKeyStable(s: seq<Candidate>, key: Candidate -> nat, d: nat)
    ensures WithKey(SortByKey(s, key), key, d) == WithKey(s, key, d)
  {
    if s != [] {
      var front, last := s[..|s| - 1], s[|s| - 1];
      SortByKeyStable(front, key, d);
      InsertStable(SortByKey(front, key), last, key, d);
    }
  }

  lemma {:induction false} WithKeyMembers(s: seq<Candidate>, key: Candidate -> nat, d: nat)
    ensures forall c :: c in WithKey(s, key, d) <==> c in s && key(c) == d
  {
    if s != [] {
      WithKeyMembers(s[..|s| - 1], key, d);
      assert s == s[..|s| - 1] + [s[|s| - 1]];
    }
  }

  /** Among the elements with the largest key, the last one is the one at `LastMaxIndex`. */
  lemma {:induction false} WithKeyEndsAtLastMax(s: seq<Candidate>, key: Candidate -> nat)
    requires |s| > 0
    ensures var k := LastMaxIndex(s, key); var w := WithKey(s, key, key(s[k]));
      |w| > 0 && w[|w| - 1] == s[k]
  {
    var k := LastMaxIndex(s, key);
    if k < |s| - 1 {
      var front := s[..|s| - 1];
      assert LastMaxIndex(front, key) == k;
      WithKeyEndsAtLastMax(front, key);
    }
  }

  /**
   * Whatever stable sort arranges `s`, its last element is the element with
   * the largest key that comes latest in `s`.
   */
  lemma AnyStableSortEndsWithLastMax(s: seq<Candidate>, r: seq<Candidate>, key: Candidate -> nat)
    requires |s| > 0
    requires SortedByKey(r, key)
    requires forall d: nat :: WithKey(r, key, d) == WithKey(s, key, d)
    ensures |r| > 0 && r[|r| - 1] == s[LastMaxIndex(s, key)]
  {
    var k := LastMaxIndex(s, key);
    var m := key(s[k]);
    WithKeyEndsAtLastMax(s, key);
    WithKeyMembers(r, key, m);
    var w := WithKey(r, key, m);
    assert w[|w| - 1] in r;
    var last := r[|r| - 1];
    var dl := key(last);
    WithKeyMembers(r, key, dl);
    WithKeyMembers(s, key, dl);
    assert last in WithKey(r, key, dl);
    var j :| 0 <= j < |s| && s[j] == last;
    assert dl <= m;
    var i :| 0 <= i < |r| && r[i] == w[|w| - 1];
    assert m <= dl;
    assert WithKey(r, key, m) == WithKey(r[..|r| - 1], key, m) + [last];
  }

  /** The sort leaves last the element with the largest key that comes latest in `s`. */
  lemma SortEndsWithLastMax(s: seq<Candidate>, key: Candidate -> nat)
    requires |s| > 0
    ensures SortByKey(s, key)[|s| - 1] == s[LastMaxIndex(s, key)]
  {
    SortByKeySorted(s, key);
    forall d: nat
      ensures WithKey(SortByKey(s, key), key, d) == WithKey(s, key, d)
    {
      SortByKeyStable(s, key, d);
    }
    AnyStableSortEndsWithLastMax(s, SortByKey(s, key), key);
  }

  /** When the angles ascend, the element at `LastMaxIndex` has the largest angle among those with the largest key. */
  lemma LastMaxHasLargestAngle(s: seq<Candidate>, key: Candidate -> nat)
    requires |s| > 0 && AnglesAscending(s)
    ensures forall i :: 0 <= i < |s| && key(s[i]) == key(s[LastMaxIndex(s, key)]) ==>
      s[i].angle <= s[LastMaxIndex(s, key)].angle
  {
    var k := LastMaxIndex(s, key);
    forall i | 0 <= i < |s| && key(s[i]) == key(s[k])
      ensures s[i].angle <= s[k].angle
    {
      assert i <= k;
    }
  }
}
