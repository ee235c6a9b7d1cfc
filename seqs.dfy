/** Sequence helpers that mirror the Python list operations the graph builder relies on:
    `x in list`, `list.index`, `list.remove`, and the insertion order of a dict's keys. */
module Seqs {

  /** No element occurs twice: each element is absent from the part of the list before it. */
  predicate NoDup<T(==)>(s: seq<T>)
  {
    s == [] || (NoDup(s[..|s| - 1]) && s[|s| - 1] !in s[..|s| - 1])
  }

  /** An element on the end keeps the elements distinct exactly when it is new. */
  lemma {:induction false} NoDupSnoc<T>(s: seq<T>, x: T)
    ensures NoDup(s + [x]) <==> NoDup(s) && x !in s
  {
    assert (s + [x])[..|s|] == s;
  }

  /** In a list without duplicates, two positions hold different elements. */
  lemma {:induction false} NoDupIndex<T>(s: seq<T>, i: nat, j: nat)
    requires NoDup(s) && i < j < |s|
    ensures s[i] != s[j]
  {
    var p := s[..|s| - 1];
    if j < |s| - 1 {
      NoDupIndex(p, i, j);
    } else {
      assert s[i] == p[i];
    }
  }

  /** Position of the first occurrence of `x` (Python's `list.index`). */
  function IndexOf<T(==)>(s: seq<T>, x: T): (i: nat)
    requires x in s
    ensures i < |s| && s[i] == x && x !in s[..i]
  {
    if s[0] == x then 0
    else
      var k := IndexOf(s[1..], x);
      assert s[..k + 1] == [s[0]] + s[1..][..k];
      k + 1
  }

  /** In a list without duplicates, the position of an element determines it. */
  lemma {:induction false} IndexOfNoDup<T>(s: seq<T>, i: nat)
    requires NoDup(s) && i < |s|
    ensures IndexOf(s, s[i]) == i
  {
    var m := IndexOf(s, s[i]);
    if m < i {
      NoDupIndex(s, m, i);
    }
  }

  /** Python's `list.remove(x)` on a list that contains `x`. */
  function RemoveFirst<T(==)>(s: seq<T>, x: T): seq<T>
    requires x in s
  {
    var p := s[..|s| - 1];
    if x in p then RemoveFirst(p, x) + [s[|s| - 1]] else p
  }

  /** `list.remove(x)` deletes the first occurrence of `x` and keeps the order of the rest. */
  lemma {:induction false} RemoveFirstSpec<T>(s: seq<T>, x: T)
    requires x in s
    ensures RemoveFirst(s, x) == s[..IndexOf(s, x)] + s[IndexOf(s, x) + 1..]
  {
    var p, y := s[..|s| - 1], s[|s| - 1];
    if x in p {
      RemoveFirstSpec(p, x);
      assert s == p + [y];
      IndexOfPrefix(p, y, x);
      var i := IndexOf(p, x);
      DropSnoc(p, y, i + 1);
      assert s[..i] == p[..i];
    }
  }

  /** Dropping a prefix of `p` before or after appending `y`. */
  lemma {:induction false} DropSnoc<T>(p: seq<T>, y: T, k: nat)
    requires k <= |p|
    ensures (p + [y])[k..] == p[k..] + [y]
  {
  }

  /** `list.remove` shortens the list by one and takes away exactly one copy of `x`. */
  lemma {:induction false} RemoveFirstCount<T>(s: seq<T>, x: T)
    requires x in s
    ensures |RemoveFirst(s, x)| == |s| - 1
    ensures multiset(RemoveFirst(s, x)) == multiset(s) - multiset{x}
  {
    var p, y := s[..|s| - 1], s[|s| - 1];
    assert s == p + [y];
    assert multiset(s) == multiset(p) + multiset{y};
    if x in p {
      RemoveFirstCount(p, x);
      assert multiset(p)[x] > 0;
    }
  }

  /** When the list has no duplicates, removing `x` removes every occurrence of it. */
  lemma {:induction false} RemoveFirstNoDup<T>(s: seq<T>, x: T)
    requires x in s && NoDup(s)
    ensures x !in RemoveFirst(s, x)
  {
    RemoveFirstSpec(s, x);
    var i := IndexOf(s, x);
    var r := RemoveFirst(s, x);
    forall k | 0 <= k < |r|
      ensures r[k] != x
    {
      if k < i {
        assert r[k] == s[k];
        NoDupIndex(s, k, i);
      } else {
        assert r[k] == s[k + 1];
        NoDupIndex(s, i, k + 1);
      }
    }
  }

  /** The distinct elements of `s` in the order of their first occurrence: the keys a Python dict
      ends up with when the elements of `s` are inserted one after another and repeats are skipped. */
  function Dedup<T(==,!new)>(s: seq<T>): (d: seq<T>)
    ensures forall x :: x in d <==> x in s
    ensures |d| <= |s|
  {
    if s == [] then []
    else
      var p := Dedup(s[..|s| - 1]);
      assert s == s[..|s| - 1] + [s[|s| - 1]];
      if s[|s| - 1] in p then p else p + [s[|s| - 1]]
  }

  /** Dedup grows by at most the one new element when `s` grows by one. */
  lemma {:induction false} DedupSnoc<T(!new)>(s: seq<T>, x: T)
    ensures Dedup(s + [x]) == if x in Dedup(s) then Dedup(s) else Dedup(s) + [x]
  {
    assert (s + [x])[..|s + [x]| - 1] == s;
  }

  /** Dedup lists each element once. */
  lemma {:induction false} DedupNoDup<T(!new)>(s: seq<T>)
    ensures NoDup(Dedup(s))
  {
    if s != [] {
      var p, x := s[..|s| - 1], s[|s| - 1];
      assert s == p + [x];
      DedupSnoc(p, x);
      DedupNoDup(p);
      NoDupSnoc(Dedup(p), x);
    }
  }

  /** Dedup lists elements in the order in which `s` first mentions them. */
  lemma {:induction false} DedupFirstSeen<T(!new)>(s: seq<T>, i: nat, j: nat)
    requires i < j < |Dedup(s)|
    ensures IndexOf(s, Dedup(s)[i]) < IndexOf(s, Dedup(s)[j])
  {
    var p := s[..|s| - 1];
    var x := s[|s| - 1];
    assert s == p + [x];
    DedupSnoc(p, x);
    var d := Dedup(s);
    if x in Dedup(p) || j < |Dedup(p)| {
      assert d[i] == Dedup(p)[i] && d[j] == Dedup(p)[j];
      DedupFirstSeen(p, i, j);
      IndexOfPrefix(p, x, d[i]);
      IndexOfPrefix(p, x, d[j]);
    } else {
      assert d[j] == x && x !in p;
      IndexOfPrefix(p, x, d[i]);
      assert s[..|p|] == p;
      IndexOfUnique(s, x, |p|);
    }
  }

  /** The first occurrence is the only position holding `x` with no earlier `x`. */
  lemma {:induction false} IndexOfUnique<T>(s: seq<T>, x: T, k: nat)
    requires k < |s| && s[k] == x && x !in s[..k]
    ensures IndexOf(s, x) == k
  {
    var m := IndexOf(s, x);
    assert forall j :: 0 <= j < k ==> s[..k][j] == s[j];
    assert forall j :: 0 <= j < m ==> s[..m][j] == s[j];
  }

  /** Appending an element does not move the first occurrence of one that was already there. */
  lemma {:induction false} IndexOfPrefix<T>(p: seq<T>, x: T, y: T)
    requires y in p
    ensures IndexOf(p + [x], y) == IndexOf(p, y)
  {
    var i := IndexOf(p, y);
    assert (p + [x])[..i] == p[..i];
    IndexOfUnique(p + [x], y, i);
  }

  /** Concatenation of a list of lists, in order. */
  function Flatten<T(!new)>(ss: seq<seq<T>>): (r: seq<T>)
    ensures forall x :: x in r <==> exists k :: 0 <= k < |ss| && x in ss[k]
  {
    if ss == [] then []
    else
      var p := Flatten(ss[..|ss| - 1]);
      assert forall k :: 0 <= k < |ss| - 1 ==> ss[..|ss| - 1][k] == ss[k];
      p + ss[|ss| - 1]
  }

  /** Flattening a list with one more list on the end. */
  lemma {:induction false} FlattenSnoc<T(!new)>(ss: seq<seq<T>>, s: seq<T>)
    ensures Flatten(ss + [s]) == Flatten(ss) + s
  {
    assert (ss + [s])[..|ss + [s]| - 1] == ss;
  }

  /** Extending a scanned prefix of `c` by its next element. */
  lemma {:induction false} AppendPrefix<T>(a: seq<T>, c: seq<T>, j: nat)
    requires 0 < j <= |c|
    ensures a + c[..j] == (a + c[..j - 1]) + [c[j - 1]]
  {
    assert c[..j] == c[..j - 1] + [c[j - 1]];
  }

  /** Occurrences of `y` in a prefix one element longer. */
  lemma {:induction false} PrefixCount<T>(c: seq<T>, j: nat, y: T)
    requires 0 < j <= |c|
    ensures multiset(c[..j])[y] == multiset(c[..j - 1])[y] + (if c[j - 1] == y then 1 else 0)
  {
    assert c[..j] == c[..j - 1] + [c[j - 1]];
  }

  /** Occurrences of `y` after appending `x`. */
  lemma {:induction false} CountSnoc<T>(s: seq<T>, x: T, y: T)
    ensures multiset(s + [x])[y] == multiset(s)[y] + (if x == y then 1 else 0)
  {
  }
}
