/** The order Go's `sort.Strings` puts names in, and the sort itself.

    Go compares strings byte by byte.  Strings here are sequences of Unicode
    scalar values, and comparing UTF-8 encodings byte by byte orders them as
    comparing their code points one by one does, so `Less` compares
    characters.  A proper prefix comes first. */
module Order {

  /** `a < b` on Go strings. */
  predicate Less(a: string, b: string)
    decreases |a|
  {
    if |a| == 0 then |b| != 0
    else if |b| == 0 then false
    else if a[0] != b[0] then a[0] < b[0]
    else Less(a[1..], b[1..])
  }

  lemma {:induction false} LessIrreflexive(a: string)
    ensures !Less(a, a)
    decreases |a|
  {
    if |a| > 0 {
      LessIrreflexive(a[1..]);
    }
  }

  lemma {:induction false} LessAsymmetric(a: string, b: string)
    ensures Less(a, b) ==> !Less(b, a)
    decreases |a|
  {
    if |a| > 0 && |b| > 0 && a[0] == b[0] {
      LessAsymmetric(a[1..], b[1..]);
    }
  }

  lemma {:induction false} LessTransitive(a: string, b: string, c: string)
    requires Less(a, b) && Less(b, c)
    ensures Less(a, c)
    decreases |a|
  {
    if |a| > 0 && a[0] == b[0] && b[0] == c[0] {
      LessTransitive(a[1..], b[1..], c[1..]);
    }
  }

  /** Any two different strings are ordered one way or the other. */
  lemma {:induction false} LessTotal(a: string, b: string)
    ensures a == b || Less(a, b) || Less(b, a)
    decreases |a|
  {
    if |a| > 0 && |b| > 0 && a[0] == b[0] {
      LessTotal(a[1..], b[1..]);
      if a[1..] == b[1..] {
        assert a == [a[0]] + a[1..] && b == [b[0]] + b[1..];
      }
    }
  }

  /** A prefix both strings share does not change their order. */
  lemma {:induction false} LessSharedPrefix(p: string, a: string, b: string)
    ensures Less(p + a, p + b) == Less(a, b)
    decreases |p|
  {
    if |p| == 0 {
      assert p + a == a && p + b == b;
    } else {
      assert (p + a)[0] == (p + b)[0];
      assert (p + a)[1..] == p[1..] + a;
      assert (p + b)[1..] == p[1..] + b;
      LessSharedPrefix(p[1..], a, b);
    }
  }

  /** What `sort.Strings` establishes: no element is less than the one before it. */
  predicate NonDecreasing(s: seq<string>)
  {
    forall k :: 0 < k < |s| ==> !Less(s[k], s[k - 1])
  }

  /** Every element is less than every later one (so none occurs twice). */
  predicate StrictlySorted(s: seq<string>)
  {
    forall i, j :: 0 <= i < j < |s| ==> Less(s[i], s[j])
  }

  predicate IsLeast(m: string, keys: set<string>)
  {
    m in keys && forall y :: y in keys ==> !Less(y, m)
  }

  lemma {:induction false} LeastExists(keys: set<string>)
    requires keys != {}
    ensures exists m :: IsLeast(m, keys)
    decreases keys
  {
    var x :| x in keys;
    LessIrreflexive(x);
    if keys != {x} {
      LeastExists(keys - {x});
      var m :| IsLeast(m, keys - {x});
      if Less(x, m) {
        forall y | y in keys
          ensures !Less(y, x)
        {
          if y != x && Less(y, x) {
            LessTransitive(y, x, m);
          }
        }
        assert IsLeast(x, keys);
      } else {
        assert IsLeast(m, keys);
      }
    } else {
      assert IsLeast(x, keys);
    }
  }

  lemma LeastBelowOthers(m: string, keys: set<string>)
    requires IsLeast(m, keys)
    ensures forall y :: y in keys && y != m ==> Less(m, y)
  {
    forall y | y in keys && y != m
      ensures Less(m, y)
    {
      LessTotal(m, y);
    }
  }

  /** The names of `keys` in the order `sort.Strings` leaves them: each key
      exactly once, in strictly ascending order. */
  ghost function SortedKeys(keys: set<string>): (names: seq<string>)
    ensures StrictlySorted(names)
    ensures forall n :: n in names <==> n in keys
    ensures |names| == |keys|
    decreases keys
  {
    if keys == {} then []
    else
      LeastExists(keys);
      var m :| IsLeast(m, keys);
      LeastBelowOthers(m, keys);
      [m] + SortedKeys(keys - {m})
  }

  /** A strictly sorted sequence is determined by its elements. */
  lemma {:induction false} StrictlySortedUnique(p: seq<string>, q: seq<string>)
    requires StrictlySorted(p) && StrictlySorted(q)
    requires forall x :: x in p <==> x in q
    ensures p == q
    decreases |p|
  {
    assert p == [] <==> q == [] by {
      if p != [] { assert p[0] in q; }
      if q != [] { assert q[0] in p; }
    }
    if p != [] {
      if p[0] != q[0] {
        assert p[0] in p && q[0] in q;
        var k :| 0 <= k < |q| && q[k] == p[0];
        var l :| 0 <= l < |p| && p[l] == q[0];
        LessAsymmetric(p[0], q[0]);
        assert false;
      }
      forall x
        ensures x in p[1..] <==> x in q[1..]
      {
        assert p == [p[0]] + p[1..] && q == [q[0]] + q[1..];
        if x in p[1..] {
          var i :| 0 <= i < |p[1..]| && p[1..][i] == x;
          assert Less(p[0], p[i + 1]);
          LessIrreflexive(x);
          assert x in q && x != q[0];
          var j :| 0 <= j < |q| && q[j] == x;
          assert q[1..][j - 1] == x;
        }
        if x in q[1..] {
          var i :| 0 <= i < |q[1..]| && q[1..][i] == x;
          assert Less(q[0], q[i + 1]);
          LessIrreflexive(x);
          assert x in p && x != p[0];
          var j :| 0 <= j < |p| && p[j] == x;
          assert p[1..][j - 1] == x;
        }
      }
      StrictlySortedUnique(p[1..], q[1..]);
      assert p == [p[0]] + p[1..] && q == [q[0]] + q[1..];
    }
  }

  /** The key set's sorted order is the only strictly sorted sequence of
      exactly those keys. */
  lemma SortedKeysUnique(names: seq<string>, keys: set<string>)
    requires StrictlySorted(names)
    requires forall n :: n in names <==> n in keys
    ensures names == SortedKeys(keys)
  {
    StrictlySortedUnique(names, SortedKeys(keys));
  }

  /** Go's `sort.Strings`: sorts the slice in place into ascending order
      (here by insertion; the result is the same whatever the algorithm). */
  method SortStrings(a: array<string>)
    modifies a
    ensures NonDecreasing(a[..])
    ensures multiset(a[..]) == old(multiset(a[..]))
  {
    var i := 0;
    while i < a.Length
      invariant 0 <= i <= a.Length
      invariant forall k :: 0 < k < i ==> !Less(a[k], a[k - 1])
      invariant multiset(a[..]) == old(multiset(a[..]))
    {
      InsertLast(a, i);
      i := i + 1;
    }
  }

  /** Moves `a[i]` down into the sorted prefix `a[..i]`. */
  method InsertLast(a: array<string>, i: nat)
    requires i < a.Length
    requires forall k :: 0 < k < i ==> !Less(a[k], a[k - 1])
    modifies a
    ensures forall k :: 0 < k <= i ==> !Less(a[k], a[k - 1])
    ensures multiset(a[..]) == old(multiset(a[..]))
  {
    var j := i;
    while j > 0 && Less(a[j], a[j - 1])
      invariant 0 <= j <= i
      invariant forall k :: 0 < k <= i && k != j ==> !Less(a[k], a[k - 1])
      invariant 0 < j < i ==> !Less(a[j + 1], a[j - 1])
      invariant multiset(a[..]) == old(multiset(a[..]))
    {
      LessAsymmetric(a[j], a[j - 1]);
      Swap(a, j - 1, j);
      j := j - 1;
    }
  }

  method Swap(a: array<string>, i: nat, j: nat)
    requires i < j < a.Length
    modifies a
    ensures a[i] == old(a[j]) && a[j] == old(a[i])
    ensures forall k :: 0 <= k < a.Length && k != i && k != j ==> a[k] == old(a[k])
    ensures multiset(a[..]) == old(multiset(a[..]))
  {
    a[i], a[j] := a[j], a[i];
  }

  /** A sorted sequence of distinct elements is strictly sorted. */
  lemma {:induction false} StrictFromNonDecreasing(s: seq<string>)
    requires NonDecreasing(s)
    requires forall k :: 0 < k < |s| ==> s[k] != s[k - 1]
    ensures StrictlySorted(s)
    decreases |s|
  {
    if |s| > 1 {
      var t := s[..|s| - 1];
      StrictFromNonDecreasing(t);
      var n := |s| - 1;
      LessTotal(s[n], s[n - 1]);
      forall i, j | 0 <= i < j < |s|
        ensures Less(s[i], s[j])
      {
        if j < n {
          assert Less(t[i], t[j]);
        } else if i < n - 1 {
          assert Less(t[i], t[n - 1]);
          LessTransitive(s[i], s[n - 1], s[n]);
        }
      }
    }
  }

  /** Two equal neighbours make an element occur at least twice. */
  lemma TwiceInMultiset(s: seq<string>, k: nat)
    requires 0 < k < |s| && s[k] == s[k - 1]
    ensures multiset(s)[s[k]] >= 2
  {
    assert s == s[..k - 1] + [s[k - 1], s[k]] + s[k + 1..];
  }

  /** Collects the keys of a map (`for name := range m`, in whatever order
      the iteration yields them) and sorts them with `sort.Strings`. */
  method SortKeys(keys: set<string>) returns (names: seq<string>)
    ensures names == SortedKeys(keys)
  {
    var collected := CollectKeys(keys);
    var a := new string[|collected|](i requires 0 <= i < |collected| => collected[i]);
    assert a[..] == collected;
    SortStrings(a);
    names := a[..];
    SortedOfKeys(names, keys);
  }

  /** Each key once, in some order. */
  method CollectKeys(keys: set<string>) returns (collected: seq<string>)
    ensures multiset(collected) == multiset(keys)
  {
    collected := [];
    var remaining := keys;
    while remaining != {}
      invariant remaining <= keys
      invariant multiset(collected) == multiset(keys - remaining)
      decreases remaining
    {
      var k :| k in remaining;
      assert keys - (remaining - {k}) == (keys - remaining) + {k};
      collected := collected + [k];
      remaining := remaining - {k};
    }
    assert keys - remaining == keys;
  }

  /** Sorting the keys, each once, gives their sorted order. */
  lemma SortedOfKeys(names: seq<string>, keys: set<string>)
    requires NonDecreasing(names)
    requires multiset(names) == multiset(keys)
    ensures names == SortedKeys(keys)
  {
    forall k | 0 < k < |names|
      ensures names[k] != names[k - 1]
    {
      if names[k] == names[k - 1] {
        TwiceInMultiset(names, k);
        assert false;
      }
    }
    StrictFromNonDecreasing(names);
    forall n
      ensures n in names <==> n in keys
    {
      assert n in names <==> n in multiset(names);
    }
    SortedKeysUnique(names, keys);
  }

  /** A strictly sorted sequence has no element twice. */
  lemma StrictlySortedDistinct(s: seq<string>)
    requires StrictlySorted(s)
    ensures forall i, j :: 0 <= i < j < |s| ==> s[i] != s[j]
  {
    forall i, j | 0 <= i < j < |s|
      ensures s[i] != s[j]
    {
      LessIrreflexive(s[i]);
    }
  }
}
