/** Dictionaries filled from lists whose entries carry distinct keys: the order of the list is lost. */
module Tables {
  import opened Wrappers

  ghost predicate Other<T, K(!new)>(key: T -> Option<K>, a: T, b: T) {
    key(a) != key(b)
  }

  /** Every entry has a key, and no two the same. */
  ghost predicate DistinctBy<T, K(!new)>(s: seq<T>, key: T -> Option<K>) {
    && (forall i | 0 <= i < |s| :: key(s[i]).Some?)
    && (forall i, j {:trigger Other(key, s[i], s[j])} | 0 <= i < j < |s| :: Other(key, s[i], s[j]))
  }

  /** The dictionary the list fills. */
  function TableBy<T, K>(s: seq<T>, key: T -> Option<K>): map<K, T> {
    if s == [] then map[]
    else
      var x := s[|s| - 1];
      var before := TableBy(s[..|s| - 1], key);
      if key(x).Some? then before[key(x).value := x] else before
  }

  /** The same, without mentioning positions. */
  ghost predicate DistinctBag<T(!new), K(!new)>(b: multiset<T>, key: T -> Option<K>) {
    && (forall x | x in b :: key(x).Some? && b[x] == 1)
    && (forall x, y {:trigger Other(key, x, y)} | x in b && y in b && x != y :: Other(key, x, y))
  }

  lemma Twice<T>(s: seq<T>, i: nat, j: nat)
    requires i < j < |s| && s[i] == s[j]
    ensures multiset(s)[s[i]] >= 2
  {
    assert s == s[..j] + s[j..];
    assert s[..j][i] == s[i] && s[j..][0] == s[i];
    assert s[i] in multiset(s[..j]) && s[i] in multiset(s[j..]);
  }

  lemma {:induction false} Once<T, K(!new)>(s: seq<T>, key: T -> Option<K>, i: nat)
    requires DistinctBy(s, key) && i < |s|
    ensures multiset(s)[s[i]] == 1
  {
    var n := |s| - 1;
    var rest := s[..n];
    assert s == rest + [s[n]];
    DistinctPrefix(s, key, n);
    if i < n {
      Once(rest, key, i);
      assert Other(key, s[i], s[n]);
      assert s[i] == rest[i];
    } else {
      forall k | 0 <= k < n
        ensures rest[k] != s[n]
      {
        assert Other(key, s[k], s[n]);
      }
      assert s[n] !in rest;
      assert s[n] !in multiset(rest);
    }
  }

  lemma DistinctPrefix<T, K(!new)>(s: seq<T>, key: T -> Option<K>, n: nat)
    requires DistinctBy(s, key) && n <= |s|
    ensures DistinctBy(s[..n], key)
  {
    assert forall i, j | 0 <= i < j < n :: Other(key, s[i], s[j]);
  }

  /** Distinctness depends on the entries, not on their order. */
  lemma DistinctByBag<T(!new), K(!new)>(s: seq<T>, key: T -> Option<K>)
    ensures DistinctBy(s, key) <==> DistinctBag(multiset(s), key)
  {
    var b := multiset(s);
    assert forall x :: x in b <==> x in s;
    if DistinctBy(s, key) {
      forall x | x in b
        ensures key(x).Some? && b[x] == 1
      {
        var i :| 0 <= i < |s| && s[i] == x;
        Once(s, key, i);
      }
      forall x, y | x in b && y in b && x != y
        ensures Other(key, x, y)
      {
        var i :| 0 <= i < |s| && s[i] == x;
        var j :| 0 <= j < |s| && s[j] == y;
        if i < j {
          assert Other(key, s[i], s[j]);
        } else {
          assert Other(key, s[j], s[i]);
        }
      }
    }
    if DistinctBag(b, key) {
      forall i, j | 0 <= i < j < |s|
        ensures Other(key, s[i], s[j])
      {
        assert s[i] in b && s[j] in b;
        if s[i] == s[j] {
          Twice(s, i, j);
        }
        assert s[i] != s[j];
      }
      assert forall i | 0 <= i < |s| :: s[i] in b;
    }
  }

  /** The dictionary holds exactly the entries, each under its own key. */
  lemma {:induction false} TableExactly<T, K(!new)>(s: seq<T>, key: T -> Option<K>)
    requires DistinctBy(s, key)
    ensures forall i | 0 <= i < |s| :: key(s[i]).value in TableBy(s, key) && TableBy(s, key)[key(s[i]).value] == s[i]
    ensures forall k | k in TableBy(s, key) :: TableBy(s, key)[k] in s && key(TableBy(s, key)[k]) == Some(k)
  {
    if s != [] {
      var n := |s| - 1;
      DistinctPrefix(s, key, n);
      TableExactly(s[..n], key);
      forall i | 0 <= i < n
        ensures key(s[i]) != key(s[n]) && s[..n][i] == s[i]
      {
        assert Other(key, s[i], s[n]);
      }
    }
  }

  lemma SameTable<T(!new), K(!new)>(s: seq<T>, t: seq<T>, key: T -> Option<K>)
    requires DistinctBy(s, key) && multiset(s) == multiset(t)
    ensures DistinctBy(t, key) && TableBy(s, key) == TableBy(t, key)
  {
    DistinctByBag(s, key);
    DistinctByBag(t, key);
    TableExactly(s, key);
    TableExactly(t, key);
    assert forall x :: x in s <==> x in multiset(s);
    assert forall x :: x in t <==> x in multiset(t);
    var a, b := TableBy(s, key), TableBy(t, key);
    forall k | k in a
      ensures k in b && b[k] == a[k]
    {
      assert a[k] in multiset(s) && a[k] in t;
      var i :| 0 <= i < |t| && t[i] == a[k];
    }
    forall k | k in b
      ensures k in a
    {
      assert b[k] in multiset(t) && b[k] in s;
      var i :| 0 <= i < |s| && s[i] == b[k];
    }
    assert a.Keys == b.Keys;
  }

  /** The test `key in table` finds exactly the repeated keys. */
  lemma TableStep<T, K(!new)>(s: seq<T>, key: T -> Option<K>, n: nat)
    requires n < |s| && DistinctBy(s[..n], key)
    ensures DistinctBy(s[..n + 1], key) <==> key(s[n]).Some? && key(s[n]).value !in TableBy(s[..n], key)
    ensures DistinctBy(s, key) ==> DistinctBy(s[..n + 1], key)
    ensures key(s[n]).Some? ==> TableBy(s[..n + 1], key) == TableBy(s[..n], key)[key(s[n]).value := s[n]]
  {
    var a, b := s[..n], s[..n + 1];
    assert b[..n] == a && b[n] == s[n];
    TableExactly(a, key);
    if DistinctBy(s, key) {
      DistinctPrefix(s, key, n + 1);
    }
    if DistinctBy(b, key) {
      forall i | 0 <= i < n
        ensures key(a[i]) != key(s[n])
      {
        assert a[i] == b[i] && Other(key, b[i], b[n]);
      }
    }
    if key(s[n]).Some? && key(s[n]).value !in TableBy(a, key) {
      DistinctMore(a, key, s[n]);
      assert b == a + [s[n]];
    }
  }

  lemma DistinctMore<T, K(!new)>(a: seq<T>, key: T -> Option<K>, x: T)
    requires DistinctBy(a, key) && key(x).Some? && key(x).value !in TableBy(a, key)
    ensures DistinctBy(a + [x], key)
  {
    var b := a + [x];
    TableExactly(a, key);
    forall i, j | 0 <= i < j < |b|
      ensures Other(key, b[i], b[j])
    {
      assert a[i] == b[i] && (j < |a| ==> Other(key, a[i], a[j]));
    }
  }
}
