/** Ordered file names: the code-point order that `sorted` uses on strings, and the
    one strictly increasing listing of a finite set of names. */
module Names {

  type Name = string

  /** Strict lexicographic order by code point, a proper prefix being smaller. */
  predicate Less(a: Name, b: Name) {
    b != [] && (a == [] || a[0] < b[0] || (a[0] == b[0] && Less(a[1..], b[1..])))
  }

  predicate Increasing(s: seq<Name>) {
    forall i, j :: 0 <= i < j < |s| ==> Less(s[i], s[j])
  }

  function Elements(s: seq<Name>): set<Name> {
    set x | x in s
  }

  lemma {:induction false} LessIrreflexive(a: Name)
    ensures !Less(a, a)
  {
    if a != [] {
      LessIrreflexive(a[1..]);
    }
  }

  lemma {:induction false} LessTransitive(a: Name, b: Name, c: Name)
    requires Less(a, b) && Less(b, c)
    ensures Less(a, c)
  {
    if a != [] && a[0] == b[0] && b[0] == c[0] {
      LessTransitive(a[1..], b[1..], c[1..]);
    }
  }

  lemma {:induction false} LessTotal(a: Name, b: Name)
    ensures a == b || Less(a, b) || Less(b, a)
  {
    if a != [] && b != [] && a[0] == b[0] {
      LessTotal(a[1..], b[1..]);
      assert a == [a[0]] + a[1..] && b == [b[0]] + b[1..];
    }
  }

  predicate IsLeast(m: Name, s: set<Name>) {
    m in s && forall y | y in s :: y == m || Less(m, y)
  }

  lemma {:induction false} LeastExists(s: set<Name>)
    requires s != {}
    ensures exists m :: IsLeast(m, s)
  {
    var m :| m in s;
    var rest := s - {m};
    if rest == {} {
      assert s == {m};
      assert IsLeast(m, s);
    } else {
      LeastExists(rest);
      var k :| IsLeast(k, rest);
      LessTotal(m, k);
      if Less(k, m) {
        assert IsLeast(k, s);
      } else {
        forall y | y in rest && y != k ensures Less(m, y) {
          LessTransitive(m, k, y);
        }
        assert IsLeast(m, s);
      }
    }
  }

  lemma LeastUnique(s: set<Name>)
    ensures forall m, k :: IsLeast(m, s) && IsLeast(k, s) ==> m == k
  {
    forall m, k | IsLeast(m, s) && IsLeast(k, s) ensures m == k {
      if m != k {
        LessTransitive(m, k, m);
        LessIrreflexive(m);
      }
    }
  }

  /** `sorted(s)` for a set of names. */
  function Listing(s: set<Name>): (r: seq<Name>)
    ensures Increasing(r) && Elements(r) == s
  {
    if s == {} then []
    else
      LeastExists(s);
      LeastUnique(s);
      var m :| IsLeast(m, s);
      var rest := Listing(s - {m});
      assert forall i | 0 <= i < |rest| :: rest[i] in Elements(rest);
      assert Elements([m] + rest) == {m} + Elements(rest);
      [m] + rest
  }

  lemma ElementsEmpty(s: seq<Name>)
    ensures Elements(s) == {} <==> s == []
  {
    if s != [] {
      assert s[0] in Elements(s);
    }
  }

  lemma IncreasingDistinct(s: seq<Name>)
    requires Increasing(s)
    ensures forall i, j :: 0 <= i < j < |s| ==> s[i] != s[j]
  {
    forall i, j | 0 <= i < j < |s| ensures s[i] != s[j] {
      LessIrreflexive(s[i]);
    }
  }

  /** A strictly increasing sequence is determined by its elements. */
  lemma {:induction false} IncreasingUnique(a: seq<Name>, b: seq<Name>)
    requires Increasing(a) && Increasing(b) && Elements(a) == Elements(b)
    ensures a == b
  {
    ElementsEmpty(a);
    ElementsEmpty(b);
    if a != [] {
      assert a[0] in Elements(a);
      var k :| 0 <= k < |b| && b[k] == a[0];
      assert b[0] in Elements(b);
      var l :| 0 <= l < |a| && a[l] == b[0];
      if k > 0 {
        if l > 0 {
          LessTransitive(a[0], b[0], a[0]);
        }
        LessIrreflexive(a[0]);
      }
      IncreasingDistinct(a);
      IncreasingDistinct(b);
      assert Elements(a[1..]) == Elements(a) - {a[0]};
      assert Elements(b[1..]) == Elements(b) - {b[0]};
      IncreasingUnique(a[1..], b[1..]);
    }
  }

  function Filter(s: seq<Name>, keep: set<Name>): (r: seq<Name>)
    ensures forall x :: x in r <==> x in s && x in keep
  {
    if s == [] then []
    else if s[0] in keep then [s[0]] + Filter(s[1..], keep)
    else Filter(s[1..], keep)
  }

  lemma {:induction false} FilterIncreasing(s: seq<Name>, keep: set<Name>)
    requires Increasing(s)
    ensures Increasing(Filter(s, keep))
  {
    if s != [] {
      var rest := Filter(s[1..], keep);
      FilterIncreasing(s[1..], keep);
      forall i | 0 <= i < |rest| ensures Less(s[0], rest[i]) {
        assert rest[i] in s[1..];
      }
    }
  }

  /** Filtering a sorted listing in place gives the sorted listing of the kept names. */
  lemma FilterListing(s: set<Name>, keep: set<Name>)
    requires keep <= s
    ensures Filter(Listing(s), keep) == Listing(keep)
  {
    FilterIncreasing(Listing(s), keep);
    var f := Filter(Listing(s), keep);
    forall x ensures x in f <==> x in keep {
      if x in keep { assert x in Elements(Listing(s)); }
    }
    assert Elements(f) == keep;
    IncreasingUnique(f, Listing(keep));
  }
}
