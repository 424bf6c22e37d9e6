/** Python's ordering of `str` values (lexicographic by code point) and the
    two sorts the source-set core uses: `sorted(xs)` and `sorted(set(xs))`. */
module StringOrder {
  import opened Seqs

  /** `a < b` on Python strings. */
  predicate Less(a: string, b: string) {
    |b| > 0 && (|a| == 0 || a[0] < b[0] || (a[0] == b[0] && Less(a[1..], b[1..])))
  }

  lemma {:induction false} LessIrreflexive(a: string)
    ensures !Less(a, a)
  {
    if |a| > 0 {
      LessIrreflexive(a[1..]);
    }
  }

  lemma {:induction false} LessAsymmetric(a: string, b: string)
    requires Less(a, b)
    ensures !Less(b, a)
  {
    if |a| > 0 && a[0] == b[0] {
      LessAsymmetric(a[1..], b[1..]);
    }
  }

  lemma {:induction false} LessTransitive(a: string, b: string, c: string)
    requires Less(a, b) && Less(b, c)
    ensures Less(a, c)
  {
    if |a| > 0 && a[0] == b[0] && b[0] == c[0] {
      LessTransitive(a[1..], b[1..], c[1..]);
    }
  }

  lemma {:induction false} LessTotal(a: string, b: string)
    ensures a == b || Less(a, b) || Less(b, a)
  {
    if |a| > 0 && |b| > 0 && a[0] == b[0] {
      LessTotal(a[1..], b[1..]);
      if a[1..] == b[1..] {
        assert a == [a[0]] + a[1..] && b == [b[0]] + b[1..];
      }
    }
  }

  /** Strictly increasing: sorted and free of duplicates. */
  predicate StrictlySorted(s: seq<string>) {
    forall i, j :: 0 <= i < j < |s| ==> Less(s[i], s[j])
  }

  /** Non-decreasing, as `sorted` leaves a list. */
  predicate Sorted(s: seq<string>) {
    forall i, j :: 0 <= i < j < |s| ==> !Less(s[j], s[i])
  }

  lemma StrictlySortedDistinct(s: seq<string>)
    requires StrictlySorted(s)
    ensures forall i, j :: 0 <= i < j < |s| ==> s[i] != s[j]
  {
    forall i, j | 0 <= i < j < |s|
      ensures s[i] != s[j]
    {
      LessIrreflexive(s[i]);
    }
  }

  function InsertUnique(x: string, s: seq<string>): (r: seq<string>)
    requires StrictlySorted(s)
    ensures StrictlySorted(r)
    ensures Elems(r) == Elems(s) + {x}
  {
    if s == [] then [x]
    else if x == s[0] then s
    else if Less(x, s[0]) then
      assert StrictlySorted([x] + s) by {
        forall j | 0 < j < |s| ensures Less(x, s[j]) {
          LessTransitive(x, s[0], s[j]);
        }
      }
      [x] + s
    else
      var t := InsertUnique(x, s[1..]);
      assert StrictlySorted([s[0]] + t) by {
        LessTotal(x, s[0]);
        forall j | 0 <= j < |t| ensures Less(s[0], t[j]) {
          assert t[j] in Elems(s[1..]) + {x};
        }
      }
      assert Elems(s) == {s[0]} + Elems(s[1..]);
      assert Elems([s[0]] + t) == {s[0]} + Elems(t);
      [s[0]] + t
  }

  /** `sorted(set(xs))`: the distinct elements of `xs` in increasing order. */
  function SortedSet(xs: seq<string>): (r: seq<string>)
    ensures StrictlySorted(r)
    ensures Elems(r) == Elems(xs)
  {
    if xs == [] then []
    else
      assert Elems(xs) == Elems(xs[1..]) + {xs[0]};
      InsertUnique(xs[0], SortedSet(xs[1..]))
  }

  /** A strictly sorted list is determined by its elements. */
  lemma {:induction false} StrictlySortedUnique(a: seq<string>, b: seq<string>)
    requires StrictlySorted(a) && StrictlySorted(b)
    requires Elems(a) == Elems(b)
    ensures a == b
  {
    assert (a == []) == (b == []) by {
      assert a != [] ==> a[0] in Elems(a);
      assert b != [] ==> b[0] in Elems(b);
    }
    if a != [] {
      assert a[0] in Elems(b) && b[0] in Elems(a);
      if a[0] != b[0] {
        var i :| 0 <= i < |b| && b[i] == a[0];
        var j :| 0 <= j < |a| && a[j] == b[0];
        assert Less(b[0], a[0]) by {
          if i == 0 { } else { }
        }
        LessAsymmetric(b[0], a[0]);
        assert false;
      }
      assert Elems(a[1..]) == Elems(a) - {a[0]} by {
        StrictlySortedDistinct(a);
        forall x | x in Elems(a[1..]) ensures x != a[0] { }
      }
      assert Elems(b[1..]) == Elems(b) - {b[0]} by {
        StrictlySortedDistinct(b);
        forall x | x in Elems(b[1..]) ensures x != b[0] { }
      }
      StrictlySortedUnique(a[1..], b[1..]);
    }
  }

  /** The sorted set of a list depends only on which elements it holds. */
  lemma SortedSetByElems(xs: seq<string>, ys: seq<string>)
    requires Elems(xs) == Elems(ys)
    ensures SortedSet(xs) == SortedSet(ys)
  {
    StrictlySortedUnique(SortedSet(xs), SortedSet(ys));
  }

  /** The sorted set of a strictly sorted list is that list. */
  lemma SortedSetOfSorted(xs: seq<string>)
    requires StrictlySorted(xs)
    ensures SortedSet(xs) == xs
  {
    StrictlySortedUnique(SortedSet(xs), xs);
  }

  function Insert(x: string, s: seq<string>): (r: seq<string>)
    requires Sorted(s)
    ensures Sorted(r)
    ensures multiset(r) == multiset(s) + multiset{x}
  {
    if s == [] || !Less(s[0], x) then
      assert Sorted([x] + s) by {
        forall j | 0 <= j < |s| ensures !Less(s[j], x) {
          if j > 0 && Less(s[j], x) {
            LessTotal(s[0], s[j]);
            if Less(s[0], s[j]) { LessTransitive(s[0], s[j], x); }
          }
        }
      }
      [x] + s
    else
      var t := Insert(x, s[1..]);
      assert Sorted([s[0]] + t) by {
        forall j | 0 <= j < |t| ensures !Less(t[j], s[0]) {
          assert t[j] in multiset(t);
          if t[j] == x {
            LessAsymmetric(s[0], x);
          } else {
            assert t[j] in multiset(s[1..]);
          }
        }
      }
      assert s == [s[0]] + s[1..];
      [s[0]] + t
  }

  /** `sorted(xs)` on a list of strings. */
  function Sort(xs: seq<string>): (r: seq<string>)
    ensures Sorted(r)
    ensures multiset(r) == multiset(xs)
  {
    if xs == [] then []
    else
      assert xs == [xs[0]] + xs[1..];
      Insert(xs[0], Sort(xs[1..]))
  }
}
