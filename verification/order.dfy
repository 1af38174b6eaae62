/**
  The order JavaScript's default `Array.prototype.sort` puts strings in:
  lexicographic comparison of characters by code, so a proper prefix sorts
  first and every upper-case ASCII letter sorts before every lower-case one.
  Also the sort itself, as a stable insertion sort on sequences.
 */
module StringOrder {
  import opened Text

  /** `a` sorts strictly before `b`. */
  predicate Less(a: String, b: String)
    decreases |a|
  {
    if |a| == 0 then |b| > 0
    else if |b| == 0 then false
    else if a[0] != b[0] then a[0] < b[0]
    else Less(a[1..], b[1..])
  }

  predicate LessEq(a: String, b: String)
  {
    a == b || Less(a, b)
  }

  /** The textbook definition of lexicographic order: `a` is a proper prefix
      of `b`, or the two agree up to a position where `a` has the smaller character. */
  predicate DiffersFirstAt(a: String, b: String, k: int)
  {
    0 <= k < |a| && k < |b| && a[..k] == b[..k] && a[k] < b[k]
  }

  /** `Less` agrees with the textbook definition, in both directions. */
  lemma {:induction false} LessIsLexicographic(a: String, b: String)
    ensures Less(a, b) <==> (|a| < |b| && a == b[..|a|]) || exists k :: DiffersFirstAt(a, b, k)
    decreases |a|
  {
    if |a| == 0 {
    } else if |b| == 0 {
    } else if a[0] != b[0] {
      if a[0] < b[0] {
        assert DiffersFirstAt(a, b, 0);
      }
    } else {
      LessIsLexicographic(a[1..], b[1..]);
      var a', b' := a[1..], b[1..];
      if |a'| < |b'| && a' == b'[..|a'|] {
        assert a == [a[0]] + a' && b[..|a|] == [b[0]] + b'[..|a'|];
      }
      if |a| < |b| && a == b[..|a|] {
        assert a' == b'[..|a'|];
      }
      forall k | DiffersFirstAt(a', b', k)
        ensures DiffersFirstAt(a, b, k + 1)
      {
        assert a[..k + 1] == [a[0]] + a'[..k] && b[..k + 1] == [b[0]] + b'[..k];
      }
      forall k | DiffersFirstAt(a, b, k)
        ensures k >= 1 && DiffersFirstAt(a', b', k - 1)
      {
        assert a'[..k - 1] == a[..k][1..] && b'[..k - 1] == b[..k][1..];
      }
    }
  }

  lemma {:induction false} LessIrreflexive(a: String)
    ensures !Less(a, a)
    decreases |a|
  {
    if |a| > 0 {
      LessIrreflexive(a[1..]);
    }
  }

  lemma {:induction false} LessAsymmetric(a: String, b: String)
    ensures Less(a, b) ==> !Less(b, a)
    decreases |a|
  {
    if |a| > 0 && |b| > 0 && a[0] == b[0] {
      LessAsymmetric(a[1..], b[1..]);
    }
  }

  lemma {:induction false} LessTransitive(a: String, b: String, c: String)
    ensures Less(a, b) && Less(b, c) ==> Less(a, c)
    decreases |a|
  {
    if |a| > 0 && |b| > 0 && |c| > 0 && a[0] == b[0] && b[0] == c[0] {
      LessTransitive(a[1..], b[1..], c[1..]);
    }
  }

  /** Any two different strings are ordered one way or the other. */
  lemma {:induction false} LessTotal(a: String, b: String)
    ensures a == b || Less(a, b) || Less(b, a)
    decreases |a|
  {
    if |a| > 0 && |b| > 0 && a[0] == b[0] {
      LessTotal(a[1..], b[1..]);
      if a[1..] == b[1..] {
        assert a == [a[0]] + a[1..] && b == [b[0]] + b[1..];
      }
    }
  }

  /** Every element sorts no later than every element after it. */
  predicate Sorted(s: seq<String>)
  {
    forall i, j :: 0 <= i < j < |s| ==> LessEq(s[i], s[j])
  }

  /** Every element sorts strictly before every element after it (hence no duplicates). */
  predicate StrictlySorted(s: seq<String>)
  {
    forall i, j :: 0 <= i < j < |s| ==> Less(s[i], s[j])
  }

  /** Inserts `x` before the first element it sorts no later than. */
  function Insert(x: String, t: seq<String>): (r: seq<String>)
    ensures multiset(r) == multiset(t) + multiset{x}
    ensures Sorted(t) ==> Sorted(r)
  {
    if |t| == 0 then [x]
    else if LessEq(x, t[0]) then
      assert Sorted(t) ==> Sorted([x] + t) by {
        if Sorted(t) {
          var r := [x] + t;
          forall i, j | 0 <= i < j < |r|
            ensures LessEq(r[i], r[j])
          {
            if i == 0 {
              assert r[j] == t[j - 1];
              LessTransitive(x, t[0], t[j - 1]);
            } else {
              assert r[i] == t[i - 1] && r[j] == t[j - 1];
            }
          }
        }
      }
      [x] + t
    else
      var rest := Insert(x, t[1..]);
      assert t == [t[0]] + t[1..];
      assert Sorted(t) ==> Sorted([t[0]] + rest) by {
        if Sorted(t) {
          LessTotal(x, t[0]);
          forall j | 0 <= j < |rest|
            ensures LessEq(t[0], rest[j])
          {
            assert rest[j] in multiset(rest);
            if rest[j] != x {
              assert rest[j] in multiset(t[1..]);
              var k :| 0 <= k < |t[1..]| && t[1..][k] == rest[j];
              assert LessEq(t[0], t[k + 1]);
            }
          }
        }
      }
      [t[0]] + rest
  }

  /** `s.sort()` with the default comparator: a sorted permutation of `s`. */
  function Sort(s: seq<String>): (r: seq<String>)
    ensures Sorted(r)
    ensures multiset(r) == multiset(s)
  {
    if |s| == 0 then []
    else
      assert s == [s[0]] + s[1..];
      Insert(s[0], Sort(s[1..]))
  }

  /** The first element of a non-empty sorted sequence sorts no later than
      anything in the sequence. */
  lemma SortedHeadIsLeast(t: seq<String>, y: String)
    requires Sorted(t) && |t| > 0 && y in multiset(t)
    ensures LessEq(t[0], y)
  {
    var k :| 0 <= k < |t| && t[k] == y;
  }

  /** A sorted permutation is unique: whatever sorted arrangement of the same
      strings one picks, it is the one `Sort` returns. */
  lemma {:induction false} SortedPermutationUnique(t: seq<String>, u: seq<String>)
    requires Sorted(t) && Sorted(u) && multiset(t) == multiset(u)
    ensures t == u
    decreases |t|
  {
    assert |t| == |multiset(t)| == |u|;
    if |t| > 0 {
      assert t[0] in multiset(u) && u[0] in multiset(t);
      SortedHeadIsLeast(t, u[0]);
      SortedHeadIsLeast(u, t[0]);
      LessAsymmetric(t[0], u[0]);
      assert t[0] == u[0];
      assert t == [t[0]] + t[1..] && u == [u[0]] + u[1..];
      assert multiset(t) == multiset([t[0]]) + multiset(t[1..]);
      assert multiset(u) == multiset([u[0]]) + multiset(u[1..]);
      assert multiset(t[1..]) == multiset(t) - multiset([t[0]]);
      assert multiset(u[1..]) == multiset(u) - multiset([u[0]]);
      SortedPermutationUnique(t[1..], u[1..]);
    }
  }

  /** A sorted sequence without repeated elements is strictly sorted. */
  lemma SortedDistinctIsStrict(s: seq<String>)
    requires Sorted(s)
    requires forall i, j :: 0 <= i < j < |s| ==> s[i] != s[j]
    ensures StrictlySorted(s)
  {
  }

  /** The head of a non-empty sequence is one of its elements. Stated as a
      lemma so that `StrictlySortedUnique` can use it where the sequence is
      in fact empty without checking an index in a branch its facts rule out. */
  lemma NonEmptyHasHead(u: seq<String>)
    ensures |u| > 0 ==> u[0] in u
  {
  }

  /** Two strictly sorted sequences holding the same strings are equal: the
      strictly sorted listing of a finite set of strings is unique. */
  lemma {:induction false} StrictlySortedUnique(t: seq<String>, u: seq<String>)
    requires StrictlySorted(t) && StrictlySorted(u)
    requires forall x :: x in t <==> x in u
    ensures t == u
    decreases |t|
  {
    if |t| == 0 {
      NonEmptyHasHead(u);
    } else {
      assert t[0] in u && |u| > 0 && u[0] in t;
      if t[0] != u[0] {
        var i :| 0 <= i < |t| && t[i] == u[0];
        var j :| 0 <= j < |u| && u[j] == t[0];
        LessAsymmetric(t[0], u[0]);
        assert false;
      }
      forall x
        ensures x in t[1..] <==> x in u[1..]
      {
        if x in t[1..] {
          var i :| 1 <= i < |t| && t[i] == x;
          LessIrreflexive(t[0]);
          assert x in u && x != u[0];
          var j :| 0 <= j < |u| && u[j] == x;
          assert x == u[1..][j - 1];
        }
        if x in u[1..] {
          var j :| 1 <= j < |u| && u[j] == x;
          LessIrreflexive(u[0]);
          assert x in t && x != t[0];
          var i :| 0 <= i < |t| && t[i] == x;
          assert x == t[1..][i - 1];
        }
      }
      StrictlySortedUnique(t[1..], u[1..]);
      assert t == [t[0]] + t[1..] && u == [u[0]] + u[1..];
    }
  }
}
