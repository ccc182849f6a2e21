/**
 * The order behind `versions.sort { |a, b| b <=> a }`: Ruby's String `<=>`
 * compares the bytes of two UTF-8 strings, which is the same as comparing
 * their code points one by one, a proper prefix coming first. The block
 * reverses it, so the versions end up in descending order.
 */
module Ordering {

  /** `a < b` for Ruby Strings. */
  predicate Less(a: string, b: string)
    decreases |a|
  {
    |b| > 0 && (|a| == 0 || a[0] < b[0] || (a[0] == b[0] && Less(a[1..], b[1..])))
  }

  lemma {:induction false} LessIrreflexive(a: string)
    ensures !Less(a, a)
    decreases |a|
  {
    if |a| > 0 {
      LessIrreflexive(a[1..]);
    }
  }

  lemma {:induction false} LessTransitive(a: string, b: string, c: string)
    requires Less(a, b) && Less(b, c)
    ensures Less(a, c)
    decreases |a|
  {
    if |a| > 0 && a[0] == b[0] && b[0] == c[0] {
      LessTransitive(a[1..], b[1..], c[1..]);
    }
  }

  lemma {:induction false} LessTotal(a: string, b: string)
    ensures a == b || Less(a, b) || Less(b, a)
    decreases |a|
  {
    if |a| > 0 && |b| > 0 && a[0] == b[0] {
      LessTotal(a[1..], b[1..]);
      if a[1..] == b[1..] {
        assert a == [a[0]] + a[1..] && b == [b[0]] + b[1..];
      }
    }
  }

  lemma {:induction false} LessAsymmetric(a: string, b: string)
    requires Less(a, b)
    ensures !Less(b, a)
    decreases |a|
  {
    if |a| > 0 && a[0] == b[0] {
      LessAsymmetric(a[1..], b[1..]);
    }
  }

  /** `a >= b` is transitive: a chain that ends above `c` starts above it. */
  lemma AtLeastTransitive(a: string, b: string, c: string)
    ensures Less(a, c) ==> Less(a, b) || Less(b, c)
  {
    LessTotal(a, b);
    if Less(b, a) && Less(a, c) {
      LessTransitive(b, a, c);
    }
  }

  /** Every element is at least every later one. */
  predicate SortedDescending(s: seq<string>) {
    forall i, j :: 0 <= i < j < |s| ==> !Less(s[i], s[j])
  }

  /** Puts `x` in front of the first element it is not below. */
  function Insert(x: string, s: seq<string>): (r: seq<string>)
    ensures |r| == |s| + 1
    ensures multiset(r) == multiset(s) + multiset{x}
  {
    if |s| == 0 || !Less(x, s[0]) then [x] + s
    else
      assert s == [s[0]] + s[1..];
      [s[0]] + Insert(x, s[1..])
  }

  /** `s.sort { |a, b| b <=> a }` */
  function SortDescending(s: seq<string>): (r: seq<string>)
    ensures |r| == |s|
    ensures multiset(r) == multiset(s)
  {
    if |s| == 0 then []
    else
      assert s == [s[0]] + s[1..];
      Insert(s[0], SortDescending(s[1..]))
  }

  lemma {:induction false} InsertSorted(x: string, s: seq<string>)
    requires SortedDescending(s)
    ensures SortedDescending(Insert(x, s))
    decreases |s|
  {
    var r := Insert(x, s);
    if |s| == 0 {
    } else if !Less(x, s[0]) {
      forall j | 1 < j < |r| ensures !Less(r[0], r[j]) {
        AtLeastTransitive(x, s[0], s[j - 1]);
        assert !Less(s[0], s[j - 1]);
      }
    } else {
      SortedTail(s);
      InsertSorted(x, s[1..]);
      var t := Insert(x, s[1..]);
      forall j | 0 <= j < |t| ensures !Less(s[0], t[j]) {
        assert t[j] in multiset(t);
        if t[j] == x {
          LessAsymmetric(x, s[0]);
        } else {
          assert t[j] in multiset(s[1..]);
          var k :| 0 <= k < |s| - 1 && s[1..][k] == t[j];
          assert s[k + 1] == t[j];
        }
      }
    }
  }

  /** The result of the sort is in descending order. */
  lemma {:induction false} SortDescendingSorted(s: seq<string>)
    ensures SortedDescending(SortDescending(s))
    decreases |s|
  {
    if |s| > 0 {
      SortDescendingSorted(s[1..]);
      InsertSorted(s[0], SortDescending(s[1..]));
    }
  }

  /**
   * Two descending sequences with the same elements are equal, so the sort's
   * result does not depend on the algorithm Ruby uses.
   */
  lemma {:induction false} SortedUnique(a: seq<string>, b: seq<string>)
    requires SortedDescending(a) && SortedDescending(b)
    requires multiset(a) == multiset(b)
    ensures a == b
    decreases |a|
  {
    assert |a| == |multiset(a)| == |b|;
    if |a| > 0 {
      SortedHeads(a, b);
      assert a == [a[0]] + a[1..] && b == [b[0]] + b[1..];
      assert multiset(a[1..]) == multiset(a) - multiset{a[0]};
      assert multiset(b[1..]) == multiset(b) - multiset{b[0]};
      SortedTail(a);
      SortedTail(b);
      SortedUnique(a[1..], b[1..]);
    }
  }

  /** Two non-empty descending sequences with the same elements start alike. */
  lemma SortedHeads(a: seq<string>, b: seq<string>)
    requires SortedDescending(a) && SortedDescending(b)
    requires multiset(a) == multiset(b) && |a| > 0
    ensures |b| > 0 && a[0] == b[0]
  {
    assert a[0] in multiset(b) && b[0] in multiset(a);
    var i :| 0 <= i < |b| && b[i] == a[0];
    var j :| 0 <= j < |a| && a[j] == b[0];
    LessIrreflexive(a[0]);
    LessIrreflexive(b[0]);
    LessTotal(a[0], b[0]);
  }

  /** The tail of a descending sequence is descending. */
  lemma SortedTail(s: seq<string>)
    requires SortedDescending(s) && |s| > 0
    ensures SortedDescending(s[1..])
  {
    forall x, y | 0 <= x < y < |s| - 1 ensures !Less(s[1..][x], s[1..][y]) {
      assert s[1..][x] == s[x + 1] && s[1..][y] == s[y + 1];
    }
  }

  /** Sorting a sequence that is already descending leaves it as it is. */
  lemma SortDescendingSortedInput(s: seq<string>)
    requires SortedDescending(s)
    ensures SortDescending(s) == s
  {
    SortDescendingSorted(s);
    SortedUnique(SortDescending(s), s);
  }

  /** The first element of a non-empty sorted sequence is its greatest. */
  lemma SortedFirstIsGreatest(s: seq<string>, x: string)
    requires SortedDescending(s) && x in s
    ensures !Less(s[0], x)
  {
    var k :| 0 <= k < |s| && s[k] == x;
    if k == 0 {
      LessIrreflexive(x);
    }
  }
}
