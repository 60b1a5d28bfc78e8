/**
 * Ordering of role and resource names. The index maps of the engine hold
 * the role names and the distinct resource names in ascending order
 * (tinyrbac_test.go:102-103). Go compares strings byte by byte; on UTF-8
 * text that is the same as comparing code points, which is what LexLe does
 * on Dafny strings.
 */
module Names {

  /** a is lexicographically at most b: a is a prefix of b, or a is smaller at the first difference. */
  predicate LexLe(a: string, b: string)
    decreases |a|
  {
    a == [] || (b != [] && (a[0] < b[0] || (a[0] == b[0] && LexLe(a[1..], b[1..]))))
  }

  lemma {:induction false} LexLeReflexive(a: string)
    ensures LexLe(a, a)
    decreases |a|
  {
    if a != [] { LexLeReflexive(a[1..]); }
  }

  lemma {:induction false} LexLeTotal(a: string, b: string)
    ensures LexLe(a, b) || LexLe(b, a)
    decreases |a|
  {
    if a != [] && b != [] && a[0] == b[0] { LexLeTotal(a[1..], b[1..]); }
  }

  lemma {:induction false} LexLeAntisymmetric(a: string, b: string)
    requires LexLe(a, b) && LexLe(b, a)
    ensures a == b
    decreases |a|
  {
    if a != [] {
      LexLeAntisymmetric(a[1..], b[1..]);
      assert a == [a[0]] + a[1..] && b == [b[0]] + b[1..];
    }
  }

  lemma {:induction false} LexLeTransitive(a: string, b: string, c: string)
    requires LexLe(a, b) && LexLe(b, c)
    ensures LexLe(a, c)
    decreases |a|
  {
    if a != [] && a[0] == b[0] && b[0] == c[0] { LexLeTransitive(a[1..], b[1..], c[1..]); }
  }

  /** Ascending order, repeated names allowed. */
  ghost predicate Sorted(s: seq<string>) {
    forall i, j | 0 <= i < j < |s| :: LexLe(s[i], s[j])
  }

  /** Ascending order without repetitions. */
  ghost predicate StrictlySorted(s: seq<string>) {
    forall i, j | 0 <= i < j < |s| :: LexLe(s[i], s[j]) && s[i] != s[j]
  }

  /** No name occurs twice. */
  ghost predicate NoDuplicates(s: seq<string>) {
    forall i, j | 0 <= i < j < |s| :: s[i] != s[j]
  }

  /** Insert x into an ascending sequence, before the first element it does not exceed. */
  function Insert(x: string, s: seq<string>): (r: seq<string>)
    ensures |r| == |s| + 1
  {
    if s == [] then [x]
    else if LexLe(x, s[0]) then [x] + s
    else [s[0]] + Insert(x, s[1..])
  }

  /** Insert adds exactly x to the names of s. */
  lemma {:induction false} InsertMembers(x: string, s: seq<string>)
    ensures forall y :: y in Insert(x, s) <==> y in s || y == x
    ensures multiset(Insert(x, s)) == multiset(s) + multiset{x}
  {
    if s != [] && !LexLe(x, s[0]) {
      InsertMembers(x, s[1..]);
      assert s == [s[0]] + s[1..];
    }
  }

  /** A name at most every name of an ascending sequence can go in front of it. */
  lemma SortedCons(h: string, t: seq<string>)
    requires Sorted(t)
    requires forall y | y in t :: LexLe(h, y)
    ensures Sorted([h] + t)
  {
    var r := [h] + t;
    forall i, j | 0 <= i < j < |r| ensures LexLe(r[i], r[j]) {
      if i == 0 { assert r[j] == t[j - 1]; }
      else { assert r[i] == t[i - 1] && r[j] == t[j - 1]; }
    }
  }

  lemma {:induction false} InsertSpec(x: string, s: seq<string>)
    requires Sorted(s)
    ensures Sorted(Insert(x, s))
    ensures multiset(Insert(x, s)) == multiset(s) + multiset{x}
  {
    InsertMembers(x, s);
    if s == [] {
    } else if LexLe(x, s[0]) {
      forall y | y in s ensures LexLe(x, y) {
        var k :| 0 <= k < |s| && s[k] == y;
        if k > 0 { LexLeTransitive(x, s[0], y); }
      }
      SortedCons(x, s);
    } else {
      var t := Insert(x, s[1..]);
      InsertSpec(x, s[1..]);
      InsertMembers(x, s[1..]);
      LexLeTotal(x, s[0]);
      forall y | y in t ensures LexLe(s[0], y) {
        if y != x {
          var k :| 0 <= k < |s[1..]| && s[1..][k] == y;
          assert s[k + 1] == y;
        }
      }
      SortedCons(s[0], t);
    }
  }

  /**
   * The role names in ascending order, repeated names kept (insertion sort;
   * the order of equal names is immaterial because they are equal).
   */
  function SortNames(s: seq<string>): (r: seq<string>)
    ensures |r| == |s|
  {
    if s == [] then [] else Insert(s[0], SortNames(s[1..]))
  }

  /** SortNames returns an ascending permutation of its input. */
  lemma {:induction false} SortNamesSpec(s: seq<string>)
    ensures Sorted(SortNames(s))
    ensures multiset(SortNames(s)) == multiset(s)
  {
    if s != [] {
      SortNamesSpec(s[1..]);
      InsertSpec(s[0], SortNames(s[1..]));
      assert s == [s[0]] + s[1..];
    }
  }

  lemma MultisetTail(s: seq<string>)
    requires s != []
    ensures multiset(s[1..]) == multiset(s) - multiset{s[0]}
    ensures s[0] in multiset(s)
  {
    assert s == [s[0]] + s[1..];
  }

  /** The first elements of two ascending sequences with the same multiset coincide. */
  lemma SortedHeads(a: seq<string>, b: seq<string>)
    requires Sorted(a) && Sorted(b) && a != []
    requires multiset(a) == multiset(b)
    ensures b != [] && a[0] == b[0]
  {
    MultisetTail(a);
    assert a[0] in b;
    MultisetTail(b);
    assert b[0] in a;
    var k :| 0 <= k < |b| && b[k] == a[0];
    var m :| 0 <= m < |a| && a[m] == b[0];
    if k > 0 { assert LexLe(b[0], b[k]); } else { LexLeReflexive(b[0]); }
    if m > 0 { assert LexLe(a[0], a[m]); } else { LexLeReflexive(a[0]); }
    LexLeAntisymmetric(a[0], b[0]);
  }

  /** Two ascending sequences holding the same names, with the same multiplicities, are equal. */
  lemma {:induction false} SortedUnique(a: seq<string>, b: seq<string>)
    requires Sorted(a) && Sorted(b)
    requires multiset(a) == multiset(b)
    ensures a == b
    decreases |a|
  {
    if a == [] {
      assert |b| == |multiset(b)| == 0;
    } else {
      SortedHeads(a, b);
      MultisetTail(a);
      MultisetTail(b);
      SortedUnique(a[1..], b[1..]);
      assert a == [a[0]] + a[1..] && b == [b[0]] + b[1..];
    }
  }

  /**
   * Insert x into a strictly ascending sequence, keeping it strictly
   * ascending: a name already present is not added again.
   */
  function InsertNew(x: string, s: seq<string>): (r: seq<string>)
    ensures |r| <= |s| + 1
  {
    if s == [] then [x]
    else if x == s[0] then s
    else if LexLe(x, s[0]) then [x] + s
    else [s[0]] + InsertNew(x, s[1..])
  }

  lemma {:induction false} InsertNewSpec(x: string, s: seq<string>)
    requires StrictlySorted(s)
    ensures StrictlySorted(InsertNew(x, s))
    ensures forall y :: y in InsertNew(x, s) <==> y in s || y == x
  {
    if s == [] {
    } else if x == s[0] {
    } else if LexLe(x, s[0]) {
      var r := [x] + s;
      forall i, j | 0 <= i < j < |r| ensures LexLe(r[i], r[j]) && r[i] != r[j] {
        if i == 0 {
          if j > 1 {
            LexLeTransitive(x, s[0], s[j - 1]);
            if x == s[j - 1] { LexLeAntisymmetric(s[0], x); }
          }
        }
      }
    } else {
      var t := InsertNew(x, s[1..]);
      InsertNewSpec(x, s[1..]);
      LexLeTotal(x, s[0]);
      assert s == [s[0]] + s[1..];
      forall y | y in t ensures LexLe(s[0], y) && s[0] != y {
        if y != x {
          var k :| 0 <= k < |s[1..]| && s[1..][k] == y;
          assert s[k + 1] == y;
        }
      }
      var r := [s[0]] + t;
      forall i, j | 0 <= i < j < |r| ensures LexLe(r[i], r[j]) && r[i] != r[j] {
        if i == 0 { assert r[j] == t[j - 1] && r[j] in t; }
        else { assert r[i] == t[i - 1] && r[j] == t[j - 1]; }
      }
    }
  }

  /** The distinct names of s in ascending order. */
  function SortDistinct(s: seq<string>): (r: seq<string>)
  {
    if s == [] then [] else InsertNew(s[0], SortDistinct(s[1..]))
  }

  /** SortDistinct returns a strictly ascending sequence of exactly the names of its input. */
  lemma {:induction false} SortDistinctSpec(s: seq<string>)
    ensures StrictlySorted(SortDistinct(s))
    ensures forall y :: y in SortDistinct(s) <==> y in s
  {
    if s != [] {
      SortDistinctSpec(s[1..]);
      InsertNewSpec(s[0], SortDistinct(s[1..]));
      assert s == [s[0]] + s[1..];
    }
  }

  /** A sequence that is not empty holds its first element. */
  lemma FirstIsMember(s: seq<string>)
    ensures s == [] || s[0] in s
  {
  }

  /** Two strictly ascending sequences holding the same names are equal. */
  lemma {:induction false} StrictlySortedUnique(a: seq<string>, b: seq<string>)
    requires StrictlySorted(a) && StrictlySorted(b)
    requires forall y :: y in a <==> y in b
    ensures a == b
    decreases |a|
  {
    if a == [] {
      FirstIsMember(b);
    } else {
      assert a[0] in b;
      assert b[0] in a;
      var k :| 0 <= k < |b| && b[k] == a[0];
      var m :| 0 <= m < |a| && a[m] == b[0];
      if k > 0 { assert LexLe(b[0], b[k]); } else { LexLeReflexive(b[0]); }
      if m > 0 { assert LexLe(a[0], a[m]); } else { LexLeReflexive(a[0]); }
      LexLeAntisymmetric(a[0], b[0]);
      assert forall i | 1 <= i < |a| :: a[i] != a[0];
      assert forall i | 1 <= i < |b| :: b[i] != b[0];
      assert a[0] !in a[1..] && b[0] !in b[1..];
      assert a == [a[0]] + a[1..] && b == [b[0]] + b[1..];
      forall y ensures y in a[1..] <==> y in b[1..] {
        assert y in a <==> y == a[0] || y in a[1..];
        assert y in b <==> y == b[0] || y in b[1..];
      }
      StrictlySortedUnique(a[1..], b[1..]);
    }
  }

  /** A strictly ascending sequence has as many elements as it has distinct names. */
  lemma StrictlySortedCard(s: seq<string>)
    requires StrictlySorted(s)
    ensures |set y | y in s| == |s|
    ensures NoDuplicates(s)
  {
    DistinctCard(s);
  }

  /** A sequence without repetitions has as many elements as it has distinct names. */
  lemma {:induction false} DistinctCard(s: seq<string>)
    requires NoDuplicates(s)
    ensures |set y | y in s| == |s|
  {
    if s != [] {
      var t := s[1..];
      assert NoDuplicates(t) by {
        forall i, j | 0 <= i < j < |t| ensures t[i] != t[j] {
          assert t[i] == s[i + 1] && t[j] == s[j + 1];
        }
      }
      DistinctCard(t);
      assert s[0] !in t by {
        forall i | 0 <= i < |t| ensures t[i] != s[0] {
          assert t[i] == s[i + 1];
        }
      }
      assert (set y | y in s) == (set y | y in t) + {s[0]} by {
        assert s == [s[0]] + t;
      }
    }
  }

  /**
   * slices.Index: the position of the first occurrence of x in s, or -1
   * when x does not occur.
   */
  function IndexOf(s: seq<string>, x: string): (i: int)
    ensures -1 <= i < |s|
    ensures i >= 0 ==> s[i] == x && x !in s[..i]
    ensures i == -1 <==> x !in s
  {
    if s == [] then -1
    else if s[0] == x then 0
    else
      var k := IndexOf(s[1..], x);
      assert s[1..][..k + 1] == s[1..k + 2] by { assert k >= -1; }
      if k < 0 then -1 else k + 1
  }

  /** The first occurrence is unique: a position holding x with no x before it is IndexOf's answer. */
  lemma IndexOfAt(s: seq<string>, x: string, i: nat)
    requires i < |s| && s[i] == x && x !in s[..i]
    ensures IndexOf(s, x) == i
  {
    var k := IndexOf(s, x);
    assert x in s;
    assert forall m | 0 <= m < i :: s[..i][m] == s[m];
    assert k >= i;
    assert k <= i;
  }

  /** In a table that starts with three distinct names, they sit at 0, 1 and 2. */
  lemma IndexOfFirstThree(s: seq<string>, a: string, b: string, c: string)
    requires |s| >= 3 && s[..3] == [a, b, c] && a != b && a != c && b != c
    ensures IndexOf(s, a) == 0 && IndexOf(s, b) == 1 && IndexOf(s, c) == 2
  {
    assert s[0] == a && s[1] == b && s[2] == c by {
      assert s[..3][0] == s[0] && s[..3][1] == s[1] && s[..3][2] == s[2];
    }
    assert s[..1] == [a] && s[..2] == [a, b];
    IndexOfAt(s, a, 0);
    IndexOfAt(s, b, 1);
    IndexOfAt(s, c, 2);
  }
}
