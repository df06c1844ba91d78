/**
  The order in which a batch's string table is sorted: std::string's
  operator<, i.e. lexicographic comparison character by character, a proper
  prefix coming first. Each byte of a C++ string is modelled as the char with
  the same code (0..255), so comparing chars by code matches the unsigned
  byte comparison of char_traits<char>.
 */
module StrOrder {

  /** a comes strictly before b. */
  predicate Less(a: string, b: string)
    decreases |a|
  {
    if |a| == 0 then |b| > 0
    else if |b| == 0 then false
    else if a[0] != b[0] then a[0] < b[0]
    else Less(a[1..], b[1..])
  }

  lemma {:induction false} LessIrreflexive(a: string)
    ensures !Less(a, a)
    decreases |a|
  {
    if |a| > 0 {
      LessIrreflexive(a[1..]);
    }
  }

  lemma {:induction false} LessTransitive(a: string, b: string, c: string)
    requires Less(a, b) && Less(b, c)
    ensures Less(a, c)
    decreases |a|
  {
    if |a| > 0 && a[0] == b[0] && b[0] == c[0] {
      LessTransitive(a[1..], b[1..], c[1..]);
    }
  }

  lemma {:induction false} LessTotal(a: string, b: string)
    requires a != b
    ensures Less(a, b) || Less(b, a)
    decreases |a|
  {
    if |a| > 0 && |b| > 0 && a[0] == b[0] {
      assert a == [a[0]] + a[1..] && b == [b[0]] + b[1..];
      LessTotal(a[1..], b[1..]);
    }
  }

  lemma LessAsymmetric(a: string, b: string)
    requires Less(a, b)
    ensures !Less(b, a)
  {
    if Less(b, a) {
      LessTransitive(a, b, a);
      LessIrreflexive(a);
    }
  }

  /** Strictly ascending: no duplicates, every string before the later ones. */
  ghost predicate StrictlySorted(s: seq<string>) {
    forall i, j :: 0 <= i < j < |s| ==> Less(s[i], s[j])
  }

  ghost predicate Distinct<T>(s: seq<T>) {
    forall i, j :: 0 <= i < j < |s| ==> s[i] != s[j]
  }

  lemma SortedDistinct(s: seq<string>)
    requires StrictlySorted(s)
    ensures Distinct(s)
  {
    forall i, j | 0 <= i < j < |s|
      ensures s[i] != s[j]
    {
      LessIrreflexive(s[i]);
    }
  }

  ghost predicate IsMin(m: string, strs: set<string>) {
    m in strs && forall x :: x in strs && x != m ==> Less(m, x)
  }

  lemma {:induction false} MinExists(strs: set<string>)
    requires strs != {}
    ensures exists m :: IsMin(m, strs)
    decreases |strs|
  {
    var y :| y in strs;
    if strs == {y} {
      assert IsMin(y, strs);
    } else {
      MinExists(strs - {y});
      var m :| IsMin(m, strs - {y});
      if Less(y, m) {
        forall x | x in strs && x != y
          ensures Less(y, x)
        {
          if x != m {
            LessTransitive(y, m, x);
          }
        }
        assert IsMin(y, strs);
      } else {
        LessTotal(y, m);
        assert IsMin(m, strs);
      }
    }
  }

  /**
    The strings of a set in ascending order: the smallest first, then the
    rest of the set sorted.
   */
  ghost function SortedOf(strs: set<string>): (r: seq<string>)
    ensures Distinct(r)
    ensures forall j :: 0 <= j < |r| ==> r[j] in strs
    decreases |strs|
  {
    if strs == {} then []
    else
      MinExists(strs);
      var m :| IsMin(m, strs);
      var rest := SortedOf(strs - {m});
      assert forall j :: 0 <= j < |rest| ==> rest[j] != m;
      [m] + rest
  }

  /** SortedOf lists exactly the strings of the set, in strictly ascending order. */
  lemma {:induction false} SortedOfSorted(strs: set<string>)
    ensures StrictlySorted(SortedOf(strs))
    ensures forall x :: x in SortedOf(strs) <==> x in strs
    ensures |SortedOf(strs)| == |strs|
    decreases |strs|
  {
    var r := SortedOf(strs);
    if strs != {} {
      var m := r[0];
      assert IsMin(m, strs) && r == [m] + SortedOf(strs - {m});
      var rest := SortedOf(strs - {m});
      SortedOfSorted(strs - {m});
      forall i, j | 0 <= i < j < |r|
        ensures Less(r[i], r[j])
      {
        if i == 0 {
          assert r[j] == rest[j - 1] && r[j] in strs && r[j] != m;
        } else {
          assert r[i] == rest[i - 1] && r[j] == rest[j - 1];
        }
      }
    }
  }

  /** Two strictly ascending sequences of one length with the same elements are equal. */
  lemma {:induction false} SortedUnique(a: seq<string>, b: seq<string>)
    requires StrictlySorted(a) && StrictlySorted(b)
    requires |a| == |b| && forall x :: x in a <==> x in b
    ensures a == b
    decreases |a|
  {
    if a != [] {
      assert a[0] in b;
      assert b != [];
      assert b[0] in a;
      if a[0] != b[0] {
        var j :| 0 <= j < |b| && b[j] == a[0];
        var i :| 0 <= i < |a| && a[i] == b[0];
        assert Less(b[0], a[0]);
        assert Less(a[0], b[0]);
        LessAsymmetric(a[0], b[0]);
      }
      forall x
        ensures x in a[1..] <==> x in b[1..]
      {
        if x in a[1..] {
          var i :| 1 <= i < |a| && a[i] == x;
          LessIrreflexive(a[0]);
          assert x in b && x != b[0];
        }
        if x in b[1..] {
          var i :| 1 <= i < |b| && b[i] == x;
          LessIrreflexive(b[0]);
          assert x in a && x != a[0];
        }
      }
      SortedUnique(a[1..], b[1..]);
      assert a == [a[0]] + a[1..] && b == [b[0]] + b[1..];
    }
  }

  /** Exchanges two neighbouring elements; distinctness and the multiset are kept. */
  method SwapDown(a: array<string>, j: int)
    requires 0 < j < a.Length
    requires forall p, q :: 0 <= p < q < a.Length ==> a[p] != a[q]
    modifies a
    ensures a[j - 1] == old(a[j]) && a[j] == old(a[j - 1])
    ensures forall k :: 0 <= k < a.Length && k != j - 1 && k != j ==> a[k] == old(a[k])
    ensures forall p, q :: 0 <= p < q < a.Length ==> a[p] != a[q]
    ensures multiset(a[..]) == old(multiset(a[..]))
  {
    a[j - 1], a[j] := a[j], a[j - 1];
  }

  /**
    One step of the insertion sort: the element at index i moves down into the
    strictly ascending prefix a[..i], which then covers a[..i+1].
   */
  method InsertAt(a: array<string>, i: int)
    requires 0 <= i < a.Length
    requires forall p, q :: 0 <= p < q < a.Length ==> a[p] != a[q]
    requires forall p, q :: 0 <= p < q < i ==> Less(a[p], a[q])
    modifies a
    ensures forall p, q :: 0 <= p < q < a.Length ==> a[p] != a[q]
    ensures forall p, q :: 0 <= p < q <= i ==> Less(a[p], a[q])
    ensures multiset(a[..]) == old(multiset(a[..]))
  {
    var j := i;
    while j > 0 && Less(a[j], a[j - 1])
      invariant 0 <= j <= i
      invariant forall p, q :: 0 <= p < q <= i && p != j && q != j ==> Less(a[p], a[q])
      invariant forall q :: j < q <= i ==> Less(a[j], a[q])
      invariant 0 < j < i ==> Less(a[j - 1], a[j + 1])
      invariant forall p, q :: 0 <= p < q < a.Length ==> a[p] != a[q]
      invariant multiset(a[..]) == old(multiset(a[..]))
    {
      SwapDown(a, j);
      j := j - 1;
    }
    if j > 0 {
      LessTotal(a[j - 1], a[j]);
      forall p | 0 <= p < j - 1
        ensures Less(a[p], a[j])
      {
        LessTransitive(a[p], a[j - 1], a[j]);
      }
    }
  }

  /**
    std::sort on the table's vector of distinct strings: an insertion sort
    that leaves the array strictly ascending and a permutation of its input.
   */
  method Sort(a: array<string>)
    requires Distinct(a[..])
    modifies a
    ensures StrictlySorted(a[..])
    ensures multiset(a[..]) == old(multiset(a[..]))
  {
    var i := 0;
    while i < a.Length
      invariant 0 <= i <= a.Length
      invariant forall p, q :: 0 <= p < q < i ==> Less(a[p], a[q])
      invariant forall p, q :: 0 <= p < q < a.Length ==> a[p] != a[q]
      invariant multiset(a[..]) == old(multiset(a[..]))
    {
      InsertAt(a, i);
      i := i + 1;
    }
  }
}
