/** Small facts about sequences that several modules need. */
module Seqs {

  ghost predicate Distinct<T>(s: seq<T>) {
    forall i, j :: 0 <= i < j < |s| ==> s[i] != s[j]
  }

  /** s with every occurrence of x dropped. */
  function Without<T(==)>(s: seq<T>, x: T): seq<T> {
    if s == [] then []
    else Without(s[..|s|-1], x) + (if s[|s|-1] != x then [s[|s|-1]] else [])
  }

  /** s with its first occurrence of x dropped. */
  function RemoveFirst<T(==)>(s: seq<T>, x: T): seq<T> {
    if s == [] then []
    else if s[0] == x then s[1..]
    else [s[0]] + RemoveFirst(s[1..], x)
  }

  lemma Assoc<T>(x: seq<T>, y: seq<T>, z: seq<T>)
    ensures x + (y + z) == (x + y) + z
  {
  }

  lemma DistinctSnoc<T>(s: seq<T>, x: T)
    requires Distinct(s) && x !in s
    ensures Distinct(s + [x])
  {
  }

  lemma DistinctNone<T>()
    ensures Distinct<T>([])
  {
  }

  lemma {:induction false} WithoutSpec<T>(s: seq<T>, x: T)
    ensures forall y :: y in Without(s, x) <==> y in s && y != x
    ensures Distinct(s) ==> Distinct(Without(s, x))
  {
    if s != [] {
      var init, last := s[..|s|-1], s[|s|-1];
      WithoutSpec(init, x);
      assert s == init + [last];
      assert forall y :: y in s <==> y in init || y == last;
      if Distinct(s) {
        assert last !in init;
        DistinctSnoc(Without(init, x), last);
      }
    }
  }

  /** On a duplicate-free sequence dropping the first occurrence drops them all. */
  lemma {:induction false} RemoveFirstSpec<T>(s: seq<T>, x: T)
    requires Distinct(s)
    ensures forall y :: y in RemoveFirst(s, x) <==> y in s && y != x
    ensures Distinct(RemoveFirst(s, x))
  {
    if s != [] {
      assert s == [s[0]] + s[1..];
      assert forall y :: y in s <==> y == s[0] || y in s[1..];
      assert forall i :: 0 <= i < |s[1..]| ==> s[1..][i] == s[i+1];
      assert Distinct(s[1..]);
      assert s[0] !in s[1..];
      RemoveFirstSpec(s[1..], x);
    }
  }

  /** A duplicate-free sequence is as long as the set of its elements. */
  lemma {:induction false} DistinctLength<T>(s: seq<T>, elems: set<T>)
    requires Distinct(s) && forall y :: y in s <==> y in elems
    ensures |s| == |elems|
  {
    if s == [] {
      assert elems == {};
    } else {
      var last := s[|s|-1];
      assert s == s[..|s|-1] + [last];
      DistinctLength(s[..|s|-1], elems - {last});
    }
  }

  lemma {:induction false} RemoveFirstAt<T>(s: seq<T>, x: T, i: nat)
    requires i < |s| && s[i] == x && x !in s[..i]
    ensures RemoveFirst(s, x) == s[..i] + s[i+1..]
  {
    if i > 0 {
      assert s[0] == s[..i][0];
      assert s[1..][..i-1] == s[..i][1..];
      RemoveFirstAt(s[1..], x, i - 1);
      assert s[..i] + s[i+1..] == [s[0]] + (s[1..][..i-1] + s[1..][i..]);
    }
  }

  lemma {:induction false} RemoveFirstAbsent<T>(s: seq<T>, x: T)
    requires x !in s
    ensures RemoveFirst(s, x) == s
  {
    if s != [] {
      RemoveFirstAbsent(s[1..], x);
    }
  }

  /** Every finite set can be listed. */
  lemma {:induction false} Listing<T>(s: set<T>) returns (order: seq<T>)
    ensures Distinct(order) && forall x :: x in order <==> x in s
  {
    order := [];
    if s != {} {
      var x :| x in s;
      order := Listing(s - {x});
      DistinctSnoc(order, x);
      order := order + [x];
    }
  }
}
