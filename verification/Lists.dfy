/** Sequences without repetitions, and what is left of them when elements go. */
module Lists {

  ghost predicate Distinct<T(!new)>(s: seq<T>) {
    forall i, j :: 0 <= i < j < |s| ==> s[i] != s[j]
  }

  // s without its first x: what unlinking a node leaves.
  function Without<T(==, !new)>(s: seq<T>, x: T): (r: seq<T>)
    ensures |s| - 1 <= |r| <= |s|
    ensures x !in s ==> r == s
  {
    if s == [] then [] else if s[0] == x then s[1..] else [s[0]] + Without(s[1..], x)
  }

  // s without the elements of gone, the others in their order.
  function Except<T(==, !new)>(s: seq<T>, gone: set<T>): (r: seq<T>)
    ensures forall y :: y in r <==> y in s && y !in gone
  {
    if s == [] then [] else if s[0] in gone then Except(s[1..], gone) else [s[0]] + Except(s[1..], gone)
  }

  lemma DistinctTail<T(!new)>(s: seq<T>)
    requires s != [] && Distinct(s)
    ensures Distinct(s[1..]) && s[0] !in s[1..]
  {
  }

  lemma DistinctCons<T(!new)>(x: T, s: seq<T>)
    requires Distinct(s) && x !in s
    ensures Distinct([x] + s)
  {
  }

  lemma DistinctConcat<T(!new)>(s: seq<T>, t: seq<T>)
    requires Distinct(s) && Distinct(t) && forall x :: x in s ==> x !in t
    ensures Distinct(s + t)
  {
    forall i, j | 0 <= i < j < |s + t|
      ensures (s + t)[i] != (s + t)[j]
    {
      if i < |s| <= j {
        assert (s + t)[i] in s && (s + t)[j] in t;
      }
    }
  }

  lemma {:induction false} WithoutDistinct<T(!new)>(s: seq<T>, x: T)
    requires Distinct(s)
    ensures Distinct(Without(s, x))
    ensures forall y :: y in Without(s, x) <==> y in s && y != x
  {
    if s != [] {
      DistinctTail(s);
      if s[0] != x {
        WithoutDistinct(s[1..], x);
        DistinctCons(s[0], Without(s[1..], x));
      }
      assert s == [s[0]] + s[1..];
    }
  }

  lemma {:induction false} ExceptDistinct<T(!new)>(s: seq<T>, gone: set<T>)
    requires Distinct(s)
    ensures Distinct(Except(s, gone))
  {
    if s != [] {
      DistinctTail(s);
      ExceptDistinct(s[1..], gone);
      if s[0] !in gone {
        DistinctCons(s[0], Except(s[1..], gone));
      }
    }
  }
}
