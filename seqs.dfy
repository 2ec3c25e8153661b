/** Small sequence vocabulary shared by the encoder modules. */
module Seqs {

  /** No element occurs twice (the keys of a dictionary, the members of a curriculum). */
  ghost predicate Distinct<T>(s: seq<T>) {
    forall i, j :: 0 <= i < j < |s| ==> s[i] != s[j]
  }

  /** Two duplicate-free sequences with no common element concatenate to a duplicate-free one. */
  lemma DistinctAppend<T>(a: seq<T>, b: seq<T>)
    requires Distinct(a) && Distinct(b)
    requires forall x :: x in a ==> x !in b
    ensures Distinct(a + b)
  {
    forall i, j | 0 <= i < j < |a + b|
      ensures (a + b)[i] != (a + b)[j]
    {
      if i < |a| && j >= |a| {
        assert (a + b)[i] in a;
        assert (a + b)[j] == b[j - |a|];
      }
    }
  }

  /** `DistinctAppend` for a sequence known to be the concatenation. */
  lemma DistinctJoin<T>(whole: seq<T>, a: seq<T>, b: seq<T>)
    requires whole == a + b && Distinct(a) && Distinct(b)
    requires forall x :: x in a ==> x !in b
    ensures Distinct(whole)
  {
    DistinctAppend(a, b);
  }

  /** Dropping the last element keeps a sequence duplicate-free, and the dropped element does not recur. */
  lemma DistinctInit<T>(s: seq<T>)
    requires Distinct(s) && s != []
    ensures Distinct(s[..|s| - 1]) && s[|s| - 1] !in s[..|s| - 1]
  {
    var init := s[..|s| - 1];
    forall i | 0 <= i < |init|
      ensures init[i] != s[|s| - 1]
    {
      assert init[i] == s[i];
    }
  }

  /** Python's `list(range(start, end))`: empty when end <= start. */
  function Range(start: int, end: int): seq<int>
    decreases end - start
  {
    if end <= start then [] else Range(start, end - 1) + [end - 1]
  }

  lemma {:induction false} RangeShape(start: int, end: int)
    ensures |Range(start, end)| == if end <= start then 0 else end - start
    ensures forall i :: 0 <= i < |Range(start, end)| ==> Range(start, end)[i] == start + i
    decreases end - start
  {
    if end > start {
      RangeShape(start, end - 1);
    }
  }

  lemma {:induction false} RangeAppend(a: int, b: int, c: int)
    requires a <= b <= c
    ensures Range(a, b) + Range(b, c) == Range(a, c)
    decreases c - b
  {
    if c > b {
      RangeAppend(a, b, c - 1);
      assert Range(a, c) == Range(a, c - 1) + [c - 1];
    }
  }

  /** `s` written out `n` times one after the other. */
  function Repeat<T>(s: seq<T>, n: nat): seq<T> {
    if n == 0 then [] else Repeat(s, n - 1) + s
  }

  lemma AppendAssoc<T>(a: seq<T>, b: seq<T>, c: seq<T>)
    ensures (a + b) + c == a + (b + c)
  {
  }

  lemma CountAppend<T>(x: seq<T>, y: seq<T>, e: T)
    ensures multiset(x + y)[e] == multiset(x)[e] + multiset(y)[e]
  {
  }

  lemma {:induction false} RepeatCount<T>(s: seq<T>, n: nat, x: T)
    ensures multiset(Repeat(s, n))[x] == n * multiset(s)[x]
  {
    if n > 0 {
      RepeatCount(s, n - 1, x);
      assert Repeat(s, n) == Repeat(s, n - 1) + s;
      var m := multiset(s)[x];
      assert multiset(Repeat(s, n))[x] == (n - 1) * m + m;
      assert (n - 1) * m + m == n * m;
    }
  }

  /** Every element of `Range(start, end)` lies in [start, end), and every such integer is listed. */
  lemma RangeMember(start: int, end: int)
    ensures forall x :: x in Range(start, end) <==> start <= x < end
  {
    RangeShape(start, end);
    forall x | start <= x < end
      ensures x in Range(start, end)
    {
      assert Range(start, end)[x - start] == x;
    }
  }
}
