/** Machine integers, optional values and results, ordered key sets and sums over maps. */
module Wrappers {

  datatype Option<+T> = None | Some(value: T)

  datatype Result<+T, +E> = Ok(value: T) | Err(error: E) {

    predicate IsFailure() {
      Err?
    }

    function PropagateFailure<U>(): Result<U, E>
      requires Err?
    {
      Err(error)
    }

    function Extract(): T
      requires Ok?
    {
      value
    }
  }
}

/** An arbitrary element of a non-empty set. */
module Choice {
  ghost function Pick<T>(s: set<T>): (k: T)
    requires s != {}
    ensures k in s
  {
    var k :| k in s;
    k
  }
}

module Numbers {
  import opened Wrappers

  const I64_MIN := -0x8000_0000_0000_0000
  const I64_MAX := 0x7FFF_FFFF_FFFF_FFFF
  const U64_MAX := 0xFFFF_FFFF_FFFF_FFFF
  const U32_MAX := 0xFFFF_FFFF

  type i64 = x: int | I64_MIN <= x <= I64_MAX
  type u64 = x: int | 0 <= x <= U64_MAX
  type u32 = x: int | 0 <= x <= U32_MAX

  /** The outcome of a checked 64-bit operation whose exact value is x. */
  function CheckedI64(x: int): Option<i64> {
    if I64_MIN <= x <= I64_MAX then Some(x) else None
  }

  function CheckedU64(x: int): Option<u64> {
    if 0 <= x <= U64_MAX then Some(x) else None
  }

  function SaturatingAdd(a: u64, b: u64): u64 {
    if a + b <= U64_MAX then a + b else U64_MAX
  }

  function SaturatingSub(a: u64, b: u64): u64 {
    if a >= b then a - b else 0
  }
}

/** Finite sets of integers listed in ascending order, as an ordered map iterates over its keys. */
module Ordered {
  import opened Numbers
  import opened Choice

  predicate StrictlyAscending(s: seq<int>) {
    forall i, j :: 0 <= i < j < |s| ==> s[i] < s[j]
  }

  ghost predicate IsLeast(m: int, s: set<int>) {
    m in s && forall x :: x in s ==> m <= x
  }

  lemma LeastExists(s: set<int>)
    requires s != {}
    ensures exists m :: IsLeast(m, s)
  {
    var k := Pick(s);
    var rest := s - {k};
    if rest == {} {
      forall x | x in s
        ensures k <= x
      {
        assert x !in rest;
      }
      assert IsLeast(k, s);
    } else {
      LeastExists(rest);
      var m :| IsLeast(m, rest);
      var least := if k < m then k else m;
      forall x | x in s
        ensures least <= x
      {
        assert x == k || x in rest;
      }
      assert IsLeast(least, s);
    }
  }

  function Least(s: set<int>): (m: int)
    requires s != {}
    ensures IsLeast(m, s)
  {
    LeastExists(s);
    assert exists m :: m in s && forall x | x in s :: m <= x by {
      var m :| IsLeast(m, s);
      assert m in s && forall x | x in s :: m <= x;
    }
    var m :| m in s && forall x | x in s :: m <= x;
    m
  }

  lemma LeastFirst(m: int, rest: seq<int>, s: set<int>)
    requires IsLeast(m, s) && StrictlyAscending(rest)
    requires forall x :: x in rest <==> x in s && x != m
    ensures StrictlyAscending([m] + rest)
    ensures forall x :: x in [m] + rest <==> x in s
  {
    assert forall i :: 0 <= i < |rest| ==> rest[i] in rest;
  }

  function Ascending(s: set<int>): (r: seq<int>)
    ensures |r| == |s|
    ensures forall x :: x in r <==> x in s
    ensures StrictlyAscending(r)
  {
    if s == {} then [] else
      var m := Least(s);
      var rest := Ascending(s - {m});
      LeastFirst(m, rest, s);
      [m] + rest
  }

  /** The keys of an ordered map with 32-bit keys, in iteration order. */
  function Keys(s: set<u32>): (r: seq<u32>)
    ensures r == Ascending(s)
    ensures |r| == |s|
    ensures forall k :: 0 <= k < |r| ==> r[k] in s
    ensures StrictlyAscending(r)
  {
    var r := Ascending(s);
    assert forall k :: 0 <= k < |r| ==> r[k] in r;
    r
  }

  /** ids are the elements of s in ascending order. */
  ghost predicate Lists(ids: seq<u32>, s: set<u32>) {
    && |ids| == |s|
    && StrictlyAscending(ids)
    && (forall k :: 0 <= k < |ids| ==> ids[k] in s)
    && forall x :: x in s ==> x in ids
  }

  method ListKeys(s: set<u32>) returns (ids: seq<u32>)
    ensures Lists(ids, s)
  {
    ids := Keys(s);
  }
}

/** The sum of the values of a finite integer map. */
module Sums {
  import opened Choice

  ghost function Sum(m: map<int, int>): int
    decreases |m|
  {
    if m.Keys == {} then 0 else
      var k := Pick(m.Keys);
      assert |m - {k}| < |m| by { assert (m - {k}).Keys == m.Keys - {k}; assert |m.Keys| == |m|; }
      m[k] + Sum(m - {k})
  }

  lemma SumOfNothing(m: map<int, int>)
    requires forall k :: k !in m
    ensures Sum(m) == 0
  {
    if m.Keys != {} {
      var k := Pick(m.Keys);
    }
  }

  lemma {:induction false} SumWithout(m: map<int, int>, k: int)
    requires k in m
    ensures Sum(m) == m[k] + Sum(m - {k})
    decreases |m|
  {
    var c := Pick(m.Keys);
    if c != k {
      assert |m - {c}| < |m| by { assert (m - {c}).Keys == m.Keys - {c}; assert |m.Keys| == |m|; }
      assert |m - {k}| < |m| by { assert (m - {k}).Keys == m.Keys - {k}; assert |m.Keys| == |m|; }
      SumWithout(m - {c}, k);
      SumWithout(m - {k}, c);
      assert m - {c} - {k} == m - {k} - {c};
    }
  }

  /** Changing or adding one entry moves the sum by exactly the difference. */
  lemma SumUpdate(m: map<int, int>, k: int, v: int)
    ensures Sum(m[k := v]) == Sum(m) + v - (if k in m then m[k] else 0)
  {
    SumWithout(m[k := v], k);
    if k in m {
      SumWithout(m, k);
      assert m[k := v] - {k} == m - {k};
    } else {
      assert m[k := v] - {k} == m;
    }
  }
}
