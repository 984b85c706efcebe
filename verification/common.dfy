/** Small shared vocabulary: an optional value (a Rust `Option`, or a
    computation that may abort with a panic) and sums over sequences. */
module Common {

  datatype Option<T> = None | Some(value: T)

  /** Sum of a sequence of integers, folded from the left. */
  function Sum(s: seq<int>): int
  {
    if s == [] then 0 else Sum(s[..|s| - 1]) + s[|s| - 1]
  }

  lemma {:induction false} SumAppend(s: seq<int>, t: seq<int>)
    ensures Sum(s + t) == Sum(s) + Sum(t)
  {
    if t == [] {
      assert s + t == s;
    } else {
      assert (s + t)[..|s + t| - 1] == s + t[..|t| - 1];
      SumAppend(s, t[..|t| - 1]);
    }
  }

  lemma {:induction false} SumBound(s: seq<int>, lo: int, hi: int)
    requires forall i :: 0 <= i < |s| ==> lo <= s[i] <= hi
    ensures |s| * lo <= Sum(s) <= |s| * hi
  {
    if s != [] {
      var init := s[..|s| - 1];
      assert forall i :: 0 <= i < |init| ==> init[i] == s[i];
      SumBound(init, lo, hi);
      MulSucc(|init|, lo);
      MulSucc(|init|, hi);
    }
  }

  /** Reordering the terms does not change the sum. */
  lemma {:induction false} SumPermutation(s: seq<int>, t: seq<int>)
    requires multiset(s) == multiset(t)
    ensures Sum(s) == Sum(t)
  {
    if s != [] {
      var x := s[|s| - 1];
      assert s == s[..|s| - 1] + [x];
      assert x in multiset(t);
      var i :| 0 <= i < |t| && t[i] == x;
      var rest := t[..i] + t[i + 1..];
      RemoveOne(s, t, i);
      SumPermutation(s[..|s| - 1], rest);
      SumWithout(t, i);
    }
  }

  /** Taking the same value out of two equal multisets leaves them equal. */
  lemma RemoveOne(s: seq<int>, t: seq<int>, i: nat)
    requires s != [] && i < |t| && t[i] == s[|s| - 1] && multiset(s) == multiset(t)
    ensures multiset(s[..|s| - 1]) == multiset(t[..i] + t[i + 1..])
  {
    var x := t[i];
    assert s == s[..|s| - 1] + [x];
    assert t == t[..i] + [x] + t[i + 1..];
    var rest := t[..i] + t[i + 1..];
    calc {
      multiset(s[..|s| - 1]) + multiset{x};
      multiset(s);
      multiset(t);
      multiset(t[..i]) + multiset{x} + multiset(t[i + 1..]);
      multiset(rest) + multiset{x};
    }
    assert multiset(s[..|s| - 1]) == multiset(s[..|s| - 1]) + multiset{x} - multiset{x};
    assert multiset(rest) == multiset(rest) + multiset{x} - multiset{x};
  }

  /** The sum without the term at `i`, plus that term. */
  lemma SumWithout(t: seq<int>, i: nat)
    requires i < |t|
    ensures Sum(t) == Sum(t[..i] + t[i + 1..]) + t[i]
  {
    var a, x, b := t[..i], t[i], t[i + 1..];
    assert t == (a + [x]) + b;
    SumAppend(a + [x], b);
    assert (a + [x])[..|a|] == a;
    SumAppend(a, b);
  }

  /** A sum of non-negative terms is zero exactly when every term is. */
  lemma {:induction false} SumZero(s: seq<int>)
    requires forall i :: 0 <= i < |s| ==> s[i] >= 0
    ensures Sum(s) >= 0
    ensures Sum(s) == 0 <==> forall i :: 0 <= i < |s| ==> s[i] == 0
  {
    if s != [] {
      var init := s[..|s| - 1];
      assert forall i :: 0 <= i < |init| ==> init[i] == s[i];
      SumZero(init);
    }
  }

  /** The `.sum()` of an iterator, as a running total. */
  method SumOf(s: seq<int>) returns (total: int)
    ensures total == Sum(s)
  {
    total := 0;
    for k := 0 to |s|
      invariant total == Sum(s[..k])
    {
      assert s[..k + 1][..k] == s[..k];
      total := total + s[k];
    }
    assert s[..|s|] == s;
  }

  /** Sum of values that may each be missing (`unwrap` on every element):
      missing as soon as one element is. */
  function SumAll(vs: seq<Option<nat>>): (r: Option<nat>)
    ensures r.Some? <==> forall i :: 0 <= i < |vs| ==> vs[i].Some?
  {
    if vs == [] then Some(0)
    else
      var init := SumAll(vs[..|vs| - 1]);
      if init.Some? && vs[|vs| - 1].Some? then Some(init.value + vs[|vs| - 1].value)
      else None
  }

  lemma {:induction false} SumAllBounds(vs: seq<Option<nat>>, lo: nat, hi: nat)
    requires forall i :: 0 <= i < |vs| ==> vs[i].Some? && lo <= vs[i].value <= hi
    ensures SumAll(vs).Some? && |vs| * lo <= SumAll(vs).value <= |vs| * hi
  {
    if vs != [] {
      var init := vs[..|vs| - 1];
      assert forall i :: 0 <= i < |init| ==> init[i] == vs[i];
      SumAllBounds(init, lo, hi);
      MulSucc(|init|, lo);
      MulSucc(|init|, hi);
    }
  }

  lemma MulSucc(n: nat, x: int)
    ensures (n + 1) * x == n * x + x
  {
  }

  lemma ProductOfNats(a: nat, b: nat)
    ensures a * b >= 0
  {
  }
}
