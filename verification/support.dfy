/** Small shared vocabulary: optional values, results with an error, and sums of money. */
module Support {

  datatype Option<+T> = None | Some(value: T)

  datatype Result<+T, +E> = Success(value: T) | Failure(error: E)

  /** The list holding `x` exactly `k` times. */
  function Repeat(x: real, k: nat): (r: seq<real>)
    ensures |r| == k
    ensures forall i :: 0 <= i < k ==> r[i] == x
  {
    seq(k, _ => x)
  }

  lemma ConcatAssoc<T>(a: seq<T>, b: seq<T>, c: seq<T>)
    ensures a + b + c == a + (b + c)
  {
  }

  lemma RepeatFirst(x: real, k: nat)
    ensures [x] + Repeat(x, k) == Repeat(x, k + 1)
  {
  }

  /** How often `x` occurs in a list: once more than in its tail exactly when it is the head. */
  lemma CountFirst<T>(s: seq<T>, x: T)
    requires s != []
    ensures multiset(s)[x] == (if s[0] == x then 1 else 0) + multiset(s[1..])[x]
  {
    assert s == [s[0]] + s[1..];
  }

  /** Python's built-in `sum` over a list of numbers, in exact arithmetic (so the order of addition does not matter). */
  function Sum(s: seq<real>): (r: real)
    ensures |s| == 1 ==> r == s[0]
  {
    if s == [] then 0.0 else s[0] + Sum(s[1..])
  }

  lemma {:induction false} SumConcat(a: seq<real>, b: seq<real>)
    ensures Sum(a + b) == Sum(a) + Sum(b)
  {
    if a == [] {
      assert a + b == b;
    } else {
      assert (a + b)[1..] == a[1..] + b;
      SumConcat(a[1..], b);
    }
  }

  lemma {:induction false} SumRepeat(x: real, k: nat)
    ensures Sum(Repeat(x, k)) == k as real * x
  {
    if k > 0 {
      assert Repeat(x, k)[1..] == Repeat(x, k - 1);
      SumRepeat(x, k - 1);
    }
  }

  /** Taking one term out of a sum. */
  lemma {:induction false} SumRemove(t: seq<real>, k: nat)
    requires k < |t|
    ensures Sum(t) == t[k] + Sum(t[..k] + t[k + 1..])
    decreases k
  {
    var u := t[..k] + t[k + 1..];
    if k == 0 {
      assert u == t[1..];
    } else {
      var t' := t[1..];
      SumRemove(t', k - 1);
      assert t'[k - 1] == t[k];
      assert u[0] == t[0];
      assert u[1..] == t'[..k - 1] + t'[k..];
    }
  }

  /** Taking the first term of `s` out of `t`, where it sits at `k`, leaves equal multisets. */
  lemma MultisetRemoveFirst<T>(s: seq<T>, t: seq<T>, k: nat)
    requires s != [] && k < |t| && t[k] == s[0] && multiset(s) == multiset(t)
    ensures multiset(s[1..]) == multiset(t[..k] + t[k + 1..])
  {
    var rest := t[..k] + t[k + 1..];
    assert s == [s[0]] + s[1..];
    assert t == t[..k] + [t[k]] + t[k + 1..];
    assert multiset(s) == multiset{s[0]} + multiset(s[1..]);
    assert multiset(t) == multiset(t[..k]) + multiset{t[k]} + multiset(t[k + 1..]);
    assert multiset(rest) == multiset(t[..k]) + multiset(t[k + 1..]);
    forall x ensures multiset(s[1..])[x] == multiset(rest)[x] {
      assert (multiset{s[0]} + multiset(s[1..]))[x] == (multiset{s[0]} + multiset(rest))[x];
    }
  }

  /** A sum does not depend on the order of its terms: equal multisets of terms give equal sums. */
  lemma {:induction false} SumPermutation(s: seq<real>, t: seq<real>)
    requires multiset(s) == multiset(t)
    ensures Sum(s) == Sum(t)
    decreases |s|
  {
    if s != [] {
      assert s[0] in multiset(t);
      var k :| 0 <= k < |t| && t[k] == s[0];
      var rest := t[..k] + t[k + 1..];
      MultisetRemoveFirst(s, t, k);
      SumPermutation(s[1..], rest);
      SumRemove(t, k);
    }
  }

  /** The elements of a non-empty sequence: its first element and the elements of the rest. */
  lemma ElementsFirst<T>(s: seq<T>)
    requires s != []
    ensures (set x | x in s) == {s[0]} + (set x | x in s[1..])
  {
    assert s == [s[0]] + s[1..];
  }
}
