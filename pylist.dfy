/**
 * The two list operations the registries use: the negative slice
 * `history[-n:]` and the comprehension `[e for e in s if key(e) != k]`.
 */
module PyList {

  /** `s[-n:]` for n > 0: the last min(n, |s|) elements of `s`, in order. */
  function Tail<T>(s: seq<T>, n: nat): (r: seq<T>)
    requires n > 0
    ensures |r| == if |s| < n then |s| else n
    ensures r == s[|s| - |r|..]
  {
    if |s| <= n then s else s[|s| - n..]
  }

  /**
   * Appending one element slides the window: the new tail is the old tail
   * with its oldest element dropped once the window is full, then `x`.
   */
  lemma TailAppend<T>(s: seq<T>, x: T, n: nat)
    requires n > 0
    ensures Tail(s + [x], n) == (if |s| < n then Tail(s, n) else Tail(s, n)[1..]) + [x]
  {
    var t := s + [x];
    if |s| >= n {
      assert t[|t| - n..] == s[|s| - n..][1..] + [x];
    } else {
      assert Tail(s, n) == s;
    }
  }

  /** However many events are appended, the tail keeps exactly the last n of them once there are n. */
  lemma {:induction false} TailOfLongAppend<T>(s: seq<T>, xs: seq<T>, n: nat)
    requires n > 0 && |xs| >= n
    ensures Tail(s + xs, n) == xs[|xs| - n..]
  {
    assert (s + xs)[|s + xs| - n..] == xs[|xs| - n..];
  }

  /** `[e for e in s if key(e) != k]`. */
  function Without<T(!new), K(==)>(s: seq<T>, key: T -> K, k: K): (r: seq<T>)
    ensures forall i :: 0 <= i < |r| ==> key(r[i]) != k
    ensures forall x :: multiset(r)[x] == if key(x) != k then multiset(s)[x] else 0
    ensures |r| <= |s|
  {
    if s == [] then []
    else
      assert s == [s[0]] + s[1..];
      (if key(s[0]) != k then [s[0]] else []) + Without(s[1..], key, k)
  }

  /** The comprehension keeps the order of the list: it distributes over concatenation. */
  lemma {:induction false} WithoutAppend<T(!new), K>(a: seq<T>, b: seq<T>, key: T -> K, k: K)
    ensures Without(a + b, key, k) == Without(a, key, k) + Without(b, key, k)
  {
    if a == [] {
      assert a + b == b;
    } else {
      var head := if key(a[0]) != k then [a[0]] else [];
      assert (a + b)[0] == a[0];
      assert (a + b)[1..] == a[1..] + b;
      WithoutAppend(a[1..], b, key, k);
      calc {
        Without(a + b, key, k);
        head + Without(a[1..] + b, key, k);
        head + (Without(a[1..], key, k) + Without(b, key, k));
        (head + Without(a[1..], key, k)) + Without(b, key, k);
      }
    }
  }

  /** Nothing to remove leaves the list as it was. */
  lemma {:induction false} WithoutNone<T(!new), K>(s: seq<T>, key: T -> K, k: K)
    requires forall i :: 0 <= i < |s| ==> key(s[i]) != k
    ensures Without(s, key, k) == s
  {
    if s != [] {
      WithoutNone(s[1..], key, k);
    }
  }

  /** Removing the same key twice is removing it once. */
  lemma WithoutIdempotent<T(!new), K>(s: seq<T>, key: T -> K, k: K)
    ensures Without(Without(s, key, k), key, k) == Without(s, key, k)
  {
    WithoutNone(Without(s, key, k), key, k);
  }

  /** The only element just appended carries the key being removed, so it leaves no trace. */
  lemma WithoutSnoc<T(!new), K>(s: seq<T>, x: T, key: T -> K)
    ensures Without(s + [x], key, key(x)) == Without(s, key, key(x))
  {
    WithoutAppend(s, [x], key, key(x));
    assert [x][1..] == [];
  }

  /** The list becomes empty exactly when every element carried the removed key. */
  lemma {:induction false} WithoutEmpty<T(!new), K>(s: seq<T>, key: T -> K, k: K)
    ensures Without(s, key, k) == [] <==> forall i :: 0 <= i < |s| ==> key(s[i]) == k
  {
    if s != [] {
      WithoutEmpty(s[1..], key, k);
      if key(s[0]) == k {
        assert forall i :: 1 <= i < |s| ==> s[i] == s[1..][i - 1];
      }
    }
  }
}
