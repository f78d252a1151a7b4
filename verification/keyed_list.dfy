/** Toggling an element in a list by key: remove every element carrying the
    key when one is present, append the element otherwise. The genre filter
    toggles integer ids (the key is the id itself); the favourites list
    toggles movie records keyed by their `id`. */
module KeyedList {

  /** Some element of `s` carries key `k`. */
  predicate HasKey<T(==), K(==)>(s: seq<T>, key: T -> K, k: K) {
    exists i :: 0 <= i < |s| && key(s[i]) == k
  }

  /** No two elements of `s` carry the same key. */
  predicate KeysDistinct<T(==), K(==)>(s: seq<T>, key: T -> K) {
    forall i, j :: 0 <= i < j < |s| ==> key(s[i]) != key(s[j])
  }

  /** JavaScript's `s.filter(x => key(x) !== k)`. */
  function RemoveKey<T(==), K(==)>(s: seq<T>, key: T -> K, k: K): (r: seq<T>)
    ensures |r| <= |s|
    ensures forall i :: 0 <= i < |r| ==> r[i] in s && key(r[i]) != k
    ensures forall i :: 0 <= i < |s| && key(s[i]) != k ==> s[i] in r
    ensures !HasKey(r, key, k)
  {
    if |s| == 0 then []
    else
      var rest := RemoveKey(s[1..], key, k);
      if key(s[0]) == k then rest else [s[0]] + rest
  }

  /** Remove the elements keyed like `x` if there are any, else append `x`. */
  function Toggle<T(==), K(==)>(s: seq<T>, key: T -> K, x: T): seq<T> {
    if HasKey(s, key, key(x)) then RemoveKey(s, key, key(x)) else s + [x]
  }

  lemma {:induction false} RemoveAbsentKey<T, K>(s: seq<T>, key: T -> K, k: K)
    requires !HasKey(s, key, k)
    ensures RemoveKey(s, key, k) == s
  {
    if |s| > 0 {
      assert key(s[0]) != k;
      assert !HasKey(s[1..], key, k) by {
        forall i | 0 <= i < |s[1..]|
          ensures key(s[1..][i]) != k
        {
          assert s[1..][i] == s[i + 1];
        }
      }
      RemoveAbsentKey(s[1..], key, k);
      assert [s[0]] + s[1..] == s;
    }
  }

  lemma {:induction false} RemoveKeyAppend<T, K>(s: seq<T>, t: seq<T>, key: T -> K, k: K)
    ensures RemoveKey(s + t, key, k) == RemoveKey(s, key, k) + RemoveKey(t, key, k)
  {
    if |s| > 0 {
      assert (s + t)[1..] == s[1..] + t;
      RemoveKeyAppend(s[1..], t, key, k);
    } else {
      assert s + t == t;
    }
  }

  lemma {:induction false} RemoveKeyKeepsDistinct<T, K>(s: seq<T>, key: T -> K, k: K)
    requires KeysDistinct(s, key)
    ensures KeysDistinct(RemoveKey(s, key, k), key)
  {
    if |s| > 0 {
      RemoveKeyKeepsDistinct(s[1..], key, k);
      var rest := RemoveKey(s[1..], key, k);
      if key(s[0]) != k {
        forall j | 0 <= j < |rest|
          ensures key(s[0]) != key(rest[j])
        {
          assert rest[j] in s[1..];
          var m :| 0 <= m < |s[1..]| && s[1..][m] == rest[j];
          assert s[m + 1] == rest[j];
        }
        assert forall i, j :: 0 < i < j < |[s[0]] + rest| ==> ([s[0]] + rest)[i] == rest[i - 1] && ([s[0]] + rest)[j] == rest[j - 1];
      }
    }
  }

  /** The elements keyed differently from `x` keep their order: removing
      `x`'s key before or after the toggle gives the same list. */
  lemma ToggleKeepsOthersInOrder<T, K>(s: seq<T>, key: T -> K, x: T)
    ensures RemoveKey(Toggle(s, key, x), key, key(x)) == RemoveKey(s, key, key(x))
  {
    var k := key(x);
    if HasKey(s, key, k) {
      RemoveAbsentKey(RemoveKey(s, key, k), key, k);
    } else {
      RemoveKeyAppend(s, [x], key, k);
      RemoveAbsentKey(s, key, k);
    }
  }

  /** A toggle flips whether `x`'s key is present and no other key's presence. */
  lemma ToggleFlipsOneKey<T, K>(s: seq<T>, key: T -> K, x: T, k: K)
    ensures HasKey(Toggle(s, key, x), key, k) <==> (HasKey(s, key, k) != (k == key(x)))
  {
    var r := Toggle(s, key, x);
    if HasKey(s, key, key(x)) {
      if k != key(x) && HasKey(s, key, k) {
        var i :| 0 <= i < |s| && key(s[i]) == k;
        assert s[i] in r;
        var j :| 0 <= j < |r| && r[j] == s[i];
      }
      if HasKey(r, key, k) {
        var j :| 0 <= j < |r| && key(r[j]) == k;
        assert r[j] in s;
        var i :| 0 <= i < |s| && s[i] == r[j];
      }
    } else {
      assert r[|s|] == x;
      if HasKey(r, key, k) && k != key(x) {
        var j :| 0 <= j < |r| && key(r[j]) == k;
        assert j < |s| && r[j] == s[j];
      }
      if HasKey(s, key, k) {
        var i :| 0 <= i < |s| && key(s[i]) == k;
        assert r[i] == s[i];
      }
    }
  }

  /** A list without repeated keys stays so after a toggle. */
  lemma ToggleKeepsDistinct<T, K>(s: seq<T>, key: T -> K, x: T)
    requires KeysDistinct(s, key)
    ensures KeysDistinct(Toggle(s, key, x), key)
  {
    if HasKey(s, key, key(x)) {
      RemoveKeyKeepsDistinct(s, key, key(x));
    } else {
      var r := s + [x];
      forall i, j | 0 <= i < j < |r|
        ensures key(r[i]) != key(r[j])
      {
        if j == |s| {
          assert r[i] == s[i];
        }
      }
    }
  }

  /** Toggling an absent key twice restores the list exactly. */
  lemma ToggleAbsentTwice<T, K>(s: seq<T>, key: T -> K, x: T)
    requires !HasKey(s, key, key(x))
    ensures Toggle(Toggle(s, key, x), key, x) == s
  {
    var r := s + [x];
    assert r[|s|] == x;
    assert HasKey(r, key, key(x));
    RemoveKeyAppend(s, [x], key, key(x));
    RemoveAbsentKey(s, key, key(x));
    assert RemoveKey([x], key, key(x)) == [];
  }

  /** Toggling a present key twice drops every element with that key and
      appends `x` once at the end. */
  lemma TogglePresentTwice<T, K>(s: seq<T>, key: T -> K, x: T)
    requires HasKey(s, key, key(x))
    ensures Toggle(Toggle(s, key, x), key, x) == RemoveKey(s, key, key(x)) + [x]
  {
  }
}
