/** Datatypes, and facts about counting and products, shared by the other modules. */
module Prelude {

  datatype Option<+T> = None | Some(value: T)

  datatype Result<+T, +E> = Ok(value: T) | Err(error: E)

  lemma ValuesWithout<K, V>(m: map<K, V>, k: K)
    requires k in m && forall j :: j in m && m[j] == m[k] ==> j == k
    ensures m[k] !in (m - {k}).Values
    ensures m.Values == (m - {k}).Values + {m[k]}
  {
    var rest := m - {k};
    forall v | v in m.Values
      ensures v in rest.Values + {m[k]}
    {
      var j :| j in m && m[j] == v;
      if j != k {
        assert j in rest && rest[j] == v;
      }
    }
  }

  /** An injective map has as many values as keys. */
  lemma {:induction false} InjectiveMapSize<K, V>(m: map<K, V>)
    requires forall j, k :: j in m && k in m && m[j] == m[k] ==> j == k
    ensures |m.Values| == |m.Keys|
  {
    if m.Keys == {} {
      assert m.Values == {};
    } else {
      var k :| k in m.Keys;
      var rest := m - {k};
      assert rest.Keys == m.Keys - {k};
      InjectiveMapSize(rest);
      ValuesWithout(m, k);
    }
  }

  /** How many elements of `s` satisfy `p`. */
  ghost function Count<T>(s: seq<T>, p: T -> bool): nat {
    if s == [] then 0 else Count(s[..|s| - 1], p) + if p(s[|s| - 1]) then 1 else 0
  }

  /** Replacing one element moves the count by what that element contributed. */
  lemma {:induction false} CountUpdate<T>(s: seq<T>, i: nat, x: T, p: T -> bool)
    requires i < |s|
    ensures Count(s[i := x], p) == Count(s, p) - (if p(s[i]) then 1 else 0) + (if p(x) then 1 else 0)
  {
    var last := |s| - 1;
    if i == last {
      assert s[i := x][..last] == s[..last];
    } else {
      assert s[i := x][..last] == s[..last][i := x];
      CountUpdate(s[..last], i, x, p);
    }
  }

  lemma TimesSuccessor(a: nat, n: nat)
    ensures a * (n + 1) == a * n + a
  {
  }

  lemma TimesIsMonotone(a: nat, b: nat, n: nat)
    ensures a <= b ==> a * n <= b * n
  {
  }
}
