/** What every part of the model shares. */
module Common {
  datatype Option<+T> = None | Some(value: T)

  /** A map with a value for each of the keys. */
  ghost function MapOf<K(!new), V(!new)>(keys: set<K>, f: K -> V): (m: map<K, V>)
    ensures m.Keys == keys && forall k | k in keys :: m[k] == f(k)
  {
    MapOfExists(keys, f);
    var m: map<K, V> :| m.Keys == keys && forall k | k in keys :: m[k] == f(k);
    m
  }

  lemma {:induction false} MapOfExists<K(!new), V(!new)>(keys: set<K>, f: K -> V)
    ensures exists m: map<K, V> :: m.Keys == keys && forall k | k in keys :: m[k] == f(k)
  {
    if keys == {} {
      var none: map<K, V> := map[];
      assert none.Keys == keys;
    } else {
      var k :| k in keys;
      MapOfExists(keys - {k}, f);
      var m: map<K, V> :| m.Keys == keys - {k} && forall x | x in keys - {k} :: m[x] == f(x);
      var more := m[k := f(k)];
      assert more.Keys == keys;
    }
  }

  function Pow256(n: nat): (p: nat)
    ensures p > 0
  {
    if n == 0 then 1 else 256 * Pow256(n - 1)
  }
}
