/** Amounts gathered by key in a map, as the program's reports gather them, and what they come
    to over a list of the keys. */
module Tally {
  function Value<K>(m: map<K, int>, k: K): int {
    if k in m then m[k] else 0
  }

  function Add<K>(m: map<K, int>, k: K, amount: int): map<K, int> {
    m[k := Value(m, k) + amount]
  }

  function Total<K>(keys: seq<K>, m: map<K, int>): int {
    if keys == [] then 0 else Total(keys[..|keys| - 1], m) + Value(m, keys[|keys| - 1])
  }

  predicate Distinct<K(==)>(keys: seq<K>) {
    forall i, j :: 0 <= i < j < |keys| ==> keys[i] != keys[j]
  }

  lemma DistinctJoin<K>(a: seq<K>, b: seq<K>)
    requires Distinct(a) && Distinct(b) && forall x :: x in b ==> x !in a
    ensures Distinct(a + b)
  {
    var s := a + b;
    forall i, j | 0 <= i < j < |s| ensures s[i] != s[j] {
      if i < |a| <= j {
        assert s[j] in b && s[i] in a;
      }
    }
  }

  /** An amount added under a key counts once in every list that names the key once, and not at
      all in one that does not name it. */
  lemma {:induction false} AddCounts<K>(keys: seq<K>, m: map<K, int>, k: K, amount: int)
    requires Distinct(keys)
    ensures Total(keys, Add(m, k, amount)) == Total(keys, m) + (if k in keys then amount else 0)
    decreases |keys|
  {
    if keys != [] {
      var n := |keys| - 1;
      AddCounts(keys[..n], m, k, amount);
      assert keys == keys[..n] + [keys[n]];
    }
  }

  lemma {:induction false} TotalOfNone<K>(keys: seq<K>)
    ensures Total(keys, map[]) == 0
    decreases |keys|
  {
    if keys != [] {
      TotalOfNone(keys[..|keys| - 1]);
    }
  }
}
