/** Insertion-ordered maps, the model of a Ruby Hash: an association list in
    which the first entry for a key is the one that counts. `Put` is `h[k] = v`:
    it replaces the value of an existing key where it stands and appends a new
    key at the end. */
module OrderedMaps {
  import opened Wrappers

  type OMap<K, V> = seq<(K, V)>

  function Keys<K, V>(m: OMap<K, V>): (ks: seq<K>)
    ensures |ks| == |m|
    ensures forall i :: 0 <= i < |m| ==> ks[i] == m[i].0
  {
    if |m| == 0 then [] else [m[0].0] + Keys(m[1..])
  }

  predicate HasKey<K(==), V>(m: OMap<K, V>, k: K) {
    k in Keys(m)
  }

  /** `hash[k]`, None where Ruby would answer nil for a missing key. */
  function Get<K(==), V>(m: OMap<K, V>, k: K): (r: Option<V>)
    ensures r.Some? <==> HasKey(m, k)
  {
    if |m| == 0 then None
    else if m[0].0 == k then Some(m[0].1)
    else Get(m[1..], k)
  }

  /** No key occurs twice: what every Ruby Hash satisfies. */
  predicate UniqueKeys<K(==), V>(m: OMap<K, V>) {
    forall i, j :: 0 <= i < j < |m| ==> m[i].0 != m[j].0
  }

  /** `h[k] = v` */
  function Put<K(==), V>(m: OMap<K, V>, k: K, v: V): (r: OMap<K, V>)
    ensures Get(r, k) == Some(v)
  {
    if |m| == 0 then [(k, v)]
    else if m[0].0 == k then [(k, v)] + m[1..]
    else
      var rest := Put(m[1..], k, v);
      assert ([m[0]] + rest)[1..] == rest;
      [m[0]] + rest
  }

  /** A key not yet present is appended at the end. */
  lemma {:induction false} PutNew<K, V>(m: OMap<K, V>, k: K, v: V)
    requires !HasKey(m, k)
    ensures Put(m, k, v) == m + [(k, v)]
  {
    if |m| > 0 {
      AbsentTail(m, k);
      var t := m[1..];
      PutNew(t, k, v);
      assert Put(m, k, v) == [m[0]] + (t + [(k, v)]);
      AppendAssoc([m[0]], t, [(k, v)]);
      assert [m[0]] + t == m;
    }
  }

  /** A key absent from a map is not its first key and is absent from the rest. */
  lemma AbsentTail<K, V>(m: OMap<K, V>, k: K)
    requires |m| > 0 && !HasKey(m, k)
    ensures m[0].0 != k && !HasKey(m[1..], k)
  {
    assert Keys(m) == [m[0].0] + Keys(m[1..]);
  }

  /** `Put` leaves every other key's value alone. */
  lemma {:induction false} PutOther<K, V>(m: OMap<K, V>, k: K, v: V, k': K)
    requires k' != k
    ensures Get(Put(m, k, v), k') == Get(m, k')
  {
    if |m| > 0 && m[0].0 != k {
      PutOther(m[1..], k, v, k');
    }
  }

  /** Replacing an existing key keeps every key where it stood. */
  lemma {:induction false} PutKeepsKeys<K, V>(m: OMap<K, V>, k: K, v: V)
    requires HasKey(m, k)
    ensures Keys(Put(m, k, v)) == Keys(m)
  {
    if m[0].0 != k {
      PutKeepsKeys(m[1..], k, v);
    }
  }

  /** Maps with the same keys in the same order are alike in having
      distinct keys. */
  lemma SameKeysUnique<K, V>(m: OMap<K, V>, r: OMap<K, V>)
    requires UniqueKeys(m) && Keys(r) == Keys(m)
    ensures UniqueKeys(r)
  {
    forall i, j | 0 <= i < j < |r| ensures r[i].0 != r[j].0 {
      assert Keys(r)[i] == Keys(m)[i] && Keys(r)[j] == Keys(m)[j];
    }
  }

  /** Appending a new key keeps keys distinct. */
  lemma AppendUnique<K, V>(m: OMap<K, V>, k: K, v: V)
    requires UniqueKeys(m) && !HasKey(m, k)
    ensures UniqueKeys(m + [(k, v)])
  {
    assert forall i :: 0 <= i < |m| ==> Keys(m)[i] == m[i].0;
  }

  /** `Put` keeps a map's keys distinct. */
  lemma PutUnique<K, V>(m: OMap<K, V>, k: K, v: V)
    requires UniqueKeys(m)
    ensures UniqueKeys(Put(m, k, v))
  {
    if HasKey(m, k) {
      PutKeepsKeys(m, k, v);
      SameKeysUnique(m, Put(m, k, v));
    } else {
      PutNew(m, k, v);
      AppendUnique(m, k, v);
    }
  }

  /** `Get` answers the value of the first entry stored under the key. */
  lemma {:induction false} GetFound<K, V>(m: OMap<K, V>, k: K)
    requires HasKey(m, k)
    ensures exists i :: 0 <= i < |m| && m[i] == (k, Get(m, k).value) && forall j :: 0 <= j < i ==> m[j].0 != k
  {
    if m[0].0 == k {
      assert m[0] == (k, Get(m, k).value);
    } else {
      assert HasKey(m[1..], k);
      GetFound(m[1..], k);
      var i :| 0 <= i < |m[1..]| && m[1..][i] == (k, Get(m[1..], k).value) && forall j :: 0 <= j < i ==> m[1..][j].0 != k;
      assert m[i + 1] == (k, Get(m, k).value);
      assert forall j :: 0 <= j < i + 1 ==> m[j].0 != k by {
        forall j | 0 <= j < i + 1 ensures m[j].0 != k {
          if j > 0 { assert m[j] == m[1..][j - 1]; }
        }
      }
    }
  }

  /** In a map with distinct keys, `Get` finds the entry at every index. */
  lemma {:induction false} GetAt<K, V>(m: OMap<K, V>, i: nat)
    requires UniqueKeys(m) && i < |m|
    ensures Get(m, m[i].0) == Some(m[i].1)
  {
    if i > 0 {
      assert m[0].0 != m[i].0;
      GetAt(m[1..], i - 1);
    }
  }

  /** Appending an entry appends its key. */
  lemma KeysAppend<K, V>(m: OMap<K, V>, k: K, v: V)
    ensures Keys(m + [(k, v)]) == Keys(m) + [k]
    ensures forall k' :: HasKey(m + [(k, v)], k') <==> HasKey(m, k') || k' == k
  {
    assert Keys(m + [(k, v)]) == Keys(m) + [k];
  }

  /** The keys after `Put` are the old keys and the one put. */
  lemma PutHasKey<K, V>(m: OMap<K, V>, k: K, v: V)
    ensures forall k' :: HasKey(Put(m, k, v), k') <==> HasKey(m, k') || k' == k
  {
    if HasKey(m, k) {
      PutKeepsKeys(m, k, v);
    } else {
      PutNew(m, k, v);
      KeysAppend(m, k, v);
    }
  }

  /** No element occurs twice. */
  predicate Distinct<T(==)>(s: seq<T>) {
    forall j, l :: 0 <= j < l < |s| ==> s[j] != s[l]
  }

  /** A map built by putting keys in order: for each of the first `i` keys
      it holds exactly what `vals` says (None: the key was left out), and it
      holds no other key. */
  ghost predicate Filled<K(!new), V>(keys: seq<K>, vals: seq<Option<V>>, i: nat, acc: OMap<K, V>)
    requires |vals| == |keys| && i <= |keys|
  {
    && (forall j :: 0 <= j < i ==> Get(acc, keys[j]) == vals[j])
    && (forall k :: HasKey(acc, k) ==> (exists j :: 0 <= j < i && k == keys[j]))
  }

  /** Putting (or leaving out) the next key keeps a map filled. */
  lemma FilledStep<K(!new), V>(keys: seq<K>, vals: seq<Option<V>>, i: nat, acc: OMap<K, V>)
    requires |vals| == |keys| && i < |keys| && Distinct(keys)
    requires Filled(keys, vals, i, acc)
    ensures Filled(keys, vals, i + 1, if vals[i].Some? then Put(acc, keys[i], vals[i].value) else acc)
  {
    if vals[i].Some? {
      var acc' := Put(acc, keys[i], vals[i].value);
      PutHasKey(acc, keys[i], vals[i].value);
      forall j | 0 <= j < i
        ensures Get(acc', keys[j]) == vals[j]
      {
        PutOther(acc, keys[i], vals[i].value, keys[j]);
      }
      forall k | HasKey(acc', k)
        ensures exists j :: 0 <= j < i + 1 && k == keys[j]
      {
        if k != keys[i] {
          assert HasKey(acc, k);
        }
      }
    } else {
      assert !HasKey(acc, keys[i]);
    }
  }

  lemma AppendAssoc<T>(a: seq<T>, b: seq<T>, c: seq<T>)
    ensures (a + b) + c == a + (b + c)
  {
  }
}
