/** A plain JavaScript object used as a dictionary (`players`,
    `gameState.monsterCounts`): string keys, each present once, enumerated by
    `Object.keys` and `for…in` in the order they were first added. */
module JsObject {

  datatype Dict<V> = Dict(keys: seq<string>, entries: map<string, V>)

  predicate Distinct(s: seq<string>) {
    forall i, j :: 0 <= i < j < |s| ==> s[i] != s[j]
  }

  /** The key order lists exactly the keys of the entries, each once. */
  ghost predicate Ok<V>(d: Dict<V>) {
    Distinct(d.keys) && forall k :: k in d.entries <==> k in d.keys
  }

  /** `{}` */
  function Empty<V>(): (d: Dict<V>)
    ensures Ok(d) && |d.keys| == 0 && d.entries == map[]
  {
    Dict([], map[])
  }

  /** `d[k] = v`: a new key is enumerated last, an existing key keeps its
      place in the order. */
  function Put<V>(d: Dict<V>, k: string, v: V): (r: Dict<V>)
    requires Ok(d)
    ensures Ok(r)
    ensures r.entries == d.entries[k := v]
    ensures k in d.entries ==> r.keys == d.keys
    ensures k !in d.entries ==> r.keys == d.keys + [k]
  {
    if k in d.entries then Dict(d.keys, d.entries[k := v])
    else Dict(d.keys + [k], d.entries[k := v])
  }

  /** `s` without the occurrences of `k`, the others in their order. */
  function Without(s: seq<string>, k: string): (r: seq<string>)
    ensures forall x :: x in r <==> x in s && x != k
    ensures Distinct(s) ==> Distinct(r)
  {
    if s == [] then []
    else if s[0] == k then Without(s[1..], k)
    else
      var rest := Without(s[1..], k);
      assert Distinct(s) ==> s[0] !in s[1..];
      [s[0]] + rest
  }

  /** `delete d[k]`: the key leaves the order and the entries; every other
      key keeps its value and its place in the order. Deleting an absent key
      changes nothing. */
  function Delete<V>(d: Dict<V>, k: string): (r: Dict<V>)
    requires Ok(d)
    ensures Ok(r)
    ensures r.entries == d.entries - {k}
    ensures forall i :: 0 <= i < |d.keys| && d.keys[i] == k ==> r.keys == d.keys[..i] + d.keys[i+1..]
    ensures k !in d.entries ==> r == d
  {
    WithoutKeepsOrder(d.keys, k);
    Dict(Without(d.keys, k), d.entries - {k})
  }

  /** Removing a key that is absent changes nothing; removing the one
      occurrence of a key keeps the others in their order. */
  lemma WithoutKeepsOrder(s: seq<string>, k: string)
    ensures k !in s ==> Without(s, k) == s
    ensures Distinct(s) ==> forall i :: 0 <= i < |s| && s[i] == k ==> Without(s, k) == s[..i] + s[i+1..]
  {
    if k !in s {
      WithoutAbsent(s, k);
    }
    if Distinct(s) {
      forall i | 0 <= i < |s| && s[i] == k {
        WithoutAt(s, k, i);
      }
    }
  }

  /** Removing the one occurrence of `k` from a sequence without repetitions
      keeps the others in their order. */
  lemma {:induction false} WithoutAt(s: seq<string>, k: string, i: int)
    requires Distinct(s) && 0 <= i < |s| && s[i] == k
    ensures Without(s, k) == s[..i] + s[i+1..]
  {
    if i == 0 {
      assert k !in s[1..];
      WithoutAbsent(s[1..], k);
    } else {
      WithoutAt(s[1..], k, i - 1);
      assert s[..i] == [s[0]] + s[1..][..i - 1];
      assert s[i+1..] == s[1..][i..];
    }
  }

  lemma {:induction false} WithoutAbsent(s: seq<string>, k: string)
    requires k !in s
    ensures Without(s, k) == s
  {
    if s != [] {
      WithoutAbsent(s[1..], k);
    }
  }

  /** A sequence without repetitions has as many elements as its set. */
  lemma {:induction false} DistinctCard(s: seq<string>)
    requires Distinct(s)
    ensures |set x | x in s| == |s|
  {
    if s != [] {
      DistinctCard(s[1..]);
      assert (set x | x in s) == {s[0]} + (set x | x in s[1..]);
      assert s[0] !in s[1..];
    }
  }
}
