/**
 * A JavaScript object used as a dictionary from string keys to values, as
 * built by `Object.fromEntries(data.map(v => [key(v), v]))` or by assigning
 * `map[key(v)] = v` for each element in turn. Later assignments to a key
 * overwrite earlier ones, while the key keeps the position of its first
 * insertion, which is the order `Object.values` lists the entries in.
 */
module Records {

  /** The set of keys the elements of `data` produce. */
  ghost function KeysOf<T>(data: seq<T>, key: T -> string): set<string> {
    set x | x in data :: key(x)
  }

  /** The dictionary built by assigning every element of `data` under its key, in order. */
  function IndexBy<T>(data: seq<T>, key: T -> string): (m: map<string, T>)
    ensures m.Keys == KeysOf(data, key)
    ensures forall k :: k in m ==> key(m[k]) == k && m[k] in data
  {
    if data == [] then map[]
    else
      var init := data[..|data| - 1];
      var last := data[|data| - 1];
      assert data == init + [last];
      IndexBy(init, key)[key(last) := last]
  }

  /** Among the elements sharing a key, the one assigned last is the one kept. */
  lemma {:induction false} IndexByLastWins<T>(data: seq<T>, key: T -> string, j: nat)
    requires j < |data|
    requires forall j' :: j < j' < |data| ==> key(data[j']) != key(data[j])
    ensures key(data[j]) in IndexBy(data, key)
    ensures IndexBy(data, key)[key(data[j])] == data[j]
  {
    var init := data[..|data| - 1];
    if j < |data| - 1 {
      assert init[j] == data[j];
      IndexByLastWins(init, key, j);
    }
  }

  /** No key occurs twice. */
  predicate Distinct(ks: seq<string>) {
    forall i, j :: 0 <= i < j < |ks| ==> ks[i] != ks[j]
  }

  /** The keys of `IndexBy(data, key)` in the order they were first inserted. */
  function InsertionKeys<T>(data: seq<T>, key: T -> string): (ks: seq<string>)
    ensures Distinct(ks)
    ensures forall k :: k in ks <==> k in KeysOf(data, key)
  {
    if data == [] then []
    else
      var init := data[..|data| - 1];
      var last := data[|data| - 1];
      assert data == init + [last];
      var ks := InsertionKeys(init, key);
      if key(last) in ks then ks else ks + [key(last)]
  }

  /** A sequence without repeats has as many elements as the set of its elements. */
  lemma {:induction false} DistinctCardinality(ks: seq<string>)
    requires Distinct(ks)
    ensures |set k | k in ks| == |ks|
  {
    if ks != [] {
      var init := ks[..|ks| - 1];
      DistinctCardinality(init);
      assert ks == init + [ks[|ks| - 1]];
      assert (set k | k in ks) == (set k | k in init) + {ks[|ks| - 1]};
    }
  }

  /** `Object.values(IndexBy(data, key))`: each key's final value, in insertion order. */
  function Values<T>(data: seq<T>, key: T -> string): (vs: seq<T>)
    ensures |vs| == |IndexBy(data, key)| == |InsertionKeys(data, key)|
    ensures forall i :: 0 <= i < |vs| ==> vs[i] == IndexBy(data, key)[InsertionKeys(data, key)[i]]
  {
    var m := IndexBy(data, key);
    var ks := InsertionKeys(data, key);
    assert forall i :: 0 <= i < |ks| ==> ks[i] in m;
    assert |m| == |ks| by {
      DistinctCardinality(ks);
      assert (set k | k in ks) == m.Keys;
      assert |m| == |m.Keys|;
    }
    seq(|ks|, i requires 0 <= i < |ks| => m[ks[i]])
  }
}
