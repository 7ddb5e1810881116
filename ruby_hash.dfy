/** A model of Ruby's insertion-ordered `Hash` with symbol keys: the keys in
    the order they were first inserted, and the table that maps each key to its
    value. */
module RubyHash {

  /** A Ruby symbol, identified by its name. */
  type Symbol = string

  /** True if no element occurs twice in `s`. */
  ghost predicate Distinct<T>(s: seq<T>)
  {
    forall i, j :: 0 <= i < j < |s| ==> s[i] != s[j]
  }

  /** `keys` lists every element of `ks` exactly once. */
  ghost predicate Lists(keys: seq<Symbol>, ks: set<Symbol>)
    decreases |keys|
  {
    if |keys| == 0 then
      ks == {}
    else
      var last := keys[|keys| - 1];
      last in ks && Lists(keys[..|keys| - 1], ks - {last})
  }

  lemma {:induction false} ListsMembers(keys: seq<Symbol>, ks: set<Symbol>)
    requires Lists(keys, ks)
    ensures Distinct(keys)
    ensures forall k :: k in keys <==> k in ks
    decreases |keys|
  {
    if |keys| > 0 {
      var last := keys[|keys| - 1];
      var init := keys[..|keys| - 1];
      ListsMembers(init, ks - {last});
      assert keys == init + [last];
    }
  }

  lemma ListsAppend(keys: seq<Symbol>, ks: set<Symbol>, k: Symbol)
    requires Lists(keys, ks) && k !in ks
    ensures Lists(keys + [k], ks + {k})
  {
    assert (keys + [k])[..|keys|] == keys;
    assert ks + {k} - {k} == ks;
  }

  datatype Hash<V> = Hash(keys: seq<Symbol>, table: map<Symbol, V>) {

    /** Every key is listed once, and the listed keys are exactly the table's keys. */
    ghost predicate Valid()
    {
      Lists(keys, table.Keys)
    }
  }

  /** The facts `Valid` stands for. */
  lemma ValidMembers<V>(h: Hash<V>)
    requires h.Valid()
    ensures Distinct(h.keys)
    ensures forall k :: k in h.keys <==> k in h.table
  {
    ListsMembers(h.keys, h.table.Keys);
  }

  /** `{}`: the empty hash. */
  function Empty<V>(): (h: Hash<V>)
    ensures h.Valid()
    ensures h.table == map[] && |h.keys| == 0
  {
    Hash([], map[])
  }

  /** `h[k] = v`: a key already present keeps its position and gets the new
      value; a new key goes at the end. */
  function Store<V>(h: Hash<V>, k: Symbol, v: V): (r: Hash<V>)
    requires h.Valid()
    ensures r.Valid()
    ensures k in r.table && r.table[k] == v
    ensures k in h.table ==> r.keys == h.keys
    ensures k !in h.table ==> r.keys == h.keys + [k]
  {
    if k in h.table then
      assert h.table[k := v].Keys == h.table.Keys;
      Hash(h.keys, h.table[k := v])
    else
      ListsAppend(h.keys, h.table.Keys, k);
      assert h.table[k := v].Keys == h.table.Keys + {k};
      Hash(h.keys + [k], h.table[k := v])
  }

  /** `h[k] = v` leaves every other entry as it was. */
  lemma StoreFrame<V>(h: Hash<V>, k: Symbol, v: V)
    requires h.Valid()
    ensures forall j :: j in Store(h, k, v).table <==> j == k || j in h.table
    ensures forall j :: j != k && j in h.table ==> Store(h, k, v).table[j] == h.table[j]
  {
  }

  /** Storing the same value under the same key twice is the same as storing it once. */
  lemma StoreIdempotent<V>(h: Hash<V>, k: Symbol, v: V)
    requires h.Valid()
    ensures Store(Store(h, k, v), k, v) == Store(h, k, v)
  {
    assert Store(h, k, v).table[k := v] == Store(h, k, v).table;
  }

  /** `h.any?` without a block: some entry exists (an entry `[k, v]` is always truthy). */
  function Any<V>(h: Hash<V>): (r: bool)
    requires h.Valid()
    ensures r <==> exists k :: k in h.table
  {
    ValidMembers(h);
    if |h.keys| == 0 then
      false
    else
      assert h.keys[0] in h.table;
      true
  }

  /** `a` is what remains of `b` after deleting some of its elements: same
      elements, same relative order. */
  ghost predicate IsSubsequence<T>(a: seq<T>, b: seq<T>)
    decreases |b|
  {
    || |a| == 0
    || (&& |b| > 0
        && ((a[|a| - 1] == b[|b| - 1] && IsSubsequence(a[..|a| - 1], b[..|b| - 1]))
            || IsSubsequence(a, b[..|b| - 1])))
  }

}
