/** Python's insertion-ordered `dict` with string keys, as a sequence of entries: assigning to
    an existing key replaces its value where it stands, assigning to a new
    key appends an entry. */
module Dicts {
  import opened Wrappers

  type Dict<V> = seq<(string, V)>

  /** The keys, in insertion order. */
  function Keys<V>(d: Dict<V>): seq<string> {
    seq(|d|, i requires 0 <= i < |d| => d[i].0)
  }

  lemma KeysCons<V>(d: Dict<V>)
    requires d != []
    ensures Keys(d) == [d[0].0] + Keys(d[1..])
  {
  }

  ghost predicate KeysUnique<V>(d: Dict<V>) {
    forall i, j :: 0 <= i < j < |d| ==> d[i].0 != d[j].0
  }

  /** `d.get(k)` */
  function Get<V>(d: Dict<V>, k: string): (r: Option<V>)
    ensures r.None? <==> k !in Keys(d)
    ensures r.Some? ==> (k, r.value) in d
  {
    if d == [] then None
    else if d[0].0 == k then assert Keys(d)[0] == k; Some(d[0].1)
    else KeysCons(d); Get(d[1..], k)
  }

  /** `d[k] = v` */
  function Put<V>(d: Dict<V>, k: string, v: V): (r: Dict<V>)
    ensures k in Keys(d) ==> Keys(r) == Keys(d)
    ensures k !in Keys(d) ==> r == d + [(k, v)]
  {
    if d == [] then [(k, v)]
    else if d[0].0 == k then KeysCons(d); KeysCons([(k, v)] + d[1..]); [(k, v)] + d[1..]
    else
      var rest := Put(d[1..], k, v);
      KeysCons(d);
      KeysCons([d[0]] + rest);
      assert ([d[0]] + rest)[1..] == rest;
      [d[0]] + rest
  }

  /** After `d[k] = v`, looking up `k` gives `v` and every other key gives
      what it gave before. */
  lemma {:induction false} GetPut<V>(d: Dict<V>, k: string, v: V, k': string)
    ensures Get(Put(d, k, v), k') == if k' == k then Some(v) else Get(d, k')
  {
    if d != [] && d[0].0 != k {
      GetPut(d[1..], k, v, k');
    }
  }

  /** Assignment never creates a second entry for a key. */
  lemma PutKeepsUnique<V>(d: Dict<V>, k: string, v: V)
    requires KeysUnique(d)
    ensures KeysUnique(Put(d, k, v))
  {
    var r := Put(d, k, v);
    if k in Keys(d) {
      forall i, j | 0 <= i < j < |r| ensures r[i].0 != r[j].0 {
        assert Keys(r)[i] == Keys(d)[i] && Keys(r)[j] == Keys(d)[j];
      }
    }
  }

  /** The dictionary built by assigning the pairs in order. */
  function FromPairs<V>(ps: seq<(string, V)>): Dict<V> {
    if ps == [] then []
    else
      var last := ps[|ps| - 1];
      Put(FromPairs(ps[..|ps| - 1]), last.0, last.1)
  }

  /** With distinct keys, assigning the pairs in order yields exactly the
      pairs, in order. */
  lemma {:induction false} FromDistinctPairs<V>(ps: seq<(string, V)>)
    requires KeysUnique(ps)
    ensures FromPairs(ps) == ps
  {
    if ps != [] {
      var init := ps[..|ps| - 1];
      FromDistinctPairs(init);
      var last := ps[|ps| - 1];
      assert init + [last] == ps;
    }
  }

  /** The keys of `FromPairs(ps)` are unique. */
  lemma {:induction false} FromPairsUnique<V>(ps: seq<(string, V)>)
    ensures KeysUnique(FromPairs(ps))
  {
    if ps != [] {
      FromPairsUnique(ps[..|ps| - 1]);
      var last := ps[|ps| - 1];
      PutKeepsUnique(FromPairs(ps[..|ps| - 1]), last.0, last.1);
    }
  }

  /** Assigning one more pair. */
  lemma FromPairsSnoc<V>(ps: seq<(string, V)>, k: string, v: V)
    ensures FromPairs(ps + [(k, v)]) == Put(FromPairs(ps), k, v)
  {
    assert (ps + [(k, v)])[..|ps|] == ps;
  }

  /** The keys of `FromPairs(ps)` are the keys of `ps`. */
  lemma FromPairsKeys<V>(ps: seq<(string, V)>)
    ensures forall k :: k in Keys(FromPairs(ps)) <==> k in Keys(ps)
  {
    forall k ensures k in Keys(FromPairs(ps)) <==> k in Keys(ps) {
      FromPairsHasKey(ps, k);
    }
  }

  lemma {:induction false} FromPairsHasKey<V>(ps: seq<(string, V)>, k: string)
    ensures k in Keys(FromPairs(ps)) <==> k in Keys(ps)
  {
    if ps != [] {
      var init, last := ps[..|ps| - 1], ps[|ps| - 1];
      FromPairsHasKey(init, k);
      KeysInit(ps);
      if last.0 !in Keys(FromPairs(init)) {
        KeysSnoc(FromPairs(init), last);
      }
    }
  }

  lemma KeysInit<V>(d: Dict<V>)
    requires d != []
    ensures Keys(d) == Keys(d[..|d| - 1]) + [d[|d| - 1].0]
  {
    var init := d[..|d| - 1];
    var r := Keys(init) + [d[|d| - 1].0];
    forall i | 0 <= i < |d| ensures Keys(d)[i] == r[i] {
      if i < |init| {
        assert init[i] == d[i];
      }
    }
  }

  lemma KeysSnoc<V>(d: Dict<V>, e: (string, V))
    ensures Keys(d + [e]) == Keys(d) + [e.0]
  {
    assert forall i :: 0 <= i < |d| ==> (d + [e])[i] == d[i];
  }
}
