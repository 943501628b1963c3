/** The three list shapes the copy-on-write editor applies to quests, tasks
    and rewards, each element identified by a string key (its `id`):
    append (`xs + [x]`), remove-by-key (`[x for x in xs if x.id != k]`) and
    replace-by-key (`[u if x.id == k else x for x in xs]`). */
module KeyedLists {

  /** The keys of `xs`, in order. */
  function KeysOf<T>(xs: seq<T>, key: T -> string): (r: seq<string>)
    ensures |r| == |xs|
    ensures forall i :: 0 <= i < |xs| ==> r[i] == key(xs[i])
  {
    if xs == [] then [] else [key(xs[0])] + KeysOf(xs[1..], key)
  }

  /** No two elements share a key. */
  ghost predicate UniqueKeys<T>(xs: seq<T>, key: T -> string) {
    forall i, j :: 0 <= i < j < |xs| ==> key(xs[i]) != key(xs[j])
  }

  /** The elements whose key differs from `k`, in their original order. */
  function RemoveKey<T(==)>(xs: seq<T>, key: T -> string, k: string): (r: seq<T>)
    ensures |r| <= |xs|
    ensures forall i :: 0 <= i < |r| ==> r[i] in xs && key(r[i]) != k
    ensures forall i :: 0 <= i < |xs| && key(xs[i]) != k ==> xs[i] in r
  {
    if xs == [] then []
    else (if key(xs[0]) == k then [] else [xs[0]]) + RemoveKey(xs[1..], key, k)
  }

  /** Every element whose key is `k` replaced by `u`; the rest untouched. */
  function ReplaceKey<T>(xs: seq<T>, key: T -> string, k: string, u: T): (r: seq<T>)
    ensures |r| == |xs|
    ensures forall i :: 0 <= i < |xs| ==> r[i] == if key(xs[i]) == k then u else xs[i]
  {
    if xs == [] then [] else [if key(xs[0]) == k then u else xs[0]] + ReplaceKey(xs[1..], key, k, u)
  }

  /** Removal distributes over concatenation, so the kept elements keep their
      relative order. */
  lemma {:induction false} RemoveKeyAppend<T>(a: seq<T>, b: seq<T>, key: T -> string, k: string)
    ensures RemoveKey(a + b, key, k) == RemoveKey(a, key, k) + RemoveKey(b, key, k)
  {
    if a != [] {
      assert (a + b)[1..] == a[1..] + b;
      RemoveKeyAppend(a[1..], b, key, k);
    } else {
      assert a + b == b;
    }
  }

  /** Removing a key no element carries is a no-op. */
  lemma {:induction false} RemoveKeyAbsent<T>(xs: seq<T>, key: T -> string, k: string)
    requires k !in KeysOf(xs, key)
    ensures RemoveKey(xs, key, k) == xs
  {
    if xs != [] {
      assert KeysOf(xs, key)[1..] == KeysOf(xs[1..], key);
      RemoveKeyAbsent(xs[1..], key, k);
      assert xs == [xs[0]] + xs[1..];
    }
  }

  /** The result length is the input length less the number of elements with
      key `k`: every duplicate goes. */
  lemma {:induction false} RemoveKeyCount<T>(xs: seq<T>, key: T -> string, k: string)
    ensures |RemoveKey(xs, key, k)| == |xs| - multiset(KeysOf(xs, key))[k]
  {
    if xs != [] {
      RemoveKeyCount(xs[1..], key, k);
      assert KeysOf(xs, key) == [key(xs[0])] + KeysOf(xs[1..], key);
    }
  }

  /** Removing twice is removing once. */
  lemma RemoveKeyIdempotent<T>(xs: seq<T>, key: T -> string, k: string)
    ensures RemoveKey(RemoveKey(xs, key, k), key, k) == RemoveKey(xs, key, k)
  {
    var r := RemoveKey(xs, key, k);
    RemoveKeyAbsent(r, key, k);
  }

  /** Removing the key of an element just appended undoes the append. */
  lemma RemoveAfterAppend<T>(xs: seq<T>, x: T, key: T -> string)
    ensures RemoveKey(xs + [x], key, key(x)) == RemoveKey(xs, key, key(x))
  {
    RemoveKeyAppend(xs, [x], key, key(x));
    assert RemoveKey([x], key, key(x)) == [];
  }

  /** Removal never introduces a duplicate key. */
  lemma {:induction false} RemoveKeyKeepsUnique<T>(xs: seq<T>, key: T -> string, k: string)
    requires UniqueKeys(xs, key)
    ensures UniqueKeys(RemoveKey(xs, key, k), key)
  {
    if xs != [] {
      var rest := RemoveKey(xs[1..], key, k);
      RemoveKeyKeepsUnique(xs[1..], key, k);
      if key(xs[0]) != k {
        var r := [xs[0]] + rest;
        forall i, j | 0 <= i < j < |r| ensures key(r[i]) != key(r[j]) {
          if i == 0 {
            assert r[j] in xs[1..];
          } else {
            assert r[i] == rest[i - 1] && r[j] == rest[j - 1];
          }
        }
      }
    }
  }

  /** Replacing by an element with the same key leaves the key sequence as it
      was, so unique keys stay unique. */
  lemma ReplaceKeyKeepsKeys<T>(xs: seq<T>, key: T -> string, k: string, u: T)
    requires key(u) == k
    ensures KeysOf(ReplaceKey(xs, key, k, u), key) == KeysOf(xs, key)
    ensures UniqueKeys(xs, key) ==> UniqueKeys(ReplaceKey(xs, key, k, u), key)
  {
  }

  /** Replacing and then removing the same key is the same as removing it. */
  lemma {:induction false} RemoveAfterReplace<T>(xs: seq<T>, key: T -> string, k: string, u: T)
    requires key(u) == k
    ensures RemoveKey(ReplaceKey(xs, key, k, u), key, k) == RemoveKey(xs, key, k)
  {
    if xs != [] {
      var r := ReplaceKey(xs, key, k, u);
      assert r[1..] == ReplaceKey(xs[1..], key, k, u);
      RemoveAfterReplace(xs[1..], key, k, u);
    }
  }

  /** Appending keeps keys unique exactly when the new key is fresh. */
  lemma AppendKeepsUnique<T>(xs: seq<T>, x: T, key: T -> string)
    requires UniqueKeys(xs, key)
    ensures UniqueKeys(xs + [x], key) <==> key(x) !in KeysOf(xs, key)
  {
    var r := xs + [x];
    if key(x) in KeysOf(xs, key) {
      var i :| 0 <= i < |xs| && KeysOf(xs, key)[i] == key(x);
      assert key(r[i]) == key(r[|xs|]);
    }
  }
}
