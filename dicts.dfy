/** Insertion-ordered string-keyed dictionaries: the model of a plain
    JavaScript object used as a record, whose `Object.keys` order is the
    order in which keys were first assigned. */
module Dicts {
  import opened Wrappers

  predicate NoDuplicates<T(==)>(s: seq<T>) {
    forall i, j :: 0 <= i < j < |s| ==> s[i] != s[j]
  }

  lemma NoDuplicatesCons<T>(x: T, s: seq<T>)
    ensures x !in s && NoDuplicates(s) ==> NoDuplicates([x] + s)
  {
  }

  lemma NoDuplicatesTail<T>(s: seq<T>)
    requires s != []
    ensures NoDuplicates(s) ==> s[0] !in s[1..] && NoDuplicates(s[1..])
  {
  }

  /** `keys` is the enumeration order (`Object.keys`), `items` the contents. */
  datatype Dict<V> = Dict(keys: seq<string>, items: map<string, V>)

  /** Each key is listed once, and exactly the present keys are listed. */
  ghost predicate Valid<V>(d: Dict<V>) {
    NoDuplicates(d.keys) && forall k :: k in d.items <==> k in d.keys
  }

  /** `{}` */
  function Empty<V>(): (d: Dict<V>)
    ensures Valid(d) && d.keys == [] && d.items == map[]
  {
    Dict([], map[])
  }

  /** `d[k]`, with `None` for `undefined`. */
  function Get<V>(d: Dict<V>, k: string): (r: Option<V>)
    ensures r.Some? <==> k in d.items
    ensures r.Some? ==> r.value == d.items[k]
  {
    if k in d.items then Some(d.items[k]) else None
  }

  /** `d[k] = v`: an existing key keeps its place in the enumeration order,
      a new key goes last. */
  function Put<V>(d: Dict<V>, k: string, v: V): (r: Dict<V>)
    ensures r.items == d.items[k := v]
    ensures k in d.items ==> r.keys == d.keys
    ensures k !in d.items ==> r.keys == d.keys + [k]
    ensures Valid(d) ==> Valid(r)
  {
    if k in d.items then Dict(d.keys, d.items[k := v]) else Dict(d.keys + [k], d.items[k := v])
  }

  /** The elements of `s` other than `x`, in their order. */
  function Without(s: seq<string>, x: string): (r: seq<string>)
    ensures forall y :: y in r <==> y in s && y != x
    ensures NoDuplicates(s) ==> NoDuplicates(r)
    ensures x !in s ==> r == s
  {
    if s == [] then []
    else if s[0] == x then Without(s[1..], x)
    else
      var rest := Without(s[1..], x);
      NoDuplicatesTail(s);
      NoDuplicatesCons(s[0], rest);
      [s[0]] + rest
  }

  /** `delete d[k]` */
  function Remove<V>(d: Dict<V>, k: string): (r: Dict<V>)
    ensures r.items == d.items - {k}
    ensures r.keys == Without(d.keys, k)
    ensures Valid(d) ==> Valid(r)
  {
    Dict(Without(d.keys, k), d.items - {k})
  }

  /** The elements of `s` that are not keys of `m`, in their order. */
  function NotIn<V>(s: seq<string>, m: map<string, V>): (r: seq<string>)
    ensures forall y :: y in r <==> y in s && y !in m
    ensures NoDuplicates(s) ==> NoDuplicates(r)
  {
    if s == [] then []
    else if s[0] in m then NotIn(s[1..], m)
    else
      var rest := NotIn(s[1..], m);
      NoDuplicatesTail(s);
      NoDuplicatesCons(s[0], rest);
      [s[0]] + rest
  }

  /** Assigns the keys `ks` of `m` into `d`, one after the other. */
  function PutAll<V>(d: Dict<V>, ks: seq<string>, m: map<string, V>): Dict<V>
    requires forall k :: k in ks ==> k in m
    decreases |ks|
  {
    if ks == [] then d else PutAll(Put(d, ks[0], m[ks[0]]), ks[1..], m)
  }

  lemma {:induction false} NotInIgnoresAbsent<V>(s: seq<string>, m: map<string, V>, x: string, v: V)
    requires x !in s
    ensures NotIn(s, m[x := v]) == NotIn(s, m)
  {
    if s != [] {
      NotInIgnoresAbsent(s[1..], m, x, v);
    }
  }

  /** The keys `PutAll` adds follow `d`'s keys, in the order of `ks`. */
  lemma {:induction false} PutAllKeys<V>(d: Dict<V>, ks: seq<string>, m: map<string, V>)
    requires NoDuplicates(ks)
    requires forall k :: k in ks ==> k in m
    ensures PutAll(d, ks, m).keys == d.keys + NotIn(ks, d.items)
    decreases |ks|
  {
    if ks != [] {
      var x := ks[0];
      var d' := Put(d, x, m[x]);
      NoDuplicatesTail(ks);
      NotInIgnoresAbsent(ks[1..], d.items, x, m[x]);
      PutAllKeys(d', ks[1..], m);
      PutKeysThenNotIn(d, ks, m[x]);
    }
  }

  /** The key order after assigning the first of `ks`, then adding the
      absent rest, is `d`'s keys and then the absent keys of `ks`. */
  lemma PutKeysThenNotIn<V>(d: Dict<V>, ks: seq<string>, v: V)
    requires ks != []
    ensures Put(d, ks[0], v).keys + NotIn(ks[1..], d.items) == d.keys + NotIn(ks, d.items)
  {
    var rest := NotIn(ks[1..], d.items);
    if ks[0] !in d.items {
      assert NotIn(ks, d.items) == [ks[0]] + rest;
      assert (d.keys + [ks[0]]) + rest == d.keys + ([ks[0]] + rest);
    }
  }

  /** After `PutAll`, exactly the keys of `d` and of `ks` are present, the
      assigned ones with `m`'s values. */
  lemma {:induction false} PutAllItems<V>(d: Dict<V>, ks: seq<string>, m: map<string, V>)
    requires forall k :: k in ks ==> k in m
    ensures PutAll(d, ks, m).items == d.items + map k | k in ks :: m[k]
    decreases |ks|
  {
    if ks != [] {
      var x := ks[0];
      PutAllItems(Put(d, x, m[x]), ks[1..], m);
      AssignThenUnion(d.items, ks, m);
    }
  }

  /** Assigning the first key, then the rest, is assigning all of them. */
  lemma AssignThenUnion<V>(a: map<string, V>, ks: seq<string>, m: map<string, V>)
    requires ks != [] && forall k :: k in ks ==> k in m
    ensures a[ks[0] := m[ks[0]]] + (map k | k in ks[1..] :: m[k]) == a + map k | k in ks :: m[k]
  {
    var left := a[ks[0] := m[ks[0]]] + (map k | k in ks[1..] :: m[k]);
    var right := a + map k | k in ks :: m[k];
    assert forall k :: k in ks <==> k == ks[0] || k in ks[1..];
    assert left.Keys == right.Keys;
    forall k | k in left.Keys
      ensures left[k] == right[k]
    {
    }
  }

  lemma {:induction false} PutAllValid<V>(d: Dict<V>, ks: seq<string>, m: map<string, V>)
    requires forall k :: k in ks ==> k in m
    ensures Valid(d) ==> Valid(PutAll(d, ks, m))
    decreases |ks|
  {
    if ks != [] {
      PutAllValid(Put(d, ks[0], m[ks[0]]), ks[1..], m);
    }
  }

  /** `{...a, ...b}`: every key of `b` takes `b`'s value, keys only in `a`
      keep theirs; `a`'s keys keep their order and `b`'s new keys follow in
      `b`'s order. */
  function Merge<V>(a: Dict<V>, b: Dict<V>): (r: Dict<V>)
    requires Valid(b)
    ensures r.items == a.items + b.items
    ensures r.keys == a.keys + NotIn(b.keys, a.items)
    ensures Valid(a) ==> Valid(r)
  {
    PutAllMerges(a, b);
    PutAll(a, b.keys, b.items)
  }

  lemma PutAllMerges<V>(a: Dict<V>, b: Dict<V>)
    requires Valid(b)
    ensures PutAll(a, b.keys, b.items).items == a.items + b.items
    ensures PutAll(a, b.keys, b.items).keys == a.keys + NotIn(b.keys, a.items)
    ensures Valid(a) ==> Valid(PutAll(a, b.keys, b.items))
  {
    PutAllItems(a, b.keys, b.items);
    PutAllKeys(a, b.keys, b.items);
    PutAllValid(a, b.keys, b.items);
    KeyedComprehension(b);
  }

  lemma KeyedComprehension<V>(b: Dict<V>)
    requires Valid(b)
    ensures (map k | k in b.keys :: b.items[k]) == b.items
  {
    var m := map k | k in b.keys :: b.items[k];
    assert m.Keys == b.items.Keys;
    forall k | k in m
      ensures m[k] == b.items[k]
    {
    }
  }

  lemma {:induction false} NotInConcat<V>(s: seq<string>, t: seq<string>, m: map<string, V>)
    ensures NotIn(s + t, m) == NotIn(s, m) + NotIn(t, m)
  {
    if s == [] {
      assert s + t == t;
    } else {
      assert (s + t)[0] == s[0] && (s + t)[1..] == s[1..] + t;
      NotInConcat(s[1..], t, m);
      if s[0] !in m {
        assert NotIn(s + t, m) == [s[0]] + NotIn(s[1..] + t, m);
      }
    }
  }

  lemma {:induction false} NotInTwice<V>(s: seq<string>, a: map<string, V>, x: map<string, V>)
    ensures NotIn(NotIn(s, a), x) == NotIn(s, x + a)
  {
    if s != [] {
      NotInTwice(s[1..], a, x);
    }
  }

  lemma MapUnionAssociative<V>(x: map<string, V>, a: map<string, V>, b: map<string, V>)
    ensures (x + a) + b == x + (a + b)
  {
  }

  lemma KeyOrderAssociative<V>(xk: seq<string>, xm: map<string, V>, ak: seq<string>, am: map<string, V>, bk: seq<string>)
    ensures (xk + NotIn(ak, xm)) + NotIn(bk, xm + am) == xk + NotIn(ak + NotIn(bk, am), xm)
  {
    NotInConcat(ak, NotIn(bk, am), xm);
    NotInTwice(bk, am, xm);
  }

  lemma MergeKeysAssociative<V>(x: Dict<V>, a: Dict<V>, b: Dict<V>)
    requires Valid(a) && Valid(b)
    ensures Merge(Merge(x, a), b).keys == Merge(x, Merge(a, b)).keys
  {
    KeyOrderAssociative(x.keys, x.items, a.keys, a.items, b.keys);
  }

  /** Spreading `a` and then `b` over `x` is spreading `{...a, ...b}` over it. */
  lemma MergeAssociative<V>(x: Dict<V>, a: Dict<V>, b: Dict<V>)
    requires Valid(a) && Valid(b)
    ensures Merge(Merge(x, a), b) == Merge(x, Merge(a, b))
  {
    MergeKeysAssociative(x, a, b);
    MapUnionAssociative(x.items, a.items, b.items);
  }

  /** The same keys, in the same order, each value transformed by `f`. */
  function MapValues<U, V>(d: Dict<U>, f: U -> V): (r: Dict<V>)
    ensures r.keys == d.keys
    ensures r.items.Keys == d.items.Keys
    ensures forall k :: k in d.items ==> r.items[k] == f(d.items[k])
    ensures Valid(d) ==> Valid(r)
  {
    Dict(d.keys, map k | k in d.items :: f(d.items[k]))
  }

  /** `acc` holds the first `i` keys of `d`, in order, each value
      transformed by `f`: the state of a loop building `MapValues(d, f)`. */
  ghost predicate MappedPrefix<U, V>(acc: Dict<V>, d: Dict<U>, f: U -> V, i: nat)
    requires Valid(d)
  {
    && i <= |d.keys|
    && acc.keys == d.keys[..i]
    && acc.items == map k | k in d.keys[..i] :: f(d.items[k])
  }

  /** Assigning the next key's transformed value extends the prefix. */
  lemma MappedPrefixStep<U, V>(acc: Dict<V>, d: Dict<U>, f: U -> V, i: nat)
    requires Valid(d) && i < |d.keys| && MappedPrefix(acc, d, f, i)
    ensures MappedPrefix(Put(acc, d.keys[i], f(d.items[d.keys[i]])), d, f, i + 1)
  {
    var key := d.keys[i];
    assert key !in d.keys[..i];
    assert d.keys[..i + 1] == d.keys[..i] + [key];
  }

  /** Once every key is in, the loop has built `MapValues(d, f)`. */
  lemma MappedPrefixAll<U, V>(acc: Dict<V>, d: Dict<U>, f: U -> V)
    requires Valid(d) && MappedPrefix(acc, d, f, |d.keys|)
    ensures acc == MapValues(d, f)
  {
    assert d.keys[..|d.keys|] == d.keys;
  }

  /** A second assignment to the same key overwrites the first and keeps
      the key where the first one put it. */
  lemma PutTwice<V>(d: Dict<V>, k: string, v: V, w: V)
    ensures Put(Put(d, k, v), k, w) == Put(d, k, w)
  {
  }
}
