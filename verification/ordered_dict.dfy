/**
 * A Python `dict` with string keys: a map from key to value together with the
 * keys in insertion order. Assigning to an existing key replaces its value in
 * place; assigning to a new key appends it.
 */
module OrderedDict {
  import opened Wrappers

  datatype Dict<V> = Dict(keys: seq<string>, vals: map<string, V>)
  {
    /** The keys are listed once each, and exactly the keys of the map are listed. */
    ghost predicate Valid()
    {
      && (forall i, j :: 0 <= i < j < |keys| ==> keys[i] != keys[j])
      && (forall k :: k in vals <==> k in keys)
    }
  }

  function Empty<V>(): (d: Dict<V>)
    ensures d.Valid() && d.keys == []
  {
    Dict([], map[])
  }

  /** `d.get(k)` */
  function Get<V>(d: Dict<V>, k: string): Option<V>
  {
    if k in d.vals then Some(d.vals[k]) else None
  }

  /** `d[k] = v` */
  function Put<V>(d: Dict<V>, k: string, v: V): (r: Dict<V>)
    ensures d.Valid() ==> r.Valid()
    ensures Get(r, k) == Some(v)
    ensures forall x :: x != k ==> Get(r, x) == Get(d, x)
    // an existing key keeps its place; a new key goes last
    ensures k in d.vals ==> r.keys == d.keys
    ensures k !in d.vals ==> r.keys == d.keys + [k]
  {
    if k in d.vals then Dict(d.keys, d.vals[k := v]) else Dict(d.keys + [k], d.vals[k := v])
  }

  /** Assigning the same key twice leaves what the second assignment alone would leave. */
  lemma PutPut<V>(d: Dict<V>, k: string, v: V, w: V)
    ensures Put(Put(d, k, v), k, w) == Put(d, k, w)
  {
    assert d.vals[k := v][k := w] == d.vals[k := w];
  }

  /** A prefix one longer is the shorter prefix and the next element. */
  lemma PrefixGrows<T>(xs: seq<T>, n: nat)
    requires n < |xs|
    ensures xs[..n + 1] == xs[..n] + [xs[n]]
  {
  }

  /** The dictionary holding the first `n` entries of `d`, in order. */
  function Take<V>(d: Dict<V>, n: nat): (r: Dict<V>)
    requires d.Valid() && n <= |d.keys|
    ensures r.Valid() && r.keys == d.keys[..n]
  {
    var ks := d.keys[..n];
    Dict(ks, map k | k in ks :: d.vals[k])
  }

  lemma TakeAll<V>(d: Dict<V>)
    requires d.Valid()
    ensures Take(d, |d.keys|) == d
  {
    assert d.keys[..|d.keys|] == d.keys;
  }

  lemma TakeNone<V>(d: Dict<V>)
    requires d.Valid()
    ensures Take(d, 0) == Empty()
  {
  }

  /** Assigning the next entry of `d` extends the first `n` entries to the first `n + 1`. */
  lemma TakeNext<V>(d: Dict<V>, n: nat)
    requires d.Valid() && n < |d.keys|
    ensures d.keys[n] !in Take(d, n).vals
    ensures Put(Take(d, n), d.keys[n], d.vals[d.keys[n]]) == Take(d, n + 1)
  {
    var k := d.keys[n];
    PrefixGrows(d.keys, n);
    var p := Put(Take(d, n), k, d.vals[k]);
    assert k !in d.keys[..n];
    assert p.vals == Take(d, n + 1).vals;
  }

  /** `for k, v in e.items(): d[k] = v`, stopped after the first `n` entries of `e`. */
  function PutFirst<V>(d: Dict<V>, e: Dict<V>, n: nat): (r: Dict<V>)
    requires e.Valid() && n <= |e.keys|
    ensures d.Valid() ==> r.Valid()
    ensures forall k :: Get(r, k) == if k in e.keys[..n] then Some(e.vals[k]) else Get(d, k)
    ensures |d.keys| <= |r.keys| && r.keys[..|d.keys|] == d.keys
    decreases n
  {
    if n == 0 then d
    else
      var k := e.keys[n - 1];
      assert e.keys[..n] == e.keys[..n - 1] + [k];
      Put(PutFirst(d, e, n - 1), k, e.vals[k])
  }

  /** Every entry of `e` assigned into `d` in `e`'s order: `e`'s values win, `d`'s other entries stay. */
  function PutAll<V>(d: Dict<V>, e: Dict<V>): (r: Dict<V>)
    requires e.Valid()
    ensures d.Valid() ==> r.Valid()
    ensures forall k :: Get(r, k) == if k in e.vals then Get(e, k) else Get(d, k)
    ensures |d.keys| <= |r.keys| && r.keys[..|d.keys|] == d.keys
  {
    assert e.keys[..|e.keys|] == e.keys;
    PutFirst(d, e, |e.keys|)
  }

  /** Assigning the first `n` entries of `e` into an empty dictionary lists their keys in `e`'s order. */
  lemma {:induction false} PutFirstEmptyKeys<V>(e: Dict<V>, n: nat)
    requires e.Valid() && n <= |e.keys|
    ensures PutFirst(Empty(), e, n).keys == e.keys[..n]
  {
    if n == 0 {
      assert e.keys[..0] == [];
    } else {
      PutFirstEmptyKeys(e, n - 1);
      PutFirstEmptyKeysStep(e, n);
    }
  }

  /** The next key of `e` is new to the dictionary built so far, so it is appended. */
  lemma PutFirstEmptyKeysStep<V>(e: Dict<V>, n: nat)
    requires e.Valid() && 0 < n <= |e.keys|
    requires PutFirst(Empty(), e, n - 1).keys == e.keys[..n - 1]
    ensures PutFirst(Empty(), e, n).keys == e.keys[..n]
  {
    var k := e.keys[n - 1];
    var before := PutFirst(Empty(), e, n - 1);
    assert k !in e.keys[..n - 1];
    assert Get(before, k) == None;
    assert PutFirst(Empty(), e, n).keys == before.keys + [k];
    PrefixGrows(e.keys, n - 1);
  }

  /** Key by key, the first `n` entries assigned into an empty dictionary hold `e`'s values. */
  lemma PutFirstEmptyAt<V>(e: Dict<V>, n: nat, k: string)
    requires e.Valid() && n <= |e.keys|
    ensures k in PutFirst(Empty(), e, n).vals <==> k in Take(e, n).vals
    ensures k in Take(e, n).vals ==> PutFirst(Empty(), e, n).vals[k] == Take(e, n).vals[k]
  {
    if k in e.keys[..n] {
      assert Get(PutFirst(Empty(), e, n), k) == Some(e.vals[k]);
    } else {
      assert Get(PutFirst(Empty(), e, n), k) == None;
    }
  }

  /** Assigning the first `n` entries of `e` into an empty dictionary gives them `e`'s values. */
  lemma PutFirstEmptyVals<V>(e: Dict<V>, n: nat)
    requires e.Valid() && n <= |e.keys|
    ensures PutFirst(Empty(), e, n).vals == Take(e, n).vals
  {
    var a := PutFirst(Empty(), e, n).vals;
    var b := Take(e, n).vals;
    forall k
      ensures k in a <==> k in b
      ensures k in b ==> a[k] == b[k]
    {
      PutFirstEmptyAt(e, n, k);
    }
    SameEntries(a, b);
  }

  lemma SameEntries<V>(a: map<string, V>, b: map<string, V>)
    requires forall k :: k in a <==> k in b
    requires forall k :: k in b ==> a[k] == b[k]
    ensures a == b
  {
  }

  /** Assigning the entries one by one into an empty dictionary rebuilds the first `n` of them. */
  lemma PutFirstEmpty<V>(e: Dict<V>, n: nat)
    requires e.Valid() && n <= |e.keys|
    ensures PutFirst(Empty(), e, n) == Take(e, n)
  {
    PutFirstEmptyKeys(e, n);
    PutFirstEmptyVals(e, n);
  }

  /** Copying a dictionary entry by entry into an empty one gives the same keys, order and values. */
  lemma PutAllEmpty<V>(e: Dict<V>)
    requires e.Valid()
    ensures PutAll(Empty(), e) == e
  {
    PutFirstEmpty(e, |e.keys|);
    TakeAll(e);
  }

  /** The entries of `xs` that are not in `known`, in their order. */
  function Fresh(xs: seq<string>, known: set<string>): (r: seq<string>)
    ensures forall x :: x in r <==> x in xs && x !in known
  {
    if xs == [] then []
    else
      var x := xs[|xs| - 1];
      assert xs == xs[..|xs| - 1] + [x];
      Fresh(xs[..|xs| - 1], known) + (if x in known then [] else [x])
  }

  /**
   * Assigning the first `n` items of `e` keeps the old keys in place and appends
   * the keys that are new, in `e`'s order.
   */
  lemma {:induction false} PutFirstKeys<V>(d: Dict<V>, e: Dict<V>, n: nat)
    requires d.Valid() && e.Valid() && n <= |e.keys|
    ensures PutFirst(d, e, n).keys == d.keys + Fresh(e.keys[..n], d.vals.Keys)
  {
    if n == 0 {
      assert e.keys[..0] == [];
    } else {
      PutFirstKeys(d, e, n - 1);
      PutFirstKeysStep(d, e, n);
    }
  }

  lemma PutFirstKeysStep<V>(d: Dict<V>, e: Dict<V>, n: nat)
    requires d.Valid() && e.Valid() && 0 < n <= |e.keys|
    requires PutFirst(d, e, n - 1).keys == d.keys + Fresh(e.keys[..n - 1], d.vals.Keys)
    ensures PutFirst(d, e, n).keys == d.keys + Fresh(e.keys[..n], d.vals.Keys)
  {
    var k := e.keys[n - 1];
    var before := PutFirst(d, e, n - 1);
    assert k in before.vals <==> k in d.vals by {
      NotEarlier(e.keys, n);
      assert Get(before, k) == Get(d, k);
    }
    FreshGrows(e.keys, n, d.vals.Keys);
    PutKeys(before, d.keys, Fresh(e.keys[..n - 1], d.vals.Keys), k, e.vals[k], d.vals.Keys);
  }

  /** Assigning `k` after keys `front + added` appends it to `added` exactly when it is not among `known`. */
  lemma PutKeys<V>(before: Dict<V>, front: seq<string>, added: seq<string>, k: string, v: V, known: set<string>)
    requires before.keys == front + added
    requires k in before.vals <==> k in known
    ensures Put(before, k, v).keys == front + (added + if k in known then [] else [k])
  {
  }

  lemma FreshGrows(xs: seq<string>, n: nat, known: set<string>)
    requires 0 < n <= |xs|
    ensures Fresh(xs[..n], known) == Fresh(xs[..n - 1], known) + (if xs[n - 1] in known then [] else [xs[n - 1]])
  {
    var front := xs[..n];
    assert front[..|front| - 1] == xs[..n - 1];
  }

  /** In a list without repeats, an entry does not occur before its own place. */
  lemma NotEarlier(xs: seq<string>, n: nat)
    requires 0 < n <= |xs|
    requires forall i, j :: 0 <= i < j < |xs| ==> xs[i] != xs[j]
    ensures xs[n - 1] !in xs[..n - 1]
  {
    var front := xs[..n - 1];
    assert forall j :: 0 <= j < |front| ==> front[j] == xs[j];
  }

  /** `set_variables` into a dictionary: old keys keep their place, new keys follow in `e`'s order. */
  lemma PutAllKeys<V>(d: Dict<V>, e: Dict<V>)
    requires d.Valid() && e.Valid()
    ensures PutAll(d, e).keys == d.keys + Fresh(e.keys, d.vals.Keys)
  {
    PutFirstKeys(d, e, |e.keys|);
    assert e.keys[..|e.keys|] == e.keys;
  }
}
