/**
  * The part of PHP's ordered array that a request's parameter set uses: an
  * insertion-ordered list of entries whose keys are ints or strings, with
  *   - `$a[] = $v`, which appends under the next free integer key, and
  *   - `$a[$k] = $v`, which overwrites the entry for `$k` where it stands, or
  *     appends a new entry at the end when there is none.
  * A string key that is the canonical text of an int is stored as that int.
  */
module PhpArray {
  import opened Wrappers
  import Decimal

  datatype Key = IntKey(i: int) | StrKey(s: string)

  datatype Entry<V> = Entry(key: Key, value: V)

  type Array<V> = seq<Entry<V>>

  /** PHP never stores a string key that reads as an integer. */
  predicate ValidKey(k: Key) {
    k.StrKey? ==> Decimal.ParseInt(k.s).None?
  }

  /** What every PHP array satisfies: each key occurs once and is a valid key. */
  predicate WellFormed<V>(a: Array<V>) {
    && (forall j, l :: 0 <= j < l < |a| ==> a[j].key != a[l].key)
    && (forall j :: 0 <= j < |a| ==> ValidKey(a[j].key))
  }

  /** An array whose keys are 0, 1, 2, ... in order: a PHP list. */
  predicate IsList<V>(a: Array<V>) {
    forall j :: 0 <= j < |a| ==> a[j].key == IntKey(j)
  }

  /** The keys, in order. */
  function Keys<V>(a: Array<V>): (ks: seq<Key>)
    ensures |ks| == |a|
    ensures forall j :: 0 <= j < |a| ==> ks[j] == a[j].key
  {
    if a == [] then [] else [a[0].key] + Keys(a[1..])
  }

  /** `$a[$k]`, or None when `isset` would say no such key. */
  function Lookup<V>(a: Array<V>, k: Key): (r: Option<V>)
    ensures r.Some? <==> k in Keys(a)
    ensures r.Some? ==> Entry(k, r.value) in a
  {
    if a == [] then None
    else if a[0].key == k then Some(a[0].value)
    else Lookup(a[1..], k)
  }

  /**
    * The key `$a[] = $v` uses: one more than the largest integer key, and 0
    * when there is none or all of them are negative.
    */
  function NextIndex<V>(a: Array<V>): (n: int)
    ensures n >= 0
    ensures forall j :: 0 <= j < |a| && a[j].key.IntKey? ==> a[j].key.i < n
    ensures n > 0 ==> exists j :: 0 <= j < |a| && a[j].key == IntKey(n - 1)
  {
    if a == [] then 0
    else
      var rest := NextIndex(a[1..]);
      if a[0].key.IntKey? && a[0].key.i + 1 > rest then a[0].key.i + 1 else rest
  }

  /** `$a[] = $v`. */
  function Append<V>(a: Array<V>, v: V): (r: Array<V>)
    ensures |r| == |a| + 1 && r[..|a|] == a && r[|a|].value == v
    ensures r[|a|].key.IntKey? && r[|a|].key.i >= 0 && r[|a|].key !in Keys(a)
    ensures forall j :: 0 <= j < |a| && a[j].key.IntKey? ==> a[j].key.i < r[|a|].key.i
    ensures WellFormed(a) ==> WellFormed(r)
  {
    a + [Entry(IntKey(NextIndex(a)), v)]
  }

  /**
    * `$a[$k] = $v` for a key already in its stored form: the entry for `$k` is
    * overwritten where it stands, or a new entry is added at the end.
    */
  function Put<V>(a: Array<V>, k: Key, v: V): (r: Array<V>)
    requires WellFormed(a)
    ensures k in Keys(a) ==> |r| == |a|
    ensures k !in Keys(a) ==> r == a + [Entry(k, v)]
  {
    if a == [] then [Entry(k, v)]
    else if a[0].key == k then [Entry(k, v)] + a[1..]
    else
      assert k in Keys(a) <==> k in Keys(a[1..]);
      assert a == [a[0]] + a[1..];
      [a[0]] + Put(a[1..], k, v)
  }

  /** Setting a key that is present overwrites its entry where it stands and no other entry. */
  lemma {:induction false} PutInPlace<V>(a: Array<V>, k: Key, v: V)
    requires WellFormed(a) && k in Keys(a)
    ensures forall j :: 0 <= j < |a| ==> Put(a, k, v)[j] == (if a[j].key == k then Entry(k, v) else a[j])
  {
    var r := Put(a, k, v);
    if a[0].key == k {
      assert r == [Entry(k, v)] + a[1..];
      forall j | 1 <= j < |a|
        ensures r[j] == a[j] && a[j].key != k
      {
        assert a[0].key != a[j].key;
      }
    } else {
      var tail := a[1..];
      assert k in Keys(tail);
      var p := Put(tail, k, v);
      assert r == [a[0]] + p;
      PutInPlace(tail, k, v);
      forall j | 1 <= j < |a|
        ensures r[j] == (if a[j].key == k then Entry(k, v) else a[j])
      {
        assert r[j] == p[j - 1] && a[j] == tail[j - 1];
      }
    }
  }

  /** Setting a key keeps the key order and changes no other key's value. */
  lemma PutKeys<V>(a: Array<V>, k: Key, v: V)
    requires WellFormed(a)
    ensures k in Keys(a) ==> Keys(Put(a, k, v)) == Keys(a)
    ensures k !in Keys(a) ==> Keys(Put(a, k, v)) == Keys(a) + [k]
    ensures ValidKey(k) ==> WellFormed(Put(a, k, v))
  {
    var r := Put(a, k, v);
    if k !in Keys(a) {
      assert Keys(r) == Keys(a) + [k];
    } else {
      PutInPlace(a, k, v);
      assert Keys(r) == Keys(a);
    }
  }

  /** After setting a key it maps to the new value and every other key to its old value. */
  lemma {:induction false} PutLookup<V>(a: Array<V>, k: Key, v: V, k': Key)
    requires WellFormed(a)
    ensures Lookup(Put(a, k, v), k') == if k' == k then Some(v) else Lookup(a, k')
  {
    if a != [] && a[0].key != k {
      var r := Put(a, k, v);
      assert r[1..] == Put(a[1..], k, v);
      PutLookup(a[1..], k, v, k');
    }
  }

  /** The text a stored key was written as. */
  function KeyText(k: Key): string {
    match k
    case IntKey(i) => Decimal.IntToString(i)
    case StrKey(s) => s
  }

  /** How PHP stores a string key: as an int when it is an integer's canonical text. */
  function NormalizeKey(name: string): (k: Key)
    ensures ValidKey(k)
    ensures KeyText(k) == name
    ensures k.IntKey? <==> Decimal.IsCanonicalInt(name)
  {
    match Decimal.ParseInt(name)
    case Some(i) =>
      Decimal.ToStringOfParseInt(name);
      IntKey(i)
    case None => StrKey(name)
  }

  /** Normalizing the text of a stored key gives that key back. */
  lemma NormalizeKeyText(k: Key)
    requires ValidKey(k)
    ensures NormalizeKey(KeyText(k)) == k
  {
    if k.IntKey? {
      Decimal.ParseIntToString(k.i);
    }
  }

  /** In a well-formed array the lookup of a stored key finds its own entry. */
  lemma {:induction false} LookupAt<V>(a: Array<V>, j: nat)
    requires WellFormed(a) && j < |a|
    ensures Lookup(a, a[j].key) == Some(a[j].value)
  {
    if j > 0 {
      LookupAt(a[1..], j - 1);
    }
  }

  /** A well-formed array is fixed by its key order and its lookups. */
  lemma SameKeysAndLookupsSameArray<V>(a: Array<V>, b: Array<V>)
    requires WellFormed(a) && WellFormed(b) && Keys(a) == Keys(b)
    requires forall k :: Lookup(a, k) == Lookup(b, k)
    ensures a == b
  {
    forall j | 0 <= j < |a|
      ensures a[j] == b[j]
    {
      LookupAt(a, j);
      LookupAt(b, j);
    }
  }

  /** On a list the next free integer key is the length. */
  lemma {:induction false} ListNextIndex<V>(a: Array<V>)
    requires IsList(a)
    ensures NextIndex(a) == |a|
  {
    var n := NextIndex(a);
    if a != [] {
      var last := |a| - 1;
      assert a[last].key == IntKey(last);
      assert last < n;
      var j :| 0 <= j < |a| && a[j].key == IntKey(n - 1);
      assert a[j].key == IntKey(j);
    }
  }

  /** Appending to a list keeps it a list: the new key is the old length. */
  lemma {:induction false} AppendToList<V>(a: Array<V>, v: V)
    requires IsList(a)
    ensures NextIndex(a) == |a|
    ensures IsList(Append(a, v))
  {
    ListNextIndex(a);
    assert Append(a, v) == a + [Entry(IntKey(|a|), v)];
  }

  /** Successive appends take successive keys. */
  lemma AppendAdvancesIndex<V>(a: Array<V>, v: V)
    ensures NextIndex(Append(a, v)) == NextIndex(a) + 1
  {
    var r := Append(a, v);
    var n := NextIndex(a);
    var m := NextIndex(r);
    assert r[|a|].key == IntKey(n);
    assert n < m;
    var j :| 0 <= j < |r| && r[j].key == IntKey(m - 1);
    if j < |a| {
      assert r[j] == a[j];
    }
  }
}
