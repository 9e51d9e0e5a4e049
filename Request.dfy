/**
  * A JSON-RPC call description: the method to invoke, its parameter set (a
  * PHP ordered array, positional, named or both) and an optional id. A
  * request without an id is a notification (section 4.1 of the JSON-RPC 2.0
  * specification). Requests are immutable: the `With...` operations return a
  * copy whose parameter set is changed and leave the receiver as it was.
  * The getters `getMethod`, `getParams` and `getId` are the datatype's
  * destructors `methodName`, `params` and `id`.
  */
module Requests {
  import opened Wrappers
  import opened PhpArray
  import Decimal

  datatype Request<V> = Request(methodName: string, params: Array<V>, id: Option<string>)
  {
    /** The parameter set is a PHP array. */
    predicate Valid() {
      WellFormed(params)
    }

    /** No id: the server sends no reply. */
    predicate IsNotification() {
      id.None?
    }

    /**
      * A copy with `value` stored under the key `name`: PHP stores the name
      * as an int key when it is an integer's canonical text, overwrites an
      * existing entry in place and otherwise adds the entry at the end.
      */
    function WithNamedParameter(name: string, value: V): (r: Request<V>)
      requires Valid()
      ensures r.Valid()
      ensures r.methodName == methodName && r.id == id
      ensures Lookup(r.params, NormalizeKey(name)) == Some(value)
      ensures forall k :: k != NormalizeKey(name) ==> Lookup(r.params, k) == Lookup(params, k)
      ensures NormalizeKey(name) in Keys(params) ==> Keys(r.params) == Keys(params)
      ensures NormalizeKey(name) !in Keys(params) ==> Keys(r.params) == Keys(params) + [NormalizeKey(name)]
    {
      var k := NormalizeKey(name);
      PutKeys(params, k, value);
      forall k' ensures Lookup(Put(params, k, value), k') == if k' == k then Some(value) else Lookup(params, k') {
        PutLookup(params, k, value, k');
      }
      this.(params := Put(params, k, value))
    }

    /**
      * A copy with `value` added at the end of the parameter set under the
      * next free integer key, which is above every integer key already there.
      */
    function WithParameter(value: V): (r: Request<V>)
      requires Valid()
      ensures r.Valid()
      ensures r.methodName == methodName && r.id == id
      ensures |r.params| == |params| + 1 && r.params[..|params|] == params
      ensures r.params[|params|] == Entry(IntKey(NextIndex(params)), value)
      ensures IntKey(NextIndex(params)) !in Keys(params)
      ensures NextIndex(r.params) == NextIndex(params) + 1
    {
      AppendAdvancesIndex(params, value);
      this.(params := Append(params, value))
    }
  }

  /** The constructor; params default to the empty array and the id to none, as in PHP. */
  function NewRequest<V>(methodName: string, params: Array<V> := [], id: Option<string> := None): (r: Request<V>)
    requires WellFormed(params)
    ensures r.Valid()
    ensures r.methodName == methodName && r.params == params && r.id == id
    ensures r.IsNotification() <==> id.None?
  {
    Request(methodName, params, id)
  }

  /** With the defaults a request has no parameters and is a notification. */
  lemma DefaultsMakeNotification<V>(methodName: string)
    ensures NewRequest<V>(methodName).methodName == methodName
    ensures NewRequest<V>(methodName).params == []
    ensures NewRequest<V>(methodName).IsNotification()
  {
  }

  /**
    * The contract of WithNamedParameter leaves one possible result: any
    * well-formed copy with the same method, id, key order and lookups is it.
    */
  lemma WithNamedParameterDetermined<V>(r: Request<V>, name: string, value: V, q: Request<V>)
    requires r.Valid() && q.Valid()
    requires q.methodName == r.methodName && q.id == r.id
    requires Keys(q.params) == Keys(r.WithNamedParameter(name, value).params)
    requires Lookup(q.params, NormalizeKey(name)) == Some(value)
    requires forall k :: k != NormalizeKey(name) ==> Lookup(q.params, k) == Lookup(r.params, k)
    ensures q == r.WithNamedParameter(name, value)
  {
    var w := r.WithNamedParameter(name, value);
    SameKeysAndLookupsSameArray(q.params, w.params);
  }

  /** A request with positional parameters only stays so, each new one numbered by the count before it. */
  lemma PositionalStaysList<V>(r: Request<V>, value: V)
    requires r.Valid() && IsList(r.params)
    ensures IsList(r.WithParameter(value).params)
    ensures r.WithParameter(value).params[|r.params|] == Entry(IntKey(|r.params|), value)
  {
    AppendToList(r.params, value);
  }

  /** The copy differs from the original: it has one parameter more. */
  lemma WithParameterIsNewValue<V>(r: Request<V>, value: V)
    requires r.Valid()
    ensures r.WithParameter(value) != r
  {
    assert |r.WithParameter(value).params| != |r.params|;
  }

  /**
    * Appending a positional parameter is the same as naming the next free
    * integer key by its decimal text.
    */
  lemma WithParameterAsNamed<V>(r: Request<V>, value: V)
    requires r.Valid()
    ensures r.WithParameter(value) == r.WithNamedParameter(Decimal.IntToString(NextIndex(r.params)), value)
  {
    var n := NextIndex(r.params);
    NormalizeKeyText(IntKey(n));
    assert NormalizeKey(Decimal.IntToString(n)) == IntKey(n);
  }

  /** Names that are integer texts become int keys; "05" and "-0" stay strings. */
  lemma NumericNamesBecomeIntKeys()
    ensures NormalizeKey("5") == IntKey(5)
    ensures NormalizeKey("-12") == IntKey(-12)
    ensures NormalizeKey("05") == StrKey("05")
    ensures NormalizeKey("-0") == StrKey("-0")
    ensures NormalizeKey("foo") == StrKey("foo")
  {
  }

  /** Two positional parameters on a fresh request are the list ['foo', 'bar']. */
  lemma AddPositionalParameters()
    ensures
      var r1 := NewRequest<string>("method");
      var r3 := r1.WithParameter("foo").WithParameter("bar");
      r1.params == [] && r3.params == [Entry(IntKey(0), "foo"), Entry(IntKey(1), "bar")]
  {
    var r1 := NewRequest<string>("method");
    var r2 := r1.WithParameter("foo");
    assert r2.params == [Entry(IntKey(0), "foo")];
    assert NextIndex(r2.params) == 1;
    var r3 := r2.WithParameter("bar");
    assert r3.params == r2.params + [Entry(IntKey(1), "bar")];
  }

  /** Named parameters set on a fresh request keep the order they were set in. */
  lemma SetNamedParameters()
    ensures
      var r1 := NewRequest<string>("method");
      var r3 := r1.WithNamedParameter("foo", "FOO").WithNamedParameter("bar", "BAR");
      r1.params == [] && r3.params == [Entry(StrKey("foo"), "FOO"), Entry(StrKey("bar"), "BAR")]
  {
    var r1 := NewRequest<string>("method");
    assert NormalizeKey("foo") == StrKey("foo");
    assert NormalizeKey("bar") == StrKey("bar");
    var r2 := r1.WithNamedParameter("foo", "FOO");
    assert r2.params == Put([], StrKey("foo"), "FOO") == [Entry(StrKey("foo"), "FOO")];
    assert StrKey("bar") !in Keys(r2.params);
    var r3 := r2.WithNamedParameter("bar", "BAR");
    assert r3.params == Put(r2.params, StrKey("bar"), "BAR") == r2.params + [Entry(StrKey("bar"), "BAR")];
  }

  /**
    * The array literal `['foo' => 'bar', 'baz']` gives 'baz' the key 0, and
    * the constructor keeps both entries in that order.
    */
  lemma ConstructWithMixedKeys()
    ensures
      var params := Append(Put([], StrKey("foo"), "bar"), "baz");
      && params == [Entry(StrKey("foo"), "bar"), Entry(IntKey(0), "baz")]
      && var r := NewRequest("method", params, Some("id"));
      && r.methodName == "method" && r.params == params && r.id == Some("id")
  {
    var params := Append(Put([], StrKey("foo"), "bar"), "baz");
    assert NextIndex(Put([], StrKey("foo"), "bar")) == 0;
    assert ValidKey(StrKey("foo"));
    PutKeys([], StrKey("foo"), "bar");
  }
}
