# JSON-RPC 2.0 client value objects, modelled in Dafny

This project models the value and state objects of a PHP JSON-RPC 2.0 client:

- **Request** (`Requests`): an immutable call description made of a method name, a parameter set and an optional id. A request with no id is a notification (section 4.1 of the JSON-RPC 2.0 specification). `withParameter` and `withNamedParameter` return a changed copy.
- **PHP ordered array** (`PhpArray`): the parameter set. It is an insertion-ordered list of entries whose keys are `IntKey(i)` or `StrKey(s)`. It follows PHP's rules:
  - `$a[] = $v` takes the next free integer key.
  - `$a[$k] = $v` overwrites the entry for `$k` where it stands, or adds a new entry at the end.
  - A string key that is an integer's canonical text is stored as an int key.
- **Decimal text** (`Decimal`): PHP's `(string)` cast of an int, and the canonical-integer test that PHP applies to string keys.
- **SequentialIdGenerator** (`IdGenerators`): a class with one counter. Each `GenerateId` returns the counter's decimal text and then increments it.
- **Response** (`Responses`): an id and an opaque result, fixed once built.
- **Errors** (`Errors`): the five reserved error codes of section 5.1 of the JSON-RPC 2.0 specification.

Parameter values and results are PHP `mixed`. The model makes them a type parameter `V`, so no property depends on what a value is. The getters `getMethod`, `getParams`, `getId` and `getResult` are the datatypes' destructors (`methodName`, `params`, `id`, `result`). `method` is a Dafny keyword, so the field is called `methodName`.

Three points where the code is looser than the JSON-RPC 2.0 specification, and the model follows the code:

- **Parameter set.** Section 4.2 of the JSON-RPC 2.0 specification makes `params` either an Array or an Object. The PHP code keeps it as one PHP array, which may mix int and string keys, and the model does the same.
- **Method name.** `NewRequest` accepts any method string, as the PHP constructor does.
- **Response id.** Section 5 of the JSON-RPC 2.0 specification says a response's id equals its request's id. `Response` stores whatever id it is given; nothing in the modelled code ties it to a request.

## Model

| member | source | states |
|---|---|---|
| Decimal.NatToString | src/IdGenerator/SequentialIdGenerator.php:48 | the text of a natural number is canonical (digits only, no leading zero), denotes that number, and starts with '0' only for 0 |
| Decimal.IntToString | src/IdGenerator/SequentialIdGenerator.php:48 | the `(string)` cast of an int is a canonical integer text; it starts with '-' exactly when the int is negative |
| Decimal.ParseInt | src/Request.php:107 | a text reads as an integer exactly when it is canonical: "0", or an optional '-' and digits with no leading zero, "-0" excluded |
| Decimal.ParseIntToString | src/IdGenerator/SequentialIdGenerator.php:48 | parsing the text of any int gives that int back |
| Decimal.ToStringOfParseInt | src/Request.php:107 | every text that reads as an integer is exactly that integer's cast |
| Decimal.IntToStringInjective | src/IdGenerator/SequentialIdGenerator.php:48 | distinct ints have distinct texts |
| PhpArray.NextIndex | src/Request.php:124 | the append key is non-negative and above every int key, and it is 0 or one past an int key that is present, so it is the least such key |
| PhpArray.Append | src/Request.php:124 | appending keeps every old entry in place and adds one entry at the end; its fresh int key is above every int key; a well-formed array stays well formed |
| PhpArray.Put | src/Request.php:107 | setting an existing key keeps the length; setting a new key appends exactly one entry and changes nothing else |
| PhpArray.PutInPlace | src/Request.php:107 | setting an existing key overwrites that entry where it stands and leaves every other entry as it was |
| PhpArray.PutKeys | src/Request.php:107 | setting a key keeps the key order (or adds the key at the end) and keeps the array well formed when the key is valid |
| PhpArray.PutLookup | src/Request.php:107 | after setting, the key maps to the new value and every other key maps to its old value |
| PhpArray.NormalizeKey | src/Request.php:104-107 | a name becomes a valid key whose text is the name; it becomes an int key exactly when the name is a canonical integer |
| PhpArray.NormalizeKeyText | src/Request.php:107 | normalizing the text of a stored key gives back that key |
| PhpArray.SameKeysAndLookupsSameArray | src/Request.php:107 | two well-formed arrays with the same key order and the same lookups are equal, so the key order and lookups after `$a[$k] = $v` fix the array |
| PhpArray.AppendToList | src/Request.php:124 | on a list (keys 0..n-1) the append key is n, and the result is still a list |
| PhpArray.AppendAdvancesIndex | src/Request.php:124 | each append moves the next free integer key up by exactly one |
| Requests.NewRequest | src/Request.php:51-56 | the constructor stores the method, params and id verbatim; the request is a notification exactly when the id is absent |
| Requests.DefaultsMakeNotification | src/Request.php:51 | with the default arguments, params is empty and the request is a notification |
| Requests.Request.WithNamedParameter | src/Request.php:104-110 | the copy keeps method and id; the normalized name maps to the value and every other key keeps its value; an existing key keeps its position and a new key goes at the end |
| Requests.Request.WithParameter | src/Request.php:121-127 | the copy keeps method and id and all old entries in order; it adds the value at the end under the next free integer key, which was not in use, and the next append key moves up by one |
| Requests.WithNamedParameterDetermined | src/Request.php:104-110 | any well-formed request that keeps method and id and has the key order and lookups `withNamedParameter`'s contract promises is exactly its result |
| Requests.PositionalStaysList | src/Request.php:121-127 | adding a positional parameter to a list gives a list, and the new parameter's key is the old length |
| Requests.WithParameterAsNamed | src/Request.php:104-127 | `withParameter(v)` equals `withNamedParameter` called with the decimal text of the next free integer key |
| Requests.WithParameterIsNewValue | tests/Unit/RequestTest.php:34-35 | the request returned by `withParameter` always differs from the original |
| Requests.NumericNamesBecomeIntKeys | src/Request.php:107 | "5" and "-12" become int keys; "05", "-0" and "foo" stay string keys |
| Requests.AddPositionalParameters | tests/Unit/RequestTest.php:28-38 | appending 'foo' and then 'bar' to a new request gives the list ['foo', 'bar'] under keys 0 and 1 |
| Requests.SetNamedParameters | tests/Unit/RequestTest.php:73-83 | setting 'foo' and then 'bar' gives ['foo' => 'FOO', 'bar' => 'BAR'] in that order |
| Requests.ConstructWithMixedKeys | tests/Unit/RequestTest.php:45-52 | `['foo' => 'bar', 'baz']` has keys 'foo' then 0, and the constructor stores it, the method and the id verbatim |
| IdGenerators.IdsFrom | src/IdGenerator/SequentialIdGenerator.php:48 | k calls on a generator seeded with `first` give exactly the texts of first, first+1, ..., first+k-1 |
| IdGenerators.IdsFromDistinct | src/IdGenerator/SequentialIdGenerator.php:48 | the ids one generator hands out are pairwise distinct |
| IdGenerators.SequentialIdGenerator.constructor | src/IdGenerator/SequentialIdGenerator.php:34-37 | the counter starts at the seed (1 by default) and no id has been issued yet |
| IdGenerators.SequentialIdGenerator.GenerateId | src/IdGenerator/SequentialIdGenerator.php:46-49 | returns the text of the counter before the call, advances the counter by one, and never repeats an earlier id |
| IdGenerators.DefaultSequence | tests/Unit/IdGenerator/SequentialIdGeneratorTest.php:28-35 | a generator with the default seed yields "1", "2", "3" |
| IdGenerators.CustomSequence | tests/Unit/IdGenerator/SequentialIdGeneratorTest.php:42-49 | a generator seeded with 10 yields "10", "11", "12" |
| Responses.NewResponse | src/Response.php:42-46 | construction is total for every id and every result, and stores both verbatim |
| Responses.ResponseRoundTrip | src/Response.php:42-70 | a response built from id "123456" and a result gives back that id and that result |
| Errors.CodeValues | src/Errors.php:23-43 | PARSE_ERROR is -32700, INVALID_REQUEST -32600, METHOD_NOT_FOUND -32601, INVALID_PARAMS -32602, INTERNAL_ERROR -32603 |
| Errors.NamedCodesDistinct | src/Errors.php:23-43 | the five codes are pairwise distinct |
| Errors.NamedCodesReserved | src/Errors.php:23-43 | all five codes lie in the reserved range -32768..-32000 |

## Left out

- src/Client.php is not part of this model. Its constructor body is commented out and `call` and `notify` are empty. Envelope construction, transport-error translation, response validation and error-code dispatch exist only as test expectations, not as code.
- The exception classes under src/Exception/ are not modelled. Their bodies are empty, and they carry only an inheritance relation.
- The `IdGenerator` interface is not modelled. It only declares `generateId(): string`, and traits are not used here. `SequentialIdGenerator` is modelled as a plain class.
- HTTP transport, the HTTP message factories and JSON encoding and decoding are foreign library calls. They are not modelled.
- Object identity is not modelled. The PHP tests check with `assertNotSame` that `with*` returns a new object. With value semantics the original request is always unchanged. `WithParameterIsNewValue` states the value-level counterpart for `withParameter`. `withNamedParameter` can return an equal value, when it stores the same value under an existing key.
- SequentialIdGenerator.GenerateId: does not model PHP's integer overflow. The counter is an unbounded int. At `PHP_INT_MAX`, PHP's `++` turns the counter into a float.
- PhpArray.NextIndex: follows PHP before 8.3, where an array whose int keys are all negative appends at 0 (PHP 8.3 appends one past the largest negative key). It also computes the key from the entries present and ignores keys freed by an earlier `unset`, which PHP's internal counter remembers. No code in this model unsets entries.
- PhpArray.NormalizeKey: treats every canonical integer text as an int key. PHP does so only within the int range; longer digit strings stay string keys.
- PhpArray.Append: does not model PHP's refusal to append once the next key would pass `PHP_INT_MAX`.
- Concurrent use of one generator is not modelled; the source does not synchronise.
