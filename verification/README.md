# Image field plugin — a Dafny model

This project models the image field plugin of the showcase content manager
(`plugins/image/config.js`). An image field holds a reference to an uploaded
file. The plugin has three transforms:

- **deflate** turns the value the application sees (`{file_id: 4}`) into the
  text stored with the item.
- **inflate** turns stored text back into a file descriptor. It looks up the
  file record by `file_id`, copies it, rebuilds `url` from `path`, renames
  `id` to `file_id` and drops the storage-side keys.
- **preview** shows an icon for well-formed stored text and nothing otherwise.

The plugin also declares `validator: null`, so no assertion ever runs on an
image field's value.

Everything is pure. The item's data is a `map<string, Value>`, and a missing
name reads as `undefined`. The file store is a `map<int, seq<Prop>>` passed in
as an argument. Callbacks become results:

- deflate and preview always answer.
- inflate answers `Delivered(v)`, or `Stalled` when the source never calls its
  callback.

The store is an argument of pure functions, so inflate cannot change the
records in it. The copy the source makes before reshaping (line 38) is
`CopyRecord`, and the reshaping works on that copy.

Files:

- `js_value.dfy` (module `JsValue`): JavaScript values and their operations.
  - `Undefined` is a value.
  - Objects are ordered property lists in insertion order: assignment to a
    new key appends it, and `delete` removes it.
  - Truthiness (`IsFalsy`) and the ToString coercion (`ToText`) used by string
    concatenation and by `JSON.parse` on a non-string.
- `json_write.dfy` (`JsonWrite`) is `JSON.stringify`, and `json_read.dfy`
  (`JsonRead`) is `JSON.parse`. Both follow the JSON text grammar of RFC 8259,
  restricted to integer numbers.
  - The writer skips undefined members and writes undefined array elements as
    `null`.
  - The parser keeps a repeated key at its first position with its last value.
- `json_round_trip.dfy` (`JsonRoundTrip`) proves that parsing written text
  gives back the value in canonical form (`Canon`). For a value JSON can
  denote, that canonical form is the value itself.
- `numerals.dfy` (`Numerals`): decimal integer text.
- `wrappers.dfy` (`Wrappers`): `Option`.
- `image_plugin.dfy` (`ImagePlugin`): the plugin itself.
- `image_properties.dfy` (`ImageProperties`): lemmas relating the plugin's
  operations to each other, and the book-image scenario of the integration
  test.

Two behaviours of the code are worth stating plainly:

- **Missing file record.** When no record has the referenced id, `find`
  succeeds with `null`, `JSON.parse(JSON.stringify(null))` is `null`, and
  line 40 throws a TypeError inside the success handler. The callback is never
  called, so the model's answer is `Stalled`.
- **Emptiness.** Deflate and inflate test truthiness, so `0`, `false`, `""`,
  `null` and `undefined` all count as empty.

## Model

| member | source | states |
|---|---|---|
| ImagePlugin.AssertionError | plugins/image/config.js:4 | a plugin with no validator, such as the image plugin (line 4), never reports an assertion failure. The case with a validator is an assumption about item validation code that is not part of this model: a present value failing the named assertion is reported as "Failed assertion: " + name (the text tests/item.js:166 expects), and only then |
| ImageProperties.ImageNeverFailsAssertion | plugins/image/config.js:4 | the image plugin's `validator: null` means no value of an image field fails an assertion, whatever the assertion library says |
| ImagePlugin.Preview | plugins/image/config.js:6-12 | preview is "" exactly when `JSON.parse` of the value (coerced to text) throws, and otherwise the fixed icon markup |
| ImageProperties.PreviewOfNullAndUndefined | plugins/image/config.js:8-9 | `JSON.parse` coerces its argument: null previews as the icon ("null" parses), undefined as "" ("undefined" does not) |
| ImageProperties.PreviewOfDeflated | plugins/image/config.js:6-19 | whatever deflate stores for a truthy array or object previews as the icon |
| ImageProperties.PreviewAgreesWithInflate | plugins/image/config.js:6-29 | for a truthy stored value, preview is "" exactly when inflate degrades it to the empty list |
| ImageProperties.UndeflatedObject | plugins/image/config.js:8-28 | an object stored without deflating coerces to "[object Object]", which is not JSON: preview is "" and inflate gives [] |
| ImagePlugin.Deflate | plugins/image/config.js:13-20 | a falsy value is stored as ""; a truthy array or object as exactly its JSON text, which parses back to its canonical form (the value itself when it is JSON); any other truthy value unchanged; a truthy value never stores as falsy |
| ImageProperties.DeflatedObjectNamesFile | plugins/image/config.js:16-32 | deflating any object stores text whose parse is truthy and whose `file_id` is the `file_id` of the object's canonical form |
| ImagePlugin.Inflate | plugins/image/config.js:21-50 | falsy stored value gives null; [] exactly for a truthy value that does not parse; an answer that is not an object whenever no lookup is made; no answer exactly when a lookup is made and finds nothing; an object answer only when a record was found |
| ImageProperties.InflateNullWithoutLookup | plugins/image/config.js:23-31 | a falsy stored value, or text that parses to a falsy value, inflates to null whatever the file store holds |
| ImageProperties.InflateFindsRecord | plugins/image/config.js:32-48 | when the parsed value names record n and the store holds a well-formed record n, inflate delivers that record's descriptor |
| ImagePlugin.Lookup | plugins/image/config.js:34 | a record is found exactly when `file_id` is an integer under which the store holds a record, and it is that record |
| ImagePlugin.CopyRecord | plugins/image/config.js:38 | the stringify-then-parse copy always succeeds and equals the record when the record is well-formed JSON |
| ImagePlugin.AddUrlAndFileId | plugins/image/config.js:40-41 | `url` becomes "/files/" + path as text, `file_id` the record's id; the key set gains exactly these two; every other key reads the same; the other properties keep their order; distinct keys and JSON values are kept |
| ImagePlugin.DeleteKeys | plugins/image/config.js:42-46 | after the deletes a key is present exactly when it was and is not deleted; other keys read the same; distinct keys and JSON values are kept |
| ImagePlugin.Describe | plugins/image/config.js:40-46 | the descriptor has `url` = "/files/" + path and `file_id` = the record's id, and none of id, path, item_id, meta_json, description |
| ImagePlugin.DescribeKeepsOtherAttributes | plugins/image/config.js:40-46 | every key other than the seven touched ones is present in the descriptor exactly when it is in the record, with the same value |
| ImagePlugin.DescribeKeepsOrder | plugins/image/config.js:40-46 | with the touched keys set aside, the descriptor lists the record's properties in the same order |
| ImagePlugin.DescribeKeepsJson | plugins/image/config.js:38-46 | a well-formed record with an id gives a descriptor with distinct keys and JSON values |
| ImageProperties.KeptAttribute | plugins/image/config.js:40-46 | any single untouched attribute reads the same in the descriptor as in the record |
| ImageProperties.UrlFromPath | plugins/image/config.js:40 | a record whose path is the text p gets the url "/files/" + p |
| ImageProperties.KeepsOriginalFilename | tests/item.js:102-106 | the descriptor's original_filename is the record's |
| ImageProperties.KeepsSize | tests/item.js:107 | the descriptor's size is the record's |
| ImageProperties.DeflateInflateRoundTrip | plugins/image/config.js:13-49 | deflating an object with distinct keys and `file_id` n, whatever its other values, and inflating against a store holding record n gives that record's descriptor, with file_id n and the record's original_filename and size |
| ImageProperties.DescriptorIsStable | plugins/image/config.js:13-49 | a descriptor is a fixed point of deflate-then-inflate: a field holding record n's descriptor, deflated and inflated against the store, gives the same descriptor back |
| ImageProperties.BookImageScenario | tests/item.js:62-107 | the test's item with book_image {file_id: 4}, against a store holding the fixture file 4, reads back with file_id 4, original_filename "super-cool-image.jpg", size 2132 (the test compares it loosely with "2132"), and url rebuilt from the path, replacing the record's own url; after the isbn is updated and the item saved, which stores the held descriptor again, loading gives the same descriptor |
| ImageProperties.BookImageCreated | tests/item.js:73-84 | creating the test's item and reading it back gives the fixture file's descriptor, with its file_id, filename, size and rebuilt url |
| ImageProperties.SavedAgain | tests/item.js:87-105 | editing another field of an item that holds a record's descriptor, then saving and loading it, gives the same descriptor back |
| JsValue.SetProp | plugins/image/config.js:40-41 | assignment: the key reads the new value, other keys read as before, a new key is appended at the end, distinct keys are kept |
| JsValue.Delete | plugins/image/config.js:42-46 | `delete`: the key is gone, other keys read as before, deleting an absent key changes nothing |
| JsValue.Get | plugins/image/config.js:32 | reading a key an object does not have gives undefined; a key it has reads as the value of its first property with that key |
| JsonWrite.Stringify | plugins/image/config.js:17 | `JSON.stringify` gives no text exactly for undefined, and non-empty text otherwise |
| JsonRead.Parse | plugins/image/config.js:25 | whatever `JSON.parse` accepts is a value JSON can denote: distinct keys, no undefined |
| JsonRoundTrip.ParseWrite | plugins/image/config.js:38 | `JSON.parse(JSON.stringify(v))` succeeds for every defined value and gives its canonical form |
| JsonRoundTrip.CanonOfJson | plugins/image/config.js:38 | the canonical form of a value JSON can denote is the value itself |
| JsonRoundTrip.JsonRoundTrip | plugins/image/config.js:17-25 | every value JSON can denote is written as text and parsed back unchanged |
| JsonRoundTrip.CanonIsJson | plugins/image/config.js:38 | the canonical form of any value is a value JSON can denote |
| JsonRoundTrip.CanonKeepsProperty | plugins/image/config.js:17-32 | a defined property of an object with distinct keys survives stringify-then-parse as its canonical form |
| JsonRead.SurrogatePairEscape | plugins/image/config.js:25 | `JSON.parse` reads a `\u` escape of a high surrogate directly followed by a `\u` escape of a low surrogate as the one character the pair encodes |
| JsonRead.LoneSurrogateRefused | plugins/image/config.js:25 | a `\u` escape of a surrogate that does not open such a pair is refused (see "## Left out") |
| JsonRead.SurrogatesDecode | plugins/image/config.js:25 | decoding the UTF-16 surrogates of any character outside the basic multilingual plane gives that character back |
| JsonRead.SurrogatesEncode | plugins/image/config.js:25 | every high and low surrogate pair is the UTF-16 form of the character it decodes to |
| ImageProperties.SurrogatePairParses | plugins/image/config.js:8 | the one JSON text `"\ud83d\ude00"` parses as the string holding the single character U+1F600 |
| ImageProperties.PreviewOfSurrogatePair | plugins/image/config.js:8-11 | the one stored text `"\ud83d\ude00"` previews as the icon |

## Left out

- Asynchronous plumbing: callbacks are results, and the ordering of concurrent field transforms is not modelled.
- The lookup's error path (`.error(console.warn)`, line 35): it never calls back. It is covered only by the `Stalled` answer; the map lookup itself cannot fail.
- Lookup: an id is matched only when it is an integer. The ORM's behaviour for a string, null or undefined id (SQL coercion) is not modelled; such an id finds no record.
- Logging (`console.log`, `console.warn`) and the `template` and `placeholder` declarations, which only feed the user interface.
- Numbers are integers. Fractions, exponents, IEEE-754 rounding and the exponent form JavaScript uses for large magnitudes are not modelled; the parser rejects fraction and exponent syntax.
- Strings are sequences of Unicode scalar values, not UTF-16 code units. A `\u` high-surrogate escape followed by a `\u` low-surrogate escape decodes to the one character the pair encodes; a lone surrogate escape, outside such a pair, is rejected by the parser, where `JSON.parse` would accept it.
- Array-index keys (such as "1") are not listed before other keys as JavaScript lists them: object order is insertion order, and parsed objects keep text order. The plugin only adds `url` and `file_id`, and file records use column names.
- Property reads see only own properties of plain objects. Built-in properties such as a string's `length` are not modelled; none of them is named `file_id`.
- `toJSON` methods, the reviver argument of `JSON.parse` and `__proto__` keys are not modelled: the records are plain data.
- The ORM record handed to the success handler is treated as plain data, so `JSON.stringify` sees exactly its attributes.
- The item lifecycle, the plugin registry and the validation engine exercised by `tests/item.js`: their code is not part of this model. `AssertionError` models only the one step of validation that a plugin's validator takes part in.
