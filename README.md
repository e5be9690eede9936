# mf2tojf2 in Dafny

A model of `mf2tojf2`, which turns a microformats2 (MF2) parse result into JF2,
the IndieWeb "JF2 Post Serialization Format". An MF2 document is a JSON tree:
`{items: [...]}`, where each item has a `type` array (`["h-entry"]`), a
`properties` object whose every value is an array, and optional `children`.
JF2 is the flatter form of the same content:

- the type loses its vocabulary prefix (`h-entry` becomes `entry`);
- a one-element property array becomes its element;
- rich content `{html, value}` becomes `{html, text}`;
- a nested item, such as an `h-card` author, becomes a nested JF2 object;
- children stay an array of JF2 objects;
- the document is `{}` for no items, the item itself for one, and
  `{children: [...]}` for several.

The implementation file (`index.js`) is not part of this model. The behaviour
is rebuilt from the equations the repository's tests assert (`test.js`). The
model is pure, as the converter is. It is made of these modules:

- `Json` (json.dfy): JSON trees. Strings, arrays, and objects as maps, since
  the tests compare with key-order-insensitive deep equality.
- `TypeMapper` (type_mapper.dfy): strips the `h-` prefix.
- `Normalizer` (normalizer.dfy): the converter. `Mf2ToJf2` is the document
  dispatcher. `ConvertItem` is the item converter. `FlattenProperties`,
  `FlattenProperty` and `FlattenValue` are the property flattener, with
  `ContentToJf2` for content. `FlattenProperties`, `FlattenProperty` and
  `FlattenValue` are mutually recursive with `ConvertItem`, through nested
  authors and children.
- `Jf2Rules` (jf2_rules.dfy): each conversion rule stated for all inputs.
- `Jf2Shape` (jf2_shape.dfy): any well-formed MF2 item converts to a
  well-formed JF2 object. Its `type` is a string. Each property is a scalar
  or an array of two or more values, never a one-element or nested array.
  Content is `{html, text?}`. Nested items and children are JF2 objects.
  Proved by mutual structural induction.
- `RoundTrip` (round_trip.dfy): on canonical MF2 the conversion loses nothing.
  `Jf2ToMf2` rebuilds the input exactly from the output, proved by mutual
  structural induction. Canonical means: a document with only an `items` array
  (possibly empty), one `h-` type name per item, no item field beyond
  `type`, `properties` and `children`, no property named `type` or
  `children`, no empty `properties`, `children` or property array, no
  property value that is itself an array, and content with only `html` and
  `value`.
- `Scenarios` (scenarios.dfy): each of the 15 test cases as an equation.
  Text values (names, URLs, HTML) are parameters, so each equation holds for
  every choice of them.

## Model

| member | source | states |
|---|---|---|
| `TypeMapper.MapType` | test.js:16-25 | a name with the `h-` prefix maps to the rest of it (`"h-" + r == t`); any other name is returned unchanged |
| `TypeMapper.MapTypeOfPrefixed` | test.js:170-193 | `"h-" + name` maps back to exactly `name` (`h-card` to `card`, `h-entry` to `entry`) |
| `Normalizer.Mf2ToJf2` | test.js:4-14 | the result is always an object: `{}` when there are no items, and exactly the key `children` when there are two or more |
| `Normalizer.ConvertItem` | test.js:27-44 | an item converts to an object whose keys are `type` (when a type is derived), one key per property, and `children` (when there are children), and nothing else |
| `Normalizer.FlattenProperties` | test.js:27-44 | every property keeps its key: the flattened map has exactly the input's keys |
| `Normalizer.FlattenProperty` | test.js:46-78 | a one-element array of a non-array becomes a non-array; an array of any other length stays an array of that length; a non-array is unchanged |
| `Normalizer.FlattenValue` | test.js:153-193 | an object stays an object (content and nested items are converted to objects); a string passes through unchanged |
| `Normalizer.ContentToJf2` | test.js:80-122 | content converts to an object with key `html`, plus `text` exactly when the input has `value` |
| `Jf2Rules.NoItemsGiveEmptyObject` | test.js:4-14 | a document with no `items` key, or with an empty `items` array, gives `{}` |
| `Jf2Rules.SingleItemUnwrapped` | test.js:16-25 | one item: the result is that item's conversion, not wrapped, and its `type` is the derived type name |
| `Jf2Rules.SeveralItemsBecomeChildren` | test.js:273-296 | two or more items give an object whose only key is `children`, one converted item per input item in input order, with no top-level `type` |
| `Jf2Rules.TypeFromFirstName` | test.js:16-25 | the `type` is the first name of the `type` array with `h-` removed; later names are ignored |
| `Jf2Rules.TypeOnlyItem` | test.js:16-25 | an item with only a type converts to exactly `{type}` |
| `Jf2Rules.OtherFieldsIgnored` | test.js:298-339 | only `type`, `properties` and `children` affect the conversion; other fields, such as a nested card's own `value`, are dropped |
| `Jf2Rules.EveryPropertyFlattened` | test.js:27-44 | each property appears under its own key with its flattened value |
| `Jf2Rules.ChildrenConvertedInOrder` | test.js:195-271 | children are converted item by item, in source order, and stay an array even with a single child |
| `Jf2Rules.SingleValueBecomesScalar` | test.js:46-61 | a one-element array becomes its flattened element, never an array |
| `Jf2Rules.SeveralValuesStayArray` | test.js:63-78 | two or more values stay an array of the same length and order, each element flattened on its own |
| `Jf2Rules.PlainValuesUnchanged` | test.js:124-151 | strings and media objects (no `html`, no `type`) are left exactly as they are, alone or in an array |
| `Jf2Rules.ContentRenamed` | test.js:80-122 | `{html, value}` becomes `{html, text}` with `text` equal to `value`; `{html}` becomes `{html}` with no `text` key |
| `Jf2Rules.NestedItemConverted` | test.js:170-193 | an object with `type` and no `html`, such as a nested `h-card` author, is converted as an item |
| `Jf2Shape.ItemIsJf2` | test.js:195-271 | every well-formed MF2 item converts to a well-formed JF2 object, at every depth of children and nested items |
| `Jf2Shape.PropertyIsJf2` | test.js:46-78 | a well-formed property converts to one JF2 value or to an array of at least two JF2 values |
| `Jf2Shape.ValueIsJf2` | test.js:80-193 | a well-formed value converts to a string, `{html, text?}`, a media object or a JF2 object |
| `Jf2Shape.DocumentIsJf2` | test.js:273-296 | each item of a well-formed document comes out as a JF2 object, as the whole result or as one of its `children` |
| `RoundTrip.ItemRoundTrip` | test.js:195-271 | on a canonical item, `ItemToMf2` applied to the converted item gives back the item exactly |
| `RoundTrip.PropertyRoundTrip` | test.js:46-78 | on a canonical property, `PropertyToMf2` applied to the flattened property gives it back exactly, whatever its arity |
| `RoundTrip.ValueRoundTrip` | test.js:80-193 | on a canonical value (string, content, media, nested item), `ValueToMf2` applied to the flattened value gives it back exactly |
| `RoundTrip.DocumentRoundTrip` | test.js:4-296 | on a canonical document with zero, one or several items, `Jf2ToMf2` applied to the result gives back the document |
| `Scenarios.EmptyObject` | test.js:4-7 | `{}` gives `{}` |
| `Scenarios.EmptyItems` | test.js:9-14 | `{items: []}` gives `{}` |
| `Scenarios.EmptyEntry` | test.js:16-25 | a type-only `h-entry` gives `{type: "entry"}` |
| `Scenarios.FlattenedEntry` | test.js:27-44 | name, published and url become scalars beside `type: "entry"` |
| `Scenarios.SingleTag` | test.js:46-61 | one category becomes a string |
| `Scenarios.MultipleTags` | test.js:63-78 | two categories stay an array |
| `Scenarios.ContentHtmlAndText` | test.js:80-101 | content `{html, value}` becomes `{html, text}` |
| `Scenarios.ContentHtmlOnly` | test.js:103-122 | content `{html}` becomes `{html}` |
| `Scenarios.Media` | test.js:124-151 | two `{alt, value}` photos stay the same array |
| `Scenarios.AuthorFromString` | test.js:153-168 | a string author stays a string |
| `Scenarios.AuthorFromNestedCard` | test.js:170-193 | a nested `h-card` author becomes `{type: "card", name}` |
| `Scenarios.ChildEntryFromFeed` | test.js:195-228 | a feed with an author card and one child entry; the child stays in an array |
| `Scenarios.BothChildEntriesFromFeed` | test.js:230-271 | a feed with two child entries, in order |
| `Scenarios.BareEntries` | test.js:273-296 | two top-level entries give `{children: [...]}` and no `type` |
| `Scenarios.DerivesNote` | test.js:298-339 | the JF2 specification's note: the card's `value` is dropped, content is renamed, and the result's key order does not matter |

## Left out

- The implementation file `index.js` is not part of this model. For input
  shapes the tests never exercise, the model makes a choice, listed below.
  Lemmas stated for all inputs (in `Jf2Rules`, `Jf2Shape` and `RoundTrip`)
  also cover those shapes; there they state the chosen behaviour, not
  behaviour the tests assert.
- Modelling choice, type names: a name without the `h-` prefix is returned
  unchanged, and only a leading `h-` is removed. If the first `type` entry is
  missing or not a string, no `type` key is produced. Further `type` entries
  are ignored.
- Modelling choice, properties: a property whose value is not an array passes
  through unchanged. An empty property array stays `[]`. A missing or
  non-object `properties` field means no properties.
- Modelling choice, single media value: a one-element array holding a media
  object (`[{alt, value}]`) becomes the bare object, like any other
  one-element property. The tests only show two photos staying an array.
- Modelling choice, content keys: content keeps only `html` and `value`
  (renamed `text`). Any other key of a content object, such as `lang`, is
  dropped.
- Modelling choice, content before items: an object with both `html` and
  `type` is treated as content, not as a nested item.
- Modelling choice, key clashes: the output object is built as `type`, then
  the properties, then `children`. A property named `type` therefore
  overrides the derived type, and an item's own children override a property
  named `children`.
- Modelling choice, document fields: only `items` is read. Every other
  field of the document, such as `rels` or `rel-urls`, is dropped.
- Modelling choice, containers: an item that is not an object converts to
  `{}`. A non-array `items` counts as no items. A missing, non-array or empty
  `children` gives no `children` key.
- Key order: the converter is meant to keep the source order of keys. The
  tests compare with order-insensitive deep equality, so objects are maps and
  key order is not modelled.
- JSON numbers, booleans and `null` are not modelled. No test uses them, and
  a value of any such kind would pass through like a string.
- JSON text: parsing and printing are outside the converter. Input and output
  are in-memory trees.
- HTML content is opaque: no parsing or sanitisation.
- The test harness (`ava`, `t.deepEqual`, the module import) is not modelled.
  Only equality of the resulting values is.
