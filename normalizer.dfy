/** The Normalizer: an MF2 parse result in, a JF2 document out.

    Four cooperating rules, each a function below:
    - the Document Dispatcher (`Mf2ToJf2`) decides the top-level shape from
      the number of items;
    - the Item Converter (`ConvertItem`) turns one MF2 item into one JF2 object;
    - the Property Flattener (`FlattenProperties`, `FlattenProperty`,
      `FlattenValue`, with `ContentToJf2` for content) applies the arity rule
      and the content / nested-item rules to each property;
    - the Type Mapper (module TypeMapper) strips the vocabulary prefix.

    `ConvertItem`, `FlattenProperties`, `FlattenProperty` and `FlattenValue`
    are mutually recursive through nested authors and children. */
module Normalizer {
  import opened Json
  import opened TypeMapper

  /** The items of an MF2 document; a missing or non-array `items` means none. */
  function ItemsOf(doc: Value): seq<Value> {
    if Has(doc, "items") && doc.fields["items"].Arr? then doc.fields["items"].elems else []
  }

  /** The JF2 type of an MF2 item: its first `type` entry with the prefix
      stripped, or nothing when there is no such string. */
  function ItemType(item: Value): Option<string> {
    if Has(item, "type") && item.fields["type"].Arr? && |item.fields["type"].elems| > 0
       && item.fields["type"].elems[0].Str?
    then Some(MapType(item.fields["type"].elems[0].str))
    else None
  }

  /** The `properties` mapping of an MF2 item; missing or not an object means none. */
  function PropertiesOf(item: Value): map<string, Value> {
    if Has(item, "properties") && item.fields["properties"].Obj? then item.fields["properties"].fields else map[]
  }

  /** The `children` of an MF2 item; missing or not an array means none. */
  function ChildrenOf(item: Value): seq<Value> {
    if Has(item, "children") && item.fields["children"].Arr? then item.fields["children"].elems else []
  }

  /** Content shape: an object with an `html` key. */
  predicate IsContent(v: Value) {
    Has(v, "html")
  }

  /** Nested item shape: an object with a `type` key and no `html` key
      (the content rule is tried first). */
  predicate IsNestedItem(v: Value) {
    Has(v, "type") && !Has(v, "html")
  }

  /** The keys the Item Converter produces for `item`: `type` when a type is
      derived, one per property, and `children` when there are children. */
  function ItemKeys(item: Value): set<string> {
    (if ItemType(item).Some? then {"type"} else {})
    + PropertiesOf(item).Keys
    + (if |ChildrenOf(item)| > 0 then {"children"} else {})
  }

  /** Item Converter. The result holds `type`, then every property flattened
      under its own key, then `children` converted item by item; any other
      field of the item (such as a nested card's own `value`) is dropped. */
  function ConvertItem(item: Value): (r: Value)
    decreases item, 0
    ensures r.Obj? && r.fields.Keys == ItemKeys(item)
  {
    var typed: map<string, Value> :=
      if ItemType(item).Some? then map["type" := Str(ItemType(item).value)] else map[];
    // The `properties` test is written out rather than calling
    // `PropertiesOf`: it is what shows the recursive call is on a part of
    // `item`, since with no properties `Obj(map[])` is not smaller than `item`.
    var flat :=
      if Has(item, "properties") && item.fields["properties"].Obj?
      then FlattenProperties(item.fields["properties"].fields) else map[];
    var kids := ChildrenOf(item);
    var children: map<string, Value> :=
      if |kids| > 0 then map["children" := Arr(seq(|kids|, i requires 0 <= i < |kids| => ConvertItem(kids[i])))]
      else map[];
    Obj(typed + flat + children)
  }

  /** Every property flattened, under its own key. */
  function FlattenProperties(props: map<string, Value>): (r: map<string, Value>)
    decreases Obj(props), 0
    ensures r.Keys == props.Keys
  {
    map k | k in props :: FlattenProperty(props[k])
  }

  /** Property Flattener, arity rule: a one-element array becomes its
      flattened element; any other array stays an array, element by element. */
  function FlattenProperty(values: Value): (r: Value)
    decreases values, 0
    ensures values.Arr? && |values.elems| == 1 && !values.elems[0].Arr? ==> !r.Arr?
    ensures values.Arr? && |values.elems| != 1 ==> r.Arr? && |r.elems| == |values.elems|
    ensures !values.Arr? ==> r == values
  {
    match values
    case Arr(es) =>
      if |es| == 1 then FlattenValue(es[0])
      else Arr(seq(|es|, i requires 0 <= i < |es| => FlattenValue(es[i])))
    case _ => values
  }

  /** The JF2 form of an MF2 content value: `html` kept, `value` renamed to
      `text`, and no `text` key at all when there is no `value`. */
  function ContentToJf2(content: map<string, Value>): (r: Value)
    requires "html" in content
    ensures r.Obj? && r.fields.Keys == {"html"} + (if "value" in content then {"text"} else {})
  {
    Obj(map["html" := content["html"]]
        + (if "value" in content then map["text" := content["value"]] else map[]))
  }

  /** Property Flattener, one element: content is renamed, a nested item is
      converted, anything else (strings, media objects) passes through. */
  function FlattenValue(v: Value): (r: Value)
    decreases v, 1
    ensures v.Obj? ==> r.Obj?
    ensures !v.Obj? ==> r == v
  {
    if IsContent(v) then ContentToJf2(v.fields)
    else if IsNestedItem(v) then ConvertItem(v)
    else v
  }

  /** Document Dispatcher: no items give `{}`, one item gives its conversion
      unwrapped, more give `{children: [...]}` and nothing else. */
  function Mf2ToJf2(doc: Value): (r: Value)
    ensures r.Obj?
    ensures |ItemsOf(doc)| == 0 ==> r == Empty
    ensures |ItemsOf(doc)| >= 2 ==> r.fields.Keys == {"children"}
  {
    var items := ItemsOf(doc);
    if |items| == 0 then Empty
    else if |items| == 1 then ConvertItem(items[0])
    else Obj(map["children" := Arr(seq(|items|, i requires 0 <= i < |items| => ConvertItem(items[i])))])
  }
}
