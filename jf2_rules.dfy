/** The conversion rules, each stated for all inputs. */
module Jf2Rules {
  import opened Json
  import opened TypeMapper
  import opened Normalizer

  /** A plain value: a string, or an object with neither `html` nor `type`
      (a media reference such as `{alt, value}`). */
  predicate IsPlain(v: Value) {
    v.Str? || (v.Obj? && "html" !in v.fields && "type" !in v.fields)
  }

  // ----- Document Dispatcher -----

  /** A document without `items`, or with an empty `items` array, gives `{}`. */
  lemma NoItemsGiveEmptyObject(doc: Value)
    requires !Has(doc, "items") || doc.fields["items"] == Arr([])
    ensures Mf2ToJf2(doc) == Empty
  {
  }

  /** One item: its conversion is the whole result, not wrapped, and its
      `type` is the item's first type name with the prefix stripped. */
  lemma SingleItemUnwrapped(doc: Value)
    requires |ItemsOf(doc)| == 1
    ensures Mf2ToJf2(doc) == ConvertItem(ItemsOf(doc)[0])
    ensures var item := ItemsOf(doc)[0];
      ItemType(item).Some? && "type" !in PropertiesOf(item) ==>
        Has(Mf2ToJf2(doc), "type") && Mf2ToJf2(doc).fields["type"] == Str(ItemType(item).value)
  {
  }

  /** Two or more items: exactly `{children: [...]}`, one converted item per
      input item in input order, and no top-level `type`. */
  lemma SeveralItemsBecomeChildren(doc: Value)
    requires |ItemsOf(doc)| >= 2
    ensures Mf2ToJf2(doc).fields.Keys == {"children"}
    ensures Mf2ToJf2(doc).fields["children"].Arr?
    ensures |Mf2ToJf2(doc).fields["children"].elems| == |ItemsOf(doc)|
    ensures forall i :: 0 <= i < |ItemsOf(doc)| ==>
              Mf2ToJf2(doc).fields["children"].elems[i] == ConvertItem(ItemsOf(doc)[i])
  {
  }

  // ----- Item Converter -----

  /** The `type` is the first name of the `type` array with `h-` removed;
      later names are ignored. */
  lemma TypeFromFirstName(item: Value, name: string, rest: seq<Value>)
    requires Has(item, "type") && item.fields["type"] == Arr([Str(Prefix + name)] + rest)
    requires "type" !in PropertiesOf(item)
    ensures ConvertItem(item).fields["type"] == Str(name)
  {
  }

  /** An item with only a type gives just `{type}`. */
  lemma TypeOnlyItem(name: string)
    ensures ConvertItem(Obj(map["type" := Arr([Str(Prefix + name)])])) == Obj(map["type" := Str(name)])
  {
    MapTypeOfPrefixed(name);
  }

  /** Only `type`, `properties` and `children` are read: any other field of
      an item (a nested card's own `value`, say) has no effect. */
  lemma OtherFieldsIgnored(item: map<string, Value>)
    ensures ConvertItem(Obj(item))
         == ConvertItem(Obj(map k | k in item && k in {"type", "properties", "children"} :: item[k]))
  {
  }

  /** Every property appears in the output under its own key, flattened
      (unless it is named `children` and the item has children). */
  lemma EveryPropertyFlattened(item: Value, k: string)
    requires k in PropertiesOf(item)
    requires k != "children" || |ChildrenOf(item)| == 0
    ensures k in ConvertItem(item).fields
    ensures ConvertItem(item).fields[k] == FlattenProperty(PropertiesOf(item)[k])
  {
  }

  /** Children are converted item by item, in order, and stay an array even
      when there is only one. */
  lemma ChildrenConvertedInOrder(item: Value)
    requires |ChildrenOf(item)| > 0
    ensures Has(ConvertItem(item), "children")
    ensures ConvertItem(item).fields["children"].Arr?
    ensures |ConvertItem(item).fields["children"].elems| == |ChildrenOf(item)|
    ensures forall i :: 0 <= i < |ChildrenOf(item)| ==>
              ConvertItem(item).fields["children"].elems[i] == ConvertItem(ChildrenOf(item)[i])
  {
  }

  // ----- Property Flattener -----

  /** A one-element array becomes its flattened element: a scalar, never a
      one-element array. */
  lemma SingleValueBecomesScalar(x: Value)
    requires !x.Arr?
    ensures FlattenProperty(Arr([x])) == FlattenValue(x)
    ensures !FlattenProperty(Arr([x])).Arr?
  {
  }

  /** Two or more values stay an array of the same length and order, each
      element flattened on its own. */
  lemma SeveralValuesStayArray(es: seq<Value>)
    requires |es| >= 2
    ensures FlattenProperty(Arr(es)).Arr?
    ensures |FlattenProperty(Arr(es)).elems| == |es|
    ensures forall i :: 0 <= i < |es| ==> FlattenProperty(Arr(es)).elems[i] == FlattenValue(es[i])
  {
  }

  /** Strings and media objects are left exactly as they are, alone or in an
      array of several. */
  lemma PlainValuesUnchanged(es: seq<Value>)
    requires forall i :: 0 <= i < |es| ==> IsPlain(es[i])
    ensures |es| == 1 ==> FlattenProperty(Arr(es)) == es[0]
    ensures |es| != 1 ==> FlattenProperty(Arr(es)) == Arr(es)
  {
  }

  /** Content `{html, value}` becomes `{html, text}` with `text` the old
      `value`; content with only `html` becomes `{html}` with no `text` key. */
  lemma ContentRenamed(content: map<string, Value>)
    requires "html" in content
    ensures FlattenValue(Obj(content)).Obj?
    ensures FlattenValue(Obj(content)).fields.Keys
         == {"html"} + (if "value" in content then {"text"} else {})
    ensures FlattenValue(Obj(content)).fields["html"] == content["html"]
    ensures "value" in content ==> FlattenValue(Obj(content)).fields["text"] == content["value"]
  {
  }

  /** An object with a `type` (and no `html`), such as a nested `h-card`
      author, is converted as an item. */
  lemma NestedItemConverted(nested: map<string, Value>)
    requires "type" in nested && "html" !in nested
    ensures FlattenValue(Obj(nested)) == ConvertItem(Obj(nested))
    ensures FlattenProperty(Arr([Obj(nested)])) == ConvertItem(Obj(nested))
  {
  }
}
