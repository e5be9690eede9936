/** What the conversion keeps. On canonical MF2 — a document with only an
    `items` array (possibly empty), every item typed with one `h-` name, no
    item field beyond `type`, `properties` and `children`, no property named
    `type` or `children`, no empty `properties`, `children` or property
    array, no property value that is itself an array, content values with
    only `html` and `value` — the JF2 result determines the input:
    `Jf2ToMf2` rebuilds it exactly. The conversion only removes redundancy
    (the prefix, one-element arrays, the word `value`); outside canonical
    input it is lossy (a nested card's own `value`, a second type name, an
    empty `properties` object and a document's fields other than `items`,
    such as `rels`, are dropped; a document without `items` comes back as
    `{items: []}`; a property named `type` or `children` collides with the
    item's own key; a one-element array inside a property array loses its
    brackets). */
module RoundTrip {
  import opened Json
  import opened TypeMapper
  import opened Normalizer
  import opened Jf2Rules

  /** The only fields of an MF2 item the converter reads. */
  const ItemFields: set<string> := {"type", "properties", "children"}

  /** A canonical item: one `h-` type name, only the fields the converter
      reads, non-empty containers, no property that clashes with `type` or
      `children`, and canonical properties and children all the way down. */
  predicate CanonicalItem(v: Value)
    decreases v, 0
  {
    && v.Obj?
    && v.fields.Keys <= ItemFields
    && "type" in v.fields
    && v.fields["type"].Arr?
    && |v.fields["type"].elems| == 1
    && v.fields["type"].elems[0].Str?
    && Prefix <= v.fields["type"].elems[0].str
    && ("properties" in v.fields ==>
          && v.fields["properties"].Obj?
          && v.fields["properties"].fields != map[]
          && "type" !in v.fields["properties"].fields
          && "children" !in v.fields["properties"].fields
          && forall k :: k in v.fields["properties"].fields ==>
               CanonicalProperty(v.fields["properties"].fields[k]))
    && ("children" in v.fields ==>
          && v.fields["children"].Arr?
          && |v.fields["children"].elems| > 0
          && forall i :: 0 <= i < |v.fields["children"].elems| ==>
               CanonicalItem(v.fields["children"].elems[i]))
  }

  /** A canonical property: a non-empty array of canonical values. */
  predicate CanonicalProperty(p: Value)
    decreases p, 0
  {
    && p.Arr?
    && |p.elems| > 0
    && forall i :: 0 <= i < |p.elems| ==> CanonicalValue(p.elems[i])
  }

  /** A canonical property value: a string, a content value with only `html`
      and `value`, a media object (neither `html` nor `type`), or a nested
      canonical item. */
  predicate CanonicalValue(e: Value)
    decreases e, 1
  {
    || e.Str?
    || (e.Obj? && "html" in e.fields && e.fields.Keys <= {"html", "value"})
    || (e.Obj? && "html" !in e.fields && "type" !in e.fields)
    || (e.Obj? && "html" !in e.fields && CanonicalItem(e))
  }

  /** A canonical document: exactly `{items: [...]}` with canonical items. */
  predicate CanonicalDocument(doc: Value) {
    && doc.Obj?
    && doc.fields.Keys == {"items"}
    && doc.fields["items"].Arr?
    && forall i :: 0 <= i < |doc.fields["items"].elems| ==> CanonicalItem(doc.fields["items"].elems[i])
  }

  /** Rebuilds an MF2 item from its JF2 object. */
  function ItemToMf2(r: Value): Value
    decreases r, 0
  {
    match r
    case Obj(f) =>
      var typed: map<string, Value> :=
        if "type" in f && f["type"].Str? then map["type" := Arr([Str(Prefix + f["type"].str)])] else map[];
      var props := map k | k in f && k != "type" && k != "children" :: PropertyToMf2(f[k]);
      var properties: map<string, Value> := if props == map[] then map[] else map["properties" := Obj(props)];
      var kids := if "children" in f && f["children"].Arr? then f["children"].elems else [];
      var children: map<string, Value> :=
        if |kids| > 0 then map["children" := Arr(seq(|kids|, i requires 0 <= i < |kids| => ItemToMf2(kids[i])))]
        else map[];
      Obj(typed + properties + children)
    case _ => Empty
  }

  /** Rebuilds an MF2 property array: an array stays one, a scalar is wrapped. */
  function PropertyToMf2(v: Value): Value
    decreases v, 2
  {
    match v
    case Arr(xs) => Arr(seq(|xs|, i requires 0 <= i < |xs| => ValueToMf2(xs[i])))
    case _ => Arr([ValueToMf2(v)])
  }

  /** Rebuilds one MF2 property value: a typed object is an item, an object
      with `html` is content (`text` back to `value`), the rest is unchanged. */
  function ValueToMf2(v: Value): Value
    decreases v, 1
  {
    if Has(v, "type") then ItemToMf2(v)
    else if Has(v, "html") then
      Obj(map["html" := v.fields["html"]]
          + (if "text" in v.fields then map["value" := v.fields["text"]] else map[]))
    else v
  }

  /** Rebuilds an MF2 document: a typed object is its single item, a
      `children` collection its items, anything else no items. */
  function Jf2ToMf2(r: Value): Value {
    if Has(r, "type") then Obj(map["items" := Arr([ItemToMf2(r)])])
    else if Has(r, "children") && r.fields["children"].Arr? then
      var cs := r.fields["children"].elems;
      Obj(map["items" := Arr(seq(|cs|, i requires 0 <= i < |cs| => ItemToMf2(cs[i])))])
    else Obj(map["items" := Arr([])])
  }

  /** The JF2 object's fields of a canonical item, part by part. */
  function TypePart(v: Value): map<string, Value> {
    if Has(v, "type") then map["type" := v.fields["type"]] else map[]
  }

  function PropertiesPart(v: Value): map<string, Value> {
    if PropertiesOf(v) == map[] then map[] else map["properties" := Obj(PropertiesOf(v))]
  }

  function ChildrenPart(v: Value): map<string, Value> {
    if |ChildrenOf(v)| > 0 then map["children" := Arr(ChildrenOf(v))] else map[]
  }

  /** A canonical item is exactly its three parts. */
  lemma CanonicalItemParts(v: Value)
    requires CanonicalItem(v)
    ensures v.fields == TypePart(v) + PropertiesPart(v) + ChildrenPart(v)
  {
    var f := v.fields;
    var m := TypePart(v) + PropertiesPart(v) + ChildrenPart(v);
    assert m.Keys == f.Keys;
    forall k | k in f ensures m[k] == f[k] {
    }
  }

  /** The fields of the properties a JF2 object holds, rebuilt. */
  function PropertiesBack(g: map<string, Value>): map<string, Value> {
    map k | k in g && k != "type" && k != "children" :: PropertyToMf2(g[k])
  }

  /** The children a JF2 object holds. */
  function ChildrenBack(g: map<string, Value>): seq<Value> {
    if "children" in g && g["children"].Arr? then g["children"].elems else []
  }

  /** The children of a JF2 object, rebuilt. */
  function ChildrenRebuilt(g: map<string, Value>): seq<Value> {
    var cs := ChildrenBack(g);
    seq(|cs|, i requires 0 <= i < |cs| => ItemToMf2(cs[i]))
  }

  /** `ItemToMf2` assembles the parts above. */
  lemma ItemToMf2Parts(g: map<string, Value>)
    requires "type" in g && g["type"].Str?
    ensures ItemToMf2(Obj(g)).fields ==
      map["type" := Arr([Str(Prefix + g["type"].str)])]
      + (if PropertiesBack(g) == map[] then map[] else map["properties" := Obj(PropertiesBack(g))])
      + (if |ChildrenBack(g)| > 0 then map["children" := Arr(ChildrenRebuilt(g))] else map[])
  {
  }

  /** The type of a canonical item comes back with its prefix. */
  lemma TypeComesBack(v: Value)
    requires CanonicalItem(v)
    ensures var g := ConvertItem(v).fields;
      && "type" in g && g["type"].Str?
      && map["type" := Arr([Str(Prefix + g["type"].str)])] == TypePart(v)
  {
    var t := v.fields["type"].elems[0].str;
    assert ItemType(v) == Some(MapType(t));
    assert Prefix + MapType(t) == t;
    assert v.fields["type"].elems == [Str(t)];
    assert "type" !in PropertiesOf(v);
  }

  /** Properties of a canonical item come back when each one does. */
  lemma PropertiesComeBack(v: Value)
    requires CanonicalItem(v)
    requires forall k :: k in PropertiesOf(v) ==>
               PropertyToMf2(FlattenProperty(PropertiesOf(v)[k])) == PropertiesOf(v)[k]
    ensures PropertiesBack(ConvertItem(v).fields) == PropertiesOf(v)
  {
    var props := PropertiesOf(v);
    var g := ConvertItem(v).fields;
    forall k | k in props ensures k in g && g[k] == FlattenProperty(props[k]) {
      EveryPropertyFlattened(v, k);
    }
    var back := PropertiesBack(g);
    assert back.Keys == props.Keys;
  }

  /** Children of a canonical item come back, in order, when each one does. */
  lemma ChildrenComeBack(v: Value)
    requires CanonicalItem(v)
    requires forall i :: 0 <= i < |ChildrenOf(v)| ==>
               ItemToMf2(ConvertItem(ChildrenOf(v)[i])) == ChildrenOf(v)[i]
    ensures |ChildrenBack(ConvertItem(v).fields)| == |ChildrenOf(v)|
    ensures ChildrenRebuilt(ConvertItem(v).fields) == ChildrenOf(v)
  {
    var kids := ChildrenOf(v);
    var g := ConvertItem(v).fields;
    var converted := seq(|kids|, i requires 0 <= i < |kids| => ConvertItem(kids[i]));
    if |kids| > 0 {
      assert g["children"] == Arr(converted);
    } else {
      assert "children" !in g;
    }
    assert ChildrenBack(g) == converted;
  }

  /** A canonical item is rebuilt exactly from its JF2 object. */
  lemma {:induction false} ItemRoundTrip(v: Value)
    requires CanonicalItem(v)
    ensures ItemToMf2(ConvertItem(v)) == v
    decreases v, 0
  {
    var props := PropertiesOf(v);
    forall k | k in props ensures PropertyToMf2(FlattenProperty(props[k])) == props[k] {
      PropertyRoundTrip(props[k]);
    }
    var kids := ChildrenOf(v);
    forall i | 0 <= i < |kids| ensures ItemToMf2(ConvertItem(kids[i])) == kids[i] {
      ItemRoundTrip(kids[i]);
    }
    var g := ConvertItem(v).fields;
    TypeComesBack(v);
    PropertiesComeBack(v);
    ChildrenComeBack(v);
    ItemToMf2Parts(g);
    CanonicalItemParts(v);
  }

  /** A canonical property is rebuilt exactly from its flattened form, scalar
      or array alike. */
  lemma {:induction false} PropertyRoundTrip(p: Value)
    requires CanonicalProperty(p)
    ensures PropertyToMf2(FlattenProperty(p)) == p
    decreases p, 0
  {
    var es := p.elems;
    forall i | 0 <= i < |es| ensures ValueToMf2(FlattenValue(es[i])) == es[i] {
      ValueRoundTrip(es[i]);
    }
  }

  /** A canonical string, content, media or nested-item value is rebuilt
      exactly from its flattened form. */
  lemma {:induction false} ValueRoundTrip(e: Value)
    requires CanonicalValue(e)
    ensures ValueToMf2(FlattenValue(e)) == e
    decreases e, 1
  {
    if e.Obj? && "html" !in e.fields && "type" in e.fields {
      ItemRoundTrip(e);
    }
  }

  /** A canonical document with any number of items is rebuilt exactly from
      its JF2 document. */
  lemma {:induction false} DocumentRoundTrip(doc: Value)
    requires CanonicalDocument(doc)
    ensures Jf2ToMf2(Mf2ToJf2(doc)) == doc
  {
    var items := ItemsOf(doc);
    assert doc == Obj(map["items" := Arr(items)]);
    forall i | 0 <= i < |items| ensures ItemToMf2(ConvertItem(items[i])) == items[i] {
      ItemRoundTrip(items[i]);
    }
    if |items| == 1 {
      assert items == [items[0]];
      SingleItemComesBack(items[0]);
    } else if |items| >= 2 {
      SeveralItemsComeBack(items);
    }
  }

  lemma SingleItemComesBack(item: Value)
    requires CanonicalItem(item)
    requires ItemToMf2(ConvertItem(item)) == item
    ensures Jf2ToMf2(Mf2ToJf2(Obj(map["items" := Arr([item])]))) == Obj(map["items" := Arr([item])])
  {
    var doc := Obj(map["items" := Arr([item])]);
    assert ItemsOf(doc) == [item];
    assert ConvertItem(item).fields.Keys == ItemKeys(item);
  }

  lemma SeveralItemsComeBack(items: seq<Value>)
    requires |items| >= 2
    requires forall i :: 0 <= i < |items| ==> ItemToMf2(ConvertItem(items[i])) == items[i]
    ensures Jf2ToMf2(Mf2ToJf2(Obj(map["items" := Arr(items)]))) == Obj(map["items" := Arr(items)])
  {
    var doc := Obj(map["items" := Arr(items)]);
    assert ItemsOf(doc) == items;
    var cs := seq(|items|, i requires 0 <= i < |items| => ConvertItem(items[i]));
    assert Mf2ToJf2(doc) == Obj(map["children" := Arr(cs)]);
    var rebuilt := seq(|cs|, i requires 0 <= i < |cs| => ItemToMf2(cs[i]));
    assert rebuilt == items;
  }
}
