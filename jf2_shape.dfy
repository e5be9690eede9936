/** The shape of what comes out. Any well-formed MF2 item (typed, its
    properties non-empty arrays of strings, content, media or nested items)
    converts to a JF2 object: a string `type`, every property a scalar or an
    array of at least two values (never a one-element or nested array),
    content as `{html, text?}`, nested items and children as JF2 objects. */
module Jf2Shape {
  import opened Json
  import opened Normalizer

  /** A well-formed MF2 item: an object whose first type name is a string,
      whose properties are well-formed, and whose children are well-formed
      items. No property is named `type` or `children`. Other fields are
      allowed and ignored. */
  predicate Mf2Item(v: Value)
    decreases v, 0
  {
    && v.Obj?
    && ItemType(v).Some?
    && "type" !in PropertiesOf(v)
    && "children" !in PropertiesOf(v)
    && (forall k :: k in PropertiesOf(v) ==> Mf2Property(PropertiesOf(v)[k]))
    && (forall i :: 0 <= i < |ChildrenOf(v)| ==> Mf2Item(ChildrenOf(v)[i]))
  }

  /** A well-formed MF2 property: a non-empty array of well-formed values. */
  predicate Mf2Property(p: Value)
    decreases p, 0
  {
    && p.Arr?
    && |p.elems| > 0
    && forall i :: 0 <= i < |p.elems| ==> Mf2Value(p.elems[i])
  }

  /** A well-formed MF2 value: a string, a content object (it has `html`),
      a media object (neither `html` nor `type`) or a well-formed nested item. */
  predicate Mf2Value(e: Value)
    decreases e, 1
  {
    || e.Str?
    || (e.Obj? && ("html" in e.fields || "type" !in e.fields || Mf2Item(e)))
  }

  /** A JF2 object: a string `type`, a non-empty `children` array of JF2
      objects when present, and every other key a JF2 property. */
  predicate Jf2Item(r: Value)
    decreases r, 0
  {
    && r.Obj?
    && "type" in r.fields && r.fields["type"].Str?
    && ("children" in r.fields ==>
          && r.fields["children"].Arr?
          && |r.fields["children"].elems| > 0
          && forall i :: 0 <= i < |r.fields["children"].elems| ==> Jf2Item(r.fields["children"].elems[i]))
    && forall k :: k in r.fields && k != "type" && k != "children" ==> Jf2Property(r.fields[k])
  }

  /** A JF2 property: one JF2 value, or an array of two or more of them. */
  predicate Jf2Property(p: Value)
    decreases p, 2
  {
    if p.Arr? then |p.elems| >= 2 && forall i :: 0 <= i < |p.elems| ==> Jf2Value(p.elems[i])
    else Jf2Value(p)
  }

  /** A JF2 value: a string, content `{html, text?}`, a media object, or a
      nested JF2 object (told apart from content by its `type`). Never an
      array. */
  predicate Jf2Value(e: Value)
    decreases e, 1
  {
    || e.Str?
    || (e.Obj? && "html" in e.fields && e.fields.Keys <= {"html", "text"})
    || (e.Obj? && "html" !in e.fields && "type" !in e.fields)
    || Jf2Item(e)
  }

  /** A well-formed MF2 item converts to a JF2 object, at every depth. */
  lemma {:induction false} ItemIsJf2(v: Value)
    requires Mf2Item(v)
    ensures Jf2Item(ConvertItem(v))
    decreases v, 0
  {
    var r := ConvertItem(v);
    var props := PropertiesOf(v);
    var kids := ChildrenOf(v);
    forall k | k in r.fields && k != "type" && k != "children"
      ensures Jf2Property(r.fields[k])
    {
      assert k in props && r.fields[k] == FlattenProperty(props[k]);
      PropertyIsJf2(props[k]);
    }
    if |kids| > 0 {
      var cs := r.fields["children"].elems;
      assert |cs| == |kids|;
      forall i | 0 <= i < |cs| ensures Jf2Item(cs[i]) {
        assert cs[i] == ConvertItem(kids[i]);
        ItemIsJf2(kids[i]);
      }
    }
  }

  /** A well-formed MF2 property converts to a JF2 property. */
  lemma {:induction false} PropertyIsJf2(p: Value)
    requires Mf2Property(p)
    ensures Jf2Property(FlattenProperty(p))
    decreases p, 0
  {
    var es := p.elems;
    forall i | 0 <= i < |es| ensures Jf2Value(FlattenValue(es[i])) {
      ValueIsJf2(es[i]);
    }
  }

  /** A well-formed MF2 value converts to a JF2 value. */
  lemma {:induction false} ValueIsJf2(e: Value)
    requires Mf2Value(e)
    ensures Jf2Value(FlattenValue(e))
    decreases e, 1
  {
    if e.Obj? && "html" !in e.fields && "type" in e.fields {
      ItemIsJf2(e);
    }
  }

  /** Every item of a document of well-formed items comes out as a JF2
      object, whether as the whole result or as one of its `children`. */
  lemma {:induction false} DocumentIsJf2(doc: Value)
    requires forall i :: 0 <= i < |ItemsOf(doc)| ==> Mf2Item(ItemsOf(doc)[i])
    ensures |ItemsOf(doc)| == 1 ==> Jf2Item(Mf2ToJf2(doc))
    ensures |ItemsOf(doc)| >= 2 ==>
      forall i :: 0 <= i < |ItemsOf(doc)| ==> Jf2Item(Mf2ToJf2(doc).fields["children"].elems[i])
  {
    var items := ItemsOf(doc);
    forall i | 0 <= i < |items| ensures Jf2Item(ConvertItem(items[i])) {
      ItemIsJf2(items[i]);
    }
  }
}
