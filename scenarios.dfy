/** The converter's documented examples, each as an equation over the model.
    Text values (names, URLs, dates, HTML) are parameters: the converter never
    looks inside them, so each equation holds whatever they are. */
module Scenarios {
  import opened Json
  import opened TypeMapper
  import opened Normalizer
  import opened Jf2Rules

  /** An MF2 parse result with the given items. */
  function Doc(items: seq<Value>): Value {
    Obj(map["items" := Arr(items)])
  }

  /** An MF2 item with one type name and the given properties. */
  function Item(typeName: string, props: map<string, Value>): Value {
    Obj(map["type" := Arr([Str(typeName)]), "properties" := Obj(props)])
  }

  /** An MF2 item with one type name, properties and children. */
  function Parent(typeName: string, props: map<string, Value>, kids: seq<Value>): Value {
    Obj(map["type" := Arr([Str(typeName)]), "properties" := Obj(props), "children" := Arr(kids)])
  }

  /** A one-value MF2 property. */
  function One(s: string): Value {
    Arr([Str(s)])
  }

  /** The JF2 form of an item with only a name. */
  function Named(typeName: string, name: string): Value {
    Obj(map["type" := Str(typeName), "name" := Str(name)])
  }

  // ----- steps shared by the scenarios -----

  lemma FlatUpdate(props: map<string, Value>, k: string, v: Value)
    ensures FlattenProperties(props[k := v]) == FlattenProperties(props)[k := FlattenProperty(v)]
  {
  }

  lemma OneFlattens(s: string)
    ensures FlattenProperty(One(s)) == Str(s)
  {
  }

  lemma SingleDoc(x: Value)
    ensures Mf2ToJf2(Doc([x])) == ConvertItem(x)
  {
  }

  lemma TypeName(name: string, prefixed: string)
    requires prefixed == Prefix + name
    ensures MapType(prefixed) == name
  {
    MapTypeOfPrefixed(name);
  }

  lemma ItemConverts(name: string, typeName: string, props: map<string, Value>)
    requires typeName == Prefix + name
    ensures ConvertItem(Item(typeName, props)) == Obj(map["type" := Str(name)] + FlattenProperties(props))
  {
    TypeName(name, typeName);
  }

  lemma SingleItemDoc(name: string, typeName: string, props: map<string, Value>)
    requires typeName == Prefix + name
    ensures Mf2ToJf2(Doc([Item(typeName, props)])) == Obj(map["type" := Str(name)] + FlattenProperties(props))
  {
    SingleDoc(Item(typeName, props));
    ItemConverts(name, typeName, props);
  }

  lemma Flat1(k1: string, v1: Value)
    ensures FlattenProperties(map[k1 := v1]) == map[k1 := FlattenProperty(v1)]
  {
    FlatUpdate(map[], k1, v1);
  }

  lemma Flat2(k1: string, v1: Value, k2: string, v2: Value)
    ensures FlattenProperties(map[k1 := v1, k2 := v2]) == map[k1 := FlattenProperty(v1), k2 := FlattenProperty(v2)]
  {
    Flat1(k1, v1);
    FlatUpdate(map[k1 := v1], k2, v2);
  }

  lemma Flat3(k1: string, v1: Value, k2: string, v2: Value, k3: string, v3: Value)
    ensures FlattenProperties(map[k1 := v1, k2 := v2, k3 := v3])
         == map[k1 := FlattenProperty(v1), k2 := FlattenProperty(v2), k3 := FlattenProperty(v3)]
  {
    Flat2(k1, v1, k2, v2);
    FlatUpdate(map[k1 := v1, k2 := v2], k3, v3);
  }

  lemma Flat6(k1: string, v1: Value, k2: string, v2: Value, k3: string, v3: Value,
              k4: string, v4: Value, k5: string, v5: Value, k6: string, v6: Value)
    ensures FlattenProperties(map[k1 := v1, k2 := v2, k3 := v3, k4 := v4, k5 := v5, k6 := v6])
         == map[k1 := FlattenProperty(v1), k2 := FlattenProperty(v2), k3 := FlattenProperty(v3),
                k4 := FlattenProperty(v4), k5 := FlattenProperty(v5), k6 := FlattenProperty(v6)]
  {
    Flat3(k1, v1, k2, v2, k3, v3);
    FlatUpdate(map[k1 := v1, k2 := v2, k3 := v3], k4, v4);
    FlatUpdate(map[k1 := v1, k2 := v2, k3 := v3, k4 := v4], k5, v5);
    FlatUpdate(map[k1 := v1, k2 := v2, k3 := v3, k4 := v4, k5 := v5], k6, v6);
  }

  lemma Plus1(m: map<string, Value>, k1: string, v1: Value)
    ensures m + map[k1 := v1] == m[k1 := v1]
  {
  }

  lemma Plus2(m: map<string, Value>, k1: string, v1: Value, k2: string, v2: Value)
    ensures m + map[k1 := v1, k2 := v2] == m[k1 := v1][k2 := v2]
  {
  }

  lemma Plus3(m: map<string, Value>, k1: string, v1: Value, k2: string, v2: Value, k3: string, v3: Value)
    ensures m + map[k1 := v1, k2 := v2, k3 := v3] == m[k1 := v1][k2 := v2][k3 := v3]
  {
  }

  lemma TwoItemsDoc(x: Value, y: Value)
    ensures Mf2ToJf2(Doc([x, y])) == Obj(map["children" := Arr([ConvertItem(x), ConvertItem(y)])])
  {
    var items := [x, y];
    assert ItemsOf(Doc(items)) == items;
    assert seq(|items|, i requires 0 <= i < |items| => ConvertItem(items[i])) == [ConvertItem(x), ConvertItem(y)];
  }

  lemma ContentFlattens(html: string, text: string)
    ensures FlattenProperty(Arr([Obj(map["html" := Str(html), "value" := Str(text)])]))
         == Obj(map["html" := Str(html), "text" := Str(text)])
  {
  }

  lemma HtmlOnlyFlattens(html: string)
    ensures FlattenProperty(Arr([Obj(map["html" := Str(html)])])) == Obj(map["html" := Str(html)])
  {
  }

  lemma CardFlattens(author: string)
    ensures FlattenProperty(Arr([Item("h-card", map["name" := One(author)])])) == Named("card", author)
  {
    NamedConverts("card", "h-card", author);
  }

  lemma NamedConverts(name: string, typeName: string, n: string)
    requires typeName == Prefix + name
    ensures ConvertItem(Item(typeName, map["name" := One(n)])) == Named(name, n)
  {
    ItemConverts(name, typeName, map["name" := One(n)]);
    Flat1("name", One(n));
    OneFlattens(n);
    Plus1(map["type" := Str(name)], "name", Str(n));
  }

  // ----- the scenarios -----

  lemma EmptyObject()
    ensures Mf2ToJf2(Empty) == Empty
  {
  }

  lemma EmptyItems()
    ensures Mf2ToJf2(Doc([])) == Empty
  {
  }

  lemma EmptyEntry()
    ensures Mf2ToJf2(Doc([Obj(map["type" := Arr([Str("h-entry")])])])) == Obj(map["type" := Str("entry")])
  {
    TypeName("entry", "h-entry");
  }

  lemma FlattenedEntry(name: string, published: string, url: string)
    ensures Mf2ToJf2(Doc([Item("h-entry", map["name" := One(name), "published" := One(published), "url" := One(url)])]))
         == Obj(map["type" := Str("entry"), "name" := Str(name), "published" := Str(published), "url" := Str(url)])
  {
    SingleItemDoc("entry", "h-entry", map["name" := One(name), "published" := One(published), "url" := One(url)]);
    Flat3("name", One(name), "published", One(published), "url", One(url));
    OneFlattens(name); OneFlattens(published); OneFlattens(url);
    Plus3(map["type" := Str("entry")], "name", Str(name), "published", Str(published), "url", Str(url));
  }

  lemma SingleTag(name: string, tag: string)
    ensures Mf2ToJf2(Doc([Item("h-entry", map["name" := One(name), "category" := One(tag)])]))
         == Obj(map["type" := Str("entry"), "name" := Str(name), "category" := Str(tag)])
  {
    SingleItemDoc("entry", "h-entry", map["name" := One(name), "category" := One(tag)]);
    Flat2("name", One(name), "category", One(tag));
    OneFlattens(name); OneFlattens(tag);
    Plus2(map["type" := Str("entry")], "name", Str(name), "category", Str(tag));
  }

  lemma MultipleTags(name: string, tag1: string, tag2: string)
    ensures Mf2ToJf2(Doc([Item("h-entry", map["name" := One(name), "category" := Arr([Str(tag1), Str(tag2)])])]))
         == Obj(map["type" := Str("entry"), "name" := Str(name), "category" := Arr([Str(tag1), Str(tag2)])])
  {
    var tags := Arr([Str(tag1), Str(tag2)]);
    SingleItemDoc("entry", "h-entry", map["name" := One(name), "category" := tags]);
    Flat2("name", One(name), "category", tags);
    OneFlattens(name);
    PlainValuesUnchanged([Str(tag1), Str(tag2)]);
    Plus2(map["type" := Str("entry")], "name", Str(name), "category", tags);
  }

  lemma ContentHtmlAndText(name: string, html: string, text: string)
    ensures Mf2ToJf2(Doc([Item("h-entry", map["name" := One(name),
                                              "content" := Arr([Obj(map["html" := Str(html), "value" := Str(text)])])])]))
         == Obj(map["type" := Str("entry"), "name" := Str(name),
                    "content" := Obj(map["html" := Str(html), "text" := Str(text)])])
  {
    var content := Arr([Obj(map["html" := Str(html), "value" := Str(text)])]);
    var flat := Obj(map["html" := Str(html), "text" := Str(text)]);
    SingleItemDoc("entry", "h-entry", map["name" := One(name), "content" := content]);
    Flat2("name", One(name), "content", content);
    OneFlattens(name);
    ContentFlattens(html, text);
    Plus2(map["type" := Str("entry")], "name", Str(name), "content", flat);
  }

  lemma ContentHtmlOnly(name: string, html: string)
    ensures Mf2ToJf2(Doc([Item("h-entry", map["name" := One(name),
                                              "content" := Arr([Obj(map["html" := Str(html)])])])]))
         == Obj(map["type" := Str("entry"), "name" := Str(name),
                    "content" := Obj(map["html" := Str(html)])])
  {
    var content := Arr([Obj(map["html" := Str(html)])]);
    var flat := Obj(map["html" := Str(html)]);
    SingleItemDoc("entry", "h-entry", map["name" := One(name), "content" := content]);
    Flat2("name", One(name), "content", content);
    OneFlattens(name);
    HtmlOnlyFlattens(html);
    Plus2(map["type" := Str("entry")], "name", Str(name), "content", flat);
  }

  lemma Media(name: string, alt1: string, url1: string, alt2: string, url2: string)
    ensures var photos := Arr([Obj(map["alt" := Str(alt1), "value" := Str(url1)]),
                               Obj(map["alt" := Str(alt2), "value" := Str(url2)])]);
      Mf2ToJf2(Doc([Item("h-entry", map["name" := One(name), "photo" := photos])]))
        == Obj(map["type" := Str("entry"), "name" := Str(name), "photo" := photos])
  {
    var photos := Arr([Obj(map["alt" := Str(alt1), "value" := Str(url1)]),
                       Obj(map["alt" := Str(alt2), "value" := Str(url2)])]);
    SingleItemDoc("entry", "h-entry", map["name" := One(name), "photo" := photos]);
    Flat2("name", One(name), "photo", photos);
    OneFlattens(name);
    PlainValuesUnchanged(photos.elems);
    Plus2(map["type" := Str("entry")], "name", Str(name), "photo", photos);
  }

  lemma AuthorFromString(name: string, author: string)
    ensures Mf2ToJf2(Doc([Item("h-entry", map["name" := One(name), "author" := One(author)])]))
         == Obj(map["type" := Str("entry"), "name" := Str(name), "author" := Str(author)])
  {
    SingleItemDoc("entry", "h-entry", map["name" := One(name), "author" := One(author)]);
    Flat2("name", One(name), "author", One(author));
    OneFlattens(name); OneFlattens(author);
    Plus2(map["type" := Str("entry")], "name", Str(name), "author", Str(author));
  }

  lemma AuthorFromNestedCard(name: string, author: string)
    ensures Mf2ToJf2(Doc([Item("h-entry", map["name" := One(name),
                                              "author" := Arr([Item("h-card", map["name" := One(author)])])])]))
         == Obj(map["type" := Str("entry"), "name" := Str(name), "author" := Named("card", author)])
  {
    var card := Arr([Item("h-card", map["name" := One(author)])]);
    SingleItemDoc("entry", "h-entry", map["name" := One(name), "author" := card]);
    Flat2("name", One(name), "author", card);
    OneFlattens(name);
    CardFlattens(author);
    Plus2(map["type" := Str("entry")], "name", Str(name), "author", Named("card", author));
  }

  /** A feed with a nested author card and the given entries as children. */
  function Feed(name: string, author: string, entries: seq<string>): Value {
    Parent("h-feed", map["author" := Arr([Item("h-card", map["name" := One(author)])]), "name" := One(name)],
           seq(|entries|, i requires 0 <= i < |entries| => Item("h-entry", map["name" := One(entries[i])])))
  }

  /** The JF2 form of `Feed`. */
  function FeedJf2(name: string, author: string, entries: seq<string>): Value {
    Obj(map["type" := Str("feed"), "name" := Str(name), "author" := Named("card", author),
            "children" := Arr(seq(|entries|, i requires 0 <= i < |entries| => Named("entry", entries[i])))])
  }

  lemma ParentConverts(name: string, typeName: string, props: map<string, Value>, kids: seq<Value>)
    requires typeName == Prefix + name && |kids| > 0
    ensures ConvertItem(Parent(typeName, props, kids))
         == Obj(map["type" := Str(name)] + FlattenProperties(props)
                + map["children" := Arr(seq(|kids|, i requires 0 <= i < |kids| => ConvertItem(kids[i])))])
  {
    TypeName(name, typeName);
  }

  lemma FeedConverts(name: string, author: string, entries: seq<string>)
    requires |entries| > 0
    ensures ConvertItem(Feed(name, author, entries)) == FeedJf2(name, author, entries)
  {
    var card := Arr([Item("h-card", map["name" := One(author)])]);
    var kids := seq(|entries|, i requires 0 <= i < |entries| => Item("h-entry", map["name" := One(entries[i])]));
    var converted := seq(|kids|, i requires 0 <= i < |kids| => ConvertItem(kids[i]));
    var expected := seq(|entries|, i requires 0 <= i < |entries| => Named("entry", entries[i]));
    forall i | 0 <= i < |entries| ensures converted[i] == expected[i] {
      NamedConverts("entry", "h-entry", entries[i]);
    }
    assert converted == expected;
    ParentConverts("feed", "h-feed", map["author" := card, "name" := One(name)], kids);
    Flat2("author", card, "name", One(name));
    OneFlattens(name);
    CardFlattens(author);
    Plus2(map["type" := Str("feed")], "author", Named("card", author), "name", Str(name));
    FeedKeyOrder(name, author, Arr(expected));
  }

  /** The JF2 object of a feed, whatever the order its keys are listed in. */
  lemma FeedKeyOrder(name: string, author: string, children: Value)
    ensures map["type" := Str("feed")][ "author" := Named("card", author)]["name" := Str(name)]
            + map["children" := children]
         == map["type" := Str("feed"), "name" := Str(name), "author" := Named("card", author), "children" := children]
  {
  }

  lemma ChildEntryFromFeed(name: string, author: string, entry: string)
    ensures Mf2ToJf2(Doc([Feed(name, author, [entry])])) == FeedJf2(name, author, [entry])
  {
    SingleDoc(Feed(name, author, [entry]));
    FeedConverts(name, author, [entry]);
  }

  lemma BothChildEntriesFromFeed(name: string, author: string, entry1: string, entry2: string)
    ensures Mf2ToJf2(Doc([Feed(name, author, [entry1, entry2])])) == FeedJf2(name, author, [entry1, entry2])
  {
    SingleDoc(Feed(name, author, [entry1, entry2]));
    FeedConverts(name, author, [entry1, entry2]);
  }

  lemma BareEntries(nameA: string, nameB: string)
    ensures Mf2ToJf2(Doc([Item("h-entry", map["name" := One(nameA)]), Item("h-entry", map["name" := One(nameB)])]))
         == Obj(map["children" := Arr([Named("entry", nameA), Named("entry", nameB)])])
  {
    TwoItemsDoc(Item("h-entry", map["name" := One(nameA)]), Item("h-entry", map["name" := One(nameB)]));
    NamedConverts("entry", "h-entry", nameA);
    NamedConverts("entry", "h-entry", nameB);
  }

  /** An item whose own fields include a `value` beside its type and
      properties: the `value` is dropped. */
  lemma ItemWithValueConverts(name: string, typeName: string, props: map<string, Value>, value: Value)
    requires typeName == Prefix + name
    ensures ConvertItem(Obj(map["type" := Arr([Str(typeName)]), "properties" := Obj(props), "value" := value]))
         == Obj(map["type" := Str(name)] + FlattenProperties(props))
  {
    TypeName(name, typeName);
  }

  /** The "deriving a note" example of the JF2 specification. */
  lemma DerivesNote(author: string, authorUrl: string, name: string, summary: string, url: string,
                    published: string, html: string, text: string)
    ensures
      var card := Obj(map["type" := Arr([Str("h-card")]),
                          "properties" := Obj(map["name" := One(author), "url" := One(authorUrl)]),
                          "value" := Str(author)]);
      Mf2ToJf2(Doc([Item("h-entry", map["author" := Arr([card]), "name" := One(name), "summary" := One(summary),
                                        "url" := One(url), "published" := One(published),
                                        "content" := Arr([Obj(map["html" := Str(html), "value" := Str(text)])])])]))
        == Obj(map["type" := Str("entry"),
                   "author" := Obj(map["type" := Str("card"), "url" := Str(authorUrl), "name" := Str(author)]),
                   "url" := Str(url), "published" := Str(published), "name" := Str(name), "summary" := Str(summary),
                   "content" := Obj(map["html" := Str(html), "text" := Str(text)])])
  {
    var cardProps := map["name" := One(author), "url" := One(authorUrl)];
    var card := Obj(map["type" := Arr([Str("h-card")]), "properties" := Obj(cardProps), "value" := Str(author)]);
    var cardJf2 := Obj(map["type" := Str("card"), "url" := Str(authorUrl), "name" := Str(author)]);
    NoteCardFlattens(author, authorUrl);
    var content := Arr([Obj(map["html" := Str(html), "value" := Str(text)])]);
    var contentJf2 := Obj(map["html" := Str(html), "text" := Str(text)]);
    ContentFlattens(html, text);
    var props := map["author" := Arr([card]), "name" := One(name), "summary" := One(summary),
                     "url" := One(url), "published" := One(published), "content" := content];
    SingleItemDoc("entry", "h-entry", props);
    Flat6("author", Arr([card]), "name", One(name), "summary", One(summary),
          "url", One(url), "published", One(published), "content", content);
    OneFlattens(name); OneFlattens(summary); OneFlattens(url); OneFlattens(published);
    NoteKeyOrder(cardJf2, name, summary, url, published, contentJf2);
  }

  /** The note's author: an `h-card` with a name, a URL and its own `value`. */
  lemma NoteCardFlattens(author: string, authorUrl: string)
    ensures
      var card := Obj(map["type" := Arr([Str("h-card")]),
                          "properties" := Obj(map["name" := One(author), "url" := One(authorUrl)]),
                          "value" := Str(author)]);
      FlattenProperty(Arr([card])) == Obj(map["type" := Str("card"), "url" := Str(authorUrl), "name" := Str(author)])
  {
    var cardProps := map["name" := One(author), "url" := One(authorUrl)];
    ItemWithValueConverts("card", "h-card", cardProps, Str(author));
    Flat2("name", One(author), "url", One(authorUrl));
    OneFlattens(author); OneFlattens(authorUrl);
    CardKeyOrder(author, authorUrl);
  }

  lemma CardKeyOrder(author: string, authorUrl: string)
    ensures map["type" := Str("card")] + map["name" := Str(author), "url" := Str(authorUrl)]
         == map["type" := Str("card"), "url" := Str(authorUrl), "name" := Str(author)]
  {
  }

  lemma NoteKeyOrder(author: Value, name: string, summary: string, url: string, published: string, content: Value)
    ensures map["type" := Str("entry")]
            + map["author" := author, "name" := Str(name), "summary" := Str(summary),
                  "url" := Str(url), "published" := Str(published), "content" := content]
         == map["type" := Str("entry"), "author" := author, "url" := Str(url), "published" := Str(published),
                "name" := Str(name), "summary" := Str(summary), "content" := content]
  {
  }
}
