/**
 * The RSS 2.0 parser of the channel lambda (`parse_rss`): it walks the
 * direct children of `<channel>` and builds a dictionary of channel
 * properties and an ordered list of item dictionaries.
 *
 * The specification is a family of left-to-right folds (`ItemFrom`,
 * `ImageFrom`, `TextInputFrom`, `ChannelFrom`): each takes the dictionary
 * built so far and the elements still to visit. The methods at the end walk
 * the same elements with loops that update the dictionaries in place and are
 * proved equal to the folds.
 */
module Rss {
  import opened Wrappers
  import opened Feed

  /** The library calls the parser leans on, as partial functions:
      `datetime.strptime(s, "%a, %d %b %Y %H:%M:%S %z").isoformat()`
      (the date-time format of section 5 of RFC 822) and `int(s)`. */
  datatype Lib = Lib(parseDate: string -> Option<string>, parseInt: string -> Option<int>)

  /** `strptime` on an element's text; an absent text raises as well. */
  function DateOf(t: Option<string>, lib: Lib): Option<string>
  {
    if t.Some? then lib.parseDate(t.value) else None
  }

  /** `int` on an element's text; an absent text raises as well. */
  function IntOf(t: Option<string>, lib: Lib): Option<int>
  {
    if t.Some? then lib.parseInt(t.value) else None
  }

  /** The list accumulated so far under a `setdefault(key, [])` key. */
  function CategoriesOf(m: Props, key: string): seq<Option<string>>
  {
    if key in m && m[key].Texts? then m[key].texts else []
  }

  /** The key an item sub-element overwrites, for every tag but `category`. */
  function ItemKey(tag: string): Option<string>
  {
    if tag == "title" then Some("itemTitle")
    else if tag == "link" then Some("itemLink")
    else if tag == "description" then Some("itemDescription")
    else if tag == "author" then Some("itemAuthor")
    else if tag == "comments" then Some("itemComments")
    else if tag == "guid" then Some("itemGuid")
    else if tag == "pubDate" then Some("itemPubDate")
    else if tag == "enclosure" then Some("itemenClosure")
    else if tag == "source" then Some("itemSource")
    else None
  }

  /** `item_element.attrib` with `name` set to the element's text. */
  function SourceFields(e: Element): Props
  {
    AttribFields(e.attrib)["name" := Text(e.text)]
  }

  /** The value an item sub-element stores under its `ItemKey`. */
  function ItemValue(e: Element, lib: Lib): Result<Value, ParseError>
  {
    if e.tag == "pubDate" then
      (match DateOf(e.text, lib)
       case Some(d) => Success(Text(Some(d)))
       case None => Failure(BadDate(e.text)))
    else if e.tag == "enclosure" then Success(Fields(AttribFields(e.attrib)))
    else if e.tag == "source" then Success(Fields(SourceFields(e)))
    else Success(Text(e.text))
  }

  /** One sub-element of an `<item>` applied to the item dictionary:
      categories accumulate, recognised tags overwrite, others are skipped. */
  function ItemStep(m: Props, e: Element, lib: Lib): Result<Props, ParseError>
  {
    if e.tag == "category" then
      Success(m["itemCategories" := Texts(CategoriesOf(m, "itemCategories") + [e.text])])
    else if ItemKey(e.tag).Some? then
      (match ItemValue(e, lib)
       case Failure(err) => Failure(err)
       case Success(v) => Success(m[ItemKey(e.tag).value := v]))
    else
      Success(m)
  }

  /** The item dictionary reached from `m` by visiting `cs` in order. */
  function ItemFrom(m: Props, cs: seq<Element>, lib: Lib): Result<Props, ParseError>
    decreases |cs|
  {
    if cs == [] then Success(m)
    else match ItemStep(m, cs[0], lib)
      case Failure(err) => Failure(err)
      case Success(m') => ItemFrom(m', cs[1..], lib)
  }

  /** One sub-element of `<image>` applied to the image dictionary. */
  function ImageStep(m: Props, e: Element, lib: Lib): Result<Props, ParseError>
  {
    if e.tag in {"url", "title", "link", "description"} then
      Success(m[e.tag := Text(e.text)])
    else if e.tag in {"width", "height"} then
      (match IntOf(e.text, lib)
       case Some(n) => Success(m[e.tag := Num(n)])
       case None => Failure(BadInt(e.text)))
    else
      Success(m)
  }

  function ImageFrom(m: Props, cs: seq<Element>, lib: Lib): Result<Props, ParseError>
    decreases |cs|
  {
    if cs == [] then Success(m)
    else match ImageStep(m, cs[0], lib)
      case Failure(err) => Failure(err)
      case Success(m') => ImageFrom(m', cs[1..], lib)
  }

  /** One sub-element of `<textInput>` applied to its dictionary. */
  function TextInputStep(m: Props, e: Element): Props
  {
    if e.tag in {"name", "title", "link", "description"} then m[e.tag := Text(e.text)] else m
  }

  function TextInputFrom(m: Props, cs: seq<Element>): Props
    decreases |cs|
  {
    if cs == [] then m else TextInputFrom(TextInputStep(m, cs[0]), cs[1..])
  }

  /** `acc` followed by `[int(t) for t in ts]`: fails as soon as one text is not an integer. */
  function IntsFrom(acc: seq<int>, ts: seq<Option<string>>, lib: Lib): Result<seq<int>, ParseError>
    decreases |ts|
  {
    if ts == [] then Success(acc)
    else match IntOf(ts[0], lib)
      case None => Failure(BadInt(ts[0]))
      case Some(n) => IntsFrom(acc + [n], ts[1..], lib)
  }

  /** The list stored under `channelSkipHours`: every `hour` of every
      `skipHours` of every channel, read from the root. */
  function SkipHours(root: Element, lib: Lib): Result<seq<int>, ParseError>
  {
    IntsFrom([], TextsOf(HourElements(root)), lib)
  }

  /** The list stored under `channelSkipDays`. */
  function SkipDays(root: Element): seq<Option<string>>
  {
    TextsOf(DayElements(root))
  }

  /** The two results of `parse_rss`. */
  datatype Parsed = Parsed(channel: Props, items: seq<Props>)

  /** The key a child of `<channel>` overwrites, for every tag but `item` and `category`. */
  function ChannelKey(tag: string): Option<string>
  {
    if tag == "title" then Some("channelTitle")
    else if tag == "link" then Some("channelLink")
    else if tag == "description" then Some("channelDescription")
    else if tag == "language" then Some("channelLanguage")
    else if tag == "copyright" then Some("channelCopyright")
    else if tag == "managingEditor" then Some("channelManagingEditor")
    else if tag == "webMaster" then Some("channelWebMaster")
    else if tag == "pubDate" then Some("channelPubDate")
    else if tag == "lastBuildDate" then Some("channelLastBuildDate")
    else if tag == "generator" then Some("channelGenerator")
    else if tag == "docs" then Some("channelDocs")
    else if tag == "cloud" then Some("channelCloud")
    else if tag == "ttl" then Some("channelTtl")
    else if tag == "image" then Some("channelImage")
    else if tag == "rating" then Some("channelRating")
    else if tag == "textInput" then Some("channelTextInput")
    else if tag == "skipHours" then Some("channelSkipHours")
    else if tag == "skipDays" then Some("channelSkipDays")
    else None
  }

  /** The value a child of `<channel>` stores under its `ChannelKey`. */
  function ChannelValue(root: Element, e: Element, lib: Lib): Result<Value, ParseError>
  {
    if e.tag == "pubDate" || e.tag == "lastBuildDate" then
      (match DateOf(e.text, lib)
       case None => Failure(BadDate(e.text))
       case Some(d) => Success(Text(Some(d))))
    else if e.tag == "cloud" then Success(Fields(AttribFields(e.attrib)))
    else if e.tag == "ttl" then
      (match IntOf(e.text, lib)
       case None => Failure(BadInt(e.text))
       case Some(n) => Success(Num(n)))
    else if e.tag == "image" then
      (match ImageFrom(map[], e.children, lib)
       case Failure(err) => Failure(err)
       case Success(image) => Success(Fields(image)))
    else if e.tag == "textInput" then Success(Fields(TextInputFrom(map[], e.children)))
    else if e.tag == "skipHours" then
      (match SkipHours(root, lib)
       case Failure(err) => Failure(err)
       case Success(hours) => Success(Nums(hours)))
    else if e.tag == "skipDays" then Success(Texts(SkipDays(root)))
    else Success(Text(e.text))
  }

  /** One child of `<channel>` applied to the parser state: an item is
      appended, categories accumulate, recognised tags overwrite. */
  function ChannelStep(root: Element, st: Parsed, e: Element, lib: Lib): Result<Parsed, ParseError>
  {
    var m := st.channel;
    if e.tag == "item" then
      (match ItemFrom(map[], e.children, lib)
       case Failure(err) => Failure(err)
       case Success(item) => Success(Parsed(m, st.items + [item])))
    else if e.tag == "category" then
      Success(st.(channel := m["channelCategories" := Texts(CategoriesOf(m, "channelCategories") + [e.text])]))
    else if ChannelKey(e.tag).Some? then
      (match ChannelValue(root, e, lib)
       case Failure(err) => Failure(err)
       case Success(v) => Success(st.(channel := m[ChannelKey(e.tag).value := v])))
    else
      Success(st)
  }

  function ChannelFrom(root: Element, st: Parsed, cs: seq<Element>, lib: Lib): Result<Parsed, ParseError>
    decreases |cs|
  {
    if cs == [] then Success(st)
    else match ChannelStep(root, st, cs[0], lib)
      case Failure(err) => Failure(err)
      case Success(st') => ChannelFrom(root, st', cs[1..], lib)
  }

  /** What `parse_rss` returns for the document whose root element is `root`:
      the channel dictionary and the item list, or the error that aborted it. */
  function ParseRssSpec(root: Element, lib: Lib): Result<Parsed, ParseError>
  {
    ChannelFrom(root, Parsed(map[], []), ChannelChildren(root), lib)
  }

  /** The inner loop of `parse_rss` over the sub-elements of one `<item>`. */
  method ParseItem(element: Element, lib: Lib) returns (r: Result<Props, ParseError>)
    ensures r == ItemFrom(map[], element.children, lib)
  {
    var cs := element.children;
    var item: Props := map[];
    var j := 0;
    while j < |cs|
      invariant 0 <= j <= |cs|
      invariant ItemFrom(item, cs[j..], lib) == ItemFrom(map[], cs, lib)
    {
      var e := cs[j];
      assert cs[j..] == [e] + cs[j + 1..];
      if e.tag == "category" {
        var categories := if "itemCategories" in item && item["itemCategories"].Texts? then item["itemCategories"].texts else [];
        item := item["itemCategories" := Texts(categories + [e.text])];
      } else if e.tag == "title" {
        item := item["itemTitle" := Text(e.text)];
      } else if e.tag == "link" {
        item := item["itemLink" := Text(e.text)];
      } else if e.tag == "description" {
        item := item["itemDescription" := Text(e.text)];
      } else if e.tag == "author" {
        item := item["itemAuthor" := Text(e.text)];
      } else if e.tag == "comments" {
        item := item["itemComments" := Text(e.text)];
      } else if e.tag == "guid" {
        item := item["itemGuid" := Text(e.text)];
      } else if e.tag == "pubDate" {
        var date := DateOf(e.text, lib);
        if date.None? {
          return Failure(BadDate(e.text));
        }
        item := item["itemPubDate" := Text(Some(date.value))];
      } else if e.tag == "enclosure" {
        item := item["itemenClosure" := Fields(AttribFields(e.attrib))];
      } else if e.tag == "source" {
        var source := AttribFields(e.attrib);
        source := source["name" := Text(e.text)];
        item := item["itemSource" := Fields(source)];
      }
      j := j + 1;
    }
    r := Success(item);
  }

  /** The inner loop over the sub-elements of one `<image>`. */
  method ParseImage(element: Element, lib: Lib) returns (r: Result<Props, ParseError>)
    ensures r == ImageFrom(map[], element.children, lib)
  {
    var cs := element.children;
    var image: Props := map[];
    var j := 0;
    while j < |cs|
      invariant 0 <= j <= |cs|
      invariant ImageFrom(image, cs[j..], lib) == ImageFrom(map[], cs, lib)
    {
      var e := cs[j];
      assert cs[j..] == [e] + cs[j + 1..];
      if e.tag == "url" {
        image := image["url" := Text(e.text)];
      }
      if e.tag == "title" {
        image := image["title" := Text(e.text)];
      }
      if e.tag == "link" {
        image := image["link" := Text(e.text)];
      }
      if e.tag == "width" || e.tag == "height" {
        var n := IntOf(e.text, lib);
        if n.None? {
          return Failure(BadInt(e.text));
        }
        image := image[e.tag := Num(n.value)];
      }
      if e.tag == "description" {
        image := image["description" := Text(e.text)];
      }
      j := j + 1;
    }
    r := Success(image);
  }

  /** The inner loop over the sub-elements of one `<textInput>`. */
  method ParseTextInput(element: Element) returns (r: Props)
    ensures r == TextInputFrom(map[], element.children)
  {
    var cs := element.children;
    r := map[];
    var j := 0;
    while j < |cs|
      invariant 0 <= j <= |cs|
      invariant TextInputFrom(r, cs[j..]) == TextInputFrom(map[], cs)
    {
      var e := cs[j];
      assert cs[j..] == [e] + cs[j + 1..];
      if e.tag == "name" {
        r := r["name" := Text(e.text)];
      }
      if e.tag == "title" {
        r := r["title" := Text(e.text)];
      }
      if e.tag == "link" {
        r := r["link" := Text(e.text)];
      }
      if e.tag == "description" {
        r := r["description" := Text(e.text)];
      }
      j := j + 1;
    }
  }

  /** `[int(hour.text) for hour in ...]` over the texts of the hour elements. */
  method ParseHours(ts: seq<Option<string>>, lib: Lib) returns (r: Result<seq<int>, ParseError>)
    ensures r == IntsFrom([], ts, lib)
  {
    var hours: seq<int> := [];
    var j := 0;
    while j < |ts|
      invariant 0 <= j <= |ts|
      invariant IntsFrom(hours, ts[j..], lib) == IntsFrom([], ts, lib)
    {
      assert ts[j..] == [ts[j]] + ts[j + 1..];
      var n := IntOf(ts[j], lib);
      if n.None? {
        return Failure(BadInt(ts[j]));
      }
      hours := hours + [n.value];
      j := j + 1;
    }
    r := Success(hours);
  }

  /** One pass of the loop of `parse_rss`: the child `e` of `<channel>`
      applied to the channel dictionary and the item list. */
  method ParseChannelElement(root: Element, channelProperties: Props, items: seq<Props>, e: Element, lib: Lib)
    returns (r: Result<Parsed, ParseError>)
    ensures r == ChannelStep(root, Parsed(channelProperties, items), e, lib)
  {
    var channelProperties, items := channelProperties, items;
    if e.tag == "item" {
      var item := ParseItem(e, lib);
      if item.Failure? {
        return Failure(item.error);
      }
      items := items + [item.value];
    } else if e.tag == "category" {
      var categories := if "channelCategories" in channelProperties && channelProperties["channelCategories"].Texts?
                        then channelProperties["channelCategories"].texts else [];
      channelProperties := channelProperties["channelCategories" := Texts(categories + [e.text])];
    } else if e.tag == "title" {
      channelProperties := channelProperties["channelTitle" := Text(e.text)];
    } else if e.tag == "link" {
      channelProperties := channelProperties["channelLink" := Text(e.text)];
    } else if e.tag == "description" {
      channelProperties := channelProperties["channelDescription" := Text(e.text)];
    } else if e.tag == "language" {
      channelProperties := channelProperties["channelLanguage" := Text(e.text)];
    } else if e.tag == "copyright" {
      channelProperties := channelProperties["channelCopyright" := Text(e.text)];
    } else if e.tag == "managingEditor" {
      channelProperties := channelProperties["channelManagingEditor" := Text(e.text)];
    } else if e.tag == "webMaster" {
      channelProperties := channelProperties["channelWebMaster" := Text(e.text)];
    } else if e.tag == "pubDate" {
      var date := DateOf(e.text, lib);
      if date.None? {
        return Failure(BadDate(e.text));
      }
      channelProperties := channelProperties["channelPubDate" := Text(Some(date.value))];
    } else if e.tag == "lastBuildDate" {
      var date := DateOf(e.text, lib);
      if date.None? {
        return Failure(BadDate(e.text));
      }
      channelProperties := channelProperties["channelLastBuildDate" := Text(Some(date.value))];
    } else if e.tag == "generator" {
      channelProperties := channelProperties["channelGenerator" := Text(e.text)];
    } else if e.tag == "docs" {
      channelProperties := channelProperties["channelDocs" := Text(e.text)];
    } else if e.tag == "cloud" {
      channelProperties := channelProperties["channelCloud" := Fields(AttribFields(e.attrib))];
    } else if e.tag == "ttl" {
      var ttl := IntOf(e.text, lib);
      if ttl.None? {
        return Failure(BadInt(e.text));
      }
      channelProperties := channelProperties["channelTtl" := Num(ttl.value)];
    } else if e.tag == "image" {
      var image := ParseImage(e, lib);
      if image.Failure? {
        return Failure(image.error);
      }
      channelProperties := channelProperties["channelImage" := Fields(image.value)];
    } else if e.tag == "rating" {
      channelProperties := channelProperties["channelRating" := Text(e.text)];
    } else if e.tag == "textInput" {
      var textInput := ParseTextInput(e);
      channelProperties := channelProperties["channelTextInput" := Fields(textInput)];
    } else if e.tag == "skipHours" {
      var hours := ParseHours(TextsOf(HourElements(root)), lib);
      if hours.Failure? {
        return Failure(hours.error);
      }
      channelProperties := channelProperties["channelSkipHours" := Nums(hours.value)];
    } else if e.tag == "skipDays" {
      channelProperties := channelProperties["channelSkipDays" := Texts(TextsOf(DayElements(root)))];
    }
    r := Success(Parsed(channelProperties, items));
  }

  /** `parse_rss`: the loop over the children of `<channel>`. */
  method ParseRss(root: Element, lib: Lib) returns (r: Result<Parsed, ParseError>)
    ensures r == ParseRssSpec(root, lib)
  {
    var channelProperties: Props := map[];
    var items: seq<Props> := [];
    var elements := ChannelChildren(root);
    var i := 0;
    while i < |elements|
      invariant 0 <= i <= |elements|
      invariant ChannelFrom(root, Parsed(channelProperties, items), elements[i..], lib) == ParseRssSpec(root, lib)
    {
      var e := elements[i];
      assert elements[i..] == [e] + elements[i + 1..];
      var next := ParseChannelElement(root, channelProperties, items, e, lib);
      if next.Failure? {
        return Failure(next.error);
      }
      channelProperties, items := next.value.channel, next.value.items;
      i := i + 1;
    }
    r := Success(Parsed(channelProperties, items));
  }
}
