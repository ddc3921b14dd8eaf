/**
 * What `parse_rss` promises, proved about the folds of module Rss: one item
 * dictionary per `<item>` in document order, accumulation of `<category>`,
 * last occurrence wins for every other recognised tag, the exact key sets of
 * the dictionaries, and failure of the whole parse on one bad date or integer.
 */
module RssProps {
  import opened Wrappers
  import opened Feed
  import opened Rss

  /** The last element of `cs` whose tag is `t`. */
  function LastWith(cs: seq<Element>, t: string): (r: Option<Element>)
    ensures r.Some? ==> r.value in cs && r.value.tag == t
    ensures r.None? ==> forall c :: c in cs ==> c.tag != t
    ensures r.Some? ==> exists i :: 0 <= i < |cs| && cs[i] == r.value && forall j :: i < j < |cs| ==> cs[j].tag != t
  {
    if cs == [] then None
    else match LastWith(cs[1..], t)
      case Some(e) => Some(e)
      case None => if cs[0].tag == t then Some(cs[0]) else None
  }

  /** The keys an item sub-element with tag `tag` writes. */
  function ItemKeysOfTag(tag: string): set<string>
  {
    if tag == "category" then {"itemCategories"}
    else if ItemKey(tag).Some? then {ItemKey(tag).value}
    else {}
  }

  /** Every key an item dictionary can hold. */
  const ItemKeyNames: set<string> :=
    {"itemCategories", "itemTitle", "itemLink", "itemDescription", "itemAuthor",
     "itemComments", "itemGuid", "itemPubDate", "itemenClosure", "itemSource"}

  lemma ItemKeyInjective(a: string, b: string)
    requires ItemKey(a).Some? && ItemKey(a) == ItemKey(b)
    ensures a == b
  {
  }

  lemma ItemKeyNotCategories(t: string)
    ensures ItemKey(t) != Some("itemCategories")
    ensures ItemKeysOfTag(t) <= ItemKeyNames
  {
  }

  /** Repeated `<category>` sub-elements accumulate in document order. */
  lemma {:induction false} ItemCategoriesAccumulate(m: Props, cs: seq<Element>, lib: Lib, m': Props)
    requires ItemFrom(m, cs, lib) == Success(m')
    ensures CategoriesOf(m', "itemCategories") == CategoriesOf(m, "itemCategories") + TextsOf(Select(cs, "category"))
    decreases |cs|
  {
    if cs == [] {
      assert m' == m;
    } else {
      var m1 := ItemFromCons(m, cs, lib, m');
      ItemStepCategories(m, cs[0], lib, m1);
      ItemCategoriesAccumulate(m1, cs[1..], lib, m');
      CategoryTexts(cs);
      AppendRegroup(CategoriesOf(m, "itemCategories"), CategoriesOf(m1, "itemCategories"),
           if cs[0].tag == "category" then [cs[0].text] else [], TextsOf(Select(cs[1..], "category")),
           TextsOf(Select(cs, "category")), CategoriesOf(m', "itemCategories"));
    }
  }

  /** One step of a successful item fold. */
  lemma ItemFromCons(m: Props, cs: seq<Element>, lib: Lib, m': Props) returns (m1: Props)
    requires cs != [] && ItemFrom(m, cs, lib) == Success(m')
    ensures ItemStep(m, cs[0], lib) == Success(m1)
    ensures ItemFrom(m1, cs[1..], lib) == Success(m')
  {
    m1 := ItemStep(m, cs[0], lib).value;
  }

  lemma ItemStepCategories(m: Props, c: Element, lib: Lib, m1: Props)
    requires ItemStep(m, c, lib) == Success(m1)
    ensures CategoriesOf(m1, "itemCategories") ==
            CategoriesOf(m, "itemCategories") + (if c.tag == "category" then [c.text] else [])
  {
    ItemKeyNotCategories(c.tag);
  }

  /** A recognised tag other than `category` overwrites: the item holds the
      value of its last occurrence, or what it held before if there is none. */
  lemma {:induction false} ItemLastWins(m: Props, cs: seq<Element>, lib: Lib, m': Props, t: string)
    requires ItemFrom(m, cs, lib) == Success(m')
    requires ItemKey(t).Some?
    ensures LastWith(cs, t).None? ==>
              (ItemKey(t).value in m' <==> ItemKey(t).value in m) &&
              (ItemKey(t).value in m ==> m'[ItemKey(t).value] == m[ItemKey(t).value])
    ensures LastWith(cs, t).Some? ==>
              ItemValue(LastWith(cs, t).value, lib).Success? &&
              ItemKey(t).value in m' && m'[ItemKey(t).value] == ItemValue(LastWith(cs, t).value, lib).value
    decreases |cs|
  {
    if cs != [] {
      var c := cs[0];
      var m1 := ItemStep(m, c, lib).value;
      ItemLastWins(m1, cs[1..], lib, m', t);
      ItemKeyNotCategories(t);
      if c.tag != t && ItemKey(c.tag).Some? {
        if ItemKey(c.tag) == ItemKey(t) {
          ItemKeyInjective(c.tag, t);
        }
      }
    }
  }

  /** The item's keys are those it started with plus exactly the keys of
      the recognised tags among `cs`: unrecognised tags add nothing. */
  lemma {:induction false} ItemKeysExact(m: Props, cs: seq<Element>, lib: Lib, m': Props)
    requires ItemFrom(m, cs, lib) == Success(m')
    ensures forall k :: k in m' <==> k in m || exists c :: c in cs && k in ItemKeysOfTag(c.tag)
    decreases |cs|
  {
    if cs != [] {
      var c := cs[0];
      var m1 := ItemStep(m, c, lib).value;
      ItemKeysExact(m1, cs[1..], lib, m');
      assert forall e :: e in cs <==> e == c || e in cs[1..];
    }
  }

  /** An item dictionary holds only known keys; in particular never `guid`. */
  lemma ItemKeysKnown(cs: seq<Element>, lib: Lib, m': Props)
    requires ItemFrom(map[], cs, lib) == Success(m')
    ensures m'.Keys <= ItemKeyNames
    ensures "guid" !in m'
  {
    ItemKeysExact(map[], cs, lib, m');
    forall k | k in m' ensures k in ItemKeyNames {
      var c :| c in cs && k in ItemKeysOfTag(c.tag);
      ItemKeyNotCategories(c.tag);
    }
  }

  /** Parsing an item fails exactly when one of its `pubDate` texts is not a date. */
  lemma {:induction false} ItemFailsIff(m: Props, cs: seq<Element>, lib: Lib)
    ensures ItemFrom(m, cs, lib).Failure? <==>
            exists c :: c in cs && c.tag == "pubDate" && DateOf(c.text, lib).None?
    decreases |cs|
  {
    if cs != [] {
      var c := cs[0];
      assert forall e :: e in cs <==> e == c || e in cs[1..];
      match ItemStep(m, c, lib)
      case Failure(_) =>
      case Success(m1) => ItemFailsIff(m1, cs[1..], lib);
    }
  }

  const ImageTags: set<string> := {"url", "title", "link", "width", "height", "description"}

  const TextInputTags: set<string> := {"name", "title", "link", "description"}

  /** An image dictionary holds exactly the tags of its recognised sub-elements. */
  lemma {:induction false} ImageKeysExact(m: Props, cs: seq<Element>, lib: Lib, m': Props)
    requires ImageFrom(m, cs, lib) == Success(m')
    ensures forall k :: k in m' <==> k in m || (k in ImageTags && exists c :: c in cs && c.tag == k)
    decreases |cs|
  {
    if cs != [] {
      var c := cs[0];
      ImageKeysExact(ImageStep(m, c, lib).value, cs[1..], lib, m');
      assert forall e :: e in cs <==> e == c || e in cs[1..];
    }
  }

  /** Parsing an image fails exactly when a `width` or `height` text is not an integer. */
  lemma {:induction false} ImageFailsIff(m: Props, cs: seq<Element>, lib: Lib)
    ensures ImageFrom(m, cs, lib).Failure? <==>
            exists c :: c in cs && (c.tag == "width" || c.tag == "height") && IntOf(c.text, lib).None?
    decreases |cs|
  {
    if cs != [] {
      var c := cs[0];
      assert forall e :: e in cs <==> e == c || e in cs[1..];
      match ImageStep(m, c, lib)
      case Failure(_) =>
      case Success(m1) => ImageFailsIff(m1, cs[1..], lib);
    }
  }

  /** A text-input dictionary holds exactly the tags of its recognised sub-elements. */
  lemma {:induction false} TextInputKeysExact(m: Props, cs: seq<Element>)
    ensures forall k :: k in TextInputFrom(m, cs) <==>
                        k in m || (k in TextInputTags && exists c :: c in cs && c.tag == k)
    decreases |cs|
  {
    if cs != [] {
      var c := cs[0];
      TextInputKeysExact(TextInputStep(m, c), cs[1..]);
      assert forall e :: e in cs <==> e == c || e in cs[1..];
    }
  }

  /** A successful list conversion keeps the order and parses every text. */
  lemma {:induction false} IntsInOrder(acc: seq<int>, ts: seq<Option<string>>, lib: Lib, r: seq<int>)
    requires IntsFrom(acc, ts, lib) == Success(r)
    ensures |r| == |acc| + |ts| && r[..|acc|] == acc
    ensures forall i :: 0 <= i < |ts| ==> IntOf(ts[i], lib) == Some(r[|acc| + i])
    decreases |ts|
  {
    if ts != [] {
      var n := IntOf(ts[0], lib).value;
      IntsInOrder(acc + [n], ts[1..], lib, r);
      assert r[..|acc|] == (acc + [n])[..|acc|];
      forall i | 0 <= i < |ts| ensures IntOf(ts[i], lib) == Some(r[|acc| + i]) {
        if i > 0 {
          assert ts[i] == ts[1..][i - 1];
        }
      }
    }
  }

  /** A list conversion fails exactly when one text is not an integer. */
  lemma {:induction false} IntsFailIff(acc: seq<int>, ts: seq<Option<string>>, lib: Lib)
    ensures IntsFrom(acc, ts, lib).Failure? <==> exists t :: t in ts && IntOf(t, lib).None?
    decreases |ts|
  {
    if ts != [] {
      assert forall t :: t in ts <==> t == ts[0] || t in ts[1..];
      if IntOf(ts[0], lib).Some? {
        IntsFailIff(acc + [IntOf(ts[0], lib).value], ts[1..], lib);
      }
    }
  }

  /** `channelSkipHours` holds the hour of every `skipHours/hour` element of the document, in order. */
  lemma SkipHoursInOrder(root: Element, lib: Lib, hours: seq<int>)
    requires SkipHours(root, lib) == Success(hours)
    ensures |hours| == |HourElements(root)|
    ensures forall i :: 0 <= i < |hours| ==> IntOf(HourElements(root)[i].text, lib) == Some(hours[i])
  {
    IntsInOrder([], TextsOf(HourElements(root)), lib, hours);
  }

  /** The keys a child of `<channel>` with tag `tag` writes into the channel dictionary. */
  function ChannelKeysOfTag(tag: string): set<string>
  {
    if tag == "category" then {"channelCategories"}
    else if tag != "item" && ChannelKey(tag).Some? then {ChannelKey(tag).value}
    else {}
  }

  /** The last element of `cs` that writes channel key `k`. */
  function LastWriting(cs: seq<Element>, k: string): (r: Option<Element>)
    ensures r.Some? ==> r.value in cs && ChannelKey(r.value.tag) == Some(k)
    ensures r.None? ==> forall c :: c in cs ==> ChannelKey(c.tag) != Some(k)
    ensures r.Some? ==> exists i :: 0 <= i < |cs| && cs[i] == r.value && forall j :: i < j < |cs| ==> ChannelKey(cs[j].tag) != Some(k)
  {
    if cs == [] then None
    else match LastWriting(cs[1..], k)
      case Some(e) => Some(e)
      case None => if ChannelKey(cs[0].tag) == Some(k) then Some(cs[0]) else None
  }

  /** Proof step only: no tag is stored under the category key, and `item` and `category` have no key. */
  lemma ChannelKeyFacts(t: string)
    ensures ChannelKey(t) != Some("channelCategories")
    ensures ChannelKey("item").None? && ChannelKey("category").None?
  {
  }

  lemma ChannelStepCategories(root: Element, st: Parsed, c: Element, lib: Lib, st1: Parsed)
    requires ChannelStep(root, st, c, lib) == Success(st1)
    ensures CategoriesOf(st1.channel, "channelCategories") ==
            CategoriesOf(st.channel, "channelCategories") + (if c.tag == "category" then [c.text] else [])
  {
    ChannelKeyFacts(c.tag);
    if c.tag == "category" {
    } else if c.tag == "item" {
    } else if ChannelKey(c.tag).Some? {
      assert st1.channel == st.channel[ChannelKey(c.tag).value := ChannelValue(root, c, lib).value];
    }
  }

  lemma CategoryTexts(cs: seq<Element>)
    requires cs != []
    ensures TextsOf(Select(cs, "category")) ==
            (if cs[0].tag == "category" then [cs[0].text] else []) + TextsOf(Select(cs[1..], "category"))
  {
    var rest := Select(cs[1..], "category");
    if cs[0].tag == "category" {
      assert Select(cs, "category") == [cs[0]] + rest;
      assert TextsOf([cs[0]] + rest) == [cs[0].text] + TextsOf(rest);
    }
  }

  /** One step of a successful channel fold. */
  lemma ChannelFromCons(root: Element, st: Parsed, cs: seq<Element>, lib: Lib, st': Parsed) returns (st1: Parsed)
    requires cs != [] && ChannelFrom(root, st, cs, lib) == Success(st')
    ensures ChannelStep(root, st, cs[0], lib) == Success(st1)
    ensures ChannelFrom(root, st1, cs[1..], lib) == Success(st')
  {
    st1 := ChannelStep(root, st, cs[0], lib).value;
  }

  /** Proof step only: `(a + x) + r == a + (x + r)`, with every part named. */
  lemma AppendRegroup<T>(a: seq<T>, b: seq<T>, x: seq<T>, r: seq<T>, t: seq<T>, z: seq<T>)
    requires b == a + x && t == x + r && z == b + r
    ensures z == a + t
  {
  }

  /** Repeated `<category>` children of the channel accumulate in document order. */
  lemma {:induction false} ChannelCategoriesAccumulate(root: Element, st: Parsed, cs: seq<Element>, lib: Lib, st': Parsed)
    requires ChannelFrom(root, st, cs, lib) == Success(st')
    ensures CategoriesOf(st'.channel, "channelCategories") ==
            CategoriesOf(st.channel, "channelCategories") + TextsOf(Select(cs, "category"))
    decreases |cs|
  {
    if cs == [] {
      assert st' == st;
    } else {
      var st1 := ChannelFromCons(root, st, cs, lib, st');
      ChannelStepCategories(root, st, cs[0], lib, st1);
      ChannelCategoriesAccumulate(root, st1, cs[1..], lib, st');
      CategoryTexts(cs);
      AppendRegroup(CategoriesOf(st.channel, "channelCategories"), CategoriesOf(st1.channel, "channelCategories"),
           if cs[0].tag == "category" then [cs[0].text] else [], TextsOf(Select(cs[1..], "category")),
           TextsOf(Select(cs, "category")), CategoriesOf(st'.channel, "channelCategories"));
    }
  }

  /** Every other recognised child of the channel overwrites: the channel holds
      the value of its last occurrence. For `image` and `textInput` that value
      is built from that element's sub-elements alone, so each new one resets it. */
  lemma {:induction false} ChannelLastWins(root: Element, st: Parsed, cs: seq<Element>, lib: Lib, st': Parsed, k: string)
    requires ChannelFrom(root, st, cs, lib) == Success(st')
    requires k != "channelCategories"
    ensures LastWriting(cs, k).None? ==>
              (k in st'.channel <==> k in st.channel) && (k in st.channel ==> st'.channel[k] == st.channel[k])
    ensures LastWriting(cs, k).Some? ==>
              ChannelValue(root, LastWriting(cs, k).value, lib).Success? &&
              k in st'.channel && st'.channel[k] == ChannelValue(root, LastWriting(cs, k).value, lib).value
    decreases |cs|
  {
    if cs != [] {
      var c := cs[0];
      ChannelKeyFacts(c.tag);
      match ChannelStep(root, st, c, lib)
      case Success(st1) =>
        ChannelLastWins(root, st1, cs[1..], lib, st', k);
    }
  }

  /** The channel dictionary's keys are exactly those of the recognised
      children of `<channel>`: items and unrecognised tags add none. */
  lemma {:induction false} ChannelKeysExact(root: Element, st: Parsed, cs: seq<Element>, lib: Lib, st': Parsed)
    requires ChannelFrom(root, st, cs, lib) == Success(st')
    ensures forall k :: k in st'.channel <==> k in st.channel || exists c :: c in cs && k in ChannelKeysOfTag(c.tag)
    decreases |cs|
  {
    if cs != [] {
      var c := cs[0];
      ChannelKeyFacts(c.tag);
      ChannelKeysExact(root, ChannelStep(root, st, c, lib).value, cs[1..], lib, st');
      assert forall e :: e in cs <==> e == c || e in cs[1..];
    }
  }

  /** The item dictionary of one `<item>` element, or the empty one when it does not parse. */
  function ItemOf(e: Element, lib: Lib): Props
  {
    match ItemFrom(map[], e.children, lib)
    case Success(item) => item
    case Failure(_) => map[]
  }

  function ItemsOf(es: seq<Element>, lib: Lib): (r: seq<Props>)
    ensures |r| == |es|
    ensures forall k :: 0 <= k < |es| ==> r[k] == ItemOf(es[k], lib)
  {
    if es == [] then [] else [ItemOf(es[0], lib)] + ItemsOf(es[1..], lib)
  }

  lemma ChannelStepItems(root: Element, st: Parsed, c: Element, lib: Lib, st1: Parsed)
    requires ChannelStep(root, st, c, lib) == Success(st1)
    ensures c.tag == "item" ==> ItemFrom(map[], c.children, lib).Success? && st1.items == st.items + [ItemOf(c, lib)]
    ensures c.tag != "item" ==> st1.items == st.items
  {
  }

  /** Every `<item>` child, and nothing else, appends one dictionary, in order. */
  lemma {:induction false} ChannelItems(root: Element, st: Parsed, cs: seq<Element>, lib: Lib, st': Parsed)
    requires ChannelFrom(root, st, cs, lib) == Success(st')
    ensures st'.items == st.items + ItemsOf(Select(cs, "item"), lib)
    ensures forall e :: e in Select(cs, "item") ==> ItemFrom(map[], e.children, lib).Success?
    decreases |cs|
  {
    if cs != [] {
      var c := cs[0];
      match ChannelStep(root, st, c, lib)
      case Success(st1) =>
        ChannelItems(root, st1, cs[1..], lib, st');
        ChannelStepItems(root, st, c, lib, st1);
        var rest := Select(cs[1..], "item");
        if c.tag == "item" {
          assert Select(cs, "item") == [c] + rest;
          assert ItemsOf([c] + rest, lib) == [ItemOf(c, lib)] + ItemsOf(rest, lib);
          assert st1.items == st.items + [ItemOf(c, lib)];
          assert (st.items + [ItemOf(c, lib)]) + ItemsOf(rest, lib) == st.items + ([ItemOf(c, lib)] + ItemsOf(rest, lib));
        } else {
          assert Select(cs, "item") == rest;
          assert st1.items == st.items;
        }
    }
  }

  /** The children of `<channel>` whose presence makes `parse_rss` raise. */
  ghost predicate BadElement(root: Element, e: Element, lib: Lib)
  {
    || (e.tag == "item" && exists c :: c in e.children && c.tag == "pubDate" && DateOf(c.text, lib).None?)
    || ((e.tag == "pubDate" || e.tag == "lastBuildDate") && DateOf(e.text, lib).None?)
    || (e.tag == "ttl" && IntOf(e.text, lib).None?)
    || (e.tag == "image" &&
        exists c :: c in e.children && (c.tag == "width" || c.tag == "height") && IntOf(c.text, lib).None?)
    || (e.tag == "skipHours" && exists h :: h in HourElements(root) && IntOf(h.text, lib).None?)
  }

  lemma ChannelStepFailure(root: Element, st: Parsed, e: Element, lib: Lib)
    ensures ChannelStep(root, st, e, lib).Failure? <==>
            || (e.tag == "item" && ItemFrom(map[], e.children, lib).Failure?)
            || (e.tag != "item" && e.tag != "category" && ChannelKey(e.tag).Some? && ChannelValue(root, e, lib).Failure?)
  {
  }

  lemma ChannelValueFailure(root: Element, e: Element, lib: Lib)
    ensures ChannelValue(root, e, lib).Failure? <==>
            || ((e.tag == "pubDate" || e.tag == "lastBuildDate") && DateOf(e.text, lib).None?)
            || (e.tag == "ttl" && IntOf(e.text, lib).None?)
            || (e.tag == "image" && ImageFrom(map[], e.children, lib).Failure?)
            || (e.tag == "skipHours" && SkipHours(root, lib).Failure?)
  {
  }

  lemma SkipHoursFailsIff(root: Element, lib: Lib)
    ensures SkipHours(root, lib).Failure? <==> exists h :: h in HourElements(root) && IntOf(h.text, lib).None?
  {
    var ts := TextsOf(HourElements(root));
    IntsFailIff([], ts, lib);
    assert forall t :: t in ts <==> exists h :: h in HourElements(root) && h.text == t;
  }

  lemma ChannelStepFailsIff(root: Element, st: Parsed, e: Element, lib: Lib)
    ensures ChannelStep(root, st, e, lib).Failure? <==> BadElement(root, e, lib)
  {
    ChannelStepFailure(root, st, e, lib);
    ChildFailsIff(root, e, lib);
  }

  /** The condition of `ChannelStepFailure`, element by element. */
  lemma ChildFailsIff(root: Element, e: Element, lib: Lib)
    ensures || (e.tag == "item" && ItemFrom(map[], e.children, lib).Failure?)
            || (e.tag != "item" && e.tag != "category" && ChannelKey(e.tag).Some? && ChannelValue(root, e, lib).Failure?)
            <==> BadElement(root, e, lib)
  {
    ChannelKeyFacts(e.tag);
    if e.tag == "item" {
      ItemFailsIff(map[], e.children, lib);
    } else if e.tag != "category" {
      ValueFailsIff(root, e, lib);
    }
  }

  lemma ValueFailsIff(root: Element, e: Element, lib: Lib)
    requires e.tag != "item" && e.tag != "category"
    ensures ChannelKey(e.tag).Some? && ChannelValue(root, e, lib).Failure? <==> BadElement(root, e, lib)
  {
    if e.tag == "image" {
      ImageValueFailsIff(root, e, lib);
    } else if e.tag == "skipHours" {
      SkipHoursValueFailsIff(root, e, lib);
    } else {
      ChannelValueFailure(root, e, lib);
      if e.tag == "ttl" {
        assert ChannelKey("ttl").Some?;
      } else if e.tag == "pubDate" || e.tag == "lastBuildDate" {
        assert ChannelKey(e.tag).Some?;
      }
    }
  }

  lemma ImageValueFailsIff(root: Element, e: Element, lib: Lib)
    requires e.tag == "image"
    ensures ChannelKey(e.tag).Some? && ChannelValue(root, e, lib).Failure? <==> BadElement(root, e, lib)
  {
    ChannelValueFailure(root, e, lib);
    ImageFailsIff(map[], e.children, lib);
  }

  lemma SkipHoursValueFailsIff(root: Element, e: Element, lib: Lib)
    requires e.tag == "skipHours"
    ensures ChannelKey(e.tag).Some? && ChannelValue(root, e, lib).Failure? <==> BadElement(root, e, lib)
  {
    SkipHoursKeyed(e);
    SkipHoursValue(root, e, lib);
    SkipHoursFailsIff(root, lib);
    SkipHoursBad(root, e, lib);
  }

  /** Proof step only: a `skipHours` element is stored under its key. */
  lemma SkipHoursKeyed(e: Element)
    requires e.tag == "skipHours"
    ensures ChannelKey(e.tag) == Some("channelSkipHours")
  {
  }

  /** Proof step only: a `skipHours` element's value fails exactly when `SkipHours` does. */
  lemma SkipHoursValue(root: Element, e: Element, lib: Lib)
    requires e.tag == "skipHours"
    ensures ChannelValue(root, e, lib).Failure? <==> SkipHours(root, lib).Failure?
  {
  }

  /** Proof step only: a `skipHours` element is bad exactly when some hour is not an integer. */
  lemma SkipHoursBad(root: Element, e: Element, lib: Lib)
    requires e.tag == "skipHours"
    ensures BadElement(root, e, lib) <==> exists h :: h in HourElements(root) && IntOf(h.text, lib).None?
  {
  }

  lemma {:induction false} ChannelFailsIff(root: Element, st: Parsed, cs: seq<Element>, lib: Lib)
    ensures ChannelFrom(root, st, cs, lib).Failure? <==> exists e :: e in cs && BadElement(root, e, lib)
    decreases |cs|
  {
    if cs != [] {
      var c := cs[0];
      assert forall e :: e in cs <==> e == c || e in cs[1..];
      ChannelStepFailsIff(root, st, c, lib);
      match ChannelStep(root, st, c, lib)
      case Failure(_) =>
      case Success(st1) => ChannelFailsIff(root, st1, cs[1..], lib);
    }
  }

  /** An item has `itemGuid` exactly when it has a `<guid>` sub-element. */
  lemma ItemGuidIff(cs: seq<Element>, lib: Lib, m': Props)
    requires ItemFrom(map[], cs, lib) == Success(m')
    ensures "itemGuid" in m' <==> exists c :: c in cs && c.tag == "guid"
  {
    ItemKeysExact(map[], cs, lib, m');
    forall c | c in cs ensures "itemGuid" in ItemKeysOfTag(c.tag) <==> c.tag == "guid" {
      ItemKeyNotCategories(c.tag);
      if ItemKey(c.tag) == Some("itemGuid") {
        ItemKeyInjective(c.tag, "guid");
      }
    }
  }

  /** The `<item>` children of `<channel>`, in document order. */
  function ItemElements(root: Element): seq<Element>
  {
    Select(ChannelChildren(root), "item")
  }

  /** `parse_rss` returns one dictionary per `<item>`, in document order,
      whether or not the item has a `guid`. */
  lemma ParseRssItems(root: Element, lib: Lib, p: Parsed)
    requires ParseRssSpec(root, lib) == Success(p)
    ensures |p.items| == |ItemElements(root)|
    ensures forall k :: 0 <= k < |p.items| ==> ItemFrom(map[], ItemElements(root)[k].children, lib) == Success(p.items[k])
    ensures forall k :: 0 <= k < |p.items| ==>
              ("itemGuid" in p.items[k] <==> exists c :: c in ItemElements(root)[k].children && c.tag == "guid")
  {
    ChannelItems(root, Parsed(map[], []), ChannelChildren(root), lib, p);
    forall k | 0 <= k < |p.items|
      ensures ItemFrom(map[], ItemElements(root)[k].children, lib) == Success(p.items[k])
      ensures "itemGuid" in p.items[k] <==> exists c :: c in ItemElements(root)[k].children && c.tag == "guid"
    {
      var e := ItemElements(root)[k];
      assert e in ItemElements(root);
      ItemGuidIff(e.children, lib, p.items[k]);
    }
  }

  /** `parse_rss` raises, returning nothing at all, exactly when some child of
      `<channel>` holds an unparsable date or integer. */
  lemma ParseRssFailsIff(root: Element, lib: Lib)
    ensures ParseRssSpec(root, lib).Failure? <==> exists e :: e in ChannelChildren(root) && BadElement(root, e, lib)
  {
    ChannelFailsIff(root, Parsed(map[], []), ChannelChildren(root), lib);
  }
}
