/**
 * The element tree that the XML parser hands to the feed parser, the values
 * that end up in the channel and item dictionaries, and the path selections
 * of ElementTree's `findall` that the parser uses.
 */
module Feed {
  import opened Wrappers

  /** One XML element: its tag, its text (absent for an empty element),
      its attributes and its child elements in document order. */
  datatype Element = Element(tag: string, text: Option<string>, attrib: map<string, string>, children: seq<Element>)

  /** The values stored in the parser's dictionaries: a string or `None`,
      an integer, a list of either, or a nested dictionary. */
  datatype Value =
    | Text(text: Option<string>)
    | Num(num: int)
    | Texts(texts: seq<Option<string>>)
    | Nums(nums: seq<int>)
    | Fields(fields: map<string, Value>)

  /** A dictionary of the parser's output. */
  type Props = map<string, Value>

  /** Why a parse was abandoned: `datetime.strptime` or `int` refused a text. */
  datatype ParseError = BadDate(dateText: Option<string>) | BadInt(intText: Option<string>)

  /** The elements of `es` whose tag is `tag`, in order. */
  function Select(es: seq<Element>, tag: string): (r: seq<Element>)
    ensures |r| <= |es|
    ensures forall e :: e in r ==> e in es && e.tag == tag
  {
    if es == [] then []
    else (if es[0].tag == tag then [es[0]] else []) + Select(es[1..], tag)
  }

  /** A selection keeps every element with the tag, as often as `es` holds
      it, and no other element. */
  lemma {:induction false} SelectCounts(es: seq<Element>, tag: string)
    ensures forall e :: multiset(Select(es, tag))[e] == if e.tag == tag then multiset(es)[e] else 0
    decreases |es|
  {
    if es != [] {
      SelectCounts(es[1..], tag);
      assert es == [es[0]] + es[1..];
    }
  }

  /** The children of every element of `es`, concatenated in document order. */
  function ChildrenOf(es: seq<Element>): (r: seq<Element>)
  {
    if es == [] then [] else es[0].children + ChildrenOf(es[1..])
  }

  /** `root.findall('./channel/')`: a trailing slash selects every child,
      so these are the children of all `<channel>` children of the root. */
  function ChannelChildren(root: Element): seq<Element>
  {
    ChildrenOf(Select(root.children, "channel"))
  }

  /** `root.findall('./channel/skipHours/hour')`. */
  function HourElements(root: Element): seq<Element>
  {
    Select(ChildrenOf(Select(ChannelChildren(root), "skipHours")), "hour")
  }

  /** `root.findall('./channel/skipDays/day')`. */
  function DayElements(root: Element): seq<Element>
  {
    Select(ChildrenOf(Select(ChannelChildren(root), "skipDays")), "day")
  }

  /** An element's attributes as a dictionary of strings (`element.attrib`). */
  function AttribFields(attrib: map<string, string>): (r: Props)
    ensures r.Keys == attrib.Keys
    ensures forall k :: k in attrib ==> r[k] == Text(Some(attrib[k]))
  {
    map k | k in attrib :: Text(Some(attrib[k]))
  }

  /** The texts of a sequence of elements, in order. */
  function TextsOf(es: seq<Element>): (r: seq<Option<string>>)
    ensures |r| == |es|
    ensures forall i :: 0 <= i < |es| ==> r[i] == es[i].text
  {
    if es == [] then [] else [es[0].text] + TextsOf(es[1..])
  }
}
