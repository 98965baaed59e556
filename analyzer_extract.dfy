/**
 * The extractors of the page analyzer: "first match" and "all matches"
 * projections over the parsed document, and the count of images that lack
 * alternative text.
 */
module Extract {
  import opened Wrappers
  import opened RustStr
  import opened Html

  const TitleSelector := Tag("title")
  const DescriptionSelector := TagAttrEquals("meta", "name", "description")
  const H1Selector := Tag("h1")
  const H2Selector := Tag("h2")
  const ImgSelector := Tag("img")
  const LdJsonSelector := TagAttrEquals("script", "type", "application/ld+json")

  /** The trimmed text of every element `sel` matches, in document order. */
  function TrimmedTexts(doc: Document, sel: Selector): (r: seq<string>)
    ensures |r| == |Select(doc, sel)|
    ensures forall i :: 0 <= i < |r| ==> r[i] == Trim(TextContent(Select(doc, sel)[i]))
  {
    var hits := Select(doc, sel);
    seq(|hits|, i requires 0 <= i < |hits| => Trim(TextContent(hits[i])))
  }

  /**
   * `extract_title`: the trimmed text of the first `title` element; `None`
   * exactly when the page has no `title` element.
   */
  function ExtractTitle(doc: Document): (r: Option<string>)
    ensures r.None? <==> forall i :: 0 <= i < |doc| ==> doc[i].tag != "title"
    ensures r.Some? ==> exists i :: (0 <= i < |doc| && doc[i].tag == "title"
      && (forall j :: 0 <= j < i ==> doc[j].tag != "title")
      && r.value == Trim(TextContent(doc[i])))
  {
    match FirstIndex(doc, TitleSelector)
    case None => None
    case Some(i) => Some(Trim(TextContent(doc[i])))
  }

  /**
   * `extract_meta_description`: the untrimmed `content` of the FIRST
   * `meta name="description"` element. When that element has no `content`
   * the result is `None`, whatever later such elements carry.
   */
  function ExtractMetaDescription(doc: Document): (r: Option<string>)
    ensures r.Some? <==> exists i :: (0 <= i < |doc| && Matches(DescriptionSelector, doc[i])
      && (forall j :: 0 <= j < i ==> !Matches(DescriptionSelector, doc[j]))
      && "content" in doc[i].attrs)
    ensures r.Some? ==> exists i :: (0 <= i < |doc| && Matches(DescriptionSelector, doc[i])
      && (forall j :: 0 <= j < i ==> !Matches(DescriptionSelector, doc[j]))
      && r.value == doc[i].attrs["content"])
  {
    match FirstIndex(doc, DescriptionSelector)
    case None => None
    case Some(i) => Attr(doc[i], "content")
  }

  /** `extract_h1_tags`: one trimmed text per `h1` element, in document order. */
  function ExtractH1Tags(doc: Document): (r: seq<string>)
    ensures |r| == |IndicesWhere(doc, IsH1)| == |Select(doc, H1Selector)|
    ensures forall i :: 0 <= i < |r| ==> r[i] == Trim(TextContent(Select(doc, H1Selector)[i]))
  {
    CountIfSelect(doc, H1Selector, Always, IsH1);
    CountIfIsCardinality(doc, IsH1);
    CountAll(Select(doc, H1Selector));
    TrimmedTexts(doc, H1Selector)
  }

  /** `extract_h2_tags`: one trimmed text per `h2` element, in document order. */
  function ExtractH2Tags(doc: Document): (r: seq<string>)
    ensures |r| == |IndicesWhere(doc, IsH2)| == |Select(doc, H2Selector)|
    ensures forall i :: 0 <= i < |r| ==> r[i] == Trim(TextContent(Select(doc, H2Selector)[i]))
  {
    CountIfSelect(doc, H2Selector, Always, IsH2);
    CountIfIsCardinality(doc, IsH2);
    CountAll(Select(doc, H2Selector));
    TrimmedTexts(doc, H2Selector)
  }

  /**
   * `extract_structured_data`: the raw, untrimmed text of every
   * `script type="application/ld+json"` element, in document order.
   */
  function ExtractStructuredData(doc: Document): (r: seq<string>)
    ensures |r| == |IndicesWhere(doc, IsLdJson)| == |Select(doc, LdJsonSelector)|
    ensures forall i :: 0 <= i < |r| ==> r[i] == TextContent(Select(doc, LdJsonSelector)[i])
  {
    CountIfSelect(doc, LdJsonSelector, Always, IsLdJson);
    CountIfIsCardinality(doc, IsLdJson);
    CountAll(Select(doc, LdJsonSelector));
    var hits := Select(doc, LdJsonSelector);
    seq(|hits|, i requires 0 <= i < |hits| => TextContent(hits[i]))
  }

  /** The structured data of a page split in two is that of the first part followed by that of the second. */
  lemma StructuredDataAppend(a: Document, b: Document)
    ensures ExtractStructuredData(a + b) == ExtractStructuredData(a) + ExtractStructuredData(b)
  {
    SelectAppend(a, b, LdJsonSelector);
    var sa, sb := Select(a, LdJsonSelector), Select(b, LdJsonSelector);
    var r, ra, rb := ExtractStructuredData(a + b), ExtractStructuredData(a), ExtractStructuredData(b);
    forall i | 0 <= i < |r| ensures r[i] == (ra + rb)[i] {
      if i < |sa| {
        assert (sa + sb)[i] == sa[i];
      } else {
        assert (sa + sb)[i] == sb[i - |sa|];
      }
    }
  }

  /** One element contributes its raw text exactly when it is a JSON-LD script. */
  lemma StructuredDataSingle(e: Element)
    ensures ExtractStructuredData([e]) == if IsLdJson(e) then [TextContent(e)] else []
  {
    assert [e][..0] == [];
  }

  predicate Always(e: Element) { true }
  predicate IsH1(e: Element) { e.tag == "h1" }
  predicate IsH2(e: Element) { e.tag == "h2" }
  predicate IsLdJson(e: Element) { Matches(LdJsonSelector, e) }

  lemma {:induction false} CountAll(es: seq<Element>)
    ensures CountIf(es, Always) == |es|
    decreases |es|
  {
    if es != [] {
      CountAll(es[..|es| - 1]);
    }
  }

  /** An image lacks alternative text when `alt` is absent or exactly empty. */
  predicate MissingAlt(e: Element) {
    "alt" !in e.attrs || e.attrs["alt"] == ""
  }

  predicate IsImageWithoutAlt(e: Element) {
    e.tag == "img" && MissingAlt(e)
  }

  /**
   * `count_images_without_alt`: the number of positions holding an `img`
   * element without usable `alt`, truncated by the `as u32` cast.
   */
  function CountImagesWithoutAlt(doc: Document): (n: nat)
    ensures n == AsU32(|IndicesWhere(doc, IsImageWithoutAlt)|)
    ensures n == AsU32(CountIf(doc, IsImageWithoutAlt))
    ensures n < U32_MODULUS
  {
    CountIfSelect(doc, ImgSelector, MissingAlt, IsImageWithoutAlt);
    CountIfIsCardinality(doc, IsImageWithoutAlt);
    AsU32(CountIf(Select(doc, ImgSelector), MissingAlt))
  }

  /** An `alt` made of a single space is present, so the image is not counted. */
  lemma BlankAltIsPresent(doc: Document, attrs: map<string, string>, texts: seq<string>)
    requires "alt" in attrs && attrs["alt"] == " "
    ensures CountImagesWithoutAlt(doc + [Element("img", attrs, texts)]) == CountImagesWithoutAlt(doc)
  {
    var e := Element("img", attrs, texts);
    assert (doc + [e])[..|doc|] == doc;
    assert CountIf(doc + [e], IsImageWithoutAlt) == CountIf(doc, IsImageWithoutAlt);
  }

  /** An image with no `alt` attribute at all is counted. */
  lemma ImageWithoutAltCounted(doc: Document, attrs: map<string, string>, texts: seq<string>)
    requires "alt" !in attrs
    requires CountIf(doc, IsImageWithoutAlt) + 1 < U32_MODULUS
    ensures CountImagesWithoutAlt(doc + [Element("img", attrs, texts)]) == CountImagesWithoutAlt(doc) + 1
  {
    var e := Element("img", attrs, texts);
    assert (doc + [e])[..|doc|] == doc;
    assert CountIf(doc + [e], IsImageWithoutAlt) == CountIf(doc, IsImageWithoutAlt) + 1;
  }
}
