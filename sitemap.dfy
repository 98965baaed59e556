/**
 * The sitemap serializer: a list of URL records rendered as a Sitemap
 * protocol 0.9 document (sitemaps.org, "XML tag definitions"): an XML
 * declaration, a `urlset` element and one `url` element per record with a
 * `loc` child and optional `lastmod`, `changefreq` and `priority` children.
 *
 * Values are inserted verbatim, without XML escaping. The priority is an
 * `f32` printed with one decimal place; floating-point formatting is not
 * modelled, so the printer enters as the parameter `fmt`.
 */
module Sitemap {
  import opened Wrappers

  datatype SitemapUrl = SitemapUrl(
    loc: string,
    lastmod: Option<string>,
    changefreq: Option<string>,
    priority: Option<real>)

  const XmlDecl: string := "<?xml version=\"1.0\" encoding=\"UTF-8\"?>\n"
  /** The namespace of the Sitemap protocol 0.9. */
  const SitemapNamespace: string := "http://www.sitemaps.org/schemas/sitemap/0.9"
  const UrlsetOpen: string := "<urlset xmlns=\"" + SitemapNamespace + "\">\n"
  const Footer: string := "</urlset>"

  /** The two header lines. */
  function Header(): string {
    XmlDecl + UrlsetOpen
  }

  function Open(name: string): string {
    "<" + name + ">"
  }

  function Close(name: string): string {
    "</" + name + ">"
  }

  /** `format!("    <name>{}</name>\n", value)`. */
  function FieldLine(name: string, value: string): string {
    "    " + Open(name) + value + Close(name) + "\n"
  }

  /** The line of an optional field: present exactly when the field is. */
  function OptionalLine(name: string, value: Option<string>): string {
    match value
    case None => ""
    case Some(v) => FieldLine(name, v)
  }

  /** The printed priority, if any. */
  function PriorityText(priority: Option<real>, fmt: real -> string): Option<string> {
    match priority
    case None => None
    case Some(p) => Some(fmt(p))
  }

  function UrlOpenLine(): string {
    "  " + Open("url") + "\n"
  }

  function UrlCloseLine(): string {
    "  " + Close("url") + "\n"
  }

  /** The `url` element of one record. */
  function UrlBlock(u: SitemapUrl, fmt: real -> string): string {
    UrlOpenLine()
    + FieldLine("loc", u.loc)
    + OptionalLine("lastmod", u.lastmod)
    + OptionalLine("changefreq", u.changefreq)
    + OptionalLine("priority", PriorityText(u.priority, fmt))
    + UrlCloseLine()
  }

  /** The `url` elements of the records, in input order. */
  function Blocks(urls: seq<SitemapUrl>, fmt: real -> string): string
    decreases |urls|
  {
    if urls == [] then ""
    else Blocks(urls[..|urls| - 1], fmt) + UrlBlock(urls[|urls| - 1], fmt)
  }

  /** The whole document. */
  function SitemapXml(urls: seq<SitemapUrl>, fmt: real -> string): string {
    Header() + Blocks(urls, fmt) + Footer
  }

  lemma BlocksPush(urls: seq<SitemapUrl>, u: SitemapUrl, fmt: real -> string)
    ensures Blocks(urls + [u], fmt) == Blocks(urls, fmt) + UrlBlock(u, fmt)
  {
    assert (urls + [u])[..|urls|] == urls;
  }

  lemma AppendAssoc(a: string, b: string, c: string)
    ensures (a + b) + c == a + (b + c)
  {
  }

  /** The pushes `generate_xml` makes for one record. */
  method PushUrl(xml: string, url: SitemapUrl, fmt: real -> string) returns (out: string)
    ensures out == xml + UrlBlock(url, fmt)
  {
    ghost var block := UrlOpenLine();
    out := xml + UrlOpenLine();
    AppendAssoc(xml, block, FieldLine("loc", url.loc));
    out, block := out + FieldLine("loc", url.loc), block + FieldLine("loc", url.loc);
    assert out == xml + block;
    ghost var piece := OptionalLine("lastmod", url.lastmod);
    AppendAssoc(xml, block, piece);
    match url.lastmod {
      case Some(lastmod) => out := out + FieldLine("lastmod", lastmod);
      case None => assert piece == [];
    }
    block := block + piece;
    assert out == xml + block;
    piece := OptionalLine("changefreq", url.changefreq);
    AppendAssoc(xml, block, piece);
    match url.changefreq {
      case Some(changefreq) => out := out + FieldLine("changefreq", changefreq);
      case None => assert piece == [];
    }
    block := block + piece;
    assert out == xml + block;
    piece := OptionalLine("priority", PriorityText(url.priority, fmt));
    AppendAssoc(xml, block, piece);
    match url.priority {
      case Some(priority) => out := out + FieldLine("priority", fmt(priority));
      case None => assert piece == [];
    }
    block := block + piece;
    assert out == xml + block;
    AppendAssoc(xml, block, UrlCloseLine());
    out, block := out + UrlCloseLine(), block + UrlCloseLine();
    assert block == UrlBlock(url, fmt);
  }

  /** The two header pushes leave the loop invariant holding for no record. */
  lemma HeaderPushed(urls: seq<SitemapUrl>, fmt: real -> string)
    ensures XmlDecl + UrlsetOpen == Header() + Blocks(urls[..0], fmt)
  {
    assert Blocks(urls[..0], fmt) == [];
  }

  /** Pushing the block of record `i` extends the invariant to record `i + 1`. */
  lemma BlockPushed(urls: seq<SitemapUrl>, i: nat, fmt: real -> string)
    requires i < |urls|
    ensures Header() + Blocks(urls[..i], fmt) + UrlBlock(urls[i], fmt) == Header() + Blocks(urls[..i + 1], fmt)
  {
    BlocksPush(urls[..i], urls[i], fmt);
    assert urls[..i + 1] == urls[..i] + [urls[i]];
    AppendAssoc(Header(), Blocks(urls[..i], fmt), UrlBlock(urls[i], fmt));
  }

  /** `SitemapGenerator::generate_xml`: header, one block per record in order, footer. */
  method GenerateXml(urls: seq<SitemapUrl>, fmt: real -> string) returns (xml: string)
    ensures xml == SitemapXml(urls, fmt)
  {
    xml := XmlDecl;
    xml := xml + UrlsetOpen;
    HeaderPushed(urls, fmt);
    var i := 0;
    while i < |urls|
      invariant 0 <= i <= |urls|
      invariant xml == Header() + Blocks(urls[..i], fmt)
    {
      BlockPushed(urls, i, fmt);
      xml := PushUrl(xml, urls[i], fmt);
      i := i + 1;
    }
    assert urls[..i] == urls;
    xml := xml + Footer;
  }

  // ---------------------------------------------------------------------
  // Shape of the document.

  /** The document opens with the XML declaration and the `urlset` start tag. */
  lemma XmlStartsWithHeader(urls: seq<SitemapUrl>, fmt: real -> string)
    ensures var xml := SitemapXml(urls, fmt);
      |XmlDecl| + |UrlsetOpen| <= |xml|
      && xml[..|XmlDecl|] == XmlDecl
      && xml[|XmlDecl|..|XmlDecl| + |UrlsetOpen|] == UrlsetOpen
  {
    var xml := SitemapXml(urls, fmt);
    var rest := Blocks(urls, fmt) + Footer;
    AppendAssoc(XmlDecl, UrlsetOpen, rest);
    AppendAssoc(Header(), Blocks(urls, fmt), Footer);
    assert xml == XmlDecl + (UrlsetOpen + rest);
    assert (UrlsetOpen + rest)[..|UrlsetOpen|] == UrlsetOpen;
  }

  /** The document closes with `</urlset>` and no newline after it. */
  lemma XmlEndsWithFooter(urls: seq<SitemapUrl>, fmt: real -> string)
    ensures var xml := SitemapXml(urls, fmt);
      |xml| >= 9 && xml[|xml| - 9..] == "</urlset>" && xml[|xml| - 1] == '>'
  {
    var xml := SitemapXml(urls, fmt);
    var front := Header() + Blocks(urls, fmt);
    assert xml == front + Footer;
    assert xml[|front|..] == Footer;
  }

  /** No record: the header directly followed by `</urlset>`. */
  lemma EmptySitemap(fmt: real -> string)
    ensures SitemapXml([], fmt) == XmlDecl + UrlsetOpen + Footer
  {
    assert Header() + "" == Header();
  }

  lemma {:induction false} BlocksAppend(a: seq<SitemapUrl>, b: seq<SitemapUrl>, fmt: real -> string)
    ensures Blocks(a + b, fmt) == Blocks(a, fmt) + Blocks(b, fmt)
    decreases |b|
  {
    if b == [] {
      assert a + b == a;
    } else {
      assert (a + b)[..|a + b| - 1] == a + b[..|b| - 1];
      BlocksAppend(a, b[..|b| - 1], fmt);
      AppendAssoc(Blocks(a, fmt), Blocks(b[..|b| - 1], fmt), UrlBlock(b[|b| - 1], fmt));
    }
  }

  lemma RegroupMiddle(h: string, a: string, u: string, b: string, f: string)
    ensures h + (a + u + b) + f == h + a + u + b + f
  {
  }

  /** The block of each record sits between the blocks of the records before and after it. */
  lemma BlockInPlace(urls: seq<SitemapUrl>, i: nat, fmt: real -> string)
    requires i < |urls|
    ensures SitemapXml(urls, fmt)
      == Header() + Blocks(urls[..i], fmt) + UrlBlock(urls[i], fmt) + Blocks(urls[i + 1..], fmt) + Footer
  {
    var before, block, after := Blocks(urls[..i], fmt), UrlBlock(urls[i], fmt), Blocks(urls[i + 1..], fmt);
    assert urls == urls[..i] + [urls[i]] + urls[i + 1..];
    BlocksAppend(urls[..i] + [urls[i]], urls[i + 1..], fmt);
    BlocksPush(urls[..i], urls[i], fmt);
    assert Blocks(urls, fmt) == before + block + after;
    RegroupMiddle(Header(), before, block, after, Footer);
  }
}
