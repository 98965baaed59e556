/**
 * Counting start tags in the sitemap text. Values are inserted without
 * escaping, so a value may itself contain markup; as long as no value
 * contains the start tag `<t>` being counted, the document holds exactly one
 * `<t>` per `url` element that has the field `t` -- in particular one `<url>`
 * and one `<loc>` per record.
 *
 * The proof splits the text into pieces and counts each piece separately;
 * `JointCount` says when an occurrence cannot straddle two pieces.
 */
module SitemapTags {
  import opened Wrappers
  import opened Sitemap

  predicate IsLower(c: char) {
    'a' <= c <= 'z'
  }

  /** A tag name made of lowercase ASCII letters. */
  predicate IsName(n: string) {
    n != [] && forall i :: 0 <= i < |n| ==> IsLower(n[i])
  }

  /** A start tag `<name>` with such a name. */
  predicate IsOpenTag(p: string) {
    |p| >= 3 && p[0] == '<' && p[|p| - 1] == '>'
    && forall i :: 1 <= i < |p| - 1 ==> IsLower(p[i])
  }

  /** The number of (possibly overlapping) positions where `p` occurs in `s`. */
  function CountOcc(s: string, p: string): nat
    requires p != []
    decreases |s|
  {
    if |s| < |p| then 0
    else (if s[..|p|] == p then 1 else 0) + CountOcc(s[1..], p)
  }

  /** `p` occurs in `s` at position `k`. */
  predicate OccursAt(s: string, p: string, k: nat) {
    k + |p| <= |s| && s[k..k + |p|] == p
  }

  ghost predicate Contains(s: string, p: string) {
    exists k: nat :: OccursAt(s, p, k)
  }

  lemma OccursAtShift(s: string, p: string, k: nat)
    requires s != []
    ensures OccursAt(s, p, k + 1) <==> OccursAt(s[1..], p, k)
  {
    if k + 1 + |p| <= |s| {
      assert s[k + 1..k + 1 + |p|] == s[1..][k..k + |p|];
    }
  }

  /** An occurrence at any position is counted. */
  lemma {:induction false} OccurrenceCounted(s: string, p: string, k: nat)
    requires p != [] && OccursAt(s, p, k)
    ensures CountOcc(s, p) > 0
    decreases k
  {
    if k > 0 {
      OccursAtShift(s, p, k - 1);
      OccurrenceCounted(s[1..], p, k - 1);
    }
  }

  /** A positive count has an occurrence behind it. */
  lemma {:induction false} CountedOccurrence(s: string, p: string)
    requires p != [] && CountOcc(s, p) > 0
    ensures Contains(s, p)
    decreases |s|
  {
    if s[..|p|] == p {
      assert OccursAt(s, p, 0);
    } else {
      CountedOccurrence(s[1..], p);
      var k: nat :| OccursAt(s[1..], p, k);
      OccursAtShift(s, p, k);
    }
  }

  /** No occurrence is counted exactly when there is none. */
  lemma CountOccZeroIff(s: string, p: string)
    requires p != []
    ensures CountOcc(s, p) == 0 <==> !Contains(s, p)
  {
    if CountOcc(s, p) > 0 {
      CountedOccurrence(s, p);
    }
    if Contains(s, p) {
      var k: nat :| OccursAt(s, p, k);
      OccurrenceCounted(s, p, k);
    }
  }

  /** No occurrence of `p` can straddle the end of `a` and the start of `b`. */
  predicate SafeJoint(a: string, b: string, p: string) {
    a == [] || b == [] || |p| == 0
    || a[|a| - 1] !in p[..|p| - 1] || b[0] !in p[1..]
  }

  /** Counting over a safe joint adds up. */
  lemma {:induction false} JointCount(a: string, b: string, p: string)
    requires p != [] && SafeJoint(a, b, p)
    ensures CountOcc(a + b, p) == CountOcc(a, p) + CountOcc(b, p)
    decreases |a|
  {
    if a == [] {
      assert a + b == b;
    } else if |a + b| >= |p| {
      var s := a + b;
      assert s[1..] == a[1..] + b;
      assert SafeJoint(a[1..], b, p) by {
        if |a| > 1 { assert a[1..][|a[1..]| - 1] == a[|a| - 1]; }
      }
      JointCount(a[1..], b, p);
      if |a| >= |p| {
        assert s[..|p|] == a[..|p|];
      } else if a[|a| - 1] !in p[..|p| - 1] {
        assert p[..|p| - 1][|a| - 1] == p[|a| - 1];
        assert s[..|p|][|a| - 1] == a[|a| - 1];
      } else {
        assert p[1..][|a| - 1] == p[|a|];
        assert s[..|p|][|a|] == b[0];
      }
    }
  }

  /** A text without `<` holds no start tag. */
  lemma {:induction false} NoLtNoOcc(s: string, p: string)
    requires p != [] && p[0] == '<' && '<' !in s
    ensures CountOcc(s, p) == 0
    decreases |s|
  {
    if |s| >= |p| {
      assert s[0] == s[..|p|][0];
      assert s[1..] <= s[1..] && forall c :: c in s[1..] ==> c in s;
      NoLtNoOcc(s[1..], p);
    }
  }

  /** When `<` can only be at the front, only the front can match. */
  lemma LtOnlyAtStart(s: string, p: string)
    requires p != [] && p[0] == '<' && s != [] && '<' !in s[1..]
    ensures CountOcc(s, p) == (if |p| <= |s| && s[..|p|] == p then 1 else 0)
  {
    NoLtNoOcc(s[1..], p);
  }

  lemma OpenTagHasNoInnerLt(q: string)
    requires IsOpenTag(q)
    ensures '<' !in q[1..]
  {
    forall i | 0 <= i < |q[1..]| ensures q[1..][i] != '<' {
      assert q[1..][i] == q[i + 1];
    }
  }

  /** One start tag occurs in another exactly when they are the same tag. */
  lemma OpenTagCount(q: string, p: string)
    requires IsOpenTag(p) && IsOpenTag(q)
    ensures CountOcc(q, p) == (if q == p then 1 else 0)
  {
    OpenTagHasNoInnerLt(q);
    LtOnlyAtStart(q, p);
    if |p| < |q| {
      assert q[..|p|][|p| - 1] == q[|p| - 1];
    } else if |p| == |q| {
      assert q[..|p|] == q;
    }
  }

  /**
   * A text starting with `<`, then lowercase letters up to a character `k`
   * that is neither a letter nor `>`, and without further `<`, holds no
   * start tag.
   */
  lemma NonTagStart(s: string, p: string, k: nat)
    requires IsOpenTag(p)
    requires 1 <= k < |s| && s[0] == '<' && '<' !in s[1..]
    requires forall j :: 1 <= j < k ==> IsLower(s[j])
    requires !IsLower(s[k]) && s[k] != '>'
    ensures CountOcc(s, p) == 0
  {
    LtOnlyAtStart(s, p);
    if |p| <= |s| {
      var last := |p| - 1;
      if last <= k {
        assert s[..|p|][last] == s[last];
      } else {
        assert s[..|p|][k] == s[k];
      }
    }
  }

  lemma SafeAfter(a: string, b: string, p: string)
    requires IsOpenTag(p) && a != []
    requires !IsLower(a[|a| - 1]) && a[|a| - 1] != '<'
    ensures SafeJoint(a, b, p)
  {
    var front := p[..|p| - 1];
    forall i | 0 <= i < |front| ensures front[i] != a[|a| - 1] {
      assert front[i] == p[i];
    }
  }

  lemma SafeBefore(a: string, b: string, p: string)
    requires IsOpenTag(p) && b != []
    requires !IsLower(b[0]) && b[0] != '>'
    ensures SafeJoint(a, b, p)
  {
    forall i | 0 <= i < |p| - 1 ensures p[1..][i] != b[0] {
      assert p[1..][i] == p[i + 1];
    }
  }

  lemma OpenIsOpenTag(name: string)
    requires IsName(name)
    ensures IsOpenTag(Open(name))
    ensures Open(name)[1..|Open(name)| - 1] == name
  {
    var o := Open(name);
    forall i | 1 <= i < |o| - 1 ensures IsLower(o[i]) {
      assert o[i] == name[i - 1];
    }
  }

  lemma CloseCount(name: string, p: string)
    requires IsName(name) && IsOpenTag(p)
    ensures CountOcc(Close(name), p) == 0
  {
    var c := Close(name);
    assert '<' !in c[1..] by {
      forall i | 0 <= i < |c[1..]| ensures c[1..][i] != '<' {
        assert c[1..][i] == c[i + 1];
        if 2 <= i + 1 < |c| - 1 { assert c[i + 1] == name[i - 1]; }
      }
    }
    NonTagStart(c, p, 1);
  }

  /** A text ending in a newline. */
  predicate EndsNl(s: string) {
    s != [] && s[|s| - 1] == '\n'
  }

  /** A line boundary is always a safe joint; line endings survive concatenation. */
  lemma LineJoint(a: string, b: string, p: string)
    requires IsOpenTag(p) && EndsNl(a)
    ensures CountOcc(a + b, p) == CountOcc(a, p) + CountOcc(b, p)
    ensures EndsNl(b) || b == [] ==> EndsNl(a + b)
  {
    SafeAfter(a, b, p);
    JointCount(a, b, p);
    if b == [] { assert a + b == a; }
  }

  /** A field line holds its own start tag once and nothing else. */
  lemma FieldLineCount(name: string, v: string, p: string)
    requires IsName(name) && IsOpenTag(p) && !Contains(v, p)
    ensures CountOcc(FieldLine(name, v), p) == (if Open(name) == p then 1 else 0)
    ensures EndsNl(FieldLine(name, v))
  {
    var s1 := "    " + Open(name);
    var s2 := s1 + v;
    var s3 := s2 + Close(name);
    assert FieldLine(name, v) == s3 + "\n";
    OpenIsOpenTag(name);
    SafeAfter("    ", Open(name), p);
    JointCount("    ", Open(name), p);
    NoLtNoOcc("    ", p);
    OpenTagCount(Open(name), p);
    assert s1[|s1| - 1] == '>';
    SafeAfter(s1, v, p);
    JointCount(s1, v, p);
    CountOccZeroIff(v, p);
    SafeBefore(s2, Close(name), p);
    JointCount(s2, Close(name), p);
    CloseCount(name, p);
    SafeBefore(s3, "\n", p);
    JointCount(s3, "\n", p);
    NoLtNoOcc("\n", p);
  }

  lemma OptionalLineCount(name: string, v: Option<string>, p: string)
    requires IsName(name) && IsOpenTag(p)
    requires v.Some? ==> !Contains(v.value, p)
    ensures CountOcc(OptionalLine(name, v), p) == (if v.Some? && Open(name) == p then 1 else 0)
    ensures EndsNl(OptionalLine(name, v)) || OptionalLine(name, v) == []
  {
    if v.Some? {
      FieldLineCount(name, v.value, p);
    }
  }

  lemma UrlLinesCount(p: string)
    requires IsOpenTag(p)
    ensures CountOcc(UrlOpenLine(), p) == (if Open("url") == p then 1 else 0)
    ensures CountOcc(UrlCloseLine(), p) == 0
    ensures EndsNl(UrlOpenLine()) && EndsNl(UrlCloseLine())
  {
    assert IsName("url");
    OpenIsOpenTag("url");
    var o := "  " + Open("url");
    assert UrlOpenLine() == o + "\n";
    SafeAfter("  ", Open("url"), p);
    JointCount("  ", Open("url"), p);
    NoLtNoOcc("  ", p);
    OpenTagCount(Open("url"), p);
    SafeBefore(o, "\n", p);
    JointCount(o, "\n", p);
    NoLtNoOcc("\n", p);
    var c := "  " + Close("url");
    assert UrlCloseLine() == c + "\n";
    SafeBefore("  ", Close("url"), p);
    JointCount("  ", Close("url"), p);
    CloseCount("url", p);
    SafeBefore(c, "\n", p);
    JointCount(c, "\n", p);
  }

  /** No value of the record contains `p`. */
  ghost predicate NoValueContains(u: SitemapUrl, fmt: real -> string, p: string) {
    && !Contains(u.loc, p)
    && (u.lastmod.Some? ==> !Contains(u.lastmod.value, p))
    && (u.changefreq.Some? ==> !Contains(u.changefreq.value, p))
    && (u.priority.Some? ==> !Contains(fmt(u.priority.value), p))
  }

  function Ind(b: bool): nat {
    if b then 1 else 0
  }

  /** The start tags `p` the layout of one block puts there. */
  function LayoutCount(u: SitemapUrl, p: string): nat {
    Ind(Open("url") == p) + FieldsLayoutCount(u, p)
  }

  /** The child lines of one block. */
  function FieldLines(u: SitemapUrl, fmt: real -> string): string {
    FieldLine("loc", u.loc)
    + OptionalLine("lastmod", u.lastmod)
    + OptionalLine("changefreq", u.changefreq)
    + OptionalLine("priority", PriorityText(u.priority, fmt))
  }

  /** The start tags `p` the child lines of one block put there. */
  function FieldsLayoutCount(u: SitemapUrl, p: string): nat {
    Ind(Open("loc") == p)
    + Ind(u.lastmod.Some? && Open("lastmod") == p)
    + Ind(u.changefreq.Some? && Open("changefreq") == p)
    + Ind(u.priority.Some? && Open("priority") == p)
  }

  lemma JoinLines(l1: string, l2: string, l3: string, l4: string, p: string)
    requires IsOpenTag(p) && EndsNl(l1)
    requires (EndsNl(l2) || l2 == []) && (EndsNl(l3) || l3 == []) && (EndsNl(l4) || l4 == [])
    ensures CountOcc(l1 + l2 + l3 + l4, p) == CountOcc(l1, p) + CountOcc(l2, p) + CountOcc(l3, p) + CountOcc(l4, p)
    ensures EndsNl(l1 + l2 + l3 + l4)
  {
    LineJoint(l1, l2, p);
    LineJoint(l1 + l2, l3, p);
    LineJoint(l1 + l2 + l3, l4, p);
  }

  lemma FieldLinesCount(u: SitemapUrl, fmt: real -> string, p: string)
    requires IsOpenTag(p) && NoValueContains(u, fmt, p)
    ensures CountOcc(FieldLines(u, fmt), p) == FieldsLayoutCount(u, p)
    ensures EndsNl(FieldLines(u, fmt))
  {
    assert IsName("loc") && IsName("lastmod") && IsName("changefreq") && IsName("priority");
    FieldLineCount("loc", u.loc, p);
    OptionalLineCount("lastmod", u.lastmod, p);
    OptionalLineCount("changefreq", u.changefreq, p);
    OptionalLineCount("priority", PriorityText(u.priority, fmt), p);
    JoinLines(FieldLine("loc", u.loc), OptionalLine("lastmod", u.lastmod),
              OptionalLine("changefreq", u.changefreq), OptionalLine("priority", PriorityText(u.priority, fmt)), p);
  }

  lemma Regroup(a: string, b: string, c: string, d: string, e: string, f: string)
    ensures a + b + c + d + e + f == a + (b + c + d + e) + f
  {
  }

  lemma BlockCount(u: SitemapUrl, fmt: real -> string, p: string)
    requires IsOpenTag(p) && NoValueContains(u, fmt, p)
    ensures CountOcc(UrlBlock(u, fmt), p) == LayoutCount(u, p)
    ensures EndsNl(UrlBlock(u, fmt))
  {
    var fields := FieldLines(u, fmt);
    Regroup(UrlOpenLine(), FieldLine("loc", u.loc), OptionalLine("lastmod", u.lastmod),
            OptionalLine("changefreq", u.changefreq), OptionalLine("priority", PriorityText(u.priority, fmt)),
            UrlCloseLine());
    assert UrlBlock(u, fmt) == UrlOpenLine() + fields + UrlCloseLine();
    UrlLinesCount(p);
    FieldLinesCount(u, fmt, p);
    LineJoint(UrlOpenLine(), fields, p);
    LineJoint(UrlOpenLine() + fields, UrlCloseLine(), p);
  }

  /** The start tags `p` all blocks hold together. */
  function LayoutTotal(urls: seq<SitemapUrl>, p: string): nat
    decreases |urls|
  {
    if urls == [] then 0 else LayoutTotal(urls[..|urls| - 1], p) + LayoutCount(urls[|urls| - 1], p)
  }

  lemma {:induction false} BlocksCount(urls: seq<SitemapUrl>, fmt: real -> string, p: string)
    requires IsOpenTag(p)
    requires forall i :: 0 <= i < |urls| ==> NoValueContains(urls[i], fmt, p)
    ensures CountOcc(Blocks(urls, fmt), p) == LayoutTotal(urls, p)
    ensures urls != [] ==> EndsNl(Blocks(urls, fmt))
    decreases |urls|
  {
    if urls != [] {
      var init := urls[..|urls| - 1];
      var last := urls[|urls| - 1];
      BlocksCount(init, fmt, p);
      BlockCount(last, fmt, p);
      if init == [] {
        assert Blocks(urls, fmt) == UrlBlock(last, fmt);
      } else {
        LineJoint(Blocks(init, fmt), UrlBlock(last, fmt), p);
      }
    }
  }

  lemma XmlDeclStart()
    ensures |XmlDecl| > 1 && XmlDecl[0] == '<' && XmlDecl[1] == '?'
  {
  }

  lemma XmlDeclNoInnerLt()
    ensures '<' !in XmlDecl[1..]
  {
  }

  lemma XmlDeclEndsNl()
    ensures EndsNl(XmlDecl)
  {
  }

  lemma XmlDeclCount(p: string)
    requires IsOpenTag(p)
    ensures CountOcc(XmlDecl, p) == 0
    ensures EndsNl(XmlDecl)
  {
    XmlDeclStart();
    XmlDeclNoInnerLt();
    XmlDeclEndsNl();
    NonTagStart(XmlDecl, p, 1);
  }

  lemma UrlsetOpenShape()
    ensures |UrlsetOpen| > 7 && UrlsetOpen[0] == '<' && UrlsetOpen[7] == ' '
    ensures forall j :: 1 <= j < 7 ==> IsLower(UrlsetOpen[j])
    ensures '<' !in UrlsetOpen[1..] && EndsNl(UrlsetOpen)
  {
    assert '<' !in SitemapNamespace;
    assert UrlsetOpen[1..] == "urlset xmlns=\"" + SitemapNamespace + "\">\n";
  }

  lemma UrlsetOpenCount(p: string)
    requires IsOpenTag(p)
    ensures CountOcc(UrlsetOpen, p) == 0
    ensures EndsNl(UrlsetOpen)
  {
    UrlsetOpenShape();
    NonTagStart(UrlsetOpen, p, 7);
  }

  lemma HeaderCount(p: string)
    requires IsOpenTag(p)
    ensures CountOcc(Header(), p) == 0
    ensures EndsNl(Header())
  {
    XmlDeclCount(p);
    UrlsetOpenCount(p);
    LineJoint(XmlDecl, UrlsetOpen, p);
  }

  lemma FooterShape()
    ensures |Footer| > 1 && Footer[0] == '<' && Footer[1] == '/' && '<' !in Footer[1..]
  {
  }

  lemma FooterCount(p: string)
    requires IsOpenTag(p)
    ensures CountOcc(Footer, p) == 0
  {
    FooterShape();
    NonTagStart(Footer, p, 1);
  }

  /**
   * When no value contains the start tag `p`, the document holds exactly
   * the `p` tags the layout puts there.
   */
  lemma DocumentCount(urls: seq<SitemapUrl>, fmt: real -> string, p: string)
    requires IsOpenTag(p)
    requires forall i :: 0 <= i < |urls| ==> NoValueContains(urls[i], fmt, p)
    ensures CountOcc(SitemapXml(urls, fmt), p) == LayoutTotal(urls, p)
  {
    HeaderCount(p);
    FooterCount(p);
    BlocksCount(urls, fmt, p);
    LineJoint(Header(), Blocks(urls, fmt), p);
    assert Footer[0] == '<';
    SafeBefore(Header() + Blocks(urls, fmt), Footer, p);
    JointCount(Header() + Blocks(urls, fmt), Footer, p);
  }

  // ---------------------------------------------------------------------
  // The five element names of a `url` block.

  datatype SitemapTag = UrlTag | LocTag | LastmodTag | ChangefreqTag | PriorityTag

  function TagName(t: SitemapTag): string {
    match t
    case UrlTag => "url"
    case LocTag => "loc"
    case LastmodTag => "lastmod"
    case ChangefreqTag => "changefreq"
    case PriorityTag => "priority"
  }

  /** Whether a record's block has the child element `t`. */
  predicate HasField(u: SitemapUrl, t: SitemapTag) {
    match t
    case UrlTag | LocTag => true
    case LastmodTag => u.lastmod.Some?
    case ChangefreqTag => u.changefreq.Some?
    case PriorityTag => u.priority.Some?
  }

  /** The number of records having the field `t`. */
  function CountHaving(urls: seq<SitemapUrl>, t: SitemapTag): nat
    decreases |urls|
  {
    if urls == [] then 0
    else CountHaving(urls[..|urls| - 1], t) + Ind(HasField(urls[|urls| - 1], t))
  }

  lemma TagNamesDistinct(s: SitemapTag, t: SitemapTag)
    requires s != t
    ensures Open(TagName(s)) != Open(TagName(t))
  {
    var a, b := TagName(s), TagName(t);
    assert IsName(a) && IsName(b);
    OpenIsOpenTag(a);
    OpenIsOpenTag(b);
    if |a| == |b| {
      assert a[0] != b[0];
    }
  }

  lemma LayoutCountOfTag(u: SitemapUrl, t: SitemapTag)
    ensures LayoutCount(u, Open(TagName(t))) == Ind(HasField(u, t))
  {
    var p := Open(TagName(t));
    forall s | s != t ensures Open(TagName(s)) != p {
      TagNamesDistinct(s, t);
    }
    assert Open("url") == Open(TagName(UrlTag)) && Open("loc") == Open(TagName(LocTag));
    assert Open("lastmod") == Open(TagName(LastmodTag));
    assert Open("changefreq") == Open(TagName(ChangefreqTag));
    assert Open("priority") == Open(TagName(PriorityTag));
  }

  lemma {:induction false} LayoutTotalOfTag(urls: seq<SitemapUrl>, t: SitemapTag)
    ensures LayoutTotal(urls, Open(TagName(t))) == CountHaving(urls, t)
    decreases |urls|
  {
    if urls != [] {
      LayoutTotalOfTag(urls[..|urls| - 1], t);
      LayoutCountOfTag(urls[|urls| - 1], t);
    }
  }

  /**
   * The document holds one `<t>` per record having the field `t`, provided
   * no value contains `<t>`.
   */
  lemma TagCount(urls: seq<SitemapUrl>, fmt: real -> string, t: SitemapTag)
    requires forall i :: 0 <= i < |urls| ==> NoValueContains(urls[i], fmt, Open(TagName(t)))
    ensures CountOcc(SitemapXml(urls, fmt), Open(TagName(t))) == CountHaving(urls, t)
  {
    assert IsName(TagName(t));
    OpenIsOpenTag(TagName(t));
    DocumentCount(urls, fmt, Open(TagName(t)));
    LayoutTotalOfTag(urls, t);
  }

  lemma {:induction false} CountHavingAll(urls: seq<SitemapUrl>, t: SitemapTag)
    requires t == UrlTag || t == LocTag
    ensures CountHaving(urls, t) == |urls|
    decreases |urls|
  {
    if urls != [] {
      CountHavingAll(urls[..|urls| - 1], t);
    }
  }

  /**
   * One `<url>` and one `<loc>` per record: with no value containing
   * `<loc>`, the document holds exactly `|urls|` occurrences of `<loc>`.
   */
  lemma LocCount(urls: seq<SitemapUrl>, fmt: real -> string)
    requires forall i :: 0 <= i < |urls| ==> NoValueContains(urls[i], fmt, "<loc>")
    ensures CountOcc(SitemapXml(urls, fmt), "<loc>") == |urls|
  {
    assert Open(TagName(LocTag)) == "<loc>";
    TagCount(urls, fmt, LocTag);
    CountHavingAll(urls, LocTag);
  }

  lemma UrlElementCount(urls: seq<SitemapUrl>, fmt: real -> string)
    requires forall i :: 0 <= i < |urls| ==> NoValueContains(urls[i], fmt, "<url>")
    ensures CountOcc(SitemapXml(urls, fmt), "<url>") == |urls|
  {
    assert Open(TagName(UrlTag)) == "<url>";
    TagCount(urls, fmt, UrlTag);
    CountHavingAll(urls, UrlTag);
  }

  /**
   * Inside one block, the optional line for field `t` is there exactly when
   * the field is set (with no value containing `<t>`).
   */
  lemma FieldLinePresence(u: SitemapUrl, fmt: real -> string, t: SitemapTag)
    requires NoValueContains(u, fmt, Open(TagName(t)))
    ensures CountOcc(UrlBlock(u, fmt), Open(TagName(t))) == (if HasField(u, t) then 1 else 0)
  {
    assert IsName(TagName(t));
    OpenIsOpenTag(TagName(t));
    BlockCount(u, fmt, Open(TagName(t)));
    LayoutCountOfTag(u, t);
  }
}
