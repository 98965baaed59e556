/**
 * The order of the lines inside one `url` element: the `url` start tag, the
 * `loc` line, then the `lastmod`, `changefreq` and `priority` lines of the
 * fields that are set, always in that order. Stated on the text itself:
 * whenever two of these start tags occur in a block (and no value contains
 * them), the earlier field's tag comes first.
 */
module SitemapOrder {
  import opened Wrappers
  import opened RustStr
  import opened Sitemap
  import opened SitemapTags

  /** The position of each element's line within a block. */
  function Rank(t: SitemapTag): nat {
    match t
    case UrlTag => 0
    case LocTag => 1
    case LastmodTag => 2
    case ChangefreqTag => 3
    case PriorityTag => 4
  }

  /** The six lines of a block, optional ones empty when their field is not set. */
  function BlockLines(u: SitemapUrl, fmt: real -> string): (ls: seq<string>)
    ensures |ls| == 6
  {
    [UrlOpenLine(), FieldLine("loc", u.loc), OptionalLine("lastmod", u.lastmod),
     OptionalLine("changefreq", u.changefreq), OptionalLine("priority", PriorityText(u.priority, fmt)),
     UrlCloseLine()]
  }

  lemma ConcatPrefixStep(ls: seq<string>, k: nat)
    requires k < |ls|
    ensures Concat(ls[..k + 1]) == Concat(ls[..k]) + ls[k]
  {
    assert ls[..k + 1][..k] == ls[..k];
  }

  lemma BlockIsLines(u: SitemapUrl, fmt: real -> string)
    ensures UrlBlock(u, fmt) == Concat(BlockLines(u, fmt))
  {
    var ls := BlockLines(u, fmt);
    ConcatPrefixStep(ls, 0);
    ConcatPrefixStep(ls, 1);
    ConcatPrefixStep(ls, 2);
    ConcatPrefixStep(ls, 3);
    ConcatPrefixStep(ls, 4);
    ConcatPrefixStep(ls, 5);
    assert ls[..0] == [] && ls[..6] == ls;
    assert [] + ls[0] == ls[0];
  }

  /** The lines before line `i`, line `i`, and the lines after it. */
  lemma ConcatSplit(ls: seq<string>, i: nat)
    requires i < |ls|
    ensures Concat(ls) == Concat(ls[..i]) + ls[i] + Concat(ls[i + 1..])
  {
    assert ls == ls[..i + 1] + ls[i + 1..];
    ConcatAppend(ls[..i + 1], ls[i + 1..]);
    ConcatPrefixStep(ls, i);
  }

  /** Where the start tag of `t` sits in its line: after two spaces for `url`, four for the fields. */
  function Indent(t: SitemapTag): nat {
    if t == UrlTag then 2 else 4
  }

  /** Where the start tag of `t` sits in the block. */
  function TagPos(u: SitemapUrl, fmt: real -> string, t: SitemapTag): nat {
    |Concat(BlockLines(u, fmt)[..Rank(t)])| + Indent(t)
  }

  lemma OccursInside(a: string, b: string, c: string, p: string, k: nat)
    requires OccursAt(b, p, k)
    ensures OccursAt(a + b + c, p, |a| + k)
  {
    assert (a + b + c)[|a| + k..|a| + k + |p|] == b[k..k + |p|];
  }

  lemma FieldLineTag(name: string, v: string)
    ensures OccursAt(FieldLine(name, v), Open(name), 4)
    ensures |FieldLine(name, v)| > 4
  {
    OccursInside("    ", Open(name), v + Close(name) + "\n", Open(name), 0);
    assert FieldLine(name, v) == "    " + Open(name) + (v + Close(name) + "\n");
  }

  lemma UrlOpenLineTag()
    ensures OccursAt(UrlOpenLine(), Open("url"), 2)
    ensures |UrlOpenLine()| > 4
  {
    OccursInside("  ", Open("url"), "\n", Open("url"), 0);
  }

  /** The line of a field that is set holds its start tag and is longer than the indentation. */
  lemma LineHoldsTag(u: SitemapUrl, fmt: real -> string, t: SitemapTag)
    requires HasField(u, t)
    ensures OccursAt(BlockLines(u, fmt)[Rank(t)], Open(TagName(t)), Indent(t))
    ensures |BlockLines(u, fmt)[Rank(t)]| > 4
  {
    match t {
      case UrlTag => UrlOpenLineTag();
      case LocTag => FieldLineTag("loc", u.loc);
      case LastmodTag => FieldLineTag("lastmod", u.lastmod.value);
      case ChangefreqTag => FieldLineTag("changefreq", u.changefreq.value);
      case PriorityTag => FieldLineTag("priority", fmt(u.priority.value));
    }
  }

  /** A field that is set has its start tag at `TagPos`. */
  lemma TagAtPos(u: SitemapUrl, fmt: real -> string, t: SitemapTag)
    requires HasField(u, t)
    ensures OccursAt(UrlBlock(u, fmt), Open(TagName(t)), TagPos(u, fmt, t))
  {
    var ls, r := BlockLines(u, fmt), Rank(t);
    BlockIsLines(u, fmt);
    ConcatSplit(ls, r);
    LineHoldsTag(u, fmt, t);
    OccursInside(Concat(ls[..r]), ls[r], Concat(ls[r + 1..]), Open(TagName(t)), Indent(t));
  }

  /** The tag of an earlier field that is set sits before the tag of any later field. */
  lemma TagPosIncreasing(u: SitemapUrl, fmt: real -> string, s: SitemapTag, t: SitemapTag)
    requires Rank(s) < Rank(t) && HasField(u, s)
    ensures TagPos(u, fmt, s) < TagPos(u, fmt, t)
  {
    var ls, r, q := BlockLines(u, fmt), Rank(s), Rank(t);
    assert ls[..q] == ls[..r + 1] + ls[r + 1..q];
    ConcatAppend(ls[..r + 1], ls[r + 1..q]);
    ConcatPrefixStep(ls, r);
    LineHoldsTag(u, fmt, s);
  }

  lemma {:induction false} TwoOccurrencesOrdered(s: string, p: string, k1: nat, k2: nat)
    requires p != [] && k1 < k2 && OccursAt(s, p, k1) && OccursAt(s, p, k2)
    ensures CountOcc(s, p) >= 2
    decreases k1
  {
    OccursAtShift(s, p, k2 - 1);
    if k1 == 0 {
      OccurrenceCounted(s[1..], p, k2 - 1);
    } else {
      OccursAtShift(s, p, k1 - 1);
      TwoOccurrencesOrdered(s[1..], p, k1 - 1, k2 - 1);
    }
  }

  /** Two different positions of `p` mean at least two occurrences. */
  lemma TwoOccurrences(s: string, p: string, k1: nat, k2: nat)
    requires p != [] && OccursAt(s, p, k1) && OccursAt(s, p, k2)
    ensures k1 != k2 ==> CountOcc(s, p) >= 2
  {
    if k1 < k2 {
      TwoOccurrencesOrdered(s, p, k1, k2);
    } else if k2 < k1 {
      TwoOccurrencesOrdered(s, p, k2, k1);
    }
  }

  /** With no value containing the tag, a field's start tag occurs only where the layout puts it. */
  lemma TagOnlyAtPos(u: SitemapUrl, fmt: real -> string, t: SitemapTag, k: nat)
    requires NoValueContains(u, fmt, Open(TagName(t)))
    requires OccursAt(UrlBlock(u, fmt), Open(TagName(t)), k)
    ensures HasField(u, t) && k == TagPos(u, fmt, t)
  {
    var block, p := UrlBlock(u, fmt), Open(TagName(t));
    FieldLinePresence(u, fmt, t);
    OccurrenceCounted(block, p, k);
    TagAtPos(u, fmt, t);
    TwoOccurrences(block, p, k, TagPos(u, fmt, t));
  }

  /**
   * Inside a block, start tags occur in the fixed order `url`, `loc`,
   * `lastmod`, `changefreq`, `priority`: an earlier element's tag always
   * precedes a later one's.
   */
  lemma FieldsInOrder(u: SitemapUrl, fmt: real -> string, s: SitemapTag, t: SitemapTag, ks: nat, kt: nat)
    requires Rank(s) < Rank(t)
    requires NoValueContains(u, fmt, Open(TagName(s))) && NoValueContains(u, fmt, Open(TagName(t)))
    requires OccursAt(UrlBlock(u, fmt), Open(TagName(s)), ks)
    requires OccursAt(UrlBlock(u, fmt), Open(TagName(t)), kt)
    ensures ks < kt
  {
    TagOnlyAtPos(u, fmt, s, ks);
    TagOnlyAtPos(u, fmt, t, kt);
    TagPosIncreasing(u, fmt, s, t);
  }
}
