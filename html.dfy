/**
 * The parsed page, standing for the `scraper` document. A document is its
 * elements in document order; each element carries its tag name, its
 * attributes and the text nodes below it. The three selector shapes the
 * analyzer compiles from fixed strings ("h1", "a[href]",
 * "meta[name='description']") are a small datatype matched one element at a
 * time.
 */
module Html {
  import opened Wrappers
  import opened RustStr

  datatype Element = Element(tag: string, attrs: map<string, string>, texts: seq<string>)

  type Document = seq<Element>

  datatype Selector =
    | Tag(name: string)                                    // `name`
    | TagHasAttr(name: string, attr: string)               // `name[attr]`
    | TagAttrEquals(name: string, attr: string, value: string)  // `name[attr='value']`

  predicate Matches(sel: Selector, e: Element) {
    match sel
    case Tag(n) => e.tag == n
    case TagHasAttr(n, a) => e.tag == n && a in e.attrs
    case TagAttrEquals(n, a, v) => e.tag == n && a in e.attrs && e.attrs[a] == v
  }

  /** `ElementRef::attr`: the value of an attribute, if present. */
  function Attr(e: Element, name: string): (r: Option<string>)
    ensures r.Some? <==> name in e.attrs
    ensures r.Some? ==> r.value == e.attrs[name]
  {
    if name in e.attrs then Some(e.attrs[name]) else None
  }

  /** `el.text().collect::<String>()`: the text nodes concatenated. */
  function TextContent(e: Element): string {
    Concat(e.texts)
  }

  /** `Html::select`: the matching elements, in document order. */
  function Select(doc: Document, sel: Selector): (r: seq<Element>)
    ensures |r| <= |doc|
    ensures forall e :: e in r <==> e in doc && Matches(sel, e)
    decreases |doc|
  {
    if doc == [] then []
    else
      var init := doc[..|doc| - 1];
      var last := doc[|doc| - 1];
      assert doc == init + [last];
      Select(init, sel) + (if Matches(sel, last) then [last] else [])
  }

  lemma {:induction false} SelectAppend(a: Document, b: Document, sel: Selector)
    ensures Select(a + b, sel) == Select(a, sel) + Select(b, sel)
    decreases |b|
  {
    if b == [] {
      assert a + b == a;
    } else {
      var b' := b[..|b| - 1];
      assert (a + b)[..|a + b| - 1] == a + b';
      SelectAppend(a, b', sel);
    }
  }

  /** One element is selected exactly when it matches. */
  lemma SelectSingle(e: Element, sel: Selector)
    ensures Select([e], sel) == if Matches(sel, e) then [e] else []
  {
    assert [e][..0] == [];
  }

  /** Position of the first matching element: what `select(..).next()` yields. */
  function FirstIndex(doc: Document, sel: Selector): (r: Option<nat>)
    ensures r.None? <==> forall i :: 0 <= i < |doc| ==> !Matches(sel, doc[i])
    ensures r.Some? ==> r.value < |doc| && Matches(sel, doc[r.value])
    ensures r.Some? ==> forall i :: 0 <= i < r.value ==> !Matches(sel, doc[i])
    decreases |doc|
  {
    if doc == [] then None
    else if Matches(sel, doc[0]) then Some(0)
    else match FirstIndex(doc[1..], sel)
      case None => None
      case Some(i) => Some(i + 1)
  }

  /** The number of elements of `es` that satisfy `p` (`filter(p).count()`). */
  function CountIf(es: seq<Element>, p: Element -> bool): (n: nat)
    ensures n <= |es|
    decreases |es|
  {
    if es == [] then 0
    else CountIf(es[..|es| - 1], p) + (if p(es[|es| - 1]) then 1 else 0)
  }

  /** The positions of `es` whose element satisfies `p`. */
  ghost function IndicesWhere(es: seq<Element>, p: Element -> bool): set<nat> {
    set i: nat | i < |es| && p(es[i])
  }

  lemma IndicesWherePush(es: seq<Element>, p: Element -> bool)
    requires es != []
    ensures var init := es[..|es| - 1];
      IndicesWhere(es, p) == IndicesWhere(init, p) + (if p(es[|es| - 1]) then {|init|} else {})
  {
    var init := es[..|es| - 1];
    forall i: nat | i < |init| ensures es[i] == init[i] {
    }
  }

  /** The count is the number of satisfying positions. */
  lemma {:induction false} CountIfIsCardinality(es: seq<Element>, p: Element -> bool)
    ensures CountIf(es, p) == |IndicesWhere(es, p)|
    decreases |es|
  {
    if es != [] {
      var init := es[..|es| - 1];
      CountIfIsCardinality(init, p);
      IndicesWherePush(es, p);
      var extra: set<nat> := if p(es[|es| - 1]) then {|init|} else {};
      assert IndicesWhere(init, p) !! extra;
    }
  }

  /** Counting over a selection counts the elements that match and satisfy `p`. */
  lemma {:induction false} CountIfSelect(doc: Document, sel: Selector, p: Element -> bool, q: Element -> bool)
    requires forall e :: q(e) == (Matches(sel, e) && p(e))
    ensures CountIf(Select(doc, sel), p) == CountIf(doc, q)
    decreases |doc|
  {
    if doc != [] {
      var init := doc[..|doc| - 1];
      var last := doc[|doc| - 1];
      CountIfSelect(init, sel, p, q);
      var tail := if Matches(sel, last) then [last] else [];
      assert Select(doc, sel) == Select(init, sel) + tail;
      CountIfAppend(Select(init, sel), tail, p);
      assert tail != [] ==> tail[..0] == [];
    }
  }

  lemma {:induction false} CountIfAppend(a: seq<Element>, b: seq<Element>, p: Element -> bool)
    ensures CountIf(a + b, p) == CountIf(a, p) + CountIf(b, p)
    decreases |b|
  {
    if b == [] {
      assert a + b == a;
    } else {
      var b' := b[..|b| - 1];
      assert (a + b)[..|a + b| - 1] == a + b';
      CountIfAppend(a, b', p);
    }
  }
}
