/**
 * The meta-tag helpers: the map from every `meta` element's `name` and
 * `property` to its `content`, and the Open Graph check that reports which of
 * four required `og:` keys that map holds.
 */
module Meta {
  import opened Wrappers
  import opened Html

  /** `meta`. */
  const MetaSelector := Tag("meta")

  /** The Open Graph keys the check looks for, in the order it reports them. */
  const RequiredOg: seq<string> := ["og:title", "og:description", "og:image", "og:url"]

  /** The loop body of `extract_all_meta_tags` for one element: `name` first, then `property`. */
  function ApplyMeta(m: map<string, string>, e: Element): map<string, string> {
    var m1 := if "name" in e.attrs && "content" in e.attrs then m[e.attrs["name"] := e.attrs["content"]] else m;
    if "property" in e.attrs && "content" in e.attrs then m1[e.attrs["property"] := e.attrs["content"]] else m1
  }

  /** The map after visiting `es` in order, starting from the empty map. */
  function MetaMap(es: seq<Element>): map<string, string>
    decreases |es|
  {
    if es == [] then map[] else ApplyMeta(MetaMap(es[..|es| - 1]), es[|es| - 1])
  }

  /** What `extract_all_meta_tags` returns for a document. */
  function MetaTags(doc: Document): map<string, string> {
    MetaMap(Select(doc, MetaSelector))
  }

  /** The element has `content` and names the key `k` through `name` or `property`. */
  predicate Carries(e: Element, k: string) {
    "content" in e.attrs
    && (("name" in e.attrs && e.attrs["name"] == k) || ("property" in e.attrs && e.attrs["property"] == k))
  }

  /** One element: the keys it carries are set to its content, every other key is kept. */
  lemma ApplyMetaEffect(m: map<string, string>, e: Element, k: string)
    ensures Carries(e, k) ==> k in ApplyMeta(m, e) && ApplyMeta(m, e)[k] == e.attrs["content"]
    ensures !Carries(e, k) ==> (k in ApplyMeta(m, e) <==> k in m)
    ensures !Carries(e, k) && k in m ==> ApplyMeta(m, e)[k] == m[k]
  {
  }

  /**
   * `extract_all_meta_tags`: walk the `meta` elements in document order and
   * insert `name -> content`, then `property -> content`, when both
   * attributes are present.
   */
  method ExtractAllMetaTags(doc: Document) returns (metaTags: map<string, string>)
    ensures metaTags == MetaTags(doc)
  {
    var elements := Select(doc, MetaSelector);
    metaTags := map[];
    var i := 0;
    while i < |elements|
      invariant 0 <= i <= |elements|
      invariant metaTags == MetaMap(elements[..i])
    {
      assert elements[..i + 1][..i] == elements[..i];
      var element := elements[i];
      match Attr(element, "name") {
        case Some(name) =>
          match Attr(element, "content") {
            case Some(content) => metaTags := metaTags[name := content];
            case None =>
          }
        case None =>
      }
      match Attr(element, "property") {
        case Some(property) =>
          match Attr(element, "content") {
            case Some(content) => metaTags := metaTags[property := content];
            case None =>
          }
        case None =>
      }
      i := i + 1;
    }
    assert elements[..i] == elements;
  }

  /** The keys are exactly the names and properties of the elements that have `content`. */
  lemma {:induction false} MetaMapDomain(es: seq<Element>, k: string)
    ensures k in MetaMap(es) <==> exists i :: 0 <= i < |es| && Carries(es[i], k)
    decreases |es|
  {
    if es != [] {
      var init := es[..|es| - 1];
      MetaMapDomain(init, k);
      ApplyMetaEffect(MetaMap(init), es[|es| - 1], k);
      if exists i :: 0 <= i < |init| && Carries(init[i], k) {
        var i :| 0 <= i < |init| && Carries(init[i], k);
        assert es[i] == init[i];
      }
      if exists i :: 0 <= i < |es| && Carries(es[i], k) {
        var i :| 0 <= i < |es| && Carries(es[i], k);
        if i < |init| {
          assert init[i] == es[i];
        }
      }
    }
  }

  /**
   * Last write wins: the value of `k` is the content of the last element
   * carrying `k`.
   */
  lemma {:induction false} MetaMapLastWins(es: seq<Element>, k: string, i: nat)
    requires i < |es| && Carries(es[i], k)
    requires forall j :: i < j < |es| ==> !Carries(es[j], k)
    ensures k in MetaMap(es) && MetaMap(es)[k] == es[i].attrs["content"]
    decreases |es|
  {
    var init := es[..|es| - 1];
    ApplyMetaEffect(MetaMap(init), es[|es| - 1], k);
    if i < |init| {
      assert init[i] == es[i];
      forall j | i < j < |init| ensures !Carries(init[j], k) {
        assert init[j] == es[j];
      }
      MetaMapLastWins(init, k, i);
    }
  }

  /** On a document: the keys are the names and properties of its `meta` elements that have `content`. */
  lemma MetaTagsDomain(doc: Document, k: string)
    ensures k in MetaTags(doc) <==> exists i :: 0 <= i < |doc| && doc[i].tag == "meta" && Carries(doc[i], k)
  {
    var metas := Select(doc, MetaSelector);
    MetaMapDomain(metas, k);
    if exists i :: 0 <= i < |metas| && Carries(metas[i], k) {
      var i :| 0 <= i < |metas| && Carries(metas[i], k);
      assert metas[i] in doc;
      var j :| 0 <= j < |doc| && doc[j] == metas[i];
      assert doc[j].tag == "meta" && Carries(doc[j], k);
    }
    if exists i :: 0 <= i < |doc| && doc[i].tag == "meta" && Carries(doc[i], k) {
      var i :| 0 <= i < |doc| && doc[i].tag == "meta" && Carries(doc[i], k);
      assert doc[i] in metas;
      var j :| 0 <= j < |metas| && metas[j] == doc[i];
      assert Carries(metas[j], k);
    }
  }

  /** A `meta` element without `content` adds no entry and changes none. */
  lemma NoContentNoEntry(doc: Document, e: Element)
    requires "content" !in e.attrs
    ensures MetaTags(doc + [e]) == MetaTags(doc)
  {
    SelectAppend(doc, [e], MetaSelector);
    var metas := Select(doc, MetaSelector);
    if Matches(MetaSelector, e) {
      assert Select([e], MetaSelector) == Select([], MetaSelector) + [e];
      assert (metas + [e])[..|metas|] == metas;
    } else {
      assert Select([e], MetaSelector) == Select([], MetaSelector);
      assert metas + [] == metas;
    }
  }

  /**
   * On a document: when `e` is a `meta` element carrying `k` and no later
   * `meta` element carries `k`, the value of `k` is `e`'s content.
   */
  lemma MetaTagsLastWins(before: Document, e: Element, after: Document, k: string)
    requires e.tag == "meta" && Carries(e, k)
    requires forall j :: 0 <= j < |after| && after[j].tag == "meta" ==> !Carries(after[j], k)
    ensures var doc := before + [e] + after;
      k in MetaTags(doc) && MetaTags(doc)[k] == e.attrs["content"]
  {
    var front, back := Select(before, MetaSelector), Select(after, MetaSelector);
    SelectAppend(before + [e], after, MetaSelector);
    SelectAppend(before, [e], MetaSelector);
    assert Select([e], MetaSelector) == Select([], MetaSelector) + [e];
    var metas := front + [e] + back;
    assert Select(before + [e] + after, MetaSelector) == metas;
    forall j | |front| < j < |metas| ensures !Carries(metas[j], k) {
      var x := metas[j];
      assert x == back[j - |front| - 1];
      assert x in after && x.tag == "meta";
      var m :| 0 <= m < |after| && after[m] == x;
    }
    MetaMapLastWins(metas, k, |front|);
  }

  // ---------------------------------------------------------------------
  // Open Graph.

  /** The keys of `required` that `m` holds, in the order of `required`. */
  function PresentKeys(required: seq<string>, m: map<string, string>): (r: seq<string>)
    ensures |r| <= |required|
    ensures forall t :: t in r <==> t in required && t in m
    decreases |required|
  {
    if required == [] then []
    else
      var t := required[|required| - 1];
      PresentKeys(required[..|required| - 1], m) + (if t in m then [t] else [])
  }

  /**
   * `check_open_graph`: the required Open Graph keys present among the
   * document's meta tags, in the fixed order.
   */
  method CheckOpenGraph(doc: Document) returns (ogTags: seq<string>)
    ensures ogTags == PresentKeys(RequiredOg, MetaTags(doc))
  {
    var metaTags := ExtractAllMetaTags(doc);
    ogTags := [];
    var i := 0;
    while i < |RequiredOg|
      invariant 0 <= i <= |RequiredOg|
      invariant ogTags == PresentKeys(RequiredOg[..i], metaTags)
    {
      assert RequiredOg[..i + 1][..i] == RequiredOg[..i];
      var requiredTag := RequiredOg[i];
      if requiredTag in metaTags {
        ogTags := ogTags + [requiredTag];
      }
      i := i + 1;
    }
    assert RequiredOg[..i] == RequiredOg;
  }

  /** `a` is `b` with some elements left out, the rest kept in order. */
  predicate SubsequenceOf(a: seq<string>, b: seq<string>)
    decreases |b|
  {
    if a == [] then true
    else if b == [] then false
    else if a[|a| - 1] == b[|b| - 1] then SubsequenceOf(a[..|a| - 1], b[..|b| - 1])
    else SubsequenceOf(a, b[..|b| - 1])
  }

  predicate Distinct(s: seq<string>) {
    forall i, j :: 0 <= i < j < |s| ==> s[i] != s[j]
  }

  /** The present keys keep the order of the required list. */
  lemma {:induction false} PresentKeysInOrder(required: seq<string>, m: map<string, string>)
    ensures SubsequenceOf(PresentKeys(required, m), required)
    decreases |required|
  {
    if required != [] {
      var init := required[..|required| - 1];
      var t := required[|required| - 1];
      var before := PresentKeys(init, m);
      PresentKeysInOrder(init, m);
      if t in m {
        var r := before + [t];
        assert r[..|r| - 1] == before;
      } else {
        assert PresentKeys(required, m) == before;
        if before != [] {
          assert before[|before| - 1] in m;
        }
      }
    }
  }

  /** Keys taken from a list without repetitions are without repetitions. */
  lemma {:induction false} PresentKeysDistinct(required: seq<string>, m: map<string, string>)
    requires Distinct(required)
    ensures Distinct(PresentKeys(required, m))
    decreases |required|
  {
    if required != [] {
      var init := required[..|required| - 1];
      var t := required[|required| - 1];
      assert Distinct(init);
      PresentKeysDistinct(init, m);
      assert t !in init;
    }
  }

  lemma RequiredOgDistinct()
    ensures Distinct(RequiredOg)
  {
    assert RequiredOg[0][3] == 't' && RequiredOg[1][3] == 'd' && RequiredOg[2][3] == 'i' && RequiredOg[3][3] == 'u';
  }

  /**
   * The Open Graph result: a required key is reported exactly when the meta
   * tags hold it; the report keeps the required order, has no repetition and
   * at most four entries.
   */
  lemma OpenGraphMeaning(doc: Document, t: string)
    ensures var og := PresentKeys(RequiredOg, MetaTags(doc));
      (t in og <==> t in RequiredOg && t in MetaTags(doc))
      && SubsequenceOf(og, RequiredOg) && Distinct(og) && |og| <= 4
  {
    PresentKeysInOrder(RequiredOg, MetaTags(doc));
    RequiredOgDistinct();
    PresentKeysDistinct(RequiredOg, MetaTags(doc));
  }
}
