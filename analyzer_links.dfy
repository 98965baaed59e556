/**
 * Internal and external link counting. The URL library is not modelled: a
 * parsed URL is reduced to its host, and `Url::parse` and `Url::join` enter
 * as the parameters `parse` and `join`, which may fail.
 */
module Links {
  import opened Wrappers
  import opened Html

  /** What the analyzer looks at in a parsed URL: its host, if it has one. */
  datatype ParsedUrl = ParsedUrl(host: Option<string>)

  /** The error `count_links` propagates when the base URL does not parse. */
  datatype LinkError = InvalidBaseUrl

  /** `a[href]`. */
  const AnchorSelector := TagHasAttr("a", "href")

  /** What happens to one anchor element. */
  datatype Outcome = Unresolved | Internal | External

  function Classify(e: Element, base: ParsedUrl, join: (ParsedUrl, string) -> Option<ParsedUrl>): Outcome {
    match Attr(e, "href")
    case None => Unresolved
    case Some(href) =>
      match join(base, href)
      case None => Unresolved
      case Some(url) => if url.host == base.host then Internal else External
  }

  /** The number of anchors with outcome `o`. */
  function CountOutcome(anchors: seq<Element>, base: ParsedUrl,
                        join: (ParsedUrl, string) -> Option<ParsedUrl>, o: Outcome): (n: nat)
    ensures n <= |anchors|
    decreases |anchors|
  {
    if anchors == [] then 0
    else
      CountOutcome(anchors[..|anchors| - 1], base, join, o)
      + (if Classify(anchors[|anchors| - 1], base, join) == o then 1 else 0)
  }

  /** The positions of the anchors with outcome `o`. */
  ghost function OutcomeIndices(anchors: seq<Element>, base: ParsedUrl,
                                join: (ParsedUrl, string) -> Option<ParsedUrl>, o: Outcome): set<nat>
  {
    set i: nat | i < |anchors| && Classify(anchors[i], base, join) == o
  }

  lemma OutcomeIndicesPush(anchors: seq<Element>, base: ParsedUrl,
                           join: (ParsedUrl, string) -> Option<ParsedUrl>, o: Outcome)
    requires anchors != []
    ensures var init := anchors[..|anchors| - 1];
      OutcomeIndices(anchors, base, join, o)
      == OutcomeIndices(init, base, join, o)
         + (if Classify(anchors[|anchors| - 1], base, join) == o then {|init|} else {})
  {
    var init := anchors[..|anchors| - 1];
    forall i: nat | i < |init| ensures anchors[i] == init[i] {
    }
  }

  /** The counter is the number of anchors with that outcome. */
  lemma {:induction false} CountOutcomeIsCardinality(anchors: seq<Element>, base: ParsedUrl,
                                                     join: (ParsedUrl, string) -> Option<ParsedUrl>, o: Outcome)
    ensures CountOutcome(anchors, base, join, o) == |OutcomeIndices(anchors, base, join, o)|
    decreases |anchors|
  {
    if anchors != [] {
      var init := anchors[..|anchors| - 1];
      CountOutcomeIsCardinality(init, base, join, o);
      OutcomeIndicesPush(anchors, base, join, o);
      var extra: set<nat> := if Classify(anchors[|anchors| - 1], base, join) == o then {|init|} else {};
      assert OutcomeIndices(init, base, join, o) !! extra;
    }
  }

  /** Every anchor has exactly one outcome. */
  lemma {:induction false} OutcomesPartition(anchors: seq<Element>, base: ParsedUrl,
                                             join: (ParsedUrl, string) -> Option<ParsedUrl>)
    ensures CountOutcome(anchors, base, join, Unresolved) + CountOutcome(anchors, base, join, Internal)
      + CountOutcome(anchors, base, join, External) == |anchors|
    decreases |anchors|
  {
    if anchors != [] {
      OutcomesPartition(anchors[..|anchors| - 1], base, join);
    }
  }

  /**
   * `count_links`: fails when the base URL does not parse; otherwise one
   * counter step per `a[href]` element whose href joins onto the base.
   */
  method CountLinks(doc: Document, baseUrl: string,
                    parse: string -> Option<ParsedUrl>, join: (ParsedUrl, string) -> Option<ParsedUrl>)
    returns (r: Result<(nat, nat), LinkError>)
    ensures r.Failure? <==> parse(baseUrl).None?
    ensures r.Success? ==>
      var anchors := Select(doc, AnchorSelector);
      r.value == (CountOutcome(anchors, parse(baseUrl).value, join, Internal),
                  CountOutcome(anchors, parse(baseUrl).value, join, External))
  {
    var anchors := Select(doc, AnchorSelector);
    if parse(baseUrl).None? {
      return Failure(InvalidBaseUrl);
    }
    var base := parse(baseUrl).value;
    var internal, external := 0, 0;
    var i := 0;
    while i < |anchors|
      invariant 0 <= i <= |anchors|
      invariant internal == CountOutcome(anchors[..i], base, join, Internal)
      invariant external == CountOutcome(anchors[..i], base, join, External)
    {
      assert anchors[..i + 1][..i] == anchors[..i];
      var element := anchors[i];
      if "href" in element.attrs {
        var href := element.attrs["href"];
        match join(base, href) {
          case Some(url) =>
            if url.host == base.host {
              internal := internal + 1;
            } else {
              external := external + 1;
            }
          case None =>
        }
      }
      i := i + 1;
    }
    assert anchors[..i] == anchors;
    return Success((internal, external));
  }

  /** The anchor at position `i` has an href that joins onto `base`, landing on `base`'s host or not. */
  ghost predicate LandsOn(anchors: seq<Element>, i: nat, base: ParsedUrl,
                          join: (ParsedUrl, string) -> Option<ParsedUrl>, sameHost: bool)
  {
    i < |anchors| && "href" in anchors[i].attrs
    && var url := join(base, anchors[i].attrs["href"]);
    url.Some? && (url.value.host == base.host) == sameHost
  }

  /**
   * Once the base parses: internal plus external is the number of `a[href]`
   * elements whose href resolves; internal counts those landing on the base
   * host and external the others.
   */
  lemma LinkCountsMeaning(doc: Document, base: ParsedUrl, join: (ParsedUrl, string) -> Option<ParsedUrl>)
    ensures var anchors := Select(doc, AnchorSelector);
      CountOutcome(anchors, base, join, Internal) + CountOutcome(anchors, base, join, External)
      == |anchors| - CountOutcome(anchors, base, join, Unresolved)
    ensures var anchors := Select(doc, AnchorSelector);
      CountOutcome(anchors, base, join, Internal)
      == |set i: nat | i < |anchors| && LandsOn(anchors, i, base, join, true)|
    ensures var anchors := Select(doc, AnchorSelector);
      CountOutcome(anchors, base, join, External)
      == |set i: nat | i < |anchors| && LandsOn(anchors, i, base, join, false)|
  {
    var anchors := Select(doc, AnchorSelector);
    OutcomesPartition(anchors, base, join);
    CountOutcomeIsCardinality(anchors, base, join, Internal);
    CountOutcomeIsCardinality(anchors, base, join, External);
    assert OutcomeIndices(anchors, base, join, Internal) == set i: nat | i < |anchors| && LandsOn(anchors, i, base, join, true);
    assert OutcomeIndices(anchors, base, join, External) == set i: nat | i < |anchors| && LandsOn(anchors, i, base, join, false);
  }

  /** A page whose links all fail to resolve counts no link at all. */
  lemma NoResolvedLinks(anchors: seq<Element>, base: ParsedUrl, join: (ParsedUrl, string) -> Option<ParsedUrl>)
    requires forall i :: 0 <= i < |anchors| ==> Classify(anchors[i], base, join) == Unresolved
    ensures CountOutcome(anchors, base, join, Internal) == 0
    ensures CountOutcome(anchors, base, join, External) == 0
  {
    CountOutcomeIsCardinality(anchors, base, join, Internal);
    CountOutcomeIsCardinality(anchors, base, join, External);
    assert OutcomeIndices(anchors, base, join, Internal) == {};
    assert OutcomeIndices(anchors, base, join, External) == {};
  }
}
