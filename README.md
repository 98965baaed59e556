# fast_seo in Dafny

A model of the in-memory core of the `fast_seo` crate, with proofs about it.
`fast_seo` is an SEO page analyzer with two small helper modules.

- **The page analyzer** (`SeoAnalyzer`) starts once the page body has been fetched and parsed. It
  - extracts the title, the meta description, the H1/H2 texts and the JSON-LD blocks;
  - computes the keyword density;
  - counts the images without alternative text;
  - counts the internal and external links relative to the page URL;
  - derives the list of SEO issues from a fixed rule table;
  - folds the issues into a score.
- **The sitemap serializer** (`SitemapGenerator::generate_xml`) renders a list of URL records as a Sitemap protocol 0.9 document (sitemaps.org, "XML tag definitions").
- **The meta-tag helpers** (`MetaAnalyzer`) build the `name`/`property` to `content` map of a page and check it for the four Open Graph keys.

Modules, one concern per file:

| file | module | what |
|---|---|---|
| `wrappers.dfy` | `Wrappers` | `Option`, `Result` |
| `rust_str.dfy` | `RustStr` | Rust string semantics: UTF-8 byte length (`str::len`), `char::is_whitespace`, `trim`, `split_whitespace`, decimal printing, the `as u32` cast |
| `html.dfy` | `Html` | the parsed document as a sequence of elements in document order; the selector shapes the analyzer uses; select / first match / count |
| `seo_types.dfy` | `SeoTypes` | `SeoReport`, `SeoIssue`, `IssueSeverity` |
| `analyzer_extract.dfy` | `Extract` | the `extract_*` projections and `count_images_without_alt` |
| `analyzer_keywords.dfy` | `Keywords` | `calculate_keyword_density` |
| `analyzer_links.dfy` | `Links` | `count_links` |
| `analyzer_issues.dfy` | `Issues` | `generate_issues` and `calculate_score` |
| `analyzer.dfy` | `Analyzer` | `analyze_url` after the fetch |
| `sitemap.dfy` | `Sitemap` | `generate_xml` and the shape of its output |
| `sitemap_tags.dfy` | `SitemapTags` | counting start tags in the output |
| `sitemap_order.dfy` | `SitemapOrder` | the order of the lines inside a `url` element |
| `meta.dfy` | `Meta` | `extract_all_meta_tags`, `check_open_graph` |

How the Rust code is modelled:

- **Loops become methods.** Each loop in the source is a `method` with a `while` loop. Its invariant ties the state after `i` steps to a specification function of the first `i` inputs:
  - `saturating_sub` on the score;
  - the link counters;
  - the `HashMap` updates of the word counts and of the meta tags;
  - `push_str` onto the XML buffer;
  - the Open Graph `push`.
- **Pushes onto the issue vector are straight-line methods.** `generate_issues` has no loop; its four rule blocks are `Push*` methods called in source order, each proved equal to its block of the rule table.
- **Properties sit on the specification functions.** What the source promises is proved as lemmas about those functions.
- **Lengths are byte lengths.** The analyzer measures title and description lengths with `str::len`, which counts UTF-8 bytes, so the model uses `RustStr.ByteLen`. The keyword filter `word.len() > 3` counts bytes too, so a word of three non-ASCII letters is kept. The issue texts speak of "caracteres", so a title with non-ASCII letters passes at fewer than 30 characters. The model follows the code.
- **The meta description is taken from the first match only.** It is the `content` of the first `meta name="description"` element. If that element has no `content`, the result is `None`, even when a later such element has one.

## Model

| member | source | states |
|---|---|---|
| Issues.GenerateIssues | src/analyzer.rs:149-223 | the issues are exactly the rule table's verdicts on the report, rendered in block order; at most four |
| Issues.PushTitleIssue | src/analyzer.rs:152-173 | the title block appends exactly the rendered verdict of the title rule (missing, shorter than 30 bytes, longer than 60 bytes, or nothing) |
| Issues.PushDescriptionIssue | src/analyzer.rs:175-196 | the description block appends exactly the verdict of the 120..160-byte rule |
| Issues.PushH1Issue | src/analyzer.rs:198-211 | the H1 block appends exactly the verdict on the number of H1 texts |
| Issues.PushAltIssue | src/analyzer.rs:213-220 | the alt block appends an issue exactly when the count is positive |
| Issues.IssuesFollowRuleOrder | src/analyzer.rs:149-222 | at most one issue per rule block, blocks strictly in the order title, meta description, H1, alt; hence at most four issues |
| Issues.KindInReport | src/analyzer.rs:149-222 | an issue kind is reported exactly when its own block decides it |
| Issues.TitleVerdicts | src/analyzer.rs:153-173 | "Título ausente" iff no title; too short iff under 30 bytes; too long iff over 60 bytes; no title issue iff 30..=60 bytes |
| Issues.DescriptionVerdicts | src/analyzer.rs:176-196 | the same three verdicts for the description, bounds 120..=160 bytes; no issue iff in range |
| Issues.H1Verdicts | src/analyzer.rs:199-211 | "Tag H1 ausente" iff no H1; "Múltiplas tags H1" iff more than one; no H1 issue iff exactly one |
| Issues.AltVerdicts | src/analyzer.rs:214-220 | an alt issue for count n iff the report's count is n > 0; it is a Warning whose message is the decimal n followed by " imagens sem texto alternativo" |
| Issues.NoInfoIssues | src/analyzer.rs:149-222 | no rule emits an Info issue |
| Issues.MessageInjective | src/analyzer.rs:155-219 | different issue kinds carry different messages, so distinct alt counts give distinct messages |
| Issues.RenderInjective | src/analyzer.rs:155-219 | different issue kinds give different issue records |
| Issues.CalculateScore | src/analyzer.rs:225-237 | the loop of saturating subtractions returns max(0, 100 - sum of penalties 20/10/5), which lies in 0..100 |
| Issues.ScoreOf | src/analyzer.rs:225-237 | the closed-form score never exceeds 100 |
| Issues.TotalPenaltyAtLeast | src/analyzer.rs:229-233 | every issue costs at least 5 points |
| Issues.PerfectScoreIffNoIssues | src/analyzer.rs:225-237 | the score is 100 iff there is no issue |
| Issues.ScoreNeverIncreases | src/analyzer.rs:228-234 | appending issues never raises the score, and strictly lowers a positive score |
| Issues.ReportScoreAtLeast30 | src/analyzer.rs:149-237 | the score of any report's generated issues is at least 30 |
| Issues.WorstReportScores30 | src/analyzer.rs:149-237 | no title, no description, no H1 and an image without alt give exactly those four issues and score 30 |
| Analyzer.AnalyzePage | src/analyzer.rs:24-50 | fails iff the page URL does not parse; otherwise every report field is its extractor's result, the issues are the rules' verdicts on the report, the score is their score, and 30 <= score <= 100 with at most four issues |
| Analyzer.IssuesDependOnRuleFields | src/analyzer.rs:149-223 | reports agreeing on title, description, H1 count and image count carry the same issues |
| Extract.ExtractTitle | src/analyzer.rs:53-59 | None iff no `title` element; otherwise the trimmed text of the first one |
| Extract.ExtractMetaDescription | src/analyzer.rs:61-68 | Some iff the first `meta name="description"` element has `content`, and then its untrimmed value |
| Extract.ExtractH1Tags | src/analyzer.rs:70-76 | one trimmed text per `h1` element, in document order; as many as the document has `h1` positions |
| Extract.ExtractH2Tags | src/analyzer.rs:78-84 | one trimmed text per `h2` element, in document order |
| Extract.ExtractStructuredData | src/analyzer.rs:141-147 | as many entries as the document has `script type="application/ld+json"` positions, each the raw text of the selected element |
| Extract.StructuredDataAppend | src/analyzer.rs:141-147 | the structured data of `a + b` is that of `a` followed by that of `b` (document order) |
| Extract.StructuredDataSingle | src/analyzer.rs:141-147 | one element contributes its untrimmed text iff it is a JSON-LD script; with the append lemma this fixes the result for every document |
| Html.SelectAppend | src/analyzer.rs:73 | selecting over `a + b` gives the selection of `a` followed by that of `b` |
| Html.SelectSingle | src/analyzer.rs:73 | one element is selected iff it matches; with the append lemma, the selection is the matching elements in document order |
| Extract.CountImagesWithoutAlt | src/analyzer.rs:111-117 | the number of `img` positions whose `alt` is absent or empty, truncated to u32 |
| Extract.BlankAltIsPresent | src/analyzer.rs:115 | an image whose `alt` is a single space is not counted |
| Extract.ImageWithoutAltCounted | src/analyzer.rs:115-116 | an image with no `alt` adds one to the count (below the u32 bound) |
| Keywords.KeptChars | src/analyzer.rs:87-90 | every kept character is alphanumeric or whitespace, never more than the input |
| Keywords.KeptCharsAppend | src/analyzer.rs:87-90 | filtering `a + b` is filtering `a` followed by filtering `b` |
| Keywords.KeptCharsSingle | src/analyzer.rs:87-90 | one character is kept iff it is alphanumeric or whitespace; with the append lemma, exactly those characters are kept, in order |
| Keywords.KeptCharsIdempotent | src/analyzer.rs:87-90 | filtering twice equals filtering once |
| Keywords.LongWords | src/analyzer.rs:92-95 | a word is kept iff it is a split word longer than 3 bytes, and every such word keeps all its occurrences (others have none) |
| Keywords.TokensAreLongWords | src/analyzer.rs:92-95 | every token is a non-empty run without whitespace of more than 3 bytes |
| Keywords.Tally | src/analyzer.rs:98-103 | the count map has a key iff the word occurs, mapped to its number of occurrences |
| Keywords.CountWords | src/analyzer.rs:98-103 | the `entry().or_insert(0) += 1` loop builds exactly that count map of the lowered tokens |
| Keywords.CalculateKeywordDensity | src/analyzer.rs:86-109 | the result is the density map of the page |
| Keywords.KeywordDensityMeaning | src/analyzer.rs:100-108 | the keys are exactly the lowered tokens, each mapped to its share of the tokens in percent |
| Keywords.TallySum | src/analyzer.rs:98-103 | the counts add up to the number of words counted |
| Keywords.CountsSumToTokens | src/analyzer.rs:97-103 | the counts behind the densities add up to the number of tokens |
| Keywords.DensitySum | src/analyzer.rs:105-108 | the percentages sum to the summed counts over the total, times 100 |
| Keywords.WordDensitiesSumTo100 | src/analyzer.rs:97-108 | for any non-empty word list, the percentages of its lowered words add up to exactly 100 |
| Keywords.DensitiesSumTo100 | src/analyzer.rs:97-108 | whenever at least one word is counted, the percentages add up to exactly 100 (over exact reals) |
| Keywords.NoTokensNoDensity | src/analyzer.rs:105-108 | no token gives an empty map |
| Links.CountLinks | src/analyzer.rs:119-139 | fails iff the base URL does not parse; otherwise the counters are the numbers of anchors classified internal and external |
| Links.LinkCountsMeaning | src/analyzer.rs:126-136 | internal + external = anchors whose href resolves; internal counts those on the base host, external the others |
| Links.OutcomesPartition | src/analyzer.rs:126-136 | every `a[href]` element is unresolved, internal or external, exactly one of them |
| Links.CountOutcomeIsCardinality | src/analyzer.rs:126-136 | the counter equals the number of anchor positions with that outcome |
| Links.NoResolvedLinks | src/analyzer.rs:127-128 | anchors that never resolve count neither internal nor external |
| RustStr.ByteLen | src/analyzer.rs:154 | the UTF-8 length lies between the number of characters and four times it |
| RustStr.AsciiByteLen | src/analyzer.rs:154 | on ASCII text the byte length is the character count |
| RustStr.NonAsciiByteLen | src/analyzer.rs:154 | one non-ASCII character makes the byte length exceed the character count |
| RustStr.Trim | src/analyzer.rs:58 | the result is the input without leading and trailing whitespace, and neither end is whitespace |
| RustStr.SplitWhitespace | src/analyzer.rs:93 | the words contain no whitespace and concatenate to the input without its whitespace |
| RustStr.SplitAtWhitespace | src/analyzer.rs:93 | a whitespace character splits: the words of `a + [c] + b` are the words of `a` followed by those of `b` |
| RustStr.SplitWord | src/analyzer.rs:93 | a whitespace-free text is one word, the empty text none; with the splitting lemma, the words are exactly the maximal non-whitespace runs |
| RustStr.DecimalRoundTrip | src/analyzer.rs:217 | reading back the printed count gives the count |
| RustStr.AsU32 | src/analyzer.rs:116 | the cast keeps values below 2^32 and is always below 2^32 |
| Sitemap.GenerateXml | src/sitemap.rs:20-45 | the buffer is the header, then one `url` block per record in input order, then `</urlset>` |
| Sitemap.PushUrl | src/sitemap.rs:25-40 | the pushes for one record append exactly its block: `url` line, `loc` line, the lines of the fields that are set, closing line |
| Sitemap.XmlStartsWithHeader | src/sitemap.rs:21-22 | the output starts with the XML declaration line and then the `urlset` line with the 0.9 namespace |
| Sitemap.XmlEndsWithFooter | src/sitemap.rs:43-44 | the output ends with `</urlset>` and no newline after it |
| Sitemap.EmptySitemap | src/sitemap.rs:21-44 | no record gives exactly the two header lines followed by `</urlset>` |
| Sitemap.BlocksAppend | src/sitemap.rs:24-41 | the blocks of two record lists concatenate |
| Sitemap.BlockInPlace | src/sitemap.rs:24-41 | record i's block sits between the blocks of the records before and after it |
| SitemapTags.DocumentCount | src/sitemap.rs:20-45 | when no value contains the start tag p, the output holds exactly the p tags the layout puts there |
| SitemapTags.TagCount | src/sitemap.rs:24-41 | one `<t>` per record having field t, when no value contains `<t>` |
| SitemapTags.LocCount | src/sitemap.rs:26 | exactly one `<loc>` per record, when no value contains `<loc>` |
| SitemapTags.UrlElementCount | src/sitemap.rs:25 | exactly one `<url>` per record, when no value contains `<url>` |
| SitemapTags.FieldLinePresence | src/sitemap.rs:28-38 | inside a block, the `lastmod`, `changefreq` and `priority` tags occur once if the field is set and not at all otherwise |
| SitemapTags.CountOccZeroIff | src/sitemap.rs:26 | the occurrence count is zero iff the text does not contain the tag |
| SitemapOrder.TagAtPos | src/sitemap.rs:25-38 | a field that is set has its start tag at its place in the layout |
| SitemapOrder.TagOnlyAtPos | src/sitemap.rs:25-38 | with no value containing the tag, that is the only place the tag occurs, and only if the field is set |
| SitemapOrder.FieldsInOrder | src/sitemap.rs:25-40 | inside a block the tags occur in the order `url`, `loc`, `lastmod`, `changefreq`, `priority` |
| Meta.ExtractAllMetaTags | src/meta.rs:7-28 | the insert loop returns the last-write-wins map of the `meta` elements, `name` before `property` |
| Meta.ApplyMetaEffect | src/meta.rs:14-24 | one element sets every key it carries to its content and leaves every other key as it was |
| Meta.MetaMapDomain | src/meta.rs:11-25 | a key is present iff some element with `content` has it as `name` or `property` |
| Meta.MetaTagsDomain | src/meta.rs:11-25 | on a document, the keys are exactly the names and properties of `meta` elements that have `content` |
| Meta.MetaMapLastWins | src/meta.rs:11-25 | a key's value is the content of the last element carrying it |
| Meta.MetaTagsLastWins | src/meta.rs:11-25 | on a document, a key's value is the content of the last `meta` element carrying it |
| Meta.NoContentNoEntry | src/meta.rs:14-24 | an element without `content` changes nothing |
| Meta.CheckOpenGraph | src/meta.rs:30-43 | the loop returns the required Open Graph keys present in the meta map, in the fixed order |
| Meta.PresentKeys | src/meta.rs:34-40 | a required key is reported iff the map holds it, never more keys than required |
| Meta.PresentKeysInOrder | src/meta.rs:34-40 | the reported keys are a subsequence of the required list |
| Meta.PresentKeysDistinct | src/meta.rs:34-40 | keys picked from a list without repetition are without repetition |
| Meta.OpenGraphMeaning | src/meta.rs:32-42 | the Open Graph result holds a required key iff the meta tags do, keeps the required order, has no duplicates and at most 4 entries |

## Left out

- HTTP and timing are not modelled: the `reqwest` fetch, `Instant` and `SeoAnalyzer::new` (src/analyzer.rs:11-22). The body, its parsed document and the measured load time are parameters of `Analyzer.AnalyzePage`.
- HTML parsing and CSS selector matching are not modelled. A document is a plain sequence of element records, and the selectors are the three shapes the analyzer uses.
- URL parsing and joining are not modelled. The URL library is the pair of parameters `parse` and `join`, and a parsed URL is reduced to its host.
- `char::is_alphanumeric` and `str::to_lowercase` are Unicode tables; they are the parameters `isAlnum` and `lower`. `char::is_whitespace` is modelled exactly.
- Floating point is not modelled:
  - the keyword percentage is computed over `real` rather than `f32`, so `Keywords.DensitiesSumTo100` gives exactly 100 where `f32` rounding gives only about 100;
  - the sitemap priority is printed by a caller-supplied `fmt` rather than by the one-decimal format;
  - `load_time` is a `real`.
- `fetch_sitemap` and the `Sitemap` struct are left out (src/sitemap.rs:12-15, 47-55): the function is network I/O and a stub that returns no records.
- The serde derives are left out, and so are the `keywords`, `performance` and `structured_data` modules listed in src/lib.rs:4-6. Those are not part of this model.
- Links.CountLinks: the `u32` counters are modelled as unbounded `nat`, so wrap-around after 2^32 links on one page is not captured.
- Keywords.CountWords: the per-word counters (`i32` in the source) are unbounded `nat`.
- Analyzer.AnalyzePage: `page_size` is the byte length as an unbounded `nat` (a `u64` in the source).
- Keywords.KeywordDensityMeaning: the `HashMap` iteration order is not observable in the result, so the model uses a `map`.
- SitemapTags.TagCount: the count holds only when no value contains the counted start tag, because values are inserted without escaping.
