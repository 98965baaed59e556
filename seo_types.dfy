/** The report, issue and severity records shared by the analyzer. */
module SeoTypes {
  import opened Wrappers

  datatype IssueSeverity = Critical | Warning | Info

  datatype SeoIssue = SeoIssue(severity: IssueSeverity, message: string, recommendation: string)

  /**
   * One analysis of one page. Counts that the source stores as `u32` or
   * `u64` are naturals here; the floating-point fields are reals.
   */
  datatype SeoReport = SeoReport(
    url: string,
    title: Option<string>,
    metaDescription: Option<string>,
    h1Tags: seq<string>,
    h2Tags: seq<string>,
    keywordDensity: map<string, real>,
    imagesWithoutAlt: nat,
    internalLinks: nat,
    externalLinks: nat,
    pageSize: Option<nat>,
    loadTime: Option<real>,
    structuredData: seq<string>,
    issues: seq<SeoIssue>,
    score: nat)
}
