/**
 * The issue rules and the scorer of the page analyzer: a fixed, ordered
 * table of four rules over a report draft, and a saturating penalty fold.
 *
 * The rules decide on an `IssueKind`; `Render` turns a kind into the exact
 * `SeoIssue` record the analyzer emits (severity, Portuguese message and
 * recommendation). Rendering is injective, so statements about kinds carry
 * over to the emitted records.
 */
module Issues {
  import opened Wrappers
  import opened RustStr
  import opened SeoTypes

  datatype IssueKind =
    | TitleMissing | TitleTooShort | TitleTooLong
    | MetaMissing | MetaTooShort | MetaTooLong
    | H1Missing | H1Multiple
    | ImagesWithoutAlt(count: nat)

  function Severity(k: IssueKind): IssueSeverity {
    match k
    case TitleMissing | MetaMissing | H1Missing => Critical
    case _ => Warning
  }

  const AltSuffix := " imagens sem texto alternativo"

  function Message(k: IssueKind): string {
    match k
    case TitleMissing => "Título ausente"
    case TitleTooShort => "Título muito curto"
    case TitleTooLong => "Título muito longo"
    case MetaMissing => "Meta description ausente"
    case MetaTooShort => "Meta description muito curta"
    case MetaTooLong => "Meta description muito longa"
    case H1Missing => "Tag H1 ausente"
    case H1Multiple => "Múltiplas tags H1"
    case ImagesWithoutAlt(n) => Decimal(n) + AltSuffix
  }

  function Recommendation(k: IssueKind): string {
    match k
    case TitleMissing => "Adicione um título à página usando a tag <title>"
    case TitleTooShort => "O título deve ter pelo menos 30 caracteres"
    case TitleTooLong => "O título deve ter no máximo 60 caracteres"
    case MetaMissing => "Adicione uma meta description à página"
    case MetaTooShort => "A meta description deve ter pelo menos 120 caracteres"
    case MetaTooLong => "A meta description deve ter no máximo 160 caracteres"
    case H1Missing => "Adicione pelo menos uma tag H1 à página"
    case H1Multiple => "Use apenas uma tag H1 por página"
    case ImagesWithoutAlt(_) => "Adicione texto alternativo a todas as imagens"
  }

  /** The record the analyzer pushes for an issue of kind `k`. */
  function Render(k: IssueKind): SeoIssue {
    SeoIssue(Severity(k), Message(k), Recommendation(k))
  }

  /** Different kinds carry different messages (the count is part of the alt message). */
  lemma MessageInjective(a: IssueKind, b: IssueKind)
    requires a != b
    ensures Message(a) != Message(b)
  {
    if a.ImagesWithoutAlt? && b.ImagesWithoutAlt? {
      var da, db := Decimal(a.count), Decimal(b.count);
      DecimalInjective(a.count, b.count);
      if |da| == |db| {
        var i :| 0 <= i < |da| && da[i] != db[i];
        assert Message(a)[i] == da[i] && Message(b)[i] == db[i];
      }
    } else if a.ImagesWithoutAlt? {
      assert IsDigit(Message(a)[0]) && !IsDigit(Message(b)[0]);
    } else if b.ImagesWithoutAlt? {
      assert !IsDigit(Message(a)[0]) && IsDigit(Message(b)[0]);
    } else {
      assert |Message(a)| != |Message(b)| || Message(a)[1] != Message(b)[1]
        || Message(a)[|Message(a)| - 5] != Message(b)[|Message(b)| - 5];
    }
  }

  lemma RenderInjective(a: IssueKind, b: IssueKind)
    requires a != b
    ensures Render(a) != Render(b)
  {
    MessageInjective(a, b);
  }

  const TitleMinBytes: nat := 30
  const TitleMaxBytes: nat := 60
  const DescriptionMinBytes: nat := 120
  const DescriptionMaxBytes: nat := 160

  /** A length rule: missing, shorter than `min` bytes, longer than `max` bytes, or fine. */
  function LengthRule(value: Option<string>, min: nat, max: nat,
                      missing: IssueKind, short: IssueKind, long: IssueKind): seq<IssueKind>
  {
    match value
    case None => [missing]
    case Some(v) =>
      if ByteLen(v) < min then [short]
      else if ByteLen(v) > max then [long]
      else []
  }

  function TitleRule(title: Option<string>): seq<IssueKind> {
    LengthRule(title, TitleMinBytes, TitleMaxBytes, TitleMissing, TitleTooShort, TitleTooLong)
  }

  function DescriptionRule(desc: Option<string>): seq<IssueKind> {
    LengthRule(desc, DescriptionMinBytes, DescriptionMaxBytes, MetaMissing, MetaTooShort, MetaTooLong)
  }

  function H1Rule(count: nat): seq<IssueKind> {
    if count == 0 then [H1Missing] else if count > 1 then [H1Multiple] else []
  }

  function AltRule(n: nat): seq<IssueKind> {
    if n > 0 then [ImagesWithoutAlt(n)] else []
  }

  /** The rule table: title, meta description, H1, alternative text, in that order. */
  function ReportKinds(report: SeoReport): seq<IssueKind> {
    TitleRule(report.title) + DescriptionRule(report.metaDescription)
    + H1Rule(|report.h1Tags|) + AltRule(report.imagesWithoutAlt)
  }

  function RenderAll(ks: seq<IssueKind>): (r: seq<SeoIssue>)
    ensures |r| == |ks|
    ensures forall i :: 0 <= i < |ks| ==> r[i] == Render(ks[i])
    decreases |ks|
  {
    if ks == [] then [] else RenderAll(ks[..|ks| - 1]) + [Render(ks[|ks| - 1])]
  }

  /** What `generate_issues` returns for a report draft. */
  function ReportIssues(report: SeoReport): seq<SeoIssue> {
    RenderAll(ReportKinds(report))
  }

  lemma {:induction false} RenderAllAppend(a: seq<IssueKind>, b: seq<IssueKind>)
    ensures RenderAll(a + b) == RenderAll(a) + RenderAll(b)
  {
    assert |RenderAll(a + b)| == |RenderAll(a) + RenderAll(b)|;
  }

  /** The title block of `generate_issues`: at most one push onto `issues`. */
  method PushTitleIssue(issues: seq<SeoIssue>, title: Option<string>) returns (out: seq<SeoIssue>)
    ensures out == issues + RenderAll(TitleRule(title))
  {
    out := issues;
    match title {
      case Some(t) =>
        if ByteLen(t) < TitleMinBytes {
          out := out + [Render(TitleTooShort)];
        } else if ByteLen(t) > TitleMaxBytes {
          out := out + [Render(TitleTooLong)];
        }
      case None =>
        out := out + [Render(TitleMissing)];
    }
  }

  /** The meta-description block of `generate_issues`. */
  method PushDescriptionIssue(issues: seq<SeoIssue>, desc: Option<string>) returns (out: seq<SeoIssue>)
    ensures out == issues + RenderAll(DescriptionRule(desc))
  {
    out := issues;
    match desc {
      case Some(d) =>
        if ByteLen(d) < DescriptionMinBytes {
          out := out + [Render(MetaTooShort)];
        } else if ByteLen(d) > DescriptionMaxBytes {
          out := out + [Render(MetaTooLong)];
        }
      case None =>
        out := out + [Render(MetaMissing)];
    }
  }

  /** The H1 block of `generate_issues`, on the number of H1 texts. */
  method PushH1Issue(issues: seq<SeoIssue>, count: nat) returns (out: seq<SeoIssue>)
    ensures out == issues + RenderAll(H1Rule(count))
  {
    out := issues;
    if count == 0 {
      out := out + [Render(H1Missing)];
    } else if count > 1 {
      out := out + [Render(H1Multiple)];
    }
  }

  /** The alternative-text block of `generate_issues`. */
  method PushAltIssue(issues: seq<SeoIssue>, n: nat) returns (out: seq<SeoIssue>)
    ensures out == issues + RenderAll(AltRule(n))
  {
    out := issues;
    if n > 0 {
      out := out + [Render(ImagesWithoutAlt(n))];
    }
  }

  /** `generate_issues`: the four rule blocks in turn, each pushing at most one issue. */
  method GenerateIssues(report: SeoReport) returns (issues: seq<SeoIssue>)
    ensures issues == ReportIssues(report)
    ensures |issues| <= 4
  {
    var t, d := TitleRule(report.title), DescriptionRule(report.metaDescription);
    var h, a := H1Rule(|report.h1Tags|), AltRule(report.imagesWithoutAlt);
    issues := PushTitleIssue([], report.title);
    assert issues == RenderAll(t);
    RenderAllAppend(t, d);
    issues := PushDescriptionIssue(issues, report.metaDescription);
    assert issues == RenderAll(t + d);
    RenderAllAppend(t + d, h);
    issues := PushH1Issue(issues, |report.h1Tags|);
    assert issues == RenderAll(t + d + h);
    RenderAllAppend(t + d + h, a);
    issues := PushAltIssue(issues, report.imagesWithoutAlt);
    assert issues == RenderAll(t + d + h + a);
    IssuesFollowRuleOrder(report);
  }

  // ---------------------------------------------------------------------
  // Properties of the rule table.

  /** The rule block a kind belongs to: 0 title, 1 meta description, 2 H1, 3 alt. */
  function RuleOf(k: IssueKind): nat {
    match k
    case TitleMissing | TitleTooShort | TitleTooLong => 0
    case MetaMissing | MetaTooShort | MetaTooLong => 1
    case H1Missing | H1Multiple => 2
    case ImagesWithoutAlt(_) => 3
  }

  /**
   * At most one issue per rule block, and the blocks appear in the fixed
   * order title, meta description, H1, alternative text; so at most four.
   */
  lemma IssuesFollowRuleOrder(report: SeoReport)
    ensures |ReportIssues(report)| == |ReportKinds(report)| <= 4
    ensures var ks := ReportKinds(report);
      forall i, j :: 0 <= i < j < |ks| ==> RuleOf(ks[i]) < RuleOf(ks[j])
  {
    var t := TitleRule(report.title);
    var d := DescriptionRule(report.metaDescription);
    var h := H1Rule(|report.h1Tags|);
    var a := AltRule(report.imagesWithoutAlt);
    var ks := t + d + h + a;
    assert forall k :: 0 <= k < |ks| ==>
      RuleOf(ks[k]) == (if k < |t| then 0 else if k < |t| + |d| then 1 else if k < |t| + |d| + |h| then 2 else 3);
  }

  /** An issue record is emitted exactly when its kind is decided. */
  lemma RenderedIn(ks: seq<IssueKind>, k: IssueKind)
    ensures Render(k) in RenderAll(ks) <==> k in ks
  {
    if Render(k) in RenderAll(ks) {
      var i :| 0 <= i < |ks| && RenderAll(ks)[i] == Render(k);
      assert ks[i] == k by {
        if ks[i] != k { RenderInjective(ks[i], k); }
      }
    }
    if k in ks {
      var i :| 0 <= i < |ks| && ks[i] == k;
      assert RenderAll(ks)[i] == Render(k);
    }
  }

  /** Each rule block only decides kinds of its own block. */
  lemma RuleBlocks(report: SeoReport)
    ensures forall k :: k in TitleRule(report.title) ==> RuleOf(k) == 0
    ensures forall k :: k in DescriptionRule(report.metaDescription) ==> RuleOf(k) == 1
    ensures forall k :: k in H1Rule(|report.h1Tags|) ==> RuleOf(k) == 2
    ensures forall k :: k in AltRule(report.imagesWithoutAlt) ==> RuleOf(k) == 3
  {
  }

  /** A kind is in the report exactly when its own rule block decides it. */
  lemma KindInReport(report: SeoReport, k: IssueKind)
    ensures k in ReportKinds(report) <==>
      match RuleOf(k)
      case 0 => k in TitleRule(report.title)
      case 1 => k in DescriptionRule(report.metaDescription)
      case 2 => k in H1Rule(|report.h1Tags|)
      case _ => k in AltRule(report.imagesWithoutAlt)
  {
    RuleBlocks(report);
  }

  /** The title rule: which title issue, if any, the report carries. */
  lemma TitleVerdicts(report: SeoReport)
    ensures Render(TitleMissing) in ReportIssues(report) <==> report.title.None?
    ensures Render(TitleTooShort) in ReportIssues(report)
      <==> report.title.Some? && ByteLen(report.title.value) < TitleMinBytes
    ensures Render(TitleTooLong) in ReportIssues(report)
      <==> report.title.Some? && ByteLen(report.title.value) > TitleMaxBytes
    ensures (forall k :: RuleOf(k) == 0 ==> Render(k) !in ReportIssues(report))
      <==> report.title.Some? && TitleMinBytes <= ByteLen(report.title.value) <= TitleMaxBytes
  {
    var ks := ReportKinds(report);
    forall k | RuleOf(k) == 0
      ensures Render(k) in ReportIssues(report) <==> k in TitleRule(report.title)
    {
      RenderedIn(ks, k);
      KindInReport(report, k);
    }
  }

  /** The meta-description rule: the same shape with bounds 120 and 160. */
  lemma DescriptionVerdicts(report: SeoReport)
    ensures Render(MetaMissing) in ReportIssues(report) <==> report.metaDescription.None?
    ensures Render(MetaTooShort) in ReportIssues(report)
      <==> report.metaDescription.Some? && ByteLen(report.metaDescription.value) < DescriptionMinBytes
    ensures Render(MetaTooLong) in ReportIssues(report)
      <==> report.metaDescription.Some? && ByteLen(report.metaDescription.value) > DescriptionMaxBytes
    ensures (forall k :: RuleOf(k) == 1 ==> Render(k) !in ReportIssues(report))
      <==> (report.metaDescription.Some?
        && DescriptionMinBytes <= ByteLen(report.metaDescription.value) <= DescriptionMaxBytes)
  {
    var ks := ReportKinds(report);
    forall k | RuleOf(k) == 1
      ensures Render(k) in ReportIssues(report) <==> k in DescriptionRule(report.metaDescription)
    {
      RenderedIn(ks, k);
      KindInReport(report, k);
    }
  }

  /** The H1 rule: missing iff no H1, multiple iff more than one, silent on exactly one. */
  lemma H1Verdicts(report: SeoReport)
    ensures Render(H1Missing) in ReportIssues(report) <==> |report.h1Tags| == 0
    ensures Render(H1Multiple) in ReportIssues(report) <==> |report.h1Tags| > 1
    ensures (forall k :: RuleOf(k) == 2 ==> Render(k) !in ReportIssues(report))
      <==> |report.h1Tags| == 1
  {
    var ks := ReportKinds(report);
    forall k | RuleOf(k) == 2
      ensures Render(k) in ReportIssues(report) <==> k in H1Rule(|report.h1Tags|)
    {
      RenderedIn(ks, k);
      KindInReport(report, k);
    }
  }

  /**
   * The alternative-text rule: an issue iff some image lacks `alt`; it is a
   * Warning whose message is the decimal count followed by a fixed suffix.
   */
  lemma AltVerdicts(report: SeoReport, n: nat)
    ensures Render(ImagesWithoutAlt(n)) in ReportIssues(report)
      <==> n == report.imagesWithoutAlt && n > 0
    ensures Render(ImagesWithoutAlt(n)).severity == Warning
    ensures Render(ImagesWithoutAlt(n)).message == Decimal(n) + " imagens sem texto alternativo"
  {
    RenderedIn(ReportKinds(report), ImagesWithoutAlt(n));
    KindInReport(report, ImagesWithoutAlt(n));
  }

  /** The analyzer never emits an `Info` issue. */
  lemma NoInfoIssues(report: SeoReport)
    ensures forall i :: 0 <= i < |ReportIssues(report)| ==> ReportIssues(report)[i].severity != Info
  {
  }

  // ---------------------------------------------------------------------
  // The scorer.

  function Penalty(severity: IssueSeverity): nat {
    match severity
    case Critical => 20
    case Warning => 10
    case Info => 5
  }

  /** The sum of the penalties of the issues. */
  function TotalPenalty(issues: seq<SeoIssue>): nat
    decreases |issues|
  {
    if issues == [] then 0
    else TotalPenalty(issues[..|issues| - 1]) + Penalty(issues[|issues| - 1].severity)
  }

  /** `u32::saturating_sub`. */
  function SaturatingSub(a: nat, b: nat): nat {
    if a >= b then a - b else 0
  }

  /** The score as a closed form: max(0, 100 - sum of penalties). */
  function ScoreOf(issues: seq<SeoIssue>): (score: nat)
    ensures score <= 100
  {
    SaturatingSub(100, TotalPenalty(issues))
  }

  /**
   * `calculate_score`: starting from 100, one saturating subtraction per
   * issue, in order; the result is the closed form.
   */
  method CalculateScore(report: SeoReport) returns (score: nat)
    ensures score == ScoreOf(report.issues)
    ensures score <= 100
  {
    var issues := report.issues;
    score := 100;
    var i := 0;
    while i < |issues|
      invariant 0 <= i <= |issues|
      invariant score == SaturatingSub(100, TotalPenalty(issues[..i]))
    {
      assert issues[..i + 1][..i] == issues[..i];
      match issues[i].severity {
        case Critical => score := SaturatingSub(score, 20);
        case Warning => score := SaturatingSub(score, 10);
        case Info => score := SaturatingSub(score, 5);
      }
      i := i + 1;
    }
    assert issues[..i] == issues;
  }

  lemma {:induction false} TotalPenaltyAppend(a: seq<SeoIssue>, b: seq<SeoIssue>)
    ensures TotalPenalty(a + b) == TotalPenalty(a) + TotalPenalty(b)
    decreases |b|
  {
    if b == [] {
      assert a + b == a;
    } else {
      assert (a + b)[..|a + b| - 1] == a + b[..|b| - 1];
      TotalPenaltyAppend(a, b[..|b| - 1]);
    }
  }

  /** Every issue costs at least 5 points, so the penalty is at least 5 per issue. */
  lemma {:induction false} TotalPenaltyAtLeast(issues: seq<SeoIssue>)
    ensures TotalPenalty(issues) >= 5 * |issues|
    decreases |issues|
  {
    if issues != [] {
      TotalPenaltyAtLeast(issues[..|issues| - 1]);
    }
  }

  /** A page scores 100 exactly when it has no issue. */
  lemma PerfectScoreIffNoIssues(issues: seq<SeoIssue>)
    ensures ScoreOf(issues) == 100 <==> issues == []
  {
    TotalPenaltyAtLeast(issues);
  }

  /** Appending issues never raises the score; a positive score strictly drops. */
  lemma ScoreNeverIncreases(issues: seq<SeoIssue>, more: seq<SeoIssue>)
    ensures ScoreOf(issues + more) <= ScoreOf(issues)
    ensures more != [] && ScoreOf(issues) > 0 ==> ScoreOf(issues + more) < ScoreOf(issues)
  {
    TotalPenaltyAppend(issues, more);
    TotalPenaltyAtLeast(more);
  }

  /** The penalty of a single issue of kind `k`. */
  lemma SinglePenalty(k: IssueKind)
    ensures TotalPenalty(RenderAll([k])) == Penalty(Severity(k))
  {
    assert RenderAll([k])[..0] == [];
  }

  /** The penalty of the issues of a list of kinds, one block after another. */
  lemma BlocksPenalty(t: seq<IssueKind>, d: seq<IssueKind>, h: seq<IssueKind>, a: seq<IssueKind>)
    ensures TotalPenalty(RenderAll(t + d + h + a))
      == TotalPenalty(RenderAll(t)) + TotalPenalty(RenderAll(d))
       + TotalPenalty(RenderAll(h)) + TotalPenalty(RenderAll(a))
  {
    RenderAllAppend(t + d + h, a);
    RenderAllAppend(t + d, h);
    RenderAllAppend(t, d);
    TotalPenaltyAppend(RenderAll(t) + RenderAll(d) + RenderAll(h), RenderAll(a));
    TotalPenaltyAppend(RenderAll(t) + RenderAll(d), RenderAll(h));
    TotalPenaltyAppend(RenderAll(t), RenderAll(d));
  }

  /** A block of at most one kind costs what that one kind costs, if any. */
  lemma BlockPenalty(ks: seq<IssueKind>, bound: nat)
    requires |ks| <= 1
    requires ks != [] ==> Penalty(Severity(ks[0])) <= bound
    ensures TotalPenalty(RenderAll(ks)) <= bound
  {
    if ks != [] {
      assert ks == [ks[0]];
      SinglePenalty(ks[0]);
    }
  }

  lemma TitleRulePenalty(title: Option<string>)
    ensures TotalPenalty(RenderAll(TitleRule(title))) <= 20
  {
    BlockPenalty(TitleRule(title), 20);
  }

  lemma DescriptionRulePenalty(desc: Option<string>)
    ensures TotalPenalty(RenderAll(DescriptionRule(desc))) <= 20
  {
    BlockPenalty(DescriptionRule(desc), 20);
  }

  lemma H1RulePenalty(count: nat)
    ensures TotalPenalty(RenderAll(H1Rule(count))) <= 20
  {
    BlockPenalty(H1Rule(count), 20);
  }

  lemma AltRulePenalty(n: nat)
    ensures TotalPenalty(RenderAll(AltRule(n))) <= 10
  {
    BlockPenalty(AltRule(n), 10);
  }

  /**
   * The report's own issues never cost more than 70 points: at worst three
   * Critical issues and one Warning, so the score of a report is at least 30.
   */
  lemma ReportScoreAtLeast30(report: SeoReport)
    ensures ScoreOf(ReportIssues(report)) >= 30
  {
    TitleRulePenalty(report.title);
    DescriptionRulePenalty(report.metaDescription);
    H1RulePenalty(|report.h1Tags|);
    AltRulePenalty(report.imagesWithoutAlt);
    BlocksPenalty(TitleRule(report.title), DescriptionRule(report.metaDescription),
      H1Rule(|report.h1Tags|), AltRule(report.imagesWithoutAlt));
  }

  /** The bound is reached: no title, no description, no H1 and an image without `alt`. */
  lemma WorstReportScores30(report: SeoReport)
    requires report.title.None? && report.metaDescription.None?
    requires report.h1Tags == [] && report.imagesWithoutAlt > 0
    ensures ReportKinds(report) == [TitleMissing, MetaMissing, H1Missing, ImagesWithoutAlt(report.imagesWithoutAlt)]
    ensures ScoreOf(ReportIssues(report)) == 30
  {
    SinglePenalty(TitleMissing);
    SinglePenalty(MetaMissing);
    SinglePenalty(H1Missing);
    SinglePenalty(ImagesWithoutAlt(report.imagesWithoutAlt));
    BlocksPenalty([TitleMissing], [MetaMissing], [H1Missing], [ImagesWithoutAlt(report.imagesWithoutAlt)]);
  }
}
