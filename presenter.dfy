/** What the demo shows for a result: `getVerdictStyles` and the conditions
    the result panel is rendered under (src/components/Demo.tsx). Colours are
    reduced to the theme tone their CSS classes name. */
module Presenter {
  import opened Analysis

  /** The theme tone behind the `text-…`, `bg-…` and `border-…` classes. */
  datatype Tone = Success | Destructive | Warning

  datatype Icon = CheckCircle2 | XCircle | AlertTriangle

  /** The object `getVerdictStyles` returns: `{}` when there is no result. */
  datatype VerdictStyle = NoStyle | Style(icon: Icon, tone: Tone, labelText: string)

  /** The confidence bar: its width in percent and its colour. */
  datatype Bar = Bar(widthPercent: int, tone: Tone)

  const AuthenticLabel: string := "Likely Authentic"
  const MisinformationLabel: string := "Likely Misinformation"
  const UncertainLabel: string := "Uncertain"

  /** `getVerdictStyles()`: the verdict picks label, tone and icon; a verdict
      that is neither real nor fake falls to the uncertain style. */
  function GetVerdictStyles(result: Option<AnalysisResult>): (style: VerdictStyle)
    ensures style.NoStyle? <==> result.None?
  {
    match result
    case None => NoStyle
    case Some(r) =>
      match r.verdict
      case Real => Style(CheckCircle2, Success, AuthenticLabel)
      case Fake => Style(XCircle, Destructive, MisinformationLabel)
      case _ => Style(AlertTriangle, Warning, UncertainLabel)
  }

  /** Reads the verdict back from a label; `None` for a text that is no label. */
  function VerdictOfLabel(text: string): (v: Option<Verdict>)
  {
    if text == AuthenticLabel then Some(Real)
    else if text == MisinformationLabel then Some(Fake)
    else if text == UncertainLabel then Some(Uncertain)
    else None
  }

  /** Each verdict has its own icon, tone and label; the style depends on the
      verdict alone, and its label names that verdict: different verdicts are
      never shown under the same label. */
  lemma LabelNamesVerdict(r: AnalysisResult, other: AnalysisResult)
    ensures GetVerdictStyles(Some(r)).Style?
    ensures r.verdict == Real ==>
              GetVerdictStyles(Some(r)) == Style(CheckCircle2, Success, AuthenticLabel)
    ensures r.verdict == Fake ==>
              GetVerdictStyles(Some(r)) == Style(XCircle, Destructive, MisinformationLabel)
    ensures r.verdict == Uncertain ==>
              GetVerdictStyles(Some(r)) == Style(AlertTriangle, Warning, UncertainLabel)
    ensures VerdictOfLabel(GetVerdictStyles(Some(r)).labelText) == Some(r.verdict)
    ensures GetVerdictStyles(Some(r)) == GetVerdictStyles(Some(other)) <==> r.verdict == other.verdict
  {
    if GetVerdictStyles(Some(r)) == GetVerdictStyles(Some(other)) {
      assert VerdictOfLabel(GetVerdictStyles(Some(other)).labelText) == Some(other.verdict);
    }
  }

  /** The result panel (line 159) is there exactly when a result is stored. */
  predicate ShowResultPanel(result: Option<AnalysisResult>) {
    result.Some?
  }

  /** The confidence bar: as wide as the confidence, green for a real verdict
      and red for anything else. */
  function ConfidenceBar(r: AnalysisResult): (bar: Bar)
    ensures bar.widthPercent == r.confidence
    ensures bar.tone == Success <==> r.verdict == Real
    ensures r.verdict != Real ==> bar.tone == Destructive
  {
    Bar(r.confidence, if r.verdict == Real then Success else Destructive)
  }

  /** The red-flag block (line 202) is there exactly when the list is not empty. */
  predicate ShowRedFlags(r: AnalysisResult) {
    |r.redFlags| > 0
  }

  /** The bar takes the colour of the verdict header for a real or a fake
      verdict; for an uncertain one the header is in the warning tone while
      the bar is red. */
  lemma BarMatchesHeaderIff(r: AnalysisResult)
    ensures ConfidenceBar(r).tone == GetVerdictStyles(Some(r)).tone <==> r.verdict != Uncertain
    ensures r.verdict == Uncertain ==>
              GetVerdictStyles(Some(r)).tone == Warning && ConfidenceBar(r).tone == Destructive
  {
  }

  /** For every text, what the result panel shows once the analysis is over:
      a bar no wider than the track, the authentic label and no
      red-flag block for a text without keywords, and the misinformation label
      with the three red flags, in order, for a text with one; the bar always
      has the colour of the verdict header. */
  lemma PresentClassified(text: string)
    ensures var r := Classify(text);
      0 <= ConfidenceBar(r).widthPercent <= 100
      && (GetVerdictStyles(Some(r)).labelText == AuthenticLabel <==> !IsSuspicious(text))
      && (GetVerdictStyles(Some(r)).labelText == MisinformationLabel <==> IsSuspicious(text))
      && (ShowRedFlags(r) <==> IsSuspicious(text))
      && (ShowRedFlags(r) ==> r.redFlags == SuspiciousFlags)
      && ConfidenceBar(r).tone == GetVerdictStyles(Some(r)).tone
  {
  }
}
