/** The analysis result of the demo and the simulated classifier that
    produces it (src/components/Demo.tsx). The classifier runs no model and
    calls no service: it looks for three keywords in the lower-cased text. */
module Analysis {
  import opened Text

  /** `T | null`. */
  datatype Option<T> = None | Some(value: T)

  datatype Verdict = Real | Fake | Uncertain

  /** `interface AnalysisResult`. */
  datatype AnalysisResult = AnalysisResult(
    verdict: Verdict,
    confidence: int,
    explanation: string,
    redFlags: seq<string>)

  /** The words whose presence, in any letter case, makes a text suspicious. */
  const Keywords: seq<string> := ["breaking", "mandatory", "diamonds"]

  const SuspiciousFlags: seq<string> :=
    ["Sensationalist headline", "Unverified claims", "Emotional manipulation patterns"]

  const FakeExplanation: string :=
    "This content contains sensationalist language patterns and unverified claims commonly associated with misinformation."

  const RealExplanation: string :=
    "This content follows factual reporting patterns with verifiable claims and balanced language."

  /** The three sample headlines offered under the text box. Each is written
      as a concatenation of its words, which is the same string but lets the
      verifier look up a character at a position it does not know. */
  const SampleDiamonds: string :=
    "Scientists " + "discover " + "new " + "planet " + "made " + "entirely " + "of "
    + "diamonds " + "orbiting " + "nearby " + "star"

  const SampleHospital: string :=
    "Local " + "community " + "raises " + "funds " + "for " + "new " + "children's "
    + "hospital " + "wing"

  const SampleMicrochip: string :=
    "BREAKING: " + "Government " + "announces " + "mandatory " + "microchip " + "implants "
    + "for " + "all " + "citizens " + "by " + "2025"

  const SampleTexts: seq<string> := [SampleDiamonds, SampleHospital, SampleMicrochip]

  /** `isSuspicious`: the lower-cased text includes one of the keywords. */
  predicate IsSuspicious(text: string) {
    Contains(ToLower(text), "breaking")
    || Contains(ToLower(text), "mandatory")
    || Contains(ToLower(text), "diamonds")
  }

  /** The result the demo stores once the simulated analysis of `text` is over. */
  function Classify(text: string): (r: AnalysisResult)
    ensures r.verdict == Fake <==> IsSuspicious(text)
    ensures r.verdict != Uncertain
    ensures 0 <= r.confidence <= 100
    ensures |r.redFlags| > 0 <==> r.verdict == Fake
  {
    var suspicious := IsSuspicious(text);
    AnalysisResult(
      if suspicious then Fake else Real,
      if suspicious then 87 else 94,
      if suspicious then FakeExplanation else RealExplanation,
      if suspicious then SuspiciousFlags else [])
  }

  /** The verdict is `fake` exactly when one of the keywords occurs somewhere in
      the lower-cased text; the classifier never answers `uncertain`. */
  lemma ClassifyFakeIff(text: string)
    ensures Classify(text).verdict == Fake <==>
              exists k, i :: 0 <= k < |Keywords| && OccursAt(ToLower(text), Keywords[k], i)
    ensures Classify(text).verdict == Real <==>
              forall k, i :: 0 <= k < |Keywords| ==> !OccursAt(ToLower(text), Keywords[k], i)
  {
    var t := ToLower(text);
    ContainsIff(t, "breaking");
    ContainsIff(t, "mandatory");
    ContainsIff(t, "diamonds");
    if exists k, i :: 0 <= k < |Keywords| && OccursAt(t, Keywords[k], i) {
      var k, i :| 0 <= k < |Keywords| && OccursAt(t, Keywords[k], i);
      assert k == 0 || k == 1 || k == 2;
    }
    if IsSuspicious(text) {
      if Contains(t, "breaking") {
        var i :| OccursAt(t, "breaking", i);
        assert OccursAt(t, Keywords[0], i);
      } else if Contains(t, "mandatory") {
        var i :| OccursAt(t, "mandatory", i);
        assert OccursAt(t, Keywords[1], i);
      } else {
        var i :| OccursAt(t, "diamonds", i);
        assert OccursAt(t, Keywords[2], i);
      }
    }
  }

  /** A fake verdict always comes with confidence 87, the sensationalism
      explanation and the three red flags in their fixed order; a real one with
      confidence 94, the factual-reporting explanation and no flag. */
  lemma ClassifyFixedResults(text: string)
    ensures Classify(text).verdict == Fake ==>
              Classify(text) == AnalysisResult(Fake, 87, FakeExplanation, SuspiciousFlags)
    ensures Classify(text).verdict == Real ==>
              Classify(text) == AnalysisResult(Real, 94, RealExplanation, [])
  {
  }

  /** Letter case does not matter: a text and its lower-cased form get the same
      result. */
  lemma ClassifyIgnoresCase(text: string)
    ensures Classify(ToLower(text)) == Classify(text)
  {
    ToLowerIdempotent(text);
  }

  /** Putting more text before or after a suspicious text never clears the
      suspicion. */
  lemma SuspicionSurvivesContext(text: string, before: string, after: string)
    requires Classify(text).verdict == Fake
    ensures Classify(before + text + after).verdict == Fake
  {
    ToLowerConcat(before, text);
    ToLowerConcat(before + text, after);
    var t := ToLower(text);
    assert ToLower(before + text + after) == ToLower(before) + t + ToLower(after);
    if Contains(t, "breaking") {
      ContainsExtend(t, "breaking", ToLower(before), ToLower(after));
    } else if Contains(t, "mandatory") {
      ContainsExtend(t, "mandatory", ToLower(before), ToLower(after));
    } else {
      ContainsExtend(t, "diamonds", ToLower(before), ToLower(after));
    }
  }

  /** The first sample headline mentions diamonds: it is judged misinformation. */
  lemma SampleOneIsFake()
    ensures Classify(SampleTexts[0]).verdict == Fake
  {
    var t := ToLower(SampleDiamonds);
    assert t[48..56] == "diamonds";
    assert OccursAt(t, "diamonds", 48);
    ContainsIff(t, "diamonds");
  }

  /** The second sample headline has no `b` in either letter case. */
  lemma HospitalHasNoB(i: int)
    requires 0 <= i < |SampleHospital|
    ensures SampleHospital[i] != 'b' && SampleHospital[i] != 'B'
  {
  }

  /** An `m` of the second sample headline, in either letter case, stands only
      in "community". */
  lemma HospitalLetterM(i: int)
    requires 0 <= i < |SampleHospital|
    ensures SampleHospital[i] == 'm' || SampleHospital[i] == 'M' ==> i == 8 || i == 9
  {
  }

  /** A `d` of the second sample headline, in either letter case, stands only
      in "funds" and in "children's". */
  lemma HospitalLetterD(i: int)
    requires 0 <= i < |SampleHospital|
    ensures SampleHospital[i] == 'd' || SampleHospital[i] == 'D' ==> i == 26 || i == 41
  {
  }

  lemma HospitalLacksBreaking()
    ensures !Contains(ToLower(SampleHospital), "breaking")
  {
    var s := SampleHospital;
    var t := ToLower(s);
    forall i | 0 <= i < |t| - 1 ensures t[i] != 'b' {
      HospitalHasNoB(i);
      LowerCharIs(s[i], 'b');
    }
    NotContainsByPrefix(t, "breaking");
  }

  lemma HospitalLacksMandatory()
    ensures !Contains(ToLower(SampleHospital), "mandatory")
  {
    var s := SampleHospital;
    var t := ToLower(s);
    forall i | 0 <= i < |t| - 1 ensures !(t[i] == 'm' && t[i + 1] == 'a') {
      HospitalLetterM(i);
      LowerCharIs(s[i], 'm');
    }
    NotContainsByPrefix(t, "mandatory");
  }

  lemma HospitalLacksDiamonds()
    ensures !Contains(ToLower(SampleHospital), "diamonds")
  {
    var s := SampleHospital;
    var t := ToLower(s);
    forall i | 0 <= i < |t| - 1 ensures !(t[i] == 'd' && t[i + 1] == 'i') {
      HospitalLetterD(i);
      LowerCharIs(s[i], 'd');
    }
    NotContainsByPrefix(t, "diamonds");
  }

  /** The second sample headline has none of the keywords: it is judged authentic. */
  lemma SampleTwoIsReal()
    ensures Classify(SampleTexts[1]).verdict == Real
  {
    HospitalLacksBreaking();
    HospitalLacksMandatory();
    HospitalLacksDiamonds();
  }

  /** The third sample headline opens with "BREAKING": it is judged misinformation. */
  lemma SampleThreeIsFake()
    ensures Classify(SampleTexts[2]).verdict == Fake
  {
    var t := ToLower(SampleMicrochip);
    assert t[..8] == "breaking";
    assert OccursAt(t, "breaking", 0);
    ContainsIff(t, "breaking");
  }
}
