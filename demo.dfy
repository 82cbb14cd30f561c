/** The `Demo` component's state and its event handlers
    (src/components/Demo.tsx). The three `useState` cells become the fields of
    a class. `handleAnalyze` suspends once, at the `await` of the simulated
    delay; it is split there into `BeginAnalyze`, which runs up to the `await`
    and hands back the text its closure captured, and `Settle`, which runs
    after it on that captured text. */
module DemoComponent {
  import opened Text
  import opened Analysis
  import opened Presenter

  /** `!inputText.trim() || isAnalyzing` negated: the analyze button can be
      pressed exactly when the text has a character that is not whitespace and
      no analysis is running. */
  function AnalyzeEnabled(inputText: string, isAnalyzing: bool): (enabled: bool)
    ensures enabled <==>
              (exists i :: 0 <= i < |inputText| && !IsWhitespace(inputText[i])) && !isAnalyzing
  {
    TrimEmptyIff(inputText);
    Trim(inputText) != [] && !isAnalyzing
  }

  /** The caption of the analyze button. */
  function ButtonCaption(isAnalyzing: bool): (caption: string)
    ensures caption == "Analyzing..." <==> isAnalyzing
    ensures !isAnalyzing ==> caption == "Check Credibility"
  {
    if isAnalyzing then "Analyzing..." else "Check Credibility"
  }

  /** A stored result is one the simulated classifier produced. */
  ghost predicate IsClassifierOutput(r: AnalysisResult) {
    exists text :: Classify(text) == r
  }

  class Demo {
    var inputText: string
    var isAnalyzing: bool
    var result: Option<AnalysisResult>

    /** What holds between events: while an analysis runs no result is shown,
        and a shown result came from the classifier. */
    ghost predicate Valid()
      reads this
    {
      (isAnalyzing ==> result.None?)
      && (result.Some? ==> IsClassifierOutput(result.value))
    }

    /** The initial `useState` values. */
    constructor ()
      ensures Valid()
      ensures inputText == "" && !isAnalyzing && result == None
    {
      inputText := "";
      isAnalyzing := false;
      result := None;
    }

    /** `setInputText`: the text area's change handler. */
    method SetInputText(text: string)
      requires Valid()
      modifies this`inputText
      ensures Valid()
      ensures inputText == text
      ensures isAnalyzing == old(isAnalyzing) && result == old(result)
    {
      inputText := text;
    }

    /** A click on one of the sample buttons puts that sample in the text area. */
    method ChooseSample(index: nat)
      requires Valid()
      requires index < |SampleTexts|
      modifies this`inputText
      ensures Valid()
      ensures inputText == SampleTexts[index]
      ensures isAnalyzing == old(isAnalyzing) && result == old(result)
    {
      SetInputText(SampleTexts[index]);
    }

    /** `handleAnalyze` up to its `await`. On a blank text it returns at once
        and changes nothing; otherwise it marks an analysis as running, clears
        the previous result and hands back the text it captured. */
    method BeginAnalyze() returns (captured: Option<string>)
      requires Valid()
      modifies this`isAnalyzing, this`result
      ensures Valid()
      ensures inputText == old(inputText)
      ensures captured.None? <==> AllWhitespace(inputText)
      ensures captured.None? ==> isAnalyzing == old(isAnalyzing) && result == old(result)
      ensures captured.Some? ==> captured.value == inputText && isAnalyzing && result == None
      ensures captured.Some? ==> !ShowResultPanel(result)
    {
      TrimEmptyIff(inputText);
      if Trim(inputText) == [] {
        return None;
      }
      isAnalyzing := true;
      result := None;
      captured := Some(inputText);
    }

    /** `handleAnalyze` after its `await`: stores the result for the text
        captured when the analysis began, whatever the text area holds now,
        and marks the analysis as over. */
    method Settle(captured: string)
      requires Valid()
      modifies this`isAnalyzing, this`result
      ensures Valid()
      ensures inputText == old(inputText)
      ensures result == Some(Classify(captured)) && !isAnalyzing
      ensures ShowResultPanel(result)
      ensures ShowRedFlags(result.value) <==> IsSuspicious(captured)
    {
      result := Some(Classify(captured));
      isAnalyzing := false;
    }

    /** A click on the analyze button: a disabled button does nothing, so a
        second click while an analysis runs cannot start another one. */
    method ClickAnalyze() returns (captured: Option<string>)
      requires Valid()
      modifies this`isAnalyzing, this`result
      ensures Valid()
      ensures inputText == old(inputText)
      ensures old(isAnalyzing) ==> captured.None? && isAnalyzing && result == old(result)
      ensures captured.Some? <==> old(AnalyzeEnabled(inputText, isAnalyzing))
      ensures captured.None? ==> isAnalyzing == old(isAnalyzing) && result == old(result)
      ensures captured.Some? ==> captured.value == inputText && isAnalyzing && result == None
    {
      if !AnalyzeEnabled(inputText, isAnalyzing) {
        return None;
      }
      captured := BeginAnalyze();
    }

    /** `handleAnalyze` from start to end with no event in between: a blank
        text changes nothing; any other text ends with no analysis running
        and the classifier's result for that text stored. */
    method HandleAnalyze()
      requires Valid()
      modifies this`isAnalyzing, this`result
      ensures Valid()
      ensures inputText == old(inputText)
      ensures AllWhitespace(inputText) ==> isAnalyzing == old(isAnalyzing) && result == old(result)
      ensures !AllWhitespace(inputText) ==> !isAnalyzing && result == Some(Classify(inputText))
    {
      var captured := BeginAnalyze();
      if captured.Some? {
        Settle(captured.value);
      }
    }
  }

  /** A visitor picks sample `index`, presses the analyze button and waits:
      the label shown and the red flags listed. */
  method AnalyzeSample(index: nat) returns (labelText: string, flags: seq<string>)
    requires index < |SampleTexts|
    ensures index == 1 ==> labelText == AuthenticLabel && flags == []
    ensures index != 1 ==> labelText == MisinformationLabel && flags == SuspiciousFlags
  {
    var demo := new Demo();
    demo.ChooseSample(index);
    ghost var text := SampleTexts[index];
    assert text[0] == (if index == 0 then 'S' else if index == 1 then 'L' else 'B');
    assert !IsWhitespace(text[0]);
    var captured := demo.ClickAnalyze();
    if index == 0 {
      SampleOneIsFake();
    } else if index == 1 {
      SampleTwoIsReal();
    } else {
      SampleThreeIsFake();
    }
    demo.Settle(captured.value);
    labelText := GetVerdictStyles(demo.result).labelText;
    flags := demo.result.value.redFlags;
  }
}
