# Demo analyzer: a Dafny model

This project models the interactive demo of a marketing site for a
misinformation checker (`src/components/Demo.tsx`). A visitor types or picks a
headline and presses "Check Credibility". The page then shows "Analyzing...",
waits, and presents a verdict with a confidence bar, an explanation and any red
flags. The analysis is simulated: a keyword test on the lower-cased text stands
in for a model. The demo sends no request, and it has no service error and no
transport error. The model follows that code.

Four modules, in dependency order:

- `Text` (text.dfy): the JavaScript string operations the demo uses.
  - `trim`, over the exact ECMAScript whitespace and line-terminator set.
  - `toLowerCase`, for the characters whose lower-case form is an ASCII letter.
  - `includes`.
- `Analysis` (analysis.dfy): `AnalysisResult`, the three sample headlines and
  the simulated classifier `Classify`.
- `Presenter` (presenter.dfy): `getVerdictStyles` and the render-time
  conditions: the result panel, the confidence bar and the red-flag block.
- `DemoComponent` (demo.dfy): the component's three state cells as the fields
  of class `Demo`, with its event handlers as methods.
  - `handleAnalyze` is split at its `await`. `BeginAnalyze` runs up to the
    `await` and returns the text that the handler's closure captured.
    `Settle` runs after the `await` and works on that captured text.
    Edits made to the text area in between therefore do not change the
    result.
  - `ClickAnalyze` is the button: a disabled button does nothing.
  - `HandleAnalyze` is the whole handler with no event in between.

`Demo.Valid()` is the invariant that every handler keeps:
- while an analysis runs, no result is shown;
- every result shown is one the classifier produced.

One behaviour of the source is worth knowing, though the demo never reaches
it. An `uncertain` verdict would get a warning-toned header but a red
confidence bar. The bar tests only for `real` (line 183), while the header has
its own case for it. `Presenter.BarMatchesHeaderIff` states that the uncertain
header is in the warning tone and its bar in the destructive one. The simulated
classifier never answers `uncertain` (`Analysis.Classify`).

## Model

| member | source | states |
|---|---|---|
| `Text.IsWhitespace` | src/components/Demo.tsx:24 | the characters `trim` removes: ECMAScript's WhiteSpace and LineTerminator code points |
| `Text.AllWhitespace` | src/components/Demo.tsx:24 | a text made of those characters only |
| `Text.TrimStart` | src/components/Demo.tsx:24 | the leading-whitespace cut of `trim`: the result is a suffix of the input, everything removed is whitespace, and the result is empty or starts with a kept character |
| `Text.TrimEnd` | src/components/Demo.tsx:24 | the trailing-whitespace cut of `trim`: the result is a prefix, everything removed is whitespace, the result is empty or ends with a kept character, and it is empty only if the input is all whitespace |
| `Text.Trim` | src/components/Demo.tsx:24 | the trimmed text is empty or begins and ends with a character that is not whitespace |
| `Text.TrimIsInfix` | src/components/Demo.tsx:24 | the trimmed text is a contiguous piece of the input, with only whitespace before and after it; with `Text.Trim` this determines the result |
| `Text.TrimEmptyIff` | src/components/Demo.tsx:24 | `!inputText.trim()` holds exactly when every character of the text is whitespace |
| `Text.LowerChar` | src/components/Demo.tsx:33-35 | the lower-case form of one character: A-Z move to a-z, the Kelvin sign becomes `k`, every other character is kept |
| `Text.LowerCharIs` | src/components/Demo.tsx:33-35 | the characters whose lower-case form is a given lower-case ASCII letter are that letter, its capital and, for `k`, the Kelvin sign |
| `Text.ToLower` | src/components/Demo.tsx:33-35 | `toLowerCase` keeps the length and lower-cases each character in place |
| `Text.ToLowerIdempotent` | src/components/Demo.tsx:33-35 | lower-casing twice gives the same text as lower-casing once |
| `Text.ToLowerConcat` | src/components/Demo.tsx:33-35 | lower-casing a concatenation lower-cases each part |
| `Text.Contains` | src/components/Demo.tsx:33-35 | `includes(w)`: a left-to-right scan for a position where `w` starts |
| `Text.ContainsIff` | src/components/Demo.tsx:33-35 | `includes(w)` holds exactly when `w` occurs at some index of the text |
| `Text.NotContainsByPrefix` | src/components/Demo.tsx:33-35 | a word is absent when no two adjacent characters spell its first two letters |
| `Text.ContainsExtend` | src/components/Demo.tsx:33-35 | an occurrence survives adding text on either side |
| `Analysis.IsSuspicious` | src/components/Demo.tsx:33-35 | `isSuspicious`: the lower-cased text includes "breaking", "mandatory" or "diamonds" |
| `Analysis.Classify` | src/components/Demo.tsx:33-46 | the verdict is `fake` exactly when the text is suspicious, never `uncertain`; the confidence lies in 0..100; red flags are present exactly for `fake` |
| `Analysis.ClassifyFakeIff` | src/components/Demo.tsx:33-38 | the verdict is `fake` iff one of "breaking", "mandatory", "diamonds" occurs at some index of the lower-cased text, and `real` iff none does |
| `Analysis.ClassifyFixedResults` | src/components/Demo.tsx:37-46 | `fake` comes with confidence 87, its explanation and the three flags in source order; `real` with confidence 94, its explanation and no flags |
| `Analysis.ClassifyIgnoresCase` | src/components/Demo.tsx:33-35 | a text and its lower-cased form get the same result |
| `Analysis.SuspicionSurvivesContext` | src/components/Demo.tsx:33-38 | adding text before or after a text judged `fake` keeps it `fake` |
| `Analysis.SampleOneIsFake` | src/components/Demo.tsx:18 | the "diamonds" sample headline is judged `fake` |
| `Analysis.SampleTwoIsReal` | src/components/Demo.tsx:19 | the hospital-wing sample headline contains no keyword and is judged `real` |
| `Analysis.SampleThreeIsFake` | src/components/Demo.tsx:20 | the "BREAKING ... mandatory" sample headline is judged `fake` |
| `Presenter.GetVerdictStyles` | src/components/Demo.tsx:51-52 | no result gives the empty style `{}`, and a result always gives a style |
| `Presenter.LabelNamesVerdict` | src/components/Demo.tsx:54-79 | `real` gets the CheckCircle2 icon, the success tone and "Likely Authentic"; `fake` gets XCircle, the destructive tone and "Likely Misinformation"; `uncertain` gets AlertTriangle, the warning tone and "Uncertain"; the style depends on the verdict alone; its label reads back as that verdict ("Likely Authentic" for `real`, "Likely Misinformation" for `fake`, "Uncertain" otherwise), so two results share a style exactly when they share a verdict |
| `Presenter.ShowResultPanel` | src/components/Demo.tsx:159 | the result panel renders exactly when a result is stored |
| `Presenter.ConfidenceBar` | src/components/Demo.tsx:181-186 | the bar is as wide as the confidence, in the success tone exactly when the verdict is `real`, and in the destructive tone for any other verdict |
| `Presenter.ShowRedFlags` | src/components/Demo.tsx:202 | the red-flag block renders exactly when the list of red flags is not empty |
| `Presenter.BarMatchesHeaderIff` | src/components/Demo.tsx:182-184 | the bar has the header's tone exactly when the verdict is not `uncertain`; an `uncertain` header is in the warning tone while its bar is destructive |
| `Presenter.PresentClassified` | src/components/Demo.tsx:159-202 | for any analysed text, the bar fits in 0..100 %, the label is the misinformation one exactly for suspicious texts, and the red-flag block shows exactly then, with the three flags |
| `DemoComponent.AnalyzeEnabled` | src/components/Demo.tsx:140 | the button is enabled exactly when the text has a character that is not whitespace and no analysis runs |
| `DemoComponent.ButtonCaption` | src/components/Demo.tsx:145-155 | the caption is "Analyzing..." exactly while an analysis runs, and "Check Credibility" otherwise |
| `DemoComponent.Demo.Valid` | src/components/Demo.tsx:23-49 | the invariant every handler keeps: no result while an analysis runs, and any stored result is one the classifier produced |
| `DemoComponent.Demo.constructor` | src/components/Demo.tsx:13-15 | the initial state: empty text, not analyzing, no result |
| `DemoComponent.Demo.SetInputText` | src/components/Demo.tsx:115 | the text is replaced; the analysis flag and the result are untouched |
| `DemoComponent.Demo.ChooseSample` | src/components/Demo.tsx:128 | the chosen sample headline becomes the text; nothing else changes |
| `DemoComponent.Demo.BeginAnalyze` | src/components/Demo.tsx:23-27 | an all-whitespace text changes nothing; otherwise analyzing becomes true, the old result is cleared (the panel disappears) and the current text is captured |
| `DemoComponent.Demo.Settle` | src/components/Demo.tsx:37-48 | the result becomes the classifier's output for the captured text and analyzing becomes false; the panel shows, with the red-flag block exactly when the captured text is suspicious; the text is untouched |
| `DemoComponent.Demo.ClickAnalyze` | src/components/Demo.tsx:138-140 | a click starts an analysis exactly when the button is enabled; while one runs, a click changes nothing |
| `DemoComponent.Demo.HandleAnalyze` | src/components/Demo.tsx:23-49 | a blank text leaves the state as it was; any other text ends with analyzing false and the classifier's result for that text stored |
| `DemoComponent.AnalyzeSample` | src/components/Demo.tsx:17-21 | picking a sample, pressing the button and waiting shows "Likely Authentic" with no flags for the second sample, and "Likely Misinformation" with the three flags for the others |

## Left out

- JSX layout, CSS class strings, icon components and animations. The three colour classes of each style are reduced to the one theme tone they name (`Presenter.Tone`).
- The 2000 ms `setTimeout` (line 30). It appears only as the boundary between `BeginAnalyze` and `Settle`. Timer ordering between two overlapping handler runs is not modelled.
- React's re-rendering and its batching of state updates. Each model method runs atomically.
- `Text.ToLower`: only characters whose lower-case form is an ASCII letter are mapped: A-Z and the Kelvin sign. Other characters are kept as they are, so the model does not equal `toLowerCase` on other scripts. Keyword matching is unaffected, because the keywords are ASCII and neither start nor end with `i` (U+0130 lower-cases to `i` plus a combining dot).
- The sample buttons' shortened captions (`text.slice(0, 40)`), which are presentation only.
- Strings are sequences of Unicode scalar values, while JavaScript strings are sequences of UTF-16 code units, so a lone surrogate cannot be represented. The keywords and the whitespace set all lie in the 16-bit range outside the surrogates, so matching and trimming are unaffected.
- `verdict` is a closed datatype of the three values its TypeScript type allows. A string outside that type, reaching the `default` case at run time, is not representable.
- Any remote analysis service, service-reported error or transport error: the code has none.
- src/components/BuildProcess.tsx, src/components/Problem.tsx and src/pages/Index.tsx: static content and page composition with no control flow.
