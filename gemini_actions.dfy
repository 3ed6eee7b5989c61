/** The server action `analyzeHealthData` (app/actions/gemini-actions.ts): the
    prompt builder, the greedy `{…}` extraction from the model's reply, and the
    catch-all that turns every failure into one error record.

    The language-model call, `JSON.parse` and the interpolation of numbers into
    the template are foreign code; they are parameters here:
      - `gemini`: prompt -> reply text, `None` when the client, the generation or
        `response.text()` throws;
      - `jsonParse`: fragment -> record, `None` when the fragment is not JSON;
      - `fmt`: how a number is written into a template literal. */
module GeminiActions {
  import opened HealthTypes
  import opened JsBuiltins

  // ---------------------------------------------------------------- test-type clause

  const TestContextStem := "The reading was taken during a"
  const FastingSuffix := " fasting state (no food for at least 8 hours)."
  const PostMealSuffix := " post-meal state (within 2 hours after eating)."
  const RandomSuffix := " random state (unknown time since last meal)."

  /** The words appended to the stem: any string that is neither "fasting" nor
      "postprandial" (the default "random", the empty string, a typo) falls to
      the random-state words; no test type is an error. */
  function TestTypeSuffix(testType: string): string {
    match testType
    case "fasting" => FastingSuffix
    case "postprandial" => PostMealSuffix
    case _ => RandomSuffix
  }

  /** The test-type sentence: the stem followed by exactly one of the three
      suffixes, each chosen by exactly one kind of test type. */
  function TestContext(testType: string): (r: string)
    ensures r == TestContextStem + FastingSuffix <==> testType == "fasting"
    ensures r == TestContextStem + PostMealSuffix <==> testType == "postprandial"
    ensures r == TestContextStem + RandomSuffix <==> testType != "fasting" && testType != "postprandial"
  {
    TestContextStem + TestTypeSuffix(testType)
  }

  /** The `switch` that appends one suffix to the stem. */
  method BuildTestContext(testType: string) returns (testContext: string)
    ensures testContext == TestContext(testType)
  {
    testContext := TestContextStem;
    if testType == "fasting" {
      testContext := testContext + FastingSuffix;
    } else if testType == "postprandial" {
      testContext := testContext + PostMealSuffix;
    } else {
      testContext := testContext + RandomSuffix;
    }
  }

  // ---------------------------------------------------------------- patient context

  const KnownCondition := "Patient has a known pre-diabetic condition."
  const NoKnownCondition := "Patient has no known diabetic condition."
  const AccountForCondition := "Account for the pre-diabetic condition in your assessment"
  const AssessRisk := "Assess risk of pre-diabetes or diabetes"

  /** The health-context sentence names the pre-diabetic condition exactly when
      the flag is set. */
  function HealthContext(isPrediabetic: bool): (r: string)
    ensures r == KnownCondition <==> isPrediabetic
    ensures r == NoKnownCondition <==> !isPrediabetic
  {
    if isPrediabetic then KnownCondition else NoKnownCondition
  }

  /** Analysis requirement 3 branches on the same flag as the health context. */
  function Requirement3(isPrediabetic: bool): (r: string)
    ensures r == AccountForCondition <==> HealthContext(isPrediabetic) == KnownCondition
    ensures r == AssessRisk <==> HealthContext(isPrediabetic) == NoKnownCondition
  {
    if isPrediabetic then AccountForCondition else AssessRisk
  }

  const PatientInfoLabel := "\nAdditional patient information: "

  /** The optional extra line: empty exactly when the free text is blank after
      trimming; otherwise the label followed by the text as typed, untrimmed. */
  function PatientInfo(additionalInfo: string): (r: string)
    ensures r == [] <==> AllWhiteSpace(additionalInfo)
    ensures r != [] ==> r == "\nAdditional patient information: " + additionalInfo
  {
    if Trim(additionalInfo) != "" then PatientInfoLabel + additionalInfo else ""
  }

  // ---------------------------------------------------------------- prompt template

  /** The fixed text of the template literal, from its opening back-tick to the
      patient-information heading. */
  const Preamble: string :=
    "\n"
    + "      You are a medical analysis AI specialized in diabetes screening and monitoring. Your task is to analyze biometric data and provide precise blood glucose estimations.\n"
    + "      \n"
    + "      # CONTEXT\n"
    + "      Research has established correlations between breath acetone levels and blood glucose in diabetic patients. Higher acetone levels (measured in ppm) often indicate ketosis, which can suggest elevated blood glucose or insufficient insulin.\n"
    + "      - Normal breath acetone: 0.5-2.0 ppm\n"
    + "      - Elevated breath acetone: 2.0-5.0 ppm (mild ketosis)\n"
    + "      - High breath acetone: >5.0 ppm (significant ketosis, often seen in uncontrolled diabetes)\n"
    + "      \n"
    + "      Heart rate and oxygen saturation provide supporting context about overall cardiovascular health.\n"
    + "      \n"
    + "      # PATIENT INFORMATION\n"
    + "      "

  const PatientInfoIndent := "\n      "
  const InputDataHeading := "\n      \n      # INPUT DATA\n      - Heart Rate: "
  const HeartRateUnit := " bpm (normal range: 60-100 bpm)"
  const SpO2Label := "\n      - SpO2: "
  const SpO2Unit := "% (normal range: 95-100%)"
  const AcetoneLabel := "\n      - Breath Acetone: "
  const AcetoneUnit := " ppm (measured via MQ-138 sensor)"
  const RequirementsHeading :=
    "\n"
    + "      \n"
    + "      # ANALYSIS REQUIREMENTS\n"
    + "      1. Estimate blood glucose range in mg/dL with a narrow margin (\U{00B1}10 mg/dL)\n"
    + "      2. "
  const TestTypeOpen := "Consider the test type ("
  const TestTypeClose := ") when interpreting glucose values"
  const Requirement3Label := "\n      3. "

  /** The rest of the template: requirements 4 and 5, the reference values, the
      required output format and the closing indentation. */
  const Closing: string :=
    "\n"
    + "      4. Primary correlation factor should be acetone level with supporting context from other metrics\n"
    + "      5. Provide specific, actionable health recommendations based on the estimated glucose level\n"
    + "      \n"
    + "      # REFERENCE VALUES\n"
    + "      - Fasting glucose: \n"
    + "        * Normal: <100 mg/dL\n"
    + "        * Prediabetic: 100-125 mg/dL\n"
    + "        * Diabetic: >126 mg/dL\n"
    + "      - Random glucose:\n"
    + "        * Normal: <140 mg/dL\n"
    + "        * Prediabetic: 140-199 mg/dL\n"
    + "        * Diabetic: \U{2265}200 mg/dL\n"
    + "      - Post-meal glucose:\n"
    + "        * Normal: <140 mg/dL\n"
    + "        * Prediabetic: 140-199 mg/dL\n"
    + "        * Diabetic: \U{2265}200 mg/dL\n"
    + "      \n"
    + "      # OUTPUT FORMAT\n"
    + "      Return ONLY a valid JSON object with this exact structure:\n"
    + "      {\n"
    + "        \"glucoseEstimate\": \"XXX mg/dL\",\n"
    + "        \"glucoseRange\": \"XXX-XXX mg/dL\",\n"
    + "        \"glucoseStatus\": \"normal|prediabetic|diabetic\",\n"
    + "        \"diabetesRisk\": \"low|moderate|high\",\n"
    + "        \"recommendations\": [\n"
    + "          \"specific recommendation 1\",\n"
    + "          \"specific recommendation 2\",\n"
    + "          \"specific recommendation 3\",\n"
    + "          \"specific recommendation 4\",\n"
    + "          \"specific recommendation 5\"\n"
    + "        ]\n"
    + "      }\n"
    + "    "

  /** The lines under the patient-information heading. The test-type sentence
      and the patient information share one template line, with nothing
      between them. */
  function PatientSection(isPrediabetic: bool, testType: string, additionalInfo: string): string {
    HealthContext(isPrediabetic) + PatientInfoIndent + (TestContext(testType) + PatientInfo(additionalInfo))
  }

  /** The three reading lines, each value followed by its unit and normal
      range. */
  function Readings(heartRate: real, spO2: real, acetone: real, fmt: real -> string): string {
    (fmt(heartRate) + HeartRateUnit)
    + (SpO2Label + (fmt(spO2) + SpO2Unit))
    + (AcetoneLabel + (fmt(acetone) + AcetoneUnit))
  }

  /** The input-data heading and the three readings. */
  function InputSection(heartRate: real, spO2: real, acetone: real, fmt: real -> string): string {
    InputDataHeading + Readings(heartRate, spO2, acetone, fmt)
  }

  /** The three long stretches of fixed text in the prompt template: the
      preamble before the health context, the requirements heading with
      requirement 1, and the closing text (requirements 4 and 5, reference
      values and the reply format). */
  datatype Template = Template(preamble: string, requirements: string, closing: string)

  /** The template text of `analyzeHealthData`. */
  const SourceTemplate := Template(Preamble, RequirementsHeading, Closing)

  /** The requirements heading and requirements 1 to 3. */
  function RequirementsSection(t: Template, testType: string, isPrediabetic: bool): string {
    t.requirements
    + (TestTypeOpen + testType + TestTypeClose)
    + (Requirement3Label + Requirement3(isPrediabetic))
  }

  /** A prompt built on template text `t` with the values interpolated. The
      layout lemmas below say where each piece lands, for every `t`, and so
      for `SourceTemplate`. */
  function PromptFrom(t: Template, heartRate: real, spO2: real, acetone: real, isPrediabetic: bool,
                      testType: string, additionalInfo: string, fmt: real -> string): string
  {
    t.preamble
    + PatientSection(isPrediabetic, testType, additionalInfo)
    + InputSection(heartRate, spO2, acetone, fmt)
    + RequirementsSection(t, testType, isPrediabetic)
    + t.closing
  }

  /** The prompt sent to the model, the template literal with its values
      interpolated. It is a function of its arguments, so equal arguments give
      the identical string. */
  function Prompt(heartRate: real, spO2: real, acetone: real, isPrediabetic: bool,
                  testType: string, additionalInfo: string, fmt: real -> string): string
  {
    PromptFrom(SourceTemplate, heartRate, spO2, acetone, isPrediabetic, testType, additionalInfo, fmt)
  }

  /** The prompt opens with the fixed preamble and ends with the fixed closing
      text (requirements 4 and 5, reference values, output format). */
  lemma PromptFixedText(t: Template, heartRate: real, spO2: real, acetone: real, isPrediabetic: bool,
                        testType: string, additionalInfo: string, fmt: real -> string)
    ensures var p := PromptFrom(t, heartRate, spO2, acetone, isPrediabetic, testType, additionalInfo, fmt);
      OccursAt(p, t.preamble, 0) && EndsWith(p, t.closing)
  {
    EndsWithLast(t.preamble + PatientSection(isPrediabetic, testType, additionalInfo)
                 + InputSection(heartRate, spO2, acetone, fmt) + RequirementsSection(t, testType, isPrediabetic), t.closing);
    OccursInFive(t.preamble, PatientSection(isPrediabetic, testType, additionalInfo),
                 InputSection(heartRate, spO2, acetone, fmt), RequirementsSection(t, testType, isPrediabetic), t.closing);
  }

  /** Where the pieces of the patient section land in a prompt-shaped text. */
  lemma PatientLayout(pre: string, hc: string, ind: string, line: string, idh: string, rd: string,
                      req: string, clo: string)
    ensures var p := pre + (hc + ind + line) + (idh + rd) + req + clo;
      && OccursAt(p, hc, |pre|)
      && OccursAt(p, line, |pre| + |hc| + |ind|)
      && OccursAt(p, idh, |pre| + |hc| + |ind| + |line|)
      && OccursAt(p, line + idh, |pre| + |hc| + |ind|)
  {
    var p := pre + (hc + ind + line) + (idh + rd) + req + clo;
    OccursInFive(pre, hc + ind + line, idh + rd, req, clo);
    OccursInThree(hc, ind, line);
    OccursAtNested(p, hc + ind + line, hc, |pre|, 0);
    OccursAtNested(p, hc + ind + line, line, |pre|, |hc| + |ind|);
    OccursInTwo(idh, rd);
    OccursAtNested(p, idh + rd, idh, |pre| + |hc + ind + line|, 0);
    OccursAtAdjacent(p, line, idh, |pre| + |hc| + |ind|);
  }

  /** The patient-information section: the health context right after the
      preamble, then on the next line the test-type sentence immediately
      followed by the patient information, and then the input-data heading. */
  lemma PromptPatientSection(t: Template, heartRate: real, spO2: real, acetone: real, isPrediabetic: bool,
                             testType: string, additionalInfo: string, fmt: real -> string)
    ensures var p := PromptFrom(t, heartRate, spO2, acetone, isPrediabetic, testType, additionalInfo, fmt);
      && OccursAt(p, HealthContext(isPrediabetic), |t.preamble|)
      && OccursAt(p, TestContext(testType) + PatientInfo(additionalInfo),
                  |t.preamble| + |HealthContext(isPrediabetic)| + |PatientInfoIndent|)
      && OccursAt(p, InputDataHeading,
                  |t.preamble| + |HealthContext(isPrediabetic)| + |PatientInfoIndent|
                  + |TestContext(testType) + PatientInfo(additionalInfo)|)
      && OccursAt(p, TestContext(testType) + PatientInfo(additionalInfo) + InputDataHeading,
                  |t.preamble| + |HealthContext(isPrediabetic)| + |PatientInfoIndent|)
  {
    PatientLayout(t.preamble, HealthContext(isPrediabetic), PatientInfoIndent,
                  TestContext(testType) + PatientInfo(additionalInfo),
                  InputDataHeading, Readings(heartRate, spO2, acetone, fmt),
                  RequirementsSection(t, testType, isPrediabetic), t.closing);
  }

  /** Where each value-and-unit lands among the reading lines. */
  lemma ReadingLines(h: string, spl: string, sp: string, acl: string, ac: string)
    ensures var rd := h + (spl + sp) + (acl + ac);
      && OccursAt(rd, h, 0)
      && OccursAt(rd, sp, |h| + |spl|)
      && OccursAt(rd, ac, |h| + |spl + sp| + |acl|)
  {
    var rd := h + (spl + sp) + (acl + ac);
    OccursInThree(h, spl + sp, acl + ac);
    OccursInTwo(spl, sp);
    OccursAtNested(rd, spl + sp, sp, |h|, |spl|);
    OccursInTwo(acl, ac);
    OccursAtNested(rd, acl + ac, ac, |h| + |spl + sp|, |acl|);
  }

  /** Where the reading lines land in a prompt-shaped text. */
  lemma ReadingsLayout(pre: string, pat: string, idh: string, h: string, spl: string, sp: string,
                       acl: string, ac: string, req: string, clo: string)
    ensures var p := pre + pat + (idh + (h + (spl + sp) + (acl + ac))) + req + clo;
      Occurs(p, h) && Occurs(p, sp) && Occurs(p, ac)
  {
    var rd := h + (spl + sp) + (acl + ac);
    var p := pre + pat + (idh + rd) + req + clo;
    var k := |pre| + |pat| + |idh|;
    OccursInFive(pre, pat, idh + rd, req, clo);
    OccursInTwo(idh, rd);
    OccursAtNested(p, idh + rd, rd, |pre| + |pat|, |idh|);
    ReadingLines(h, spl, sp, acl, ac);
    OccursAtNested(p, rd, h, k, 0);
    OccursAtNested(p, rd, sp, k, |h| + |spl|);
    OccursAtNested(p, rd, ac, k, |h| + |spl + sp| + |acl|);
  }

  /** Each reading is written into the prompt followed by its unit and normal
      range. */
  lemma PromptReadings(t: Template, heartRate: real, spO2: real, acetone: real, isPrediabetic: bool,
                       testType: string, additionalInfo: string, fmt: real -> string)
    ensures var p := PromptFrom(t, heartRate, spO2, acetone, isPrediabetic, testType, additionalInfo, fmt);
      && Occurs(p, fmt(heartRate) + " bpm (normal range: 60-100 bpm)")
      && Occurs(p, fmt(spO2) + "% (normal range: 95-100%)")
      && Occurs(p, fmt(acetone) + " ppm (measured via MQ-138 sensor)")
  {
    ReadingsLayout(t.preamble, PatientSection(isPrediabetic, testType, additionalInfo), InputDataHeading,
                   fmt(heartRate) + HeartRateUnit, SpO2Label, fmt(spO2) + SpO2Unit,
                   AcetoneLabel, fmt(acetone) + AcetoneUnit,
                   RequirementsSection(t, testType, isPrediabetic), t.closing);
  }

  /** Where requirements 2 and 3 land in a prompt-shaped text. */
  lemma RequirementsLayout(pre: string, pat: string, inp: string, rh: string, two: string, three: string,
                           clo: string)
    ensures var p := pre + pat + inp + (rh + two + three) + clo;
      Occurs(p, two) && Occurs(p, three)
  {
    var p := pre + pat + inp + (rh + two + three) + clo;
    var k := |pre| + |pat| + |inp|;
    OccursInFive(pre, pat, inp, rh + two + three, clo);
    OccursInThree(rh, two, three);
    OccursAtNested(p, rh + two + three, two, k, |rh|);
    OccursAtNested(p, rh + two + three, three, k, |rh| + |two|);
  }

  /** Requirement 2 quotes the test type as given, and requirement 3 is the one
      chosen by the pre-diabetic flag. */
  lemma PromptRequirements(t: Template, heartRate: real, spO2: real, acetone: real, isPrediabetic: bool,
                           testType: string, additionalInfo: string, fmt: real -> string)
    ensures var p := PromptFrom(t, heartRate, spO2, acetone, isPrediabetic, testType, additionalInfo, fmt);
      && Occurs(p, "Consider the test type (" + testType + ") when interpreting glucose values")
      && Occurs(p, "\n      3. " + (if isPrediabetic then AccountForCondition else AssessRisk))
  {
    RequirementsLayout(t.preamble, PatientSection(isPrediabetic, testType, additionalInfo),
                       InputSection(heartRate, spO2, acetone, fmt), t.requirements,
                       TestTypeOpen + testType + TestTypeClose, Requirement3Label + Requirement3(isPrediabetic),
                       t.closing);
  }

  /** With no patient information, the test-type sentence runs straight into
      the input-data heading. */
  lemma LayoutWithoutInfo(pre: string, hc: string, ind: string, tc: string, pi: string, idh: string,
                          rd: string, req: string, clo: string)
    requires pi == []
    ensures var p := pre + (hc + ind + (tc + pi)) + (idh + rd) + req + clo;
      OccursAt(p, tc + idh, |pre| + |hc| + |ind|)
  {
    PatientLayout(pre, hc, ind, tc + pi, idh, rd, req, clo);
    assert tc + pi == tc;
  }

  /** A request with the flag unset, a test type other than "fasting" and
      "postprandial", and blank additional information gets the no-condition
      sentence and the random-state sentence, with no patient-information line
      between that sentence and the input-data heading. */
  lemma PromptWithoutPatientDetails(t: Template, heartRate: real, spO2: real, acetone: real, isPrediabetic: bool,
                                    testType: string, additionalInfo: string, fmt: real -> string)
    requires !isPrediabetic && testType != "fasting" && testType != "postprandial"
    requires AllWhiteSpace(additionalInfo)
    ensures var p := PromptFrom(t, heartRate, spO2, acetone, isPrediabetic, testType, additionalInfo, fmt);
      && OccursAt(p, NoKnownCondition, |t.preamble|)
      && OccursAt(p, TestContextStem + RandomSuffix + InputDataHeading,
                  |t.preamble| + |NoKnownCondition| + |PatientInfoIndent|)
  {
    PromptPatientSection(t, heartRate, spO2, acetone, isPrediabetic, testType, additionalInfo, fmt);
    LayoutWithoutInfo(t.preamble, HealthContext(isPrediabetic), PatientInfoIndent, TestContext(testType),
                      PatientInfo(additionalInfo), InputDataHeading, Readings(heartRate, spO2, acetone, fmt),
                      RequirementsSection(t, testType, isPrediabetic), t.closing);
  }

  // ---------------------------------------------------------------- defaults

  /** The values the optional parameters take when the caller leaves them out. */
  const DefaultIsPrediabetic := false
  const DefaultTestType := "random"
  const DefaultAdditionalInfo := ""

  /** The prompt for a call that passes only the three readings: no known
      condition, and the random-state sentence with no patient-information line
      after it. */
  function DefaultPrompt(t: Template, heartRate: real, spO2: real, acetone: real, fmt: real -> string): (p: string)
    ensures OccursAt(p, NoKnownCondition, |t.preamble|)
    ensures OccursAt(p, TestContextStem + RandomSuffix + InputDataHeading,
                     |t.preamble| + |NoKnownCondition| + |PatientInfoIndent|)
  {
    PromptWithoutPatientDetails(t, heartRate, spO2, acetone, DefaultIsPrediabetic, DefaultTestType,
                                DefaultAdditionalInfo, fmt);
    PromptFrom(t, heartRate, spO2, acetone, DefaultIsPrediabetic, DefaultTestType, DefaultAdditionalInfo, fmt)
  }

  // ---------------------------------------------------------------- reply extraction

  /** `text.match(/\{[\s\S]*\}/)`: the leftmost `{` from which some `}` follows,
      through the last `}` of the text, greedily. The regular expression is not
      a JSON scanner: everything between those two braces is taken. */
  function ExtractJsonFragment(text: string): (r: Option<string>)
    ensures r.Some? <==> exists a, b :: 0 <= a < b < |text| && text[a] == '{' && text[b] == '}'
    ensures r.Some? ==> exists i, j :: 0 <= i < j < |text| && r.value == text[i..j + 1]
                                       && '{' !in text[..i] && text[i] == '{'
                                       && text[j] == '}' && '}' !in text[j + 1..]
  {
    BracesWithinSearch(text);
    var first, last := IndexOf(text, '{'), LastIndexOf(text, '}');
    if first.Some? && last.Some? && first.value < last.value then
      Some(text[first.value..last.value + 1])
    else
      None
  }

  /** Any `{` lies at or after the leftmost one and any `}` at or before the
      rightmost one. */
  lemma BracesWithinSearch(text: string)
    ensures forall a, b :: 0 <= a < b < |text| && text[a] == '{' && text[b] == '}' ==>
      && IndexOf(text, '{').Some? && IndexOf(text, '{').value <= a
      && LastIndexOf(text, '}').Some? && b <= LastIndexOf(text, '}').value
  {
    var first, last := IndexOf(text, '{'), LastIndexOf(text, '}');
    if first.Some? {
      forall i | 0 <= i < first.value ensures text[i] != '{' {
        assert text[..first.value][i] == text[i];
      }
    }
    if last.Some? {
      forall i | last.value < i < |text| ensures text[i] != '}' {
        assert text[last.value + 1..][i - last.value - 1] == text[i];
      }
    }
    forall a, b | 0 <= a < b < |text| && text[a] == '{' && text[b] == '}'
      ensures first.Some? && last.Some?
    {
      assert text[a] in text && text[b] in text;
    }
  }

  /** A reply holding one object in prose with no braces around it yields that
      object. */
  lemma ExtractFromProse(before: string, json: string, after: string)
    requires '{' !in before && '}' !in after
    requires |json| >= 2 && json[0] == '{' && json[|json| - 1] == '}'
    ensures ExtractJsonFragment(before + json + after) == Some(json)
  {
    var text := before + json + after;
    var i, j := |before|, |before| + |json| - 1;
    assert text[i] == '{' && text[j] == '}';
    assert text[..i] == before;
    assert text[j + 1..] == after;
    assert text[i..j + 1] == json;
  }

  // ---------------------------------------------------------------- catch-all

  /** Why an analysis attempt ended in the catch block. */
  datatype Failure =
    | ServiceFailure   // the client, `generateContent` or `response.text()` threw
    | NoJsonFragment   // the reply held no `{…}` span: "Failed to parse Gemini response"
    | InvalidJson      // `JSON.parse` threw on the fragment

  datatype Result<+T> = Ok(value: T) | Err(failure: Failure)

  /** The body of the `try` block after the prompt is built. */
  function RequestAnalysis(prompt: string, gemini: string -> Option<string>,
                           jsonParse: string -> Option<GeminiAnalysis>): (r: Result<GeminiAnalysis>)
    ensures r == Err(ServiceFailure) <==> gemini(prompt).None?
    ensures r == Err(NoJsonFragment) <==>
              gemini(prompt).Some? && ExtractJsonFragment(gemini(prompt).value).None?
    ensures r == Err(InvalidJson) <==>
              && gemini(prompt).Some? && ExtractJsonFragment(gemini(prompt).value).Some?
              && jsonParse(ExtractJsonFragment(gemini(prompt).value).value).None?
    ensures r.Ok? ==> exists fragment :: jsonParse(fragment) == Some(r.value)
                                       && ExtractJsonFragment(gemini(prompt).value) == Some(fragment)
    ensures && gemini(prompt).Some? && ExtractJsonFragment(gemini(prompt).value).Some?
            && jsonParse(ExtractJsonFragment(gemini(prompt).value).value).Some?
            ==> r == Ok(jsonParse(ExtractJsonFragment(gemini(prompt).value).value).value)
  {
    match gemini(prompt)
    case None => Err(ServiceFailure)
    case Some(text) =>
      match ExtractJsonFragment(text)
      case None => Err(NoJsonFragment)
      case Some(fragment) =>
        match jsonParse(fragment)
        case None => Err(InvalidJson)
        case Some(analysis) => Ok(analysis)
  }

  /** The record returned from the catch block. */
  const ErrorResult := GeminiAnalysis(
    "Error", "Unable to estimate", "error", "unknown",
    ["Error analyzing data. Please try again."])

  /** `analyzeHealthData`: never fails. Every failure (the service, a reply with
      no `{…}`, a fragment that is not JSON) gives the error record, with status
      "error", risk "unknown" and a single recommendation; otherwise the result
      is the parsed fragment of the reply, unchecked. */
  function AnalyzeHealthData(heartRate: real, spO2: real, acetone: real, isPrediabetic: bool,
                             testType: string, additionalInfo: string,
                             gemini: string -> Option<string>, jsonParse: string -> Option<GeminiAnalysis>,
                             fmt: real -> string): (r: GeminiAnalysis)
    ensures var reply := gemini(Prompt(heartRate, spO2, acetone, isPrediabetic, testType, additionalInfo, fmt));
      && (reply.None? ==> r == ErrorResult)
      && (reply.Some? && ExtractJsonFragment(reply.value).None? ==> r == ErrorResult)
      && (reply.Some? && ExtractJsonFragment(reply.value).Some? ==>
            r == (match jsonParse(ExtractJsonFragment(reply.value).value)
                  case None => ErrorResult
                  case Some(parsed) => parsed))
    ensures r.glucoseStatus == "error" && r.diabetesRisk == "unknown" && |r.recommendations| == 1
            <== RequestAnalysis(Prompt(heartRate, spO2, acetone, isPrediabetic, testType, additionalInfo, fmt),
                                gemini, jsonParse).Err?
  {
    var prompt := Prompt(heartRate, spO2, acetone, isPrediabetic, testType, additionalInfo, fmt);
    match RequestAnalysis(prompt, gemini, jsonParse)
    case Ok(analysis) => analysis
    case Err(_) => ErrorResult
  }

  /** The three-argument call the analysis form makes: the defaults fill in the
      rest. */
  function AnalyzeWithDefaults(heartRate: real, spO2: real, acetone: real,
                               gemini: string -> Option<string>, jsonParse: string -> Option<GeminiAnalysis>,
                               fmt: real -> string): (r: GeminiAnalysis)
    ensures gemini(DefaultPrompt(SourceTemplate, heartRate, spO2, acetone, fmt)).None? ==> r == ErrorResult
  {
    AnalyzeHealthData(heartRate, spO2, acetone, DefaultIsPrediabetic, DefaultTestType, DefaultAdditionalInfo,
                      gemini, jsonParse, fmt)
  }
}
