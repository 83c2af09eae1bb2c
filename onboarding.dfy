/**
 * The onboarding screen of the mobile app: how it turns a failed request into the
 * message it shows, when each of its four steps lets the user continue, how the
 * Continue button moves between steps, and what it sends to the registration
 * endpoint.
 */
module Onboarding {
  import opened Wrappers
  import opened JsText
  import opened HealthKit

  // ---------------------------------------------------------------------------
  // Error messages
  // ---------------------------------------------------------------------------

  /** Shown when the server answered with something other than JSON. */
  const Unavailable: JsString := Utf16("Server is temporarily unavailable. Please try again later.")

  /** Shown when the error carries no message at all. */
  const FallbackMessage: JsString := Utf16("Something went wrong")

  /** The longest response body shown in full. */
  const MaxBodyLength: nat := 200

  /** The ellipsis appended to a cut-off body. */
  const Ellipsis: CodeUnit := 0x2026

  /** The error messages of a failed `JSON.parse`. */
  const ParseErrorText: string := "JSON Parse error"
  const UnexpectedTokenText: string := "Unexpected token"

  const Colon: CodeUnit := 0x3A
  const LessThan: CodeUnit := 0x3C

  /** `e?.message ?? "Something went wrong"`. */
  function RawMessage(message: Option<JsString>): JsString {
    message.GetOr(FallbackMessage)
  }

  /** The texts by which a failed `JSON.parse` of an HTML page announces itself. */
  predicate ParseFailureText(raw: JsString) {
    Includes(raw, Utf16(ParseErrorText)) || Includes(raw, Utf16(UnexpectedTokenText))
  }

  /** The number of leading code units of `s` that satisfy `p`. */
  function LeadingRun(s: JsString, p: CodeUnit -> bool): (n: nat)
    ensures n <= |s|
    ensures forall i :: 0 <= i < n ==> p(s[i])
    ensures n == |s| || !p(s[n])
  {
    if s != [] && p(s[0]) then
      var n := 1 + LeadingRun(s[1..], p);
      assert forall i :: 1 <= i < n ==> s[i] == s[1..][i - 1];
      n
    else 0
  }

  /** `raw` opens with one or more digits followed, at position `d`, by a colon. */
  predicate DigitsThenColon(raw: JsString, d: nat) {
    0 < d < |raw| && raw[d] == Colon && forall i :: 0 <= i < d ==> IsDigit(raw[i])
  }

  /** `raw` matches `/^\d+:\s*(.+)/s`: digits, a colon and then at least one character. */
  predicate StatusShaped(raw: JsString) {
    exists d: nat | d < |raw| :: DigitsThenColon(raw, d) && d + 1 < |raw|
  }

  /** `p` is digits, a colon and white space: the part of a match in front of the captured group. */
  predicate StatusGap(p: JsString) {
    exists d: nat | d < |p| :: DigitsThenColon(p, d) && forall i :: d < i < |p| ==> IsSpace(p[i])
  }

  /**
   * `body` is the group the regular expression captures from `raw`: a non-empty suffix
   * after the status prefix, with as much white space consumed by `\s*` as still
   * leaves `.+` one character.
   */
  predicate StatusSplit(raw: JsString, body: JsString) {
    0 < |body| <= |raw| && raw[|raw| - |body|..] == body && StatusGap(raw[..|raw| - |body|]) &&
    (|body| == 1 || !IsSpace(body[0]))
  }

  /**
   * `raw.match(/^\d+:\s*(.+)/s)?.[1]`, as a left-to-right scan: `\d+` takes every
   * leading digit, `\s*` every following white-space character but the last one when
   * nothing else is left for `.+`.
   */
  function StatusBody(raw: JsString): (r: Option<JsString>)
    ensures r.Some? ==> 0 < |r.value| <= |raw| - 2 && raw[|raw| - |r.value|..] == r.value
  {
    var d := LeadingRun(raw, IsDigit);
    if d == 0 || d + 1 >= |raw| || raw[d] != Colon then None
    else
      var rest := raw[d + 1..];
      var w := LeadingRun(rest, IsSpace);
      Some(if w == |rest| then rest[|rest| - 1..] else rest[w..])
  }

  /** The scan matches exactly the status-shaped messages and captures the regular expression's group. */
  lemma StatusBodyMatches(raw: JsString)
    ensures StatusBody(raw).Some? <==> StatusShaped(raw)
    ensures StatusBody(raw).Some? ==> StatusSplit(raw, StatusBody(raw).value)
  {
    StatusBodyShaped(raw);
    if StatusBody(raw).Some? {
      StatusBodySplit(raw);
    }
  }

  lemma StatusBodyShaped(raw: JsString)
    ensures StatusBody(raw).Some? <==> StatusShaped(raw)
  {
    var d := LeadingRun(raw, IsDigit);
    if StatusShaped(raw) {
      var e: nat :| e < |raw| && DigitsThenColon(raw, e) && e + 1 < |raw|;
      assert !IsDigit(raw[e]);
      assert d == e;
    }
    if StatusBody(raw).Some? {
      assert DigitsThenColon(raw, d);
    }
  }

  lemma StatusBodySplit(raw: JsString)
    requires StatusBody(raw).Some?
    ensures StatusSplit(raw, StatusBody(raw).value)
  {
    var d := LeadingRun(raw, IsDigit);
    var rest := raw[d + 1..];
    var w := LeadingRun(rest, IsSpace);
    var body := StatusBody(raw).value;
    var j := if w == |rest| then |rest| - 1 else w;
    assert body == rest[j..];
    var p := raw[..|raw| - |body|];
    assert |p| == d + 1 + j;
    assert DigitsThenColon(p, d);
    assert forall i :: d < i < |p| ==> p[i] == rest[i - d - 1];
    assert StatusGap(p);
  }

  /** Composing a status message from its parts and scanning it gives back the body. */
  lemma StatusBodyOfParts(code: JsString, gap: JsString, text: JsString)
    requires code != [] && forall i :: 0 <= i < |code| ==> IsDigit(code[i])
    requires forall i :: 0 <= i < |gap| ==> IsSpace(gap[i])
    requires text != [] && !IsSpace(text[0])
    ensures StatusBody(code + [Colon] + gap + text) == Some(text)
  {
    var raw := code + [Colon] + gap + text;
    var d := LeadingRun(raw, IsDigit);
    assert raw[|code|] == Colon;
    assert forall i :: 0 <= i < |code| ==> raw[i] == code[i];
    assert d == |code|;
    var rest := raw[d + 1..];
    assert rest == gap + text;
    var w := LeadingRun(rest, IsSpace);
    assert rest[|gap|] == text[0];
    assert forall i :: 0 <= i < |gap| ==> rest[i] == gap[i];
    assert w == |gap|;
    assert rest[w..] == text;
  }

  /** `body.length > 200 ? body.slice(0, 200) + "…" : body`. */
  function Truncated(body: JsString): (r: JsString)
    ensures |r| <= MaxBodyLength + 1
    ensures |body| <= MaxBodyLength ==> r == body
    ensures |body| > MaxBodyLength ==>
              |r| == MaxBodyLength + 1 && r[..MaxBodyLength] == body[..MaxBodyLength] && r[MaxBodyLength] == Ellipsis
  {
    if |body| > MaxBodyLength then body[..MaxBodyLength] + [Ellipsis] else body
  }

  /** The `error` field of the body's JSON when it is a non-empty (truthy) JsString. */
  function ShownError(errorField: JsString -> Option<JsString>, body: JsString): Option<JsString> {
    match errorField(body)
    case Some(e) => if e != [] then Some(e) else None
    case None => None
  }

  /**
   * `parseErrorMessage`. `message` is the error's `message` property, `errorField`
   * stands for `JSON.parse(body).error`: the JsString it yields, or `None` when parsing
   * throws or the field is missing.
   */
  function ParseErrorMessage(message: Option<JsString>, errorField: JsString -> Option<JsString>): (r: JsString)
    ensures RawMessage(message) != [] ==> r != []
  {
    var raw := RawMessage(message);
    if ParseFailureText(raw) then Unavailable
    else
      match StatusBody(raw)
      case None => raw
      case Some(body) =>
        if StartsWith(TrimStart(body), [LessThan]) then Unavailable
        else
          match ShownError(errorField, body)
          case Some(e) => e
          case None => Truncated(body)
  }

  /**
   * The parse-failure texts win over everything else; a message without the status
   * prefix is shown as it is; a status message shows the unavailable text, the
   * server's `error` text, or at most 201 code units.
   */
  lemma ParseErrorMessageCases(message: Option<JsString>, errorField: JsString -> Option<JsString>)
    ensures ParseFailureText(RawMessage(message)) ==> ParseErrorMessage(message, errorField) == Unavailable
    ensures !ParseFailureText(RawMessage(message)) && !StatusShaped(RawMessage(message)) ==>
              ParseErrorMessage(message, errorField) == RawMessage(message)
    ensures StatusShaped(RawMessage(message)) ==>
              var r := ParseErrorMessage(message, errorField);
              r == Unavailable ||
              exists body :: StatusSplit(RawMessage(message), body) && (ShownError(errorField, body) == Some(r) || r == Truncated(body))
    ensures !ParseFailureText(RawMessage(message)) && StatusShaped(RawMessage(message)) ==>
              var r := ParseErrorMessage(message, errorField);
              exists body :: StatusSplit(RawMessage(message), body) &&
                (StartsWith(TrimStart(body), [LessThan]) ==> r == Unavailable) &&
                (!StartsWith(TrimStart(body), [LessThan]) && ShownError(errorField, body).Some? ==> r == ShownError(errorField, body).value) &&
                (!StartsWith(TrimStart(body), [LessThan]) && ShownError(errorField, body).None? ==> r == Truncated(body))
  {
    var raw := RawMessage(message);
    StatusBodyMatches(raw);
    if StatusShaped(raw) {
      var body := StatusBody(raw).value;
      assert StatusSplit(raw, body);
      if !ParseFailureText(raw) {
        StatusMessageOutcome(message, errorField);
      }
    }
  }

  /** The outcome for a status message, in terms of the body the scan captures. */
  lemma StatusMessageOutcome(message: Option<JsString>, errorField: JsString -> Option<JsString>)
    requires !ParseFailureText(RawMessage(message)) && StatusBody(RawMessage(message)).Some?
    ensures var body, r := StatusBody(RawMessage(message)).value, ParseErrorMessage(message, errorField);
            && (StartsWith(TrimStart(body), [LessThan]) ==> r == Unavailable)
            && (!StartsWith(TrimStart(body), [LessThan]) && ShownError(errorField, body).Some? ==> r == ShownError(errorField, body).value)
            && (!StartsWith(TrimStart(body), [LessThan]) && ShownError(errorField, body).None? ==> r == Truncated(body))
  {
  }

  /** The regular expression's group is determined by the message: at most one body is a status split of it. */
  lemma StatusSplitUnique(raw: JsString, b1: JsString, b2: JsString)
    requires StatusSplit(raw, b1) && StatusSplit(raw, b2)
    ensures b1 == b2
  {
    var p1, p2 := raw[..|raw| - |b1|], raw[..|raw| - |b2|];
    var d1: nat :| d1 < |p1| && DigitsThenColon(p1, d1) && forall i :: d1 < i < |p1| ==> IsSpace(p1[i]);
    var d2: nat :| d2 < |p2| && DigitsThenColon(p2, d2) && forall i :: d2 < i < |p2| ==> IsSpace(p2[i]);
    assert d1 == d2;
  }

  /** A message-less error shows the generic text. */
  lemma MissingMessage(errorField: JsString -> Option<JsString>)
    ensures ParseErrorMessage(None, errorField) == FallbackMessage
  {
    var raw := FallbackMessage;
    Utf16Bmp("Something went wrong");
    Utf16Bmp(ParseErrorText);
    Utf16Bmp(UnexpectedTokenText);
    IncludesNeedsFirst(raw, Utf16(ParseErrorText));
    IncludesNeedsFirst(raw, Utf16(UnexpectedTokenText));
    assert !IsDigit(raw[0]);
    assert !StatusShaped(raw);
  }

  /** A status message whose body is markup shows the fixed unavailable text. */
  lemma MarkupBodyUnavailable(code: JsString, gap: JsString, text: JsString, errorField: JsString -> Option<JsString>)
    requires code != [] && forall i :: 0 <= i < |code| ==> IsDigit(code[i])
    requires forall i :: 0 <= i < |gap| ==> IsSpace(gap[i])
    requires text != [] && text[0] == LessThan
    requires !ParseFailureText(code + [Colon] + gap + text)
    ensures ParseErrorMessage(Some(code + [Colon] + gap + text), errorField) == Unavailable
  {
    var raw := code + [Colon] + gap + text;
    StatusBodyOfParts(code, gap, text);
    assert TrimStart(text) == text;
    assert RawMessage(Some(raw)) == raw;
  }

  /** A status message whose body is an error object shows the object's `error` text. */
  lemma ServerErrorShown(code: JsString, gap: JsString, text: JsString, errorField: JsString -> Option<JsString>)
    requires code != [] && forall i :: 0 <= i < |code| ==> IsDigit(code[i])
    requires forall i :: 0 <= i < |gap| ==> IsSpace(gap[i])
    requires text != [] && !IsSpace(text[0]) && text[0] != LessThan
    requires !ParseFailureText(code + [Colon] + gap + text)
    requires ShownError(errorField, text).Some?
    ensures ParseErrorMessage(Some(code + [Colon] + gap + text), errorField) == ShownError(errorField, text).value
  {
    var raw := code + [Colon] + gap + text;
    StatusBodyOfParts(code, gap, text);
    assert TrimStart(text) == text && !StartsWith(text, [LessThan]);
    assert RawMessage(Some(raw)) == raw;
  }

  /** Any other status message shows its body, cut to 200 code units and an ellipsis. */
  lemma PlainBodyShown(code: JsString, gap: JsString, text: JsString, errorField: JsString -> Option<JsString>)
    requires code != [] && forall i :: 0 <= i < |code| ==> IsDigit(code[i])
    requires forall i :: 0 <= i < |gap| ==> IsSpace(gap[i])
    requires text != [] && !IsSpace(text[0]) && text[0] != LessThan
    requires !ParseFailureText(code + [Colon] + gap + text)
    requires ShownError(errorField, text).None?
    ensures ParseErrorMessage(Some(code + [Colon] + gap + text), errorField) == Truncated(text)
    ensures |ParseErrorMessage(Some(code + [Colon] + gap + text), errorField)| <= MaxBodyLength + 1
  {
    var raw := code + [Colon] + gap + text;
    StatusBodyOfParts(code, gap, text);
    assert TrimStart(text) == text;
    assert !StartsWith(TrimStart(text), [LessThan]);
    assert RawMessage(Some(raw)) == raw;
    var shown := Truncated(text);
    assert ParseErrorMessage(Some(raw), errorField) == shown;
  }

  // ---------------------------------------------------------------------------
  // Steps
  // ---------------------------------------------------------------------------

  /** The steps: intro, basics, metrics and sync. */
  const StepCount: nat := 4

  datatype Sex = Female | Male

  /** What the user has typed or picked so far. */
  datatype Form = Form(email: JsString, password: JsString, age: JsString, sex: Sex, height: JsString, weight: JsString)

  /** `isStepValid` for step `step`. */
  function IsStepValid(step: int, f: Form): (r: bool)
    ensures step == 1 ==> (r <==> HasVisible(f.email) && |f.password| >= 8 && HasVisible(f.age))
    ensures step == 2 ==> (r <==> HasVisible(f.height) && HasVisible(f.weight))
    ensures step != 1 && step != 2 ==> r
  {
    TrimEmpty(f.email);
    TrimEmpty(f.age);
    TrimEmpty(f.height);
    TrimEmpty(f.weight);
    match step
    case 0 => true
    case 1 => |Trim(f.email)| > 0 && |f.password| >= 8 && |Trim(f.age)| > 0
    case 2 => |Trim(f.height)| > 0 && |Trim(f.weight)| > 0
    case 3 => true
    case _ => true
  }

  /** Every step before `upTo` has a recorded form. */
  ghost predicate Recorded(forms: map<int, Form>, upTo: int) {
    forall s :: 0 <= s < upTo ==> s in forms
  }

  /** Each recorded form is valid for its step. */
  ghost predicate AllValid(forms: map<int, Form>) {
    forall s :: s in forms ==> IsStepValid(s, forms[s])
  }

  /** Recording a valid form for the next step to leave keeps the records complete and valid. */
  lemma RecordStep(forms: map<int, Form>, step: int, f: Form)
    requires Recorded(forms, step) && AllValid(forms) && IsStepValid(step, f)
    ensures Recorded(forms[step := f], step + 1) && AllValid(forms[step := f])
  {
  }

  /**
   * The screen's state: the step shown, the form, and the step a running fade-out
   * will commit. `animateStep` sets the new step only when its 150 ms fade-out ends,
   * so until then the old step stays shown and its inputs stay editable.
   */
  class OnboardingScreen {
    var currentStep: int
    var pendingStep: Option<int>
    var form: Form
    /** The form as it was when Continue was last accepted on each step. */
    ghost var leftWith: map<int, Form>

    /**
     * The step is one of the four and a fade-out can only be heading for the next
     * one. Every step already left, or being left, was valid when Continue was
     * pressed on it; the form may have been edited since, during the fade-out.
     */
    ghost predicate Valid()
      reads this
    {
      0 <= currentStep < StepCount &&
      (pendingStep.Some? ==> pendingStep.value == currentStep + 1 < StepCount) &&
      Recorded(leftWith, if pendingStep.Some? then currentStep + 1 else currentStep) &&
      AllValid(leftWith)
    }

    constructor ()
      ensures Valid()
      ensures currentStep == 0 && pendingStep == None && form == Form([], [], [], Female, [], [])
    {
      currentStep := 0;
      pendingStep := None;
      form := Form([], [], [], Female, [], []);
      leftWith := map[];
    }

    /** Typing into the basics step's inputs, which exist only while step 1 is shown. */
    method EditBasics(email: JsString, password: JsString, age: JsString, sex: Sex)
      modifies this
      requires Valid()
      ensures Valid()
      ensures currentStep == old(currentStep) && pendingStep == old(pendingStep) && leftWith == old(leftWith)
      ensures form == if currentStep == 1 then old(form).(email := email, password := password, age := age, sex := sex) else old(form)
    {
      if currentStep == 1 {
        form := form.(email := email, password := password, age := age, sex := sex);
      }
    }

    /** Typing into the body step's inputs, which exist only while step 2 is shown. */
    method EditBody(height: JsString, weight: JsString)
      modifies this
      requires Valid()
      ensures Valid()
      ensures currentStep == old(currentStep) && pendingStep == old(pendingStep) && leftWith == old(leftWith)
      ensures form == if currentStep == 2 then old(form).(height := height, weight := weight) else old(form)
    {
      if currentStep == 2 {
        form := form.(height := height, weight := weight);
      }
    }

    /**
     * `handleNext`: before the last step, `animateStep(currentStep + 1)` starts the
     * fade-out towards the next step; on the last step, start finishing instead.
     */
    method HandleNext() returns (finish: bool)
      modifies this
      requires Valid()
      requires IsStepValid(currentStep, form)
      ensures Valid()
      ensures form == old(form) && currentStep == old(currentStep)
      ensures old(currentStep) < StepCount - 1 ==>
                pendingStep == Some(old(currentStep) + 1) && leftWith == old(leftWith)[old(currentStep) := form] && !finish
      ensures old(currentStep) >= StepCount - 1 ==> pendingStep == old(pendingStep) && leftWith == old(leftWith) && finish
    {
      if currentStep < StepCount - 1 {
        RecordStep(leftWith, currentStep, form);
        pendingStep := Some(currentStep + 1);
        leftWith := leftWith[currentStep := form];
        finish := false;
      } else {
        finish := true;
      }
    }

    /** The end of the fade-out: its callback's `setCurrentStep(next)`. */
    method FadeOutDone()
      modifies this
      requires Valid()
      ensures Valid()
      ensures form == old(form) && leftWith == old(leftWith) && pendingStep == None
      ensures currentStep == if old(pendingStep).Some? then old(pendingStep).value else old(currentStep)
    {
      if pendingStep.Some? {
        currentStep := pendingStep.value;
        pendingStep := None;
      }
    }

    /**
     * The Continue button: disabled while loading or while the shown step is not
     * valid, otherwise `handleNext`. The step shown never changes here; pressing
     * again during a fade-out heads for the same step and does not finish.
     */
    method PressContinue(loading: bool) returns (finish: bool)
      modifies this
      requires Valid()
      ensures Valid()
      ensures form == old(form) && currentStep == old(currentStep)
      ensures loading || !IsStepValid(old(currentStep), form) ==>
                pendingStep == old(pendingStep) && leftWith == old(leftWith) && !finish
      ensures !loading && IsStepValid(old(currentStep), form) && old(currentStep) < StepCount - 1 ==>
                pendingStep == Some(old(currentStep) + 1) && leftWith == old(leftWith)[old(currentStep) := form] && !finish
      ensures finish <==> !loading && old(currentStep) == StepCount - 1
      ensures finish ==> IsStepValid(1, leftWith[1]) && IsStepValid(2, leftWith[2])
    {
      if loading || !IsStepValid(currentStep, form) {
        finish := false;
      } else {
        finish := HandleNext();
      }
    }
  }

  /**
   * Editing during the fade-out: the user leaves step 1 with valid basics, clears
   * the email while step 1 is still shown, and reaches step 2 with invalid basics.
   */
  method EmailClearedDuringFade() returns (screen: OnboardingScreen)
    ensures screen.Valid() && screen.currentStep == 2 && screen.pendingStep == None
    ensures IsStepValid(1, screen.leftWith[1]) && !IsStepValid(1, screen.form)
  {
    var email: JsString := [0x61];
    var password: JsString := [0x61, 0x61, 0x61, 0x61, 0x61, 0x61, 0x61, 0x61];
    var age: JsString := [0x33, 0x30];
    assert !IsSpace(email[0]) && !IsSpace(age[0]);
    screen := new OnboardingScreen();
    var finish := screen.PressContinue(false);
    screen.FadeOutDone();
    screen.EditBasics(email, password, age, Female);
    finish := screen.PressContinue(false);
    screen.EditBasics([], password, age, Female);
    screen.FadeOutDone();
  }

  /**
   * Like `password.length`, the password rule counts UTF-16 code units: four characters
   * above U+FFFF are eight code units and meet the 8-character minimum.
   */
  lemma AstralPasswordAccepted(email: JsString, age: JsString, sex: Sex, height: JsString, weight: JsString)
    requires HasVisible(email) && HasVisible(age)
    ensures |Utf16("\U{1F600}\U{1F600}\U{1F600}\U{1F600}")| == 8
    ensures IsStepValid(1, Form(email, Utf16("\U{1F600}\U{1F600}\U{1F600}\U{1F600}"), age, sex, height, weight))
  {
    var c := '\U{1F600}';
    assert Utf16([]) == [];
    Utf16Astral([], c);
    assert [] + [c] == [c];
    Utf16Astral([c], c);
    assert [c] + [c] == [c, c];
    Utf16Astral([c, c], c);
    assert [c, c] + [c] == [c, c, c];
    Utf16Astral([c, c, c], c);
    assert [c, c, c] + [c] == "\U{1F600}\U{1F600}\U{1F600}\U{1F600}";
  }

  // ---------------------------------------------------------------------------
  // Finishing
  // ---------------------------------------------------------------------------

  /** The sample metrics posted when Apple Health returns nothing. */
  const SeedMetrics: seq<HealthKitMetric> := [
    HealthKitMetric("autonomic", "resting_hr", 58.0, "bpm"),
    HealthKitMetric("autonomic", "hrv", 55.0, "ms"),
    HealthKitMetric("fitness", "vo2_max", 42.0, "ml/kg/min"),
    HealthKitMetric("sleep", "sleep_duration", 7.5, "hrs"),
    HealthKitMetric("sleep", "sleep_efficiency", 88.0, "%"),
    HealthKitMetric("mobility", "walking_speed", 1.35, "m/s")
  ]

  /** The sample metrics list every key a sync can report, once each and in the order a sync reports them. */
  lemma SeedMetricsInSyncOrder()
    ensures RankedWithin(SeedMetrics, 0, 6)
    ensures forall i :: 0 <= i < |SeedMetrics| ==> Rank(SeedMetrics[i].metricKey) == i
  {
    assert Rank(SeedMetrics[0].metricKey) == 0 && Rank(SeedMetrics[1].metricKey) == 1;
    assert Rank(SeedMetrics[2].metricKey) == 2 && Rank(SeedMetrics[3].metricKey) == 3;
    assert Rank(SeedMetrics[4].metricKey) == 4 && Rank(SeedMetrics[5].metricKey) == 5;
  }

  /** The metrics `handleFinishWithHealthKit` registers with: the synced ones, or the samples when there are none. */
  function MetricsToRegister(realMetrics: seq<HealthKitMetric>): (r: seq<HealthKitMetric>)
    ensures |r| > 0
    ensures |realMetrics| > 0 ==> r == realMetrics
    ensures realMetrics == [] ==> r == SeedMetrics
  {
    if |realMetrics| > 0 then realMetrics else SeedMetrics
  }

  /** `handleFinishWithHealthKit`, with the user accepting the sample data when nothing was synced. */
  method FinishWithHealthKit(moduleLoaded: bool, initialized: bool, a: Answers) returns (posted: seq<HealthKitMetric>)
    ensures posted == MetricsToRegister(Synced(moduleLoaded, initialized, a))
    ensures |posted| > 0 && RankedWithin(posted, 0, 6)
    ensures !moduleLoaded || !initialized ==> posted == SeedMetrics
  {
    var realMetrics, _ := SyncHealthData(moduleLoaded, initialized, a);
    SyncedOrder(moduleLoaded, initialized, a);
    SeedMetricsInSyncOrder();
    posted := MetricsToRegister(realMetrics);
  }

  // ---------------------------------------------------------------------------
  // Registration
  // ---------------------------------------------------------------------------

  /** What `registerAndPostMetrics` posts to the registration endpoint. */
  datatype Registration = Registration(
    email: JsString, password: JsString, age: int, sex: Sex,
    heightCm: real, weightKg: real, onboardingComplete: bool)

  /** `x || fallback` for the result of `parseFloat`, where `None` is `NaN`. */
  function NumberOr(parsed: Option<real>, fallback: real): (r: real)
    ensures parsed.Some? && parsed.value != 0.0 ==> r == parsed.value
    ensures parsed.None? || parsed.value == 0.0 ==> r == fallback
  {
    match parsed
    case Some(x) => if x != 0.0 then x else fallback
    case None => fallback
  }

  /** `x || fallback` for the result of `parseInt`, where `None` is `NaN`. */
  function IntOr(parsed: Option<int>, fallback: int): (r: int)
    ensures parsed.Some? && parsed.value != 0 ==> r == parsed.value
    ensures parsed.None? || parsed.value == 0 ==> r == fallback
  {
    match parsed
    case Some(x) => if x != 0 then x else fallback
    case None => fallback
  }

  /** `email.trim().toLowerCase()`. */
  function NormalizedEmail(email: JsString): JsString {
    ToLower(Trim(email))
  }

  /**
   * The registration body. `parsedHeight`, `parsedWeight` and `parsedAge` are what
   * `parseFloat(height)`, `parseFloat(weight)` and `parseInt(age)` return.
   */
  function RegistrationOf(f: Form, parsedHeight: Option<real>, parsedWeight: Option<real>, parsedAge: Option<int>): (r: Registration)
    ensures r.heightCm != 0.0 && r.weightKg != 0.0 && r.age != 0
    ensures r.onboardingComplete
  {
    Registration(
      NormalizedEmail(f.email), f.password, IntOr(parsedAge, 30), f.sex,
      NumberOr(parsedHeight, 170.0), NumberOr(parsedWeight, 65.0), true)
  }

  /** The posted height, weight and age are the parsed numbers, except that an unparsable or zero entry becomes 170 cm, 65 kg or 30 years; so none is ever zero. */
  lemma RegistrationDefaults(f: Form, parsedHeight: Option<real>, parsedWeight: Option<real>, parsedAge: Option<int>)
    ensures var r := RegistrationOf(f, parsedHeight, parsedWeight, parsedAge);
            r.heightCm != 0.0 && r.weightKg != 0.0 && r.age != 0 && r.onboardingComplete &&
            (parsedHeight.None? || parsedHeight.value == 0.0 ==> r.heightCm == 170.0) &&
            (parsedWeight.None? || parsedWeight.value == 0.0 ==> r.weightKg == 65.0) &&
            (parsedAge.None? || parsedAge.value == 0 ==> r.age == 30) &&
            (parsedHeight.Some? && parsedHeight.value != 0.0 ==> r.heightCm == parsedHeight.value) &&
            (parsedWeight.Some? && parsedWeight.value != 0.0 ==> r.weightKg == parsedWeight.value) &&
            (parsedAge.Some? && parsedAge.value != 0 ==> r.age == parsedAge.value) &&
            r.password == f.password && r.sex == f.sex
  {
  }

  /** The posted email has no surrounding white space and no capitals, and normalizing it again changes nothing. */
  lemma EmailNormalized(email: JsString)
    ensures var e := NormalizedEmail(email);
            NormalizedEmail(e) == e && Trim(e) == e &&
            forall i :: 0 <= i < |e| ==> !IsUpper(e[i])
  {
    var t := Trim(email);
    TrimToLower(t);
    TrimIdempotent(email);
    ToLowerIdempotent(t);
  }

  /** After a valid basics step the posted email is non-empty and the password has at least 8 code units. */
  lemma ValidBasicsRegistration(f: Form, parsedHeight: Option<real>, parsedWeight: Option<real>, parsedAge: Option<int>)
    requires IsStepValid(1, f)
    ensures RegistrationOf(f, parsedHeight, parsedWeight, parsedAge).email != []
    ensures |RegistrationOf(f, parsedHeight, parsedWeight, parsedAge).password| >= 8
  {
    TrimEmpty(f.email);
  }
}
