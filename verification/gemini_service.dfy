/**
 * services/geminiService.ts: the bounded retry loop around every AI call and
 * the repair of the AI's untrusted text into typed records.  The AI call is
 * not modelled: its outcome on each attempt is an input, a function from the
 * attempt number (0, 1, 2) to the reply text or what the call threw.
 */
module GeminiService {
  import opened Results
  import opened JsRuntime
  import opened Constants
  import opened Types

  // ================================================================ withRetries

  const MaxRetries: nat := 2
  const RetryDelayMs: nat := 1000

  /** What one call of the retried operation does: returns a value or throws. */
  datatype Attempt<T> = Returned(value: T) | Threw(thrown: Thrown)

  /** The message of the error thrown once every attempt has failed. */
  function RetryFailureMessage(operationName: string, last: Thrown): string {
    match last
    case ErrorObject(message) =>
      "AI operation '" + operationName + "' failed after multiple retries: " + message
    case NonErrorValue =>
      "AI operation '" + operationName + "' failed after multiple retries with an unknown error type."
  }

  /**
   * The outcome of the retry loop from attempt k on: the first attempt that
   * returns gives its value; when attempt MaxRetries throws too, the wrapped
   * error of that last attempt.
   */
  function Retried<T>(operation: nat -> Attempt<T>, operationName: string, k: nat): Result<T, string>
    requires k <= MaxRetries
    decreases MaxRetries - k
  {
    match operation(k)
    case Returned(v) => Success(v)
    case Threw(e) =>
      if k == MaxRetries then Failure(RetryFailureMessage(operationName, e))
      else Retried(operation, operationName, k + 1)
  }

  /**
   * withRetries: call `operation` (attempt k is `operation(k)`) until it
   * returns, at most MaxRetries + 1 times, waiting RetryDelayMs between two
   * attempts.  `calls` is the number of attempts made and `waitedMs` the
   * total delay; the Failure carries the wrapped error's message.
   */
  method WithRetries<T>(operation: nat -> Attempt<T>, operationName: string)
    returns (r: Result<T, string>, calls: nat, waitedMs: nat)
    ensures r == Retried(operation, operationName, 0)
    ensures 1 <= calls <= MaxRetries + 1
    ensures forall k :: 0 <= k < calls - 1 ==> operation(k).Threw?
    ensures waitedMs == (calls - 1) * RetryDelayMs
    ensures r.Success? ==> operation(calls - 1) == Returned(r.value)
    ensures r.Failure? ==> calls == MaxRetries + 1 && operation(calls - 1).Threw?
                           && r.error == RetryFailureMessage(operationName, operation(calls - 1).thrown)
  {
    var attempts: nat := 0;   // failed attempts so far
    waitedMs := 0;
    while true
      invariant attempts <= MaxRetries
      invariant forall k :: 0 <= k < attempts ==> operation(k).Threw?
      invariant waitedMs == attempts * RetryDelayMs
      invariant Retried(operation, operationName, 0) == Retried(operation, operationName, attempts)
      decreases MaxRetries - attempts
    {
      match operation(attempts)
      case Returned(v) =>
        return Success(v), attempts + 1, waitedMs;
      case Threw(e) =>
        attempts := attempts + 1;
        if attempts > MaxRetries {
          return Failure(RetryFailureMessage(operationName, e)), attempts, waitedMs;
        }
        waitedMs := waitedMs + RetryDelayMs;
    }
  }

  // ================================================================ parseJsonFromGeminiResponse

  const Fence: string := "```"
  const PreviewLength: nat := 200

  /** \w of a regular expression. */
  predicate IsWordChar(c: char) {
    ('a' <= c <= 'z') || ('A' <= c <= 'Z') || ('0' <= c <= '9') || c == '_'
  }

  function SkipWordChars(s: string): (r: string)
    ensures |r| <= |s| && r == s[|s| - |r|..]
    ensures r == [] || !IsWordChar(r[0])
  {
    if s != [] && IsWordChar(s[0]) then SkipWordChars(s[1..]) else s
  }

  /** A text is fenced when it opens and closes with ``` (at least six characters). */
  predicate IsFenced(t: string) {
    |t| >= 6 && t[..3] == Fence && t[|t| - 3..] == Fence
  }

  /**
   * Capture group 2 of /^```(\w*)?\s*\n?(.*?)\n?\s*```$/s applied to a text:
   * the pattern matches exactly when the text opens and closes with a fence
   * that do not overlap; the greedy tag takes every word character after the
   * opening fence, the greedy \s* the white space after it, and the lazy body
   * leaves every trailing white-space character to the closing \n?\s*.
   */
  function FenceBody(t: string): Option<string> {
    if IsFenced(t) then
      Some(Trim(SkipWordChars(t[3..|t| - 3])))
    else None
  }

  /** The text handed to JSON.parse: the trimmed fence body if it is non-empty, else the trimmed reply. */
  function JsonPayload(text: string): string {
    var t := Trim(text);
    match FenceBody(t)
    case Some(body) => if body != "" then Trim(body) else t
    case None => t
  }

  /** `text.substring(0, 200)`. */
  function Preview(text: string): (p: string)
    ensures |p| <= PreviewLength && |p| <= |text| && p == text[..|p|]
    ensures |text| <= PreviewLength ==> p == text
  {
    if |text| <= PreviewLength then text else text[..PreviewLength]
  }

  function ParseFailure(text: string): Thrown {
    ErrorObject("Failed to parse JSON response from AI. Preview: \"" + Preview(text) + "...\"")
  }

  /** parseJsonFromGeminiResponse: JSON.parse of the payload, or the error carrying the preview of the raw text. */
  function ParseJsonFromGeminiResponse(text: string, jsonParse: string -> Option<Json>): (r: Result<Json, Thrown>)
    ensures r.Success? <==> jsonParse(JsonPayload(text)).Some?
    ensures r.Success? ==> r.value == jsonParse(JsonPayload(text)).value
    ensures r.Failure? ==> r.error == ParseFailure(text)
  {
    match jsonParse(JsonPayload(text))
    case Some(v) => Success(v)
    case None => Failure(ParseFailure(text))
  }

  function LinePadded(body: string): string {
    "\n" + body + "\n"
  }

  /** A reply fenced the way the prompts ask for: ```tag, a line break, the body, a line break, ```. */
  function Fenced(tag: string, body: string): string {
    Fence + (tag + LinePadded(body)) + Fence
  }

  lemma {:induction false} SkipWordCharsAfterTag(tag: string, rest: string)
    requires forall i :: 0 <= i < |tag| ==> IsWordChar(tag[i])
    requires rest != [] && !IsWordChar(rest[0])
    ensures SkipWordChars(tag + rest) == rest
  {
    if tag != [] {
      assert (tag + rest)[1..] == tag[1..] + rest;
      SkipWordCharsAfterTag(tag[1..], rest);
    }
  }

  /** The payload of a reply that needs no trimming. */
  lemma PayloadOfTrimmed(t: string)
    requires IsTrimmed(t)
    ensures FenceBody(t).Some? && FenceBody(t).value != "" ==> JsonPayload(t) == Trim(FenceBody(t).value)
    ensures FenceBody(t).None? || FenceBody(t).value == "" ==> JsonPayload(t) == t
  {
    TrimIdentity(t);
  }

  lemma TrimStartLinePadded(body: string)
    requires body != [] && IsTrimmed(body)
    ensures TrimStart(LinePadded(body)) == body + "\n"
  {
    var padded := LinePadded(body);
    assert padded[1..] == body + "\n";
    assert (body + "\n")[0] == body[0];
    TrimStartOfUnpadded(body + "\n");
  }

  lemma TrimEndLineEnded(body: string)
    requires body != [] && IsTrimmed(body)
    ensures TrimEnd(body + "\n") == body
  {
    assert (body + "\n")[..|body|] == body;
    TrimEndOfUnpadded(body);
  }

  lemma TrimLinePadded(body: string)
    requires body != [] && IsTrimmed(body)
    ensures Trim(LinePadded(body)) == body
  {
    TrimStartLinePadded(body);
    TrimEndLineEnded(body);
  }

  /** Text between two fences loses its leading word characters (the tag) and its surrounding white space. */
  lemma FenceBodyOfWrapped(inner: string)
    ensures FenceBody(Fence + inner + Fence) == Some(Trim(SkipWordChars(inner)))
  {
    var t := Fence + inner + Fence;
    assert t[..3] == Fence;
    assert t[|t| - 3..] == Fence;
    assert t[3..|t| - 3] == inner;
  }

  lemma FenceBodyOfFenced(tag: string, body: string)
    requires forall i :: 0 <= i < |tag| ==> IsWordChar(tag[i])
    requires body != [] && IsTrimmed(body)
    ensures FenceBody(Fenced(tag, body)) == Some(body)
  {
    assert LinePadded(body)[0] == '\n';
    SkipWordCharsAfterTag(tag, LinePadded(body));
    TrimLinePadded(body);
    FenceBodyOfWrapped(tag + LinePadded(body));
  }

  lemma FencedIsTrimmed(tag: string, body: string)
    ensures IsTrimmed(Fenced(tag, body))
  {
    var t := Fenced(tag, body);
    assert t[0] == '`' && t[|t| - 1] == '`';
  }

  /** The payload of a fenced reply is its body. */
  lemma FencedPayload(tag: string, body: string)
    requires forall i :: 0 <= i < |tag| ==> IsWordChar(tag[i])
    requires body != [] && IsTrimmed(body)
    ensures JsonPayload(Fenced(tag, body)) == body
  {
    FencedIsTrimmed(tag, body);
    FenceBodyOfFenced(tag, body);
    PayloadOfTrimmed(Fenced(tag, body));
    TrimIdentity(body);
  }

  /** The payload of a trimmed, unfenced reply is the reply itself. */
  lemma UnfencedPayload(body: string)
    requires IsTrimmed(body) && !IsFenced(body)
    ensures JsonPayload(body) == body
  {
    PayloadOfTrimmed(body);
  }

  /**
   * A reply written as a fence with a word-character language tag (possibly
   * empty) on its own line around a trimmed, non-empty body is parsed as the
   * body alone; when the body is not itself fenced, that is exactly how the
   * bare body is parsed.
   */
  lemma FencedReplyParsesAsBody(tag: string, body: string, jsonParse: string -> Option<Json>)
    requires forall i :: 0 <= i < |tag| ==> IsWordChar(tag[i])
    requires body != [] && IsTrimmed(body)
    ensures JsonPayload(Fenced(tag, body)) == body
    ensures !IsFenced(body) ==> JsonPayload(body) == body
    ensures !IsFenced(body) ==>
              (ParseJsonFromGeminiResponse(Fenced(tag, body), jsonParse).Success?
               <==> ParseJsonFromGeminiResponse(body, jsonParse).Success?)
    ensures !IsFenced(body) && ParseJsonFromGeminiResponse(body, jsonParse).Success? ==>
              ParseJsonFromGeminiResponse(Fenced(tag, body), jsonParse).value
              == ParseJsonFromGeminiResponse(body, jsonParse).value
  {
    FencedPayload(tag, body);
    if !IsFenced(body) {
      UnfencedPayload(body);
    }
  }

  lemma {:induction false} SkipAllWordChars(w: string)
    requires forall i :: 0 <= i < |w| ==> IsWordChar(w[i])
    ensures SkipWordChars(w) == []
  {
    if w != [] {
      SkipAllWordChars(w[1..]);
    }
  }

  lemma FenceBodyOfWord(w: string)
    requires forall i :: 0 <= i < |w| ==> IsWordChar(w[i])
    ensures FenceBody(Fence + w + Fence) == Some([])
  {
    var t := Fence + w + Fence;
    assert t[..3] == Fence;
    assert t[|t| - 3..] == Fence;
    assert t[3..|w| + 3] == w;
    SkipAllWordChars(w);
    assert Trim([]) == [];
  }

  /**
   * An untagged fence around word characters on the same line is not
   * unwrapped: the word characters are taken as the language tag, the body
   * is empty, and the whole trimmed reply (e.g. "```42```") is parsed.
   */
  lemma WordOnlyFenceIsNotUnwrapped(w: string)
    requires forall i :: 0 <= i < |w| ==> IsWordChar(w[i])
    ensures JsonPayload(Fence + w + Fence) == Fence + w + Fence
  {
    var t := Fence + w + Fence;
    assert IsTrimmed(t) by {
      assert t[0] == '`' && t[|t| - 1] == '`';
    }
    FenceBodyOfWord(w);
    PayloadOfTrimmed(t);
  }

  /** A reply that does not open with a fence is parsed trimmed and otherwise as it is. */
  lemma UnfencedReplyParsedTrimmed(text: string)
    requires |Trim(text)| < 3 || Trim(text)[..3] != Fence
    ensures JsonPayload(text) == Trim(text)
  {
  }

  // ================================================================ safeParseFloat

  /**
   * safeParseFloat: the default for undefined, null and blank text;
   * otherwise parseFloat of String(value) trimmed, the default if that is NaN.
   * A number is its own value (parseFloat(String(n)) is n for every finite n).
   */
  function SafeParseFloat(value: Option<Json>, default: real, numberText: real -> string): (r: real)
    ensures value.None? || value == Some(JNull) ==> r == default
    ensures value.Some? && value.value.JNum? ==> r == value.value.n
    ensures value.Some? && value.value.JStr? && Trim(value.value.s) == "" ==> r == default
    ensures value.Some? && value.value.JStr? && Trim(value.value.s) != "" ==> r == ParseFloat(Trim(value.value.s)).GetOr(default)
    ensures r != default ==> value.Some? && !value.value.JNull?
  {
    match value
    case None => default
    case Some(JNull) => default
    case Some(JNum(n)) => n
    case Some(v) =>
      var text := Trim(ToJsString(v, numberText));
      if text == "" then default else ParseFloat(text).GetOr(default)
  }

  lemma SafeParseFloatOfTrimmed(s: string, x: real, default: real, numberText: real -> string)
    requires s != [] && IsTrimmed(s) && ParseFloat(s) == Some(x)
    ensures SafeParseFloat(Some(JStr(s)), default, numberText) == x
  {
    TrimIdentity(s);
  }

  /** A decimal numeral in a string is read exactly. */
  lemma SafeParseFloatReadsDecimal(whole: string, frac: string, default: real, numberText: real -> string)
    requires whole != [] && forall i :: 0 <= i < |whole| ==> IsDigit(whole[i])
    requires forall i :: 0 <= i < |frac| ==> IsDigit(frac[i])
    ensures SafeParseFloat(Some(JStr(whole + "." + frac)), default, numberText) == DecimalValue(whole, frac)
  {
    var s := whole + "." + frac;
    assert IsTrimmed(s) by {
      assert s[0] == whole[0];
      assert s[|s| - 1] == if frac == [] then '.' else frac[|frac| - 1];
    }
    ParseFloatOfDecimal(whole, frac);
    SafeParseFloatOfTrimmed(s, DecimalValue(whole, frac), default, numberText);
  }

  /** Blank text, and text that opens with no sign, digit or point (such as "abc"), give the default. */
  lemma SafeParseFloatDefaultsOnNonNumeral(s: string, default: real, numberText: real -> string)
    requires var t := Trim(s); t == [] || (!IsDigit(t[0]) && t[0] != '+' && t[0] != '-' && t[0] != '.')
    ensures SafeParseFloat(Some(JStr(s)), default, numberText) == default
  {
    var t := Trim(s);
    if t != [] {
      TrimStartOfUnpadded(t);
      ParseFloatOfNonNumeral(t);
    }
  }

  // ================================================================ analyzeReceipt

  const MissingFieldsMessage: string :=
    "AI response missing one or more critical fields: totalAmount, vendorName, or transactionDate."
  /** The TypeError raised when `parsed.items` is truthy but not an array (V8 wording). */
  const ItemsNotArrayMessage: string := "(parsed.items || []).map is not a function"
  const UnknownItem: string := "Unknown Item"
  const UnknownVendor: string := "Unknown Vendor"
  const DefaultCurrency: string := "EUR"

  /** `String(p || fallback)`. */
  function TextOr(p: Option<Json>, fallback: string, numberText: real -> string): string {
    if Truthy(p) then ToJsString(p.value, numberText) else fallback
  }

  /** `p !== undefined ? safeParseFloat(p) : undefined`. */
  function OptionalAmount(p: Option<Json>, numberText: real -> string): Option<real> {
    if p.Some? then Some(SafeParseFloat(p, 0.0, numberText)) else None
  }

  /** One line item of the reply rebuilt with its defaults; a null entry throws. */
  function ItemFromJson(item: Json, numberText: real -> string): Result<ReceiptItem, Thrown> {
    if item.JNull? then Failure(NullRead("description"))
    else Success(ReceiptItem(
      TextOr(Field(item, "description"), UnknownItem, numberText),
      SafeParseFloat(Field(item, "quantity"), 1.0, numberText),
      OptionalAmount(Field(item, "unitPrice"), numberText),
      SafeParseFloat(Field(item, "totalPrice"), 0.0, numberText)))
  }

  /** The three fields without which the reply is rejected are all truthy. */
  predicate HasRequiredFields(parsed: Json) {
    Truthy(Field(parsed, "totalAmount")) && Truthy(Field(parsed, "vendorName"))
    && Truthy(Field(parsed, "transactionDate"))
  }

  /** The reply's `items` entries, or none when the field is falsy. */
  function ItemEntries(parsed: Json): seq<Json> {
    var p := Field(parsed, "items");
    if Truthy(p) && p.value.JArr? then p.value.elems else []
  }

  /** `items` is falsy, or an array without null entries. */
  predicate ItemsUsable(parsed: Json) {
    var p := Field(parsed, "items");
    !Truthy(p) || (p.value.JArr? && forall i :: 0 <= i < |p.value.elems| ==> !p.value.elems[i].JNull?)
  }

  /**
   * A rebuilt line item against its entry in the reply: the text of a truthy
   * description, else the default; the coerced quantity (default 1) and
   * total price (default 0); the coerced unit price exactly when one is given.
   */
  predicate ItemRepaired(src: Json, item: ReceiptItem, numberText: real -> string) {
    && (Truthy(Field(src, "description")) ==> item.description == ToJsString(Field(src, "description").value, numberText))
    && (!Truthy(Field(src, "description")) ==> item.description == UnknownItem)
    && item.quantity == SafeParseFloat(Field(src, "quantity"), 1.0, numberText)
    && ((Field(src, "quantity").None? || Field(src, "quantity") == Some(JNull)) ==> item.quantity == 1.0)
    && item.totalPrice == SafeParseFloat(Field(src, "totalPrice"), 0.0, numberText)
    && ((Field(src, "totalPrice").None? || Field(src, "totalPrice") == Some(JNull)) ==> item.totalPrice == 0.0)
    && (item.unitPrice.None? <==> Field(src, "unitPrice").None?)
    && (Field(src, "unitPrice").Some? ==> item.unitPrice == Some(SafeParseFloat(Field(src, "unitPrice"), 0.0, numberText)))
  }

  /**
   * The post-call logic of analyzeReceipt on the parsed reply: reading a
   * field of null throws; a falsy totalAmount, vendorName or transactionDate
   * throws; otherwise the receipt is rebuilt with every default applied.
   */
  function ReceiptFromJson(parsed: Json, numberText: real -> string): Result<ReceiptData, Thrown>
  {
    if parsed.JNull? then Failure(NullRead("totalAmount"))
    else if !HasRequiredFields(parsed) then Failure(ErrorObject(MissingFieldsMessage))
    else
      var itemsField := Field(parsed, "items");
      var items :=
        if !Truthy(itemsField) then Success([])
        else if itemsField.value.JArr? then MapOrThrow(itemsField.value.elems, (x: Json) => ItemFromJson(x, numberText))
        else Failure(ErrorObject(ItemsNotArrayMessage));
      match items
      case Failure(e) => Failure(e)
      case Success(rebuilt) =>
        var pm := Field(parsed, "paymentMethod");
        Success(ReceiptData(
          TextOr(Field(parsed, "vendorName"), UnknownVendor, numberText),
          ToJsString(Field(parsed, "transactionDate").value, numberText),
          rebuilt,
          OptionalAmount(Field(parsed, "subtotal"), numberText),
          OptionalAmount(Field(parsed, "taxAmount"), numberText),
          SafeParseFloat(Field(parsed, "totalAmount"), 0.0, numberText),
          TextOr(Field(parsed, "currency"), DefaultCurrency, numberText),
          if Truthy(pm) then Some(ToJsString(pm.value, numberText)) else None))
  }

  /**
   * What analyzeReceipt promises of a parsed reply: the null and missing-field
   * errors, success exactly when the items are usable, and the defaults of the
   * rebuilt receipt and of each rebuilt line item.
   */
  lemma ReceiptFromJsonSpec(parsed: Json, numberText: real -> string)
    ensures var r := ReceiptFromJson(parsed, numberText);
      && (parsed.JNull? ==> r == Failure(NullRead("totalAmount")))
      && (!parsed.JNull? && !HasRequiredFields(parsed) ==> r == Failure(ErrorObject(MissingFieldsMessage)))
      && (r.Success? <==> !parsed.JNull? && HasRequiredFields(parsed) && ItemsUsable(parsed))
    ensures var r := ReceiptFromJson(parsed, numberText);
      r.Success? ==>
        && |r.value.items| == |ItemEntries(parsed)|
        && (forall i :: 0 <= i < |r.value.items| ==> ItemRepaired(ItemEntries(parsed)[i], r.value.items[i], numberText))
        && r.value.totalAmount == SafeParseFloat(Field(parsed, "totalAmount"), 0.0, numberText)
        && r.value.vendorName == ToJsString(Field(parsed, "vendorName").value, numberText)
        && r.value.transactionDate == ToJsString(Field(parsed, "transactionDate").value, numberText)
    ensures var r := ReceiptFromJson(parsed, numberText);
      r.Success? ==>
        && (r.value.subtotal.None? <==> Field(parsed, "subtotal").None?)
        && (Field(parsed, "subtotal").Some? ==>
              r.value.subtotal == Some(SafeParseFloat(Field(parsed, "subtotal"), 0.0, numberText)))
        && (r.value.taxAmount.None? <==> Field(parsed, "taxAmount").None?)
        && (Field(parsed, "taxAmount").Some? ==>
              r.value.taxAmount == Some(SafeParseFloat(Field(parsed, "taxAmount"), 0.0, numberText)))
        && (Truthy(Field(parsed, "currency")) ==> r.value.currency == ToJsString(Field(parsed, "currency").value, numberText))
        && (!Truthy(Field(parsed, "currency")) ==> r.value.currency == DefaultCurrency)
        && (r.value.paymentMethod.Some? <==> Truthy(Field(parsed, "paymentMethod")))
        && (Truthy(Field(parsed, "paymentMethod")) ==>
              r.value.paymentMethod == Some(ToJsString(Field(parsed, "paymentMethod").value, numberText)))
  {
  }

  /** One attempt of analyzeReceipt: the AI call, then parsing and checking; any throw fails the attempt. */
  function ReceiptAttempt(reply: Result<string, Thrown>, lib: JsLib): Attempt<ReceiptData> {
    match reply
    case Failure(e) => Threw(e)
    case Success(text) =>
      match ParseJsonFromGeminiResponse(text, lib.jsonParse)
      case Failure(e) => Threw(e)
      case Success(parsed) =>
        match ReceiptFromJson(parsed, lib.numberText)
        case Failure(e) => Threw(e)
        case Success(receipt) => Returned(receipt)
  }

  const AnalyzeReceiptName: string := "Analyze Receipt OCR & Parse"

  /** The reply parses to a non-null value that lacks a required field. */
  predicate MissesRequiredFields(reply: Result<string, Thrown>, jsonParse: string -> Option<Json>) {
    && reply.Success?
    && jsonParse(JsonPayload(reply.value)).Some?
    && !jsonParse(JsonPayload(reply.value)).value.JNull?
    && !HasRequiredFields(jsonParse(JsonPayload(reply.value)).value)
  }

  lemma MissingFieldsAttemptThrows(reply: Result<string, Thrown>, lib: JsLib)
    requires MissesRequiredFields(reply, lib.jsonParse)
    ensures ReceiptAttempt(reply, lib) == Threw(ErrorObject(MissingFieldsMessage))
  {
    var parsed := ParseJsonFromGeminiResponse(reply.value, lib.jsonParse);
    assert parsed.Success? && !parsed.value.JNull? && !HasRequiredFields(parsed.value);
    ReceiptFromJsonSpec(parsed.value, lib.numberText);
  }

  /** The attempts of analyzeReceipt, one per AI reply. */
  function ReceiptAttempts(reply: nat -> Result<string, Thrown>, lib: JsLib): nat -> Attempt<ReceiptData> {
    (k: nat) => ReceiptAttempt(reply(k), lib)
  }

  lemma ReceiptAttemptsAt(reply: nat -> Result<string, Thrown>, lib: JsLib, k: nat)
    ensures ReceiptAttempts(reply, lib)(k) == ReceiptAttempt(reply(k), lib)
  {
  }

  /**
   * analyzeReceipt: the whole attempt, the field check included, is retried;
   * so a reply missing a required field on every attempt ends, after three
   * attempts, in the wrapped error naming that check.
   */
  method AnalyzeReceipt(reply: nat -> Result<string, Thrown>, lib: JsLib)
    returns (r: Result<ReceiptData, string>, calls: nat)
    ensures 1 <= calls <= MaxRetries + 1
    ensures forall k :: 0 <= k < calls - 1 ==> ReceiptAttempts(reply, lib)(k).Threw?
    ensures r.Success? ==> ReceiptAttempts(reply, lib)(calls - 1) == Returned(r.value)
    ensures r == Retried(ReceiptAttempts(reply, lib), AnalyzeReceiptName, 0)
    ensures r.Failure? ==> calls == MaxRetries + 1 && ReceiptAttempts(reply, lib)(calls - 1).Threw?
    ensures r.Failure? ==> r.error == RetryFailureMessage(AnalyzeReceiptName, ReceiptAttempts(reply, lib)(calls - 1).thrown)
    ensures (forall k :: 0 <= k <= MaxRetries ==> MissesRequiredFields(reply(k), lib.jsonParse))
            ==> r == Failure(RetryFailureMessage(AnalyzeReceiptName, ErrorObject(MissingFieldsMessage)))
  {
    var waited;
    r, calls, waited := WithRetries(ReceiptAttempts(reply, lib), AnalyzeReceiptName);
    if forall k :: 0 <= k <= MaxRetries ==> MissesRequiredFields(reply(k), lib.jsonParse) {
      AllAttemptsMissFields(reply, lib, calls - 1);
    }
  }

  /** When every reply misses a required field, every attempt throws the missing-fields error. */
  lemma AllAttemptsMissFields(reply: nat -> Result<string, Thrown>, lib: JsLib, k: nat)
    requires forall j :: 0 <= j <= MaxRetries ==> MissesRequiredFields(reply(j), lib.jsonParse)
    requires k <= MaxRetries
    ensures ReceiptAttempts(reply, lib)(k) == Threw(ErrorObject(MissingFieldsMessage))
  {
    MissingFieldsAttemptThrows(reply(k), lib);
    ReceiptAttemptsAt(reply, lib, k);
  }

  // ================================================================ classifyExpense

  /**
   * The category normalisation of classifyExpense: the trimmed reply if it is
   * a category, else the first category equal to it ignoring case, else Other.
   */
  function NormalizeCategory(reply: string): (c: string)
    ensures IsCategory(c)
  {
    CategoriesWellFormed();
    var category := Trim(reply);
    if IsCategory(category) then category
    else
      match FindLowerCase(DefaultCategories, ToLower(category))
      case Some(m) => m
      case None => OtherCategory
  }

  /**
   * The result is the trimmed reply when that is a category, a category equal
   * to it up to case when there is one, and Other only when there is none.
   */
  lemma NormalizeCategorySpec(reply: string)
    ensures IsCategory(Trim(reply)) ==> NormalizeCategory(reply) == Trim(reply)
    ensures (exists d :: d in DefaultCategories && ToLower(d) == ToLower(Trim(reply)))
            ==> ToLower(NormalizeCategory(reply)) == ToLower(Trim(reply))
    ensures (forall d :: d in DefaultCategories ==> ToLower(d) != ToLower(Trim(reply)))
            ==> NormalizeCategory(reply) == OtherCategory
  {
  }

  /** Normalising a category again changes nothing. */
  lemma NormalizeCategoryIdempotent(reply: string)
    ensures NormalizeCategory(NormalizeCategory(reply)) == NormalizeCategory(reply)
  {
    var c := NormalizeCategory(reply);
    CategoriesWellFormed();
    TrimIdentity(c);
    NormalizeCategorySpec(c);
  }

  /** A reply equal to a category up to case and surrounding white space is that category. */
  lemma NormalizeIgnoresCase(reply: string, d: string)
    requires d in DefaultCategories && ToLower(Trim(reply)) == ToLower(d)
    ensures NormalizeCategory(reply) == d
  {
    var c := NormalizeCategory(reply);
    NormalizeCategorySpec(reply);
    assert d in DefaultCategories && ToLower(d) == ToLower(Trim(reply));
    CategoryByLowerCase(c, d);
  }

  function ClassifyAttempt(reply: Result<string, Thrown>): Attempt<string> {
    match reply
    case Failure(e) => Threw(e)
    case Success(text) => Returned(NormalizeCategory(text))
  }

  /** The attempts of classifyExpense, one per AI reply. */
  function ClassifyAttempts(reply: nat -> Result<string, Thrown>): nat -> Attempt<string> {
    (k: nat) => ClassifyAttempt(reply(k))
  }

  lemma ClassifyAttemptsAt(reply: nat -> Result<string, Thrown>, k: nat)
    ensures ClassifyAttempts(reply)(k) == ClassifyAttempt(reply(k))
  {
  }

  const ClassifyName: string := "Classify Expense Category"

  /**
   * classifyExpense: once a call succeeds the result is a category; only three
   * failed calls surface an error.
   */
  method ClassifyExpense(reply: nat -> Result<string, Thrown>)
    returns (r: Result<string, string>, calls: nat)
    ensures r == Retried(ClassifyAttempts(reply), ClassifyName, 0)
    ensures 1 <= calls <= MaxRetries + 1
    ensures forall k :: 0 <= k < calls - 1 ==> reply(k).Failure?
    ensures r.Success? ==> IsCategory(r.value)
    ensures r.Success? ==> reply(calls - 1).Success? && r.value == NormalizeCategory(reply(calls - 1).value)
    ensures r.Failure? <==> forall k :: 0 <= k <= MaxRetries ==> reply(k).Failure?
    ensures r.Failure? ==> calls == MaxRetries + 1
                           && r.error == RetryFailureMessage(ClassifyName, reply(MaxRetries).error)
  {
    var waited;
    r, calls, waited := WithRetries(ClassifyAttempts(reply), ClassifyName);
    ClassifyAttemptsAt(reply, calls - 1);
    EarlierClassifyCallsFailed(reply, calls - 1);
    if r.Failure? {
      AllClassifyCallsThrew(reply);
    } else {
      assert reply(calls - 1).Success?;
    }
  }

  /** Attempts that threw are calls that failed. */
  lemma EarlierClassifyCallsFailed(reply: nat -> Result<string, Thrown>, n: nat)
    requires forall k :: 0 <= k < n ==> ClassifyAttempts(reply)(k).Threw?
    ensures forall k :: 0 <= k < n ==> reply(k).Failure?
  {
    forall k | 0 <= k < n
      ensures reply(k).Failure?
    {
      ClassifyAttemptsAt(reply, k);
    }
  }

  /** Three throwing attempts are three throwing calls. */
  lemma AllClassifyCallsThrew(reply: nat -> Result<string, Thrown>)
    requires forall k :: 0 <= k < MaxRetries ==> ClassifyAttempts(reply)(k).Threw?
    requires ClassifyAttempts(reply)(MaxRetries).Threw?
    ensures forall k :: 0 <= k <= MaxRetries ==> reply(k).Failure?
  {
    ClassifyAttemptsAt(reply, 0);
    ClassifyAttemptsAt(reply, 1);
    ClassifyAttemptsAt(reply, 2);
  }

  // ================================================================ getSavingsInsights

  const InvalidInsightsMessage: string := "AI returned an invalid or incomplete structure for savings insights."
  const NoObservation: string := "No specific observation provided."
  const NoSuggestion: string := "No specific suggestion provided."
  const NoSaving: string := "Not specified."
  const NoSummary: string := "No overall summary provided by AI."
  const MaxInsights: nat := 4
  const MaxPromptExpenses: nat := 50

  /** What the prompt carries: the first expenses, and how many more there were. */
  datatype InsightRequest = InsightRequest(shown: seq<CategorizedExpense>, notShown: nat)

  function InsightRequestFor(expenses: seq<CategorizedExpense>): (req: InsightRequest)
    ensures |req.shown| <= MaxPromptExpenses && |req.shown| <= |expenses|
    ensures req.shown == expenses[..|req.shown|]
    ensures |req.shown| + req.notShown == |expenses|
    ensures req.notShown > 0 ==> |req.shown| == MaxPromptExpenses
  {
    if |expenses| <= MaxPromptExpenses then InsightRequest(expenses, 0)
    else InsightRequest(expenses[..MaxPromptExpenses], |expenses| - MaxPromptExpenses)
  }

  /** One insight entry: the category kept only on an exact match, the text fields defaulted. */
  function InsightItemFromJson(item: Json, numberText: real -> string): (r: Result<SavingsInsightItem, Thrown>)
    ensures r.Success? <==> !item.JNull?
    ensures r.Success? ==> IsCategory(r.value.category)
  {
    CategoriesWellFormed();
    if item.JNull? then Failure(NullRead("category"))
    else
      var cat := Field(item, "category");
      Success(SavingsInsightItem(
        if cat.Some? && cat.value.JStr? && IsCategory(cat.value.s) then cat.value.s else OtherCategory,
        TextOr(Field(item, "observation"), NoObservation, numberText),
        TextOr(Field(item, "suggestion"), NoSuggestion, numberText),
        TextOr(Field(item, "potentialSaving"), NoSaving, numberText)))
  }

  /**
   * The category is the reply's own exactly when that is a category string
   * (otherwise Other); a truthy text field is kept as its text, and a falsy
   * one gets its default.
   */
  lemma InsightItemDefaults(item: Json, numberText: real -> string)
    requires !item.JNull?
    ensures var r := InsightItemFromJson(item, numberText).value;
      && (forall c :: Field(item, "category") == Some(JStr(c)) && IsCategory(c) ==> r.category == c)
      && (IsCategory(r.category) && r.category != OtherCategory ==> Field(item, "category") == Some(JStr(r.category)))
    ensures var r := InsightItemFromJson(item, numberText).value;
      && (Truthy(Field(item, "observation")) ==> r.observation == ToJsString(Field(item, "observation").value, numberText))
      && (!Truthy(Field(item, "observation")) ==> r.observation == NoObservation)
      && (Truthy(Field(item, "suggestion")) ==> r.suggestion == ToJsString(Field(item, "suggestion").value, numberText))
      && (!Truthy(Field(item, "suggestion")) ==> r.suggestion == NoSuggestion)
      && (Truthy(Field(item, "potentialSaving")) ==> r.potentialSaving == ToJsString(Field(item, "potentialSaving").value, numberText))
      && (!Truthy(Field(item, "potentialSaving")) ==> r.potentialSaving == NoSaving)
  {
  }

  /** `insights` is an array and `overallSummary` a string. */
  predicate InsightShapeValid(parsed: Json) {
    var ins := Field(parsed, "insights");
    var summary := Field(parsed, "overallSummary");
    ins.Some? && ins.value.JArr? && summary.Some? && summary.value.JStr?
  }

  /**
   * The post-call logic of getSavingsInsights: the shape check, then every
   * entry rebuilt (a null entry throws, even past the fourth) and the list
   * cut to its first MaxInsights entries.
   */
  function InsightsFromJson(parsed: Json, numberText: real -> string): Result<SavingsInsight, Thrown>
  {
    if parsed.JNull? then Failure(NullRead("insights"))
    else if !InsightShapeValid(parsed) then Failure(ErrorObject(InvalidInsightsMessage))
    else
      var entries := Field(parsed, "insights").value.elems;
      var summary := Field(parsed, "overallSummary").value.s;
      match MapOrThrow(entries, (x: Json) => InsightItemFromJson(x, numberText))
      case Failure(e) => Failure(e)
      case Success(items) =>
        var kept := if |items| <= MaxInsights then items else items[..MaxInsights];
        Success(SavingsInsight(kept, if summary != "" then summary else NoSummary))
  }

  /**
   * What getSavingsInsights promises of a parsed reply: the null and shape
   * errors; on success at most MaxInsights entries, each the rebuilt entry of
   * the reply at the same place, with a category of the enumeration, and the
   * summary defaulted when empty.
   */
  lemma InsightsFromJsonSpec(parsed: Json, numberText: real -> string)
    ensures var r := InsightsFromJson(parsed, numberText);
      && (parsed.JNull? ==> r == Failure(NullRead("insights")))
      && (!parsed.JNull? && !InsightShapeValid(parsed) ==> r == Failure(ErrorObject(InvalidInsightsMessage)))
      && (r.Success? ==> !parsed.JNull? && InsightShapeValid(parsed))
    ensures var r := InsightsFromJson(parsed, numberText);
      r.Success? ==>
        var entries := Field(parsed, "insights").value.elems;
        var summary := Field(parsed, "overallSummary").value.s;
        && |r.value.insights| == (if |entries| < MaxInsights then |entries| else MaxInsights)
        && (forall i :: 0 <= i < |r.value.insights| ==>
              InsightItemFromJson(entries[i], numberText).Success?
              && r.value.insights[i] == InsightItemFromJson(entries[i], numberText).value)
        && (forall i :: 0 <= i < |r.value.insights| ==> IsCategory(r.value.insights[i].category))
        && r.value.overallSummary == if summary == "" then NoSummary else summary
    ensures var r := InsightsFromJson(parsed, numberText);
      !parsed.JNull? && InsightShapeValid(parsed) ==>
        var entries := Field(parsed, "insights").value.elems;
        && (r.Success? <==> forall i :: 0 <= i < |entries| ==> !entries[i].JNull?)
        && (r.Failure? ==> r == Failure(NullRead("category")))
  {
  }

  /**
   * The documented cases: no overallSummary is rejected; six usable entries
   * give exactly four; a null fifth entry fails although only four are kept.
   */
  lemma InsightsExamples(parsed: Json, numberText: real -> string)
    ensures !parsed.JNull? && Field(parsed, "overallSummary").None? ==>
              InsightsFromJson(parsed, numberText) == Failure(ErrorObject(InvalidInsightsMessage))
    ensures InsightShapeValid(parsed) && |Field(parsed, "insights").value.elems| == 6
            && (forall i :: 0 <= i < 6 ==> !Field(parsed, "insights").value.elems[i].JNull?) ==>
              InsightsFromJson(parsed, numberText).Success?
              && |InsightsFromJson(parsed, numberText).value.insights| == 4
    ensures InsightShapeValid(parsed) && |Field(parsed, "insights").value.elems| == 5
            && Field(parsed, "insights").value.elems[4].JNull? ==>
              InsightsFromJson(parsed, numberText) == Failure(NullRead("category"))
  {
    InsightsFromJsonSpec(parsed, numberText);
  }

  /**
   * Unlike classification, an insight's category is kept only on an exact
   * match: "groceries", which classification maps to "Groceries", becomes Other.
   */
  lemma InsightCategoryIsExact(item: Json, category: string, numberText: real -> string)
    requires !item.JNull? && Field(item, "category") == Some(JStr(category)) && !IsCategory(category)
    ensures InsightItemFromJson(item, numberText).value.category == OtherCategory
  {
  }

  function InsightAttempt(reply: Result<string, Thrown>, lib: JsLib): Attempt<SavingsInsight> {
    match reply
    case Failure(e) => Threw(e)
    case Success(text) =>
      match ParseJsonFromGeminiResponse(text, lib.jsonParse)
      case Failure(e) => Threw(e)
      case Success(parsed) =>
        match InsightsFromJson(parsed, lib.numberText)
        case Failure(e) => Threw(e)
        case Success(insight) => Returned(insight)
  }

  /** The attempts of getSavingsInsights, one per AI reply to the same request. */
  function InsightAttempts(ai: (InsightRequest, nat) -> Result<string, Thrown>, request: InsightRequest, lib: JsLib)
    : nat -> Attempt<SavingsInsight>
  {
    (k: nat) => InsightAttempt(ai(request, k), lib)
  }

  lemma InsightAttemptsAt(ai: (InsightRequest, nat) -> Result<string, Thrown>, request: InsightRequest, lib: JsLib, k: nat)
    ensures InsightAttempts(ai, request, lib)(k) == InsightAttempt(ai(request, k), lib)
  {
  }

  const InsightsName: string := "Get Savings Insights"

  /**
   * getSavingsInsights: every attempt sends the same request, built from the
   * first MaxPromptExpenses expenses; a returned insight has at most
   * MaxInsights entries, each with a category of the enumeration.
   */
  method GetSavingsInsights(expenses: seq<CategorizedExpense>, ai: (InsightRequest, nat) -> Result<string, Thrown>, lib: JsLib)
    returns (r: Result<SavingsInsight, string>, calls: nat)
    ensures 1 <= calls <= MaxRetries + 1
    ensures forall k :: 0 <= k < calls - 1 ==> InsightAttempts(ai, InsightRequestFor(expenses), lib)(k).Threw?
    ensures r.Success? ==> InsightAttempts(ai, InsightRequestFor(expenses), lib)(calls - 1) == Returned(r.value)
    ensures r.Success? ==> |r.value.insights| <= MaxInsights
                           && forall i :: 0 <= i < |r.value.insights| ==> IsCategory(r.value.insights[i].category)
    ensures r.Failure? ==> calls == MaxRetries + 1 && InsightAttempts(ai, InsightRequestFor(expenses), lib)(calls - 1).Threw?
    ensures r.Failure? ==>
              r.error == RetryFailureMessage(InsightsName, InsightAttempts(ai, InsightRequestFor(expenses), lib)(calls - 1).thrown)
    ensures r == Retried(InsightAttempts(ai, InsightRequestFor(expenses), lib), InsightsName, 0)
  {
    var request := InsightRequestFor(expenses);
    var waited;
    r, calls, waited := WithRetries(InsightAttempts(ai, request, lib), InsightsName);
    if r.Success? {
      InsightAttemptsAt(ai, request, lib, calls - 1);
      ReturnedInsightIsBounded(ai(request, calls - 1), lib);
    }
  }

  lemma ReturnedInsightIsBounded(reply: Result<string, Thrown>, lib: JsLib)
    requires InsightAttempt(reply, lib).Returned?
    ensures var insight := InsightAttempt(reply, lib).value;
            |insight.insights| <= MaxInsights
            && forall i :: 0 <= i < |insight.insights| ==> IsCategory(insight.insights[i].category)
  {
    var parsed := ParseJsonFromGeminiResponse(reply.value, lib.jsonParse);
    assert parsed.Success?;
    var built := InsightsFromJson(parsed.value, lib.numberText);
    assert built.Success?;
    InsightsFromJsonSpec(parsed.value, lib.numberText);
  }
}
