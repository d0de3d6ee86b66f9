/**
 * The verifier step: the chat-API call that checks the rendered model
 * against the requirement and proposes a refined requirement. The HTTP
 * client, its stream transport, base64 encoding and `json.loads` are
 * abstract; what is modelled is the text handling around them.
 */
module ApiVerification {
  import opened Wrappers
  import opened Text
  import Config

  /** The placeholder the key guard rejects. */
  const Placeholder: string := "YOUR_OPENAI_API_KEY_HERE"
  const OpenAIBaseUrl: string := "https://dashscope.aliyuncs.com/compatible-mode/v1"
  const OpenAIModel: string := "qwen-vl-max-latest"

  /** The reply budget sent with every request. */
  const MaxTokens: nat := 1000

  /** The key of the parsed reply that holds the next requirement. */
  const RefinedKey: string := "Refined Requirement"

  /** Python's `value or default` on an optional string: None and "" fall back. */
  function OrElse(value: Option<string>, default: string): string {
    if value.Some? && value.value != "" then value.value else default
  }

  /** `VERIFICATION_TEMPLATE.format(prompt=..., code=...)`. */
  function VerificationPrompt(prompt: string, code: string): (text: string)
    ensures |text| == |Config.TemplateHead| + |prompt| + |Config.TemplateMiddle| + |code| + |Config.TemplateTail|
  {
    Config.TemplateHead + prompt + Config.TemplateMiddle + code + Config.TemplateTail
  }

  /**
   * The filled template is its five parts in order: the head, the
   * requirement where `{prompt}` was, the middle, the code where `{code}`
   * was, and the tail, which closes the text.
   */
  lemma PromptCarriesInputs(prompt: string, code: string)
    ensures OccursAt(VerificationPrompt(prompt, code), Config.TemplateHead, 0)
    ensures OccursAt(VerificationPrompt(prompt, code), prompt, |Config.TemplateHead|)
    ensures OccursAt(VerificationPrompt(prompt, code), Config.TemplateMiddle, |Config.TemplateHead| + |prompt|)
    ensures OccursAt(VerificationPrompt(prompt, code), code,
                     |Config.TemplateHead| + |prompt| + |Config.TemplateMiddle|)
    ensures OccursAt(VerificationPrompt(prompt, code), Config.TemplateTail,
                     |Config.TemplateHead| + |prompt| + |Config.TemplateMiddle| + |code|)
  {
    FilledLayout(Config.TemplateHead, prompt, Config.TemplateMiddle, code, Config.TemplateTail);
  }

  /** Where the parts of a template filled at two places sit. */
  lemma FilledLayout(head: string, prompt: string, middle: string, code: string, tail: string)
    ensures var text := head + prompt + middle + code + tail;
            && OccursAt(text, head, 0)
            && OccursAt(text, prompt, |head|)
            && OccursAt(text, middle, |head| + |prompt|)
            && OccursAt(text, code, |head| + |prompt| + |middle|)
            && OccursAt(text, tail, |head| + |prompt| + |middle| + |code|)
  {
    var text := head + prompt + middle + code + tail;
    InfixOfConcat(head, prompt, middle + code + tail);
    assert text == head + prompt + (middle + code + tail);
    InfixOfConcat(head + prompt, middle, code + tail);
    assert text == head + prompt + middle + (code + tail);
    InfixOfConcat(head + prompt + middle, code, tail);
    InfixOfConcat(head + prompt + middle + code, tail, "");
    assert text == head + prompt + middle + code + tail + "";
    assert text[..|head|] == head;
  }

  /** The image as the data URL of the request. */
  function DataUrl(imageBase64: string): string {
    "data:image/png;base64," + imageBase64
  }

  /** What the client is asked: one user message with a text part and an image part. */
  datatype ChatRequest = ChatRequest(baseUrl: string, apiKey: string, model: string,
                                     text: string, imageUrl: string, maxTokens: nat)

  /** How the streamed call ended: the delta contents in arrival order (None for a chunk without content), or an exception. */
  datatype Stream = Chunks(deltas: seq<Option<string>>) | Raised

  /** The in-order concatenation of the delta contents that are not None. */
  function Concat(deltas: seq<Option<string>>): string {
    if |deltas| == 0 then ""
    else Concat(deltas[..|deltas| - 1]) + deltas[|deltas| - 1].GetOr("")
  }

  /** Concatenation distributes over splitting the stream. */
  lemma {:induction false} ConcatAppend(a: seq<Option<string>>, b: seq<Option<string>>)
    ensures Concat(a + b) == Concat(a) + Concat(b)
    decreases |b|
  {
    if |b| == 0 {
      assert a + b == a;
    } else {
      var b' := b[..|b| - 1];
      assert (a + b)[..|a + b| - 1] == a + b';
      ConcatAppend(a, b');
    }
  }

  /** A chunk without content adds nothing; a chunk with content adds exactly that text at the end. */
  lemma ConcatStep(deltas: seq<Option<string>>, d: Option<string>)
    ensures d.None? ==> Concat(deltas + [d]) == Concat(deltas)
    ensures d.Some? ==> Concat(deltas + [d]) == Concat(deltas) + d.value
  {
    assert (deltas + [d])[..|deltas|] == deltas;
  }

  /** The parse of the reply, as far as `extract_new_prompt` looks at it. */
  datatype Json =
    | Malformed                                // json.JSONDecodeError
    | NotAnObject                              // valid JSON without `.get`
    | Object(fields: map<string, Option<string>>)  // None stands for JSON null

  /** Every "```json" removed, then every "```", each in one left-to-right pass. */
  function StripFences(text: string): string {
    ReplaceAll(ReplaceAll(text, "```json", ""), "```", "")
  }

  /** Text without a backtick is handed to the parser unchanged. */
  lemma NoBacktickUnchanged(text: string)
    requires '`' !in text
    ensures StripFences(text) == text
  {
    ReplaceAllSkips(text, "", "```json", "");
    ReplaceAllSkips(text, "", "```", "");
    assert text + "" == text;
  }

  /** A reply wrapped in a json code fence is parsed as the text inside the fence. */
  lemma FencedReplyUnwrapped(body: string)
    requires '`' !in body
    ensures StripFences("```json" + body + "```") == body
  {
    var open, close := "```json", "```";
    assert open[0] == '`' && close[0] == '`';
    var mid := body + close;
    assert open + body + close == open + mid;
    ReplaceAllLeading(mid, open, "");
    ReplaceAllSkips(body, close, open, "");
    assert ReplaceAll(close, open, "") == close;
    assert ReplaceAll(open + mid, open, "") == mid;
    ReplaceAllSkips(body, close, close, "");
    ReplaceAllLeading("", close, "");
    assert close + "" == close && "" + ReplaceAll("", close, "") == "";
    assert body + "" == body;
  }

  /** `extract_new_prompt`: the "Refined Requirement" value of the unfenced reply, None when that is not a JSON object holding a string there. */
  function ExtractNewPrompt(reply: string, parse: string -> Json): (r: Option<string>)
    ensures r.Some? <==>
              && parse(StripFences(reply)).Object?
              && RefinedKey in parse(StripFences(reply)).fields
              && parse(StripFences(reply)).fields[RefinedKey].Some?
    ensures r.Some? ==> r == parse(StripFences(reply)).fields[RefinedKey]
  {
    match parse(StripFences(reply))
    case Malformed => None
    case NotAnObject => None
    case Object(fields) => if RefinedKey in fields then fields[RefinedKey] else None
  }

  /** A fenced reply yields the same requirement as the bare JSON inside it. */
  lemma FencesAreTransparent(body: string, parse: string -> Json)
    requires '`' !in body
    ensures ExtractNewPrompt("```json" + body + "```", parse) == ExtractNewPrompt(body, parse)
  {
    FencedReplyUnwrapped(body);
    NoBacktickUnchanged(body);
  }

  /** The key guard at the start of `run`: an empty key or the placeholder. */
  predicate KeyRejected(key: string) {
    key == "" || key == Placeholder
  }

  /** `validate_api_key`: not empty, not the placeholder, longer than ten characters. */
  function ValidateApiKey(key: string): (ok: bool)
    ensures ok <==> key != "" && key != Placeholder && |key| > 10
  {
    if key == "" || key == Placeholder then false else |key| > 10
  }

  /**
   * `validate_api_key` is the guard of `run` plus a length check: a key it
   * accepts passes the guard, and a key passing the guard is accepted
   * exactly when it is longer than ten characters.
   */
  lemma ValidationRefinesGuard(key: string)
    ensures ValidateApiKey(key) <==> !KeyRejected(key) && |key| > 10
  {
  }

  /** The key shipped in the configuration is accepted by both checks, though it is a placeholder too. */
  lemma ShippedKeyAccepted()
    ensures ValidateApiKey(Config.OpenAIApiKey) && !KeyRejected(Config.OpenAIApiKey)
  {
  }

  /** The guard of `run` is weaker than `validate_api_key`: a short key passes one and fails the other. */
  lemma GuardWeakerThanValidation()
    ensures exists key :: !KeyRejected(key) && !ValidateApiKey(key)
  {
    var key := "sk-123";
    assert !KeyRejected(key) && !ValidateApiKey(key);
  }

  /** The three sections `save_result` writes, each a heading, its value and a line break. */
  function OriginalSection(originalPrompt: string): string {
    "Original Requirement: " + originalPrompt + "\n\n"
  }

  function VerificationSection(verification: string): string {
    "Verification Result:\n" + verification + "\n\n"
  }

  function RefinedSection(newPrompt: string): string {
    "Refined Requirement: " + newPrompt + "\n"
  }

  /** The text `save_result` writes. */
  function SavedText(verification: string, newPrompt: string, originalPrompt: string): string {
    OriginalSection(originalPrompt) + VerificationSection(verification) + RefinedSection(newPrompt)
  }

  /**
   * The sections follow one another in a fixed order, with nothing
   * between them, and the file ends with a line break.
   */
  lemma SavedTextLayout(verification: string, newPrompt: string, originalPrompt: string)
    ensures var t := SavedText(verification, newPrompt, originalPrompt);
            var o, v := OriginalSection(originalPrompt), VerificationSection(verification);
            && OccursAt(t, o, 0)
            && OccursAt(t, v, |o|)
            && OccursAt(t, RefinedSection(newPrompt), |o| + |v|)
            && |t| == |o| + |v| + |RefinedSection(newPrompt)|
            && t[|t| - 1] == '\n'
  {
    var o, v, r := OriginalSection(originalPrompt), VerificationSection(verification), RefinedSection(newPrompt);
    InfixOfConcat(o, v, r);
    InfixOfConcat([], o, v + r);
    assert [] + o + (v + r) == o + v + r;
    InfixOfConcat(o + v, r, []);
    assert o + v + r + [] == o + v + r;
  }

  class APIVerificationStep {
    const apiKey: string
    const baseUrl: string
    const model: string

    /** Each setting falls back to the configured one when not given or empty. */
    constructor (apiKey: Option<string>, baseUrl: Option<string>, model: Option<string>)
      ensures this.apiKey == OrElse(apiKey, Config.OpenAIApiKey)
      ensures this.baseUrl == OrElse(baseUrl, OpenAIBaseUrl)
      ensures this.model == OrElse(model, OpenAIModel)
    {
      this.apiKey := OrElse(apiKey, Config.OpenAIApiKey);
      this.baseUrl := OrElse(baseUrl, OpenAIBaseUrl);
      this.model := OrElse(model, OpenAIModel);
    }

    /** The request `run` sends for an encoded image. */
    function Request(prompt: string, code: string, imageBase64: string): ChatRequest {
      ChatRequest(baseUrl, apiKey, model, VerificationPrompt(prompt, code), DataUrl(imageBase64), MaxTokens)
    }

    /**
     * `run(prompt, code, image_path)`. `imageBase64` is what
     * `encode_image_to_base64` returned (None when reading failed) and
     * `chat` is the streamed completion call. The result pair is
     * (None, None) when the key is rejected, the image is missing or
     * empty, the call raises or the stream carries no text; otherwise it
     * is the whole streamed reply and the requirement extracted from it.
     */
    method Run(prompt: string, code: string, imageBase64: Option<string>,
               chat: ChatRequest -> Stream, parse: string -> Json)
      returns (verification: Option<string>, newPrompt: Option<string>)
      ensures (KeyRejected(apiKey) || imageBase64.None? || imageBase64 == Some("")) ==>
                verification.None? && newPrompt.None?
      ensures verification.None? ==> newPrompt.None?
      ensures verification.Some? <==>
                && !KeyRejected(apiKey) && imageBase64.Some? && imageBase64.value != ""
                && chat(Request(prompt, code, imageBase64.value)).Chunks?
                && Concat(chat(Request(prompt, code, imageBase64.value)).deltas) != ""
      ensures verification.Some? ==>
                && verification.value == Concat(chat(Request(prompt, code, imageBase64.value)).deltas)
                && newPrompt == ExtractNewPrompt(verification.value, parse)
    {
      if apiKey == Placeholder || apiKey == "" {
        return None, None;
      }
      if imageBase64.None? || imageBase64.value == "" {
        return None, None;
      }
      var stream := chat(Request(prompt, code, imageBase64.value));
      if stream.Raised? {
        return None, None;
      }
      var deltas := stream.deltas;
      var fullResponse := "";
      var i := 0;
      while i < |deltas|
        invariant 0 <= i <= |deltas|
        invariant fullResponse == Concat(deltas[..i])
      {
        ConcatStep(deltas[..i], deltas[i]);
        assert deltas[..i + 1] == deltas[..i] + [deltas[i]];
        if deltas[i].Some? {
          fullResponse := fullResponse + deltas[i].value;
        }
        i := i + 1;
      }
      assert deltas[..i] == deltas;
      if fullResponse != "" {
        return Some(fullResponse), ExtractNewPrompt(fullResponse, parse);
      }
      return None, None;
    }
  }
}
