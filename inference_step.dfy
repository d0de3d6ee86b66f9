/**
 * The generator step: wraps the requirement in the instruction format,
 * sizes the generation budget and trims the decoded text down to the
 * model's answer. The tokenizer and the model are abstract functions.
 */
module Inference {
  import opened Wrappers
  import opened Text
  import Config

  const BaseModelId: string := "deepseek-ai/DeepSeek-Coder-V2-Lite-Instruct"
  const PeftModelId: string := "../train/lora_deepseek16b_best"

  const InstOpen: string := "<s>[INST] "
  const InstClose: string := "[/INST]"
  const EndOfSequence: string := "</s>"

  /** The instruction-format prompt: the requirement between the opening and closing markers. */
  function Prompt(inputPrompt: string): (p: string)
    ensures |p| == |InstOpen| + |inputPrompt| + 1 + |InstClose|
    ensures OccursAt(p, inputPrompt, |InstOpen|)
    ensures p[..|InstOpen|] == InstOpen && p[|p| - |InstClose|..] == InstClose
  {
    var p := InstOpen + inputPrompt + " " + InstClose;
    InfixOfConcat(InstOpen, inputPrompt, " " + InstClose);
    assert p == InstOpen + inputPrompt + (" " + InstClose);
    p
  }

  /** `max(1, MAX_NEW_TOKENS - input_length)`: the tokens left for the answer, at least one. */
  function TokenBudget(inputLength: nat): (n: nat)
    ensures n >= 1
    ensures inputLength < Config.MaxNewTokens ==> n == Config.MaxNewTokens - inputLength
    ensures inputLength >= Config.MaxNewTokens - 1 ==> n == 1
    ensures inputLength + n >= Config.MaxNewTokens
  {
    if Config.MaxNewTokens - inputLength >= 1 then Config.MaxNewTokens - inputLength else 1
  }

  /** Every "</s>" removed in one pass; the membership test before it changes nothing. */
  function RemoveEndOfSequence(output: string): (r: string)
    ensures r == ReplaceAll(output, EndOfSequence, "")
    ensures |r| <= |output|
  {
    if Contains(output, EndOfSequence) then ReplaceAll(output, EndOfSequence, "")
    else
      ReplaceAllWithout(output, EndOfSequence, "");
      output
  }

  /**
   * The removal goes left to right: the text before the first "</s>" is
   * kept, that marker is dropped, and the removal goes on after it; text
   * without the marker is kept whole.
   */
  lemma RemoveEndOfSequenceAt(output: string, i: nat)
    requires OccursAt(output, EndOfSequence, i)
    requires forall j :: 0 <= j < i ==> !OccursAt(output, EndOfSequence, j)
    ensures RemoveEndOfSequence(output) == output[..i] + RemoveEndOfSequence(output[i + |EndOfSequence|..])
  {
    ReplaceAllAt(output, EndOfSequence, "", i);
    assert output[..i] + "" == output[..i];
  }

  /** Text without "</s>" is kept whole. */
  lemma RemoveEndOfSequenceWithout(output: string)
    requires !Contains(output, EndOfSequence)
    ensures RemoveEndOfSequence(output) == output
  {
  }

  /** Removal is one pass: a marker formed by closing the gap around a removed one survives. */
  lemma RemovalIsSinglePass()
    ensures RemoveEndOfSequence("<</s>/s>") == EndOfSequence
  {
    var s := "<</s>/s>";
    assert !OccursAt(s, EndOfSequence, 0) by { assert s[1] != EndOfSequence[1]; }
    ReplaceAllNotAtStart(s, EndOfSequence, "");
    assert s[1..] == EndOfSequence + "/s>";
    ReplaceAllLeading("/s>", EndOfSequence, "");
    assert ReplaceAll("/s>", EndOfSequence, "") == "/s>";
    assert [s[0]] + "/s>" == EndOfSequence;
  }

  /** The text after the first "[/INST]", stripped; the text unchanged when there is none. */
  function AfterInstruction(output: string): (r: string)
    ensures !Contains(output, InstClose) ==> r == output
    ensures Contains(output, InstClose) ==> r == Strip(AfterFirst(output, InstClose))
  {
    if Contains(output, InstClose) then Strip(AfterFirst(output, InstClose)) else output
  }

  /** The post-processing of `run`: "</s>" removal, then the cut after the first "[/INST]". */
  function PostProcess(decoded: string): string {
    AfterInstruction(RemoveEndOfSequence(decoded))
  }

  /**
   * When the decoded text echoes the prompt, the cut lands right after
   * the prompt's own closing marker: what remains is the answer,
   * stripped, including any "[/INST]" the answer itself contains.
   */
  lemma EchoedPromptCut(inputPrompt: string, answer: string)
    requires !Contains(inputPrompt, InstClose)
    ensures AfterInstruction(Prompt(inputPrompt) + answer) == Strip(answer)
  {
    var pre := InstOpen + inputPrompt + " ";
    var s := Prompt(inputPrompt) + answer;
    var k := |pre|;
    assert s == pre + InstClose + answer;
    InfixOfConcat(pre, InstClose, answer);
    forall j | 0 <= j < k
      ensures !OccursAt(s, InstClose, j)
    {
      if j < |InstOpen| {
        NoCloseInOpen(s, inputPrompt, answer, j);
      } else {
        NoCloseAfterOpen(s, inputPrompt, answer, j);
      }
    }
    assert Find(s, InstClose) == k;
    assert s[k + |InstClose|..] == answer;
  }

  /** No "[/INST]" starts inside the fixed "<s>[INST] " head. */
  lemma NoCloseInOpen(s: string, inputPrompt: string, answer: string, j: nat)
    requires s == InstOpen + inputPrompt + " " + InstClose + answer && j < |InstOpen|
    ensures !OccursAt(s, InstClose, j)
  {
    assert s[j] == InstOpen[j];
    if j == 3 {
      assert s[j + 1] == InstOpen[4] == 'I';
      MismatchNotAt(s, InstClose, j, 1);
    } else {
      MismatchNotAt(s, InstClose, j, 0);
    }
  }

  /**
   * From the requirement up to the space before the closing marker, an
   * occurrence of "[/INST]" would lie inside the requirement or cover that
   * space, which the marker does not hold.
   */
  lemma NoCloseAfterOpen(s: string, inputPrompt: string, answer: string, j: nat)
    requires s == InstOpen + inputPrompt + " " + InstClose + answer
    requires !Contains(inputPrompt, InstClose)
    requires |InstOpen| <= j <= |InstOpen| + |inputPrompt|
    ensures !OccursAt(s, InstClose, j)
  {
    var n := |InstOpen|;
    var e := n + |inputPrompt|;
    assert s[e] == ' ';
    if j + |InstClose| <= e {
      assert s[n..e] == inputPrompt;
      SliceOfSlice(s, n, e, j - n, j - n + |InstClose|);
      assert !OccursAt(inputPrompt, InstClose, j - n);
    } else {
      assert InstClose[e - j] != ' ';
      MismatchNotAt(s, InstClose, j, e - j);
    }
  }

  class InferenceStep {
    const baseModelId: string
    const peftModelId: string
    /** The number of input ids the tokenizer produces for a prompt. */
    const tokenize: string -> nat
    /** The decoded generation for a prompt and a new-token budget. */
    const generate: (string, nat) -> string

    /** Model paths fall back to the configured ones when not given or empty. */
    constructor (baseModelId: Option<string>, peftModelId: Option<string>,
                 tokenize: string -> nat, generate: (string, nat) -> string)
      ensures this.baseModelId == (if baseModelId.Some? && baseModelId.value != "" then baseModelId.value else BaseModelId)
      ensures this.peftModelId == (if peftModelId.Some? && peftModelId.value != "" then peftModelId.value else PeftModelId)
      ensures this.tokenize == tokenize && this.generate == generate
    {
      this.baseModelId := if baseModelId.Some? && baseModelId.value != "" then baseModelId.value else BaseModelId;
      this.peftModelId := if peftModelId.Some? && peftModelId.value != "" then peftModelId.value else PeftModelId;
      this.tokenize := tokenize;
      this.generate := generate;
    }

    /** What `run` returns: the post-processed generation for the wrapped prompt, within the remaining budget. */
    function Output(inputPrompt: string): string {
      var prompt := Prompt(inputPrompt);
      PostProcess(generate(prompt, TokenBudget(tokenize(prompt))))
    }

    /** `run(input_prompt)`. */
    method Run(inputPrompt: string) returns (output: string)
      ensures output == Output(inputPrompt)
    {
      var prompt := InstOpen + inputPrompt + " " + InstClose;
      var inputLength := tokenize(prompt);
      var maxNewTokens := if Config.MaxNewTokens - inputLength >= 1 then Config.MaxNewTokens - inputLength else 1;
      output := generate(prompt, maxNewTokens);
      if Contains(output, EndOfSequence) {
        output := ReplaceAll(output, EndOfSequence, "");
      }
      if Contains(output, InstClose) {
        output := Strip(AfterFirst(output, InstClose));
      }
    }
  }
}
