/**
 * The two-round controller `CADVerificationPipeline`: generate, clean,
 * execute, render, verify, then generate, clean, execute and render
 * again from the refined requirement. Generation and cleaning are the
 * modelled steps; execution, rendering and verification enter as
 * abstract functions of their inputs.
 */
module Pipeline {
  import opened Wrappers
  import CodeCleaning
  import CodeExecution
  import Inference

  const OutputDir: string := "./output"

  const FirstStl: string := "first_model.stl"
  const SecondStl: string := "second_model.stl"
  const FirstImage: string := "first_model.png"
  const SecondImage: string := "second_model.png"

  /** The keys of `results`, in the order they are added. */
  datatype Key =
    | FirstCodeKey | CleanedFirstCodeKey | FirstStlPathKey | FirstImagePathKey
    | VerificationResultKey | NewPromptKey
    | SecondCodeKey | CleanedSecondCodeKey | SecondStlPathKey | SecondImagePathKey
  {
    /** The dictionary key the source uses. */
    function Name(): string {
      match this
      case FirstCodeKey => "first_code"
      case CleanedFirstCodeKey => "cleaned_first_code"
      case FirstStlPathKey => "first_stl_path"
      case FirstImagePathKey => "first_image_path"
      case VerificationResultKey => "verification_result"
      case NewPromptKey => "new_prompt"
      case SecondCodeKey => "second_code"
      case CleanedSecondCodeKey => "cleaned_second_code"
      case SecondStlPathKey => "second_stl_path"
      case SecondImagePathKey => "second_image_path"
    }
  }

  /** Distinct keys stand for distinct dictionary entries. */
  lemma KeyNamesDistinct(a: Key, b: Key)
    requires a != b
    ensures a.Name() != b.Name()
  {
  }

  /** The keys present once round one is complete. */
  const RoundOneKeys: set<Key> :=
    {FirstCodeKey, CleanedFirstCodeKey, FirstStlPathKey, FirstImagePathKey, VerificationResultKey, NewPromptKey}

  /** The keys of a run that went all the way. */
  const AllKeys: set<Key> :=
    RoundOneKeys + {SecondCodeKey, CleanedSecondCodeKey, SecondStlPathKey, SecondImagePathKey}

  const FallbackHead: string := "请改进以下设计: "
  const FallbackTail: string := "。生成更精确和详细的CAD模型。"
  const FallbackNotice: string := "API验证失败，使用备用prompt: "

  /** The requirement used for the second round when verification gives nothing: the initial one, framed. */
  function FallbackPrompt(initialPrompt: string): (p: string)
    ensures |p| == |FallbackHead| + |initialPrompt| + |FallbackTail|
    ensures p[..|FallbackHead|] == FallbackHead
    ensures p[|FallbackHead|..|FallbackHead| + |initialPrompt|] == initialPrompt
  {
    FallbackHead + initialPrompt + FallbackTail
  }

  /** The verification text recorded in that case: a notice followed by the fallback requirement. */
  function FallbackVerification(newPrompt: string): (v: string)
    ensures |v| == |FallbackNotice| + |newPrompt|
    ensures v[..|FallbackNotice|] == FallbackNotice && v[|FallbackNotice|..] == newPrompt
  {
    FallbackNotice + newPrompt
  }

  /** The requirement for round two and the verification text recorded with it. */
  datatype Refined = Refined(newPrompt: string, verification: string)

  /** Both texts when verification gives nothing. */
  function Fallback(initialPrompt: string): Refined {
    Refined(FallbackPrompt(initialPrompt), FallbackVerification(FallbackPrompt(initialPrompt)))
  }

  /** What round one leaves: the entries so far and the requirement for round two, if any. */
  datatype Round = Round(results: map<Key, Option<string>>, refined: Option<string>)

  /** Python truthiness of an optional string. */
  predicate Truthy(s: Option<string>) {
    s.Some? && s.value != ""
  }

  /** The five step names `run_single_step` knows. */
  datatype StepName = Inference | Cleaning | Execution | Rendering | Verification

  /** The `step_map` lookup: None for any other name. */
  function StepMap(name: string): (r: Option<StepName>)
    ensures r.Some? <==> name in {"inference", "cleaning", "execution", "rendering", "verification"}
    ensures r == Some(Inference) <==> name == "inference"
    ensures r == Some(Cleaning) <==> name == "cleaning"
    ensures r == Some(Execution) <==> name == "execution"
    ensures r == Some(Rendering) <==> name == "rendering"
    ensures r == Some(Verification) <==> name == "verification"
  {
    if name == "inference" then Some(Inference)
    else if name == "cleaning" then Some(Cleaning)
    else if name == "execution" then Some(Execution)
    else if name == "rendering" then Some(Rendering)
    else if name == "verification" then Some(Verification)
    else None
  }

  /** The keyword arguments of `run_single_step`, one shape per step. */
  datatype StepArgs =
    | InferenceArgs(inputPrompt: string)
    | CleaningArgs(rawCode: string, outputFilename: string)
    | ExecutionArgs(code: string, outputFilename: string)
    | RenderingArgs(stlPath: string, imagePath: string)
    | VerificationArgs(prompt: string, code: string, imagePath: string)

  /** What a step returned: one optional text, or the verifier's pair. */
  datatype StepResult = Single(value: Option<string>) | Pair(first: Option<string>, second: Option<string>)

  class CADVerificationPipeline {
    const outputDir: string
    /** `inference_step.run(input_prompt)`. */
    const infer: string -> string
    /** `code_cleaning_step.run(raw_code, output_filename)`. */
    const clean: (string, string) -> Option<string>
    /** `code_execution_step.run(code, output_filename)`. */
    const execute: (string, string) -> Option<string>
    /** `stl_rendering_step.run(stl_path, image_path)`. */
    const render: (string, string) -> Option<string>
    /** `api_verification_step.run(prompt, code, image_path)`. */
    const verify: (string, string, string) -> (Option<string>, Option<string>)

    constructor (outputDir: Option<string>, inference: Inference.InferenceStep,
                 execute: (string, string) -> Option<string>,
                 render: (string, string) -> Option<string>,
                 verify: (string, string, string) -> (Option<string>, Option<string>))
      ensures this.outputDir == (if outputDir.Some? && outputDir.value != "" then outputDir.value else OutputDir)
      ensures this.infer == (p => inference.Output(p)) && this.clean == CodeCleaning.Sanitise
      ensures this.execute == execute
      ensures this.render == render && this.verify == verify
    {
      this.outputDir := if outputDir.Some? && outputDir.value != "" then outputDir.value else OutputDir;
      this.infer := p => inference.Output(p);
      this.clean := CodeCleaning.Sanitise;
      this.execute := execute;
      this.render := render;
      this.verify := verify;
    }

    /**
     * The requirement and verification text of round one: the verifier's
     * pair when an image exists and both parts came back, the fallback
     * otherwise.
     */
    function Refinement(initialPrompt: string, cleanedFirstCode: string, firstImage: Option<string>): (r: Refined)
      ensures !Truthy(firstImage) ==> r == Fallback(initialPrompt)
      ensures Truthy(firstImage) ==>
                var answer := verify(initialPrompt, cleanedFirstCode, firstImage.value);
                && (answer.0.Some? && answer.1.Some? ==> r == Refined(answer.1.value, answer.0.value))
                && (answer.0.None? || answer.1.None? ==> r == Fallback(initialPrompt))
    {
      if !Truthy(firstImage) then Fallback(initialPrompt)
      else
        var answer := verify(initialPrompt, cleanedFirstCode, firstImage.value);
        if answer.0.None? || answer.1.None? then Fallback(initialPrompt)
        else Refined(answer.1.value, answer.0.value)
    }

    /**
     * Step 5 of `run_pipeline`: the verifier is called only when the image
     * path is truthy, and a missing part of its answer makes both texts the
     * fallback. `verifierCalls` is a ghost counter kept beside the one call
     * of `verify` in this body, so its value says how often this method
     * calls the verifier; it is not a property of `verify` itself.
     */
    method VerifyOrFallback(initialPrompt: string, cleanedFirstCode: string, firstImage: Option<string>)
      returns (verificationResult: string, newPrompt: string, ghost verifierCalls: nat)
      ensures Refined(newPrompt, verificationResult) == Refinement(initialPrompt, cleanedFirstCode, firstImage)
      ensures verifierCalls == (if Truthy(firstImage) then 1 else 0)
    {
      verifierCalls := 0;
      var result: Option<string>, prompt: Option<string> := None, None;
      if Truthy(firstImage) {
        var answer := verify(initialPrompt, cleanedFirstCode, firstImage.value);
        result, prompt := answer.0, answer.1;
        verifierCalls := verifierCalls + 1;
      }
      if result.None? || prompt.None? {
        prompt := Some(FallbackPrompt(initialPrompt));
        result := Some(FallbackVerification(prompt.value));
      }
      verificationResult, newPrompt := result.value, prompt.value;
    }

    /** The cleaned code of round one for a requirement. */
    function FirstCleaned(initialPrompt: string): Option<string> {
      clean(infer(initialPrompt), FirstStl)
    }

    /**
     * What round one of `run_pipeline` leaves: the entries added up to and
     * including the fallback, and the requirement for round two, None
     * when the run ends early.
     */
    function RoundOne(initialPrompt: string): Round {
      var code := infer(initialPrompt);
      var cleaned := clean(code, FirstStl);
      var withCode := map[FirstCodeKey := Some(code)];
      if cleaned.None? then Round(withCode, None)
      else
        var withCleaned := withCode[CleanedFirstCodeKey := cleaned];
        var stl := execute(cleaned.value, FirstStl);
        if stl.None? then Round(withCleaned, None)
        else
          var image := render(stl.value, CodeExecution.JoinPath(outputDir, FirstImage));
          var r := Refinement(initialPrompt, cleaned.value, image);
          Round(withCleaned[FirstStlPathKey := stl][FirstImagePathKey := image]
                           [VerificationResultKey := Some(r.verification)][NewPromptKey := Some(r.newPrompt)],
                Some(r.newPrompt))
    }

    /** What round two adds to the entries of round one, driven by the refined requirement. */
    function RoundTwo(results: map<Key, Option<string>>, newPrompt: string): map<Key, Option<string>> {
      var code := infer(newPrompt);
      var cleaned := clean(code, SecondStl);
      var withCode := results[SecondCodeKey := Some(code)];
      if cleaned.None? then withCode
      else
        var withCleaned := withCode[CleanedSecondCodeKey := cleaned];
        var stl := execute(cleaned.value, SecondStl);
        if stl.None? then withCleaned
        else
          withCleaned[SecondStlPathKey := stl]
                     [SecondImagePathKey := render(stl.value, CodeExecution.JoinPath(outputDir, SecondImage))]
    }

    /** The `results` map `run_pipeline` returns. */
    function Outcome(initialPrompt: string): map<Key, Option<string>> {
      var one := RoundOne(initialPrompt);
      if one.refined.None? then one.results else RoundTwo(one.results, one.refined.value)
    }

    /** Round one of `run_pipeline`, up to and including the fallback. */
    method FirstRound(initialPrompt: string)
      returns (results: map<Key, Option<string>>, ghost verifierCalls: nat, refined: Option<string>)
      ensures Round(results, refined) == RoundOne(initialPrompt)
      ensures verifierCalls == (if FirstImagePathKey in results && Truthy(results[FirstImagePathKey]) then 1 else 0)
    {
      verifierCalls := 0;
      refined := None;
      results := map[];

      var firstCode := infer(initialPrompt);
      results := results[FirstCodeKey := Some(firstCode)];

      var cleanedFirstCode := clean(firstCode, FirstStl);
      if cleanedFirstCode.None? {
        return;
      }
      results := results[CleanedFirstCodeKey := cleanedFirstCode];

      var firstStlPath := execute(cleanedFirstCode.value, FirstStl);
      if firstStlPath.None? {
        return;
      }
      results := results[FirstStlPathKey := firstStlPath];

      var firstImageResult := render(firstStlPath.value, CodeExecution.JoinPath(outputDir, FirstImage));
      results := results[FirstImagePathKey := firstImageResult];

      var verificationResult, newPrompt;
      verificationResult, newPrompt, verifierCalls :=
        VerifyOrFallback(initialPrompt, cleanedFirstCode.value, firstImageResult);
      results := results[VerificationResultKey := Some(verificationResult)][NewPromptKey := Some(newPrompt)];
      refined := Some(newPrompt);
    }

    /** Round two of `run_pipeline`; the entries of round one are kept. */
    method SecondRound(results0: map<Key, Option<string>>, newPrompt: string)
      returns (results: map<Key, Option<string>>)
      ensures results == RoundTwo(results0, newPrompt)
    {
      results := results0;
      var secondCode := infer(newPrompt);
      results := results[SecondCodeKey := Some(secondCode)];

      var cleanedSecondCode := clean(secondCode, SecondStl);
      if cleanedSecondCode.None? {
        return;
      }
      results := results[CleanedSecondCodeKey := cleanedSecondCode];

      var secondStlPath := execute(cleanedSecondCode.value, SecondStl);
      if secondStlPath.None? {
        return;
      }
      results := results[SecondStlPathKey := secondStlPath];

      var secondImageResult := render(secondStlPath.value, CodeExecution.JoinPath(outputDir, SecondImage));
      results := results[SecondImagePathKey := secondImageResult];
    }

    /**
     * `run_pipeline(initial_prompt)`: the two rounds, stopping with the
     * entries gathered so far when a cleaning or an execution gives None.
     * `verifierCalls` is the ghost count of verifier calls made in this run.
     */
    method RunPipeline(initialPrompt: string)
      returns (results: map<Key, Option<string>>, ghost verifierCalls: nat)
      ensures results == Outcome(initialPrompt)
      ensures verifierCalls == (if FirstImagePathKey in results && Truthy(results[FirstImagePathKey]) then 1 else 0)
    {
      var refined;
      results, verifierCalls, refined := FirstRound(initialPrompt);
      if refined.None? {
        return;
      }
      results := SecondRound(results, refined.value);
    }

    // -------------------------------------------------------------------
    // Properties of a run
    // -------------------------------------------------------------------

    /** A failed first cleaning ends the run with only `first_code`. */
    lemma StopsAfterFirstCleaning(initialPrompt: string)
      requires FirstCleaned(initialPrompt).None?
      ensures Outcome(initialPrompt) == map[FirstCodeKey := Some(infer(initialPrompt))]
    {
    }

    /** A failed first execution ends the run with exactly `first_code` and `cleaned_first_code`. */
    lemma StopsAfterFirstExecution(initialPrompt: string)
      requires FirstCleaned(initialPrompt).Some? && execute(FirstCleaned(initialPrompt).value, FirstStl).None?
      ensures Outcome(initialPrompt).Keys == {FirstCodeKey, CleanedFirstCodeKey}
      ensures Outcome(initialPrompt)[CleanedFirstCodeKey] == FirstCleaned(initialPrompt)
    {
    }

    /**
     * Once the first STL exists, the image entry is recorded whatever the
     * renderer returned, the refinement follows the verifier or the
     * fallback, and the second generation runs on the new requirement.
     */
    lemma RoundOneCompletes(initialPrompt: string)
      requires FirstCleaned(initialPrompt).Some? && execute(FirstCleaned(initialPrompt).value, FirstStl).Some?
      ensures var results := Outcome(initialPrompt);
              var stl := execute(FirstCleaned(initialPrompt).value, FirstStl);
              var image := render(stl.value, CodeExecution.JoinPath(outputDir, FirstImage));
              var r := Refinement(initialPrompt, FirstCleaned(initialPrompt).value, image);
              && RoundOneKeys + {SecondCodeKey} <= results.Keys
              && results[FirstStlPathKey] == stl
              && results[FirstImagePathKey] == image
              && results[NewPromptKey] == Some(r.newPrompt)
              && results[VerificationResultKey] == Some(r.verification)
              && results[SecondCodeKey] == Some(infer(r.newPrompt))
    {
    }

    /**
     * In round two a failed cleaning or execution ends the run without
     * any later key; otherwise all ten keys are present.
     */
    lemma RoundTwoExits(initialPrompt: string)
      requires RoundOne(initialPrompt).refined.Some?
      ensures var results := Outcome(initialPrompt);
              var cleaned := clean(results[SecondCodeKey].value, SecondStl);
              && (cleaned.None? ==> results.Keys == RoundOneKeys + {SecondCodeKey})
              && (cleaned.Some? ==>
                    var stl := execute(cleaned.value, SecondStl);
                    && results[CleanedSecondCodeKey] == cleaned
                    && (stl.None? ==> results.Keys == RoundOneKeys + {SecondCodeKey, CleanedSecondCodeKey})
                    && (stl.Some? ==>
                          && results.Keys == AllKeys
                          && results[SecondStlPathKey] == stl
                          && results[SecondImagePathKey] == render(stl.value, CodeExecution.JoinPath(outputDir, SecondImage))))
    {
    }

    /** Without a truthy first image the verifier is not consulted and the fallback texts are recorded. */
    lemma FallbackWithoutImage(initialPrompt: string)
      requires RoundOne(initialPrompt).refined.Some?
      requires !Truthy(Outcome(initialPrompt)[FirstImagePathKey])
      ensures Outcome(initialPrompt)[NewPromptKey] == Some(FallbackPrompt(initialPrompt))
      ensures Outcome(initialPrompt)[VerificationResultKey] ==
                Some(FallbackVerification(FallbackPrompt(initialPrompt)))
    {
    }

    /**
     * `run_single_step(step_name, **kwargs)`: an unknown name gives None;
     * a known one runs that step on arguments of its own shape.
     */
    method RunSingleStep(stepName: string, args: StepArgs) returns (r: Option<StepResult>)
      requires StepMap(stepName) == Some(Inference) ==> args.InferenceArgs?
      requires StepMap(stepName) == Some(Cleaning) ==> args.CleaningArgs?
      requires StepMap(stepName) == Some(Execution) ==> args.ExecutionArgs?
      requires StepMap(stepName) == Some(Rendering) ==> args.RenderingArgs?
      requires StepMap(stepName) == Some(Verification) ==> args.VerificationArgs?
      ensures r.None? <==> StepMap(stepName).None?
      ensures args.InferenceArgs? && StepMap(stepName).Some? ==>
                r == Some(Single(Some(infer(args.inputPrompt))))
      ensures args.CleaningArgs? && StepMap(stepName).Some? ==>
                r == Some(Single(clean(args.rawCode, args.outputFilename)))
      ensures args.ExecutionArgs? && StepMap(stepName).Some? ==>
                r == Some(Single(execute(args.code, args.outputFilename)))
      ensures args.RenderingArgs? && StepMap(stepName).Some? ==>
                r == Some(Single(render(args.stlPath, args.imagePath)))
      ensures args.VerificationArgs? && StepMap(stepName).Some? ==>
                r == Some(Pair(verify(args.prompt, args.code, args.imagePath).0,
                               verify(args.prompt, args.code, args.imagePath).1))
    {
      var step := StepMap(stepName);
      if step.None? {
        return None;
      }
      match args {
        case InferenceArgs(inputPrompt) =>
          var output := infer(inputPrompt);
          r := Some(Single(Some(output)));
        case CleaningArgs(rawCode, outputFilename) =>
          var cleaned := clean(rawCode, outputFilename);
          r := Some(Single(cleaned));
        case ExecutionArgs(code, outputFilename) =>
          r := Some(Single(execute(code, outputFilename)));
        case RenderingArgs(stlPath, imagePath) =>
          r := Some(Single(render(stlPath, imagePath)));
        case VerificationArgs(prompt, code, imagePath) =>
          var (v, p) := verify(prompt, code, imagePath);
          r := Some(Pair(v, p));
      }
    }
  }
}
