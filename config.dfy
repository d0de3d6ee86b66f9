/** The settings of inference/config.py that the modelled steps read. */
module Config {

  /** The API key shipped in the configuration file. */
  const OpenAIApiKey: string := "<Your API Key>"

  /** The token budget shared by the prompt and the generated text. */
  const MaxNewTokens: nat := 1024

  /** Seconds the generated script may run. */
  const ExecutionTimeout: nat := 60

  /**
   * VERIFICATION_TEMPLATE, cut at its two placeholders `{prompt}` and
   * `{code}`; after `str.format` its doubled braces are single ones.
   */
  const TemplateHead: string := "\nPlease analyze this CAD design task:\n\nOriginal requirement: "
  const TemplateMiddle: string := "\n\nGenerated code:\n```python\n"
  const TemplateTail: string :=
    "\n```\n\n"
    + "Please examine the generated 3D model image and verify the following points:\n"
    + "1. Does the generated model meet the original requirements?\n"
    + "2. Is the code implementation correct?\n"
    + "3. If there are any issues, what are the specific problems?\n\n"
    + "Then please generate an improved design requirement for the next iteration. The new requirement should:\n"
    + "- Address any identified problems\n"
    + "- Be more precise and detailed\n"
    + "- Maintain consistency with the original requirement\n\n"
    + "Please respond in the following json format, and the output should be in English, do not generate any other text or code:\n"
    + "{\n"
    + "    \"Verification Result\": \"Correct/Has Issues\",\n"
    + "    \"Problem Description\": \"If there are issues, describe them in detail\",\n"
    + "    \"Improvement Suggestions\": \"Specific improvement recommendations\",\n"
    + "    \"Refined Requirement\": \"Improved detailed design requirement\"\n"
    + "}\n"
}
