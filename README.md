# CAD verification pipeline — a Dafny model

This project models the deterministic core of a CAD generation and
verification pipeline. A fine-tuned language model writes a CadQuery script
from a design requirement. The script is sanitised and run to produce a
binary STL file. The STL file is rendered, and a vision chat model checks
the picture against the requirement and proposes a refined requirement.
A second round then runs from that refined requirement.

The modules follow the Python source:

- `Text` (`text.dfy`) — the Python string operations the steps rely on:
  `find`, `in`, `strip`, `split('\n')`/`'\n'.join`, `replace`, and
  `split(sep, 1)[1]`. Each comes with its laws.
- `Config` (`config.dfy`) — the settings of `inference/config.py`. The
  verification template is cut at its two placeholders.
- `CodeCleaning` (`code_cleaning.dfy`) — `CodeCleaningStep.run` and
  `validate_code`. The regular expressions are explicit matchers that
  follow Python's backtracking semantics:
  - the export pattern is matched at every position;
  - `finditer`/`sub` scan left to right, without overlaps;
  - `findall` returns group 1, or the whole match for the group-less
    patterns.
- `CodeExecution` (`code_execution.dfy`) — the outcome logic of
  `CodeExecutionStep.run`, where the subprocess and the file system are
  parameters. Also the 80-byte header and 4-byte little-endian triangle
  count read by `validate_stl_file` and `get_stl_info`.
- `ApiVerification` (`api_verification.dfy`) — the key guards, the
  prompt, the in-order accumulation of streamed fragments, code-fence
  stripping before JSON parsing, `validate_api_key` and the layout of the
  saved result. The client and `json.loads` are parameters.
- `Inference` (`inference_step.dfy`) — prompt wrapping, the token budget
  `max(1, 1024 - input_length)`, `</s>` removal and the cut after the
  first `[/INST]`. The tokenizer and the model are parameters.
- `Pipeline` (`pipeline.dfy`) — `run_pipeline` as a two-round state
  machine over a `results` map, and `run_single_step`. Each step is a
  function of its inputs:
  - the constructor plugs in the modelled generator (`InferenceStep.Output`)
    and the modelled cleaner (`CodeCleaning.Sanitise`);
  - execution, rendering and verification are abstract.

  The dictionary keys are the constructors of `Key`, and `Key.Name` gives
  the string the source uses.

One behaviour of the cleaner is kept as written. When no export call is
found and a group-less pattern such as `result\s*=` matches first,
`findall` yields the whole match text, such as `result =`. The appended
call then reads `cq.exporters.export(result =, "…")`.
`CodeCleaning.BareNameTargetEndsWithEquals` states this.

## Model

| member | source | states |
|---|---|---|
| Text.OccursAt | inference/steps/code_cleaning_step.py:35 | `pat` occurs at index `i`: the building block every search, replacement and match is stated with |
| Text.Contains | inference/steps/code_cleaning_step.py:64 | Python's `pat in s`: an occurrence at some index; `Find` is non-negative exactly when it holds |
| Text.Find | inference/steps/code_cleaning_step.py:35 | `str.find`: non-negative exactly when the pattern occurs; then it occurs there and nowhere before |
| Text.FindFrom | inference/steps/code_cleaning_step.py:41 | the first occurrence at or after a position, or -1 when there is none from there on |
| Text.Strip | inference/steps/code_cleaning_step.py:58 | `str.strip`: the result is a contiguous slice of the input, with no whitespace at either end |
| Text.TrimStart | inference/steps/code_cleaning_step.py:58 | the suffix left after dropping leading whitespace; everything dropped is whitespace |
| Text.TrimEnd | inference/steps/code_cleaning_step.py:58 | the prefix left after dropping trailing whitespace; everything dropped is whitespace |
| Text.IsSpace | inference/steps/code_cleaning_step.py:53 | `\s` and the characters `str.strip` drops, within ASCII (see "## Left out") |
| Text.IsWordChar | inference/steps/code_cleaning_step.py:74 | `\w` within ASCII: letters, digits and `_` |
| Text.StripKeepsAbsence | inference/steps/code_cleaning_step.py:69 | stripping cannot create an occurrence of a pattern |
| Text.StripKeepsNonSpaceStart | inference/steps/code_cleaning_step.py:97 | text starting with a non-space only loses trailing whitespace |
| Text.StripOfTrimmed | inference/steps/code_cleaning_step.py:58 | text that neither starts nor ends with whitespace is its own strip, so stripping twice is stripping once |
| Text.StripDropsNewlines | inference/steps/code_cleaning_step.py:69 | stripping stripped text followed by two newlines gives the text back |
| Text.Lines | inference/steps/code_cleaning_step.py:61 | `split('\n')` gives at least one piece, and no piece holds a newline |
| Text.JoinLines | inference/steps/code_cleaning_step.py:66 | `'\n'.join(ls)`; `JoinLinesOfLines` and `LinesOfJoinLines` pair it with `Lines`, and `JoinLinesKeepsAbsence` shows joining adds no newline-free pattern |
| Text.JoinLinesOfLines | inference/steps/code_cleaning_step.py:61-66 | joining the pieces of a split gives the text back |
| Text.LinesOfJoinLines | inference/steps/code_cleaning_step.py:61-66 | splitting a join of newline-free lines gives the lines back |
| Text.JoinLinesKeepsAbsence | inference/steps/code_cleaning_step.py:66 | joining lines that lack a newline-free pattern cannot create it |
| Text.LinesKeepAbsence | inference/steps/code_cleaning_step.py:61 | no piece of a split holds a pattern the text does not hold |
| Text.ContainsAcrossNewline | inference/steps/code_cleaning_step.py:66 | a newline-free pattern cannot straddle a newline |
| Text.IndexOf | inference/steps/code_cleaning_step.py:61 | the first index of a character, or -1 when it is absent |
| Text.ReplaceAll | inference/steps/inference_step.py:77 | `str.replace`: a replacement no longer than the pattern never lengthens the text; with `ReplaceAllWithout` and `ReplaceAllAt` its result is determined for every input |
| Text.ReplaceAllWithout | inference/steps/inference_step.py:77 | text without the pattern comes back unchanged |
| Text.ReplaceAllAt | inference/steps/inference_step.py:77 | the first occurrence is replaced, the text before it is kept, and the pass goes on right after it |
| Text.ReplaceAllSkips | inference/steps/api_verification_step.py:162 | a prefix that cannot start the pattern passes through a replacement unchanged |
| Text.AfterFirst | inference/steps/inference_step.py:80 | `split(sep, 1)[1]`: the suffix right after the first occurrence of the separator |
| Text.ContainsInSlice | inference/steps/code_cleaning_step.py:50 | an occurrence inside a slice is an occurrence in the whole text |
| Text.InfixOfConcat | inference/steps/code_cleaning_step.py:69 | the middle part of a concatenation occurs at the length of the first part |
| Text.ContainsPrefixOf | inference/steps/code_cleaning_step.py:35-41 | a text containing a pattern contains every prefix of it |
| CodeCleaning.FirstPresent | inference/steps/code_cleaning_step.py:35-44 | the first marker in priority order that occurs; none before it occurs; None exactly when none occurs |
| CodeCleaning.MarkerStart | inference/steps/code_cleaning_step.py:35-48 | -1, or a position within the text |
| CodeCleaning.LocateImport | inference/steps/code_cleaning_step.py:35-48 | the loop over the alternative markers yields the start of the first marker present, in priority order |
| CodeCleaning.SanitiseFailsIffNoMarker | inference/steps/code_cleaning_step.py:35-48 | `run` returns None exactly when none of the four markers occurs |
| CodeCleaning.AliasMarkerNeverChosen | inference/steps/code_cleaning_step.py:35-44 | "import cadquery as cq" is never the chosen marker, because "import cadquery" matches first |
| CodeCleaning.MarkersAreTrimmed | inference/steps/code_cleaning_step.py:35-39 | every marker is non-empty and has no surrounding whitespace |
| CodeCleaning.SanitiseIgnoresTextBeforeMarker | inference/steps/code_cleaning_step.py:50 | the text before the first occurrence of the chosen marker is discarded: running on the rest gives the same result |
| CodeCleaning.SkipSpaces | inference/steps/code_cleaning_step.py:53 | `\s*`: the end of the maximal whitespace run |
| CodeCleaning.CommaFrom | inference/steps/code_cleaning_step.py:53 | the first comma from a position, the end of `[^,]+` |
| CodeCleaning.StlSuffixOnLine | inference/steps/code_cleaning_step.py:53 | the lazy `.*?\.stl['"]`: the first `.stl` followed by a quote before the line ends |
| CodeCleaning.CloseParenOnLine | inference/steps/code_cleaning_step.py:53 | the lazy `.*?\)`: the first `)` before the line ends |
| CodeCleaning.ArgumentSpan | inference/steps/code_cleaning_step.py:53 | `\(\s*([^,]+),`: group 2 starts after the `(`, is non-empty and comma-free, and ends at a comma |
| CodeCleaning.CallEnd | inference/steps/code_cleaning_step.py:53 | the rest of the pattern after the comma: when it matches, it ends just after a `)`, and a `.stl` followed by a quote lies between the comma and that `)` |
| CodeCleaning.ArgumentsAt | inference/steps/code_cleaning_step.py:53 | the argument part of the export pattern after `(`: a non-empty comma-free first argument, a comma, then a `.stl` and a quote, and the match ends just after a `)` |
| CodeCleaning.MatchCallAt | inference/steps/code_cleaning_step.py:53 | a match of the pattern found from a position is well formed and starts there |
| CodeCleaning.MatchExportAt | inference/steps/code_cleaning_step.py:53 | the optional `cq.` prefix is tried first; any match is well formed and starts at the position |
| CodeCleaning.ExportMatchesFrom | inference/steps/code_cleaning_step.py:54 | `finditer`: well-formed matches from the scan start on, pairwise disjoint and in increasing order |
| CodeCleaning.ExportMatches | inference/steps/code_cleaning_step.py:53-54 | `list(re.finditer(export_pattern, cleaned))`: `ExportMatchesLeftmost` at position 0 fixes it as the leftmost match followed by the scan resumed at its end |
| CodeCleaning.ExportMatchesLeftmost | inference/steps/code_cleaning_step.py:54 | `finditer` finds nothing exactly when the pattern matches at no position; otherwise its first match is the match at the leftmost matching position, and the rest is the scan resumed at its end |
| CodeCleaning.NoExportMatchFound | inference/steps/code_cleaning_step.py:54 | where the pattern matches nowhere, `finditer` finds nothing |
| CodeCleaning.NoExportBeforeFirst | inference/steps/code_cleaning_step.py:54 | the pattern matches at no position before the first match found, nor anywhere when none is found |
| CodeCleaning.ExportMatchesFirst | inference/steps/code_cleaning_step.py:54 | the first match found is the pattern's match at its start, and the scan resumes at its end |
| CodeCleaning.ExportMatchesAt | inference/steps/code_cleaning_step.py:54 | the match at the leftmost matching position comes first, followed by the scan from its end |
| CodeCleaning.RemoveExportsFrom | inference/steps/code_cleaning_step.py:59 | `re.sub(…, "")`: never longer, and unchanged when there is no match |
| CodeCleaning.RemoveExports | inference/steps/code_cleaning_step.py:60 | `re.sub(export_pattern, "", cleaned)`: `RemoveExportsKeepsGaps` at position 0 fixes it as the gaps between consecutive matches |
| CodeCleaning.RemoveExportsKeepsGaps | inference/steps/code_cleaning_step.py:54-59 | `re.sub` with an empty replacement keeps exactly the text between consecutive `finditer` matches, in order: each match is cut whole and nothing else is |
| CodeCleaning.GapsHead | inference/steps/code_cleaning_step.py:59 | a match at the scan position leaves an empty gap before it |
| CodeCleaning.GapsCons | inference/steps/code_cleaning_step.py:59 | a character before the first match belongs to the first gap |
| CodeCleaning.FirstArgument | inference/steps/code_cleaning_step.py:58 | group 2 is non-empty and holds no comma |
| CodeCleaning.MentionsExporters | inference/steps/code_cleaning_step.py:64 | `re.search(r"(cq\.)?exporters\.", line)`: holds exactly when the line contains `exporters.`, since the optional prefix changes nothing |
| CodeCleaning.KeptLines | inference/steps/code_cleaning_step.py:63-65 | a line is kept exactly when it is one of the input lines and does not mention `exporters.` |
| CodeCleaning.KeptLinesAppend | inference/steps/code_cleaning_step.py:62-65 | the filter keeps order: filtering two runs of lines is filtering each and concatenating |
| CodeCleaning.KeptLinesKeepsAll | inference/steps/code_cleaning_step.py:62-65 | when no line mentions `exporters.`, every line is kept |
| CodeCleaning.DropExportLines | inference/steps/code_cleaning_step.py:62-66 | the line loop keeps exactly the lines `KeptLines` keeps |
| CodeCleaning.WordEnd | inference/steps/code_cleaning_step.py:74 | `\w+`: the end of the maximal word run |
| CodeCleaning.LineEnd | inference/steps/code_cleaning_step.py:74 | `.*` stops at the end of the line |
| CodeCleaning.LastOccurrence | inference/steps/code_cleaning_step.py:74 | the greedy `.*` before `.op(` backtracks to the last occurrence on the line |
| CodeCleaning.MatchResultAt | inference/steps/code_cleaning_step.py:74-85 | a match of a result pattern ends after its start and has the pattern's shape (an identifier, or a name, whitespace and `=`) |
| CodeCleaning.FindAllFrom | inference/steps/code_cleaning_step.py:90 | `findall`: every item has the pattern's shape |
| CodeCleaning.FindAll | inference/steps/code_cleaning_step.py:90 | `re.findall(pattern, cleaned)`: `FindAllLeftmost`, `NoResultFound` and `NothingFoundNoResult` at position 0 fix its first item and when it is empty |
| CodeCleaning.NoResultFound | inference/steps/code_cleaning_step.py:90 | where the pattern matches nowhere, `findall` finds nothing |
| CodeCleaning.NothingFoundNoResult | inference/steps/code_cleaning_step.py:90 | where `findall` finds nothing, the pattern matches at no position |
| CodeCleaning.FindAllLeftmost | inference/steps/code_cleaning_step.py:90 | the first item comes from the leftmost position where the pattern matches, and the scan resumes where that match ends |
| CodeCleaning.FirstMatchingPattern | inference/steps/code_cleaning_step.py:89-94 | the first pattern in priority order with any match; no earlier one matches |
| CodeCleaning.FirstMatchingPatternAt | inference/steps/code_cleaning_step.py:89-94 | the loop's stopping index is the first matching pattern |
| CodeCleaning.GuessResultVariable | inference/steps/code_cleaning_step.py:88-94 | the loop over the patterns breaks at the first that matches and keeps its last match, otherwise "result" |
| CodeCleaning.GuessResultVar | inference/steps/code_cleaning_step.py:88-94 | the last item of the first pattern in priority order with any match, or "result" (`FallbackBranch`); the loop `GuessResultVariable` is proved equal to it |
| CodeCleaning.ExportCall | inference/steps/code_cleaning_step.py:69 | `\n\ncq.exporters.export(<var>, "<file>")`; `AppendedCallIsFirstExport`, `CallMatchesAt` and `CallHasExportElement` state how the pattern and the validator see it |
| CodeCleaning.Body | inference/steps/code_cleaning_step.py:59-66 | with export calls, the kept lines of the text with every match cut, joined by newlines, which after stripping never mention `exporters.` (`KeptBodyOmitsExporters`); without, the text itself (`FallbackBranch`) |
| CodeCleaning.Target | inference/steps/code_cleaning_step.py:58 | with export calls, the stripped group 2 of the first match (`ExportBranch`, `TargetOfMatches`); without, `GuessResultVar` (`FallbackBranch`); comma-free and trimmed either way (`TargetIsTrimmed`) |
| CodeCleaning.Rewrite | inference/steps/code_cleaning_step.py:56-97 | the stripped body followed by the export call of the target; it always ends with that call (`RewriteEndsWithCall`) and is a fixed point under the conditions of `RewriteIdempotent` |
| CodeCleaning.Sanitise | inference/steps/code_cleaning_step.py:21-100 | what `run` returns: None exactly when no marker occurs (`SanitiseFailsIffNoMarker`); otherwise the rewrite of the text from the chosen marker on, unaffected by text before it (`SanitiseIgnoresTextBeforeMarker`) |
| CodeCleaning.Run | inference/steps/code_cleaning_step.py:21-100 | the step's result is the specification `Sanitise`, whose properties the lemmas state |
| CodeCleaning.RewriteEndsWithCall | inference/steps/code_cleaning_step.py:69 | every non-None result ends with `\n\ncq.exporters.export(<var>, "<output_filename>")` |
| CodeCleaning.ExportBranch | inference/steps/code_cleaning_step.py:56-69 | with export calls present, the variable is the stripped first argument of the first match, and the kept body never mentions `exporters.` |
| CodeCleaning.KeptBodyOmitsExporters | inference/steps/code_cleaning_step.py:61-66 | once export calls were found, the stripped kept body has no occurrence of `exporters.` |
| CodeCleaning.AppendedCallIsFirstExport | inference/steps/code_cleaning_step.py:60-69 | then the appended call holds the first `exporters.` of the result |
| CodeCleaning.FallbackBranch | inference/steps/code_cleaning_step.py:70-97 | without export calls, the body is the code itself; the variable is the last match of the first matching pattern, or "result" when none matches |
| CodeCleaning.BareNameTargetEndsWithEquals | inference/steps/code_cleaning_step.py:81-92 | for a group-less pattern the exported "variable" starts with the name and ends with `=` |
| CodeCleaning.FallbackKeepsMarker | inference/steps/code_cleaning_step.py:97 | without export calls the result still starts with the marker the code starts with |
| CodeCleaning.CallMatchesAt | inference/steps/code_cleaning_step.py:53 | the pattern matches an appended call `cq.exporters.export(<var>, "<file>")` from its `cq.` to its `)`, with the variable as group 2, when the variable starts with a non-space and has no comma and the filename ends in `.stl` with no quote or newline |
| CodeCleaning.CallMentionsExporters | inference/steps/code_cleaning_step.py:53 | both spellings of the call hold `exporters.`, at the start or after `cq.` |
| CodeCleaning.OnlyMatchAt | inference/steps/code_cleaning_step.py:54 | a text whose first `exporters.` lies in an appended call has that call as its only match |
| CodeCleaning.RewrittenRemoval | inference/steps/code_cleaning_step.py:59 | cutting the only match, which runs to the end, leaves the text before it |
| CodeCleaning.BodyOfCleanRemoval | inference/steps/code_cleaning_step.py:59-66 | when the cut text never mentions `exporters.`, the line loop keeps all of it |
| CodeCleaning.TargetOfMatches | inference/steps/code_cleaning_step.py:57 | with export calls, the variable is the stripped group 2 of the first |
| CodeCleaning.RewrittenBody | inference/steps/code_cleaning_step.py:59-66 | the body kept from a rewritten text is everything before its call |
| CodeCleaning.RewrittenTarget | inference/steps/code_cleaning_step.py:57 | the call of a rewritten text exports the same variable again |
| CodeCleaning.RewriteAt | inference/steps/code_cleaning_step.py:53-69 | rewriting a rewritten text gives its body and the same call again |
| CodeCleaning.RewriteOfRewritten | inference/steps/code_cleaning_step.py:53-69 | the rewrite leaves a stripped body without `exporters.`, followed by an appended call, unchanged |
| CodeCleaning.NoMentionNoMatches | inference/steps/code_cleaning_step.py:53-54 | code that never mentions `exporters.` has no export call |
| CodeCleaning.PatternNamesAreWords | inference/steps/code_cleaning_step.py:81-85 | the names of the group-less patterns are non-empty identifiers |
| CodeCleaning.ItemIsTrimmed | inference/steps/code_cleaning_step.py:74-92 | an item of a fallback pattern has no comma and no surrounding whitespace |
| CodeCleaning.TargetIsTrimmed | inference/steps/code_cleaning_step.py:57-97 | the exported variable has no comma and no surrounding whitespace |
| CodeCleaning.RewriteIdempotent | inference/steps/code_cleaning_step.py:53-97 | rewriting twice is rewriting once, when the filename ends in `.stl` with no quote or newline, the variable is not empty, and the code mentions `exporters.` only if it has an export call |
| CodeCleaning.SanitiseIdempotent | inference/steps/code_cleaning_step.py:35-97 | under the same conditions, `run` on its own output gives that output back when it starts with "import cadquery" |
| CodeCleaning.FallbackStartsWithMarker | inference/steps/code_cleaning_step.py:70-97 | code from "import cadquery" on that never mentions `exporters.` has no export call, a non-empty variable, and a rewrite that starts with the marker |
| CodeCleaning.SanitiseIdempotentWithoutExports | inference/steps/code_cleaning_step.py:35-97 | code whose text from "import cadquery" on never mentions `exporters.` is sanitised once and for all: a second `run` changes nothing |
| CodeCleaning.ValidateCode | inference/steps/code_cleaning_step.py:114-136 | true exactly when "import cadquery", "cq.Workplane" and "cq.exporters.export" all occur |
| CodeCleaning.RewriteHasExportElement | inference/steps/code_cleaning_step.py:124-128 | every rewrite has the third required element |
| CodeCleaning.CallHasExportElement | inference/steps/code_cleaning_step.py:69 | the appended call holds "cq.exporters.export" two characters after the body |
| CodeExecution.JoinPath | inference/steps/code_execution_step.py:59 | `os.path.join`: the result ends with the file name; an absolute name replaces the directory |
| CodeExecution.CodeExecutionStep.constructor | inference/steps/code_execution_step.py:19-26 | records the output directory |
| CodeExecution.TempDir.constructor | inference/steps/code_execution_step.py:44-46 | the temporary directory starts empty |
| CodeExecution.CodeExecutionStep.Run | inference/steps/code_execution_step.py:30-85 | a path is returned exactly when the script exits with code 0 and the joined output path exists, and it is that path; timeout or exception gives None; the temporary file is gone afterwards |
| CodeExecution.ReadAt | inference/steps/code_execution_step.py:109-115 | `f.read(n)`: n bytes from the position, fewer at the end of the file |
| CodeExecution.FromLittleEndian | inference/steps/code_execution_step.py:120 | `int.from_bytes(b, byteorder='little')`: `DecodeEncode` and `EncodeDecode` pair it with `ToLittleEndian`, and `TriangleCountFits` bounds the four-byte count below 2^32 |
| CodeExecution.ToLittleEndian | inference/steps/code_execution_step.py:120 | a fixed-width little-endian encoding of a value that fits |
| CodeExecution.DecodeEncode | inference/steps/code_execution_step.py:120 | decoding the little-endian encoding gives the value back |
| CodeExecution.EncodeDecode | inference/steps/code_execution_step.py:120 | every byte string decodes to a value that fits its width and re-encodes to the same bytes |
| CodeExecution.ValidateStlFile | inference/steps/code_execution_step.py:87-126 | true exactly when the file exists and has at least 84 bytes, whatever the count value |
| CodeExecution.GetStlInfo | inference/steps/code_execution_step.py:128-161 | None for a missing file; otherwise path, size and existence, and the little-endian count of bytes 80..83, or 0 when they are missing |
| CodeExecution.StlHeaderRoundTrip | inference/steps/code_execution_step.py:106-122 | an 80-byte header, an encoded count and any records make a valid file whose reported count is that count |
| CodeExecution.TriangleCountFits | inference/steps/code_execution_step.py:152-154 | the reported count is below 2^32 |
| ApiVerification.VerificationPrompt | inference/steps/api_verification_step.py:86 | the filled template is exactly as long as its three fixed parts, the requirement and the code together |
| ApiVerification.PromptCarriesInputs | inference/config.py:27-36 | the filled template is its head, the requirement where `{prompt}` was, the middle, the code where `{code}` was, and the tail, in that order and with nothing between them |
| ApiVerification.Concat | inference/steps/api_verification_step.py:118-125 | the in-order concatenation of the delta contents that are not None; `ConcatAppend` and `ConcatStep` state how it splits, and the loop invariant of `APIVerificationStep.Run` ties the accumulation to it |
| ApiVerification.ConcatAppend | inference/steps/api_verification_step.py:118-125 | the accumulated reply distributes over any split of the stream |
| ApiVerification.ConcatStep | inference/steps/api_verification_step.py:121-125 | a chunk without content adds nothing; one with content adds it at the end |
| ApiVerification.StripFences | inference/steps/api_verification_step.py:162 | every "```json" removed, then every "```", each in one `str.replace` pass; `NoBacktickUnchanged` and `FencedReplyUnwrapped` state its effect |
| ApiVerification.NoBacktickUnchanged | inference/steps/api_verification_step.py:162 | text without a backtick reaches the parser unchanged |
| ApiVerification.FencedReplyUnwrapped | inference/steps/api_verification_step.py:162 | a reply wrapped in a json code fence reaches the parser as the text inside it |
| ApiVerification.ExtractNewPrompt | inference/steps/api_verification_step.py:147-181 | a requirement exactly when the unfenced reply parses to an object with a non-null "Refined Requirement", and then that value |
| ApiVerification.FencesAreTransparent | inference/steps/api_verification_step.py:162-165 | a fenced reply yields the same requirement as the bare JSON |
| ApiVerification.KeyRejected | inference/steps/api_verification_step.py:75 | the guard of `run`: the key is empty or the placeholder; `ValidationRefinesGuard` and `GuardWeakerThanValidation` relate it to `ValidateApiKey` |
| ApiVerification.ValidateApiKey | inference/steps/api_verification_step.py:202-214 | a key is accepted exactly when it is not empty, is not the placeholder `YOUR_OPENAI_API_KEY_HERE`, and is longer than ten characters |
| ApiVerification.ValidationRefinesGuard | inference/steps/api_verification_step.py:75-77 | `validate_api_key` accepts a key exactly when it passes the guard of `run` and is longer than ten characters |
| ApiVerification.ShippedKeyAccepted | inference/config.py:12 | the shipped placeholder "<Your API Key>" passes both checks |
| ApiVerification.GuardWeakerThanValidation | inference/steps/api_verification_step.py:75-77 | some key passes the guard of `run` and fails `validate_api_key` |
| ApiVerification.SavedText | inference/steps/api_verification_step.py:194-197 | the text `save_result` writes; `SavedTextLayout` states its three sections in order and the final newline |
| ApiVerification.SavedTextLayout | inference/steps/api_verification_step.py:194-197 | the saved file is the "Original Requirement", "Verification Result" and "Refined Requirement" sections, in that order, ending with a newline |
| ApiVerification.OrElse | inference/steps/api_verification_step.py:31-33 | Python's `value or default` on an optional string: None and "" fall back to the default |
| ApiVerification.APIVerificationStep.constructor | inference/steps/api_verification_step.py:22-33 | each setting falls back to the configured one when missing or empty |
| ApiVerification.APIVerificationStep.Request | inference/steps/api_verification_step.py:93-115 | the one request `run` sends: the step's URL, key and model, the filled template (`PromptCarriesInputs`), the PNG data URL of the image and `max_tokens=1000` |
| ApiVerification.APIVerificationStep.Run | inference/steps/api_verification_step.py:60-145 | (None, None) for a rejected key, a missing or empty image, an exception or an empty reply; otherwise the in-order concatenation of the non-None deltas and the requirement extracted from it |
| Inference.Prompt | inference/steps/inference_step.py:56 | the requirement sits between "<s>[INST] " and " [/INST]" |
| Inference.TokenBudget | inference/steps/inference_step.py:60-61 | at least 1; exactly 1024 minus the input length when that is below 1024; input plus budget reaches 1024 |
| Inference.RemoveEndOfSequence | inference/steps/inference_step.py:76-77 | the membership test is redundant: the result is one replace pass, and never longer |
| Inference.RemoveEndOfSequenceAt | inference/steps/inference_step.py:77 | the text before the first "</s>" is kept, that marker is dropped, and the removal goes on after it |
| Inference.RemoveEndOfSequenceWithout | inference/steps/inference_step.py:76-77 | output without "</s>" is returned unchanged |
| Inference.RemovalIsSinglePass | inference/steps/inference_step.py:77 | "<</s>/s>" becomes "</s>": a marker that a removal creates survives |
| Inference.AfterInstruction | inference/steps/inference_step.py:79-80 | unchanged without "[/INST]"; otherwise the stripped text after its first occurrence |
| Inference.EchoedPromptCut | inference/steps/inference_step.py:79-80 | when the requirement holds no "[/INST]" and the decoded text echoes the prompt, the cut leaves exactly the stripped answer, including any later "[/INST]" |
| Inference.PostProcess | inference/steps/inference_step.py:76-80 | "</s>" removal, then the cut after the first "[/INST]": `RemoveEndOfSequenceAt`, `RemoveEndOfSequenceWithout`, `AfterInstruction` and `EchoedPromptCut` state its parts |
| Inference.InferenceStep.constructor | inference/steps/inference_step.py:20-29 | model paths fall back to the configured ones |
| Inference.InferenceStep.Output | inference/steps/inference_step.py:43-83 | the post-processed generation for the wrapped prompt within the token budget; `Run` is proved equal to it |
| Inference.InferenceStep.Run | inference/steps/inference_step.py:43-83 | the post-processed generation for the wrapped prompt, within the token budget |
| Pipeline.FallbackPrompt | inference/inference_and_verify.py:117 | the fallback requirement frames the initial one between a fixed head and tail |
| Pipeline.FallbackVerification | inference/inference_and_verify.py:118 | the fallback verification text is a fixed notice followed by the fallback requirement |
| Pipeline.Fallback | inference/inference_and_verify.py:115-118 | the fallback requirement and the verification text that quotes it |
| Pipeline.StepMap | inference/inference_and_verify.py:231-242 | exactly the five step names are known, each to its own step |
| Pipeline.KeyNamesDistinct | inference/inference_and_verify.py:64-173 | distinct keys are distinct dictionary entries |
| Pipeline.CADVerificationPipeline.constructor | inference/inference_and_verify.py:23-44 | the output directory falls back to "./output"; the generator and the cleaner are the modelled ones |
| Pipeline.Truthy | inference/inference_and_verify.py:110 | Python truthiness of an optional string: present and not empty; `VerifyOrFallback` calls the verifier exactly when the image is truthy |
| Pipeline.CADVerificationPipeline.Refinement | inference/inference_and_verify.py:108-118 | without a truthy image the fallback is used; otherwise the verifier's pair when both parts are present, the fallback when either is None |
| Pipeline.CADVerificationPipeline.VerifyOrFallback | inference/inference_and_verify.py:106-118 | the verifier is called once if the image path is truthy and not at all otherwise |
| Pipeline.CADVerificationPipeline.RoundOne | inference/inference_and_verify.py:59-132 | the entries of round one and the requirement for round two; `StopsAfterFirstCleaning`, `StopsAfterFirstExecution`, `RoundOneCompletes` and `FallbackWithoutImage` state them, and `FirstRound` is proved equal to it |
| Pipeline.CADVerificationPipeline.RoundTwo | inference/inference_and_verify.py:129-173 | what round two adds to round one's entries; `RoundTwoExits` states its early exits and full key set, and `SecondRound` is proved equal to it |
| Pipeline.CADVerificationPipeline.Outcome | inference/inference_and_verify.py:48-177 | the `results` map: round one's entries, extended by round two when a requirement for it exists; `RunPipeline` returns it and the five exit lemmas state its keys and values |
| Pipeline.CADVerificationPipeline.FirstRound | inference/inference_and_verify.py:59-121 | the entries and the refined requirement are those of `RoundOne`, and the verifier is called once exactly when a truthy first image was recorded |
| Pipeline.CADVerificationPipeline.SecondRound | inference/inference_and_verify.py:129-173 | the entries are those of `RoundTwo` on round one's map and the refined requirement |
| Pipeline.CADVerificationPipeline.RunPipeline | inference/inference_and_verify.py:48-177 | the returned map is `Outcome` of the requirement, and the verifier is called once exactly when a truthy first image was recorded |
| Pipeline.CADVerificationPipeline.StopsAfterFirstCleaning | inference/inference_and_verify.py:63-77 | a failed first cleaning ends the run holding only `first_code`, the generated code |
| Pipeline.CADVerificationPipeline.StopsAfterFirstExecution | inference/inference_and_verify.py:79-91 | a failed first execution ends the run holding exactly `first_code` and `cleaned_first_code` |
| Pipeline.CADVerificationPipeline.RoundOneCompletes | inference/inference_and_verify.py:93-132 | once the first STL exists, `first_image_path` is recorded even as None, the refinement is recorded, and the second generation runs on the new requirement |
| Pipeline.CADVerificationPipeline.RoundTwoExits | inference/inference_and_verify.py:138-173 | a failed second cleaning or execution ends the run without later keys; a full run holds all ten keys with the second STL and image paths |
| Pipeline.CADVerificationPipeline.FallbackWithoutImage | inference/inference_and_verify.py:106-118 | without a truthy first image the recorded requirement and verification are the fallback texts |
| Pipeline.CADVerificationPipeline.RunSingleStep | inference/inference_and_verify.py:220-245 | None for any name outside the five-entry map; otherwise that step's result on the given arguments |

## Left out

- File writes: `save_result` of the generator, the cleaner and the verifier, and `os.makedirs`. Only the text layout of the verification file is modelled (`ApiVerification.SavedText`).
- `print`, `traceback` output, `_print_partial_results`, `_print_complete_results`, and the `__main__` blocks and `main`.
- The rendering step (matplotlib). The pipeline takes it as an abstract function from the STL path and image path to an optional image path.
- The pipeline takes execution and verification as abstract functions too. The modelled `CodeExecutionStep.Run` and `APIVerificationStep.Run` are not plugged in, because they need the subprocess, file system, stream and parser as further parameters.
- Tokenizer, model loading and generation: parameters of `InferenceStep`. `do_sample=False`, so generation is taken to be a function.
- The OpenAI client and transport: a parameter that maps a `ChatRequest` to a `Stream`. The float `temperature=0.1` is not part of `ChatRequest`. An exception in mid-stream is one `Raised` outcome; the source then also returns (None, None).
- Base64 encoding: `Run` receives its result. An empty image gives an empty string, which the guard rejects like None.
- `json.loads`: a parameter. Only objects with string or null values are represented. Non-string "Refined Requirement" values are not modelled.
- `ApiVerification.ExtractNewPrompt`: of the outer `except`, only the error it can catch here is modelled: `.get` on parsed JSON that is not an object raises, and the result is None (`NotAnObject`). The debug prints are left out.
- `CodeExecution.CodeExecutionStep.Run`: the file system is not modelled beyond its effects.
  - The subprocess is a parameter (`spawn`), and so is the set of paths that exist after it has run.
  - Failure to create the temporary file, which the source does outside its `try`, is assumed not to happen.
  - Standard output and error are only printed, so they are left out.
- `CodeExecution.ValidateStlFile`, `CodeExecution.GetStlInfo`: read errors other than a missing file (permissions, I/O) are not modelled. The file is its contents, or None when it is missing.
- Character classes: Python's `\s`, `\w` and `str.strip()` are Unicode-aware. The model's whitespace is the part of it in the ASCII range: space, \t, \n, \r, \v, \f and U+001C to U+001F. Its word characters are `[A-Za-z0-9_]`. Whitespace and letters outside ASCII (such as U+0085, U+00A0 or accented letters) are not modelled.
- `Pipeline.CADVerificationPipeline.RunSingleStep`: it requires the keyword arguments to fit the named step. In the source, a mismatch raises `TypeError` inside the step.
- `Pipeline.CADVerificationPipeline.RunPipeline`: `results` is keyed by the `Key` datatype rather than by strings. `Key.Name` gives each key's string, and `KeyNamesDistinct` shows that the strings are distinct.
- `CodeCleaning.SanitiseIdempotent`, `CodeCleaning.RewriteIdempotent`: the cleaner is not idempotent in general, and the lemmas state the conditions under which it is. Outside them the source gives a different second result:
  - an output filename that does not end in `.stl`, or holds a quote or a newline: the pattern does not recognise the appended call, so a second run appends a second call;
  - code without an export call that mentions `exporters.` elsewhere, such as a line `exporters.export(r, 'x.step')`: the first run keeps that line, and the second drops it;
  - an export call whose first argument is only whitespace: the appended call exports an empty name, which the pattern does not match;
  - output that does not start with "import cadquery", for example when the marker line also mentions `exporters.` and is dropped, so that a second run may pick another marker or none.
