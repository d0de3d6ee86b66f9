/**
 * The generated-code sanitiser: `CodeCleaningStep.run` and
 * `CodeCleaningStep.validate_code`.
 *
 * `run` keeps the generated text from the first CadQuery import on, and
 * makes it end with one export of the final shape to the requested STL
 * file. The three regular expressions it uses are written out below as
 * matchers with the leftmost, backtracking semantics of Python's `re`
 * module (`finditer`, `sub`, `search`, `findall`).
 */
module CodeCleaning {
  import opened Wrappers
  import opened Text

  // ---------------------------------------------------------------------
  // Import markers
  // ---------------------------------------------------------------------

  /** The marker searched first. */
  const PrimaryMarker: string := "import cadquery"

  /** The alternative markers, tried in this order when the first is absent. */
  const AltMarkers: seq<string> := ["import cadquery as cq", "from cadquery import", "import cq"]

  /** Every marker, in the order `run` tries them. */
  const Markers: seq<string> := [PrimaryMarker] + AltMarkers

  /** The index into `markers` of the first one that occurs in `raw`, if any. */
  function FirstPresent(raw: string, markers: seq<string>): (r: Option<nat>)
    ensures r.Some? ==> r.value < |markers| && Contains(raw, markers[r.value])
    ensures r.Some? ==> forall j :: 0 <= j < r.value ==> !Contains(raw, markers[j])
    ensures r.None? ==> forall j :: 0 <= j < |markers| ==> !Contains(raw, markers[j])
  {
    if |markers| == 0 then None
    else if Contains(raw, markers[0]) then Some(0)
    else match FirstPresent(raw, markers[1..])
      case None => None
      case Some(k) => Some(k + 1)
  }

  /** Where the kept code starts: the first occurrence of the first marker present, or -1. */
  function MarkerStart(raw: string): (r: int)
    ensures r == -1 || (0 <= r <= |raw|)
  {
    match FirstPresent(raw, Markers)
    case None => -1
    case Some(k) => Find(raw, Markers[k])
  }

  // ---------------------------------------------------------------------
  // The export-call pattern
  //   (cq\.)?exporters\.export\s*\(\s*([^,]+),\s*['"].*?\.stl['"].*?\)
  // ---------------------------------------------------------------------

  /** One match of the export-call pattern: its extent and that of group 2. */
  datatype ExportMatch = ExportMatch(start: nat, end: nat, argStart: nat, argEnd: nat)

  predicate IsQuote(c: char) {
    c == '\'' || c == '"'
  }

  /** Greedy `\s*` from `i`: the first index at or after `i` that is not whitespace. */
  function SkipSpaces(s: string, i: nat): (j: nat)
    requires i <= |s|
    ensures i <= j <= |s| && (j == |s| || !IsSpace(s[j]))
    ensures forall k :: i <= k < j ==> IsSpace(s[k])
    decreases |s| - i
  {
    if i < |s| && IsSpace(s[i]) then SkipSpaces(s, i + 1) else i
  }

  /** No comma in `s[a..b]`. */
  predicate CommaFree(s: string, a: nat, b: nat)
    requires a <= b <= |s|
  {
    forall k :: a <= k < b ==> s[k] != ','
  }

  /** Greedy `[^,]+` from `i` ends at the first comma at or after `i`; -1 if there is none. */
  function CommaFrom(s: string, i: nat): (j: int)
    requires i <= |s|
    ensures j == -1 || (i <= j < |s| && s[j] == ',')
    ensures CommaFree(s, i, if j == -1 then |s| else j)
    decreases |s| - i
  {
    if i == |s| then -1 else if s[i] == ',' then i else CommaFrom(s, i + 1)
  }

  /** `\.stl['"]` at `j`. */
  predicate StlSuffixAt(s: string, j: int) {
    OccursAt(s, ".stl", j) && j + 4 < |s| && IsQuote(s[j + 4])
  }

  /** A `.stl` and a quote lie strictly between `a` and the character before `b`. */
  predicate StlBetween(s: string, a: int, b: int) {
    exists j :: a < j && j + 5 < b && StlSuffixAt(s, j)
  }

  /** `.*?\.stl['"]` from `i`: the nearest `.stl` and quote on the same line, or -1. */
  function StlSuffixOnLine(s: string, i: nat): (j: int)
    requires i <= |s|
    ensures j == -1 || (i <= j < |s| && StlSuffixAt(s, j))
    ensures j >= 0 ==> forall k :: i <= k < j ==> s[k] != '\n'
    ensures j >= 0 ==> forall k :: i <= k < j ==> !StlSuffixAt(s, k)
    decreases |s| - i
  {
    if StlSuffixAt(s, i) then i
    else if i == |s| || s[i] == '\n' then -1
    else StlSuffixOnLine(s, i + 1)
  }

  /** `.*?\)` from `i`: the nearest `)` on the same line, or -1. */
  function CloseParenOnLine(s: string, i: nat): (j: int)
    requires i <= |s|
    ensures j == -1 || (i <= j < |s| && s[j] == ')')
    ensures j >= 0 ==> forall k :: i <= k < j ==> s[k] != '\n' && s[k] != ')'
    decreases |s| - i
  {
    if i == |s| || s[i] == '\n' then -1
    else if s[i] == ')' then i
    else CloseParenOnLine(s, i + 1)
  }

  /** What every match of the export-call pattern looks like. */
  predicate WellFormedMatch(s: string, m: ExportMatch) {
    && m.start < m.argStart
    && (OccursAt(s, "exporters.export", m.start) || OccursAt(s, "cq.exporters.export", m.start))
    && WellFormedArgs(s, CallArgs(m.argStart, m.argEnd, m.end))
  }

  /** The argument part of an export call, from the `(` at `open` to the closing `)`. */
  datatype CallArgs = CallArgs(argStart: nat, argEnd: nat, end: nat)

  /**
   * What the argument part of every match looks like: a comma-free group 2
   * ended by a comma, then a `.stl` and a quote, then a closing `)`.
   */
  predicate WellFormedArgs(s: string, a: CallArgs) {
    && a.argStart < a.argEnd < a.end <= |s|
    && s[a.argEnd] == ','
    && CommaFree(s, a.argStart, a.argEnd)
    && s[a.end - 1] == ')'
    && StlBetween(s, a.argEnd, a.end)
  }

  /**
   * `\(\s*([^,]+),\s*['"].*?\.stl['"].*?\)` with the `(` at `open`.
   * Backtracking can change only one choice: when the greedy `\s*` after
   * `(` leaves nothing for `[^,]+` (the next character is the comma), it
   * gives back one whitespace character, so group 2 is then that single
   * character. Every later choice that fails would fail again after any
   * earlier choice is revised.
   */
  function ArgumentsAt(s: string, open: nat): (r: Option<CallArgs>)
    requires open < |s| && s[open] == '('
    ensures r.Some? ==> open < r.value.argStart && WellFormedArgs(s, r.value)
  {
    var span := ArgumentSpan(s, open);
    if span.None? then None else ArgumentsAfter(s, open, span.value.0, span.value.1)
  }

  /** The part of the pattern after group 2's comma, given where group 2 lies. */
  function ArgumentsAfter(s: string, open: nat, start: nat, comma: nat): (r: Option<CallArgs>)
    requires GroupSpan(s, open, (start, comma))
    ensures r.Some? ==> open < r.value.argStart && WellFormedArgs(s, r.value)
  {
    var end := CallEnd(s, comma + 1);
    if end < 0 then None else Some(CallArgs(start, comma, end))
  }

  /** Group 2 lies after the `(` at `open`, is comma-free and is followed by a comma. */
  predicate GroupSpan(s: string, open: nat, span: (nat, nat)) {
    && open < span.0 < span.1 < |s|
    && s[span.1] == ','
    && CommaFree(s, span.0, span.1)
  }

  /**
   * `\(\s*([^,]+),` with the `(` at `open`: where group 2 starts and
   * where its comma is.
   */
  function ArgumentSpan(s: string, open: nat): (r: Option<(nat, nat)>)
    requires open < |s| && s[open] == '('
    ensures r.Some? ==> GroupSpan(s, open, r.value)
  {
    var k := SkipSpaces(s, open + 1);
    var comma := CommaFrom(s, k);
    if comma < 0 || (comma == k && k == open + 1) then None
    else if comma > k then Some((k, comma))
    else
      assert CommaFree(s, k - 1, comma) by { assert IsSpace(s[k - 1]); }
      Some((k - 1, comma))
  }

  /**
   * `\s*['"].*?\.stl['"].*?\)` from `i`, the rest of the pattern after the
   * comma: one past the closing `)`, or -1 when it does not match.
   */
  function CallEnd(s: string, i: nat): (end: int)
    requires i <= |s|
    ensures end == -1 || (i < end <= |s| && s[end - 1] == ')' && StlBetween(s, i, end))
    decreases |s| - i
  {
    if i < |s| && IsSpace(s[i]) then CallEnd(s, i + 1)
    else if i == |s| || !IsQuote(s[i]) then -1
    else
      var stl := StlSuffixOnLine(s, i + 1);
      if stl < 0 then -1
      else
        var close := CloseParenOnLine(s, stl + 5);
        if close < 0 then -1 else close + 1
  }

  /** The rest of the pattern after the optional `cq.`, tried at `q` for a match starting at `start`. */
  function MatchCallAt(s: string, start: nat, q: nat): (r: Option<ExportMatch>)
    requires start <= q <= |s|
    requires q == start || (OccursAt(s, "cq.", start) && q == start + 3)
    ensures r.Some? ==> WellFormedMatch(s, r.value) && r.value.start == start
  {
    if !OccursAt(s, "exporters.export", q) then None
    else
      var open := SkipSpaces(s, q + 16);
      if open == |s| || s[open] != '(' then None
      else match ArgumentsAt(s, open)
        case None => None
        case Some(a) =>
          assert a == CallArgs(a.argStart, a.argEnd, a.end);
          if q != start then
            PrefixedCall(s, start);
            Some(ExportMatch(start, a.end, a.argStart, a.argEnd))
          else
            Some(ExportMatch(start, a.end, a.argStart, a.argEnd))
  }

  /** `cq.` followed by `exporters.export` is `cq.exporters.export`. */
  lemma PrefixedCall(s: string, start: nat)
    requires OccursAt(s, "cq.", start) && OccursAt(s, "exporters.export", start + 3)
    ensures OccursAt(s, "cq.exporters.export", start)
  {
    QualifiedName();
    assert s[start..start + 19] == s[start..start + 3] + s[start + 3..start + 19];
  }

  lemma QualifiedName()
    ensures "cq." + "exporters.export" == "cq.exporters.export"
  {
  }

  /** The pattern tried at `p`: first with the optional `cq.` taken, then without it. */
  function MatchExportAt(s: string, p: nat): (r: Option<ExportMatch>)
    requires p <= |s|
    ensures r.Some? ==> WellFormedMatch(s, r.value) && r.value.start == p
  {
    var withPrefix := if OccursAt(s, "cq.", p) then MatchCallAt(s, p, p + 3) else None;
    if withPrefix.Some? then withPrefix else MatchCallAt(s, p, p)
  }

  /** `re.finditer(export_pattern, s[p..])`: the matches, left to right and disjoint. */
  function ExportMatchesFrom(s: string, p: nat): (ms: seq<ExportMatch>)
    requires p <= |s|
    ensures forall i :: 0 <= i < |ms| ==> WellFormedMatch(s, ms[i])
    ensures Disjoint(s, p, ms)
    decreases |s| - p
  {
    if p == |s| then []
    else match MatchExportAt(s, p)
      case Some(m) =>
        var rest := ExportMatchesFrom(s, m.end);
        DisjointCons(s, p, m, rest);
        [m] + rest
      case None => ExportMatchesFrom(s, p + 1)
  }

  function ExportMatches(s: string): seq<ExportMatch> {
    ExportMatchesFrom(s, 0)
  }

  /** Spans at or after `p`, inside `s`, in increasing order and not overlapping. */
  predicate Disjoint(s: string, p: nat, ms: seq<ExportMatch>) {
    && (forall i :: 0 <= i < |ms| ==> p <= ms[i].start <= ms[i].end <= |s|)
    && (forall i, j :: 0 <= i < j < |ms| ==> ms[i].end <= ms[j].start)
  }

  /** A span from `p` followed by spans after its end. */
  lemma DisjointCons(s: string, p: nat, m: ExportMatch, rest: seq<ExportMatch>)
    requires p <= m.start <= m.end <= |s| && Disjoint(s, m.end, rest)
    ensures Disjoint(s, p, [m] + rest)
  {
    var ms := [m] + rest;
    forall i, j | 0 <= i < j < |ms| ensures ms[i].end <= ms[j].start {
      if i > 0 {
        assert ms[i] == rest[i - 1] && ms[j] == rest[j - 1];
      }
    }
  }

  /**
   * `finditer` scans left to right: it finds nothing exactly when the
   * pattern matches at no position from `p` on; otherwise its first match
   * is the one at the leftmost position where the pattern matches, and the
   * scan resumes where that match ends.
   */
  lemma ExportMatchesLeftmost(s: string, p: nat)
    requires p <= |s|
    ensures var ms := ExportMatchesFrom(s, p);
            && (ms == [] <==> forall q :: p <= q < |s| ==> MatchExportAt(s, q).None?)
            && (ms != [] ==>
                  && MatchExportAt(s, ms[0].start) == Some(ms[0])
                  && (forall q :: p <= q < ms[0].start ==> MatchExportAt(s, q).None?)
                  && ms[1..] == ExportMatchesFrom(s, ms[0].end))
  {
    var ms := ExportMatchesFrom(s, p);
    if ms == [] {
      forall q | p <= q < |s| ensures MatchExportAt(s, q).None? {
        NoExportBeforeFirst(s, p, q);
      }
    } else {
      ExportMatchesFirst(s, p);
      forall q | p <= q < ms[0].start ensures MatchExportAt(s, q).None? {
        NoExportBeforeFirst(s, p, q);
      }
      if forall q :: p <= q < |s| ==> MatchExportAt(s, q).None? {
        NoExportMatchFound(s, p);
      }
    }
  }

  /** Where the pattern matches nowhere from `p` on, `finditer` finds nothing. */
  lemma {:induction false} NoExportMatchFound(s: string, p: nat)
    requires p <= |s|
    requires forall q :: p <= q < |s| ==> MatchExportAt(s, q).None?
    ensures ExportMatchesFrom(s, p) == []
    decreases |s| - p
  {
    if p < |s| {
      NoExportMatchFound(s, p + 1);
    }
  }

  /** The pattern matches at no position the scan passes over. */
  lemma {:induction false} NoExportBeforeFirst(s: string, p: nat, q: nat)
    requires p <= q < |s|
    requires ExportMatchesFrom(s, p) == [] || q < ExportMatchesFrom(s, p)[0].start
    ensures MatchExportAt(s, q).None?
    decreases |s| - p
  {
    if p < q {
      NoExportBeforeFirst(s, p + 1, q);
    }
  }

  /** The first match found is the pattern's match at its start, and the scan resumes at its end. */
  lemma {:induction false} ExportMatchesFirst(s: string, p: nat)
    requires p <= |s| && ExportMatchesFrom(s, p) != []
    ensures var ms := ExportMatchesFrom(s, p);
            MatchExportAt(s, ms[0].start) == Some(ms[0]) && ms[1..] == ExportMatchesFrom(s, ms[0].end)
    decreases |s| - p
  {
    if MatchExportAt(s, p).None? {
      ExportMatchesFirst(s, p + 1);
    }
  }

  /** No match at `p`: `finditer` moves on by one character. */
  lemma ExportMatchesSkips(s: string, p: nat)
    requires p < |s| && MatchExportAt(s, p).None?
    ensures ExportMatchesFrom(s, p) == ExportMatchesFrom(s, p + 1)
  {
  }

  /** A match at `p` comes first, and the scan resumes at its end. */
  lemma ExportMatchesTakes(s: string, p: nat)
    requires p < |s| && MatchExportAt(s, p).Some?
    ensures var m := MatchExportAt(s, p).value;
            ExportMatchesFrom(s, p) == [m] + ExportMatchesFrom(s, m.end)
  {
  }

  /** `finditer` returns first the match at the leftmost position where the pattern matches. */
  lemma {:induction false} ExportMatchesAt(s: string, p: nat, q: nat)
    requires p <= q < |s| && MatchExportAt(s, q).Some?
    requires forall k :: p <= k < q ==> MatchExportAt(s, k).None?
    ensures var m := MatchExportAt(s, q).value;
            ExportMatchesFrom(s, p) == [m] + ExportMatchesFrom(s, m.end)
    decreases q - p
  {
    if p < q {
      ExportMatchesSkips(s, p);
      ExportMatchesAt(s, p + 1, q);
    } else {
      ExportMatchesTakes(s, p);
    }
  }

  /** `re.sub(export_pattern, "", s[p..])`: every match deleted, everything else kept. */
  function RemoveExportsFrom(s: string, p: nat): (r: string)
    requires p <= |s|
    ensures |r| <= |s| - p
    ensures ExportMatchesFrom(s, p) == [] ==> r == s[p..]
    decreases |s| - p
  {
    if p == |s| then ""
    else match MatchExportAt(s, p)
      case Some(m) => RemoveExportsFrom(s, m.end)
      case None =>
        var rest := RemoveExportsFrom(s, p + 1);
        assert s[p..] == [s[p]] + s[p + 1..];
        [s[p]] + rest
  }

  function RemoveExports(s: string): string {
    RemoveExportsFrom(s, 0)
  }

  /** The text from `p` on with the spans `ms` cut out: the gaps between them, in order. */
  function Gaps(s: string, p: nat, ms: seq<ExportMatch>): string
    requires p <= |s| && Disjoint(s, p, ms)
    decreases |ms|
  {
    if ms == [] then s[p..]
    else s[p..ms[0].start] + Gaps(s, ms[0].end, ms[1..])
  }

  /** `re.sub` with an empty replacement keeps exactly the text between the matches `finditer` finds. */
  lemma {:induction false} RemoveExportsKeepsGaps(s: string, p: nat)
    requires p <= |s|
    ensures RemoveExportsFrom(s, p) == Gaps(s, p, ExportMatchesFrom(s, p))
    decreases |s| - p
  {
    if p < |s| {
      var r := MatchExportAt(s, p);
      if r.Some? {
        RemoveExportsKeepsGaps(s, r.value.end);
        GapsAfterMatch(s, p);
      } else {
        RemoveExportsKeepsGaps(s, p + 1);
        GapsCons(s, p, ExportMatchesFrom(s, p + 1));
      }
    }
  }

  /** A match at `p` is cut whole: the gaps from `p` are the gaps from its end. */
  lemma GapsAfterMatch(s: string, p: nat)
    requires p < |s| && MatchExportAt(s, p).Some?
    requires var e := MatchExportAt(s, p).value.end;
             RemoveExportsFrom(s, e) == Gaps(s, e, ExportMatchesFrom(s, e))
    ensures RemoveExportsFrom(s, p) == Gaps(s, p, ExportMatchesFrom(s, p))
  {
    var m := MatchExportAt(s, p).value;
    var rest := ExportMatchesFrom(s, m.end);
    assert ExportMatchesFrom(s, p) == [m] + rest;
    GapsHead(s, p, m, rest);
  }

  /** A span starting at `p` leaves an empty first gap. */
  lemma GapsHead(s: string, p: nat, m: ExportMatch, rest: seq<ExportMatch>)
    requires p <= |s| && m.start == p && Disjoint(s, p, [m] + rest)
    ensures m.end <= |s| && Disjoint(s, m.end, rest)
    ensures Gaps(s, p, [m] + rest) == Gaps(s, m.end, rest)
  {
    var ms := [m] + rest;
    assert ms[0] == m && ms[1..] == rest;
    forall i | 0 <= i < |rest| ensures m.end <= rest[i].start {
      assert ms[0].end <= ms[i + 1].start;
    }
    forall i, j | 0 <= i < j < |rest| ensures rest[i].end <= rest[j].start {
      assert ms[i + 1].end <= ms[j + 1].start;
    }
    assert s[p..p] == [];
  }

  /** A character before the first span joins the first gap. */
  lemma GapsCons(s: string, p: nat, ms: seq<ExportMatch>)
    requires p < |s| && Disjoint(s, p + 1, ms)
    ensures Disjoint(s, p, ms)
    ensures Gaps(s, p, ms) == [s[p]] + Gaps(s, p + 1, ms)
  {
    if ms == [] {
      assert s[p..] == [s[p]] + s[p + 1..];
    } else {
      var rest := Gaps(s, ms[0].end, ms[1..]);
      assert s[p..ms[0].start] == [s[p]] + s[p + 1..ms[0].start];
      assert Gaps(s, p + 1, ms) == s[p + 1..ms[0].start] + rest;
      assert Gaps(s, p, ms) == s[p..ms[0].start] + rest;
    }
  }

  /** The text of group 2 of a match: the first argument of the export call. */
  function FirstArgument(s: string, m: ExportMatch): (r: string)
    requires WellFormedMatch(s, m)
    ensures |r| > 0 && ',' !in r
  {
    s[m.argStart..m.argEnd]
  }

  // ---------------------------------------------------------------------
  // Lines that mention the exporters module
  // ---------------------------------------------------------------------

  /** `re.search(r"(cq\.)?exporters\.", line)`: the optional prefix changes nothing. */
  predicate MentionsExporters(line: string) {
    Contains(line, "exporters.")
  }

  /** The lines kept by the loop over `lines`, in their order. */
  function KeptLines(ls: seq<string>): (r: seq<string>)
    ensures |r| <= |ls|
    ensures forall i :: 0 <= i < |r| ==> !MentionsExporters(r[i]) && r[i] in ls
    ensures forall x :: x in r <==> x in ls && !MentionsExporters(x)
  {
    if |ls| == 0 then []
    else
      var last := ls[|ls| - 1];
      var front := KeptLines(ls[..|ls| - 1]);
      assert forall x :: x in ls[..|ls| - 1] ==> x in ls;
      front + (if MentionsExporters(last) then [] else [last])
  }

  /** The filter keeps order: filtering two runs of lines is filtering each in turn. */
  lemma {:induction false} KeptLinesAppend(a: seq<string>, b: seq<string>)
    ensures KeptLines(a + b) == KeptLines(a) + KeptLines(b)
    decreases |b|
  {
    if |b| == 0 {
      assert a + b == a;
    } else {
      var last := b[|b| - 1];
      assert (a + b)[..|a + b| - 1] == a + b[..|b| - 1];
      KeptLinesAppend(a, b[..|b| - 1]);
    }
  }

  /** The filter keeps every line when none mentions the exporters module. */
  lemma {:induction false} KeptLinesKeepsAll(ls: seq<string>)
    requires forall i :: 0 <= i < |ls| ==> !MentionsExporters(ls[i])
    ensures KeptLines(ls) == ls
    decreases |ls|
  {
    if |ls| > 0 {
      KeptLinesKeepsAll(ls[..|ls| - 1]);
      assert ls[..|ls| - 1] + [ls[|ls| - 1]] == ls;
    }
  }

  // ---------------------------------------------------------------------
  // Guessing the result variable
  // ---------------------------------------------------------------------

  /** A pattern of the fallback list. */
  datatype ResultPattern =
    | AssignedFrom(op: string)  // (\w+)\s*=.*\.op\(  -- findall yields group 1
    | AssignedTo(name: string)  // name\s*=           -- findall yields the whole match

  /** The fallback patterns in priority order. */
  const ResultPatterns: seq<ResultPattern> := [
    AssignedFrom("extrude"), AssignedFrom("revolve"), AssignedFrom("loft"),
    AssignedFrom("sweep"), AssignedFrom("box"), AssignedFrom("cylinder"),
    AssignedFrom("sphere"),
    AssignedTo("result"), AssignedTo("model"), AssignedTo("shape"),
    AssignedTo("part"), AssignedTo("assembly")
  ]

  /** The variable used when no pattern matches. */
  const DefaultResultVar: string := "result"

  /** Greedy `\w+` from `i`: the end of the run of word characters. */
  function WordEnd(s: string, i: nat): (j: nat)
    requires i <= |s|
    ensures i <= j <= |s| && (j == |s| || !IsWordChar(s[j]))
    ensures forall k :: i <= k < j ==> IsWordChar(s[k])
    decreases |s| - i
  {
    if i < |s| && IsWordChar(s[i]) then WordEnd(s, i + 1) else i
  }

  /** The end of the line holding `i`: the next newline, or the end of the text. */
  function LineEnd(s: string, i: nat): (j: nat)
    requires i <= |s|
    ensures i <= j <= |s| && (j == |s| || s[j] == '\n')
    ensures forall k :: i <= k < j ==> s[k] != '\n'
    decreases |s| - i
  {
    if i < |s| && s[i] != '\n' then LineEnd(s, i + 1) else i
  }

  /** Greedy `.*` then `pat`: the last occurrence of `pat` starting in `[lo, hi]`, or -1. */
  function LastOccurrence(s: string, lo: nat, hi: nat, pat: string): (j: int)
    requires lo <= hi <= |s|
    ensures j == -1 || (lo <= j <= hi && OccursAt(s, pat, j))
    ensures forall k :: lo <= k <= hi && j < k ==> !OccursAt(s, pat, k)
    decreases hi - lo
  {
    if OccursAt(s, pat, hi) then hi
    else if hi == lo then -1
    else LastOccurrence(s, lo, hi - 1, pat)
  }

  /** One `findall` item and the position where the scan goes on. */
  datatype Found = Found(item: string, end: nat)

  /** What a `findall` item of a fallback pattern looks like. */
  predicate ItemShape(pat: ResultPattern, item: string) {
    match pat
    case AssignedFrom(_) =>
      |item| > 0 && forall k :: 0 <= k < |item| ==> IsWordChar(item[k])
    case AssignedTo(name) =>
      && |item| > |name| && item[..|name|] == name && item[|item| - 1] == '='
      && forall k :: |name| <= k < |item| - 1 ==> IsSpace(item[k])
  }

  /**
   * A fallback pattern tried at `p`. For `(\w+)\s*=.*\.op\(` the word is
   * maximal, the whitespace may span lines, and `.*` stays on the line of
   * the `=` and reaches its last `.op(`.
   */
  function MatchResultAt(s: string, p: nat, pat: ResultPattern): (r: Option<Found>)
    requires p <= |s|
    ensures r.Some? ==> p < r.value.end <= |s| && ItemShape(pat, r.value.item)
  {
    match pat
    case AssignedFrom(op) =>
      var w := WordEnd(s, p);
      if w == p then None
      else
        var eq := SkipSpaces(s, w);
        if eq == |s| || s[eq] != '=' then None
        else
          var call := "." + op + "(";
          var j := LastOccurrence(s, eq + 1, LineEnd(s, eq + 1), call);
          if j < 0 then None else Some(Found(s[p..w], j + |call|))
    case AssignedTo(name) =>
      if !OccursAt(s, name, p) then None
      else
        var eq := SkipSpaces(s, p + |name|);
        if eq == |s| || s[eq] != '=' then None
        else
          assert s[p..eq + 1][..|name|] == name;
          Some(Found(s[p..eq + 1], eq + 1))
  }

  /** `re.findall(pattern, s[p..])`. */
  function FindAllFrom(s: string, p: nat, pat: ResultPattern): (items: seq<string>)
    requires p <= |s|
    ensures forall i :: 0 <= i < |items| ==> ItemShape(pat, items[i])
    decreases |s| - p
  {
    if p == |s| then []
    else match MatchResultAt(s, p, pat)
      case Some(f) => [f.item] + FindAllFrom(s, f.end, pat)
      case None => FindAllFrom(s, p + 1, pat)
  }

  function FindAll(s: string, pat: ResultPattern): seq<string> {
    FindAllFrom(s, 0, pat)
  }

  /** Where the pattern matches nowhere from `p` on, `findall` finds nothing. */
  lemma {:induction false} NoResultFound(s: string, p: nat, pat: ResultPattern)
    requires p <= |s|
    requires forall q :: p <= q < |s| ==> MatchResultAt(s, q, pat).None?
    ensures FindAllFrom(s, p, pat) == []
    decreases |s| - p
  {
    if p < |s| {
      NoResultFound(s, p + 1, pat);
    }
  }

  /** Where `findall` finds nothing, the pattern matches at no position from `p` on. */
  lemma {:induction false} NothingFoundNoResult(s: string, p: nat, q: nat, pat: ResultPattern)
    requires p <= q < |s| && FindAllFrom(s, p, pat) == []
    ensures MatchResultAt(s, q, pat).None?
    decreases |s| - p
  {
    if p < q {
      NothingFoundNoResult(s, p + 1, q, pat);
    }
  }

  /**
   * `findall` scans left to right: its first item comes from the leftmost
   * position where the pattern matches, and the scan resumes where that
   * match ends.
   */
  lemma {:induction false} FindAllLeftmost(s: string, p: nat, q: nat, pat: ResultPattern)
    requires p <= q < |s| && MatchResultAt(s, q, pat).Some?
    requires forall k :: p <= k < q ==> MatchResultAt(s, k, pat).None?
    ensures var f := MatchResultAt(s, q, pat).value;
            FindAllFrom(s, p, pat) == [f.item] + FindAllFrom(s, f.end, pat)
    decreases q - p
  {
    if p < q {
      FindAllSkips(s, p, pat);
      FindAllLeftmost(s, p + 1, q, pat);
    } else {
      FindAllTakes(s, p, pat);
    }
  }

  /** No match at `p`: the scan moves on by one character. */
  lemma FindAllSkips(s: string, p: nat, pat: ResultPattern)
    requires p < |s| && MatchResultAt(s, p, pat).None?
    ensures FindAllFrom(s, p, pat) == FindAllFrom(s, p + 1, pat)
  {
  }

  /** A match at `p`: its item comes first and the scan resumes at its end. */
  lemma FindAllTakes(s: string, p: nat, pat: ResultPattern)
    requires p < |s| && MatchResultAt(s, p, pat).Some?
    ensures var f := MatchResultAt(s, p, pat).value;
            FindAllFrom(s, p, pat) == [f.item] + FindAllFrom(s, f.end, pat)
  {
  }

  /** The index of the first fallback pattern with a match, at or after `from`. */
  function FirstMatchingPattern(s: string, from: nat): (r: Option<nat>)
    requires from <= |ResultPatterns|
    ensures r.Some? ==> from <= r.value < |ResultPatterns| && FindAll(s, ResultPatterns[r.value]) != []
    ensures forall j :: from <= j < |ResultPatterns| && (r.None? || j < r.value) ==> FindAll(s, ResultPatterns[j]) == []
    decreases |ResultPatterns| - from
  {
    if from == |ResultPatterns| then None
    else if FindAll(s, ResultPatterns[from]) != [] then Some(from)
    else FirstMatchingPattern(s, from + 1)
  }

  /** The variable exported when the code has no export call. */
  function GuessResultVar(s: string): string {
    match FirstMatchingPattern(s, 0)
    case None => DefaultResultVar
    case Some(k) =>
      var items := FindAll(s, ResultPatterns[k]);
      items[|items| - 1]
  }

  // ---------------------------------------------------------------------
  // The sanitiser
  // ---------------------------------------------------------------------

  /** The text every appended export call starts with. */
  const CallPrefix: string := "\n\ncq.exporters.export("

  /** The export call appended to every result. */
  function ExportCall(variable: string, outputFilename: string): string {
    CallPrefix + variable + ", \"" + outputFilename + "\")"
  }

  /** The code kept before the appended call, not yet stripped. */
  function Body(cleaned: string): string {
    if ExportMatches(cleaned) != [] then JoinLines(KeptLines(Lines(RemoveExports(cleaned))))
    else cleaned
  }

  /** The variable the appended call exports. */
  function Target(cleaned: string): string {
    var ms := ExportMatches(cleaned);
    if ms != [] then Strip(FirstArgument(cleaned, ms[0])) else GuessResultVar(cleaned)
  }

  /** The rewrite `run` applies to the code from the marker on. */
  function Rewrite(cleaned: string, outputFilename: string): string {
    Strip(Body(cleaned)) + ExportCall(Target(cleaned), outputFilename)
  }

  /** What `run(raw_code, output_filename)` returns. */
  function Sanitise(raw: string, outputFilename: string): Option<string> {
    var start := MarkerStart(raw);
    if start < 0 then None else Some(Rewrite(raw[start..], outputFilename))
  }

  /** The marker search at the head of `run`: the primary marker, then the alternatives in turn. */
  method LocateImport(rawCode: string) returns (start: int)
    ensures start == MarkerStart(rawCode)
  {
    start := Find(rawCode, PrimaryMarker);
    if start == -1 {
      var k := 0;
      while k < |AltMarkers|
        invariant 0 <= k <= |AltMarkers|
        invariant start == -1
        invariant !Contains(rawCode, PrimaryMarker)
        invariant forall j :: 0 <= j < k ==> !Contains(rawCode, AltMarkers[j])
      {
        start := Find(rawCode, AltMarkers[k]);
        if start != -1 {
          assert Markers[k + 1] == AltMarkers[k];
          assert FirstPresent(rawCode, Markers) == Some(k + 1);
          return;
        }
        k := k + 1;
      }
      assert FirstPresent(rawCode, Markers) == None;
    } else {
      assert FirstPresent(rawCode, Markers) == Some(0);
    }
  }

  /** The loop of `run` that keeps the lines not mentioning the exporters module. */
  method DropExportLines(lines: seq<string>) returns (kept: seq<string>)
    ensures kept == KeptLines(lines)
  {
    kept := [];
    var i := 0;
    while i < |lines|
      invariant 0 <= i <= |lines|
      invariant kept == KeptLines(lines[..i])
    {
      KeptLinesStep(lines, i);
      if !MentionsExporters(lines[i]) {
        kept := kept + [lines[i]];
      }
      i := i + 1;
    }
    assert lines[..i] == lines;
  }

  /** One more line is kept, or not, after the lines before it. */
  lemma KeptLinesStep(lines: seq<string>, i: nat)
    requires i < |lines|
    ensures KeptLines(lines[..i + 1]) == KeptLines(lines[..i]) + (if MentionsExporters(lines[i]) then [] else [lines[i]])
  {
    assert lines[..i + 1][..i] == lines[..i];
  }

  /** The loop of `run` over the fallback patterns, stopping at the first that matches. */
  method GuessResultVariable(cleaned: string) returns (resultVar: string)
    ensures resultVar == GuessResultVar(cleaned)
  {
    resultVar := DefaultResultVar;
    var k := 0;
    while k < |ResultPatterns|
      invariant 0 <= k <= |ResultPatterns|
      invariant resultVar == DefaultResultVar
      invariant forall j :: 0 <= j < k ==> FindAll(cleaned, ResultPatterns[j]) == []
    {
      var found := FindAll(cleaned, ResultPatterns[k]);
      if |found| > 0 {
        FirstMatchingPatternAt(cleaned, k);
        resultVar := found[|found| - 1];
        return;
      }
      k := k + 1;
    }
    FirstMatchingPatternAt(cleaned, k);
  }

  /** The first pattern with a match is the first one at which the loop over patterns stops. */
  lemma FirstMatchingPatternAt(s: string, k: nat)
    requires k <= |ResultPatterns|
    requires forall j :: 0 <= j < k ==> FindAll(s, ResultPatterns[j]) == []
    requires k < |ResultPatterns| ==> FindAll(s, ResultPatterns[k]) != []
    ensures FirstMatchingPattern(s, 0) == if k < |ResultPatterns| then Some(k) else None
  {
  }

  /** `CodeCleaningStep.run`. */
  method Run(rawCode: string, outputFilename: string) returns (r: Option<string>)
    ensures r == Sanitise(rawCode, outputFilename)
  {
    var start := LocateImport(rawCode);
    if start == -1 {
      return None;
    }
    var cleaned := rawCode[start..];
    var matches := ExportMatches(cleaned);
    var finalCode: string;
    if |matches| > 0 {
      var firstParam := Strip(FirstArgument(cleaned, matches[0]));
      var lines := Lines(RemoveExports(cleaned));
      var kept := DropExportLines(lines);
      finalCode := Strip(JoinLines(kept)) + ExportCall(firstParam, outputFilename);
    } else {
      var resultVar := GuessResultVariable(cleaned);
      finalCode := Strip(cleaned) + ExportCall(resultVar, outputFilename);
    }
    r := Some(finalCode);
  }

  /** `CodeCleaningStep.validate_code`: the three required elements are checked in turn. */
  method ValidateCode(code: string) returns (ok: bool)
    ensures ok <==> forall j :: 0 <= j < |RequiredElements| ==> Contains(code, RequiredElements[j])
  {
    var k := 0;
    while k < |RequiredElements|
      invariant 0 <= k <= |RequiredElements|
      invariant forall j :: 0 <= j < k ==> Contains(code, RequiredElements[j])
    {
      if !Contains(code, RequiredElements[k]) {
        return false;
      }
      k := k + 1;
    }
    return true;
  }

  /** The substrings `validate_code` requires. */
  const RequiredElements: seq<string> := ["import cadquery", "cq.Workplane", "cq.exporters.export"]

  // ---------------------------------------------------------------------
  // Properties of the sanitiser
  // ---------------------------------------------------------------------

  /** `run` fails exactly when none of the four markers occurs. */
  lemma SanitiseFailsIffNoMarker(raw: string, outputFilename: string)
    ensures Sanitise(raw, outputFilename).None? <==>
            forall j :: 0 <= j < |Markers| ==> !Contains(raw, Markers[j])
  {
  }

  /**
   * "import cadquery as cq" is never the marker chosen: whenever it occurs,
   * "import cadquery", tried first, occurs at the same place.
   */
  lemma {:induction false} AliasMarkerNeverChosen(raw: string)
    ensures FirstPresent(raw, Markers) != Some(1)
  {
    if Contains(raw, Markers[1]) {
      assert Markers[1][..15] == Markers[0];
      ContainsPrefixOf(raw, Markers[1], Markers[0]);
    }
  }

  /**
   * Everything before the first occurrence of the chosen marker is
   * discarded: running on the text from that occurrence on gives the same
   * result.
   */
  lemma {:induction false} SanitiseIgnoresTextBeforeMarker(raw: string, outputFilename: string)
    requires MarkerStart(raw) >= 0
    ensures var start := MarkerStart(raw);
            Sanitise(raw[start..], outputFilename) == Sanitise(raw, outputFilename)
  {
    var start := MarkerStart(raw);
    var tail := raw[start..];
    var k := FirstPresent(raw, Markers).value;
    forall j | 0 <= j < k ensures !Contains(tail, Markers[j]) {
      if Contains(tail, Markers[j]) {
        assert raw[start..|raw|] == tail;
        ContainsInSlice(raw, start, |raw|, Markers[j]);
      }
    }
    assert tail[0..|Markers[k]|] == raw[start..start + |Markers[k]|];
    assert OccursAt(tail, Markers[k], 0);
    assert FirstPresent(tail, Markers) == Some(k);
    assert Find(tail, Markers[k]) == 0;
    assert tail[0..] == tail;
  }

  /** Every rewrite ends with the one appended export call. */
  lemma {:induction false} RewriteEndsWithCall(cleaned: string, outputFilename: string)
    ensures var r := Rewrite(cleaned, outputFilename);
            var call := ExportCall(Target(cleaned), outputFilename);
            |call| <= |r| && r[|r| - |call|..] == call
  {
  }

  /**
   * When the code has export calls, the exported variable is the first
   * argument of the first call, stripped; and no line of the kept body
   * mentions the exporters module.
   */
  lemma {:induction false} ExportBranch(cleaned: string)
    requires ExportMatches(cleaned) != []
    ensures Target(cleaned) == Strip(cleaned[ExportMatches(cleaned)[0].argStart..ExportMatches(cleaned)[0].argEnd])
    ensures ',' !in Target(cleaned)
    ensures !Contains(Strip(Body(cleaned)), "exporters.")
  {
    KeptBodyOmitsExporters(cleaned);
    var arg := FirstArgument(cleaned, ExportMatches(cleaned)[0]);
    var a :| StrippedAt(arg, Strip(arg), a);
    assert Strip(arg) == arg[a..a + |Strip(arg)|];
  }

  /** The kept body of code with export calls does not mention the exporters module. */
  lemma {:induction false} KeptBodyOmitsExporters(cleaned: string)
    requires ExportMatches(cleaned) != []
    ensures !Contains(Strip(Body(cleaned)), "exporters.")
  {
    var kept := KeptLines(Lines(RemoveExports(cleaned)));
    assert Body(cleaned) == JoinLines(kept);
    JoinLinesKeepsAbsence(kept, "exporters.");
    StripKeepsAbsence(JoinLines(kept), "exporters.");
  }

  /**
   * After an export call was found, the appended call holds the first
   * mention of the exporters module in the result: the body mentions it
   * nowhere.
   */
  lemma {:induction false} AppendedCallIsFirstExport(body: string, variable: string, outputFilename: string)
    requires !Contains(body, "exporters.")
    ensures Find(body + ExportCall(variable, outputFilename), "exporters.") == |body| + 5
  {
    var rest := variable + ", \"" + outputFilename + "\")";
    var s := body + CallPrefix + rest;
    assert s == body + ExportCall(variable, outputFilename);
    CallMentionAt(body, rest);
    forall j | 0 <= j < |body| + 5 ensures !OccursAt(s, "exporters.", j) {
      NoMentionBefore(body, rest, j);
    }
  }

  /** The call prefix mentions the exporters module five characters in. */
  lemma CallMentionAt(body: string, rest: string)
    ensures OccursAt(body + CallPrefix + rest, "exporters.", |body| + 5)
  {
    var s := body + CallPrefix + rest;
    InfixOfConcat(body, CallPrefix, rest);
    CallPrefixParts();
    SliceOfSlice(s, |body|, |body| + 22, 5, 15);
    assert CallPrefix[5..15] == "exporters.";
  }

  /** Before the call prefix's mention, a text free of `exporters.` has none. */
  lemma NoMentionBefore(body: string, rest: string, j: nat)
    requires !Contains(body, "exporters.") && j < |body| + 5
    ensures !OccursAt(body + CallPrefix + rest, "exporters.", j)
  {
    var pat := "exporters.";
    var s := body + CallPrefix + rest;
    if j + |pat| <= |body| {
      assert s[j..j + |pat|] == body[j..j + |pat|];
      assert !OccursAt(body, pat, j);
    } else if j < |body| {
      assert s[j..j + |pat|][|body| - j] == s[|body|] == CallPrefix[0];
    } else {
      assert s[j..j + |pat|][0] == s[j] == CallPrefix[j - |body|];
    }
  }

  /**
   * Without an export call, the exported variable is the last match of the
   * first fallback pattern that matches, or "result". For the first seven
   * patterns it is an identifier; for the bare-name patterns it is the whole
   * match, the name, any whitespace and the `=` ("result =").
   */
  lemma FallbackBranch(cleaned: string)
    requires ExportMatches(cleaned) == []
    ensures Body(cleaned) == cleaned
    ensures FirstMatchingPattern(cleaned, 0).None? ==> Target(cleaned) == DefaultResultVar
    ensures FirstMatchingPattern(cleaned, 0).Some? ==>
              var k := FirstMatchingPattern(cleaned, 0).value;
              var items := FindAll(cleaned, ResultPatterns[k]);
              && Target(cleaned) == items[|items| - 1]
              && ItemShape(ResultPatterns[k], Target(cleaned))
  {
  }

  /** The group-less patterns give the assignment text, so the appended call exports e.g. `result =`. */
  lemma {:induction false} BareNameTargetEndsWithEquals(cleaned: string)
    requires ExportMatches(cleaned) == []
    requires FirstMatchingPattern(cleaned, 0).Some? && FirstMatchingPattern(cleaned, 0).value >= 7
    ensures var name := ResultPatterns[FirstMatchingPattern(cleaned, 0).value].name;
            var t := Target(cleaned);
            |t| > |name| && t[..|name|] == name && t[|t| - 1] == '='
  {
    var k := FirstMatchingPattern(cleaned, 0).value;
    assert ResultPatterns[k].AssignedTo?;
    FallbackBranch(cleaned);
  }

  /** Without an export call, a rewrite keeps the marker the code starts with. */
  lemma {:induction false} FallbackKeepsMarker(cleaned: string, marker: string, outputFilename: string)
    requires ExportMatches(cleaned) == []
    requires 0 < |marker| <= |cleaned| && cleaned[..|marker|] == marker
    requires !IsSpace(marker[0]) && !IsSpace(marker[|marker| - 1])
    ensures var r := Rewrite(cleaned, outputFilename);
            |marker| <= |r| && r[..|marker|] == marker
  {
    StripKeepsNonSpaceStart(cleaned);
    var t := TrimEnd(cleaned);
    assert !IsSpace(cleaned[|marker| - 1]);
    assert |marker| <= |t|;
    assert t[..|marker|] == cleaned[..|marker|];
    var r := Rewrite(cleaned, outputFilename);
    assert r == t + ExportCall(Target(cleaned), outputFilename);
    assert r[..|marker|] == t[..|marker|];
  }

  /** Every marker starts and ends with a non-space, as `FallbackKeepsMarker` needs. */
  lemma MarkersAreTrimmed(k: nat)
    requires k < |Markers|
    ensures 0 < |Markers[k]| && !IsSpace(Markers[k][0]) && !IsSpace(Markers[k][|Markers[k]| - 1])
  {
  }

  /** Every rewrite holds the element `validate_code` looks for last. */
  lemma {:induction false} RewriteHasExportElement(cleaned: string, outputFilename: string)
    ensures Contains(Rewrite(cleaned, outputFilename), RequiredElements[2])
  {
    CallHasExportElement(Strip(Body(cleaned)), Target(cleaned), outputFilename);
  }

  /** Any text followed by an appended export call holds `cq.exporters.export`. */
  lemma {:induction false} CallHasExportElement(body: string, variable: string, outputFilename: string)
    ensures OccursAt(body + ExportCall(variable, outputFilename), "cq.exporters.export", |body| + 2)
  {
    var rest := variable + ", \"" + outputFilename + "\")";
    var r := body + CallPrefix + rest;
    assert r == body + ExportCall(variable, outputFilename);
    InfixOfConcat(body, CallPrefix, rest);
    assert r[|body| + 2..|body| + 21] == r[|body|..|body| + 21][2..21] == CallPrefix[2..21];
    assert CallPrefix[2..21] == "cq.exporters.export";
  }

  // ---------------------------------------------------------------------
  // Running the cleaner on its own output
  // ---------------------------------------------------------------------

  /**
   * An output filename that the pattern recognises inside an appended call:
   * it ends in `.stl` and holds no quote and no newline.
   */
  predicate StlFilename(f: string) {
    && |f| >= 4 && f[|f| - 4..] == ".stl"
    && forall k :: 0 <= k < |f| ==> f[k] != '\n' && !IsQuote(f[k])
  }

  /** Greedy `[^,]+` stops at the first comma. */
  lemma {:induction false} CommaFromFinds(s: string, i: nat, j: nat)
    requires i <= j < |s| && s[j] == ',' && CommaFree(s, i, j)
    ensures CommaFrom(s, i) == j
    decreases j - i
  {
    if i < j { CommaFromFinds(s, i + 1, j); }
  }

  /** The lazy `.*?\.stl['"]` stops at the first `.stl` and quote on the line. */
  lemma {:induction false} StlSuffixOnLineFinds(s: string, i: nat, j: nat)
    requires i <= j < |s| && StlSuffixAt(s, j)
    requires forall k :: i <= k < j ==> s[k] != '\n'
    requires forall k :: i <= k < j ==> !StlSuffixAt(s, k)
    ensures StlSuffixOnLine(s, i) == j
    decreases j - i
  {
    if i < j { StlSuffixOnLineFinds(s, i + 1, j); }
  }

  /** The head of an appended call, `\n\ncq.exporters.export(`, at `b`. */
  predicate CallHeadAt(s: string, b: nat) {
    && b + 22 <= |s|
    && s[b + 2..b + 5] == "cq."
    && s[b + 5..b + 21] == "exporters.export"
    && s[b + 21] == '('
  }

  /** The variable `v` at `a`, followed by a comma. */
  predicate VariableAt(s: string, a: nat, v: string) {
    a + |v| < |s| && s[a..a + |v|] == v && s[a + |v|] == ','
  }

  /** After the comma at `c`, ` "f")` closes the text. */
  predicate FilenameTailAt(s: string, c: nat, f: string) {
    && |s| == c + 5 + |f|
    && s[c + 1] == ' ' && s[c + 2] == '"'
    && s[c + 3..c + 3 + |f|] == f
    && s[c + 3 + |f|] == '"' && s[c + 4 + |f|] == ')'
  }

  /** An appended call starts with two newlines and `cq.exporters.export(`. */
  lemma AppendedCallHead(body: string, v: string, f: string)
    ensures var s := body + ExportCall(v, f);
            s[..|body| + 2] == body + "\n\n" && CallHeadAt(s, |body|)
  {
    var s := body + ExportCall(v, f);
    var b := |body|;
    var rest := v + ", \"" + f + "\")";
    assert s == body + CallPrefix + rest;
    InfixOfConcat(body, CallPrefix, rest);
    assert s[..b] == body;
    assert s[b..b + 22] == CallPrefix;
    HeadNewlines(s, body);
    CallHeadOfPrefix(s, b);
  }

  /** `CallPrefix` at `b` is a call head there. */
  lemma CallHeadOfPrefix(s: string, b: nat)
    requires b + 22 <= |s| && s[b..b + 22] == CallPrefix
    ensures CallHeadAt(s, b)
  {
    CallPrefixParts();
    SliceOfSlice(s, b, b + 22, 2, 5);
    SliceOfSlice(s, b, b + 22, 5, 21);
    assert s[b + 21] == s[b..b + 22][21];
  }

  /** The parts of `CallPrefix`: two newlines, `cq.`, `exporters.export` and `(`. */
  lemma CallPrefixParts()
    ensures CallPrefix[..2] == "\n\n" && CallPrefix[2..5] == "cq."
    ensures CallPrefix[5..21] == "exporters.export" && CallPrefix[21] == '('
  {
    assert CallPrefix == "\n\n" + "cq." + "exporters.export" + "(";
  }

  /** A text that starts with `body` and then `CallPrefix` starts with `body` and two newlines. */
  lemma HeadNewlines(s: string, body: string)
    requires |body| + 22 <= |s| && s[..|body|] == body && s[|body|..|body| + 22] == CallPrefix
    ensures s[..|body| + 2] == body + "\n\n"
  {
    var b := |body|;
    assert s[b..b + 2] == s[b..b + 22][..2] == "\n\n";
    assert s[..b + 2] == s[..b] + s[b..b + 2];
  }

  /** The exported variable follows the `(` of an appended call, ended by a comma. */
  lemma AppendedCallVariable(body: string, v: string, f: string)
    ensures VariableAt(body + ExportCall(v, f), |body| + 22, v)
  {
    var s := body + ExportCall(v, f);
    var tail := ", \"" + f + "\")";
    assert s == (body + CallPrefix) + v + tail;
    InfixOfConcat(body + CallPrefix, v, tail);
  }

  /** The filename, quoted, and the closing `)` end an appended call. */
  lemma AppendedCallFilename(body: string, v: string, f: string)
    ensures FilenameTailAt(body + ExportCall(v, f), |body| + 22 + |v|, f)
  {
    var s := body + ExportCall(v, f);
    var c := |body| + 22 + |v|;
    var pre := body + CallPrefix + v + ", \"";
    assert s == pre + f + "\")";
    InfixOfConcat(pre, f, "\")");
    assert |pre| == c + 3;
  }

  /** Group 2 of a call whose variable starts with a non-space is the whole variable. */
  lemma VariableSpan(s: string, open: nat, v: string)
    requires open < |s| && s[open] == '(' && VariableAt(s, open + 1, v)
    requires v != [] && !IsSpace(v[0]) && ',' !in v
    ensures ArgumentSpan(s, open) == Some((open + 1, open + 1 + |v|))
  {
    var a := open + 1;
    var c := a + |v|;
    assert s[a] == v[0];
    forall k | a <= k < c ensures s[k] != ',' {
      assert s[k] == v[k - a];
    }
    CommaFromFinds(s, a, c);
  }

  /** After the comma, the rest of the pattern runs to the `)` closing the text. */
  lemma FilenameCallEnd(s: string, c: nat, f: string)
    requires FilenameTailAt(s, c, f) && StlFilename(f)
    ensures CallEnd(s, c + 1) == |s|
  {
    var j := c + |f| - 1;
    FilenameSuffix(s, c, f);
    assert s[c + 2] == '"' && IsQuote(s[c + 2]);
    assert CloseParenOnLine(s, j + 5) == c + 4 + |f|;
    assert CallEnd(s, c + 2) == |s|;
  }

  /** Inside ` "f")`, the lazy `.*?\.stl['"]` stops at the `.stl` that ends `f`. */
  lemma FilenameSuffix(s: string, c: nat, f: string)
    requires FilenameTailAt(s, c, f) && StlFilename(f)
    ensures StlSuffixOnLine(s, c + 3) == c + |f| - 1
  {
    FilenameScan(s, c, f, c + 3);
  }

  /** The scan for `.stl` and a quote, from any position inside `f`, stops where `f` ends in `.stl`. */
  lemma {:induction false} FilenameScan(s: string, c: nat, f: string, k: nat)
    requires FilenameTailAt(s, c, f) && StlFilename(f)
    requires c + 3 <= k <= c + |f| - 1
    ensures StlSuffixOnLine(s, k) == c + |f| - 1
    decreases c + |f| - 1 - k
  {
    if k < c + |f| - 1 {
      FilenameChar(s, c, f, k);
      FilenameChar(s, c, f, k + 4);
      assert f[k - c - 3] != '\n';
      assert !IsQuote(f[k + 4 - c - 3]);
      assert !StlSuffixAt(s, k);
      FilenameScan(s, c, f, k + 1);
    } else {
      FilenameEndsWithSuffix(s, c, f);
    }
  }

  /** The characters of `f` in ` "f")` are those of `f`. */
  lemma FilenameChar(s: string, c: nat, f: string, k: nat)
    requires FilenameTailAt(s, c, f) && c + 3 <= k < c + 3 + |f|
    ensures s[k] == f[k - c - 3]
  {
    assert s[c + 3..c + 3 + |f|][k - c - 3] == s[k];
  }

  /** The `.stl` ending `f` and the closing quote form `\.stl['"]`. */
  lemma FilenameEndsWithSuffix(s: string, c: nat, f: string)
    requires FilenameTailAt(s, c, f) && StlFilename(f)
    ensures StlSuffixAt(s, c + |f| - 1)
  {
    var j := c + |f| - 1;
    assert s[j..j + 4] == s[c + 3..c + 3 + |f|][|f| - 4..];
  }

  /** The argument part of a call from its group 2 and the end of the rest of the pattern. */
  lemma ArgumentsFromParts(s: string, open: nat, a: nat, c: nat, e: nat)
    requires open < |s| && s[open] == '(' && c < |s|
    requires ArgumentSpan(s, open) == Some((a, c)) && CallEnd(s, c + 1) == e
    ensures ArgumentsAt(s, open) == Some(CallArgs(a, c, e))
  {
    assert ArgumentsAt(s, open) == ArgumentsAfter(s, open, a, c);
    ArgumentsAfterParts(s, open, a, c, e);
  }

  lemma ArgumentsAfterParts(s: string, open: nat, a: nat, c: nat, e: nat)
    requires GroupSpan(s, open, (a, c)) && CallEnd(s, c + 1) == e
    ensures ArgumentsAfter(s, open, a, c) == Some(CallArgs(a, c, e))
  {
  }

  /** The pattern matches at the `cq.` of a call head whose arguments match. */
  lemma HeadCallMatches(s: string, b: nat, a: nat, c: nat, e: nat)
    requires CallHeadAt(s, b)
    requires ArgumentsAt(s, b + 21) == Some(CallArgs(a, c, e))
    ensures MatchExportAt(s, b + 2) == Some(ExportMatch(b + 2, e, a, c))
  {
    HeadOccurrences(s, b);
    CallAfterName(s, b + 2, b + 5, a, c, e);
    PrefixedMatch(s, b + 2);
  }

  /** A call head holds `cq.`, then `exporters.export`, then the `(` with no spaces before it. */
  lemma HeadOccurrences(s: string, b: nat)
    requires CallHeadAt(s, b)
    ensures OccursAt(s, "cq.", b + 2) && OccursAt(s, "exporters.export", b + 5)
    ensures SkipSpaces(s, b + 21) == b + 21
  {
    assert !IsSpace(s[b + 21]);
  }

  /** The rest of the pattern matches once the name, the `(` and the arguments are in place. */
  lemma CallAfterName(s: string, start: nat, q: nat, a: nat, c: nat, e: nat)
    requires start <= q && q + 16 < |s|
    requires q == start || (OccursAt(s, "cq.", start) && q == start + 3)
    requires OccursAt(s, "exporters.export", q)
    requires SkipSpaces(s, q + 16) == q + 16 && s[q + 16] == '('
    requires ArgumentsAt(s, q + 16) == Some(CallArgs(a, c, e))
    ensures MatchCallAt(s, start, q) == Some(ExportMatch(start, e, a, c))
  {
  }

  /** When the prefixed form matches, the pattern takes it. */
  lemma PrefixedMatch(s: string, p: nat)
    requires p + 3 <= |s| && OccursAt(s, "cq.", p) && MatchCallAt(s, p, p + 3).Some?
    ensures MatchExportAt(s, p) == MatchCallAt(s, p, p + 3)
  {
  }

  /** The pattern matches an appended call from its `cq.` to its closing `)`. */
  lemma CallMatchesAt(s: string, b: nat, v: string, f: string)
    requires CallHeadAt(s, b) && VariableAt(s, b + 22, v) && FilenameTailAt(s, b + 22 + |v|, f)
    requires v != [] && !IsSpace(v[0]) && ',' !in v && StlFilename(f)
    ensures MatchExportAt(s, b + 2) == Some(ExportMatch(b + 2, |s|, b + 22, b + 22 + |v|))
  {
    CallArguments(s, b + 21, v, f);
    HeadCallMatches(s, b, b + 22, b + 22 + |v|, |s|);
  }

  /** The arguments of an appended call are its variable, up to the comma, and run to the end. */
  lemma CallArguments(s: string, open: nat, v: string, f: string)
    requires open < |s| && s[open] == '(' && VariableAt(s, open + 1, v)
    requires FilenameTailAt(s, open + 1 + |v|, f)
    requires v != [] && !IsSpace(v[0]) && ',' !in v && StlFilename(f)
    ensures ArgumentsAt(s, open) == Some(CallArgs(open + 1, open + 1 + |v|, |s|))
  {
    var c := open + 1 + |v|;
    VariableSpan(s, open, v);
    FilenameCallEnd(s, c, f);
    ArgumentsFromParts(s, open, open + 1, c, |s|);
  }

  /** Both spellings of the call hold `exporters.`, at the start or after the `cq.`. */
  lemma CallMentionsExporters(s: string, q: nat)
    requires OccursAt(s, "exporters.export", q) || OccursAt(s, "cq.exporters.export", q)
    ensures OccursAt(s, "exporters.", q) || OccursAt(s, "exporters.", q + 3)
  {
    if OccursAt(s, "exporters.export", q) {
      assert s[q..q + 10] == s[q..q + 16][..10];
    } else {
      var call := "cq.exporters.export";
      assert OccursAt(s, call, q);
      assert call[3..13] == "exporters.";
      assert s[q + 3..q + 13] == s[q..q + 19][3..13];
    }
  }

  /** A text holding `exporters.` first inside an appended call at `b` has that call as its only match. */
  lemma OnlyMatchAt(s: string, b: nat, v: string, f: string)
    requires CallHeadAt(s, b) && VariableAt(s, b + 22, v) && FilenameTailAt(s, b + 22 + |v|, f)
    requires v != [] && !IsSpace(v[0]) && ',' !in v && StlFilename(f)
    requires Find(s, "exporters.") == b + 5
    ensures ExportMatches(s) == [ExportMatch(b + 2, |s|, b + 22, b + 22 + |v|)]
  {
    CallMatchesAt(s, b, v, f);
    forall q | 0 <= q < b + 2 ensures MatchExportAt(s, q).None? {
      if MatchExportAt(s, q).Some? {
        CallMentionsExporters(s, q);
      }
    }
    ExportMatchesAt(s, 0, b + 2);
  }

  /** Cutting the appended call leaves the body and the two newlines before the call. */
  lemma RewrittenRemoval(s: string, b: nat, m: ExportMatch)
    requires b + 2 <= |s| && m == ExportMatch(b + 2, |s|, m.argStart, m.argEnd)
    requires ExportMatches(s) == [m]
    ensures RemoveExports(s) == s[..b + 2]
  {
    RemoveExportsKeepsGaps(s, 0);
    assert Disjoint(s, 0, [m]);
    assert Gaps(s, 0, [m]) == s[0..b + 2] + Gaps(s, |s|, []);
  }

  /** Where the cut leaves text free of `exporters.`, the line filter keeps all of it. */
  lemma BodyOfCleanRemoval(s: string)
    requires ExportMatches(s) != [] && !Contains(RemoveExports(s), "exporters.")
    ensures Body(s) == RemoveExports(s)
  {
    var kept := RemoveExports(s);
    LinesKeepAbsence(kept, "exporters.");
    KeptLinesKeepsAll(Lines(kept));
    JoinLinesOfLines(kept);
  }

  /** With export calls, the target is the stripped first argument of the first. */
  lemma TargetOfMatches(s: string)
    requires ExportMatches(s) != []
    ensures var m := ExportMatches(s)[0];
            m.argStart <= m.argEnd <= |s| && Target(s) == Strip(s[m.argStart..m.argEnd])
  {
  }

  /** The facts about a text with an appended call at `b` that the lemmas below use. */
  predicate RewrittenAt(s: string, b: nat, v: string, f: string) {
    && CallHeadAt(s, b) && VariableAt(s, b + 22, v) && FilenameTailAt(s, b + 22 + |v|, f)
    && Find(s, "exporters.") == b + 5
    && v != [] && Strip(v) == v && ',' !in v && StlFilename(f)
  }

  /** The text of a rewrite, with the facts `RewrittenAt` collects. */
  lemma AppendedCallLayout(body: string, v: string, f: string)
    requires Strip(body) == body && !Contains(body, "exporters.")
    requires v != [] && Strip(v) == v && ',' !in v && StlFilename(f)
    ensures var s := body + ExportCall(v, f);
            && s[..|body|] == body
            && RewriteLayout(s, |body|, v, f)
  {
    var s := body + ExportCall(v, f);
    var b := |body|;
    AppendedCallIsFirstExport(body, v, f);
    AppendedCallHead(body, v, f);
    AppendedCallVariable(body, v, f);
    AppendedCallFilename(body, v, f);
    assert RewrittenAt(s, b, v, f);
    NewlinesKeepAbsence(body);
    assert s[..b] == body;
  }

  /** Two newlines after a text free of `exporters.` do not create one. */
  lemma NewlinesKeepAbsence(body: string)
    requires !Contains(body, "exporters.")
    ensures !Contains(body + "\n\n", "exporters.")
  {
    assert !Contains("\n", "exporters.");
    ContainsAcrossNewline(body, "\n", "exporters.");
    assert body + "\n" + "\n" == body + "\n\n";
  }

  /** The body the rewrite keeps from a rewritten text: all of it before the call. */
  lemma RewrittenBody(s: string, b: nat, v: string, f: string)
    requires RewrittenAt(s, b, v, f) && !Contains(s[..b + 2], "exporters.")
    ensures Body(s) == s[..b + 2]
  {
    assert !IsSpace(v[0]);
    OnlyMatchAt(s, b, v, f);
    RewrittenRemoval(s, b, ExportMatch(b + 2, |s|, b + 22, b + 22 + |v|));
    BodyOfCleanRemoval(s);
  }

  /** The appended call of a rewritten text exports its variable again. */
  lemma RewrittenTarget(s: string, b: nat, v: string, f: string)
    requires RewrittenAt(s, b, v, f)
    ensures Target(s) == v
  {
    assert !IsSpace(v[0]);
    OnlyMatchAt(s, b, v, f);
    var m := ExportMatch(b + 2, |s|, b + 22, b + 22 + |v|);
    assert ExportMatches(s)[0] == m;
    TargetOfMatches(s);
    assert s[m.argStart..m.argEnd] == v;
  }

  /**
   * A rewritten text: a stripped body without `exporters.`, two newlines,
   * then the appended call at `b`.
   */
  predicate RewriteLayout(s: string, b: nat, v: string, f: string) {
    && RewrittenAt(s, b, v, f) && !Contains(s[..b + 2], "exporters.")
    && s[..b + 2] == s[..b] + "\n\n" && Strip(s[..b]) == s[..b]
  }

  /** Rewriting a rewritten text gives its body and the same call again. */
  lemma RewriteAt(s: string, b: nat, v: string, f: string)
    requires RewriteLayout(s, b, v, f)
    ensures Rewrite(s, f) == s[..b] + ExportCall(v, f)
  {
    RewrittenBody(s, b, v, f);
    StripDropsNewlines(s[..b]);
    RewrittenTarget(s, b, v, f);
  }

  /** The rewrite leaves an already rewritten text as it is. */
  lemma RewriteOfRewritten(body: string, v: string, f: string)
    requires Strip(body) == body && !Contains(body, "exporters.")
    requires v != [] && Strip(v) == v && ',' !in v && StlFilename(f)
    ensures Rewrite(body + ExportCall(v, f), f) == body + ExportCall(v, f)
  {
    var s := body + ExportCall(v, f);
    AppendedCallLayout(body, v, f);
    RewriteAt(s, |body|, v, f);
  }

  /** Text that never mentions the exporters module has no export call. */
  lemma NoMentionNoMatches(s: string)
    requires !Contains(s, "exporters.")
    ensures ExportMatches(s) == []
  {
    forall q | 0 <= q < |s| ensures MatchExportAt(s, q).None? {
      if MatchExportAt(s, q).Some? {
        CallMentionsExporters(s, q);
      }
    }
    NoExportMatchFound(s, 0);
  }

  /** Every fallback pattern's name is a nonempty run of word characters. */
  lemma PatternNamesAreWords(k: nat)
    requires k < |ResultPatterns| && ResultPatterns[k].AssignedTo?
    ensures var name := ResultPatterns[k].name;
            |name| > 0 && forall i :: 0 <= i < |name| ==> IsWordChar(name[i])
  {
  }

  /** An item of a fallback pattern holds no comma and is already stripped. */
  lemma ItemIsTrimmed(k: nat, item: string)
    requires k < |ResultPatterns| && ItemShape(ResultPatterns[k], item)
    ensures ',' !in item && Strip(item) == item
  {
    if ResultPatterns[k].AssignedTo? {
      var name := ResultPatterns[k].name;
      PatternNamesAreWords(k);
      assert item[0] == item[..|name|][0] == name[0];
      forall i | 0 <= i < |item| ensures item[i] != ',' {
        if i < |name| {
          assert item[i] == item[..|name|][i] == name[i];
        }
      }
    }
    StripOfTrimmed(item);
  }

  /** The exported variable holds no comma and is already stripped. */
  lemma TargetIsTrimmed(cleaned: string)
    ensures ',' !in Target(cleaned) && Strip(Target(cleaned)) == Target(cleaned)
  {
    if ExportMatches(cleaned) != [] {
      ExportTargetIsTrimmed(cleaned);
    } else {
      FallbackTargetIsTrimmed(cleaned);
    }
  }

  /** With export calls, the stripped first argument holds no comma and is already stripped. */
  lemma ExportTargetIsTrimmed(cleaned: string)
    requires ExportMatches(cleaned) != []
    ensures ',' !in Target(cleaned) && Strip(Target(cleaned)) == Target(cleaned)
  {
    var m := ExportMatches(cleaned)[0];
    var t := Strip(FirstArgument(cleaned, m));
    assert Target(cleaned) == t;
    ExportBranch(cleaned);
    StripOfTrimmed(t);
  }

  /** Without export calls, the guessed variable holds no comma and is already stripped. */
  lemma FallbackTargetIsTrimmed(cleaned: string)
    requires ExportMatches(cleaned) == []
    ensures ',' !in Target(cleaned) && Strip(Target(cleaned)) == Target(cleaned)
  {
    FallbackBranch(cleaned);
    var k := FirstMatchingPattern(cleaned, 0);
    if k.Some? {
      ItemIsTrimmed(k.value, Target(cleaned));
    } else {
      DefaultIsTrimmed();
    }
  }

  /** The default variable holds no comma and is already stripped. */
  lemma DefaultIsTrimmed()
    ensures ',' !in DefaultResultVar && Strip(DefaultResultVar) == DefaultResultVar
  {
    StripOfTrimmed(DefaultResultVar);
  }

  /**
   * Rewriting twice is rewriting once, when the filename ends in `.stl`
   * with no quote or newline in it, the exported variable is not empty, and
   * the kept code mentions the exporters module only inside export calls.
   */
  lemma RewriteIdempotent(cleaned: string, f: string)
    requires StlFilename(f) && Target(cleaned) != ""
    requires ExportMatches(cleaned) != [] || !Contains(cleaned, "exporters.")
    ensures Rewrite(Rewrite(cleaned, f), f) == Rewrite(cleaned, f)
  {
    var body := Strip(Body(cleaned));
    StripOfTrimmed(body);
    if ExportMatches(cleaned) != [] {
      KeptBodyOmitsExporters(cleaned);
    } else {
      FallbackBranch(cleaned);
      StripKeepsAbsence(cleaned, "exporters.");
    }
    TargetIsTrimmed(cleaned);
    RewriteOfRewritten(body, Target(cleaned), f);
  }

  /**
   * Sanitising sanitised code gives it back unchanged when its output
   * starts with the primary marker, under the conditions of `RewriteIdempotent`.
   */
  lemma SanitiseIdempotent(raw: string, f: string)
    requires MarkerStart(raw) >= 0
    requires var cleaned := raw[MarkerStart(raw)..];
             && StlFilename(f) && Target(cleaned) != ""
             && (ExportMatches(cleaned) != [] || !Contains(cleaned, "exporters."))
             && OccursAt(Rewrite(cleaned, f), PrimaryMarker, 0)
    ensures Sanitise(raw, f).Some? && Sanitise(Sanitise(raw, f).value, f) == Sanitise(raw, f)
  {
    var out := Rewrite(raw[MarkerStart(raw)..], f);
    assert Contains(out, Markers[0]);
    assert FirstPresent(out, Markers) == Some(0);
    assert Find(out, PrimaryMarker) == 0;
    assert out[0..] == out;
    RewriteIdempotent(raw[MarkerStart(raw)..], f);
  }

  /** Code that starts with the primary marker and never mentions the exporters module keeps the marker at its start. */
  lemma FallbackStartsWithMarker(cleaned: string, f: string)
    requires |PrimaryMarker| <= |cleaned| && cleaned[..|PrimaryMarker|] == PrimaryMarker
    requires !Contains(cleaned, "exporters.")
    ensures ExportMatches(cleaned) == [] && Target(cleaned) != ""
    ensures OccursAt(Rewrite(cleaned, f), PrimaryMarker, 0)
  {
    NoMentionNoMatches(cleaned);
    FallbackBranch(cleaned);
    MarkersAreTrimmed(0);
    FallbackKeepsMarker(cleaned, PrimaryMarker, f);
  }

  /**
   * Code from the primary marker on that never mentions the exporters
   * module is sanitised once and for all: a second pass changes nothing.
   */
  lemma SanitiseIdempotentWithoutExports(raw: string, f: string)
    requires Contains(raw, PrimaryMarker) && StlFilename(f)
    requires !Contains(raw[Find(raw, PrimaryMarker)..], "exporters.")
    ensures Sanitise(raw, f).Some? && Sanitise(Sanitise(raw, f).value, f) == Sanitise(raw, f)
  {
    assert FirstPresent(raw, Markers) == Some(0);
    var cleaned := raw[Find(raw, PrimaryMarker)..];
    assert cleaned[..|PrimaryMarker|] == PrimaryMarker;
    FallbackStartsWithMarker(cleaned, f);
    SanitiseIdempotent(raw, f);
  }
}
