# fstr: the legacy template compiler, in Dafny

`fstr` gives Python versions older than 3.6 deferred f-strings. `fstr("Hello {to.title()}!")`
is built once. Calling `format(to="world")` later evaluates the expressions between the braces
and substitutes their values. On those older interpreters the work is done by hand, and this
project models that path:

- **`expr_starts_and_stops`** (module `Scanner`, `scanner.dfy`) scans the template once. It
  tracks the brace depth and three quote flags, and returns the interior offsets
  `(start, stop)` of every top-level `{...}` region, telling doubled-brace escapes (`{{`, `}}`)
  apart from delimiters by the parity of each run of braces. It raises when the depth is not
  back to zero at the end.
- **`split_format_language`** (module `Splitter`, `splitter.dfy`) splits a region into its
  expression and its format language. The split falls at the first `:`, or `!` not starting
  `!=`, where every bracket depth is zero and no quote is open. It raises when the format
  language has a `{` before its first `:`.
- **`fstr.__init__`** (module `Template`, `template.dfy`) does the following:
  - it cuts the template into the runs outside and inside the regions;
  - it splits every region;
  - it turns each static format language into a `{spec}` placeholder;
  - it compiles a format language that contains `{` into a nested `fstr` with the same context;
  - it rejects blank expressions;
  - it stores each expression stripped and without newlines;
  - it regroups the template parts in pairs;
  - it compiles every stored expression, and raises on the first one the compiler rejects.
- **`fstr.format`** (module `Render`, `render.dfy`) does the following:
  - it renders the nested `fstr`s paired with a template part, in order, by the same `format`
    with the same call-time keywords, and builds the string handed to `str.format` from the
    template parts and those renders;
  - it evaluates every expression in the captured context overridden by the call-time
    keywords (module `Text`, `text.dfy`, holds the shared result type and the `str`
    operations used);
  - it formats.

The host's `compile`, `eval` and `str.format` are parameters. `compiles` says which
expressions the compiler accepts. `eval` and `str.format` return `None` where the
interpreter's would raise.

Each imperative loop of the source is a `method` with its loop and invariants:
`ExprStartsAndStops`, `SplitFormatLanguage`, `CutRuns`, `Compile` and `Format` (with
`FormatTemplate` and its zip loop `ZipFields`). Each is proved equal to a function of its
inputs: `Scan`, `Split`, `Outsides`/`Insides`, `CompileSpec` and `Rendered` (with
`FormatString`). The lemmas about the source's promises are stated over those functions. An
`fstr` never changes after `__init__`, so an instance is the value `Template.Fstr`. A `raise`
is an `Err` of `Text.Error`.

The model keeps the code's behaviour as written, including these points:

- **`"{{"` raises.** The opening-brace run is counted with `enumerate` over the rest of the
  string. That count is one short when the run reaches the end of the string, so the two
  braces open a region instead of forming an escape (`Scanner.DoubledBraceAtEndRaises`,
  `Scanner.OpeningRunAtEnd`). Before a non-brace character the count is exact: an odd run
  opens a region and an even run is all escapes (`Scanner.OpeningRunParity`), and `"{{}}"`
  has no region (`Scanner.EscapedBracesOpenNoRegion`).
- **The closing run is counted over the rest plus a `" "` sentinel**, so it is exact: an odd
  run of `}` closes the region (`Scanner.ClosingRunParity`).
- **Quote flags change only inside a region.** A quoted brace inside a region neither opens
  nor closes anything (`Scanner.QuotedBraceIsNotStructural`).
- **A triple quote only toggles its own flag.** The toggle moves the index on by one
  character, so the next two quotes are scanned again (`Scanner.TripleQuoteToggles`). The flag
  does not stop braces from counting: with only it set, a `{` still deepens the region and a
  `}` still closes or shallows it (`Scanner.TripleQuoteKeepsCounting`). So `"{'''x'''}"` has
  the one region from offset 1 to 8 (`Scanner.TripleQuotedRegion`), but `"{'''{'''}"` raises
  `MismatchedBraces` (`Scanner.TripleQuotedBraceCounts`), where an f-string of the
  interpreter's own reads it as the text `{`.
- **The legacy `__init__` calls `split_format_language(inner, self)` with two arguments.** The
  function takes one. The model gives the call the one-argument function's behaviour.
- **`__init__` calls `raise_syntax_error` for a blank expression.** `fstr/utils.py` does not
  define it. The model gives the failure as `EmptyExpression(index + 1)`, the offset the call
  passes.
- **Regrouping can put a nested field in the wrong place.** Before regrouping there is one
  part per region, after `outside[0]`. A region with a static format language adds
  `"{spec}" + outside`. A region with a nested format language adds only its outside run.
  Regrouping then joins parts `2i` and `2i+1`, and `format` puts nested field `i` after
  regrouped part `i`, whichever region that field came from. Where that lands depends on the
  template. Three cases are proved:
  - With one region, which is nested, the field comes after both outside runs
    (`Render.DynamicFieldMovedLast`).
  - With two static regions and then a nested one, the nested field lands before the second
    placeholder. The second and third values are then formatted with each other's specs
    (`Render.NestedFieldSwapsSpecs`).
  - With three or more regions, all nested, there are more nested `fstr`s than parts. The
    extra ones are never rendered (`Render.NestedFieldsDropped`).

## Model

| member | source | states |
|---|---|---|
| Scanner.ExprStartsAndStops | fstr/utils.py:33-88 | The scanning loop returns exactly `Scan(s)`. On success its regions are well formed: `1 <= start <= stop < len(s)`, `s[start-1] == '{'`, `s[stop] == '}'`, and consecutive regions are ordered with at least two characters between them. Every recorded start is paired with a recorded stop. |
| Scanner.Scan | fstr/utils.py:85-88 | On success (final depth 0, otherwise `MismatchedBraces`) the zipped starts and stops are well formed as above. There are as many regions as recorded starts and as recorded stops, so `zip` drops nothing. |
| Scanner.Step | fstr/utils.py:42-83 | One loop iteration always advances the index and stays within the string. A `}` at depth 0 only advances the index. A quoted brace inside a region leaves the depth and the regions unchanged. A region is closed only at an unquoted `}` at depth 1. Outside a region the quote flags do not change. |
| Scanner.QuoteStep | fstr/utils.py:44-54 | The quote update changes only the three quote flags, and changes nothing at depth 0. |
| Scanner.BraceStep | fstr/utils.py:55-82 | The brace update keeps the index within the string and the quote flags unchanged. It ignores a quoted `}`, and closes a region only at an unquoted `}` at depth 1. When it does open or close a region is stated by the four parity lemmas below. |
| Scanner.OpeningRunParity | fstr/utils.py:60-69 | At depth 0, a run of `n` opening braces followed by another character opens a region just after the run if and only if `n` is odd. Either way the step moves past the whole run. |
| Scanner.OpeningRunAtEnd | fstr/utils.py:60-69 | At depth 0, a run of `n >= 2` opening braces that reaches the end of the string is counted one short. An even `n` opens a region before the last brace. An odd `n` opens none and stops before the last brace. |
| Scanner.LoneBraceAtEnd | fstr/utils.py:60-69 | At depth 0, a single `{` as the last character opens a region that starts at the end of the string. |
| Scanner.ClosingRunParity | fstr/utils.py:70-82 | At depth 1 outside single and double quotes, a run of `n` closing braces closes the region at its first brace if and only if `n` is odd. Either way the step moves past the whole run. |
| Scanner.CountBrace | fstr/utils.py:55-82 | The brace-handling statements compute exactly `BraceStep` on the loop variables. |
| Scanner.OpenRun | fstr/utils.py:61-65 | The `j` left by the opening `enumerate` loop: every character up to `i + j` is `{`, and the run either stops before a non-brace character or is cut one short by the end of the string. |
| Scanner.OpeningRun | fstr/utils.py:61-64 | The opening `enumerate` loop computes `OpenRun`. |
| Scanner.CloseRun | fstr/utils.py:74-77 | The `j` left by the closing loop over the rest plus `" "`: every character up to `i + j` is `}`, followed by a non-brace character or the end of the string. |
| Scanner.ClosingRun | fstr/utils.py:74-77 | The closing `enumerate` loop computes `CloseRun`. |
| Scanner.RunLength | fstr/utils.py:62-64 | A brace run is maximal: every character in it is the brace, and the next one is not. |
| Scanner.StepKeepsInvariant | fstr/utils.py:42-83 | Each iteration keeps the loop invariant: the index stays within the string, at depth 0 no quote is open, there is one more start than stop exactly while a region is open, and recorded starts and stops lie after a `{` and on a `}`, in order. |
| Scanner.ScanKeepsInvariant | fstr/utils.py:42-83 | The whole loop keeps that invariant, so it terminates with a well-formed result. |
| Scanner.DoubledBraceAtEndRaises | fstr/utils.py:61-69 | `"{{"` raises `MismatchedBraces`, because the opening run at the end of the string is counted one short. |
| Scanner.EscapedBracesOpenNoRegion | fstr/utils.py:61-82 | `"{{}}"` has no region. |
| Scanner.QuotedBraceIsNotStructural | fstr/utils.py:44-57 | In `"{'{'}"` the quoted `{` does not count, and the single region spans offsets 1 to 4. |
| Scanner.TripleQuoteToggles | fstr/utils.py:44-54 | Inside a region, a `'` outside double quotes (or a `"` outside single quotes) followed by two more of the same toggles the triple-quote flag and nothing else, and the next iteration starts at the very next character. |
| Scanner.TripleQuoteKeepsCounting | fstr/utils.py:55-72 | Inside a region outside single and double quotes, whatever the triple-quote flag, a `{` raises the depth by one and a `}` above depth 1 lowers it by one. |
| Scanner.TripleQuotedRegion | fstr/utils.py:42-88 | `"{'''x'''}"` has one region, from offset 1 to 8. |
| Scanner.TripleQuotedBraceCounts | fstr/utils.py:42-86 | `"{'''{'''}"` raises `MismatchedBraces`: the `{` between the triple quotes counts, so the final `}` leaves the depth at 1. |
| Splitter.SplitFormatLanguage | fstr/utils.py:1-30 | The splitting loop with `break`/`else` returns exactly `Split(s)`. |
| Splitter.Split | fstr/utils.py:24-30 | The expression is the prefix of `s` up to the first split point. The format language is the rest, right-stripped, and is empty when there is no split point; when not empty, it starts with `!` or `:`. The call fails with `DynamicConversion` if and only if the format language has a `{` before its first `:`. |
| Splitter.FirstSplit | fstr/utils.py:7-22 | The result is the first index from `from` on where all depths are zero, no quote is open and the character is a delimiter, or `len(s)` if there is none. |
| Splitter.SplitIndex | fstr/utils.py:7-22 | The same as `FirstSplit`, from index 0. |
| Splitter.SplitIndexUnique | fstr/utils.py:7-22 | Any index that is a split point with no split point before it (or `len(s)` with none at all) is `SplitIndex`. |
| Splitter.RoundDepthNeverRises | fstr/utils.py:8-12 | Without a `(`, the round-bracket depth never rises along the string. |
| Splitter.UnmatchedCloserSuppressesSplit | fstr/utils.py:8-16 | After an unmatched `)` (no `(` anywhere), no later index qualifies, because a negative depth counts as non-zero. |
| Splitter.NotEqualIsNotAConversion | fstr/utils.py:17 | `3!=4` is all expression: `!=` is not a conversion. |
| Splitter.ConversionSplits | fstr/utils.py:17-18 | `x!r` splits into `x` and `!r`. |
| Splitter.DynamicConversionRejected | fstr/utils.py:27-28 | `'s'!{'r'}` raises: a conversion cannot hold a `{`. |
| Template.Outsides | fstr/fstr.py:81-88 | The `outside` list: one more run than there are regions. |
| Template.Insides | fstr/fstr.py:81-88 | The `inside` list: one run per region, each shorter than the template. |
| Template.CutRuns | fstr/fstr.py:81-88 | The cutting loop returns exactly `Outsides` and `Insides` of the regions. |
| Template.RunsReassemble | fstr/fstr.py:81-88 | There is one more outside run than inside runs, and interleaving them with the braces restored gives back the template. |
| Template.Cleaned | fstr/fstr.py:104-108 | The stored form of an expression (stripped, stripped again, newlines removed) has no newline and is no longer than the expression. `Template.CleanedNonEmpty` shows it is not empty when the expression does not strip to nothing. |
| Template.CleanedNonEmpty | fstr/fstr.py:104-108 | An expression that does not strip to nothing stays non-empty once cleaned. |
| Template.AssembleFrom | fstr/fstr.py:95-109 | The assembling loop from region `k` on: each region in turn through `AddRegion`, stopping at the first error. `Template.AssembleKeeps` states what it builds. |
| Template.AddRegion | fstr/fstr.py:96-109 | One iteration of that loop: the split's error, else the field's error, else `EmptyExpression(index + 1)` for a blank expression, else the lists extended and `index` advanced. The three lemmas below state each case. |
| Template.FieldFailureFails | fstr/fstr.py:98-101 | When compiling a nested format language fails, the iteration fails with that error, before the expression is checked. |
| Template.BlankExpressionFails | fstr/fstr.py:104-107 | When the field succeeds and the expression strips to nothing, the iteration raises `EmptyExpression(index + 1)`. |
| Template.FilledExpressionAdds | fstr/fstr.py:98-109 | When the field succeeds and the expression is not blank, the iteration keeps the field's parts and nested `fstr`s, appends the cleaned expression, and advances `index` by the lengths of the inside and outside runs. |
| Template.AddField | fstr/fstr.py:98-103 | A format language containing `{` becomes a nested `fstr` on the same context, and the part gets only the outside run. Any other becomes a `"{" + spec + "}"` placeholder before the outside run. |
| Template.CompileRegion | fstr/fstr.py:96-109 | One iteration of the assembling loop computes `AddRegion`. |
| Template.CompileField | fstr/fstr.py:98-103 | The placeholder or nested-fstr choice computes `AddField`. |
| Template.Compile | fstr/fstr.py:78-119 | `__init__`'s loops return exactly `CompileSpec(t, ctx, compiles)`: the instance, or the error raised. |
| Template.CompileSpec | fstr/fstr.py:78-119 | A compiled instance keeps the template and the captured context. |
| Template.AssembleKeeps | fstr/fstr.py:95-109 | When the lists after region `k` satisfy the loop invariant and the loop completes, the final lists satisfy it over every region: the parts are `PartsOf` the regions, the expressions their cleaned expressions, none empty, the nested `fstr`s one per nested format language on the same context, and `index` the offset counter. |
| Template.AssembledAll | fstr/fstr.py:95-109 | When the assembling loop completes, it has stored the cleaned expression of every region. |
| Template.PartsOf | fstr/fstr.py:92-103 | The parts before regrouping: `outside[0]`, then one part per region, so `n + 1` parts for `n` regions. |
| Template.PartsJoinToSkeleton | fstr/fstr.py:92-103 | Those parts join to the placeholder skeleton: the template with each region replaced by `{spec}` when static and by nothing when nested. |
| Template.StoredAt | fstr/fstr.py:108 | Stored expression `k` is region `k`'s cleaned expression. |
| Template.CompiledFrom | fstr/fstr.py:78-119 | A compiled instance comes from a successful, well-formed scan and an assembling loop that kept its invariant over every region. Its parts are that loop's parts regrouped, and its code has one entry per expression. |
| Template.CompiledExpressions | fstr/fstr.py:104-119 | There is one stored expression per region. It is the region's expression stripped and without newlines, and never empty. The compiler accepts it, and `__code` holds its compiled entry. |
| Template.Codes | fstr/fstr.py:119 | The list of code objects exists if and only if the compiler accepts every expression, with one entry per expression, in order. Otherwise the error is `InvalidSyntax` of the first expression the compiler rejects. |
| Template.UncompilableExpressionRaises | fstr/fstr.py:119 | When the assembling loop completes and stored expression `k` is the first the compiler rejects, `__init__` raises `InvalidSyntax` of region `k`'s cleaned expression. |
| Template.StoredCompile | fstr/fstr.py:108-119 | When the compiler accepts the cleaned expression of every region, it accepts every stored expression. |
| Template.CompiledTemplate | fstr/fstr.py:92-114 | There are `ceil((n + 1) / 2)` template parts for `n` regions. Their join is the template with each region replaced by its placeholder: `{spec}` for a static format language, nothing for a nested one. |
| Template.CompiledNested | fstr/fstr.py:98-101 | There is one nested `fstr` per format language containing `{`, in order. Each is built on that format language with the same context. |
| Template.StaticTemplate | fstr/fstr.py:102-103 | With static format languages only, there is no nested `fstr`. The joined parts are `outside[0]` followed by `"{" + spec_k + "}" + outside[k+1]` for each region. |
| Template.StaticSkeleton | fstr/fstr.py:103 | With static format languages, the placeholder skeleton is the interleaving of the outside runs with the format languages. |
| Template.DynamicFieldRegrouped | fstr/fstr.py:98-114 | A single region with a nested format language leaves the one part `outside[0] + outside[1]` and one nested `fstr` on that format language. |
| Template.NestedAfterTwoStatic | fstr/fstr.py:98-114 | Two static regions and then a nested one leave the parts `outside[0] + "{s0}" + outside[1]` and `"{s1}" + outside[2] + outside[3]`, and one nested `fstr` on the third format language. |
| Template.Regroup | fstr/fstr.py:111-114 | Pairing gives `ceil(n / 2)` parts. |
| Template.RegroupAt | fstr/fstr.py:111-114 | Part `i` is the join of `parts[2i]` and `parts[2i+1]` (or `parts[2i]` alone at the end). |
| Template.RegroupKeepsText | fstr/fstr.py:111-114 | Regrouping gives `ceil(n / 2)` parts and does not change the joined text. |
| Template.EmptyExpressionRaises | fstr/fstr.py:104-107 | When region `j` is the first whose expression strips to nothing, and it and every earlier region have static format languages, `__init__` raises with offset `index + 1`. That offset is the region's start less the two braces of each earlier region. |
| Template.OffsetIsLength | fstr/fstr.py:94-109 | The error-offset counter after `n` regions is the length of the rebuilt prefix less two braces per region. |
| Template.StaticTemplateCompiles | fstr/fstr.py:95-119 | When every region splits with a static format language and a non-blank expression, and the compiler accepts every cleaned expression, `__init__` succeeds. |
| Render.Merge | fstr/fstr.py:132 | The evaluation context has the keys of both maps. A call-time keyword's value wins, and a captured key keeps its value otherwise. |
| Render.CallTimeShadowsCapture | fstr/fstr.py:132 | When the call-time keywords cover every captured name, the captured context makes no difference. |
| Render.Paired | fstr/fstr.py:125 | The length of the `zip` of parts and nested `fstr`s: the smaller of the two. |
| Render.Fields | fstr/fstr.py:125-126 | The text the zip loop appends: `part_i + "{" + render_i + "}"` for the first `n` pairs. `Render.FieldsUsePrefix` shows it reads only the first `n` renders. |
| Render.FieldsUsePrefix | fstr/fstr.py:125-126 | The zip loop's text over `n` pairs depends only on the first `n` renders. |
| Render.TemplateString | fstr/fstr.py:122-128 | The zip loop's text followed by the join of the parts from `len(template_fstrs)` on. `Render.NoNestedJoins` gives its value without nested `fstr`s. |
| Render.NoNestedJoins | fstr/fstr.py:122-128 | Without nested `fstr`s, the string handed to `str.format` is the join of the template parts. |
| Render.Renders | fstr/fstr.py:125-126 | The renders of the first `n` zipped nested `fstr`s, `n` of them, or the first error raised by one. |
| Render.RendersOutcome | fstr/fstr.py:125-126 | The first `n` nested renders succeed if and only if each of those nested `fstr`s renders. |
| Render.RendersInOrder | fstr/fstr.py:125-126 | On success, render `j` is what nested `fstr` `j` renders to, in order. |
| Render.RendersFirstFailure | fstr/fstr.py:125-126 | When nested `fstr` `i` is the first to fail and `i < n`, the first `n` renders fail with its error. |
| Render.RendersPrefix | fstr/fstr.py:125 | Two instances whose first `n` nested `fstr`s agree have the same first `n` renders. |
| Render.FormatString | fstr/fstr.py:122-128 | The string handed to `str.format`, or the error of the first failing nested render. `Render.RemainingParts` and `Render.NestedRaises` state both outcomes. |
| Render.NestedRaises | fstr/fstr.py:125-126 | When the earlier nested renders succeeded and nested `fstr` `i` fails, the template string fails with its error. |
| Render.NestedRenders | fstr/fstr.py:125-126 | When nested `fstr` `i` renders to `v`, the zip loop's state advances by `part_i + "{" + v + "}"` and the render `v`. |
| Render.RemainingParts | fstr/fstr.py:127-128 | After the whole zip, the template string is the zip's text followed by the join of the parts from `len(template_fstrs)` on (nothing when there are more nested `fstr`s than parts). |
| Render.FormatTemplate | fstr/fstr.py:122-128 | The template-building statements return exactly `FormatString`. |
| Render.ZipFields | fstr/fstr.py:123-126 | The zip loop either fails with the template string's error, or ends with the renders of all zipped nested `fstr`s and their text. |
| Render.Evaluated | fstr/fstr.py:129-137 | Evaluation succeeds if and only if every compiled expression evaluates, giving one value per expression in order. On failure the error names the first expression that does not evaluate. |
| Render.Rendered | fstr/fstr.py:121-141 | `f.format(**callTime)`: the template string's error, else the first evaluation error, else `str.format` of the template string and the values. `Render.RenderedOutcome` states the cases. |
| Render.Format | fstr/fstr.py:121-141 | The template loop, the evaluation loop and the final `str.format` return exactly `Rendered`. |
| Render.RenderedOutcome | fstr/fstr.py:121-141 | A failing nested render is raised as it is. Otherwise, when every expression evaluates, the result is `str.format` applied to the template string and the values, or `FormatRejected`; and when one does not, it is `CouldNotEvaluate` of the first failing expression. |
| Render.NestedFailureRaised | fstr/fstr.py:121-128 | When nested `fstr` `i` is the first zipped one that fails, `format` raises its error, before any expression is evaluated. |
| Render.ExtraNestedNeverRendered | fstr/fstr.py:125 | Nested `fstr`s beyond the number of parts are never rendered: dropping them does not change the result of `format`. |
| Render.CompiledCoherent | fstr/fstr.py:100-119 | Every compiled instance, and each of its nested `fstr`s, has one code object per stored expression. |
| Render.StaticFormatTemplate | fstr/fstr.py:102-128 | With static format languages only, `str.format` gets `outside[0]`, then `"{" + spec_k + "}" + outside[k+1]` for each region. |
| Render.DynamicFieldMovedLast | fstr/fstr.py:111-128 | For one region with a nested format language, `str.format` gets both outside runs and then the nested field, or the nested render's error. |
| Render.NestedFieldSwapsSpecs | fstr/fstr.py:98-128 | For two static regions and then a nested one, `str.format` gets `outside[0] + "{s0}" + outside[1]`, then the nested field, then `"{s1}" + outside[2] + outside[3]`, or the nested render's error. |
| Render.NestedFieldsDropped | fstr/fstr.py:111-128 | With three or more regions, all nested, there are fewer parts than nested `fstr`s, and `format` gives the same result without the extra ones. |

## Left out

- The branch for Python 3.6 and later (fstr/fstr.py:38-74) is not modelled. It hands the template to the interpreter's own f-string compiler.
- `fstr.evaluate` (fstr/fstr.py:33-36) is not modelled. It reads the caller's frame through `inspect`.
- `__repr__` (fstr/fstr.py:143-148) and `__new__` are not modelled. They only build the `str`.
- `compile`, `eval` and `str.format` are not modelled. `compile` is the parameter `compiles`, and a code object records only its expression's text (`Template.Code`). `eval` and `str.format` are parameters of `Render.Format` that return `None` where the interpreter's would raise.
- Render.Evaluated: `eval` is a pure function of the code and the context. In the source the expressions run one after another and can change objects later ones see, and the nested renders run before all of them. Those effects are not modelled; only the order in which failures are reported is.
- `str.format` raising something other than `ValueError` is given the same `FormatRejected` as a `ValueError`. The model does not tell exception types apart.
- `six.raise_from`, the exception types and the message texts are not modelled. Errors are the constructors of `Text.Error`.
- Text.IsSpace: follows Python 3's `str.isspace`, the set `str.strip()` removes on Python 3. On Python 2 this branch also runs on byte strings, whose `strip()` removes only ASCII whitespace.
- Render.Format: requires `Coherent(f)`, one code object per stored expression in the instance and its nested `fstr`s. Every compiled instance satisfies it (`Render.CompiledCoherent`).
- Template.EmptyExpressionRaises: covers a blank region only when it and the regions before it have static format languages. A nested format language is compiled before its region's expression is checked, so a failure there can come first.
- `setup.py` and the test suite are not part of this model.
