/**
 * `fstr.format` on the legacy path (fstr/fstr.py:121-141).
 *
 * `format` builds the string it hands to `str.format` from the template
 * parts and what the nested fstrs render to, evaluates every compiled
 * expression in the instance's context overridden by the call-time
 * keywords, and formats.
 *
 * `eval` and `str.format` belong to the host and are parameters here: `eval`
 * yields `None` where the source's `eval` raises, and `str.format` yields
 * `None` where it raises.  The nested fstrs are rendered by the same
 * `format`, with the same call-time keywords.
 */
module Render {
  import opened Text
  import opened Scanner
  import opened Splitter
  import opened Template

  /** Line 132, `dict(self.__context, **context)`: every key of either map, the call-time value winning on a clash. */
  function Merge<V>(captured: map<string, V>, callTime: map<string, V>): (env: map<string, V>)
    ensures env.Keys == captured.Keys + callTime.Keys
    ensures forall key :: key in callTime ==> env[key] == callTime[key]
    ensures forall key :: key in captured && key !in callTime ==> env[key] == captured[key]
  {
    captured + callTime
  }

  /** When the call-time keywords name every captured variable, the captured values play no part. */
  lemma CallTimeShadowsCapture<V>(captured: map<string, V>, other: map<string, V>, callTime: map<string, V>)
    requires captured.Keys <= callTime.Keys && other.Keys <= callTime.Keys
    ensures Merge(captured, callTime) == Merge(other, callTime) == callTime
  {
    assert Merge(captured, callTime).Keys == callTime.Keys;
    assert Merge(other, callTime).Keys == callTime.Keys;
  }

  // ---------------------------------------------------------------------------
  // Lines 122-128: the string handed to `str.format`.

  /**
   * What every fstr `__init__` builds satisfies (see `CompiledCoherent`): one
   * compiled code object per stored expression, and the same of its nested
   * fstrs.
   */
  predicate Coherent<V>(f: Fstr<V>)
    decreases f
  {
    && |f.code| == |f.expressions|
    && forall i :: 0 <= i < |f.templateFstrs| ==> Coherent(f.templateFstrs[i])
  }

  /** The number of pairs `zip(template_parts, template_fstrs)` yields. */
  function Paired<V>(f: Fstr<V>): (r: nat)
    ensures r <= |f.templateParts| && r <= |f.templateFstrs|
    ensures r == |f.templateParts| || r == |f.templateFstrs|
  {
    if |f.templateParts| <= |f.templateFstrs| then |f.templateParts| else |f.templateFstrs|
  }

  /** `template` after the first `n` rounds of the `zip` loop: each part followed by its nested field. */
  function Fields(parts: seq<string>, nested: seq<string>, n: nat): string
    requires n <= |parts| && n <= |nested|
  {
    if n == 0 then [] else Fields(parts, nested, n - 1) + (parts[n - 1] + "{" + nested[n - 1] + "}")
  }

  /** `template`: the zipped fields, then the parts that had no nested fstr to pair with. */
  function TemplateString(parts: seq<string>, renders: seq<string>): string
    requires |renders| <= |parts|
  {
    Fields(parts, renders, |renders|) + Concat(parts[|renders|..])
  }

  /** With no nested fstr the template is the parts joined. */
  lemma NoNestedJoins(parts: seq<string>)
    ensures TemplateString(parts, []) == Concat(parts)
  {
    assert parts[0..] == parts;
  }

  /** The zipped fields only use the renders of the first `n` nested fstrs. */
  lemma {:induction false} FieldsUsePrefix(parts: seq<string>, nested: seq<string>, m: nat, n: nat)
    requires n <= m <= |nested| && n <= |parts|
    ensures Fields(parts, nested, n) == Fields(parts, nested[..m], n)
  {
    if n > 0 {
      FieldsUsePrefix(parts, nested, m, n - 1);
      assert nested[..m][n - 1] == nested[n - 1];
    }
  }

  /**
   * Line 126, `fs.format(**context)`, for the first `n` nested fstrs of the
   * `zip`: their renders in order, or the error of the first that raises.
   */
  function Renders<V, W>(
    f: Fstr<V>, callTime: map<string, V>,
    eval: (Code, map<string, V>) -> Option<W>, apply: (string, seq<W>) -> Option<string>, n: nat)
    : (r: Result<seq<string>>)
    requires Coherent(f) && n <= Paired(f)
    ensures r.Ok? ==> |r.value| == n
    decreases f, 0, n
  {
    if n == 0 then Ok([])
    else
      match Renders(f, callTime, eval, apply, n - 1)
      case Err(e) => Err(e)
      case Ok(renders) =>
        match Rendered(f.templateFstrs[n - 1], callTime, eval, apply)
        case Err(e) => Err(e)
        case Ok(s) => Ok(renders + [s])
  }

  /** Lines 122-128: the template string, or the error of a nested fstr. */
  function FormatString<V, W>(
    f: Fstr<V>, callTime: map<string, V>,
    eval: (Code, map<string, V>) -> Option<W>, apply: (string, seq<W>) -> Option<string>)
    : Result<string>
    requires Coherent(f)
    decreases f, 1
  {
    match Renders(f, callTime, eval, apply, Paired(f))
    case Err(e) => Err(e)
    case Ok(renders) => Ok(TemplateString(f.templateParts, renders))
  }

  // ---------------------------------------------------------------------------
  // Lines 129-136: evaluating the compiled expressions.

  /**
   * The `values` list after the first `n` rounds of the evaluation loop, or
   * the error of the first expression whose evaluation raised: the loop
   * succeeds exactly when every evaluation does, and fails naming the first
   * expression that does not evaluate.
   */
  function Evaluated<V, W>(
    code: seq<Code>, expressions: seq<string>, env: map<string, V>, eval: (Code, map<string, V>) -> Option<W>, n: nat)
    : (r: Result<seq<W>>)
    requires n <= |code| <= |expressions|
    ensures r.Ok? <==> forall i :: 0 <= i < n ==> eval(code[i], env).Some?
    ensures r.Ok? ==> |r.value| == n && forall i :: 0 <= i < n ==> eval(code[i], env) == Some(r.value[i])
    ensures r.Err? ==> exists i :: FirstFailure(code, env, eval, i) && i < n && r.error == CouldNotEvaluate(expressions[i])
  {
    if n == 0 then Ok([])
    else
      match Evaluated(code, expressions, env, eval, n - 1)
      case Err(e) => Err(e)
      case Ok(values) =>
        match eval(code[n - 1], env)
        case None => Err(CouldNotEvaluate(expressions[n - 1]))
        case Some(v) => Ok(values + [v])
  }

  /** `code[i]` is the first compiled expression that does not evaluate in `env`. */
  predicate FirstFailure<V, W>(code: seq<Code>, env: map<string, V>, eval: (Code, map<string, V>) -> Option<W>, i: int) {
    0 <= i < |code| && eval(code[i], env).None? && forall k :: 0 <= k < i ==> eval(code[k], env).Some?
  }

  /** `f.format(**callTime)`. */
  function Rendered<V, W>(
    f: Fstr<V>, callTime: map<string, V>,
    eval: (Code, map<string, V>) -> Option<W>, apply: (string, seq<W>) -> Option<string>)
    : Result<string>
    requires Coherent(f)
    decreases f, 2
  {
    match FormatString(f, callTime, eval, apply)
    case Err(e) => Err(e)
    case Ok(template) =>
      match Evaluated(f.code, f.expressions, Merge(f.context, callTime), eval, |f.code|)
      case Err(e) => Err(e)
      case Ok(values) =>
        match apply(template, values)
        case None => Err(FormatRejected)
        case Some(s) => Ok(s)
  }

  /** `format`: the template loop, the evaluation loop and the final `str.format`. */
  method Format<V, W>(
    f: Fstr<V>, callTime: map<string, V>,
    eval: (Code, map<string, V>) -> Option<W>, apply: (string, seq<W>) -> Option<string>)
    returns (r: Result<string>)
    requires Coherent(f)
    ensures r == Rendered(f, callTime, eval, apply)
    decreases f, 2
  {
    var template := FormatTemplate(f, callTime, eval, apply);
    if template.Err? {
      return Err(template.error);
    }
    var env := Merge(f.context, callTime);
    var values := [];
    for i := 0 to |f.code|
      invariant Evaluated(f.code, f.expressions, env, eval, i) == Ok(values)
    {
      match eval(f.code[i], env)
      case None =>
        return Err(CouldNotEvaluate(f.expressions[i]));
      case Some(v) =>
        values := values + [v];
    }
    match apply(template.value, values)
    case None =>
      return Err(FormatRejected);
    case Some(s) =>
      return Ok(s);
  }

  /** Lines 122-128: the `zip` loop, formatting each nested fstr, then the remaining parts. */
  method FormatTemplate<V, W>(
    f: Fstr<V>, callTime: map<string, V>,
    eval: (Code, map<string, V>) -> Option<W>, apply: (string, seq<W>) -> Option<string>)
    returns (r: Result<string>)
    requires Coherent(f)
    ensures r == FormatString(f, callTime, eval, apply)
    decreases f, 1
  {
    var parts, fstrs := f.templateParts, f.templateFstrs;
    var template := "";
    ghost var renders: seq<string> := [];
    if fstrs != [] {
      var zipped;
      zipped, renders := ZipFields(f, callTime, eval, apply);
      if zipped.Err? {
        return zipped;
      }
      template := zipped.value;
    }
    RemainingParts(f, callTime, eval, apply, renders, template);
    template := template + Concat(if |fstrs| <= |parts| then parts[|fstrs|..] else []);
    return Ok(template);
  }

  /** Lines 125-126: the `zip` loop itself. */
  method ZipFields<V, W>(
    f: Fstr<V>, callTime: map<string, V>,
    eval: (Code, map<string, V>) -> Option<W>, apply: (string, seq<W>) -> Option<string>)
    returns (r: Result<string>, ghost renders: seq<string>)
    requires Coherent(f)
    ensures r.Err? ==> FormatString(f, callTime, eval, apply) == r
    ensures r.Ok? ==> ZipState(f, callTime, eval, apply, Paired(f), renders, r.value)
    decreases f, 0
  {
    var parts, fstrs := f.templateParts, f.templateFstrs;
    var template := "";
    renders := [];
    var i := 0;
    while i < |parts| && i < |fstrs|
      invariant ZipState(f, callTime, eval, apply, i, renders, template)
    {
      var nested := Format(fstrs[i], callTime, eval, apply);
      if nested.Err? {
        NestedRaises(f, callTime, eval, apply, i, renders);
        return Err(nested.error), renders;
      }
      NestedRenders(f, callTime, eval, apply, i, renders, template);
      template := template + (parts[i] + "{" + nested.value + "}");
      renders := renders + [nested.value];
      i := i + 1;
    }
    return Ok(template), renders;
  }

  /** The `zip` loop after `i` rounds: the nested fstrs rendered so far and the fields built from them. */
  ghost predicate ZipState<V, W>(
    f: Fstr<V>, callTime: map<string, V>,
    eval: (Code, map<string, V>) -> Option<W>, apply: (string, seq<W>) -> Option<string>,
    i: nat, renders: seq<string>, template: string)
    requires Coherent(f)
  {
    && i <= Paired(f)
    && Renders(f, callTime, eval, apply, i) == Ok(renders)
    && template == Fields(f.templateParts, renders, i)
  }

  /** A round of the `zip` loop whose nested fstr renders adds its field. */
  lemma NestedRenders<V, W>(
    f: Fstr<V>, callTime: map<string, V>,
    eval: (Code, map<string, V>) -> Option<W>, apply: (string, seq<W>) -> Option<string>,
    i: nat, renders: seq<string>, template: string)
    requires Coherent(f) && i < Paired(f) && ZipState(f, callTime, eval, apply, i, renders, template)
    requires Rendered(f.templateFstrs[i], callTime, eval, apply).Ok?
    ensures var value := Rendered(f.templateFstrs[i], callTime, eval, apply).value;
      ZipState(f, callTime, eval, apply, i + 1, renders + [value], template + (f.templateParts[i] + "{" + value + "}"))
  {
    var value := Rendered(f.templateFstrs[i], callTime, eval, apply).value;
    RendersStep(f, callTime, eval, apply, i + 1);
    FieldsUsePrefix(f.templateParts, renders + [value], i, i);
    assert (renders + [value])[..i] == renders;
  }

  /** A round of the `zip` loop whose nested fstr raises ends `format` with that error. */
  lemma NestedRaises<V, W>(
    f: Fstr<V>, callTime: map<string, V>,
    eval: (Code, map<string, V>) -> Option<W>, apply: (string, seq<W>) -> Option<string>,
    i: nat, renders: seq<string>)
    requires Coherent(f) && i < Paired(f) && Renders(f, callTime, eval, apply, i) == Ok(renders)
    requires Rendered(f.templateFstrs[i], callTime, eval, apply).Err?
    ensures FormatString(f, callTime, eval, apply) == Err(Rendered(f.templateFstrs[i], callTime, eval, apply).error)
  {
    RendersStep(f, callTime, eval, apply, i + 1);
    RendersFailureStays(f, callTime, eval, apply, i + 1, Paired(f));
  }

  /** Line 128: after the `zip` loop come the parts from `len(template_fstrs)` on. */
  lemma RemainingParts<V, W>(
    f: Fstr<V>, callTime: map<string, V>,
    eval: (Code, map<string, V>) -> Option<W>, apply: (string, seq<W>) -> Option<string>,
    renders: seq<string>, template: string)
    requires Coherent(f) && ZipState(f, callTime, eval, apply, Paired(f), renders, template)
    ensures var parts, fstrs := f.templateParts, f.templateFstrs;
      FormatString(f, callTime, eval, apply)
      == Ok(template + Concat(if |fstrs| <= |parts| then parts[|fstrs|..] else []))
  {
    var parts, fstrs := f.templateParts, f.templateFstrs;
    assert parts[|renders|..] == if |fstrs| <= |parts| then parts[|fstrs|..] else [];
  }

  /** One round of the `zip` loop. */
  lemma RendersStep<V, W>(
    f: Fstr<V>, callTime: map<string, V>,
    eval: (Code, map<string, V>) -> Option<W>, apply: (string, seq<W>) -> Option<string>, n: nat)
    requires Coherent(f) && 0 < n <= Paired(f)
    ensures var previous, nested := Renders(f, callTime, eval, apply, n - 1), Rendered(f.templateFstrs[n - 1], callTime, eval, apply);
      Renders(f, callTime, eval, apply, n)
      == if previous.Err? then Err(previous.error)
         else if nested.Err? then Err(nested.error)
         else Ok(previous.value + [nested.value])
  {
  }

  /** One nested fstr paired with a part: the template has the part, the nested field and the rest. */
  lemma OnePairFormatString<V, W>(
    f: Fstr<V>, callTime: map<string, V>,
    eval: (Code, map<string, V>) -> Option<W>, apply: (string, seq<W>) -> Option<string>)
    requires Coherent(f) && |f.templateFstrs| == 1 && 1 <= |f.templateParts|
    ensures var nested := Rendered(f.templateFstrs[0], callTime, eval, apply);
      FormatString(f, callTime, eval, apply)
      == if nested.Err? then Err(nested.error)
         else Ok(f.templateParts[0] + "{" + nested.value + "}" + Concat(f.templateParts[1..]))
  {
    var nested := Rendered(f.templateFstrs[0], callTime, eval, apply);
    assert Paired(f) == 1;
    assert Renders(f, callTime, eval, apply, 0) == Ok([]);
    if nested.Ok? {
      var field := f.templateParts[0] + "{" + nested.value + "}";
      NestedRenders(f, callTime, eval, apply, 0, [], "");
      assert [] + [nested.value] == [nested.value] && "" + field == field;
      RemainingParts(f, callTime, eval, apply, [nested.value], f.templateParts[0] + "{" + nested.value + "}");
    } else {
      NestedRaises(f, callTime, eval, apply, 0, []);
    }
  }

  /** Once a nested fstr of the `zip` raises, the loop's outcome is that error. */
  lemma {:induction false} RendersFailureStays<V, W>(
    f: Fstr<V>, callTime: map<string, V>,
    eval: (Code, map<string, V>) -> Option<W>, apply: (string, seq<W>) -> Option<string>, n: nat, m: nat)
    requires Coherent(f) && n <= m <= Paired(f)
    requires Renders(f, callTime, eval, apply, n).Err?
    ensures Renders(f, callTime, eval, apply, m) == Renders(f, callTime, eval, apply, n)
    decreases m
  {
    if n < m {
      RendersFailureStays(f, callTime, eval, apply, n, m - 1);
      RendersStep(f, callTime, eval, apply, m);
    }
  }

  /** The `i`-th nested fstr of the `zip` is the first one whose `format` raises. */
  predicate FirstNestedFailure<V, W>(
    f: Fstr<V>, callTime: map<string, V>,
    eval: (Code, map<string, V>) -> Option<W>, apply: (string, seq<W>) -> Option<string>, i: int)
    requires Coherent(f)
  {
    && 0 <= i < Paired(f)
    && Rendered(f.templateFstrs[i], callTime, eval, apply).Err?
    && forall j :: 0 <= j < i ==> Rendered(f.templateFstrs[j], callTime, eval, apply).Ok?
  }

  /** The first `n` rounds of the `zip` loop succeed exactly when each of those nested fstrs renders. */
  lemma {:induction false} RendersOutcome<V, W>(
    f: Fstr<V>, callTime: map<string, V>,
    eval: (Code, map<string, V>) -> Option<W>, apply: (string, seq<W>) -> Option<string>, n: nat)
    requires Coherent(f) && n <= Paired(f)
    ensures Renders(f, callTime, eval, apply, n).Ok?
        <==> forall j :: 0 <= j < n ==> Rendered(f.templateFstrs[j], callTime, eval, apply).Ok?
  {
    if n > 0 {
      RendersOutcome(f, callTime, eval, apply, n - 1);
      RendersStep(f, callTime, eval, apply, n);
    }
  }

  /** They then keep the renders in order. */
  lemma {:induction false} RendersInOrder<V, W>(
    f: Fstr<V>, callTime: map<string, V>,
    eval: (Code, map<string, V>) -> Option<W>, apply: (string, seq<W>) -> Option<string>, n: nat)
    requires Coherent(f) && n <= Paired(f) && Renders(f, callTime, eval, apply, n).Ok?
    ensures forall j :: 0 <= j < n ==>
      && Rendered(f.templateFstrs[j], callTime, eval, apply).Ok?
      && Renders(f, callTime, eval, apply, n).value[j] == Rendered(f.templateFstrs[j], callTime, eval, apply).value
  {
    if n > 0 {
      RendersStep(f, callTime, eval, apply, n);
      RendersInOrder(f, callTime, eval, apply, n - 1);
    }
  }

  /** Otherwise they fail with the error of the first nested fstr that raises. */
  lemma RendersFirstFailure<V, W>(
    f: Fstr<V>, callTime: map<string, V>,
    eval: (Code, map<string, V>) -> Option<W>, apply: (string, seq<W>) -> Option<string>, i: int, n: nat)
    requires Coherent(f) && n <= Paired(f) && FirstNestedFailure(f, callTime, eval, apply, i) && i < n
    ensures Renders(f, callTime, eval, apply, n) == Err(Rendered(f.templateFstrs[i], callTime, eval, apply).error)
  {
    assert Renders(f, callTime, eval, apply, i).Ok? by {
      RendersOutcome(f, callTime, eval, apply, i);
    }
    RendersStep(f, callTime, eval, apply, i + 1);
    RendersFailureStays(f, callTime, eval, apply, i + 1, n);
  }

  /**
   * A nested fstr that raises makes `format` raise the same error, before any
   * of the instance's own expressions is evaluated.
   */
  lemma NestedFailureRaised<V, W>(
    f: Fstr<V>, callTime: map<string, V>,
    eval: (Code, map<string, V>) -> Option<W>, apply: (string, seq<W>) -> Option<string>, i: int)
    requires Coherent(f) && FirstNestedFailure(f, callTime, eval, apply, i)
    ensures Rendered(f, callTime, eval, apply) == Err(Rendered(f.templateFstrs[i], callTime, eval, apply).error)
  {
    RendersFirstFailure(f, callTime, eval, apply, i, Paired(f));
  }

  /**
   * With more nested fstrs than template parts, those beyond the parts are
   * never rendered: `format` behaves as if they were not there, so their
   * errors are never raised.
   */
  lemma ExtraNestedNeverRendered<V, W>(
    f: Fstr<V>, callTime: map<string, V>,
    eval: (Code, map<string, V>) -> Option<W>, apply: (string, seq<W>) -> Option<string>)
    requires Coherent(f) && |f.templateParts| < |f.templateFstrs|
    ensures var g := f.(templateFstrs := f.templateFstrs[..|f.templateParts|]);
      Coherent(g) && Rendered(f, callTime, eval, apply) == Rendered(g, callTime, eval, apply)
  {
    var g := f.(templateFstrs := f.templateFstrs[..|f.templateParts|]);
    assert forall i :: 0 <= i < |g.templateFstrs| ==> g.templateFstrs[i] == f.templateFstrs[i];
    RendersPrefix(f, g, callTime, eval, apply, Paired(f));
  }

  lemma {:induction false} RendersPrefix<V, W>(
    f: Fstr<V>, g: Fstr<V>, callTime: map<string, V>,
    eval: (Code, map<string, V>) -> Option<W>, apply: (string, seq<W>) -> Option<string>, n: nat)
    requires Coherent(f) && Coherent(g) && n <= Paired(f) && n <= Paired(g)
    requires forall i :: 0 <= i < n ==> g.templateFstrs[i] == f.templateFstrs[i]
    ensures Renders(f, callTime, eval, apply, n) == Renders(g, callTime, eval, apply, n)
  {
    if n > 0 {
      RendersPrefix(f, g, callTime, eval, apply, n - 1);
      RendersStep(f, callTime, eval, apply, n);
      RendersStep(g, callTime, eval, apply, n);
    }
  }

  // ---------------------------------------------------------------------------
  // What `format` does with a compiled instance.

  /** Every fstr `__init__` builds, and every nested fstr it holds, has one code object per expression. */
  lemma CompiledCoherent<V>(t: string, ctx: map<string, V>, compiles: string -> bool)
    requires CompileSpec(t, ctx, compiles).Ok?
    ensures Coherent(CompileSpec(t, ctx, compiles).value)
    decreases |t|, 1
  {
    var regions := Scan(t).value;
    var outside, inside := Outsides(t, regions), Insides(t, regions);
    AssembleCoherent(|t|, outside, inside, SplitAll(inside), ctx, compiles, Template.Start(outside), 0);
  }

  /** The nested fstrs the second loop of `__init__` adds are coherent. */
  lemma AssembleCoherent<V>(
    bound: nat, outside: seq<string>, inside: seq<string>, splits: seq<Result<(string, string)>>,
    ctx: map<string, V>, compiles: string -> bool, a: Assembly<V>, k: nat)
    requires Fits(bound, outside, inside, splits) && k <= |inside|
    requires AssembleFrom(bound, outside, inside, splits, ctx, compiles, a, k).Ok?
    requires forall i :: 0 <= i < |a.fstrs| ==> Coherent(a.fstrs[i])
    ensures var b := AssembleFrom(bound, outside, inside, splits, ctx, compiles, a, k).value;
      forall i :: 0 <= i < |b.fstrs| ==> Coherent(b.fstrs[i])
    decreases bound, 0, |inside| - k
  {
    if k < |inside| {
      AssembleStep(bound, outside, inside, splits, ctx, compiles, a, k);
      AddRegionValue(bound, a, splits[k], inside[k], outside[k + 1], ctx, compiles);
      var formatLang := splits[k].value.1;
      var added: seq<Fstr<V>> := [];
      if '{' in formatLang {
        assert |formatLang| < bound;
        CompiledCoherent(formatLang, ctx, compiles);
        added := [CompileSpec(formatLang, ctx, compiles).value];
      }
      var b := AddRegion(bound, a, splits[k], inside[k], outside[k + 1], ctx, compiles).value;
      assert b.fstrs == a.fstrs + added;
      AllCoherent(a.fstrs, added);
      AssembleCoherent(bound, outside, inside, splits, ctx, compiles, b, k + 1);
    }
  }

  lemma AllCoherent<V>(xs: seq<Fstr<V>>, ys: seq<Fstr<V>>)
    requires forall i :: 0 <= i < |xs| ==> Coherent(xs[i])
    requires forall i :: 0 <= i < |ys| ==> Coherent(ys[i])
    ensures forall i :: 0 <= i < |xs + ys| ==> Coherent((xs + ys)[i])
  {
    forall i | 0 <= i < |xs + ys|
      ensures Coherent((xs + ys)[i])
    {
      if i >= |xs| {
        assert (xs + ys)[i] == ys[i - |xs|];
      }
    }
  }

  /**
   * With static format languages only, `str.format` gets the template with
   * each region replaced by `{spec}`: `outside[0]`, then `"{" + spec_k + "}"
   * + outside[k + 1]` for each region.
   */
  lemma StaticFormatTemplate<V, W>(
    t: string, ctx: map<string, V>, compiles: string -> bool, regions: seq<Region>, callTime: map<string, V>,
    eval: (Code, map<string, V>) -> Option<W>, apply: (string, seq<W>) -> Option<string>)
    requires Scan(t) == Ok(regions) && CompileSpec(t, ctx, compiles).Ok?
    requires forall k :: 0 <= k < |regions| ==> '{' !in FormatLangOf(SplitAll(Insides(t, regions))[k])
    ensures var f := CompileSpec(t, ctx, compiles).value;
      && f.templateFstrs == [] && Coherent(f)
      && FormatString(f, callTime, eval, apply)
         == Ok(Interleave(Outsides(t, regions), Specs(SplitAll(Insides(t, regions)), |regions|), |regions|))
  {
    StaticTemplate(t, ctx, compiles, regions);
    CompiledCoherent(t, ctx, compiles);
    NoNestedJoins(CompileSpec(t, ctx, compiles).value.templateParts);
  }

  /**
   * One region with a nested format language: `str.format` gets both
   * outside runs first and the nested field last, so the text after the
   * field in the template comes before it in the output.
   */
  lemma DynamicFieldMovedLast<V, W>(
    t: string, ctx: map<string, V>, compiles: string -> bool, regions: seq<Region>, callTime: map<string, V>,
    eval: (Code, map<string, V>) -> Option<W>, apply: (string, seq<W>) -> Option<string>)
    requires Scan(t) == Ok(regions) && |regions| == 1 && CompileSpec(t, ctx, compiles).Ok?
    requires '{' in FormatLangOf(SplitAll(Insides(t, regions))[0])
    ensures var f, outside := CompileSpec(t, ctx, compiles).value, Outsides(t, regions);
      && Coherent(f) && |f.templateFstrs| == 1
      && var nested := Rendered(f.templateFstrs[0], callTime, eval, apply);
         FormatString(f, callTime, eval, apply)
         == if nested.Err? then Err(nested.error) else Ok(outside[0] + outside[1] + "{" + nested.value + "}")
  {
    DynamicFieldRegrouped(t, ctx, compiles, regions);
    CompiledCoherent(t, ctx, compiles);
    var outside := Outsides(t, regions);
    OnePartFormatString(CompileSpec(t, ctx, compiles).value, callTime, eval, apply, outside[0] + outside[1]);
  }

  lemma OnePartFormatString<V, W>(
    f: Fstr<V>, callTime: map<string, V>,
    eval: (Code, map<string, V>) -> Option<W>, apply: (string, seq<W>) -> Option<string>, part: string)
    requires Coherent(f) && |f.templateFstrs| == 1 && f.templateParts == [part]
    ensures var nested := Rendered(f.templateFstrs[0], callTime, eval, apply);
      FormatString(f, callTime, eval, apply)
      == if nested.Err? then Err(nested.error) else Ok(part + "{" + nested.value + "}")
  {
    OnePairFormatString(f, callTime, eval, apply);
    var nested := Rendered(f.templateFstrs[0], callTime, eval, apply);
    assert f.templateParts[1..] == [];
    if nested.Ok? {
      var field := part + "{" + nested.value + "}";
      assert field + Concat([]) == field;
    }
  }

  /**
   * Two regions with static format languages, then one with a nested
   * format language: the nested field lands between the first two
   * placeholders' successors, so the second expression's value is
   * formatted with the nested spec and the third's with the second spec.
   */
  lemma NestedFieldSwapsSpecs<V, W>(
    t: string, ctx: map<string, V>, compiles: string -> bool, regions: seq<Region>, callTime: map<string, V>,
    eval: (Code, map<string, V>) -> Option<W>, apply: (string, seq<W>) -> Option<string>)
    requires Scan(t) == Ok(regions) && |regions| == 3 && CompileSpec(t, ctx, compiles).Ok?
    requires var splits := SplitAll(Insides(t, regions));
      '{' !in FormatLangOf(splits[0]) && '{' !in FormatLangOf(splits[1]) && '{' in FormatLangOf(splits[2])
    ensures var f, outside, splits := CompileSpec(t, ctx, compiles).value, Outsides(t, regions), SplitAll(Insides(t, regions));
      && Coherent(f) && |f.templateFstrs| == 1
      && var nested := Rendered(f.templateFstrs[0], callTime, eval, apply);
         FormatString(f, callTime, eval, apply)
         == if nested.Err? then Err(nested.error)
            else Ok(outside[0] + ("{" + FormatLangOf(splits[0]) + "}" + outside[1])
                    + "{" + nested.value + "}"
                    + ("{" + FormatLangOf(splits[1]) + "}" + outside[2] + outside[3]))
  {
    NestedAfterTwoStatic(t, ctx, compiles, regions);
    CompiledCoherent(t, ctx, compiles);
    var outside, splits := Outsides(t, regions), SplitAll(Insides(t, regions));
    TwoPartsFormatString(
      CompileSpec(t, ctx, compiles).value, callTime, eval, apply,
      outside[0] + ("{" + FormatLangOf(splits[0]) + "}" + outside[1]),
      "{" + FormatLangOf(splits[1]) + "}" + outside[2] + outside[3]);
  }

  lemma TwoPartsFormatString<V, W>(
    f: Fstr<V>, callTime: map<string, V>,
    eval: (Code, map<string, V>) -> Option<W>, apply: (string, seq<W>) -> Option<string>, first: string, second: string)
    requires Coherent(f) && |f.templateFstrs| == 1 && f.templateParts == [first, second]
    ensures var nested := Rendered(f.templateFstrs[0], callTime, eval, apply);
      FormatString(f, callTime, eval, apply)
      == if nested.Err? then Err(nested.error) else Ok(first + "{" + nested.value + "}" + second)
  {
    OnePairFormatString(f, callTime, eval, apply);
    assert f.templateParts[1..] == [second];
    ConcatSingle(second);
  }

  /** Every region among the first `n` has a nested format language. */
  lemma {:induction false} AllDynamic(splits: seq<Result<(string, string)>>, n: nat)
    requires n <= |splits|
    requires forall k :: 0 <= k < n ==> '{' in FormatLangOf(splits[k])
    ensures |Dynamic(splits, n)| == n
  {
    if n > 0 {
      AllDynamic(splits, n - 1);
    }
  }

  /**
   * Three or more regions, all with nested format languages: there are more
   * nested fstrs than template parts, so the last ones are never rendered.
   */
  lemma NestedFieldsDropped<V, W>(
    t: string, ctx: map<string, V>, compiles: string -> bool, regions: seq<Region>, callTime: map<string, V>,
    eval: (Code, map<string, V>) -> Option<W>, apply: (string, seq<W>) -> Option<string>)
    requires Scan(t) == Ok(regions) && |regions| >= 3 && CompileSpec(t, ctx, compiles).Ok?
    requires forall k :: 0 <= k < |regions| ==> '{' in FormatLangOf(SplitAll(Insides(t, regions))[k])
    ensures var f := CompileSpec(t, ctx, compiles).value;
      && Coherent(f)
      && |f.templateParts| < |f.templateFstrs| == |regions|
      && var g := f.(templateFstrs := f.templateFstrs[..|f.templateParts|]);
         Coherent(g) && Rendered(f, callTime, eval, apply) == Rendered(g, callTime, eval, apply)
  {
    CompiledTemplate(t, ctx, compiles, regions);
    CompiledNested(t, ctx, compiles, regions);
    CompiledCoherent(t, ctx, compiles);
    AllDynamic(SplitAll(Insides(t, regions)), |regions|);
    ExtraNestedNeverRendered(CompileSpec(t, ctx, compiles).value, callTime, eval, apply);
  }

  /**
   * `format` raises the error of the first nested fstr that raises;
   * otherwise it succeeds exactly when every expression evaluates in the
   * merged context and `str.format` accepts the template, and reports the
   * first expression that does not evaluate, or the rejected template.
   */
  lemma RenderedOutcome<V, W>(
    f: Fstr<V>, callTime: map<string, V>,
    eval: (Code, map<string, V>) -> Option<W>, apply: (string, seq<W>) -> Option<string>)
    requires Coherent(f)
    ensures var r, env, template := Rendered(f, callTime, eval, apply), Merge(f.context, callTime), FormatString(f, callTime, eval, apply);
      && (template.Err? ==> r == Err(template.error))
      && (template.Ok? && (forall i :: 0 <= i < |f.code| ==> eval(f.code[i], env).Some?) ==>
            var values := seq(|f.code|, i requires 0 <= i < |f.code| => eval(f.code[i], env).value);
            r == if apply(template.value, values).Some?
                 then Ok(apply(template.value, values).value)
                 else Err(FormatRejected))
      && (template.Ok? ==> forall i :: FirstFailure(f.code, env, eval, i) ==> r == Err(CouldNotEvaluate(f.expressions[i])))
  {
    var env := Merge(f.context, callTime);
    var e := Evaluated(f.code, f.expressions, env, eval, |f.code|);
    if e.Ok? {
      var values := seq(|f.code|, i requires 0 <= i < |f.code| => eval(f.code[i], env).value);
      assert e.value == values;
    } else {
      forall i | FirstFailure(f.code, env, eval, i)
        ensures e.error == CouldNotEvaluate(f.expressions[i])
      {
        var j :| FirstFailure(f.code, env, eval, j) && j < |f.code| && e.error == CouldNotEvaluate(f.expressions[j]);
        assert i == j;
      }
    }
  }
}
