/**
 * The template compiler: the legacy `fstr.__init__` (fstr/fstr.py:78-119).
 *
 * `__init__` scans the template for regions, cuts it into the text outside
 * the regions and the text inside them, splits each region into an
 * expression and a format language, and assembles the string that `format`
 * later hands to `str.format`: a static format language becomes a `{spec}`
 * placeholder, a format language that contains `{` becomes a nested `fstr`
 * built with the same context.  Blank expressions are rejected.
 *
 * An `fstr` never changes after `__init__`, so an instance is the value
 * `Fstr`; `Compile` is `__init__`'s loops, returning the instance or the
 * error it raises, and `CompileSpec` (with `AssembleFrom` and `AddRegion`) is
 * the same computation as functions.
 */
module Template {
  import opened Text
  import opened Scanner
  import opened Splitter

  /**
   * What `compile(e, "<fstr>", "eval")` returns for an expression the host's
   * compiler accepts; which expressions it accepts is the parameter
   * `compiles` of the compiling functions, and what the code object holds
   * beyond its source is not modelled.
   */
  datatype Code = Compiled(source: string)

  /**
   * An instance: its text (`str(self)`), its context and the private fields
   * `__template_parts`, `__template_fstrs`, `__expressions` and `__code`.
   */
  datatype Fstr<V> = Fstr(
    template: string,
    context: map<string, V>,
    templateParts: seq<string>,
    templateFstrs: seq<Fstr<V>>,
    expressions: seq<string>,
    code: seq<Code>)

  /** The lists `__init__`'s second loop builds, and its error-offset counter `index`. */
  datatype Assembly<V> = Assembly(
    parts: seq<string>,
    fstrs: seq<Fstr<V>>,
    expressions: seq<string>,
    index: int)

  // ---------------------------------------------------------------------------
  // Lines 81-88: cutting the template into outside and inside runs.

  /** Where the `k`-th outside run starts: `last` in the source. */
  function OuterStart(regions: seq<Region>, k: nat): nat
    requires k <= |regions|
  {
    if k == 0 then 0 else regions[k - 1].1 + 1
  }

  /** Where the `k`-th outside run ends: just before the next region's `{`, or at the end. */
  function OuterEnd(t: string, regions: seq<Region>, k: nat): nat
    requires k <= |regions| && WellFormed(t, regions)
  {
    if k < |regions| then regions[k].0 - 1 else |t|
  }

  lemma OuterBounds(t: string, regions: seq<Region>, k: nat)
    requires k <= |regions| && WellFormed(t, regions)
    ensures OuterStart(regions, k) <= OuterEnd(t, regions, k) <= |t|
  {
    if 0 < k < |regions| {
      assert regions[k - 1].1 + 2 <= regions[k].0;
    }
  }

  /** `self[last : start - 1]`, or `self[last:]` for the last one. */
  function Outside(t: string, regions: seq<Region>, k: nat): (r: string)
    requires k <= |regions| && WellFormed(t, regions)
    ensures |r| == OuterEnd(t, regions, k) - OuterStart(regions, k)
  {
    OuterBounds(t, regions, k);
    t[OuterStart(regions, k)..OuterEnd(t, regions, k)]
  }

  /** `self[start:stop]`. */
  function Inside(t: string, regions: seq<Region>, k: nat): (r: string)
    requires k < |regions| && WellFormed(t, regions)
    ensures |r| == regions[k].1 - regions[k].0 < |t|
  {
    t[regions[k].0..regions[k].1]
  }

  function Outsides(t: string, regions: seq<Region>): (r: seq<string>)
    requires WellFormed(t, regions)
    ensures |r| == |regions| + 1
  {
    seq(|regions| + 1, k requires 0 <= k <= |regions| => Outside(t, regions, k))
  }

  function Insides(t: string, regions: seq<Region>): (r: seq<string>)
    requires WellFormed(t, regions)
    ensures |r| == |regions|
    ensures forall k :: 0 <= k < |regions| ==> |r[k]| < |t|
  {
    seq(|regions|, k requires 0 <= k < |regions| => Inside(t, regions, k))
  }

  /** `outside[0] + "{" + fields[0] + "}" + outside[1] + ...`, over the first `n` fields. */
  function Interleave(outside: seq<string>, fields: seq<string>, n: nat): string
    requires n <= |fields| && n < |outside|
  {
    if n == 0 then outside[0]
    else Interleave(outside, fields, n - 1) + ("{" + fields[n - 1] + "}" + outside[n])
  }

  /** Cutting loses nothing: putting the braces back around the inside runs gives the template. */
  lemma {:induction false} RunsReassemble(t: string, regions: seq<Region>)
    requires WellFormed(t, regions)
    ensures |Outsides(t, regions)| == |Insides(t, regions)| + 1
    ensures Interleave(Outsides(t, regions), Insides(t, regions), |regions|) == t
  {
    ReassemblePrefix(t, regions, |regions|);
    InterleaveRebuilds(t, regions, |regions|);
    assert t[..|t|] == t;
  }

  /** The template up to the end of the `n`-th outside run, rebuilt from the runs. */
  function Rebuilt(t: string, regions: seq<Region>, n: nat): string
    requires WellFormed(t, regions) && n <= |regions|
  {
    if n == 0 then Outside(t, regions, 0)
    else Rebuilt(t, regions, n - 1) + ("{" + Inside(t, regions, n - 1) + "}" + Outside(t, regions, n))
  }

  lemma {:induction false} ReassemblePrefix(t: string, regions: seq<Region>, n: nat)
    requires WellFormed(t, regions) && n <= |regions|
    ensures OuterEnd(t, regions, n) <= |t|
    ensures Rebuilt(t, regions, n) == t[..OuterEnd(t, regions, n)]
  {
    OuterBounds(t, regions, n);
    if n > 0 {
      ReassemblePrefix(t, regions, n - 1);
      var start, stop, end := regions[n - 1].0, regions[n - 1].1, OuterEnd(t, regions, n);
      assert OuterEnd(t, regions, n - 1) == start - 1;
      assert OuterStart(regions, n) == stop + 1;
      BracedSlice(t, start, stop, end);
      assert Inside(t, regions, n - 1) == t[start..stop];
      assert Outside(t, regions, n) == t[stop + 1..end];
    }
  }

  lemma {:induction false} InterleaveRebuilds(t: string, regions: seq<Region>, n: nat)
    requires WellFormed(t, regions) && n <= |regions|
    ensures Interleave(Outsides(t, regions), Insides(t, regions), n) == Rebuilt(t, regions, n)
  {
    if n > 0 {
      InterleaveRebuilds(t, regions, n - 1);
      assert Outsides(t, regions)[n] == Outside(t, regions, n);
      assert Insides(t, regions)[n - 1] == Inside(t, regions, n - 1);
    }
  }

  /** A prefix ending after a braced slice is the text before, the braces and what is between. */
  lemma BracedSlice(t: string, start: nat, stop: nat, e: nat)
    requires 1 <= start <= stop < e <= |t| || (1 <= start <= stop && stop + 1 == e <= |t|)
    requires t[start - 1] == '{' && t[stop] == '}'
    ensures t[..e] == t[..start - 1] + ("{" + t[start..stop] + "}" + t[stop + 1..e])
  {
    assert t[..start] == t[..start - 1] + "{";
    assert t[..stop] == t[..start] + t[start..stop];
    assert t[..stop + 1] == t[..stop] + "}";
    assert t[..e] == t[..stop + 1] + t[stop + 1..e];
  }

  /** The cutting loop of lines 81-88. */
  method CutRuns(t: string, regions: seq<Region>) returns (outside: seq<string>, inside: seq<string>)
    requires WellFormed(t, regions)
    ensures outside == Outsides(t, regions) && inside == Insides(t, regions)
  {
    inside := [];
    outside := [];
    var last := 0;
    for k := 0 to |regions|
      invariant |outside| == k && |inside| == k
      invariant last == OuterStart(regions, k)
      invariant forall m :: 0 <= m < k ==> outside[m] == Outside(t, regions, m) && inside[m] == Inside(t, regions, m)
    {
      var (start, stop) := regions[k];
      OuterBounds(t, regions, k);
      outside := outside + [t[last..start - 1]];
      inside := inside + [t[start..stop]];
      last := stop + 1;
    }
    OuterBounds(t, regions, |regions|);
    outside := outside + [t[last..]];
    assert outside[|regions|] == Outside(t, regions, |regions|);
    assert outside == Outsides(t, regions);
    assert inside == Insides(t, regions);
  }

  // ---------------------------------------------------------------------------
  // Lines 90-119: splitting each region and assembling the parts.

  /** `split_format_language` applied to each region's inside, in order. */
  function SplitAll(inside: seq<string>): (r: seq<Result<(string, string)>>)
    ensures |r| == |inside|
    ensures forall k :: 0 <= k < |r| && r[k].Ok? ==> |r[k].value.0| + |r[k].value.1| <= |inside[k]|
  {
    if inside == [] then [] else SplitAll(inside[..|inside| - 1]) + [Split(inside[|inside| - 1])]
  }

  lemma {:induction false} SplitAllAt(inside: seq<string>, k: nat)
    requires k < |inside|
    ensures SplitAll(inside)[k] == Split(inside[k])
  {
    if k < |inside| - 1 {
      SplitAllAt(inside[..|inside| - 1], k);
    }
  }

  /** The expression half of a split (empty when the split failed). */
  function ExpressionOf(split: Result<(string, string)>): string {
    if split.Ok? then split.value.0 else ""
  }

  /** The format-language half of a split (empty when the split failed). */
  function FormatLangOf(split: Result<(string, string)>): string {
    if split.Ok? then split.value.1 else ""
  }

  /** Line 108: the stored form of an expression. */
  function Cleaned(expr: string): (r: string)
    ensures '\n' !in r && |r| <= |expr|
  {
    RemoveNewlines(Strip(Strip(expr)))
  }

  /** Lines 111-114: the list comprehension joining the parts two by two. */
  function Regroup(parts: seq<string>): (r: seq<string>)
    ensures |r| == (|parts| + 1) / 2
  {
    if |parts| <= 1 then parts else [Pair(parts, 0)] + Regroup(parts[2..])
  }

  /** `"".join(parts[i:i + 2])`: the part at `i` and the next one, if any. */
  function Pair(parts: seq<string>, i: nat): string
    requires i < |parts|
  {
    if i + 1 < |parts| then parts[i] + parts[i + 1] else parts[i]
  }

  /** The `i`-th group is the parts at `2 * i` and `2 * i + 1`, joined. */
  lemma {:induction false} RegroupAt(parts: seq<string>, i: nat)
    requires i < (|parts| + 1) / 2
    ensures Regroup(parts)[i] == Pair(parts, 2 * i)
  {
    if i > 0 {
      RegroupAt(parts[2..], i - 1);
      assert Pair(parts, 2 * i) == Pair(parts[2..], 2 * (i - 1));
    }
  }

  /** Regrouping keeps the text: the joined groups are the joined parts. */
  lemma {:induction false} RegroupKeepsText(parts: seq<string>)
    ensures |Regroup(parts)| == (|parts| + 1) / 2
    ensures Concat(Regroup(parts)) == Concat(parts)
    decreases |parts|
  {
    if |parts| > 1 {
      RegroupKeepsText(parts[2..]);
      var head, rest := Pair(parts, 0), Regroup(parts[2..]);
      ConcatAppend([head], rest);
      ConcatAppend(parts[..2], parts[2..]);
      assert parts[..2] + parts[2..] == parts;
      ConcatSingle(head);
      ConcatSingle(parts[0]);
      assert parts[..2][..1] == [parts[0]];
    }
  }

  /**
   * Line 119, `[compile(e, "<fstr>", "eval") for e in expressions]`: one code
   * object per expression, in order, when the compiler accepts them all;
   * otherwise `compile` raises on the first expression it rejects.
   */
  function Codes(expressions: seq<string>, compiles: string -> bool): (r: Result<seq<Code>>)
    ensures r.Ok? <==> forall k :: 0 <= k < |expressions| ==> compiles(expressions[k])
    ensures r.Ok? ==> |r.value| == |expressions| && forall k :: 0 <= k < |expressions| ==> r.value[k] == Compiled(expressions[k])
    ensures r.Err? ==> exists k :: FirstRejected(expressions, compiles, k) && r.error == InvalidSyntax(expressions[k])
  {
    if expressions == [] then Ok([])
    else if !compiles(expressions[0]) then Err(InvalidSyntax(expressions[0]))
    else
      match Codes(expressions[1..], compiles)
      case Err(e) =>
        assert forall k :: FirstRejected(expressions[1..], compiles, k) ==> FirstRejected(expressions, compiles, k + 1);
        Err(e)
      case Ok(code) => Ok([Compiled(expressions[0])] + code)
  }

  /** `expressions[k]` is the first expression the compiler rejects. */
  predicate FirstRejected(expressions: seq<string>, compiles: string -> bool, k: int) {
    0 <= k < |expressions| && !compiles(expressions[k]) && forall m :: 0 <= m < k ==> compiles(expressions[m])
  }

  /** `fstr(t, **ctx)` on the pre-3.6 path: the instance, or the error `__init__` raises. */
  function CompileSpec<V>(t: string, ctx: map<string, V>, compiles: string -> bool): (r: Result<Fstr<V>>)
    ensures r.Ok? ==> r.value.template == t && r.value.context == ctx
    decreases |t|, 1, 0
  {
    match Scan(t)
    case Err(e) => Err(e)
    case Ok(regions) =>
      var outside := Outsides(t, regions);
      var inside := Insides(t, regions);
      match AssembleFrom(|t|, outside, inside, SplitAll(inside), ctx, compiles, Start(outside), 0)
      case Err(e) => Err(e)
      case Ok(a) =>
        match Codes(a.expressions, compiles)
        case Err(e) => Err(e)
        case Ok(code) => Ok(Fstr(t, ctx, Regroup(a.parts), a.fstrs, a.expressions, code))
  }

  /** What `AssembleFrom` needs of its arguments: one split per region, no longer than the region. */
  predicate Fits(bound: nat, outside: seq<string>, inside: seq<string>, splits: seq<Result<(string, string)>>) {
    && |outside| == |inside| + 1 && |splits| == |inside|
    && (forall k :: 0 <= k < |inside| ==> |inside[k]| < bound)
    && (forall k :: 0 <= k < |splits| && splits[k].Ok? ==> |splits[k].value.1| <= |inside[k]|)
  }

  /** The lists before the first region: `[outside[0]]`, nothing else, and `index = len(outside[0])`. */
  function Start<V>(outside: seq<string>): Assembly<V>
    requires |outside| > 0
  {
    Assembly([outside[0]], [], [], |outside[0]|)
  }

  /** The second loop of `__init__` from region `k` on, given the lists so far and every region's split. */
  function AssembleFrom<V>(
    bound: nat, outside: seq<string>, inside: seq<string>, splits: seq<Result<(string, string)>>,
    ctx: map<string, V>, compiles: string -> bool, a: Assembly<V>, k: nat)
    : Result<Assembly<V>>
    requires Fits(bound, outside, inside, splits) && k <= |inside|
    decreases bound, 0, |inside| - k + 2
  {
    if k == |inside| then Ok(a)
    else
      match AddRegion(bound, a, splits[k], inside[k], outside[k + 1], ctx, compiles)
      case Err(e) => Err(e)
      case Ok(b) => AssembleFrom(bound, outside, inside, splits, ctx, compiles, b, k + 1)
  }

  /** One iteration of that loop (lines 96-109), given the region's split. */
  function AddRegion<V>(
    bound: nat, a: Assembly<V>, split: Result<(string, string)>, inner: string, outer: string,
    ctx: map<string, V>, compiles: string -> bool)
    : Result<Assembly<V>>
    requires split.Ok? ==> |split.value.1| < bound
    decreases bound, 0, 1
  {
    match split
    case Err(e) => Err(e)
    case Ok(halves) =>
      match AddField(bound, a, halves.1, outer, ctx, compiles)
      case Err(e) => Err(e)
      case Ok(pf) =>
        var e := Strip(halves.0);
        if e == [] then Err(EmptyExpression(a.index + 1))
        else Ok(Assembly(pf.0, pf.1, a.expressions + [RemoveNewlines(Strip(e))], a.index + |inner| + |outer|))
  }

  /**
   * Lines 98-103: a format language containing `{` becomes a nested `fstr`
   * and the part gets only the outside run; any other becomes a `{spec}`
   * placeholder in front of it.
   */
  function AddField<V>(bound: nat, a: Assembly<V>, formatLang: string, outer: string, ctx: map<string, V>, compiles: string -> bool)
    : Result<(seq<string>, seq<Fstr<V>>)>
    requires |formatLang| < bound
    decreases bound, 0, 0
  {
    if '{' in formatLang then
      match CompileSpec(formatLang, ctx, compiles)
      case Err(e) => Err(e)
      case Ok(nested) => Ok((a.parts + [outer], a.fstrs + [nested]))
    else Ok((a.parts + ["{" + formatLang + "}" + outer], a.fstrs))
  }

  /** A region whose nested format language fails fails with the same error. */
  lemma FieldFailureFails<V>(
    bound: nat, a: Assembly<V>, split: Result<(string, string)>, inner: string, outer: string, ctx: map<string, V>, compiles: string -> bool)
    requires split.Ok? && |split.value.1| < bound
    requires AddField(bound, a, split.value.1, outer, ctx, compiles).Err?
    ensures AddRegion(bound, a, split, inner, outer, ctx, compiles) == Err(AddField(bound, a, split.value.1, outer, ctx, compiles).error)
  {
  }

  /** A region whose expression strips to nothing fails with the running offset. */
  lemma BlankExpressionFails<V>(
    bound: nat, a: Assembly<V>, split: Result<(string, string)>, inner: string, outer: string, ctx: map<string, V>, compiles: string -> bool)
    requires split.Ok? && |split.value.1| < bound
    requires AddField(bound, a, split.value.1, outer, ctx, compiles).Ok?
    requires Strip(split.value.0) == []
    ensures AddRegion(bound, a, split, inner, outer, ctx, compiles) == Err(EmptyExpression(a.index + 1))
  {
  }

  /** A region with a non-blank expression records it and advances the offset. */
  lemma FilledExpressionAdds<V>(
    bound: nat, a: Assembly<V>, split: Result<(string, string)>, inner: string, outer: string, ctx: map<string, V>, compiles: string -> bool)
    requires split.Ok? && |split.value.1| < bound
    requires AddField(bound, a, split.value.1, outer, ctx, compiles).Ok?
    requires Strip(split.value.0) != []
    ensures AddRegion(bound, a, split, inner, outer, ctx, compiles).Ok?
    ensures AddRegion(bound, a, split, inner, outer, ctx, compiles).value.parts == AddField(bound, a, split.value.1, outer, ctx, compiles).value.0
    ensures AddRegion(bound, a, split, inner, outer, ctx, compiles).value.fstrs == AddField(bound, a, split.value.1, outer, ctx, compiles).value.1
    ensures AddRegion(bound, a, split, inner, outer, ctx, compiles).value.expressions == a.expressions + [Cleaned(split.value.0)]
    ensures AddRegion(bound, a, split, inner, outer, ctx, compiles).value.index == a.index + |inner| + |outer|
  {
  }

  /**
   * `fstr.__init__` (lines 78-119) on the pre-3.6 path: the scan, the cutting
   * loop, the assembling loop (which builds a nested `fstr` for a format
   * language containing `{`), the regrouping and the compiled code.
   */
  method Compile<V>(t: string, ctx: map<string, V>, compiles: string -> bool) returns (r: Result<Fstr<V>>)
    ensures r == CompileSpec(t, ctx, compiles)
    decreases |t|, 2
  {
    var scanned := ExprStartsAndStops(t);
    if scanned.Err? {
      return Err(scanned.error);
    }
    var regions := scanned.value;
    var outside, inside := CutRuns(t, regions);
    ghost var splits := SplitAll(inside);

    var acc: Assembly<V> := Assembly([outside[0]], [], [], |outside[0]|);
    for k := 0 to |inside|
      invariant AssembleFrom(|t|, outside, inside, splits, ctx, compiles, acc, k)
             == AssembleFrom(|t|, outside, inside, splits, ctx, compiles, Start(outside), 0)
    {
      var split := SplitFormatLanguage(inside[k]);
      SplitAllAt(inside, k);
      var next := CompileRegion(|t|, acc, split, inside[k], outside[k + 1], ctx, compiles);
      if next.Err? {
        return Err(next.error);
      }
      acc := next.value;
    }
    var templateParts := Regroup(acc.parts);
    var code := Codes(acc.expressions, compiles);
    if code.Err? {
      return Err(code.error);
    }
    return Ok(Fstr(t, ctx, templateParts, acc.fstrs, acc.expressions, code.value));
  }

  /** One iteration of the assembling loop after the split (lines 97-109). */
  method CompileRegion<V>(
    bound: nat, a: Assembly<V>, split: Result<(string, string)>, inner: string, outer: string, ctx: map<string, V>, compiles: string -> bool)
    returns (r: Result<Assembly<V>>)
    requires split.Ok? ==> |split.value.1| < bound
    ensures r == AddRegion(bound, a, split, inner, outer, ctx, compiles)
    decreases bound, 1
  {
    if split.Err? {
      return Err(split.error);
    }
    var (expr, formatLang) := split.value;
    var field := CompileField(bound, a, formatLang, outer, ctx, compiles);
    if field.Err? {
      FieldFailureFails(bound, a, split, inner, outer, ctx, compiles);
      return Err(field.error);
    }
    var (templateParts, templateFstrs) := field.value;
    expr := Strip(expr);
    if expr == [] {
      BlankExpressionFails(bound, a, split, inner, outer, ctx, compiles);
      return Err(EmptyExpression(a.index + 1));
    }
    var expressions := a.expressions + [RemoveNewlines(Strip(expr))];
    FilledExpressionAdds(bound, a, split, inner, outer, ctx, compiles);
    return Ok(Assembly(templateParts, templateFstrs, expressions, a.index + |inner| + |outer|));
  }

  /** Lines 98-103: a nested `fstr` for a format language containing `{`, else a placeholder. */
  method CompileField<V>(bound: nat, a: Assembly<V>, formatLang: string, outer: string, ctx: map<string, V>, compiles: string -> bool)
    returns (r: Result<(seq<string>, seq<Fstr<V>>)>)
    requires |formatLang| < bound
    ensures r == AddField(bound, a, formatLang, outer, ctx, compiles)
    decreases bound, 0
  {
    if '{' in formatLang {
      var nested := Compile(formatLang, ctx, compiles);
      if nested.Err? {
        return Err(nested.error);
      }
      return Ok((a.parts + [outer], a.fstrs + [nested.value]));
    }
    return Ok((a.parts + ["{" + formatLang + "}" + outer], a.fstrs));
  }

  // ---------------------------------------------------------------------------
  // What an instance holds.

  /** The placeholder a region leaves in the format template: none for a nested format language. */
  function Placeholder(formatLang: string): string {
    if '{' in formatLang then "" else "{" + formatLang + "}"
  }

  /** The format template text over the first `n` regions, before regrouping. */
  function Skeleton(outside: seq<string>, splits: seq<Result<(string, string)>>, n: nat): string
    requires n <= |splits| && n < |outside|
  {
    if n == 0 then outside[0]
    else Skeleton(outside, splits, n - 1) + (Placeholder(FormatLangOf(splits[n - 1])) + outside[n])
  }

  /** The format languages among the first `n` regions that contain `{`, in order. */
  function Dynamic(splits: seq<Result<(string, string)>>, n: nat): seq<string>
    requires n <= |splits|
  {
    if n == 0 then []
    else
      var formatLang := FormatLangOf(splits[n - 1]);
      Dynamic(splits, n - 1) + (if '{' in formatLang then [formatLang] else [])
  }

  /** The format languages of the first `n` regions. */
  function Specs(splits: seq<Result<(string, string)>>, n: nat): (r: seq<string>)
    requires n <= |splits|
    ensures |r| == n
  {
    if n == 0 then [] else Specs(splits, n - 1) + [FormatLangOf(splits[n - 1])]
  }

  /** The error offset `index` before region `n`: the template length up to it, less two braces per region. */
  function Offset(outside: seq<string>, inside: seq<string>, n: nat): int
    requires n <= |inside| && n < |outside|
  {
    if n == 0 then |outside[0]| else Offset(outside, inside, n - 1) + |inside[n - 1]| + |outside[n]|
  }

  lemma OffsetNext(outside: seq<string>, inside: seq<string>, k: nat)
    requires k < |inside| && k + 1 < |outside|
    ensures Offset(outside, inside, k + 1) == Offset(outside, inside, k) + |inside[k]| + |outside[k + 1]|
  {
  }

  /** The lists of the assembling loop before region `n`, as the loop promises them. */
  ghost predicate Assembled<V>(
    outside: seq<string>, inside: seq<string>, splits: seq<Result<(string, string)>>,
    ctx: map<string, V>, n: nat, a: Assembly<V>)
    requires |outside| == |inside| + 1 && |splits| == |inside| && n <= |inside|
  {
    && PartsAssembled(outside, splits, n, a.parts)
    && ExpressionsAssembled(splits, n, a.expressions)
    && FstrsAssembled(splits, ctx, n, a.fstrs)
    && a.index == Offset(outside, inside, n)
  }

  /** `template_parts` before the regrouping: the parts of the first `n` regions. */
  ghost predicate PartsAssembled(outside: seq<string>, splits: seq<Result<(string, string)>>, n: nat, parts: seq<string>)
    requires n <= |splits| && n < |outside|
  {
    parts == PartsOf(outside, splits, n)
  }

  /** `outside[0]`, then each of the first `n` regions' placeholder followed by its outside run. */
  function PartsOf(outside: seq<string>, splits: seq<Result<(string, string)>>, n: nat): (r: seq<string>)
    requires n <= |splits| && n < |outside|
    ensures |r| == n + 1 && r[0] == outside[0]
  {
    if n == 0 then [outside[0]]
    else PartsOf(outside, splits, n - 1) + [Placeholder(FormatLangOf(splits[n - 1])) + outside[n]]
  }

  /** The parts join to the skeleton. */
  lemma {:induction false} PartsJoinToSkeleton(outside: seq<string>, splits: seq<Result<(string, string)>>, n: nat)
    requires n <= |splits| && n < |outside|
    ensures Concat(PartsOf(outside, splits, n)) == Skeleton(outside, splits, n)
  {
    if n == 0 {
      ConcatSingle(outside[0]);
    } else {
      var previous, last := PartsOf(outside, splits, n - 1), Placeholder(FormatLangOf(splits[n - 1])) + outside[n];
      PartsJoinToSkeleton(outside, splits, n - 1);
      var sk := Skeleton(outside, splits, n - 1);
      assert Concat(previous) == sk;
      assert Skeleton(outside, splits, n) == sk + last;
      assert PartsOf(outside, splits, n) == previous + [last];
      ConcatAppend(previous, [last]);
      ConcatSingle(last);
      assert Concat(previous + [last]) == sk + last;
    }
  }

  /** The cleaned expressions of the first `n` regions. */
  function Stored(splits: seq<Result<(string, string)>>, n: nat): (r: seq<string>)
    requires n <= |splits|
    ensures |r| == n
  {
    if n == 0 then [] else Stored(splits, n - 1) + [Cleaned(ExpressionOf(splits[n - 1]))]
  }

  lemma {:induction false} StoredAt(splits: seq<Result<(string, string)>>, n: nat, k: nat)
    requires k < n <= |splits|
    ensures Stored(splits, n)[k] == Cleaned(ExpressionOf(splits[k]))
  {
    if k < n - 1 {
      StoredAt(splits, n - 1, k);
      StoredKeepsPrefix(splits, n, k);
    }
  }

  /** Storing one more expression leaves the earlier ones in place. */
  lemma StoredKeepsPrefix(splits: seq<Result<(string, string)>>, n: nat, k: nat)
    requires k < n - 1 && n <= |splits|
    ensures Stored(splits, n)[k] == Stored(splits, n - 1)[k]
  {
  }

  /** `expressions`: each region's cleaned expression, never empty. */
  ghost predicate ExpressionsAssembled(splits: seq<Result<(string, string)>>, n: nat, expressions: seq<string>)
    requires n <= |splits|
  {
    && expressions == Stored(splits, n)
    && (forall k :: 0 <= k < n ==> splits[k].Ok? && expressions[k] != [])
  }

  /** `template_fstrs`: one `fstr` per nested format language, on that format language and the same context. */
  ghost predicate FstrsAssembled<V>(splits: seq<Result<(string, string)>>, ctx: map<string, V>, n: nat, fstrs: seq<Fstr<V>>)
    requires n <= |splits|
  {
    && |fstrs| == |Dynamic(splits, n)|
    && (forall j :: 0 <= j < |fstrs| ==> fstrs[j].template == Dynamic(splits, n)[j] && fstrs[j].context == ctx)
  }

  /** An expression that does not strip to nothing stays non-empty once cleaned. */
  lemma CleanedNonEmpty(expr: string)
    requires Strip(expr) != []
    ensures Cleaned(expr) != []
  {
    var once := Strip(expr);
    StripBlank(once);
    var twice := Strip(once);
    assert twice[0] != '\n' && twice[0] in twice;
    RemoveNewlinesKeeps(twice, twice[0]);
  }

  /** A region that assembles had a successful split, field and non-blank expression. */
  lemma AddRegionOk<V>(
    bound: nat, a: Assembly<V>, split: Result<(string, string)>, inner: string, outer: string, ctx: map<string, V>, compiles: string -> bool)
    requires (split.Ok? ==> |split.value.1| < bound) && AddRegion(bound, a, split, inner, outer, ctx, compiles).Ok?
    ensures split.Ok? && AddField(bound, a, split.value.1, outer, ctx, compiles).Ok? && Strip(split.value.0) != []
  {
    if split.Ok? && AddField(bound, a, split.value.1, outer, ctx, compiles).Ok? && Strip(split.value.0) == [] {
      BlankExpressionFails(bound, a, split, inner, outer, ctx, compiles);
    }
  }

  /** What a successful field adds: its placeholder and outside run, and the nested `fstr` if any. */
  lemma AddFieldValue<V>(bound: nat, a: Assembly<V>, formatLang: string, outer: string, ctx: map<string, V>, compiles: string -> bool)
    requires |formatLang| < bound && AddField(bound, a, formatLang, outer, ctx, compiles).Ok?
    ensures AddField(bound, a, formatLang, outer, ctx, compiles).value.0 == a.parts + [Placeholder(formatLang) + outer]
    ensures AddField(bound, a, formatLang, outer, ctx, compiles).value.1
         == a.fstrs + (if '{' in formatLang then [CompileSpec(formatLang, ctx, compiles).value] else [])
  {
    if '{' in formatLang {
      assert Placeholder(formatLang) + outer == outer;
    }
  }

  /** What a region that assembles adds to the lists. */
  lemma AddRegionValue<V>(
    bound: nat, a: Assembly<V>, split: Result<(string, string)>, inner: string, outer: string, ctx: map<string, V>, compiles: string -> bool)
    requires (split.Ok? ==> |split.value.1| < bound) && AddRegion(bound, a, split, inner, outer, ctx, compiles).Ok?
    ensures split.Ok? && Strip(split.value.0) != []
    ensures var b, formatLang := AddRegion(bound, a, split, inner, outer, ctx, compiles).value, split.value.1;
      && ('{' in formatLang ==> CompileSpec(formatLang, ctx, compiles).Ok?)
      && b.parts == a.parts + [Placeholder(formatLang) + outer]
      && b.fstrs == a.fstrs + (if '{' in formatLang then [CompileSpec(formatLang, ctx, compiles).value] else [])
      && b.expressions == a.expressions + [Cleaned(split.value.0)]
      && b.index == a.index + |inner| + |outer|
  {
    AddRegionOk(bound, a, split, inner, outer, ctx, compiles);
    FilledExpressionAdds(bound, a, split, inner, outer, ctx, compiles);
    AddFieldValue(bound, a, split.value.1, outer, ctx, compiles);
  }

  /** One region keeps `Assembled`. */
  lemma AddRegionKeeps<V>(
    outside: seq<string>, inside: seq<string>, splits: seq<Result<(string, string)>>,
    ctx: map<string, V>, k: nat, a: Assembly<V>, nested: seq<Fstr<V>>, b: Assembly<V>)
    requires |outside| == |inside| + 1 && |splits| == |inside| && k < |inside|
    requires Assembled(outside, inside, splits, ctx, k, a)
    requires splits[k].Ok? && Strip(splits[k].value.0) != []
    requires var formatLang := splits[k].value.1;
      && NestedFor(formatLang, ctx, nested)
      && b.parts == a.parts + [Placeholder(formatLang) + outside[k + 1]]
      && b.fstrs == a.fstrs + nested
      && b.expressions == a.expressions + [Cleaned(splits[k].value.0)]
      && b.index == a.index + |inside[k]| + |outside[k + 1]|
    ensures Assembled(outside, inside, splits, ctx, k + 1, b)
  {
    PartsStep(outside, splits, k, a.parts, b.parts);
    CleanedNonEmpty(splits[k].value.0);
    ExpressionsStep(splits, k, a.expressions, b.expressions);
    FstrsStep(splits, ctx, k, a.fstrs, nested, b.fstrs);
  }

  /** What a region adds to `template_fstrs`: one `fstr` on its format language and the context if it contains `{`, else nothing. */
  ghost predicate NestedFor<V>(formatLang: string, ctx: map<string, V>, nested: seq<Fstr<V>>) {
    if '{' in formatLang then |nested| == 1 && nested[0].template == formatLang && nested[0].context == ctx
    else nested == []
  }

  lemma PartsStep(outside: seq<string>, splits: seq<Result<(string, string)>>, k: nat, parts: seq<string>, next: seq<string>)
    requires k < |splits| && k + 1 < |outside|
    requires PartsAssembled(outside, splits, k, parts)
    requires next == parts + [Placeholder(FormatLangOf(splits[k])) + outside[k + 1]]
    ensures PartsAssembled(outside, splits, k + 1, next)
  {
  }

  lemma ExpressionsStep(splits: seq<Result<(string, string)>>, k: nat, expressions: seq<string>, next: seq<string>)
    requires k < |splits| && splits[k].Ok?
    requires ExpressionsAssembled(splits, k, expressions)
    requires next == expressions + [Cleaned(splits[k].value.0)] && Cleaned(splits[k].value.0) != []
    ensures ExpressionsAssembled(splits, k + 1, next)
  {
  }

  lemma FstrsStep<V>(
    splits: seq<Result<(string, string)>>, ctx: map<string, V>, k: nat, fstrs: seq<Fstr<V>>, nested: seq<Fstr<V>>,
    next: seq<Fstr<V>>)
    requires k < |splits| && FstrsAssembled(splits, ctx, k, fstrs)
    requires NestedFor(FormatLangOf(splits[k]), ctx, nested) && next == fstrs + nested
    ensures FstrsAssembled(splits, ctx, k + 1, next)
  {
    var formatLang := FormatLangOf(splits[k]);
    if '{' in formatLang {
      var dynamic := Dynamic(splits, k + 1);
      assert dynamic == Dynamic(splits, k) + [formatLang];
      forall j | 0 <= j < |next|
        ensures next[j].template == dynamic[j] && next[j].context == ctx
      {
        if j < |fstrs| {
          assert next[j] == fstrs[j] && dynamic[j] == Dynamic(splits, k)[j];
        } else {
          assert next[j] == nested[0] && dynamic[j] == formatLang;
        }
      }
    } else {
      assert Dynamic(splits, k + 1) == Dynamic(splits, k);
      assert next == fstrs;
    }
  }

  /** The assembling loop, from any point at which `Assembled` holds, ends in `Assembled` for all regions. */
  lemma {:induction false} AssembleKeeps<V>(
    bound: nat, outside: seq<string>, inside: seq<string>, splits: seq<Result<(string, string)>>,
    ctx: map<string, V>, compiles: string -> bool, a: Assembly<V>, k: nat, last: Assembly<V>)
    requires Fits(bound, outside, inside, splits) && k <= |inside|
    requires Assembled(outside, inside, splits, ctx, k, a)
    requires AssembleFrom(bound, outside, inside, splits, ctx, compiles, a, k) == Ok(last)
    ensures Assembled(outside, inside, splits, ctx, |inside|, last)
    decreases |inside| - k
  {
    if k < |inside| {
      AssembleStep(bound, outside, inside, splits, ctx, compiles, a, k);
      var next := AddRegion(bound, a, splits[k], inside[k], outside[k + 1], ctx, compiles);
      AddRegionValue(bound, a, splits[k], inside[k], outside[k + 1], ctx, compiles);
      var formatLang := splits[k].value.1;
      var nested := if '{' in formatLang then [CompileSpec(formatLang, ctx, compiles).value] else [];
      AddRegionKeeps(outside, inside, splits, ctx, k, a, nested, next.value);
      AssembleKeeps(bound, outside, inside, splits, ctx, compiles, next.value, k + 1, last);
    }
  }

  /** A compiled instance is the assembling loop's result, regrouped, with one code object per expression. */
  lemma CompiledFrom<V>(t: string, ctx: map<string, V>, compiles: string -> bool) returns (regions: seq<Region>, a: Assembly<V>)
    requires CompileSpec(t, ctx, compiles).Ok?
    ensures Scan(t) == Ok(regions) && WellFormed(t, regions)
    ensures var outside, inside := Outsides(t, regions), Insides(t, regions);
      Assembled(outside, inside, SplitAll(inside), ctx, |inside|, a)
    ensures Codes(a.expressions, compiles).Ok?
    ensures CompileSpec(t, ctx, compiles) == Ok(Fstr(t, ctx, Regroup(a.parts), a.fstrs, a.expressions, Codes(a.expressions, compiles).value))
  {
    regions := Scan(t).value;
    var outside, inside := Outsides(t, regions), Insides(t, regions);
    var splits := SplitAll(inside);
    ConcatSingle(outside[0]);
    a := AssembleFrom(|t|, outside, inside, splits, ctx, compiles, Start(outside), 0).value;
    AssembleKeeps(|t|, outside, inside, splits, ctx, compiles, Start(outside), 0, a);
  }

  /**
   * `expressions` and `code` hold one entry per region: the region's
   * expression, stripped and without newlines, never empty, and its
   * compiled form (`SplitAll(inside)[k]` is region `k`'s split, by `SplitAllAt`,
   * and `Stored(splits, n)[k]` its cleaned expression, by `StoredAt`).
   */
  lemma CompiledExpressions<V>(t: string, ctx: map<string, V>, compiles: string -> bool, regions: seq<Region>)
    requires Scan(t) == Ok(regions) && CompileSpec(t, ctx, compiles).Ok?
    ensures var f, splits := CompileSpec(t, ctx, compiles).value, SplitAll(Insides(t, regions));
      && f.expressions == Stored(splits, |regions|)
      && |f.code| == |regions|
      && (forall k :: 0 <= k < |regions| ==>
            && splits[k].Ok? && f.expressions[k] != []
            && compiles(f.expressions[k]) && f.code[k] == Compiled(f.expressions[k]))
  {
    var _, a := CompiledFrom(t, ctx, compiles);
  }

  /**
   * `template_parts`: `ceil((n + 1) / 2)` parts whose join is the template
   * with each region replaced by its placeholder.
   */
  lemma CompiledTemplate<V>(t: string, ctx: map<string, V>, compiles: string -> bool, regions: seq<Region>)
    requires Scan(t) == Ok(regions) && CompileSpec(t, ctx, compiles).Ok?
    ensures var f := CompileSpec(t, ctx, compiles).value;
      && |f.templateParts| == (|regions| + 2) / 2
      && Concat(f.templateParts) == Skeleton(Outsides(t, regions), SplitAll(Insides(t, regions)), |regions|)
  {
    var _, a := CompiledFrom(t, ctx, compiles);
    var parts := CompileSpec(t, ctx, compiles).value.templateParts;
    assert parts == Regroup(a.parts);
    assert |a.parts| == |regions| + 1;
    RegroupKeepsText(a.parts);
    PartsJoinToSkeleton(Outsides(t, regions), SplitAll(Insides(t, regions)), |regions|);
  }

  /**
   * `template_fstrs`: one nested `fstr` per format language containing `{`,
   * in order, each on that format language and the same context.
   */
  lemma CompiledNested<V>(t: string, ctx: map<string, V>, compiles: string -> bool, regions: seq<Region>)
    requires Scan(t) == Ok(regions) && CompileSpec(t, ctx, compiles).Ok?
    ensures var f, dynamic := CompileSpec(t, ctx, compiles).value, Dynamic(SplitAll(Insides(t, regions)), |regions|);
      && |f.templateFstrs| == |dynamic|
      && (forall j :: 0 <= j < |dynamic| ==> f.templateFstrs[j].template == dynamic[j] && f.templateFstrs[j].context == ctx)
  {
    var _, a := CompiledFrom(t, ctx, compiles);
  }

  /** With only static format languages, the skeleton puts `{spec}` where each region was. */
  lemma {:induction false} StaticSkeleton(outside: seq<string>, splits: seq<Result<(string, string)>>, n: nat)
    requires n <= |splits| && n < |outside|
    requires forall k :: 0 <= k < |splits| ==> '{' !in FormatLangOf(splits[k])
    ensures Skeleton(outside, splits, n) == Interleave(outside, Specs(splits, n), n)
  {
    if n > 0 {
      StaticSkeleton(outside, splits, n - 1);
      var specs, formatLang := Specs(splits, n - 1), FormatLangOf(splits[n - 1]);
      InterleaveExtend(outside, specs, formatLang, n - 1);
      assert Specs(splits, n) == specs + [formatLang];
      assert Placeholder(formatLang) == "{" + formatLang + "}";
    }
  }

  /** Fields past the first `n` do not matter to the interleaving of the first `n`. */
  lemma {:induction false} InterleaveExtend(outside: seq<string>, fields: seq<string>, field: string, n: nat)
    requires n <= |fields| && n < |outside|
    ensures Interleave(outside, fields + [field], n) == Interleave(outside, fields, n)
  {
    if n > 0 {
      InterleaveExtend(outside, fields, field, n - 1);
      assert (fields + [field])[n - 1] == fields[n - 1];
    }
  }

  lemma {:induction false} NoDynamic(splits: seq<Result<(string, string)>>, n: nat)
    requires n <= |splits|
    requires forall k :: 0 <= k < n ==> '{' !in FormatLangOf(splits[k])
    ensures Dynamic(splits, n) == []
  {
    if n > 0 {
      NoDynamic(splits, n - 1);
    }
  }

  /**
   * With no format language containing `{`, there is no nested `fstr` and
   * the format template is the template with each region's text replaced by
   * its format language (`RunsReassemble` gives the template itself as the
   * same interleaving of the inside runs).
   */
  lemma StaticTemplate<V>(t: string, ctx: map<string, V>, compiles: string -> bool, regions: seq<Region>)
    requires Scan(t) == Ok(regions) && CompileSpec(t, ctx, compiles).Ok?
    requires forall k :: 0 <= k < |regions| ==> '{' !in FormatLangOf(SplitAll(Insides(t, regions))[k])
    ensures var f, splits := CompileSpec(t, ctx, compiles).value, SplitAll(Insides(t, regions));
      && f.templateFstrs == []
      && Concat(f.templateParts) == Interleave(Outsides(t, regions), Specs(splits, |regions|), |regions|)
  {
    var _, a := CompiledFrom(t, ctx, compiles);
    var splits := SplitAll(Insides(t, regions));
    RegroupKeepsText(a.parts);
    PartsJoinToSkeleton(Outsides(t, regions), splits, |regions|);
    StaticSkeleton(Outsides(t, regions), splits, |regions|);
    NoDynamic(splits, |regions|);
  }

  /**
   * A region with a nested format language leaves a part without a
   * placeholder, and regrouping joins parts `2i` and `2i + 1` whatever they
   * hold: for a single such region the one template part is both outside
   * runs.
   */
  lemma DynamicFieldRegrouped<V>(t: string, ctx: map<string, V>, compiles: string -> bool, regions: seq<Region>)
    requires Scan(t) == Ok(regions) && |regions| == 1 && CompileSpec(t, ctx, compiles).Ok?
    requires '{' in FormatLangOf(SplitAll(Insides(t, regions))[0])
    ensures var f, outside := CompileSpec(t, ctx, compiles).value, Outsides(t, regions);
      && f.templateParts == [outside[0] + outside[1]]
      && |f.templateFstrs| == 1
      && f.templateFstrs[0].template == FormatLangOf(SplitAll(Insides(t, regions))[0])
  {
    var _, a := CompiledFrom(t, ctx, compiles);
    SingleDynamicRegrouped(Outsides(t, regions), SplitAll(Insides(t, regions)), ctx, a);
  }

  lemma SingleDynamicRegrouped<V>(outside: seq<string>, splits: seq<Result<(string, string)>>, ctx: map<string, V>, a: Assembly<V>)
    requires |splits| == 1 && |outside| == 2 && '{' in FormatLangOf(splits[0])
    requires PartsAssembled(outside, splits, 1, a.parts) && FstrsAssembled(splits, ctx, 1, a.fstrs)
    ensures Regroup(a.parts) == [outside[0] + outside[1]]
    ensures |a.fstrs| == 1 && a.fstrs[0].template == FormatLangOf(splits[0])
  {
    assert PartsOf(outside, splits, 1) == [outside[0]] + ["" + outside[1]];
    assert "" + outside[1] == outside[1];
    assert a.parts == [outside[0], outside[1]];
    assert a.parts[2..] == [];
    assert Regroup(a.parts) == [Pair(a.parts, 0)];
    assert Dynamic(splits, 1) == [FormatLangOf(splits[0])];
  }

  /**
   * Two regions with static format languages and then one with a nested
   * format language: the nested region's part has no placeholder, so the
   * regrouping pairs the second placeholder with the last outside run.
   */
  lemma NestedAfterTwoStatic<V>(t: string, ctx: map<string, V>, compiles: string -> bool, regions: seq<Region>)
    requires Scan(t) == Ok(regions) && |regions| == 3 && CompileSpec(t, ctx, compiles).Ok?
    requires var splits := SplitAll(Insides(t, regions));
      '{' !in FormatLangOf(splits[0]) && '{' !in FormatLangOf(splits[1]) && '{' in FormatLangOf(splits[2])
    ensures var f, outside, splits := CompileSpec(t, ctx, compiles).value, Outsides(t, regions), SplitAll(Insides(t, regions));
      && f.templateParts == [
           outside[0] + ("{" + FormatLangOf(splits[0]) + "}" + outside[1]),
           "{" + FormatLangOf(splits[1]) + "}" + outside[2] + outside[3]]
      && |f.templateFstrs| == 1
      && f.templateFstrs[0].template == FormatLangOf(splits[2])
  {
    var _, a := CompiledFrom(t, ctx, compiles);
    ThreeRegionsRegrouped(Outsides(t, regions), SplitAll(Insides(t, regions)), ctx, a);
  }

  lemma ThreeRegionsRegrouped<V>(outside: seq<string>, splits: seq<Result<(string, string)>>, ctx: map<string, V>, a: Assembly<V>)
    requires |splits| == 3 && |outside| == 4
    requires '{' !in FormatLangOf(splits[0]) && '{' !in FormatLangOf(splits[1]) && '{' in FormatLangOf(splits[2])
    requires PartsAssembled(outside, splits, 3, a.parts) && FstrsAssembled(splits, ctx, 3, a.fstrs)
    ensures Regroup(a.parts) == [
              outside[0] + ("{" + FormatLangOf(splits[0]) + "}" + outside[1]),
              "{" + FormatLangOf(splits[1]) + "}" + outside[2] + outside[3]]
    ensures |a.fstrs| == 1 && a.fstrs[0].template == FormatLangOf(splits[2])
  {
    var p1 := "{" + FormatLangOf(splits[0]) + "}" + outside[1];
    var p2 := "{" + FormatLangOf(splits[1]) + "}" + outside[2];
    assert PartsOf(outside, splits, 1) == [outside[0], p1];
    assert PartsOf(outside, splits, 2) == [outside[0], p1, p2];
    assert "" + outside[3] == outside[3];
    assert a.parts == [outside[0], p1, p2, outside[3]];
    assert a.parts[2..][2..] == [];
    assert Regroup(a.parts) == [Pair(a.parts, 0)] + Regroup(a.parts[2..]);
    assert Regroup(a.parts[2..]) == [Pair(a.parts[2..], 0)];
    assert Dynamic(splits, 1) == [];
    assert Dynamic(splits, 2) == [];
    assert Dynamic(splits, 3) == [FormatLangOf(splits[2])];
  }

  /** A region that split, with a static format language and an expression that is not blank. */
  predicate Filled(split: Result<(string, string)>) {
    split.Ok? && '{' !in split.value.1 && Strip(split.value.0) != []
  }

  /** A region that split, with a static format language and a blank expression. */
  predicate Blank(split: Result<(string, string)>) {
    split.Ok? && '{' !in split.value.1 && Strip(split.value.0) == []
  }

  /** Region `j` is the first with a blank expression, and no region up to it has a nested format language. */
  predicate FirstBlank(splits: seq<Result<(string, string)>>, j: nat) {
    j < |splits| && (forall m :: 0 <= m < j ==> Filled(splits[m])) && Blank(splits[j])
  }

  /**
   * Lines 104-107: the first region whose expression strips to nothing makes
   * `__init__` raise with the offset `index + 1`, where `index` is the
   * template length before that region's `{` less the two braces of each
   * earlier region.
   */
  lemma EmptyExpressionRaises<V>(t: string, ctx: map<string, V>, compiles: string -> bool, regions: seq<Region>, j: nat)
    requires Scan(t) == Ok(regions) && FirstBlank(SplitAll(Insides(t, regions)), j)
    ensures CompileSpec(t, ctx, compiles) == Err(EmptyExpression(regions[j].0 - 2 * j))
  {
    var outside, inside := Outsides(t, regions), Insides(t, regions);
    var splits := SplitAll(inside);
    assert j < |regions|;
    var e := OffsetAtRegion(t, regions, j);
    FailsWith(t, ctx, compiles, regions, outside, inside, splits, j, e);
    CompileSpecFails(t, ctx, compiles, regions, outside, inside, splits, e);
  }

  /** The assembling loop fails at the first blank region with `index + 1`. */
  lemma FailsWith<V>(
    t: string, ctx: map<string, V>, compiles: string -> bool, regions: seq<Region>,
    outside: seq<string>, inside: seq<string>, splits: seq<Result<(string, string)>>, j: nat, e: Error)
    requires Scan(t) == Ok(regions)
    requires outside == Outsides(t, regions) && inside == Insides(t, regions) && splits == SplitAll(inside)
    requires FirstBlank(splits, j) && e == EmptyExpression(Offset(outside, inside, j) + 1)
    ensures AssembleFrom(|t|, outside, inside, splits, ctx, compiles, Start(outside), 0) == Err(e)
  {
    FailsFromStart(|t|, outside, inside, splits, ctx, compiles, j);
  }

  /** Before region `j`, `index + 1` is the position of the region's `{` less two braces per earlier region. */
  lemma OffsetAtRegion(t: string, regions: seq<Region>, j: nat) returns (e: Error)
    requires WellFormed(t, regions) && j < |regions|
    ensures e == EmptyExpression(regions[j].0 - 2 * j)
    ensures e == EmptyExpression(Offset(Outsides(t, regions), Insides(t, regions), j) + 1)
  {
    e := EmptyExpression(regions[j].0 - 2 * j);
    OffsetIsLength(Outsides(t, regions), Insides(t, regions), j);
    InterleaveRebuilds(t, regions, j);
    ReassemblePrefix(t, regions, j);
    assert OuterEnd(t, regions, j) == regions[j].0 - 1;
  }

  /** `index` before region `n` is the length of the template text up to there, less two braces per region. */
  lemma {:induction false} OffsetIsLength(outside: seq<string>, inside: seq<string>, n: nat)
    requires n <= |inside| && n < |outside|
    ensures Offset(outside, inside, n) == |Interleave(outside, inside, n)| - 2 * n
  {
    if n > 0 {
      OffsetIsLength(outside, inside, n - 1);
    }
  }

  /** `__init__` raises whatever its assembling loop raises. */
  lemma CompileSpecFails<V>(
    t: string, ctx: map<string, V>, compiles: string -> bool, regions: seq<Region>,
    outside: seq<string>, inside: seq<string>, splits: seq<Result<(string, string)>>, e: Error)
    requires Scan(t) == Ok(regions)
    requires outside == Outsides(t, regions) && inside == Insides(t, regions) && splits == SplitAll(inside)
    requires AssembleFrom(|t|, outside, inside, splits, ctx, compiles, Start(outside), 0) == Err(e)
    ensures CompileSpec(t, ctx, compiles) == Err(e)
  {
  }

  lemma FailsFromStart<V>(
    bound: nat, outside: seq<string>, inside: seq<string>, splits: seq<Result<(string, string)>>,
    ctx: map<string, V>, compiles: string -> bool, j: nat)
    requires Fits(bound, outside, inside, splits) && FirstBlank(splits, j)
    ensures AssembleFrom(bound, outside, inside, splits, ctx, compiles, Start(outside), 0) == Err(EmptyExpression(Offset(outside, inside, j) + 1))
  {
    AssembleFails(bound, outside, inside, splits, ctx, compiles, Start(outside), 0, j, EmptyExpression(Offset(outside, inside, j) + 1));
  }

  /** The loop is at region `k` with `index` right, and region `j`, the first blank one, lies ahead. */
  ghost predicate BlankAhead<V>(
    outside: seq<string>, inside: seq<string>, splits: seq<Result<(string, string)>>,
    a: Assembly<V>, k: nat, j: nat, e: Error)
  {
    && |outside| == |inside| + 1 && |splits| == |inside|
    && FirstBlank(splits, j) && k <= j
    && a.index == Offset(outside, inside, k) && e == EmptyExpression(Offset(outside, inside, j) + 1)
  }

  lemma {:induction false} AssembleFails<V>(
    bound: nat, outside: seq<string>, inside: seq<string>, splits: seq<Result<(string, string)>>,
    ctx: map<string, V>, compiles: string -> bool, a: Assembly<V>, k: nat, j: nat, e: Error)
    requires Fits(bound, outside, inside, splits) && BlankAhead(outside, inside, splits, a, k, j, e)
    ensures AssembleFrom(bound, outside, inside, splits, ctx, compiles, a, k) == Err(e)
    decreases j - k, 1
  {
    if k < j {
      FilledThenFails(bound, outside, inside, splits, ctx, compiles, a, k, j, e);
    } else {
      assert k == j;
      BlankStep(bound, outside, inside, splits, ctx, compiles, a, j, e);
    }
  }

  /** The induction step of `AssembleFails`. */
  lemma {:induction false} FilledThenFails<V>(
    bound: nat, outside: seq<string>, inside: seq<string>, splits: seq<Result<(string, string)>>,
    ctx: map<string, V>, compiles: string -> bool, a: Assembly<V>, k: nat, j: nat, e: Error)
    requires Fits(bound, outside, inside, splits) && BlankAhead(outside, inside, splits, a, k, j, e) && k < j
    ensures AssembleFrom(bound, outside, inside, splits, ctx, compiles, a, k) == Err(e)
    decreases j - k, 0
  {
    var b := FilledStep(bound, outside, inside, splits, ctx, compiles, a, k, j, e);
    AssembleFails(bound, outside, inside, splits, ctx, compiles, b, k + 1, j, e);
    FilledStepAssembles(bound, outside, inside, splits, ctx, compiles, a, k, b);
  }

  /** The assembly after a region before the blank one. */
  ghost function Advance<V>(
    bound: nat, outside: seq<string>, inside: seq<string>, splits: seq<Result<(string, string)>>,
    ctx: map<string, V>, compiles: string -> bool, a: Assembly<V>, k: nat): Assembly<V>
    requires Fits(bound, outside, inside, splits) && k < |inside| && Filled(splits[k])
  {
    FilledExpressionAdds(bound, a, splits[k], inside[k], outside[k + 1], ctx, compiles);
    AddRegion(bound, a, splits[k], inside[k], outside[k + 1], ctx, compiles).value
  }

  /** A region before the blank one moves the loop on with `index` right. */
  lemma FilledStep<V>(
    bound: nat, outside: seq<string>, inside: seq<string>, splits: seq<Result<(string, string)>>,
    ctx: map<string, V>, compiles: string -> bool, a: Assembly<V>, k: nat, j: nat, e: Error)
    returns (b: Assembly<V>)
    requires Fits(bound, outside, inside, splits) && BlankAhead(outside, inside, splits, a, k, j, e) && k < j
    ensures b == Advance(bound, outside, inside, splits, ctx, compiles, a, k)
    ensures BlankAhead(outside, inside, splits, b, k + 1, j, e)
  {
    OffsetNext(outside, inside, k);
    FilledExpressionAdds(bound, a, splits[k], inside[k], outside[k + 1], ctx, compiles);
    b := Advance(bound, outside, inside, splits, ctx, compiles, a, k);
  }

  lemma FilledStepAssembles<V>(
    bound: nat, outside: seq<string>, inside: seq<string>, splits: seq<Result<(string, string)>>,
    ctx: map<string, V>, compiles: string -> bool, a: Assembly<V>, k: nat, b: Assembly<V>)
    requires Fits(bound, outside, inside, splits) && k < |inside| && Filled(splits[k])
    requires b == Advance(bound, outside, inside, splits, ctx, compiles, a, k)
    ensures AssembleFrom(bound, outside, inside, splits, ctx, compiles, a, k) == AssembleFrom(bound, outside, inside, splits, ctx, compiles, b, k + 1)
  {
    AssembleStep(bound, outside, inside, splits, ctx, compiles, a, k);
    FilledExpressionAdds(bound, a, splits[k], inside[k], outside[k + 1], ctx, compiles);
  }

  /** A region with a static format language and a blank expression ends the loop with `index + 1`. */
  lemma BlankStep<V>(
    bound: nat, outside: seq<string>, inside: seq<string>, splits: seq<Result<(string, string)>>,
    ctx: map<string, V>, compiles: string -> bool, a: Assembly<V>, k: nat, e: Error)
    requires Fits(bound, outside, inside, splits) && k < |inside|
    requires Blank(splits[k])
    requires e == EmptyExpression(a.index + 1)
    ensures AssembleFrom(bound, outside, inside, splits, ctx, compiles, a, k) == Err(e)
  {
    AssembleStep(bound, outside, inside, splits, ctx, compiles, a, k);
    BlankExpressionFails(bound, a, splits[k], inside[k], outside[k + 1], ctx, compiles);
  }

  /** One region of the assembling loop: its failure ends the loop, its success carries on. */
  lemma AssembleStep<V>(
    bound: nat, outside: seq<string>, inside: seq<string>, splits: seq<Result<(string, string)>>,
    ctx: map<string, V>, compiles: string -> bool, a: Assembly<V>, k: nat)
    requires Fits(bound, outside, inside, splits) && k < |inside|
    ensures var next := AddRegion(bound, a, splits[k], inside[k], outside[k + 1], ctx, compiles);
      AssembleFrom(bound, outside, inside, splits, ctx, compiles, a, k)
      == if next.Err? then Err(next.error) else AssembleFrom(bound, outside, inside, splits, ctx, compiles, next.value, k + 1)
  {
  }

  /**
   * Conversely, a template that scans, whose regions all split, with static
   * format languages and non-blank expressions that the compiler accepts
   * once cleaned, compiles.
   */
  lemma StaticTemplateCompiles<V>(t: string, ctx: map<string, V>, compiles: string -> bool, regions: seq<Region>)
    requires Scan(t) == Ok(regions)
    requires forall k :: 0 <= k < |regions| ==> Filled(SplitAll(Insides(t, regions))[k])
    requires forall k :: 0 <= k < |regions| ==> compiles(Cleaned(ExpressionOf(SplitAll(Insides(t, regions))[k])))
    ensures CompileSpec(t, ctx, compiles).Ok?
  {
    var outside, inside := Outsides(t, regions), Insides(t, regions);
    var splits := SplitAll(inside);
    AssembleSucceeds(|t|, outside, inside, splits, ctx, compiles, Start(outside), 0);
    var a := AssembledAll(t, ctx, compiles, regions);
    StoredCompile(splits, |regions|, compiles);
  }

  /** The stored expressions all compile when every region's cleaned expression does. */
  lemma StoredCompile(splits: seq<Result<(string, string)>>, n: nat, compiles: string -> bool)
    requires n <= |splits|
    requires forall k :: 0 <= k < n ==> compiles(Cleaned(ExpressionOf(splits[k])))
    ensures Codes(Stored(splits, n), compiles).Ok?
  {
    forall k | 0 <= k < n
      ensures compiles(Stored(splits, n)[k])
    {
      StoredAt(splits, n, k);
    }
  }

  /**
   * Line 119: once the assembling loop has completed, `__init__` raises on
   * the first stored expression the compiler rejects.
   */
  lemma UncompilableExpressionRaises<V>(t: string, ctx: map<string, V>, compiles: string -> bool, regions: seq<Region>, k: nat)
    requires Scan(t) == Ok(regions)
    requires var outside, inside := Outsides(t, regions), Insides(t, regions);
      AssembleFrom(|t|, outside, inside, SplitAll(inside), ctx, compiles, Start(outside), 0).Ok?
    requires FirstRejected(Stored(SplitAll(Insides(t, regions)), |regions|), compiles, k)
    ensures CompileSpec(t, ctx, compiles) == Err(InvalidSyntax(Cleaned(ExpressionOf(SplitAll(Insides(t, regions))[k]))))
  {
    var splits := SplitAll(Insides(t, regions));
    var a := AssembledAll(t, ctx, compiles, regions);
    var code := Codes(a.expressions, compiles);
    var j :| FirstRejected(a.expressions, compiles, j) && code.error == InvalidSyntax(a.expressions[j]);
    assert j == k;
    StoredAt(splits, |regions|, k);
  }

  /** The assembling loop, when it completes, stores the cleaned expression of every region. */
  lemma AssembledAll<V>(t: string, ctx: map<string, V>, compiles: string -> bool, regions: seq<Region>)
    returns (a: Assembly<V>)
    requires Scan(t) == Ok(regions)
    requires var outside, inside := Outsides(t, regions), Insides(t, regions);
      AssembleFrom(|t|, outside, inside, SplitAll(inside), ctx, compiles, Start(outside), 0).Ok?
    ensures var outside, inside := Outsides(t, regions), Insides(t, regions);
      AssembleFrom(|t|, outside, inside, SplitAll(inside), ctx, compiles, Start(outside), 0) == Ok(a)
    ensures a.expressions == Stored(SplitAll(Insides(t, regions)), |regions|)
  {
    var outside, inside := Outsides(t, regions), Insides(t, regions);
    var splits := SplitAll(inside);
    a := AssembleFrom(|t|, outside, inside, splits, ctx, compiles, Start(outside), 0).value;
    StartAssembled(outside, inside, splits, ctx);
    AssembleKeeps(|t|, outside, inside, splits, ctx, compiles, Start(outside), 0, a);
  }

  /** Before the first region, `Assembled` holds of the loop's initial lists. */
  lemma StartAssembled<V>(outside: seq<string>, inside: seq<string>, splits: seq<Result<(string, string)>>, ctx: map<string, V>)
    requires |outside| == |inside| + 1 && |splits| == |inside|
    ensures Assembled(outside, inside, splits, ctx, 0, Start(outside))
  {
    ConcatSingle(outside[0]);
  }

  lemma {:induction false} AssembleSucceeds<V>(
    bound: nat, outside: seq<string>, inside: seq<string>, splits: seq<Result<(string, string)>>,
    ctx: map<string, V>, compiles: string -> bool, a: Assembly<V>, k: nat)
    requires Fits(bound, outside, inside, splits) && k <= |inside|
    requires forall m :: 0 <= m < |inside| ==> Filled(splits[m])
    ensures AssembleFrom(bound, outside, inside, splits, ctx, compiles, a, k).Ok?
    decreases |inside| - k
  {
    if k < |inside| {
      FilledExpressionAdds(bound, a, splits[k], inside[k], outside[k + 1], ctx, compiles);
      var b := AddRegion(bound, a, splits[k], inside[k], outside[k + 1], ctx, compiles).value;
      AssembleSucceeds(bound, outside, inside, splits, ctx, compiles, b, k + 1);
    }
  }
}
