/**
 * The region scanner `expr_starts_and_stops` (fstr/utils.py:33-88).
 *
 * One left-to-right pass over the template tracks the brace depth, three
 * quote flags, and the run lengths of `{` and `}` that tell a doubled-brace
 * escape from a region delimiter.  It yields the interior offsets
 * `(start, stop)` of every top-level `{...}` region, or fails when the
 * depth is not back to zero at the end.
 *
 * `Step` is one iteration of the source's `while` loop, `Run` iterates it
 * to the end of the string and `Scan` is the whole function; the method
 * `ExprStartsAndStops` is the loop itself, proved equal to `Scan`.
 */
module Scanner {
  import opened Text

  /** The interior offsets of one region: its opening brace is at `start - 1`, its closing one at `stop`. */
  type Region = (nat, nat)

  /** The loop variables of `expr_starts_and_stops`. */
  datatype ScanState = ScanState(
    index: nat,
    depth: nat,
    single: bool,
    double: bool,
    triple: bool,
    starts: seq<nat>,
    stops: seq<nat>)

  const Initial := ScanState(0, 0, false, false, false, [], [])

  /** The number of consecutive `c` in `s` from offset `from` on. */
  function RunLength(s: string, from: nat, c: char): (n: nat)
    requires from <= |s|
    ensures from + n <= |s|
    ensures forall k :: from <= k < from + n ==> s[k] == c
    ensures from + n == |s| || s[from + n] != c
    decreases |s| - from
  {
    if from == |s| || s[from] != c then 0 else 1 + RunLength(s, from + 1, c)
  }

  /** The three properties of `RunLength` determine it. */
  lemma RunLengthUnique(s: string, from: nat, c: char, n: nat)
    requires from + n <= |s|
    requires forall k :: from <= k < from + n ==> s[k] == c
    requires from + n == |s| || s[from + n] != c
    ensures RunLength(s, from, c) == n
  {
  }

  /**
   * The `j` left by the `for j, c in enumerate(string[index + 1:])` loop
   * that looks for the first character after `s[i]` that is not `{`: the
   * number of `{` following `s[i]`, except that when those braces run to the
   * end of the string it is one less (the position of the last character),
   * and 0 when nothing follows.
   */
  function OpenRun(s: string, i: nat): (j: nat)
    requires i < |s|
    ensures i + j < |s|
    ensures forall k :: i < k <= i + j ==> s[k] == '{'
    ensures || (i + 1 + j < |s| && s[i + 1 + j] != '{')
            || (i + 1 + j == |s| - 1 && s[|s| - 1] == '{')
            || (i + 1 == |s| && j == 0)
  {
    var r := RunLength(s, i + 1, '{');
    if i + 1 + r < |s| then r else if r == 0 then 0 else r - 1
  }

  /**
   * The `j` left by the closing-side loop, which enumerates
   * `string[index + 1:] + " "`: thanks to the sentinel it is exactly the
   * number of `}` following `s[i]`.
   */
  function CloseRun(s: string, i: nat): (j: nat)
    requires i < |s|
    ensures i + j < |s|
    ensures forall k :: i < k <= i + j ==> s[k] == '}'
    ensures i + 1 + j == |s| || s[i + 1 + j] != '}'
  {
    RunLength(s, i + 1, '}')
  }

  /** `string[i + 1 : i + 3] == q + q`. */
  predicate FollowedByTwo(s: string, i: nat, q: char) {
    i + 2 < |s| && s[i + 1] == q && s[i + 2] == q
  }

  /** Lines 44-54: quote tracking, which happens only inside a region. */
  function QuoteStep(s: string, st: ScanState): (r: ScanState)
    requires st.index < |s|
    ensures r.index == st.index && r.depth == st.depth && r.starts == st.starts && r.stops == st.stops
    ensures st.depth == 0 ==> r == st
  {
    var c := s[st.index];
    if st.depth > 0 then
      if c == '\'' && !st.double then
        if FollowedByTwo(s, st.index, '\'') then st.(triple := !st.triple)
        else if !st.triple then st.(single := !st.single)
        else st
      else if c == '"' && !st.single then
        if FollowedByTwo(s, st.index, '"') then st.(triple := !st.triple)
        else if !st.triple then st.(double := !st.double)
        else st
      else st
    else st
  }

  /** Lines 55-82: brace counting, opening and closing regions. */
  function BraceStep(s: string, st: ScanState): (r: ScanState)
    requires st.index < |s|
    ensures st.index <= r.index < |s|
    ensures r.single == st.single && r.double == st.double && r.triple == st.triple
    ensures (st.single || st.double) && s[st.index] == '}' ==> r == st
    ensures |r.stops| != |st.stops| ==> st.depth == 1 && !st.single && !st.double && s[st.index] == '}'
  {
    var c := s[st.index];
    if c == '{' then
      if st.depth > 0 then
        if !(st.double || st.single) then st.(depth := st.depth + 1) else st
      else
        var j := OpenRun(s, st.index);
        var i := st.index + j;
        if j % 2 == 0 then st.(index := i, starts := st.starts + [i + 1], depth := st.depth + 1)
        else st.(index := i)
    else if !(st.double || st.single) && c == '}' then
      if st.depth > 1 then st.(depth := st.depth - 1)
      else if st.depth == 1 then
        var j := CloseRun(s, st.index);
        if j % 2 == 0 then st.(stops := st.stops + [st.index], depth := st.depth - 1, index := st.index + j)
        else st.(index := st.index + j)
      else st
    else st
  }

  /**
   * One iteration of the scanner's loop.  The index strictly increases (so
   * the loop terminates); a `}` at depth 0 is skipped without effect; a
   * brace inside single- or double-quoted text leaves the depth and the
   * regions alone; a region closes only at depth 1 on a `}` outside
   * single and double quotes; the quote flags change only inside a region.
   */
  function Step(s: string, st: ScanState): (r: ScanState)
    requires st.index < |s|
    ensures st.index < r.index <= |s|
    ensures st.depth == 0 && s[st.index] == '}' ==> r == st.(index := st.index + 1)
    ensures st.depth > 0 && (st.single || st.double) && (s[st.index] == '{' || s[st.index] == '}')
            ==> r.depth == st.depth && r.starts == st.starts && r.stops == st.stops
    ensures |r.stops| != |st.stops| ==> st.depth == 1 && !st.single && !st.double && s[st.index] == '}'
    ensures st.depth == 0 ==> r.single == st.single && r.double == st.double && r.triple == st.triple
  {
    var b := BraceStep(s, QuoteStep(s, st));
    b.(index := b.index + 1)
  }

  lemma RunUnfold(s: string, st: ScanState)
    requires st.index < |s|
    ensures Run(s, st) == Run(s, Step(s, st))
  {
  }

  /** The rest of the loop, from state `st` to the end of the string. */
  function Run(s: string, st: ScanState): ScanState
    requires st.index <= |s|
    decreases |s| - st.index
  {
    if st.index == |s| then st else Run(s, Step(s, st))
  }

  /** Python's `zip`, truncated to the shorter list. */
  function Zip(a: seq<nat>, b: seq<nat>): (r: seq<Region>)
    ensures |r| == if |a| <= |b| then |a| else |b|
    ensures forall k :: 0 <= k < |r| ==> r[k] == (a[k], b[k])
  {
    if a == [] || b == [] then [] else [(a[0], b[0])] + Zip(a[1..], b[1..])
  }

  /** `expr_starts_and_stops(s)`, as a function. */
  function Scan(s: string): (r: Result<seq<Region>>)
    ensures r.Ok? ==> WellFormed(s, r.value)
    ensures r.Ok? ==> |r.value| == |Run(s, Initial).starts| == |Run(s, Initial).stops|
  {
    ScanKeepsInvariant(s, Initial);
    var last := Run(s, Initial);
    if last.depth != 0 then Err(MismatchedBraces) else Ok(Zip(last.starts, last.stops))
  }

  /**
   * What the regions of a successful scan satisfy: each lies inside the
   * string between a `{` and a `}`, and consecutive regions are ordered and
   * separated by at least the two delimiting braces.
   */
  ghost predicate WellFormed(s: string, regions: seq<Region>) {
    && (forall k :: 0 <= k < |regions| ==>
          && 1 <= regions[k].0 <= regions[k].1 < |s|
          && s[regions[k].0 - 1] == '{' && s[regions[k].1] == '}')
    && (forall k, m :: 0 <= k < m < |regions| ==> regions[k].1 + 2 <= regions[m].0)
  }

  /** The invariant of the scanner's loop. */
  ghost predicate Inv(s: string, st: ScanState) {
    && st.index <= |s|
    && (st.depth == 0 ==> !st.single && !st.double)
    && |st.starts| == |st.stops| + (if st.depth > 0 then 1 else 0)
    && (forall k :: 0 <= k < |st.starts| ==> 1 <= st.starts[k] <= st.index && s[st.starts[k] - 1] == '{')
    && (forall k :: 0 <= k < |st.stops| ==>
          st.starts[k] <= st.stops[k] < st.index && s[st.stops[k]] == '}')
    && (forall k, m :: 0 <= k < m < |st.starts| ==> st.stops[k] + 2 <= st.starts[m])
  }

  /** The quote update keeps the invariant and touches only the flags. */
  lemma QuoteStepKeepsInvariant(s: string, st: ScanState)
    requires st.index < |s| && Inv(s, st)
    ensures Inv(s, QuoteStep(s, st))
    ensures var q := QuoteStep(s, st);
      q.index == st.index && q.depth == st.depth && q.starts == st.starts && q.stops == st.stops
  {
  }

  /** A step that opens a region keeps the invariant. */
  lemma OpenKeepsInvariant(s: string, st: ScanState)
    requires st.index < |s| && Inv(s, st)
    requires st.depth == 0 && s[st.index] == '{' && OpenRun(s, st.index) % 2 == 0
    ensures Inv(s, Step(s, st))
  {
    var i := st.index;
    var j := OpenRun(s, i);
    assert QuoteStep(s, st) == st;
    var b := st.(index := i + j, starts := st.starts + [i + j + 1], depth := 1);
    assert BraceStep(s, st) == b;
    assert Step(s, st) == b.(index := i + j + 1);
    OpenedKeepsInvariant(s, st, i + j + 1, Step(s, st));
  }

  /** Opening a region whose interior starts at `start`, just after a `{`. */
  lemma OpenedKeepsInvariant(s: string, st: ScanState, start: nat, r: ScanState)
    requires Inv(s, st) && st.depth == 0
    requires st.index < start <= |s| && s[start - 1] == '{'
    requires r == st.(index := start, starts := st.starts + [start], depth := 1)
    ensures Inv(s, r)
  {
  }

  /** A step that closes a region keeps the invariant. */
  lemma CloseKeepsInvariant(s: string, st: ScanState)
    requires st.index < |s| && Inv(s, st)
    requires var q := QuoteStep(s, st);
      q.depth == 1 && s[st.index] == '}' && !q.single && !q.double && CloseRun(s, st.index) % 2 == 0
    ensures Inv(s, Step(s, st))
  {
    var i := st.index;
    var q := QuoteStep(s, st);
    QuoteStepKeepsInvariant(s, st);
    var j := CloseRun(s, i);
    var b := q.(stops := q.stops + [i], depth := 0, index := i + j);
    assert BraceStep(s, q) == b;
    assert Step(s, st) == b.(index := i + j + 1);
    ClosedKeepsInvariant(s, q, i + j + 1, Step(s, st));
  }

  /** Closing the open region at the `}` at `index`, resuming the scan at `next`. */
  lemma ClosedKeepsInvariant(s: string, st: ScanState, next: nat, r: ScanState)
    requires Inv(s, st) && st.depth == 1 && !st.single && !st.double && st.index < |s| && s[st.index] == '}'
    requires st.index < next <= |s|
    requires r == st.(stops := st.stops + [st.index], depth := 0, index := next)
    ensures Inv(s, r)
  {
    assert st.starts[|st.starts| - 1] <= st.index;
  }

  /** A step that neither opens nor closes a region keeps the invariant. */
  lemma OtherKeepsInvariant(s: string, st: ScanState)
    requires st.index < |s| && Inv(s, st)
    requires var q := QuoteStep(s, st);
      && !(st.depth == 0 && s[st.index] == '{' && OpenRun(s, st.index) % 2 == 0)
      && !(q.depth == 1 && s[st.index] == '}' && !q.single && !q.double && CloseRun(s, st.index) % 2 == 0)
    ensures Inv(s, Step(s, st))
  {
    var q := QuoteStep(s, st);
    QuoteStepKeepsInvariant(s, st);
    var r := Step(s, st);
    assert r.starts == q.starts && r.stops == q.stops;
    assert (r.depth == 0) == (q.depth == 0);
  }

  lemma StepKeepsInvariant(s: string, st: ScanState)
    requires st.index < |s| && Inv(s, st)
    ensures Inv(s, Step(s, st))
  {
    var q := QuoteStep(s, st);
    if st.depth == 0 && s[st.index] == '{' && OpenRun(s, st.index) % 2 == 0 {
      OpenKeepsInvariant(s, st);
    } else if q.depth == 1 && s[st.index] == '}' && !q.single && !q.double && CloseRun(s, st.index) % 2 == 0 {
      CloseKeepsInvariant(s, st);
    } else {
      OtherKeepsInvariant(s, st);
    }
  }

  lemma {:induction false} ScanKeepsInvariant(s: string, st: ScanState)
    requires Inv(s, st)
    ensures Inv(s, Run(s, st))
    decreases |s| - st.index
  {
    if st.index < |s| {
      StepKeepsInvariant(s, st);
      ScanKeepsInvariant(s, Step(s, st));
    }
  }

  /** The `j` of the opening-side `for` loop at line 62, computed as the source does. */
  method OpeningRun(s: string, i: nat) returns (j: nat)
    requires i < |s|
    ensures j == OpenRun(s, i)
  {
    j := 0;
    var k := 0;
    while i + 1 + k < |s|
      invariant i + 1 + k <= |s|
      invariant forall m :: i + 1 <= m < i + 1 + k ==> s[m] == '{'
      invariant j == if k == 0 then 0 else k - 1
    {
      j := k;
      if s[i + 1 + k] != '{' {
        RunLengthUnique(s, i + 1, '{', k);
        return;
      }
      k := k + 1;
    }
    RunLengthUnique(s, i + 1, '{', k);
  }

  /** The `j` of the closing-side `for` loop at line 75, over the tail plus a `" "` sentinel. */
  method ClosingRun(s: string, i: nat) returns (j: nat)
    requires i < |s|
    ensures j == CloseRun(s, i)
  {
    var tail := s[i + 1..] + " ";
    assert tail[|tail| - 1] == ' ';
    var k := 0;
    while tail[k] == '}'
      invariant k < |tail|
      decreases |tail| - k
      invariant forall m :: i + 1 <= m < i + 1 + k ==> s[m] == '}'
    {
      assert tail[k] == s[i + 1 + k];
      k := k + 1;
    }
    j := k;
    assert i + 1 + j == |s| || s[i + 1 + j] == tail[j];
    RunLengthUnique(s, i + 1, '}', j);
  }

  /** Lines 55-82, the brace half of one iteration: the new `index`, `brace_depth`, `expr_starts` and `expr_stops`. */
  method CountBrace(
    s: string, index: nat, braceDepth: nat, inSingle: bool, inDouble: bool, inTriple: bool,
    starts: seq<nat>, stops: seq<nat>)
    returns (index': nat, braceDepth': nat, starts': seq<nat>, stops': seq<nat>)
    requires index < |s|
    ensures ScanState(index', braceDepth', inSingle, inDouble, inTriple, starts', stops')
         == BraceStep(s, ScanState(index, braceDepth, inSingle, inDouble, inTriple, starts, stops))
  {
    index', braceDepth', starts', stops' := index, braceDepth, starts, stops;
    var c := s[index];
    if c == '{' {
      if braceDepth > 0 {
        if !(inDouble || inSingle) {
          braceDepth' := braceDepth + 1;
        }
      } else {
        var j := OpeningRun(s, index);
        index' := index + j;
        if j % 2 == 0 {
          starts' := starts + [index' + 1];
          braceDepth' := braceDepth + 1;
        }
      }
    } else if !(inDouble || inSingle) && c == '}' {
      if braceDepth > 1 {
        braceDepth' := braceDepth - 1;
      } else if braceDepth == 1 {
        var j := ClosingRun(s, index);
        if j % 2 == 0 {
          stops' := stops + [index];
          braceDepth' := braceDepth - 1;
        }
        index' := index + j;
      }
    }
  }

  /** `expr_starts_and_stops`: the scanning loop itself. */
  method ExprStartsAndStops(s: string) returns (r: Result<seq<Region>>)
    ensures r == Scan(s)
    ensures r.Ok? ==> WellFormed(s, r.value)
    ensures r.Ok? ==> |r.value| == |Run(s, Initial).starts| == |Run(s, Initial).stops|
  {
    var index: nat := 0;
    var braceDepth: nat := 0;
    var starts: seq<nat> := [];
    var stops: seq<nat> := [];
    var inSingle, inDouble, inTriple := false, false, false;
    while index < |s|
      invariant index <= |s|
      invariant Run(s, ScanState(index, braceDepth, inSingle, inDouble, inTriple, starts, stops))
             == Run(s, Initial)
      decreases |s| - index
    {
      ghost var before := ScanState(index, braceDepth, inSingle, inDouble, inTriple, starts, stops);
      var c := s[index];
      if braceDepth > 0 {
        if c == '\'' && !inDouble {
          if FollowedByTwo(s, index, '\'') {
            inTriple := !inTriple;
          } else if !inTriple {
            inSingle := !inSingle;
          }
        } else if c == '"' && !inSingle {
          if FollowedByTwo(s, index, '"') {
            inTriple := !inTriple;
          } else if !inTriple {
            inDouble := !inDouble;
          }
        }
      }
      ghost var quoted := ScanState(index, braceDepth, inSingle, inDouble, inTriple, starts, stops);
      assert quoted == QuoteStep(s, before);
      index, braceDepth, starts, stops := CountBrace(s, index, braceDepth, inSingle, inDouble, inTriple, starts, stops);
      index := index + 1;
      assert ScanState(index, braceDepth, inSingle, inDouble, inTriple, starts, stops) == Step(s, before);
      RunUnfold(s, before);
    }
    if braceDepth != 0 {
      return Err(MismatchedBraces);
    }
    return Ok(Zip(starts, stops));
  }

  /**
   * Outside any region, a run of `n` opening braces followed by other text
   * opens a region just after the run exactly when `n` is odd (the braces
   * pair up as `{{` escapes, and an odd one out opens the region); an even
   * run is skipped whole.
   */
  lemma OpeningRunParity(s: string, st: ScanState)
    requires st.index < |s| && st.depth == 0 && s[st.index] == '{'
    requires st.index + RunLength(s, st.index, '{') < |s|
    ensures var i, n := st.index, RunLength(s, st.index, '{');
      Step(s, st)
      == if n % 2 == 1 then st.(index := i + n, starts := st.starts + [i + n], depth := 1)
         else st.(index := i + n)
  {
    StepOutside(s, st);
    OpenRunLength(s, st.index);
    OpenBraceStep(s, st);
    var n, j := RunLength(s, st.index, '{'), OpenRun(s, st.index);
    if n % 2 == 1 {
      assert j % 2 == 0;
    } else {
      assert j % 2 == 1;
    }
  }

  /**
   * A run of `n` opening braces that reaches the end of the string is
   * counted one short: a run of even length opens a region before its last
   * brace, and a run of odd length of at least three opens none and leaves
   * its last brace to the next iteration.
   */
  lemma OpeningRunAtEnd(s: string, st: ScanState)
    requires st.index < |s| && st.depth == 0 && s[st.index] == '{'
    requires st.index + RunLength(s, st.index, '{') == |s| && RunLength(s, st.index, '{') >= 2
    ensures var i, n := st.index, RunLength(s, st.index, '{');
      Step(s, st)
      == if n % 2 == 0 then st.(index := i + n - 1, starts := st.starts + [i + n - 1], depth := 1)
         else st.(index := i + n - 1)
  {
    StepOutside(s, st);
    OpenRunLength(s, st.index);
    OpenBraceStep(s, st);
    var n, j := RunLength(s, st.index, '{'), OpenRun(s, st.index);
    if n % 2 == 0 {
      assert j % 2 == 0;
    } else {
      assert j % 2 == 1;
    }
  }

  /** A single `{` at the end of the string opens a region that starts at the end. */
  lemma LoneBraceAtEnd(s: string, st: ScanState)
    requires st.index == |s| - 1 && st.depth == 0 && s[st.index] == '{'
    ensures Step(s, st) == st.(index := |s|, starts := st.starts + [|s|], depth := 1)
  {
    StepOutside(s, st);
    assert OpenRun(s, st.index) == 0;
  }

  /** Outside any region the quote flags stay as they are, so a step is the brace update. */
  lemma StepOutside(s: string, st: ScanState)
    requires st.index < |s| && st.depth == 0
    ensures Step(s, st) == BraceStep(s, st).(index := BraceStep(s, st).index + 1)
  {
    assert QuoteStep(s, st) == st;
  }

  /** `OpenRun` in terms of the length of the whole run of `{` starting at `i`. */
  lemma OpenRunLength(s: string, i: nat)
    requires i < |s| && s[i] == '{'
    ensures var n := RunLength(s, i, '{');
      OpenRun(s, i) == if i + n < |s| then n - 1 else if n == 1 then 0 else n - 2
  {
    assert RunLength(s, i, '{') == 1 + RunLength(s, i + 1, '{');
  }

  /** Line 58-68 at depth 0: an opening run of even `j` opens a region. */
  lemma OpenBraceStep(s: string, st: ScanState)
    requires st.index < |s| && st.depth == 0 && s[st.index] == '{'
    ensures var j := OpenRun(s, st.index);
      BraceStep(s, st)
      == if j % 2 == 0 then st.(index := st.index + j, starts := st.starts + [st.index + j + 1], depth := 1)
         else st.(index := st.index + j)
  {
  }

  /**
   * At depth 1 outside single and double quotes, a run of `n` closing braces
   * closes the region at its first brace exactly when `n` is odd; the rest
   * of the run is skipped as `}}` escapes, and so is an even run whole.
   */
  lemma ClosingRunParity(s: string, st: ScanState)
    requires st.index < |s| && st.depth == 1 && !st.single && !st.double && s[st.index] == '}'
    ensures var i, n := st.index, RunLength(s, st.index, '}');
      Step(s, st)
      == if n % 2 == 1 then st.(index := i + n, stops := st.stops + [i], depth := 0)
         else st.(index := i + n)
  {
    assert RunLength(s, st.index, '}') == 1 + RunLength(s, st.index + 1, '}');
  }

  /**
   * Inside a region, a quote character followed by two more of the same
   * toggles only the triple-quote flag, and the index moves on by one, so
   * the next two quotes are scanned again.
   */
  lemma TripleQuoteToggles(s: string, st: ScanState)
    requires st.index < |s| && st.depth > 0
    requires (s[st.index] == '\'' && !st.double) || (s[st.index] == '"' && !st.single)
    requires FollowedByTwo(s, st.index, s[st.index])
    ensures Step(s, st) == st.(triple := !st.triple, index := st.index + 1)
  {
  }

  /**
   * The triple-quote flag does not shield braces: outside single and double
   * quotes, a `{` inside a region deepens it and a `}` below depth 1
   * shallows it, whatever the triple-quote flag is.
   */
  lemma TripleQuoteKeepsCounting(s: string, st: ScanState)
    requires st.index < |s| && st.depth > 0 && !st.single && !st.double
    ensures s[st.index] == '{' ==> Step(s, st) == st.(index := st.index + 1, depth := st.depth + 1)
    ensures s[st.index] == '}' && st.depth > 1 ==> Step(s, st) == st.(index := st.index + 1, depth := st.depth - 1)
  {
  }

  /** `"{'''x'''}"`: a triple-quoted string without braces leaves one region, spanning offsets 1 to 8. */
  lemma TripleQuotedRegion(s: string)
    requires s == "{'''x'''}"
    ensures Scan(s) == Ok([(1, 8)])
  {
    assert Run(s, Initial) == ScanState(9, 0, false, false, false, [1], [8]) by {
      assert TripleQuoted(s, 'x');
      TripleQuotedRun(s, 'x');
    }
    assert Zip([1], [8]) == [(1, 8)];
  }

  /**
   * `"{'''{'''}"` fails: the `{` between the triple quotes still counts,
   * so the `}` only brings the depth back to 1.
   */
  lemma TripleQuotedBraceCounts(s: string)
    requires s == "{'''{'''}"
    ensures Scan(s) == Err(MismatchedBraces)
  {
    assert Run(s, Initial) == ScanState(9, 1, false, false, false, [1], []) by {
      assert TripleQuoted(s, '{');
      TripleQuotedRun(s, '{');
    }
  }

  /** `s` is `"{'''" + [c] + "'''}"`, stated character by character. */
  predicate TripleQuoted(s: string, c: char) {
    && |s| == 9 && s[0] == '{' && s[4] == c && s[8] == '}'
    && s[1] == s[2] == s[3] == s[5] == s[6] == s[7] == '\''
  }

  /** The scan of a `TripleQuoted` string for a `c` that is not a quote or a `}`. */
  lemma TripleQuotedRun(s: string, c: char)
    requires TripleQuoted(s, c) && c != '\'' && c != '"' && c != '}'
    ensures Run(s, Initial)
      == if c == '{' then ScanState(9, 1, false, false, false, [1], [])
         else ScanState(9, 0, false, false, false, [1], [8])
  {
    var inner := if c == '{' then 2 else 1;
    OpeningTripleQuote(s, c);
    ClosingTripleQuote(s, c, inner);
  }

  /** The opening brace, the opening triple quote and the middle character. */
  lemma OpeningTripleQuote(s: string, c: char)
    requires TripleQuoted(s, c) && c != '\'' && c != '"' && c != '}'
    ensures Run(s, Initial) == Run(s, ScanState(5, if c == '{' then 2 else 1, false, false, true, [1], []))
  {
    var st1 := ScanState(1, 1, false, false, false, [1], []);
    assert Run(s, Initial) == Run(s, st1) by {
      RunLengthUnique(s, 0, '{', 1);
      OpeningRunParity(s, Initial);
      assert Initial.starts + [1] == [1];
      RunUnfold(s, Initial);
    }
    TripleQuoteOpened(s, c);
  }

  /** From just inside the region: the triple quote, its last two quotes again, and the middle character. */
  lemma TripleQuoteOpened(s: string, c: char)
    requires TripleQuoted(s, c) && c != '\'' && c != '"' && c != '}'
    ensures Run(s, ScanState(1, 1, false, false, false, [1], []))
      == Run(s, ScanState(5, if c == '{' then 2 else 1, false, false, true, [1], []))
  {
    var st1 := ScanState(1, 1, false, false, false, [1], []);
    var st2 := ScanState(2, 1, false, false, true, [1], []);
    var st3 := ScanState(3, 1, false, false, true, [1], []);
    var st4 := ScanState(4, 1, false, false, true, [1], []);
    assert Run(s, st1) == Run(s, st2) by {
      TripleQuoteToggles(s, st1);
      RunUnfold(s, st1);
    }
    assert Run(s, st2) == Run(s, st3) by {
      assert !FollowedByTwo(s, 2, '\'');
      RunUnfold(s, st2);
    }
    assert Run(s, st3) == Run(s, st4) by {
      assert !FollowedByTwo(s, 3, '\'');
      RunUnfold(s, st3);
    }
    TripleQuoteKeepsCounting(s, st4);
    RunUnfold(s, st4);
  }

  /** The closing triple quote, read as a triple quote and then a pair of single quotes, and the closing brace. */
  lemma ClosingTripleQuote(s: string, c: char, inner: nat)
    requires TripleQuoted(s, c) && (inner == 1 || inner == 2)
    ensures Run(s, ScanState(5, inner, false, false, true, [1], []))
      == if inner == 2 then ScanState(9, 1, false, false, false, [1], [])
         else ScanState(9, 0, false, false, false, [1], [8])
  {
    var st5 := ScanState(5, inner, false, false, true, [1], []);
    var st6 := ScanState(6, inner, false, false, false, [1], []);
    var st7 := ScanState(7, inner, true, false, false, [1], []);
    var st8 := ScanState(8, inner, false, false, false, [1], []);
    assert Run(s, st5) == Run(s, st6) by {
      TripleQuoteToggles(s, st5);
      RunUnfold(s, st5);
    }
    assert Run(s, st6) == Run(s, st7) by {
      assert !FollowedByTwo(s, 6, '\'');
      RunUnfold(s, st6);
    }
    assert Run(s, st7) == Run(s, st8) by {
      assert !FollowedByTwo(s, 7, '\'');
      RunUnfold(s, st7);
    }
    if inner == 2 {
      TripleQuoteKeepsCounting(s, st8);
    } else {
      RunLengthUnique(s, 8, '}', 1);
      ClosingRunParity(s, st8);
      assert st8.stops + [8] == [8];
    }
    RunUnfold(s, st8);
  }

  /** `"{{"` fails: its opening run reaches the end, so it is counted one short and opens a region. */
  lemma DoubledBraceAtEndRaises()
    ensures Scan("{{") == Err(MismatchedBraces)
  {
    DoubledBraceRun("{{");
  }

  /** The scan of `"{{"` ends at depth 2. */
  lemma DoubledBraceRun(s: string)
    requires s == "{{"
    ensures Run(s, Initial).depth == 2
  {
    var st1 := ScanState(1, 1, false, false, false, [1], []);
    assert Run(s, Initial) == Run(s, st1) by {
      RunLengthUnique(s, 0, '{', 2);
      OpeningRunAtEnd(s, Initial);
      assert Initial.starts + [1] == [1];
      RunUnfold(s, Initial);
    }
    TripleQuoteKeepsCounting(s, st1);
    RunUnfold(s, st1);
  }

  /** `"{{}}"` is two escapes and no region. */
  lemma EscapedBracesOpenNoRegion()
    ensures Scan("{{}}") == Ok([])
  {
    var s := "{{}}";
    assert RunLength(s, 1, '{') == 1 by { RunLengthUnique(s, 1, '{', 1); }
    var st1 := Step(s, Initial);
    assert st1 == ScanState(2, 0, false, false, false, [], []);
    var st2 := Step(s, st1);
    assert st2 == ScanState(3, 0, false, false, false, [], []);
    var st3 := Step(s, st2);
    assert st3 == ScanState(4, 0, false, false, false, [], []);
  }

  /** `"{'{'}"`: the quoted brace does not count, and the region spans offsets 1 to 4. */
  lemma QuotedBraceIsNotStructural(s: string)
    requires s == "{'{'}"
    ensures Scan(s) == Ok([(1, 4)])
  {
    QuotedBraceRun(s);
    assert Zip([1], [4]) == [(1, 4)];
  }

  lemma QuotedBraceRun(s: string)
    requires s == "{'{'}"
    ensures Run(s, Initial) == ScanState(5, 0, false, false, false, [1], [4])
  {
    var st1 := ScanState(1, 1, false, false, false, [1], []);
    var st2 := ScanState(2, 1, true, false, false, [1], []);
    var st3 := ScanState(3, 1, true, false, false, [1], []);
    var st4 := ScanState(4, 1, false, false, false, [1], []);
    var st5 := ScanState(5, 0, false, false, false, [1], [4]);
    assert Run(s, Initial) == Run(s, st1) by {
      assert s[0] == '{' && s[1] != '{';
      assert RunLength(s, 1, '{') == 0;
      assert OpenRun(s, 0) == 0;
      assert QuoteStep(s, Initial) == Initial;
      assert BraceStep(s, Initial) == ScanState(0, 1, false, false, false, [1], []);
      RunUnfold(s, Initial);
    }
    assert Run(s, st1) == Run(s, st2) by {
      assert !FollowedByTwo(s, 1, '\'');
      RunUnfold(s, st1);
    }
    assert Run(s, st2) == Run(s, st3) by {
      RunUnfold(s, st2);
    }
    assert Run(s, st3) == Run(s, st4) by {
      assert !FollowedByTwo(s, 3, '\'');
      RunUnfold(s, st3);
    }
    assert Run(s, st4) == st5 by {
      assert CloseRun(s, 4) == 0;
      RunUnfold(s, st4);
    }
  }
}
