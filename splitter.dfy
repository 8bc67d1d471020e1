/**
 * The specifier splitter `split_format_language` (fstr/utils.py:1-30).
 *
 * It splits the interior of one region at the first character that is a
 * `:`, or a `!` not starting `!=`, at which the three bracket depths are all
 * zero and no quote flag is set.  The text before is the expression, the rest
 * (right-stripped) the format language; a `{` in the format language before
 * its first `:` is rejected.
 *
 * `Track` is one iteration of the source's `for` loop over the depth and
 * quote dictionaries, `StateAfter` its effect on a prefix, `Split` the whole
 * function; the method `SplitFormatLanguage` is the loop itself.
 */
module Splitter {
  import opened Text

  /** The `depths` dictionary (`{}`, `[]`, `()`) and the `quotations` dictionary. */
  datatype Depths = Depths(curly: int, square: int, round: int, single: bool, double: bool)

  const Start := Depths(0, 0, 0, false, false)

  /** Lines 8-15: one character's effect on the depths and the quote flags. */
  function Track(d: Depths, c: char): Depths {
    Depths(
      if c == '{' then d.curly + 1 else if c == '}' then d.curly - 1 else d.curly,
      if c == '[' then d.square + 1 else if c == ']' then d.square - 1 else d.square,
      if c == '(' then d.round + 1 else if c == ')' then d.round - 1 else d.round,
      if c == '\'' then !d.single else d.single,
      if c == '"' then !d.double else d.double)
  }

  /** The dictionaries after the loop has seen `s[..n]`. */
  function StateAfter(s: string, n: nat): Depths
    requires n <= |s|
  {
    if n == 0 then Start else Track(StateAfter(s, n - 1), s[n - 1])
  }

  /** Line 16: every depth is zero and no quote is open (a negative depth does not qualify). */
  predicate Outermost(d: Depths) {
    d.curly == 0 && d.square == 0 && d.round == 0 && !d.single && !d.double
  }

  /** Lines 17-20: a `:`, or a `!` whose two-character slice is not `!=`. */
  predicate Delimiter(s: string, k: nat)
    requires k < |s|
  {
    || (s[k] == '!' && s[k..if k + 2 <= |s| then k + 2 else |s|] != "!=")
    || s[k] == ':'
  }

  /** The loop breaks at `k`. */
  predicate SplitsAt(s: string, k: nat)
    requires k < |s|
  {
    Outermost(StateAfter(s, k + 1)) && Delimiter(s, k)
  }

  /** The first `k >= from` at which the loop breaks, or `|s|` when there is none. */
  function FirstSplit(s: string, from: nat): (i: nat)
    requires from <= |s|
    ensures from <= i <= |s|
    ensures i < |s| ==> SplitsAt(s, i)
    ensures forall k :: from <= k < i ==> !SplitsAt(s, k)
    decreases |s| - from
  {
    if from == |s| then |s|
    else if SplitsAt(s, from) then from
    else FirstSplit(s, from + 1)
  }

  /** The `index` after the loop: the first split point, or `len(string)` via the `else` clause. */
  function SplitIndex(s: string): (i: nat)
    ensures i <= |s|
    ensures i < |s| ==> SplitsAt(s, i)
    ensures forall k :: 0 <= k < i ==> !SplitsAt(s, k)
  {
    FirstSplit(s, 0)
  }

  /** Any index with the two defining properties of `SplitIndex` is `SplitIndex`. */
  lemma SplitIndexUnique(s: string, i: nat)
    requires i <= |s|
    requires i < |s| ==> SplitsAt(s, i)
    requires forall k :: 0 <= k < i ==> !SplitsAt(s, k)
    ensures SplitIndex(s) == i
  {
  }

  /**
   * `split_format_language(s)`: the expression is the prefix of `s` up to the
   * split point and the format language the rest, right-stripped; with no
   * split point the expression is all of `s` and the format language empty.
   * A non-empty format language begins with `!` or `:`.  The call fails
   * exactly when the format language has a `{` before its first `:`.
   */
  function Split(s: string): (r: Result<(string, string)>)
    ensures r.Ok? ==> var (expression, formatting) := r.value;
      && |expression| == SplitIndex(s)
      && expression == s[..|expression|]
      && |expression| + |formatting| <= |s|
      && formatting == RStrip(s[|expression|..])
      && (|expression| == |s| ==> formatting == [])
      && (formatting != [] ==> formatting[0] == '!' || formatting[0] == ':')
    ensures r.Err? <==> '{' in BeforeColon(RStrip(s[SplitIndex(s)..]))
    ensures r.Err? ==> r.error == DynamicConversion
  {
    var index := SplitIndex(s);
    var expression := s[..index];
    var formatting := RStrip(s[index..]);
    assert formatting != [] ==> formatting[0] == s[index];
    if '{' in BeforeColon(formatting) then Err(DynamicConversion)
    else Ok((expression, formatting))
  }

  /** `split_format_language`: the loop over the characters, with `break` and `else`. */
  method SplitFormatLanguage(s: string) returns (r: Result<(string, string)>)
    ensures r == Split(s)
  {
    var curly, square, round := 0, 0, 0;
    var single, double := false, false;
    var index := |s|;
    var i := 0;
    while i < |s|
      invariant i <= |s|
      invariant Depths(curly, square, round, single, double) == StateAfter(s, i)
      invariant forall k :: 0 <= k < i ==> !SplitsAt(s, k)
      invariant index == |s|
    {
      var c := s[i];
      if c == '{' { curly := curly + 1; } else if c == '}' { curly := curly - 1; }
      if c == '[' { square := square + 1; } else if c == ']' { square := square - 1; }
      if c == '(' { round := round + 1; } else if c == ')' { round := round - 1; }
      if c == '\'' { single := !single; }
      if c == '"' { double := !double; }
      assert Depths(curly, square, round, single, double) == StateAfter(s, i + 1);
      if !(curly != 0 || square != 0 || round != 0 || single || double) {
        if c == '!' && s[i..if i + 2 <= |s| then i + 2 else |s|] != "!=" {
          index := i;
          break;
        } else if c == ':' {
          index := i;
          break;
        }
      }
      i := i + 1;
    }
    SplitIndexUnique(s, index);
    var expression := s[..index];
    var formatting := RStrip(s[index..]);
    if '{' in BeforeColon(formatting) {
      return Err(DynamicConversion);
    }
    return Ok((expression, formatting));
  }

  /** Without any `(`, the round depth never rises between two points. */
  lemma {:induction false} RoundDepthNeverRises(s: string, a: nat, b: nat)
    requires a <= b <= |s|
    requires forall k :: 0 <= k < |s| ==> s[k] != '('
    ensures StateAfter(s, b).round <= StateAfter(s, a).round
    decreases b - a
  {
    if a < b {
      RoundDepthNeverRises(s, a, b - 1);
    }
  }

  /**
   * An unmatched `)` drives the round depth negative for good: no split
   * happens at or after it, since only all-zero depths allow one.
   */
  lemma UnmatchedCloserSuppressesSplit(s: string, k: nat)
    requires k < |s| && s[k] == ')'
    requires forall m :: 0 <= m < |s| ==> s[m] != '('
    ensures forall i :: k <= i < |s| ==> !SplitsAt(s, i)
    ensures SplitIndex(s) <= k || SplitIndex(s) == |s|
  {
    RoundDepthNeverRises(s, 0, k);
    assert StateAfter(s, k + 1).round == StateAfter(s, k).round - 1;
    forall i | k <= i < |s|
      ensures !SplitsAt(s, i)
    {
      RoundDepthNeverRises(s, k + 1, i + 1);
    }
  }

  /** `3!=4` has no split point: `!=` is a comparison, not a conversion. */
  lemma NotEqualIsNotAConversion(s: string)
    requires s == "3!=4"
    ensures Split(s) == Ok((s, ""))
  {
    assert StateAfter(s, 1) == Start;
    assert StateAfter(s, 2) == Start;
    assert StateAfter(s, 3) == Start;
    assert StateAfter(s, 4) == Start;
    assert !SplitsAt(s, 0) && !SplitsAt(s, 2) && !SplitsAt(s, 3);
    assert s[1..3] == "!=";
    assert !SplitsAt(s, 1);
    SplitIndexUnique(s, 4);
    assert s[..4] == s && s[4..] == [];
  }

  /** `x!r` splits into the expression `x` and the conversion `!r`. */
  lemma ConversionSplits(s: string)
    requires s == "x!r"
    ensures Split(s) == Ok(("x", "!r"))
  {
    assert StateAfter(s, 1) == Start;
    assert StateAfter(s, 2) == Start;
    assert !SplitsAt(s, 0);
    assert s[1..3] == "!r";
    assert SplitsAt(s, 1);
    SplitIndexUnique(s, 1);
    assert s[..1] == "x" && s[1..] == "!r";
    assert RStrip("!r") == "!r";
    assert BeforeColon("!r") == "!r";
  }

  /** `'s'!{'r'}` is rejected: a conversion may not be a nested expression. */
  lemma DynamicConversionRejected(s: string)
    requires s == "'s'!{'r'}"
    ensures Split(s) == Err(DynamicConversion)
  {
    assert StateAfter(s, 1) == Depths(0, 0, 0, true, false);
    assert StateAfter(s, 2) == Depths(0, 0, 0, true, false);
    assert StateAfter(s, 3) == Start;
    assert StateAfter(s, 4) == Start;
    assert !SplitsAt(s, 0) && !SplitsAt(s, 1) && !SplitsAt(s, 2);
    assert s[3..5] == "!{";
    assert SplitsAt(s, 3);
    SplitIndexUnique(s, 3);
    assert RStrip(s[3..]) == "!{'r'}";
    assert BeforeColon("!{'r'}") == "!{'r'}";
  }
}
