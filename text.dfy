/**
 * Values shared by the scanner, the splitter and the template: the result
 * and error types, and the few Python `str` operations the core relies on
 * (`strip`, `rstrip`, `replace("\n", "")`, `split(":")[0]`, `"".join`).
 */
module Text {

  datatype Option<+T> = None | Some(value: T)

  /** The failures the core raises, one constructor per `raise`. */
  datatype Error =
    | MismatchedBraces                      // the scanner ends inside a region
    | DynamicConversion                     // a `{` before the format spec's `:`
    | EmptyExpression(offset: int)          // a region whose expression is blank
    | InvalidSyntax(expression: string)     // `compile` rejected a stored expression
    | CouldNotEvaluate(expression: string)  // evaluating a compiled expression raised
    | FormatRejected                        // `str.format` rejected the assembled template

  datatype Result<+T> = Ok(value: T) | Err(error: Error)

  /** Python 3's `str.isspace`: the characters `strip()` removes. */
  predicate IsSpace(c: char) {
    || ('\t' <= c <= '\r')                 // tab, line feed, vertical tab, form feed, carriage return
    || ('\U{1C}' <= c <= '\U{1F}')         // file, group, record and unit separators
    || c == ' ' || c == '\U{85}' || c == '\U{A0}' || c == '\U{1680}'
    || ('\U{2000}' <= c <= '\U{200A}')
    || c == '\U{2028}' || c == '\U{2029}' || c == '\U{202F}' || c == '\U{205F}' || c == '\U{3000}'
  }

  /** `s.rstrip()`: the longest prefix of `s` that does not end in whitespace. */
  function RStrip(s: string): (r: string)
    ensures |r| <= |s| && r == s[..|r|]
    ensures r == [] || !IsSpace(r[|r| - 1])
    ensures forall k :: |r| <= k < |s| ==> IsSpace(s[k])
  {
    if s == [] || !IsSpace(s[|s| - 1]) then s else RStrip(s[..|s| - 1])
  }

  /** `s.lstrip()`: `s` without its leading whitespace. */
  function LStrip(s: string): (r: string)
    ensures |r| <= |s| && (r == [] || r[|r| - 1] == s[|s| - 1])
    ensures r == [] || !IsSpace(r[0])
    ensures forall k :: 0 <= k < |s| - |r| ==> IsSpace(s[k])
  {
    if s == [] || !IsSpace(s[0]) then s else LStrip(s[1..])
  }

  /** `s.strip()`: `s` without its leading and trailing whitespace. */
  function Strip(s: string): (r: string)
    ensures |r| <= |s|
    ensures r == [] || (!IsSpace(r[0]) && !IsSpace(r[|r| - 1]))
  {
    LStrip(RStrip(s))
  }

  /** `strip()` leaves nothing exactly when every character is whitespace. */
  lemma StripBlank(s: string)
    ensures Strip(s) == [] <==> forall k :: 0 <= k < |s| ==> IsSpace(s[k])
  {
    var t := RStrip(s);
    assert t != [] ==> t[|t| - 1] == s[|t| - 1];
    assert LStrip(t) == [] ==> t == [];
  }

  /** `s.replace("\n", "")`. */
  function RemoveNewlines(s: string): (r: string)
    ensures '\n' !in r
    ensures |r| <= |s|
  {
    if s == [] then []
    else if s[0] == '\n' then RemoveNewlines(s[1..])
    else [s[0]] + RemoveNewlines(s[1..])
  }

  /** Removing the newlines keeps every other character. */
  lemma {:induction false} RemoveNewlinesKeeps(s: string, c: char)
    requires c != '\n'
    ensures c in RemoveNewlines(s) <==> c in s
  {
    if s != [] {
      RemoveNewlinesKeeps(s[1..], c);
      assert s == [s[0]] + s[1..];
    }
  }

  /** `s.split(":")[0]`: the text before the first colon, or all of `s`. */
  function BeforeColon(s: string): (r: string)
    ensures |r| <= |s| && r == s[..|r|]
    ensures ':' !in r
    ensures |r| == |s| || s[|r|] == ':'
  {
    if s == [] || s[0] == ':' then [] else [s[0]] + BeforeColon(s[1..])
  }

  /** `"".join(parts)`. */
  function Concat(parts: seq<string>): string {
    if parts == [] then [] else Concat(parts[..|parts| - 1]) + parts[|parts| - 1]
  }

  lemma ConcatSingle(s: string)
    ensures Concat([s]) == s
  {
    assert [s][..0] == [];
  }

  lemma {:induction false} ConcatAppend(a: seq<string>, b: seq<string>)
    ensures Concat(a + b) == Concat(a) + Concat(b)
    decreases |b|
  {
    if b == [] {
      assert a + b == a;
    } else {
      var b' := b[..|b| - 1];
      assert (a + b)[..|a + b| - 1] == a + b';
      ConcatAppend(a, b');
    }
  }
}
