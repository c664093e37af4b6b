/**
 * Tokens of one command line, as the tokenizer hands them to the parsers:
 * each token carries its text and the offsets it occupies in the original
 * line, so that any run of tokens can be mapped back to the exact text the
 * user typed.
 */
module Tokens {

  /** One whitespace-delimited token and its half-open span [start, end) in the line. */
  datatype Token = Token(token: string, start: nat, end: nat)

  /** The tokens were cut from `line`: each span holds its text, and the spans are in order. */
  ghost predicate Valid(line: string, ts: seq<Token>)
  {
    && (forall i :: 0 <= i < |ts| ==>
          ts[i].start <= ts[i].end <= |line| && line[ts[i].start..ts[i].end] == ts[i].token)
    && (forall i, j :: 0 <= i < j < |ts| ==> ts[i].end <= ts[j].start)
  }

  /** `u` is what is left of `ts` after dropping some leading tokens. */
  predicate IsSuffix<T(==)>(u: seq<T>, ts: seq<T>)
  {
    |u| <= |ts| && u == ts[|ts| - |u|..]
  }

  lemma SuffixTransitive<T>(a: seq<T>, b: seq<T>, c: seq<T>)
    requires IsSuffix(a, b) && IsSuffix(b, c)
    ensures IsSuffix(a, c)
  {
    assert b[|b| - |a|..] == c[|c| - |b|..][|b| - |a|..];
  }

  /** An index clamped into [0, n], as JavaScript's `String.prototype.substring` does. */
  function Clamp(i: int, n: nat): (r: nat)
    ensures r <= n
    ensures 0 <= i <= n ==> r == i
  {
    if i < 0 then 0 else if i > n then n else i
  }

  /**
   * JavaScript's `s.substring(a, b)`: both ends are clamped to the string and
   * swapped when the first exceeds the second.
   */
  function JsSubstring(s: string, a: int, b: int): (r: string)
    ensures 0 <= a <= b <= |s| ==> r == s[a..b]
    ensures 0 <= b <= a <= |s| ==> r == s[b..a]
  {
    var x, y := Clamp(a, |s|), Clamp(b, |s|);
    if x <= y then s[x..y] else s[y..x]
  }

  /** The original text from the start of `from` to the end of `to`, spacing included. */
  function Span(line: string, from: Token, to: Token): string
  {
    JsSubstring(line, from.start, to.end)
  }

  /** The original text from the first token onward; the empty string when there is no token. */
  function SpanFrom(line: string, ts: seq<Token>): string
  {
    if |ts| == 0 then "" else JsSubstring(line, ts[0].start, |line|)
  }

  /** The texts of the tokens, in order. */
  function Texts(ts: seq<Token>): (r: seq<string>)
    ensures |r| == |ts|
    ensures forall i :: 0 <= i < |ts| ==> r[i] == ts[i].token
  {
    seq(|ts|, i requires 0 <= i < |ts| => ts[i].token)
  }

  /** JavaScript's `parts.join(sep)`. */
  function Join(parts: seq<string>, sep: string): string
    decreases |parts|
  {
    if |parts| == 0 then ""
    else if |parts| == 1 then parts[0]
    else parts[0] + sep + Join(parts[1..], sep)
  }

  /** Joining with no separator places the parts back to back. */
  lemma {:induction false} JoinEmptySeparator(parts: seq<string>, last: string)
    ensures Join(parts + [last], "") == Join(parts, "") + last
    decreases |parts|
  {
    if |parts| == 0 {
      assert parts + [last] == [last];
    } else if |parts| == 1 {
      assert (parts + [last])[1..] == [last];
    } else {
      assert (parts + [last])[1..] == parts[1..] + [last];
      JoinEmptySeparator(parts[1..], last);
    }
  }

  /** On valid tokens the span of a run of tokens is a plain slice of the line. */
  lemma SpanIsSlice(line: string, ts: seq<Token>, k: nat)
    requires Valid(line, ts) && k < |ts|
    ensures ts[0].start <= ts[k].end <= |line|
    ensures Span(line, ts[0], ts[k]) == line[ts[0].start..ts[k].end]
    ensures Span(line, ts[0], ts[k])[..|ts[0].token|] == ts[0].token
  {
    if k > 0 {
      assert ts[0].end <= ts[k].start;
    }
    assert line[ts[0].start..ts[k].end][..|ts[0].token|] == line[ts[0].start..ts[0].end];
  }

  /** The tokens follow each other separated by exactly one space and run to the end of the line. */
  ghost predicate SingleSpaced(line: string, ts: seq<Token>)
  {
    && Valid(line, ts)
    && (forall i :: 0 <= i < |ts| - 1 ==> ts[i + 1].start == ts[i].end + 1 && line[ts[i].end] == ' ')
    && (|ts| > 0 ==> ts[|ts| - 1].end == |line|)
  }

  /** On a single-spaced line, joining the token texts with spaces rebuilds the original text. */
  lemma {:induction false} JoinRebuildsSingleSpaced(line: string, ts: seq<Token>)
    requires SingleSpaced(line, ts) && |ts| > 0
    ensures Join(Texts(ts), " ") == line[ts[0].start..]
    decreases |ts|
  {
    if |ts| > 1 {
      var tail := ts[1..];
      assert Texts(ts)[1..] == Texts(tail);
      assert SingleSpaced(line, tail) by {
        forall i | 0 <= i < |tail| - 1
          ensures tail[i + 1].start == tail[i].end + 1 && line[tail[i].end] == ' '
        {
          assert tail[i] == ts[i + 1] && tail[i + 1] == ts[i + 2];
        }
      }
      JoinRebuildsSingleSpaced(line, tail);
      calc {
        Join(Texts(ts), " ");
        ts[0].token + " " + Join(Texts(tail), " ");
        line[ts[0].start..ts[0].end] + [line[ts[0].end]] + line[ts[1].start..];
        { assert ts[1].start == ts[0].end + 1; }
        line[ts[0].start..];
      }
    }
  }
}
