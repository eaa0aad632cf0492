/** The two JavaScript string operations the pages rely on:
    `String.prototype.trim` (the blank-note check) and `split('.')` (the first
    step of token decoding). */
module JsText {

  /** ECMAScript WhiteSpace and LineTerminator code points: what `trim` strips. */
  predicate IsWhitespace(c: char) {
    || c == '\t' || c == '\n' || c == '\U{B}' || c == '\U{C}' || c == '\r'
    || c == ' ' || c == '\U{A0}' || c == '\U{1680}'
    || ('\U{2000}' <= c <= '\U{200A}')
    || c == '\U{2028}' || c == '\U{2029}' || c == '\U{202F}' || c == '\U{205F}'
    || c == '\U{3000}' || c == '\U{FEFF}'
  }

  /** A string that `trim` turns into "" (the falsy case of `!s.trim()`). */
  predicate IsBlank(s: string) {
    forall i :: 0 <= i < |s| ==> IsWhitespace(s[i])
  }

  /** `s.trimStart()`: the suffix of `s` after its leading whitespace. */
  function TrimStart(s: string): (r: string)
    ensures |r| <= |s| && r == s[|s| - |r|..]
    ensures forall i :: 0 <= i < |s| - |r| ==> IsWhitespace(s[i])
    ensures r == [] || !IsWhitespace(r[0])
  {
    if |s| > 0 && IsWhitespace(s[0]) then TrimStart(s[1..]) else s
  }

  /** `s.trimEnd()`: the prefix of `s` before its trailing whitespace. */
  function TrimEnd(s: string): (r: string)
    ensures |r| <= |s| && r == s[..|r|]
    ensures forall i :: |r| <= i < |s| ==> IsWhitespace(s[i])
    ensures r == [] || !IsWhitespace(r[|r| - 1])
  {
    if |s| > 0 && IsWhitespace(s[|s| - 1]) then TrimEnd(s[..|s| - 1]) else s
  }

  /** `s.trim()`: `s` without its leading and trailing whitespace (a prefix of
      `TrimStart(s)`, which is itself a suffix of `s`), with non-whitespace at
      both ends; empty exactly for blank strings. */
  function Trim(s: string): (r: string)
    ensures r == [] || (!IsWhitespace(r[0]) && !IsWhitespace(r[|r| - 1]))
    ensures r == [] <==> IsBlank(s)
    ensures r <= TrimStart(s)
    ensures forall i :: |r| <= i < |TrimStart(s)| ==> IsWhitespace(TrimStart(s)[i])
  {
    TrimEmptyOnlyIfBlank(s);
    TrimEnd(TrimStart(s))
  }

  /** When nothing is left after trimming both ends, every character was
      whitespace. */
  lemma {:induction false} TrimEmptyOnlyIfBlank(s: string)
    ensures TrimEnd(TrimStart(s)) == [] ==> IsBlank(s)
  {
    var t := TrimStart(s);
    if TrimEnd(t) == [] {
      // `t` starts with non-whitespace and `TrimEnd` dropped all of it, so
      // `t` is empty and `TrimStart` dropped every character of `s`.
      assert t == [];
    }
  }

  /** Index of the first '.' in `s`. */
  function FirstDot(s: string): (i: nat)
    requires '.' in s
    ensures i < |s| && s[i] == '.' && '.' !in s[..i]
  {
    if s[0] == '.' then 0
    else
      assert '.' in s[1..] by {
        var j :| 0 <= j < |s| && s[j] == '.';
        assert s[1..][j - 1] == '.';
      }
      var j := FirstDot(s[1..]);
      assert s[..j + 1] == [s[0]] + s[1..][..j];
      j + 1
  }

  /** The inverse of `Split`: segments glued back together with '.'. */
  function Join(parts: seq<string>): string
    requires |parts| > 0
  {
    if |parts| == 1 then parts[0] else parts[0] + "." + Join(parts[1..])
  }

  predicate DotFree(parts: seq<string>) {
    forall i :: 0 <= i < |parts| ==> '.' !in parts[i]
  }

  /** `s.split('.')`: the maximal dot-free segments of `s`, in order; always at
      least one (possibly empty) segment. */
  function Split(s: string): (parts: seq<string>)
    ensures |parts| >= 1
    ensures DotFree(parts)
    ensures Join(parts) == s
    ensures |parts| == 1 <==> '.' !in s
    ensures parts[0] <= s && (|parts[0]| == |s| || s[|parts[0]|] == '.')
    decreases |s|
  {
    if '.' in s then
      var i := FirstDot(s);
      var rest := Split(s[i + 1..]);
      assert s == s[..i] + "." + s[i + 1..];
      [s[..i]] + rest
    else
      [s]
  }

  /** The first dot after a dot-free prefix is the one that ends it. */
  lemma {:induction false} FirstDotAfter(a: string, rest: string)
    requires '.' !in a && |rest| > 0 && rest[0] == '.'
    ensures '.' in a + rest && FirstDot(a + rest) == |a|
    decreases |a|
  {
    var s := a + rest;
    assert s[|a|] == '.';
    if |a| > 0 {
      assert s[0] == a[0];
      assert s[1..] == a[1..] + rest;
      FirstDotAfter(a[1..], rest);
    }
  }

  /** A dot-free `a` followed by nothing or by a '.' is the first segment of
      the split, and the remaining segments are those of what follows the dot. */
  lemma SplitCons(a: string, rest: string)
    requires '.' !in a && (rest == "" || rest[0] == '.')
    ensures Split(a + rest)[0] == a
    ensures rest != "" ==> Split(a + rest)[1..] == Split(rest[1..])
  {
    var s := a + rest;
    if rest == "" {
      assert s == a;
    } else {
      FirstDotAfter(a, rest);
      var i := FirstDot(s);
      assert s[..i] == a && s[i + 1..] == rest[1..];
    }
  }

  /** One step of `split('.')`: the text before the first dot, then the
      segments of what follows it. */
  lemma SplitUnfold(s: string)
    requires '.' in s
    ensures Split(s) == [s[..FirstDot(s)]] + Split(s[FirstDot(s) + 1..])
  {
  }

  /** The second segment of a dotted string starts right after its first dot
      and runs to the next dot or the end. */
  lemma SecondSegment(s: string)
    requires '.' in s
    ensures |Split(s)| >= 2
    ensures var tail := s[FirstDot(s) + 1..];
            Split(s)[1] <= tail && (|Split(s)[1]| == |tail| || tail[|Split(s)[1]|] == '.')
  {
    SplitUnfold(s);
  }

  /** Splitting a join of dot-free segments gives the segments back. */
  lemma {:induction false} SplitJoin(parts: seq<string>)
    requires |parts| >= 1 && DotFree(parts)
    ensures Split(Join(parts)) == parts
    decreases |parts|
  {
    if |parts| == 1 {
    } else {
      var s := Join(parts);
      var tail := Join(parts[1..]);
      assert s == parts[0] + "." + tail;
      assert '.' !in parts[0];
      assert s[|parts[0]|] == '.';
      var i := FirstDot(s);
      assert i == |parts[0]|;
      assert s[..i] == parts[0];
      assert s[i + 1..] == tail;
      SplitJoin(parts[1..]);
      assert Split(s) == [parts[0]] + parts[1..];
    }
  }
}
