/**
 * The JavaScript string operations the source relies on: `startsWith`,
 * `endsWith`, `join`, `split` on one character, `trim`/`trimEnd` and an
 * ASCII `toLowerCase`.
 */
module Strings {

  predicate StartsWith(s: string, prefix: string)
  {
    |prefix| <= |s| && s[..|prefix|] == prefix
  }

  predicate EndsWith(s: string, suffix: string)
  {
    |suffix| <= |s| && s[|s| - |suffix|..] == suffix
  }

  /** `parts.join(sep)`. */
  function Join(parts: seq<string>, sep: string): string
  {
    if |parts| == 0 then ""
    else if |parts| == 1 then parts[0]
    else parts[0] + sep + Join(parts[1..], sep)
  }

  /** `s.split(c)` for a one-character separator: always at least one piece. */
  function Split(s: string, c: char): (pieces: seq<string>)
    ensures |pieces| >= 1
    ensures forall i :: 0 <= i < |pieces| ==> c !in pieces[i]
  {
    if |s| == 0 then [""]
    else
      var rest := Split(s[1..], c);
      if s[0] == c then [""] + rest
      else [[s[0]] + rest[0]] + rest[1..]
  }

  /** Joining lines that contain no separator and splitting again gives the lines back. */
  lemma {:induction false} SplitJoin(lines: seq<string>, c: char)
    requires |lines| >= 1
    requires forall i :: 0 <= i < |lines| ==> c !in lines[i]
    ensures Split(Join(lines, [c]), c) == lines
    decreases |lines|, |lines[0]|
  {
    if |lines| == 1 {
      SplitNoSeparator(lines[0], c);
    } else if |lines[0]| == 0 {
      var tail := Join(lines[1..], [c]);
      assert Join(lines, [c]) == [c] + tail;
      assert ([c] + tail)[1..] == tail;
      SplitJoin(lines[1..], c);
      assert lines == [""] + lines[1..];
    } else {
      var shorter := [lines[0][1..]] + lines[1..];
      assert shorter[1..] == lines[1..];
      SplitJoin(shorter, c);
      var j := Join(lines, [c]);
      assert j == [lines[0][0]] + Join(shorter, [c]);
      assert j[1..] == Join(shorter, [c]);
      assert [lines[0][0]] + lines[0][1..] == lines[0];
    }
  }

  lemma {:induction false} SplitNoSeparator(s: string, c: char)
    requires c !in s
    ensures Split(s, c) == [s]
  {
    if |s| > 0 {
      SplitNoSeparator(s[1..], c);
      assert [s[0]] + s[1..] == s;
    }
  }

  /** Splitting and joining again gives the string back. */
  lemma {:induction false} JoinSplit(s: string, c: char)
    ensures Join(Split(s, c), [c]) == s
  {
    if |s| > 0 {
      JoinSplit(s[1..], c);
      var rest := Split(s[1..], c);
      if s[0] == c {
        assert Join([""] + rest, [c]) == "" + [c] + Join(rest, [c]);
      } else {
        var pieces := [[s[0]] + rest[0]] + rest[1..];
        if |rest| == 1 {
          assert Join(pieces, [c]) == [s[0]] + rest[0];
        } else {
          assert pieces[1..] == rest[1..];
          assert Join(rest, [c]) == rest[0] + [c] + Join(rest[1..], [c]);
        }
      }
    }
  }

  /**
   * The characters `String.prototype.trim` removes: WhiteSpace and
   * LineTerminator of ECMA-262 (section 12.2 and 12.3 of the 2024 edition).
   */
  predicate IsWhitespace(c: char)
  {
    c == '\t' || c == '\n' || c == '\U{B}' || c == '\U{C}' || c == '\r' || c == ' '
    || c == '\U{A0}' || c == '\U{1680}' || ('\U{2000}' <= c <= '\U{200A}')
    || c == '\U{2028}' || c == '\U{2029}' || c == '\U{202F}' || c == '\U{205F}'
    || c == '\U{3000}' || c == '\U{FEFF}'
  }

  /** `s.trimEnd()`: the longest prefix of `s` that does not end in whitespace. */
  function TrimEnd(s: string): (r: string)
    ensures |r| <= |s|
  {
    if |s| == 0 || !IsWhitespace(s[|s| - 1]) then s
    else TrimEnd(s[..|s| - 1])
  }

  /** `s.trimStart()`. */
  function TrimStart(s: string): (r: string)
    ensures |r| <= |s|
  {
    if |s| == 0 || !IsWhitespace(s[0]) then s
    else TrimStart(s[1..])
  }

  /** `trimEnd` removes exactly the trailing whitespace: a prefix is kept, and it does not end in whitespace. */
  lemma {:induction false} TrimEndRemovesTrailing(s: string)
    ensures var r := TrimEnd(s);
      r == s[..|r|]
      && (|r| > 0 ==> !IsWhitespace(r[|r| - 1]))
      && (forall i :: |r| <= i < |s| ==> IsWhitespace(s[i]))
  {
    if |s| > 0 && IsWhitespace(s[|s| - 1]) {
      TrimEndRemovesTrailing(s[..|s| - 1]);
    }
  }

  /** `trimStart` removes exactly the leading whitespace: a suffix is kept, and it does not start with whitespace. */
  lemma {:induction false} TrimStartRemovesLeading(s: string)
    ensures var r := TrimStart(s);
      r == s[|s| - |r|..]
      && (|r| > 0 ==> !IsWhitespace(r[0]))
      && (forall i :: 0 <= i < |s| - |r| ==> IsWhitespace(s[i]))
  {
    if |s| > 0 && IsWhitespace(s[0]) {
      TrimStartRemovesLeading(s[1..]);
    }
  }

  /** `s.trim()`. */
  function Trim(s: string): string
  {
    TrimStart(TrimEnd(s))
  }

  /** A string is blank when trimming leaves nothing. */
  lemma {:induction false} TrimEmptyIffBlank(s: string)
    ensures |Trim(s)| == 0 <==> forall i :: 0 <= i < |s| ==> IsWhitespace(s[i])
  {
    var t := TrimEnd(s);
    TrimEndRemovesTrailing(s);
    TrimStartRemovesLeading(t);
    assert |Trim(s)| == 0 <==> |t| == 0;
  }

  function LowerChar(c: char): char
  {
    if 'A' <= c <= 'Z' then (c as int + 32) as char else c
  }

  /** `s.toLowerCase()` restricted to the ASCII letters. */
  function LowerAscii(s: string): (r: string)
    ensures |r| == |s|
    ensures forall i :: 0 <= i < |s| ==> r[i] == LowerChar(s[i])
  {
    if |s| == 0 then "" else [LowerChar(s[0])] + LowerAscii(s[1..])
  }
}
