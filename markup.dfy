/**
 * The two token scanners behind message formatting, written out as the
 * left-to-right, non-overlapping scan a global regular-expression `replace`
 * performs: `$name$` with `name` in `[a-zA-Z0-9_]+`, and `|name|` with
 * `name` in `[a-zA-Z_]+`.
 */
module Markup {
  import opened Wrappers

  datatype TokenKind = ParamToken | ColorToken

  function Delimiter(k: TokenKind): char
  {
    match k
    case ParamToken => '$'
    case ColorToken => '|'
  }

  predicate IsLetter(c: char)
  {
    'a' <= c <= 'z' || 'A' <= c <= 'Z'
  }

  /** The characters allowed between the delimiters. */
  predicate IsNameChar(k: TokenKind, c: char)
  {
    match k
    case ParamToken => IsLetter(c) || '0' <= c <= '9' || c == '_'
    case ColorToken => IsLetter(c) || c == '_'
  }

  predicate IsName(k: TokenKind, name: string)
  {
    |name| > 0 && forall i :: 0 <= i < |name| ==> IsNameChar(k, name[i])
  }

  /** The length of the longest prefix of `s` made of name characters. */
  function NameRun(k: TokenKind, s: string): (n: nat)
    ensures n <= |s|
    ensures forall i :: 0 <= i < n ==> IsNameChar(k, s[i])
    ensures n < |s| ==> !IsNameChar(k, s[n])
  {
    if |s| == 0 || !IsNameChar(k, s[0]) then 0 else 1 + NameRun(k, s[1..])
  }

  /** The name of the token that `s` starts with, if it starts with one. */
  function TokenAt(k: TokenKind, s: string): (r: Option<string>)
    ensures r.Some? ==> IsName(k, r.value) && |r.value| + 2 <= |s|
    ensures r.Some? ==> s[..|r.value| + 2] == [Delimiter(k)] + r.value + [Delimiter(k)]
  {
    if |s| == 0 || s[0] != Delimiter(k) then None
    else
      var n := NameRun(k, s[1..]);
      if n > 0 && 1 + n < |s| && s[1 + n] == Delimiter(k) then Some(s[1..1 + n]) else None
  }

  /** Some position of `s` starts a token. */
  predicate HasToken(k: TokenKind, s: string)
  {
    TokenAt(k, s).Some? || (|s| > 0 && HasToken(k, s[1..]))
  }

  /** Replace every token, left to right, by `f` of its name; other text is copied. */
  function ScanReplace(k: TokenKind, s: string, f: string -> string): string
    decreases |s|
  {
    if |s| == 0 then ""
    else
      match TokenAt(k, s)
      case Some(name) => f(name) + ScanReplace(k, s[|name| + 2..], f)
      case None => [s[0]] + ScanReplace(k, s[1..], f)
  }

  lemma {:induction false} NameRunOf(k: TokenKind, name: string, rest: string)
    requires forall i :: 0 <= i < |name| ==> IsNameChar(k, name[i])
    requires |rest| > 0 && !IsNameChar(k, rest[0])
    ensures NameRun(k, name + rest) == |name|
  {
    if |name| > 0 {
      assert (name + rest)[1..] == name[1..] + rest;
      NameRunOf(k, name[1..], rest);
    }
  }

  /** A string that starts with a well-formed token starts with exactly that token. */
  lemma TokenAtOf(k: TokenKind, name: string, rest: string)
    requires IsName(k, name)
    ensures TokenAt(k, [Delimiter(k)] + name + [Delimiter(k)] + rest) == Some(name)
  {
    var s := [Delimiter(k)] + name + [Delimiter(k)] + rest;
    assert s[1..] == name + ([Delimiter(k)] + rest);
    NameRunOf(k, name, [Delimiter(k)] + rest);
    assert s[1..1 + |name|] == name;
  }

  /** A token is replaced by `f` of its name and the scan resumes after it. */
  lemma ScanReplaceToken(k: TokenKind, name: string, rest: string, f: string -> string)
    requires IsName(k, name)
    ensures ScanReplace(k, [Delimiter(k)] + name + [Delimiter(k)] + rest, f) == f(name) + ScanReplace(k, rest, f)
  {
    var s := [Delimiter(k)] + name + [Delimiter(k)] + rest;
    TokenAtOf(k, name, rest);
    assert s[|name| + 2..] == rest;
  }

  /** Text without tokens is copied unchanged. */
  lemma {:induction false} ScanReplaceNoToken(k: TokenKind, s: string, f: string -> string)
    requires !HasToken(k, s)
    ensures ScanReplace(k, s, f) == s
    decreases |s|
  {
    if |s| > 0 {
      ScanReplaceNoToken(k, s[1..], f);
      assert [s[0]] + s[1..] == s;
    }
  }

  /** When `f` gives every token back as it was, the scan changes nothing. */
  lemma {:induction false} ScanReplaceIdentity(k: TokenKind, s: string, f: string -> string)
    requires forall name :: IsName(k, name) ==> f(name) == [Delimiter(k)] + name + [Delimiter(k)]
    ensures ScanReplace(k, s, f) == s
    decreases |s|
  {
    if |s| > 0 {
      match TokenAt(k, s)
      case Some(name) =>
        ScanReplaceIdentity(k, s[|name| + 2..], f);
        IdentityTokenStep(k, s, f, name);
      case None =>
        ScanReplaceIdentity(k, s[1..], f);
        IdentityPlainStep(k, s, f);
    }
  }

  lemma IdentityTokenStep(k: TokenKind, s: string, f: string -> string, name: string)
    requires TokenAt(k, s) == Some(name)
    requires f(name) == [Delimiter(k)] + name + [Delimiter(k)]
    requires ScanReplace(k, s[|name| + 2..], f) == s[|name| + 2..]
    ensures ScanReplace(k, s, f) == s
  {
    assert s[..|name| + 2] + s[|name| + 2..] == s;
  }

  lemma IdentityPlainStep(k: TokenKind, s: string, f: string -> string)
    requires |s| > 0 && TokenAt(k, s) == None
    requires ScanReplace(k, s[1..], f) == s[1..]
    ensures ScanReplace(k, s, f) == s
  {
    assert [s[0]] + s[1..] == s;
  }

  /** Text free of the delimiter is copied and does not disturb the scan of what follows. */
  lemma {:induction false} ScanReplacePlainPrefix(k: TokenKind, a: string, b: string, f: string -> string)
    requires Delimiter(k) !in a
    ensures ScanReplace(k, a + b, f) == a + ScanReplace(k, b, f)
  {
    if |a| > 0 {
      assert (a + b)[0] == a[0] && a[0] in a;
      assert TokenAt(k, a + b) == None;
      assert (a + b)[1..] == a[1..] + b;
      assert Delimiter(k) !in a[1..];
      ScanReplacePlainPrefix(k, a[1..], b, f);
      assert [a[0]] + a[1..] == a;
    } else {
      assert a + b == b;
    }
  }

  /** A token followed by text without delimiters: the replacement, the text, then the rest scanned. */
  lemma {:induction false} ScanReplaceTokenThenPlain(k: TokenKind, name: string, text: string, rest: string, f: string -> string)
    requires IsName(k, name) && Delimiter(k) !in text
    ensures ScanReplace(k, [Delimiter(k)] + name + [Delimiter(k)] + text + rest, f) == f(name) + text + ScanReplace(k, rest, f)
  {
    var d := [Delimiter(k)];
    assert d + name + d + text + rest == d + name + d + (text + rest);
    ScanReplaceToken(k, name, text + rest, f);
    ScanReplacePlainPrefix(k, text, rest, f);
  }

  /** Appending text never removes a token that is already there. */
  lemma {:induction false} HasTokenAppend(k: TokenKind, s: string, t: string)
    requires HasToken(k, s)
    ensures HasToken(k, s + t)
    decreases |s|
  {
    if TokenAt(k, s).Some? {
      var name := TokenAt(k, s).value;
      var rest := s[|name| + 2..] + t;
      assert s + t == [Delimiter(k)] + name + [Delimiter(k)] + rest by {
        assert s == s[..|name| + 2] + s[|name| + 2..];
      }
      TokenAtOf(k, name, rest);
    } else {
      assert (s + t)[1..] == s[1..] + t;
      HasTokenAppend(k, s[1..], t);
    }
  }

  /** The colour names and their ANSI escape codes. */
  const ColorCodes: map<string, string> := map[
    "reset" := "\U{1B}[0m",
    "black" := "\U{1B}[30m",
    "red" := "\U{1B}[31m",
    "green" := "\U{1B}[32m",
    "yellow" := "\U{1B}[33m",
    "blue" := "\U{1B}[34m",
    "magenta" := "\U{1B}[35m",
    "cyan" := "\U{1B}[36m",
    "white" := "\U{1B}[37m",
    "bright_black" := "\U{1B}[90m",
    "gray" := "\U{1B}[90m",
    "grey" := "\U{1B}[90m",
    "bright_red" := "\U{1B}[91m",
    "bright_green" := "\U{1B}[92m",
    "bright_yellow" := "\U{1B}[93m",
    "bright_blue" := "\U{1B}[94m",
    "bright_magenta" := "\U{1B}[95m",
    "bright_cyan" := "\U{1B}[96m",
    "bright_white" := "\U{1B}[97m"
  ]
}
