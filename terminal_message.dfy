/**
 * `generateTerminalMessage`: `$key$` interpolation followed by `|colour|`
 * substitution, with a trailing `|reset|` added when the message colours
 * something and does not already end by resetting.
 */
module TerminalMessage {
  import opened Strings
  import opened Numbers
  import opened Markup

  /** A message parameter: `string | boolean | number | null | undefined`; a number is an integer or `NaN`. */
  datatype ParamValue = PString(s: string) | PNumber(n: int) | PBoolean(b: bool) | PNull | PUndefined | PNaN

  /** What `$key$` becomes: `String(value)`, or nothing for a missing or undefined value. */
  function ParamText(params: map<string, ParamValue>, key: string): string
  {
    if key !in params then ""
    else
      match params[key]
      case PString(s) => s
      case PNumber(n) => IntToString(n)
      case PBoolean(b) => if b then "true" else "false"
      case PNull => "null"
      case PUndefined => ""
      case PNaN => "NaN"
  }

  function Interpolate(message: string, params: map<string, ParamValue>): string
  {
    ScanReplace(ParamToken, message, key => ParamText(params, key))
  }

  /** A colour token's replacement: its escape code, or the token itself when unknown. */
  function ColorReplacement(name: string): (r: string)
    ensures LowerAscii(name) in ColorCodes ==> r == ColorCodes[LowerAscii(name)]
    ensures LowerAscii(name) !in ColorCodes ==> r == "|" + name + "|"
  {
    var key := LowerAscii(name);
    if key in ColorCodes then ColorCodes[key] else "|" + name + "|"
  }

  function ApplyColors(message: string): string
  {
    ScanReplace(ColorToken, message, ColorReplacement)
  }

  predicate HasColorToken(message: string)
  {
    HasToken(ColorToken, message)
  }

  predicate EndsWithReset(message: string)
  {
    EndsWith(TrimEnd(message), "|reset|")
  }

  /**
   * The message with `|reset|` appended exactly when it has a colour token
   * and its right-trimmed form does not end with `|reset|`; afterwards a
   * message that colours anything always ends by resetting.
   */
  function WithReset(message: string): (r: string)
    ensures r == message + "|reset|" <==> HasColorToken(message) && !EndsWithReset(message)
    ensures r != message + "|reset|" ==> r == message
    ensures HasColorToken(message) ==> HasColorToken(r) && EndsWithReset(r)
  {
    if HasColorToken(message) && !EndsWithReset(message) then
      AppendResetEndsWithReset(message);
      HasTokenAppend(ColorToken, message, "|reset|");
      message + "|reset|"
    else message
  }

  lemma AppendResetEndsWithReset(message: string)
    ensures EndsWithReset(message + "|reset|")
  {
    var r := message + "|reset|";
    assert r[|r| - 1] == '|';
    assert TrimEnd(r) == r;
    assert r[|r| - 7..] == "|reset|";
  }

  /** Adding the reset twice is the same as adding it once. */
  lemma WithResetIdempotent(message: string)
    ensures WithReset(WithReset(message)) == WithReset(message)
  {
  }

  /** `generateTerminalMessage(message, params)`: interpolate first, then colour. */
  function GenerateTerminalMessage(message: string, params: map<string, ParamValue>): string
  {
    ApplyColors(Interpolate(WithReset(message), params))
  }

  /** A message with neither kind of token comes back unchanged. */
  lemma PlainMessageUnchanged(message: string, params: map<string, ParamValue>)
    requires !HasToken(ParamToken, message) && !HasColorToken(message)
    ensures GenerateTerminalMessage(message, params) == message
  {
    ScanReplaceNoToken(ParamToken, message, key => ParamText(params, key));
    ScanReplaceNoToken(ColorToken, message, ColorReplacement);
  }

  /** `$key$` becomes the parameter's text, or nothing when it is missing or undefined. */
  lemma InterpolateToken(key: string, rest: string, params: map<string, ParamValue>)
    requires IsName(ParamToken, key)
    ensures Interpolate("$" + key + "$" + rest, params) == ParamText(params, key) + Interpolate(rest, params)
    ensures key !in params || params[key] == PUndefined ==>
      Interpolate("$" + key + "$" + rest, params) == Interpolate(rest, params)
  {
    assert "$" + key + "$" + rest == [Delimiter(ParamToken)] + key + [Delimiter(ParamToken)] + rest;
    ScanReplaceToken(ParamToken, key, rest, k => ParamText(params, k));
  }

  /** A colour token is replaced by its code, matched case-insensitively; an unknown one is kept. */
  lemma ApplyColorsToken(name: string, rest: string)
    requires IsName(ColorToken, name)
    ensures LowerAscii(name) in ColorCodes ==>
      ApplyColors("|" + name + "|" + rest) == ColorCodes[LowerAscii(name)] + ApplyColors(rest)
    ensures LowerAscii(name) !in ColorCodes ==>
      ApplyColors("|" + name + "|" + rest) == "|" + name + "|" + ApplyColors(rest)
  {
    ScanReplaceToken(ColorToken, name, rest, ColorReplacement);
  }

  /** Names that differ only in letter case select the same colour. */
  lemma ColorNamesCaseInsensitive(a: string, b: string)
    requires LowerAscii(a) == LowerAscii(b) && LowerAscii(a) in ColorCodes
    ensures ColorReplacement(a) == ColorReplacement(b)
  {
  }

  /**
   * Interpolation runs before colouring: a colour token supplied through a
   * parameter is turned into its escape code.
   */
  lemma InterpolationBeforeColors()
    ensures GenerateTerminalMessage("$c$", map["c" := PString("|red|")]) == ColorCodes["red"]
  {
    var params := map["c" := PString("|red|")];
    NoColorInParamToken();
    InterpolateParamToken(params);
    RedToken();
  }

  lemma NoColorInParamToken()
    ensures WithReset("$c$") == "$c$"
  {
    assert !HasToken(ColorToken, "$c$");
  }

  lemma InterpolateParamToken(params: map<string, ParamValue>)
    requires params == map["c" := PString("|red|")]
    ensures Interpolate("$c$", params) == "|red|"
  {
    assert IsName(ParamToken, "c");
    InterpolateToken("c", "", params);
    assert "$" + "c" + "$" + "" == "$c$";
    assert ParamText(params, "c") == "|red|";
    assert Interpolate("", params) == "";
  }

  lemma RedToken()
    ensures ApplyColors("|red|") == ColorCodes["red"]
  {
    assert IsName(ColorToken, "red");
    LowerRed();
    ApplyColorsToken("red", "");
    assert "|" + "red" + "|" + "" == "|red|";
    assert ApplyColors("") == "";
  }

  lemma LowerRed()
    ensures LowerAscii("red") == "red"
  {
    assert LowerAscii("red") == [LowerChar('r')] + LowerAscii("ed");
    assert LowerAscii("ed") == [LowerChar('e')] + LowerAscii("d");
    assert LowerAscii("d") == [LowerChar('d')] + LowerAscii("");
  }

  /**
   * A message that colours its first part red and resets before a plain
   * line: both tokens become escape codes and a final reset is appended,
   * because the trimmed message does not end with `|reset|`.
   */
  lemma RedLeadRendered(head: string, body: string)
    requires '|' !in head && '$' !in head && '|' !in body && '$' !in body
    requires |body| > 0 && !IsWhitespace(body[|body| - 1])
    ensures GenerateTerminalMessage("|red|" + head + "|reset|" + body + "\n", map[])
      == ColorCodes["red"] + head + ColorCodes["reset"] + body + "\n" + ColorCodes["reset"]
  {
    var tail := body + "\n";
    RedLeadNeedsReset(head, body);
    RedLeadAssoc(head, body);
    var full := "|red|" + head + "|reset|" + tail + "|reset|";
    InterpolateWithoutTokens(full);
    RedLeadColors(head, tail);
    RedReplacement();
    ResetReplacement();
  }

  lemma RedLeadAssoc(head: string, body: string)
    ensures "|red|" + head + "|reset|" + body + "\n" + "|reset|" == "|red|" + head + "|reset|" + (body + "\n") + "|reset|"
    ensures forall red, reset :: red + head + reset + (body + "\n") + reset == red + head + reset + body + "\n" + reset
  {
  }

  /** Without a `$`, interpolation changes nothing. */
  lemma InterpolateWithoutTokens(s: string)
    requires '$' !in s
    ensures Interpolate(s, map[]) == s
  {
    ScanReplacePlainPrefix(ParamToken, s, "", key => ParamText(map[], key));
    assert s + "" == s;
  }

  lemma RedLeadNeedsReset(head: string, body: string)
    requires '|' !in body && |body| > 0 && !IsWhitespace(body[|body| - 1])
    ensures var m := "|red|" + head + "|reset|" + body + "\n";
      HasColorToken(m) && !EndsWithReset(m)
  {
    var m := "|red|" + head + "|reset|" + body + "\n";
    assert IsName(ColorToken, "red");
    var rest := head + "|reset|" + body + "\n";
    assert m == [Delimiter(ColorToken)] + "red" + [Delimiter(ColorToken)] + rest;
    TokenAtOf(ColorToken, "red", rest);
    var t := m[..|m| - 1];
    assert TrimEnd(m) == TrimEnd(t);
    assert t[|t| - 1] == body[|body| - 1];
    assert TrimEnd(t) == t;
  }

  lemma RedLeadColors(head: string, tail: string)
    requires '|' !in head && '|' !in tail
    ensures ApplyColors("|red|" + head + "|reset|" + tail + "|reset|")
      == ColorReplacement("red") + head + ColorReplacement("reset") + tail + ColorReplacement("reset")
  {
    var d := [Delimiter(ColorToken)];
    var mid := (d + "reset" + d) + tail + (d + "reset" + d);
    var red, reset := ColorReplacement("red"), ColorReplacement("reset");
    ResetTokenColors(tail);
    RedTokenName();
    ScanReplaceTokenThenPlain(ColorToken, "red", head, mid, ColorReplacement);
    RedLeadShape(head, tail);
    calc {
      ApplyColors("|red|" + head + "|reset|" + tail + "|reset|");
      ScanReplace(ColorToken, d + "red" + d + head + mid, ColorReplacement);
      red + head + ScanReplace(ColorToken, mid, ColorReplacement);
      red + head + (reset + tail + reset);
      { AppendAssoc3(red + head, reset, tail, reset); }
      red + head + reset + tail + reset;
    }
  }

  lemma AppendAssoc3(a: string, b: string, c: string, e: string)
    ensures a + (b + c + e) == a + b + c + e
  {
  }

  lemma RedLeadShape(head: string, tail: string)
    ensures var d := [Delimiter(ColorToken)];
      "|red|" + head + "|reset|" + tail + "|reset|"
      == d + "red" + d + head + ((d + "reset" + d) + tail + (d + "reset" + d))
  {
  }

  lemma RedTokenName()
    ensures IsName(ColorToken, "red")
  {
  }

  lemma RedReplacement()
    ensures ColorReplacement("red") == ColorCodes["red"]
  {
    LowerRed();
  }

  lemma ResetReplacement()
    ensures ColorReplacement("reset") == ColorCodes["reset"]
  {
    LowerReset();
  }

  /** `|reset|` + plain text + `|reset|` becomes the reset code on both sides. */
  lemma ResetTokenColors(tail: string)
    requires '|' !in tail
    ensures var last := [Delimiter(ColorToken)] + "reset" + [Delimiter(ColorToken)];
      ScanReplace(ColorToken, last + tail + last, ColorReplacement)
        == ColorReplacement("reset") + tail + ColorReplacement("reset")
  {
    var last := [Delimiter(ColorToken)] + "reset" + [Delimiter(ColorToken)];
    var reset := ColorReplacement("reset");
    assert IsName(ColorToken, "reset");
    ScanReplaceTokenThenPlain(ColorToken, "reset", "", "", ColorReplacement);
    assert last + "" + "" == last;
    assert ScanReplace(ColorToken, "", ColorReplacement) == "";
    assert reset + "" + "" == reset;
    ScanReplaceTokenThenPlain(ColorToken, "reset", tail, last, ColorReplacement);
  }

  lemma LowerReset()
    ensures LowerAscii("reset") == "reset"
  {
    assert LowerAscii("reset") == [LowerChar('r')] + LowerAscii("eset");
    assert LowerAscii("eset") == [LowerChar('e')] + LowerAscii("set");
    assert LowerAscii("set") == [LowerChar('s')] + LowerAscii("et");
    assert LowerAscii("et") == [LowerChar('e')] + LowerAscii("t");
    assert LowerAscii("t") == [LowerChar('t')] + LowerAscii("");
  }
}
