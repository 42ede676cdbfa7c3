/**
 * `Acclimate.log`'s message transform. It adds the reset and applies colours
 * exactly as the terminal-message formatter does, but its parameters are
 * strings only, and a `$key$` token whose key is missing stays in the text.
 */
module Acclimate {
  import opened Strings
  import opened Markup
  import TerminalMessage

  /** What `$key$` becomes in `log`: the parameter, or the token itself when it is missing. */
  function LogParamText(params: map<string, string>, key: string): (r: string)
    ensures key in params ==> r == params[key]
    ensures key !in params ==> r == "$" + key + "$"
  {
    if key in params then params[key] else "$" + key + "$"
  }

  function InterpolateParams(message: string, params: map<string, string>): string
  {
    ScanReplace(ParamToken, message, key => LogParamText(params, key))
  }

  /** The text `Acclimate.log(message, params)` hands to the console. */
  function LogMessage(message: string, params: map<string, string>): string
  {
    TerminalMessage.ApplyColors(InterpolateParams(TerminalMessage.WithReset(message), params))
  }

  /** With no parameters at all, interpolation leaves the message as it was. */
  lemma InterpolateNoParams(message: string)
    ensures InterpolateParams(message, map[]) == message
  {
    ScanReplaceIdentity(ParamToken, message, key => LogParamText(map[], key));
  }

  /** A token whose key is absent is kept verbatim; a present one is replaced. */
  lemma InterpolateParamToken(key: string, rest: string, params: map<string, string>)
    requires IsName(ParamToken, key)
    ensures key in params ==>
      InterpolateParams("$" + key + "$" + rest, params) == params[key] + InterpolateParams(rest, params)
    ensures key !in params ==>
      InterpolateParams("$" + key + "$" + rest, params) == "$" + key + "$" + InterpolateParams(rest, params)
  {
    ScanReplaceToken(ParamToken, key, rest, k => LogParamText(params, k));
  }

  /**
   * Where the two formatters part ways: for a key that is not supplied, the
   * terminal-message formatter drops the token and `log` keeps it.
   */
  lemma MissingKeyDiffers(key: string)
    requires IsName(ParamToken, key)
    ensures InterpolateParams("$" + key + "$", map[]) == "$" + key + "$"
    ensures TerminalMessage.Interpolate("$" + key + "$", map[]) == ""
  {
    assert "$" + key + "$" + "" == "$" + key + "$";
    InterpolateParamToken(key, "", map[]);
    TerminalMessage.InterpolateToken(key, "", map[]);
  }

  /**
   * A coloured message that does not reset at its end is reset by `log`:
   * an unknown colour is kept as written and the reset code is appended.
   */
  lemma LogUnknownColorGetsReset()
    ensures LogMessage("|nope|Hello", map[]) == "|nope|Hello" + ColorCodes["reset"]
  {
    var m := "|nope|Hello";
    WithResetOfNope();
    InterpolateNoParams(m + "|reset|");
    ColorsOfNopeReset();
  }

  lemma WithResetOfNope()
    ensures TerminalMessage.WithReset("|nope|Hello") == "|nope|Hello" + "|reset|"
  {
    NopeHasColor();
    NopeDoesNotReset();
  }

  lemma NopeHasColor()
    ensures TerminalMessage.HasColorToken("|nope|Hello")
  {
    assert IsName(ColorToken, "nope");
    TokenAtOf(ColorToken, "nope", "Hello");
    assert "|nope|Hello" == [Delimiter(ColorToken)] + "nope" + [Delimiter(ColorToken)] + "Hello";
  }

  lemma NopeDoesNotReset()
    ensures !TerminalMessage.EndsWithReset("|nope|Hello")
  {
    var m := "|nope|Hello";
    assert !IsWhitespace(m[|m| - 1]);
    assert TrimEnd(m) == m;
    assert m[|m| - 7] == 'e';
  }

  lemma LowerNope()
    ensures LowerAscii("nope") == "nope"
  {
    assert LowerAscii("nope") == [LowerChar('n')] + LowerAscii("ope");
    assert LowerAscii("ope") == [LowerChar('o')] + LowerAscii("pe");
    assert LowerAscii("pe") == [LowerChar('p')] + LowerAscii("e");
  }

  lemma ColorsOfNopeReset()
    ensures TerminalMessage.ApplyColors("|nope|Hello" + "|reset|") == "|nope|Hello" + ColorCodes["reset"]
  {
    assert IsName(ColorToken, "nope");
    LowerNope();
    assert "nope" !in ColorCodes;
    assert "|nope|Hello" == "|" + "nope" + "|" + "Hello";
    ColorThenPlain("nope", "Hello", "|reset|");
    ColorsOfReset();
  }

  /** One colour token, then text without colour delimiters, then anything. */
  lemma {:induction false} ColorThenPlain(name: string, text: string, rest: string)
    requires IsName(ColorToken, name) && '|' !in text
    ensures TerminalMessage.ApplyColors("|" + name + "|" + text + rest)
      == TerminalMessage.ColorReplacement(name) + text + TerminalMessage.ApplyColors(rest)
  {
    assert "|" + name + "|" + text + rest == [Delimiter(ColorToken)] + name + [Delimiter(ColorToken)] + text + rest;
    ScanReplaceTokenThenPlain(ColorToken, name, text, rest, TerminalMessage.ColorReplacement);
  }

  lemma ColorsOfReset()
    ensures TerminalMessage.ApplyColors("|reset|") == ColorCodes["reset"]
  {
    assert IsName(ColorToken, "reset");
    TerminalMessage.LowerReset();
    assert "|reset|" == "|" + "reset" + "|" + "";
    TerminalMessage.ApplyColorsToken("reset", "");
  }
}
