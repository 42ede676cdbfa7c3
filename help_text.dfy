/**
 * The help screen of a command (`generateHelpText`). The text is terminal
 * markup: the `|colour|` tokens are turned into escape codes later, when
 * the text is logged.
 *
 * A command is shown at level 1 (the command that was asked for) or at
 * level 2 (each of its sub-commands, indented by four spaces). Level 2
 * only lists the names of its own sub-commands, so the screen is never
 * deeper than two levels.
 */
module HelpText {
  import opened Wrappers
  import opened Strings
  import opened Numbers
  import opened Entries
  import opened CliTypes
  import opened Sorting

  datatype Level = Top | Nested

  /** The recursion measure: only level 1 renders other commands. */
  function Rank(level: Level): nat
  {
    if level.Top? then 1 else 0
  }

  /** `JSON.stringify` of a default value. Strings are quoted without escaping. */
  function JsonText(v: Value): string
  {
    match v
    case VStr(s) => "\"" + s + "\""
    case VInt(i) => IntToString(i)
    case VNaN => "null"
    case VBool(b) => if b then "true" else "false"
  }

  function TypeName(kind: ParamType): string
  {
    match kind
    case StringType => "string"
    case NumberType => "number"
    case BooleanType => "boolean"
  }

  function FormatSectionTitle(title: string): string
  {
    "|bright_yellow|" + title + "|reset|"
  }

  function FormatNoneLine(): string
  {
    "  |gray|None|reset|"
  }

  function FormatDefaultValue(v: Value): string
  {
    "|gray|[default: " + JsonText(v) + "]|reset|"
  }

  function DescriptionOr(description: Option<string>): string
  {
    if description.Some? then description.value else "No description"
  }

  function RequiredLabel(p: Param): string
  {
    if IsRequired(p) then "|red|required|reset|" else "|gray|optional|reset|"
  }

  /** The name, followed by the aliases when there are any. */
  function DisplayName(p: Param): (r: string)
    ensures StartsWith(r, p.name)
    ensures |p.aliases| == 0 ==> r == p.name
  {
    var aliasList := if |p.aliases| > 0 then Join(p.aliases, ", ") else "";
    if aliasList != "" then p.name + ", " + aliasList else p.name
  }

  /**
   * The segments of a parameter line after `filter(Boolean)`: the first three
   * are never empty, and the default label is present exactly when there
   * is a default value.
   */
  function ParamSegments(p: Param): (r: seq<string>)
    ensures |r| == if p.defaultValue.Some? then 4 else 3
    ensures forall i :: 0 <= i < |r| ==> r[i] != ""
    ensures StartsWith(r[0], "  |bright_white|" + p.name)
    ensures EndsWith(r[1], RequiredLabel(p))
    ensures r[2] == "- |gray|" + DescriptionOr(p.description) + "|reset|"
    ensures p.defaultValue.Some? ==> r[3] == FormatDefaultValue(p.defaultValue.value)
  {
    var name := DisplayName(p);
    var kind := "(" + TypeName(p.kind) + ")|reset| ";
    var req := RequiredLabel(p);
    var first := "  |bright_white|" + name + "|reset|";
    assert first[..|"  |bright_white|" + p.name|] == "  |bright_white|" + p.name by {
      assert first == "  |bright_white|" + (name + "|reset|");
      assert name[..|p.name|] == p.name;
    }
    var second := kind + req;
    assert second[|second| - |req|..] == req;
    var fixed := [first, second, "- |gray|" + DescriptionOr(p.description) + "|reset|"];
    if p.defaultValue.Some? then fixed + [FormatDefaultValue(p.defaultValue.value)] else fixed
  }

  function FormatParamLine(p: Param): string
  {
    Join(ParamSegments(p), " ")
  }

  /** A titled section: one line per parameter, or `None` when there is none. */
  function FormatSection(title: string, params: seq<Param>): (r: seq<string>)
    ensures |r| == if |params| == 0 then 2 else 1 + |params|
    ensures r[0] == FormatSectionTitle(title)
    ensures |params| == 0 ==> r[1] == FormatNoneLine()
    ensures forall i :: 0 <= i < |params| ==> r[i + 1] == FormatParamLine(params[i])
  {
    if |params| == 0 then [FormatSectionTitle(title), FormatNoneLine()]
    else
      var lines := seq(|params|, i requires 0 <= i < |params| => FormatParamLine(params[i]));
      PrependIndex(FormatSectionTitle(title), lines);
      [FormatSectionTitle(title)] + lines
  }

  /** Prepending a line shifts every line by one (kept apart so the section proof stays small). */
  lemma PrependIndex(head: string, lines: seq<string>)
    ensures forall i :: 0 <= i < |lines| ==> ([head] + lines)[i + 1] == lines[i]
  {
  }

  function FormatCommandLine(name: string, description: Option<string>): string
  {
    "  |bright_white|" + name + "|reset| - |gray|" + DescriptionOr(description) + "|reset|"
  }

  function FormatAvailableCommandsLine(names: seq<string>): string
  {
    var shown := if |names| == 0 then "None" else Join(names, ", ");
    "|bright_yellow|Available Commands:|reset| |gray|" + shown + "|reset|"
  }

  /** The sub-command names in the order the help screen lists them. */
  function SortedNames(cli: Cli): (r: seq<string>)
    ensures Sorted(r)
    ensures multiset(r) == multiset(Keys(cli.commands))
    ensures forall i :: 0 <= i < |r| ==> r[i] in Keys(cli.commands)
    ensures |r| == |cli.commands|
  {
    var r := Sort(Keys(cli.commands));
    assert |multiset(r)| == |multiset(Keys(cli.commands))|;
    assert forall i :: 0 <= i < |r| ==> r[i] in Keys(cli.commands) by {
      forall i | 0 <= i < |r| ensures r[i] in Keys(cli.commands) {
        assert r[i] in multiset(r);
      }
    }
    r
  }

  /** The sub-command registered under `name`. */
  function SubCommand(cli: Cli, name: string): (sub: Cli)
    requires name in Keys(cli.commands)
    ensures Get(cli.commands, name) == Some(sub)
    ensures sub < cli
  {
    var i := GetIndex(cli.commands, name);
    assert cli.commands[i] < cli;
    Get(cli.commands, name).value
  }

  /** The position `Get` finds `k` at. */
  function GetIndex<V>(m: Entries<V>, k: string): (i: nat)
    requires k in Keys(m)
    ensures i < |m| && m[i].0 == k
    ensures Get(m, k) == Some(m[i].1)
  {
    if m[0].0 == k then 0
    else
      assert Keys(m) == [m[0].0] + Keys(m[1..]);
      1 + GetIndex(m[1..], k)
  }

  /** The `Commands` section. Level 2 names its sub-commands on one line. */
  function CommandSection(cli: Cli, level: Level): (r: seq<string>)
    ensures |r| >= 2 && r[0] == FormatSectionTitle("Commands")
    ensures level.Nested? ==> r == [FormatSectionTitle("Commands"), "  " + FormatAvailableCommandsLine(SortedNames(cli))]
    ensures level.Top? && |cli.commands| == 0 ==> r == [FormatSectionTitle("Commands"), FormatNoneLine()]
    ensures level.Top? && |cli.commands| > 0 ==>
      |r| == 1 + |cli.commands| &&
      forall i :: 0 <= i < |cli.commands| ==>
        var name := SortedNames(cli)[i];
        r[i + 1] == FormatCommandLine(name, SubCommand(cli, name).description)
  {
    var names := SortedNames(cli);
    if level.Nested? then
      [FormatSectionTitle("Commands"), "  " + FormatAvailableCommandsLine(names)]
    else if |cli.commands| == 0 then
      [FormatSectionTitle("Commands"), FormatNoneLine()]
    else
      [FormatSectionTitle("Commands")]
        + seq(|names|, i requires 0 <= i < |names| =>
            FormatCommandLine(names[i], SubCommand(cli, names[i]).description))
  }

  /** The first line of a screen: the command's name in bright cyan. */
  function TitleLine(cli: Cli): string
  {
    "|bright_cyan|" + cli.name + "|reset|"
  }

  function Header(cli: Cli): seq<string>
  {
    [TitleLine(cli)]
      + (if cli.description.Some? then ["  |gray|" + cli.description.value + "|reset|"] else [])
  }

  /** The sections with a blank line between each two. */
  function SeparatedSections(s: seq<seq<string>>): seq<string>
    requires |s| == 4
  {
    s[0] + [""] + s[1] + [""] + s[2] + [""] + s[3]
  }

  /** The four sections, in the order the screen shows them. */
  function Sections(cli: Cli, level: Level): seq<seq<string>>
  {
    [ FormatSection("Positional Arguments", cli.positionalArgs),
      FormatSection("Options", Values(cli.optionArgs)),
      FormatSection("Global Options", Values(cli.globalOptionArgs)),
      CommandSection(cli, level) ]
  }

  /**
   * The lines before indentation: the header, a blank line, then the
   * sections with a blank line between each two; at level 1, each
   * sub-command's level-2 screen after a blank line, in sorted order.
   */
  function HelpLines(cli: Cli, level: Level): seq<string>
    decreases Rank(level), 1, 0
  {
    var body := Header(cli) + [""] + SeparatedSections(Sections(cli, level));
    if level.Top? then body + SubHelpLines(cli, SortedNames(cli), |SortedNames(cli)|)
    else body
  }

  /** The level-2 screens of the first `n` of `names`, each after a blank line. */
  function SubHelpLines(cli: Cli, names: seq<string>, n: nat): seq<string>
    requires n <= |names|
    requires forall i :: 0 <= i < |names| ==> names[i] in Keys(cli.commands)
    decreases 1, 0, n
  {
    if n == 0 then []
    else SubHelpLines(cli, names, n - 1) + ([""] + SubScreenLines(cli, names[n - 1]))
  }

  /** The lines of the level-2 screen of the sub-command `name`. */
  function SubScreenLines(cli: Cli, name: string): seq<string>
    requires name in Keys(cli.commands)
    decreases 0, 3, 0
  {
    Split(HelpText(SubCommand(cli, name), Nested), '\n')
  }

  lemma SubHelpLinesStep(cli: Cli, names: seq<string>, n: nat, subText: string)
    requires n < |names|
    requires forall i :: 0 <= i < |names| ==> names[i] in Keys(cli.commands)
    requires subText == HelpText(SubCommand(cli, names[n]), Nested)
    ensures SubHelpLines(cli, names, n + 1) == SubHelpLines(cli, names, n) + ([""] + Split(subText, '\n'))
  {
    assert SubScreenLines(cli, names[n]) == Split(subText, '\n');
  }

  function Indent(level: Level): string
  {
    if level.Top? then "" else "    "
  }

  /** Every non-empty line gets the indent; empty lines stay empty. */
  function IndentLines(lines: seq<string>, indent: string): (r: seq<string>)
    ensures |r| == |lines|
    ensures forall i :: 0 <= i < |lines| ==>
      (lines[i] == "" ==> r[i] == "") && (lines[i] != "" ==> r[i] == indent + lines[i])
  {
    seq(|lines|, i requires 0 <= i < |lines| => if lines[i] == "" then "" else indent + lines[i])
  }

  /** `_generateHelpTextHelper` as a specification. */
  function HelpText(cli: Cli, level: Level): string
    decreases Rank(level), 2, 0
  {
    Join(IndentLines(HelpLines(cli, level), Indent(level)), "\n")
  }

  /** `generateHelpText`: the screen of the command that was asked for. */
  function GenerateHelpText(cli: Cli): string
  {
    HelpText(cli, Top)
  }

  /**
   * `_generateHelpTextHelper`: pushes the header, the sections and the
   * sub-command screens onto `lines`, then indents and joins them.
   */
  method GenerateHelpTextHelper(cli: Cli, level: Level) returns (text: string)
    ensures text == HelpText(cli, level)
    decreases Rank(level), 1
  {
    var names := SortedNames(cli);
    var lines := PushSections(Header(cli) + [""], Sections(cli, level));
    ghost var body := lines;
    if level.Top? {
      lines := PushSubScreens(cli, names, lines);
    }
    assert lines == HelpLines(cli, level) by {
      assert body == Header(cli) + [""] + SeparatedSections(Sections(cli, level));
    }
    text := Join(IndentLines(lines, Indent(level)), "\n");
  }

  /** The `subCommandHelpText.forEach` loop: a blank line, then each level-2 screen. */
  method PushSubScreens(cli: Cli, names: seq<string>, start: seq<string>) returns (lines: seq<string>)
    requires forall i :: 0 <= i < |names| ==> names[i] in Keys(cli.commands)
    ensures lines == start + SubHelpLines(cli, names, |names|)
    decreases 1, 0
  {
    lines := start;
    for i := 0 to |names|
      invariant lines == start + SubHelpLines(cli, names, i)
    {
      var sub := SubCommand(cli, names[i]);
      var subText := GenerateHelpTextHelper(sub, Nested);
      var screen := [""] + Split(subText, '\n');
      SubHelpLinesStep(cli, names, i, subText);
      AppendAssoc(start, SubHelpLines(cli, names, i), screen);
      lines := lines + screen;
    }
  }

  /** Regrouping an append, kept apart so the loop proof stays small. */
  lemma AppendAssoc(a: seq<string>, b: seq<string>, c: seq<string>)
    ensures (a + b) + c == a + (b + c)
  {
  }

  /** The `sections.forEach` loop: each section, then a blank line unless it is the last. */
  method PushSections(start: seq<string>, sections: seq<seq<string>>) returns (lines: seq<string>)
    requires |sections| == 4
    ensures lines == start + SeparatedSections(sections)
  {
    lines := start;
    for idx := 0 to |sections|
      invariant lines == start + Pushed(sections, idx)
    {
      lines := lines + sections[idx];
      if idx < |sections| - 1 {
        lines := lines + [""];
      }
    }
    assert Pushed(sections, 1) == sections[0] + [""];
    assert Pushed(sections, 2) == sections[0] + [""] + sections[1] + [""];
    assert Pushed(sections, 3) == sections[0] + [""] + sections[1] + [""] + sections[2] + [""];
  }

  /** What the section loop has pushed after `n` rounds. */
  ghost function Pushed(sections: seq<seq<string>>, n: nat): seq<string>
    requires n <= |sections|
  {
    if n == 0 then []
    else Pushed(sections, n - 1) + sections[n - 1] + (if n - 1 < |sections| - 1 then [""] else [])
  }

  /**
   * The level-2 screen shows only the names of the sub-commands below it:
   * two commands that differ only in what their sub-commands contain have
   * the same level-2 screen.
   */
  lemma NestedShowsOnlyNames(a: Cli, b: Cli)
    requires a.(commands := []) == b.(commands := [])
    requires Keys(a.commands) == Keys(b.commands)
    ensures HelpText(a, Nested) == HelpText(b, Nested)
  {
    assert a.name == b.name && a.description == b.description;
    assert a.positionalArgs == b.positionalArgs;
    assert a.optionArgs == b.optionArgs && a.globalOptionArgs == b.globalOptionArgs;
    assert Sections(a, Nested) == Sections(b, Nested);
  }

  /**
   * At level 2, when no line contains a line break, splitting the screen
   * at line breaks gives the lines back, each blank or indented by four
   * spaces.
   */
  lemma NestedLinesIndented(cli: Cli)
    requires forall i :: 0 <= i < |HelpLines(cli, Nested)| ==> '\n' !in HelpLines(cli, Nested)[i]
    ensures Split(HelpText(cli, Nested), '\n') == IndentLines(HelpLines(cli, Nested), "    ")
    ensures forall l :: l in Split(HelpText(cli, Nested), '\n') ==> l == "" || StartsWith(l, "    ")
  {
    var lines := HelpLines(cli, Nested);
    var out := IndentLines(lines, "    ");
    forall i | 0 <= i < |out| ensures '\n' !in out[i] {
      if lines[i] != "" {
        assert out[i] == "    " + lines[i];
      }
    }
    SplitJoin(out, '\n');
    forall l | l in out ensures l == "" || StartsWith(l, "    ") {
      var i :| 0 <= i < |out| && out[i] == l;
      if lines[i] != "" {
        assert out[i][..4] == "    ";
      }
    }
  }

  /** At level 1 the screen starts with the command's own header line. */
  lemma TopStartsWithName(cli: Cli)
    ensures StartsWith(GenerateHelpText(cli), "|bright_cyan|" + cli.name + "|reset|")
  {
    var lines := HelpLines(cli, Top);
    HelpLinesStartWithName(cli, Top);
    var out := IndentLines(lines, "");
    assert out[0] == "" + lines[0] == lines[0];
    JoinStartsWithFirst(out, "\n");
  }

  lemma HelpLinesStartWithName(cli: Cli, level: Level)
    ensures |HelpLines(cli, level)| > 0
    ensures HelpLines(cli, level)[0] == TitleLine(cli)
  {
    var body := Header(cli) + [""] + SeparatedSections(Sections(cli, level));
    assert body[0] == Header(cli)[0];
    if level.Top? {
      var subs := SubHelpLines(cli, SortedNames(cli), |SortedNames(cli)|);
      assert (body + subs)[0] == body[0];
    }
  }

  lemma JoinStartsWithFirst(parts: seq<string>, sep: string)
    requires |parts| > 0
    ensures StartsWith(Join(parts, sep), parts[0])
  {
    if |parts| > 1 {
      assert Join(parts, sep) == parts[0] + (sep + Join(parts[1..], sep));
    }
  }
}
