# Acclimate command-line engine, in Dafny

This project models the core of Acclimate, a small TypeScript library for
declaring and running command-line interfaces. The model covers these parts:

- **The builder.** It grows an immutable command tree: a name, a description,
  positional arguments, options, global options, an alias table, sub-commands
  and an action.
- **The dispatcher.** `runCLI` does three things:
  - It splits the argument vector into positional tokens and alias groups.
  - It re-keys aliases to full option names and descends into the sub-command
    that the first positional token names.
  - It binds the parameters of the command it reaches: by parser, default and
    validator, in declaration order, stopping at the first error.
  - Last, it runs the action or falls back to the help screen.
- **The error taxonomy**, with its default messages.
- **The two message formatters.** Each replaces `$key$` parameters and turns
  `|colour|` tokens into ANSI escape codes:
  - `generateTerminalMessage`;
  - the transform inside `Acclimate.log`.
- **The help-screen renderer**, with its two levels.
- **The interactive prompt loop** of `requestTerminalInput`.

Pure source code is modelled as datatypes, functions and lemmas. Three loops
are modelled as methods with loop invariants, each proved equal to the
function that specifies it:

- the tokenizer loop of `runCLI`;
- the binding `reduce`s;
- the line-pushing loops of the help renderer.

The prompt is a `Terminal` class with these parts:

- a queue of pending answers;
- the prompts it has shown;
- what it has written;
- how often it was closed.

It is driven by a `while` loop that is proved against `Converse`, the
specification of a whole session.

JavaScript objects enumerate their keys in insertion order. The model keeps
that order, because it decides which error is reported first:

- Option records and command tables are `Entries<V> = seq<(string, V)>`, with
  `Put` replacing a key in place or appending it.
- The alias table is only looked up, so it is a `map`.

Modules and the source they follow:

| module | file | source |
|---|---|---|
| `Wrappers` | `wrappers.dfy` | `Option`/`Result` |
| `Strings` | `strings.dfy` | `startsWith`, `join`, `split`, `trim`, `toLowerCase` |
| `Numbers` | `numbers.dfy` | `String(n)` and `Number.parseInt(s, 10)` on integers |
| `Sorting` | `sorting.dfy` | code-point order standing in for `localeCompare` on command names |
| `Entries` | `entries.dfy` | insertion-ordered JavaScript records and `{...a, ...b}` |
| `CliTypes` | `cli_types.dfy` | `AcclimateCLI.types.ts` |
| `CliErrors` | `cli_error.dfy` | `CLIError.ts` |
| `Builder` | `builder.dfy` | `AcclimateCLI.ts`, `createCLI.ts`, `defaultCLIState.ts` |
| `Markup` | `markup.dfy` | the `$name$` / `\|name\|` regex scans |
| `TerminalMessage` | `terminal_message.dfy` | `generateTerminalMessage.ts` |
| `Acclimate` | `acclimate.dfy` | `Acclimate.ts` |
| `Aliases` | `aliases.dfy` | `_replaceAliases` |
| `Tokenizer` | `tokenizer.dfy` | the tokenizer in `runCLI` |
| `Binder` | `binder.dfy` | `_parseAndValidateValue`, `_validateParsedValue`, the binding `reduce`s |
| `Dispatch` | `dispatch.dfy` | `_runCLIHelper` and `runCLI` |
| `HelpText` | `help_text.dfy` | `generateHelpText.ts` |
| `Prompt` | `prompt.dfy` | `requestTerminalInput.ts` |

## Model

| member | source | states |
|---|---|---|
| CliTypes.OptionPrefixes | src/AcclimateCLI/runCLI/runCLI.ts:23-29 | a full option name is one starting with `--`, an alias one starting with `-`, so every full name is also an alias |
| CliTypes.DefaultParse | src/AcclimateCLI/runCLI/runCLI.ts:84-96 | the fallback parser: a boolean is false exactly for the text `"false"`, a number is an integer or NaN, a string is kept as given |
| CliTypes.DefaultParseNumberRoundTrip | src/AcclimateCLI/AcclimateCLI.types.ts:133-141 | the default number parser (`parseInt` base 10) reads back every printed integer |
| Numbers.IntToStringRoundTrip | src/AcclimateCLI/runCLI/runCLI.ts:88-90 | `parseInt(String(n), 10) == n` for every integer |
| Numbers.NatToString | src/requestTerminalInput/requestTerminalInput.ts:46 | the decimal form of a number is a non-empty run of digits |
| Numbers.NatToStringValue | src/requestTerminalInput/requestTerminalInput.ts:46 | the digits printed for `n` have the value `n` |
| Numbers.DigitPrefix | src/AcclimateCLI/runCLI/runCLI.ts:88-90 | `parseInt` reads the longest run of leading digits and stops at the first non-digit |
| Entries.Get | src/AcclimateCLI/runCLI/runCLI.ts:176 | a record lookup is `undefined` exactly when the key is absent, otherwise it returns a value stored under that key |
| Entries.Put | src/AcclimateCLI/runCLI/runCLI.ts:130 | assigning `m[k] = v` keeps the key order (a new key goes last), makes `m[k]` equal to `v` and leaves every other key unchanged |
| Entries.Keys | src/AcclimateCLI/runCLI/runCLI.ts:126 | `Object.entries` keys, in enumeration order |
| Entries.Values | src/AcclimateCLI/runCLI/runCLI.ts:230-232 | `Object.values`, in enumeration order |
| Entries.PutKeys | src/AcclimateCLI/runCLI/runCLI.ts:130 | an assignment appends the key only when it is new |
| Entries.PutGet | src/AcclimateCLI/runCLI/runCLI.ts:130 | the assigned key reads back the assigned value |
| Entries.PutOther | src/AcclimateCLI/runCLI/runCLI.ts:130 | an assignment leaves every other key unchanged |
| Entries.PutKeepsUnique | src/AcclimateCLI/runCLI/runCLI.ts:130 | an assignment never creates a duplicate key |
| Entries.SpreadGet | src/AcclimateCLI/runCLI/runCLI.ts:279-283 | in `{...a, ...b}` a key takes its value from `b` when `b` has it, otherwise from `a` |
| Sorting.Sort | src/AcclimateCLI/generateHelpText/generateHelpText.ts:125-127 | the command names come out sorted and form a permutation of the input |
| Sorting.Insert | src/AcclimateCLI/generateHelpText/generateHelpText.ts:125-127 | inserting into a sorted list keeps it sorted and adds exactly the one name |
| Sorting.NameLeqTotal | src/AcclimateCLI/generateHelpText/generateHelpText.ts:126 | the name comparison is total |
| Sorting.NameLeqTransitive | src/AcclimateCLI/generateHelpText/generateHelpText.ts:126 | the name comparison is transitive |
| CliErrors.CliError.Text | src/CLIError.ts:155-157 | every error message reads `❌ Error running <cliName>: <message>` |
| CliErrors.InvalidCliParamValueError | src/CLIError.ts:46-59 | passes code `invalid_cli_param_value` with the name and value; the message is the given one, else `Invalid value for CLI param "<name>"` |
| CliErrors.MissingRequiredOptionError | src/CLIError.ts:60-72 | passes code `missing_required_option`; the default message is `Required option "<name>" is missing` |
| CliErrors.MissingRequiredPositionalArgError | src/CLIError.ts:74-87 | passes code `missing_required_positional_arg`; the default message is `Required positional argument "<name>" is missing` |
| CliErrors.UnknownOptionError | src/CLIError.ts:89-100 | passes code `unknown_option`; the default message is `Option "<name>" not found` |
| CliErrors.TooManyPositionalArgsError | src/CLIError.ts:102-113 | passes code `too_many_positional_args` with the count; the default message is `Too many positional arguments provided.` |
| CliErrors.InvalidPositionalArgConfigError | src/CLIError.ts:115-128 | passes code `invalid_positional_arg_config`; the default message names the argument |
| CliErrors.UnknownCommandError | src/CLIError.ts:130-141 | passes code `unknown_command`; the default message is `Command "<name>" not found` |
| CliErrors.AlreadyRunError | src/CLIError.ts:143-153 | passes code `already_run`; the default message is `CLI has already been run` |
| CliErrors.CodesDistinct | src/CLIError.ts:3-41 | the nine kinds of the `CLIErrorInfo` union have pairwise distinct codes, so the code a factory passes identifies its kind |
| Builder.CreateCli | src/AcclimateCLI/createCLI/createCLI.ts:12-16 | a new CLI has the given name and no description; its alias table, commands, positionals, options and global options are empty; its action is the no-op |
| Builder.SetAction | src/AcclimateCLI/AcclimateCLI.ts:40-60 | `.action(h)` sets the action and changes nothing else |
| Builder.SetDescription | src/AcclimateCLI/AcclimateCLI.ts:62-74 | `.description(d)` sets the description and changes nothing else |
| Builder.WithRequiredDefault | src/AcclimateCLI/AcclimateCLI.ts:99 | a stored positional's `required` is `param.required ?? true`; nothing else about it changes |
| Builder.AddPositionalArgAsWritten | src/AcclimateCLI/AcclimateCLI.ts:76-107 | as written: fails exactly when the given `required` is true and an optional positional exists, with the message "Required positional arguments must be before optional positional arguments" under the CLI name `undefined` (code `invalid_positional_arg_config`); otherwise it appends the parameter with `required ?? true` and changes nothing else |
| Builder.AddPositionalArgAsWrittenBreaksOrder | src/AcclimateCLI/AcclimateCLI.ts:82-100 | the as-written check lets a positional whose `required` is omitted follow an optional one, where it is then stored as required |
| Builder.AddPositionalArg | src/AcclimateCLI/AcclimateCLI.ts:76-107 | corrected: the ordering check reads the stored `required ?? true`; the error and the appended entry are as above |
| Builder.AddPositionalArgKeepsOrder | src/AcclimateCLI/AcclimateCLI.types.ts:188-196 | the corrected builder keeps every required positional before every optional one |
| Builder.AliasesOf | src/AcclimateCLI/AcclimateCLI.ts:138-144 | the alias `reduce` maps each alias of the option, and nothing else, to the option's name |
| Builder.MergeAliases | src/AcclimateCLI/AcclimateCLI.ts:152 | `{...prior, ...added}`: the new aliases win, the other old ones are kept |
| Builder.AddOption | src/AcclimateCLI/AcclimateCLI.ts:137-160 | every alias of the option resolves to its name, other aliases are unchanged, `optionArgs[name]` is the option, and the rest of the node is unchanged |
| Builder.AddGlobalOption | src/AcclimateCLI/AcclimateCLI.ts:109-135 | the same for `globalOptionArgs`; a global option of the same name is replaced |
| Builder.AddCommand | src/AcclimateCLI/AcclimateCLI.ts:162-183 | `commands[name]` is the sub-command; the other commands and the rest of the node are unchanged |
| Builder.GetCommandCli | src/AcclimateCLI/AcclimateCLI.ts:185-196 | returns the registered sub-command exactly when the name is registered, otherwise fails with the message `Command "<name>" not found` under the CLI name `undefined` (code `unknown_command`) |
| Markup.NameRun | src/generateTerminalMessage/generateTerminalMessage.ts:23-24 | the greedy `[a-zA-Z0-9_]+` / `[a-zA-Z_]+` run: every character counted is a name character and the next one is not |
| Markup.TokenAt | src/generateTerminalMessage/generateTerminalMessage.ts:23-24 | a token found at the start of the text is a delimiter, a valid name and a delimiter |
| Markup.NameRunOf | src/generateTerminalMessage/generateTerminalMessage.ts:23-24 | the run stops exactly at the end of a name followed by a non-name character |
| Markup.TokenAtOf | src/generateTerminalMessage/generateTerminalMessage.ts:23-24 | text that starts with a well-formed token is matched as exactly that token |
| Markup.ScanReplaceToken | src/generateTerminalMessage/generateTerminalMessage.ts:34-41 | a matched token is replaced by the callback's result, and matching resumes after it |
| Markup.ScanReplaceNoToken | src/generateTerminalMessage/generateTerminalMessage.ts:34-41 | text without a token is copied unchanged |
| Markup.ScanReplaceIdentity | src/generateTerminalMessage/generateTerminalMessage.ts:44-48 | a callback that gives every token back unchanged leaves the text unchanged |
| Markup.ScanReplacePlainPrefix | src/generateTerminalMessage/generateTerminalMessage.ts:44-48 | text without the delimiter is copied and does not affect matching after it |
| Markup.ScanReplaceTokenThenPlain | src/generateTerminalMessage/generateTerminalMessage.ts:44-48 | a token followed by delimiter-free text: the replacement, then the text, then the rest scanned |
| Markup.HasTokenAppend | src/generateTerminalMessage/generateTerminalMessage.ts:92 | appending text never removes a colour token that is already there |
| TerminalMessage.ColorReplacement | src/generateTerminalMessage/generateTerminalMessage.ts:44-48 | a colour name, lower-cased, that is in the table becomes its escape code; an unknown one is kept as `\|name\|` |
| TerminalMessage.WithReset | src/generateTerminalMessage/generateTerminalMessage.ts:92-95 | `\|reset\|` is appended if and only if the message has a colour token and its right-trimmed form does not end with `\|reset\|`; afterwards a message with colours ends with a reset |
| TerminalMessage.AppendResetEndsWithReset | src/generateTerminalMessage/generateTerminalMessage.ts:93 | a message with `\|reset\|` appended counts as ending with a reset |
| TerminalMessage.WithResetIdempotent | src/generateTerminalMessage/generateTerminalMessage.ts:92-95 | the reset is never added twice |
| TerminalMessage.PlainMessageUnchanged | src/generateTerminalMessage/generateTerminalMessage.ts:88-98 | a message with neither kind of token comes back unchanged |
| TerminalMessage.InterpolateToken | src/generateTerminalMessage/generateTerminalMessage.ts:30-42 | `$key$` becomes `String(params[key])`, and nothing when the key is missing or undefined |
| TerminalMessage.ApplyColorsToken | src/generateTerminalMessage/generateTerminalMessage.ts:44-48 | a known colour, matched case-insensitively, becomes its code; an unknown token is kept |
| TerminalMessage.ColorNamesCaseInsensitive | src/generateTerminalMessage/generateTerminalMessage.ts:46 | colour names that differ only in letter case select the same code |
| TerminalMessage.InterpolationBeforeColors | src/generateTerminalMessage/generateTerminalMessage.ts:96-97 | interpolation runs first, so a colour token supplied as a parameter is coloured |
| TerminalMessage.InterpolateWithoutTokens | src/generateTerminalMessage/generateTerminalMessage.ts:30-42 | text without `$` is not changed by interpolation |
| TerminalMessage.RedLeadRendered | src/generateTerminalMessage/generateTerminalMessage.ts:88-98 | `\|red\|head\|reset\|body\n` is rendered as red code, head, reset code, body, newline and a final reset code, because the trimmed message does not end with `\|reset\|` |
| TerminalMessage.ResetTokenColors | src/generateTerminalMessage/generateTerminalMessage.ts:44-48 | `\|reset\|`, plain text, `\|reset\|` becomes the reset code on both sides of the text |
| Acclimate.LogParamText | src/Acclimate.ts:34-39 | in `log`, a present key is replaced by its value and a missing key leaves the `$key$` token as written |
| Acclimate.InterpolateNoParams | src/Acclimate.ts:111 | with the default empty parameters, interpolation changes nothing |
| Acclimate.InterpolateParamToken | src/Acclimate.ts:34-39 | a present key is substituted, an absent one kept, and the scan continues after the token |
| Acclimate.MissingKeyDiffers | src/Acclimate.ts:34-39 | for a missing key, `log` keeps the token while `generateTerminalMessage` drops it |
| Acclimate.LogUnknownColorGetsReset | src/Acclimate.ts:111-117 | `log("\|nope\|Hello")` keeps the unknown token and appends the reset code |
| Acclimate.ColorThenPlain | src/Acclimate.ts:41-46 | a colour token is replaced by its code (case-insensitive) or kept when unknown, and the text after it is copied |
| Strings.Split | src/AcclimateCLI/generateHelpText/generateHelpText.ts:178 | `split("\n")` gives at least one piece, and no piece contains the separator |
| Strings.SplitJoin | src/AcclimateCLI/generateHelpText/generateHelpText.ts:178-188 | lines without separators, joined and split again, come back unchanged |
| Strings.JoinSplit | src/AcclimateCLI/generateHelpText/generateHelpText.ts:178 | splitting and joining again gives the text back |
| Strings.TrimEndRemovesTrailing | src/generateTerminalMessage/generateTerminalMessage.ts:93 | `trimEnd` keeps a prefix that does not end in whitespace and drops only whitespace |
| Strings.TrimStartRemovesLeading | src/requestTerminalInput/requestTerminalInput.ts:40 | `trimStart` keeps a suffix that does not start with whitespace and drops only whitespace |
| Strings.TrimEmptyIffBlank | src/requestTerminalInput/requestTerminalInput.ts:40-41 | a trimmed answer is empty if and only if every character is whitespace |
| Strings.LowerAscii | src/requestTerminalInput/requestTerminalInput.ts:63 | lower-casing keeps the length and maps each character |
| Aliases.ReplaceAliasesIntoKeys | src/AcclimateCLI/runCLI/runCLI.ts:104-135 | the re-keyed record holds exactly the names the raw keys resolve to (a known alias to its option, an unknown one to itself) |
| Aliases.ReplaceAliasesIntoGet | src/AcclimateCLI/runCLI/runCLI.ts:126-131 | a resolved name carries the value of the last raw key that resolves to it |
| Aliases.ReplaceAliasesIntoUntouched | src/AcclimateCLI/runCLI/runCLI.ts:126-131 | a name that no raw key resolves to is left as it was |
| Tokenizer.FirstOptionIndex | src/AcclimateCLI/runCLI/runCLI.ts:301-303 | the index of the first token starting with `-` (or the length when there is none); no earlier token starts with `-` |
| Tokenizer.SplitInput | src/AcclimateCLI/runCLI/runCLI.ts:305-308 | the positional tokens and the rest together make up the input; no positional token starts with `-`, and the rest starts with one |
| Tokenizer.Tokenize | src/AcclimateCLI/runCLI/runCLI.ts:299-343 | the tokenizer loop returns the positional split and exactly the alias groups routed in order (`RawArgsOf`) |
| Tokenizer.RouteGet | src/AcclimateCLI/runCLI/runCLI.ts:324-335 | one group's value tokens, joined by single spaces, are stored under the group's resolved name in that name's bucket |
| Tokenizer.ScanSentinel | src/AcclimateCLI/runCLI/runCLI.ts:322 | the trailing `"-"` only closes the last group; the group it opens is never stored |
| Tokenizer.ScanFlatten | src/AcclimateCLI/runCLI/runCLI.ts:322-342 | scanning the tokens of well-formed groups gives those groups back |
| Tokenizer.GroupsUnique | src/AcclimateCLI/runCLI/runCLI.ts:322-342 | the grouping of a token list into alias-plus-values groups is unique |
| Tokenizer.RouteFromBuckets | src/AcclimateCLI/runCLI/runCLI.ts:327-335 | a name goes to the global bucket exactly when the root declares a global option of that full name |
| Tokenizer.RouteFromNames | src/AcclimateCLI/runCLI/runCLI.ts:322-342 | the stored names are exactly the resolved names of the groups |
| Tokenizer.RouteAllKeys | src/AcclimateCLI/runCLI/runCLI.ts:310-342 | starting empty, the names stored are exactly the groups' resolved names, each in its bucket |
| Tokenizer.RouteFromUntouched | src/AcclimateCLI/runCLI/runCLI.ts:322-342 | a name that no group resolves to is left as it was |
| Tokenizer.RouteFromLast | src/AcclimateCLI/runCLI/runCLI.ts:325-335 | the last group resolving to a name decides its raw value: its value tokens joined by single spaces |
| Tokenizer.RouteFromUnique | src/AcclimateCLI/runCLI/runCLI.ts:332-334 | neither bucket ever holds a name twice |
| Tokenizer.SplitAt | src/AcclimateCLI/runCLI/runCLI.ts:301-308 | the split falls exactly between the non-alias prefix and the first alias |
| Tokenizer.RawArgsOfGroups | src/AcclimateCLI/runCLI/runCLI.ts:299-343 | for any input made of positional tokens followed by alias groups, the positionals are that prefix and the raw arguments are those groups routed in order |
| Tokenizer.NegativeValueIsAlias | src/AcclimateCLI/runCLI/runCLI.ts:323 | in `["--age", "-1"]` the `-1` is an alias, so `--age` gets `""` |
| Binder.ValidateParsedValue | src/AcclimateCLI/runCLI/runCLI.ts:35-57 | a value passes exactly when there is no validator or the validator returns `true`; otherwise the error is InvalidCliParamValue, with the validator's string as message or the default message for `false` |
| Binder.PositionalSlots | src/AcclimateCLI/runCLI/runCLI.ts:209-227 | the i-th positional takes the i-th positional token if there is one, is stored under its own name (not camel-cased) and fails with MissingRequiredPositionalArg |
| Binder.OptionSlots | src/AcclimateCLI/runCLI/runCLI.ts:230-274 | each option takes the raw value under its full name, is stored under the camel-cased name and fails with MissingRequiredOption |
| Binder.BindSlots | src/AcclimateCLI/runCLI/runCLI.ts:209-274 | the binding loop computes the `reduce`'s record, or the first error thrown |
| Binder.RequiredIgnoresDefault | src/AcclimateCLI/runCLI/runCLI.ts:211-217 | a required parameter with no raw value fails, whatever default it declares |
| Binder.AbsentIsUndefined | src/AcclimateCLI/runCLI/runCLI.ts:69-72 | an optional absent parameter without a default is `undefined`, with no validator call |
| Binder.DefaultIsNotParsed | src/AcclimateCLI/runCLI/runCLI.ts:69-78 | an optional absent parameter takes its default unparsed, passing through the validator |
| Binder.PresentIsParsedThenValidated | src/AcclimateCLI/runCLI/runCLI.ts:80-101 | a present value goes through the declared parser, else the default parser for its type, then the validator |
| Binder.BareFlagIsTrue | src/AcclimateCLI/runCLI/runCLI.ts:85-87 | a boolean flag with no value binds to `true` |
| Binder.BindFromFailure | src/AcclimateCLI/runCLI/runCLI.ts:209-274 | binding fails exactly when some slot fails, and then with the first failing slot's error |
| Binder.BindFromGet | src/AcclimateCLI/runCLI/runCLI.ts:218-224 | when binding succeeds, each slot's value is stored under its key unless a later slot reuses the key |
| Binder.BindFromUntouched | src/AcclimateCLI/runCLI/runCLI.ts:209-274 | a key that no slot uses keeps its value |
| Binder.BindFromUnique | src/AcclimateCLI/runCLI/runCLI.ts:209-274 | the bound record never holds a key twice |
| Dispatch.InheritGlobals | src/AcclimateCLI/runCLI/runCLI.ts:179-186 | adding the parent's global options changes only the sub-command's aliases and global options |
| Dispatch.InheritGlobalsDeclares | src/AcclimateCLI/runCLI/runCLI.ts:178-186 | the derived sub-command declares every global option of its parent |
| Dispatch.InheritGlobalsUntouched | src/AcclimateCLI/runCLI/runCLI.ts:178-186 | a global option that the parent does not declare keeps the sub-command's own entry |
| Dispatch.InheritGlobalsKeeps | src/AcclimateCLI/runCLI/runCLI.ts:178-186 | inheriting never removes a global option |
| Dispatch.MergeArgsGet | src/AcclimateCLI/runCLI/runCLI.ts:279-283 | on a shared key, global options win over options and options over positionals |
| Dispatch.RunCli | src/AcclimateCLI/runCLI/runCLI.ts:299-345 | running the tokenizer and then the helper gives the specified outcome `Run` |
| Dispatch.RunCliHelper | src/AcclimateCLI/runCLI/runCLI.ts:137-292 | the helper with its binding loops gives the specified outcome `RunHelper` |
| Dispatch.AllActionsNeverHelp | src/AcclimateCLI/runCLI/runCLI.ts:277-291 | in a tree where every command has an action (as builder-made CLIs do), a run never falls back to help |
| Dispatch.TooManyPositionals | src/AcclimateCLI/runCLI/runCLI.ts:201-206 | at the command reached, too many positional tokens fail with TooManyPositionalArgs, counting all of them, before anything is bound |
| Dispatch.UnknownCommandIsTooMany | src/AcclimateCLI/runCLI/runCLI.ts:171-206 | an unknown first token at a command without positionals fails with this command's name and the message "Too many positional arguments provided." (code `too_many_positional_args` with the count), not as an unknown command |
| Dispatch.NoCommandsBindsAtRoot | src/AcclimateCLI/runCLI/runCLI.ts:171-177 | without sub-commands the run binds at the root, using the alias-resolved raw values |
| Dispatch.RanPositional | src/AcclimateCLI/runCLI/runCLI.ts:209-288 | the action receives each positional's bound value under its name, unless an option stores a value under the same key |
| HelpText.DisplayName | src/AcclimateCLI/generateHelpText/generateHelpText.ts:49-51 | the name is shown first, followed by the aliases only when there are some |
| HelpText.ParamSegments | src/AcclimateCLI/generateHelpText/generateHelpText.ts:41-61 | a parameter line has three non-empty segments (name, type and required/optional label, description or "No description"), plus the default label exactly when there is a default |
| HelpText.FormatSection | src/AcclimateCLI/generateHelpText/generateHelpText.ts:63-72 | a section is its title followed by one line per parameter, or by the `None` line when there are none |
| HelpText.SortedNames | src/AcclimateCLI/generateHelpText/generateHelpText.ts:125-130 | the command names are listed sorted, each exactly once |
| HelpText.SubCommand | src/AcclimateCLI/generateHelpText/generateHelpText.ts:148-152 | a listed name leads to its registered sub-command, which is smaller than the tree |
| HelpText.GetIndex | src/AcclimateCLI/generateHelpText/generateHelpText.ts:148-152 | the position where a registered name's entry is found |
| HelpText.CommandSection | src/AcclimateCLI/generateHelpText/generateHelpText.ts:137-155 | level 2 shows one "Available Commands" line; level 1 shows `None`, or one line per command in sorted order with its description |
| HelpText.IndentLines | src/AcclimateCLI/generateHelpText/generateHelpText.ts:183-188 | each non-empty line gets the indent and empty lines stay empty |
| HelpText.GenerateHelpTextHelper | src/AcclimateCLI/generateHelpText/generateHelpText.ts:95-189 | the line-pushing helper returns the specified screen `HelpText` |
| HelpText.PushSections | src/AcclimateCLI/generateHelpText/generateHelpText.ts:157-170 | the four sections are pushed in order, with a blank line between each two |
| HelpText.PushSubScreens | src/AcclimateCLI/generateHelpText/generateHelpText.ts:172-181 | each sub-command's level-2 screen follows a blank line, in sorted order |
| HelpText.SubHelpLinesStep | src/AcclimateCLI/generateHelpText/generateHelpText.ts:177-179 | each round adds a blank line and the split lines of one sub-command's screen |
| HelpText.NestedShowsOnlyNames | src/AcclimateCLI/generateHelpText/generateHelpText.ts:138-142 | the level-2 screen depends on the sub-commands below only through their names, so the recursion stops at depth 2 |
| HelpText.NestedLinesIndented | src/AcclimateCLI/generateHelpText/generateHelpText.ts:183-188 | on a level-2 screen every line is blank or indented by four spaces |
| HelpText.TopStartsWithName | src/AcclimateCLI/generateHelpText/generateHelpText.ts:132 | the help screen starts with the command's name in bright cyan |
| HelpText.HelpLinesStartWithName | src/AcclimateCLI/generateHelpText/generateHelpText.ts:132 | at both levels the first line is the title line |
| Prompt.Terminal.constructor | src/requestTerminalInput/requestTerminalInput.ts:36 | a fresh interface has the given answers pending and nothing shown, written or closed |
| Prompt.Terminal.Question | src/requestTerminalInput/requestTerminalInput.ts:39 | shows the prompt and takes the next answer, or none when no answer is left |
| Prompt.Terminal.Write | src/requestTerminalInput/requestTerminalInput.ts:53-57 | appends the text to what was written |
| Prompt.Terminal.Close | src/requestTerminalInput/requestTerminalInput.ts:79-81 | counts one close and changes nothing else |
| Prompt.PromptMessage | src/requestTerminalInput/requestTerminalInput.ts:26-33 | the prompt starts with the message and ends with the notice and a space |
| Prompt.RequiredPromptHasNoHint | src/requestTerminalInput/requestTerminalInput.ts:26-33 | a required question without a default adds only the trailing space to the message |
| Prompt.WarningTextRendered | src/requestTerminalInput/requestTerminalInput.ts:53-57 | each warning is written as red first sentence, reset, the rest of the line and a final reset |
| Prompt.YesNoWords | src/requestTerminalInput/requestTerminalInput.ts:64-69 | an answer reads as yes exactly for `y`/`yes` and as no exactly for `n`/`no` |
| Prompt.Respond | src/requestTerminalInput/requestTerminalInput.ts:40-77 | one round of the loop decides the answer as `Classify` specifies |
| Prompt.Ask | src/requestTerminalInput/requestTerminalInput.ts:39-76 | one round shows the prompt and consumes one answer; a refused answer writes exactly its warning |
| Prompt.AskUntilAccepted | src/requestTerminalInput/requestTerminalInput.ts:38-78 | the loop returns the session's reply, consumes exactly the answers it read, shows the prompt once per question and writes one warning per refusal |
| Prompt.RequestTerminalInput | src/requestTerminalInput/requestTerminalInput.ts:26-81 | the same, with the interpolated and coloured prompt; the interface is closed exactly once on every exit |
| Prompt.AfterAccept | src/requestTerminalInput/requestTerminalInput.ts:44-49 | an accepted answer ends the session: one prompt and no warning |
| Prompt.AfterRefusal | src/requestTerminalInput/requestTerminalInput.ts:58 | a refused answer costs one prompt and one warning, and the session goes on with the remaining answers |
| Prompt.ConverseStopsAtFirstAccept | src/requestTerminalInput/requestTerminalInput.ts:38-78 | the session stops at the first acceptable answer and refused all before it; when none is acceptable it reads them all |
| Prompt.ConverseWarnsPerRefusal | src/requestTerminalInput/requestTerminalInput.ts:52-75 | one warning per refused answer, in order, with the reason for each |
| Prompt.RequiredNeverEmpty | src/requestTerminalInput/requestTerminalInput.ts:52-60 | a required question without a default never returns `undefined` |
| Prompt.ClassifyRequired | src/requestTerminalInput/requestTerminalInput.ts:52-60 | no single answer to such a question is accepted as `undefined` |
| Prompt.BooleanRepliesOnly | src/requestTerminalInput/requestTerminalInput.ts:62-76 | a boolean question without a default returns only "true" or "false" |
| Prompt.ClassifyBoolean | src/requestTerminalInput/requestTerminalInput.ts:62-76 | no single answer to such a question is accepted as anything else |
| Prompt.BooleanCaseInsensitive | src/requestTerminalInput/requestTerminalInput.ts:62-75 | y/yes and n/no are recognised in any letter case and with surrounding blanks; any other non-blank answer is refused |
| Prompt.NonBooleanAnswerUntrimmed | src/requestTerminalInput/requestTerminalInput.ts:77 | a non-blank answer to a non-boolean question is returned as typed, untrimmed |
| Prompt.BlankAnswer | src/requestTerminalInput/requestTerminalInput.ts:41-61 | a blank answer returns the default as a string; without a default it is refused when required and `undefined` otherwise |

## Left out

- Terminal and process I/O:
  - readline, `stdout.write` and `console.log` are not modelled as I/O. The prompt works on a `Terminal` object that holds a finite queue of answers, the prompts it has shown and the text it has written.
  - Running out of answers ends the session with `InputEnded`. The real loop would wait for more input.
  - `process.argv` becomes the `input` parameter.
  - The help screen that `runCLI` logs becomes the outcome `Help(text)`.
- Invoking the action is not modelled. The outcome `Ran(handler, args)` names the action and carries the record it would receive.
- `async`/`await` and `try`/`finally` are not modelled. The single `Close` after the loop covers both ways the loop can end.
- `camelCase` from change-case is a parameter `camel` of the dispatcher. It is not defined here.
- `localeCompare` is replaced by code-point lexicographic order. Locale-sensitive collation is not modelled.
- `JSON.stringify` of a string default is the string between quotes, without escaping.
- `toLowerCase` is modelled on ASCII letters only. Unicode case mapping is out of scope.
- Floating point:
  - numbers, including message parameters, are integers plus NaN;
  - `parseInt` is modelled on ASCII digits with an optional sign after leading whitespace;
  - fractional and exponent forms are not modelled, nor are numbers too large for a double.
- `cli.getName()` is not defined on the builder's object. The model reads it as `state.name`.
- `askIfEmpty` is declared on parameters, but the dispatcher never uses it, so it has no effect in the model.
- The compile-time types (`ValueOfParam`, `FullCLIArgValues`, `AddEntry`) have no runtime behaviour.
- JavaScript prototype keys are not modelled. A first token such as `toString` finds no command here, whereas `commands["toString"]` is truthy in JavaScript.
- CliErrors.CliError: the thrown error keeps only its text, `❌ Error running <cliName>: <message>` (`CliError.Text`). Its `info` field records the `code` and `details` that the factory passes to the constructor, which the constructor discards. Contracts that pin down an error also state its `cliName` and `message`, which determine the text.
- The `already_run` and `unknown_option` errors are declared but never raised. They are modelled as factories only.
- `invalidPositionalArgConfig` and `unknownCommand` are called without a `cliName`, so their text reads `Error running undefined`. The model passes the CLI name `"undefined"` there.
- The doc comment on `interpolateParams` in `generateTerminalMessage.ts` says a missing key is left unchanged. The code replaces it with `""`, and the model follows the code (`TerminalMessage.InterpolateToken`, `Acclimate.MissingKeyDiffers`).
- Some tests disagree with the code; the model follows the code:
  - The prompt tests expect a `": "` suffix and pass an `options` key. The code ends the prompt with `" "` and reads `promptOptions`.
  - A `log` test expects no trailing reset after an unknown colour. The code appends one (`Acclimate.LogUnknownColorGetsReset`).
- Prompt.YesNo: the source compares the lower-cased answer with four literal words. The model reads it character by character; `Prompt.YesNoWords` proves the two agree.

## Findings

| source | as written | input that shows it | evidently intended | confidence | as-written member | corrected member |
|---|---|---|---|---|---|---|
| src/AcclimateCLI/AcclimateCLI.ts:82-100 | The ordering check reads `param.required` as given. The positional is then stored with `param.required ?? true`. | Add an optional positional, then one with `required` omitted: the check passes, and a required positional follows an optional one. | The check uses the stored value `param.required ?? true`, so no required positional follows an optional one (`AcclimateCLI.types.ts:188-196`). | medium; not executed | Builder.AddPositionalArgAsWritten, Builder.AddPositionalArgAsWrittenBreaksOrder | Builder.AddPositionalArg, Builder.AddPositionalArgKeepsOrder |
