/**
 * Running a command line (`runCLI` and `_runCLIHelper`): split the input,
 * walk down the command tree along the leading positional tokens, bind the
 * arguments at the command reached and either run its action or log its
 * help screen.
 *
 * The action is not called: the model returns which handler would run and
 * the record it would receive. A thrown CLI error is the `Failed` outcome.
 */
module Dispatch {
  import opened Wrappers
  import opened Entries
  import opened CliTypes
  import opened CliErrors
  import opened Aliases
  import opened Tokenizer
  import opened Binder
  import opened Builder
  import opened HelpText
  import Acclimate

  datatype Outcome =
    | Ran(handler: Handler, args: Entries<Option<Value>>)
    | Help(text: string)
    | Failed(error: CliError)

  /**
   * The `reduce` that adds the parent's global options to a sub-command,
   * one `addGlobalOption` at a time.
   */
  function InheritGlobals(sub: Cli, globals: seq<Param>): (r: Cli)
    ensures r.(aliases := sub.aliases, globalOptionArgs := sub.globalOptionArgs) == sub
    decreases |globals|
  {
    if globals == [] then sub
    else InheritGlobals(AddGlobalOption(sub, globals[0]), globals[1..])
  }

  /** `firstArg && !isEmptyObject(commands) && commands[firstArg]`. */
  predicate Descends(cli: Cli, rawPositional: seq<string>)
  {
    |rawPositional| > 0 && rawPositional[0] != "" && |cli.commands| > 0
    && Get(cli.commands, rawPositional[0]).Some?
  }

  /** The sub-command the first token names, with the parent's global options added. */
  function Child(cli: Cli, rawPositional: seq<string>): Cli
    requires Descends(cli, rawPositional)
  {
    InheritGlobals(Get(cli.commands, rawPositional[0]).value, Values(cli.globalOptionArgs))
  }

  /** The three records spread into one: later records win on a shared key. */
  function MergeArgs(positional: Entries<Option<Value>>, options: Entries<Option<Value>>,
                     globals: Entries<Option<Value>>): Entries<Option<Value>>
  {
    Spread(Spread(Spread([], positional), options), globals)
  }

  /** The outcome when the command reached has an action, or shows its help. */
  function Finish(cli: Cli, args: Entries<Option<Value>>): Outcome
  {
    if cli.action.Some? then Ran(cli.action.value, args)
    else Help(Acclimate.LogMessage(GenerateHelpText(cli), map[]))
  }

  /**
   * The binding part of `_runCLIHelper` at the command reached: too many
   * positional tokens fail first, then the positionals, the options and the
   * global options are bound in that order.
   */
  function BindAt(cli: Cli, rawPositional: seq<string>, options: Entries<string>,
                  globals: Entries<string>, camel: string -> string): Outcome
  {
    if |rawPositional| > |cli.positionalArgs| then
      Failed(TooManyPositionalArgsError(cli.name, |rawPositional|, None))
    else
      var pv := Bind(cli.name, PositionalSlots(cli.name, cli.positionalArgs, rawPositional));
      if pv.Failure? then Failed(pv.error)
      else
        var ov := Bind(cli.name, OptionSlots(cli.name, Values(cli.optionArgs), options, camel));
        if ov.Failure? then Failed(ov.error)
        else
          var gv := Bind(cli.name, OptionSlots(cli.name, Values(cli.globalOptionArgs), globals, camel));
          if gv.Failure? then Failed(gv.error)
          else Finish(cli, MergeArgs(pv.value, ov.value, gv.value))
  }

  /**
   * `_runCLIHelper`: re-key the raw options through this command's alias
   * table, then descend into the sub-command the first token names, or bind
   * here.
   */
  function RunHelper(cli: Cli, rawPositional: seq<string>, rawOptions: Entries<string>,
                     rawGlobals: Entries<string>, camel: string -> string): Outcome
    decreases |rawPositional|
  {
    var options := ReplaceAliases(cli.aliases, rawOptions);
    var globals := ReplaceAliases(cli.aliases, rawGlobals);
    if Descends(cli, rawPositional) then
      RunHelper(Child(cli, rawPositional), rawPositional[1..], options, globals, camel)
    else BindAt(cli, rawPositional, options, globals, camel)
  }

  /** `runCLI`: tokenize the input, then run from the root. */
  function Run(cli: Cli, input: seq<string>, camel: string -> string): Outcome
  {
    var raw := RawArgsOf(cli, input);
    RunHelper(cli, SplitInput(input).0, raw.options, raw.globals, camel)
  }

  /** `runCLI` as the source runs it: the tokenizer loop, then `_runCLIHelper`. */
  method RunCli(cli: Cli, input: seq<string>, camel: string -> string) returns (o: Outcome)
    ensures o == Run(cli, input, camel)
  {
    var positional, raw := Tokenize(cli, input);
    o := RunCliHelper(cli, positional, raw.options, raw.globals, camel);
  }

  /** `_runCLIHelper` with its three binding loops. */
  method RunCliHelper(cli: Cli, rawPositional: seq<string>, rawOptions: Entries<string>,
                      rawGlobals: Entries<string>, camel: string -> string) returns (o: Outcome)
    ensures o == RunHelper(cli, rawPositional, rawOptions, rawGlobals, camel)
    decreases |rawPositional|
  {
    var options := ReplaceAliases(cli.aliases, rawOptions);
    var globals := ReplaceAliases(cli.aliases, rawGlobals);
    if Descends(cli, rawPositional) {
      o := RunCliHelper(Child(cli, rawPositional), rawPositional[1..], options, globals, camel);
      return;
    }
    if |rawPositional| > |cli.positionalArgs| {
      return Failed(TooManyPositionalArgsError(cli.name, |rawPositional|, None));
    }
    var pv := BindSlots(cli.name, PositionalSlots(cli.name, cli.positionalArgs, rawPositional));
    if pv.Failure? {
      return Failed(pv.error);
    }
    var ov := BindSlots(cli.name, OptionSlots(cli.name, Values(cli.optionArgs), options, camel));
    if ov.Failure? {
      return Failed(ov.error);
    }
    var gv := BindSlots(cli.name, OptionSlots(cli.name, Values(cli.globalOptionArgs), globals, camel));
    if gv.Failure? {
      return Failed(gv.error);
    }
    var args := MergeArgs(pv.value, ov.value, gv.value);
    if cli.action.Some? {
      return Ran(cli.action.value, args);
    }
    var help := GenerateHelpTextHelper(cli, Top);
    o := Help(Acclimate.LogMessage(help, map[]));
  }

  /**
   * A sub-command run below its parent declares every global option of
   * the parent, under the same name.
   */
  lemma {:induction false} InheritGlobalsDeclares(sub: Cli, globals: seq<Param>, i: nat)
    requires i < |globals|
    ensures Get(InheritGlobals(sub, globals).globalOptionArgs, globals[i].name).Some?
    decreases |globals|
  {
    var next := AddGlobalOption(sub, globals[0]);
    var rest := globals[1..];
    assert InheritGlobals(sub, globals) == InheritGlobals(next, rest);
    if i > 0 {
      assert globals[i] == rest[i - 1];
      InheritGlobalsDeclares(next, rest, i - 1);
    } else {
      InheritGlobalsKeeps(next, rest, globals[0].name);
    }
  }

  /** A global option the parent does not declare keeps the sub-command's own entry. */
  lemma {:induction false} InheritGlobalsUntouched(sub: Cli, globals: seq<Param>, k: string)
    requires forall i :: 0 <= i < |globals| ==> globals[i].name != k
    ensures Get(InheritGlobals(sub, globals).globalOptionArgs, k) == Get(sub.globalOptionArgs, k)
    decreases |globals|
  {
    if globals != [] {
      var rest := globals[1..];
      assert forall i :: 0 <= i < |rest| ==> rest[i] == globals[i + 1];
      InheritGlobalsUntouched(AddGlobalOption(sub, globals[0]), rest, k);
    }
  }

  /** Adding more global options never removes a declared one. */
  lemma {:induction false} InheritGlobalsKeeps(sub: Cli, globals: seq<Param>, k: string)
    requires Get(sub.globalOptionArgs, k).Some?
    ensures Get(InheritGlobals(sub, globals).globalOptionArgs, k).Some?
    decreases |globals|
  {
    if globals != [] {
      InheritGlobalsKeeps(AddGlobalOption(sub, globals[0]), globals[1..], k);
    }
  }

  /**
   * On a shared key the global options win over the options, and the
   * options over the positionals.
   */
  lemma MergeArgsGet(positional: Entries<Option<Value>>, options: Entries<Option<Value>>,
                     globals: Entries<Option<Value>>, k: string)
    requires UniqueKeys(positional) && UniqueKeys(options) && UniqueKeys(globals)
    ensures Get(MergeArgs(positional, options, globals), k) ==
      if k in Keys(globals) then Get(globals, k)
      else if k in Keys(options) then Get(options, k)
      else Get(positional, k)
  {
    SpreadGet([], positional, k);
    SpreadGet(Spread([], positional), options, k);
    SpreadGet(Spread(Spread([], positional), options), globals, k);
    if k !in Keys(positional) {
      GetAbsent(positional, k);
    }
  }

  lemma GetAbsent<V>(m: Entries<V>, k: string)
    requires k !in Keys(m)
    ensures Get(m, k) == None
  {
    if m != [] {
      assert Keys(m) == [m[0].0] + Keys(m[1..]);
      GetAbsent(m[1..], k);
    }
  }

  /** Every command in the tree, at every depth, has an action. */
  predicate AllHaveActions(cli: Cli)
    decreases cli
  {
    cli.action.Some?
    && forall i :: 0 <= i < |cli.commands| ==> ChildHasActions(cli, i)
  }

  predicate ChildHasActions(cli: Cli, i: nat)
    requires i < |cli.commands|
    decreases cli, 0
  {
    assert cli.commands[i] < cli;
    AllHaveActions(cli.commands[i].1)
  }

  /**
   * In a tree where every command has an action, a run never falls back to
   * the help screen: it runs an action or fails.
   */
  lemma {:induction false} AllActionsNeverHelp(cli: Cli, rawPositional: seq<string>, rawOptions: Entries<string>,
                                               rawGlobals: Entries<string>, camel: string -> string)
    requires AllHaveActions(cli)
    ensures !RunHelper(cli, rawPositional, rawOptions, rawGlobals, camel).Help?
    decreases |rawPositional|
  {
    var options := ReplaceAliases(cli.aliases, rawOptions);
    var globals := ReplaceAliases(cli.aliases, rawGlobals);
    if Descends(cli, rawPositional) {
      var i := GetIndex(cli.commands, rawPositional[0]);
      assert ChildHasActions(cli, i);
      var child := Child(cli, rawPositional);
      assert child.(aliases := cli.commands[i].1.aliases, globalOptionArgs := cli.commands[i].1.globalOptionArgs)
        == cli.commands[i].1;
      var named := cli.commands[i].1;
      assert AllHaveActions(named);
      assert AllHaveActions(child) by {
        assert child.action == named.action;
        assert child.commands == named.commands;
        forall j | 0 <= j < |child.commands| ensures ChildHasActions(child, j) {
          assert ChildHasActions(named, j);
          assert child.commands[j] == named.commands[j];
        }
      }
      AllActionsNeverHelp(child, rawPositional[1..], options, globals, camel);
    }
  }

  /**
   * At a command that is not descended from, more positional tokens than
   * declared positionals fail with TooManyPositionalArgs, counting them all,
   * before any argument is parsed.
   */
  lemma TooManyPositionals(cli: Cli, rawPositional: seq<string>, rawOptions: Entries<string>,
                           rawGlobals: Entries<string>, camel: string -> string)
    requires !Descends(cli, rawPositional)
    requires |rawPositional| > |cli.positionalArgs|
    ensures RunHelper(cli, rawPositional, rawOptions, rawGlobals, camel)
      == Failed(TooManyPositionalArgsError(cli.name, |rawPositional|, None))
  {
  }

  /**
   * A first token that names no command, at a command with no positional
   * arguments, is reported as too many positional arguments (not as an
   * unknown command).
   */
  lemma UnknownCommandIsTooMany(cli: Cli, rawPositional: seq<string>, rawOptions: Entries<string>,
                                rawGlobals: Entries<string>, camel: string -> string)
    requires |rawPositional| > 0 && rawPositional[0] !in Keys(cli.commands)
    requires cli.positionalArgs == []
    ensures RunHelper(cli, rawPositional, rawOptions, rawGlobals, camel).Failed?
    ensures RunHelper(cli, rawPositional, rawOptions, rawGlobals, camel).error.info
      == TooManyPositionalArgs(|rawPositional|)
    ensures RunHelper(cli, rawPositional, rawOptions, rawGlobals, camel).error.cliName == cli.name
    ensures RunHelper(cli, rawPositional, rawOptions, rawGlobals, camel).error.message
      == "Too many positional arguments provided."
  {
    GetAbsent(cli.commands, rawPositional[0]);
    TooManyPositionals(cli, rawPositional, rawOptions, rawGlobals, camel);
  }

  /**
   * With no sub-commands, a run binds at the root: the outcome is the
   * binding of the root's own parameters.
   */
  lemma NoCommandsBindsAtRoot(cli: Cli, rawPositional: seq<string>, rawOptions: Entries<string>,
                              rawGlobals: Entries<string>, camel: string -> string)
    requires cli.commands == []
    ensures RunHelper(cli, rawPositional, rawOptions, rawGlobals, camel) ==
      BindAt(cli, rawPositional, ReplaceAliases(cli.aliases, rawOptions), ReplaceAliases(cli.aliases, rawGlobals), camel)
  {
  }

  /**
   * When the binding succeeds and the command has an action, the action
   * receives each positional's bound value under its name, unless an option
   * or global option stores a value under the same key.
   */
  lemma RanPositional(cli: Cli, rawPositional: seq<string>, options: Entries<string>,
                      globals: Entries<string>, camel: string -> string, i: nat)
    requires i < |cli.positionalArgs|
    requires BindAt(cli, rawPositional, options, globals, camel).Ran?
    requires forall j :: i < j < |cli.positionalArgs| ==> cli.positionalArgs[j].name != cli.positionalArgs[i].name
    requires forall p :: p in Values(cli.optionArgs) + Values(cli.globalOptionArgs) ==> camel(p.name) != cli.positionalArgs[i].name
    ensures var slot := PositionalSlots(cli.name, cli.positionalArgs, rawPositional)[i];
      BindSlot(cli.name, slot).Success? &&
      Get(BindAt(cli, rawPositional, options, globals, camel).args, cli.positionalArgs[i].name)
        == Some(BindSlot(cli.name, slot).value)
  {
    var name := cli.positionalArgs[i].name;
    var ps := PositionalSlots(cli.name, cli.positionalArgs, rawPositional);
    var os := OptionSlots(cli.name, Values(cli.optionArgs), options, camel);
    var gs := OptionSlots(cli.name, Values(cli.globalOptionArgs), globals, camel);
    var pv := Bind(cli.name, ps);
    var ov := Bind(cli.name, os);
    var gv := Bind(cli.name, gs);
    BindFromGet(cli.name, ps, [], i);
    BindFromUnique(cli.name, ps, []);
    BindFromUnique(cli.name, os, []);
    BindFromUnique(cli.name, gs, []);
    forall j | 0 <= j < |os| ensures os[j].key != name {
      assert Values(cli.optionArgs)[j] in Values(cli.optionArgs) + Values(cli.globalOptionArgs);
    }
    forall j | 0 <= j < |gs| ensures gs[j].key != name {
      assert Values(cli.globalOptionArgs)[j] in Values(cli.optionArgs) + Values(cli.globalOptionArgs);
    }
    BindFromUntouched(cli.name, os, [], name);
    BindFromUntouched(cli.name, gs, [], name);
    GetNoneIsAbsent(ov.value, name);
    GetNoneIsAbsent(gv.value, name);
    MergeArgsGet(pv.value, ov.value, gv.value, name);
  }

  lemma GetNoneIsAbsent<V>(m: Entries<V>, k: string)
    requires Get(m, k).None?
    ensures k !in Keys(m)
  {
    if m != [] {
      assert Keys(m) == [m[0].0] + Keys(m[1..]);
      GetNoneIsAbsent(m[1..], k);
    }
  }
}
