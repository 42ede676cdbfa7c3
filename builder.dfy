/**
 * The persistent builder: every call returns a new command node made by
 * copying the receiver's state and changing one field. `createCLI` starts
 * from the empty default state.
 */
module Builder {
  import opened Wrappers
  import opened Entries
  import opened CliTypes
  import opened CliErrors

  /**
   * The shared default state. Its `name` is a placeholder: the source omits
   * the name from the default and `createCLI` always sets it.
   */
  const DefaultCliState: Cli := Cli("", None, map[], [], [], [], [], Some(NoOp))

  /** A new command node named `name`: nothing declared, a no-op action. */
  function CreateCli(name: string): (c: Cli)
    ensures c.name == name && c.description == None
    ensures c.aliases == map[] && c.commands == []
    ensures c.positionalArgs == [] && c.optionArgs == [] && c.globalOptionArgs == []
    ensures c.action == Some(NoOp)
  {
    DefaultCliState.(name := name)
  }

  /** `.action(h)`: only the action changes. */
  function SetAction(c: Cli, h: Handler): (r: Cli)
    ensures r.action == Some(h)
    ensures r.(action := c.action) == c
  {
    c.(action := Some(h))
  }

  /** `.description(d)`: only the description changes. */
  function SetDescription(c: Cli, d: string): (r: Cli)
    ensures r.description == Some(d)
    ensures r.(description := c.description) == c
  {
    c.(description := Some(d))
  }

  /** Some declared positional is not required. */
  predicate HasOptionalPositional(ps: seq<Param>)
  {
    exists i | 0 <= i < |ps| :: !IsRequired(ps[i])
  }

  /** No required positional comes after an optional one. */
  ghost predicate PositionalOrder(ps: seq<Param>)
  {
    forall i, j :: 0 <= i < j < |ps| && !IsRequired(ps[i]) ==> !IsRequired(ps[j])
  }

  /** The stored form of a positional: `required` defaults to true. */
  function WithRequiredDefault(p: Param): (q: Param)
    ensures q.required == Some(p.required.GetOr(true))
    ensures q.(required := p.required) == p
  {
    p.(required := Some(p.required.GetOr(true)))
  }

  const PositionalOrderMessage := "Required positional arguments must be before optional positional arguments"

  /**
   * `.addPositionalArg(p)` as written: the ordering check reads `p.required`
   * as given, so a parameter whose `required` is omitted passes the check
   * and is then stored as required. The error carries no CLI name.
   */
  function AddPositionalArgAsWritten(c: Cli, p: Param): (r: Result<Cli, CliError>)
    ensures r.Failure? <==> IsRequired(p) && HasOptionalPositional(c.positionalArgs)
    ensures r.Failure? ==> r.error.info == InvalidPositionalArgConfig(p.name)
    ensures r.Failure? ==> r.error.cliName == "undefined" && r.error.message == PositionalOrderMessage
    ensures r.Success? ==> r.value.positionalArgs == c.positionalArgs + [WithRequiredDefault(p)]
    ensures r.Success? ==> r.value.(positionalArgs := c.positionalArgs) == c
  {
    if IsRequired(p) && HasOptionalPositional(c.positionalArgs) then
      Failure(InvalidPositionalArgConfigError("undefined", p.name, Some(PositionalOrderMessage)))
    else
      Success(c.(positionalArgs := c.positionalArgs + [WithRequiredDefault(p)]))
  }

  /** The as-written check lets a required positional follow an optional one. */
  lemma AddPositionalArgAsWrittenBreaksOrder()
    ensures
      var optional := Param("maybe", StringType, Some(false), None, [], None, None, None);
      var omitted := Param("must", StringType, None, None, [], None, None, None);
      var c := CreateCli("cli").(positionalArgs := [optional]);
      && PositionalOrder(c.positionalArgs)
      && AddPositionalArgAsWritten(c, omitted).Success?
      && !PositionalOrder(AddPositionalArgAsWritten(c, omitted).value.positionalArgs)
  {
    var optional := Param("maybe", StringType, Some(false), None, [], None, None, None);
    var omitted := Param("must", StringType, None, None, [], None, None, None);
    var c := CreateCli("cli").(positionalArgs := [optional]);
    var ps := AddPositionalArgAsWritten(c, omitted).value.positionalArgs;
    assert !IsRequired(ps[0]) && IsRequired(ps[1]);
  }

  /**
   * `.addPositionalArg(p)` with the check applied to the stored value
   * `p.required ?? true`, as the ordering rule intends.
   */
  function AddPositionalArg(c: Cli, p: Param): (r: Result<Cli, CliError>)
    ensures r.Failure? <==> p.required.GetOr(true) && HasOptionalPositional(c.positionalArgs)
    ensures r.Failure? ==> r.error.info == InvalidPositionalArgConfig(p.name)
    ensures r.Failure? ==> r.error.cliName == "undefined" && r.error.message == PositionalOrderMessage
    ensures r.Success? ==> r.value.positionalArgs == c.positionalArgs + [WithRequiredDefault(p)]
    ensures r.Success? ==> r.value.(positionalArgs := c.positionalArgs) == c
  {
    if p.required.GetOr(true) && HasOptionalPositional(c.positionalArgs) then
      Failure(InvalidPositionalArgConfigError("undefined", p.name, Some(PositionalOrderMessage)))
    else
      Success(c.(positionalArgs := c.positionalArgs + [WithRequiredDefault(p)]))
  }

  /** The corrected builder keeps every required positional before every optional one. */
  lemma AddPositionalArgKeepsOrder(c: Cli, p: Param)
    requires PositionalOrder(c.positionalArgs)
    requires AddPositionalArg(c, p).Success?
    ensures PositionalOrder(AddPositionalArg(c, p).value.positionalArgs)
  {
    var ps := c.positionalArgs;
    var qs := AddPositionalArg(c, p).value.positionalArgs;
    forall i, j | 0 <= i < j < |qs| && !IsRequired(qs[i]) ensures !IsRequired(qs[j]) {
      if j == |ps| {
        assert !IsRequired(ps[i]);
        assert !p.required.GetOr(true);
      }
    }
  }

  /** The alias table an option contributes: each of its aliases maps to its name. */
  function AliasesOf(p: Param): (m: map<string, string>)
    ensures m.Keys == set a | a in p.aliases
    ensures forall a :: a in m ==> m[a] == p.name
  {
    map a | a in p.aliases :: p.name
  }

  /** `{ ...prior, ...added }` on alias tables. */
  function MergeAliases(prior: map<string, string>, added: map<string, string>): (m: map<string, string>)
    ensures m.Keys == prior.Keys + added.Keys
    ensures forall a :: a in added ==> m[a] == added[a]
    ensures forall a :: a in prior && a !in added ==> m[a] == prior[a]
  {
    prior + added
  }

  /**
   * `.addOption(p)`: every alias of `p` now resolves to `p.name` and
   * `optionArgs[p.name]` is `p`; the rest of the node is unchanged.
   */
  function AddOption(c: Cli, p: Param): (r: Cli)
    ensures forall a :: a in p.aliases ==> a in r.aliases && r.aliases[a] == p.name
    ensures forall a :: a !in p.aliases ==> (a in r.aliases <==> a in c.aliases)
    ensures forall a :: a !in p.aliases && a in c.aliases ==> r.aliases[a] == c.aliases[a]
    ensures Get(r.optionArgs, p.name) == Some(p)
    ensures forall k :: k != p.name ==> Get(r.optionArgs, k) == Get(c.optionArgs, k)
    ensures r.(aliases := c.aliases, optionArgs := c.optionArgs) == c
  {
    c.(aliases := MergeAliases(c.aliases, AliasesOf(p)), optionArgs := Put(c.optionArgs, p.name, p))
  }

  /**
   * `.addGlobalOption(p)`: the same for the global options; a global option
   * of the same name is replaced.
   */
  function AddGlobalOption(c: Cli, p: Param): (r: Cli)
    ensures forall a :: a in p.aliases ==> a in r.aliases && r.aliases[a] == p.name
    ensures forall a :: a !in p.aliases ==> (a in r.aliases <==> a in c.aliases)
    ensures forall a :: a !in p.aliases && a in c.aliases ==> r.aliases[a] == c.aliases[a]
    ensures Get(r.globalOptionArgs, p.name) == Some(p)
    ensures forall k :: k != p.name ==> Get(r.globalOptionArgs, k) == Get(c.globalOptionArgs, k)
    ensures r.(aliases := c.aliases, globalOptionArgs := c.globalOptionArgs) == c
  {
    c.(aliases := MergeAliases(c.aliases, AliasesOf(p)),
       globalOptionArgs := Put(c.globalOptionArgs, p.name, p))
  }

  /** `.addCommand(name, sub)`: `commands[name]` is `sub`; nothing else changes. */
  function AddCommand(c: Cli, name: string, sub: Cli): (r: Cli)
    ensures Get(r.commands, name) == Some(sub)
    ensures forall k :: k != name ==> Get(r.commands, k) == Get(c.commands, k)
    ensures r.(commands := c.commands) == c
  {
    c.(commands := Put(c.commands, name, sub))
  }

  /**
   * `.getCommandCLI(name)`: the registered sub-command, or an
   * UnknownCommand error (which, too, carries no CLI name).
   */
  function GetCommandCli(c: Cli, name: string): (r: Result<Cli, CliError>)
    ensures r.Success? <==> name in Keys(c.commands)
    ensures r.Success? ==> Get(c.commands, name) == Some(r.value)
    ensures r.Failure? ==> r.error.info == UnknownCommand(name)
    ensures r.Failure? ==> r.error.cliName == "undefined" && r.error.message == "Command " + Quoted(name) + " not found"
  {
    match Get(c.commands, name)
    case Some(sub) => Success(sub)
    case None =>
      Failure(UnknownCommandError("undefined", name, Some("Command " + Quoted(name) + " not found")))
  }
}
