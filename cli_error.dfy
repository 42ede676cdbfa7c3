/** The errors the command-line engine throws, and their default messages. */
module CliErrors {
  import opened Wrappers
  import opened Strings
  import opened Numbers
  import opened CliTypes

  /** The closed set of error codes, each with the details it carries. */
  datatype ErrorInfo =
    | AlreadyRun
    | UnknownCommand(commandName: string)
    | InvalidPositionalArgConfig(positionalArgName: string)
    | TooManyPositionalArgs(count: nat)
    | MissingRequiredPositionalArg(positionalArgName: string)
    | MissingRequiredOption(optionName: string)
    | UnknownOption(optionName: string)
    | InvalidCliParamValue(paramName: string, paramValue: Option<Value>)
    | UnknownError

  /** The `code` string of each kind. */
  function Code(info: ErrorInfo): string
  {
    match info
    case AlreadyRun => "already_run"
    case UnknownCommand(_) => "unknown_command"
    case InvalidPositionalArgConfig(_) => "invalid_positional_arg_config"
    case TooManyPositionalArgs(_) => "too_many_positional_args"
    case MissingRequiredPositionalArg(_) => "missing_required_positional_arg"
    case MissingRequiredOption(_) => "missing_required_option"
    case UnknownOption(_) => "unknown_option"
    case InvalidCliParamValue(_, _) => "invalid_cli_param_value"
    case UnknownError => "unknown_error"
  }

  /**
   * A thrown error: the CLI it came from, its message, and the code with
   * details that the factory passes to the constructor. The constructor
   * keeps only `Text()`; `info` records what the factory chose.
   */
  datatype CliError = CliError(cliName: string, message: string, info: ErrorInfo)
  {
    /** The `Error.message` the constructor builds. */
    function Text(): (t: string)
      ensures StartsWith(t, "\U{274C} Error running ")
      ensures EndsWith(t, message)
    {
      "\U{274C} Error running " + cliName + ": " + message
    }
  }

  /** The factories' `options.message ?? fallback`. */
  function MessageOr(message: Option<string>, fallback: string): string
  {
    if message.Some? then message.value else fallback
  }

  function Quoted(s: string): string
  {
    "\"" + s + "\""
  }

  function InvalidCliParamValueError(cliName: string, paramName: string, paramValue: Option<Value>, message: Option<string>): (e: CliError)
    ensures e.info == InvalidCliParamValue(paramName, paramValue) && e.cliName == cliName
    ensures message.None? ==> e.message == "Invalid value for CLI param " + Quoted(paramName)
    ensures message.Some? ==> e.message == message.value
  {
    CliError(cliName, MessageOr(message, "Invalid value for CLI param " + Quoted(paramName)),
      InvalidCliParamValue(paramName, paramValue))
  }

  function MissingRequiredOptionError(cliName: string, optionName: string, message: Option<string>): (e: CliError)
    ensures e.info == MissingRequiredOption(optionName) && e.cliName == cliName
    ensures message.None? ==> e.message == "Required option " + Quoted(optionName) + " is missing"
    ensures message.Some? ==> e.message == message.value
  {
    CliError(cliName, MessageOr(message, "Required option " + Quoted(optionName) + " is missing"),
      MissingRequiredOption(optionName))
  }

  function MissingRequiredPositionalArgError(cliName: string, positionalArgName: string, message: Option<string>): (e: CliError)
    ensures e.info == MissingRequiredPositionalArg(positionalArgName) && e.cliName == cliName
    ensures message.None? ==> e.message == "Required positional argument " + Quoted(positionalArgName) + " is missing"
    ensures message.Some? ==> e.message == message.value
  {
    CliError(cliName,
      MessageOr(message, "Required positional argument " + Quoted(positionalArgName) + " is missing"),
      MissingRequiredPositionalArg(positionalArgName))
  }

  function UnknownOptionError(cliName: string, optionName: string, message: Option<string>): (e: CliError)
    ensures e.info == UnknownOption(optionName) && e.cliName == cliName
    ensures message.None? ==> e.message == "Option " + Quoted(optionName) + " not found"
    ensures message.Some? ==> e.message == message.value
  {
    CliError(cliName, MessageOr(message, "Option " + Quoted(optionName) + " not found"), UnknownOption(optionName))
  }

  function TooManyPositionalArgsError(cliName: string, count: nat, message: Option<string>): (e: CliError)
    ensures e.info == TooManyPositionalArgs(count) && e.cliName == cliName
    ensures message.None? ==> e.message == "Too many positional arguments provided."
    ensures message.Some? ==> e.message == message.value
  {
    CliError(cliName, MessageOr(message, "Too many positional arguments provided."), TooManyPositionalArgs(count))
  }

  function InvalidPositionalArgConfigError(cliName: string, positionalArgName: string, message: Option<string>): (e: CliError)
    ensures e.info == InvalidPositionalArgConfig(positionalArgName) && e.cliName == cliName
    ensures message.None? ==> e.message == "Positional argument configuration for " + Quoted(positionalArgName) + " is invalid"
    ensures message.Some? ==> e.message == message.value
  {
    CliError(cliName,
      MessageOr(message, "Positional argument configuration for " + Quoted(positionalArgName) + " is invalid"),
      InvalidPositionalArgConfig(positionalArgName))
  }

  function UnknownCommandError(cliName: string, commandName: string, message: Option<string>): (e: CliError)
    ensures e.info == UnknownCommand(commandName) && e.cliName == cliName
    ensures message.None? ==> e.message == "Command " + Quoted(commandName) + " not found"
    ensures message.Some? ==> e.message == message.value
  {
    CliError(cliName, MessageOr(message, "Command " + Quoted(commandName) + " not found"), UnknownCommand(commandName))
  }

  function AlreadyRunError(cliName: string, message: Option<string>): (e: CliError)
    ensures e.info == AlreadyRun && e.cliName == cliName
    ensures message.None? ==> e.message == "CLI has already been run"
    ensures message.Some? ==> e.message == message.value
  {
    CliError(cliName, MessageOr(message, "CLI has already been run"), AlreadyRun)
  }

  /** The nine codes are pairwise distinct, so a code names exactly one kind. */
  lemma CodesDistinct(a: ErrorInfo, b: ErrorInfo)
    ensures Code(a) == Code(b) <==> (
      && a.AlreadyRun? == b.AlreadyRun?
      && a.UnknownCommand? == b.UnknownCommand?
      && a.InvalidPositionalArgConfig? == b.InvalidPositionalArgConfig?
      && a.TooManyPositionalArgs? == b.TooManyPositionalArgs?
      && a.MissingRequiredPositionalArg? == b.MissingRequiredPositionalArg?
      && a.MissingRequiredOption? == b.MissingRequiredOption?
      && a.UnknownOption? == b.UnknownOption?
      && a.InvalidCliParamValue? == b.InvalidCliParamValue?
      && a.UnknownError? == b.UnknownError?)
  {
  }
}
