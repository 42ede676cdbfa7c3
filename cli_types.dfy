/**
 * The runtime data shapes of a command tree: parameter declarations,
 * parsed values and command nodes, with the default parsers the
 * declarations promise.
 */
module CliTypes {
  import opened Wrappers
  import opened Strings
  import opened Numbers
  import opened Entries

  /** The declared `type` of a parameter. */
  datatype ParamType = StringType | NumberType | BooleanType

  /** A parsed value: `string | number | boolean`; a number is an integer or `NaN`. */
  datatype Value = VStr(s: string) | VInt(i: int) | VNaN | VBool(b: bool)

  /** What a validator returns: a boolean verdict or an error message. */
  datatype Validation = Verdict(ok: bool) | Complaint(message: string)

  /**
   * One positional argument, option or global option. `required` is
   * optional in JavaScript; it counts as set only when it is `true`.
   */
  datatype Param = Param(
    name: string,
    kind: ParamType,
    required: Option<bool>,
    defaultValue: Option<Value>,
    aliases: seq<string>,
    description: Option<string>,
    validator: Option<Value -> Validation>,
    parser: Option<string -> Value>)

  predicate IsRequired(p: Param)
  {
    p.required == Some(true)
  }

  /** The handler a command runs; `NoOp` is the builder's `() => {}`. */
  datatype Handler = NoOp | UserAction(id: nat)

  /** A command node and, through `commands`, the tree below it. */
  datatype Cli = Cli(
    name: string,
    description: Option<string>,
    aliases: map<string, string>,
    commands: Entries<Cli>,
    positionalArgs: seq<Param>,
    optionArgs: Entries<Param>,
    globalOptionArgs: Entries<Param>,
    action: Option<Handler>)

  /** `name.startsWith("--")`: a full option name. */
  predicate IsFullOptionName(name: string)
  {
    |name| >= 2 && name[0] == '-' && name[1] == '-'
  }

  /** `name.startsWith("-")`: an option alias (so `--` names are aliases too). */
  predicate IsOptionAlias(name: string)
  {
    |name| >= 1 && name[0] == '-'
  }

  /** The two tests are the prefix tests they stand for. */
  lemma OptionPrefixes(name: string)
    ensures IsFullOptionName(name) <==> StartsWith(name, "--")
    ensures IsOptionAlias(name) <==> StartsWith(name, "-")
    ensures IsFullOptionName(name) ==> IsOptionAlias(name)
  {
    if |name| >= 2 {
      assert name[..2] == [name[0], name[1]];
    }
    if |name| >= 1 {
      assert name[..1] == [name[0]];
    }
  }

  /**
   * The parser used when a parameter declares none: booleans are false
   * only for the text "false", numbers go through `parseInt` base 10,
   * strings are kept as they are.
   */
  function DefaultParse(kind: ParamType, raw: string): (v: Value)
    ensures kind == BooleanType ==> v.VBool? && (v.b == false <==> raw == "false")
    ensures kind == NumberType ==> v.VInt? || v.VNaN?
    ensures kind == StringType ==> v == VStr(raw)
  {
    match kind
    case BooleanType => VBool(raw != "false")
    case NumberType =>
      (match ParseInt(raw)
       case Some(n) => VInt(n)
       case None => VNaN)
    case StringType => VStr(raw)
  }

  /** The default number parser reads back every printed integer. */
  lemma DefaultParseNumberRoundTrip(n: int)
    ensures DefaultParse(NumberType, IntToString(n)) == VInt(n)
  {
    IntToStringRoundTrip(n);
  }

  /** `String(v)`, also what a template literal inserts. */
  function ValueToString(v: Value): string
  {
    match v
    case VStr(s) => s
    case VInt(i) => IntToString(i)
    case VNaN => "NaN"
    case VBool(b) => if b then "true" else "false"
  }
}
