/**
 * Binding at the target command: each declared positional, option and
 * global option takes its raw value (or its absence), is checked for
 * presence, parsed and validated, and is stored under its key. The first
 * parameter that fails stops the binding with its error.
 */
module Binder {
  import opened Wrappers
  import opened Entries
  import opened CliTypes
  import opened CliErrors

  /**
   * `_validateParsedValue`: a value passes when there is no validator or
   * the validator returns exactly `true`; otherwise it fails with an
   * InvalidCliParamValue error whose message is the validator's string, or
   * the default message when the validator returned `false`.
   */
  function ValidateParsedValue(cliName: string, v: Value, p: Param): (r: Result<Value, CliError>)
    ensures r.Success? <==> p.validator.None? || p.validator.value(v) == Verdict(true)
    ensures r.Success? ==> r.value == v
    ensures r.Failure? ==> r.error == InvalidCliParamValueError(cliName, p.name, Some(v),
      if p.validator.value(v).Complaint? then Some(p.validator.value(v).message) else None)
  {
    if p.validator.None? then Success(v)
    else
      var verdict := p.validator.value(v);
      if verdict == Verdict(true) then Success(v)
      else
        var message := if verdict.Complaint? then Some(verdict.message) else None;
        Failure(InvalidCliParamValueError(cliName, p.name, Some(v), message))
  }

  /** The declared parser, or the default parser for the declared type. */
  function Parse(p: Param, raw: string): Value
  {
    if p.parser.Some? then p.parser.value(raw) else DefaultParse(p.kind, raw)
  }

  /**
   * `_parseAndValidateValue`: with no input, the default (validated, never
   * parsed) or `undefined` (no validation at all); with input, the parsed
   * input, validated.
   */
  function ParseAndValidateValue(cliName: string, input: Option<string>, default: Option<Value>, p: Param)
    : (r: Result<Option<Value>, CliError>)
  {
    match input
    case None =>
      (match default
       case None => Success(None)
       case Some(d) =>
         var checked := ValidateParsedValue(cliName, d, p);
         if checked.Success? then Success(Some(checked.value)) else Failure(checked.error))
    case Some(raw) =>
      var checked := ValidateParsedValue(cliName, Parse(p, raw), p);
      if checked.Success? then Success(Some(checked.value)) else Failure(checked.error)
  }

  /**
   * One step of a binding `reduce`: the parameter, the raw value found for
   * it, the key its value is stored under and the error thrown when it is
   * required and absent.
   */
  datatype Slot = Slot(param: Param, raw: Option<string>, key: string, missing: CliError)

  /** The value stored for one slot, or the error it throws. */
  function BindSlot(cliName: string, s: Slot): Result<Option<Value>, CliError>
  {
    if IsRequired(s.param) && s.raw.None? then Failure(s.missing)
    else ParseAndValidateValue(cliName, s.raw, s.param.defaultValue, s.param)
  }

  /** The `reduce` from the accumulator `acc` on: stops at the first failing slot. */
  function BindFrom(cliName: string, slots: seq<Slot>, acc: Entries<Option<Value>>): Result<Entries<Option<Value>>, CliError>
    decreases |slots|
  {
    if slots == [] then Success(acc)
    else
      var v := BindSlot(cliName, slots[0]);
      if v.Failure? then Failure(v.error)
      else BindFrom(cliName, slots[1..], Put(acc, slots[0].key, v.value))
  }

  /** A binding `reduce` from an empty record. */
  function Bind(cliName: string, slots: seq<Slot>): Result<Entries<Option<Value>>, CliError>
  {
    BindFrom(cliName, slots, [])
  }

  /**
   * The positional slots: the i-th declared positional takes the i-th
   * positional token, if there is one; its key is its name as declared.
   */
  function PositionalSlots(cliName: string, params: seq<Param>, rawPositional: seq<string>): (slots: seq<Slot>)
    ensures |slots| == |params|
    ensures forall i :: 0 <= i < |params| ==> slots[i] == Slot(params[i],
      if i < |rawPositional| then Some(rawPositional[i]) else None,
      params[i].name, MissingRequiredPositionalArgError(cliName, params[i].name, None))
  {
    seq(|params|, i requires 0 <= i < |params| =>
      Slot(params[i], if i < |rawPositional| then Some(rawPositional[i]) else None,
        params[i].name, MissingRequiredPositionalArgError(cliName, params[i].name, None)))
  }

  /**
   * The option slots (for options and global options alike): each declared
   * option takes the raw value stored under its full name; its key is the
   * camel-cased name.
   */
  function OptionSlots(cliName: string, params: seq<Param>, raw: Entries<string>, camel: string -> string): (slots: seq<Slot>)
    ensures |slots| == |params|
    ensures forall i :: 0 <= i < |params| ==> slots[i] == Slot(params[i], Get(raw, params[i].name),
      camel(params[i].name), MissingRequiredOptionError(cliName, params[i].name, None))
  {
    seq(|params|, i requires 0 <= i < |params| =>
      Slot(params[i], Get(raw, params[i].name), camel(params[i].name),
        MissingRequiredOptionError(cliName, params[i].name, None)))
  }

  /** The binding loop: stores each slot's value in turn, throwing at the first failure. */
  method BindSlots(cliName: string, slots: seq<Slot>) returns (r: Result<Entries<Option<Value>>, CliError>)
    ensures r == Bind(cliName, slots)
  {
    var acc: Entries<Option<Value>> := [];
    for i := 0 to |slots|
      invariant BindFrom(cliName, slots[i..], acc) == Bind(cliName, slots)
    {
      assert slots[i..][0] == slots[i] && slots[i..][1..] == slots[i + 1..];
      var slot := slots[i];
      if IsRequired(slot.param) && slot.raw.None? {
        return Failure(slot.missing);
      }
      var value := ParseAndValidateValue(cliName, slot.raw, slot.param.defaultValue, slot.param);
      if value.Failure? {
        return Failure(value.error);
      }
      acc := Put(acc, slot.key, value.value);
    }
    assert slots[|slots|..] == [];
    return Success(acc);
  }

  /**
   * A required parameter with no raw value fails with its missing error,
   * whatever default it declares.
   */
  lemma RequiredIgnoresDefault(cliName: string, s: Slot, d: Value)
    requires IsRequired(s.param) && s.raw.None? && s.param.defaultValue == Some(d)
    ensures BindSlot(cliName, s) == Failure(s.missing)
  {
  }

  /** An optional parameter with no raw value and no default is `undefined`, without validation. */
  lemma AbsentIsUndefined(cliName: string, s: Slot)
    requires !IsRequired(s.param) && s.raw.None? && s.param.defaultValue.None?
    ensures BindSlot(cliName, s) == Success(None)
  {
  }

  /**
   * An optional parameter with no raw value takes its default unparsed:
   * the value the validator sees and the value stored are the default itself.
   */
  lemma DefaultIsNotParsed(cliName: string, s: Slot, d: Value)
    requires !IsRequired(s.param) && s.raw.None? && s.param.defaultValue == Some(d)
    ensures BindSlot(cliName, s).Success? <==> s.param.validator.None? || s.param.validator.value(d) == Verdict(true)
    ensures BindSlot(cliName, s).Success? ==> BindSlot(cliName, s).value == Some(d)
  {
  }

  /** A present raw value is parsed (declared parser first, else by type) and then validated. */
  lemma PresentIsParsedThenValidated(cliName: string, s: Slot, raw: string)
    requires s.raw == Some(raw)
    ensures BindSlot(cliName, s).Success? <==>
      s.param.validator.None? || s.param.validator.value(Parse(s.param, raw)) == Verdict(true)
    ensures BindSlot(cliName, s).Success? ==> BindSlot(cliName, s).value == Some(Parse(s.param, raw))
    ensures s.param.parser.None? ==> Parse(s.param, raw) == DefaultParse(s.param.kind, raw)
  {
  }

  /** A flag given with no value token binds to `true` under the default boolean parser. */
  lemma BareFlagIsTrue(cliName: string, s: Slot)
    requires s.raw == Some("") && s.param.kind == BooleanType && s.param.parser.None? && s.param.validator.None?
    ensures BindSlot(cliName, s) == Success(Some(VBool(true)))
  {
  }

  /** A binding fails exactly when some slot fails, and then with the first failing slot's error. */
  lemma {:induction false} BindFromFailure(cliName: string, slots: seq<Slot>, acc: Entries<Option<Value>>)
    ensures BindFrom(cliName, slots, acc).Failure? <==> exists i :: 0 <= i < |slots| && BindSlot(cliName, slots[i]).Failure?
    ensures BindFrom(cliName, slots, acc).Failure? ==>
      exists i :: 0 <= i < |slots| && BindSlot(cliName, slots[i]).Failure?
        && BindFrom(cliName, slots, acc).error == BindSlot(cliName, slots[i]).error
        && forall j :: 0 <= j < i ==> BindSlot(cliName, slots[j]).Success?
    decreases |slots|
  {
    if slots != [] {
      var v := BindSlot(cliName, slots[0]);
      var rest := slots[1..];
      assert forall j :: 0 <= j < |rest| ==> rest[j] == slots[j + 1];
      if v.Success? {
        BindFromFailure(cliName, rest, Put(acc, slots[0].key, v.value));
        if BindFrom(cliName, slots, acc).Failure? {
          var i :| 0 <= i < |rest| && BindSlot(cliName, rest[i]).Failure?
            && BindFrom(cliName, rest, Put(acc, slots[0].key, v.value)).error == BindSlot(cliName, rest[i]).error
            && forall j :: 0 <= j < i ==> BindSlot(cliName, rest[j]).Success?;
          assert BindSlot(cliName, slots[i + 1]).Failure?;
          assert forall j :: 0 <= j < i + 1 ==> BindSlot(cliName, slots[j]).Success? by {
            forall j | 0 <= j < i + 1
              ensures BindSlot(cliName, slots[j]).Success?
            {
              if j > 0 {
                assert slots[j] == rest[j - 1];
              }
            }
          }
        }
        if exists i :: 0 <= i < |slots| && BindSlot(cliName, slots[i]).Failure? {
          var i :| 0 <= i < |slots| && BindSlot(cliName, slots[i]).Failure?;
          assert i > 0 && rest[i - 1] == slots[i];
        }
      }
    }
  }

  /**
   * When every slot binds, a slot whose key no later slot reuses has its
   * value stored under that key.
   */
  lemma {:induction false} BindFromGet(cliName: string, slots: seq<Slot>, acc: Entries<Option<Value>>, i: nat)
    requires i < |slots|
    requires BindFrom(cliName, slots, acc).Success?
    requires forall j :: i < j < |slots| ==> slots[j].key != slots[i].key
    ensures BindSlot(cliName, slots[i]).Success?
    ensures Get(BindFrom(cliName, slots, acc).value, slots[i].key) == Some(BindSlot(cliName, slots[i]).value)
    decreases |slots|
  {
    var v := BindSlot(cliName, slots[0]);
    var acc' := Put(acc, slots[0].key, v.value);
    var rest := slots[1..];
    assert forall j :: 0 <= j < |rest| ==> rest[j] == slots[j + 1];
    if i == 0 {
      BindFromUntouched(cliName, rest, acc', slots[0].key);
    } else {
      assert rest[i - 1] == slots[i];
      BindFromGet(cliName, rest, acc', i - 1);
    }
  }

  /** A key no slot uses keeps the accumulator's value. */
  lemma {:induction false} BindFromUntouched(cliName: string, slots: seq<Slot>, acc: Entries<Option<Value>>, k: string)
    requires BindFrom(cliName, slots, acc).Success?
    requires forall j :: 0 <= j < |slots| ==> slots[j].key != k
    ensures Get(BindFrom(cliName, slots, acc).value, k) == Get(acc, k)
    decreases |slots|
  {
    if slots != [] {
      var v := BindSlot(cliName, slots[0]);
      assert slots[0].key != k;
      BindFromUntouched(cliName, slots[1..], Put(acc, slots[0].key, v.value), k);
    }
  }

  /** The bound record never holds a key twice. */
  lemma {:induction false} BindFromUnique(cliName: string, slots: seq<Slot>, acc: Entries<Option<Value>>)
    requires UniqueKeys(acc)
    requires BindFrom(cliName, slots, acc).Success?
    ensures UniqueKeys(BindFrom(cliName, slots, acc).value)
    decreases |slots|
  {
    if slots != [] {
      var v := BindSlot(cliName, slots[0]);
      PutKeepsUnique(acc, slots[0].key, v.value);
      BindFromUnique(cliName, slots[1..], Put(acc, slots[0].key, v.value));
    }
  }
}
