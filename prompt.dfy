/**
 * `requestTerminalInput`: ask a question on the terminal until the answer
 * is acceptable. A blank answer takes the default, is refused when the
 * value is required, or means "no value"; a boolean question accepts only
 * y, yes, n and no in any case.
 *
 * The terminal is a class over the answers the user is going to type. A
 * real terminal waits for ever; here the answers can run out, which ends
 * the session with `InputEnded`.
 */
module Prompt {
  import opened Wrappers
  import opened Strings
  import opened CliTypes
  import opened Markup
  import opened TerminalMessage

  /** The readline interface over stdin and stdout. */
  class Terminal {
    /** The answers not yet read. */
    var pending: seq<string>
    /** Every prompt `question` has shown, in order. */
    var prompts: seq<string>
    /** Everything written to stdout, in order. */
    var output: seq<string>
    /** How many times the interface was closed. */
    var closeCount: nat

    constructor (answers: seq<string>)
      ensures pending == answers && prompts == [] && output == [] && closeCount == 0
    {
      pending := answers;
      prompts := [];
      output := [];
      closeCount := 0;
    }

    /** `rl.question(prompt)`: shows the prompt and reads the next answer, if any. */
    method Question(prompt: string) returns (answer: Option<string>)
      modifies this
      ensures prompts == old(prompts) + [prompt]
      ensures old(pending) == [] ==> answer.None? && pending == []
      ensures old(pending) != [] ==> answer == Some(old(pending)[0]) && pending == old(pending)[1..]
      ensures output == old(output) && closeCount == old(closeCount)
    {
      prompts := prompts + [prompt];
      if pending == [] {
        answer := None;
      } else {
        answer := Some(pending[0]);
        pending := pending[1..];
      }
    }

    /** `stdout.write(text)`. */
    method Write(text: string)
      modifies this
      ensures output == old(output) + [text]
      ensures pending == old(pending) && prompts == old(prompts) && closeCount == old(closeCount)
    {
      output := output + [text];
    }

    /** `rl.close()`. */
    method Close()
      modifies this
      ensures closeCount == old(closeCount) + 1
      ensures pending == old(pending) && prompts == old(prompts) && output == old(output)
    {
      closeCount := closeCount + 1;
    }
  }

  /** The options of one question: `required`, `type` and `defaultValue`. */
  datatype Question = Question(required: bool, kind: Option<ParamType>, defaultValue: Option<Value>)

  /** What the session returns. */
  datatype Reply = Answered(value: Option<string>) | InputEnded

  /** Why an answer was refused. */
  datatype Warning = ValueRequired | NotYesOrNo

  /** What one answer leads to: a value to return, or a warning and another try. */
  datatype Step = Accept(value: Option<string>) | Reprompt(warning: Warning)

  function IsBooleanQuestion(q: Question): bool
  {
    q.kind == Some(BooleanType)
  }

  /** The red first sentence of a warning. */
  function WarningHead(w: Warning): string
  {
    match w
    case ValueRequired => "This value is required."
    case NotYesOrNo => "That was not a valid response."
  }

  /** The plain rest of a warning's line. */
  function WarningBody(w: Warning): string
  {
    match w
    case ValueRequired => " Please enter a value."
    case NotYesOrNo => " Please enter y or n."
  }

  /** The markup of the warning written for a refused answer. */
  function WarningMarkup(w: Warning): string
  {
    "|red|" + WarningHead(w) + "|reset|" + WarningBody(w) + "\n"
  }

  /**
   * The warning as written: the first sentence in red, a reset, the rest of
   * the line and a final reset. `WarningTextRendered` proves this is what
   * `generateTerminalMessage` makes of the markup.
   */
  function WarningText(w: Warning): string
  {
    "\U{1B}[31m" + WarningHead(w) + "\U{1B}[0m" + WarningBody(w) + "\n" + "\U{1B}[0m"
  }

  lemma WarningTextRendered(w: Warning)
    ensures GenerateTerminalMessage(WarningMarkup(w), map[]) == WarningText(w)
  {
    WarningPartsPlain(w);
    RedLeadRendered(WarningHead(w), WarningBody(w));
    RedAndResetCodes();
  }

  lemma WarningPartsPlain(w: Warning)
    ensures var head, body := WarningHead(w), WarningBody(w);
      '|' !in head && '$' !in head && '|' !in body && '$' !in body
      && |body| > 0 && !IsWhitespace(body[|body| - 1])
  {
    match w
    case ValueRequired =>
      NoMarkupIn("This value is required.");
      NoMarkupIn(" Please enter a value.");
    case NotYesOrNo =>
      NoMarkupIn("That was not a valid response.");
      NoMarkupIn(" Please enter y or n.");
  }

  /** The two codes a warning uses, looked up once outside the rendering proof. */
  lemma RedAndResetCodes()
    ensures ColorCodes["red"] == "\U{1B}[31m" && ColorCodes["reset"] == "\U{1B}[0m"
  {
  }

  /** Text made only of letters, blanks and full stops holds no token delimiter. */
  lemma NoMarkupIn(s: string)
    requires forall i :: 0 <= i < |s| ==> IsLetter(s[i]) || s[i] == ' ' || s[i] == '.'
    ensures '|' !in s && '$' !in s
  {
  }

  /** The hint at the end of the prompt. */
  function Notice(q: Question): string
  {
    if q.defaultValue.Some? then " |gray|(press Enter to use default)|reset|"
    else if q.required then ""
    else " |gray|(press Enter to leave empty)|reset|"
  }

  /** ` [default: …]` when the question has a default. */
  function DefaultNotice(q: Question): string
  {
    if q.defaultValue.Some? then " [default: " + ValueToString(q.defaultValue.value) + "]" else ""
  }

  /** ` |reset|(y/n)` for a boolean question. */
  function BooleanNotice(q: Question): string
  {
    if IsBooleanQuestion(q) then " |reset|(y/n)" else ""
  }

  /** The prompt before interpolation and colouring. */
  function PromptMessage(message: string, q: Question): (r: string)
    ensures StartsWith(r, message) && EndsWith(r, Notice(q) + " ")
  {
    var middle := DefaultNotice(q) + BooleanNotice(q);
    var tail := Notice(q) + " ";
    ConcatStartsAndEnds(message, middle, tail);
    message + middle + tail
  }

  lemma ConcatStartsAndEnds(a: string, b: string, c: string)
    ensures StartsWith(a + b + c, a) && EndsWith(a + b + c, c)
  {
    assert (a + b + c)[..|a|] == a;
    assert (a + b + c)[|a + b + c| - |c|..] == c;
  }

  /** The prompt as shown: the message interpolated with the string parameters and coloured. */
  function PromptText(message: string, params: map<string, string>, q: Question): string
  {
    GenerateTerminalMessage(PromptMessage(message, q), map k | k in params :: PString(params[k]))
  }

  /**
   * How a lower-cased answer to a boolean question reads: "y" and "yes"
   * are `true`, "n" and "no" are `false` (see `YesNoWords`). Written
   * character by character.
   */
  function YesNo(word: string): Option<bool>
  {
    if |word| == 1 && word[0] == 'y' then Some(true)
    else if |word| == 3 && word[0] == 'y' && word[1] == 'e' && word[2] == 's' then Some(true)
    else if |word| == 1 && word[0] == 'n' then Some(false)
    else if |word| == 2 && word[0] == 'n' && word[1] == 'o' then Some(false)
    else None
  }

  /** `YesNo` is the comparison with the four words. */
  lemma YesNoWords(word: string)
    ensures YesNo(word) == Some(true) <==> word == "y" || word == "yes"
    ensures YesNo(word) == Some(false) <==> word == "n" || word == "no"
  {
    if |word| == 1 {
      assert word == [word[0]];
    } else if |word| == 2 {
      assert word == [word[0], word[1]];
    } else if |word| == 3 {
      assert word == [word[0], word[1], word[2]];
    }
  }

  /** One round of the loop: what the answer typed leads to. */
  function Classify(answer: string, q: Question): Step
  {
    var trimmed := Trim(answer);
    if |trimmed| == 0 then
      if q.defaultValue.Some? then Accept(Some(ValueToString(q.defaultValue.value)))
      else if q.required then Reprompt(ValueRequired)
      else Accept(None)
    else if IsBooleanQuestion(q) then
      var normalized := LowerAscii(trimmed);
      if YesNo(normalized) == Some(true) then Accept(Some("true"))
      else if YesNo(normalized) == Some(false) then Accept(Some("false"))
      else Reprompt(NotYesOrNo)
    else Accept(Some(answer))
  }

  /** The result of a session: the reply, how many answers it read, the warnings it wrote. */
  datatype Session = Session(reply: Reply, used: nat, warnings: seq<Warning>)

  /** The session over the answers still to come: it ends at the first accepted answer. */
  function Converse(answers: seq<string>, q: Question): (s: Session)
    ensures s.used <= |answers|
  {
    if answers == [] then Session(InputEnded, 0, [])
    else
      match Classify(answers[0], q)
      case Accept(v) => Session(Answered(v), 1, [])
      case Reprompt(w) =>
        var rest := Converse(answers[1..], q);
        Session(rest.reply, rest.used + 1, [w] + rest.warnings)
  }

  /** The warnings' texts, in order. */
  function WarningTexts(ws: seq<Warning>): (r: seq<string>)
    ensures |r| == |ws|
  {
    if ws == [] then [] else [WarningText(ws[0])] + WarningTexts(ws[1..])
  }

  lemma WarningTextsCons(prefix: seq<string>, w: Warning, ws: seq<Warning>)
    ensures prefix + WarningTexts([w] + ws) == prefix + [WarningText(w)] + WarningTexts(ws)
  {
    assert ([w] + ws)[1..] == ws;
  }

  /** How many times the prompt is shown: once per answer read, and once more when none is left. */
  function ShownCount(s: Session): nat
  {
    if s.reply.InputEnded? then s.used + 1 else s.used
  }

  function Repeat(s: string, n: nat): (r: seq<string>)
    ensures |r| == n && forall i :: 0 <= i < n ==> r[i] == s
  {
    seq(n, i => s)
  }

  /**
   * `requestTerminalInput`: builds the prompt once, then asks until an
   * answer is accepted; the interface is closed exactly once, whichever way
   * the loop ends.
   */
  method RequestTerminalInput(term: Terminal, message: string, params: map<string, string>, q: Question)
    returns (reply: Reply)
    modifies term
    ensures var s := Converse(old(term.pending), q);
      reply == s.reply
      && term.pending == old(term.pending)[s.used..]
      && term.prompts == old(term.prompts) + Repeat(PromptText(message, params, q), ShownCount(s))
      && term.output == old(term.output) + WarningTexts(s.warnings)
      && term.closeCount == old(term.closeCount) + 1
  {
    var prompt := PromptText(message, params, q);
    reply := AskUntilAccepted(term, prompt, q);
    term.Close();
  }

  /**
   * The `while (true)` loop: the same prompt is shown for every question
   * asked, and each refused answer writes its warning.
   */
  method AskUntilAccepted(term: Terminal, prompt: string, q: Question) returns (reply: Reply)
    modifies term
    ensures var s := Converse(old(term.pending), q);
      reply == s.reply
      && term.pending == old(term.pending)[s.used..]
      && term.prompts == old(term.prompts) + Repeat(prompt, ShownCount(s))
      && term.output == old(term.output) + WarningTexts(s.warnings)
      && term.closeCount == old(term.closeCount)
  {
    ghost var whole := Converse(term.pending, q);
    while true
      invariant Converse(term.pending, q).reply == whole.reply
      invariant old(term.pending)[whole.used..] == term.pending[Converse(term.pending, q).used..]
      invariant old(term.prompts) + Repeat(prompt, ShownCount(whole))
        == term.prompts + Repeat(prompt, ShownCount(Converse(term.pending, q)))
      invariant old(term.output) + WarningTexts(whole.warnings)
        == term.output + WarningTexts(Converse(term.pending, q).warnings)
      invariant term.closeCount == old(term.closeCount)
      decreases |term.pending|
    {
      ghost var before, shown, written := term.pending, term.prompts, term.output;
      var step := Ask(term, prompt, q);
      if step.None? {
        assert Repeat(prompt, 1) == [prompt] && written + [] == written;
        return InputEnded;
      }
      match step.value
      case Accept(v) =>
        AfterAccept(before, q, v, prompt, shown, written);
        return Answered(v);
      case Reprompt(w) =>
        AfterRefusal(before, q, w, prompt, shown, written);
    }
  }

  /** What an accepted answer leaves of the session: nothing more to show or write. */
  lemma AfterAccept(before: seq<string>, q: Question, v: Option<string>, prompt: string, shown: seq<string>, written: seq<string>)
    requires before != [] && Classify(before[0], q) == Accept(v)
    ensures var here := Converse(before, q);
      here.reply == Answered(v)
      && before[here.used..] == before[1..]
      && shown + Repeat(prompt, ShownCount(here)) == shown + [prompt]
      && written + WarningTexts(here.warnings) == written
  {
    assert Repeat(prompt, 1) == [prompt] && written + [] == written;
  }

  /**
   * What a refused answer leaves of the session: the same reply, one prompt
   * and one warning fewer to come.
   */
  lemma AfterRefusal(before: seq<string>, q: Question, w: Warning, prompt: string, shown: seq<string>, written: seq<string>)
    requires before != [] && Classify(before[0], q) == Reprompt(w)
    ensures var here, rest := Converse(before, q), Converse(before[1..], q);
      here.reply == rest.reply
      && before[here.used..] == before[1..][rest.used..]
      && shown + Repeat(prompt, ShownCount(here)) == shown + [prompt] + Repeat(prompt, ShownCount(rest))
      && written + WarningTexts(here.warnings) == written + [WarningText(w)] + WarningTexts(rest.warnings)
  {
    var rest := Converse(before[1..], q);
    assert Converse(before, q) == Session(rest.reply, rest.used + 1, [w] + rest.warnings);
    assert shown + Repeat(prompt, ShownCount(rest) + 1) == shown + [prompt] + Repeat(prompt, ShownCount(rest));
    WarningTextsCons(written, w, rest.warnings);
    assert before[1..][rest.used..] == before[rest.used + 1..];
  }

  /**
   * One round of the loop: ask, and either decide on the answer or write
   * the warning that refuses it. `None` when there is no answer left.
   */
  method Ask(term: Terminal, prompt: string, q: Question) returns (step: Option<Step>)
    modifies term
    ensures term.prompts == old(term.prompts) + [prompt]
    ensures old(term.pending) == [] ==> step.None? && term.pending == []
    ensures old(term.pending) != [] ==>
      step == Some(Classify(old(term.pending)[0], q)) && term.pending == old(term.pending)[1..]
    ensures term.output == old(term.output) + (if step.Some? && step.value.Reprompt? then [WarningText(step.value.warning)] else [])
    ensures term.closeCount == old(term.closeCount)
  {
    var answer := term.Question(prompt);
    if answer.None? {
      return None;
    }
    var decided := Respond(answer.value, q);
    if decided.Reprompt? {
      WarningTextRendered(decided.warning);
      term.Write(GenerateTerminalMessage(WarningMarkup(decided.warning), map[]));
    }
    return Some(decided);
  }

  /** The body of the loop for one answer: return a value, or warn and ask again. */
  method Respond(answer: string, q: Question) returns (step: Step)
    ensures step == Classify(answer, q)
  {
    var trimmed := Trim(answer);
    if |trimmed| == 0 {
      if q.defaultValue.Some? {
        return Accept(Some(ValueToString(q.defaultValue.value)));
      }
      if q.required {
        return Reprompt(ValueRequired);
      }
      return Accept(None);
    }
    if IsBooleanQuestion(q) {
      var normalized := LowerAscii(trimmed);
      YesNoWords(normalized);
      if normalized == "y" || normalized == "yes" {
        return Accept(Some("true"));
      }
      if normalized == "n" || normalized == "no" {
        return Accept(Some("false"));
      }
      return Reprompt(NotYesOrNo);
    }
    return Accept(Some(answer));
  }

  /**
   * The session stops at the first acceptable answer, and every answer
   * before it was refused. When no answer is acceptable, it reads them all.
   */
  lemma {:induction false} ConverseStopsAtFirstAccept(answers: seq<string>, q: Question)
    ensures var s := Converse(answers, q);
      (s.reply.Answered? ==> 1 <= s.used && Classify(answers[s.used - 1], q) == Accept(s.reply.value))
      && (s.reply.InputEnded? ==> s.used == |answers|)
      && (forall i :: 0 <= i < s.used && (s.reply.InputEnded? || i < s.used - 1) ==>
            Classify(answers[i], q).Reprompt?)
  {
    if answers != [] && Classify(answers[0], q).Reprompt? {
      var rest := answers[1..];
      ConverseStopsAtFirstAccept(rest, q);
      assert forall i :: 0 < i < |answers| ==> answers[i] == rest[i - 1];
    }
  }

  /** One warning per refused answer, in the order of the answers. */
  lemma {:induction false} ConverseWarnsPerRefusal(answers: seq<string>, q: Question)
    ensures var s := Converse(answers, q);
      |s.warnings| == (if s.reply.Answered? then s.used - 1 else s.used)
      && (forall i :: 0 <= i < |s.warnings| ==> Classify(answers[i], q) == Reprompt(s.warnings[i]))
  {
    if answers != [] && Classify(answers[0], q).Reprompt? {
      var rest := answers[1..];
      ConverseWarnsPerRefusal(rest, q);
      assert forall i :: 0 < i < |answers| ==> answers[i] == rest[i - 1];
    }
  }

  /** A required question with no default never returns "no value". */
  lemma RequiredNeverEmpty(answers: seq<string>, q: Question)
    requires q.required && q.defaultValue.None?
    ensures Converse(answers, q).reply != Answered(None)
  {
    var s := Converse(answers, q);
    ConverseStopsAtFirstAccept(answers, q);
    if s.reply.Answered? {
      ClassifyRequired(answers[s.used - 1], q);
    }
  }

  lemma ClassifyRequired(answer: string, q: Question)
    requires q.required && q.defaultValue.None?
    ensures Classify(answer, q) != Accept(None)
  {
  }

  /** A boolean question with no default returns only "true" or "false". */
  lemma BooleanRepliesOnly(answers: seq<string>, q: Question)
    requires IsBooleanQuestion(q) && q.defaultValue.None?
    ensures Converse(answers, q).reply.Answered? && Converse(answers, q).reply.value.Some? ==>
      Converse(answers, q).reply.value.value in {"true", "false"}
  {
    var s := Converse(answers, q);
    ConverseStopsAtFirstAccept(answers, q);
    if s.reply.Answered? {
      ClassifyBoolean(answers[s.used - 1], q);
    }
  }

  lemma ClassifyBoolean(answer: string, q: Question)
    requires IsBooleanQuestion(q) && q.defaultValue.None?
    ensures Classify(answer, q).Accept? && Classify(answer, q).value.Some? ==>
      Classify(answer, q).value.value in {"true", "false"}
  {
  }

  /** Yes and no are recognised in any letter case and with surrounding blanks. */
  lemma BooleanCaseInsensitive(answer: string, q: Question)
    requires IsBooleanQuestion(q)
    ensures LowerAscii(Trim(answer)) in {"y", "yes"} ==> Classify(answer, q) == Accept(Some("true"))
    ensures LowerAscii(Trim(answer)) in {"n", "no"} ==> Classify(answer, q) == Accept(Some("false"))
    ensures |Trim(answer)| > 0 && LowerAscii(Trim(answer)) !in {"y", "yes", "n", "no"} ==>
      Classify(answer, q) == Reprompt(NotYesOrNo)
  {
    YesNoWords(LowerAscii(Trim(answer)));
  }

  /** A non-blank answer to a question that is not boolean is returned as typed, untrimmed. */
  lemma NonBooleanAnswerUntrimmed(answer: string, q: Question)
    requires !IsBooleanQuestion(q)
    requires |Trim(answer)| > 0
    ensures Classify(answer, q) == Accept(Some(answer))
  {
  }

  /**
   * A blank answer takes the default as a string, whatever the question's
   * type; without a default it is refused when required and "no value"
   * otherwise.
   */
  lemma BlankAnswer(answer: string, q: Question)
    requires forall i :: 0 <= i < |answer| ==> IsWhitespace(answer[i])
    ensures q.defaultValue.Some? ==> Classify(answer, q) == Accept(Some(ValueToString(q.defaultValue.value)))
    ensures q.defaultValue.None? && q.required ==> Classify(answer, q) == Reprompt(ValueRequired)
    ensures q.defaultValue.None? && !q.required ==> Classify(answer, q) == Accept(None)
  {
    TrimEmptyIffBlank(answer);
  }

  /** A required question without a default shows no "press Enter" hint. */
  lemma RequiredPromptHasNoHint(message: string, q: Question)
    requires q.required && q.defaultValue.None? && !IsBooleanQuestion(q)
    ensures PromptMessage(message, q) == message + " "
  {
  }
}
