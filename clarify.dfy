/**
 * The clarification dialogue in `handle_text`: what the language model is
 * asked, and how `clarify_state` in the per-user data is set, kept or
 * cleared after each answer. The model itself is an oracle: its answer is an
 * input here, or the exception it raised.
 */
module Clarify {
  import opened Common
  import opened Text
  import opened Reminders
  import opened Callbacks

  /** `{"original": ...}`: the request the clarification started from. */
  datatype ClarifyState = ClarifyState(original: string)

  /** The fields of the model's JSON answer the bot reads; a missing field is `None`. */
  datatype LlmReply = LlmReply(
    intent: Option<string>,
    question: Option<string>,
    variants: seq<Variant>,
    textOriginal: Option<string>,
    title: Option<string>,
    description: Option<string>,
    fixedDatetime: Option<string>,
    recurrence: Option<Recurrence>)

  /** `call_llm` either answers or raises. */
  datatype LlmResult = Raised | Replied(reply: LlmReply)

  predicate Asks(r: LlmResult)
  {
    r.Replied? && r.reply.intent == Some("ask_clarification")
  }

  const RequestLead: string := "Исходная заявка: "
  const AnswerLead: string := "\nОтвет на уточнение: "

  /**
   * What the model is sent: the incoming text alone, or, inside a
   * clarification, the original request followed by the incoming text as
   * the answer.
   */
  function LlmInput(state: Option<ClarifyState>, incoming: string): (text: string)
    ensures state.None? ==> text == incoming
    ensures state.Some? ==>
      var head := RequestLead + state.value.original + AnswerLead;
      |text| == |head| + |incoming| && text[..|head|] == head && text[|head|..] == incoming
  {
    match state
    case None => incoming
    case Some(s) =>
      var text := RequestLead + s.original + AnswerLead + incoming;
      assert text[..|RequestLead + s.original + AnswerLead|] == RequestLead + s.original + AnswerLead;
      text
  }

  /**
   * Reads a prompt sent inside a session back into the original request and
   * the answer: the request runs from the lead to the first line break, which
   * must open the answer lead.
   */
  function ReadPrompt(text: string): Option<(string, string)>
  {
    if !StartsWith(text, RequestLead) then None
    else match Find(text, "\n")
      case None => None
      case Some(i) =>
        if i < |RequestLead| || !StartsWith(text[i..], AnswerLead) then None
        else Some((text[|RequestLead|..i], text[i + |AnswerLead|..]))
  }

  /**
   * The model can tell the original request from the answer: a single-line
   * request and any answer are read back from the prompt unchanged.
   */
  lemma LlmInputReadBack(s: ClarifyState, incoming: string)
    requires '\n' !in s.original
    ensures ReadPrompt(LlmInput(Some(s), incoming)) == Some((s.original, incoming))
  {
    var a := RequestLead + s.original;
    var b := AnswerLead[1..] + incoming;
    var text := LlmInput(Some(s), incoming);
    assert text == a + ['\n'] + b;
    assert '\n' !in a by {
      assert forall k | 0 <= k < |RequestLead| :: RequestLead[k] != '\n';
    }
    FindAfter(a, '\n', b);
    assert text[|a|..] == AnswerLead + incoming;
    assert StartsWith(text[|a|..], AnswerLead);
    assert text[|RequestLead|..|a|] == s.original;
    assert text[|a| + |AnswerLead|..] == incoming;
  }

  /** `x or y` on optional strings. */
  function Or(x: Option<string>, y: string): string
  {
    if x.Some? && x.value != [] then x.value else y
  }

  /**
   * `clarify_state` after one model call: an exception leaves it alone; a
   * question keeps a running session's original request or starts one from
   * `text_original` (or the incoming text); any other answer ends the session.
   */
  function NextClarify(state: Option<ClarifyState>, result: LlmResult, incoming: string): (next: Option<ClarifyState>)
    ensures result.Raised? ==> next == state
    ensures Asks(result) ==> next.Some?
    ensures Asks(result) && state.Some? ==> next == state
    ensures Asks(result) && state.None? ==> next == Some(ClarifyState(Or(result.reply.textOriginal, incoming)))
    ensures result.Replied? && !Asks(result) ==> next.None?
  {
    match result
    case Raised => state
    case Replied(r) =>
      if r.intent == Some("ask_clarification") then
        Some(if state.Some? then state.value else ClarifyState(Or(r.textOriginal, incoming)))
      else None
  }

  /** The state after a run of messages, each answered by the model. */
  function AfterRounds(state: Option<ClarifyState>, results: seq<LlmResult>, texts: seq<string>): Option<ClarifyState>
    requires |results| == |texts|
    decreases |results|
  {
    if results == [] then state
    else AfterRounds(NextClarify(state, results[0], texts[0]), results[1..], texts[1..])
  }

  /**
   * However many questions the model asks in a row, the session keeps the
   * request it started from; only an answer that is not a question ends it.
   */
  lemma {:induction false} OriginalSurvivesQuestions(state: Option<ClarifyState>, results: seq<LlmResult>, texts: seq<string>)
    requires |results| == |texts| && state.Some?
    requires forall i | 0 <= i < |results| :: Asks(results[i]) || results[i].Raised?
    ensures AfterRounds(state, results, texts) == state
    decreases |results|
  {
    if results != [] {
      OriginalSurvivesQuestions(NextClarify(state, results[0], texts[0]), results[1..], texts[1..]);
    }
  }

  /** A session opened by a question ends at the first answer that is neither a question nor an exception. */
  lemma {:induction false} SessionEndsOnAnswer(state: Option<ClarifyState>, results: seq<LlmResult>, texts: seq<string>)
    requires |results| == |texts| && |results| > 0
    requires results[|results| - 1].Replied? && !Asks(results[|results| - 1])
    ensures AfterRounds(state, results, texts).None?
    decreases |results|
  {
    if |results| > 1 {
      SessionEndsOnAnswer(NextClarify(state, results[0], texts[0]), results[1..], texts[1..]);
    }
  }

  /** `context.user_data`: the clarification session and a pending button answer. */
  class UserData {
    var clarify: Option<ClarifyState>
    var autoAnswer: Option<string>

    constructor ()
      ensures clarify.None? && autoAnswer.None?
    {
      clarify := None;
      autoAnswer := None;
    }

    /** `set_clarify_state`: `None` pops the key, anything else stores it. */
    method SetClarifyState(s: Option<ClarifyState>)
      modifies this
      ensures clarify == s && autoAnswer == old(autoAnswer)
    {
      clarify := s;
    }

    /** `cb_answer`: the chosen caption waits for the next `handle_text`. */
    method SetAutoAnswer(choice: string)
      modifies this
      ensures autoAnswer == Some(choice) && clarify == old(clarify)
    {
      autoAnswer := Some(choice);
    }

    /** `pop("__auto_answer", None)`. */
    method PopAutoAnswer() returns (a: Option<string>)
      modifies this
      ensures a == old(autoAnswer) && autoAnswer.None? && clarify == old(clarify)
    {
      a := autoAnswer;
      autoAnswer := None;
    }
  }
}
