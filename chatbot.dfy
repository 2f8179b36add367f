/** The writing-assistant chat panel (components/Chatbot.jsx): a message log that only grows,
    a text input, and a loading flag that keeps a second question from being sent while an
    answer is awaited. The answer generator is an input: its text, or a failure. */
module Chatbot {
  import opened Text

  datatype Role = User | Assistant

  datatype Message = Message(role: Role, content: string)

  /** What the answer generator gave back. */
  datatype Reply = Failed | Answer(text: string)

  const Apology := "Sorry, something went wrong. Please try again."

  /** The assistant message a reply becomes. */
  function AssistantMessage(reply: Reply): (m: Message)
    ensures m.role == Assistant
    ensures reply.Answer? ==> m.content == reply.text
    ensures reply.Failed? ==> m.content == Apology
  {
    match reply
    case Failed => Message(Assistant, Apology)
    case Answer(t) => Message(Assistant, t)
  }

  /** A log made of question/answer pairs: a user message, then the assistant's answer. */
  predicate Paired(ms: seq<Message>)
    decreases |ms|
  {
    ms == [] || (|ms| >= 2 && ms[0].role == User && ms[1].role == Assistant && Paired(ms[2..]))
  }

  /** A completed exchange keeps the log paired. */
  lemma {:induction false} PairedExtend(ms: seq<Message>, q: Message, a: Message)
    requires Paired(ms) && q.role == User && a.role == Assistant
    ensures Paired(ms + [q, a])
    decreases |ms|
  {
    if ms == [] {
      assert ms + [q, a] == [q, a];
      assert [q, a][2..] == [];
    } else {
      PairedExtend(ms[2..], q, a);
      assert (ms + [q, a])[2..] == ms[2..] + [q, a];
    }
  }

  /** How many user messages a log holds. */
  function UserCount(ms: seq<Message>): nat
  {
    if ms == [] then 0 else (if ms[0].role == User then 1 else 0) + UserCount(ms[1..])
  }

  /** A log of complete exchanges holds as many questions as answers. */
  lemma {:induction false} PairedHalfUser(ms: seq<Message>)
    requires Paired(ms)
    ensures |ms| % 2 == 0 && 2 * UserCount(ms) == |ms|
    decreases |ms|
  {
    if ms != [] {
      PairedHalfUser(ms[2..]);
      assert ms[1..][1..] == ms[2..];
    }
  }

  class Panel {
    var messages: seq<Message>
    var input: string
    var isLoading: bool
    /** The prompts handed to the answer generator, in order. */
    var prompts: seq<string>

    /** While nothing is awaited the log is made of complete exchanges; while an answer is
        awaited, the last message is the question that was sent. */
    predicate Valid()
      reads this
    {
      if isLoading then
        messages != [] && messages[|messages| - 1].role == User &&
        Paired(messages[..|messages| - 1]) &&
        prompts != [] && messages[|messages| - 1].content == prompts[|prompts| - 1]
      else Paired(messages)
    }

    constructor ()
      ensures Valid() && messages == [] && input == [] && !isLoading && prompts == []
    {
      messages := [];
      input := [];
      isLoading := false;
      prompts := [];
    }

    /** Typing into the input box; the box is disabled while an answer is awaited. */
    method Type(text: string)
      requires Valid()
      modifies this
      ensures Valid()
      ensures input == (if old(isLoading) then old(input) else text)
      ensures messages == old(messages) && isLoading == old(isLoading) && prompts == old(prompts)
    {
      if !isLoading {
        input := text;
      }
    }

    /** The synchronous part of `handleSubmit`, run with the `input` and `isLoading` the handler
        saw at render time. A blank input or an awaited answer ignores the submit; otherwise the
        untrimmed input becomes a user message, the input is cleared and loading starts. */
    method Submit() returns (accepted: bool)
      requires Valid()
      modifies this
      ensures Valid()
      ensures accepted <==> !IsBlank(Js, old(input)) && !old(isLoading)
      ensures !accepted ==> messages == old(messages) && input == old(input) &&
                            isLoading == old(isLoading) && prompts == old(prompts)
      ensures accepted ==> messages == old(messages) + [Message(User, old(input))] &&
                           input == [] && isLoading && prompts == old(prompts) + [old(input)]
    {
      TrimEmptyIffBlank(Js, input);
      if Trim(Js, input) == [] || isLoading {
        return false;
      }
      assert (messages + [Message(User, input)])[..|messages|] == messages;
      messages := messages + [Message(User, input)];
      prompts := prompts + [input];
      input := [];
      isLoading := true;
      accepted := true;
    }

    /** The part of `handleSubmit` after the awaited answer: exactly one assistant message,
        the answer or the apology, and loading ends on both paths. */
    method Complete(reply: Reply)
      requires Valid() && isLoading
      modifies this
      ensures Valid() && !isLoading
      ensures messages == old(messages) + [AssistantMessage(reply)]
      ensures input == old(input) && prompts == old(prompts)
    {
      var pending := messages[..|messages| - 1];
      var question := messages[|messages| - 1];
      assert messages == pending + [question];
      PairedExtend(pending, question, AssistantMessage(reply));
      assert pending + [question, AssistantMessage(reply)] == messages + [AssistantMessage(reply)];
      messages := messages + [AssistantMessage(reply)];
      isLoading := false;
    }

    /** `handleAutoSuggestions`: the suggestion is put in the box, but the submit runs with
        the input the handler saw, so the suggestion itself is never what is sent. */
    method AutoSuggest(suggestion: string) returns (accepted: bool)
      requires Valid()
      modifies this
      ensures Valid()
      ensures accepted <==> !IsBlank(Js, old(input)) && !old(isLoading)
      ensures accepted ==> messages == old(messages) + [Message(User, old(input))] &&
                           prompts == old(prompts) + [old(input)] && input == []
      ensures !accepted ==> messages == old(messages) && prompts == old(prompts) &&
                            input == suggestion && isLoading == old(isLoading)
    {
      accepted := Submit();
      if !accepted {
        input := suggestion;
      } else {
        // The later `setInput("")` of the same batch wins over `setInput(suggestion)`.
        input := [];
      }
    }
  }

  /** The suggestions are only offered on an empty log, where the input is normally still
      empty: clicking one then sends nothing and only fills the box. */
  method SuggestionOnFreshPanel(suggestion: string) returns (p: Panel)
    ensures fresh(p) && p.Valid()
    ensures p.messages == [] && p.prompts == [] && p.input == suggestion && !p.isLoading
  {
    p := new Panel();
    var accepted := p.AutoSuggest(suggestion);
    assert !accepted by {
      assert IsBlank(Js, []);
    }
  }
}
