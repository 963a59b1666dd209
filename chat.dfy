/**
 * The farming chatbot: an append-only log of user and model messages, the
 * input box and the loading flag, updated by the send handler around the
 * request for a reply.
 */
module Chat {
  import opened Wrappers
  import opened Text

  datatype Role = User | Model

  datatype ChatMessage = ChatMessage(role: Role, text: string)

  /** The arguments of the reply request: the question and the selected language. */
  datatype ChatRequest = ChatRequest(question: string, language: string)

  const Apology := "Sorry, I'm having trouble connecting. Please try again."

  /** The model's message for a reply, or the apology when the request failed. */
  function ReplyText(reply: Option<string>): string {
    if reply.Some? then reply.value else Apology
  }

  /** The log is a run of exchanges: user messages at even positions, model messages at odd ones. */
  ghost predicate Alternating(messages: seq<ChatMessage>) {
    && |messages| % 2 == 0
    && forall i :: 0 <= i < |messages| ==> messages[i].role == (if i % 2 == 0 then User else Model)
  }

  class Chatbot {
    var messages: seq<ChatMessage>
    var input: string
    var language: string
    var isLoading: bool

    /** Between sends the log is whole exchanges; while a reply is awaited it ends with the unanswered user message. */
    ghost predicate Valid()
      reads this
    {
      if isLoading then
        |messages| > 0 && Alternating(messages[..|messages| - 1]) && messages[|messages| - 1].role == User
      else
        Alternating(messages)
    }

    constructor ()
      ensures Valid()
      ensures messages == [] && input == "" && language == "English" && !isLoading
    {
      messages, input, language, isLoading := [], "", "English", false;
    }

    /** Typing into the input box. */
    method EditInput(text: string)
      modifies this`input
      ensures input == text
    {
      input := text;
    }

    /** The language selector. */
    method SelectLanguage(newLanguage: string)
      modifies this`language
      ensures language == newLanguage
    {
      language := newLanguage;
    }

    /**
     * The send handler up to the request. A blank input changes nothing;
     * otherwise the user's message is appended, the input is cleared, loading
     * starts, and the request to send is returned. The box and the button are
     * disabled while loading, so this runs only when no reply is awaited.
     */
    method BeginSend() returns (request: Option<ChatRequest>)
      requires Valid() && !isLoading
      modifies this`messages, this`input, this`isLoading
      ensures Valid()
      ensures IsBlank(old(input)) ==>
        request == None && messages == old(messages) && input == old(input) && !isLoading
      ensures !IsBlank(old(input)) ==>
        && request == Some(ChatRequest(old(input), language))
        && messages == old(messages) + [ChatMessage(User, old(input))]
        && input == "" && isLoading
    {
      if IsBlank(input) {
        return None;
      }
      request := Some(ChatRequest(input, language));
      messages := messages + [ChatMessage(User, input)];
      input := "";
      isLoading := true;
      assert messages[..|messages| - 1] == old(messages);
    }

    /** The send handler after the request: exactly one model message is appended, and loading ends. */
    method FinishSend(reply: Option<string>)
      requires Valid() && isLoading
      modifies this`messages, this`isLoading
      ensures Valid()
      ensures messages == old(messages) + [ChatMessage(Model, ReplyText(reply))]
      ensures !isLoading
    {
      var before := messages[..|messages| - 1];
      assert messages == before + [messages[|messages| - 1]];
      messages := messages + [ChatMessage(Model, ReplyText(reply))];
      isLoading := false;
    }

    /** The whole send handler, with the reply (or the failure) given. */
    method HandleSend(reply: Option<string>) returns (request: Option<ChatRequest>)
      requires Valid() && !isLoading
      modifies this`messages, this`input, this`isLoading
      ensures Valid() && !isLoading
      ensures IsBlank(old(input)) ==>
        request == None && messages == old(messages) && input == old(input)
      ensures !IsBlank(old(input)) ==>
        && request == Some(ChatRequest(old(input), language))
        && messages == old(messages) + [ChatMessage(User, old(input)), ChatMessage(Model, ReplyText(reply))]
        && input == ""
    {
      request := BeginSend();
      if request.Some? {
        FinishSend(reply);
      }
    }

    /** Enter sends, unless a reply is still awaited; any other key changes nothing. */
    method HandleKeyPress(key: string, reply: Option<string>) returns (request: Option<ChatRequest>)
      requires Valid()
      modifies this`messages, this`input, this`isLoading
      ensures Valid()
      ensures key != "Enter" || old(isLoading) ==>
        request == None && messages == old(messages) && input == old(input) && isLoading == old(isLoading)
      ensures key == "Enter" && !old(isLoading) && IsBlank(old(input)) ==>
        request == None && messages == old(messages) && input == old(input) && !isLoading
      ensures key == "Enter" && !old(isLoading) && !IsBlank(old(input)) ==>
        && request == Some(ChatRequest(old(input), language))
        && messages == old(messages) + [ChatMessage(User, old(input)), ChatMessage(Model, ReplyText(reply))]
        && input == "" && !isLoading
    {
      if key == "Enter" && !isLoading {
        request := HandleSend(reply);
      } else {
        request := None;
      }
    }
  }
}
