/** The floating chat widget: a message log that only grows, an input
    field, a loading guard and the chat session handle the AI client
    returns and expects back on the next turn. */
module Chatbot {
  import opened Wrappers
  import opened Text

  datatype Sender = User | Ai

  datatype Message = Message(text: string, sender: Sender)

  const GREETING := "Hello! How can I help you learn more about leadership, culture, or strategy today?"
  const APOLOGY := "Apologies, I encountered an error. Please try again."

  /** The chat session object the AI client hands back; opaque here. */
  datatype Session = Session(handle: nat)

  /** What one turn sends to the AI client: the stored session, if any, and
      the text as typed. */
  datatype Request = Request(session: Option<Session>, text: string)

  /** How the AI call ended. */
  datatype Reply = Answered(session: Session, text: string) | Failed

  /** The log alternates AI and user messages, starting with the AI's, and
      the widget waits for a reply exactly when the user spoke last. */
  predicate Alternates(messages: seq<Message>, isLoading: bool) {
    && |messages| >= 1
    && (forall i :: 0 <= i < |messages| ==> (messages[i].sender == Ai <==> i % 2 == 0))
    && (isLoading <==> |messages| % 2 == 0)
  }

  class ChatWidget {
    var isOpen: bool
    var messages: seq<Message>
    var userInput: string
    var isLoading: bool
    /** `chatRef.current`. */
    var session: Option<Session>

    ghost predicate Valid()
      reads this
    {
      Alternates(messages, isLoading) && messages[0] == Message(GREETING, Ai)
    }

    constructor ()
      ensures !isOpen && messages == [Message(GREETING, Ai)] && userInput == ""
      ensures !isLoading && session == None
      ensures Valid()
    {
      isOpen := false;
      messages := [Message(GREETING, Ai)];
      userInput := "";
      isLoading := false;
      session := None;
    }

    method SetOpen(open: bool)
      modifies this`isOpen
      ensures isOpen == open
    {
      isOpen := open;
    }

    /** The input field's `onChange`. */
    method SetInput(text: string)
      modifies this`userInput
      ensures userInput == text
    {
      userInput := text;
    }

    /** `handleSubmit` up to its `await`: blank input, or a submit while a
        reply is pending, changes nothing; otherwise the text joins the log
        as the user's, the input is cleared and the request goes out with
        the stored session. */
    method Submit() returns (request: Option<Request>)
      requires Valid()
      modifies this`messages, this`userInput, this`isLoading
      ensures Valid()
      ensures old(Trim(userInput) == "" || isLoading) ==>
        request == None && messages == old(messages) && userInput == old(userInput) && isLoading == old(isLoading)
      ensures !old(Trim(userInput) == "" || isLoading) ==>
        && request == Some(Request(session, old(userInput)))
        && messages == old(messages) + [Message(old(userInput), User)]
        && userInput == "" && isLoading
    {
      if Trim(userInput) == "" || isLoading {
        return None;
      }
      request := Some(Request(session, userInput));
      messages := messages + [Message(userInput, User)];
      userInput := "";
      isLoading := true;
    }

    /** The rest of `handleSubmit`: an answer replaces the session and joins
        the log; a failure adds the fixed apology and keeps the session. */
    method ReplyArrived(reply: Reply)
      requires Valid() && isLoading
      modifies this`messages, this`isLoading, this`session
      ensures Valid() && !isLoading
      ensures reply.Answered? ==>
        session == Some(reply.session) && messages == old(messages) + [Message(reply.text, Ai)]
      ensures reply.Failed? ==>
        session == old(session) && messages == old(messages) + [Message(APOLOGY, Ai)]
    {
      match reply {
        case Answered(s, text) =>
          session := Some(s);
          messages := messages + [Message(text, Ai)];
        case Failed =>
          messages := messages + [Message(APOLOGY, Ai)];
      }
      isLoading := false;
    }
  }

  /** Two turns: the first answer's session is the one the second request
      carries, and the log holds greeting, question, answer, question. */
  method TwoTurns(first: string, answer: string, s: Session, second: string)
    returns (firstRequest: Option<Request>, secondRequest: Option<Request>, log: seq<Message>)
    requires !IsBlank(first) && !IsBlank(second)
    ensures firstRequest == Some(Request(None, first))
    ensures secondRequest == Some(Request(Some(s), second))
    ensures log == [Message(GREETING, Ai), Message(first, User), Message(answer, Ai), Message(second, User)]
  {
    var chat := new ChatWidget();
    TrimEmptyIffBlank(first);
    TrimEmptyIffBlank(second);
    chat.SetInput(first);
    firstRequest := chat.Submit();
    chat.ReplyArrived(Answered(s, answer));
    chat.SetInput(second);
    secondRequest := chat.Submit();
    log := chat.messages;
  }
}
