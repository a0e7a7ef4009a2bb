/**
 * `API` of the modular client (js/api.js): the model list and
 * `sendMessage`, updating the session, the active chat and the page in
 * place. Each method is proved to leave the state the pure reconciler of
 * module Stream describes.
 */
module Api {
  import opened Wrappers
  import opened Text
  import opened AppState
  import opened View
  import opened Stream
  import opened Request

  /**
   * `initializeModels()`: the status is not looked at; a decoded reply sets
   * the list of names and replaces a saved model that is unset or unknown.
   */
  method InitializeModels(session: Session, reply: TagsReply) returns (ok: bool)
    modifies session`availableModels, session`settings
    ensures ok <==> reply.Reply? && reply.data.Some?
    ensures ok ==> session.availableModels == ModelNames(reply.data.value)
    ensures ok ==> session.settings == old(session.settings).(model := ChooseModel(old(session.settings.model), session.availableModels))
    ensures ok && |session.availableModels| > 0 ==> session.settings.model in session.availableModels
    ensures !ok ==> session.availableModels == old(session.availableModels) && session.settings == old(session.settings)
  {
    if reply.Unreachable? || reply.data.None? {
      return false;
    }
    session.availableModels := ModelNames(reply.data.value);
    var saved := session.settings.model;
    if saved == "" || saved !in session.availableModels {
      var first := if |session.availableModels| > 0 then session.availableModels[0] else "";
      session.settings := session.settings.(model := first);
    }
    return true;
  }

  /**
   * One complete line of the read loop: the token `ModernDelta` extracts
   * (none for a blank or unparsable line) goes to the trailing message, after
   * the empty assistant message while the typing indicator is still shown.
   */
  method ProcessLine(session: Session, page: Page, chat: Chat, line: string, decode: string -> Record)
    requires session.ActiveChat() == Some(chat) && |chat.messages| > 0
    modifies chat`messages, page`nodes, page`heading
    ensures Scene(chat.messages, page.nodes) == ModernLine(old(Scene(chat.messages, page.nodes)), line, decode)
  {
    var token := ModernDelta(line, decode);
    if token != "" {
      if TypingIndicator in page.nodes {
        page.RemoveTypingIndicator();
        chat.messages := chat.messages + [Message(Assistant, "")];
      }
      chat.messages := AppendToLast(chat.messages, token);
      ghost var cleared := page.nodes;
      page.RenderConversation(session, false);
      assert page.nodes == Incremental(cleared, chat.messages);
    }
  }

  /** One decoded chunk: appended to the buffer, every complete line processed, the rest kept. */
  method ReadChunk(session: Session, page: Page, chat: Chat, buffer: string, data: string, decode: string -> Record)
    returns (rest: string)
    requires session.ActiveChat() == Some(chat) && |chat.messages| > 0
    modifies chat`messages, page`nodes, page`heading
    ensures Feed(Scene(chat.messages, page.nodes), rest) ==
            ModernStep(Feed(old(Scene(chat.messages, page.nodes)), buffer), Chunk(data), decode)
  {
    ghost var start := Scene(chat.messages, page.nodes);
    var lines := Split(buffer + data);
    rest := Last(lines);
    var k := 0;
    while k < |lines| - 1
      invariant 0 <= k <= |lines| - 1
      invariant Scene(chat.messages, page.nodes) == ModernLines(start, lines[..k], decode)
    {
      ModernLinesPrefix(start, lines, k, decode);
      ProcessLine(session, page, chat, lines[k], decode);
      k := k + 1;
    }
    assert lines[..|lines| - 1] == Front(lines);
  }

  /** The read loop over a whole body. */
  method ReadBody(session: Session, page: Page, chat: Chat, body: seq<Event>, decode: string -> Record)
    requires session.ActiveChat() == Some(chat) && |chat.messages| > 0
    modifies chat`messages, page`nodes, page`heading
    ensures Scene(chat.messages, page.nodes) == ModernFeed(Feed(old(Scene(chat.messages, page.nodes)), ""), body, decode).scene
  {
    ghost var start := Scene(chat.messages, page.nodes);
    var buffer := "";
    var i := 0;
    while i < |body|
      invariant 0 <= i <= |body|
      invariant Feed(Scene(chat.messages, page.nodes), buffer) == ModernFeed(Feed(start, ""), body[..i], decode)
    {
      assert Front(body[..i + 1]) == body[..i] && Last(body[..i + 1]) == body[i];
      match body[i] {
        case TypingCleared =>
          page.RemoveTypingIndicator();
        case Chunk(data) =>
          buffer := ReadChunk(session, page, chat, buffer, data, decode);
      }
      i := i + 1;
    }
    assert body[..|body|] == body;
  }

  /** The user's message is pushed and shown in a full redraw, with the typing indicator after it. */
  method Ask(session: Session, page: Page, chat: Chat, text: string)
    requires session.ActiveChat() == Some(chat)
    modifies chat`messages, page`nodes, page`heading, page`sendHidden, page`stopHidden, session`isGenerating
    ensures Scene(chat.messages, page.nodes) == Asked(old(chat.messages), text)
    ensures page.heading == chat.title
    ensures session.isGenerating && page.sendHidden && !page.stopHidden
  {
    chat.messages := chat.messages + [Message(User, text)];
    page.RenderConversation(session, true);
    NoTypingInRedraw(chat.messages);
    page.ShowTypingIndicator();
    ToggleGeneratingState(session, page, true);
  }

  /** The exchange itself: the body is read, and a failure is pushed as an error message. */
  method Exchanged(session: Session, page: Page, chat: Chat, x: Exchange, decode: string -> Record)
    requires session.ActiveChat() == Some(chat) && |chat.messages| > 0
    modifies chat`messages, page`nodes, page`heading, session`aborter
    ensures Scene(chat.messages, page.nodes) == ModernExchange(old(Scene(chat.messages, page.nodes)), x, decode)
    ensures session.aborter == !Stopped(x)
  {
    session.aborter := true;
    match x {
      case Refused(cause) =>
        if cause.Fail? {
          chat.messages := chat.messages + [Message(Assistant, "Error: " + cause.message)];
        } else {
          session.aborter := false;
        }
      case Answered(_, _, body, cut) =>
        ReadBody(session, page, chat, body, decode);
        if cut == Some(Abort) {
          session.aborter := false;
        } else if cut.Some? {
          chat.messages := chat.messages + [Message(Assistant, "Error: " + cut.value.message)];
        }
    }
  }

  /** The `finally` block: an incremental render, then the generating state is switched off. */
  method Finish(session: Session, page: Page, chat: Chat)
    requires session.ActiveChat() == Some(chat)
    modifies page`nodes, page`heading, page`sendHidden, page`stopHidden, session`isGenerating
    ensures page.nodes == Settle(old(Scene(chat.messages, page.nodes))).nodes
    ensures page.heading == chat.title
    ensures !session.isGenerating && !page.sendHidden && page.stopHidden
  {
    page.RenderConversation(session, false);
    ToggleGeneratingState(session, page, false);
  }

  /** The closing render of a turn that has been asked and exchanged. */
  method Close(session: Session, page: Page, chat: Chat, ghost before: seq<Message>, text: string, x: Exchange, decode: string -> Record)
    requires session.ActiveChat() == Some(chat)
    requires Scene(chat.messages, page.nodes) == ModernExchange(Asked(before, text), x, decode)
    modifies page`nodes, page`heading, page`sendHidden, page`stopHidden, session`isGenerating
    ensures Scene(chat.messages, page.nodes) == ModernTurn(before, text, x, decode)
    ensures page.heading == chat.title
    ensures !session.isGenerating && !page.sendHidden && page.stopHidden
  {
    ghost var ended := Scene(chat.messages, page.nodes);
    Finish(session, page, chat);
    assert Scene(chat.messages, page.nodes) == Settle(ended);
    ModernTurnSteps(before, text, x, decode);
  }

  /**
   * The turn proper: the user's message, the exchange and the closing
   * render. The transcript and the container end as `ModernTurn` says.
   */
  method Turn(session: Session, page: Page, chat: Chat, text: string, x: Exchange, decode: string -> Record)
    requires session.ActiveChat() == Some(chat)
    modifies chat`messages, page`nodes, page`heading, page`sendHidden, page`stopHidden
    modifies session`isGenerating, session`aborter
    ensures Scene(chat.messages, page.nodes) == ModernTurn(old(chat.messages), text, x, decode)
    ensures page.heading == chat.title
    ensures !session.isGenerating && !page.sendHidden && page.stopHidden
    ensures session.aborter == !Stopped(x)
  {
    ghost var before := chat.messages;
    Ask(session, page, chat, text);
    Exchanged(session, page, chat, x, decode);
    Close(session, page, chat, before, text, x, decode);
  }

  /** The first message of a chat gives it its title. */
  method Retitle(chat: Chat, text: string)
    modifies chat`title
    ensures chat.messages == old(chat.messages)
    ensures chat.title == (if chat.messages == [] then Title(text) else old(chat.title))
  {
    if chat.messages == [] {
      chat.title := Title(text);
    }
  }

  /**
   * `sendMessage(text)` on the active chat: a fresh chat is titled after
   * the text, the turn runs, and `spoken` is what is read aloud afterwards.
   */
  method Converse(session: Session, page: Page, chat: Chat, text: string, x: Exchange, decode: string -> Record)
    returns (payload: Payload, spoken: Option<string>)
    requires session.ActiveChat() == Some(chat)
    modifies chat`messages, chat`title, page`nodes, page`heading, page`sendHidden, page`stopHidden
    modifies session`isGenerating, session`aborter
    ensures Scene(chat.messages, page.nodes) == ModernTurn(old(chat.messages), text, x, decode)
    ensures chat.title == (if old(chat.messages) == [] then Title(text) else old(chat.title))
    ensures payload == old(BuildPayload(chat.model, chat.systemPrompt, session.settings, chat.messages + [Message(User, text)]))
    ensures page.heading == chat.title
    ensures !session.isGenerating && !page.sendHidden && page.stopHidden
    ensures session.aborter == !Stopped(x)
    ensures spoken == Spoken(session.settings.readAloud, chat.messages)
  {
    // the payload api.js builds right after the user's message is pushed
    payload := BuildPayload(chat.model, chat.systemPrompt, session.settings, chat.messages + [Message(User, text)]);
    Retitle(chat, text);
    Turn(session, page, chat, text, x, decode);
    spoken := Spoken(session.settings.readAloud, chat.messages);
  }

  /**
   * `sendMessage(text)`: nothing happens without an active chat. Only the
   * active chat is in the frame, so every other chat is left as it was; the
   * rest is what `Converse` states.
   */
  method SendMessage(session: Session, page: Page, text: string, x: Exchange, decode: string -> Record)
    returns (payload: Option<Payload>, spoken: Option<string>)
    modifies session.ActiveSet()`messages, session.ActiveSet()`title, page`nodes, page`heading, page`sendHidden, page`stopHidden
    modifies session`isGenerating, session`aborter
    ensures old(session.ActiveChat()).None? ==>
              && payload.None? && spoken.None?
              && page.nodes == old(page.nodes) && page.heading == old(page.heading)
              && page.sendHidden == old(page.sendHidden) && page.stopHidden == old(page.stopHidden)
              && session.isGenerating == old(session.isGenerating) && session.aborter == old(session.aborter)
    ensures old(session.ActiveChat()).Some? ==>
              var chat := old(session.ActiveChat()).value;
              && payload.Some?
              && Scene(chat.messages, page.nodes) == ModernTurn(old(chat.messages), text, x, decode)
              && page.heading == chat.title
              && !session.isGenerating && !page.sendHidden && page.stopHidden
              && session.aborter == !Stopped(x)
              && chat.title == (if old(chat.messages) == [] then Title(text) else old(chat.title))
              && payload == Some(old(BuildPayload(chat.model, chat.systemPrompt, session.settings, chat.messages + [Message(User, text)])))
              && spoken == Spoken(session.settings.readAloud, chat.messages)
  {
    var active := session.ActiveChat();
    if active.None? {
      return None, None;
    }
    var p;
    assert old(session.ActiveChat()) == active;
    ghost var m0 := active.value.messages;
    p, spoken := Converse(session, page, active.value, text, x, decode);
    payload := Some(p);
    assert Scene(active.value.messages, page.nodes) == ModernTurn(m0, text, x, decode);
  }
}
