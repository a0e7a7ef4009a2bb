/**
 * `API.sendMessage`, `API.initializeModels` and the delete handler of the
 * single-file client (js/script.js). The read loop differs from the modular
 * copy: the empty assistant message is pushed before the body is read, an
 * unparsable line is taken literally, an abort marks the trailing message
 * and an error is shown in bold. Each method is proved to leave the state
 * the legacy functions of module Stream describe.
 */
module Legacy {
  import opened Wrappers
  import opened Text
  import opened AppState
  import opened View
  import opened Stream
  import opened Request
  import Api
  import Actions

  /**
   * `initializeModels()` of script.js: a status that is not ok, an
   * undecodable body or an empty list is a failure; the list of names is
   * stored even when it is empty. On success an unset or unknown saved
   * model is replaced by the first name.
   */
  method InitializeModels(session: Session, reply: TagsReply) returns (ok: bool)
    modifies session`availableModels, session`settings
    ensures var decoded := reply.Reply? && reply.ok && reply.data.Some?;
            ok <==> decoded && |ModelNames(reply.data.value)| > 0
    ensures reply.Reply? && reply.ok && reply.data.Some? ==> session.availableModels == ModelNames(reply.data.value)
    ensures ok ==> session.settings == old(session.settings).(model := ChooseModel(old(session.settings.model), session.availableModels))
    ensures ok ==> session.settings.model in session.availableModels
    ensures !ok ==> session.settings == old(session.settings)
    ensures !(reply.Reply? && reply.ok && reply.data.Some?) ==> session.availableModels == old(session.availableModels)
  {
    if reply.Unreachable? || !reply.ok || reply.data.None? {
      return false;
    }
    session.availableModels := ModelNames(reply.data.value);
    if |session.availableModels| == 0 {
      return false;
    }
    var saved := session.settings.model;
    if saved == "" || saved !in session.availableModels {
      session.settings := session.settings.(model := session.availableModels[0]);
    }
    return true;
  }

  /** One complete line: the token `LegacyDelta` extracts (the trimmed line itself when it does not decode) is appended. */
  method ProcessLine(session: Session, page: Page, chat: Chat, line: string, decode: string -> Record)
    requires session.ActiveChat() == Some(chat) && |chat.messages| > 0
    modifies chat`messages, page`nodes, page`heading
    ensures Scene(chat.messages, page.nodes) == LegacyLine(old(Scene(chat.messages, page.nodes)), line, decode)
  {
    var token := LegacyDelta(line, decode);
    if token != "" {
      chat.messages := AppendToLast(chat.messages, token);
      page.RenderConversation(session, false);
    }
  }

  /** One decoded chunk: appended to the buffer, every complete line processed, the rest kept. */
  method ReadChunk(session: Session, page: Page, chat: Chat, buffer: string, data: string, decode: string -> Record)
    returns (rest: string)
    requires session.ActiveChat() == Some(chat) && |chat.messages| > 0
    modifies chat`messages, page`nodes, page`heading
    ensures Feed(Scene(chat.messages, page.nodes), rest) ==
            LegacyStep(Feed(old(Scene(chat.messages, page.nodes)), buffer), Chunk(data), decode)
  {
    ghost var start := Scene(chat.messages, page.nodes);
    var lines := Split(buffer + data);
    rest := Last(lines);
    var k := 0;
    while k < |lines| - 1
      invariant 0 <= k <= |lines| - 1
      invariant Scene(chat.messages, page.nodes) == LegacyLines(start, lines[..k], decode)
      invariant |chat.messages| > 0
    {
      LegacyLinesPrefix(start, lines, k, decode);
      ProcessLine(session, page, chat, lines[k], decode);
      k := k + 1;
    }
    assert lines[..|lines| - 1] == Front(lines);
  }

  /** The read loop over a whole body. */
  method ReadBody(session: Session, page: Page, chat: Chat, body: seq<Event>, decode: string -> Record)
    requires session.ActiveChat() == Some(chat) && |chat.messages| > 0
    modifies chat`messages, page`nodes, page`heading
    ensures Scene(chat.messages, page.nodes) == LegacyFeed(Feed(old(Scene(chat.messages, page.nodes)), ""), body, decode).scene
  {
    ghost var start := Scene(chat.messages, page.nodes);
    var buffer := "";
    var i := 0;
    while i < |body|
      invariant 0 <= i <= |body|
      invariant Feed(Scene(chat.messages, page.nodes), buffer) == LegacyFeed(Feed(start, ""), body[..i], decode)
      invariant |chat.messages| > 0
    {
      assert Front(body[..i + 1]) == body[..i] && Last(body[..i + 1]) == body[i];
      match body[i] {
        case TypingCleared =>
          page.RemoveTypingIndicator();
        case Chunk(data) =>
          buffer := ReadChunk(session, page, chat, buffer, data, decode);
      }
      i := i + 1;
    }
    assert body[..|body|] == body;
  }

  /** The user's message is pushed and shown in a full redraw, and a typing indicator is appended. */
  method Ask(session: Session, page: Page, chat: Chat, text: string)
    requires session.ActiveChat() == Some(chat)
    modifies chat`messages, page`nodes, page`heading, page`sendHidden, page`stopHidden, session`isGenerating
    ensures Scene(chat.messages, page.nodes) == Asked(old(chat.messages), text)
    ensures page.heading == chat.title
    ensures session.isGenerating && page.sendHidden && !page.stopHidden
  {
    chat.messages := chat.messages + [Message(User, text)];
    page.RenderConversation(session, true);
    page.AppendTypingIndicator();
    ToggleGeneratingState(session, page, true);
  }

  /** The `catch` block for a stream that was cut: an abort marks the trailing message, a failure is shown in bold. */
  method Interrupted(session: Session, chat: Chat, cause: Interrupt)
    requires |chat.messages| > 0
    modifies chat`messages, session`aborter
    ensures chat.messages == LegacyInterrupt(Scene(old(chat.messages), []), cause).messages
    ensures session.aborter == (old(session.aborter) && cause.Fail?)
  {
    match cause {
      case Abort =>
        chat.messages := AppendToLast(chat.messages, " [Stopped]");
        session.aborter := false;
      case Fail(message) =>
        chat.messages := chat.messages + [Message(Assistant, "**Error:** " + message)];
    }
  }

  /**
   * The exchange itself: a response that is not ok fails with its status
   * text; an ok one gets the empty assistant message and its body is read.
   */
  method Exchanged(session: Session, page: Page, chat: Chat, x: Exchange, decode: string -> Record)
    requires session.ActiveChat() == Some(chat) && |chat.messages| > 0
    modifies chat`messages, page`nodes, page`heading, session`aborter
    ensures Scene(chat.messages, page.nodes) == LegacyExchange(old(Scene(chat.messages, page.nodes)), x, decode)
    ensures session.aborter == !LegacyAborted(x)
  {
    session.aborter := true;
    match x {
      case Refused(cause) =>
        Interrupted(session, chat, cause);
      case Answered(ok, statusText, body, cut) =>
        if !ok {
          Interrupted(session, chat, Fail(StatusError(statusText)));
        } else {
          chat.messages := chat.messages + [Message(Assistant, "")];
          ReadBody(session, page, chat, body, decode);
          if cut.Some? {
            Interrupted(session, chat, cut.value);
          }
        }
    }
  }

  /** The closing render of a turn that has been asked and exchanged. */
  method Close(session: Session, page: Page, chat: Chat, ghost before: seq<Message>, text: string, x: Exchange, decode: string -> Record)
    requires session.ActiveChat() == Some(chat)
    requires Scene(chat.messages, page.nodes) == LegacyExchange(Asked(before, text), x, decode)
    modifies page`nodes, page`heading, page`sendHidden, page`stopHidden, session`isGenerating
    ensures Scene(chat.messages, page.nodes) == LegacyTurn(before, text, x, decode)
    ensures page.heading == chat.title
    ensures !session.isGenerating && !page.sendHidden && page.stopHidden
  {
    ghost var ended := Scene(chat.messages, page.nodes);
    Api.Finish(session, page, chat);
    assert Scene(chat.messages, page.nodes) == Settle(ended);
    LegacyTurnSteps(before, text, x, decode);
  }

  /** The turn proper: the user's message, the exchange and the closing render, as `LegacyTurn` says. */
  method Turn(session: Session, page: Page, chat: Chat, text: string, x: Exchange, decode: string -> Record)
    requires session.ActiveChat() == Some(chat)
    modifies chat`messages, page`nodes, page`heading, page`sendHidden, page`stopHidden
    modifies session`isGenerating, session`aborter
    ensures Scene(chat.messages, page.nodes) == LegacyTurn(old(chat.messages), text, x, decode)
    ensures page.heading == chat.title
    ensures !session.isGenerating && !page.sendHidden && page.stopHidden
    ensures session.aborter == !LegacyAborted(x)
  {
    ghost var before := chat.messages;
    Ask(session, page, chat, text);
    Exchanged(session, page, chat, x, decode);
    Close(session, page, chat, before, text, x, decode);
  }

  /**
   * `sendMessage(text)` of script.js on the active chat (its title is left
   * alone); `spoken` is what is read aloud afterwards.
   */
  method Converse(session: Session, page: Page, chat: Chat, text: string, x: Exchange, decode: string -> Record)
    returns (payload: Payload, spoken: Option<string>)
    requires session.ActiveChat() == Some(chat)
    modifies chat`messages, page`nodes, page`heading, page`sendHidden, page`stopHidden
    modifies session`isGenerating, session`aborter
    ensures Scene(chat.messages, page.nodes) == LegacyTurn(old(chat.messages), text, x, decode)
    ensures payload == old(BuildPayload(chat.model, chat.systemPrompt, session.settings, chat.messages + [Message(User, text)]))
    ensures page.heading == chat.title
    ensures !session.isGenerating && !page.sendHidden && page.stopHidden
    ensures session.aborter == !LegacyAborted(x)
    ensures spoken == Spoken(session.settings.readAloud, chat.messages)
  {
    // the payload script.js builds right after the user's message is pushed
    payload := BuildPayload(chat.model, chat.systemPrompt, session.settings, chat.messages + [Message(User, text)]);
    Turn(session, page, chat, text, x, decode);
    spoken := Spoken(session.settings.readAloud, chat.messages);
  }

  /**
   * `sendMessage(text)`: nothing happens without an active chat. Only the
   * active chat's messages are in the frame, so its title and every other
   * chat are left as they were.
   */
  method SendMessage(session: Session, page: Page, text: string, x: Exchange, decode: string -> Record)
    returns (payload: Option<Payload>, spoken: Option<string>)
    modifies session.ActiveSet()`messages, page`nodes, page`heading, page`sendHidden, page`stopHidden
    modifies session`isGenerating, session`aborter
    ensures old(session.ActiveChat()).None? ==>
              && payload.None? && spoken.None?
              && page.nodes == old(page.nodes) && page.heading == old(page.heading)
              && page.sendHidden == old(page.sendHidden) && page.stopHidden == old(page.stopHidden)
              && session.isGenerating == old(session.isGenerating) && session.aborter == old(session.aborter)
    ensures old(session.ActiveChat()).Some? ==>
              var chat := old(session.ActiveChat()).value;
              && payload.Some?
              && Scene(chat.messages, page.nodes) == LegacyTurn(old(chat.messages), text, x, decode)
              && page.heading == chat.title
              && !session.isGenerating && !page.sendHidden && page.stopHidden
              && session.aborter == !LegacyAborted(x)
              && payload == Some(old(BuildPayload(chat.model, chat.systemPrompt, session.settings, chat.messages + [Message(User, text)])))
              && spoken == Spoken(session.settings.readAloud, chat.messages)
  {
    var active := session.ActiveChat();
    if active.None? {
      return None, None;
    }
    var p;
    assert old(session.ActiveChat()) == active;
    ghost var m0 := active.value.messages;
    p, spoken := Converse(session, page, active.value, text, x, decode);
    payload := Some(p);
    assert Scene(active.value.messages, page.nodes) == LegacyTurn(m0, text, x, decode);
  }

  /** `State.chats.filter(c => c.id !== State.activeChatId)`: with no active id every chat stays. */
  function KeptChats(chats: seq<Chat>, active: Option<string>): (r: seq<Chat>)
    ensures active.None? ==> r == chats
    ensures active.Some? ==> r == Remaining(chats, active.value)
  {
    match active
    case None => chats
    case Some(id) => Remaining(chats, id)
  }

  /**
   * The delete button of script.js, once `confirm` has answered: the active
   * chat is removed, an emptied list gets a new chat (`freshId`, `now`),
   * otherwise the first remaining chat becomes active; the conversation is
   * redrawn.
   */
  method DeleteActiveChat(session: Session, page: Page, confirmed: bool, freshId: string, now: int)
    modifies session`chats, session`activeChatId, page`nodes, page`heading
    ensures !confirmed ==>
              session.chats == old(session.chats) && session.activeChatId == old(session.activeChatId) &&
              page.nodes == old(page.nodes) && page.heading == old(page.heading)
    ensures var kept := KeptChats(old(session.chats), old(session.activeChatId));
            confirmed && |kept| > 0 ==>
              && session.chats == kept
              && session.activeChatId == Some(kept[0].id)
              && session.ActiveChat() == Some(kept[0])
              && page.nodes == FullRedraw(kept[0].messages)
              && page.heading == kept[0].title
    ensures var kept := KeptChats(old(session.chats), old(session.activeChatId));
            confirmed && |kept| == 0 ==>
              && |session.chats| == 1 && fresh(session.chats[0]) && session.chats[0].id == freshId
              && session.chats[0].title == NewChatTitle && session.chats[0].messages == []
              && session.chats[0].createdAt == now
              && session.chats[0].model == session.settings.model
              && session.chats[0].systemPrompt == session.settings.system
              && session.ActiveChat() == Some(session.chats[0])
              && page.nodes == [] && page.heading == NewChatTitle
  {
    if !confirmed {
      return;
    }
    var kept := KeptChats(session.chats, session.activeChatId);
    session.chats := kept;
    if |kept| == 0 {
      var _ := Actions.CreateNewChat(session, page, freshId, now);
    } else {
      session.activeChatId := Some(kept[0].id);
      page.RenderConversation(session, true);
    }
  }
}
