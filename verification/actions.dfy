/**
 * `Actions` of the modular client (js/main.js): creating chats, the
 * two-click delete with its timed revert, and stopping a generation. Each
 * updates the session and the page in place.
 */
module Actions {
  import opened Wrappers
  import opened AppState
  import opened View

  /**
   * `createNewChat()`: a chat titled "New Chat", with the settings' model
   * and system prompt, goes to the front of the list and becomes active;
   * the conversation is redrawn empty. `id` and `now` stand for
   * `Date.now()`.
   */
  method CreateNewChat(session: Session, page: Page, id: string, now: int) returns (chat: Chat)
    modifies session`chats, session`activeChatId, page`nodes, page`heading
    ensures fresh(chat)
    ensures chat.id == id && chat.createdAt == now && chat.title == NewChatTitle && chat.messages == []
    ensures chat.model == session.settings.model && chat.systemPrompt == session.settings.system
    ensures session.chats == [chat] + old(session.chats)
    ensures session.activeChatId == Some(id) && session.ActiveChat() == Some(chat)
    ensures page.nodes == [] && page.heading == NewChatTitle
  {
    chat := new Chat(id, now, session.settings.model, session.settings.system);
    session.chats := [chat] + session.chats;
    session.activeChatId := Some(id);
    page.RenderConversation(session, true);
  }

  /**
   * `deleteSpecificChat(id)`: every chat with the id goes, the rest keep
   * their order. An emptied list gets a new chat (`freshId`, `now`);
   * otherwise a deleted active chat hands over to the first remaining one.
   * The conversation is redrawn and the pending delete cleared.
   */
  method DeleteSpecificChat(session: Session, page: Page, id: string, freshId: string, now: int)
    modifies session`chats, session`activeChatId, session`chatIdToDelete, page`nodes, page`heading
    ensures session.chatIdToDelete == None
    ensures var kept := Remaining(old(session.chats), id);
            |kept| > 0 ==> session.chats == kept
    ensures var kept := Remaining(old(session.chats), id);
            |kept| == 0 ==>
              && |session.chats| == 1 && fresh(session.chats[0]) && session.chats[0].id == freshId
              && session.chats[0].createdAt == now && session.chats[0].title == NewChatTitle
              && session.chats[0].messages == []
              && session.chats[0].model == session.settings.model
              && session.chats[0].systemPrompt == session.settings.system
              && session.ActiveChat() == Some(session.chats[0])
              && page.nodes == [] && page.heading == NewChatTitle
    ensures var kept := Remaining(old(session.chats), id);
            |kept| > 0 && old(session.activeChatId) == Some(id) ==>
              session.activeChatId == Some(kept[0].id) && session.ActiveChat() == Some(kept[0])
    ensures var kept := Remaining(old(session.chats), id);
            |kept| > 0 && old(session.activeChatId) != Some(id) ==>
              session.activeChatId == old(session.activeChatId)
    ensures old(session.Valid()) ==> session.Valid()
    ensures session.ActiveChat().Some? ==>
              && page.nodes == FullRedraw(session.ActiveChat().value.messages)
              && page.heading == session.ActiveChat().value.title
    ensures session.ActiveChat().None? ==> page.nodes == old(page.nodes) && page.heading == old(page.heading)
  {
    ghost var before := session.chats;
    var kept := Remaining(session.chats, id);
    session.chats := kept;
    if |kept| == 0 {
      var _ := CreateNewChat(session, page, freshId, now);
    } else {
      if session.activeChatId == Some(id) {
        session.activeChatId := Some(kept[0].id);
      } else if FindChat(before, session.activeChatId).Some? {
        KeptActive(before, id, session.activeChatId);
      }
      page.RenderConversation(session, true);
    }
    session.chatIdToDelete := None;
  }

  /** An active chat that does not carry the deleted id is still found after the delete. */
  lemma KeptActive(chats: seq<Chat>, id: string, active: Option<string>)
    requires FindChat(chats, active).Some? && active != Some(id)
    ensures FindChat(Remaining(chats, id), active).Some?
  {
    var c := FindChat(chats, active).value;
    var k :| 0 <= k < |chats| && chats[k] == c;
    assert c in Remaining(chats, id);
    var j :| 0 <= j < |Remaining(chats, id)| && Remaining(chats, id)[j] == c;
  }

  /**
   * `requestChatDelete(id)`: the second click on the same chat deletes it;
   * any other click makes `id` the pending delete, replacing the previous
   * one.
   */
  method RequestChatDelete(session: Session, page: Page, id: string, freshId: string, now: int)
    modifies session`chats, session`activeChatId, session`chatIdToDelete, page`nodes, page`heading
    ensures old(session.chatIdToDelete) == Some(id) ==>
              var kept := Remaining(old(session.chats), id);
              && session.chatIdToDelete == None
              && (|kept| > 0 ==> session.chats == kept)
              && (|kept| == 0 ==>
                    && |session.chats| == 1 && fresh(session.chats[0]) && session.chats[0].id == freshId
                    && session.chats[0].createdAt == now && session.chats[0].title == NewChatTitle
                    && session.chats[0].messages == []
                    && session.chats[0].model == session.settings.model
                    && session.chats[0].systemPrompt == session.settings.system
                    && session.ActiveChat() == Some(session.chats[0])
                    && page.nodes == [] && page.heading == NewChatTitle)
              && (|kept| > 0 && old(session.activeChatId) == Some(id) ==>
                    session.activeChatId == Some(kept[0].id) && session.ActiveChat() == Some(kept[0]))
              && (|kept| > 0 && old(session.activeChatId) != Some(id) ==>
                    session.activeChatId == old(session.activeChatId))
              && (old(session.Valid()) ==> session.Valid())
              && (session.ActiveChat().Some? ==>
                    && page.nodes == FullRedraw(session.ActiveChat().value.messages)
                    && page.heading == session.ActiveChat().value.title)
              && (session.ActiveChat().None? ==> page.nodes == old(page.nodes) && page.heading == old(page.heading))
    ensures old(session.chatIdToDelete) != Some(id) ==>
              && session.chatIdToDelete == Some(id)
              && session.chats == old(session.chats) && session.activeChatId == old(session.activeChatId)
              && page.nodes == old(page.nodes) && page.heading == old(page.heading)
  {
    if session.chatIdToDelete == Some(id) {
      DeleteSpecificChat(session, page, id, freshId, now);
    } else {
      session.chatIdToDelete := Some(id);
    }
  }

  /** The timer set by `requestChatDelete(id)`: the request lapses only if it is still the pending one. */
  method ExpireDeleteRequest(session: Session, id: string)
    modifies session`chatIdToDelete
    ensures session.chatIdToDelete == if old(session.chatIdToDelete) == Some(id) then None else old(session.chatIdToDelete)
  {
    if session.chatIdToDelete == Some(id) {
      session.chatIdToDelete := None;
    }
  }

  /**
   * `stopGeneration()`: a live controller is aborted and dropped; with none
   * nothing happens. The abort itself reaches the read loop as the cut of
   * the exchange (`Stream.Interrupt.Abort`).
   */
  method StopGeneration(session: Session)
    modifies session`aborter
    ensures !session.aborter
  {
    if session.aborter {
      session.aborter := false;
    }
  }
}
