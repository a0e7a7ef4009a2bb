/**
 * The client's session state: the chat threads, which one is active, the
 * pending two-click delete, the settings and the in-flight request flag.
 */
module AppState {
  import opened Wrappers

  datatype Role = User | Assistant | System

  /** One transcript entry, `{role, content}`. */
  datatype Message = Message(role: Role, content: string)

  /**
   * `State.settings`. A `null` model and an unset theme are written as the
   * empty string, which is falsy in the source just as `null` is.
   */
  datatype Settings = Settings(system: string, model: string, readAloud: bool, enterToSend: bool, theme: string)

  const DefaultSystem: string := "You are a helpful assistant. Answer concisely."

  const NewChatTitle: string := "New Chat"

  /** A chat thread. Its id and creation time never change; the rest is updated in place. */
  class Chat {
    const id: string
    const createdAt: int
    var title: string
    var messages: seq<Message>
    var model: string
    var systemPrompt: string

    /** The object `createNewChat` builds: titled "New Chat", with no messages. */
    constructor (id: string, createdAt: int, model: string, systemPrompt: string)
      ensures this.id == id && this.createdAt == createdAt
      ensures title == NewChatTitle && messages == []
      ensures this.model == model && this.systemPrompt == systemPrompt
    {
      this.id := id;
      this.createdAt := createdAt;
      title := NewChatTitle;
      messages := [];
      this.model := model;
      this.systemPrompt := systemPrompt;
    }
  }

  /** `chats.find(c => c.id === id)`: the first chat carrying the id, if any. */
  function FindChat(chats: seq<Chat>, id: Option<string>): (r: Option<Chat>)
    ensures r.Some? ==> r.value in chats && Some(r.value.id) == id
    ensures r.None? ==> forall k :: 0 <= k < |chats| ==> Some(chats[k].id) != id
    ensures |chats| > 0 && Some(chats[0].id) == id ==> r == Some(chats[0])
  {
    if |chats| == 0 then None
    else if Some(chats[0].id) == id then Some(chats[0])
    else FindChat(chats[1..], id)
  }

  /** When several chats carry the id, the lookup returns the first of them. */
  lemma {:induction false} FindChatFirst(chats: seq<Chat>, id: Option<string>, j: int)
    requires 0 <= j < |chats| && Some(chats[j].id) == id
    requires forall i :: 0 <= i < j ==> Some(chats[i].id) != id
    ensures FindChat(chats, id) == Some(chats[j])
    decreases j
  {
    if j > 0 {
      assert chats[1..][j - 1] == chats[j];
      FindChatFirst(chats[1..], id, j - 1);
    }
  }

  /** `chats.filter(c => c.id !== id)`. */
  function Remaining(chats: seq<Chat>, id: string): (r: seq<Chat>)
    ensures forall k :: 0 <= k < |r| ==> r[k] in chats && r[k].id != id
    ensures forall k :: 0 <= k < |chats| && chats[k].id != id ==> chats[k] in r
    ensures |r| <= |chats|
  {
    if |chats| == 0 then []
    else if chats[0].id == id then Remaining(chats[1..], id)
    else [chats[0]] + Remaining(chats[1..], id)
  }

  /** Filtering distributes over concatenation, so the kept chats stay in their order. */
  lemma {:induction false} RemainingConcat(a: seq<Chat>, b: seq<Chat>, id: string)
    ensures Remaining(a + b, id) == Remaining(a, id) + Remaining(b, id)
  {
    if |a| > 0 {
      RemainingConcat(a[1..], b, id);
      assert (a + b)[1..] == a[1..] + b;
    } else {
      assert a + b == b;
    }
  }

  /** The global `State` object. */
  class Session {
    var chats: seq<Chat>
    var activeChatId: Option<string>
    var chatIdToDelete: Option<string>
    var availableModels: seq<string>
    var settings: Settings
    /** `State.abortController !== null` */
    var aborter: bool
    var isGenerating: bool

    /** The state before anything is loaded. */
    constructor ()
      ensures chats == [] && activeChatId == None && chatIdToDelete == None
      ensures availableModels == [] && !aborter && !isGenerating
      ensures settings == Settings(DefaultSystem, "", false, true, "dark")
    {
      chats := [];
      activeChatId := None;
      chatIdToDelete := None;
      availableModels := [];
      settings := Settings(DefaultSystem, "", false, true, "dark");
      aborter := false;
      isGenerating := false;
    }

    /** `getActiveChat()`. */
    function ActiveChat(): (r: Option<Chat>)
      reads this`chats, this`activeChatId
      ensures r.Some? ==> r.value in chats && Some(r.value.id) == activeChatId
      ensures r.None? ==> forall k :: 0 <= k < |chats| ==> Some(chats[k].id) != activeChatId
    {
      FindChat(chats, activeChatId)
    }

    /** When several chats carry the active id, the first of them is the active chat. */
    lemma ActiveChatFirst(j: int)
      requires 0 <= j < |chats| && Some(chats[j].id) == activeChatId
      requires forall i :: 0 <= i < j ==> Some(chats[i].id) != activeChatId
      ensures ActiveChat() == Some(chats[j])
    {
      FindChatFirst(chats, activeChatId, j);
    }

    /** The chats a turn may change: the active one, if any. */
    function ActiveSet(): set<Chat>
      reads this`chats, this`activeChatId
    {
      if ActiveChat().Some? then {ActiveChat().value} else {}
    }

    /** The active id names one of the chats. */
    ghost predicate Valid()
      reads this`chats, this`activeChatId
    {
      ActiveChat().Some?
    }
  }
}
