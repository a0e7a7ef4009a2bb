/**
 * The pure parts of a request shared by both copies of the client: the
 * chat title derived from the first message, the history window and the
 * payload, and the choice of a model from the server's list.
 */
module Request {
  import opened Wrappers
  import opened Text
  import opened AppState

  /** `a || b` on strings, the empty string standing for a missing value. */
  function Or(a: string, b: string): string {
    if a != "" then a else b
  }

  /**
   * The title of a chat whose first message is `text`: the first five
   * pieces of `text.split(/\s+/)` joined by single spaces, and "..." when
   * there were more than five. Line breaks and tabs never reach a title.
   */
  function Title(text: string): (r: string)
    ensures forall i :: 0 <= i < |r| && IsSpace(r[i]) ==> r[i] == ' '
  {
    var words := SplitWords(text);
    if |words| > 5 then
      JoinOnlySpaces(words[..5]);
      Join(words[..5], " ") + "..."
    else
      JoinOnlySpaces(words);
      Join(words, " ")
  }

  /** Words without white space joined by single spaces hold no other white space. */
  lemma {:induction false} JoinOnlySpaces(words: seq<string>)
    requires forall k :: 0 <= k < |words| ==> NoSpace(words[k])
    ensures forall i :: 0 <= i < |Join(words, " ")| && IsSpace(Join(words, " ")[i]) ==> Join(words, " ")[i] == ' '
    decreases |words|
  {
    if |words| > 1 {
      JoinOnlySpaces(words[1..]);
      var w, t := words[0], Join(words[1..], " ");
      assert Join(words, " ") == w + " " + t;
      forall i | 0 <= i < |w + " " + t| && IsSpace((w + " " + t)[i])
        ensures (w + " " + t)[i] == ' '
      {
        if i > |w| {
          assert (w + " " + t)[i] == t[i - |w| - 1];
        }
      }
    }
  }

  /** A text of at most five words separated by single spaces is its own title. */
  lemma ShortTextIsTitle(words: seq<string>)
    requires 1 <= |words| <= 5
    requires forall k :: 0 <= k < |words| ==> words[k] != "" && NoSpace(words[k])
    ensures Title(Join(words, " ")) == Join(words, " ")
  {
    JoinSplitWords(words);
  }

  /**
   * A text of at most five words, whatever white space separates them, is
   * titled by those words joined by single spaces. Every text is such a
   * weave of its words (`Text.SplitWordsWeave`).
   */
  lemma ShortTextTitle(words: seq<string>, gaps: seq<string>)
    requires Separated(words, gaps) && |words| <= 5
    ensures Title(Weave(words, gaps)) == Join(words, " ")
  {
    WeaveSplitWords(words, gaps);
  }

  /**
   * A text of more than five words, whatever white space separates them, is
   * titled by its first five words joined by single spaces, then "...".
   */
  lemma LongTextTitle(words: seq<string>, gaps: seq<string>)
    requires Separated(words, gaps) && |words| > 5
    ensures Title(Weave(words, gaps)) == Join(words[..5], " ") + "..."
  {
    WeaveSplitWords(words, gaps);
  }

  /** `messages.slice(-10)`: the last ten messages, or all of them when there are fewer. */
  function Window(msgs: seq<Message>): (r: seq<Message>)
    ensures |r| == if |msgs| < 10 then |msgs| else 10
    ensures r == msgs[|msgs| - |r|..]
  {
    if |msgs| <= 10 then msgs else msgs[|msgs| - 10..]
  }

  /** The body of a chat request: the model and the messages sent. */
  datatype Payload = Payload(model: string, messages: seq<Message>)

  /**
   * `{model, messages}` of a chat request. The payload names the chat's
   * model, else the settings' model; it holds one system message with the
   * chat's prompt, else the settings' prompt, followed by the last ten
   * messages of the transcript (all of them when there are fewer), the
   * newest last.
   */
  function BuildPayload(chatModel: string, chatPrompt: string, settings: Settings, msgs: seq<Message>): (p: Payload)
    ensures p.model == (if chatModel != "" then chatModel else settings.model)
    ensures 1 <= |p.messages| <= 11
    ensures p.messages[0] == Message(System, if chatPrompt != "" then chatPrompt else settings.system)
    ensures |msgs| <= 10 ==> p.messages[1..] == msgs
    ensures |msgs| > 10 ==> |p.messages| == 11 && p.messages[1..] == msgs[|msgs| - 10..]
    ensures |msgs| > 0 ==> Last(p.messages) == Last(msgs)
  {
    var w := Window(msgs);
    var p := Payload(Or(chatModel, settings.model), [Message(System, Or(chatPrompt, settings.system))] + w);
    assert p.messages[1..] == w;
    if |msgs| == 0 then p
    else
      assert Last(p.messages) == w[|w| - 1];
      p
  }

  /**
   * What is read aloud once a turn is over: the last message, when reading
   * aloud is on and that message is the assistant's.
   */
  function Spoken(readAloud: bool, msgs: seq<Message>): (r: Option<string>)
    ensures r.Some? <==> readAloud && |msgs| > 0 && Last(msgs).role == Assistant
    ensures r.Some? ==> Last(msgs) == Message(Assistant, r.value)
  {
    if readAloud && |msgs| > 0 && Last(msgs).role == Assistant then Some(Last(msgs).content) else None
  }

  // ---------------------------------------------------------------------
  // The list of models
  // ---------------------------------------------------------------------

  /** An element of the tags reply: an object with a `name`, or a bare string. */
  datatype Entry = Named(name: string) | Plain(value: string)

  /** The decoded tags reply: its optional `models` and `tags` arrays. */
  datatype TagList = TagList(models: Option<seq<Entry>>, tags: Option<seq<Entry>>)

  /**
   * What fetching the tags produced: the request was rejected, or a response
   * arrived with its status flag and its body, `None` when it did not decode.
   */
  datatype TagsReply = Unreachable | Reply(ok: bool, data: Option<TagList>)

  /** `m.name || m`. */
  function EntryName(e: Entry): (r: string)
    ensures e.Named? ==> r == e.name
    ensures e.Plain? ==> r == e.value
  {
    match e
    case Named(name) => name
    case Plain(value) => value
  }

  /**
   * `(data.models || data.tags || []).map(m => m.name || m)`: an array is
   * taken whenever it is present, even when it is empty.
   */
  function ModelNames(data: TagList): (names: seq<string>)
    ensures data.models.Some? ==>
              (|names| == |data.models.value| &&
               forall k :: 0 <= k < |names| ==> names[k] == EntryName(data.models.value[k]))
    ensures data.models.None? && data.tags.Some? ==>
              (|names| == |data.tags.value| &&
               forall k :: 0 <= k < |names| ==> names[k] == EntryName(data.tags.value[k]))
    ensures data.models.None? && data.tags.None? ==> names == []
  {
    var raw := if data.models.Some? then data.models.value
               else if data.tags.Some? then data.tags.value
               else [];
    seq(|raw|, k requires 0 <= k < |raw| => EntryName(raw[k]))
  }

  /**
   * The model kept after the list is known: a saved model that is among the
   * names stays, otherwise the first name is taken (nothing, when there is
   * no name).
   */
  function ChooseModel(saved: string, names: seq<string>): (m: string)
    ensures |names| > 0 ==> m in names
    ensures saved != "" && saved in names ==> m == saved
    ensures (saved == "" || saved !in names) && |names| > 0 ==> m == names[0]
    ensures |names| == 0 ==> m == ""
  {
    if saved == "" || saved !in names then
      if |names| > 0 then names[0] else ""
    else saved
  }

  /** Choosing again from the same list changes nothing. */
  lemma ChooseModelStable(saved: string, names: seq<string>)
    requires |names| > 0
    ensures ChooseModel(ChooseModel(saved, names), names) == ChooseModel(saved, names)
  {
  }
}
