# LightWebUi streaming-response reconciler, in Dafny

LightWebUi is a browser chat client for a local Ollama server. It ships two
copies of the same logic: the single-file client `js/script.js` and the
modular client (`js/api.js`, `js/ui.js`, `js/main.js`). The heart of both is
`sendMessage`. It does the following:

- pushes the user's message;
- redraws the conversation and shows a typing indicator;
- posts the last ten messages behind a system prompt;
- reads the streamed reply chunk by chunk, keeping the text after the last
  line feed in a carry-over buffer;
- trims each complete line and skips blank ones;
- decodes each line and appends the first non-empty of its text fields to the
  trailing message of the transcript;
- re-renders the conversation incrementally, patching the last bubble or
  appending a new one.

The two copies differ in four ways:

- the single-file client pushes the empty assistant message before reading,
  while the modular client pushes it on the first token while the typing
  indicator is still on the page;
- the single-file client takes an unparsable line literally, and the modular
  client drops it;
- on a stop, the single-file client marks the trailing message with
  `" [Stopped]"`, and the modular client adds nothing;
- errors are shown as `**Error:** …` in the single-file client and as
  `Error: …` in the modular client.

The model has these modules:

- `Text`: JavaScript's `split('\n')`, `trim()`, `split(/\s+/)` and `join`.
- `AppState`: the `State` object, as class `Session`, and chat threads, as
  class `Chat`.
- `View`: the conversation container and the buttons, as class `Page`, with
  the render decisions as pure functions. Also the theme, scroll, colour and
  escaping helpers.
- `Stream`: both reconcilers as pure state machines over a `Scene`, which is
  the transcript together with the container's nodes, and a carry-over
  buffer.
- `Request`: title, history window, payload and model choice.
- `Api`, `Legacy` and `Actions`: the imperative `sendMessage`,
  `initializeModels` and chat-list actions. They update the session, the chat
  and the page in place. Each method's postcondition ties the new state to the
  functions of `Stream`, whose properties are proved as lemmas. These include:
  - chunk-boundary invariance;
  - a trailing fragment that is never processed;
  - malformed lines that change nothing;
  - at most one assistant message per turn;
  - the exact transcript and container after a clean close, a stop and each
    kind of failure.

The HTTP exchange is the value `Stream.Exchange`. It is either a request
rejected before any response (`Refused`), or a response with its `ok` flag,
its status text, its body as a list of events, and how the read ended
(`cut`). A body event is a decoded chunk. It can also be the typing indicator
being removed by other code while a read is pending (`TypingCleared`).
`JSON.parse` is the parameter `decode: string -> Record`.

A missing string (`null`/`undefined`) is written as the empty string, which is
falsy in JavaScript just as `null` is. So `a || b` on strings becomes "`a`
unless it is empty". The single-file client's `renderConversation`
(js/script.js:121-157), `createNewChat` (js/script.js:344-359) and
`stopGeneration` (js/script.js:388-393) do the same as the modular ones to the
chat list, the heading and the conversation's nodes. So they are modelled once,
by `View.Page.RenderConversation`, `Actions.CreateNewChat` and
`Actions.StopGeneration`. They differ in three ways that the model does not
track:

- on an incremental render of an empty transcript, js/script.js:141 returns
  before scrolling, while js/ui.js:98-101 still scrolls to the bottom;
- js/script.js:150 runs the syntax highlighter on a patched bubble, while
  js/ui.js:95-96 only re-renders its markdown;
- js/script.js:344-359 does not close the history drawer, while
  js/main.js:14 does.

The single-file client's `showTypingIndicator` differs in a way the model does
track: it does not remove an existing indicator
(`View.Page.AppendTypingIndicator`).

## Model

| member | source | states |
|---|---|---|
| Text.Split | js/api.js:71 | `split('\n')` yields at least one piece and no piece holds a line feed |
| Text.SplitJoin | js/api.js:71 | joining the pieces with line feeds gives back the text |
| Text.JoinSplit | js/api.js:71 | splitting line-feed-free pieces joined by line feeds gives back the pieces |
| Text.SplitAppend | js/api.js:70-72 | splitting buffer + chunk gives the buffer's complete pieces, then the split of its last piece continued by the chunk |
| Text.TrimStart | js/api.js:75 | only leading white space is dropped, and the result starts with no white space |
| Text.TrimEnd | js/api.js:75 | only trailing white space is dropped, and the result ends with no white space |
| Text.Trim | js/api.js:75-76 | the trimmed line is empty exactly when the line is all white space, and otherwise starts and ends with a non-space |
| Text.SplitWords | js/api.js:38 | the pieces of `split(/\s+/)` hold no white space, inner pieces are non-empty, and a text starting with a non-space has a non-empty first word |
| Text.Gaps | js/api.js:38 | the white-space runs between the pieces: one fewer than the pieces, each non-empty and all white space |
| Text.SplitWordsWeave | js/api.js:38 | the text is exactly its pieces interleaved with its white-space runs, each piece space-free and the inner ones non-empty |
| Text.WeaveSplitWords | js/api.js:38 | any such interleaving of words and white-space runs splits back into the same words |
| Text.JoinSplitWords | js/api.js:38-39 | non-empty words joined by single spaces split back into the same words |
| AppState.Chat.constructor | js/main.js:7 | a new chat has the given id, time, model and prompt, the title "New Chat" and no messages |
| AppState.FindChat | js/state.js:28 | the lookup finds a chat carrying the id, the first one when the first matches, and none only when no chat carries it |
| AppState.Remaining | js/main.js:23 | the filter keeps exactly the chats whose id differs |
| AppState.RemainingConcat | js/main.js:23 | the filter distributes over concatenation, so the kept chats keep their relative order |
| AppState.Session.constructor | js/state.js:3-16 | the initial state has no chats, no active or pending id, no models, the default settings and no request in flight |
| AppState.FindChatFirst | js/state.js:28 | `find` returns the first chat carrying the id |
| AppState.Session.ActiveChat | js/state.js:28 | `getActiveChat()` returns a chat of the list carrying the active id, or none when no chat carries it |
| AppState.Session.ActiveChatFirst | js/state.js:28 | `getActiveChat()` returns the first chat carrying the active id |
| View.FullRedraw | js/ui.js:82-84 | a full redraw has one bubble per message, in transcript order |
| View.NoTypingInRedraw | js/ui.js:82-84 | a full redraw holds no typing indicator |
| View.RemoveFirstTyping | js/ui.js:92-93 | removing the indicator removes one node when there is one and changes nothing otherwise |
| View.RemoveFirstTypingCount | js/ui.js:92-93 | removing the indicator lowers the number of indicators by one, if there was one |
| View.Incremental | js/ui.js:90-100 | an incremental render removes one typing indicator; with messages, the last node is the last message's bubble, after the other nodes with the old last bubble dropped iff it was patchable; with none, nothing is added |
| View.RedrawAfterPush | js/ui.js:90-100 | after a push onto a container showing the earlier messages, the incremental render shows exactly the transcript |
| View.RedrawAfterGrowth | js/ui.js:95-97 | after the last message grew, the incremental render patches its bubble and shows exactly the transcript |
| View.SameClassPushOverwrites | js/ui.js:95-97 | a pushed message with the previous bubble's role class overwrites that bubble, so the container differs from a full redraw |
| View.Page.RenderConversation | js/ui.js:76-103 | with no active chat nothing changes; otherwise the heading is the chat's title and the nodes are the full or the incremental render of its messages |
| View.Page.ShowTypingIndicator | js/ui.js:112-120 | an existing indicator is removed and one appended, so exactly one indicator is shown |
| View.Page.AppendTypingIndicator | js/script.js:169-175 | an indicator is appended whatever is shown, so there is one more |
| View.Page.RemoveTypingIndicator | js/api.js:81-83 | the first indicator is removed, and none is left when there was at most one |
| View.Page.SetTheme | js/ui.js:47-53 | the body's classes become those of `ThemeClasses` |
| View.ToggleGeneratingState | js/ui.js:122-134 | `isGenerating` is set, the send and stop buttons are complementary, and switching off removes the indicator |
| View.ActiveTheme | js/ui.js:51 | the theme is the settings' theme, else "dark" |
| View.ThemeClasses | js/ui.js:48-52 | the body carries the active theme and no other listed theme, and every other class is kept |
| View.ThemeIdempotent | js/ui.js:47-53 | setting the same theme twice equals setting it once |
| View.ScrollTarget | js/ui.js:136-139 | the view jumps to the bottom iff it is less than 150 pixels from it or a reply is being generated; the scroll offset may be fractional |
| View.GetColor | js/script.js:217 | the first colour iff below 60, the second iff from 60 to below 85, the third from 85 |
| View.EscapeChar | js/ui.js:164 | an escaped character holds no markup character, and a character that is not special is kept |
| View.EscapeHtml | js/ui.js:164 | the escaped text holds none of `< > " '`, and text without special characters is unchanged |
| View.UnescapeChar | js/ui.js:164 | each entity reads back as the character it replaced |
| View.EscapeRoundTrip | js/script.js:218 | escaped text reads back as the original, so no character is lost or altered |
| Stream.LegacyDeltaToken | js/script.js:310-316 | a blank line adds nothing; an unparsable line adds its trimmed text, which is non-empty; otherwise the first non-empty of `message.content`, `response` and `text` |
| Stream.ModernDeltaToken | js/api.js:75-79 | a blank or unparsable line adds nothing; otherwise the first non-empty of `message.content` and `response` |
| Stream.LegacyInterrupt | js/script.js:325-331 | the container is kept; an abort grows the trailing message by " [Stopped]"; a failure pushes one `**Error:** message` after the transcript |
| Stream.ModernInterrupt | js/api.js:92-93 | an abort changes nothing; a failure keeps the container and pushes one `Error: message` after the transcript |
| Stream.Stopped | js/api.js:92-93 | the user's abort reaches the `catch` of api.js iff the request was refused by an abort or the read was cut by one; `stopGeneration` has then dropped the controller |
| Stream.LegacyAborted | js/script.js:325-326 | the user's abort reaches the `catch` of script.js iff the request was refused by an abort or the read of an ok response was cut by one |
| Stream.AbortsAgree | js/script.js:294 | the two copies see the same aborts, except a stop on a response that is not ok, which script.js reports as its status error |
| Stream.FirstTruthy | js/api.js:79 | the token is the first non-empty field, and it is empty only when every field is missing or empty |
| Stream.AppendToLast | js/api.js:86 | only the trailing message changes; it keeps its role and its content is extended by the token |
| Stream.AppendToLastTwice | js/api.js:86 | appending two tokens one after the other equals appending their concatenation |
| Stream.CompleteLines | js/api.js:71-72 | the processed lines are all pieces but the held-back last one, and none holds a line feed |
| Stream.TrailingFragmentAddsNoLine | js/api.js:71-72 | a line-feed-free fragment after a text that ends its last line adds no complete line |
| Stream.LegacyLine | js/script.js:309-322 | a line appends its token (possibly empty) to the trailing message and never adds an indicator |
| Stream.LegacyLines | js/script.js:309-323 | a run of lines only grows the trailing message, with its role kept and its content extended |
| Stream.LegacyStep | js/script.js:302-323 | a chunk only grows the trailing message |
| Stream.LegacyFeed | js/script.js:302-324 | the read loop only grows the trailing message and never adds an indicator |
| Stream.ModernLine | js/api.js:74-90 | a line changes at most the trailing message and what it pushes after it, and never adds an indicator |
| Stream.ModernLines | js/api.js:74-90 | a run of lines leaves every message before the trailing one unchanged |
| Stream.ModernStep | js/api.js:67-90 | a chunk leaves every message before the trailing one unchanged |
| Stream.ModernFeed | js/api.js:67-91 | the read loop leaves every message before the trailing one unchanged and never adds an indicator |
| Stream.LegacyLinesReply | js/script.js:315-322 | a run of lines appends the concatenation of its tokens to the trailing message |
| Stream.LegacyLiteralFallback | js/script.js:313-316 | an unparsable line contributes its trimmed text verbatim |
| Stream.ModernSkipsMalformed | js/api.js:77-89 | an unparsable line contributes nothing |
| Stream.MalformedSkipped | js/api.js:75-89 | a line that is neither blank nor parsable leaves the transcript and the container as they are |
| Stream.ModernIgnoresMalformed | js/api.js:75-89 | processing a run of lines equals processing only its well-formed lines |
| Stream.LegacyLinesConcat | js/script.js:309 | processing two runs of lines equals processing them one after the other |
| Stream.ModernLinesConcat | js/api.js:74 | processing two runs of lines equals processing them one after the other |
| Stream.LegacyChunkBoundaries | js/script.js:302-307 | after any chunk-only body the lines processed are exactly the complete lines of buffer + text, and the buffer is its last piece |
| Stream.ModernChunkBoundaries | js/api.js:67-74 | after any chunk-only body the lines processed are exactly the complete lines of buffer + text, and the buffer is its last piece |
| Stream.LegacyReadLines | js/script.js:302-307 | from an empty buffer the read loop processes exactly the complete lines of the body's text |
| Stream.ModernReadLines | js/api.js:67-74 | from an empty buffer the read loop processes exactly the complete lines of the body's text |
| Stream.ModernLinesReply | js/api.js:80-87 | lines without text change nothing; the first token pushes one assistant message iff the indicator is shown, every later token extends the trailing message, and the indicator is then gone |
| Stream.TokenClearsTyping | js/api.js:81-83 | a token removes the only typing indicator |
| Stream.LineOnTyping | js/api.js:81-86 | a token while the indicator is shown pushes one assistant message holding just that token |
| Stream.LineOnCleared | js/api.js:86 | once the indicator is gone a line appends its token to the trailing message |
| Stream.LegacyLinesShow | js/script.js:318-322 | while lines arrive the container shows the transcript, or still the pending state when nothing was added |
| Stream.ModernLinesShow | js/api.js:80-87 | a waiting container stays untouched until the first token and shows the transcript from then on |
| Stream.ModernLineOnWaiting | js/api.js:81-87 | the first token on a waiting container pushes the assistant message and the container shows the transcript |
| Stream.ModernLineOnShown | js/api.js:86-87 | a token on a container showing the transcript patches the trailing bubble |
| Stream.Asked | js/api.js:43-47 | the start of a turn pushes the user's message and shows the transcript followed by the typing indicator |
| Stream.Settle | js/api.js:96-97 | the closing render keeps the transcript and leaves no indicator when at most two were shown |
| Stream.SettleAfterIndicator | js/ui.js:90-100 | the closing render onto a container ending in the indicator appends one bubble for the trailing message |
| Stream.SettleAfterGrowth | js/api.js:96-97 | after the trailing message grew, the closing render shows exactly the transcript |
| Stream.SettleAfterError | js/api.js:93-96 | an error pushed behind the reply patches the reply's bubble, so the container shows the transcript without the reply |
| Stream.LegacyRead | js/script.js:300-331 | an ok response pushes the assistant message before reading and keeps every earlier message |
| Stream.ModernRead | js/api.js:63-93 | reading keeps every message before the trailing one and never adds an indicator |
| Stream.LegacyExchange | js/script.js:286-331 | the exchange keeps every earlier message and the trailing message's role, and only extends its content |
| Stream.ModernExchange | js/api.js:55-93 | the exchange keeps every message before the trailing one and never adds an indicator |
| Stream.LegacyTurn | js/script.js:269-335 | a turn keeps the earlier transcript, adds the user's message after it and leaves no typing indicator |
| Stream.ModernTurn | js/api.js:43-97 | a turn keeps the earlier transcript, adds the user's message after it and leaves no typing indicator |
| Stream.LegacyStreamed | js/script.js:300-324 | the read loop leaves one assistant message holding every token, with the container pending or showing the transcript |
| Stream.LegacyCleanClose | js/script.js:300-335 | a clean close adds the user's message and one assistant message holding every token (empty if none), and shows exactly the transcript |
| Stream.LegacyStopped | js/script.js:326-328 | a stop marks the streamed reply with " [Stopped]" and shows the transcript |
| Stream.LegacyFailedRead | js/script.js:329-331 | a failure after the response keeps the reply and pushes `**Error:** message`; the error's bubble replaces the reply's |
| Stream.LegacyBadStatus | js/script.js:294 | a response that is not ok pushes `**Error:** Ollama API Error: statusText`, reads nothing and shows the transcript |
| Stream.LegacyStoppedEarly | js/script.js:326-328 | a stop before any response appends " [Stopped]" to the user's own message and shows the question twice |
| Stream.LegacyRefused | js/script.js:329-331 | a request failing before any response pushes the bold error and shows the transcript |
| Stream.ModernStreamed | js/api.js:67-91 | without text the read loop changes nothing; with text there is one assistant message holding all of it and the container shows the transcript |
| Stream.ModernCleanClose | js/api.js:67-97 | a clean close adds one assistant message holding every token, or none when there is no text (the user's bubble is then appended again) |
| Stream.ModernStopKeepsStream | js/api.js:93 | a stop leaves the turn exactly as a clean close after the same body |
| Stream.ModernIgnoresStatus | js/api.js:56-63 | the response status changes nothing |
| Stream.ModernFailedRead | js/api.js:92-93 | a failure after the response pushes one `Error: message` after whatever was streamed; the error's bubble replaces the reply's, so the container shows the earlier messages, the question and the error |
| Stream.ModernStoppedEarly | js/api.js:93-97 | a stop before any response adds nothing to the transcript, but the closing render shows the user's bubble twice |
| Stream.ModernRefused | js/api.js:92-93 | a request failing before any response pushes `Error: message` and shows the transcript |
| Stream.LegacyTurnChunking | js/script.js:302-307 | two chunk-only bodies with the same complete lines, in particular the same text, give the same turn |
| Stream.ModernTurnChunking | js/api.js:67-72 | two chunk-only bodies with the same complete lines, in particular the same text, give the same turn |
| Stream.TrailingFragmentIgnored | js/api.js:71-72 | in both copies a last chunk without a line feed, after a text that ends its last line, changes nothing |
| Request.Title | js/api.js:38-39 | the only white space a title holds is single spaces |
| Request.JoinOnlySpaces | js/api.js:39 | space-free words joined by spaces hold no other white space |
| Request.ShortTextIsTitle | js/api.js:38-39 | a text of at most five single-spaced words is its own title |
| Request.ShortTextTitle | js/api.js:38-39 | a text of at most five words, separated by any runs of white space, is titled by those words single-spaced |
| Request.LongTextTitle | js/api.js:38-39 | a text of more than five words, separated by any runs of white space, is titled by its first five words single-spaced followed by "..." |
| Request.Window | js/api.js:51 | `slice(-10)` is the last ten messages, or all of them when there are fewer |
| Request.BuildPayload | js/api.js:49-52 | the payload names the chat's model, else the settings' one; it holds a system message with the chat's prompt, else the settings', then all messages when there are at most ten, else the last ten, ending with the newest |
| Request.Spoken | js/api.js:98-99 | something is read aloud iff reading aloud is on and the last message is the assistant's, and then it is that message's text |
| Request.EntryName | js/api.js:10 | an object entry gives its `name`, a bare string gives itself |
| Request.ModelNames | js/api.js:9-10 | the names are those of `models` when present (even empty), else those of `tags`, else none |
| Request.ChooseModel | js/api.js:11-14 | a saved model among the names is kept; otherwise the first name is taken, or nothing when there is no name |
| Request.ChooseModelStable | js/api.js:11-14 | choosing again from the same list changes nothing |
| Api.InitializeModels | js/api.js:5-19 | success iff a reply was decoded; the names are then stored and an unset or unknown model replaced by the first; on failure nothing changes |
| Api.ProcessLine | js/api.js:75-88 | one line leaves the transcript and container as `ModernLine` says |
| Api.ReadChunk | js/api.js:68-90 | one chunk processes every complete line of buffer + chunk and returns the last piece, as `ModernStep` says |
| Api.ReadBody | js/api.js:67-91 | the read loop leaves the transcript and container as `ModernFeed` says |
| Api.Ask | js/api.js:43-47 | the user's message is pushed and shown with the indicator under the chat's title, and the generating state is on |
| Api.Exchanged | js/api.js:54-93 | the exchange leaves the scene as `ModernExchange` says, and the controller is dropped iff the user stopped it |
| Api.Finish | js/api.js:94-97 | the closing render leaves the container as `Settle` says under the chat's title, and the generating state is off: Send shown, Stop hidden |
| Api.Close | js/api.js:94-97 | after the exchange, the closing render completes the turn as `ModernTurn` says, under the chat's title, with Send shown and Stop hidden |
| Api.Turn | js/api.js:43-97 | the whole turn leaves the transcript and container as `ModernTurn` says, the heading showing the chat's title, the generating state off with Send shown and Stop hidden, and the controller live unless the user stopped it |
| Api.Retitle | js/api.js:37-41 | a chat with no messages is titled after the text; any other keeps its title |
| Api.Converse | js/api.js:33-100 | an empty chat is titled after the text, the payload holds the history including the user's message, the turn is `ModernTurn`, the heading shows the (possibly new) title, Send is shown and Stop hidden, the controller is live unless the user stopped it, and the last assistant message is read aloud if enabled |
| Api.SendMessage | js/api.js:33-100 | without an active chat nothing happens to the page or the generating state and nothing is sent; otherwise its turn is `ModernTurn`, an empty chat is titled after the text, the heading shows the chat's title, Send is shown and Stop hidden, the controller is live unless the user stopped it, the payload holds the history including the user's message and the spoken text is `Spoken` of the new history (the last message, when it is the assistant's and reading aloud is on); the frame holds only the active chat, so every other chat is left as it was |
| Actions.CreateNewChat | js/main.js:6-15 | the new chat goes to the front of the list with the settings' model and prompt and becomes active, the others keep their order, and the conversation is redrawn empty |
| Actions.DeleteSpecificChat | js/main.js:22-28 | every chat with the id goes and the rest keep their order; an emptied list gets a fresh active "New Chat" with the given id and time, the settings' model and prompt and no messages, shown empty under its title; a deleted active chat hands over to the first remaining one, otherwise the active id stays; the pending delete is cleared; the active chat is redrawn under its title, and with none the page is left alone |
| Actions.KeptActive | js/main.js:23-25 | an active chat not carrying the deleted id is still found afterwards |
| Actions.RequestChatDelete | js/main.js:29-42 | the second click on the pending id deletes exactly as `DeleteSpecificChat` states; any other click makes the id pending and leaves the chats, the active id, the container and the heading as they were |
| Actions.ExpireDeleteRequest | js/main.js:35-39 | the timeout clears the pending id only if it is still the requested one |
| Actions.StopGeneration | js/main.js:50 | the controller is gone afterwards, and a missing one stays missing |
| Legacy.InitializeModels | js/script.js:223-251 | success iff an ok reply was decoded with at least one name; a decoded list is stored even when empty; on success the model is among the names |
| Legacy.ProcessLine | js/script.js:309-322 | one line leaves the transcript and container as `LegacyLine` says |
| Legacy.ReadChunk | js/script.js:303-323 | one chunk processes every complete line of buffer + chunk and returns the last piece, as `LegacyStep` says |
| Legacy.ReadBody | js/script.js:302-324 | the read loop leaves the transcript and container as `LegacyFeed` says |
| Legacy.Ask | js/script.js:269-273 | the user's message is pushed and shown under the chat's title, an indicator is appended, and the generating state is on |
| Legacy.Interrupted | js/script.js:325-331 | an abort marks the trailing message and drops the controller; a failure pushes the bold error |
| Legacy.Exchanged | js/script.js:284-331 | the exchange leaves the scene as `LegacyExchange` says, and the controller is dropped iff the `catch` saw the user's abort (a stop on a response that is not ok is reported as its status) |
| Legacy.Close | js/script.js:332-335 | after the exchange, the closing render completes the turn as `LegacyTurn` says, under the chat's title, with Send shown and Stop hidden |
| Legacy.Turn | js/script.js:269-335 | the whole turn leaves the transcript and container as `LegacyTurn` says, the heading showing the chat's title, the generating state off with Send shown and Stop hidden, and the controller live unless the `catch` saw the user's abort |
| Legacy.Converse | js/script.js:265-338 | the payload holds the history including the user's message, the turn is `LegacyTurn`, the heading shows the chat's title, Send is shown and Stop hidden, the controller is live unless the `catch` saw the user's abort, and the last assistant message is read aloud if enabled |
| Legacy.SendMessage | js/script.js:265-338 | without an active chat nothing happens to the page or the generating state and nothing is sent; otherwise its turn is `LegacyTurn`, the heading shows the chat's title, Send is shown and Stop hidden, the controller is live unless the `catch` saw the user's abort, the payload holds the history including the user's message and the spoken text is `Spoken` of the new history (the last message, when it is the assistant's and reading aloud is on); the frame holds only the active chat's messages, so its title and every other chat are left as they were |
| Legacy.KeptChats | js/script.js:448 | the active chat's id is filtered out, and with no active id every chat stays |
| Legacy.DeleteActiveChat | js/script.js:446-452 | unconfirmed nothing changes; when confirmed the active chat goes; the first remaining chat becomes active and is redrawn under its title, or an emptied list gets a fresh active "New Chat" with the given id and time, the settings' model and prompt and no messages, shown empty under its title |

## Left out

- `fetch`, `res.body.getReader()` and `AbortController` are not modelled; each exchange is a `Stream.Exchange` value given as a parameter, and a stop or failure is how a read ends (`cut`).
- `TextDecoder` is not modelled: chunks arrive as decoded strings.
- `JSON.parse` is the parameter `decode`. A tags body that is not JSON, is `null`, whose first truthy `models`/`tags` field is not an array, or whose chosen list holds a `null` element (`m.name` throws) is `data == None`, since reading it throws. Any other body is `Some(TagList(models, tags))` with a missing or falsy field as `None`; so a number, string, boolean or array body is `Some(TagList(None, None))`: js/api.js:9-17 stores `[]` and succeeds, js/script.js:229-234 stores `[]` and fails.
- `marked.parse` and `hljs` are not modelled: a bubble carries the message text it is rendered from.
- Persistence through `localStorage` is not modelled: `loadLocal`, `saveChats`, `saveSettings`, `exportData` and `resetData` (js/state.js).
- `populateModelDropdown`, `renderChatList`, `switchChat`, `renameChat` and `submitMessage` are not modelled; they are user interface wiring outside the reconciler.
- Speech output, speech recognition, icons, `showFatalError`, `toast`, `init`, `resizeInput` and the event wiring of `boot` are not modelled; they are browser-only.
- `fetchHW` polling and its rounding of floating-point readings are not modelled; only the colour rule `getColor` is.
- `Date.now()` ids and times are parameters (`id`, `freshId`, `now`).
- The 3-second timer of `requestChatDelete` is the explicit event `Actions.ExpireDeleteRequest`.
- The scroll position is not part of `View.Page`; `View.ScrollTarget` states the rule over explicit measurements.
- Overlapping turns are not modelled. Other code removing the typing indicator during a read is the `TypingCleared` event.
- `m.name || m` on an entry whose name is empty yields the entry object itself; the model yields the empty name.
- The default system prompt is the one in js/script.js; `js/config.js` is not part of this model.
- Api.Converse: the spoken text is returned whether or not a `speakCallback` was passed.
- Stream.ModernTurn: states that the user's message content starts with the text, not that it equals it. A `TypingCleared` event lets later tokens extend the user's own message in api.js.
- Stream.LegacyTurn: states that the user's message content starts with the text, not that it equals it. A stop before any response marks the user's own message in script.js.
- The active chat is fixed for the whole of a turn. Switching, creating or deleting a chat while a read is pending (js/api.js:68, js/ui.js:77, js/main.js:6-28) would make the closing render draw another chat; this is not modelled.
