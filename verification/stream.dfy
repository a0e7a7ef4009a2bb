/**
 * The streaming-response reconciler, as pure state machines: one for the
 * modular client (js/api.js) and one for the legacy monolith (js/script.js).
 * A state is the chat's transcript together with the conversation container
 * (`Scene`); the framing state adds the carry-over buffer (`Feed`).
 */
module Stream {
  import opened Wrappers
  import opened Text
  import opened AppState
  import opened View

  /** What `JSON.parse` (and the field accesses after it) made of one trimmed line. */
  datatype Record =
    | Unparsable
    | Parsed(messageContent: Option<string>, response: Option<string>, text: Option<string>)

  /** Why a pending `fetch` or `reader.read()` rejected: the user aborted, or anything else. */
  datatype Interrupt = Abort | Fail(message: string)

  /**
   * What happened while a `reader.read()` was pending: a chunk of (already
   * decoded) text arrived, or other code removed the typing indicator.
   */
  datatype Event = Chunk(data: string) | TypingCleared

  /**
   * One request/response exchange: the request is rejected before any
   * response, or a response arrives (status flag and text), its body
   * delivers events, and the read loop ends when the body closes (`cut` is
   * `None`) or a read rejects.
   */
  datatype Exchange =
    | Refused(cause: Interrupt)
    | Answered(ok: bool, statusText: string, body: seq<Event>, cut: Option<Interrupt>)

  /** The transcript of the chat being answered and the conversation container. */
  datatype Scene = Scene(messages: seq<Message>, nodes: seq<Node>)

  /** A scene together with the carry-over `buffer` of the read loop. */
  datatype Feed = Feed(scene: Scene, buffer: string)

  /** An optional string field read as JavaScript does in `a || b`: missing is falsy. */
  function Str(o: Option<string>): string {
    if o.Some? then o.value else ""
  }

  /** `f0 || f1 || ... || ''`: the first non-empty field, or the empty string. */
  function FirstTruthy(fields: seq<Option<string>>): (t: string)
    ensures t == "" <==> forall k :: 0 <= k < |fields| ==> Str(fields[k]) == ""
    ensures t != "" ==> exists k :: 0 <= k < |fields| && Str(fields[k]) == t &&
                                    forall j :: 0 <= j < k ==> Str(fields[j]) == ""
  {
    if |fields| == 0 then ""
    else if Str(fields[0]) != "" then Str(fields[0])
    else
      var t := FirstTruthy(fields[1..]);
      assert t != "" ==> exists k :: 0 < k < |fields| && Str(fields[k]) == t &&
                                     forall j :: 0 <= j < k ==> Str(fields[j]) == "" by {
        if t != "" {
          var k :| 0 <= k < |fields| - 1 && Str(fields[1..][k]) == t &&
                   forall j :: 0 <= j < k ==> Str(fields[1..][j]) == "";
          assert Str(fields[k + 1]) == t;
          assert forall j :: 0 <= j < k + 1 ==> Str(fields[j]) == "" by {
            forall j | 0 <= j < k + 1 ensures Str(fields[j]) == "" {
              if j > 0 { assert fields[j] == fields[1..][j - 1]; }
            }
          }
        }
      }
      t
  }

  /** `messages[messages.length - 1].content += token`. */
  function AppendToLast(msgs: seq<Message>, token: string): (r: seq<Message>)
    requires |msgs| > 0
    ensures |r| == |msgs| && Front(r) == Front(msgs)
    ensures Last(r) == Message(Last(msgs).role, Last(msgs).content + token)
  {
    Front(msgs) + [Message(Last(msgs).role, Last(msgs).content + token)]
  }

  lemma AppendToLastTwice(msgs: seq<Message>, a: string, b: string)
    requires |msgs| > 0
    ensures AppendToLast(AppendToLast(msgs, a), b) == AppendToLast(msgs, a + b)
  {
    assert Last(msgs).content + a + b == Last(msgs).content + (a + b);
  }

  lemma AppendNothing(msgs: seq<Message>)
    requires |msgs| > 0
    ensures AppendToLast(msgs, "") == msgs
  {
    assert Last(msgs).content + "" == Last(msgs).content;
    assert msgs == Front(msgs) + [Last(msgs)];
  }

  /**
   * Only the trailing message changes, it keeps its role, and its new
   * content extends the old one.
   */
  predicate Grows(before: seq<Message>, after: seq<Message>) {
    && |after| == |before| > 0
    && Front(after) == Front(before)
    && Last(after).role == Last(before).role
    && Last(before).content <= Last(after).content
  }

  lemma GrowsTransitive(a: seq<Message>, b: seq<Message>, c: seq<Message>)
    requires Grows(a, b) && Grows(b, c)
    ensures Grows(a, c)
  {
    var x, y, z := Last(a).content, Last(b).content, Last(c).content;
    assert y == x + y[|x|..];
    assert z == y + z[|y|..];
    assert z[..|x|] == x;
  }

  lemma PushTwo(msgs: seq<Message>, a: Message, b: Message)
    ensures msgs + [a, b] == msgs + [a] + [b]
  {
  }

  lemma PushThree(msgs: seq<Message>, a: Message, b: Message, c: Message)
    ensures msgs + [a, b, c] == msgs + [a] + [b] + [c]
  {
  }

  /** Appending to a freshly pushed empty assistant message gives a message holding just the token. */
  lemma AppendToEmpty(msgs: seq<Message>, token: string)
    ensures AppendToLast(msgs + [Message(Assistant, "")], token) == msgs + [Message(Assistant, token)]
  {
    var pushed := msgs + [Message(Assistant, "")];
    assert Front(pushed) == msgs;
    assert Last(pushed).content + token == token;
  }

  /**
   * The messages before the last are kept, the last keeps its role and its
   * content is extended, and messages may follow it.
   */
  predicate Extends(before: seq<Message>, after: seq<Message>) {
    && |before| > 0 && |after| >= |before|
    && after[..|before| - 1] == Front(before)
    && after[|before| - 1].role == Last(before).role
    && Last(before).content <= after[|before| - 1].content
  }

  lemma ExtendsTransitive(a: seq<Message>, b: seq<Message>, c: seq<Message>)
    requires Extends(a, b) && Extends(b, c)
    ensures Extends(a, c)
  {
    var x, y, z := Last(a).content, b[|a| - 1].content, c[|a| - 1].content;
    if |b| == |a| {
      assert y == Last(b).content;
      assert y == x + y[|x|..];
      assert z == y + z[|y|..];
      assert z[..|x|] == x;
      assert c[..|a| - 1] == c[..|b| - 1];
    } else {
      assert c[..|b| - 1][..|a| - 1] == c[..|a| - 1];
      assert b[..|b| - 1][..|a| - 1] == b[..|a| - 1];
      assert c[|a| - 1] == c[..|b| - 1][|a| - 1] == b[|a| - 1];
      assert x <= z;
    }
  }

  // ---------------------------------------------------------------------
  // The framing shared by both copies
  // ---------------------------------------------------------------------

  /** Whether every event of a body is a chunk. */
  predicate AllChunks(body: seq<Event>) {
    forall k :: 0 <= k < |body| ==> body[k].Chunk?
  }

  /** The text a body delivers, chunk after chunk. */
  function Texts(body: seq<Event>): string {
    if |body| == 0 then ""
    else Texts(Front(body)) + (if Last(body).Chunk? then Last(body).data else "")
  }

  /**
   * The lines a text holds in full: every piece before the last line feed.
   * The piece after it is the carry-over that is never processed.
   */
  function CompleteLines(s: string): (r: seq<string>)
    ensures |r| + 1 == |Split(s)|
    ensures forall k :: 0 <= k < |r| ==> '\n' !in r[k]
  {
    Front(Split(s))
  }

  /**
   * A fragment without a line feed after a text that ends its last line (or
   * is empty) adds no complete line.
   */
  lemma TrailingFragmentAddsNoLine(t: string, fragment: string)
    requires t == "" || Last(t) == '\n'
    requires '\n' !in fragment
    ensures CompleteLines(t + fragment) == CompleteLines(t)
  {
    SplitAppend(t, fragment);
    EndsWithLineFeed(t);
    assert Last(Split(t)) + fragment == fragment;
    JoinSplit([fragment]);
    assert Join([fragment], "\n") == fragment;
    assert Split(t + fragment) == Front(Split(t)) + [fragment];
  }

  lemma {:induction false} EndsWithLineFeed(t: string)
    requires t == "" || Last(t) == '\n'
    ensures Last(Split(t)) == ""
  {
    if t != "" {
      if |t| == 1 {
        assert Split(t) == [""] + Split("");
      } else {
        EndsWithLineFeed(t[1..]);
        if t[0] == '\n' {
          assert Split(t) == [""] + Split(t[1..]);
        } else {
          assert Split(t) == [[t[0]] + Split(t[1..])[0]] + Split(t[1..])[1..];
          assert |Split(t[1..])| > 1 by {
            assert '\n' in Join(Split(t[1..]), "\n") by {
              SplitJoin(t[1..]);
              assert t[1..][|t| - 2] == '\n';
            }
            if |Split(t[1..])| == 1 {
              assert '\n' !in Split(t[1..])[0];
            }
          }
        }
      }
    }
  }

  // ---------------------------------------------------------------------
  // js/script.js: eager assistant message, literal fallback
  // ---------------------------------------------------------------------

  lemma FirstOfTwo(a: Option<string>, b: Option<string>)
    ensures FirstTruthy([a, b]) == if Str(a) != "" then Str(a) else Str(b)
  {
    assert [a, b][1..] == [b] && [b][1..] == [];
  }

  lemma FirstOfThree(a: Option<string>, b: Option<string>, c: Option<string>)
    ensures FirstTruthy([a, b, c]) == if Str(a) != "" then Str(a) else if Str(b) != "" then Str(b) else Str(c)
  {
    assert [a, b, c][1..] == [b, c];
    FirstOfTwo(b, c);
  }

  /** The text one line adds in script.js: nothing for a blank line, the trimmed line itself when unparsable. */
  function LegacyDelta(line: string, decode: string -> Record): string {
    var trimmed := Trim(line);
    if trimmed == "" then ""
    else match decode(trimmed)
      case Unparsable => trimmed
      case Parsed(content, response, text) => FirstTruthy([content, response, text])
  }

  /** The token of a line in script.js, case by case. */
  lemma LegacyDeltaToken(line: string, decode: string -> Record)
    ensures AllSpace(line) ==> LegacyDelta(line, decode) == ""
    ensures !AllSpace(line) && decode(Trim(line)).Unparsable? ==>
              LegacyDelta(line, decode) == Trim(line) != ""
    ensures !AllSpace(line) && decode(Trim(line)).Parsed? ==>
              var d := decode(Trim(line));
              var token := LegacyDelta(line, decode);
              && (Str(d.messageContent) != "" ==> token == Str(d.messageContent))
              && (Str(d.messageContent) == "" && Str(d.response) != "" ==> token == Str(d.response))
              && (Str(d.messageContent) == "" && Str(d.response) == "" ==> token == Str(d.text))
  {
    var d := decode(Trim(line));
    if d.Parsed? {
      FirstOfThree(d.messageContent, d.response, d.text);
    }
  }

  /** One complete line in script.js: a non-empty token is appended to the trailing message and rendered. */
  function LegacyLine(s: Scene, line: string, decode: string -> Record): (r: Scene)
    requires |s.messages| > 0
    ensures r.messages == AppendToLast(s.messages, LegacyDelta(line, decode))
    ensures CountTyping(r.nodes) <= CountTyping(s.nodes)
  {
    var token := LegacyDelta(line, decode);
    if token == "" then
      AppendNothing(s.messages);
      s
    else
      var msgs := AppendToLast(s.messages, token);
      Scene(msgs, Incremental(s.nodes, msgs))
  }

  /** The complete lines of one or more chunks, in arrival order. */
  function LegacyLines(s: Scene, lines: seq<string>, decode: string -> Record): (r: Scene)
    requires |s.messages| > 0
    ensures Grows(s.messages, r.messages)
    ensures CountTyping(r.nodes) <= CountTyping(s.nodes)
    decreases |lines|
  {
    if |lines| == 0 then s
    else
      var mid := LegacyLines(s, Front(lines), decode);
      var r := LegacyLine(mid, Last(lines), decode);
      GrowsTransitive(s.messages, mid.messages, r.messages);
      r
  }

  /** One event of the read loop in script.js. */
  function LegacyStep(f: Feed, e: Event, decode: string -> Record): (r: Feed)
    requires |f.scene.messages| > 0
    ensures Grows(f.scene.messages, r.scene.messages)
    ensures CountTyping(r.scene.nodes) <= CountTyping(f.scene.nodes)
  {
    match e
    case TypingCleared =>
      RemoveFirstTypingCount(f.scene.nodes);
      Feed(Scene(f.scene.messages, RemoveFirstTyping(f.scene.nodes)), f.buffer)
    case Chunk(data) =>
      var lines := Split(f.buffer + data);
      Feed(LegacyLines(f.scene, Front(lines), decode), Last(lines))
  }

  /** The read loop of script.js over a body, event by event. */
  function LegacyFeed(f: Feed, body: seq<Event>, decode: string -> Record): (r: Feed)
    requires |f.scene.messages| > 0
    ensures Grows(f.scene.messages, r.scene.messages)
    ensures CountTyping(r.scene.nodes) <= CountTyping(f.scene.nodes)
    decreases |body|
  {
    if |body| == 0 then f
    else
      var mid := LegacyFeed(f, Front(body), decode);
      var r := LegacyStep(mid, Last(body), decode);
      GrowsTransitive(f.scene.messages, mid.scene.messages, r.scene.messages);
      r
  }

  // ---------------------------------------------------------------------
  // js/api.js: lazy assistant message, skipped malformed lines
  // ---------------------------------------------------------------------

  /** The text one line adds in api.js: nothing for a blank or unparsable line. */
  function ModernDelta(line: string, decode: string -> Record): string {
    var trimmed := Trim(line);
    if trimmed == "" then ""
    else match decode(trimmed)
      case Unparsable => ""
      case Parsed(content, response, _) => FirstTruthy([content, response])
  }

  /** The token of a line in api.js, case by case. */
  lemma ModernDeltaToken(line: string, decode: string -> Record)
    ensures AllSpace(line) || decode(Trim(line)).Unparsable? ==> ModernDelta(line, decode) == ""
    ensures !AllSpace(line) && decode(Trim(line)).Parsed? ==>
              var d := decode(Trim(line));
              var token := ModernDelta(line, decode);
              && (Str(d.messageContent) != "" ==> token == Str(d.messageContent))
              && (Str(d.messageContent) == "" ==> token == Str(d.response))
  {
    var d := decode(Trim(line));
    if d.Parsed? {
      FirstOfTwo(d.messageContent, d.response);
    }
  }

  /**
   * One complete line in api.js. A non-empty token first checks for the
   * typing indicator: if it is on the page it is removed and an empty
   * assistant message pushed. The token then goes to the trailing message.
   */
  function ModernLine(s: Scene, line: string, decode: string -> Record): (r: Scene)
    requires |s.messages| > 0
    ensures Extends(s.messages, r.messages)
    ensures CountTyping(r.nodes) <= CountTyping(s.nodes)
  {
    var token := ModernDelta(line, decode);
    if token == "" then s
    else
      var typing := TypingIndicator in s.nodes;
      var pushed := if typing then s.messages + [Message(Assistant, "")] else s.messages;
      var msgs := AppendToLast(pushed, token);
      var nodes := RemoveFirstTyping(s.nodes);
      assert msgs[..|s.messages| - 1] == Front(s.messages);
      RemoveFirstTypingCount(s.nodes);
      RemoveFirstTypingCount(nodes);
      Scene(msgs, Incremental(nodes, msgs))
  }

  function ModernLines(s: Scene, lines: seq<string>, decode: string -> Record): (r: Scene)
    requires |s.messages| > 0
    ensures Extends(s.messages, r.messages)
    ensures CountTyping(r.nodes) <= CountTyping(s.nodes)
    decreases |lines|
  {
    if |lines| == 0 then
      assert s.messages[..|s.messages| - 1] == Front(s.messages);
      s
    else
      var mid := ModernLines(s, Front(lines), decode);
      var r := ModernLine(mid, Last(lines), decode);
      ExtendsTransitive(s.messages, mid.messages, r.messages);
      r
  }

  function ModernStep(f: Feed, e: Event, decode: string -> Record): (r: Feed)
    requires |f.scene.messages| > 0
    ensures Extends(f.scene.messages, r.scene.messages)
    ensures CountTyping(r.scene.nodes) <= CountTyping(f.scene.nodes)
  {
    match e
    case TypingCleared =>
      assert f.scene.messages[..|f.scene.messages| - 1] == Front(f.scene.messages);
      RemoveFirstTypingCount(f.scene.nodes);
      Feed(Scene(f.scene.messages, RemoveFirstTyping(f.scene.nodes)), f.buffer)
    case Chunk(data) =>
      var lines := Split(f.buffer + data);
      Feed(ModernLines(f.scene, Front(lines), decode), Last(lines))
  }

  function ModernFeed(f: Feed, body: seq<Event>, decode: string -> Record): (r: Feed)
    requires |f.scene.messages| > 0
    ensures Extends(f.scene.messages, r.scene.messages)
    ensures CountTyping(r.scene.nodes) <= CountTyping(f.scene.nodes)
    decreases |body|
  {
    if |body| == 0 then
      assert f.scene.messages[..|f.scene.messages| - 1] == Front(f.scene.messages);
      f
    else
      var mid := ModernFeed(f, Front(body), decode);
      var r := ModernStep(mid, Last(body), decode);
      ExtendsTransitive(f.scene.messages, mid.scene.messages, r.scene.messages);
      r
  }

  // ---------------------------------------------------------------------
  // What a run of lines contributes, and chunk-boundary invariance
  // ---------------------------------------------------------------------

  /** The text script.js appends for a run of complete lines. */
  function LegacyReply(lines: seq<string>, decode: string -> Record): string
    decreases |lines|
  {
    if |lines| == 0 then "" else LegacyReply(Front(lines), decode) + LegacyDelta(Last(lines), decode)
  }

  /** The text api.js appends for a run of complete lines. */
  function ModernReply(lines: seq<string>, decode: string -> Record): string
    decreases |lines|
  {
    if |lines| == 0 then "" else ModernReply(Front(lines), decode) + ModernDelta(Last(lines), decode)
  }

  /** In script.js a run of lines appends the concatenation of its tokens to the trailing message. */
  lemma {:induction false} LegacyLinesReply(s: Scene, lines: seq<string>, decode: string -> Record)
    requires |s.messages| > 0
    ensures LegacyLines(s, lines, decode).messages == AppendToLast(s.messages, LegacyReply(lines, decode))
    decreases |lines|
  {
    if |lines| == 0 {
      AppendNothing(s.messages);
    } else {
      LegacyLinesReply(s, Front(lines), decode);
      AppendToLastTwice(s.messages, LegacyReply(Front(lines), decode), LegacyDelta(Last(lines), decode));
    }
  }

  /** In script.js a line that does not parse contributes its trimmed text verbatim. */
  lemma LegacyLiteralFallback(line: string, decode: string -> Record)
    requires decode(Trim(line)) == Unparsable
    ensures LegacyDelta(line, decode) == Trim(line)
  {
  }

  /** In api.js a line that does not parse contributes nothing. */
  lemma ModernSkipsMalformed(line: string, decode: string -> Record)
    requires decode(Trim(line)) == Unparsable
    ensures ModernDelta(line, decode) == ""
  {
  }

  /** Whether a line parses (or is blank, which both copies skip). */
  predicate WellFormed(line: string, decode: string -> Record) {
    Trim(line) == "" || decode(Trim(line)).Parsed?
  }

  /** The lines that parse (or are blank), in order. */
  function WellFormedLines(lines: seq<string>, decode: string -> Record): (r: seq<string>)
    ensures forall k :: 0 <= k < |r| ==> WellFormed(r[k], decode)
    decreases |lines|
  {
    if |lines| == 0 then []
    else WellFormedLines(Front(lines), decode) +
         (if WellFormed(Last(lines), decode) then [Last(lines)] else [])
  }

  /** api.js processes a run of lines exactly as it processes the well-formed ones among them. */
  lemma {:induction false} ModernIgnoresMalformed(s: Scene, lines: seq<string>, decode: string -> Record)
    requires |s.messages| > 0
    ensures ModernLines(s, lines, decode) == ModernLines(s, WellFormedLines(lines, decode), decode)
    decreases |lines|
  {
    if |lines| > 0 {
      ModernIgnoresMalformed(s, Front(lines), decode);
      IgnoreStep(s, Front(lines), Last(lines), WellFormedLines(Front(lines), decode), decode);
    }
  }

  /** The step of `ModernIgnoresMalformed`: the last line is processed if and only if it is kept. */
  lemma IgnoreStep(s: Scene, front: seq<string>, last: string, kept: seq<string>, decode: string -> Record)
    requires |s.messages| > 0
    requires ModernLines(s, front, decode) == ModernLines(s, kept, decode)
    ensures ModernLine(ModernLines(s, front, decode), last, decode) ==
            ModernLines(s, kept + (if WellFormed(last, decode) then [last] else []), decode)
  {
    if WellFormed(last, decode) {
      ModernLinesSnoc(s, kept, last, decode);
    } else {
      MalformedSkipped(ModernLines(s, front, decode), last, decode);
      assert kept + [] == kept;
    }
  }

  /** In api.js a line that is neither blank nor parsable leaves the scene as it is. */
  lemma MalformedSkipped(s: Scene, line: string, decode: string -> Record)
    requires |s.messages| > 0 && !WellFormed(line, decode)
    ensures ModernLine(s, line, decode) == s
  {
  }

  /** The lines up to `k`, then line `k`: what the read loop of api.js does one line at a time. */
  lemma ModernLinesPrefix(s: Scene, lines: seq<string>, k: int, decode: string -> Record)
    requires |s.messages| > 0 && 0 <= k < |lines|
    ensures ModernLines(s, lines[..k + 1], decode) == ModernLine(ModernLines(s, lines[..k], decode), lines[k], decode)
  {
    assert lines[..k + 1] == lines[..k] + [lines[k]];
    ModernLinesSnoc(s, lines[..k], lines[k], decode);
  }

  /** The lines up to `k`, then line `k`: what the read loop of script.js does one line at a time. */
  lemma LegacyLinesPrefix(s: Scene, lines: seq<string>, k: int, decode: string -> Record)
    requires |s.messages| > 0 && 0 <= k < |lines|
    ensures LegacyLines(s, lines[..k + 1], decode) == LegacyLine(LegacyLines(s, lines[..k], decode), lines[k], decode)
  {
    assert Front(lines[..k + 1]) == lines[..k] && Last(lines[..k + 1]) == lines[k];
  }

  lemma ModernLinesSnoc(s: Scene, lines: seq<string>, line: string, decode: string -> Record)
    requires |s.messages| > 0
    ensures ModernLines(s, lines + [line], decode) == ModernLine(ModernLines(s, lines, decode), line, decode)
  {
    assert Front(lines + [line]) == lines && Last(lines + [line]) == line;
  }

  lemma {:induction false} LegacyLinesConcat(s: Scene, a: seq<string>, b: seq<string>, decode: string -> Record)
    requires |s.messages| > 0
    ensures LegacyLines(s, a + b, decode) == LegacyLines(LegacyLines(s, a, decode), b, decode)
    decreases |b|
  {
    if |b| == 0 {
      assert a + b == a;
    } else {
      assert Front(a + b) == a + Front(b) && Last(a + b) == Last(b);
      LegacyLinesConcat(s, a, Front(b), decode);
    }
  }

  lemma {:induction false} ModernLinesConcat(s: Scene, a: seq<string>, b: seq<string>, decode: string -> Record)
    requires |s.messages| > 0
    ensures ModernLines(s, a + b, decode) == ModernLines(ModernLines(s, a, decode), b, decode)
    decreases |b|
  {
    if |b| == 0 {
      assert a + b == a;
    } else {
      assert Front(a + b) == a + Front(b) && Last(a + b) == Last(b);
      ModernLinesConcat(s, a, Front(b), decode);
    }
  }

  lemma Associative(a: string, b: string, c: string)
    ensures a + (b + c) == (a + b) + c
  {
  }

  /** The complete lines of a buffer extended by a chunk are those of the buffer followed by the new ones. */
  lemma SplitChunk(prefix: string, data: string)
    ensures var before := Split(prefix);
            var next := Split(Last(before) + data);
            Front(Split(prefix + data)) == Front(before) + Front(next) &&
            Last(Split(prefix + data)) == Last(next)
  {
    SplitAppend(prefix, data);
  }

  /**
   * Chunk-boundary invariance of script.js: however the text is cut into
   * chunks, the read loop processes exactly the complete lines of the
   * carried-over buffer followed by the text, and keeps its last piece.
   */
  lemma {:induction false} LegacyChunkBoundaries(f: Feed, body: seq<Event>, decode: string -> Record)
    requires |f.scene.messages| > 0 && '\n' !in f.buffer && AllChunks(body)
    ensures LegacyFeed(f, body, decode) ==
            Feed(LegacyLines(f.scene, CompleteLines(f.buffer + Texts(body)), decode),
                 Last(Split(f.buffer + Texts(body))))
    decreases |body|
  {
    if |body| == 0 {
      assert f.buffer + "" == f.buffer;
      JoinSplit([f.buffer]);
      assert Join([f.buffer], "\n") == f.buffer;
    } else {
      assert AllChunks(Front(body));
      LegacyChunkBoundaries(f, Front(body), decode);
      var t := f.buffer + Texts(Front(body));
      var data := Last(body).data;
      assert Last(body) == Chunk(data);
      Associative(f.buffer, Texts(Front(body)), data);
      var mid := LegacyFeed(f, Front(body), decode);
      assert LegacyFeed(f, body, decode) == LegacyStep(mid, Chunk(data), decode);
      LegacyChunkStep(f.scene, t, data, decode);
    }
  }

  lemma LegacyChunkStep(s: Scene, t: string, data: string, decode: string -> Record)
    requires |s.messages| > 0
    ensures LegacyStep(Feed(LegacyLines(s, CompleteLines(t), decode), Last(Split(t))), Chunk(data), decode) ==
            Feed(LegacyLines(s, CompleteLines(t + data), decode), Last(Split(t + data)))
  {
    var next := Split(Last(Split(t)) + data);
    SplitChunk(t, data);
    LegacyLinesConcat(s, CompleteLines(t), Front(next), decode);
  }

  /** Chunk-boundary invariance of api.js. */
  lemma {:induction false} ModernChunkBoundaries(f: Feed, body: seq<Event>, decode: string -> Record)
    requires |f.scene.messages| > 0 && '\n' !in f.buffer && AllChunks(body)
    ensures ModernFeed(f, body, decode) ==
            Feed(ModernLines(f.scene, CompleteLines(f.buffer + Texts(body)), decode),
                 Last(Split(f.buffer + Texts(body))))
    decreases |body|
  {
    if |body| == 0 {
      assert f.buffer + "" == f.buffer;
      JoinSplit([f.buffer]);
      assert Join([f.buffer], "\n") == f.buffer;
    } else {
      assert AllChunks(Front(body));
      ModernChunkBoundaries(f, Front(body), decode);
      var t := f.buffer + Texts(Front(body));
      var data := Last(body).data;
      assert Last(body) == Chunk(data);
      Associative(f.buffer, Texts(Front(body)), data);
      var mid := ModernFeed(f, Front(body), decode);
      assert ModernFeed(f, body, decode) == ModernStep(mid, Chunk(data), decode);
      ModernChunkStep(f.scene, t, data, decode);
    }
  }

  lemma ModernChunkStep(s: Scene, t: string, data: string, decode: string -> Record)
    requires |s.messages| > 0
    ensures ModernStep(Feed(ModernLines(s, CompleteLines(t), decode), Last(Split(t))), Chunk(data), decode) ==
            Feed(ModernLines(s, CompleteLines(t + data), decode), Last(Split(t + data)))
  {
    var next := Split(Last(Split(t)) + data);
    SplitChunk(t, data);
    ModernLinesConcat(s, CompleteLines(t), Front(next), decode);
  }

  /**
   * At most one assistant message per turn in api.js: starting from a
   * container with at most one typing indicator, a run of lines changes the
   * transcript only when it yields text; the first token pushes one
   * assistant message if the indicator is still shown, and every token is
   * appended to the trailing message.
   */
  lemma {:induction false} ModernLinesReply(s: Scene, lines: seq<string>, decode: string -> Record)
    requires |s.messages| > 0 && CountTyping(s.nodes) <= 1
    ensures Replied(s, ModernLines(s, lines, decode), ModernReply(lines, decode))
    decreases |lines|
  {
    if |lines| > 0 {
      ModernLinesReply(s, Front(lines), decode);
      ReplyStep(s, ModernLines(s, Front(lines), decode), ModernReply(Front(lines), decode), Last(lines), decode);
    }
  }

  /**
   * What api.js has made of `s` once the lines so far yielded `reply`: no
   * change without text; otherwise the text is in a pushed assistant message
   * (indicator shown at the start) or appended to the trailing message, and
   * the indicator is gone.
   */
  predicate Replied(s: Scene, r: Scene, reply: string)
    requires |s.messages| > 0
  {
    && (reply == "" ==> r == s)
    && (reply != "" && TypingIndicator in s.nodes ==> r.messages == s.messages + [Message(Assistant, reply)])
    && (reply != "" && TypingIndicator !in s.nodes ==> r.messages == AppendToLast(s.messages, reply))
    && (TypingIndicator in r.nodes <==> TypingIndicator in s.nodes && reply == "")
  }

  /** The step of `ModernLinesReply`: one more line after the lines that made `mid`. */
  lemma ReplyStep(s: Scene, mid: Scene, before: string, line: string, decode: string -> Record)
    requires |s.messages| > 0 && |mid.messages| > 0 && CountTyping(mid.nodes) <= 1
    requires Replied(s, mid, before)
    ensures Replied(s, ModernLine(mid, line, decode), before + ModernDelta(line, decode))
  {
    var d := ModernDelta(line, decode);
    if d == "" {
      assert before + d == before;
    } else {
      TokenClearsTyping(mid, line, decode);
      if TypingIndicator in mid.nodes {
        LineOnTyping(mid, line, decode);
        assert before + d == d;
      } else {
        LineOnCleared(mid, line, decode);
        ReplyAppend(s, mid.messages, ModernLine(mid, line, decode).messages, before, d);
      }
    }
  }

  /** A token while the indicator is shown pushes an assistant message holding just the token. */
  lemma LineOnTyping(s: Scene, line: string, decode: string -> Record)
    requires |s.messages| > 0 && TypingIndicator in s.nodes && ModernDelta(line, decode) != ""
    ensures ModernLine(s, line, decode).messages == s.messages + [Message(Assistant, ModernDelta(line, decode))]
  {
    AppendToEmpty(s.messages, ModernDelta(line, decode));
  }

  /** A line once the indicator is gone appends its token to the trailing message. */
  lemma LineOnCleared(s: Scene, line: string, decode: string -> Record)
    requires |s.messages| > 0 && TypingIndicator !in s.nodes
    ensures ModernLine(s, line, decode).messages == AppendToLast(s.messages, ModernDelta(line, decode))
  {
    AppendNothing(s.messages);
  }

  /** The transcript arithmetic of `ReplyStep` once the indicator is gone. */
  lemma ReplyAppend(s: Scene, mid: seq<Message>, r: seq<Message>, before: string, d: string)
    requires |s.messages| > 0 && |mid| > 0 && r == AppendToLast(mid, d)
    requires !(TypingIndicator in s.nodes && before == "")
    requires before == "" ==> mid == s.messages
    requires before != "" && TypingIndicator in s.nodes ==> mid == s.messages + [Message(Assistant, before)]
    requires before != "" && TypingIndicator !in s.nodes ==> mid == AppendToLast(s.messages, before)
    ensures TypingIndicator in s.nodes ==> r == s.messages + [Message(Assistant, before + d)]
    ensures TypingIndicator !in s.nodes ==> r == AppendToLast(s.messages, before + d)
  {
    if before == "" {
      assert before + d == d;
    } else if TypingIndicator in s.nodes {
      assert Last(mid) == Message(Assistant, before) && Front(mid) == s.messages;
    } else {
      AppendToLastTwice(s.messages, before, d);
    }
  }

  /** A token removes the only typing indicator. */
  lemma TokenClearsTyping(s: Scene, line: string, decode: string -> Record)
    requires |s.messages| > 0 && CountTyping(s.nodes) <= 1 && ModernDelta(line, decode) != ""
    ensures TypingIndicator !in ModernLine(s, line, decode).nodes
  {
    var r := ModernLine(s, line, decode);
    RemoveFirstTypingCount(s.nodes);
    CountTypingZero(RemoveFirstTyping(s.nodes));
    CountTypingZero(r.nodes);
  }

  // ---------------------------------------------------------------------
  // What the container shows while lines arrive
  // ---------------------------------------------------------------------

  /** The container shows exactly the transcript. */
  predicate Shows(s: Scene) {
    s.nodes == FullRedraw(s.messages)
  }

  /** The container shows the transcript and the typing indicator after it. */
  predicate Waits(s: Scene) {
    s.nodes == FullRedraw(s.messages) + [TypingIndicator]
  }

  /** The container shows every message but the last, which was pushed but not rendered yet, then the typing indicator. */
  predicate Pending(s: Scene) {
    |s.messages| > 0 && s.nodes == FullRedraw(Front(s.messages)) + [TypingIndicator]
  }

  lemma RedrawSnoc(msgs: seq<Message>, m: Message)
    ensures FullRedraw(msgs + [m]) == FullRedraw(msgs) + [BubbleOf(m)]
  {
  }

  lemma WaitingClears(msgs: seq<Message>)
    ensures RemoveFirstTyping(FullRedraw(msgs) + [TypingIndicator]) == FullRedraw(msgs)
  {
    NoTypingInRedraw(msgs);
    RemoveFirstTypingAppend(FullRedraw(msgs), [TypingIndicator]);
    assert RemoveFirstTyping([TypingIndicator]) == [];
    assert FullRedraw(msgs) + [] == FullRedraw(msgs);
  }

  /** In script.js, every complete line leaves the container showing the transcript, or still the pending state when it added nothing. */
  lemma {:induction false} LegacyLinesShow(s: Scene, lines: seq<string>, decode: string -> Record)
    requires |s.messages| > 0 && (Pending(s) || Shows(s))
    ensures var r := LegacyLines(s, lines, decode);
            (Pending(r) && r.messages == s.messages) || Shows(r)
    ensures Shows(s) ==> Shows(LegacyLines(s, lines, decode))
    decreases |lines|
  {
    if |lines| > 0 {
      var mid := LegacyLines(s, Front(lines), decode);
      LegacyLinesShow(s, Front(lines), decode);
      var d := LegacyDelta(Last(lines), decode);
      if d != "" {
        var msgs := AppendToLast(mid.messages, d);
        if Shows(mid) {
          RedrawAfterGrowth(mid.messages, msgs);
        } else {
          RedrawAfterPush(msgs, true);
        }
      }
    }
  }

  /** In api.js, lines leave a waiting container untouched until the first token, and it shows the transcript from then on. */
  lemma {:induction false} ModernLinesShow(s: Scene, lines: seq<string>, decode: string -> Record)
    requires |s.messages| > 0 && ((Waits(s) && Last(s.messages).role == User) || Shows(s))
    ensures var r := ModernLines(s, lines, decode);
            r == s || Shows(r)
    ensures Shows(s) ==> Shows(ModernLines(s, lines, decode))
    decreases |lines|
  {
    if |lines| > 0 {
      var mid := ModernLines(s, Front(lines), decode);
      ModernLinesShow(s, Front(lines), decode);
      var d := ModernDelta(Last(lines), decode);
      if d != "" {
        if Shows(mid) {
          ModernLineOnShown(mid, Last(lines), decode);
        } else {
          ModernLineOnWaiting(s, Last(lines), decode);
        }
      }
    }
  }

  /** A token while the typing indicator is shown: the empty assistant message is pushed and receives it. */
  lemma ModernLinePushes(s: Scene, line: string, decode: string -> Record)
    requires |s.messages| > 0 && TypingIndicator in s.nodes
    requires ModernDelta(line, decode) != ""
    ensures var msgs := s.messages + [Message(Assistant, ModernDelta(line, decode))];
            ModernLine(s, line, decode) == Scene(msgs, Incremental(RemoveFirstTyping(s.nodes), msgs))
  {
    var d := ModernDelta(line, decode);
    var pushed := s.messages + [Message(Assistant, "")];
    assert Front(pushed) == s.messages && Last(pushed).content + d == d;
    assert AppendToLast(pushed, d) == s.messages + [Message(Assistant, d)];
  }

  /** In api.js the first token on a waiting container pushes the assistant message, and the container shows the transcript. */
  lemma ModernLineOnWaiting(s: Scene, line: string, decode: string -> Record)
    requires |s.messages| > 0 && Waits(s) && Last(s.messages).role == User
    requires ModernDelta(line, decode) != ""
    ensures ModernLine(s, line, decode).messages == s.messages + [Message(Assistant, ModernDelta(line, decode))]
    ensures Shows(ModernLine(s, line, decode))
  {
    var msgs := s.messages + [Message(Assistant, ModernDelta(line, decode))];
    assert TypingIndicator in s.nodes;
    ModernLinePushes(s, line, decode);
    WaitingClears(s.messages);
    assert Front(msgs) == s.messages && msgs[|msgs| - 2] == Last(s.messages);
    RedrawAfterPush(msgs, false);
    assert FullRedraw(Front(msgs)) + [] == FullRedraw(s.messages);
  }

  /** In api.js a token on a container showing the transcript patches the trailing bubble. */
  lemma ModernLineOnShown(s: Scene, line: string, decode: string -> Record)
    requires |s.messages| > 0 && Shows(s)
    ensures ModernLine(s, line, decode).messages == AppendToLast(s.messages, ModernDelta(line, decode))
    ensures Shows(ModernLine(s, line, decode))
  {
    NoTypingInRedraw(s.messages);
    var d := ModernDelta(line, decode);
    if d == "" {
      AppendNothing(s.messages);
    } else {
      RedrawAfterGrowth(s.messages, AppendToLast(s.messages, d));
    }
  }

  // ---------------------------------------------------------------------
  // Whole turns
  // ---------------------------------------------------------------------

  /**
   * The start of a turn, identical in both copies: the user's message is
   * pushed, the container fully redrawn and the typing indicator appended.
   */
  function Asked(msgs: seq<Message>, text: string): (s: Scene)
    ensures s.messages == msgs + [Message(User, text)] && Waits(s)
  {
    var asked := msgs + [Message(User, text)];
    Scene(asked, FullRedraw(asked) + [TypingIndicator])
  }

  /**
   * The `finally` block of both copies: an incremental render, then
   * `toggleGeneratingState(false)` removes a typing indicator still shown.
   */
  function Settle(s: Scene): (r: Scene)
    ensures r.messages == s.messages
    ensures CountTyping(s.nodes) <= 2 ==> TypingIndicator !in r.nodes
  {
    var rendered := Incremental(s.nodes, s.messages);
    RemoveFirstTypingCount(rendered);
    CountTypingZero(RemoveFirstTyping(rendered));
    Scene(s.messages, RemoveFirstTyping(rendered))
  }

  /** The `catch` block of script.js: an abort marks the trailing message, any other failure is pushed as an error. */
  function LegacyInterrupt(s: Scene, cause: Interrupt): (r: Scene)
    requires |s.messages| > 0
    ensures r.nodes == s.nodes
    ensures cause.Abort? ==>
              Grows(s.messages, r.messages) && Last(r.messages).content == Last(s.messages).content + " [Stopped]"
    ensures cause.Fail? ==>
              && |r.messages| == |s.messages| + 1 && r.messages[..|s.messages|] == s.messages
              && Last(r.messages) == Message(Assistant, "**Error:** " + cause.message)
  {
    match cause
    case Abort => Scene(AppendToLast(s.messages, " [Stopped]"), s.nodes)
    case Fail(message) => Scene(s.messages + [Message(Assistant, "**Error:** " + message)], s.nodes)
  }

  /** The `catch` block of api.js: an abort is ignored, any other failure is pushed as an error. */
  function ModernInterrupt(s: Scene, cause: Interrupt): (r: Scene)
    ensures cause.Abort? ==> r == s
    ensures cause.Fail? ==>
              && r.nodes == s.nodes
              && |r.messages| == |s.messages| + 1 && r.messages[..|s.messages|] == s.messages
              && Last(r.messages) == Message(Assistant, "Error: " + cause.message)
  {
    match cause
    case Abort => s
    case Fail(message) => Scene(s.messages + [Message(Assistant, "Error: " + message)], s.nodes)
  }

  /** Whether the user stopped the exchange (`stopGeneration` aborted it). */
  predicate Stopped(x: Exchange) {
    (x.Refused? && x.cause == Abort) || (x.Answered? && x.cut == Some(Abort))
  }

  /**
   * Whether script.js's `catch` sees the user's abort: a response that is
   * not ok fails with its status before any read, so a stop there does not count.
   */
  predicate LegacyAborted(x: Exchange) {
    (x.Refused? && x.cause == Abort) || (x.Answered? && x.ok && x.cut == Some(Abort))
  }

  /**
   * The two copies' `catch` blocks see the same aborts, except a stop on a
   * response that is not ok, which script.js reports as its status error.
   */
  lemma AbortsAgree(x: Exchange)
    ensures LegacyAborted(x) ==> Stopped(x)
    ensures (Stopped(x) && !LegacyAborted(x)) <==> (x.Answered? && !x.ok && x.cut == Some(Abort))
  {
  }

  /** The message script.js shows for a response that is not ok. */
  function StatusError(statusText: string): string {
    "Ollama API Error: " + statusText
  }

  /** An ok response in script.js: the empty assistant message is pushed, then the body is read until it closes or a read rejects. */
  function LegacyRead(s: Scene, body: seq<Event>, cut: Option<Interrupt>, decode: string -> Record): (r: Scene)
    requires |s.messages| > 0
    ensures |r.messages| > |s.messages| && r.messages[..|s.messages|] == s.messages
    ensures CountTyping(r.nodes) <= CountTyping(s.nodes)
  {
    var started := Scene(s.messages + [Message(Assistant, "")], s.nodes);
    var streamed := LegacyFeed(Feed(started, ""), body, decode).scene;
    assert Front(streamed.messages) == s.messages;
    if cut.Some? then LegacyInterrupt(streamed, cut.value) else streamed
  }

  /** A response in api.js: the body is read until it closes or a read rejects. */
  function ModernRead(s: Scene, body: seq<Event>, cut: Option<Interrupt>, decode: string -> Record): (r: Scene)
    requires |s.messages| > 0
    ensures Extends(s.messages, r.messages)
    ensures CountTyping(r.nodes) <= CountTyping(s.nodes)
  {
    var streamed := ModernFeed(Feed(s, ""), body, decode).scene;
    if cut.Some? then
      var r := ModernInterrupt(streamed, cut.value);
      assert r.messages[..|s.messages| - 1] == streamed.messages[..|s.messages| - 1];
      r
    else streamed
  }

  /** What the exchange does to the scene in script.js, between the start of the turn and its closing render. */
  function LegacyExchange(s: Scene, x: Exchange, decode: string -> Record): (r: Scene)
    requires |s.messages| > 0
    ensures |r.messages| >= |s.messages| && r.messages[..|s.messages| - 1] == Front(s.messages)
    ensures r.messages[|s.messages| - 1].role == Last(s.messages).role
    ensures Last(s.messages).content <= r.messages[|s.messages| - 1].content
    ensures CountTyping(r.nodes) <= CountTyping(s.nodes)
  {
    match x
    case Refused(cause) => LegacyInterrupt(s, cause)
    case Answered(ok, statusText, body, cut) =>
      if !ok then LegacyInterrupt(s, Fail(StatusError(statusText)))
      else LegacyRead(s, body, cut, decode)
  }

  /** What the exchange does to the scene in api.js, between the start of the turn and its closing render. */
  function ModernExchange(s: Scene, x: Exchange, decode: string -> Record): (r: Scene)
    requires |s.messages| > 0
    ensures Extends(s.messages, r.messages)
    ensures CountTyping(r.nodes) <= CountTyping(s.nodes)
  {
    match x
    case Refused(cause) =>
      var r := ModernInterrupt(s, cause);
      assert r.messages[..|s.messages| - 1] == Front(s.messages);
      r
    case Answered(_, _, body, cut) => ModernRead(s, body, cut, decode)
  }

  /**
   * A whole turn of `sendMessage` in script.js on the active chat's
   * transcript `msgs`: a response that is not ok fails; an ok one pushes the
   * empty assistant message before reading, and the body is fed line by line.
   */
  function LegacyTurn(msgs: seq<Message>, text: string, x: Exchange, decode: string -> Record): (r: Scene)
    ensures |r.messages| > |msgs| && r.messages[..|msgs|] == msgs
    ensures r.messages[|msgs|].role == User && text <= r.messages[|msgs|].content
    ensures TypingIndicator !in r.nodes
  {
    var s := Asked(msgs, text);
    CountTypingConcat(FullRedraw(s.messages), [TypingIndicator]);
    NoTypingInRedraw(s.messages);
    CountTypingZero(FullRedraw(s.messages));
    var ended := LegacyExchange(s, x, decode);
    assert ended.messages[..|msgs|] == msgs;
    Settle(ended)
  }

  /**
   * A whole turn of `sendMessage` in api.js: the status is not looked at,
   * the body is fed line by line, and an abort leaves the transcript as the
   * stream left it.
   */
  function ModernTurn(msgs: seq<Message>, text: string, x: Exchange, decode: string -> Record): (r: Scene)
    ensures |r.messages| > |msgs| && r.messages[..|msgs|] == msgs
    ensures r.messages[|msgs|].role == User && text <= r.messages[|msgs|].content
    ensures TypingIndicator !in r.nodes
  {
    var s := Asked(msgs, text);
    CountTypingConcat(FullRedraw(s.messages), [TypingIndicator]);
    NoTypingInRedraw(s.messages);
    CountTypingZero(FullRedraw(s.messages));
    var ended := ModernExchange(s, x, decode);
    assert ended.messages[..|msgs|] == msgs;
    Settle(ended)
  }

  /** A turn is its start, its exchange and its closing render. */
  lemma ModernTurnSteps(msgs: seq<Message>, text: string, x: Exchange, decode: string -> Record)
    ensures ModernTurn(msgs, text, x, decode) == Settle(ModernExchange(Asked(msgs, text), x, decode))
  {
  }

  lemma LegacyTurnSteps(msgs: seq<Message>, text: string, x: Exchange, decode: string -> Record)
    ensures LegacyTurn(msgs, text, x, decode) == Settle(LegacyExchange(Asked(msgs, text), x, decode))
  {
  }

  // ---------------------------------------------------------------------
  // What a turn leaves behind
  // ---------------------------------------------------------------------

  /**
   * The closing render onto a container that shows some messages and then
   * the typing indicator appends one bubble, for the trailing message.
   */
  lemma SettleAfterIndicator(shown: seq<Message>, msgs: seq<Message>)
    requires |msgs| > 0
    ensures Settle(Scene(msgs, FullRedraw(shown) + [TypingIndicator])).nodes ==
            FullRedraw(shown) + [BubbleOf(Last(msgs))]
  {
    var nodes := FullRedraw(shown) + [TypingIndicator];
    WaitingClears(shown);
    var r := Incremental(nodes, msgs);
    assert r == Front(r) + [Last(r)];
    NoTypingInRedraw(shown);
    assert TypingIndicator !in r;
  }

  /** The closing render after the trailing message grew shows exactly the transcript. */
  lemma SettleAfterGrowth(s: Scene, msgs: seq<Message>)
    requires Pending(s) || Shows(s)
    requires Grows(s.messages, msgs)
    ensures Shows(Settle(Scene(msgs, s.nodes)))
  {
    if Shows(s) {
      SettleShown(s.messages, msgs);
    } else {
      SettlePending(msgs);
    }
  }

  /** `SettleAfterGrowth` from a container showing the transcript. */
  lemma SettleShown(before: seq<Message>, msgs: seq<Message>)
    requires Grows(before, msgs)
    ensures Settle(Scene(msgs, FullRedraw(before))).nodes == FullRedraw(msgs)
  {
    RedrawAfterGrowth(before, msgs);
    NoTypingInRedraw(msgs);
  }

  /** `SettleAfterGrowth` from a container showing the typing indicator after all but the trailing message. */
  lemma SettlePending(msgs: seq<Message>)
    requires |msgs| > 0
    ensures Settle(Scene(msgs, FullRedraw(Front(msgs)) + [TypingIndicator])).nodes == FullRedraw(msgs)
  {
    SettleAfterIndicator(Front(msgs), msgs);
  }

  /**
   * The closing render after an error was pushed behind the assistant's
   * reply patches the reply's bubble: the container shows the transcript
   * without the reply.
   */
  lemma SettleAfterError(s: Scene, e: Message)
    requires |s.messages| > 0 && (Pending(s) || Shows(s))
    requires Last(s.messages).role == Assistant && e.role == Assistant
    ensures Settle(Scene(s.messages + [e], s.nodes)).nodes == FullRedraw(Front(s.messages) + [e])
  {
    if Shows(s) {
      SameClassPushOverwrites(s.messages, e);
      NoTypingInRedraw(Front(s.messages) + [e]);
    } else {
      SettleAfterIndicator(Front(s.messages), s.messages + [e]);
      RedrawSnoc(Front(s.messages), e);
    }
  }

  /** What the read loop of script.js makes of a chunk-only body, before the closing render. */
  lemma LegacyStreamed(msgs: seq<Message>, text: string, body: seq<Event>, decode: string -> Record)
    requires AllChunks(body)
    ensures var asked := msgs + [Message(User, text)];
            var streamed := LegacyFeed(Feed(Scene(asked + [Message(Assistant, "")],
                                                  FullRedraw(asked) + [TypingIndicator]), ""), body, decode).scene;
            && streamed.messages == asked + [Message(Assistant, LegacyReply(CompleteLines(Texts(body)), decode))]
            && (Pending(streamed) || Shows(streamed))
  {
    var asked := msgs + [Message(User, text)];
    var started := Scene(asked + [Message(Assistant, "")], FullRedraw(asked) + [TypingIndicator]);
    assert Front(started.messages) == asked;
    LegacyChunkBoundaries(Feed(started, ""), body, decode);
    assert "" + Texts(body) == Texts(body);
    LegacyLinesReply(started, CompleteLines(Texts(body)), decode);
    LegacyLinesShow(started, CompleteLines(Texts(body)), decode);
    AppendToEmpty(asked, LegacyReply(CompleteLines(Texts(body)), decode));
  }

  /**
   * A clean close in script.js: the transcript gains the user's message and
   * one assistant message holding every token of every complete line, and
   * the container shows exactly the transcript.
   */
  lemma LegacyCleanClose(msgs: seq<Message>, text: string, statusText: string, body: seq<Event>, decode: string -> Record)
    requires AllChunks(body)
    ensures var r := LegacyTurn(msgs, text, Answered(true, statusText, body, None), decode);
            && r.messages == msgs + [Message(User, text), Message(Assistant, LegacyReply(CompleteLines(Texts(body)), decode))]
            && Shows(r)
  {
    var s := Asked(msgs, text);
    var x := Answered(true, statusText, body, None);
    LegacyStreamed(msgs, text, body, decode);
    LegacyTurnSteps(msgs, text, x, decode);
    var streamed := LegacyFeed(Feed(Scene(s.messages + [Message(Assistant, "")], s.nodes), ""), body, decode).scene;
    assert LegacyExchange(s, x, decode) == streamed;
    SettleAfterGrowth(streamed, streamed.messages);
    assert Scene(streamed.messages, streamed.nodes) == streamed;
    PushTwo(msgs, Message(User, text), Message(Assistant, LegacyReply(CompleteLines(Texts(body)), decode)));
  }

  /** A stop in script.js marks the streamed reply with " [Stopped]"; the container shows the transcript. */
  lemma LegacyStopped(msgs: seq<Message>, text: string, statusText: string, body: seq<Event>, decode: string -> Record)
    requires AllChunks(body)
    ensures var r := LegacyTurn(msgs, text, Answered(true, statusText, body, Some(Abort)), decode);
            && r.messages == msgs + [Message(User, text),
                                     Message(Assistant, LegacyReply(CompleteLines(Texts(body)), decode) + " [Stopped]")]
            && Shows(r)
  {
    var s := Asked(msgs, text);
    var x := Answered(true, statusText, body, Some(Abort));
    LegacyStreamed(msgs, text, body, decode);
    LegacyTurnSteps(msgs, text, x, decode);
    var streamed := LegacyFeed(Feed(Scene(s.messages + [Message(Assistant, "")], s.nodes), ""), body, decode).scene;
    var reply := LegacyReply(CompleteLines(Texts(body)), decode);
    var marked := AppendToLast(streamed.messages, " [Stopped]");
    assert LegacyExchange(s, x, decode) == Scene(marked, streamed.nodes);
    assert marked == msgs + [Message(User, text)] + [Message(Assistant, reply + " [Stopped]")];
    SettleAfterGrowth(streamed, marked);
    PushTwo(msgs, Message(User, text), Message(Assistant, reply + " [Stopped]"));
  }

  /**
   * A failure after the response in script.js keeps the streamed reply and
   * pushes the error, but the closing render patches the reply's bubble
   * with the error: the container no longer shows the reply.
   */
  lemma LegacyFailedRead(msgs: seq<Message>, text: string, statusText: string, body: seq<Event>, message: string, decode: string -> Record)
    requires AllChunks(body)
    ensures var r := LegacyTurn(msgs, text, Answered(true, statusText, body, Some(Fail(message))), decode);
            var error := Message(Assistant, "**Error:** " + message);
            && r.messages == msgs + [Message(User, text),
                                     Message(Assistant, LegacyReply(CompleteLines(Texts(body)), decode)), error]
            && r.nodes == FullRedraw(msgs + [Message(User, text), error])
  {
    var s := Asked(msgs, text);
    var x := Answered(true, statusText, body, Some(Fail(message)));
    var error := Message(Assistant, "**Error:** " + message);
    LegacyStreamed(msgs, text, body, decode);
    LegacyTurnSteps(msgs, text, x, decode);
    var streamed := LegacyFeed(Feed(Scene(s.messages + [Message(Assistant, "")], s.nodes), ""), body, decode).scene;
    assert LegacyExchange(s, x, decode) == Scene(streamed.messages + [error], streamed.nodes);
    ErrorAfterReply(msgs, text, streamed, LegacyReply(CompleteLines(Texts(body)), decode), error);
  }

  /** The closing render of `LegacyFailedRead`, for whatever the stream left. */
  lemma ErrorAfterReply(msgs: seq<Message>, text: string, streamed: Scene, reply: string, error: Message)
    requires error.role == Assistant
    requires streamed.messages == msgs + [Message(User, text)] + [Message(Assistant, reply)]
    requires Pending(streamed) || Shows(streamed)
    ensures var r := Settle(Scene(streamed.messages + [error], streamed.nodes));
            && r.messages == msgs + [Message(User, text), Message(Assistant, reply), error]
            && r.nodes == FullRedraw(msgs + [Message(User, text), error])
  {
    SettleAfterError(streamed, error);
    PushTwo(msgs, Message(User, text), error);
    PushThree(msgs, Message(User, text), Message(Assistant, reply), error);
  }

  /** A response that is not ok in script.js: the status text is reported and nothing is read. */
  lemma LegacyBadStatus(msgs: seq<Message>, text: string, statusText: string, body: seq<Event>, cut: Option<Interrupt>, decode: string -> Record)
    ensures var r := LegacyTurn(msgs, text, Answered(false, statusText, body, cut), decode);
            && r.messages == msgs + [Message(User, text), Message(Assistant, "**Error:** " + StatusError(statusText))]
            && Shows(r)
  {
    var asked := msgs + [Message(User, text)];
    var x := Answered(false, statusText, body, cut);
    var error := Message(Assistant, "**Error:** " + StatusError(statusText));
    LegacyTurnSteps(msgs, text, x, decode);
    assert LegacyExchange(Asked(msgs, text), x, decode) == Scene(asked + [error], FullRedraw(asked) + [TypingIndicator]);
    ErrorOnWaiting(asked, error);
    PushTwo(msgs, Message(User, text), error);
  }

  /** An error pushed while the typing indicator follows the transcript is shown after it by the closing render. */
  lemma ErrorOnWaiting(asked: seq<Message>, error: Message)
    ensures Settle(Scene(asked + [error], FullRedraw(asked) + [TypingIndicator])).nodes == FullRedraw(asked + [error])
  {
    SettleAfterIndicator(asked, asked + [error]);
    RedrawSnoc(asked, error);
  }

  /**
   * A stop before any response in script.js appends " [Stopped]" to the
   * user's own message; the closing render does not patch the user's
   * bubble (the typing indicator is the last node), so the container shows
   * the question twice, the second time with the marker.
   */
  lemma LegacyStoppedEarly(msgs: seq<Message>, text: string, decode: string -> Record)
    ensures var r := LegacyTurn(msgs, text, Refused(Abort), decode);
            && r.messages == msgs + [Message(User, text + " [Stopped]")]
            && r.nodes == FullRedraw(msgs + [Message(User, text)]) + [BubbleOf(Message(User, text + " [Stopped]"))]
  {
    var asked := msgs + [Message(User, text)];
    var marked := AppendToLast(asked, " [Stopped]");
    assert marked == msgs + [Message(User, text + " [Stopped]")];
    SettleAfterIndicator(asked, marked);
  }

  /** A request that fails before any response in script.js pushes the error, shown after the question. */
  lemma LegacyRefused(msgs: seq<Message>, text: string, message: string, decode: string -> Record)
    ensures var r := LegacyTurn(msgs, text, Refused(Fail(message)), decode);
            && r.messages == msgs + [Message(User, text), Message(Assistant, "**Error:** " + message)]
            && Shows(r)
  {
    var asked := msgs + [Message(User, text)];
    var error := Message(Assistant, "**Error:** " + message);
    SettleAfterIndicator(asked, asked + [error]);
    RedrawSnoc(asked, error);
    PushTwo(msgs, Message(User, text), error);
  }

  /** What the read loop of api.js makes of a chunk-only body, before the closing render. */
  lemma ModernStreamed(msgs: seq<Message>, text: string, body: seq<Event>, decode: string -> Record)
    requires AllChunks(body)
    ensures var s := Asked(msgs, text);
            var streamed := ModernFeed(Feed(s, ""), body, decode).scene;
            var reply := ModernReply(CompleteLines(Texts(body)), decode);
            && (reply == "" ==> streamed == s)
            && (reply != "" ==> streamed.messages == s.messages + [Message(Assistant, reply)] && Shows(streamed))
  {
    var s := Asked(msgs, text);
    NoTypingInRedraw(s.messages);
    CountTypingZero(FullRedraw(s.messages));
    CountTypingConcat(FullRedraw(s.messages), [TypingIndicator]);
    ModernChunkBoundaries(Feed(s, ""), body, decode);
    assert "" + Texts(body) == Texts(body);
    ModernLinesReply(s, CompleteLines(Texts(body)), decode);
    ModernLinesShow(s, CompleteLines(Texts(body)), decode);
  }

  /**
   * A clean close in api.js: when the body yields text, the transcript
   * gains one assistant message holding all of it and the container shows
   * the transcript; when it yields none, no assistant message is pushed and
   * the closing render, finding the typing indicator last, appends the
   * user's bubble a second time.
   */
  lemma ModernCleanClose(msgs: seq<Message>, text: string, ok: bool, statusText: string, body: seq<Event>, decode: string -> Record)
    requires AllChunks(body)
    ensures var r := ModernTurn(msgs, text, Answered(ok, statusText, body, None), decode);
            var reply := ModernReply(CompleteLines(Texts(body)), decode);
            && (reply != "" ==> r.messages == msgs + [Message(User, text), Message(Assistant, reply)] && Shows(r))
            && (reply == "" ==> r.messages == msgs + [Message(User, text)] &&
                                r.nodes == FullRedraw(r.messages) + [BubbleOf(Message(User, text))])
  {
    var s := Asked(msgs, text);
    var x := Answered(ok, statusText, body, None);
    ModernStreamed(msgs, text, body, decode);
    ModernTurnSteps(msgs, text, x, decode);
    assert ModernExchange(s, x, decode) == ModernFeed(Feed(s, ""), body, decode).scene;
    CleanSettle(msgs, text, ModernFeed(Feed(s, ""), body, decode).scene, ModernReply(CompleteLines(Texts(body)), decode));
  }

  /** The closing render of `ModernCleanClose`, for whatever the stream left. */
  lemma CleanSettle(msgs: seq<Message>, text: string, streamed: Scene, reply: string)
    requires reply == "" ==> streamed == Asked(msgs, text)
    requires reply != "" ==> streamed.messages == msgs + [Message(User, text)] + [Message(Assistant, reply)] && Shows(streamed)
    ensures var r := Settle(streamed);
            && (reply != "" ==> r.messages == msgs + [Message(User, text), Message(Assistant, reply)] && Shows(r))
            && (reply == "" ==> r.messages == msgs + [Message(User, text)] &&
                                r.nodes == FullRedraw(r.messages) + [BubbleOf(Message(User, text))])
  {
    if reply == "" {
      var asked := msgs + [Message(User, text)];
      SettleAfterIndicator(asked, asked);
    } else {
      SettleShown(streamed.messages, streamed.messages);
      PushTwo(msgs, Message(User, text), Message(Assistant, reply));
    }
  }

  /** A stop in api.js leaves the turn exactly as a clean close after the same body. */
  lemma ModernStopKeepsStream(msgs: seq<Message>, text: string, ok: bool, statusText: string, body: seq<Event>, decode: string -> Record)
    ensures ModernTurn(msgs, text, Answered(ok, statusText, body, Some(Abort)), decode) ==
            ModernTurn(msgs, text, Answered(ok, statusText, body, None), decode)
  {
    var s := Asked(msgs, text);
    assert ModernRead(s, body, Some(Abort), decode) == ModernRead(s, body, None, decode);
  }

  /** api.js never looks at the response status. */
  lemma ModernIgnoresStatus(msgs: seq<Message>, text: string, ok: bool, statusText: string, body: seq<Event>, cut: Option<Interrupt>, decode: string -> Record)
    ensures ModernTurn(msgs, text, Answered(ok, statusText, body, cut), decode) ==
            ModernTurn(msgs, text, Answered(true, "", body, cut), decode)
  {
    var s := Asked(msgs, text);
    assert ModernTurn(msgs, text, Answered(ok, statusText, body, cut), decode) == Settle(ModernRead(s, body, cut, decode));
  }

  /**
   * A failure after the response in api.js pushes the error after whatever
   * was streamed; the container shows the question and the error, and a
   * streamed reply's bubble is patched with the error.
   */
  lemma ModernFailedRead(msgs: seq<Message>, text: string, ok: bool, statusText: string, body: seq<Event>, message: string, decode: string -> Record)
    requires AllChunks(body)
    ensures var r := ModernTurn(msgs, text, Answered(ok, statusText, body, Some(Fail(message))), decode);
            var reply := ModernReply(CompleteLines(Texts(body)), decode);
            var error := Message(Assistant, "Error: " + message);
            && (reply != "" ==> r.messages == msgs + [Message(User, text), Message(Assistant, reply), error])
            && (reply == "" ==> r.messages == msgs + [Message(User, text), error])
            && r.nodes == FullRedraw(msgs + [Message(User, text), error])
  {
    var s := Asked(msgs, text);
    var x := Answered(ok, statusText, body, Some(Fail(message)));
    var error := Message(Assistant, "Error: " + message);
    ModernStreamed(msgs, text, body, decode);
    ModernTurnSteps(msgs, text, x, decode);
    var streamed := ModernFeed(Feed(s, ""), body, decode).scene;
    assert ModernExchange(s, x, decode) == Scene(streamed.messages + [error], streamed.nodes);
    FailedSettle(msgs, text, streamed, ModernReply(CompleteLines(Texts(body)), decode), error);
  }

  /** The closing render of `ModernFailedRead`, for whatever the stream left. */
  lemma FailedSettle(msgs: seq<Message>, text: string, streamed: Scene, reply: string, error: Message)
    requires error.role == Assistant
    requires reply == "" ==> streamed == Asked(msgs, text)
    requires reply != "" ==> streamed.messages == msgs + [Message(User, text)] + [Message(Assistant, reply)] && Shows(streamed)
    ensures var r := Settle(Scene(streamed.messages + [error], streamed.nodes));
            && (reply != "" ==> r.messages == msgs + [Message(User, text), Message(Assistant, reply), error])
            && (reply == "" ==> r.messages == msgs + [Message(User, text), error])
            && r.nodes == FullRedraw(msgs + [Message(User, text), error])
  {
    var asked := msgs + [Message(User, text)];
    PushTwo(msgs, Message(User, text), error);
    if reply == "" {
      SettleAfterIndicator(asked, asked + [error]);
      RedrawSnoc(asked, error);
    } else {
      SettleAfterError(streamed, error);
      PushThree(msgs, Message(User, text), Message(Assistant, reply), error);
    }
  }

  /**
   * A request that api.js sends and that is stopped before any response
   * adds nothing to the transcript, but the closing render appends the
   * user's bubble a second time.
   */
  lemma ModernStoppedEarly(msgs: seq<Message>, text: string, decode: string -> Record)
    ensures var r := ModernTurn(msgs, text, Refused(Abort), decode);
            && r.messages == msgs + [Message(User, text)]
            && r.nodes == FullRedraw(r.messages) + [BubbleOf(Message(User, text))]
  {
    var s := Asked(msgs, text);
    SettleAfterIndicator(s.messages, s.messages);
  }

  /** A request that fails before any response in api.js pushes the error, shown after the question. */
  lemma ModernRefused(msgs: seq<Message>, text: string, message: string, decode: string -> Record)
    ensures var r := ModernTurn(msgs, text, Refused(Fail(message)), decode);
            && r.messages == msgs + [Message(User, text), Message(Assistant, "Error: " + message)]
            && Shows(r)
  {
    var asked := msgs + [Message(User, text)];
    var error := Message(Assistant, "Error: " + message);
    SettleAfterIndicator(asked, asked + [error]);
    RedrawSnoc(asked, error);
    PushTwo(msgs, Message(User, text), error);
  }

  // ---------------------------------------------------------------------
  // Turns depend on the text of the body, not on how it was cut
  // ---------------------------------------------------------------------

  /**
   * script.js: two chunk-only bodies with the same complete lines give the
   * same turn, in particular two with the same text.
   */
  lemma LegacyTurnChunking(msgs: seq<Message>, text: string, ok: bool, statusText: string,
                           a: seq<Event>, b: seq<Event>, cut: Option<Interrupt>, decode: string -> Record)
    requires AllChunks(a) && AllChunks(b) && CompleteLines(Texts(a)) == CompleteLines(Texts(b))
    ensures LegacyTurn(msgs, text, Answered(ok, statusText, a, cut), decode) ==
            LegacyTurn(msgs, text, Answered(ok, statusText, b, cut), decode)
  {
    var s := Asked(msgs, text);
    LegacySameRead(s, a, b, cut, decode);
    LegacyTurnSteps(msgs, text, Answered(ok, statusText, a, cut), decode);
    LegacyTurnSteps(msgs, text, Answered(ok, statusText, b, cut), decode);
  }

  lemma LegacySameRead(s: Scene, a: seq<Event>, b: seq<Event>, cut: Option<Interrupt>, decode: string -> Record)
    requires |s.messages| > 0
    requires AllChunks(a) && AllChunks(b) && CompleteLines(Texts(a)) == CompleteLines(Texts(b))
    ensures LegacyRead(s, a, cut, decode) == LegacyRead(s, b, cut, decode)
  {
    var started := Scene(s.messages + [Message(Assistant, "")], s.nodes);
    LegacyReadLines(started, a, decode);
    LegacyReadLines(started, b, decode);
  }

  /** From an empty buffer, script.js processes exactly the complete lines of the body's text. */
  lemma LegacyReadLines(s: Scene, body: seq<Event>, decode: string -> Record)
    requires |s.messages| > 0 && AllChunks(body)
    ensures LegacyFeed(Feed(s, ""), body, decode).scene == LegacyLines(s, CompleteLines(Texts(body)), decode)
  {
    LegacyChunkBoundaries(Feed(s, ""), body, decode);
    assert "" + Texts(body) == Texts(body);
  }

  /**
   * api.js: two chunk-only bodies with the same complete lines give the
   * same turn, in particular two with the same text.
   */
  lemma ModernTurnChunking(msgs: seq<Message>, text: string, ok: bool, statusText: string,
                           a: seq<Event>, b: seq<Event>, cut: Option<Interrupt>, decode: string -> Record)
    requires AllChunks(a) && AllChunks(b) && CompleteLines(Texts(a)) == CompleteLines(Texts(b))
    ensures ModernTurn(msgs, text, Answered(ok, statusText, a, cut), decode) ==
            ModernTurn(msgs, text, Answered(ok, statusText, b, cut), decode)
  {
    var s := Asked(msgs, text);
    ModernSameRead(s, a, b, cut, decode);
    ModernTurnSteps(msgs, text, Answered(ok, statusText, a, cut), decode);
    ModernTurnSteps(msgs, text, Answered(ok, statusText, b, cut), decode);
  }

  lemma ModernSameRead(s: Scene, a: seq<Event>, b: seq<Event>, cut: Option<Interrupt>, decode: string -> Record)
    requires |s.messages| > 0
    requires AllChunks(a) && AllChunks(b) && CompleteLines(Texts(a)) == CompleteLines(Texts(b))
    ensures ModernRead(s, a, cut, decode) == ModernRead(s, b, cut, decode)
  {
    ModernReadLines(s, a, decode);
    ModernReadLines(s, b, decode);
  }

  /** From an empty buffer, api.js processes exactly the complete lines of the body's text. */
  lemma ModernReadLines(s: Scene, body: seq<Event>, decode: string -> Record)
    requires |s.messages| > 0 && AllChunks(body)
    ensures ModernFeed(Feed(s, ""), body, decode).scene == ModernLines(s, CompleteLines(Texts(body)), decode)
  {
    ModernChunkBoundaries(Feed(s, ""), body, decode);
    assert "" + Texts(body) == Texts(body);
  }

  /**
   * Both copies discard a final fragment that no line feed ends: a last
   * chunk without a line feed, after a body whose text ends its last line,
   * changes nothing.
   */
  lemma TrailingFragmentIgnored(msgs: seq<Message>, text: string, ok: bool, statusText: string,
                                body: seq<Event>, fragment: string, cut: Option<Interrupt>, decode: string -> Record)
    requires AllChunks(body) && (Texts(body) == "" || Last(Texts(body)) == '\n')
    requires '\n' !in fragment
    ensures var tail := body + [Chunk(fragment)];
            && LegacyTurn(msgs, text, Answered(ok, statusText, tail, cut), decode) ==
               LegacyTurn(msgs, text, Answered(ok, statusText, body, cut), decode)
            && ModernTurn(msgs, text, Answered(ok, statusText, tail, cut), decode) ==
               ModernTurn(msgs, text, Answered(ok, statusText, body, cut), decode)
  {
    var tail := body + [Chunk(fragment)];
    TailTexts(body, fragment);
    TrailingFragmentAddsNoLine(Texts(body), fragment);
    LegacyTurnChunking(msgs, text, ok, statusText, tail, body, cut, decode);
    ModernTurnChunking(msgs, text, ok, statusText, tail, body, cut, decode);
  }

  /** A chunk added to a chunk-only body adds its data to the body's text. */
  lemma TailTexts(body: seq<Event>, data: string)
    requires AllChunks(body)
    ensures AllChunks(body + [Chunk(data)]) && Texts(body + [Chunk(data)]) == Texts(body) + data
  {
    var tail := body + [Chunk(data)];
    assert Front(tail) == body && Last(tail) == Chunk(data);
  }
}
