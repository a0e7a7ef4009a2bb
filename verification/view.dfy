/**
 * The render sink: the conversation container as a list of nodes, the send
 * and stop buttons, the body's class list, and the small pure helpers of the
 * UI object (escaping, the stats colour, the scroll rule).
 */
module View {
  import opened Wrappers
  import opened Text
  import opened AppState

  /**
   * A child of the conversation container. A bubble carries the class
   * `msg-user` (`user`) or `msg-assistant`, the source text its inner HTML is
   * rendered from (markdown rendering is a pure function of that text, so the
   * text stands for the HTML), and whether it carries the class `finalized`.
   */
  datatype Node =
    | Bubble(user: bool, content: string, finalized: bool)
    | TypingIndicator

  /** `createMessageBubble`: any role other than user gets the assistant class. */
  function BubbleOf(m: Message): Node {
    Bubble(m.role == User, m.content, false)
  }

  /** The container after `renderConversation(true)`: one bubble per message, in transcript order. */
  function FullRedraw(msgs: seq<Message>): (r: seq<Node>)
    ensures |r| == |msgs|
    ensures forall k :: 0 <= k < |r| ==> r[k] == BubbleOf(msgs[k])
  {
    if |msgs| == 0 then [] else FullRedraw(Front(msgs)) + [BubbleOf(Last(msgs))]
  }

  /** How many typing indicators the container holds. */
  function CountTyping(nodes: seq<Node>): (n: nat)
    ensures n <= |nodes|
  {
    if |nodes| == 0 then 0
    else (if nodes[0] == TypingIndicator then 1 else 0) + CountTyping(nodes[1..])
  }

  /** The count is zero exactly when no indicator is present. */
  lemma {:induction false} CountTypingZero(nodes: seq<Node>)
    ensures CountTyping(nodes) == 0 <==> TypingIndicator !in nodes
  {
    if |nodes| > 0 {
      CountTypingZero(nodes[1..]);
      assert nodes == [nodes[0]] + nodes[1..];
    }
  }

  lemma {:induction false} CountTypingConcat(a: seq<Node>, b: seq<Node>)
    ensures CountTyping(a + b) == CountTyping(a) + CountTyping(b)
  {
    if |a| > 0 {
      CountTypingConcat(a[1..], b);
      assert (a + b)[1..] == a[1..] + b;
    } else {
      assert a + b == b;
    }
  }

  /**
   * `container.querySelector('.typing-indicator')?.remove()`: the first
   * indicator goes, every bubble stays where it was.
   */
  function RemoveFirstTyping(nodes: seq<Node>): (r: seq<Node>)
    ensures TypingIndicator !in nodes ==> r == nodes
    ensures TypingIndicator in nodes ==> |r| == |nodes| - 1
  {
    if |nodes| == 0 then []
    else if nodes[0] == TypingIndicator then nodes[1..]
    else [nodes[0]] + RemoveFirstTyping(nodes[1..])
  }

  /** Removing an indicator leaves one fewer. */
  lemma {:induction false} RemoveFirstTypingCount(nodes: seq<Node>)
    ensures CountTyping(RemoveFirstTyping(nodes)) == if CountTyping(nodes) == 0 then 0 else CountTyping(nodes) - 1
  {
    if |nodes| > 0 && nodes[0] != TypingIndicator {
      RemoveFirstTypingCount(nodes[1..]);
      assert RemoveFirstTyping(nodes) == [nodes[0]] + RemoveFirstTyping(nodes[1..]);
      CountTypingConcat([nodes[0]], RemoveFirstTyping(nodes[1..]));
    }
  }

  /** Removing the indicator from a container that ends in a bubble leaves that bubble last. */
  lemma {:induction false} RemoveFirstTypingKeepsLast(nodes: seq<Node>)
    requires |nodes| > 0 && Last(nodes) != TypingIndicator
    ensures |RemoveFirstTyping(nodes)| > 0
    ensures Last(RemoveFirstTyping(nodes)) == Last(nodes)
    ensures Front(RemoveFirstTyping(nodes)) == RemoveFirstTyping(Front(nodes))
  {
    var r := RemoveFirstTyping(nodes);
    if |nodes| == 1 {
      assert r == nodes;
    } else if nodes[0] == TypingIndicator {
      assert r == nodes[1..];
      assert Front(nodes)[0] == TypingIndicator;
      assert RemoveFirstTyping(Front(nodes)) == Front(nodes)[1..];
    } else {
      var tail := nodes[1..];
      RemoveFirstTypingKeepsLast(tail);
      var rt := RemoveFirstTyping(tail);
      assert r == [nodes[0]] + rt;
      assert Front(nodes)[0] == nodes[0];
      assert Front(nodes)[1..] == Front(tail);
      assert RemoveFirstTyping(Front(nodes)) == [nodes[0]] + RemoveFirstTyping(Front(tail));
      assert Front(r) == [nodes[0]] + Front(rt);
    }
  }

  lemma {:induction false} RemoveFirstTypingAppend(a: seq<Node>, b: seq<Node>)
    requires TypingIndicator !in a
    ensures RemoveFirstTyping(a + b) == a + RemoveFirstTyping(b)
  {
    if |a| > 0 {
      RemoveFirstTypingAppend(a[1..], b);
      assert a[0] in a;
      Uncons(a, b);
      Uncons(a, RemoveFirstTyping(b));
      RemoveAfterBubble(a[0], a[1..] + b);
    } else {
      assert a + b == b;
    }
  }

  /** A node other than the indicator in front is kept in front. */
  lemma RemoveAfterBubble(n: Node, rest: seq<Node>)
    requires n != TypingIndicator
    ensures RemoveFirstTyping([n] + rest) == [n] + RemoveFirstTyping(rest)
  {
    assert ([n] + rest)[1..] == rest;
  }

  /** Taking the first element out of a concatenation. */
  lemma Uncons<T>(a: seq<T>, b: seq<T>)
    requires |a| > 0
    ensures a + b == [a[0]] + (a[1..] + b)
  {
  }

  /** The last bubble may be patched with a message iff its role class matches and it is not finalized. */
  predicate Patchable(n: Node, m: Message) {
    n.Bubble? && n.user == (m.role == User) && !n.finalized
  }

  /**
   * `renderConversation(false)`: the last node is looked up first, then the
   * first typing indicator is removed; a patchable last bubble gets the last
   * message's content, otherwise one bubble for the last message is appended;
   * with no messages only the indicator goes.
   */
  function Incremental(nodes: seq<Node>, msgs: seq<Message>): (r: seq<Node>)
    ensures CountTyping(r) == if CountTyping(nodes) == 0 then 0 else CountTyping(nodes) - 1
    ensures msgs == [] ==> r == RemoveFirstTyping(nodes)
    ensures msgs != [] ==> |r| > 0 && Last(r) == BubbleOf(Last(msgs))
    ensures msgs != [] ==> Front(r) == RemoveFirstTyping(
              if |nodes| > 0 && Patchable(Last(nodes), Last(msgs)) then Front(nodes) else nodes)
  {
    var cleared := RemoveFirstTyping(nodes);
    RemoveFirstTypingCount(nodes);
    if msgs == [] then cleared
    else if |nodes| > 0 && Patchable(Last(nodes), Last(msgs)) then
      PatchCount(nodes, BubbleOf(Last(msgs)));
      Front(cleared) + [BubbleOf(Last(msgs))]
    else
      CountTypingConcat(cleared, [BubbleOf(Last(msgs))]);
      cleared + [BubbleOf(Last(msgs))]
  }

  /** Replacing the last bubble of a container keeps its count of indicators. */
  lemma PatchCount(nodes: seq<Node>, b: Node)
    requires |nodes| > 0 && Last(nodes).Bubble? && b.Bubble?
    ensures var cleared := RemoveFirstTyping(nodes);
            && |cleared| > 0 && Last(cleared) == Last(nodes)
            && Front(cleared) == RemoveFirstTyping(Front(nodes))
            && CountTyping(Front(cleared) + [b]) == CountTyping(cleared)
  {
    var cleared := RemoveFirstTyping(nodes);
    RemoveFirstTypingKeepsLast(nodes);
    CountTypingConcat(Front(cleared), [Last(cleared)]);
    CountTypingConcat(Front(cleared), [b]);
    assert Front(cleared) + [Last(cleared)] == cleared;
  }

  lemma NoTypingInRedraw(msgs: seq<Message>)
    ensures TypingIndicator !in FullRedraw(msgs)
  {
  }

  /**
   * A render after a message was pushed, onto a container showing every
   * earlier message (and possibly the typing indicator after them), shows
   * exactly the transcript, provided the new bubble cannot be taken for the
   * previous one.
   */
  lemma {:induction false} RedrawAfterPush(msgs: seq<Message>, typing: bool)
    requires |msgs| > 0
    requires !typing && |msgs| > 1 ==> !Patchable(BubbleOf(msgs[|msgs| - 2]), Last(msgs))
    ensures Incremental(FullRedraw(Front(msgs)) + (if typing then [TypingIndicator] else []), msgs)
            == FullRedraw(msgs)
  {
    var shown := FullRedraw(Front(msgs));
    var nodes := shown + (if typing then [TypingIndicator] else []);
    NoTypingInRedraw(Front(msgs));
    RemoveFirstTypingAppend(shown, if typing then [TypingIndicator] else []);
    assert RemoveFirstTyping(nodes) == shown;
    if typing {
      assert !Patchable(Last(nodes), Last(msgs));
    } else {
      assert nodes == shown;
      assert |nodes| > 0 ==> Last(nodes) == BubbleOf(msgs[|msgs| - 2]);
    }
    var r := Incremental(nodes, msgs);
    assert r == Front(r) + [Last(r)];
  }

  /**
   * A render after the last message's content changed, onto a container that
   * shows the transcript as it was, patches the last bubble and again shows
   * exactly the transcript.
   */
  lemma {:induction false} RedrawAfterGrowth(before: seq<Message>, msgs: seq<Message>)
    requires |before| == |msgs| > 0 && Front(before) == Front(msgs)
    requires Last(before).role == Last(msgs).role
    ensures Incremental(FullRedraw(before), msgs) == FullRedraw(msgs)
  {
    var nodes := FullRedraw(before);
    NoTypingInRedraw(before);
    NoTypingInRedraw(Front(before));
    assert Front(nodes) == FullRedraw(Front(before));
    assert Patchable(Last(nodes), Last(msgs));
    var r := Incremental(nodes, msgs);
    assert r == Front(r) + [Last(r)];
  }

  /**
   * Pushing a message whose bubble class is the previous message's patches
   * the previous bubble instead of adding one: the container then shows the
   * transcript without the previous message, until the next full redraw.
   */
  lemma {:induction false} SameClassPushOverwrites(before: seq<Message>, m: Message)
    requires |before| > 0 && (Last(before).role == User) == (m.role == User)
    ensures Incremental(FullRedraw(before), before + [m]) == FullRedraw(Front(before) + [m])
    ensures FullRedraw(before + [m]) != FullRedraw(Front(before) + [m])
  {
    var nodes := FullRedraw(before);
    NoTypingInRedraw(before);
    NoTypingInRedraw(Front(before));
    assert Last(before + [m]) == m;
    assert Front(nodes) == FullRedraw(Front(before));
    assert Patchable(Last(nodes), m);
    var r := Incremental(nodes, before + [m]);
    assert r == Front(r) + [Last(r)];
    assert Front(Front(before) + [m]) == Front(before);
  }

  /** The conversation container, the buttons and the page body, updated in place. */
  class Page {
    var nodes: seq<Node>
    /** the text of the current-title element */
    var heading: string
    var sendHidden: bool
    var stopHidden: bool
    /** `document.body.classList` */
    var classes: set<string>

    constructor ()
      ensures nodes == [] && heading == "" && !sendHidden && stopHidden && classes == {}
    {
      nodes := [];
      heading := "";
      sendHidden := false;
      stopHidden := true;
      classes := {};
    }

    /** At most one typing indicator is on the page. */
    ghost predicate AtMostOneIndicator()
      reads this`nodes
    {
      CountTyping(nodes) <= 1
    }

    /** `renderConversation(fullRedraw)` for the active chat; nothing happens when there is none. */
    method RenderConversation(session: Session, fullRedraw: bool)
      modifies this`nodes, this`heading
      ensures session.ActiveChat().None? ==> nodes == old(nodes) && heading == old(heading)
      ensures session.ActiveChat().Some? ==> heading == session.ActiveChat().value.title
      ensures session.ActiveChat().Some? && fullRedraw ==>
                nodes == FullRedraw(session.ActiveChat().value.messages)
      ensures session.ActiveChat().Some? && !fullRedraw ==>
                nodes == Incremental(old(nodes), session.ActiveChat().value.messages)
    {
      var active := session.ActiveChat();
      if active.None? {
        return;
      }
      var chat := active.value;
      heading := chat.title;
      if fullRedraw {
        nodes := FullRedraw(chat.messages);
        return;
      }
      var msgs := chat.messages;
      var lastDom := if |nodes| > 0 then Some(Last(nodes)) else None;
      ghost var before := nodes;
      nodes := RemoveFirstTyping(nodes);
      if msgs != [] && lastDom.Some? && Patchable(lastDom.value, Last(msgs)) {
        RemoveFirstTypingKeepsLast(before);
        nodes := Front(nodes) + [lastDom.value.(content := Last(msgs).content)];
      } else if msgs != [] {
        nodes := nodes + [BubbleOf(Last(msgs))];
      }
    }

    /** `showTypingIndicator()`: an existing indicator is removed before a new one is appended. */
    method ShowTypingIndicator()
      modifies this`nodes
      ensures nodes == RemoveFirstTyping(old(nodes)) + [TypingIndicator]
      ensures old(AtMostOneIndicator()) ==> CountTyping(nodes) == 1
    {
      RemoveFirstTypingCount(nodes);
      nodes := RemoveFirstTyping(nodes);
      CountTypingConcat(nodes, [TypingIndicator]);
      nodes := nodes + [TypingIndicator];
    }

    /** `showTypingIndicator()` of script.js: a new indicator is appended whatever is already shown. */
    method AppendTypingIndicator()
      modifies this`nodes
      ensures nodes == old(nodes) + [TypingIndicator]
      ensures CountTyping(nodes) == CountTyping(old(nodes)) + 1
    {
      CountTypingConcat(nodes, [TypingIndicator]);
      nodes := nodes + [TypingIndicator];
    }

    /** `document.querySelector('.typing-indicator')?.remove()`. */
    method RemoveTypingIndicator()
      modifies this`nodes
      ensures nodes == RemoveFirstTyping(old(nodes))
      ensures old(AtMostOneIndicator()) ==> TypingIndicator !in nodes
    {
      RemoveFirstTypingCount(nodes);
      nodes := RemoveFirstTyping(nodes);
      CountTypingZero(nodes);
    }

    /** `setTheme()`: the listed theme classes are dropped and the active theme added. */
    method SetTheme(settings: Settings)
      modifies this`classes
      ensures classes == ThemeClasses(old(classes), settings.theme)
    {
      classes := (classes - ThemeNames) + {ActiveTheme(settings.theme)};
    }
  }

  /** `toggleGeneratingState(generating)`. */
  method ToggleGeneratingState(session: Session, page: Page, generating: bool)
    modifies session`isGenerating, page`sendHidden, page`stopHidden, page`nodes
    ensures session.isGenerating == generating
    ensures page.sendHidden == generating && page.stopHidden == !generating
    ensures page.nodes == if generating then old(page.nodes) else RemoveFirstTyping(old(page.nodes))
    ensures !generating && old(page.AtMostOneIndicator()) ==> TypingIndicator !in page.nodes
  {
    session.isGenerating := generating;
    if generating {
      page.sendHidden := true;
      page.stopHidden := false;
    } else {
      page.sendHidden := false;
      page.stopHidden := true;
      page.RemoveTypingIndicator();
    }
  }

  const ThemeNames: set<string> := {"dark", "oled", "midnight", "playground", "blossom", "terminal", "cotton-candy"}

  /** `State.settings.theme || 'dark'`. */
  function ActiveTheme(theme: string): (t: string)
    ensures t != ""
    ensures theme != "" ==> t == theme
  {
    if theme != "" then theme else "dark"
  }

  /** The body's classes after `setTheme`. */
  function ThemeClasses(classes: set<string>, theme: string): (r: set<string>)
    ensures ActiveTheme(theme) in r
    ensures forall t :: t in r && t in ThemeNames ==> t == ActiveTheme(theme)
    ensures forall c :: c !in ThemeNames && c != ActiveTheme(theme) ==> (c in r <==> c in classes)
  {
    (classes - ThemeNames) + {ActiveTheme(theme)}
  }

  /** Setting the same theme twice is the same as setting it once. */
  lemma ThemeIdempotent(classes: set<string>, theme: string)
    ensures ThemeClasses(ThemeClasses(classes, theme), theme) == ThemeClasses(classes, theme)
  {
  }

  /**
   * `scrollToBottom()`: the new `scrollTop` of the container. `scrollHeight`
   * and `clientHeight` are whole pixels; `scrollTop` may be fractional.
   */
  function ScrollTarget(scrollHeight: int, scrollTop: real, clientHeight: int, generating: bool): (top: real)
    ensures (scrollHeight as real - scrollTop - clientHeight as real < 150.0 || generating) ==> top == scrollHeight as real
    ensures !(scrollHeight as real - scrollTop - clientHeight as real < 150.0 || generating) ==> top == scrollTop
  {
    if scrollHeight as real - scrollTop - clientHeight as real < 150.0 || generating then scrollHeight as real else scrollTop
  }

  /** `getColor(n)`: the colour of a CPU, RAM or temperature reading. */
  function GetColor(n: int): (c: string)
    ensures c == "#ededed" <==> n < 60
    ensures c == "#f59e0b" <==> 60 <= n < 85
    ensures c == "#ef4444" <==> 85 <= n
  {
    if n < 60 then "#ededed" else if n < 85 then "#f59e0b" else "#ef4444"
  }

  /** The characters `escapeHtml` replaces. */
  predicate Special(c: char) {
    c == '&' || c == '<' || c == '>' || c == '"' || c == '\''
  }

  /** The characters no escaped text contains. */
  predicate Markup(c: char) {
    c == '<' || c == '>' || c == '"' || c == '\''
  }

  function EscapeChar(c: char): (e: string)
    ensures |e| >= 1 && (!Special(c) ==> e == [c])
    ensures forall i :: 0 <= i < |e| ==> !Markup(e[i])
  {
    if c == '&' then "&amp;"
    else if c == '<' then "&lt;"
    else if c == '>' then "&gt;"
    else if c == '"' then "&quot;"
    else if c == '\'' then "&#39;"
    else [c]
  }

  /** `escapeHtml(s)`; a `null` title is the empty string. */
  function EscapeHtml(s: string): (r: string)
    ensures forall i :: 0 <= i < |r| ==> !Markup(r[i])
    ensures (forall i :: 0 <= i < |s| ==> !Special(s[i])) ==> r == s
    ensures |r| >= |s|
  {
    if |s| == 0 then "" else
      var e, rest := EscapeChar(s[0]), EscapeHtml(s[1..]);
      assert forall i :: 0 <= i < |s| - 1 ==> s[1..][i] == s[i + 1];
      assert forall i :: |e| <= i < |e| + |rest| ==> (e + rest)[i] == rest[i - |e|];
      e + rest
  }

  /** What a browser shows for the five entities `escapeHtml` produces. */
  function Unescape(s: string): string
    decreases |s|
  {
    if |s| == 0 then ""
    else if |s| >= 5 && s[..5] == "&amp;" then "&" + Unescape(s[5..])
    else if |s| >= 4 && s[..4] == "&lt;" then "<" + Unescape(s[4..])
    else if |s| >= 4 && s[..4] == "&gt;" then ">" + Unescape(s[4..])
    else if |s| >= 6 && s[..6] == "&quot;" then "\"" + Unescape(s[6..])
    else if |s| >= 5 && s[..5] == "&#39;" then "'" + Unescape(s[5..])
    else [s[0]] + Unescape(s[1..])
  }

  /** One escaped character reads back as that character, whatever follows it. */
  lemma UnescapeChar(c: char, rest: string)
    ensures Unescape(EscapeChar(c) + rest) == [c] + Unescape(rest)
  {
    if c == '&' {
      UnescapeAmp(rest);
    } else if c == '<' {
      UnescapeLt(rest);
    } else if c == '>' {
      UnescapeGt(rest);
    } else if c == '"' {
      UnescapeQuot(rest);
    } else if c == '\'' {
      UnescapeApos(rest);
    } else {
      UnescapePlain(c, rest);
    }
  }

  lemma UnescapeAmp(rest: string)
    ensures Unescape("&amp;" + rest) == "&" + Unescape(rest)
  {
    var t := "&amp;" + rest;
    assert t[..5] == "&amp;" && t[5..] == rest;
  }

  lemma UnescapeLt(rest: string)
    ensures Unescape("&lt;" + rest) == "<" + Unescape(rest)
  {
    var t := "&lt;" + rest;
    assert t[..4] == "&lt;" && t[4..] == rest;
    assert |t| >= 5 ==> t[..5] != "&amp;" by { assert t[1] == 'l'; }
  }

  lemma UnescapeGt(rest: string)
    ensures Unescape("&gt;" + rest) == ">" + Unescape(rest)
  {
    var t := "&gt;" + rest;
    assert t[..4] == "&gt;" && t[4..] == rest;
    assert (|t| >= 5 ==> t[..5] != "&amp;") && t[..4] != "&lt;" by { assert t[1] == 'g'; }
  }

  lemma UnescapeQuot(rest: string)
    ensures Unescape("&quot;" + rest) == "\"" + Unescape(rest)
  {
    var t := "&quot;" + rest;
    assert t[..6] == "&quot;" && t[6..] == rest;
    assert t[..5] != "&amp;" && t[..4] != "&lt;" && t[..4] != "&gt;" by { assert t[1] == 'q'; }
  }

  lemma UnescapeApos(rest: string)
    ensures Unescape("&#39;" + rest) == "'" + Unescape(rest)
  {
    var t := "&#39;" + rest;
    assert t[..5] == "&#39;" && t[5..] == rest;
    assert t[..5] != "&amp;" && t[..4] != "&lt;" && t[..4] != "&gt;" && (|t| >= 6 ==> t[..6] != "&quot;") by { assert t[1] == '#'; }
  }

  /** A character that does not open an entity reads back as itself. */
  lemma UnescapePlain(c: char, rest: string)
    requires c != '&'
    ensures Unescape([c] + rest) == [c] + Unescape(rest)
  {
    var t := [c] + rest;
    assert t[0] == c && t[1..] == rest;
    assert |t| >= 4 ==> t[..4][0] != '&';
    assert |t| >= 5 ==> t[..5][0] != '&';
    assert |t| >= 6 ==> t[..6][0] != '&';
  }

  /** Escaped text reads back as the original text: no character is lost or altered. */
  lemma {:induction false} EscapeRoundTrip(s: string)
    ensures Unescape(EscapeHtml(s)) == s
  {
    if |s| > 0 {
      EscapeRoundTrip(s[1..]);
      UnescapeChar(s[0], EscapeHtml(s[1..]));
      assert [s[0]] + s[1..] == s;
    }
  }
}
