/** The live stream page: the chat box kept in component state and the
    effect that runs when the current-stream query changes. */
module LiveStreamPage {
  import opened Seqs
  import opened Text

  datatype ChatMessage = ChatMessage(id: int, name: string, message: string, time: string)

  /** The four messages the effect puts in the chat. */
  const SampleMessages: seq<ChatMessage> := [
    ChatMessage(1, "John M.", "Praise the Lord! \U{1F64F}", "2 min ago"),
    ChatMessage(2, "Sarah K.", "Powerful message today!", "3 min ago"),
    ChatMessage(3, "David L.", "Amen! God bless", "5 min ago"),
    ChatMessage(4, "Grace W.", "Praying for everyone watching", "7 min ago")
  ]

  /** The chat and the input box. */
  datatype Chat = Chat(messages: seq<ChatMessage>, input: string)

  /** `handleSendMessage` at time `now` (the new message's id): a blank
      input changes nothing; otherwise the input, untrimmed, is put in
      front of the other messages and the box is cleared. */
  function SendMessage(c: Chat, now: int): (d: Chat)
    ensures Strip(c.input) == [] ==> d == c
    ensures Strip(c.input) != [] ==> (|d.messages| == |c.messages| + 1 && d.messages[1..] == c.messages
      && d.messages[0] == ChatMessage(now, "You", c.input, "now") && d.input == "")
  {
    if Strip(c.input) == [] then c
    else Chat([ChatMessage(now, "You", c.input, "now")] + c.messages, "")
  }

  /** Whitespace-only input is exactly what is ignored. */
  lemma BlankInputIgnored(c: Chat, now: int)
    ensures SendMessage(c, now) == c <==> forall k :: 0 <= k < |c.input| ==> IsSpace(c.input[k])
  {
    StripEmptyIffBlank(c.input);
    if Strip(c.input) != [] {
      assert |SendMessage(c, now).messages| != |c.messages|;
    }
  }

  /** Two sends show the later message first, then the earlier, then the rest. */
  lemma NewestFirst(c: Chat, first: string, second: string, t1: int, t2: int)
    requires Strip(first) != [] && Strip(second) != []
    ensures var d := SendMessage(SendMessage(c.(input := first), t1).(input := second), t2);
      d.messages == [ChatMessage(t2, "You", second, "now"), ChatMessage(t1, "You", first, "now")] + c.messages
  {
  }

  class LiveStreamView {
    var isLive: bool
    var viewerCount: nat
    var chat: Chat

    constructor()
      ensures !isLive && viewerCount == 0 && chat == Chat([], "")
    {
      isLive := false;
      viewerCount := 0;
      chat := Chat([], "");
    }

    /** The effect on a new current-stream result: a non-empty list turns
        the page live with a drawn viewer count (`draw` stands for
        `Math.floor(Math.random() * 500)`); nothing turns it back off. The
        chat is replaced by the sample messages every time. */
    method CurrentStreamChanged(streams: Option<seq<nat>>, draw: nat)
      requires draw < 500
      modifies this
      ensures streams.Some? && |streams.value| > 0 ==> isLive && viewerCount == draw + 50
      ensures !(streams.Some? && |streams.value| > 0) ==> isLive == old(isLive) && viewerCount == old(viewerCount)
      ensures chat == Chat(SampleMessages, old(chat.input))
    {
      if streams.Some? && |streams.value| > 0 {
        isLive := true;
        viewerCount := draw + 50;
      }
      chat := chat.(messages := SampleMessages);
    }

    method Type(text: string)
      modifies this
      ensures chat == old(chat).(input := text) && isLive == old(isLive) && viewerCount == old(viewerCount)
    {
      chat := chat.(input := text);
    }

    method HandleSendMessage(now: int)
      modifies this
      ensures chat == SendMessage(old(chat), now)
      ensures isLive == old(isLive) && viewerCount == old(viewerCount)
    {
      if Strip(chat.input) != [] {
        var newMessage := ChatMessage(now, "You", chat.input, "now");
        chat := Chat([newMessage] + chat.messages, "");
      }
    }
  }
}
