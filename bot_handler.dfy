/**
 * The access rule and the addressing and reply decisions of the bot's
 * message handler (`is_allowed` and `handle_addressed_message`).
 *
 * The platform's update is reduced to plain values: ids, names, the message
 * text and caption, and the id of the sender of the message replied to. The
 * transcript of a voice message and the text extracted from a photo are what
 * the AI backend returned for them, carried in the update; the backend's
 * answer to a prompt is the function `generate`.
 */
module BotHandler {
  import opened Wrappers
  import opened Strings
  import MessageStore

  // ---------------------------------------------------------------------------
  // The update

  /** The user who sent the update. */
  datatype User = User(id: int, firstName: Option<string>, name: string)

  /** What a message carries; media come with the text the backend made of them. */
  datatype Content =
    | Voice(transcript: string)
    | Photo(caption: Option<string>, extracted: string)
    | Plain(text: Option<string>, caption: Option<string>)

  /** A message, and the id of the sender of the message it replies to, if any. */
  datatype Incoming = Incoming(content: Content, replyToSender: Option<int>)

  datatype Update = Update(chatId: Option<int>, user: Option<User>, message: Option<Incoming>)

  // ---------------------------------------------------------------------------
  // is_allowed

  /**
   * `is_allowed`: the chat and the user must both be known, and the chat id or
   * the user id, written in decimal, must be in the allow-list. An empty
   * allow-list lets nobody in.
   */
  function IsAllowed(chatId: Option<int>, userId: Option<int>, allowed: seq<string>): (ok: bool)
    ensures chatId.None? || userId.None? || allowed == [] ==> !ok
    ensures chatId.Some? && userId.Some? ==>
      (ok <==> DecimalString(chatId.value) in allowed || DecimalString(userId.value) in allowed)
  {
    if chatId.None? || userId.None? then false
    else
      var chat := DecimalString(chatId.value);
      var user := DecimalString(userId.value);
      if allowed != [] then
        if chat !in allowed && user !in allowed then false else true
      else false
  }

  /** The allow-list that names exactly the given ids. */
  function Render(ids: seq<int>): (r: seq<string>)
    ensures |r| == |ids|
    ensures forall i :: 0 <= i < |ids| ==> r[i] == DecimalString(ids[i])
  {
    seq(|ids|, i requires 0 <= i < |ids| => DecimalString(ids[i]))
  }

  /** An id is named by the rendered allow-list exactly when it is one of the ids. */
  lemma RenderNames(ids: seq<int>, x: int)
    ensures DecimalString(x) in Render(ids) <==> x in ids
  {
    if DecimalString(x) in Render(ids) {
      var i :| 0 <= i < |ids| && Render(ids)[i] == DecimalString(x);
      DecimalStringInjective(ids[i], x);
    }
    if x in ids {
      var i :| 0 <= i < |ids| && ids[i] == x;
      assert Render(ids)[i] == DecimalString(x);
    }
  }

  /**
   * With an allow-list written from a list of ids, a chat and a user get in
   * exactly when one of their ids is listed: no other id is let in by
   * accident of its decimal form.
   */
  lemma IsAllowedByIds(chat: int, user: int, ids: seq<int>)
    ensures IsAllowed(Some(chat), Some(user), Render(ids)) <==> chat in ids || user in ids
  {
    RenderNames(ids, chat);
    RenderNames(ids, user);
  }

  // ---------------------------------------------------------------------------
  // The text of a message

  /** Python's `s or t` on strings: `s` unless it is missing or empty. */
  function OrElse(s: Option<string>, t: string): string {
    if s.Some? && s.value != "" then s.value else t
  }

  /** A photo's text: the caption and the extracted text on two lines, stripped; or just the extracted text. */
  function PhotoText(caption: string, extracted: string): string {
    if caption != "" then Strip(caption + "\n" + extracted) else extracted
  }

  /**
   * The text of a message and whether it came from a medium (a transcribed
   * voice message or a photo); a plain message falls back on its caption.
   */
  function MessageText(c: Content): (string, bool) {
    match c
    case Voice(transcript) => (transcript, true)
    case Photo(caption, extracted) => (PhotoText(OrElse(caption, ""), extracted), true)
    case Plain(text, caption) => (OrElse(text, OrElse(caption, "")), false)
  }

  /** Who the message is from: the first name, or else the user's name. */
  function SenderName(u: User): string {
    OrElse(u.firstName, u.name)
  }

  /**
   * Merging a caption into the extracted text keeps every word of both, in
   * order: the caption's words, then the extracted text's.
   */
  lemma PhotoTextWords(caption: string, extracted: string)
    ensures caption != "" ==> Words(PhotoText(caption, extracted)) == Words(caption) + Words(extracted)
    ensures caption == "" ==> PhotoText(caption, extracted) == extracted
  {
    if caption != "" {
      WordsOfStrip(caption + "\n" + extracted);
      WordsAcrossSpace(caption, '\n', extracted);
    }
  }

  // ---------------------------------------------------------------------------
  // Addressing

  /** Python's `any(alias in text.lower() for alias in aliases)`. */
  predicate Mentioned(text: string, aliases: seq<string>) {
    exists j | 0 <= j < |aliases| :: Contains(Lower(text), aliases[j])
  }

  /**
   * Whether the message is addressed to the bot: an alias occurs in its text,
   * ignoring case, or it replies to a message the bot sent.
   */
  predicate Addressed(text: string, aliases: seq<string>, replyToSender: Option<int>, botId: int) {
    Mentioned(text, aliases) || (replyToSender.Some? && replyToSender.value == botId)
  }

  /** The alias list after the bot's user name, lower-cased, is appended to it (when the bot has one). */
  function WithUsername(aliases: seq<string>, username: Option<string>): (r: seq<string>)
    ensures |aliases| <= |r| && r[..|aliases|] == aliases
    ensures username.Some? && username.value != "" ==> |r| == |aliases| + 1 && r[|aliases|] == Lower(username.value)
    ensures username.None? || username.value == "" ==> r == aliases
  {
    if username.Some? && username.value != "" then aliases + [Lower(username.value)] else aliases
  }

  lemma LowerIdempotent(s: string)
    ensures Lower(Lower(s)) == Lower(s)
  {
  }

  /** The mention test ignores the case of the text. */
  lemma MentionedIgnoresCase(text: string, aliases: seq<string>)
    ensures Mentioned(Lower(text), aliases) <==> Mentioned(text, aliases)
  {
    LowerIdempotent(text);
  }

  /** A message mentioned under an alias list is still mentioned once more aliases are appended. */
  lemma MentionedMonotone(text: string, aliases: seq<string>, more: seq<string>)
    requires Mentioned(text, aliases)
    ensures Mentioned(text, aliases + more)
  {
    var j :| 0 <= j < |aliases| && Contains(Lower(text), aliases[j]);
    assert (aliases + more)[j] == aliases[j];
  }

  /** Once the bot's user name is on the list, a text naming the bot, in any case, addresses it. */
  lemma UsernameAddresses(text: string, aliases: seq<string>, username: string, replyToSender: Option<int>, botId: int)
    requires username != ""
    requires Contains(Lower(text), Lower(username))
    ensures Addressed(text, WithUsername(aliases, Some(username)), replyToSender, botId)
  {
  }

  /**
   * The user name is appended again on every handled message, so the list
   * keeps growing; a repeated entry never changes whether a text mentions the bot.
   */
  lemma UsernameRepeatHarmless(text: string, aliases: seq<string>, username: Option<string>)
    ensures var once := WithUsername(aliases, username);
      Mentioned(text, WithUsername(once, username)) <==> Mentioned(text, once)
  {
  }

  // ---------------------------------------------------------------------------
  // Replies

  /** The prompt: the context, a separator line, and the new message. */
  function Prompt(context: string, sender: string, text: string): string {
    context + "\n---\n" + sender + ": " + text
  }

  /**
   * What the bot replies. An unaddressed message gets its own text back only
   * when it was transcribed; an addressed one gets the backend's response,
   * after the transcribed text quoted with ">>" and a blank line.
   */
  function ReplyText(addressed: bool, transcribed: bool, text: string, response: string): (r: Option<string>)
    ensures r.None? <==> !addressed && !transcribed
    ensures !addressed && transcribed ==> r == Some(text)
    ensures addressed && !transcribed ==> r == Some(response)
    ensures addressed && transcribed ==>
      r.Some? && StartsWith(r.value, ">>" + text + "\n\n") && EndsWith(r.value, response)
      && |r.value| == |text| + |response| + 4
  {
    if !addressed then
      if transcribed then Some(text) else None
    else if transcribed then
      var quoted := ">>" + text + "\n\n" + response;
      assert quoted[..|text| + 4] == ">>" + text + "\n\n";
      assert quoted[|quoted| - |response|..] == response;
      Some(quoted)
    else Some(response)
  }

  /** The quoted reply gives back both the transcribed text and the response. */
  lemma QuotedReplySplits(text: string, response: string)
    ensures var r := ReplyText(true, true, text, response).value;
      r[2..2 + |text|] == text && r[2 + |text|..4 + |text|] == "\n\n" && r[4 + |text|..] == response
  {
  }

  // ---------------------------------------------------------------------------
  // The handler and its shared state

  /** The handler's shared state: the alias list it appends to, and the message store. */
  class Handler {
    var aliases: seq<string>
    const store: MessageStore.Store

    constructor (aliases: seq<string>, store: MessageStore.Store)
      ensures this.aliases == aliases && this.store == store
    {
      this.aliases := aliases;
      this.store := store;
    }

    /**
     * `handle_addressed_message`: records the message, extends the alias
     * list, decides whether the message is addressed to the bot, and replies.
     */
    method HandleAddressedMessage(
      update: Update,
      allowed: seq<string>,
      messageHandling: bool,
      botId: int,
      botUsername: Option<string>,
      generate: string -> string
    ) returns (reply: Option<string>)
      modifies this, store
      ensures
        var ignored := !IsAllowed(update.chatId, if update.user.Some? then Some(update.user.value.id) else None, allowed)
          || !messageHandling || update.message.None?;
        if ignored then
          reply == None && aliases == old(aliases) && store.messages == old(store.messages)
        else
          var msg := update.message.value;
          var (text, transcribed) := MessageText(msg.content);
          var sender := SenderName(update.user.value);
          var stored := old(store.messages) + [MessageStore.MakeMessage(sender, text, false)];
          var addressed := Addressed(text, aliases, msg.replyToSender, botId);
          aliases == WithUsername(old(aliases), botUsername)
          && if !addressed then
            reply == ReplyText(false, transcribed, text, "") && store.messages == stored
          else
            var response := generate(Prompt(MessageStore.Context(stored, MessageStore.TOKEN_LIMIT), sender, text));
            reply == ReplyText(true, transcribed, text, response)
            && store.messages == stored + [MessageStore.MakeMessage("Bot", response, true)]
    {
      var userId := if update.user.Some? then Some(update.user.value.id) else None;
      if !IsAllowed(update.chatId, userId, allowed) || !messageHandling {
        return None;
      }
      if update.message.None? || update.user.None? || update.chatId.None? {
        return None;
      }
      var msg := update.message.value;
      var text, transcribed := MessageText(msg.content).0, MessageText(msg.content).1;
      var sender := SenderName(update.user.value);

      store.AddMessage(sender, text, false);

      if botUsername.Some? && botUsername.value != "" {
        aliases := aliases + [Lower(botUsername.value)];
      }
      var addressed := Mentioned(text, aliases) || (msg.replyToSender.Some? && msg.replyToSender.value == botId);
      if !addressed {
        if transcribed {
          return Some(text);
        }
        return None;
      }

      var all := store.GetAllMessages();
      var context := MessageStore.AssembleContext(all, MessageStore.TOKEN_LIMIT);
      var prompt := context + "\n---\n" + sender + ": " + text;
      var response := generate(prompt);

      if transcribed {
        reply := Some(">>" + text + "\n\n" + response);
      } else {
        reply := Some(response);
      }
      store.AddMessage("Bot", response, true);
    }
  }
}
