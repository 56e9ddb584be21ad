# kabanus core, modelled in Dafny

kabanus is a Telegram chat bot. It keeps every message of a chat in an
in-memory store. When a message is addressed to the bot, it builds a prompt
from the most recent messages that fit in a token budget and replies with
what the AI backend generates. This project models four parts of the bot
and proves what they promise:

- `retry_with_item` (module `RetryUtils`) tries up to `max_attempts` items.
  Each attempt picks an item, runs it, and asks `on_error` whether to go on
  after a failure.
  - The callbacks are function values of the calls made so far. This lets a
    stateful callback, such as a picker that runs out of keys, be written
    exactly.
  - Each callback either returns or raises.
  - The method `RetryWithItem` loops as the source does and is proved equal
    to the recursive `Retry`. It also returns the log of callback calls.
  - The lemmas about `Retry` state what the loop promises about that log.
  - The result `NoResult` is the loop's own `return None`. `Success(v)` is
    what `run` returned, even when `v` is itself None in Python.
- The message store (module `MessageStore`):
  - the class `Store`, whose list of records is only appended to or cleared;
  - `estimate_token_count`;
  - `assemble_context`. The method `AssembleContext` walks the messages
    newest first, as the source does, and is proved equal to `Context`.
    `Context` keeps the longest run of newest messages that fits the budget.
    The lemmas show this run fits, is maximal, and is the only run with
    both properties.
- `strip_markdown_to_json` (module `Utils`) is a pure function on strings.
- `is_allowed` and `handle_addressed_message` (module `BotHandler`).
  - The class `Handler` holds the shared alias list and the store.
  - Its method takes an update reduced to plain values.
  - It records the message, extends the alias list, decides whether the bot
    is addressed, and returns the reply it sends. When the bot is addressed,
    it also records the bot's answer.

Module `Strings` models the Python string builtins these functions rely on:
`isspace`, `strip()`, `split()`, `lower()`, `startswith`, `endswith`, `in`
and `str()` of an integer. Module `Wrappers` holds `Option`.

Two things in the source look unintended. Neither changes behaviour that
matters, so the model follows the code in both cases:

- With an empty allow-list, `is_allowed` returns False, although its comment
  says everybody is allowed. `BotHandler.IsAllowed` returns false. In
  practice the list comes from splitting an environment variable
  (src/config.py:35), so it is never empty.
- `handle_addressed_message` appends the bot's user name to the shared
  alias list on every message it handles, so the list only grows.
  `BotHandler.Handler.HandleAddressedMessage` does the same, and
  `BotHandler.UsernameRepeatHarmless` proves that the repeated entries
  never change whether a text mentions the bot.

## Model

| member | source | states |
|---|---|---|
| RetryUtils.RetryWithItem | src/retry_utils.py:7-24 | the loop's result and the calls it makes are exactly those of the recursive definition `Retry`, attempt by attempt |
| RetryUtils.RetryCallsBounded | src/retry_utils.py:14-15 | `pick_item` is called at most `max_attempts` times and `run` no more often than `pick_item`; with `max_attempts <= 0` nothing is called and the result is `NoResult` |
| RetryUtils.RetryCallOrder | src/retry_utils.py:14-21 | every `run` call gets the item the `pick_item` call just before it returned; every failed run is followed by one `on_error` call with that item, that exception, the attempt number (from 1, at most `max_attempts`) and `max_attempts`; `on_error` is called at no other time |
| RetryUtils.RetryStopsAtFirstEnd | src/retry_utils.py:14-24 | the result is decided by the last call alone, and no call before the last one could end the loop; if the last call does not end the loop, it is an `on_error` after the `max_attempts`-th run |
| RetryUtils.RetryFirstSuccessWins | src/retry_utils.py:18-19 | a run that returns is the last call, and its value is the result, unchanged |
| RetryUtils.RetryNoItemStops | src/retry_utils.py:15-17 | a `pick_item` that yields None is the last call, and the result is `NoResult` |
| RetryUtils.RetryRefusalRaises | src/retry_utils.py:20-23 | an `on_error` that says False is the last call, and the exception of the run before it is raised |
| RetryUtils.RetryNoResultCauses | src/retry_utils.py:14-24 | the loop's own `NoResult` (not a None returned by `run`, which is `Success`) comes only when nothing was called, when `pick_item` yielded None, or when `on_error` said True after the `max_attempts`-th failed run |
| RetryUtils.RetryAllAttemptsFail | src/retry_utils.py:14-24 | when items never run out, every run fails and `on_error` always says True, the result is `NoResult` after exactly `max_attempts` runs |
| RetryUtils.RetrySucceedsOnThirdRun | src/retry_utils.py:14-22 | a run that fails twice and then returns gives that value after exactly three runs |
| MessageStore.Store.constructor | src/message_store.py:19 | the store starts empty |
| MessageStore.Store.AddMessage | src/message_store.py:27-30 | the store grows by the new record, placed last; earlier records are unchanged |
| MessageStore.Store.GetLastMessage | src/message_store.py:21-25 | the most recently added record, or None on an empty store |
| MessageStore.Store.GetAllMessages | src/message_store.py:33-35 | a copy equal to the store; the store is not changed |
| MessageStore.Store.ClearMessages | src/message_store.py:38-40 | the store is empty afterwards |
| MessageStore.MakeMessageLine | src/message_store.py:11-16 | a record made by `make_message` is labelled "Bot" when it is the bot's and by its sender otherwise, and carries the given text |
| MessageStore.EstimateTokenCount | src/message_store.py:43-45 | the estimate is 0 exactly when the text is empty or all whitespace |
| MessageStore.LineTokensSplit | src/message_store.py:55-57 | a line costs its label's words plus its text's words, and so at least one token |
| MessageStore.LineParts | src/message_store.py:55-56 | a line is the label, ": ", then the text stripped, with the text's words unchanged |
| MessageStore.AssembleContext | src/message_store.py:49-64 | the walk from the newest message back returns `Context`: the lines of the kept newest messages, in chronological order, joined by newlines |
| MessageStore.ContextWithinBudget | src/message_store.py:57-61 | the kept messages together cost no more than the budget |
| MessageStore.ContextMaximal | src/message_store.py:54-59 | when a message is left out, keeping one more of the newest would overflow the budget |
| MessageStore.ContextUnique | src/message_store.py:54-61 | any run of newest messages that fits and cannot grow is the one kept: no message is skipped over |
| MessageStore.LinesLength | src/message_store.py:54-56 | there is one line per message, in order, and each is that message's line |
| MessageStore.RenderSplits | src/message_store.py:63-64 | rendering the lines of two runs of messages gives the first run's text, a newline and the second's |
| MessageStore.ContextOfNothing | src/message_store.py:49-64 | an empty history gives the empty string |
| Utils.StripMarkdownToJson | src/utils.py:1-8 | the result has no whitespace at either end and is never longer than the input |
| Utils.StripMarkdownPlain | src/utils.py:2-8 | text that after stripping has no "```json" at the front and no "```" at the end comes back just stripped |
| Utils.StripMarkdownFenced | src/utils.py:1-8 | whitespace, "```json", a body, "```" and whitespace come back as the stripped body |
| Utils.StripMarkdownOpeningOnce | src/utils.py:4-7 | only one leading "```json" is removed, whether or not the text also ends in a fence |
| Utils.StripMarkdownClosingOnce | src/utils.py:4-7 | only one trailing "```" is removed, whether or not the text also starts with "```json" |
| Utils.StripMarkdownKeepsBareFence | src/utils.py:4 | a bare opening "```" stays in front |
| Strings.StripStripped | src/utils.py:2 | `strip()` leaves no whitespace at either end |
| Strings.StripShape | src/utils.py:2 | `strip()` returns a contiguous slice with only whitespace cut off before and after it |
| Strings.StripPadded | src/utils.py:8 | text with no whitespace at its ends, padded with whitespace, strips back to itself |
| Strings.StripKeepsPrefix | src/utils.py:8 | stripping keeps a prefix that has no whitespace at either end |
| Strings.StripKeepsSuffix | src/utils.py:8 | stripping keeps a suffix that has no whitespace at either end |
| Strings.StripIdempotent | src/utils.py:8 | stripping twice is stripping once |
| Strings.WordsAreWords | src/message_store.py:45 | every word of `split()` is non-empty and holds no whitespace |
| Strings.WordsEmptyIff | src/message_store.py:45 | `split()` gives no words exactly when the text is all whitespace |
| Strings.WordsAcrossSpace | src/message_store.py:56 | the words of two texts joined by a whitespace character are the words of the first, then of the second |
| Strings.WordsOfStrip | src/message_store.py:56 | stripping does not change the words |
| Strings.DecimalStringRoundTrip | src/main.py:39-40 | `str()` of an id reads back as that id |
| Strings.DecimalStringInjective | src/main.py:39-40 | two ids have the same decimal string exactly when they are equal |
| BotHandler.IsAllowed | src/main.py:36-47 | false when the chat or the user is missing, or when the allow-list is empty; otherwise true exactly when the chat id or the user id, as a string, is listed |
| BotHandler.RenderNames | src/main.py:39-43 | an id's string is in an allow-list written from ids exactly when the id is one of them |
| BotHandler.IsAllowedByIds | src/main.py:39-46 | with an allow-list written from ids, a chat and user are let in exactly when one of their ids is listed |
| BotHandler.PhotoTextWords | src/main.py:91-92 | with a caption, a photo's text has the caption's words followed by the extracted text's; without one, it is the extracted text |
| BotHandler.WithUsername | src/main.py:104-106 | the old aliases are kept in front, and the lower-cased user name is appended when the bot has one |
| BotHandler.MentionedIgnoresCase | src/main.py:107-108 | the mention test gives the same answer on the lower-cased text |
| BotHandler.MentionedMonotone | src/main.py:108 | appending aliases never unmentions a text |
| BotHandler.UsernameAddresses | src/main.py:105-113 | once the user name is on the list, a text that contains it in any case addresses the bot |
| BotHandler.UsernameRepeatHarmless | src/main.py:104-108 | appending the user name a second time does not change whether a text mentions the bot |
| BotHandler.ReplyText | src/main.py:114-120 | no reply exactly when the message is neither addressed nor transcribed; an unaddressed transcribed message gets its text back; an addressed one gets the response, after ">>", the text and a blank line when it was transcribed |
| BotHandler.QuotedReplySplits | src/main.py:134-136 | the quoted reply holds the transcribed text and the response intact |
| BotHandler.Handler.HandleAddressedMessage | src/main.py:68-137 | an update that is refused, switched off or carries no message changes nothing. Otherwise the message is stored and the user name appended to the aliases. An unaddressed message gets the reply `ReplyText` gives. An addressed one is answered from a prompt of the context of all stored messages, a separator and the new message, and the bot's answer is stored last |

## Left out

- Everything around the handler that does I/O is not modelled:
  - downloading voice messages and photos;
  - temporary files;
  - the typing indicator and sending replies;
  - `start`, `schedule_events`, `error_handler` and `notify_admin`;
  - logging, including the prompt trimmed for debug output.
- The voice transcript and the photo's extracted text are what the backend
  returned for the update, so they are carried in the update.
- The backend's answer is the function parameter `generate`.
- BotHandler.Handler.HandleAddressedMessage: a failing external call is not
  modelled, because `generate` and the sending of the reply are total. In
  the source:
  - when `get_me` raises (src/main.py:103), the user's record is already
    stored and the alias list is unchanged;
  - when `generate` raises (line 131), the user's record is stored and the
    alias list extended, but no "Bot" record is stored and nothing is sent;
  - when `reply_text` raises (line 136), the same holds as for `generate`,
    except that the response was produced.
- The bot's id and user name (`get_me`) and the `message_handling` feature
  flag are parameters.
- The Gemini and Whisper provider wrappers and the calendar provider are
  not modelled. They are thin wrappers over network calls.
- The rate-limited model router (`_ModelUsage`) is not part of this model.
- Configuration loading from the environment is not modelled. The allow-list
  and the alias list are passed in. The message store's own
  `TOKEN_LIMIT` (500 000) is the one `assemble_context` uses.
- Concurrency between the async handlers is not modelled. The store and the
  alias list are each treated as one sequential object.
- RetryUtils.RetryWithItem: the callbacks take no arguments about history in
  the source. In the model they are functions of the calls made so far, which
  covers any state they keep. Exceptions outside `Exception` (such as
  `KeyboardInterrupt`), which the source lets through, are not modelled: every
  error of `run` is caught. `on_error`'s answer is a bool, not any truthy value.
- Strings.Lower: `str.lower()` is modelled for the capitals A-Z, the Latin-1
  capitals U+00C0-U+00DE (except U+00D7) and the Cyrillic capitals
  U+0400-U+042F only. Other capitals, such as U+0490, are left unchanged,
  and so are multi-character lower-casings.
- MessageStore.Line: a `None` field of a `Message` stands for a key the
  dictionary lacks. The source reads that key as "Unknown" or "", and so does
  the model. A key that is present with the value None is not modelled. For
  it, the source would print "None" as the sender and fail on `None.strip()`.
  Every record `add_message` stores carries strings in both keys.
- MessageStore.MakeMessage has no contract of its own. What it builds is
  stated by `MessageStore.MakeMessageLine` and by `Store.AddMessage`.
- Utils.StripMarkdownToJson: its own contract states only the shape and
  length of the result. The exact result for the fenced and plain cases is
  stated by the lemmas beside it.
