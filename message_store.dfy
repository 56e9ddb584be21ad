/**
 * The in-memory message store and the assembly of a prompt context from the
 * most recent messages that fit in a token budget.
 */
module MessageStore {
  import opened Wrappers
  import opened Strings

  /**
   * A stored message: the dictionary that `make_message` builds. A key that a
   * dictionary lacks reads as `None`; a missing `is_bot` reads as false.
   */
  datatype Message = Message(sender: Option<string>, text: Option<string>, isBot: bool)

  /** `make_message`: a record holding exactly the three given fields. */
  function MakeMessage(sender: string, text: string, isBot: bool): Message {
    Message(Some(sender), Some(text), isBot)
  }

  /** The default budget of `assemble_context`. */
  const TOKEN_LIMIT: int := 500_000

  /** The in-memory store: a list that is only appended to or cleared. */
  class Store {
    var messages: seq<Message>

    constructor ()
      ensures messages == []
    {
      messages := [];
    }

    /** `add_message`: the new record goes last, the earlier ones are untouched. */
    method AddMessage(sender: string, text: string, isBot: bool)
      modifies this
      ensures messages == old(messages) + [MakeMessage(sender, text, isBot)]
    {
      var msg := MakeMessage(sender, text, isBot);
      messages := messages + [msg];
    }

    /** `get_last_message`: the most recently added record, or None on an empty store. */
    method GetLastMessage() returns (last: Option<Message>)
      ensures messages == [] ==> last == None
      ensures messages != [] ==> last == Some(messages[|messages| - 1])
    {
      if messages != [] {
        return Some(messages[|messages| - 1]);
      }
      return None;
    }

    /** `get_all_messages`: a copy of the store, which stays as it was. */
    method GetAllMessages() returns (all: seq<Message>)
      ensures all == messages
    {
      all := messages;
    }

    /** `clear_messages`. */
    method ClearMessages()
      modifies this
      ensures messages == []
    {
      messages := [];
    }
  }

  /** `estimate_token_count`: the number of whitespace-separated words of `text`. */
  function EstimateTokenCount(text: string): (n: nat)
    ensures n == 0 <==> AllSpace(text)
  {
    WordsEmptyIff(text);
    |Words(text)|
  }

  /** Who a context line names: "Bot" for the bot, else the sender, else "Unknown". */
  function Label(m: Message): string {
    if m.isBot then "Bot" else m.sender.GetOr("Unknown")
  }

  /** One context line, "<label>: <stripped text>". */
  function Line(m: Message): string {
    Label(m) + ": " + Strip(m.text.GetOr(""))
  }

  /** What one message costs against the budget. */
  function LineTokens(m: Message): nat {
    EstimateTokenCount(Line(m))
  }

  /** The cost of each message, in order. */
  function Costs(ms: seq<Message>): (cs: seq<nat>)
    ensures |cs| == |ms|
  {
    if ms == [] then [] else [LineTokens(ms[0])] + Costs(ms[1..])
  }

  lemma {:induction false} CostsAt(ms: seq<Message>, i: nat)
    requires i < |ms|
    ensures Costs(ms)[i] == LineTokens(ms[i])
    decreases i
  {
    if i > 0 {
      CostsAt(ms[1..], i - 1);
    }
  }

  function Sum(cs: seq<nat>): nat {
    if cs == [] then 0 else cs[0] + Sum(cs[1..])
  }

  /** What the messages cost together. */
  function TotalTokens(ms: seq<Message>): nat {
    Sum(Costs(ms))
  }

  /** The `k` most recent entries, in chronological order. */
  function Newest<T>(s: seq<T>, k: nat): seq<T>
    requires k <= |s|
  {
    s[|s| - k..]
  }

  /**
   * How many of the newest entries `assemble_context` keeps, given their
   * costs: it walks from the newest back and stops at the first one that
   * would overflow `budget`.
   */
  function FitCount(cs: seq<nat>, budget: int): (k: nat)
    ensures k <= |cs|
  {
    if cs == [] then 0
    else if cs[|cs| - 1] > budget then 0
    else 1 + FitCount(cs[..|cs| - 1], budget - cs[|cs| - 1])
  }

  /** How many of the newest messages `assemble_context` keeps. */
  function Kept(ms: seq<Message>, limit: int): (k: nat)
    ensures k <= |ms|
  {
    FitCount(Costs(ms), limit)
  }

  function Lines(ms: seq<Message>): seq<string> {
    if ms == [] then [] else [Line(ms[0])] + Lines(ms[1..])
  }

  /** Python's `'\n'.join(lines)`. */
  function JoinLines(lines: seq<string>): string {
    if lines == [] then ""
    else if |lines| == 1 then lines[0]
    else lines[0] + "\n" + JoinLines(lines[1..])
  }

  /** What `assemble_context(ms, limit)` returns. */
  function Context(ms: seq<Message>, limit: int): string {
    JoinLines(Lines(Newest(ms, Kept(ms, limit))))
  }

  /** Python's `list.reverse()`, as a value. */
  function Reverse<T>(s: seq<T>): seq<T> {
    if s == [] then [] else [s[|s| - 1]] + Reverse(s[..|s| - 1])
  }

  /** One step of the newest-first walk, seen on the prefix `cs[..i]` that is still unscanned. */
  lemma FitCountStep(cs: seq<nat>, i: nat, budget: int)
    requires 0 < i <= |cs|
    ensures FitCount(cs[..i], budget) ==
      if cs[i - 1] > budget then 0 else 1 + FitCount(cs[..i - 1], budget - cs[i - 1])
  {
    assert cs[..i][..i - 1] == cs[..i - 1];
  }

  /** Scanning one more message, newest first, keeps the scanned lines the reverse of the suffix's lines. */
  lemma LinesStep(ms: seq<Message>, i: nat, scanned: seq<string>)
    requires 0 < i <= |ms|
    requires Reverse(scanned) == Lines(ms[i..])
    ensures Reverse(scanned + [Line(ms[i - 1])]) == Lines(ms[i - 1..])
  {
    assert ms[i - 1..][1..] == ms[i..];
    ReverseSnoc(scanned, Line(ms[i - 1]));
  }

  lemma SumStep(cs: seq<nat>, i: nat)
    requires 0 < i <= |cs|
    ensures Sum(cs[i - 1..]) == cs[i - 1] + Sum(cs[i..])
  {
    assert cs[i - 1..][1..] == cs[i..];
  }

  lemma ReverseSnoc<T>(s: seq<T>, x: T)
    ensures Reverse(s + [x]) == [x] + Reverse(s)
  {
    assert (s + [x])[..|s|] == s;
  }

  /**
   * What holds after the walk has scanned `ms[i..]`, newest first: `total` is
   * their cost, `scanned` their lines in the order seen, and every one of
   * them is among the messages the context keeps.
   */
  ghost predicate Scanned(ms: seq<Message>, limit: int, i: int, total: int, scanned: seq<string>) {
    var cs := Costs(ms);
    0 <= i <= |ms|
    && total == Sum(cs[i..])
    && Reverse(scanned) == Lines(ms[i..])
    && FitCount(cs, limit) == (|ms| - i) + FitCount(cs[..i], limit - total)
  }

  lemma ScanStart(ms: seq<Message>, limit: int)
    ensures Scanned(ms, limit, |ms|, 0, [])
  {
    var cs := Costs(ms);
    assert cs[..|ms|] == cs;
    assert ms[|ms|..] == [];
  }

  lemma ScanStep(ms: seq<Message>, limit: int, i: int, total: int, scanned: seq<string>)
    requires Scanned(ms, limit, i, total, scanned) && 0 < i
    requires total + LineTokens(ms[i - 1]) <= limit
    ensures Scanned(ms, limit, i - 1, total + LineTokens(ms[i - 1]), scanned + [Line(ms[i - 1])])
  {
    var cs := Costs(ms);
    CostsAt(ms, i - 1);
    FitCountStep(cs, i, limit - total);
    LinesStep(ms, i, scanned);
    SumStep(cs, i);
  }

  lemma ScanDone(ms: seq<Message>, limit: int, i: int, total: int, scanned: seq<string>)
    requires Scanned(ms, limit, i, total, scanned)
    requires i == 0 || total + LineTokens(ms[i - 1]) > limit
    ensures Kept(ms, limit) == |ms| - i
    ensures JoinLines(Reverse(scanned)) == Context(ms, limit)
  {
    var cs := Costs(ms);
    if i == 0 {
      assert cs[..i] == [];
    } else {
      CostsAt(ms, i - 1);
      FitCountStep(cs, i, limit - total);
    }
  }

  /** `assemble_context`. */
  method AssembleContext(messages: seq<Message>, tokenLimit: int) returns (context: string)
    ensures context == Context(messages, tokenLimit)
  {
    var contextLines: seq<string> := [];
    var totalTokens := 0;
    var i := |messages|;
    ScanStart(messages, tokenLimit);
    while i > 0
      invariant Scanned(messages, tokenLimit, i, totalTokens, contextLines)
      decreases i
    {
      var line := Line(messages[i - 1]);
      var tokens := EstimateTokenCount(line);
      if totalTokens + tokens > tokenLimit {
        break;
      }
      ScanStep(messages, tokenLimit, i, totalTokens, contextLines);
      contextLines := contextLines + [line];
      totalTokens := totalTokens + tokens;
      i := i - 1;
    }
    ScanDone(messages, tokenLimit, i, totalTokens, contextLines);
    contextLines := Reverse(contextLines);
    context := JoinLines(contextLines);
  }

  // ---------------------------------------------------------------------------
  // What the context is

  lemma {:induction false} SumAppend(a: seq<nat>, b: seq<nat>)
    ensures Sum(a + b) == Sum(a) + Sum(b)
    decreases |a|
  {
    if a != [] {
      assert (a + b)[1..] == a[1..] + b;
      SumAppend(a[1..], b);
    } else {
      assert a + b == b;
    }
  }

  /** Keeping one more of the newest adds the cost of the entry just before the kept ones. */
  lemma NewestGrows(cs: seq<nat>, k: nat)
    requires k < |cs|
    ensures Sum(Newest(cs, k + 1)) == cs[|cs| - k - 1] + Sum(Newest(cs, k))
  {
    assert Newest(cs, k + 1)[1..] == Newest(cs, k);
  }

  lemma {:induction false} NewestMonotone(cs: seq<nat>, i: nat, j: nat)
    requires i <= j <= |cs|
    ensures Sum(Newest(cs, i)) <= Sum(Newest(cs, j))
    decreases j - i
  {
    if i < j {
      NewestGrows(cs, j - 1);
      NewestMonotone(cs, i, j - 1);
    }
  }

  /** The newest `j + 1` entries are the newest `j` of all but the last, then the last. */
  lemma NewestOfInit(cs: seq<nat>, j: nat)
    requires j < |cs|
    ensures Sum(Newest(cs, j + 1)) == Sum(Newest(cs[..|cs| - 1], j)) + cs[|cs| - 1]
  {
    var last := cs[|cs| - 1];
    assert Newest(cs, j + 1) == Newest(cs[..|cs| - 1], j) + [last];
    SumAppend(Newest(cs[..|cs| - 1], j), [last]);
  }

  /** The newest `FitCount` entries fit in the budget. */
  lemma {:induction false} FitCountFits(cs: seq<nat>, budget: int)
    ensures FitCount(cs, budget) > 0 ==> Sum(Newest(cs, FitCount(cs, budget))) <= budget
    decreases |cs|
  {
    if cs != [] && cs[|cs| - 1] <= budget {
      var init := cs[..|cs| - 1];
      var t := cs[|cs| - 1];
      FitCountFits(init, budget - t);
      NewestOfInit(cs, FitCount(init, budget - t));
    }
  }

  /** One entry more than `FitCount` would overflow the budget. */
  lemma {:induction false} FitCountStops(cs: seq<nat>, budget: int)
    ensures FitCount(cs, budget) < |cs| ==> Sum(Newest(cs, FitCount(cs, budget) + 1)) > budget
    decreases |cs|
  {
    if cs != [] {
      var init := cs[..|cs| - 1];
      var t := cs[|cs| - 1];
      if t <= budget {
        var k0 := FitCount(init, budget - t);
        FitCountStops(init, budget - t);
        if k0 + 1 < |cs| {
          NewestOfInit(cs, k0 + 1);
        }
      } else {
        assert Newest(cs, 1) == [t];
      }
    }
  }

  lemma {:induction false} CostsAppend(a: seq<Message>, b: seq<Message>)
    ensures Costs(a + b) == Costs(a) + Costs(b)
    decreases |a|
  {
    if a == [] {
      assert a + b == b;
    } else {
      assert (a + b)[1..] == a[1..] + b;
      CostsAppend(a[1..], b);
    }
  }

  /** The newest `k` messages cost what the newest `k` costs add up to. */
  lemma NewestTokens(ms: seq<Message>, k: nat)
    requires k <= |ms|
    ensures TotalTokens(Newest(ms, k)) == Sum(Newest(Costs(ms), k))
  {
    var older := ms[..|ms| - k];
    assert ms == older + Newest(ms, k);
    CostsAppend(older, Newest(ms, k));
    assert Newest(Costs(ms), k) == Costs(Newest(ms, k));
  }

  /**
   * The kept messages never cost more than the budget; nothing is kept when
   * even the newest would overflow it.
   */
  lemma ContextWithinBudget(ms: seq<Message>, limit: int)
    ensures Kept(ms, limit) == 0 || TotalTokens(Newest(ms, Kept(ms, limit))) <= limit
  {
    FitCountFits(Costs(ms), limit);
    NewestTokens(ms, Kept(ms, limit));
  }

  /** Selection stops only at a message that would overflow: one more of the newest would not fit. */
  lemma ContextMaximal(ms: seq<Message>, limit: int)
    ensures Kept(ms, limit) < |ms| ==> TotalTokens(Newest(ms, Kept(ms, limit) + 1)) > limit
  {
    var k := Kept(ms, limit);
    FitCountStops(Costs(ms), limit);
    if k < |ms| {
      NewestTokens(ms, k + 1);
    }
  }

  /**
   * The kept suffix is the only one that fits and is maximal: any suffix length
   * with those two properties is the one `assemble_context` picks.
   */
  lemma ContextUnique(ms: seq<Message>, limit: int, j: nat)
    requires j <= |ms|
    requires j == 0 || TotalTokens(Newest(ms, j)) <= limit
    requires j == |ms| || TotalTokens(Newest(ms, j + 1)) > limit
    ensures j == Kept(ms, limit)
  {
    var cs := Costs(ms);
    var k := Kept(ms, limit);
    FitCountFits(cs, limit);
    FitCountStops(cs, limit);
    NewestTokens(ms, j);
    if j < |ms| {
      NewestTokens(ms, j + 1);
    }
    if j < k {
      NewestMonotone(cs, j + 1, k);
    } else if k < j {
      NewestMonotone(cs, k + 1, j);
    }
  }

  lemma {:induction false} LinesLength(ms: seq<Message>)
    ensures |Lines(ms)| == |ms|
    ensures forall i :: 0 <= i < |ms| ==> Lines(ms)[i] == Line(ms[i])
    decreases |ms|
  {
    if ms != [] {
      LinesLength(ms[1..]);
    }
  }

  lemma {:induction false} JoinLinesAppend(a: seq<string>, b: seq<string>)
    requires a != [] && b != []
    ensures JoinLines(a + b) == JoinLines(a) + "\n" + JoinLines(b)
    decreases |a|
  {
    if |a| == 1 {
      assert (a + b)[1..] == b;
    } else {
      assert (a + b)[1..] == a[1..] + b;
      JoinLinesAppend(a[1..], b);
    }
  }

  /**
   * The context lists the kept messages one per line, in chronological order:
   * it is the kept older part's context, a newline, and the kept newer part's.
   */
  lemma {:induction false} LinesAppend(a: seq<Message>, b: seq<Message>)
    ensures Lines(a + b) == Lines(a) + Lines(b)
    decreases |a|
  {
    if a != [] {
      assert (a + b)[1..] == a[1..] + b;
      LinesAppend(a[1..], b);
    } else {
      assert a + b == b;
    }
  }

  lemma RenderSplits(a: seq<Message>, b: seq<Message>)
    requires a != [] && b != []
    ensures JoinLines(Lines(a + b)) == JoinLines(Lines(a)) + "\n" + JoinLines(Lines(b))
  {
    LinesAppend(a, b);
    LinesLength(a);
    LinesLength(b);
    JoinLinesAppend(Lines(a), Lines(b));
  }

  /** An empty history gives the empty context. */
  lemma ContextOfNothing(limit: int)
    ensures Context([], limit) == ""
  {
  }

  /**
   * A message's cost is its label's words plus its text's words; the label
   * with its colon is at least one word, so every message costs at least one token.
   */
  lemma LineTokensSplit(m: Message)
    ensures LineTokens(m) == EstimateTokenCount(Label(m) + ":") + EstimateTokenCount(m.text.GetOr(""))
    ensures LineTokens(m) >= 1
  {
    var head := Label(m) + ":";
    var body := Strip(m.text.GetOr(""));
    assert Line(m) == head + [' '] + body;
    WordsAcrossSpace(head, ' ', body);
    WordsOfStrip(m.text.GetOr(""));
    assert !IsSpace(head[|head| - 1]);
  }

  /**
   * A context line is the label, a colon and a space, then the message text
   * with no whitespace at either end and with the same words as the text.
   */
  lemma LineParts(m: Message)
    ensures var head := Label(m) + ": ";
      StartsWith(Line(m), head)
      && Stripped(Line(m)[|head|..])
      && Words(Line(m)[|head|..]) == Words(m.text.GetOr(""))
  {
    var head := Label(m) + ": ";
    var body := Strip(m.text.GetOr(""));
    assert Line(m)[..|head|] == head;
    assert Line(m)[|head|..] == body;
    StripStripped(m.text.GetOr(""));
    WordsOfStrip(m.text.GetOr(""));
  }

  /** A record made by `make_message` is rendered from exactly its arguments. */
  lemma MakeMessageLine(sender: string, text: string, isBot: bool)
    ensures Line(MakeMessage(sender, text, isBot)) == (if isBot then "Bot" else sender) + ": " + Strip(text)
  {
  }
}
