/** The memory that keeps a number of messages: trimming at every append amounts
    to one window over the whole history. */
module BufferMemory {
  import opened Conversation

  /** Trim, on the messages held. */
  function Trim(max: nat, messages: seq<Message>): seq<Message>
    requires max > 0
  {
    if |messages| <= max then messages
    else if messages[0].role.System? then [messages[0]] + messages[|messages| - max + 1..]
    else messages[|messages| - max..]
  }

  function Append(max: nat, messages: seq<Message>, msg: Message): seq<Message>
    requires max > 0
  {
    Trim(max, messages + [msg])
  }

  /** The position of the first system message, or the length if there is none. */
  function FirstSystem(history: seq<Message>): (p: nat)
    ensures p <= |history|
    ensures forall i :: 0 <= i < p ==> !history[i].role.System?
    ensures p < |history| ==> history[p].role.System?
  {
    if history == [] then 0
    else if history[0].role.System? then 0
    else 1 + FirstSystem(history[1..])
  }

  /** One look at the whole history: all of it if it fits; else the last `max`
      messages, unless a system message has reached the front by now, when the
      first such message stays pinned before the last max - 1. */
  function Window(max: nat, history: seq<Message>): seq<Message>
    requires max > 0
  {
    WindowAround(max, history, FirstSystem(history))
  }

  function WindowAround(max: nat, history: seq<Message>, p: nat): seq<Message>
    requires max > 0
  {
    var n := |history|;
    if n <= max then history
    else if p <= n - max then [history[p]] + history[n - max + 1..]
    else history[n - max..]
  }

  lemma {:induction false} FirstSystemExtends(history: seq<Message>, msg: Message)
    ensures var p := FirstSystem(history);
            FirstSystem(history + [msg]) == if p < |history| then p else if msg.role.System? then p else p + 1
  {
    var p, q := FirstSystem(history), FirstSystem(history + [msg]);
    assert forall i :: 0 <= i < |history| ==> (history + [msg])[i] == history[i];
    assert (history + [msg])[|history|] == msg;
    if p < |history| {
      assert (history + [msg])[p].role.System?;
    }
  }

  /** Trimming step by step is the window over the longer history. */
  lemma {:induction false} AppendIsWindow(max: nat, history: seq<Message>, msg: Message)
    requires max > 0
    ensures Append(max, Window(max, history), msg) == Window(max, history + [msg])
  {
    FirstSystemExtends(history, msg);
    AppendAround(max, history, FirstSystem(history), FirstSystem(history + [msg]), msg);
  }

  lemma {:induction false} AppendAround(max: nat, history: seq<Message>, p: nat, q: nat, msg: Message)
    requires max > 0 && p <= |history| && (p < |history| ==> history[p].role.System?)
    requires forall i :: 0 <= i < p ==> !history[i].role.System?
    requires q == if p < |history| then p else if msg.role.System? then p else p + 1
    ensures Append(max, WindowAround(max, history, p), msg) == WindowAround(max, history + [msg], q)
  {
    var n := |history|;
    if n < max {
    } else if n > max && p <= n - max {
      PinnedAppend(max, history, p, msg);
    } else {
      assert history[n - max..] == WindowAround(max, history, p);
      OldestGoes(max, history, p, q, msg);
    }
  }

  lemma {:induction false} OldestGoes(max: nat, history: seq<Message>, p: nat, q: nat, msg: Message)
    requires 0 < max <= |history| && p <= |history| && (|history| == max || p > |history| - max)
    requires (p < |history| ==> history[p].role.System?) && forall i :: 0 <= i < p ==> !history[i].role.System?
    requires q == if p < |history| then p else if msg.role.System? then p else p + 1
    ensures Append(max, history[|history| - max..], msg) == WindowAround(max, history + [msg], q)
  {
    var n, all := |history|, history + [msg];
    UnpinnedAppend(max, history, msg);
    if q == n - max + 1 {
      assert all[q..] == [all[q]] + all[q + 1..];
    }
  }

  /** Once a system message is pinned, it stays and the oldest after it goes. */
  lemma {:induction false} PinnedAppend(max: nat, history: seq<Message>, p: nat, msg: Message)
    requires 0 < max < |history| && p <= |history| - max && history[p].role.System?
    ensures var n := |history|;
            Append(max, [history[p]] + history[n - max + 1..], msg) == [history[p]] + (history + [msg])[n - max + 2..]
  {
    var n := |history|;
    var held := [history[p]] + history[n - max + 1..];
    assert |held + [msg]| == max + 1;
    assert (held + [msg])[2..] == (history + [msg])[n - max + 2..];
  }

  /** Before that the oldest message goes, unless it is a system message: then it is
      the first of all, and the next oldest goes. */
  lemma {:induction false} UnpinnedAppend(max: nat, history: seq<Message>, msg: Message)
    requires 0 < max <= |history|
    ensures var n := |history|;
            Append(max, history[n - max..], msg)
            == if history[n - max].role.System? then [history[n - max]] + (history + [msg])[n - max + 2..]
               else (history + [msg])[n - max + 1..]
  {
    var n := |history|;
    var held := history[n - max..];
    assert |held + [msg]| == max + 1 && (held + [msg])[0] == history[n - max];
    assert (held + [msg])[1..] == (history + [msg])[n - max + 1..];
    assert (held + [msg])[2..] == (history + [msg])[n - max + 2..];
  }

  /** For a history that starts with a system message: all of it while it fits,
      then that message and the last max - 1. Without any system message: the
      last `max`. */
  lemma {:induction false} WindowOfConversation(max: nat, history: seq<Message>)
    requires max > 0 && |history| > max
    ensures history[0].role.System? ==>
              Window(max, history) == [history[0]] + history[|history| - max + 1..]
    ensures (forall m :: m in history ==> !m.role.System?) ==>
              Window(max, history) == history[|history| - max..]
  {
    var p := FirstSystem(history);
    if p < |history| {
      assert history[p] in history;
    }
  }

  /** The first system message of a history is always held. */
  lemma {:induction false} FirstSystemHeld(max: nat, history: seq<Message>)
    requires max > 0
    ensures var p := FirstSystem(history);
            p < |history| ==> history[p] in Window(max, history)
  {
    var n, p := |history|, FirstSystem(history);
    if n > max && n - max < p < n {
      assert history[n - max..][p - (n - max)] == history[p];
    }
  }

  type Positive = n: nat | n > 0 witness 1

  function Appender(max: Positive): (seq<Message>, Message) -> seq<Message> {
    (held, msg) => Append(max, held, msg)
  }

  /** Feeding a history to the memory, one message at a time, leaves its window. */
  lemma {:induction false} FeedIsWindow(max: Positive, history: seq<Message>)
    ensures Feed(Appender(max), [], history) == Window(max, history)
  {
    if history == [] {
    } else {
      var n := |history|;
      FeedIsWindow(max, history[..n - 1]);
      AppendIsWindow(max, history[..n - 1], history[n - 1]);
      assert history == history[..n - 1] + [history[n - 1]];
    }
  }

  class BufferMemory {
    const maxMessages: nat
    var messages: seq<Message>
    /** Everything appended since the last Reset. */
    ghost var history: seq<Message>

    ghost predicate Valid()
      reads this
    {
      maxMessages > 0 && messages == Window(maxMessages, history)
    }

    constructor (maxMessages: int)
      ensures Valid() && history == []
      ensures this.maxMessages == if maxMessages <= 0 then 32 else maxMessages
    {
      this.maxMessages := if maxMessages <= 0 then 32 else maxMessages;
      messages := [];
      history := [];
    }

    method Add(msg: Message)
      requires Valid()
      modifies this
      ensures Valid() && history == old(history) + [msg]
      ensures messages == Append(maxMessages, old(messages), msg)
    {
      AppendIsWindow(maxMessages, history, msg);
      history := history + [msg];
      messages := messages + [msg];
      TrimNow();
    }

    method TrimNow()
      requires maxMessages > 0
      modifies this`messages
      ensures messages == Trim(maxMessages, old(messages))
    {
      if |messages| <= maxMessages {
        return;
      }
      var keep := [];
      if |messages| > 0 && messages[0].role == System {
        keep := keep + [messages[0]];
      }
      var tailSize := maxMessages - |keep|;
      if tailSize <= 0 {
        messages := keep[..maxMessages];
        return;
      }
      var start := |messages| - tailSize;
      if start < |keep| {
        start := |keep|;
      }
      messages := keep + messages[start..];
    }

    method Messages() returns (copied: seq<Message>)
      requires Valid()
      ensures copied == Window(maxMessages, history)
      ensures |copied| <= maxMessages
      ensures FirstSystem(history) < |history| ==> history[FirstSystem(history)] in copied
    {
      FirstSystemHeld(maxMessages, history);
      return messages;
    }

    method Reset()
      requires Valid()
      modifies this
      ensures Valid() && history == [] && messages == []
    {
      messages := messages[..0];
      history := [];
    }
  }
}
