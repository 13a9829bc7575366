/** The memory that keeps a token budget: eviction of the oldest messages around
    protected positions that are renumbered at every removal. */
module TokenWindow {
  import opened Conversation

  type Estimator = string -> int

  function Total(est: Estimator, messages: seq<Message>): int {
    if messages == [] then 0
    else Total(est, messages[..|messages| - 1]) + est(messages[|messages| - 1].content)
  }

  /** The total is the sum of the estimates. */
  lemma {:induction false} TotalIsSum(est: Estimator, msg: Message, xs: seq<Message>, ys: seq<Message>)
    ensures Total(est, []) == 0 && Total(est, [msg]) == est(msg.content)
    ensures Total(est, xs + ys) == Total(est, xs) + Total(est, ys)
  {
    assert [msg][..0] == [];
    if ys == [] {
      assert xs + ys == xs;
    } else {
      assert (xs + ys)[..|xs + ys| - 1] == xs + ys[..|ys| - 1];
      TotalIsSum(est, msg, xs, ys[..|ys| - 1]);
    }
  }

  // ---------- eviction, with the protection travelling with the message ----------

  datatype Tagged = Tagged(msg: Message, keep: bool)

  function Untag(ts: seq<Tagged>): seq<Message> {
    seq(|ts|, i requires 0 <= i < |ts| => ts[i].msg)
  }

  /** The position of the last user message, or -1. */
  function LastUser(messages: seq<Message>): (p: int)
    ensures -1 <= p < |messages|
    ensures p >= 0 ==> messages[p].role.User?
    ensures forall i :: p < i < |messages| ==> !messages[i].role.User?
  {
    if messages == [] then -1
    else if messages[|messages| - 1].role.User? then |messages| - 1
    else LastUser(messages[..|messages| - 1])
  }

  /** The system head and the last user message are to be kept. */
  function Tag(messages: seq<Message>): seq<Tagged> {
    seq(|messages|, i requires 0 <= i < |messages| =>
      Tagged(messages[i], (i == 0 && messages[0].role.System?) || i == LastUser(messages)))
  }

  /** Without the first k messages that are not to be kept. */
  function DeleteFirst(ts: seq<Tagged>, k: nat): seq<Tagged> {
    if k == 0 || ts == [] then ts
    else if ts[0].keep then [ts[0]] + DeleteFirst(ts[1..], k)
    else DeleteFirst(ts[1..], k - 1)
  }

  /** How many messages may be evicted. */
  function Evictable(ts: seq<Tagged>): nat {
    if ts == [] then 0 else (if ts[0].keep then 0 else 1) + Evictable(ts[1..])
  }

  /** What is to be kept, in order. */
  function Kept(ts: seq<Tagged>): seq<Message> {
    if ts == [] then [] else (if ts[0].keep then [ts[0].msg] else []) + Kept(ts[1..])
  }

  /** Evict one at a time until the budget is met or nothing may go. */
  function Evict(est: Estimator, max: int, ts: seq<Tagged>): seq<Tagged>
    decreases Evictable(ts)
  {
    if Total(est, Untag(ts)) <= max || Evictable(ts) == 0 then ts
    else
      EvictableAfter(ts, 1);
      Evict(est, max, DeleteFirst(ts, 1))
  }

  function Trim(est: Estimator, max: int, messages: seq<Message>): seq<Message> {
    if Total(est, messages) <= max || |messages| <= 1 then messages
    else Untag(Evict(est, max, Tag(messages)))
  }

  /** A tool result may take up a quarter of the budget. */
  function Cap(est: Estimator, max: nat, msg: Message): Message {
    if msg.role.Tool? && max / 4 > 0 && est(msg.content) > max / 4 && |msg.content| > max / 4
    then msg.(content := msg.content[..max / 4])
    else msg
  }

  /** A tool message whose estimate and length both exceed a quarter of the budget. */
  predicate TooLong(est: Estimator, max: nat, msg: Message) {
    msg.role.Tool? && 0 < max / 4 < est(msg.content) && max / 4 < |msg.content|
  }

  /** What is kept of a message: all of it, or, of one that is too long, everything but
      what its content has beyond a quarter of the budget. */
  predicate KeptOf(est: Estimator, max: nat, msg: Message, stored: Message) {
    && stored.role == msg.role && stored.toolCalls == msg.toolCalls && stored.toolCallId == msg.toolCallId
    && stored.content <= msg.content
    && (|stored.content| < |msg.content| <==> TooLong(est, max, msg))
    && (TooLong(est, max, msg) ==> |stored.content| == max / 4)
  }

  lemma {:induction false} CapKeeps(est: Estimator, max: nat, msg: Message)
    ensures KeptOf(est, max, msg, Cap(est, max, msg))
    ensures !TooLong(est, max, msg) ==> Cap(est, max, msg) == msg
  {
  }

  /** What is stored is determined by that. */
  lemma {:induction false} KeptOfOne(est: Estimator, max: nat, msg: Message, x: Message, y: Message)
    requires KeptOf(est, max, msg, x) && KeptOf(est, max, msg, y)
    ensures x == y
  {
    assert x.content == msg.content[..|x.content|] && y.content == msg.content[..|y.content|];
  }

  function Append(est: Estimator, max: nat, messages: seq<Message>, msg: Message): seq<Message> {
    Trim(est, max, messages + [Cap(est, max, msg)])
  }

  /** Tagging changes no message, and marks the system head and the last user message. */
  lemma {:induction false} TagExactly(messages: seq<Message>, i: nat)
    requires i < |messages|
    ensures Tag(messages)[i].msg == messages[i]
    ensures Tag(messages)[i].keep
            <==> (i == 0 && messages[0].role.System?)
                 || (messages[i].role.User? && forall j :: i < j < |messages| ==> !messages[j].role.User?)
  {
    var p := LastUser(messages);
    if messages[i].role.User? && p != i {
      assert i < p;
    }
  }

  lemma {:induction false} EvictableAfter(ts: seq<Tagged>, k: nat)
    ensures Evictable(DeleteFirst(ts, k)) == if k <= Evictable(ts) then Evictable(ts) - k else 0
    ensures Kept(DeleteFirst(ts, k)) == Kept(ts)
    decreases |ts|
  {
    if k == 0 || ts == [] {
    } else if ts[0].keep {
      EvictableAfter(ts[1..], k);
      assert ([ts[0]] + DeleteFirst(ts[1..], k))[1..] == DeleteFirst(ts[1..], k);
    } else {
      EvictableAfter(ts[1..], k - 1);
    }
  }

  lemma {:induction false} DeleteFirstTwice(ts: seq<Tagged>, j: nat, k: nat)
    ensures DeleteFirst(DeleteFirst(ts, j), k) == DeleteFirst(ts, j + k)
    decreases |ts|
  {
    if j == 0 || ts == [] {
    } else if ts[0].keep {
      DeleteFirstTwice(ts[1..], j, k);
      assert ([ts[0]] + DeleteFirst(ts[1..], j))[1..] == DeleteFirst(ts[1..], j);
    } else {
      DeleteFirstTwice(ts[1..], j - 1, k);
    }
  }

  /** k is the least number of evictions that meets the budget, or all there are
      when none does. */
  ghost predicate LeastEviction(est: Estimator, max: int, ts: seq<Tagged>, k: nat) {
    && k <= Evictable(ts)
    && (k < Evictable(ts) ==> Total(est, Untag(DeleteFirst(ts, k))) <= max)
    && (forall j :: 0 <= j < k ==> Total(est, Untag(DeleteFirst(ts, j))) > max)
  }

  /** The step-by-step eviction removes the first k evictable messages for the
      least sufficient k, for every estimator, and keeps what is to be kept. */
  lemma {:induction false} EvictsLeast(est: Estimator, max: int, ts: seq<Tagged>) returns (k: nat)
    ensures LeastEviction(est, max, ts, k)
    ensures Evict(est, max, ts) == DeleteFirst(ts, k)
    ensures Kept(Evict(est, max, ts)) == Kept(ts)
    decreases Evictable(ts)
  {
    if Total(est, Untag(ts)) <= max || Evictable(ts) == 0 {
      return 0;
    }
    EvictableAfter(ts, 1);
    var next := DeleteFirst(ts, 1);
    var k' := EvictsLeast(est, max, next);
    DeleteFirstTwice(ts, 1, k');
    LeastAfterOne(est, max, ts, k');
    return k' + 1;
  }

  lemma {:induction false} LeastAfterOne(est: Estimator, max: int, ts: seq<Tagged>, k: nat)
    requires Total(est, Untag(ts)) > max && Evictable(ts) > 0
    requires LeastEviction(est, max, DeleteFirst(ts, 1), k)
    ensures LeastEviction(est, max, ts, k + 1)
  {
    EvictableAfter(ts, 1);
    DeleteFirstTwice(ts, 1, k);
    forall j | 0 <= j < k + 1 ensures Total(est, Untag(DeleteFirst(ts, j))) > max {
      if j > 0 {
        DeleteFirstTwice(ts, 1, j - 1);
      }
    }
  }

  /** What Trim does to two messages or more: it deletes the first k that are
      neither the system head nor the last user message, k being least. */
  lemma {:induction false} TrimCharacterised(est: Estimator, max: int, messages: seq<Message>) returns (k: nat)
    requires |messages| >= 2
    ensures LeastEviction(est, max, Tag(messages), k)
    ensures Trim(est, max, messages) == Untag(DeleteFirst(Tag(messages), k))
    ensures Kept(DeleteFirst(Tag(messages), k)) == Kept(Tag(messages))
  {
    k := EvictsLeast(est, max, Tag(messages));
    EvictableAfter(Tag(messages), k);
    assert Untag(Tag(messages)) == messages;
  }

  // ---------- positions that are renumbered ----------

  /** The positions to be kept. */
  function KeptPositions(ts: seq<Tagged>): set<int> {
    set i | 0 <= i < |ts| && ts[i].keep
  }

  /** After the removal of position i the positions above it move down by one. */
  function Renumber(positions: set<int>, i: int): set<int> {
    (set k | k in positions && k < i) + (set k | k in positions && k > i :: k - 1)
  }

  /** Removing the first position not to be kept, and renumbering, is deleting the
      first evictable message, tags and all. */
  lemma {:induction false} RemovalIsDeletion(ts: seq<Tagged>, i: nat)
    requires i < |ts| && !ts[i].keep && forall j :: 0 <= j < i ==> ts[j].keep
    ensures DeleteFirst(ts, 1) == ts[..i] + ts[i + 1..]
    ensures KeptPositions(DeleteFirst(ts, 1)) == Renumber(KeptPositions(ts), i)
    ensures Evictable(ts) > 0
  {
    DeletionAt(ts, i);
    var shorter := ts[..i] + ts[i + 1..];
    var positions := KeptPositions(ts);
    forall k ensures k in KeptPositions(shorter) <==> k in Renumber(positions, i) {
      assert k in Renumber(positions, i) <==> (k in positions && k < i) || (k + 1 in positions && k >= i) by {
        if k + 1 in positions && k >= i {
          assert (k + 1) - 1 in Renumber(positions, i);
        }
      }
      if i <= k < |shorter| {
        assert shorter[k] == ts[k + 1];
      }
    }
  }

  lemma {:induction false} DeletionAt(ts: seq<Tagged>, i: nat)
    requires i < |ts| && !ts[i].keep && forall j :: 0 <= j < i ==> ts[j].keep
    ensures DeleteFirst(ts, 1) == ts[..i] + ts[i + 1..]
    ensures Evictable(ts) > 0
  {
    if i == 0 {
    } else {
      var tail := ts[1..];
      DeletionAt(tail, i - 1);
      assert DeleteFirst(ts, 1) == [ts[0]] + (tail[..i - 1] + tail[i..]);
      assert ts[..i] == [ts[0]] + tail[..i - 1] && ts[i + 1..] == tail[i..];
    }
  }

  lemma {:induction false} AllKept(ts: seq<Tagged>)
    requires forall j :: 0 <= j < |ts| ==> ts[j].keep
    ensures Evictable(ts) == 0
  {
    if ts == [] {
    } else {
      AllKept(ts[1..]);
    }
  }

  lemma {:induction false} DeleteNothing(ts: seq<Tagged>)
    requires forall j :: 0 <= j < |ts| ==> ts[j].keep
    ensures DeleteFirst(ts, 1) == ts
  {
    if ts == [] {
    } else {
      DeleteNothing(ts[1..]);
    }
  }

  // ---------- an agent's conversation ----------

  ghost predicate Replies(messages: seq<Message>) {
    forall m :: m in messages ==> m.role.Assistant? || m.role.Tool?
  }

  function CapAll(est: Estimator, max: nat, messages: seq<Message>): seq<Message> {
    seq(|messages|, i requires 0 <= i < |messages| => Cap(est, max, messages[i]))
  }

  /** k is the least number of replies to drop so that the rest fits, or all. */
  ghost predicate LeastDrop(est: Estimator, max: int, head: seq<Message>, replies: seq<Message>, k: nat) {
    && k <= |replies|
    && (k < |replies| ==> Total(est, head + replies[k..]) <= max)
    && (forall j :: 0 <= j < k ==> Total(est, head + replies[j..]) > max)
  }

  /** Behind a protected system and user message, eviction drops the oldest replies. */
  lemma {:induction false} TrimConversation(est: Estimator, max: int, system: Message, user: Message,
                                            replies: seq<Message>)
    returns (k: nat)
    requires system.role.System? && user.role.User? && Replies(replies)
    ensures LeastDrop(est, max, [system, user], replies, k)
    ensures Trim(est, max, [system, user] + replies) == [system, user] + replies[k..]
  {
    var messages := [system, user] + replies;
    ConversationTags(system, user, replies);
    LooseEvictable(system, user, replies);
    k := TrimCharacterised(est, max, messages);
    forall j | 0 <= j <= |replies|
      ensures Untag(DeleteFirst(Tag(messages), j)) == [system, user] + replies[j..]
    {
      DroppedReplies(system, user, replies, j);
    }
  }

  lemma {:induction false} DroppedReplies(system: Message, user: Message, replies: seq<Message>, j: nat)
    requires j <= |replies|
    ensures Untag(DeleteFirst([Tagged(system, true), Tagged(user, true)] + Loose(replies), j))
            == [system, user] + replies[j..]
  {
    DeleteReplies([Tagged(system, true), Tagged(user, true)] + Loose(replies), j);
  }

  lemma {:induction false} QueryIsLastUser(system: Message, user: Message, replies: seq<Message>)
    requires user.role.User? && Replies(replies)
    ensures LastUser([system, user] + replies) == 1
  {
    var messages := [system, user] + replies;
    assert messages[1] == user;
    assert forall i :: 2 <= i < |messages| ==> messages[i] == replies[i - 2] && messages[i] in replies;
  }

  lemma {:induction false} ConversationTags(system: Message, user: Message, replies: seq<Message>)
    requires system.role.System? && user.role.User? && Replies(replies)
    ensures var ts := Tag([system, user] + replies);
            ts == [Tagged(system, true), Tagged(user, true)] + Loose(replies)
  {
    QueryIsLastUser(system, user, replies);
  }

  /** Replies, none of them to be kept. */
  function Loose(replies: seq<Message>): seq<Tagged> {
    seq(|replies|, i requires 0 <= i < |replies| => Tagged(replies[i], false))
  }

  lemma {:induction false} LooseEvictable(system: Message, user: Message, replies: seq<Message>)
    ensures Evictable([Tagged(system, true), Tagged(user, true)] + Loose(replies)) == |replies|
  {
    var ts := [Tagged(system, true), Tagged(user, true)] + Loose(replies);
    AllEvictable(Loose(replies));
    assert ts[1..][1..] == Loose(replies);
  }

  lemma {:induction false} AllEvictable(ts: seq<Tagged>)
    requires forall i :: 0 <= i < |ts| ==> !ts[i].keep
    ensures Evictable(ts) == |ts|
  {
    if ts == [] {
    } else {
      AllEvictable(ts[1..]);
    }
  }

  lemma {:induction false} DeleteReplies(ts: seq<Tagged>, k: nat)
    requires |ts| >= 2 && ts[0].keep && ts[1].keep && k <= |ts| - 2
    requires forall i :: 2 <= i < |ts| ==> !ts[i].keep
    ensures DeleteFirst(ts, k) == ts[..2] + ts[2 + k..]
  {
    DeletePlain(ts[2..], k);
    assert ts[1..][1..] == ts[2..];
    if k > 0 {
      assert DeleteFirst(ts[1..], k) == [ts[1]] + DeleteFirst(ts[2..], k);
    }
  }

  lemma {:induction false} DeletePlain(ts: seq<Tagged>, k: nat)
    requires k <= |ts| && forall i :: 0 <= i < |ts| ==> !ts[i].keep
    ensures DeleteFirst(ts, k) == ts[k..]
  {
    if k == 0 {
    } else {
      DeletePlain(ts[1..], k - 1);
    }
  }

  function Appender(est: Estimator, max: nat): (seq<Message>, Message) -> seq<Message> {
    (held, msg) => Append(est, max, held, msg)
  }

  lemma {:induction false} FeedStep(est: Estimator, max: nat, messages: seq<Message>, msg: Message)
    ensures Feed(Appender(est, max), [], messages + [msg])
            == Append(est, max, Feed(Appender(est, max), [], messages), msg)
  {
    assert (messages + [msg])[..|messages|] == messages;
  }

  lemma {:induction false} FeedHead(est: Estimator, max: nat, system: Message, user: Message)
    requires system.role.System? && user.role.User?
    ensures Feed(Appender(est, max), [], [system, user]) == [system, user]
  {
    FeedTwo(Appender(est, max), system, user);
    AppendTwo(est, max, system, user);
  }

  lemma {:induction false} AppendTwo(est: Estimator, max: nat, system: Message, user: Message)
    requires system.role.System? && user.role.User?
    ensures Append(est, max, [], system) == [system]
    ensures Append(est, max, [system], user) == [system, user]
  {
    assert [] + [system] == [system];
    HeadStays(est, max, system, user);
    assert [system] + [user] == [system, user];
  }

  lemma {:induction false} HeadStays(est: Estimator, max: nat, system: Message, user: Message)
    requires system.role.System? && user.role.User?
    ensures Trim(est, max, [system, user]) == [system, user]
  {
    var k := TrimConversation(est, max, system, user, []);
    assert [system, user] + [] == [system, user];
  }

  /** The prompt budget, for every estimator. Whatever replies follow, the memory
      starts with the system prompt and the whole query and goes on with the most
      recent replies; it is within the budget if the two of them are. */
  lemma {:induction false} PromptBudget(est: Estimator, max: nat, system: Message, user: Message, replies: seq<Message>)
    returns (d: nat)
    requires system.role.System? && user.role.User? && Replies(replies)
    ensures d <= |replies|
    ensures Feed(Appender(est, max), [], [system, user] + replies) == [system, user] + CapAll(est, max, replies)[d..]
    ensures est(system.content) + est(user.content) <= max ==>
              Total(est, Feed(Appender(est, max), [], [system, user] + replies)) <= max
  {
    var head := [system, user];
    if replies == [] {
      d := 0;
      FeedHead(est, max, system, user);
      assert head + [] == head;
      TotalHead(est, system, user);
    } else {
      var n := |replies|;
      var init, last := replies[..n - 1], replies[n - 1];
      assert Replies(init) && last in replies;
      assert init + [last] == replies;
      var d0 := PromptBudget(est, max, system, user, init);
      var k := NextReply(est, max, system, user, init, last, d0);
      d := d0 + k;
      DropFits(est, max, system, user, CapAll(est, max, replies), d0, k);
    }
  }

  lemma {:induction false} DropFits(est: Estimator, max: nat, system: Message, user: Message, capped: seq<Message>,
                                    d: nat, k: nat)
    requires d <= |capped| && LeastDrop(est, max, [system, user], capped[d..], k)
    ensures d + k <= |capped| && capped[d..][k..] == capped[d + k..]
    ensures est(system.content) + est(user.content) <= max ==> Total(est, [system, user] + capped[d + k..]) <= max
  {
    assert capped[d..][k..] == capped[d + k..];
    if d + k == |capped| {
      assert [system, user] + capped[d + k..] == [system, user];
      TotalHead(est, system, user);
    }
  }

  /** One more reply: the memory drops k of the oldest it still held, k least. */
  lemma {:induction false} NextReply(est: Estimator, max: nat, system: Message, user: Message,
                                     init: seq<Message>, last: Message, d0: nat) returns (k: nat)
    requires system.role.System? && user.role.User? && Replies(init + [last]) && d0 <= |init|
    requires Feed(Appender(est, max), [], [system, user] + init) == [system, user] + CapAll(est, max, init)[d0..]
    ensures var capped := CapAll(est, max, init + [last]);
            && capped == CapAll(est, max, init) + [Cap(est, max, last)]
            && LeastDrop(est, max, [system, user], capped[d0..], k)
            && Feed(Appender(est, max), [], [system, user] + (init + [last])) == [system, user] + capped[d0..][k..]
  {
    var capped := CapAll(est, max, init + [last]);
    assert capped == CapAll(est, max, init) + [Cap(est, max, last)];
    assert capped[d0..] == CapAll(est, max, init)[d0..] + [Cap(est, max, last)];
    FeedReply(est, max, [system, user], init, last, CapAll(est, max, init)[d0..]);
    CapAllReplies(est, max, init + [last]);
    k := TrimConversation(est, max, system, user, capped[d0..]);
  }

  lemma {:induction false} FeedReply(est: Estimator, max: nat, head: seq<Message>, init: seq<Message>, last: Message,
                                     held: seq<Message>)
    requires Feed(Appender(est, max), [], head + init) == head + held
    ensures Feed(Appender(est, max), [], head + (init + [last]))
            == Trim(est, max, head + (held + [Cap(est, max, last)]))
  {
    assert head + (init + [last]) == (head + init) + [last];
    FeedStep(est, max, head + init, last);
    assert (head + held) + [Cap(est, max, last)] == head + (held + [Cap(est, max, last)]);
  }

  lemma {:induction false} CapAllReplies(est: Estimator, max: nat, replies: seq<Message>)
    requires Replies(replies)
    ensures forall m :: m in CapAll(est, max, replies) ==> m.role.Assistant? || m.role.Tool?
  {
    forall m | m in CapAll(est, max, replies) ensures m.role.Assistant? || m.role.Tool? {
      var i :| 0 <= i < |replies| && m == Cap(est, max, replies[i]);
      assert replies[i] in replies;
    }
  }

  lemma {:induction false} TotalHead(est: Estimator, system: Message, user: Message)
    ensures Total(est, [system, user]) == est(system.content) + est(user.content)
  {
    assert [system, user][..1] == [system] && [system][..0] == [];
    assert Total(est, [system]) == est(system.content);
  }

  /** The condition on the two messages is exact: already the first prompt, the two
      of them alone, is over the budget when they are. */
  lemma {:induction false} FirstPromptBudget(est: Estimator, max: nat, system: Message, user: Message)
    requires system.role.System? && user.role.User?
    ensures Total(est, Feed(Appender(est, max), [], [system, user])) <= max
            <==> est(system.content) + est(user.content) <= max
  {
    FeedHead(est, max, system, user);
    TotalHead(est, system, user);
  }

  /** With a nonnegative estimator the step-by-step memory is the one-shot window
      of the whole history: the system prompt, the query, and as many of the most
      recent replies as the budget allows. */
  lemma {:induction false} WindowIsLongestSuffix(est: Estimator, max: nat, system: Message, user: Message,
                                                 replies: seq<Message>)
    returns (d: nat)
    requires system.role.System? && user.role.User? && Replies(replies)
    requires forall s :: est(s) >= 0
    ensures LeastDrop(est, max, [system, user], CapAll(est, max, replies), d)
    ensures Feed(Appender(est, max), [], [system, user] + replies) == [system, user] + CapAll(est, max, replies)[d..]
  {
    if replies == [] {
      d := 0;
      WindowOfHead(est, max, system, user);
    } else {
      var n := |replies|;
      var init, last := replies[..n - 1], replies[n - 1];
      assert Replies(init) && last in replies;
      assert init + [last] == replies;
      var d0 := WindowIsLongestSuffix(est, max, system, user, init);
      d := WindowStep(est, max, system, user, init, last, d0);
    }
  }

  lemma {:induction false} WindowOfHead(est: Estimator, max: nat, system: Message, user: Message)
    requires system.role.System? && user.role.User?
    ensures LeastDrop(est, max, [system, user], CapAll(est, max, []), 0)
    ensures Feed(Appender(est, max), [], [system, user] + []) == [system, user] + CapAll(est, max, [])[0..]
  {
    FeedHead(est, max, system, user);
    assert [system, user] + [] == [system, user];
  }

  lemma {:induction false} WindowStep(est: Estimator, max: nat, system: Message, user: Message,
                                      init: seq<Message>, last: Message, d0: nat) returns (d: nat)
    requires system.role.System? && user.role.User? && Replies(init + [last])
    requires est(Cap(est, max, last).content) >= 0
    requires LeastDrop(est, max, [system, user], CapAll(est, max, init), d0)
    requires Feed(Appender(est, max), [], [system, user] + init) == [system, user] + CapAll(est, max, init)[d0..]
    ensures LeastDrop(est, max, [system, user], CapAll(est, max, init + [last]), d)
    ensures Feed(Appender(est, max), [], [system, user] + (init + [last]))
            == [system, user] + CapAll(est, max, init + [last])[d..]
  {
    var k := NextReply(est, max, system, user, init, last, d0);
    d := d0 + k;
    DropsAddUp(est, max, [system, user], CapAll(est, max, init), Cap(est, max, last), d0, k);
    var capped := CapAll(est, max, init + [last]);
    assert capped[d0..][k..] == capped[d..];
  }

  /** Least drops made one after the other, as the replies come, are least for all. */
  lemma {:induction false} DropsAddUp(est: Estimator, max: int, head: seq<Message>, held: seq<Message>, msg: Message,
                                      d: nat, k: nat)
    requires est(msg.content) >= 0
    requires LeastDrop(est, max, head, held, d) && LeastDrop(est, max, head, (held + [msg])[d..], k)
    ensures LeastDrop(est, max, head, held + [msg], d + k)
  {
    var all := held + [msg];
    assert all[d..][k..] == all[d + k..];
    forall j | 0 <= j < d + k ensures Total(est, head + all[j..]) > max {
      if j < d {
        StillOver(est, max, head, held, msg, d, j);
      } else {
        OverLater(est, max, head, all, d, k, j);
      }
    }
  }

  lemma {:induction false} StillOver(est: Estimator, max: int, head: seq<Message>, held: seq<Message>, msg: Message,
                                     d: nat, j: nat)
    requires est(msg.content) >= 0 && LeastDrop(est, max, head, held, d) && j < d
    ensures Total(est, head + (held + [msg])[j..]) > max
  {
    assert head + (held + [msg])[j..] == (head + held[j..]) + [msg];
    LongerOverBudget(est, max, head + held[j..], msg);
  }

  lemma {:induction false} OverLater(est: Estimator, max: int, head: seq<Message>, all: seq<Message>, d: nat, k: nat,
                                     j: nat)
    requires d <= j < d + k && d <= |all| && LeastDrop(est, max, head, all[d..], k)
    ensures j <= |all| && Total(est, head + all[j..]) > max
  {
    assert all[d..][j - d..] == all[j..];
  }

  lemma {:induction false} LongerOverBudget(est: Estimator, max: int, messages: seq<Message>, msg: Message)
    requires est(msg.content) >= 0 && Total(est, messages) > max
    ensures Total(est, messages + [msg]) > max
  {
    assert (messages + [msg])[..|messages|] == messages;
  }

  /** A system prompt, a query and replies. */
  ghost predicate IsConversation(history: seq<Message>) {
    |history| >= 2 && history[0].role.System? && history[1].role.User? && Replies(history[2..])
  }

  /** The first two messages and a suffix of the others, capped. */
  ghost predicate HoldsSuffix(est: Estimator, max: nat, history: seq<Message>, held: seq<Message>)
    requires |history| >= 2
  {
    exists stored, d: nat :: AllKeptOf(est, max, history[2..], stored) && EndsWith(history[..2], stored, d, held)
  }

  ghost predicate HoldsLongest(est: Estimator, max: nat, history: seq<Message>, held: seq<Message>)
    requires |history| >= 2
  {
    exists stored, d: nat :: AllKeptOf(est, max, history[2..], stored) && EndsWith(history[..2], stored, d, held)
                             && LeastDrop(est, max, history[..2], stored, d)
  }

  /** The head, and what was stored without its first d messages. */
  predicate EndsWith(head: seq<Message>, stored: seq<Message>, d: nat, held: seq<Message>) {
    d <= |stored| && held == head + stored[d..]
  }

  /** The messages, each whole or cut. */
  predicate AllKeptOf(est: Estimator, max: nat, messages: seq<Message>, stored: seq<Message>) {
    |stored| == |messages| && forall i :: 0 <= i < |messages| ==> KeptOf(est, max, messages[i], stored[i])
  }

  lemma {:induction false} CapAllKeeps(est: Estimator, max: nat, messages: seq<Message>)
    ensures AllKeptOf(est, max, messages, CapAll(est, max, messages))
  {
    forall i | 0 <= i < |messages| ensures KeptOf(est, max, messages[i], CapAll(est, max, messages)[i]) {
      CapKeeps(est, max, messages[i]);
    }
  }

  lemma {:induction false} ConversationHeld(est: Estimator, max: nat, history: seq<Message>)
    requires IsConversation(history)
    ensures var held := Feed(Appender(est, max), [], history);
            && HoldsSuffix(est, max, history, held)
            && (est(history[0].content) + est(history[1].content) <= max ==> Total(est, held) <= max)
            && ((forall s :: est(s) >= 0) ==> HoldsLongest(est, max, history, held))
  {
    var system, user, replies := history[0], history[1], history[2..];
    assert history[..2] == [system, user] && history == [system, user] + replies;
    var held, stored := Feed(Appender(est, max), [], history), CapAll(est, max, replies);
    CapAllKeeps(est, max, replies);
    var d := PromptBudget(est, max, system, user, replies);
    assert EndsWith(history[..2], stored, d, held);
    if forall s :: est(s) >= 0 {
      var l := WindowIsLongestSuffix(est, max, system, user, replies);
      assert EndsWith(history[..2], stored, l, held) && LeastDrop(est, max, history[..2], stored, l);
    }
  }

  // ---------- the memory ----------

  class TokenWindowMemory {
    const maxTokens: nat
    const estimator: Estimator
    var messages: seq<Message>
    /** Everything appended since the last Reset. */
    ghost var history: seq<Message>

    ghost predicate Valid()
      reads this
    {
      maxTokens > 0 && messages == Feed(Appender(estimator, maxTokens), [], history)
    }

    constructor (maxTokens: int, estimator: Estimator)
      ensures Valid() && messages == [] && history == []
      ensures this.maxTokens == if maxTokens <= 0 then 4000 else maxTokens
      ensures this.estimator == estimator
    {
      this.maxTokens := if maxTokens <= 0 then 4000 else maxTokens;
      this.estimator := estimator;
      messages := [];
      history := [];
    }

    method Add(msg: Message)
      requires Valid()
      modifies this
      ensures Valid() && history == old(history) + [msg]
      ensures messages == Append(estimator, maxTokens, old(messages), msg)
      ensures exists stored :: KeptOf(estimator, maxTokens, msg, stored)
                               && messages == Trim(estimator, maxTokens, old(messages) + [stored])
    {
      CapKeeps(estimator, maxTokens, msg);
      FeedStep(estimator, maxTokens, history, msg);
      history := history + [msg];
      var stored := msg;
      if msg.role == Tool {
        var maxSingle := maxTokens / 4;
        if maxSingle > 0 && estimator(msg.content) > maxSingle {
          var runes := msg.content;
          if |runes| > maxSingle {
            stored := msg.(content := runes[..maxSingle]);
          }
        }
      }
      messages := messages + [stored];
      TrimNow();
    }

    method TotalTokens() returns (total: int)
      ensures total == Total(estimator, messages)
    {
      total := 0;
      for i := 0 to |messages|
        invariant total == Total(estimator, messages[..i])
      {
        assert messages[..i + 1][..i] == messages[..i];
        total := total + estimator(messages[i].content);
      }
      assert messages[..|messages|] == messages;
    }

    /** The protected positions are kept as indices and renumbered; the result is
        that of evicting tagged messages. */
    method TrimNow()
      modifies this`messages
      ensures messages == Trim(estimator, maxTokens, old(messages))
    {
      var total := TotalTokens();
      if total <= maxTokens || |messages| <= 1 {
        return;
      }
      var protect := FindProtected();
      ghost var ts := Tag(messages);
      assert Untag(ts) == messages;
      var removed := true;
      while total > maxTokens && removed
        invariant messages == Untag(ts) && total == Total(estimator, messages)
        invariant protect == KeptPositions(ts)
        invariant Evict(estimator, maxTokens, ts) == Evict(estimator, maxTokens, Tag(old(messages)))
        invariant !removed ==> Evictable(ts) == 0
        decreases Evictable(ts), removed
      {
        ghost var before := ts;
        removed, protect, ts := RemoveFirst(protect, ts);
        if removed {
          assert Evict(estimator, maxTokens, before) == Evict(estimator, maxTokens, ts);
        }
        total := TotalTokens();
      }
    }

    /** One round: removes the first unprotected message and renumbers. */
    method RemoveFirst(protect: set<int>, ghost ts: seq<Tagged>)
      returns (removed: bool, renumbered: set<int>, ghost next: seq<Tagged>)
      requires messages == Untag(ts) && protect == KeptPositions(ts)
      modifies this`messages
      ensures (removed <==> Evictable(ts) > 0) && (!removed ==> next == ts)
      ensures next == DeleteFirst(ts, 1) && messages == Untag(next) && renumbered == KeptPositions(next)
      ensures Evictable(next) == if removed then Evictable(ts) - 1 else 0
    {
      EvictableAfter(ts, 1);
      for i := 0 to |messages|
        invariant forall j :: 0 <= j < i ==> ts[j].keep
        invariant messages == Untag(ts)
      {
        if i in protect {
          continue;
        }
        RemovalIsDeletion(ts, i);
        next := DeleteFirst(ts, 1);
        assert Untag(next) == messages[..i] + messages[i + 1..];
        messages := messages[..i] + messages[i + 1..];
        return true, Renumber(protect, i), next;
      }
      AllKept(ts);
      DeleteNothing(ts);
      return false, protect, ts;
    }

    method FindProtected() returns (protect: set<int>)
      ensures protect == KeptPositions(Tag(messages))
    {
      protect := {};
      if |messages| > 0 && messages[0].role == System {
        protect := {0};
      }
      var i := |messages| - 1;
      while i >= 0 && messages[i].role != User
        invariant -1 <= i < |messages|
        invariant LastUser(messages) <= i
      {
        i := i - 1;
      }
      if i >= 0 {
        protect := protect + {i};
      }
    }

    /** Of a conversation: the system prompt, the whole query and the most recent replies,
        within the budget if those two are; the longest such suffix, if no estimate is
        negative. */
    method Messages() returns (copied: seq<Message>)
      requires Valid()
      ensures copied == messages == Feed(Appender(estimator, maxTokens), [], history)
      ensures IsConversation(history) ==>
                && HoldsSuffix(estimator, maxTokens, history, copied)
                && (estimator(history[0].content) + estimator(history[1].content) <= maxTokens ==>
                      Total(estimator, copied) <= maxTokens)
                && ((forall s :: estimator(s) >= 0) ==> HoldsLongest(estimator, maxTokens, history, copied))
    {
      if IsConversation(history) {
        ConversationHeld(estimator, maxTokens, history);
      }
      return messages;
    }

    method Reset()
      requires Valid()
      modifies this
      ensures Valid() && messages == [] && history == []
    {
      messages := messages[..0];
      history := [];
    }
  }
}
