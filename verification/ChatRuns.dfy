/** Groups and messages over whole runs of the server. */
module ChatRuns {
  import opened Wrappers
  import opened Wire
  import opened Schema
  import opened Groups
  import opened GroupSafety
  import opened InboxSafety
  import opened GroupEffects
  import opened Dispatch

  lemma ChatStep(cfg: Config, db: Db, e: Event)
    requires Inv(db.chat)
    ensures var u := Step(cfg, db, e).db.chat; Inv(u) && Evolves(db.chat, u)
  {
    StepParts(cfg, db, e);
    hide Step, Handle, Inv;
    if e.Rpc? && e.call.Chat? {
      HandleIsSafe(db.chat, e.caller, e.call.chat, e.env);
    }
  }

  /** In every reachable state the chat invariant holds. */
  lemma {:induction false} ChatInvariant(cfg: Config, run: seq<Event>, n: nat)
    requires n <= |run|
    ensures Inv(At(cfg, run, n).chat)
  {
    hide Step;
    if n > 0 {
      hide Inv;
      ChatInvariant(cfg, run, n - 1);
      ChatStep(cfg, At(cfg, run, n - 1), run[n - 1]);
    }
  }

  /** The log only grows; groups persist with their owner, and content changes only with the version. */
  lemma {:induction false} ChatMovesForward(cfg: Config, run: seq<Event>, i: nat, j: nat)
    requires i <= j <= |run|
    ensures Evolves(At(cfg, run, i).chat, At(cfg, run, j).chat)
  {
    hide Step, Inv;
    if i < j {
      ChatMovesForward(cfg, run, i, j - 1);
      ChatInvariant(cfg, run, j - 1);
      ChatStep(cfg, At(cfg, run, j - 1), run[j - 1]);
      EvolvesTransitive(At(cfg, run, i).chat, At(cfg, run, j - 1).chat, At(cfg, run, j).chat);
    }
  }

  // ---- the version is a snapshot tag ----

  /** Two states that show the same version of a group show the same rows, policy and profile. */
  lemma VersionTagsContent(cfg: Config, run: seq<Event>, i: nat, j: nat, group: string)
    requires i <= |run| && j <= |run|
    requires var t, u := At(cfg, run, i).chat, At(cfg, run, j).chat;
             group in t.groups && group in u.groups && t.groups[group].version == u.groups[group].version
    ensures SameContent(At(cfg, run, i).chat, At(cfg, run, j).chat, group)
  {
    if i <= j {
      ChatMovesForward(cfg, run, i, j);
      assert GroupEvolves(At(cfg, run, i).chat, At(cfg, run, j).chat, group);
    } else {
      ChatMovesForward(cfg, run, j, i);
      assert GroupEvolves(At(cfg, run, j).chat, At(cfg, run, i).chat, group);
    }
  }

  ghost predicate AsksInfo(cfg: Config, run: seq<Event>, i: nat, c: ChatCall) {
    i < |run| && run[i].Rpc? && run[i].call == Chat(c) && c.GetInfo? && Executed(cfg, run, i)
  }

  /** Two executed group.get_info calls with equal version and flags answer exactly alike. */
  lemma SameVersionSameInfo(cfg: Config, run: seq<Event>, i: nat, j: nat, c: ChatCall, a: Response, b: Response)
    requires AsksInfo(cfg, run, i, c) && AsksInfo(cfg, run, j, c)
    requires Succeeded(cfg, run, i, a) && Succeeded(cfg, run, j, b)
    requires a.GroupInfo? && b.GroupInfo? && a.version == b.version
    ensures a == b
  {
    var t, u := At(cfg, run, i).chat, At(cfg, run, j).chat;
    assert Info(t, c) == Ok(a) && Info(u, c) == Ok(b);
    VersionTagsContent(cfg, run, i, j, c.group);
    SameRowsSameList(t, u, c.group);
  }

  lemma SameRowsSameList(t: ChatTables, u: ChatTables, group: string)
    requires group in t.groups && group in u.groups && SameContent(t, u, group)
    ensures MemberList(t, group) == MemberList(u, group)
  {
    forall k: MemberKey | k.group == group
      ensures k in t.members <==> k in u.members
      ensures k in t.members ==> t.members[k] == u.members[k]
    {}
    assert (set k | k in t.members && k.group == group && t.members[k].status == "active" :: k.did)
        == (set k | k in u.members && k.group == group && u.members[k].status == "active" :: k.did);
    var dids := ActiveDids(t, group);
    assert dids == ActiveDids(u, group);
    forall i | 0 <= i < |dids|
      ensures MemberList(t, group)[i] == MemberList(u, group)[i]
    {
      assert dids[i] in dids;
    }
  }

  ghost predicate RunsChatCall(cfg: Config, run: seq<Event>, i: nat)
    requires i < |run|
  {
    run[i].Rpc? && run[i].call.Chat? && Executed(cfg, run, i)
  }

  lemma ChatAfter(cfg: Config, run: seq<Event>, i: nat)
    requires i < |run|
    ensures var t, u := At(cfg, run, i).chat, At(cfg, run, i + 1).chat;
            if RunsChatCall(cfg, run, i)
            then u == Handle(t, run[i].caller, run[i].call.chat, run[i].env).tables
                 && ReplyAt(cfg, run, i) == RpcReply(Handle(t, run[i].caller, run[i].call.chat, run[i].env).reply)
            else u == t
  {
    hide Handle;
    StepParts(cfg, At(cfg, run, i), run[i]);
  }

  ghost function BumpsBefore(cfg: Config, run: seq<Event>, n: nat, group: string): nat
    requires n <= |run|
  {
    if n == 0 then 0
    else
      var e, bumps := run[n - 1], BumpsBefore(cfg, run, n - 1, group);
      if RunsChatCall(cfg, run, n - 1) && Bumps(At(cfg, run, n - 1).chat, e.caller, e.call.chat, e.env, group)
          then bumps + 1 else bumps
  }

  /** A group's version counts its executed changes, no more and no less. */
  lemma {:induction false} VersionCountsChanges(cfg: Config, run: seq<Event>, n: nat, group: string)
    requires n <= |run|
    ensures Version(At(cfg, run, n).chat, group) == BumpsBefore(cfg, run, n, group)
  {
    hide Step, Bumps, Handle;
    if n > 0 {
      VersionCountsChanges(cfg, run, n - 1, group);
      ChatInvariant(cfg, run, n - 1);
      ChatAfter(cfg, run, n - 1);
      if RunsChatCall(cfg, run, n - 1) {
        VersionStep(At(cfg, run, n - 1).chat, run[n - 1].caller, run[n - 1].call.chat, run[n - 1].env, group);
      }
    }
  }

  /** If a group's rows, policy or profile differ between i and j, an authorised request ran in between. */
  lemma {:induction false} ContentChangeIsAuthorised(cfg: Config, run: seq<Event>, i: nat, j: nat, group: string)
      returns (k: nat)
    requires i <= j <= |run| && group in At(cfg, run, i).chat.groups && group in At(cfg, run, j).chat.groups
    requires !SameContent(At(cfg, run, i).chat, At(cfg, run, j).chat, group)
    ensures i <= k < j && RunsChatCall(cfg, run, k) && !IsError(ReplyAt(cfg, run, k))
    ensures group in At(cfg, run, k).chat.groups &&
              Authorised(At(cfg, run, k).chat, run[k].caller, run[k].call.chat, group)
  {
    hide Step, Handle, Authorised, Inv;
    ChatMovesForward(cfg, run, i, j - 1);
    GroupStays(At(cfg, run, i).chat, At(cfg, run, j - 1).chat, group);
    if SameContent(At(cfg, run, i).chat, At(cfg, run, j - 1).chat, group) {
      k := j - 1;
      ChatInvariant(cfg, run, k);
      ChatAfter(cfg, run, k);
      SameContentTransitive(At(cfg, run, i).chat, At(cfg, run, k).chat, At(cfg, run, j).chat, group);
      ChangeIsAuthorised(At(cfg, run, k).chat, run[k].caller, run[k].call.chat, run[k].env, group);
    } else {
      k := ContentChangeIsAuthorised(cfg, run, i, j - 1, group);
    }
  }

  lemma SameContentTransitive(t: ChatTables, u: ChatTables, v: ChatTables, group: string)
    requires group in t.groups && group in u.groups && group in v.groups && SameContent(t, u, group)
    ensures SameContent(u, v, group) ==> SameContent(t, v, group)
  {}

  // ---- acknowledged order is log order ----

  /** The server_seq of the row with a message id. */
  ghost function ServerSeq(messages: seq<Message>, messageId: string): nat
    requires MessageIdTaken(messages, messageId)
  {
    var i :| 0 <= i < |messages| && messages[i].messageId == messageId;
    messages[i].id
  }

  lemma ExecutedSend(cfg: Config, run: seq<Event>, k: nat, ack: Response)
    requires k < |run| && Executed(cfg, run, k) && Succeeded(cfg, run, k, ack) && ack.SendAck?
    ensures Acknowledges(At(cfg, run, k).chat, At(cfg, run, k + 1).chat, ack)
  {
    var e := run[k];
    assert e.Rpc? && e.call.Chat?;
    AcceptedSend(At(cfg, run, k).chat, e.caller, e.call.chat, e.env);
  }

  /** The row of an acknowledged send sits where it was appended. */
  lemma SendKeepsPlace(cfg: Config, run: seq<Event>, k: nat, ack: Response)
    requires k < |run| && Executed(cfg, run, k) && Succeeded(cfg, run, k, ack) && ack.SendAck?
    ensures var log := At(cfg, run, |run|).chat.messages;
            MessageIdTaken(log, ack.messageId) && ServerSeq(log, ack.messageId) == |At(cfg, run, k).chat.messages| + 1
  {
    ExecutedSend(cfg, run, k, ack);
    ChatMovesForward(cfg, run, k + 1, |run|);
    ChatInvariant(cfg, run, |run|);
    var log, at := At(cfg, run, |run|).chat.messages, |At(cfg, run, k).chat.messages|;
    assert log[at].messageId == ack.messageId;
  }

  lemma LaterSendIsLarger(cfg: Config, run: seq<Event>, k: nat, l: nat, a: Response, b: Response)
    requires k < l < |run| && Executed(cfg, run, k) && Executed(cfg, run, l)
    requires Succeeded(cfg, run, k, a) && Succeeded(cfg, run, l, b) && a.SendAck? && b.SendAck? && a.group == b.group
    ensures a.eventSeq < b.eventSeq
    ensures |At(cfg, run, k).chat.messages| < |At(cfg, run, l).chat.messages|
  {
    hide Step;
    ExecutedSend(cfg, run, k, a);
    ExecutedSend(cfg, run, l, b);
    ChatMovesForward(cfg, run, k + 1, l);
    AcksGrow(At(cfg, run, k).chat, At(cfg, run, k + 1).chat, At(cfg, run, l).chat, At(cfg, run, l + 1).chat, a, b);
  }

  lemma AcksGrow(t: ChatTables, t': ChatTables, u: ChatTables, u': ChatTables, a: Response, b: Response)
    requires a.SendAck? && b.SendAck? && a.group == b.group
    requires Acknowledges(t, t', a) && Evolves(t', u) && Acknowledges(u, u', b)
    ensures a.eventSeq < b.eventSeq && |t.messages| < |u.messages|
  {
    assert GroupEvolves(t', u, a.group);
  }

  /** For any two acknowledged sends to one group, plaintext or cipher, answered afresh or from the
      cache: the acknowledged numbers and the server_seq of their rows compare the same way. */
  lemma AckOrderIsLogOrder(cfg: Config, run: seq<Event>, i: nat, j: nat, a: Response, b: Response)
    requires i < |run| && j < |run| && Succeeded(cfg, run, i, a) && Succeeded(cfg, run, j, b)
    requires a.SendAck? && b.SendAck? && a.group == b.group
    ensures var log := At(cfg, run, |run|).chat.messages;
            && MessageIdTaken(log, a.messageId) && MessageIdTaken(log, b.messageId)
            && (a.eventSeq < b.eventSeq <==> ServerSeq(log, a.messageId) < ServerSeq(log, b.messageId))
            && (a.eventSeq == b.eventSeq <==> a.messageId == b.messageId)
  {
    hide Step, At, Executed, Succeeded, ServerSeq;
    var k := AnswerOrigin(cfg, run, i, a);
    var l := AnswerOrigin(cfg, run, j, b);
    SendKeepsPlace(cfg, run, k, a);
    SendKeepsPlace(cfg, run, l, b);
    if k < l {
      LaterSendIsLarger(cfg, run, k, l, a, b);
    } else if l < k {
      LaterSendIsLarger(cfg, run, l, k, b, a);
    }
  }

  // ---- inbox ----

  /** Event i is an executed msg.inbox of the caller, answered with these items. */
  ghost predicate Polls(cfg: Config, run: seq<Event>, i: nat, caller: string, limit: nat, items: seq<InboxItem>) {
    && i < |run| && run[i].Rpc? && run[i].caller == caller && run[i].call == Chat(Inbox(limit))
    && Executed(cfg, run, i) && Succeeded(cfg, run, i, InboxPage(items))
  }

  function ItemOf(m: Message): InboxItem
    requires m.meta.Some? && m.body.Some?
  {
    InboxItem(m.id, m.meta.value, m.body.value)
  }

  /** The answer is the page, row by row. */
  lemma PollIsPage(cfg: Config, run: seq<Event>, i: nat, caller: string, limit: nat, items: seq<InboxItem>)
    requires Polls(cfg, run, i, caller, limit, items)
    ensures Inv(At(cfg, run, i).chat)
    ensures var page := Page(At(cfg, run, i).chat, caller, limit);
            && |items| == |page|
            && forall j | 0 <= j < |page| ::
                 page[j] in At(cfg, run, i).chat.messages && page[j].meta.Some? && page[j].body.Some?
                 && items[j] == ItemOf(page[j])
  {
    ChatInvariant(cfg, run, i);
    PageIsNewestVisible(At(cfg, run, i).chat, caller, limit);
    NoRowSkipped(Page(At(cfg, run, i).chat, caller, limit));
  }

  /** msg.inbox answers with min(limit, visible) items in strictly decreasing server_seq, each a visible
      row as stored; a visible row is left out only when the answer is full of newer ones. */
  lemma PollReturnsNewest(cfg: Config, run: seq<Event>, i: nat, caller: string, limit: nat, items: seq<InboxItem>)
    requires Polls(cfg, run, i, caller, limit, items)
    ensures var t := At(cfg, run, i).chat;
            && |items| == Min(limit, |VisibleRows(t.members, caller, t.messages, 0, |t.messages|)|)
            && (forall j, k | 0 <= j < k < |items| :: items[j].serverSeq > items[k].serverSeq)
            && (forall j | 0 <= j < |items| :: exists m | m in t.messages ::
                  m.meta.Some? && m.body.Some? && Visible(t.members, caller, m) && items[j] == ItemOf(m))
            && (forall m | m in t.messages && Visible(t.members, caller, m) :: m.meta.Some? && m.body.Some? &&
                  (ItemOf(m) in items || (|items| == limit &&
                     forall j | 0 <= j < |items| :: m.id < items[j].serverSeq)))
  {
    var t := At(cfg, run, i).chat;
    PollIsPage(cfg, run, i, caller, limit, items);
    PageIsNewestVisible(t, caller, limit);
    var page := Page(t, caller, limit);
    forall m | m in t.messages && Visible(t.members, caller, m)
      ensures m.meta.Some? && m.body.Some?
      ensures ItemOf(m) in items || (|items| == limit && forall j | 0 <= j < |items| :: m.id < items[j].serverSeq)
    {
      var n :| 0 <= n < |t.messages| && t.messages[n] == m;
      if m in page {
        var j :| 0 <= j < |page| && page[j] == m;
        assert items[j] == ItemOf(m);
      }
    }
  }

  /** Between two polls with the same limit, the caller's groups unchanged and at most limit new visible
      rows: every visible row from the oldest item of the first answer on is in one of the answers. */
  lemma PollsHaveNoGap(cfg: Config, run: seq<Event>, i: nat, j: nat, caller: string, limit: nat,
                       first: seq<InboxItem>, second: seq<InboxItem>, m: Message)
    requires i <= j && 1 <= limit && Polls(cfg, run, i, caller, limit, first)
              && Polls(cfg, run, j, caller, limit, second)
    requires var t, u := At(cfg, run, i).chat, At(cfg, run, j).chat;
             && GroupsOf(t, caller) == GroupsOf(u, caller)
             && |t.messages| <= |u.messages|
             && |VisibleRows(u.members, caller, u.messages, |t.messages|, |u.messages|)| <= limit
             && m in u.messages && Visible(u.members, caller, m)
    requires first == [] || m.id >= first[|first| - 1].serverSeq
    ensures m.meta.Some? && m.body.Some? && (ItemOf(m) in first || ItemOf(m) in second)
  {
    hide Step, At, Page, Inv, Visible;
    var t, u := At(cfg, run, i).chat, At(cfg, run, j).chat;
    PollIsPage(cfg, run, i, caller, limit, first);
    PollIsPage(cfg, run, j, caller, limit, second);
    ChatMovesForward(cfg, run, i, j);
    var n :| 0 <= n < |u.messages| && u.messages[n] == m;
    PollingHasNoGap(t, u, caller, limit, n);
    if m in Page(t, caller, limit) {
      var k :| 0 <= k < |Page(t, caller, limit)| && Page(t, caller, limit)[k] == m;
      assert first[k] == ItemOf(m);
    } else {
      var k :| 0 <= k < |Page(u, caller, limit)| && Page(u, caller, limit)[k] == m;
      assert second[k] == ItemOf(m);
    }
  }

  // ---- acknowledged order is inbox order ----

  /** Event k is an executed send, to a group or to a peer, acknowledged with ack. */
  ghost predicate Sends(cfg: Config, run: seq<Event>, k: nat, ack: Response) {
    && k < |run| && RunsChatCall(cfg, run, k) && Succeeded(cfg, run, k, ack)
    && AckFor(run[k].call.chat, ack)
  }

  /** The item msg.inbox shows for the send executed at event k. */
  ghost function SentItem(cfg: Config, run: seq<Event>, k: nat, ack: Response): InboxItem
    requires Sends(cfg, run, k, ack)
  {
    InboxItem(|At(cfg, run, k).chat.messages| + 1, run[k].call.chat.send.meta, run[k].call.chat.send.body)
  }

  lemma AckIsOfSend(cfg: Config, run: seq<Event>, i: nat, ack: Response) returns (k: nat)
    requires i < |run| && Succeeded(cfg, run, i, ack) && (ack.SendAck? || ack.DirectAck?)
    ensures k <= i && Sends(cfg, run, k, ack)
  {
    hide Step, Handle;
    k := AnswerOrigin(cfg, run, i, ack);
    AckIsOfChat(cfg, At(cfg, run, k), run[k], ack);
    AckNamesSend(At(cfg, run, k).chat, run[k].caller, run[k].call.chat, run[k].env, ack);
  }

  /** Only chat requests answer with an acknowledgement. */
  lemma AckIsOfChat(cfg: Config, db: Db, e: Event, ack: Response)
    requires e.Rpc? && !Cached(db, e) && Step(cfg, db, e).reply == RpcReply(Ok(ack)) && (ack.SendAck? || ack.DirectAck?)
    ensures e.call.Chat? && Handle(db.chat, e.caller, e.call.chat, e.env).reply == Ok(ack)
  {
    hide Handle;
  }

  /** A sent row keeps its place for good; a peer's is visible to the peer alone, a group's to whoever is a member. */
  lemma SentRowStays(cfg: Config, run: seq<Event>, k: nat, n: nat, ack: Response)
    requires k < n <= |run| && Sends(cfg, run, k, ack)
    ensures var t, at := At(cfg, run, n).chat, |At(cfg, run, k).chat.messages|;
            && at < |t.messages|
            && var row := t.messages[at];
               && row.messageId == ack.messageId && row.meta.Some? && row.body.Some?
               && ItemOf(row) == SentItem(cfg, run, k, ack)
               && forall did :: Visible(t.members, did, row) <==>
                                  if ack.DirectAck? then did == ack.target else IsMember(t, ack.group, did)
  {
    hide Step, At, Handle;
    ChatInvariant(cfg, run, k);
    ChatInvariant(cfg, run, n);
    ChatAfter(cfg, run, k);
    SendIsDelivered(At(cfg, run, k).chat, run[k].caller, run[k].call.chat, run[k].env);
    ChatMovesForward(cfg, run, k + 1, n);
    RowOutlives(At(cfg, run, k + 1).chat, At(cfg, run, n).chat, |At(cfg, run, k).chat.messages|);
  }

  lemma RowOutlives(t: ChatTables, u: ChatTables, at: nat)
    requires Evolves(t, u) && at < |t.messages|
    ensures at < |u.messages| && u.messages[at] == t.messages[at]
  {}

  /** The item is the row with this message id. */
  ghost predicate Shows(messages: seq<Message>, item: InboxItem, messageId: string) {
    exists m | m in messages && m.messageId == messageId :: m.meta.Some? && m.body.Some? && item == ItemOf(m)
  }

  /** In any inbox, whenever it is read, the item for an acknowledged message is the one sent at the
      event the acknowledgement stems from: its server_seq, its meta and its body. */
  lemma ShownItemWasSent(cfg: Config, run: seq<Event>, i: nat, ack: Response, p: nat, item: InboxItem) returns (k: nat)
    requires i < |run| && p <= |run| && Succeeded(cfg, run, i, ack) && (ack.SendAck? || ack.DirectAck?)
    requires Shows(At(cfg, run, p).chat.messages, item, ack.messageId)
    ensures k <= i && Sends(cfg, run, k, ack) && item == SentItem(cfg, run, k, ack)
  {
    hide Step, At, Sends;
    k := AckIsOfSend(cfg, run, i, ack);
    SentRowStays(cfg, run, k, |run|, ack);
    ChatMovesForward(cfg, run, p, |run|);
    ChatInvariant(cfg, run, |run|);
    var early, late := At(cfg, run, p).chat.messages, At(cfg, run, |run|).chat.messages;
    var m :| m in early && m.messageId == ack.messageId && m.meta.Some? && m.body.Some? && item == ItemOf(m);
    var at :| 0 <= at < |early| && early[at] == m;
    assert late[at] == m;
  }

  /** In every poll of every caller, the items of two sends acknowledged for one group, plaintext or
      cipher, stand in the order of their acknowledged numbers, the newer first. */
  lemma AckOrderIsInboxOrder(cfg: Config, run: seq<Event>, i: nat, j: nat, a: Response, b: Response,
                             p: nat, caller: string, limit: nat, items: seq<InboxItem>, x: nat, y: nat)
    requires i < |run| && j < |run| && Succeeded(cfg, run, i, a) && Succeeded(cfg, run, j, b)
    requires a.SendAck? && b.SendAck? && a.group == b.group
    requires Polls(cfg, run, p, caller, limit, items) && x < |items| && y < |items|
    requires Shows(At(cfg, run, p).chat.messages, items[x], a.messageId)
    requires Shows(At(cfg, run, p).chat.messages, items[y], b.messageId)
    ensures a.eventSeq < b.eventSeq <==> y < x
    ensures a.eventSeq == b.eventSeq <==> x == y
  {
    hide Step, At, Sends, Shows, Succeeded;
    PollReturnsNewest(cfg, run, p, caller, limit, items);
    var k := ShownItemWasSent(cfg, run, i, a, p, items[x]);
    var l := ShownItemWasSent(cfg, run, j, b, p, items[y]);
    SendsCompare(cfg, run, k, l, a, b);
  }

  lemma SendsCompare(cfg: Config, run: seq<Event>, k: nat, l: nat, a: Response, b: Response)
    requires Sends(cfg, run, k, a) && Sends(cfg, run, l, b) && a.SendAck? && b.SendAck? && a.group == b.group
    ensures a.eventSeq < b.eventSeq <==> SentItem(cfg, run, k, a).serverSeq < SentItem(cfg, run, l, b).serverSeq
    ensures a.eventSeq == b.eventSeq <==> SentItem(cfg, run, k, a).serverSeq == SentItem(cfg, run, l, b).serverSeq
  {
    hide Step, At;
    if k < l {
      LaterSendIsLarger(cfg, run, k, l, a, b);
    } else if l < k {
      LaterSendIsLarger(cfg, run, l, k, b, a);
    }
  }

  /** After an acknowledgement, fresh or repeated, every later poll by a current member, or by the peer of
      a direct message, holds the sent item unless it is full of newer ones. */
  lemma AckedSendReachesInbox(cfg: Config, run: seq<Event>, i: nat, ack: Response,
                              p: nat, caller: string, limit: nat, items: seq<InboxItem>) returns (k: nat)
    requires i < p && Polls(cfg, run, p, caller, limit, items)
    requires Succeeded(cfg, run, i, ack) && (ack.SendAck? || ack.DirectAck?)
    requires if ack.DirectAck? then caller == ack.target else IsMember(At(cfg, run, p).chat, ack.group, caller)
    ensures k <= i && Sends(cfg, run, k, ack)
    ensures var item := SentItem(cfg, run, k, ack);
            item in items || (|items| == limit && forall j | 0 <= j < |items| :: item.serverSeq < items[j].serverSeq)
  {
    hide Step, At, Sends;
    k := AckIsOfSend(cfg, run, i, ack);
    SentRowStays(cfg, run, k, p, ack);
    PollReturnsNewest(cfg, run, p, caller, limit, items);
    var t := At(cfg, run, p).chat;
    var row := t.messages[|At(cfg, run, k).chat.messages|];
    assert row in t.messages && Visible(t.members, caller, row);
  }

  // ---- conservation of sequence numbers ----

  ghost predicate WastesNumber(cfg: Config, run: seq<Event>, i: nat, group: string)
    requires i < |run|
  {
    && run[i].Rpc? && run[i].call.Chat? && Executed(cfg, run, i)
    && DuplicateSend(At(cfg, run, i).chat, run[i].caller, run[i].call.chat, run[i].env)
    && run[i].call.chat.send.group == group
  }

  ghost function WastedNumbers(cfg: Config, run: seq<Event>, n: nat, group: string): nat
    requires n <= |run|
  {
    if n == 0 then 0
    else WastedNumbers(cfg, run, n - 1, group) + if WastesNumber(cfg, run, n - 1, group) then 1 else 0
  }

  /** A group's event sequence is its numbered rows plus its past sends that failed on a duplicate id. */
  lemma {:induction false} SequenceIsConserved(cfg: Config, run: seq<Event>, n: nat, group: string)
    requires n <= |run|
    ensures var t := At(cfg, run, n).chat;
            EventSeq(t, group) == NumberedRows(t.messages, group) + WastedNumbers(cfg, run, n, group)
  {
    hide Step;
    if n > 0 {
      hide At, Inv, WastesNumber;
      SequenceIsConserved(cfg, run, n - 1, group);
      ChatInvariant(cfg, run, n - 1);
      SequenceAfterStep(cfg, run, n - 1, group);
    }
  }

  lemma SequenceAfterStep(cfg: Config, run: seq<Event>, i: nat, group: string)
    requires i < |run| && Inv(At(cfg, run, i).chat)
    ensures CounterMoves(At(cfg, run, i).chat, At(cfg, run, i + 1).chat, group,
                         if WastesNumber(cfg, run, i, group) then 1 else 0)
  {
    var db, e := At(cfg, run, i), run[i];
    if e.Rpc? && e.call.Chat? && Executed(cfg, run, i) {
      SequenceStep(db.chat, e.caller, e.call.chat, e.env, group);
      assert At(cfg, run, i + 1).chat == Handle(db.chat, e.caller, e.call.chat, e.env).tables;
    } else {
      assert At(cfg, run, i + 1).chat == db.chat;
    }
  }

  // ---- owners and privileges ----

  ghost predicate OwnerPresent(t: ChatTables, group: string)
    requires group in t.groups
  {
    MemberKey(group, t.groups[group].owner) in t.members
  }

  /** The event that takes the owner's row away: its own leave, or a rebind to another DID, which needs
      nothing from the owner. */
  ghost predicate OwnerDeparts(t: ChatTables, e: Event, group: string)
    requires group in t.groups
  {
    e.Rpc? && e.call.Chat? &&
    var c, owner := e.call.chat, t.groups[group].owner;
    || (c.Leave? && c.group == group && Caller(e.caller, c.sender) == owner)
    || (c.Rebind? && RebindTarget(t, c) == Some(group) && c.previous == owner && c.next != owner)
  }

  /** If the owner's row is there at i and gone at j, then in between the owner left or was rebound. */
  lemma {:induction false} OwnerGoesByLeaveOrRebind(cfg: Config, run: seq<Event>, i: nat, j: nat, group: string)
      returns (k: nat)
    requires i <= j <= |run| && group in At(cfg, run, i).chat.groups && OwnerPresent(At(cfg, run, i).chat, group)
    requires group in At(cfg, run, j).chat.groups && !OwnerPresent(At(cfg, run, j).chat, group)
    ensures i <= k < j && group in At(cfg, run, k).chat.groups
    ensures Executed(cfg, run, k) && OwnerDeparts(At(cfg, run, k).chat, run[k], group)
  {
    hide Step, Inv, OwnerPresent, OwnerDeparts;
    ChatMovesForward(cfg, run, i, j - 1);
    assert GroupEvolves(At(cfg, run, i).chat, At(cfg, run, j - 1).chat, group);
    if OwnerPresent(At(cfg, run, j - 1).chat, group) {
      k := j - 1;
      ChatInvariant(cfg, run, k);
      OwnerStep(cfg, At(cfg, run, k), run[k], group);
    } else {
      k := OwnerGoesByLeaveOrRebind(cfg, run, i, j - 1, group);
    }
  }

  lemma OwnerStep(cfg: Config, db: Db, e: Event, group: string)
    requires Inv(db.chat) && group in db.chat.groups && OwnerPresent(db.chat, group)
    requires var u := Step(cfg, db, e).db.chat; group in u.groups && !OwnerPresent(u, group)
    ensures !Cached(db, e) && OwnerDeparts(db.chat, e, group)
  {
    ChatStep(cfg, db, e);
    StepParts(cfg, db, e);
    hide Step, Handle;
    assert GroupEvolves(db.chat, Step(cfg, db, e).db.chat, group);
    OwnerRowKept(db.chat, e.caller, e.call.chat, e.env, group);
  }

  ghost function Privileged(t: ChatTables, group: string): nat {
    |WithRole(t.members, group, PRIVILEGED)|
  }

  /** If a group has more owners and admins at j than at i, a permitted caller added one in between. */
  lemma {:induction false} PrivilegeIsGranted(cfg: Config, run: seq<Event>, i: nat, j: nat, group: string)
      returns (k: nat)
    requires i <= j <= |run| && group in At(cfg, run, i).chat.groups
    requires Privileged(At(cfg, run, j).chat, group) > Privileged(At(cfg, run, i).chat, group)
    ensures i <= k < j && Executed(cfg, run, k) && run[k].Rpc? && run[k].call.Chat?
    ensures run[k].call.chat.Add? && run[k].call.chat.group == group
    ensures Permitted(At(cfg, run, k).chat, group, run[k].caller, "add")
  {
    hide Step, Inv, Permitted, Privileged;
    if Privileged(At(cfg, run, j - 1).chat, group) > Privileged(At(cfg, run, i).chat, group) {
      k := PrivilegeIsGranted(cfg, run, i, j - 1, group);
    } else {
      k := j - 1;
      ChatInvariant(cfg, run, k);
      ChatMovesForward(cfg, run, i, k);
      GroupStays(At(cfg, run, i).chat, At(cfg, run, k).chat, group);
      PrivilegeStep(cfg, At(cfg, run, k), run[k], group);
    }
  }

  lemma GroupStays(t: ChatTables, u: ChatTables, group: string)
    requires Evolves(t, u) && group in t.groups
    ensures group in u.groups
  {
    assert GroupEvolves(t, u, group);
  }

  lemma PrivilegeStep(cfg: Config, db: Db, e: Event, group: string)
    requires Inv(db.chat) && group in db.chat.groups
    requires Privileged(Step(cfg, db, e).db.chat, group) > Privileged(db.chat, group)
    ensures !Cached(db, e) && e.Rpc? && e.call.Chat? && e.call.chat.Add? && e.call.chat.group == group
    ensures Permitted(db.chat, group, e.caller, "add")
  {
    assert e.Rpc? && e.call.Chat? && !Cached(db, e);
    PrivilegeGrowsOnlyByAdd(db.chat, e.caller, e.call.chat, e.env, group);
  }

  ghost predicate Holds(t: ChatTables, group: string, did: string) {
    MemberRole(t, group, did) in PRIVILEGED
  }

  /** A DID that is owner or admin at j and was not at i was made so in between, and stayed so: by a
      permitted group.add that names it, or by a rebind onto it from a row that held the role. */
  lemma {:induction false} HolderWasMade(cfg: Config, run: seq<Event>, i: nat, j: nat, group: string, did: string)
      returns (k: nat)
    requires i <= j <= |run| && group in At(cfg, run, i).chat.groups
    requires !Holds(At(cfg, run, i).chat, group, did) && Holds(At(cfg, run, j).chat, group, did)
    ensures i <= k < j && RunsChatCall(cfg, run, k) && !IsError(ReplyAt(cfg, run, k))
    ensures MakesHolder(At(cfg, run, k).chat, run[k].caller, run[k].call.chat, run[k].env, group, did)
    ensures forall n | k < n <= j :: Holds(At(cfg, run, n).chat, group, did)
  {
    hide Step, At, Handle, Inv, Holds, MakesHolder;
    if Holds(At(cfg, run, j - 1).chat, group, did) {
      k := HolderWasMade(cfg, run, i, j - 1, group, did);
    } else {
      k := j - 1;
      ChatInvariant(cfg, run, k);
      ChatMovesForward(cfg, run, i, k);
      GroupStays(At(cfg, run, i).chat, At(cfg, run, k).chat, group);
      ChatAfter(cfg, run, k);
      HolderStep(At(cfg, run, k).chat, run[k].caller, run[k].call.chat, run[k].env, group, did);
    }
  }

  lemma HolderStep(t: ChatTables, caller: string, c: ChatCall, env: Env, group: string, did: string)
    requires Inv(t) && group in t.groups
    requires !Holds(t, group, did) && Holds(Handle(t, caller, c, env).tables, group, did)
    ensures Handle(t, caller, c, env).reply.Ok? && MakesHolder(t, caller, c, env, group, did)
  {
    NewHolderIsMade(t, caller, c, env, group, did);
  }

  // ---- errors ----

  ghost predicate IsDuplicateSend(db: Db, e: Event) {
    e.Rpc? && !Cached(db, e) && e.call.Chat? && DuplicateSend(db.chat, e.caller, e.call.chat, e.env)
  }

  /** Without transactions, an error still leaves every table as it was, except that a duplicate
      send advances exactly one group's event sequence by one. */
  lemma ErrorsLeaveTables(cfg: Config, run: seq<Event>, i: nat)
    requires i < |run| && IsError(ReplyAt(cfg, run, i))
    ensures var db, e := At(cfg, run, i), run[i];
            At(cfg, run, i + 1) ==
              if IsDuplicateSend(db, e) then db.(chat := SeqAdvanced(db.chat, e.call.chat.send.group)) else db
  {
    ChatInvariant(cfg, run, i);
    var db, e := At(cfg, run, i), run[i];
    if e.Rpc? && e.call.Chat? {
      FailureIsAtomic(db.chat, e.caller, e.call.chat, e.env);
    }
  }
}
