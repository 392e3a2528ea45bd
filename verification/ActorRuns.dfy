/** On whose behalf things happen, over whole runs: who sent a message, who took or gave a member row, and
    where the documents get_info shows come from. */
module ActorRuns {
  import opened Wrappers
  import opened Wire
  import opened Schema
  import opened Envelope
  import opened Groups
  import opened GroupSafety
  import opened GroupOutcomes
  import opened Dispatch
  import opened ChatRuns

  // ---- messages ----

  /** The request appended the row: for its authenticated caller, and to a group only as its member. */
  ghost predicate SentAs(t: ChatTables, caller: string, c: ChatCall, env: Env, row: Message) {
    match c
    case SendPlain(s, _) =>
      && row.sender == (if caller != "" then caller else s.sender)
      && row.group == Some(s.group) && MemberKey(s.group, row.sender) in t.members
      && row.meta == Some(s.meta) && row.body == Some(s.body)
    case SendCipher(s, _, _, _) =>
      && row.sender == (if caller != "" then caller else s.sender)
      && row.group == Some(s.group) && MemberKey(s.group, row.sender) in t.members
      && row.meta == Some(s.meta) && row.body == Some(s.body)
    case SendDirect(s, _, _) =>
      && row.sender == (if caller != "" then caller else s.sender)
      && row.recipient == Some(s.group) && row.group == None
      && row.meta == Some(s.meta) && row.body == Some(s.body)
    case SendNotice(_, target, sender, group, meta, body) =>
      && row.kind == Notice && row.sender == sender && row.recipient == Some(target) && target != ""
      && row.group == Some(group) && row.meta == Some(meta) && row.body == Some(body)
    case _ => false
  }

  lemma RowIsSentAs(t: ChatTables, caller: string, c: ChatCall, env: Env)
    requires Inv(t) && Handle(t, caller, c, env).tables.messages != t.messages
    ensures var u := Handle(t, caller, c, env).tables;
            && |u.messages| == |t.messages| + 1
            && SentAs(t, caller, c, env, u.messages[|t.messages|])
  {
    hide Handle, IdFree, DuplicateSend, CounterMoves, NumberedRows, Inv;
    if c.SendPlain? {
      FailureIsAtomic(t, caller, c, env);
      PlainOutcome(t, caller, c, env);
    } else if c.SendCipher? {
      FailureIsAtomic(t, caller, c, env);
      CipherOutcome(t, caller, c, env);
    } else if c.SendDirect? {
      DirectOutcome(t, caller, c, env);
    } else if c.SendNotice? {
      NoticeOutcome(t, caller, c, env);
    } else {
      QuietStep(t, caller, c, env, "");
    }
  }

  /** Every stored message, at every time, was appended by an executed request on its sender's behalf. */
  lemma {:induction false} MessageWasSent(cfg: Config, run: seq<Event>, n: nat, at: nat) returns (k: nat)
    requires n <= |run| && at < |At(cfg, run, n).chat.messages|
    ensures k < n && RunsChatCall(cfg, run, k) && |At(cfg, run, k).chat.messages| == at
    ensures SentAs(At(cfg, run, k).chat, run[k].caller, run[k].call.chat, run[k].env, At(cfg, run, n).chat.messages[at])
  {
    hide Step, Handle, Inv, SentAs;
    ChatMovesForward(cfg, run, n - 1, n);
    if at < |At(cfg, run, n - 1).chat.messages| {
      k := MessageWasSent(cfg, run, n - 1, at);
    } else {
      k := n - 1;
      ChatInvariant(cfg, run, k);
      ChatAfter(cfg, run, k);
      RowIsSentAs(At(cfg, run, k).chat, run[k].caller, run[k].call.chat, run[k].env);
    }
  }

  // ---- member rows ----

  /** The request takes the row of did away: its own leave, an allowed remove of it, or a rebind to the caller. */
  ghost predicate TakesRow(t: ChatTables, caller: string, c: ChatCall, group: string, did: string)
    requires group in t.groups
  {
    match c
    case Leave(g, sender) => g == group && did == (if caller != "" then caller else sender)
    case Remove(g, memberDid) =>
      && g == group && did == memberDid && did != t.groups[group].owner
      && Allowed(RowRole(t, group, caller), Required(t, group, "remove"), "remove")
    case Rebind(_, _, previous, next, _) =>
      IsTarget(t, c, group) && did == previous && did != next && (caller == "" || caller == next)
    case _ => false
  }

  lemma TakenBy(t: ChatTables, caller: string, c: ChatCall, env: Env, group: string, did: string)
    requires Inv(t) && MemberKey(group, did) in t.members
    requires MemberKey(group, did) !in Handle(t, caller, c, env).tables.members
    ensures Handle(t, caller, c, env).reply.Ok? && TakesRow(t, caller, c, group, did)
  {
    FailureIsAtomic(t, caller, c, env);
    if c.Leave? {
      LeaveOutcome(t, caller, c, env);
    } else if c.Remove? {
      RemoveOutcome(t, caller, c, env);
    } else if c.Rebind? {
      RebindOutcome(t, caller, c, env);
      TargetIsOnlyGroup(t, c);
    } else {
      RowsOnlyGrow(t, caller, c, env, group, did);
    }
    hide Handle;
  }

  lemma RowsOnlyGrow(t: ChatTables, caller: string, c: ChatCall, env: Env, group: string, did: string)
    requires Inv(t) && !c.Leave? && !c.Remove? && !c.Rebind? && MemberKey(group, did) in t.members
    ensures MemberKey(group, did) in Handle(t, caller, c, env).tables.members
  {
    if c.Create? {
      var first := Upserted(t.members, env.groupId, Caller(caller, c.sender), "owner", env.now);
      EnrolledFrame(first, env.groupId, c.initial, env, MemberKey(group, did));
      hide Enrolled;
    } else if c.SendPlain? || c.SendCipher? || c.SendNotice? || c.SendDirect? {
      SendsKeepRows(t, caller, c, env);
      hide Handle;
    }
  }

  /** A member that is gone left by itself, was removed by somebody allowed to, or was rebound by the new DID. */
  lemma {:induction false} MemberGoesBy(cfg: Config, run: seq<Event>, i: nat, j: nat, group: string, did: string)
      returns (k: nat)
    requires i <= j <= |run| && MemberKey(group, did) in At(cfg, run, i).chat.members
    requires MemberKey(group, did) !in At(cfg, run, j).chat.members
    ensures i <= k < j && RunsChatCall(cfg, run, k) && !IsError(ReplyAt(cfg, run, k))
    ensures group in At(cfg, run, k).chat.groups
    ensures TakesRow(At(cfg, run, k).chat, run[k].caller, run[k].call.chat, group, did)
  {
    hide Step, Handle, TakesRow;
    if MemberKey(group, did) in At(cfg, run, j - 1).chat.members {
      k := j - 1;
      ChatInvariant(cfg, run, k);
      ChatAfter(cfg, run, k);
      TakenBy(At(cfg, run, k).chat, run[k].caller, run[k].call.chat, run[k].env, group, did);
    } else {
      k := MemberGoesBy(cfg, run, i, j - 1, group, did);
    }
  }

  /** The request gives did a row: as founder or listed member of a new group, by its own join of an open
      group, by an allowed add of it, or by its own rebind. */
  ghost predicate GivesRow(t: ChatTables, caller: string, c: ChatCall, env: Env, group: string, did: string) {
    match c
    case Create(_, _, sender, initial) =>
      && env.groupId == group && group !in t.groups
      && (did == (if caller != "" then caller else sender) || LastNamed(initial, did, env).Some?)
    case Join(g, sender) =>
      && g == group && group in t.groups && did == (if caller != "" then caller else sender)
      && TextAt(t.groups[group].policy, ["admission_mode"]) in {"", "open-join"}
    case Add(g, memberDid, handle, _) =>
      && g == group && group in t.groups && NamedDid(memberDid, handle, env) == Some(did)
      && Allowed(RowRole(t, group, caller), Required(t, group, "add"), "add")
    case Rebind(_, _, _, next, _) => IsTarget(t, c, group) && did == next && (caller == "" || caller == did)
    case _ => false
  }

  lemma GivenBy(t: ChatTables, caller: string, c: ChatCall, env: Env, group: string, did: string)
    requires Inv(t) && MemberKey(group, did) !in t.members
    requires MemberKey(group, did) in Handle(t, caller, c, env).tables.members
    ensures Handle(t, caller, c, env).reply.Ok? && GivesRow(t, caller, c, env, group, did)
  {
    FailureIsAtomic(t, caller, c, env);
    if c.Create? {
      CreateGives(t, caller, c, env, group, did);
    } else if c.Join? {
      JoinOutcome(t, caller, c, env);
    } else if c.Add? {
      AddOutcome(t, caller, c, env);
    } else if c.Rebind? {
      RebindOutcome(t, caller, c, env);
      TargetIsOnlyGroup(t, c);
    } else {
      RowsOnlyShrink(t, caller, c, env, group, did);
    }
    hide Handle;
  }

  lemma CreateGives(t: ChatTables, caller: string, c: ChatCall, env: Env, group: string, did: string)
    requires Inv(t) && c.Create? && MemberKey(group, did) !in t.members
    requires MemberKey(group, did) in CreateGroup(t, caller, c, env).tables.members
    ensures CreateGroup(t, caller, c, env).reply.Ok? && GivesRow(t, caller, c, env, group, did)
  {
    var first := Upserted(t.members, env.groupId, Caller(caller, c.sender), "owner", env.now);
    EnrolledFrame(first, env.groupId, c.initial, env, MemberKey(group, did));
    EnrolledRole(first, env.groupId, c.initial, env, did);
    hide Enrolled, LastNamed;
  }

  lemma RowsOnlyShrink(t: ChatTables, caller: string, c: ChatCall, env: Env, group: string, did: string)
    requires Inv(t) && !c.Create? && !c.Join? && !c.Add? && !c.Rebind? && MemberKey(group, did) !in t.members
    ensures MemberKey(group, did) !in Handle(t, caller, c, env).tables.members
  {
    if c.SendPlain? || c.SendCipher? || c.SendNotice? || c.SendDirect? {
      SendsKeepRows(t, caller, c, env);
      hide Handle;
    }
  }

  /** A member that was not there before founded the group or was listed, joined or was rebound by itself, or
      was added by somebody allowed to. */
  lemma {:induction false} MemberComesBy(cfg: Config, run: seq<Event>, i: nat, j: nat, group: string, did: string)
      returns (k: nat)
    requires i <= j <= |run| && MemberKey(group, did) !in At(cfg, run, i).chat.members
    requires MemberKey(group, did) in At(cfg, run, j).chat.members
    ensures i <= k < j && RunsChatCall(cfg, run, k) && !IsError(ReplyAt(cfg, run, k))
    ensures GivesRow(At(cfg, run, k).chat, run[k].caller, run[k].call.chat, run[k].env, group, did)
  {
    hide Step, Handle, GivesRow;
    if MemberKey(group, did) !in At(cfg, run, j - 1).chat.members {
      k := j - 1;
      ChatInvariant(cfg, run, k);
      ChatAfter(cfg, run, k);
      GivenBy(At(cfg, run, k).chat, run[k].caller, run[k].call.chat, run[k].env, group, did);
    } else {
      k := MemberComesBy(cfg, run, i, j - 1, group, did);
    }
  }

  // ---- documents ----

  datatype Documents = Documents(profile: Json, policy: Fields)

  function Stored(t: ChatTables, group: string): Option<Documents> {
    if group in t.groups then Some(Documents(ToJson(t.groups[group].profile), t.groups[group].policy)) else None
  }

  /** What an answer tells about the documents of a group. */
  function Told(was: Option<Documents>, reply: Result<Response>, group: string): Option<Documents> {
    match reply
    case Ok(GroupCreated(g, _, _, _, profile, policy)) => if g == group then Some(Documents(profile, policy)) else was
    case Ok(ProfileUpdated(g, _, profile)) =>
      if g == group && was.Some? then Some(was.value.(profile := Obj(profile))) else was
    case Ok(PolicyUpdated(g, _, policy)) => if g == group && was.Some? then Some(was.value.(policy := policy)) else was
    case _ => was
  }

  lemma ToldIsStored(t: ChatTables, caller: string, c: ChatCall, env: Env, group: string)
    requires Inv(t)
    ensures var out := Handle(t, caller, c, env); Stored(out.tables, group) == Told(Stored(t, group), out.reply, group)
  {
    if c.Create? {
      CreateOutcome(t, caller, c, env);
      FailureIsAtomic(t, caller, c, env);
      hide Handle;
    } else if c.UpdateProfile? {
      UpdateProfileOutcome(t, caller, c, env);
      FailureIsAtomic(t, caller, c, env);
      UpdateTouchesOne(t, caller, c, env, group);
      hide Handle;
    } else if c.UpdatePolicy? {
      UpdatePolicyOutcome(t, caller, c, env);
      FailureIsAtomic(t, caller, c, env);
      UpdateTouchesOne(t, caller, c, env, group);
      hide Handle;
    } else {
      OthersKeepDocuments(t, caller, c, env, group);
      hide Handle;
    }
  }

  lemma UpdateTouchesOne(t: ChatTables, caller: string, c: ChatCall, env: Env, group: string)
    requires c.UpdateProfile? || c.UpdatePolicy?
    ensures c.group != group ==> Stored(Handle(t, caller, c, env).tables, group) == Stored(t, group)
  {}

  predicate TellsNothing(reply: Result<Response>) {
    reply.Ok? ==> !reply.value.GroupCreated? && !reply.value.ProfileUpdated? && !reply.value.PolicyUpdated?
  }

  lemma OthersKeepDocuments(t: ChatTables, caller: string, c: ChatCall, env: Env, group: string)
    requires !c.Create? && !c.UpdateProfile? && !c.UpdatePolicy?
    ensures var out := Handle(t, caller, c, env);
            Stored(out.tables, group) == Stored(t, group) && TellsNothing(out.reply)
  {
    if c.SendPlain? || c.SendCipher? || c.SendNotice? || c.SendDirect? {
      hide Handle;
      SendsKeepDocuments(t, caller, c, env, group);
    } else {
      hide SendPlainMessage, SendCipherMessage, SendNoticeMessage, SendDirectMessage, MemberList, Page, Permitted;
    }
  }

  lemma SendsKeepDocuments(t: ChatTables, caller: string, c: ChatCall, env: Env, group: string)
    requires c.SendPlain? || c.SendCipher? || c.SendNotice? || c.SendDirect?
    ensures var out := Handle(t, caller, c, env);
            Stored(out.tables, group) == Stored(t, group) && TellsNothing(out.reply)
  {}

  /** The documents of a group as the executed answers of the first n events tell them. */
  ghost function ToldBy(cfg: Config, run: seq<Event>, n: nat, group: string): Option<Documents>
    requires n <= |run|
  {
    if n == 0 then None
    else
      var was := ToldBy(cfg, run, n - 1, group);
      match ReplyAt(cfg, run, n - 1)
      case RpcReply(reply) => if RunsChatCall(cfg, run, n - 1) then Told(was, reply, group) else was
      case _ => was
  }

  lemma {:induction false} StoredIsTold(cfg: Config, run: seq<Event>, n: nat, group: string)
    requires n <= |run|
    ensures Stored(At(cfg, run, n).chat, group) == ToldBy(cfg, run, n, group)
  {
    hide Step, Handle, Told;
    if n > 0 {
      StoredIsTold(cfg, run, n - 1, group);
      ChatInvariant(cfg, run, n - 1);
      ChatAfter(cfg, run, n - 1);
      if RunsChatCall(cfg, run, n - 1) {
        ToldIsStored(At(cfg, run, n - 1).chat, run[n - 1].caller, run[n - 1].call.chat, run[n - 1].env, group);
      }
    }
  }

  /** An executed get_info shows the profile and policy that the latest answers to executed create and update
      requests told, and succeeds iff the group was created. */
  lemma InfoShowsLatest(cfg: Config, run: seq<Event>, i: nat)
    requires i < |run| && RunsChatCall(cfg, run, i) && run[i].call.chat.GetInfo? && run[i].call.chat.group != ""
    ensures var told, c, reply := ToldBy(cfg, run, i, run[i].call.chat.group), run[i].call.chat, ReplyAt(cfg, run, i);
            && (IsError(reply) <==> told.None?)
            && (!IsError(reply) ==>
                  && reply.RpcReply? && reply.result.value.GroupInfo?
                  && reply.result.value.profile == told.value.profile
                  && reply.result.value.includedPolicy == if c.includePolicy then Some(told.value.policy) else None)
  {
    hide Step, Handle, ToldBy;
    StoredIsTold(cfg, run, i, run[i].call.chat.group);
    ChatAfter(cfg, run, i);
    InfoOutcome(At(cfg, run, i).chat, run[i].caller, run[i].call.chat, run[i].env);
  }
}
