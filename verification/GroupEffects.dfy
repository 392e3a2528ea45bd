/** Who is a member with which role after a request, when the version moves, and who reads a message. */
module GroupEffects {
  import opened Wrappers
  import opened Wire
  import opened Schema
  import opened Groups
  import opened GroupSafety
  import opened Strings

  predicate Traffic(c: ChatCall) {
    c.GetInfo? || c.Inbox? || c.SendPlain? || c.SendCipher? || c.SendNotice? || c.SendDirect?
  }

  /** The same rows, policy, profile and version of the group, if there is one. */
  ghost predicate GroupKept(t: ChatTables, u: ChatTables, group: string) {
    && u.members == t.members && Version(u, group) == Version(t, group)
    && (group in t.groups ==> group in u.groups && SameContent(t, u, group))
  }

  lemma AcceptKeepsGroups(t: ChatTables, s: Send, sender: string, kind: Kind, text: string, secure: bool,
                          epoch: Option<string>, env: Env, group: string)
    ensures GroupKept(t, AcceptSend(t, s, sender, kind, text, secure, epoch, env).tables, group)
  {}

  /** Sends and queries leave rows, policies, profiles and versions alone. */
  lemma TrafficKeepsGroups(t: ChatTables, caller: string, c: ChatCall, env: Env, group: string)
    requires Traffic(c)
    ensures GroupKept(t, Handle(t, caller, c, env).tables, group)
  {
    hide AcceptSend;
    if c.SendPlain? {
      if PlainGuard(t, caller, c, env).Ok? {
        hide PlainGuard;
        var p := c.payload.value;
        AcceptKeepsGroups(t, c.send, Caller(caller, c.send.sender), p.kind, p.text, false, None, env, group);
      }
    } else if c.SendCipher? {
      AcceptKeepsGroups(t, c.send, Caller(caller, c.send.sender), Cipher, "", true, Some(c.epoch), env, group);
    }
  }

  /** A create leaves every existing group alone. */
  lemma CreateKeepsOthers(t: ChatTables, caller: string, c: ChatCall, env: Env, group: string)
    requires Inv(t) && c.Create? && group in t.groups
    ensures var u := CreateGroup(t, caller, c, env).tables;
            && group in u.groups && SameContent(t, u, group) && Version(u, group) == Version(t, group)
            && forall did :: MemberRole(u, group, did) == MemberRole(t, group, did)
  {
    var first := Upserted(t.members, env.groupId, Caller(caller, c.sender), "owner", env.now);
    forall k { EnrolledFrame(first, env.groupId, c.initial, env, k); }
  }

  // ---- roles ----

  /** The one group a request can change, if any. */
  ghost function Touched(t: ChatTables, c: ChatCall, env: Env): Option<string> {
    match c
    case Create(_, _, _, _) => Some(env.groupId)
    case Join(group, _) => Some(group)
    case Add(group, _, _, _) => Some(group)
    case Remove(group, _) => Some(group)
    case Leave(group, _) => Some(group)
    case UpdateProfile(group, _, _) => Some(group)
    case UpdatePolicy(group, _, _) => Some(group)
    case Rebind(_, _, _, _, _) => RebindTarget(t, c)
    case _ => None
  }

  function OrMember(role: string): string {
    if role == "" then "member" else role
  }

  /** What a successful membership request makes of the role of did in the group it names; "" for none. */
  ghost function RoleAfter(t: ChatTables, caller: string, c: ChatCall, env: Env, group: string, did: string): string {
    var was := MemberRole(t, group, did);
    match c
    case Join(_, sender) => if did == Caller(caller, sender) then OrMember(was) else was
    case Add(_, memberDid, handle, role) =>
      if (if handle != "" then ResolveMember(handle, env) else Some(memberDid)) == Some(did)
      then OrMember(role) else was
    case Remove(_, memberDid) => if did == memberDid then "" else was
    case Leave(_, sender) => if did == Caller(caller, sender) then "" else was
    case Rebind(_, _, previous, next, _) =>
      if did == next then MemberRole(t, group, previous) else if did == previous then "" else was
    case _ => was
  }

  lemma JoinMovesRole(t: ChatTables, caller: string, c: ChatCall, env: Env, group: string, did: string)
    requires Inv(t) && group in t.groups && c.Join? && JoinGroup(t, caller, c, env).reply.Ok?
    ensures MemberRole(JoinGroup(t, caller, c, env).tables, group, did) ==
            if c.group == group then RoleAfter(t, caller, c, env, group, did) else MemberRole(t, group, did)
  {}

  lemma AddMovesRole(t: ChatTables, caller: string, c: ChatCall, env: Env, group: string, did: string)
    requires Inv(t) && group in t.groups && c.Add? && AddMember(t, caller, c, env).reply.Ok?
    ensures MemberRole(AddMember(t, caller, c, env).tables, group, did) ==
            if c.group == group then RoleAfter(t, caller, c, env, group, did) else MemberRole(t, group, did)
  {}

  lemma RebindMovesRole(t: ChatTables, caller: string, c: ChatCall, env: Env, group: string, did: string)
    requires Inv(t) && group in t.groups && c.Rebind? && RebindMember(t, caller, c).reply.Ok?
    ensures MemberRole(RebindMember(t, caller, c).tables, group, did) ==
            if RebindTarget(t, c) == Some(group) then RoleAfter(t, caller, c, env, group, did)
                else MemberRole(t, group, did)
  {}

  lemma DepartureMovesRole(t: ChatTables, caller: string, c: ChatCall, env: Env, group: string, did: string)
    requires Inv(t) && group in t.groups && (c.Remove? || c.Leave?) && Handle(t, caller, c, env).reply.Ok?
    ensures MemberRole(Handle(t, caller, c, env).tables, group, did) ==
            if c.group == group then RoleAfter(t, caller, c, env, group, did) else MemberRole(t, group, did)
  {}

  lemma UpdateKeepsRoles(t: ChatTables, caller: string, c: ChatCall, env: Env, group: string, did: string)
    requires c.UpdateProfile? || c.UpdatePolicy?
    ensures MemberRole(Handle(t, caller, c, env).tables, group, did) == MemberRole(t, group, did)
  {}

  /** A successful request on an existing group moves exactly the roles it names, in that group only. */
  lemma RolesMove(t: ChatTables, caller: string, c: ChatCall, env: Env, group: string, did: string)
    requires Inv(t) && group in t.groups && Handle(t, caller, c, env).reply.Ok?
    ensures MemberRole(Handle(t, caller, c, env).tables, group, did) ==
            if Touched(t, c, env) == Some(group) then RoleAfter(t, caller, c, env, group, did)
                else MemberRole(t, group, did)
  {
    if Traffic(c) {
      hide Handle;
      TrafficKeepsGroups(t, caller, c, env, group);
    } else if c.Create? {
      hide CreateGroup;
      CreateKeepsOthers(t, caller, c, env, group);
    } else if c.UpdateProfile? || c.UpdatePolicy? {
      hide Handle;
      UpdateKeepsRoles(t, caller, c, env, group, did);
    } else if c.Join? {
      hide JoinGroup;
      JoinMovesRole(t, caller, c, env, group, did);
    } else if c.Add? {
      hide AddMember;
      AddMovesRole(t, caller, c, env, group, did);
    } else if c.Rebind? {
      hide RebindMember;
      RebindMovesRole(t, caller, c, env, group, did);
    } else {
      hide Handle;
      DepartureMovesRole(t, caller, c, env, group, did);
    }
  }

  /** The request makes did an owner or admin: a permitted add that names it with such a role, or a rebind
      onto it from a row that held such a role. */
  ghost predicate MakesHolder(t: ChatTables, caller: string, c: ChatCall, env: Env, group: string, did: string) {
    match c
    case Add(g, memberDid, handle, role) =>
      && g == group && Permitted(t, group, caller, "add") && role in PRIVILEGED
      && (if handle != "" then ResolveMember(handle, env) else Some(memberDid)) == Some(did)
    case Rebind(_, _, previous, next, _) =>
      RebindTarget(t, c) == Some(group) && next == did && MemberRole(t, group, previous) in PRIVILEGED
    case _ => false
  }

  lemma NewHolderIsMade(t: ChatTables, caller: string, c: ChatCall, env: Env, group: string, did: string)
    requires Inv(t) && group in t.groups && MemberRole(t, group, did) !in PRIVILEGED
    requires MemberRole(Handle(t, caller, c, env).tables, group, did) in PRIVILEGED
    ensures Handle(t, caller, c, env).reply.Ok? && MakesHolder(t, caller, c, env, group, did)
  {
    hide Handle;
    FailureIsAtomic(t, caller, c, env);
    if Handle(t, caller, c, env).reply.Ok? {
      RolesMove(t, caller, c, env, group, did);
      if c.Add? {
        AddIsPermitted(t, caller, c, env);
      }
    }
  }

  lemma AddIsPermitted(t: ChatTables, caller: string, c: ChatCall, env: Env)
    requires c.Add? && Handle(t, caller, c, env).reply.Ok?
    ensures Permitted(t, c.group, caller, "add")
  {
    hide Permitted;
  }

  // ---- the version ----

  /** A successful request that raises the version of the group: any change to the group, and a leave or
      remove of somebody who is not a member, but not a join by a member. */
  ghost predicate Bumps(t: ChatTables, caller: string, c: ChatCall, env: Env, group: string) {
    && Touched(t, c, env) == Some(group) && !c.Create?
    && Handle(t, caller, c, env).reply.Ok?
    && !(c.Join? && IsMember(t, group, Caller(caller, c.sender)))
  }

  lemma VersionStep(t: ChatTables, caller: string, c: ChatCall, env: Env, group: string)
    requires Inv(t)
    ensures Version(Handle(t, caller, c, env).tables, group) ==
            Version(t, group) + if Bumps(t, caller, c, env, group) then 1 else 0
  {
    if Traffic(c) {
      TrafficKeepsGroups(t, caller, c, env, group);
    } else {
      hide SendPlainMessage, SendCipherMessage, SendNoticeMessage, SendDirectMessage, Info, Items, Page, Enrolled;
    }
  }

  // ---- authority ----

  /** Who may change an existing group's rows, policy or profile, and how. */
  ghost predicate Authorised(t: ChatTables, caller: string, c: ChatCall, group: string)
    requires group in t.groups
  {
    match c
    case Join(g, _) =>
      && g == group && !IsMember(t, group, Caller(caller, c.sender))
      && StringAt(t.groups[group].policy, "admission_mode") in {"", "open-join"}
    case Add(g, _, _, _) => g == group && Permitted(t, group, caller, "add")
    case Remove(g, memberDid) => g == group && Permitted(t, group, caller, "remove")
        && memberDid != t.groups[group].owner
    case Leave(g, sender) => g == group && IsMember(t, group, Caller(caller, sender))
    case UpdateProfile(g, _, _) => g == group && Permitted(t, group, caller, "update_profile")
    case UpdatePolicy(g, _, _) => g == group && Permitted(t, group, caller, "update_policy")
    case Rebind(_, _, previous, next, _) =>
      && RebindTarget(t, c) == Some(group) && IsMember(t, group, previous) && !IsMember(t, group, next)
      && (caller == "" || caller == next)
    case _ => false
  }

  lemma UpdateIsAuthorised(t: ChatTables, caller: string, c: ChatCall, env: Env, group: string)
    requires Inv(t) && group in t.groups && (c.UpdateProfile? || c.UpdatePolicy?)
    requires group in Handle(t, caller, c, env).tables.groups
              && !SameContent(t, Handle(t, caller, c, env).tables, group)
    ensures Handle(t, caller, c, env).reply.Ok? && Authorised(t, caller, c, group)
  {
    hide Permitted;
  }

  lemma RebindIsAuthorised(t: ChatTables, caller: string, c: ChatCall, env: Env, group: string)
    requires Inv(t) && group in t.groups && c.Rebind?
    requires group in RebindMember(t, caller, c).tables.groups
              && !SameContent(t, RebindMember(t, caller, c).tables, group)
    ensures RebindMember(t, caller, c).reply.Ok? && Authorised(t, caller, c, group)
  {
    hide Permitted;
  }

  lemma AddOrRemoveIsAuthorised(t: ChatTables, caller: string, c: ChatCall, env: Env, group: string)
    requires Inv(t) && group in t.groups && (c.Add? || c.Remove?)
    requires group in Handle(t, caller, c, env).tables.groups
              && !SameContent(t, Handle(t, caller, c, env).tables, group)
    ensures Handle(t, caller, c, env).reply.Ok? && Authorised(t, caller, c, group)
  {
    hide Permitted;
  }

  lemma JoinOrLeaveIsAuthorised(t: ChatTables, caller: string, c: ChatCall, env: Env, group: string)
    requires Inv(t) && group in t.groups && (c.Join? || c.Leave?)
    requires group in Handle(t, caller, c, env).tables.groups
              && !SameContent(t, Handle(t, caller, c, env).tables, group)
    ensures Handle(t, caller, c, env).reply.Ok? && Authorised(t, caller, c, group)
  {
    hide Permitted;
  }

  /** A group's content changes only by an authorised request. */
  lemma ChangeIsAuthorised(t: ChatTables, caller: string, c: ChatCall, env: Env, group: string)
    requires Inv(t) && group in t.groups
    requires group in Handle(t, caller, c, env).tables.groups
              && !SameContent(t, Handle(t, caller, c, env).tables, group)
    ensures Handle(t, caller, c, env).reply.Ok? && Authorised(t, caller, c, group)
  {
    hide Authorised, SameContent, Inv;
    if Traffic(c) {
      hide Handle;
      TrafficKeepsGroups(t, caller, c, env, group);
    } else if c.Create? {
      hide CreateGroup;
      CreateKeepsOthers(t, caller, c, env, group);
    } else if c.UpdateProfile? || c.UpdatePolicy? {
      hide Handle;
      UpdateIsAuthorised(t, caller, c, env, group);
    } else if c.Rebind? {
      hide RebindMember;
      RebindIsAuthorised(t, caller, c, env, group);
    } else if c.Add? || c.Remove? {
      hide Handle;
      AddOrRemoveIsAuthorised(t, caller, c, env, group);
    } else {
      hide Handle;
      JoinOrLeaveIsAuthorised(t, caller, c, env, group);
    }
  }

  // ---- delivery ----

  /** An accepted send appends one row holding what was sent; a direct message is read by its peer
      alone, a group message by exactly the group's members, of which the sender is one. */
  lemma SendIsDelivered(t: ChatTables, caller: string, c: ChatCall, env: Env)
    requires Inv(t) && (c.SendPlain? || c.SendCipher? || c.SendDirect?) && Handle(t, caller, c, env).reply.Ok?
    ensures var u, sender, n := Handle(t, caller, c, env).tables, Caller(caller, c.send.sender), |t.messages|;
            && |u.messages| == n + 1 && u.messages[..n] == t.messages
            && var row := u.messages[n];
               && row.id == n + 1 && row.messageId == c.send.messageId && row.sender == sender
               && row.meta == Some(c.send.meta) && row.body == Some(c.send.body)
               && row.recipient == (if c.SendDirect? then Some(c.send.group) else None)
               && row.group == (if c.SendDirect? then None else Some(c.send.group))
               && row.secure == (c.SendCipher? || (c.SendDirect? && !c.plaintext))
               && (forall did :: Visible(u.members, did, row) <==>
                                   if c.SendDirect? then did == c.send.group else IsMember(t, c.send.group, did))
               && (!c.SendDirect? ==> IsMember(t, c.send.group, sender))
  {}

  /** The acknowledgement names the message and the group or peer of the send. */
  ghost predicate AckFor(c: ChatCall, ack: Response) {
    || ((c.SendPlain? || c.SendCipher?) && ack.SendAck?
        && ack.group == c.send.group && ack.messageId == c.send.messageId)
    || (c.SendDirect? && ack.DirectAck? && ack.target == c.send.group && ack.messageId == c.send.messageId)
  }

  lemma AckNamesSend(t: ChatTables, caller: string, c: ChatCall, env: Env, ack: Response)
    requires Handle(t, caller, c, env).reply == Ok(ack) && (ack.SendAck? || ack.DirectAck?)
    ensures AckFor(c, ack)
  {}

  // ---- the member list ----

  /** get_info lists exactly the members, each once with its row, in the order of their DIDs. */
  lemma MemberListIsExact(t: ChatTables, group: string)
    requires Inv(t)
    ensures var list := MemberList(t, group);
            && Sorted(seq(|list|, i requires 0 <= i < |list| => list[i].did))
            && (forall i | 0 <= i < |list| ::
                  IsMember(t, group, list[i].did)
                  && list[i] == EntryOf(list[i].did, t.members[MemberKey(group, list[i].did)]))
            && (forall did | IsMember(t, group, did) :: exists i | 0 <= i < |list| :: list[i].did == did)
  {
    var list, dids := MemberList(t, group), ActiveDids(t, group);
    assert seq(|list|, i requires 0 <= i < |list| => list[i].did) == dids;
    forall did | IsMember(t, group, did)
      ensures exists i | 0 <= i < |list| :: list[i].did == did
    {
      assert MemberKey(group, did) in t.members;
      assert did in dids;
      var i :| 0 <= i < |dids| && dids[i] == did;
      assert list[i].did == did;
    }
    forall i | 0 <= i < |list|
      ensures IsMember(t, group, list[i].did)
    {
      assert dids[i] in dids;
    }
  }
}
