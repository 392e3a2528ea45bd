/** When each group and message request succeeds, on whose behalf, and what exactly it then leaves:
    roles, texts, codes and times written out, for tables that satisfy the invariant. */
module GroupOutcomes {
  import opened Wrappers
  import opened Wire
  import opened Schema
  import opened Envelope
  import opened Groups
  import opened GroupSafety
  import MergePatch

  // ---- permissions ----

  /** The stored role of a DID in a group; "" without a row. */
  function RowRole(t: ChatTables, group: string, did: string): string {
    if MemberKey(group, did) in t.members then t.members[MemberKey(group, did)].role else ""
  }

  /** The permission table, by role: owners may do everything; admins all but what is named or defaults to
      owner; other members what names neither owner nor admin and has no such default. */
  predicate Allowed(role: string, named: string, action: string) {
    || role == "owner"
    || (role == "admin" && named != "owner" && !(named == "" && action == "update_policy"))
    || (role != "" && named != "owner" && named != "admin"
        && !(named == "" && action in {"update_policy", "add", "remove", "update_profile"}))
  }

  /** What the group's policy names for an action: the text at permissions.action. */
  function Required(t: ChatTables, group: string, action: string): string
    requires group in t.groups
  {
    TextAt(t.groups[group].policy, ["permissions", action])
  }

  lemma PolicyText(policy: Fields, action: string)
    ensures StringAt(MapOrEmpty(Get(policy, "permissions")), action) == TextAt(policy, ["permissions", action])
    ensures StringAt(policy, action) == TextAt(policy, [action])
  {
    TwoSteps(policy, "permissions", action);
    OneStep(Obj(policy), action);
  }

  /** groupPermitted decides by the table, in every group and for every action. */
  lemma PermissionTable(t: ChatTables, group: string, did: string, action: string)
    requires Inv(t)
    ensures Permitted(t, group, did, action) <==>
              group in t.groups && Allowed(RowRole(t, group, did), Required(t, group, action), action)
  {
    if group in t.groups {
      PolicyText(t.groups[group].policy, action);
      hide TextAt;
    }
  }

  // ---- members ----

  /** The DID that a member_did and a member_handle name together; None when the handle is unknown. */
  function NamedDid(did: string, handle: string, env: Env): Option<string> {
    if handle == "" then Some(did)
    else if handle !in env.handleSyntax then Some(handle)
    else if handle !in env.handles || env.handles[handle] == "" then None
    else Some(env.handles[handle])
  }

  /** An entry of initial_members names a DID directly or by handle, and its role is member unless it says so. */
  lemma EntryNames(m: Fields, env: Env)
    ensures var who := NamedDid(TextAt(m, ["member_did"]), TextAt(m, ["member_handle"]), env);
            var role := TextAt(m, ["role"]);
            Named(Obj(m), env) == if who == None || who == Some("") then None
                                  else Some((who.value, if role == "" then "member" else role))
  {
    PolicyText(m, "member_did");
    PolicyText(m, "member_handle");
    PolicyText(m, "role");
    hide TextAt;
  }

  lemma OtherEntriesNameNobody(entry: Json, env: Env)
    requires !entry.Obj?
    ensures Named(entry, env) == None
  {}

  /** group.create: the authenticated caller, or else meta.sender_did, founds the group and owns it. */
  lemma CreateOutcome(t: ChatTables, caller: string, c: ChatCall, env: Env)
    requires c.Create?
    ensures var who, out := if caller != "" then caller else c.sender, Handle(t, caller, c, env);
            && (out.reply.Ok? <==> c.policy.Some? && who != "" && env.groupId !in t.groups)
            && (out.reply.Ok? ==>
                  && out.tables.groups == t.groups[env.groupId :=
                       GroupRow(c.policy.value, c.profile, who, 0, 0, env.now / 1_000_000_000)]
                  && out.tables.messages == t.messages
                  && out.reply.value == GroupCreated(env.groupId, 0, env.now / 1_000_000_000, who,
                       if c.profile.Some? then Obj(c.profile.value) else Null, c.policy.value))
            && (c.policy.None? || who == "" ==> out.reply == Err(-32004))
  {
    hide Enrolled;
  }

  /** group.join: open to everybody in an open group; the joiner is the caller. */
  lemma JoinOutcome(t: ChatTables, caller: string, c: ChatCall, env: Env)
    requires Inv(t) && c.Join?
    ensures var who, out := if caller != "" then caller else c.sender, Handle(t, caller, c, env);
            var k, g := MemberKey(c.group, who), c.group;
            && (out.reply.Ok? <==>
                  g != "" && g in t.groups && TextAt(t.groups[g].policy, ["admission_mode"]) in {"", "open-join"})
            && (out.reply.Ok? ==>
                  && out.reply.value == Joined(g, who, out.tables.groups[g].version)
                  && out.tables.members == (if k in t.members then t.members
                       else t.members[k := MemberRow("member", "active", env.now / 1_000_000_000)]))
            && (g == "" ==> out.reply == Err(-32004))
            && (g != "" && g !in t.groups ==> out.reply == Err(-32002))
  {
    if c.group in t.groups {
      PolicyText(t.groups[c.group].policy, "admission_mode");
      hide TextAt;
    }
  }

  /** group.add: by an allowed caller, of a DID or a handle that resolves; joined_at of a member is kept. */
  lemma AddOutcome(t: ChatTables, caller: string, c: ChatCall, env: Env)
    requires Inv(t) && c.Add?
    ensures var who, out, g := NamedDid(c.memberDid, c.memberHandle, env), Handle(t, caller, c, env), c.group;
            && (out.reply.Ok? <==>
                  && g != "" && g in t.groups && Allowed(RowRole(t, g, caller), Required(t, g, "add"), "add")
                  && (c.memberDid != "" || c.memberHandle != "") && who.Some?)
            && (out.reply.Ok? ==>
                  var k := MemberKey(g, who.value);
                  && out.reply.value == Joined(g, who.value, out.tables.groups[g].version)
                  && out.tables.members == t.members[k :=
                       MemberRow(if c.role == "" then "member" else c.role, "active",
                                 if k in t.members then t.members[k].joinedAt else env.now / 1_000_000_000)])
            && (g != "" && !(g in t.groups && Allowed(RowRole(t, g, caller), Required(t, g, "add"), "add")) ==>
                  out.reply == Err(-32000))
  {
    PermissionTable(t, c.group, caller, "add");
    hide Permitted, RowRole, Required, Allowed;
  }

  /** group.remove: by an allowed caller, of anybody but owner_did. */
  lemma RemoveOutcome(t: ChatTables, caller: string, c: ChatCall, env: Env)
    requires Inv(t) && c.Remove?
    ensures var out, g := Handle(t, caller, c, env), c.group;
            && (out.reply.Ok? <==>
                  && g != "" && c.memberDid != "" && g in t.groups
                  && Allowed(RowRole(t, g, caller), Required(t, g, "remove"), "remove")
                  && c.memberDid != t.groups[g].owner)
            && (out.reply.Ok? ==>
                  && out.reply.value == Removed(g, c.memberDid, out.tables.groups[g].version)
                  && out.tables.members == t.members - {MemberKey(g, c.memberDid)})
            && (g == "" || c.memberDid == "" ==> out.reply == Err(-32004))
            && (g != "" && c.memberDid != ""
                && !(g in t.groups && Allowed(RowRole(t, g, caller), Required(t, g, "remove"), "remove")) ==>
                  out.reply == Err(-32000))
  {
    PermissionTable(t, c.group, caller, "remove");
    hide Permitted, RowRole, Required, Allowed;
  }

  /** group.leave: takes away the caller's own row and no other; nobody's in an unknown group. */
  lemma LeaveOutcome(t: ChatTables, caller: string, c: ChatCall, env: Env)
    requires Inv(t) && c.Leave?
    ensures var who, out, g := if caller != "" then caller else c.sender, Handle(t, caller, c, env), c.group;
            && (out.reply.Ok? <==> g != "" && g in t.groups)
            && out.tables.members == (if g in t.groups && g != "" then t.members - {MemberKey(g, who)} else t.members)
            && (out.reply.Ok? ==> out.reply.value == Left(g, who, out.tables.groups[g].version))
            && (g == "" ==> out.reply == Err(-32004))
            && (g != "" && g !in t.groups ==> out.reply == Err(-32002))
  {
    var who := if caller != "" then caller else c.sender;
    if c.group !in t.groups {
      assert t.members - {MemberKey(c.group, who)} == t.members;
    }
  }

  /** The group a rebind is about: the one it names, or else the only one the previous DID is in. */
  ghost predicate IsTarget(t: ChatTables, c: ChatCall, g: string)
    requires c.Rebind?
  {
    if c.group != "" then g == c.group
    else MemberKey(g, c.previous) in t.members && forall k | k in t.members && k.did == c.previous :: k.group == g
  }

  lemma TargetIsOnlyGroup(t: ChatTables, c: ChatCall)
    requires Inv(t) && c.Rebind?
    ensures forall g :: RebindTarget(t, c) == Some(g) <==> IsTarget(t, c, g)
  {
    forall g | c.group == ""
      ensures GroupsOf(t, c.previous) == {g} <==> IsTarget(t, c, g)
    {
      if GroupsOf(t, c.previous) == {g} {
        assert g in GroupsOf(t, c.previous);
        forall k | k in t.members && k.did == c.previous
          ensures k.group == g
        {
          assert k.group in GroupsOf(t, c.previous);
        }
      }
      if IsTarget(t, c, g) {
        assert g in GroupsOf(t, c.previous);
        assert forall h | h in GroupsOf(t, c.previous) :: h == g;
        assert GroupsOf(t, c.previous) == {g};
      }
    }
  }

  /** group.rebind_member: moves the row, whatever its role, to the new DID, which must be the caller and
      have no row yet. */
  lemma RebindOutcome(t: ChatTables, caller: string, c: ChatCall, env: Env)
    requires Inv(t) && c.Rebind?
    ensures var out := Handle(t, caller, c, env);
            && (out.reply.Ok? <==>
                  && c.handle != "" && c.previous != "" && c.next != "" && (caller == "" || caller == c.next)
                  && exists g :: IsTarget(t, c, g) && MemberKey(g, c.previous) in t.members
                                 && (c.next == c.previous || MemberKey(g, c.next) !in t.members))
            && (forall g | out.reply.Ok? && IsTarget(t, c, g) ::
                  && g in out.tables.groups
                  && out.reply.value ==
                     Rebound(g, c.handle, c.previous, c.next, c.generation, out.tables.groups[g].version)
                  && MemberKey(g, c.previous) in t.members
                  && out.tables.members ==
                     (t.members - {MemberKey(g, c.previous)})[MemberKey(g, c.next) :=
                       t.members[MemberKey(g, c.previous)]])
  {
    TargetIsOnlyGroup(t, c);
    hide IsTarget, RebindTarget;
  }

  // ---- documents ----

  /** Member by member: what the patch names replaces or deletes, the rest stays. */
  ghost predicate Merged(old_: Fields, patch: Fields, new_: Fields) {
    forall k ::
      && (k in new_ <==> if k in patch then patch[k] != Null else k in old_)
      && (k in new_ ==> new_[k] == if k in patch then patch[k] else old_[k])
  }

  /** The new document: merged from a patch, or else the replacement. */
  ghost predicate Becomes(old_: Fields, patch: Option<Fields>, replacement: Option<Fields>, new_: Fields) {
    if patch.Some? then Merged(old_, patch.value, new_) else replacement == Some(new_)
  }

  lemma UpdateProfileOutcome(t: ChatTables, caller: string, c: ChatCall, env: Env)
    requires Inv(t) && c.UpdateProfile?
    ensures var out, g := Handle(t, caller, c, env), c.group;
            && (out.reply.Ok? <==>
                  && g != "" && g in t.groups && (c.patch.Some? || c.replacement.Some?)
                  && Allowed(RowRole(t, g, caller), Required(t, g, "update_profile"), "update_profile"))
            && (out.reply.Ok? ==>
                  && g in out.tables.groups && out.tables.members == t.members
                  && var was, row := t.groups[g], out.tables.groups[g];
                     && row.profile.Some? && row == was.(profile := row.profile, version := was.version + 1)
                     && Becomes(if was.profile.Some? then was.profile.value else map[], c.patch, c.replacement,
                                row.profile.value)
                     && out.reply.value == ProfileUpdated(g, row.version, row.profile.value))
  {
    PermissionTable(t, c.group, caller, "update_profile");
    hide Permitted, RowRole, Required, Allowed;
  }

  lemma UpdatePolicyOutcome(t: ChatTables, caller: string, c: ChatCall, env: Env)
    requires Inv(t) && c.UpdatePolicy?
    ensures var out, g := Handle(t, caller, c, env), c.group;
            && (out.reply.Ok? <==>
                  && g != "" && g in t.groups && (c.patch.Some? || c.replacement.Some?)
                  && Allowed(RowRole(t, g, caller), Required(t, g, "update_policy"), "update_policy"))
            && (out.reply.Ok? ==>
                  && g in out.tables.groups && out.tables.members == t.members
                  && var was, row := t.groups[g], out.tables.groups[g];
                     && row == was.(policy := row.policy, version := was.version + 1)
                     && Becomes(was.policy, c.patch, c.replacement, row.policy)
                     && out.reply.value == PolicyUpdated(g, row.version, row.policy))
  {
    PermissionTable(t, c.group, caller, "update_policy");
    hide Permitted, RowRole, Required, Allowed;
  }

  /** group.get_info answers with what is stored. */
  lemma InfoOutcome(t: ChatTables, caller: string, c: ChatCall, env: Env)
    requires c.GetInfo?
    ensures var out, g := Handle(t, caller, c, env), c.group;
            && out.tables == t
            && (out.reply.Ok? <==> g != "" && g in t.groups)
            && (g == "" ==> out.reply == Err(-32004))
            && (g != "" && g !in t.groups ==> out.reply == Err(-32002))
            && (out.reply.Ok? ==>
                  var row, r := t.groups[g], out.reply.value;
                  && r.GroupInfo? && r.group == g && r.version == row.version
                  && r.profile == (if row.profile.Some? then Obj(row.profile.value) else Null)
                  && r.includedPolicy == (if c.includePolicy then Some(row.policy) else None)
                  && (r.included.Some? <==> c.includeMembers)
                  && (r.included.Some? ==> r.included.value.list == MemberList(t, g)
                                           && ParseInt64(r.included.value.count) == Fitting(|MemberList(t, g)|)))
  {
    hide MemberList;
    if c.group in t.groups {
      DecimalDigits(|MemberList(t, c.group)|);
      ParseOfDigits(Decimal(|MemberList(t, c.group)|));
    }
  }

  // ---- sends ----

  ghost predicate IdFree(t: ChatTables, messageId: string) {
    forall m | m in t.messages :: m.messageId != messageId
  }

  lemma FreeIffNotTaken(t: ChatTables, messageId: string)
    ensures IdFree(t, messageId) <==> !MessageIdTaken(t.messages, messageId)
  {}

  /** The tables with one row more, and the number of the group, if any, raised by one. */
  function WithRow(t: ChatTables, row: Message): ChatTables {
    t.(messages := t.messages + [row])
  }

  function Counted(t: ChatTables, g: string): ChatTables {
    if g in t.groups
    then t.(groups := t.groups[g := t.groups[g].(eventSeq := t.groups[g].eventSeq + 1)])
    else t
  }

  lemma AcceptOutcome(t: ChatTables, s: Send, sender: string, kind: Kind, text: string, secure: bool,
                      epoch: Option<string>, env: Env)
    requires Inv(t)
    ensures var out, now := AcceptSend(t, s, sender, kind, text, secure, epoch, env), env.now / 1_000_000_000;
            && (out.reply.Ok? <==> s.group in t.groups && IdFree(t, s.messageId))
            && (out.reply.Ok? ==>
                  && out.tables == WithRow(Counted(t, s.group),
                       Message(|t.messages| + 1, s.messageId, sender, None, Some(s.group), kind, text, secure, now,
                               Some(s.meta), Some(s.body)))
                  && out.reply.value == SendAck(s.group, s.messageId, s.operationId, t.groups[s.group].eventSeq + 1,
                       t.groups[s.group].version, now, epoch))
  {
    FreeIffNotTaken(t, s.messageId);
    hide MessageIdTaken, IdFree;
  }

  /** group.send: by a member, under its own DID, with one payload and checks passed and a fresh message id. */
  lemma PlainOutcome(t: ChatTables, caller: string, c: ChatCall, env: Env)
    requires Inv(t) && c.SendPlain?
    ensures var who, out, s := if caller != "" then caller else c.send.sender, Handle(t, caller, c, env), c.send;
            var now := env.now / 1_000_000_000;
            && (out.reply.Ok? <==>
                  && s.group != "" && s.messageId != "" && s.operationId != "" && s.contentType != ""
                  && MemberKey(s.group, who) in t.members
                  && c.payload.Some? && (c.payload.value.kind == JsonPayload ==> env.mentionsOk)
                  && (s.hasAuth ==> env.proofOk) && IdFree(t, s.messageId))
            && (out.reply.Ok? ==>
                  && s.group in t.groups
                  && out.tables == WithRow(Counted(t, s.group),
                       Message(|t.messages| + 1, s.messageId, who, None, Some(s.group), c.payload.value.kind,
                               c.payload.value.text, false, now, Some(s.meta), Some(s.body)))
                  && out.reply.value == SendAck(s.group, s.messageId, s.operationId, t.groups[s.group].eventSeq + 1,
                       t.groups[s.group].version, now, None))
  {
    if c.payload.Some? {
      var who, p := if caller != "" then caller else c.send.sender, c.payload.value;
      AcceptOutcome(t, c.send, who, p.kind, p.text, false, None, env);
      hide AcceptSend, IdFree;
    }
  }

  /** group.e2ee.send: the same with the cipher checks, marked secure, the epoch acknowledged. */
  lemma CipherOutcome(t: ChatTables, caller: string, c: ChatCall, env: Env)
    requires Inv(t) && c.SendCipher?
    ensures var who, out, s := if caller != "" then caller else c.send.sender, Handle(t, caller, c, env), c.send;
            var now := env.now / 1_000_000_000;
            && (out.reply.Ok? <==>
                  && c.hasBody && c.cipherFields
                  && s.group != "" && s.messageId != "" && s.operationId != ""
                  && s.contentType == "application/anp-group-cipher+json"
                  && MemberKey(s.group, who) in t.members
                  && (s.hasAuth ==> env.proofOk) && IdFree(t, s.messageId))
            && (out.reply.Ok? ==>
                  && s.group in t.groups
                  && out.tables == WithRow(Counted(t, s.group),
                       Message(|t.messages| + 1, s.messageId, who, None, Some(s.group), Cipher, "", true, now,
                               Some(s.meta), Some(s.body)))
                  && out.reply.value == SendAck(s.group, s.messageId, s.operationId, t.groups[s.group].eventSeq + 1,
                       t.groups[s.group].version, now, Some(c.epoch)))
  {
    var who := if caller != "" then caller else c.send.sender;
    AcceptOutcome(t, c.send, who, Cipher, "", true, Some(c.epoch), env);
    hide AcceptSend, IdFree;
  }

  /** direct.send: plaintext needs one payload and a valid proof, an envelope a valid proof if one is attached. */
  lemma DirectOutcome(t: ChatTables, caller: string, c: ChatCall, env: Env)
    requires Inv(t) && c.SendDirect?
    ensures var who, out, s := if caller != "" then caller else c.send.sender, Handle(t, caller, c, env), c.send;
            var now := env.now / 1_000_000_000;
            && (out.reply.Ok? <==>
                  && s.messageId != "" && IdFree(t, s.messageId)
                  && (if c.plaintext then c.payload.Some? && s.hasAuth && env.proofOk
                      else (who != "" && s.hasAuth ==> env.proofOk)))
            && (out.reply.Ok? ==>
                  && out.tables == WithRow(t,
                       Message(|t.messages| + 1, s.messageId, who, Some(s.group), None,
                               if c.plaintext then c.payload.value.kind else Text,
                               if c.plaintext then c.payload.value.text else "", !c.plaintext, now,
                               Some(s.meta), Some(s.body)))
                  && out.reply.value == DirectAck(s.messageId, s.operationId, s.group, now))
            && (out.reply.Err? ==> out.tables == t)
  {
    FreeIffNotTaken(t, c.send.messageId);
    hide MessageIdTaken, IdFree;
  }

  /** group.e2ee.notice: a well-formed notice is acknowledged, and stored for its target unless its id is taken. */
  lemma NoticeOutcome(t: ChatTables, caller: string, c: ChatCall, env: Env)
    requires Inv(t) && c.SendNotice?
    ensures var out := Handle(t, caller, c, env);
            && (out.reply == if c.noticeOk.Ok? then Ok(Accepted) else Err(c.noticeOk.code))
            && out.tables == (if c.noticeOk.Ok? && c.target != "" && IdFree(t, "notice-" + Decimal(env.now))
                 then WithRow(t, Message(|t.messages| + 1, "notice-" + Decimal(env.now), c.sender, Some(c.target),
                                         Some(c.noticeGroup), Notice, "", false, env.now / 1_000_000_000,
                                         Some(c.meta), Some(c.body)))
                 else t)
  {
    FreeIffNotTaken(t, "notice-" + Decimal(env.now));
    hide MessageIdTaken, IdFree, Decimal;
  }

  /** Notices at different nanoseconds have different ids. */
  lemma NoticeIdsDiffer(now: nat, later: nat)
    ensures NoticeId(now) == NoticeId(later) <==> now == later
  {
    DecimalDigits(now);
    DecimalDigits(later);
    if NoticeId(now) == NoticeId(later) {
      assert NoticeId(now)[7..] == Decimal(now) && NoticeId(later)[7..] == Decimal(later);
    }
  }

  /** A row is visible to its recipient, and to whoever has a row in its group. */
  lemma VisibleTo(t: ChatTables, did: string, m: Message)
    requires Inv(t)
    ensures Visible(t.members, did, m) <==>
              m.recipient == Some(did) || (m.group.Some? && MemberKey(m.group.value, did) in t.members)
  {}

  // ---- why sends fail ----

  /** Each code of a plaintext group send exactly when its check is the first that fails; a taken message id
      fails last. */
  lemma PlainCodes(t: ChatTables, caller: string, c: ChatCall, env: Env)
    requires Inv(t) && c.SendPlain?
    ensures var who, s := if caller != "" then caller else c.send.sender, c.send;
            var reply := Handle(t, caller, c, env).reply;
            var named := s.group != "" && s.messageId != "" && s.operationId != "" && s.contentType != "";
            var member := named && MemberKey(s.group, who) in t.members;
            var formed := member && c.payload.Some? && (c.payload.value.kind == JsonPayload ==> env.mentionsOk);
            && (reply == Err(-32004) <==> !named || (member && !formed))
            && (reply == Err(-32000) <==>
                  (named && !member) || (formed && ((s.hasAuth && !env.proofOk) || !IdFree(t, s.messageId))))
  {
    PlainOutcome(t, caller, c, env);
    FreeIffNotTaken(t, c.send.messageId);
    hide IdFree, MessageIdTaken;
  }

  lemma CipherCodes(t: ChatTables, caller: string, c: ChatCall, env: Env)
    requires Inv(t) && c.SendCipher?
    ensures var who, s := if caller != "" then caller else c.send.sender, c.send;
            var reply := Handle(t, caller, c, env).reply;
            var named := c.hasBody && s.group != "" && s.messageId != "" && s.operationId != ""
                         && s.contentType == "application/anp-group-cipher+json";
            var member := named && MemberKey(s.group, who) in t.members;
            && (reply == Err(-32004) <==> !named || (member && !c.cipherFields))
            && (reply == Err(-32000) <==>
                  || (named && !member)
                  || (member && c.cipherFields && ((s.hasAuth && !env.proofOk) || !IdFree(t, s.messageId))))
  {
    CipherOutcome(t, caller, c, env);
    FreeIffNotTaken(t, c.send.messageId);
    hide IdFree, MessageIdTaken;
  }

  lemma DirectCodes(t: ChatTables, caller: string, c: ChatCall, env: Env)
    requires Inv(t) && c.SendDirect?
    ensures var reply := Handle(t, caller, c, env).reply;
            && (reply == Err(-32004) <==> c.send.messageId != "" && c.plaintext && c.payload.None?)
            && (reply == Err(-32000) <==> reply.Err? && reply != Err(-32004))
  {}
}
