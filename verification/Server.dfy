/** The server: its tables as fields, its handlers as methods, statement by statement. */
module ServerModel {
  import opened Wrappers
  import opened Wire
  import opened Schema
  import opened Requests
  import opened Dispatch
  import opened Strings
  import MergePatch
  import G = Groups
  import P = Prekeys
  import A = Attachments
  import ChatSafety = GroupSafety
  import FileSafety = AttachmentSafety
  import ChatRuns
  import KeyRuns
  import FileRuns

  class Server {
    const cfg: Config

    var groups: map<string, GroupRow>
    var members: map<MemberKey, MemberRow>
    var messages: seq<Message>
    var bundles: map<string, Json>
    var prekeys: seq<PrekeyRow>
    var slots: map<string, Slot>
    var objects: map<string, Object>
    var tickets: map<string, Ticket>
    var idempotency: map<string, Response>

    function ChatState(): ChatTables
      reads this
    { ChatTables(groups, members, messages) }

    function KeyState(): KeyTables
      reads this
    { KeyTables(bundles, prekeys) }

    function FileState(): FileTables
      reads this
    { FileTables(slots, objects, tickets) }

    function State(): Db
      reads this
    { Db(ChatState(), KeyState(), FileState(), idempotency) }

    /** The invariant every request keeps. */
    ghost predicate Valid()
      reads this
    {
      ChatSafety.Inv(ChatState()) && P.Inv(KeyState()) && FileSafety.Inv(cfg, FileState())
    }

    constructor (cfg: Config)
      ensures this.cfg == cfg && State() == EMPTY && Valid()
    {
      this.cfg := cfg;
      groups, members, messages := map[], map[], [];
      bundles, prekeys := map[], [];
      slots, objects, tickets := map[], map[], map[];
      idempotency := map[];
    }

    // ---- statements on groups, members and messages ----

    method BumpGroupStateVersion(gid: string) returns (version: Result<nat>)
      modifies this`groups
      ensures ChatState() == G.Bumped(old(ChatState()), gid)
      ensures version == if gid in groups then Ok(groups[gid].version) else Err(DID_NOT_FOUND)
    {
      if gid in groups {
        groups := groups[gid := groups[gid].(version := groups[gid].version + 1)];
      }
      if gid !in groups {
        return Err(DID_NOT_FOUND);
      }
      return Ok(groups[gid].version);
    }

    method NextGroupEventSeq(gid: string) returns (eventSeq: Result<nat>)
      modifies this`groups
      ensures gid !in old(groups) ==> groups == old(groups) && eventSeq == Err(INTERNAL)
      ensures gid in old(groups) ==>
                && groups == old(groups)[gid := old(groups)[gid].(eventSeq := old(groups)[gid].eventSeq + 1)]
                && eventSeq == Ok(old(groups)[gid].eventSeq + 1)
    {
      if gid !in groups {
        return Err(INTERNAL);
      }
      groups := groups[gid := groups[gid].(eventSeq := groups[gid].eventSeq + 1)];
      return Ok(groups[gid].eventSeq);
    }

    method AddGroupMember(gid: string, did: string, role: string, now: nat)
      modifies this`members
      ensures members == G.Upserted(old(members), gid, did, role, now)
    {
      var effective := role;
      if effective == "" {
        effective := "member";
      }
      var k := MemberKey(gid, did);
      if k in members {
        members := members[k := members[k].(role := effective, status := "active")];
      } else {
        members := members[k := MemberRow(effective, "active", Seconds(now))];
      }
    }

    method JoinGroupMember(gid: string, did: string, now: nat)
      modifies this`members
      ensures var k := MemberKey(gid, did);
              members == old(members)[k := if k in old(members) then old(members)[k].(status := "active")
                                           else MemberRow("member", "active", Seconds(now))]
    {
      var k := MemberKey(gid, did);
      if k in members {
        members := members[k := members[k].(status := "active")];
      } else {
        members := members[k := MemberRow("member", "active", Seconds(now))];
      }
    }

    /** INSERT INTO messages: refused when the message id is taken. */
    method InsertMessage(row: Message) returns (inserted: bool)
      modifies this`messages
      ensures inserted <==> G.Inserted(old(messages), row).Some?
      ensures messages == if inserted then G.Inserted(old(messages), row).value else old(messages)
    {
      var i := 0;
      while i < |messages|
        invariant i <= |messages|
        invariant forall j | 0 <= j < i :: messages[j].messageId != row.messageId
      {
        if messages[i].messageId == row.messageId {
          return false;
        }
        i := i + 1;
      }
      var last := if messages == [] then 0 else messages[|messages| - 1].id;
      messages := messages + [row.(id := last + 1)];
      return true;
    }

    // ---- group handlers ----

    /** Enrols the members a create lists; entries without a usable DID are skipped. */
    method AddInitialMembers(gid: string, raw: seq<Json>, env: Env)
      modifies this`members
      ensures members == G.Enrolled(old(members), gid, raw, env)
    {
      var i := 0;
      while i < |raw|
        modifies this`members
        invariant i <= |raw|
        invariant members == G.Enrolled(old(members), gid, raw[..i], env)
      {
        assert raw[..i + 1][..i] == raw[..i];
        var m := MapOrEmpty(raw[i]);
        var did := StringAt(m, "member_did");
        var handle := StringAt(m, "member_handle");
        i := i + 1;
        if handle != "" {
          var resolved := G.ResolveMember(handle, env);
          if resolved.None? {
            continue;
          }
          did := resolved.value;
        }
        if did == "" {
          continue;
        }
        var role := StringAt(m, "role");
        if role == "" {
          role := "member";
        }
        AddGroupMember(gid, did, role, env.now);
      }
      assert raw[..|raw|] == raw;
    }

    method GroupCreate(authDid: string, params: Fields, env: Env) returns (r: Result<Response>)
      modifies this`groups, this`members
      ensures G.Out(ChatState(), r) == G.CreateGroup(old(ChatState()), authDid, CreateCall(params), env)
    {
      var body := Body(params);
      var policy := AsMap(Get(body, "group_policy"));
      if policy.None? {
        return Err(INVALID_PARAMS);
      }
      var creator := authDid;
      if creator == "" {
        creator := Sender(params);
      }
      if creator == "" {
        return Err(INVALID_PARAMS);
      }
      var gid := env.groupId;
      var profile := AsMap(Get(body, "group_profile"));
      if gid in groups {
        return Err(INTERNAL);
      }
      groups := groups[gid := GroupRow(policy.value, profile, creator, 0, 0, Seconds(env.now))];
      AddGroupMember(gid, creator, "owner", env.now);
      AddInitialMembers(gid, ArrayItems(Get(body, "initial_members")), env);
      return Ok(GroupCreated(gid, groups[gid].version, Seconds(env.now), creator, ToJson(profile), policy.value));
    }

    method GroupMemberList(gid: string) returns (list: seq<MemberEntry>)
      ensures list == G.MemberList(ChatState(), gid)
    {
      list := [];
      var dids := G.ActiveDids(ChatState(), gid);
      var i := 0;
      while i < |dids|
        invariant i <= |dids| && |list| == i
        invariant forall j | 0 <= j < i :: list[j] == G.MemberList(ChatState(), gid)[j]
      {
        assert dids[i] in dids;
        var row := members[MemberKey(gid, dids[i])];
        list := list + [MemberEntry(dids[i], row.role, row.status, row.joinedAt)];
        i := i + 1;
      }
    }

    method GroupGetInfo(params: Fields) returns (r: Result<Response>)
      ensures r == G.Info(ChatState(), GetInfoCall(params))
    {
      var gid := GroupDidFromParams(params);
      if gid == "" {
        return Err(INVALID_PARAMS);
      }
      if gid !in groups {
        return Err(DID_NOT_FOUND);
      }
      var row := groups[gid];
      var body := Body(params);
      var policy: Option<Fields> := None;
      if AsBool(Get(body, "include_policy")) {
        policy := Some(row.policy);
      }
      var listed: Option<Members> := None;
      if AsBool(Get(body, "include_member_list")) {
        var list := GroupMemberList(gid);
        listed := Some(Members(list, Decimal(|list|)));
      }
      return Ok(GroupInfo(gid, row.version, ToJson(row.profile), policy, listed));
    }

    method GroupJoin(authDid: string, params: Fields, env: Env) returns (r: Result<Response>)
      modifies this`groups, this`members
      ensures G.Out(ChatState(), r) == G.JoinGroup(old(ChatState()), authDid, JoinCall(params), env)
    {
      var gid := GroupDidFromParams(params);
      if gid == "" {
        return Err(INVALID_PARAMS);
      }
      var member := authDid;
      if member == "" {
        member := Sender(params);
      }
      if gid !in groups {
        return Err(DID_NOT_FOUND);
      }
      var admission := StringAt(groups[gid].policy, "admission_mode");
      if admission != "" && admission != "open-join" {
        return Err(INTERNAL);
      }
      if G.IsMember(ChatState(), gid, member) {
        return Ok(Joined(gid, member, groups[gid].version));
      }
      JoinGroupMember(gid, member, env.now);
      var version := BumpGroupStateVersion(gid);
      return Ok(Joined(gid, member, version.value));
    }

    method GroupAdd(authDid: string, params: Fields, env: Env) returns (r: Result<Response>)
      modifies this`groups, this`members
      ensures G.Out(ChatState(), r) == G.AddMember(old(ChatState()), authDid, AddCall(params), env)
    {
      var gid := GroupDidFromParams(params);
      if gid == "" {
        return Err(INVALID_PARAMS);
      }
      if !G.Permitted(ChatState(), gid, authDid, "add") {
        return Err(INTERNAL);
      }
      var body := Body(params);
      var member := StringAt(body, "member_did");
      var handle := StringAt(body, "member_handle");
      if member == "" && handle == "" {
        return Err(INVALID_PARAMS);
      }
      if handle != "" {
        var resolved := G.ResolveMember(handle, env);
        if resolved.None? {
          return Err(INTERNAL);
        }
        member := resolved.value;
      }
      AddGroupMember(gid, member, StringAt(body, "role"), env.now);
      var version := BumpGroupStateVersion(gid);
      if version.Err? {
        return Err(version.code);
      }
      return Ok(Joined(gid, member, version.value));
    }

    method GroupRemove(authDid: string, params: Fields) returns (r: Result<Response>)
      modifies this`groups, this`members
      ensures G.Out(ChatState(), r) == G.RemoveMember(old(ChatState()), authDid, RemoveCall(params))
    {
      var gid := GroupDidFromParams(params);
      if gid == "" {
        return Err(INVALID_PARAMS);
      }
      var member := StringAt(Body(params), "member_did");
      if member == "" {
        return Err(INVALID_PARAMS);
      }
      if !G.Permitted(ChatState(), gid, authDid, "remove") {
        return Err(INTERNAL);
      }
      var owner := "";
      if gid in groups {
        owner := groups[gid].owner;
      }
      if member == owner {
        return Err(INTERNAL);
      }
      members := members - {MemberKey(gid, member)};
      var version := BumpGroupStateVersion(gid);
      if version.Err? {
        return Err(version.code);
      }
      return Ok(Removed(gid, member, version.value));
    }

    method GroupLeave(authDid: string, params: Fields) returns (r: Result<Response>)
      modifies this`groups, this`members
      ensures G.Out(ChatState(), r) == G.LeaveGroup(old(ChatState()), authDid, LeaveCall(params))
    {
      var gid := GroupDidFromParams(params);
      if gid == "" {
        return Err(INVALID_PARAMS);
      }
      var leaver := authDid;
      if leaver == "" {
        leaver := Sender(params);
      }
      members := members - {MemberKey(gid, leaver)};
      var version := BumpGroupStateVersion(gid);
      if version.Err? {
        return Err(version.code);
      }
      return Ok(Left(gid, leaver, version.value));
    }

    method GroupUpdateProfile(authDid: string, params: Fields) returns (r: Result<Response>)
      modifies this`groups
      ensures G.Out(ChatState(), r) == G.UpdateGroupProfile(old(ChatState()), authDid, UpdateProfileCall(params))
    {
      var gid := GroupDidFromParams(params);
      if gid == "" {
        return Err(INVALID_PARAMS);
      }
      if !G.Permitted(ChatState(), gid, authDid, "update_profile") {
        return Err(INTERNAL);
      }
      var body := Body(params);
      var patch := AsMap(Get(body, "group_profile_patch"));
      var profile: Fields := map[];
      if patch.Some? {
        if gid !in groups {
          return Err(DID_NOT_FOUND);
        }
        if groups[gid].profile.Some? {
          profile := groups[gid].profile.value;
        }
        profile := MergePatch.Merge(profile, patch.value);
      } else {
        var replacement := AsMap(Get(body, "group_profile"));
        if replacement.None? {
          return Err(INVALID_PARAMS);
        }
        profile := replacement.value;
      }
      if gid in groups {
        groups := groups[gid := groups[gid].(profile := Some(profile))];
      }
      var version := BumpGroupStateVersion(gid);
      if version.Err? {
        return Err(version.code);
      }
      return Ok(ProfileUpdated(gid, version.value, profile));
    }

    method GroupUpdatePolicy(authDid: string, params: Fields) returns (r: Result<Response>)
      modifies this`groups
      ensures G.Out(ChatState(), r) == G.UpdateGroupPolicy(old(ChatState()), authDid, UpdatePolicyCall(params))
    {
      var gid := GroupDidFromParams(params);
      if gid == "" {
        return Err(INVALID_PARAMS);
      }
      if !G.Permitted(ChatState(), gid, authDid, "update_policy") {
        return Err(INTERNAL);
      }
      var body := Body(params);
      var patch := AsMap(Get(body, "group_policy_patch"));
      var policy: Fields := map[];
      if patch.Some? {
        if gid !in groups {
          return Err(DID_NOT_FOUND);
        }
        policy := MergePatch.Merge(groups[gid].policy, patch.value);
      } else {
        var replacement := AsMap(Get(body, "group_policy"));
        if replacement.None? {
          return Err(INVALID_PARAMS);
        }
        policy := replacement.value;
      }
      if gid in groups {
        groups := groups[gid := groups[gid].(policy := policy)];
      }
      var version := BumpGroupStateVersion(gid);
      if version.Err? {
        return Err(version.code);
      }
      return Ok(PolicyUpdated(gid, version.value, policy));
    }

    /** The groups a DID is an active member of, one entry per row. */
    method GroupsByMember(did: string) returns (gids: seq<string>)
      ensures forall g :: g in gids <==> g in G.GroupsOf(ChatState(), did)
      ensures forall i, j | 0 <= i < j < |gids| :: gids[i] != gids[j]
    {
      gids := [];
      var rows := members.Keys;
      while rows != {}
        invariant rows <= members.Keys
        invariant forall g :: g in gids <==>
          var k := MemberKey(g, did); k in members && k !in rows && members[k].status == "active"
        invariant forall i, j | 0 <= i < j < |gids| :: gids[i] != gids[j]
        decreases rows
      {
        var k :| k in rows;
        rows := rows - {k};
        if k.did == did && members[k].status == "active" {
          gids := gids + [k.group];
        }
      }
    }

    method GroupRebindMember(authDid: string, params: Fields) returns (r: Result<Response>)
      modifies this`groups, this`members
      ensures G.Out(ChatState(), r) == G.RebindMember(old(ChatState()), authDid, RebindCall(params))
    {
      var body := Body(params);
      var handle := StringAt(body, "member_handle");
      var previous := StringAt(body, "previous_member_did");
      var next := StringAt(body, "new_member_did");
      if handle == "" || previous == "" || next == "" {
        return Err(INVALID_PARAMS);
      }
      var gid := GroupDidFromParams(params);
      if gid == "" {
        var gids := GroupsByMember(previous);
        var all := G.GroupsOf(ChatState(), previous);
        if |gids| != 1 {
          NoSingleGroup(gids, all);
          return Err(INTERNAL);
        }
        gid := gids[0];
        assert all == {gid};
      }
      if authDid != "" && authDid != next {
        return Err(INTERNAL);
      }
      var from, to := MemberKey(gid, previous), MemberKey(gid, next);
      if from !in members {
        return Err(INTERNAL);
      }
      if to != from && to in members {
        return Err(INTERNAL);
      }
      var row := members[from];
      members := members - {from};
      members := members[to := row];
      var version := BumpGroupStateVersion(gid);
      if version.Err? {
        return Err(version.code);
      }
      return Ok(Rebound(gid, handle, previous, next, Get(body, "handle_binding_generation"), version.value));
    }

    // ---- sends ----

    /** The statements both group sends end with. */
    method AcceptGroupMessage(gid: string, messageId: string, operationId: string, sender: string, kind: Kind,
                              text: string, secure: bool, epoch: Option<string>, params: Fields, env: Env)
        returns (r: Result<Response>)
      modifies this`groups, this`messages
      ensures var s := G.Send(gid, messageId, operationId, StringAt(Meta(params), "content_type"), Sender(params),
                              HasAuth(params), MetaJson(params), BodyJson(params));
              G.Out(ChatState(), r) == G.AcceptSend(old(ChatState()), s, sender, kind, text, secure, epoch, env)
    {
      var eventSeq := NextGroupEventSeq(gid);
      if eventSeq.Err? {
        return Err(eventSeq.code);
      }
      var version := groups[gid].version;
      var inserted := InsertMessage(
        Message(0, messageId, sender, None, Some(gid), kind, text, secure, Seconds(env.now),
                Some(MetaJson(params)), Some(BodyJson(params))));
      if !inserted {
        return Err(INTERNAL);
      }
      return Ok(SendAck(gid, messageId, operationId, eventSeq.value, version, Seconds(env.now), epoch));
    }

    method GroupSend(authDid: string, params: Fields, env: Env) returns (r: Result<Response>)
      modifies this`groups, this`messages
      ensures G.Out(ChatState(), r) == G.SendPlainMessage(old(ChatState()), authDid, SendPlainCall(params), env)
    {
      var meta, body := Meta(params), Body(params);
      var gid := TargetDid(params);
      if gid == "" {
        gid := GroupDidFromParams(params);
      }
      if gid == "" {
        return Err(INVALID_PARAMS);
      }
      var messageId := StringAt(meta, "message_id");
      var operationId := StringAt(meta, "operation_id");
      if messageId == "" {
        return Err(INVALID_PARAMS);
      }
      if operationId == "" {
        return Err(INVALID_PARAMS);
      }
      if StringAt(meta, "content_type") == "" {
        return Err(INVALID_PARAMS);
      }
      var sender := authDid;
      if sender == "" {
        sender := Sender(params);
      }
      if !G.IsMember(ChatState(), gid, sender) {
        return Err(INTERNAL);
      }
      var payload := ClassifyPayload(body);
      if payload.None? {
        return Err(INVALID_PARAMS);
      }
      if payload.value.kind == JsonPayload && !env.mentionsOk {
        return Err(INVALID_PARAMS);
      }
      if HasAuth(params) && !env.proofOk {
        return Err(INTERNAL);
      }
      r := AcceptGroupMessage(gid, messageId, operationId, sender, payload.value.kind, payload.value.text, false, None,
                              params, env);
    }

    method GroupE2eeSend(authDid: string, params: Fields, env: Env) returns (r: Result<Response>)
      modifies this`groups, this`messages
      ensures G.Out(ChatState(), r) == G.SendCipherMessage(old(ChatState()), authDid, SendCipherCall(params), env)
    {
      var meta, body := Meta(params), Body(params);
      if !HasBody(params) {
        return Err(INVALID_PARAMS);
      }
      var gid := TargetDid(params);
      if gid == "" {
        gid := CipherGroupDid(body);
      }
      if gid == "" {
        return Err(INVALID_PARAMS);
      }
      var messageId := StringAt(meta, "message_id");
      var operationId := StringAt(meta, "operation_id");
      if messageId == "" || operationId == "" {
        return Err(INVALID_PARAMS);
      }
      if StringAt(meta, "content_type") != "application/anp-group-cipher+json" {
        return Err(INVALID_PARAMS);
      }
      var sender := authDid;
      if sender == "" {
        sender := Sender(params);
      }
      if !G.IsMember(ChatState(), gid, sender) {
        return Err(INTERNAL);
      }
      if !CipherFields(body) {
        return Err(INVALID_PARAMS);
      }
      if HasAuth(params) && !env.proofOk {
        return Err(INTERNAL);
      }
      r := AcceptGroupMessage(gid, messageId, operationId, sender, Cipher, "", true, Some(StringAt(body, "epoch")),
                              params, env);
    }

    method GroupE2eeNotice(params: Fields, env: Env) returns (r: Result<Response>)
      modifies this`messages
      ensures G.Out(ChatState(), r) == G.SendNoticeMessage(old(ChatState()), SendNoticeCall(params), env)
    {
      var check := NoticeCheck(params);
      if check.Err? {
        return Err(check.code);
      }
      var target := TargetDid(params);
      if target != "" {
        var _ := InsertMessage(
          Message(0, G.NoticeId(env.now), Sender(params), Some(target), Some(StringAt(Body(params), "group_did")),
                  Notice, "", false, Seconds(env.now), Some(MetaJson(params)), Some(BodyJson(params))));
      }
      return Ok(Accepted);
    }

    method DirectSend(authDid: string, params: Fields, env: Env) returns (r: Result<Response>)
      modifies this`messages
      ensures G.Out(ChatState(), r) == G.SendDirectMessage(old(ChatState()), authDid, SendDirectCall(params), env)
    {
      var meta, body := Meta(params), Body(params);
      var peer := TargetDid(params);
      var messageId := StringAt(meta, "message_id");
      var operationId := StringAt(meta, "operation_id");
      var sender := authDid;
      if sender == "" {
        sender := Sender(params);
      }
      if messageId == "" {
        return Err(INTERNAL);
      }
      var secure, kind, text := true, Text, "";
      if IsPlaintextDirect(params) {
        secure := false;
        var payload := ClassifyPayload(body);
        if payload.None? {
          return Err(INVALID_PARAMS);
        }
        kind, text := payload.value.kind, payload.value.text;
        if !HasAuth(params) {
          return Err(INTERNAL);
        }
        if !env.proofOk {
          return Err(INTERNAL);
        }
      } else if sender != "" {
        if HasAuth(params) && !env.proofOk {
          return Err(INTERNAL);
        }
      }
      var inserted := InsertMessage(
        Message(0, messageId, sender, Some(peer), None, kind, text, secure, Seconds(env.now),
                Some(MetaJson(params)), Some(BodyJson(params))));
      if !inserted {
        return Err(INTERNAL);
      }
      return Ok(DirectAck(messageId, operationId, peer, Seconds(env.now)));
    }

    /** Walks the log from the newest row, stopping after limit visible rows. */
    method MsgInbox(authDid: string, params: Fields) returns (r: Result<Response>)
      ensures r == Ok(InboxPage(G.Items(G.Page(ChatState(), authDid, InboxLimit(params)))))
    {
      var limit := InboxLimit(params);
      var items: seq<InboxItem> := [];
      ghost var rows: seq<Message> := [];
      ghost var all := G.VisibleDesc(members, authDid, messages, |messages|);
      var i, taken := |messages|, 0;
      while i > 0 && taken < limit
        invariant 0 <= i <= |messages| && taken == |rows| <= limit
        invariant rows + G.VisibleDesc(members, authDid, messages, i) == all
        invariant items == G.Items(rows)
        decreases i
      {
        i := i - 1;
        var m := messages[i];
        if G.Visible(members, authDid, m) {
          taken := taken + 1;
          ItemsAppend(rows, m);
          rows := rows + [m];
          if m.meta.None? || m.body.None? {
            continue;
          }
          items := items + [InboxItem(m.id, m.meta.value, m.body.value)];
        }
      }
      assert rows == G.Page(ChatState(), authDid, limit);
      return Ok(InboxPage(items));
    }

    // ---- prekeys ----

    method InsertPrekey(owner: string, prekey: Json)
      modifies this`prekeys
      ensures prekeys == P.InsertRow(old(prekeys), owner, prekey)
    {
      var largest, i := 0, 0;
      while i < |prekeys|
        invariant i <= |prekeys|
        invariant largest == P.MaxRowid(prekeys[..i])
      {
        assert prekeys[..i + 1][..i] == prekeys[..i];
        if largest < prekeys[i].rowid {
          largest := prekeys[i].rowid;
        }
        i := i + 1;
      }
      assert prekeys[..|prekeys|] == prekeys;
      prekeys := prekeys + [PrekeyRow(largest + 1, owner, prekey)];
    }

    method E2eePublishPrekeyBundle(authDid: string, params: Fields, env: Env) returns (r: Result<Response>)
      modifies this`bundles, this`prekeys
      ensures P.Out(KeyState(), r) == P.PublishBundle(old(KeyState()), authDid, PublishCall(params), env)
    {
      var body := Body(params);
      var bundle := AsMap(Get(body, "prekey_bundle"));
      var owner, bundleId := "", "";
      if bundle.Some? {
        owner, bundleId := StringAt(bundle.value, "owner_did"), StringAt(bundle.value, "bundle_id");
      }
      if authDid != "" {
        owner := authDid;
      }
      if owner == "" {
        return Err(INTERNAL);
      }
      bundles := bundles[owner := ToJson(bundle)];
      var raw := Get(body, "one_time_prekeys");
      if raw.Arr? {
        var entries := raw.items;
        var i := 0;
        while i < |entries|
          modifies this`prekeys
          invariant i <= |entries|
          invariant prekeys == P.InsertAll(old(prekeys), owner, entries[..i])
        {
          assert entries[..i + 1][..i] == entries[..i];
          InsertPrekey(owner, entries[i]);
          i := i + 1;
        }
        assert entries[..|entries|] == entries;
        prekeys := P.DeleteUnlisted(prekeys, owner, P.NewestRowids(prekeys, owner, 100));
      }
      return Ok(PrekeysPublished(owner, bundleId, Seconds(env.now)));
    }

    method E2eeGetPrekeyBundle(params: Fields) returns (r: Result<Response>)
      modifies this`prekeys
      ensures P.Out(KeyState(), r) == P.TakeBundle(old(KeyState()), GetBundleCall(params))
    {
      var body := Body(params);
      var target := StringAt(body, "target_did");
      if target !in bundles {
        return Err(DID_NOT_FOUND);
      }
      var served: Option<Json> := None;
      if AsBool(Get(body, "require_opk")) {
        var oldest := P.Oldest(prekeys, target);
        if oldest.None? {
          return Err(OPK_UNAVAILABLE);
        }
        served := Some(if oldest.value.Obj? then oldest.value else Null);
        prekeys := P.DeleteEqual(prekeys, target, oldest.value);
      }
      return Ok(PrekeyBundle(target, bundles[target], served));
    }

    // ---- attachments ----

    method AttachmentCreateSlot(authDid: string, params: Fields, env: Env) returns (r: Result<Response>)
      modifies this`slots
      ensures A.Out(FileState(), r) == A.CreateUploadSlot(cfg, old(FileState()), authDid, CreateSlotCall(params), env)
    {
      var body := Body(params);
      if !HasBody(params) {
        return Err(INVALID_PARAMS);
      }
      var attachmentId := StringAt(body, "attachment_id");
      if attachmentId == "" {
        return Err(INVALID_PARAMS);
      }
      var profile := StringAt(body, "intended_message_security_profile");
      if profile == "" {
        return Err(INVALID_PARAMS);
      }
      if profile != "transport-protected" && profile != "direct-e2ee" && profile != "group-e2ee" {
        return Err(ENCRYPTION_POLICY_VIOLATION);
      }
      var mode := StringAt(body, "object_encryption_mode");
      if mode == "" {
        return Err(INVALID_PARAMS);
      }
      if mode != "none" && mode != "object-e2ee" {
        return Err(ENCRYPTION_POLICY_VIOLATION);
      }
      var deadline := Seconds(env.now + A.SLOT_TTL);
      var base := env.baseUrl;
      if base == "" {
        base := cfg.baseUrl;
      }
      var uploadUri := base + "/upload/" + env.slotId;
      var objectUri := base + A.OBJECTS + env.objectId;
      var size := A.BindColumn(Get(body, "expected_size"));
      if size.None? || A.BindColumn(Get(body, "mime_type")).None? || A.BindColumn(Get(body, "filename")).None? {
        return Err(INTERNAL);
      }
      if env.slotId in slots {
        return Err(INTERNAL);
      }
      slots := slots[env.slotId := Slot(attachmentId, env.objectId, uploadUri, objectUri, env.commitToken, Created,
                                        mode, size.value, None, deadline, Seconds(env.now), authDid)];
      return Ok(SlotCreated(attachmentId, env.slotId, uploadUri, objectUri, env.commitToken, deadline,
                            AsMap(Get(body, "upload_headers"))));
    }

    method AttachmentCommitObject(params: Fields, env: Env) returns (r: Result<Response>)
      modifies this`slots
      ensures A.Out(FileState(), r) == A.CommitObject(cfg, old(FileState()), CommitCall(params), env)
    {
      var body := Body(params);
      if !HasBody(params) {
        return Err(INVALID_PARAMS);
      }
      var attachmentId, slotId, token :=
        StringAt(body, "attachment_id"), StringAt(body, "slot_id"), StringAt(body, "commit_token");
      if attachmentId == "" || slotId == "" || token == "" {
        return Err(INVALID_PARAMS);
      }
      if slotId !in slots {
        return Err(SLOT_NOT_FOUND);
      }
      var slot := slots[slotId];
      if slot.attachmentId != attachmentId {
        return Err(SLOT_NOT_FOUND);
      }
      if slot.commitToken != token {
        return Err(COMMIT_TOKEN_INVALID);
      }
      if slot.status != Created {
        return Err(OBJECT_UNAVAILABLE);
      }
      if Expired(env.now, slot.expiresAt) {
        return Err(SLOT_EXPIRED);
      }
      if slot.objectId !in objects {
        return Err(OBJECT_UNAVAILABLE);
      }
      var obj := objects[slot.objectId];
      var declared := SizeToInt64(Get(body, "size"));
      if declared.Some? && declared.value != obj.size {
        return Err(DIGEST_MISMATCH);
      }
      var digest := AsMap(Get(body, "digest"));
      if digest.Some? {
        var alg, value := StringAt(digest.value, "alg"), StringAt(digest.value, "value_b64u");
        if alg != "" && alg != "sha-256" {
          return Err(DIGEST_MISMATCH);
        }
        if value != "" && value != cfg.digest(obj.data) {
          return Err(DIGEST_MISMATCH);
        }
      }
      slots := slots[slotId := slot.(status := Committed, actual := Some(Recorded(obj.size, obj.digest)))];
      return Ok(ObjectCommitted(attachmentId, slot.objectUri, Seconds(env.now)));
    }

    method AttachmentAbortObject(params: Fields, env: Env) returns (r: Result<Response>)
      modifies this`slots
      ensures A.Out(FileState(), r) == A.AbortObject(old(FileState()), AbortCall(params), env)
    {
      var body := Body(params);
      if !HasBody(params) {
        return Err(INVALID_PARAMS);
      }
      var attachmentId, slotId := StringAt(body, "attachment_id"), StringAt(body, "slot_id");
      if attachmentId == "" || slotId == "" {
        return Err(INVALID_PARAMS);
      }
      if slotId !in slots {
        return Err(SLOT_NOT_FOUND);
      }
      if slots[slotId].attachmentId != attachmentId {
        return Err(SLOT_NOT_FOUND);
      }
      slots := slots[slotId := slots[slotId].(status := Aborted)];
      return Ok(ObjectAborted(attachmentId, Seconds(env.now)));
    }

    /** The newest slot for a binding. */
    method FindSlot(b: Binding) returns (found: Option<string>)
      ensures found.Some? ==> A.NewestFor(FileState(), b, found.value)
      ensures found.None? ==> forall s | s in slots :: !A.ForBinding(slots[s], b)
    {
      found := None;
      var todo := slots.Keys;
      while todo != {}
        invariant todo <= slots.Keys
        invariant found.Some? ==> found.value in slots && A.ForBinding(slots[found.value], b)
        invariant forall s | s in slots && s !in todo && A.ForBinding(slots[s], b) ::
          found.Some? && slots[s].createdAt <= slots[found.value].createdAt
        decreases todo
      {
        var s :| s in todo;
        todo := todo - {s};
        if A.ForBinding(slots[s], b) && (found.None? || slots[found.value].createdAt < slots[s].createdAt) {
          found := Some(s);
        }
      }
    }

    method AttachmentGetDownloadTicket(authDid: string, params: Fields, env: Env) returns (r: Result<Response>)
      requires FileSafety.Inv(cfg, FileState())
      modifies this`tickets
      ensures A.Out(FileState(), r) == A.IssueDownloadTicket(old(FileState()), authDid, IssueTicketCall(params), env)
    {
      hide FileSafety.Inv, A.NewestFor, A.GrantedSlot;
      var body := Body(params);
      if !HasBody(params) {
        return Err(INVALID_PARAMS);
      }
      var attachmentId, objectUri, requester :=
        StringAt(body, "attachment_id"), StringAt(body, "object_uri"), StringAt(body, "requester_did");
      if attachmentId == "" || objectUri == "" || requester == "" {
        return Err(INVALID_PARAMS);
      }
      var sender := Sender(params);
      if sender != "" && requester != sender {
        return Err(UNAUTHORIZED);
      }
      if authDid != "" && requester != authDid {
        return Err(UNAUTHORIZED);
      }
      var messageId, profile := StringAt(body, "message_id"), StringAt(body, "message_security_profile");
      if messageId == "" || profile == "" {
        return Err(INVALID_PARAMS);
      }
      var binding := Binding(attachmentId, objectUri, requester, messageId, profile,
                             StringAt(body, "message_target_did"), StringAt(body, "group_did"));
      var found := FindSlot(binding);
      GrantIsFound(binding, found);
      if found.None? {
        return Err(GRANT_NOT_FOUND);
      }
      if slots[found.value].status != Committed {
        return Err(OBJECT_UNAVAILABLE);
      }
      var deadline := Seconds(env.now + A.TICKET_TTL);
      if env.ticket in tickets {
        return Err(INTERNAL);
      }
      tickets := tickets[env.ticket := Ticket(binding, deadline)];
      return Ok(TicketIssued(env.ticket, deadline, binding));
    }

    lemma GrantIsFound(b: Binding, found: Option<string>)
      requires FileSafety.Inv(cfg, FileState())
      requires found.Some? ==> A.NewestFor(FileState(), b, found.value)
      requires found.None? ==> forall s | s in slots :: !A.ForBinding(slots[s], b)
      ensures A.GrantedSlot(FileState(), b) == found
    {
      var f := FileState();
      if found.Some? {
        var granted := A.GrantedSlot(f, b).value;
        FileSafety.UriNamesOneSlot(cfg, f, granted, found.value);
      }
    }

    method HandleUpload(slotId: string, content: seq<byte>, now: nat) returns (reply: A.UploadReply)
      requires Valid()
      modifies this`objects
      ensures Valid()
      ensures Out(State(), PutReply(reply)) == Step(cfg, old(State()), Put(slotId, content, now))
    {
      hide FileSafety.Inv, FileSafety.Evolves, ChatSafety.Inv, P.Inv;
      FileSafety.UploadIsSafe(cfg, FileState(), slotId, content, now);
      if slotId !in slots {
        return A.UploadRefused(A.SlotNotFound);
      }
      var slot := slots[slotId];
      if slot.status != Created {
        return A.UploadRefused(A.ObjectUnavailable);
      }
      if Expired(now, slot.expiresAt) {
        return A.UploadRefused(A.SlotPastDeadline);
      }
      var limit := A.MAX_UPLOAD_BYTES + 1;
      var data := if |content| <= limit then content else content[..limit];
      if |data| > A.MAX_UPLOAD_BYTES {
        return A.UploadRefused(A.ObjectTooLarge);
      }
      if slot.expectedSize.SqlText? {
        var expected := SizeToInt64(Str(slot.expectedSize.text));
        if expected.Some? && expected.value != |data| {
          return A.UploadRefused(A.ObjectTooLarge);
        }
      }
      objects := objects[slot.objectId := Object(data, |data|, cfg.digest(data))];
      return A.Uploaded(|data|);
    }

    method HandleDownload(objectId: string, authorization: string, now: nat) returns (reply: A.DownloadReply)
      ensures Out(State(), FetchReply(reply)) == Step(cfg, State(), Fetch(objectId, authorization, now))
    {
      if !HasPrefix(authorization, A.BEARER) {
        return A.DownloadRefused(A.TicketInvalid);
      }
      var key := TrimSpace(authorization[|A.BEARER|..]);
      if key !in tickets {
        return A.DownloadRefused(A.TicketInvalid);
      }
      var ticket := tickets[key];
      if Expired(now, ticket.expiresAt) {
        return A.DownloadRefused(A.TicketPastDeadline);
      }
      if ticket.binding.objectUri == "" {
        return A.DownloadRefused(A.TicketInvalid);
      }
      if !A.ObjectUriMatches(ticket.binding.objectUri, objectId) {
        return A.DownloadRefused(A.BindingMismatch);
      }
      if objectId !in objects {
        return A.DownloadRefused(A.ObjectUnavailable);
      }
      return A.Bytes(objects[objectId].data);
    }

    // ---- routing ----

    method DispatchChat(name: string, params: Fields, authDid: string, env: Env) returns (r: Result<Response>)
      requires ParseChat(name, params).Some?
      modifies this`groups, this`members, this`messages
      ensures G.Out(ChatState(), r) == G.Handle(old(ChatState()), authDid, ParseChat(name, params).value, env)
    {
      r := Err(UNKNOWN_METHOD);
      hide G.Info, G.Page, G.Items;
      hide G.CreateGroup, G.JoinGroup, G.AddMember, G.RemoveMember, G.LeaveGroup, G.UpdateGroupProfile;
      hide G.UpdateGroupPolicy, G.RebindMember, G.SendPlainMessage, G.SendCipherMessage, G.SendNoticeMessage;
      hide G.SendDirectMessage;
      hide CreateCall, GetInfoCall, JoinCall, AddCall, RemoveCall, LeaveCall, UpdateProfileCall, UpdatePolicyCall;
      hide RebindCall, SendPlainCall, SendCipherCall, SendNoticeCall, SendDirectCall;
      if name == "msg.inbox" {
        r := MsgInbox(authDid, params);
      } else if name == "direct.send" {
        r := DirectSend(authDid, params, env);
      } else if name == "group.create" {
        r := GroupCreate(authDid, params, env);
      } else if name == "group.get_info" {
        r := GroupGetInfo(params);
      } else if name == "group.join" {
        r := GroupJoin(authDid, params, env);
      } else if name == "group.add" {
        r := GroupAdd(authDid, params, env);
      } else if name == "group.remove" {
        r := GroupRemove(authDid, params);
      } else if name == "group.leave" {
        r := GroupLeave(authDid, params);
      } else if name == "group.update_profile" {
        r := GroupUpdateProfile(authDid, params);
      } else if name == "group.update_policy" {
        r := GroupUpdatePolicy(authDid, params);
      } else if name == "group.send" {
        r := GroupSend(authDid, params, env);
      } else if name == "group.rebind_member" {
        r := GroupRebindMember(authDid, params);
      } else if name == "group.e2ee.send" {
        r := GroupE2eeSend(authDid, params, env);
      } else if name == "group.e2ee.notice" {
        r := GroupE2eeNotice(params, env);
      }
    }

    method DispatchKeys(name: string, params: Fields, authDid: string, env: Env) returns (r: Result<Response>)
      requires ParseKeys(name, params).Some?
      modifies this`bundles, this`prekeys
      ensures P.Out(KeyState(), r) == P.Handle(old(KeyState()), authDid, ParseKeys(name, params).value, env)
    {
      r := Err(UNKNOWN_METHOD);
      if name == "direct.e2ee.publish_prekey_bundle" {
        r := E2eePublishPrekeyBundle(authDid, params, env);
      } else if name == "direct.e2ee.get_prekey_bundle" {
        r := E2eeGetPrekeyBundle(params);
      }
    }

    method DispatchFiles(name: string, params: Fields, authDid: string, env: Env) returns (r: Result<Response>)
      requires ParseFiles(name, params).Some? && FileSafety.Inv(cfg, FileState())
      modifies this`slots, this`tickets
      ensures A.Out(FileState(), r) == A.Handle(cfg, old(FileState()), authDid, ParseFiles(name, params).value, env)
    {
      hide FileSafety.Inv, A.CreateUploadSlot, A.CommitObject, A.AbortObject, A.IssueDownloadTicket;
      r := Err(UNKNOWN_METHOD);
      if name == "attachment.create_slot" {
        r := AttachmentCreateSlot(authDid, params, env);
      } else if name == "attachment.commit_object" {
        r := AttachmentCommitObject(params, env);
      } else if name == "attachment.abort_object" {
        r := AttachmentAbortObject(params, env);
      } else if name == "attachment.get_download_ticket" {
        r := AttachmentGetDownloadTicket(authDid, params, env);
      }
    }

    /** The routing switch; methods outside the model bring their outcome with them. */
    method Dispatch(name: string, params: Fields, authDid: string, outside: Result<Json>, env: Env)
        returns (r: Result<Response>)
      requires FileSafety.Inv(cfg, FileState())
      modifies this
      ensures (State(), r) == Execute(cfg, old(State()), authDid, ParseCall(name, params, outside), env)
      ensures idempotency == old(idempotency)
    {
      hide FileSafety.Inv, ParseChat, ParseKeys, ParseFiles, G.Handle, P.Handle, A.Handle;
      if ParseChat(name, params).Some? {
        r := DispatchChat(name, params, authDid, env);
      } else if ParseKeys(name, params).Some? {
        r := DispatchKeys(name, params, authDid, env);
      } else if ParseFiles(name, params).Some? {
        r := DispatchFiles(name, params, authDid, env);
      } else if name == "direct.incoming" || name == "group.incoming" || name == "group.state_changed" {
        r := Ok(Other(ACCEPTED));
      } else if name in OUTSIDE {
        match outside
        case Ok(v) => r := Ok(Other(v));
        case Err(code) => r := Err(code);
      } else {
        r := Err(UNKNOWN_METHOD);
      }
    }

    /** One request under the lock: answer from the cache, or run the handler and cache a success. */
    method DispatchIdempotent(name: string, params: Fields, authDid: string, outside: Result<Json>, env: Env)
        returns (r: Result<Response>)
      requires Valid()
      requires FileRuns.FreshEvent(State(), Rpc(authDid, name, OperationIdFromParams(params),
                                                ParseCall(name, params, outside), env))
      modifies this
      ensures Valid()
      ensures Out(State(), RpcReply(r)) ==
              Step(cfg, old(State()), Rpc(authDid, name, OperationIdFromParams(params),
                                          ParseCall(name, params, outside), env))
    {
      hide Execute, ParseCall, OperationIdFromParams, FileRuns.FreshEvent, FileSafety.Inv, P.Inv, ChatSafety.Inv;
      var operationId := OperationIdFromParams(params);
      ghost var e := Rpc(authDid, name, operationId, ParseCall(name, params, outside), env);
      StepKeepsValid(e);
      if operationId == "" {
        r := Dispatch(name, params, authDid, outside, env);
        return;
      }
      var key := authDid + "\0" + name + "\0" + operationId;
      if key in idempotency {
        return Ok(idempotency[key]);
      }
      r := Dispatch(name, params, authDid, outside, env);
      if r.Err? {
        return;
      }
      if key !in idempotency {
        idempotency := idempotency[key := r.value];
      }
    }

    lemma StepKeepsValid(e: Event)
      requires Valid() && FileRuns.FreshEvent(State(), e)
      ensures var db := Step(cfg, State(), e).db;
              ChatSafety.Inv(db.chat) && P.Inv(db.keys) && FileSafety.Inv(cfg, db.files)
    {
      hide Step;
      ChatRuns.ChatStep(cfg, State(), e);
      KeyRuns.KeyStep(cfg, State(), e);
      FileRuns.FileStep(cfg, State(), e);
    }
  }

  /** Distinct entries for the members of a set: not one entry means not one member. */
  lemma NoSingleGroup(gids: seq<string>, all: set<string>)
    requires forall g :: g in gids <==> g in all
    requires forall i, j | 0 <= i < j < |gids| :: gids[i] != gids[j]
    requires |gids| != 1
    ensures forall g :: all != {g}
  {
    if gids == [] {
      assert forall g :: g !in all;
    } else {
      assert gids[0] in all && gids[1] in all;
    }
  }

  lemma {:induction false} ItemsAppend(rows: seq<Message>, m: Message)
    ensures G.Items(rows + [m]) == G.Items(rows) + if m.meta.Some? && m.body.Some?
              then [InboxItem(m.id, m.meta.value, m.body.value)] else []
  {
    if rows != [] {
      ItemsAppend(rows[1..], m);
      assert (rows + [m])[1..] == rows[1..] + [m];
    } else {
      assert rows + [m] == [m];
    }
  }
}
