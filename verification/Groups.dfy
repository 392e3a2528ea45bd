/** What each group, message and inbox request does to the chat tables. */
module Groups {
  import opened Wrappers
  import opened Wire
  import opened Schema
  import opened Strings
  import MergePatch

  datatype Out = Out(tables: ChatTables, reply: Result<Response>)

  datatype Send = Send(
    group: string,
    messageId: string,
    operationId: string,
    contentType: string,
    sender: string,
    hasAuth: bool,
    meta: Json,
    body: Json
  )

  datatype ChatCall =
    | Create(policy: Option<Fields>, profile: Option<Fields>, sender: string, initial: seq<Json>)
    | GetInfo(group: string, includePolicy: bool, includeMembers: bool)
    | Join(group: string, sender: string)
    | Add(group: string, memberDid: string, memberHandle: string, role: string)
    | Remove(group: string, memberDid: string)
    | Leave(group: string, sender: string)
    | UpdateProfile(group: string, patch: Option<Fields>, replacement: Option<Fields>)
    | UpdatePolicy(group: string, patch: Option<Fields>, replacement: Option<Fields>)
    | Rebind(group: string, handle: string, previous: string, next: string, generation: Json)
    | SendPlain(send: Send, payload: Option<Payload>)
    | SendCipher(send: Send, hasBody: bool, cipherFields: bool, epoch: string)
    | SendNotice(noticeOk: Result<()>, target: string, sender: string, noticeGroup: string, meta: Json, body: Json)
    | SendDirect(send: Send, plaintext: bool, payload: Option<Payload>)
    | Inbox(limit: nat)

  // ---- membership and permission queries ----

  function MemberRole(t: ChatTables, group: string, did: string): string {
    var k := MemberKey(group, did);
    if k in t.members && t.members[k].status == "active" then t.members[k].role else ""
  }

  predicate IsMember(t: ChatTables, group: string, did: string) {
    MemberRole(t, group, did) != ""
  }

  function DefaultRequiredRole(action: string): string {
    if action == "update_policy" then "owner"
    else if action == "add" || action == "remove" || action == "update_profile" then "admin"
    else "member"
  }

  function RequiredRole(policy: Fields, action: string): string {
    var named := StringAt(MapOrEmpty(Get(policy, "permissions")), action);
    if named != "" then named else DefaultRequiredRole(action)
  }

  predicate RoleMeets(role: string, required: string) {
    if required == "owner" then role == "owner"
    else if required == "admin" then role == "admin" || role == "owner"
    else role != ""
  }

  predicate Permitted(t: ChatTables, group: string, did: string, action: string) {
    var role := MemberRole(t, group, did);
    role == "owner" ||
    (role != "" &&
     RoleMeets(role, if group in t.groups then RequiredRole(t.groups[group].policy, action)
               else DefaultRequiredRole(action)))
  }

  /** Some(did), or None for "" and for a handle nobody registered. */
  function ResolveMember(v: string, env: Env): Option<string> {
    if v == "" then None
    else if v !in env.handleSyntax then Some(v)
    else if v in env.handles && env.handles[v] != "" then Some(env.handles[v])
    else None
  }

  function Caller(caller: string, sender: string): string {
    if caller != "" then caller else sender
  }

  // ---- single-table updates ----

  function Upserted(members: map<MemberKey, MemberRow>, group: string, did: string, role: string,
                    now: nat): map<MemberKey, MemberRow> {
    var k, r := MemberKey(group, did), if role == "" then "member" else role;
    members[k := if k in members then members[k].(role := r, status := "active")
            else MemberRow(r, "active", Seconds(now))]
  }

  /** The member an initial_members entry names, with its role; None when the entry is skipped. */
  function Named(entry: Json, env: Env): Option<(string, string)> {
    var m := MapOrEmpty(entry);
    var handle := StringAt(m, "member_handle");
    var did := if handle == "" then Some(StringAt(m, "member_did")) else ResolveMember(handle, env);
    if did.None? || did.value == "" then None
    else Some((did.value, if StringAt(m, "role") == "" then "member" else StringAt(m, "role")))
  }

  function Enrolled(members: map<MemberKey, MemberRow>, group: string, entries: seq<Json>,
                    env: Env): map<MemberKey, MemberRow> {
    if entries == [] then members
    else
      var before := Enrolled(members, group, entries[..|entries| - 1], env);
      match Named(entries[|entries| - 1], env)
      case None => before
      case Some((did, role)) => Upserted(before, group, did, role, env.now)
  }

  function Bumped(t: ChatTables, group: string): ChatTables {
    if group in t.groups
    then t.(groups := t.groups[group := t.groups[group].(version := t.groups[group].version + 1)])
    else t
  }

  function Version(t: ChatTables, group: string): nat {
    if group in t.groups then t.groups[group].version else 0
  }

  /** Reading the version back after a bump fails when there is no such group. */
  function IfGroup(t: ChatTables, group: string, ok: Response): Result<Response> {
    if group in t.groups then Ok(ok) else Err(DID_NOT_FOUND)
  }

  predicate MessageIdTaken(messages: seq<Message>, messageId: string) {
    exists i | 0 <= i < |messages| :: messages[i].messageId == messageId
  }

  /** AUTOINCREMENT: one above the newest row, which is never deleted. */
  function NextId(messages: seq<Message>): nat {
    if messages == [] then 1 else messages[|messages| - 1].id + 1
  }

  /** None when the UNIQUE constraint on message_id refuses the row. */
  function Inserted(messages: seq<Message>, m: Message): Option<seq<Message>> {
    if MessageIdTaken(messages, m.messageId) then None
    else Some(messages + [m.(id := NextId(messages))])
  }

  // ---- handlers ----

  function CreateGroup(t: ChatTables, caller: string, c: ChatCall, env: Env): Out
    requires c.Create?
  {
    var creator := Caller(caller, c.sender);
    if c.policy.None? || creator == "" then Out(t, Err(INVALID_PARAMS))
    else if env.groupId in t.groups then Out(t, Err(INTERNAL))
    else
      var row := GroupRow(c.policy.value, c.profile, creator, 0, 0, Seconds(env.now));
      var members := Enrolled(Upserted(t.members, env.groupId, creator, "owner", env.now), env.groupId, c.initial, env);
      Out(t.(groups := t.groups[env.groupId := row], members := members),
          Ok(GroupCreated(env.groupId, 0, Seconds(env.now), creator, ToJson(c.profile), c.policy.value)))
  }

  /** SELECT member_did ... WHERE group_did = group AND status = 'active' ORDER BY member_did. */
  function ActiveDids(t: ChatTables, group: string): seq<string> {
    Ordered(set k | k in t.members && k.group == group && t.members[k].status == "active" :: k.did)
  }

  function EntryOf(did: string, row: MemberRow): MemberEntry {
    MemberEntry(did, row.role, row.status, row.joinedAt)
  }

  function MemberList(t: ChatTables, group: string): seq<MemberEntry> {
    var dids := ActiveDids(t, group);
    seq(|dids|, i requires 0 <= i < |dids| =>
          assert dids[i] in dids; EntryOf(dids[i], t.members[MemberKey(group, dids[i])]))
  }

  function Info(t: ChatTables, c: ChatCall): Result<Response>
    requires c.GetInfo?
  {
    if c.group == "" then Err(INVALID_PARAMS)
    else if c.group !in t.groups then Err(DID_NOT_FOUND)
    else
      var g := t.groups[c.group];
      Ok(GroupInfo(c.group, g.version, ToJson(g.profile),
                   if c.includePolicy then Some(g.policy) else None,
                   if c.includeMembers then Some(Members(MemberList(t, c.group), Decimal(|MemberList(t, c.group)|)))
                       else None))
  }

  function JoinGroup(t: ChatTables, caller: string, c: ChatCall, env: Env): Out
    requires c.Join?
  {
    var member := Caller(caller, c.sender);
    if c.group == "" then Out(t, Err(INVALID_PARAMS))
    else if c.group !in t.groups then Out(t, Err(DID_NOT_FOUND))
    else
      var mode := StringAt(t.groups[c.group].policy, "admission_mode");
      if mode != "" && mode != "open-join" then Out(t, Err(INTERNAL))
      else if IsMember(t, c.group, member) then
        Out(t, Ok(Joined(c.group, member, t.groups[c.group].version)))
      else
        var k := MemberKey(c.group, member);
        var row := if k in t.members then t.members[k].(status := "active")
            else MemberRow("member", "active", Seconds(env.now));
        var t' := Bumped(t.(members := t.members[k := row]), c.group);
        Out(t', Ok(Joined(c.group, member, t'.groups[c.group].version)))
  }

  function AddMember(t: ChatTables, caller: string, c: ChatCall, env: Env): Out
    requires c.Add?
  {
    if c.group == "" then Out(t, Err(INVALID_PARAMS))
    else if !Permitted(t, c.group, caller, "add") then Out(t, Err(INTERNAL))
    else if c.memberDid == "" && c.memberHandle == "" then Out(t, Err(INVALID_PARAMS))
    else
      var member := if c.memberHandle != "" then ResolveMember(c.memberHandle, env) else Some(c.memberDid);
      if member.None? then Out(t, Err(INTERNAL))
      else
        var t' := Bumped(t.(members := Upserted(t.members, c.group, member.value, c.role, env.now)), c.group);
        Out(t', IfGroup(t', c.group, Joined(c.group, member.value, Version(t', c.group))))
  }

  function OwnerDid(t: ChatTables, group: string): string {
    if group in t.groups then t.groups[group].owner else ""
  }

  function RemoveMember(t: ChatTables, caller: string, c: ChatCall): Out
    requires c.Remove?
  {
    if c.group == "" || c.memberDid == "" then Out(t, Err(INVALID_PARAMS))
    else if !Permitted(t, c.group, caller, "remove") then Out(t, Err(INTERNAL))
    else if c.memberDid == OwnerDid(t, c.group) then Out(t, Err(INTERNAL))
    else
      var t' := Bumped(t.(members := t.members - {MemberKey(c.group, c.memberDid)}), c.group);
      Out(t', IfGroup(t', c.group, Removed(c.group, c.memberDid, Version(t', c.group))))
  }

  function LeaveGroup(t: ChatTables, caller: string, c: ChatCall): Out
    requires c.Leave?
  {
    if c.group == "" then Out(t, Err(INVALID_PARAMS))
    else
      var leaver := Caller(caller, c.sender);
      var t' := Bumped(t.(members := t.members - {MemberKey(c.group, leaver)}), c.group);
      Out(t', IfGroup(t', c.group, Left(c.group, leaver, Version(t', c.group))))
  }

  /** The stored profile, read back; an absent one reads as the empty object. */
  function ProfileFields(g: GroupRow): Fields {
    if g.profile.Some? then g.profile.value else map[]
  }

  function UpdateGroupProfile(t: ChatTables, caller: string, c: ChatCall): Out
    requires c.UpdateProfile?
  {
    if c.group == "" then Out(t, Err(INVALID_PARAMS))
    else if !Permitted(t, c.group, caller, "update_profile") then Out(t, Err(INTERNAL))
    else if c.patch.None? && c.replacement.None? then Out(t, Err(INVALID_PARAMS))
    else if c.group !in t.groups then Out(t, Err(DID_NOT_FOUND))
    else
      var g := t.groups[c.group];
      var profile := if c.patch.Some? then MergePatch.Apply(ProfileFields(g), c.patch.value) else c.replacement.value;
      var t' := Bumped(t.(groups := t.groups[c.group := g.(profile := Some(profile))]), c.group);
      Out(t', Ok(ProfileUpdated(c.group, t'.groups[c.group].version, profile)))
  }

  function UpdateGroupPolicy(t: ChatTables, caller: string, c: ChatCall): Out
    requires c.UpdatePolicy?
  {
    if c.group == "" then Out(t, Err(INVALID_PARAMS))
    else if !Permitted(t, c.group, caller, "update_policy") then Out(t, Err(INTERNAL))
    else if c.patch.None? && c.replacement.None? then Out(t, Err(INVALID_PARAMS))
    else if c.group !in t.groups then Out(t, Err(DID_NOT_FOUND))
    else
      var g := t.groups[c.group];
      var policy := if c.patch.Some? then MergePatch.Apply(g.policy, c.patch.value) else c.replacement.value;
      var t' := Bumped(t.(groups := t.groups[c.group := g.(policy := policy)]), c.group);
      Out(t', Ok(PolicyUpdated(c.group, t'.groups[c.group].version, policy)))
  }

  function GroupsOf(t: ChatTables, did: string): set<string> {
    set k | k in t.members && k.did == did && t.members[k].status == "active" :: k.group
  }

  /** The named group, or else the only group the previous DID belongs to. */
  ghost function RebindTarget(t: ChatTables, c: ChatCall): Option<string>
    requires c.Rebind?
  {
    if c.group != "" then Some(c.group)
    else if group :| GroupsOf(t, c.previous) == {group} then Some(group)
    else None
  }

  ghost function RebindMember(t: ChatTables, caller: string, c: ChatCall): Out
    requires c.Rebind?
  {
    if c.handle == "" || c.previous == "" || c.next == "" then Out(t, Err(INVALID_PARAMS))
    else
      var target := RebindTarget(t, c);
      if target.None? || (caller != "" && caller != c.next) then Out(t, Err(INTERNAL))
      else
        var group := target.value;
        var from, to := MemberKey(group, c.previous), MemberKey(group, c.next);
        if from !in t.members || (to in t.members && to != from) then Out(t, Err(INTERNAL))
        else
          var t' := Bumped(t.(members := (t.members - {from})[to := t.members[from]]), group);
          Out(t', IfGroup(t', group, Rebound(group, c.handle, c.previous, c.next, c.generation, Version(t', group))))
  }

  /** The shared tail of the two group sends: take a sequence number, then insert the row. */
  function AcceptSend(t: ChatTables, s: Send, sender: string, kind: Kind, text: string, secure: bool,
                      epoch: Option<string>, env: Env): Out {
    if s.group !in t.groups then Out(t, Err(INTERNAL))
    else
      var g := t.groups[s.group];
      var numbered := t.(groups := t.groups[s.group := g.(eventSeq := g.eventSeq + 1)]);
      var row := Message(0, s.messageId, sender, None, Some(s.group), kind, text, secure, Seconds(env.now),
                         Some(s.meta), Some(s.body));
      match Inserted(t.messages, row)
      case None => Out(numbered, Err(INTERNAL))
      case Some(messages) =>
        Out(numbered.(messages := messages),
            Ok(SendAck(s.group, s.messageId, s.operationId, g.eventSeq + 1, g.version, Seconds(env.now), epoch)))
  }

  /** The checks of group.send before it takes a sequence number. */
  function PlainGuard(t: ChatTables, caller: string, c: ChatCall, env: Env): Result<()>
    requires c.SendPlain?
  {
    var s := c.send;
    if s.group == "" || s.messageId == "" || s.operationId == "" || s.contentType == "" then Err(INVALID_PARAMS)
    else if !IsMember(t, s.group, Caller(caller, s.sender)) then Err(INTERNAL)
    else if c.payload.None? then Err(INVALID_PARAMS)
    else if c.payload.value.kind == JsonPayload && !env.mentionsOk then Err(INVALID_PARAMS)
    else if s.hasAuth && !env.proofOk then Err(INTERNAL)
    else Ok(())
  }

  /** The checks of group.e2ee.send before it takes a sequence number. */
  function CipherGuard(t: ChatTables, caller: string, c: ChatCall, env: Env): Result<()>
    requires c.SendCipher?
  {
    var s := c.send;
    if !c.hasBody || s.group == "" || s.messageId == "" || s.operationId == "" then Err(INVALID_PARAMS)
    else if s.contentType != "application/anp-group-cipher+json" then Err(INVALID_PARAMS)
    else if !IsMember(t, s.group, Caller(caller, s.sender)) then Err(INTERNAL)
    else if !c.cipherFields then Err(INVALID_PARAMS)
    else if s.hasAuth && !env.proofOk then Err(INTERNAL)
    else Ok(())
  }

  function SendPlainMessage(t: ChatTables, caller: string, c: ChatCall, env: Env): Out
    requires c.SendPlain?
  {
    match PlainGuard(t, caller, c, env)
    case Err(code) => Out(t, Err(code))
    case Ok(_) =>
      AcceptSend(t, c.send, Caller(caller, c.send.sender), c.payload.value.kind, c.payload.value.text, false, None, env)
  }

  function SendCipherMessage(t: ChatTables, caller: string, c: ChatCall, env: Env): Out
    requires c.SendCipher?
  {
    match CipherGuard(t, caller, c, env)
    case Err(code) => Out(t, Err(code))
    case Ok(_) => AcceptSend(t, c.send, Caller(caller, c.send.sender), Cipher, "", true, Some(c.epoch), env)
  }

  function NoticeId(now: nat): string { "notice-" + Decimal(now) }

  /** A notice takes no sequence number, and a refused insert goes unnoticed. */
  function SendNoticeMessage(t: ChatTables, c: ChatCall, env: Env): Out
    requires c.SendNotice?
  {
    match c.noticeOk
    case Err(code) => Out(t, Err(code))
    case Ok(_) =>
      if c.target == "" then Out(t, Ok(Accepted))
      else
        var row := Message(0, NoticeId(env.now), c.sender, Some(c.target), Some(c.noticeGroup), Notice, "", false,
                           Seconds(env.now), Some(c.meta), Some(c.body));
        match Inserted(t.messages, row)
        case None => Out(t, Ok(Accepted))
        case Some(messages) => Out(t.(messages := messages), Ok(Accepted))
  }

  function DirectGuard(caller: string, c: ChatCall, env: Env): Result<()>
    requires c.SendDirect?
  {
    var s := c.send;
    if s.messageId == "" then Err(INTERNAL)
    else if c.plaintext then
      if c.payload.None? then Err(INVALID_PARAMS)
      else if !s.hasAuth || !env.proofOk then Err(INTERNAL)
      else Ok(())
    else if Caller(caller, s.sender) != "" && s.hasAuth && !env.proofOk then Err(INTERNAL)
    else Ok(())
  }

  /** Here send.group is the peer's DID. */
  function SendDirectMessage(t: ChatTables, caller: string, c: ChatCall, env: Env): Out
    requires c.SendDirect?
  {
    var s := c.send;
    match DirectGuard(caller, c, env)
    case Err(code) => Out(t, Err(code))
    case Ok(_) =>
      var p := if c.plaintext then c.payload.value else Content(Text, "");
      var row := Message(0, s.messageId, Caller(caller, s.sender), Some(s.group), None, p.kind, p.text, !c.plaintext,
                         Seconds(env.now), Some(s.meta), Some(s.body));
      match Inserted(t.messages, row)
      case None => Out(t, Err(INTERNAL))
      case Some(messages) =>
        Out(t.(messages := messages), Ok(DirectAck(s.messageId, s.operationId, s.group, Seconds(env.now))))
  }

  // ---- inbox ----

  predicate Visible(members: map<MemberKey, MemberRow>, caller: string, m: Message) {
    || m.recipient == Some(caller)
    || (m.group.Some? &&
        var k := MemberKey(m.group.value, caller);
        k in members && members[k].status == "active")
  }

  /** The first n rows the caller may see, newest first. */
  function VisibleDesc(members: map<MemberKey, MemberRow>, caller: string, messages: seq<Message>, n: nat): seq<Message>
    requires n <= |messages|
  {
    if n == 0 then []
    else
      var older := VisibleDesc(members, caller, messages, n - 1);
      if Visible(members, caller, messages[n - 1]) then [messages[n - 1]] + older else older
  }

  /** Rows whose wire columns decode, as inbox items. */
  function Items(rows: seq<Message>): seq<InboxItem> {
    if rows == [] then []
    else
      var m, rest := rows[0], Items(rows[1..]);
      if m.meta.Some? && m.body.Some? then [InboxItem(m.id, m.meta.value, m.body.value)] + rest else rest
  }

  function Page(t: ChatTables, caller: string, limit: nat): seq<Message> {
    var all := VisibleDesc(t.members, caller, t.messages, |t.messages|);
    if limit <= |all| then all[..limit] else all
  }

  // ---- one request ----

  ghost function Handle(t: ChatTables, caller: string, c: ChatCall, env: Env): Out {
    match c
    case Create(_, _, _, _) => CreateGroup(t, caller, c, env)
    case GetInfo(_, _, _) => Out(t, Info(t, c))
    case Join(_, _) => JoinGroup(t, caller, c, env)
    case Add(_, _, _, _) => AddMember(t, caller, c, env)
    case Remove(_, _) => RemoveMember(t, caller, c)
    case Leave(_, _) => LeaveGroup(t, caller, c)
    case UpdateProfile(_, _, _) => UpdateGroupProfile(t, caller, c)
    case UpdatePolicy(_, _, _) => UpdateGroupPolicy(t, caller, c)
    case Rebind(_, _, _, _, _) => RebindMember(t, caller, c)
    case SendPlain(_, _) => SendPlainMessage(t, caller, c, env)
    case SendCipher(_, _, _, _) => SendCipherMessage(t, caller, c, env)
    case SendNotice(_, _, _, _, _, _) => SendNoticeMessage(t, c, env)
    case SendDirect(_, _, _) => SendDirectMessage(t, caller, c, env)
    case Inbox(limit) => Out(t, Ok(InboxPage(Items(Page(t, caller, limit)))))
  }
}
