/** What every chat request keeps, and what each may change. */
module GroupSafety {
  import opened Wrappers
  import opened Wire
  import opened Schema
  import opened Groups
  import MergePatch

  // ---- the invariant ----

  /** Every member row belongs to a group, is active and has a role. */
  ghost predicate MembersOk(t: ChatTables) {
    forall k | k in t.members :: k.group in t.groups && t.members[k].status == "active" && t.members[k].role != ""
  }

  /** Rows carry ids 1, 2, 3, ..., unique message ids, and decodable wire columns. */
  ghost predicate LogOk(messages: seq<Message>) {
    && (forall i | 0 <= i < |messages| :: messages[i].id == i + 1 && messages[i].meta.Some? && messages[i].body.Some?)
    && (forall i, j | 0 <= i < j < |messages| :: messages[i].messageId != messages[j].messageId)
  }

  predicate Numbered(m: Message, group: string) {
    m.group == Some(group) && m.kind != Notice
  }

  ghost predicate Inv(t: ChatTables) {
    MembersOk(t) && LogOk(t.messages)
  }

  lemma MemberIffRow(t: ChatTables, group: string, did: string)
    requires Inv(t)
    ensures IsMember(t, group, did) <==> MemberKey(group, did) in t.members
    ensures IsMember(t, group, did) ==> group in t.groups
  {}

  // ---- enrolment ----

  lemma {:induction false} EnrolledFrame(members: map<MemberKey, MemberRow>, group: string, entries: seq<Json>,
                                         env: Env, k: MemberKey)
    ensures k in members ==> k in Enrolled(members, group, entries, env)
    ensures k in Enrolled(members, group, entries, env) && k !in members ==>
              k.group == group && Enrolled(members, group, entries, env)[k].status == "active"
    ensures k in members && k.group != group ==> Enrolled(members, group, entries, env)[k] == members[k]
    ensures k in members && members[k].status == "active" ==>
              Enrolled(members, group, entries, env)[k].status == "active"
    ensures k in Enrolled(members, group, entries, env) && (k in members ==> members[k].role != "") ==>
              Enrolled(members, group, entries, env)[k].role != ""
  {
    if entries != [] {
      EnrolledFrame(members, group, entries[..|entries| - 1], env, k);
    }
  }

  /** The role the last entry naming did gives it, if any entry does. */
  function LastNamed(entries: seq<Json>, did: string, env: Env): Option<string> {
    if entries == [] then None
    else match Named(entries[|entries| - 1], env)
         case Some((d, role)) => if d == did then Some(role) else LastNamed(entries[..|entries| - 1], did, env)
         case None => LastNamed(entries[..|entries| - 1], did, env)
  }

  lemma {:induction false} EnrolledRole(members: map<MemberKey, MemberRow>, group: string, entries: seq<Json>,
                                        env: Env, did: string)
    ensures var k, after, named := MemberKey(group, did), Enrolled(members, group, entries, env),
              LastNamed(entries, did, env);
            && (k in after <==> k in members || named.Some?)
            && (named.Some? ==> after[k].role == named.value)
            && (named.None? && k in members ==> after[k] == members[k])
  {
    if entries != [] {
      EnrolledRole(members, group, entries[..|entries| - 1], env, did);
    }
  }

  /** group.create enrols exactly the creator and the named members; the creator is owner exactly when
      no entry names it or the last one that does says owner. */
  lemma CreatedRoles(t: ChatTables, caller: string, c: ChatCall, env: Env, did: string)
    requires Inv(t) && c.Create?
    requires CreateGroup(t, caller, c, env).reply.Ok?
    ensures var role, creator := MemberRole(CreateGroup(t, caller, c, env).tables, env.groupId, did),
              Caller(caller, c.sender);
            var named := LastNamed(c.initial, did, env);
            && role == (if named.Some? then named.value else if did == creator then "owner" else "")
            && (did == creator ==> (role == "owner" <==> named == None || named == Some("owner")))
  {
    var creator := Caller(caller, c.sender);
    var first := Upserted(t.members, env.groupId, creator, "owner", env.now);
    EnrolledRole(first, env.groupId, c.initial, env, did);
    EnrolledFrame(first, env.groupId, c.initial, env, MemberKey(env.groupId, did));
    NamedRolesNonEmpty(c.initial, did, env);
  }

  /** A create that lists its own creator as a plain member: afterwards the group has no owner. */
  function CreateListingOneself(creator: string): ChatCall {
    Create(Some(map[]), None, creator, [Obj(map["member_did" := Str(creator), "role" := Str("member")])])
  }

  lemma CreatorCanLoseOwner(t: ChatTables, creator: string, env: Env)
    requires Inv(t) && creator != "" && env.groupId !in t.groups
    ensures var out := CreateGroup(t, creator, CreateListingOneself(creator), env);
            && out.reply.Ok? && out.tables.groups[env.groupId].owner == creator
            && MemberRole(out.tables, env.groupId, creator) == "member"
            && forall did :: MemberRole(out.tables, env.groupId, did) != "owner"
  {
    var c := CreateListingOneself(creator);
    forall did
      ensures MemberRole(CreateGroup(t, creator, c, env).tables, env.groupId, did) ==
              if did == creator then "member" else ""
    {
      OnlyEntry(c.initial[0], creator, did, env);
      CreatedRoles(t, creator, c, env, did);
    }
  }

  lemma OnlyEntry(entry: Json, creator: string, did: string, env: Env)
    requires entry == Obj(map["member_did" := Str(creator), "role" := Str("member")]) && creator != ""
    ensures LastNamed([entry], did, env) == if did == creator then Some("member") else None
  {
    assert [entry][..0] == [];
    assert Named(entry, env) == Some((creator, "member"));
  }

  lemma {:induction false} NamedRolesNonEmpty(entries: seq<Json>, did: string, env: Env)
    ensures LastNamed(entries, did, env) != Some("")
  {
    if entries != [] {
      NamedRolesNonEmpty(entries[..|entries| - 1], did, env);
    }
  }

  // ---- groups only move forward ----

  /** The rows, policy and profile a group_state_version stands for. */
  ghost predicate SameContent(t: ChatTables, u: ChatTables, group: string)
    requires group in t.groups && group in u.groups
  {
    && t.groups[group].policy == u.groups[group].policy
    && t.groups[group].profile == u.groups[group].profile
    && forall k: MemberKey | k.group == group ::
         (k in t.members <==> k in u.members) && (k in t.members ==> t.members[k] == u.members[k])
  }

  ghost predicate GroupEvolves(t: ChatTables, u: ChatTables, group: string) {
    group in t.groups ==>
      && group in u.groups
      && u.groups[group].owner == t.groups[group].owner
      && t.groups[group].version <= u.groups[group].version
      && t.groups[group].eventSeq <= u.groups[group].eventSeq
      && (t.groups[group].version == u.groups[group].version ==> SameContent(t, u, group))
  }

  ghost predicate Evolves(t: ChatTables, u: ChatTables) {
    t.messages <= u.messages && forall group :: GroupEvolves(t, u, group)
  }

  lemma EvolvesTransitive(t: ChatTables, u: ChatTables, v: ChatTables)
    requires Evolves(t, u) && Evolves(u, v)
    ensures Evolves(t, v)
  {
    forall group
      ensures GroupEvolves(t, v, group)
    {
      assert GroupEvolves(t, u, group) && GroupEvolves(u, v, group);
    }
  }

  /** No request breaks the invariant, rewrites the log, drops a group or its owner, or changes
      a group's content under an old version. */
  lemma HandleIsSafe(t: ChatTables, caller: string, c: ChatCall, env: Env)
    requires Inv(t)
    ensures Inv(Handle(t, caller, c, env).tables)
    ensures Evolves(t, Handle(t, caller, c, env).tables)
  {
    if c.SendPlain? || c.SendCipher? {
      GroupSendIsSafe(t, caller, c, env);
    } else if c.SendNotice? {
      NoticeIsSafe(t, c, env);
    } else if c.SendDirect? {
      DirectIsSafe(t, caller, c, env);
    } else if c.Create? {
      CreateIsSafe(t, caller, c, env);
    } else if c.UpdateProfile? || c.UpdatePolicy? {
      UpdateIsSafe(t, caller, c, env);
    } else {
      MembershipIsSafe(t, caller, c, env);
    }
  }

  lemma CreateIsSafe(t: ChatTables, caller: string, c: ChatCall, env: Env)
    requires Inv(t) && c.Create?
    ensures Inv(CreateGroup(t, caller, c, env).tables)
    ensures Evolves(t, CreateGroup(t, caller, c, env).tables)
  {
    var first := Upserted(t.members, env.groupId, Caller(caller, c.sender), "owner", env.now);
    forall k { EnrolledFrame(first, env.groupId, c.initial, env, k); }
    hide Enrolled;
    assert Inv(CreateGroup(t, caller, c, env).tables);
    hide Inv;
  }

  lemma UpdateIsSafe(t: ChatTables, caller: string, c: ChatCall, env: Env)
    requires Inv(t) && (c.UpdateProfile? || c.UpdatePolicy?)
    ensures Inv(Handle(t, caller, c, env).tables)
    ensures Evolves(t, Handle(t, caller, c, env).tables)
  {
    hide MergePatch.Apply, Permitted;
    var u := Handle(t, caller, c, env).tables;
    assert u.members == t.members && u.messages == t.messages;
  }

  lemma MembershipIsSafe(t: ChatTables, caller: string, c: ChatCall, env: Env)
    requires Inv(t) && (c.GetInfo? || c.Inbox? || c.Join? || c.Add? || c.Remove? || c.Leave? || c.Rebind?)
    ensures Inv(Handle(t, caller, c, env).tables)
    ensures Evolves(t, Handle(t, caller, c, env).tables)
  {
    var u := Handle(t, caller, c, env).tables;
    if u != t {
      var group := if c.Rebind? then RebindTarget(t, c).value else c.group;
      if group in t.groups {
        MembersChangeIsSafe(t, u.members, group);
      } else {
        FailureIsAtomic(t, caller, c, env);
      }
    }
  }

  /** Rewriting one group's rows is safe under a version bump. */
  lemma MembersChangeIsSafe(t: ChatTables, members: map<MemberKey, MemberRow>, group: string)
    requires Inv(t) && group in t.groups
    requires forall k | k in members && k.group == group :: members[k].status == "active" && members[k].role != ""
    requires forall k: MemberKey | k.group != group :: (k in members <==> k in t.members)
              && (k in members ==> members[k] == t.members[k])
    ensures var u := Bumped(t.(members := members), group); Inv(u) && Evolves(t, u)
  {}

  lemma InsertKeepsLog(messages: seq<Message>, m: Message)
    requires LogOk(messages) && m.meta.Some? && m.body.Some?
    ensures Inserted(messages, m).Some? ==>
              LogOk(Inserted(messages, m).value) && messages <= Inserted(messages, m).value
  {}

  lemma GroupSendIsSafe(t: ChatTables, caller: string, c: ChatCall, env: Env)
    requires Inv(t) && (c.SendPlain? || c.SendCipher?)
    ensures Inv(Handle(t, caller, c, env).tables)
    ensures Evolves(t, Handle(t, caller, c, env).tables)
  {
    var kind := if c.SendCipher? then Cipher else if c.payload.Some? then c.payload.value.kind else Text;
    var text := if c.SendPlain? && c.payload.Some? then c.payload.value.text else "";
    AcceptIsSafe(t, c.send, Caller(caller, c.send.sender), kind, text, c.SendCipher?,
                 if c.SendCipher? then Some(c.epoch) else None, env);
    assert Evolves(t, t);
  }

  lemma AcceptIsSafe(t: ChatTables, s: Send, sender: string, kind: Kind, text: string, secure: bool,
                     epoch: Option<string>, env: Env)
    requires Inv(t)
    ensures var u := AcceptSend(t, s, sender, kind, text, secure, epoch, env).tables; Inv(u) && Evolves(t, u)
  {
    var row := Message(0, s.messageId, sender, None, Some(s.group), kind, text, secure, Seconds(env.now), Some(s.meta),
                       Some(s.body));
    InsertKeepsLog(t.messages, row);
  }

  lemma NoticeIsSafe(t: ChatTables, c: ChatCall, env: Env)
    requires Inv(t) && c.SendNotice?
    ensures var u := SendNoticeMessage(t, c, env).tables; Inv(u) && Evolves(t, u)
  {}

  lemma DirectIsSafe(t: ChatTables, caller: string, c: ChatCall, env: Env)
    requires Inv(t) && c.SendDirect?
    ensures var u := SendDirectMessage(t, caller, c, env).tables; Inv(u) && Evolves(t, u)
  {}

  // ---- errors leave no trace ----

  /** A group send that passed every check but reuses a message id. */
  predicate DuplicateSend(t: ChatTables, caller: string, c: ChatCall, env: Env) {
    && ((c.SendPlain? && PlainGuard(t, caller, c, env).Ok?) || (c.SendCipher? && CipherGuard(t, caller, c, env).Ok?))
    && MessageIdTaken(t.messages, c.send.messageId)
  }

  function SeqAdvanced(t: ChatTables, group: string): ChatTables {
    if group in t.groups
    then t.(groups := t.groups[group := t.groups[group].(eventSeq := t.groups[group].eventSeq + 1)])
    else t
  }

  /** An error leaves every table alone, except that a duplicate send advances one counter by one. */
  lemma FailureIsAtomic(t: ChatTables, caller: string, c: ChatCall, env: Env)
    requires Inv(t)
    ensures var out := Handle(t, caller, c, env);
            && (out.reply.Err? && !DuplicateSend(t, caller, c, env) ==> out.tables == t)
            && (DuplicateSend(t, caller, c, env) ==>
                  out == Out(SeqAdvanced(t, c.send.group), Err(INTERNAL)) && c.send.group in t.groups)
  {
    if c.SendPlain? {
      PlainFailure(t, caller, c, env);
    } else if c.SendCipher? {
      CipherFailure(t, caller, c, env);
    } else if c.Leave? && c.group !in t.groups {
      assert t.members - {MemberKey(c.group, Caller(caller, c.sender))} == t.members;
    }
  }

  lemma PlainFailure(t: ChatTables, caller: string, c: ChatCall, env: Env)
    requires Inv(t) && c.SendPlain?
    ensures var out := SendPlainMessage(t, caller, c, env);
            && (PlainGuard(t, caller, c, env).Ok? ==> c.send.group in t.groups)
            && (out.reply.Err? ==>
                  out.tables == (if DuplicateSend(t, caller, c, env) then SeqAdvanced(t, c.send.group) else t))
            && (DuplicateSend(t, caller, c, env) ==> out.reply == Err(INTERNAL))
  {}

  lemma CipherFailure(t: ChatTables, caller: string, c: ChatCall, env: Env)
    requires Inv(t) && c.SendCipher?
    ensures var out := SendCipherMessage(t, caller, c, env);
            && (CipherGuard(t, caller, c, env).Ok? ==> c.send.group in t.groups)
            && (out.reply.Err? ==>
                  out.tables == (if DuplicateSend(t, caller, c, env) then SeqAdvanced(t, c.send.group) else t))
            && (DuplicateSend(t, caller, c, env) ==> out.reply == Err(INTERNAL))
  {}

  // ---- sequence numbers ----

  /** The rows of a group that took a sequence number. */
  function NumberedRows(messages: seq<Message>, group: string): nat {
    if messages == [] then 0
    else NumberedRows(messages[..|messages| - 1], group) + if Numbered(messages[|messages| - 1], group) then 1 else 0
  }

  function EventSeq(t: ChatTables, group: string): nat {
    if group in t.groups then t.groups[group].eventSeq else 0
  }

  /** The counter moved by the rows newly numbered plus the numbers that went unused. */
  ghost predicate CounterMoves(t: ChatTables, u: ChatTables, group: string, unused: nat) {
    EventSeq(u, group) + NumberedRows(t.messages, group) ==
    EventSeq(t, group) + NumberedRows(u.messages, group) + unused
  }

  /** A request wastes a number exactly when it is a duplicate send to the group. */
  lemma SequenceStep(t: ChatTables, caller: string, c: ChatCall, env: Env, group: string)
    requires Inv(t)
    ensures CounterMoves(t, Handle(t, caller, c, env).tables, group,
                         if DuplicateSend(t, caller, c, env) && c.send.group == group then 1 else 0)
  {
    if c.SendPlain? || c.SendCipher? {
      SendSequenceStep(t, caller, c, env, group);
    } else if c.SendNotice? || c.SendDirect? {
      UnnumberedStep(t, caller, c, env, group);
    } else {
      QuietStep(t, caller, c, env, group);
    }
  }

  lemma SendSequenceStep(t: ChatTables, caller: string, c: ChatCall, env: Env, group: string)
    requires Inv(t) && (c.SendPlain? || c.SendCipher?)
    ensures CounterMoves(t, Handle(t, caller, c, env).tables, group,
                         if DuplicateSend(t, caller, c, env) && c.send.group == group then 1 else 0)
  {
    var u := Handle(t, caller, c, env).tables;
    FailureIsAtomic(t, caller, c, env);
    if Handle(t, caller, c, env).reply.Ok? {
      AcceptedSend(t, caller, c, env);
      assert u.messages[..|t.messages|] == t.messages;
    }
  }

  lemma UnnumberedStep(t: ChatTables, caller: string, c: ChatCall, env: Env, group: string)
    requires Inv(t) && (c.SendNotice? || c.SendDirect?)
    ensures CounterMoves(t, Handle(t, caller, c, env).tables, group, 0)
  {
    var u := Handle(t, caller, c, env).tables;
    assert u.groups == t.groups;
    if u.messages != t.messages {
      assert u.messages[..|t.messages|] == t.messages;
    }
  }

  lemma QuietStep(t: ChatTables, caller: string, c: ChatCall, env: Env, group: string)
    requires Inv(t) && !(c.SendPlain? || c.SendCipher? || c.SendNotice? || c.SendDirect?)
    ensures var u := Handle(t, caller, c, env).tables;
            u.messages == t.messages && EventSeq(u, group) == EventSeq(t, group)
  {}

  /** u holds exactly one more row than t: the one the acknowledgement ack is for. */
  ghost predicate Acknowledges(t: ChatTables, u: ChatTables, ack: Response)
    requires ack.SendAck?
  {
    && ack.group in t.groups
    && ack.eventSeq == EventSeq(t, ack.group) + 1 == EventSeq(u, ack.group)
    && ack.version == t.groups[ack.group].version
    && |u.messages| == |t.messages| + 1
    && t.messages <= u.messages
    && Numbered(u.messages[|t.messages|], ack.group)
    && u.messages[|t.messages|].messageId == ack.messageId
  }

  lemma AcceptAcknowledges(t: ChatTables, s: Send, sender: string, kind: Kind, text: string, secure: bool,
                           epoch: Option<string>, env: Env)
    requires kind != Notice
    requires AcceptSend(t, s, sender, kind, text, secure, epoch, env).reply.Ok?
    ensures var out := AcceptSend(t, s, sender, kind, text, secure, epoch, env);
            out.reply.value.SendAck? && out.reply.value.group == s.group && Acknowledges(t, out.tables, out.reply.value)
  {}

  /** A successful group send took the next number and appended exactly its row. */
  lemma AcceptedSend(t: ChatTables, caller: string, c: ChatCall, env: Env)
    requires Handle(t, caller, c, env).reply.Ok? && Handle(t, caller, c, env).reply.value.SendAck?
    ensures (c.SendPlain? || c.SendCipher?) && Handle(t, caller, c, env).reply.value.group == c.send.group
    ensures Acknowledges(t, Handle(t, caller, c, env).tables, Handle(t, caller, c, env).reply.value)
  {
    assert c.SendPlain? || c.SendCipher?;
    if c.SendPlain? {
      var p := c.payload.value;
      AcceptAcknowledges(t, c.send, Caller(caller, c.send.sender), p.kind, p.text, false, None, env);
    } else {
      AcceptAcknowledges(t, c.send, Caller(caller, c.send.sender), Cipher, "", true, Some(c.epoch), env);
    }
  }

  // ---- owners and privileges ----

  /** The owner's row goes only when the owner leaves or is rebound to another DID. */
  lemma OwnerRowKept(t: ChatTables, caller: string, c: ChatCall, env: Env, group: string)
    requires Inv(t) && group in t.groups
    requires MemberKey(group, t.groups[group].owner) in t.members
    requires MemberKey(group, t.groups[group].owner) !in Handle(t, caller, c, env).tables.members
    ensures Handle(t, caller, c, env).reply.Ok?
    ensures
      || (c.Leave? && c.group == group && Caller(caller, c.sender) == t.groups[group].owner)
      || (c.Rebind? && RebindTarget(t, c) == Some(group) && c.previous == t.groups[group].owner && c.next != c.previous)
  {
    if c.Create? {
      var first := Upserted(t.members, env.groupId, Caller(caller, c.sender), "owner", env.now);
      EnrolledFrame(first, env.groupId, c.initial, env, MemberKey(group, t.groups[group].owner));
      hide Enrolled;
    } else if c.SendPlain? || c.SendCipher? || c.SendNotice? || c.SendDirect? {
      SendsKeepRows(t, caller, c, env);
      hide Handle;
    } else {
      hide CreateGroup, SendPlainMessage, SendCipherMessage, SendNoticeMessage, SendDirectMessage, Info, Items, Page;
      hide Permitted;
    }
  }

  ghost function WithRole(members: map<MemberKey, MemberRow>, group: string, roles: set<string>): set<MemberKey> {
    set k | k in members && k.group == group && members[k].role in roles
  }

  const PRIVILEGED: set<string> := {"owner", "admin"}

  /** More owners or admins than before means a permitted group.add. */
  lemma PrivilegeGrowsOnlyByAdd(t: ChatTables, caller: string, c: ChatCall, env: Env, group: string)
    requires Inv(t) && group in t.groups
    requires |WithRole(Handle(t, caller, c, env).tables.members, group, PRIVILEGED)| >
             |WithRole(t.members, group, PRIVILEGED)|
    ensures c.Add? && c.group == group && Permitted(t, group, caller, "add")
  {
    var u := Handle(t, caller, c, env).tables;
    var was, now := WithRole(t.members, group, PRIVILEGED), WithRole(u.members, group, PRIVILEGED);
    if c.Rebind? {
      RebindKeepsRoles(t, caller, c, env, group, PRIVILEGED);
    } else if !(c.Add? && c.group == group && Permitted(t, group, caller, "add")) {
      forall k | k in now
        ensures k in was
      {
        NoNewPrivilege(t, caller, c, env, k);
      }
      SubsetCardinality(now, was);
    }
  }

  lemma NoNewPrivilege(t: ChatTables, caller: string, c: ChatCall, env: Env, k: MemberKey)
    requires Inv(t) && k.group in t.groups && !c.Rebind?
    requires !(c.Add? && c.group == k.group && Permitted(t, k.group, caller, "add"))
    requires var u := Handle(t, caller, c, env).tables; k in u.members && u.members[k].role in PRIVILEGED
    ensures k in t.members && t.members[k].role in PRIVILEGED
  {
    if c.Create? {
      var first := Upserted(t.members, env.groupId, Caller(caller, c.sender), "owner", env.now);
      EnrolledFrame(first, env.groupId, c.initial, env, k);
      hide Enrolled;
    } else if c.SendPlain? || c.SendCipher? || c.SendNotice? || c.SendDirect? {
      SendsKeepRows(t, caller, c, env);
      hide Handle;
    } else {
      hide SendPlainMessage, SendCipherMessage, SendNoticeMessage, SendDirectMessage, CreateGroup, Info, Items, Page;
    }
  }

  lemma SendsKeepRows(t: ChatTables, caller: string, c: ChatCall, env: Env)
    requires c.SendPlain? || c.SendCipher? || c.SendNotice? || c.SendDirect?
    ensures Handle(t, caller, c, env).tables.members == t.members
  {}

  lemma SubsetCardinality<T>(a: set<T>, b: set<T>)
    requires a <= b
    ensures |a| <= |b|
  {
    assert b == a + (b - a);
  }

  /** Rebinding keeps how many rows hold each role, so the roles as a multiset and the member count. */
  lemma RebindKeepsRoles(t: ChatTables, caller: string, c: ChatCall, env: Env, group: string, roles: set<string>)
    requires Inv(t) && c.Rebind?
    ensures |WithRole(Handle(t, caller, c, env).tables.members, group, roles)| == |WithRole(t.members, group, roles)|
  {
    var out := Handle(t, caller, c, env);
    if out.tables != t {
      var target := RebindTarget(t, c).value;
      MovedRowKeepsRoles(t.members, MemberKey(target, c.previous), MemberKey(target, c.next), group, roles);
    }
  }

  lemma MovedRowKeepsRoles(members: map<MemberKey, MemberRow>, from: MemberKey, to: MemberKey, group: string,
                           roles: set<string>)
    requires from in members && (to == from || to !in members) && from.group == to.group
    ensures |WithRole((members - {from})[to := members[from]], group, roles)| == |WithRole(members, group, roles)|
  {
    var was, now := WithRole(members, group, roles), WithRole((members - {from})[to := members[from]], group, roles);
    if from !in was || to == from {
      assert now == was;
    } else {
      assert to !in was;
      assert now == was - {from} + {to};
    }
  }

  /** A join adds at most the caller's row, with role member. */
  lemma JoinAddsMember(t: ChatTables, caller: string, c: ChatCall, env: Env, k: MemberKey)
    requires Inv(t) && c.Join?
    requires k in Handle(t, caller, c, env).tables.members && k !in t.members
    ensures k == MemberKey(c.group, Caller(caller, c.sender))
    ensures Handle(t, caller, c, env).tables.members[k].role == "member"
  {}

  // ---- permissions ----

  /** A permissions patch replaces the whole map: actions it leaves out go back to their defaults. */
  lemma PermissionPatchResets(t: ChatTables, caller: string, c: ChatCall, env: Env, did: string, action: string)
    requires Inv(t) && c.UpdatePolicy? && c.patch.Some?
    requires "permissions" in c.patch.value && c.patch.value["permissions"].Obj?
    requires StringAt(c.patch.value["permissions"].fields, action) == ""
    requires Handle(t, caller, c, env).reply.Ok?
    ensures var u := Handle(t, caller, c, env).tables;
            Permitted(u, c.group, did, action) <==> RoleMeets(MemberRole(t, c.group, did), DefaultRequiredRole(action))
  {
    var u := Handle(t, caller, c, env).tables;
    assert Get(u.groups[c.group].policy, "permissions") == c.patch.value["permissions"];
    assert MemberRole(u, c.group, did) == MemberRole(t, c.group, did);
  }
}
