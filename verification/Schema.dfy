/** The tables, the wire responses and what each request takes from outside the server. */
module Schema {
  import opened Wrappers
  import opened Wire

  type byte = bv8

  // JSON-RPC error codes.
  const INTERNAL := -32000
  const UNKNOWN_METHOD := -32601
  const DID_NOT_FOUND := -32002
  const OPK_UNAVAILABLE := -32003
  const INVALID_PARAMS := -32004
  const NOTICE_UNSUPPORTED := 5011
  const SLOT_NOT_FOUND := 6000
  const SLOT_EXPIRED := 6001
  const COMMIT_TOKEN_INVALID := 6002
  const GRANT_NOT_FOUND := 6005
  const UNAUTHORIZED := 6006
  const DIGEST_MISMATCH := 6010
  const OBJECT_UNAVAILABLE := 6012
  const ENCRYPTION_POLICY_VIOLATION := 6013

  const SECOND: nat := 1_000_000_000

  /** RFC 3339 timestamps keep whole seconds; clocks count nanoseconds. */
  function Seconds(ns: nat): nat { ns / SECOND }

  /** A stored deadline is passed only strictly after its whole second. */
  predicate Expired(now: nat, deadline: nat) { now > deadline * SECOND }

  /** Everything one request draws from outside: clock, fresh ids, the handles table, oracles. */
  datatype Env = Env(
    now: nat,
    groupId: string,
    slotId: string,
    objectId: string,
    commitToken: string,
    ticket: string,
    handles: map<string, string>,
    handleSyntax: set<string>,
    proofOk: bool,
    mentionsOk: bool,
    baseUrl: string
  )

  /** Server configuration; the digest is any function of the bytes. */
  datatype Config = Config(baseUrl: string, digest: seq<byte> -> string)

  // ---- groups, group_members, messages ----

  datatype GroupRow = GroupRow(
    policy: Fields,
    profile: Option<Fields>,
    owner: string,
    version: nat,
    eventSeq: nat,
    createdAt: nat
  )

  datatype MemberKey = MemberKey(group: string, did: string)
  datatype MemberRow = MemberRow(role: string, status: string, joinedAt: nat)

  /** A message row; wire columns are None when NULL or not decodable. */
  datatype Message = Message(
    id: nat,
    messageId: string,
    sender: string,
    recipient: Option<string>,
    group: Option<string>,
    kind: Kind,
    text: string,
    secure: bool,
    sentAt: nat,
    meta: Option<Json>,
    body: Option<Json>
  )

  datatype ChatTables = ChatTables(
    groups: map<string, GroupRow>,
    members: map<MemberKey, MemberRow>,
    messages: seq<Message>
  )

  // ---- prekey_bundles, one_time_prekeys ----

  datatype PrekeyRow = PrekeyRow(rowid: nat, owner: string, prekey: Json)

  /** Prekey rows stand in the order of their rowids. */
  datatype KeyTables = KeyTables(bundles: map<string, Json>, prekeys: seq<PrekeyRow>)

  // ---- attachment_slots, attachment_objects, attachment_tickets ----

  datatype Status = Created | Committed | Aborted

  /** What a text column holds after binding a JSON scalar; the text of a number always has a point. */
  datatype Column = SqlNull | SqlText(text: string) | SqlReal(value: real)

  datatype Recorded = Recorded(size: nat, digest: string)

  datatype Slot = Slot(
    attachmentId: string,
    objectId: string,
    uploadUri: string,
    objectUri: string,
    commitToken: string,
    status: Status,
    mode: string,
    expectedSize: Column,
    actual: Option<Recorded>,
    expiresAt: nat,
    createdAt: nat,
    owner: string
  )

  datatype Object = Object(data: seq<byte>, size: nat, digest: string)

  datatype Binding = Binding(
    attachmentId: string,
    objectUri: string,
    requester: string,
    messageId: string,
    securityProfile: string,
    target: string,
    group: string
  )

  datatype Ticket = Ticket(binding: Binding, expiresAt: nat)

  datatype FileTables = FileTables(
    slots: map<string, Slot>,
    objects: map<string, Object>,
    tickets: map<string, Ticket>
  )

  // ---- responses ----

  datatype MemberEntry = MemberEntry(did: string, role: string, status: string, joinedAt: nat)

  /** Listed members and, in print, how many. */
  datatype Members = Members(list: seq<MemberEntry>, count: string)

  datatype InboxItem = InboxItem(serverSeq: nat, meta: Json, body: Json)

  datatype Response =
    | GroupCreated(group: string, version: nat, createdAt: nat, creator: string, profile: Json, policy: Fields)
    | GroupInfo(group: string, version: nat, profile: Json, includedPolicy: Option<Fields>, included: Option<Members>)
    | Joined(group: string, member: string, version: nat)
    | Removed(group: string, member: string, version: nat)
    | Left(group: string, leaver: string, version: nat)
    | ProfileUpdated(group: string, version: nat, newProfile: Fields)
    | PolicyUpdated(group: string, version: nat, newPolicy: Fields)
    | SendAck(group: string, messageId: string, operationId: string, eventSeq: nat, version: nat, acceptedAt: nat,
              epoch: Option<string>)
    | Rebound(group: string, handle: string, previous: string, member: string, generation: Json, version: nat)
    | Accepted
    | DirectAck(messageId: string, operationId: string, target: string, acceptedAt: nat)
    | InboxPage(items: seq<InboxItem>)
    | PrekeysPublished(owner: string, bundleId: string, publishedAt: nat)
    | PrekeyBundle(target: string, bundle: Json, prekey: Option<Json>)
    | SlotCreated(attachmentId: string, slotId: string, uploadUri: string, objectUri: string, commitToken: string,
                  expiresAt: nat, uploadHeaders: Option<Fields>)
    | ObjectCommitted(attachmentId: string, objectUri: string, committedAt: nat)
    | ObjectAborted(attachmentId: string, abortedAt: nat)
    | TicketIssued(ticket: string, expiresAt: nat, binding: Binding)
    | Other(value: Json)
}
