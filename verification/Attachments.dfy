/** Upload slots, object bytes and download tickets. */
module Attachments {
  import opened Wrappers
  import opened Wire
  import opened Schema
  import opened Strings

  datatype Out = Out(tables: FileTables, reply: Result<Response>)

  datatype Digest = Digest(alg: string, value: string)

  datatype FileCall =
    | CreateSlot(hasBody: bool, attachmentId: string, profile: string, mode: string,
                 expectedSize: Json, mimeType: Json, filename: Json, headers: Option<Fields>)
    | Commit(hasBody: bool, attachmentId: string, slotId: string, commitToken: string,
             declaredSize: Json, digest: Option<Digest>)
    | Abort(hasBody: bool, attachmentId: string, slotId: string)
    | IssueTicket(hasBody: bool, sender: string, binding: Binding)

  /** Why the data plane refuses a request. */
  datatype Refusal =
    | SlotNotFound | ObjectUnavailable | SlotPastDeadline | ObjectTooLarge
    | TicketInvalid | TicketPastDeadline | BindingMismatch

  datatype UploadReply = Uploaded(size: nat) | UploadRefused(why: Refusal)
  datatype DownloadReply = Bytes(data: seq<byte>) | DownloadRefused(why: Refusal)

  const MAX_UPLOAD_BYTES: nat := 32 * 1024 * 1024
  const SLOT_TTL: nat := 3600 * SECOND
  const TICKET_TTL: nat := 300 * SECOND

  // ---- strings ----

  function TrimSlash(s: string): string {
    if HasSuffix(s, "/") then s[..|s| - 1] else s
  }

  const OBJECTS := "/objects/"
  const BEARER := "Bearer "

  predicate ObjectUriMatches(uri: string, objectId: string) {
    || uri == OBJECTS + objectId
    || HasSuffix(uri, OBJECTS + objectId)
    || HasSuffix(TrimSlash(uri), "/" + objectId)
  }

  /** Generated object ids are non-empty hex strings; all that matters is that they hold no slash. */
  predicate PlainId(id: string) {
    id != "" && forall i | 0 <= i < |id| :: id[i] != '/'
  }

  /** The URI create_slot builds for an object id, over any base URL. */
  predicate UriFor(uri: string, id: string) {
    HasSuffix(uri, OBJECTS + id)
  }

  /** Among slash-free ids, an object URI matches the id it was built from and no other. */
  lemma UriMatchesItsIdOnly(uri: string, id: string, other: string)
    requires PlainId(id) && PlainId(other) && UriFor(uri, id)
    ensures ObjectUriMatches(uri, other) <==> other == id
  {
    SuffixOfSuffix(uri, "/objects", "/" + id);
    assert OBJECTS + id == "/objects" + ("/" + id);
    SuffixOfSuffix(uri, "/", id);
    assert uri[|uri| - 1] == id[|id| - 1] != '/';
    assert !HasSuffix(uri, "/") by {
      assert uri[|uri| - 1..] == [uri[|uri| - 1]];
    }
    if ObjectUriMatches(uri, other) {
      assert HasSuffix(uri, "/" + other) by {
        if HasSuffix(uri, OBJECTS + other) {
          assert OBJECTS + other == "/objects" + ("/" + other);
          SuffixOfSuffix(uri, "/objects", "/" + other);
        }
      }
      SameLastSegment(uri, id, other);
    }
  }

  lemma SuffixOfSuffix(s: string, head: string, tail: string)
    requires HasSuffix(s, head + tail)
    ensures HasSuffix(s, tail)
  {
    assert s[|s| - |tail|..] == s[|s| - |head + tail|..][|head|..];
  }

  lemma SameLastSegment(s: string, id: string, other: string)
    requires PlainId(id) && PlainId(other)
    requires HasSuffix(s, "/" + id) && HasSuffix(s, "/" + other)
    ensures id == other
  {
    SlashBefore(s, id);
    SlashBefore(s, other);
    assert id == s[|s| - |id|..] && other == s[|s| - |other|..];
  }

  lemma SlashBefore(s: string, id: string)
    requires PlainId(id) && HasSuffix(s, "/" + id)
    ensures |s| > |id| && s[|s| - |id| - 1] == '/' && s[|s| - |id|..] == id
    ensures forall i | |s| - |id| <= i < |s| :: s[i] != '/'
  {
    assert s[|s| - |id| - 1..] == "/" + id;
    assert s[|s| - |id|..] == s[|s| - |id| - 1..][1..];
    forall i | |s| - |id| <= i < |s|
      ensures s[i] != '/'
    {
      assert s[i] == id[i - (|s| - |id|)];
    }
  }

  // ---- handlers ----

  /** Binding a JSON value to a text column; arrays and objects make the driver fail. */
  function BindColumn(v: Json): Option<Column> {
    match v
    case Null => Some(SqlNull)
    case Str(s) => Some(SqlText(s))
    case Num(r) => Some(SqlReal(r))
    case Bool(b) => Some(SqlText(if b then "1" else "0"))
    case _ => None
  }

  /** The size a slot declares; the text of a JSON number has a point and does not parse. */
  function DeclaredSize(c: Column): Option<int> {
    if c.SqlText? then SizeToInt64(Str(c.text)) else None
  }

  function CreateUploadSlot(cfg: Config, f: FileTables, caller: string, c: FileCall, env: Env): Out
    requires c.CreateSlot?
  {
    if !c.hasBody || c.attachmentId == "" || c.profile == "" then Out(f, Err(INVALID_PARAMS))
    else if c.profile != "transport-protected" && c.profile != "direct-e2ee" && c.profile != "group-e2ee" then
      Out(f, Err(ENCRYPTION_POLICY_VIOLATION))
    else if c.mode == "" then Out(f, Err(INVALID_PARAMS))
    else if c.mode != "none" && c.mode != "object-e2ee" then Out(f, Err(ENCRYPTION_POLICY_VIOLATION))
    else
      var base := if env.baseUrl != "" then env.baseUrl else cfg.baseUrl;
      var uploadUri, objectUri := base + "/upload/" + env.slotId, base + OBJECTS + env.objectId;
      var size := BindColumn(c.expectedSize);
      if size.None? || BindColumn(c.mimeType).None? || BindColumn(c.filename).None? || env.slotId in f.slots then
        Out(f, Err(INTERNAL))
      else
        var deadline := Seconds(env.now + SLOT_TTL);
        var slot := Slot(c.attachmentId, env.objectId, uploadUri, objectUri, env.commitToken, Created, c.mode,
                         size.value, None, deadline, Seconds(env.now), caller);
        Out(f.(slots := f.slots[env.slotId := slot]),
            Ok(SlotCreated(c.attachmentId, env.slotId, uploadUri, objectUri, env.commitToken, deadline, c.headers)))
  }

  function CommitObject(cfg: Config, f: FileTables, c: FileCall, env: Env): Out
    requires c.Commit?
  {
    if !c.hasBody || c.attachmentId == "" || c.slotId == "" || c.commitToken == "" then Out(f, Err(INVALID_PARAMS))
    else if c.slotId !in f.slots || f.slots[c.slotId].attachmentId != c.attachmentId then Out(f, Err(SLOT_NOT_FOUND))
    else
      var slot := f.slots[c.slotId];
      if slot.commitToken != c.commitToken then Out(f, Err(COMMIT_TOKEN_INVALID))
      else if slot.status != Created then Out(f, Err(OBJECT_UNAVAILABLE))
      else if Expired(env.now, slot.expiresAt) then Out(f, Err(SLOT_EXPIRED))
      else if slot.objectId !in f.objects then Out(f, Err(OBJECT_UNAVAILABLE))
      else
        var obj := f.objects[slot.objectId];
        var declared := SizeToInt64(c.declaredSize);
        if declared.Some? && declared.value != obj.size then Out(f, Err(DIGEST_MISMATCH))
        else if c.digest.Some? && c.digest.value.alg != "" && c.digest.value.alg != "sha-256"
            then Out(f, Err(DIGEST_MISMATCH))
        else if c.digest.Some? && c.digest.value.value != "" && c.digest.value.value != cfg.digest(obj.data) then
          Out(f, Err(DIGEST_MISMATCH))
        else
          Out(f.(slots := f.slots[c.slotId := slot.(status := Committed,
              actual := Some(Recorded(obj.size, obj.digest)))]),
              Ok(ObjectCommitted(c.attachmentId, slot.objectUri, Seconds(env.now))))
  }

  /** Any slot may be aborted, committed ones included; the object stays. */
  function AbortObject(f: FileTables, c: FileCall, env: Env): Out
    requires c.Abort?
  {
    if !c.hasBody || c.attachmentId == "" || c.slotId == "" then Out(f, Err(INVALID_PARAMS))
    else if c.slotId !in f.slots || f.slots[c.slotId].attachmentId != c.attachmentId then Out(f, Err(SLOT_NOT_FOUND))
    else
      Out(f.(slots := f.slots[c.slotId := f.slots[c.slotId].(status := Aborted)]),
          Ok(ObjectAborted(c.attachmentId, Seconds(env.now))))
  }

  predicate ForBinding(s: Slot, b: Binding) {
    s.attachmentId == b.attachmentId && s.objectUri == b.objectUri
  }

  /** ORDER BY created_at DESC LIMIT 1 among the slots for a binding. */
  ghost predicate NewestFor(f: FileTables, b: Binding, slotId: string) {
    && slotId in f.slots && ForBinding(f.slots[slotId], b)
    && forall other | other in f.slots && ForBinding(f.slots[other], b) ::
        f.slots[other].createdAt <= f.slots[slotId].createdAt
  }

  ghost function GrantedSlot(f: FileTables, b: Binding): Option<string> {
    if slotId :| NewestFor(f, b, slotId) then Some(slotId) else None
  }

  ghost function IssueDownloadTicket(f: FileTables, caller: string, c: FileCall, env: Env): Out
    requires c.IssueTicket?
  {
    var b := c.binding;
    if !c.hasBody || b.attachmentId == "" || b.objectUri == "" || b.requester == "" then Out(f, Err(INVALID_PARAMS))
    else if c.sender != "" && b.requester != c.sender then Out(f, Err(UNAUTHORIZED))
    else if caller != "" && b.requester != caller then Out(f, Err(UNAUTHORIZED))
    else if b.messageId == "" || b.securityProfile == "" then Out(f, Err(INVALID_PARAMS))
    else
      var slotId := GrantedSlot(f, b);
      if slotId.None? then Out(f, Err(GRANT_NOT_FOUND))
      else if f.slots[slotId.value].status != Committed then Out(f, Err(OBJECT_UNAVAILABLE))
      else if env.ticket in f.tickets then Out(f, Err(INTERNAL))
      else
        var deadline := Seconds(env.now + TICKET_TTL);
        Out(f.(tickets := f.tickets[env.ticket := Ticket(b, deadline)]), Ok(TicketIssued(env.ticket, deadline, b)))
  }

  ghost function Handle(cfg: Config, f: FileTables, caller: string, c: FileCall, env: Env): Out {
    match c
    case CreateSlot(_, _, _, _, _, _, _, _) => CreateUploadSlot(cfg, f, caller, c, env)
    case Commit(_, _, _, _, _, _) => CommitObject(cfg, f, c, env)
    case Abort(_, _, _) => AbortObject(f, c, env)
    case IssueTicket(_, _, _) => IssueDownloadTicket(f, caller, c, env)
  }

  /** PUT /upload/{slot_id}. */
  function Upload(cfg: Config, f: FileTables, slotId: string, content: seq<byte>, now: nat): (FileTables, UploadReply) {
    if slotId !in f.slots then (f, UploadRefused(SlotNotFound))
    else
      var slot := f.slots[slotId];
      if slot.status != Created then (f, UploadRefused(ObjectUnavailable))
      else if Expired(now, slot.expiresAt) then (f, UploadRefused(SlotPastDeadline))
      else if |content| > MAX_UPLOAD_BYTES then (f, UploadRefused(ObjectTooLarge))
      else if DeclaredSize(slot.expectedSize).Some? && DeclaredSize(slot.expectedSize).value != |content| then
        (f, UploadRefused(ObjectTooLarge))
      else
        (f.(objects := f.objects[slot.objectId := Object(content, |content|, cfg.digest(content))]),
         Uploaded(|content|))
  }

  /** The bearer ticket of an Authorization header. */
  function BearerTicket(authorization: string): Option<string> {
    if HasPrefix(authorization, BEARER) then Some(TrimSpace(authorization[|BEARER|..])) else None
  }

  /** GET /objects/{object_id}. */
  function Download(f: FileTables, objectId: string, authorization: string, now: nat): DownloadReply {
    var key := BearerTicket(authorization);
    if key.None? || key.value !in f.tickets then DownloadRefused(TicketInvalid)
    else
      var ticket := f.tickets[key.value];
      if Expired(now, ticket.expiresAt) then DownloadRefused(TicketPastDeadline)
      else if ticket.binding.objectUri == "" then DownloadRefused(TicketInvalid)
      else if !ObjectUriMatches(ticket.binding.objectUri, objectId) then DownloadRefused(BindingMismatch)
      else if objectId !in f.objects then DownloadRefused(ObjectUnavailable)
      else Bytes(f.objects[objectId].data)
  }
}
