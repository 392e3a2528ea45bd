/** What each method takes out of its params. */
module Requests {
  import opened Wrappers
  import opened Wire
  import opened Schema
  import opened Dispatch
  import G = Groups
  import P = Prekeys
  import A = Attachments

  function ArrayItems(v: Json): seq<Json> {
    if v.Arr? then v.items else []
  }

  function CreateCall(p: Fields): (c: G.ChatCall)
    ensures c.Create?
  {
    G.Create(AsMap(Get(Body(p), "group_policy")), AsMap(Get(Body(p), "group_profile")), Sender(p),
             ArrayItems(Get(Body(p), "initial_members")))
  }

  function GetInfoCall(p: Fields): (c: G.ChatCall)
    ensures c.GetInfo?
  {
    G.GetInfo(GroupDidFromParams(p), AsBool(Get(Body(p), "include_policy")),
              AsBool(Get(Body(p), "include_member_list")))
  }

  function JoinCall(p: Fields): (c: G.ChatCall)
    ensures c.Join?
  {
    G.Join(GroupDidFromParams(p), Sender(p))
  }

  function AddCall(p: Fields): (c: G.ChatCall)
    ensures c.Add?
  {
    G.Add(GroupDidFromParams(p), StringAt(Body(p), "member_did"), StringAt(Body(p), "member_handle"),
          StringAt(Body(p), "role"))
  }

  function RemoveCall(p: Fields): (c: G.ChatCall)
    ensures c.Remove?
  {
    G.Remove(GroupDidFromParams(p), StringAt(Body(p), "member_did"))
  }

  function LeaveCall(p: Fields): (c: G.ChatCall)
    ensures c.Leave?
  {
    G.Leave(GroupDidFromParams(p), Sender(p))
  }

  function UpdateProfileCall(p: Fields): (c: G.ChatCall)
    ensures c.UpdateProfile?
  {
    G.UpdateProfile(GroupDidFromParams(p), AsMap(Get(Body(p), "group_profile_patch")),
                    AsMap(Get(Body(p), "group_profile")))
  }

  function UpdatePolicyCall(p: Fields): (c: G.ChatCall)
    ensures c.UpdatePolicy?
  {
    G.UpdatePolicy(GroupDidFromParams(p), AsMap(Get(Body(p), "group_policy_patch")),
                   AsMap(Get(Body(p), "group_policy")))
  }

  function RebindCall(p: Fields): (c: G.ChatCall)
    ensures c.Rebind?
  {
    G.Rebind(GroupDidFromParams(p), StringAt(Body(p), "member_handle"), StringAt(Body(p), "previous_member_did"),
             StringAt(Body(p), "new_member_did"), Get(Body(p), "handle_binding_generation"))
  }

  function SendOf(p: Fields, target: string): G.Send {
    var m := Meta(p);
    G.Send(target, StringAt(m, "message_id"), StringAt(m, "operation_id"), StringAt(m, "content_type"), Sender(p),
           HasAuth(p), MetaJson(p), BodyJson(p))
  }

  function SendPlainCall(p: Fields): (c: G.ChatCall)
    ensures c.SendPlain?
  {
    G.SendPlain(SendOf(p, if TargetDid(p) != "" then TargetDid(p) else GroupDidFromParams(p)), ClassifyPayload(Body(p)))
  }

  predicate HasBody(p: Fields) { Get(p, "body").Obj? }

  predicate CipherFields(body: Fields) {
    && StringAt(body, "crypto_group_id_b64u") != ""
    && StringAt(body, "epoch") != ""
    && StringAt(body, "private_message_b64u") != ""
    && Get(body, "group_state_ref").Obj?
  }

  function SendCipherCall(p: Fields): (c: G.ChatCall)
    ensures c.SendCipher?
  {
    G.SendCipher(SendOf(p, if TargetDid(p) != "" then TargetDid(p) else CipherGroupDid(Body(p))), HasBody(p),
                 CipherFields(Body(p)), StringAt(Body(p), "epoch"))
  }

  /** The presence checks of group.e2ee.notice. */
  function NoticeCheck(p: Fields): Result<()> {
    var body := Body(p);
    var kind := StringAt(body, "notice_type");
    if !HasBody(p) || kind == "" then Err(INVALID_PARAMS)
    else if kind != "commit-delivery" && kind != "welcome-delivery" then Err(NOTICE_UNSUPPORTED)
    else if kind == "commit-delivery" then
      if StringAt(body, "commit_b64u") == "" then Err(INVALID_PARAMS) else Ok(())
    else if StringAt(body, "welcome_b64u") == "" || StringAt(body, "ratchet_tree_b64u") == "" then Err(INVALID_PARAMS)
    else Ok(())
  }

  function SendNoticeCall(p: Fields): (c: G.ChatCall)
    ensures c.SendNotice?
  {
    G.SendNotice(NoticeCheck(p), TargetDid(p), Sender(p), StringAt(Body(p), "group_did"), MetaJson(p), BodyJson(p))
  }

  predicate IsPlaintextDirect(p: Fields) {
    && StringAt(Meta(p), "profile") == "anp.direct.base.v1"
    && StringAt(Meta(p), "security_profile") == "transport-protected"
  }

  function SendDirectCall(p: Fields): (c: G.ChatCall)
    ensures c.SendDirect?
  {
    G.SendDirect(SendOf(p, TargetDid(p)), IsPlaintextDirect(p), ClassifyPayload(Body(p)))
  }

  function InboxCall(p: Fields): (c: G.ChatCall)
    ensures c.Inbox?
  {
    G.Inbox(InboxLimit(p))
  }

  function PublishCall(p: Fields): P.KeyCall {
    var entries := Get(Body(p), "one_time_prekeys");
    P.Publish(AsMap(Get(Body(p), "prekey_bundle")), if entries.Arr? then Some(entries.items) else None)
  }

  function GetBundleCall(p: Fields): P.KeyCall {
    P.GetBundle(StringAt(Body(p), "target_did"), AsBool(Get(Body(p), "require_opk")))
  }

  function CreateSlotCall(p: Fields): A.FileCall {
    var b := Body(p);
    A.CreateSlot(HasBody(p), StringAt(b, "attachment_id"), StringAt(b, "intended_message_security_profile"),
                 StringAt(b, "object_encryption_mode"), Get(b, "expected_size"), Get(b, "mime_type"),
                 Get(b, "filename"), AsMap(Get(b, "upload_headers")))
  }

  function DigestOf(v: Json): Option<A.Digest> {
    if v.Obj? then Some(A.Digest(StringAt(v.fields, "alg"), StringAt(v.fields, "value_b64u"))) else None
  }

  function CommitCall(p: Fields): A.FileCall {
    var b := Body(p);
    A.Commit(HasBody(p), StringAt(b, "attachment_id"), StringAt(b, "slot_id"), StringAt(b, "commit_token"),
             Get(b, "size"), DigestOf(Get(b, "digest")))
  }

  function AbortCall(p: Fields): A.FileCall {
    A.Abort(HasBody(p), StringAt(Body(p), "attachment_id"), StringAt(Body(p), "slot_id"))
  }

  function IssueTicketCall(p: Fields): A.FileCall {
    var b := Body(p);
    A.IssueTicket(HasBody(p), Sender(p),
                  Binding(StringAt(b, "attachment_id"), StringAt(b, "object_uri"), StringAt(b, "requester_did"),
                          StringAt(b, "message_id"), StringAt(b, "message_security_profile"),
                          StringAt(b, "message_target_did"), StringAt(b, "group_did")))
  }

  const ACCEPTED := Obj(map["accepted" := Bool(true)])

  /** Methods that touch no modelled table; their outcome comes from outside. */
  const OUTSIDE: seq<string> := [
    "did.resolve", "did.register_document", "handle.register", "handle.recover",
    "group.e2ee.publish_key_package", "group.e2ee.get_key_package",
    "group.e2ee.create", "group.e2ee.add", "group.e2ee.remove"]

  /** The routing of dispatch, one table family at a time. */
  function ParseChat(name: string, p: Fields): Option<G.ChatCall> {
    if name == "msg.inbox" then Some(InboxCall(p))
    else if name == "direct.send" then Some(SendDirectCall(p))
    else if name == "group.create" then Some(CreateCall(p))
    else if name == "group.get_info" then Some(GetInfoCall(p))
    else if name == "group.join" then Some(JoinCall(p))
    else if name == "group.add" then Some(AddCall(p))
    else if name == "group.remove" then Some(RemoveCall(p))
    else if name == "group.leave" then Some(LeaveCall(p))
    else if name == "group.update_profile" then Some(UpdateProfileCall(p))
    else if name == "group.update_policy" then Some(UpdatePolicyCall(p))
    else if name == "group.send" then Some(SendPlainCall(p))
    else if name == "group.rebind_member" then Some(RebindCall(p))
    else if name == "group.e2ee.send" then Some(SendCipherCall(p))
    else if name == "group.e2ee.notice" then Some(SendNoticeCall(p))
    else None
  }

  function ParseKeys(name: string, p: Fields): Option<P.KeyCall> {
    if name == "direct.e2ee.publish_prekey_bundle" then Some(PublishCall(p))
    else if name == "direct.e2ee.get_prekey_bundle" then Some(GetBundleCall(p))
    else None
  }

  function ParseFiles(name: string, p: Fields): Option<A.FileCall> {
    if name == "attachment.create_slot" then Some(CreateSlotCall(p))
    else if name == "attachment.commit_object" then Some(CommitCall(p))
    else if name == "attachment.abort_object" then Some(AbortCall(p))
    else if name == "attachment.get_download_ticket" then Some(IssueTicketCall(p))
    else None
  }

  function ParseCall(name: string, p: Fields, outside: Result<Json>): Call {
    match (ParseChat(name, p), ParseKeys(name, p), ParseFiles(name, p))
    case (Some(c), _, _) => Chat(c)
    case (None, Some(c), _) => Keys(c)
    case (None, None, Some(c)) => Files(c)
    case (None, None, None) =>
      if name == "direct.incoming" || name == "group.incoming" || name == "group.state_changed"
          then Unmodelled(Ok(ACCEPTED))
      else if name in OUTSIDE then Unmodelled(outside)
      else Unmodelled(Err(UNKNOWN_METHOD))
  }
}
