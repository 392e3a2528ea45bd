/** Where in a request each part of a call stands, as paths into its params. */
module Envelope {
  import opened Wrappers
  import opened Wire
  import opened Schema
  import opened Dispatch
  import opened Requests
  import opened Retries
  import G = Groups
  import P = Prekeys
  import A = Attachments

  /** The value at a path of object members; null when the path leaves the objects. */
  function Walk(v: Json, path: seq<string>): Json
    decreases |path|
  {
    if path == [] then v
    else if v.Obj? && path[0] in v.fields then Walk(v.fields[path[0]], path[1..])
    else Null
  }

  /** The text at a path; "" when there is none. */
  function TextAt(p: Fields, path: seq<string>): string {
    var v := Walk(Obj(p), path);
    if v.Str? then v.s else ""
  }

  predicate IsObject(p: Fields, path: seq<string>) { Walk(Obj(p), path).Obj? }

  /** The object at a path, or null. */
  function ObjectOrNull(p: Fields, path: seq<string>): Json {
    if IsObject(p, path) then Walk(Obj(p), path) else Null
  }

  function Fieldset(p: Fields, path: seq<string>): Option<Fields> {
    if IsObject(p, path) then Some(Walk(Obj(p), path).fields) else None
  }

  function FirstOf(a: string, b: string): string { if a != "" then a else b }

  /** body.group_did, or else meta.target.did. */
  function GroupText(p: Fields): string {
    FirstOf(TextAt(p, ["body", "group_did"]), TextAt(p, ["meta", "target", "did"]))
  }

  lemma OneStep(v: Json, a: string)
    ensures Walk(v, [a]) == Get(MapOrEmpty(v), a)
  {
    assert [a][1..] == [];
  }

  lemma TwoSteps(p: Fields, a: string, b: string)
    ensures Walk(Obj(p), [a, b]) == Get(MapOrEmpty(Get(p, a)), b)
  {
    assert [a, b][1..] == [b];
    OneStep(Get(p, a), b);
  }

  lemma ThreeSteps(p: Fields, a: string, b: string, c: string)
    ensures Walk(Obj(p), [a, b, c]) == Get(MapOrEmpty(Get(MapOrEmpty(Get(p, a)), b)), c)
  {
    assert [a, b, c][1..] == [b, c] && [b, c][1..] == [c];
    OneStep(Get(MapOrEmpty(Get(p, a)), b), c);
  }

  lemma BodyText(p: Fields, key: string)
    ensures StringAt(Body(p), key) == TextAt(p, ["body", key]) && Get(Body(p), key) == Walk(Obj(p), ["body", key])
    ensures AsMap(Get(Body(p), key)) == Fieldset(p, ["body", key])
  {
    TwoSteps(p, "body", key);
  }

  lemma MetaText(p: Fields, key: string)
    ensures StringAt(Meta(p), key) == TextAt(p, ["meta", key])
  {
    TwoSteps(p, "meta", key);
  }

  lemma CommonParts(p: Fields)
    ensures Sender(p) == TextAt(p, ["meta", "sender_did"])
    ensures TargetDid(p) == TextAt(p, ["meta", "target", "did"])
    ensures GroupDidFromParams(p) == GroupText(p)
    ensures MetaJson(p) == ObjectOrNull(p, ["meta"]) && BodyJson(p) == ObjectOrNull(p, ["body"])
    ensures HasBody(p) == IsObject(p, ["body"]) && HasAuth(p) == IsObject(p, ["auth"])
  {
    MetaText(p, "sender_did");
    BodyText(p, "group_did");
    ThreeSteps(p, "meta", "target", "did");
    OneStep(Obj(p), "meta");
    OneStep(Obj(p), "body");
    OneStep(Obj(p), "auth");
  }

  // ---- group methods ----

  /** The group methods but the sends, path by path. */
  lemma GroupMethods(p: Fields, outside: Result<Json>)
    ensures var sender, gid := TextAt(p, ["meta", "sender_did"]), GroupText(p);
            && ParseCall("group.join", p, outside) == Chat(G.Join(gid, sender))
            && ParseCall("group.leave", p, outside) == Chat(G.Leave(gid, sender))
            && ParseCall("group.remove", p, outside) == Chat(G.Remove(gid, TextAt(p, ["body", "member_did"])))
            && ParseCall("group.add", p, outside) ==
               Chat(G.Add(gid, TextAt(p, ["body", "member_did"]), TextAt(p, ["body", "member_handle"]),
                          TextAt(p, ["body", "role"])))
            && ParseCall("group.rebind_member", p, outside) ==
               Chat(G.Rebind(gid, TextAt(p, ["body", "member_handle"]), TextAt(p, ["body", "previous_member_did"]),
                             TextAt(p, ["body", "new_member_did"]),
                             Walk(Obj(p), ["body", "handle_binding_generation"])))
  {
    hide GroupText, TextAt, Walk, Sender, GroupDidFromParams, StringAt, Body, Get, AsMap, IsObject, Fieldset;
    CommonParts(p);
    BodyText(p, "member_did");
    BodyText(p, "member_handle");
    BodyText(p, "role");
    BodyText(p, "previous_member_did");
    BodyText(p, "new_member_did");
    BodyText(p, "handle_binding_generation");
  }

  lemma GroupDocumentMethods(p: Fields, outside: Result<Json>)
    ensures var gid := GroupText(p);
            && ParseCall("group.update_profile", p, outside) ==
               Chat(G.UpdateProfile(gid, Fieldset(p, ["body", "group_profile_patch"]),
                                    Fieldset(p, ["body", "group_profile"])))
            && ParseCall("group.update_policy", p, outside) ==
               Chat(G.UpdatePolicy(gid, Fieldset(p, ["body", "group_policy_patch"]),
                                   Fieldset(p, ["body", "group_policy"])))
            && ParseCall("group.get_info", p, outside) ==
               Chat(G.GetInfo(gid, Walk(Obj(p), ["body", "include_policy"]) == Bool(true),
                              Walk(Obj(p), ["body", "include_member_list"]) == Bool(true)))
            && var members := Walk(Obj(p), ["body", "initial_members"]);
               ParseCall("group.create", p, outside) ==
               Chat(G.Create(Fieldset(p, ["body", "group_policy"]), Fieldset(p, ["body", "group_profile"]),
                             TextAt(p, ["meta", "sender_did"]), if members.Arr? then members.items else []))
  {
    hide GroupText, TextAt, Walk, Sender, GroupDidFromParams, StringAt, Body, Get, AsMap, IsObject, Fieldset;
    CommonParts(p);
    BodyText(p, "group_profile_patch");
    BodyText(p, "group_profile");
    BodyText(p, "group_policy_patch");
    BodyText(p, "group_policy");
    BodyText(p, "include_policy");
    BodyText(p, "include_member_list");
    BodyText(p, "initial_members");
  }

  // ---- sends ----

  /** What every send takes from meta, body and auth. */
  function SendAt(p: Fields, target: string): G.Send {
    G.Send(target, TextAt(p, ["meta", "message_id"]), TextAt(p, ["meta", "operation_id"]),
           TextAt(p, ["meta", "content_type"]), TextAt(p, ["meta", "sender_did"]), IsObject(p, ["auth"]),
           ObjectOrNull(p, ["meta"]), ObjectOrNull(p, ["body"]))
  }

  lemma SendParts(p: Fields, target: string)
    ensures SendOf(p, target) == SendAt(p, target)
  {
    hide TextAt, Walk, Sender, StringAt, Meta, HasAuth, MetaJson, BodyJson, IsObject, ObjectOrNull;
    CommonParts(p);
    MetaText(p, "message_id");
    MetaText(p, "operation_id");
    MetaText(p, "content_type");
  }

  /** Exactly one of text, payload and payload_b64u. */
  ghost predicate CarriesOne(p: Fields) {
    var text, payload, binary :=
      TextAt(p, ["body", "text"]) != "",
      IsObject(p, ["body"]) && "payload" in Walk(Obj(p), ["body"]).fields,
      TextAt(p, ["body", "payload_b64u"]) != "";
    (text && !payload && !binary) || (!text && payload && !binary) || (!text && !payload && binary)
  }

  /** A plaintext body is accepted iff it carries exactly one of the three, and the kind says which. */
  lemma PlaintextBody(p: Fields)
    ensures ClassifyPayload(Body(p)).Some? <==> CarriesOne(p)
    ensures CarriesOne(p) ==>
              var c := ClassifyPayload(Body(p)).value;
              && c.text == TextAt(p, ["body", "text"])
              && (c.kind == Text <==> TextAt(p, ["body", "text"]) != "")
              && (c.kind == Binary <==> TextAt(p, ["body", "payload_b64u"]) != "")
  {
    hide TextAt, Walk, StringAt, Get;
    BodyText(p, "text");
    BodyText(p, "payload_b64u");
    BodyIsObject(p);
  }

  lemma BodyIsObject(p: Fields)
    ensures IsObject(p, ["body"]) ==> Body(p) == Walk(Obj(p), ["body"]).fields
    ensures !IsObject(p, ["body"]) ==> Body(p) == map[]
  {
    OneStep(Obj(p), "body");
  }

  /** The target of group.send: meta.target.did, or else body.group_did. */
  lemma SendMethods(p: Fields, outside: Result<Json>)
    ensures var target := TextAt(p, ["meta", "target", "did"]);
            && ParseCall("group.send", p, outside) ==
               Chat(G.SendPlain(SendAt(p, FirstOf(target, TextAt(p, ["body", "group_did"]))), ClassifyPayload(Body(p))))
            && ParseCall("direct.send", p, outside) ==
               Chat(G.SendDirect(SendAt(p, target),
                                 TextAt(p, ["meta", "profile"]) == "anp.direct.base.v1"
                                 && TextAt(p, ["meta", "security_profile"]) == "transport-protected",
                                 ClassifyPayload(Body(p))))
            && ParseCall("msg.inbox", p, outside) == Chat(G.Inbox(InboxLimit(p)))
  {
    hide TextAt, Walk, StringAt, Get, Meta, Body, TargetDid, GroupDidFromParams, SendOf, SendAt, ClassifyPayload;
    hide InboxLimit;
    CommonParts(p);
    var target := TextAt(p, ["meta", "target", "did"]);
    SendParts(p, target);
    SendParts(p, FirstOf(target, TextAt(p, ["body", "group_did"])));
    MetaText(p, "profile");
    MetaText(p, "security_profile");
  }

  /** The cipher send: its fallback for the target, and the fields that must be there. */
  lemma CipherMethod(p: Fields, outside: Result<Json>)
    ensures var target := FirstOf(TextAt(p, ["meta", "target", "did"]),
                                  FirstOf(TextAt(p, ["body", "group_did"]),
                                          TextAt(p, ["body", "group_state_ref", "group_did"])));
            ParseCall("group.e2ee.send", p, outside) ==
            Chat(G.SendCipher(SendAt(p, target), IsObject(p, ["body"]),
                              && TextAt(p, ["body", "crypto_group_id_b64u"]) != "" && TextAt(p, ["body", "epoch"]) != ""
                              && TextAt(p, ["body", "private_message_b64u"]) != ""
                              && IsObject(p, ["body", "group_state_ref"]),
                              TextAt(p, ["body", "epoch"])))
  {
    hide TextAt, Walk, StringAt, Get, Meta, Body, TargetDid, GroupDidFromParams, SendOf, SendAt, HasBody, MapOrEmpty;
    CommonParts(p);
    BodyText(p, "group_did");
    BodyText(p, "crypto_group_id_b64u");
    BodyText(p, "epoch");
    BodyText(p, "private_message_b64u");
    BodyText(p, "group_state_ref");
    CipherFallback(p);
    var target := FirstOf(TextAt(p, ["meta", "target", "did"]), CipherGroupDid(Body(p)));
    SendParts(p, target);
  }

  lemma CipherFallback(p: Fields)
    ensures CipherGroupDid(Body(p)) ==
            FirstOf(TextAt(p, ["body", "group_did"]), TextAt(p, ["body", "group_state_ref", "group_did"]))
  {
    BodyText(p, "group_did");
    ThreeSteps(p, "body", "group_state_ref", "group_did");
  }

  /** A notice is well formed iff it is a commit with its commit, or a welcome with its welcome and tree. */
  lemma NoticeMethod(p: Fields, outside: Result<Json>)
    ensures var c := ParseCall("group.e2ee.notice", p, outside);
            && c.Chat? && c.chat.SendNotice?
            && c.chat.target == TextAt(p, ["meta", "target", "did"])
            && c.chat.sender == TextAt(p, ["meta", "sender_did"])
            && c.chat.noticeGroup == TextAt(p, ["body", "group_did"])
            && c.chat.meta == ObjectOrNull(p, ["meta"]) && c.chat.body == ObjectOrNull(p, ["body"])
            && var kind := TextAt(p, ["body", "notice_type"]);
               && (c.chat.noticeOk.Ok? <==>
                     || (kind == "commit-delivery" && TextAt(p, ["body", "commit_b64u"]) != "")
                     || (kind == "welcome-delivery" && TextAt(p, ["body", "welcome_b64u"]) != ""
                         && TextAt(p, ["body", "ratchet_tree_b64u"]) != ""))
               && (c.chat.noticeOk == Err(5011) <==>
                     kind != "" && kind != "commit-delivery" && kind != "welcome-delivery")
  {
    hide TextAt, Walk, StringAt, Get, Body, Sender, TargetDid, MetaJson, BodyJson, HasBody;
    CommonParts(p);
    BodyText(p, "group_did");
    BodyText(p, "notice_type");
    BodyText(p, "commit_b64u");
    BodyText(p, "welcome_b64u");
    BodyText(p, "ratchet_tree_b64u");
    NoBodyNoText(p, "notice_type");
  }

  lemma NoBodyNoText(p: Fields, key: string)
    ensures !HasBody(p) ==> TextAt(p, ["body", key]) == ""
  {
    TwoSteps(p, "body", key);
  }

  // ---- prekeys and attachments ----

  lemma KeyMethods(p: Fields, outside: Result<Json>)
    ensures var listed := Walk(Obj(p), ["body", "one_time_prekeys"]);
            && ParseCall("direct.e2ee.publish_prekey_bundle", p, outside) ==
               Keys(P.Publish(Fieldset(p, ["body", "prekey_bundle"]), if listed.Arr? then Some(listed.items) else None))
            && ParseCall("direct.e2ee.get_prekey_bundle", p, outside) ==
               Keys(P.GetBundle(TextAt(p, ["body", "target_did"]), Walk(Obj(p), ["body", "require_opk"]) == Bool(true)))
  {
    hide TextAt, Walk, StringAt, Get, Body, AsMap, Fieldset, IsObject;
    BodyText(p, "one_time_prekeys");
    BodyText(p, "prekey_bundle");
    BodyText(p, "target_did");
    BodyText(p, "require_opk");
  }

  lemma SlotMethods(p: Fields, outside: Result<Json>)
    ensures ParseCall("attachment.create_slot", p, outside) ==
            Files(A.CreateSlot(IsObject(p, ["body"]), TextAt(p, ["body", "attachment_id"]),
                               TextAt(p, ["body", "intended_message_security_profile"]),
                               TextAt(p, ["body", "object_encryption_mode"]), Walk(Obj(p), ["body", "expected_size"]),
                               Walk(Obj(p), ["body", "mime_type"]), Walk(Obj(p), ["body", "filename"]),
                               Fieldset(p, ["body", "upload_headers"])))
    ensures ParseCall("attachment.abort_object", p, outside) ==
            Files(A.Abort(IsObject(p, ["body"]), TextAt(p, ["body", "attachment_id"]), TextAt(p, ["body", "slot_id"])))
  {
    hide TextAt, Walk, StringAt, Get, Body, AsMap, Fieldset, IsObject, HasBody;
    CommonParts(p);
    BodyText(p, "attachment_id");
    BodyText(p, "intended_message_security_profile");
    BodyText(p, "object_encryption_mode");
    BodyText(p, "expected_size");
    BodyText(p, "mime_type");
    BodyText(p, "filename");
    BodyText(p, "upload_headers");
    BodyText(p, "slot_id");
  }

  lemma CommitMethod(p: Fields, outside: Result<Json>)
    ensures ParseCall("attachment.commit_object", p, outside) ==
            Files(A.Commit(IsObject(p, ["body"]), TextAt(p, ["body", "attachment_id"]), TextAt(p, ["body", "slot_id"]),
                           TextAt(p, ["body", "commit_token"]), Walk(Obj(p), ["body", "size"]),
                           if IsObject(p, ["body", "digest"])
                           then Some(A.Digest(TextAt(p, ["body", "digest", "alg"]),
                                              TextAt(p, ["body", "digest", "value_b64u"])))
                           else None))
  {
    hide StringAt, Body, HasBody, TextAt, Walk;
    CommonParts(p);
    BodyText(p, "attachment_id");
    BodyText(p, "slot_id");
    BodyText(p, "commit_token");
    BodyText(p, "size");
    BodyText(p, "digest");
    DigestParts(p);
  }

  lemma DigestParts(p: Fields)
    ensures DigestOf(Get(Body(p), "digest")) ==
            if IsObject(p, ["body", "digest"])
            then Some(A.Digest(TextAt(p, ["body", "digest", "alg"]), TextAt(p, ["body", "digest", "value_b64u"])))
            else None
  {
    BodyText(p, "digest");
    ThreeSteps(p, "body", "digest", "alg");
    ThreeSteps(p, "body", "digest", "value_b64u");
  }

  lemma TicketMethod(p: Fields, outside: Result<Json>)
    ensures ParseCall("attachment.get_download_ticket", p, outside) ==
            Files(A.IssueTicket(IsObject(p, ["body"]), TextAt(p, ["meta", "sender_did"]),
                                Binding(TextAt(p, ["body", "attachment_id"]), TextAt(p, ["body", "object_uri"]),
                                        TextAt(p, ["body", "requester_did"]), TextAt(p, ["body", "message_id"]),
                                        TextAt(p, ["body", "message_security_profile"]),
                                        TextAt(p, ["body", "message_target_did"]), TextAt(p, ["body", "group_did"]))))
  {
    hide TextAt, Walk, StringAt, Get, Body, IsObject, HasBody, Sender;
    CommonParts(p);
    BodyText(p, "attachment_id");
    BodyText(p, "object_uri");
    BodyText(p, "requester_did");
    BodyText(p, "message_id");
    BodyText(p, "message_security_profile");
    BodyText(p, "message_target_did");
    BodyText(p, "group_did");
  }

  // ---- methods that touch no modelled table ----

  /** The placeholder methods acknowledge. */
  lemma PlaceholderMethods(name: string, p: Fields, outside: Result<Json>)
    requires name in ["direct.incoming", "group.incoming", "group.state_changed"]
    ensures ParseCall(name, p, outside) == Unmodelled(Ok(Obj(map["accepted" := Bool(true)])))
  {
    hide OUTSIDE;
  }

  /** The methods outside the model bring their outcome with them. */
  lemma IdentityMethods(p: Fields, outside: Result<Json>)
    ensures ParseCall("did.resolve", p, outside) == Unmodelled(outside)
    ensures ParseCall("did.register_document", p, outside) == Unmodelled(outside)
    ensures ParseCall("handle.register", p, outside) == Unmodelled(outside)
    ensures ParseCall("handle.recover", p, outside) == Unmodelled(outside)
  {
    hide ParseCall;
    OutsideMethod("did.resolve", p, outside);
    OutsideMethod("did.register_document", p, outside);
    OutsideMethod("handle.register", p, outside);
    OutsideMethod("handle.recover", p, outside);
  }

  lemma GroupKeyMethods(p: Fields, outside: Result<Json>)
    ensures ParseCall("group.e2ee.publish_key_package", p, outside) == Unmodelled(outside)
    ensures ParseCall("group.e2ee.get_key_package", p, outside) == Unmodelled(outside)
    ensures ParseCall("group.e2ee.create", p, outside) == Unmodelled(outside)
    ensures ParseCall("group.e2ee.add", p, outside) == Unmodelled(outside)
    ensures ParseCall("group.e2ee.remove", p, outside) == Unmodelled(outside)
  {
    hide ParseCall;
    OutsideMethod("group.e2ee.publish_key_package", p, outside);
    OutsideMethod("group.e2ee.get_key_package", p, outside);
    OutsideMethod("group.e2ee.create", p, outside);
    OutsideMethod("group.e2ee.add", p, outside);
    OutsideMethod("group.e2ee.remove", p, outside);
  }

  lemma OutsideMethod(name: string, p: Fields, outside: Result<Json>)
    requires name in OUTSIDE
    ensures ParseCall(name, p, outside) == Unmodelled(outside)
  {
    hide OUTSIDE, ParseChat, ParseKeys, ParseFiles;
    NotModelled(name, p);
  }

  lemma NotModelled(name: string, p: Fields)
    requires name in OUTSIDE
    ensures ParseChat(name, p).None? && ParseKeys(name, p).None? && ParseFiles(name, p).None?
    ensures name !in ["direct.incoming", "group.incoming", "group.state_changed"]
  {
    hide ParseChat, OUTSIDE;
    NotChat(name, p);
    NotKeysOrFiles(name, p);
    NotPlaceholder(name);
  }

  lemma NotChat(name: string, p: Fields)
    requires name in OUTSIDE
    ensures ParseChat(name, p).None?
  {}

  lemma NotKeysOrFiles(name: string, p: Fields)
    requires name in OUTSIDE
    ensures ParseKeys(name, p).None? && ParseFiles(name, p).None?
  {}

  lemma NotPlaceholder(name: string)
    requires name in OUTSIDE
    ensures name !in ["direct.incoming", "group.incoming", "group.state_changed"]
  {}

  /** Any name outside the routing switch is unknown. */
  lemma UnknownMethods(name: string, p: Fields, outside: Result<Json>)
    requires name !in ["msg.inbox", "direct.send", "direct.e2ee.publish_prekey_bundle", "direct.e2ee.get_prekey_bundle",
                       "direct.incoming", "group.incoming", "group.state_changed"]
    requires name !in ["group.create", "group.get_info", "group.join", "group.add", "group.remove", "group.leave",
                       "group.update_profile", "group.update_policy", "group.send", "group.rebind_member",
                       "group.e2ee.send", "group.e2ee.notice"]
    requires name !in ["attachment.create_slot", "attachment.commit_object", "attachment.abort_object",
                       "attachment.get_download_ticket"]
    requires name !in ["did.resolve", "did.register_document", "handle.register", "handle.recover",
                       "group.e2ee.publish_key_package", "group.e2ee.get_key_package",
                       "group.e2ee.create", "group.e2ee.add", "group.e2ee.remove"]
    ensures ParseCall(name, p, outside) == Unmodelled(Err(-32601))
  {}

  // ---- operation ids ----

  /** meta.operation_id is this text. */
  ghost predicate InMeta(p: Fields, id: string) {
    && "meta" in p && p["meta"].Obj?
    && "operation_id" in p["meta"].fields && p["meta"].fields["operation_id"] == Str(id)
  }

  /** The top-level operation_id is this text. */
  ghost predicate AtTop(p: Fields, id: string) {
    "operation_id" in p && p["operation_id"] == Str(id)
  }

  /** The request carries this operation id: in meta, or at the top level when meta carries none. */
  ghost predicate Carries(p: Fields, id: string) {
    id != "" && (InMeta(p, id) || (AtTop(p, id) && forall other | other != "" :: !InMeta(p, other)))
  }

  lemma CarriesItsId(p: Fields, id: string)
    ensures Carries(p, id) <==> id != "" && OperationIdFromParams(p) == id
  {
    var top := StringAt(p, "operation_id");
    var inner := StringAt(Meta(p), "operation_id");
    assert inner != "" ==> InMeta(p, inner);
    assert forall other | InMeta(p, other) :: other == inner;
  }

  /** Two requests of one caller for one method that carry the same id, in meta or at the top level: once
      the first has succeeded, the second gets its response and changes nothing. */
  lemma SameIdRunsOnce(cfg: Config, run: seq<Event>, i: nat, j: nat, p: Fields, q: Fields,
                       a: Result<Json>, b: Result<Json>, id: string, r: Response)
    requires i < j < |run| && run[i].Rpc? && run[j].Rpc?
    requires FromParams(run[i], p, a) && FromParams(run[j], q, b)
    requires run[i].caller == run[j].caller && run[i].method_ == run[j].method_
    requires Carries(p, id) && Carries(q, id)
    requires Succeeded(cfg, run, i, r)
    ensures Succeeded(cfg, run, j, r)
    ensures At(cfg, run, j + 1) == At(cfg, run, j)
  {
    hide Step, At, ParseCall, StringAt, Carries, Succeeded;
    CarriesItsId(p, id);
    CarriesItsId(q, id);
    RetryReturnsFirstResponse(cfg, run, i, j, r);
  }

  /** A request that carries no id runs, whatever came before. */
  lemma NoIdAlwaysRuns(cfg: Config, run: seq<Event>, i: nat, p: Fields, outside: Result<Json>)
    requires i < |run| && run[i].Rpc? && FromParams(run[i], p, outside)
    requires forall id :: !Carries(p, id)
    ensures Executed(cfg, run, i)
  {
    hide Step, At, ParseCall, StringAt, Carries;
    CarriesItsId(p, OperationIdFromParams(p));
  }
}
