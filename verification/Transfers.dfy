/** What a file transfer does from end to end: when each of its requests succeeds, and that a download brings
    back the bytes of the upload. */
module Transfers {
  import opened Wrappers
  import opened Wire
  import opened Schema
  import opened Strings
  import opened Attachments
  import opened AttachmentSafety
  import opened Dispatch
  import opened FileRuns

  // ---- when requests succeed ----

  predicate IsScalar(v: Json) { !v.Arr? && !v.Obj? }

  /** create_slot: on well-formed fields a slot of the new id, open for an hour, answered with its own URIs
      and token. */
  lemma CreateOutcome(cfg: Config, f: FileTables, caller: string, c: FileCall, env: Env)
    requires c.CreateSlot?
    ensures var out := Handle(cfg, f, caller, c, env);
            && (out.reply.Ok? <==>
                  && c.hasBody && c.attachmentId != ""
                  && c.profile in {"transport-protected", "direct-e2ee", "group-e2ee"}
                  && c.mode in {"none", "object-e2ee"}
                  && IsScalar(c.expectedSize) && IsScalar(c.mimeType) && IsScalar(c.filename)
                  && env.slotId !in f.slots)
            && (out.reply.Ok? ==>
                  && env.slotId in out.tables.slots
                  && out.tables == f.(slots := f.slots[env.slotId := out.tables.slots[env.slotId]])
                  && var s := out.tables.slots[env.slotId];
                     var base := if env.baseUrl != "" then env.baseUrl else cfg.baseUrl;
                     && s.attachmentId == c.attachmentId && s.objectId == env.objectId
                     && s.commitToken == env.commitToken
                     && s.uploadUri == base + "/upload/" + env.slotId
                     && s.objectUri == base + "/objects/" + env.objectId
                     && s.status == Created && s.mode == c.mode && s.actual == None && s.owner == caller
                     && s.createdAt == env.now / 1_000_000_000
                     && s.expiresAt == (env.now + 3_600_000_000_000) / 1_000_000_000
                     && out.reply.value == SlotCreated(s.attachmentId, env.slotId, s.uploadUri, s.objectUri,
                                                       s.commitToken, s.expiresAt, c.headers))
  {}

  /** The size a slot declares: that of a decimal text; anything else declares none. */
  lemma DeclaredByText(cfg: Config, f: FileTables, caller: string, c: FileCall, env: Env)
    requires c.CreateSlot? && Handle(cfg, f, caller, c, env).reply.Ok?
    ensures env.slotId in Handle(cfg, f, caller, c, env).tables.slots
    ensures var column := Handle(cfg, f, caller, c, env).tables.slots[env.slotId].expectedSize;
            && (c.expectedSize.Str? ==> DeclaredSize(column) == ParseInt64(c.expectedSize.s))
            && (c.expectedSize.Null? || c.expectedSize.Num? ==> DeclaredSize(column) == None)
  {
    hide ParseInt64;
  }

  /** An upload stores the content itself, exactly when the slot is open and in time and the content is within
      32 MiB and of the declared size. */
  lemma UploadOutcome(cfg: Config, f: FileTables, slotId: string, content: seq<byte>, now: nat)
    ensures var (g, reply) := Upload(cfg, f, slotId, content, now);
            && (reply.Uploaded? <==>
                  && slotId in f.slots && f.slots[slotId].status == Created
                  && now <= f.slots[slotId].expiresAt * 1_000_000_000
                  && |content| <= 33_554_432
                  && (DeclaredSize(f.slots[slotId].expectedSize) != None ==>
                        DeclaredSize(f.slots[slotId].expectedSize) == Some(|content|)))
            && (reply.Uploaded? ==>
                  && reply.size == |content|
                  && g == f.(objects := f.objects[f.slots[slotId].objectId :=
                       Object(content, |content|, cfg.digest(content))]))
            && (!reply.Uploaded? ==> g == f)
            && (slotId !in f.slots <==> reply == UploadRefused(SlotNotFound))
  {}

  /** commit_object: exactly with the slot's token and attachment, while it is open, in time and uploaded, and
      with a size and digest that fit the bytes, where given. */
  lemma CommitOutcome(cfg: Config, f: FileTables, caller: string, c: FileCall, env: Env)
    requires Inv(cfg, f) && c.Commit?
    ensures var out := Handle(cfg, f, caller, c, env);
            && (out.reply.Ok? <==>
                  && c.hasBody && c.attachmentId != "" && c.slotId != "" && c.commitToken != "" && c.slotId in f.slots
                  && var s := f.slots[c.slotId];
                     && s.attachmentId == c.attachmentId && s.commitToken == c.commitToken && s.status == Created
                     && env.now <= s.expiresAt * 1_000_000_000 && s.objectId in f.objects
                     && var data := f.objects[s.objectId].data;
                        && (SizeToInt64(c.declaredSize) != None ==> SizeToInt64(c.declaredSize) == Some(|data|))
                        && (c.digest.Some? ==>
                              && c.digest.value.alg in {"", "sha-256"}
                              && c.digest.value.value in {"", cfg.digest(data)}))
            && (out.reply.Ok? ==>
                  var s := f.slots[c.slotId];
                  && s.objectId in f.objects
                  && var data := f.objects[s.objectId].data;
                     && out.tables == f.(slots := f.slots[c.slotId :=
                          s.(status := Committed, actual := Some(Recorded(|data|, cfg.digest(data))))])
                     && out.reply.value == ObjectCommitted(s.attachmentId, s.objectUri, env.now / 1_000_000_000))
  {
    hide SizeToInt64, DeclaredSize;
    if c.slotId in f.slots {
      assert SlotOk(cfg, f.slots[c.slotId], f.objects);
    }
  }

  lemma AbortOutcome(cfg: Config, f: FileTables, caller: string, c: FileCall, env: Env)
    requires c.Abort?
    ensures var out := Handle(cfg, f, caller, c, env);
            && (out.reply.Ok? <==>
                  && c.hasBody && c.attachmentId != "" && c.slotId != "" && c.slotId in f.slots
                  && f.slots[c.slotId].attachmentId == c.attachmentId)
            && (out.reply.Ok? ==>
                  && out.tables == f.(slots := f.slots[c.slotId := f.slots[c.slotId].(status := Aborted)])
                  && out.reply.value == ObjectAborted(c.attachmentId, env.now / 1_000_000_000))
  {}

  /** get_download_ticket: exactly for the committed slot of the attachment and URI, to a requester who is both
      the authenticated caller and the sender, where there is one. */
  lemma TicketOutcome(cfg: Config, f: FileTables, caller: string, c: FileCall, env: Env)
    requires Inv(cfg, f) && c.IssueTicket?
    ensures var out, b := Handle(cfg, f, caller, c, env), c.binding;
            && (out.reply.Ok? <==>
                  && c.hasBody && b.attachmentId != "" && b.objectUri != "" && b.requester != ""
                  && b.messageId != "" && b.securityProfile != ""
                  && c.sender in {"", b.requester} && caller in {"", b.requester}
                  && env.ticket !in f.tickets
                  && exists s :: HasCommitted(f, s, b))
            && (out.reply.Ok? ==>
                  var deadline := (env.now + 300_000_000_000) / 1_000_000_000;
                  && out.tables == f.(tickets := f.tickets[env.ticket := Ticket(b, deadline)])
                  && out.reply.value == TicketIssued(env.ticket, deadline, b))
  {
    hide Inv, NewestFor, GrantedSlot;
    GrantIsOnlySlot(cfg, f, c.binding);
  }

  ghost predicate HasCommitted(f: FileTables, s: string, b: Binding) {
    && s in f.slots && f.slots[s].attachmentId == b.attachmentId && f.slots[s].objectUri == b.objectUri
    && f.slots[s].status == Committed
  }

  lemma GrantIsOnlySlot(cfg: Config, f: FileTables, b: Binding)
    requires Inv(cfg, f)
    ensures var s := GrantedSlot(f, b);
            && (s.Some? ==> s.value in f.slots)
            && (s.Some? <==> exists other :: HasSlot(f, other, b))
            && ((s.Some? && f.slots[s.value].status == Committed) <==> exists other :: HasCommitted(f, other, b))
  {
    var s := GrantedSlot(f, b);
    if other :| HasSlot(f, other, b) {
      forall third | third in f.slots && ForBinding(f.slots[third], b)
        ensures third == other
      {
        UriNamesOneSlot(cfg, f, third, other);
      }
      assert NewestFor(f, b, other);
    }
    assert forall other | HasCommitted(f, other, b) :: HasSlot(f, other, b);
    if s.Some? {
      assert HasSlot(f, s.value, b);
      assert f.slots[s.value].status == Committed ==> HasCommitted(f, s.value, b);
      forall other | HasCommitted(f, other, b)
        ensures other == s.value
      {
        UriNamesOneSlot(cfg, f, other, s.value);
      }
    }
  }

  // ---- why requests fail ----

  /** The refusals of create_slot, commit_object, abort_object and get_download_ticket: each code exactly when
      its check is the first that fails. */
  lemma CreateCodes(cfg: Config, f: FileTables, caller: string, c: FileCall, env: Env)
    requires c.CreateSlot?
    ensures var reply := Handle(cfg, f, caller, c, env).reply;
            var named := c.hasBody && c.attachmentId != "" && c.profile != "";
            var profiled := named && c.profile in {"transport-protected", "direct-e2ee", "group-e2ee"};
            var moded := profiled && c.mode in {"none", "object-e2ee"};
            && (reply == Err(-32004) <==> !named || (profiled && c.mode == ""))
            && (reply == Err(6013) <==> (named && !profiled) || (profiled && c.mode != "" && !moded))
            && (reply == Err(-32000) <==> moded && reply.Err?)
  {}

  lemma CommitCodes(cfg: Config, f: FileTables, caller: string, c: FileCall, env: Env)
    requires c.Commit?
    ensures var reply := Handle(cfg, f, caller, c, env).reply;
            var named := c.hasBody && c.attachmentId != "" && c.slotId != "" && c.commitToken != "";
            var known := named && c.slotId in f.slots && f.slots[c.slotId].attachmentId == c.attachmentId;
            var trusted := known && f.slots[c.slotId].commitToken == c.commitToken;
            var open := trusted && f.slots[c.slotId].status == Created;
            var timely := open && env.now <= f.slots[c.slotId].expiresAt * 1_000_000_000;
            var uploaded := timely && f.slots[c.slotId].objectId in f.objects;
            && (reply == Err(-32004) <==> !named)
            && (reply == Err(6000) <==> named && !known)
            && (reply == Err(6002) <==> known && !trusted)
            && (reply == Err(6001) <==> open && !timely)
            && (reply == Err(6012) <==> (trusted && !open) || (timely && !uploaded))
            && (reply == Err(6010) <==> uploaded && reply.Err?)
  {
    hide SizeToInt64;
  }

  lemma AbortCodes(cfg: Config, f: FileTables, caller: string, c: FileCall, env: Env)
    requires c.Abort?
    ensures var reply := Handle(cfg, f, caller, c, env).reply;
            var named := c.hasBody && c.attachmentId != "" && c.slotId != "";
            && (reply == Err(-32004) <==> !named)
            && (reply == Err(6000) <==> named && reply.Err?)
  {}

  lemma TicketCodes(cfg: Config, f: FileTables, caller: string, c: FileCall, env: Env)
    requires Inv(cfg, f) && c.IssueTicket?
    ensures var reply, b := Handle(cfg, f, caller, c, env).reply, c.binding;
            var named := c.hasBody && b.attachmentId != "" && b.objectUri != "" && b.requester != "";
            var own := named && c.sender in {"", b.requester} && caller in {"", b.requester};
            var bound := own && b.messageId != "" && b.securityProfile != "";
            var granted := bound && exists s :: HasSlot(f, s, b);
            && (reply == Err(-32004) <==> !named || (own && !bound))
            && (reply == Err(6006) <==> named && !own)
            && (reply == Err(6005) <==> bound && !granted)
            && (reply == Err(6012) <==> granted && !exists s :: HasCommitted(f, s, b))
  {
    hide Inv, NewestFor, GrantedSlot;
    GrantIsOnlySlot(cfg, f, c.binding);
  }

  ghost predicate HasSlot(f: FileTables, s: string, b: Binding) {
    s in f.slots && f.slots[s].attachmentId == b.attachmentId && f.slots[s].objectUri == b.objectUri
  }

  lemma UploadCodes(cfg: Config, f: FileTables, slotId: string, content: seq<byte>, now: nat)
    ensures var reply := Upload(cfg, f, slotId, content, now).1;
            var known := slotId in f.slots;
            var open := known && f.slots[slotId].status == Created;
            var timely := open && now <= f.slots[slotId].expiresAt * 1_000_000_000;
            && (reply == UploadRefused(SlotNotFound) <==> !known)
            && (reply == UploadRefused(ObjectUnavailable) <==> known && !open)
            && (reply == UploadRefused(SlotPastDeadline) <==> open && !timely)
            && (reply == UploadRefused(ObjectTooLarge) <==> timely && reply.UploadRefused?)
  {}

  // ---- the bearer ticket ----

  /** The ticket of a header is what follows "Bearer ", without the space around it. */
  lemma BearerIs(before: string, ticket: string, after: string)
    requires ticket != "" && !IsSpace(ticket[0]) && !IsSpace(ticket[|ticket| - 1])
    requires TrimLeft(before) == "" && TrimRight(after) == ""
    ensures BearerTicket("Bearer " + (before + ticket + after)) == Some(ticket)
  {
    var rest := before + ticket + after;
    assert ("Bearer " + rest)[..|BEARER|] == BEARER && ("Bearer " + rest)[|BEARER|..] == rest;
    TrimsAround(before, ticket, after);
    assert "" + ticket + "" == ticket;
  }

  lemma NoBearerNoTicket(authorization: string)
    requires |authorization| < 7 || authorization[..7] != "Bearer "
    ensures BearerTicket(authorization) == None
  {}

  /** Without a ticket on record nothing is served. */
  lemma UnknownTicketIsRefused(f: FileTables, objectId: string, authorization: string, now: nat)
    requires BearerTicket(authorization) == None || BearerTicket(authorization).value !in f.tickets
    ensures Download(f, objectId, authorization, now) == DownloadRefused(TicketInvalid)
  {}

  // ---- from upload to download ----

  /** Event u is an accepted upload to the slot. */
  ghost predicate Uploads(cfg: Config, run: seq<Event>, u: nat, slotId: string) {
    && u < |run| && run[u].Put? && run[u].slotId == slotId
    && ReplyAt(cfg, run, u).PutReply? && ReplyAt(cfg, run, u).upload.Uploaded?
  }

  /** An accepted upload leaves the bytes that were sent, and says how many. */
  lemma UploadStoresContent(cfg: Config, run: seq<Event>, u: nat, slotId: string)
    requires Uploads(cfg, run, u, slotId)
    ensures var f, g := At(cfg, run, u).files, At(cfg, run, u + 1).files;
            && slotId in f.slots && f.slots[slotId].objectId in g.objects
            && g.slots == f.slots
            && g.objects[f.slots[slotId].objectId].data == run[u].content
            && ReplyAt(cfg, run, u).upload.size == |run[u].content|
  {
    PutStep(cfg, run, u);
    hide At, Upload;
    UploadOutcome(cfg, At(cfg, run, u).files, slotId, run[u].content, run[u].now);
  }

  lemma PutStep(cfg: Config, run: seq<Event>, u: nat)
    requires u < |run| && run[u].Put?
    ensures var (g, reply) := Upload(cfg, At(cfg, run, u).files, run[u].slotId, run[u].content, run[u].now);
            At(cfg, run, u + 1).files == g && ReplyAt(cfg, run, u) == PutReply(reply)
  {
    hide Upload;
  }

  /** Event u uploads to the slot, and no event between it and n does. */
  ghost predicate LastUpload(cfg: Config, run: seq<Event>, u: nat, n: nat, slotId: string) {
    && Uploads(cfg, run, u, slotId)
    && forall v | u < v < n :: !Uploads(cfg, run, v, slotId)
  }

  /** The slot has the same object with the same bytes as before. */
  ghost predicate SameObject(f: FileTables, g: FileTables, slotId: string) {
    && slotId in f.slots && slotId in g.slots && f.slots[slotId].objectId == g.slots[slotId].objectId
    && f.slots[slotId].objectId in f.objects && f.slots[slotId].objectId in g.objects
    && g.objects[f.slots[slotId].objectId] == f.objects[f.slots[slotId].objectId]
  }

  ghost predicate HasObject(f: FileTables, slotId: string) {
    slotId in f.slots && f.slots[slotId].objectId in f.objects
  }

  /** The object of a slot changes only by an accepted upload to that slot. */
  lemma OnlyUploadsChange(cfg: Config, run: seq<Event>, n: nat, slotId: string)
    requires n < |run| && FreshRun(cfg, run) && !Uploads(cfg, run, n, slotId)
    requires HasObject(At(cfg, run, n + 1).files, slotId)
    ensures SameObject(At(cfg, run, n).files, At(cfg, run, n + 1).files, slotId)
  {
    FileInvariant(cfg, run, n);
    var f, e := At(cfg, run, n).files, run[n];
    assert FreshEvent(At(cfg, run, n), e);
    if e.Put? {
      PutStep(cfg, run, n);
      hide Step, At, Upload, Inv;
      OtherPutKeepsObject(cfg, f, e.slotId, e.content, e.now, slotId);
    } else {
      StepParts(cfg, At(cfg, run, n), e);
      hide Step, Handle, Inv;
      if e.Rpc? && e.call.Files? && Executed(cfg, run, n) {
        ControlKeepsObject(cfg, f, e.caller, e.call.files, e.env, slotId);
      }
    }
  }

  lemma OtherPutKeepsObject(cfg: Config, f: FileTables, uploaded: string, content: seq<byte>, now: nat, slotId: string)
    requires Inv(cfg, f)
    requires var (g, reply) := Upload(cfg, f, uploaded, content, now);
             HasObject(g, slotId) && (reply.UploadRefused? || uploaded != slotId)
    ensures SameObject(f, Upload(cfg, f, uploaded, content, now).0, slotId)
  {
    UploadOutcome(cfg, f, uploaded, content, now);
    assert Distinct(f.slots);
    hide Upload;
  }

  lemma ControlKeepsObject(cfg: Config, f: FileTables, caller: string, c: FileCall, env: Env, slotId: string)
    requires Inv(cfg, f) && (c.CreateSlot? ==> FreshObject(f, env))
    requires HasObject(Handle(cfg, f, caller, c, env).tables, slotId)
    ensures SameObject(f, Handle(cfg, f, caller, c, env).tables, slotId)
  {
    hide Handle;
    if c.CreateSlot? {
      CreateOutcome(cfg, f, caller, c, env);
      if Handle(cfg, f, caller, c, env).reply.Err? {
        CreateFails(cfg, f, caller, c, env);
      }
      assert env.objectId in f.objects ==> HasOwner(f, env.objectId);
    } else {
      ObjectsStay(cfg, f, caller, c, env, slotId);
    }
  }

  lemma CreateFails(cfg: Config, f: FileTables, caller: string, c: FileCall, env: Env)
    requires c.CreateSlot? && Handle(cfg, f, caller, c, env).reply.Err?
    ensures Handle(cfg, f, caller, c, env).tables == f
  {}

  lemma ObjectsStay(cfg: Config, f: FileTables, caller: string, c: FileCall, env: Env, slotId: string)
    requires !c.CreateSlot?
    ensures var g := Handle(cfg, f, caller, c, env).tables;
            && g.objects == f.objects && (slotId in g.slots <==> slotId in f.slots)
            && (slotId in f.slots ==> g.slots[slotId].objectId == f.slots[slotId].objectId)
  {
    hide GrantedSlot;
  }

  /** The bytes of a slot are those of the last accepted upload to it. */
  lemma {:induction false} BytesAreLastUpload(cfg: Config, run: seq<Event>, n: nat, slotId: string) returns (u: nat)
    requires n <= |run| && FreshRun(cfg, run)
    requires var f := At(cfg, run, n).files; slotId in f.slots && f.slots[slotId].objectId in f.objects
    ensures u < n && LastUpload(cfg, run, u, n, slotId)
    ensures var f := At(cfg, run, n).files; f.objects[f.slots[slotId].objectId].data == run[u].content
  {
    hide Step, FreshRun, Uploads;
    if Uploads(cfg, run, n - 1, slotId) {
      u := n - 1;
      UploadStoresContent(cfg, run, u, slotId);
    } else {
      OnlyUploadsChange(cfg, run, n - 1, slotId);
      u := BytesAreLastUpload(cfg, run, n - 1, slotId);
    }
  }

  /** Every successful download, in every run, returns the content of the last accepted upload to the slot its
      ticket names before that slot was committed. */
  lemma DownloadReturnsUpload(cfg: Config, run: seq<Event>, i: nat, data: seq<byte>)
      returns (u: nat, k: nat, slotId: string)
    requires i < |run| && FreshRun(cfg, run) && run[i].Fetch? && ReplyAt(cfg, run, i) == FetchReply(Bytes(data))
    ensures u < k < i && Commits(cfg, run, k, slotId) && LastUpload(cfg, run, u, k, slotId)
    ensures run[u].Put? && run[u].content == data
    ensures var f, key := At(cfg, run, i).files, BearerTicket(run[i].authorization);
            && key.Some? && key.value in f.tickets && slotId in f.slots
            && f.slots[slotId].objectUri == f.tickets[key.value].binding.objectUri
  {
    TicketOfFetch(cfg, run, i, data);
    hide Step, At, FreshRun, Uploads, Commits;
    k, slotId := DownloadReturnsCommittedBytes(cfg, run, i, data);
    CommitRecords(cfg, run, k, slotId);
    FilesMoveForward(cfg, run, k, i);
    assert SlotEvolves(At(cfg, run, k).files, At(cfg, run, i).files, slotId);
    u := BytesAreLastUpload(cfg, run, k, slotId);
    UploadIsPut(cfg, run, u, slotId);
  }

  lemma TicketOfFetch(cfg: Config, run: seq<Event>, i: nat, data: seq<byte>)
    requires i < |run| && run[i].Fetch? && ReplyAt(cfg, run, i) == FetchReply(Bytes(data))
    ensures BearerTicket(run[i].authorization).Some?
  {
    hide At;
  }

  lemma UploadIsPut(cfg: Config, run: seq<Event>, u: nat, slotId: string)
    requires Uploads(cfg, run, u, slotId)
    ensures u < |run| && run[u].Put? && run[u].slotId == slotId
  {}

  /** And the way there is open: once bytes are uploaded and the slot is committed with nothing uploaded in
      between, every ticket issued for it afterwards brings exactly these bytes back, within its deadline. */
  lemma UploadComesBack(cfg: Config, run: seq<Event>, u: nat, k: nat, i: nat, j: nat, slotId: string, ticket: string)
    requires u < k < i < j < |run| && FreshRun(cfg, run)
    requires LastUpload(cfg, run, u, k, slotId) && run[u].Put? && Commits(cfg, run, k, slotId)
    requires slotId in At(cfg, run, i).files.slots && Issues(cfg, run, i, ticket)
    requires run[i].call.files.binding.objectUri == At(cfg, run, i).files.slots[slotId].objectUri
    requires run[j].Fetch? && BearerTicket(run[j].authorization) == Some(ticket)
    requires run[j].objectId == At(cfg, run, i).files.slots[slotId].objectId
    requires run[j].now <= TimeOf(run[i]) + 299 * 1_000_000_000
    ensures ReplyAt(cfg, run, j) == FetchReply(Bytes(run[u].content))
  {
    hide Step, At, FreshRun, Uploads, Commits, Issues, ReplyAt;
    TicketOpensItsObject(cfg, run, i, j, ticket, slotId);
    CommitRecords(cfg, run, k, slotId);
    CommittedBytesStay(cfg, run, k, i, slotId);
    var v := BytesAreLastUpload(cfg, run, k, slotId);
    LastIsUnique(cfg, run, u, v, k, slotId);
  }

  lemma LastIsUnique(cfg: Config, run: seq<Event>, u: nat, v: nat, n: nat, slotId: string)
    requires u < n && v < n && LastUpload(cfg, run, u, n, slotId) && LastUpload(cfg, run, v, n, slotId)
    ensures u == v
  {
    hide Uploads;
  }
}
