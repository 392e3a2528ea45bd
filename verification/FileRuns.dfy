/** Attachments over whole runs of the server. */
module FileRuns {
  import opened Wrappers
  import opened Wire
  import opened Schema
  import opened Attachments
  import opened AttachmentSafety
  import opened Dispatch

  /** The id generator never hands out an object id twice. */
  ghost predicate FreshEvent(db: Db, e: Event) {
    e.Rpc? && e.call.Files? && e.call.files.CreateSlot? && !Cached(db, e) ==> FreshObject(db.files, e.env)
  }

  ghost predicate FreshRun(cfg: Config, run: seq<Event>) {
    forall i | 0 <= i < |run| :: FreshEvent(At(cfg, run, i), run[i])
  }

  lemma FileStep(cfg: Config, db: Db, e: Event)
    requires Inv(cfg, db.files) && FreshEvent(db, e)
    ensures var g := Step(cfg, db, e).db.files; Inv(cfg, g) && Evolves(db.files, g)
  {
    StepParts(cfg, db, e);
    hide Step, Handle, Upload;
    if e.Put? {
      UploadIsSafe(cfg, db.files, e.slotId, e.content, e.now);
    } else if e.Rpc? && e.call.Files? && !Cached(db, e) {
      HandleIsSafe(cfg, db.files, e.caller, e.call.files, e.env);
    }
  }

  /** In every reachable state slots, objects and tickets cohere. */
  lemma {:induction false} FileInvariant(cfg: Config, run: seq<Event>, n: nat)
    requires n <= |run| && FreshRun(cfg, run)
    ensures Inv(cfg, At(cfg, run, n).files)
  {
    hide Step, FreshEvent;
    if n > 0 {
      hide Inv;
      FileInvariant(cfg, run, n - 1);
      assert FreshEvent(At(cfg, run, n - 1), run[n - 1]);
      FileStep(cfg, At(cfg, run, n - 1), run[n - 1]);
    }
  }

  /** Statuses only move forward, and from the first commit or abort on a slot's bytes stay. */
  lemma {:induction false} FilesMoveForward(cfg: Config, run: seq<Event>, i: nat, j: nat)
    requires i <= j <= |run| && FreshRun(cfg, run)
    ensures Evolves(At(cfg, run, i).files, At(cfg, run, j).files)
  {
    hide Step;
    if i < j {
      FilesMoveForward(cfg, run, i, j - 1);
      FileInvariant(cfg, run, j - 1);
      assert FreshEvent(At(cfg, run, j - 1), run[j - 1]);
      FileStep(cfg, At(cfg, run, j - 1), run[j - 1]);
      EvolvesTransitive(At(cfg, run, i).files, At(cfg, run, j - 1).files, At(cfg, run, j).files);
    }
  }

  // ---- commits ----

  /** Event i is an executed, successful commit of the slot. */
  ghost predicate Commits(cfg: Config, run: seq<Event>, i: nat, slotId: string) {
    && i < |run| && run[i].Rpc? && run[i].call.Files? && run[i].call.files.Commit?
    && run[i].call.files.slotId == slotId && Executed(cfg, run, i) && !IsError(ReplyAt(cfg, run, i))
  }

  /** Just before a commit the slot is open, holds bytes and is within its deadline; just after, their
      size and digest are on record. */
  lemma CommitRecords(cfg: Config, run: seq<Event>, i: nat, slotId: string)
    requires Commits(cfg, run, i, slotId)
    ensures var f, g := At(cfg, run, i).files, At(cfg, run, i + 1).files;
            && slotId in f.slots && slotId in g.slots
            && f.slots[slotId].status == Created && !Expired(run[i].env.now, f.slots[slotId].expiresAt)
            && f.slots[slotId].objectId in f.objects && g.objects == f.objects
            && var o := f.objects[f.slots[slotId].objectId];
               g.slots[slotId] == f.slots[slotId].(status := Committed, actual := Some(Recorded(o.size, o.digest)))
  {
    assert !Cached(At(cfg, run, i), run[i]);
  }

  /** A commit is made with the slot's own token, and the size and digest it names, if any, are those of
      the stored bytes. */
  lemma CommitVouchesForBytes(cfg: Config, run: seq<Event>, i: nat, slotId: string)
    requires FreshRun(cfg, run) && Commits(cfg, run, i, slotId)
    ensures var c, f := run[i].call.files, At(cfg, run, i).files;
            && slotId in f.slots && f.slots[slotId].objectId in f.objects
            && var s, data := f.slots[slotId], f.objects[f.slots[slotId].objectId].data;
               && c.commitToken == s.commitToken && c.attachmentId == s.attachmentId
               && (SizeToInt64(c.declaredSize).Some? ==> SizeToInt64(c.declaredSize).value == |data|)
               && (c.digest.Some? && c.digest.value.value != "" ==> c.digest.value.value == cfg.digest(data))
               && |data| <= MAX_UPLOAD_BYTES
               && (DeclaredSize(s.expectedSize).Some? ==> DeclaredSize(s.expectedSize).value == |data|)
  {
    FileInvariant(cfg, run, i);
    CommitRecords(cfg, run, i, slotId);
    hide SizeToInt64, DeclaredSize, At;
    var db := At(cfg, run, i);
    assert SlotOk(cfg, db.files.slots[slotId], db.files.objects);
    assert CommitObject(cfg, db.files, run[i].call.files, run[i].env).reply.Ok?;
  }

  lemma OnlyCommitRecords(cfg: Config, db: Db, e: Event, slotId: string)
    requires var g := Step(cfg, db, e).db.files; slotId in g.slots && g.slots[slotId].actual.Some?
    ensures (slotId in db.files.slots && db.files.slots[slotId].actual.Some?)
            || (e.Rpc? && e.call.Files? && e.call.files.Commit? && e.call.files.slotId == slotId
                && !Cached(db, e) && !IsError(Step(cfg, db, e).reply))
  {
    StepParts(cfg, db, e);
    if e.Rpc? && e.call.Files? && !Cached(db, e) {
      HandledRecord(cfg, db.files, e.caller, e.call.files, e.env, slotId);
      hide Handle;
    } else {
      hide Handle, Step;
    }
  }

  lemma HandledRecord(cfg: Config, f: FileTables, caller: string, c: FileCall, env: Env, slotId: string)
    requires var g := Handle(cfg, f, caller, c, env).tables; slotId in g.slots && g.slots[slotId].actual.Some?
    ensures (slotId in f.slots && f.slots[slotId].actual.Some?)
            || (c.Commit? && c.slotId == slotId && Handle(cfg, f, caller, c, env).reply.Ok?)
  {
    hide UriFor;
  }

  /** A slot with a recorded size and digest was committed at some earlier event. */
  lemma {:induction false} RecordedMeansCommitted(cfg: Config, run: seq<Event>, n: nat, slotId: string) returns (k: nat)
    requires n <= |run| && FreshRun(cfg, run)
    requires slotId in At(cfg, run, n).files.slots && At(cfg, run, n).files.slots[slotId].actual.Some?
    ensures k < n && Commits(cfg, run, k, slotId)
  {
    hide Step;
    var before := At(cfg, run, n - 1);
    OnlyCommitRecords(cfg, before, run[n - 1], slotId);
    if slotId in before.files.slots && before.files.slots[slotId].actual.Some? {
      k := RecordedMeansCommitted(cfg, run, n - 1, slotId);
    } else {
      k := n - 1;
    }
  }

  /** After a commit the slot's object never changes, whatever uploads, commits or aborts follow. */
  lemma CommittedBytesStay(cfg: Config, run: seq<Event>, k: nat, n: nat, slotId: string)
    requires k < n <= |run| && FreshRun(cfg, run) && Commits(cfg, run, k, slotId)
    ensures var f, g := At(cfg, run, k).files, At(cfg, run, n).files;
            && slotId in g.slots && f.slots[slotId].objectId in g.objects
            && g.slots[slotId].objectId == f.slots[slotId].objectId
            && g.objects[f.slots[slotId].objectId] == f.objects[f.slots[slotId].objectId]
            && g.slots[slotId].status != Created
            && g.slots[slotId].actual == At(cfg, run, k + 1).files.slots[slotId].actual
  {
    hide Step;
    CommitRecords(cfg, run, k, slotId);
    FilesMoveForward(cfg, run, k + 1, n);
    assert SlotEvolves(At(cfg, run, k + 1).files, At(cfg, run, n).files, slotId);
  }

  /** No slot is committed twice. */
  lemma CommitsOnce(cfg: Config, run: seq<Event>, i: nat, j: nat, slotId: string)
    requires FreshRun(cfg, run) && Commits(cfg, run, i, slotId) && Commits(cfg, run, j, slotId)
    ensures i == j
  {
    hide Step;
    CommitRecords(cfg, run, i, slotId);
    CommitRecords(cfg, run, j, slotId);
    if i < j {
      CommittedBytesStay(cfg, run, i, j, slotId);
    } else if j < i {
      CommittedBytesStay(cfg, run, j, i, slotId);
    }
  }

  /** Every successful download returns exactly the bytes committed for the slot its ticket names:
      those present at the commit event k, whose size and digest the commit recorded. */
  lemma DownloadReturnsCommittedBytes(cfg: Config, run: seq<Event>, i: nat, data: seq<byte>)
      returns (k: nat, slotId: string)
    requires i < |run| && FreshRun(cfg, run) && run[i].Fetch? && ReplyAt(cfg, run, i) == FetchReply(Bytes(data))
    ensures k < i && Commits(cfg, run, k, slotId)
    ensures var f, key := At(cfg, run, k).files, BearerTicket(run[i].authorization).value;
            && key in At(cfg, run, i).files.tickets
            && f.slots[slotId].objectUri == At(cfg, run, i).files.tickets[key].binding.objectUri
            && f.slots[slotId].objectId == run[i].objectId
            && f.objects[run[i].objectId].data == data
    ensures At(cfg, run, k + 1).files.slots[slotId].actual == Some(Recorded(|data|, cfg.digest(data)))
  {
    FileInvariant(cfg, run, i);
    var f := At(cfg, run, i).files;
    assert Download(f, run[i].objectId, run[i].authorization, run[i].now) == Bytes(data);
    hide Step;
    slotId := DownloadIsCommitted(cfg, f, run[i].objectId, run[i].authorization, run[i].now);
    k := RecordedMeansCommitted(cfg, run, i, slotId);
    CommitRecords(cfg, run, k, slotId);
    CommittedBytesStay(cfg, run, k, i, slotId);
    FilesMoveForward(cfg, run, k, i);
    assert SlotEvolves(At(cfg, run, k).files, f, slotId);
  }

  // ---- deadlines ----

  function TimeOf(e: Event): nat {
    if e.Rpc? then e.env.now else e.now
  }

  ghost predicate ClockNeverGoesBack(run: seq<Event>) {
    forall i, j | 0 <= i <= j < |run| :: TimeOf(run[i]) <= TimeOf(run[j])
  }

  /** The slot is not committed and its bytes are those of the earlier tables f. */
  ghost predicate Frozen(f: FileTables, g: FileTables, slotId: string)
    requires slotId in f.slots
  {
    var s := f.slots[slotId];
    && slotId in g.slots && g.slots[slotId].status != Committed
    && g.slots[slotId].expiresAt == s.expiresAt && g.slots[slotId].objectId == s.objectId
    && (s.objectId in f.objects <==> s.objectId in g.objects)
    && (s.objectId in f.objects ==> g.objects[s.objectId] == f.objects[s.objectId])
  }

  lemma LateHandle(cfg: Config, f: FileTables, caller: string, c: FileCall, env: Env, slotId: string)
    requires slotId in f.slots && f.slots[slotId].status != Committed && Expired(env.now, f.slots[slotId].expiresAt)
    ensures Frozen(f, Handle(cfg, f, caller, c, env).tables, slotId)
  {
    hide UriFor;
  }

  lemma LateUpload(cfg: Config, f: FileTables, uploaded: string, content: seq<byte>, now: nat, slotId: string)
    requires Distinct(f.slots)
    requires slotId in f.slots && f.slots[slotId].status != Committed && Expired(now, f.slots[slotId].expiresAt)
    ensures Frozen(f, Upload(cfg, f, uploaded, content, now).0, slotId)
  {}

  lemma LateStepKeepsSlot(cfg: Config, db: Db, e: Event, slotId: string)
    requires Inv(cfg, db.files)
    requires slotId in db.files.slots && db.files.slots[slotId].status != Committed
    requires Expired(TimeOf(e), db.files.slots[slotId].expiresAt)
    ensures Frozen(db.files, Step(cfg, db, e).db.files, slotId)
  {
    StepParts(cfg, db, e);
    hide Step, Handle, Upload;
    if e.Put? {
      LateUpload(cfg, db.files, e.slotId, e.content, e.now, slotId);
    } else if e.Rpc? && e.call.Files? {
      LateHandle(cfg, db.files, e.caller, e.call.files, e.env, slotId);
    }
  }

  /** A slot not committed by its deadline is never committed, and its bytes never change again. */
  lemma {:induction false} LateSlotIsFrozen(cfg: Config, run: seq<Event>, i: nat, n: nat, slotId: string)
    requires i <= n <= |run| && i < |run| && FreshRun(cfg, run) && ClockNeverGoesBack(run)
    requires var f := At(cfg, run, i).files;
             slotId in f.slots && f.slots[slotId].status != Committed
                 && Expired(TimeOf(run[i]), f.slots[slotId].expiresAt)
    ensures Frozen(At(cfg, run, i).files, At(cfg, run, n).files, slotId)
  {
    hide Step, At, FreshRun, Inv, ClockNeverGoesBack, Frozen;
    if i < n {
      LateSlotIsFrozen(cfg, run, i, n - 1, slotId);
      LateMoment(cfg, run, i, n - 1, slotId);
      FrozenTransitive(At(cfg, run, i).files, At(cfg, run, n - 1).files, At(cfg, run, n).files, slotId);
    } else {
      FrozenReflexive(At(cfg, run, i).files, slotId);
    }
  }

  lemma FrozenReflexive(f: FileTables, slotId: string)
    requires slotId in f.slots && f.slots[slotId].status != Committed
    ensures Frozen(f, f, slotId)
  {}

  /** One more event after the deadline. */
  lemma LateMoment(cfg: Config, run: seq<Event>, i: nat, n: nat, slotId: string)
    requires i <= n < |run| && FreshRun(cfg, run) && ClockNeverGoesBack(run)
    requires slotId in At(cfg, run, i).files.slots
    requires Expired(TimeOf(run[i]), At(cfg, run, i).files.slots[slotId].expiresAt)
    requires Frozen(At(cfg, run, i).files, At(cfg, run, n).files, slotId)
    ensures Frozen(At(cfg, run, n).files, At(cfg, run, n + 1).files, slotId)
  {
    hide Step, Inv, FreshRun;
    FileInvariant(cfg, run, n);
    assert TimeOf(run[i]) <= TimeOf(run[n]);
    LateStepKeepsSlot(cfg, At(cfg, run, n), run[n], slotId);
  }

  lemma FrozenTransitive(f: FileTables, g: FileTables, h: FileTables, slotId: string)
    requires slotId in f.slots && Frozen(f, g, slotId) && Frozen(g, h, slotId)
    ensures Frozen(f, h, slotId)
  {}

  // ---- tickets ----

  /** Event i is an executed get_download_ticket that handed out the ticket. */
  ghost predicate Issues(cfg: Config, run: seq<Event>, i: nat, ticket: string) {
    && i < |run| && run[i].Rpc? && run[i].call.Files? && run[i].call.files.IssueTicket? && Executed(cfg, run, i)
    && match ReplyAt(cfg, run, i)
       case RpcReply(Ok(r)) => r.TicketIssued? && r.ticket == ticket
       case _ => false
  }

  lemma IssueStoresTicket(cfg: Config, run: seq<Event>, i: nat, ticket: string)
    requires Issues(cfg, run, i, ticket)
    ensures var g, b := At(cfg, run, i + 1).files, run[i].call.files.binding;
            && ticket in g.tickets && g.tickets[ticket] == Ticket(b, Seconds(TimeOf(run[i]) + TICKET_TTL))
            && b.objectUri != ""
            && exists slotId :: NewestFor(At(cfg, run, i).files, b, slotId)
                && At(cfg, run, i).files.slots[slotId].status == Committed
  {}

  lemma FetchReplies(cfg: Config, db: Db, e: Event)
    requires e.Fetch?
    ensures Step(cfg, db, e).reply == FetchReply(Download(db.files, e.objectId, e.authorization, e.now))
  {}

  lemma TicketStays(cfg: Config, run: seq<Event>, i: nat, j: nat, ticket: string)
    requires i < j <= |run| && FreshRun(cfg, run) && Issues(cfg, run, i, ticket)
    ensures var g, b := At(cfg, run, j).files, run[i].call.files.binding;
            ticket in g.tickets && g.tickets[ticket] == Ticket(b, Seconds(TimeOf(run[i]) + TICKET_TTL))
                && b.objectUri != ""
  {
    hide Step, At, Issues, FreshRun, SlotEvolves;
    IssueStoresTicket(cfg, run, i, ticket);
    FilesMoveForward(cfg, run, i + 1, j);
  }

  lemma IssuedForCommittedSlot(cfg: Config, run: seq<Event>, i: nat, j: nat, ticket: string, slotId: string)
    requires i < j <= |run| && FreshRun(cfg, run) && Issues(cfg, run, i, ticket)
    requires slotId in At(cfg, run, i).files.slots
    requires At(cfg, run, i).files.slots[slotId].objectUri == run[i].call.files.binding.objectUri
    ensures var f, g, id := At(cfg, run, i).files, At(cfg, run, j).files, At(cfg, run, i).files.slots[slotId].objectId;
            && id in f.objects && id in g.objects && g.objects[id] == f.objects[id]
            && WellNamed(f.slots[slotId])
  {
    IssueStoresTicket(cfg, run, i, ticket);
    FileInvariant(cfg, run, i);
    FilesMoveForward(cfg, run, i, j);
    hide Step, At, FreshRun, Issues;
    var f, g := At(cfg, run, i).files, At(cfg, run, j).files;
    var granted :| NewestFor(f, run[i].call.files.binding, granted) && f.slots[granted].status == Committed;
    UriNamesOneSlot(cfg, f, slotId, granted);
    assert SlotOk(cfg, f.slots[slotId], f.objects) && SlotEvolves(f, g, slotId);
  }

  /** A ticket opens, at every later moment, exactly one object: until the whole second that lies 300 s
      past its issue it serves the slot's bytes as they were at issue, and refuses every other id. */
  lemma TicketOpensItsObject(cfg: Config, run: seq<Event>, i: nat, j: nat, ticket: string, slotId: string)
    requires i < j < |run| && FreshRun(cfg, run) && Issues(cfg, run, i, ticket)
    requires run[j].Fetch? && BearerTicket(run[j].authorization) == Some(ticket)
    requires slotId in At(cfg, run, i).files.slots
    requires At(cfg, run, i).files.slots[slotId].objectUri == run[i].call.files.binding.objectUri
    ensures var id, f := At(cfg, run, i).files.slots[slotId].objectId, At(cfg, run, i).files;
            var reply, late := ReplyAt(cfg, run, j), run[j].now > (TimeOf(run[i]) / SECOND + 300) * SECOND;
            && (late ==> reply == FetchReply(DownloadRefused(TicketPastDeadline)))
            && (!late && run[j].objectId == id ==> id in f.objects && reply == FetchReply(Bytes(f.objects[id].data)))
            && (!late && run[j].objectId != id ==> reply == FetchReply(DownloadRefused(BindingMismatch))
                                                   || reply == FetchReply(DownloadRefused(ObjectUnavailable)))
  {
    hide Step, At, FreshRun, Issues, Inv, WellNamed, BearerTicket;
    TicketStays(cfg, run, i, j, ticket);
    IssuedForCommittedSlot(cfg, run, i, j, ticket, slotId);
    FileInvariant(cfg, run, j);
    var f, g, e := At(cfg, run, i).files, At(cfg, run, j).files, run[j];
    FetchReplies(cfg, At(cfg, run, j), e);
    hide Download;
    TicketDownload(cfg, g, e.objectId, e.authorization, e.now, TimeOf(run[i]), f.slots[slotId]);
  }

  lemma TicketDownload(cfg: Config, g: FileTables, objectId: string, authorization: string, now: nat, issued: nat,
                       s: Slot)
    requires Inv(cfg, g) && WellNamed(s) && s.objectId in g.objects
    requires var key := BearerTicket(authorization);
             && key.Some? && key.value in g.tickets && g.tickets[key.value].expiresAt == Seconds(issued + TICKET_TTL)
             && g.tickets[key.value].binding.objectUri == s.objectUri != ""
    ensures var reply, late := Download(g, objectId, authorization, now), now > (issued / SECOND + 300) * SECOND;
            && (late <==> reply == DownloadRefused(TicketPastDeadline))
            && (!late && objectId == s.objectId ==> reply == Bytes(g.objects[s.objectId].data))
            && (!late && objectId != s.objectId ==>
                  reply in {DownloadRefused(BindingMismatch), DownloadRefused(ObjectUnavailable)})
  {
    hide ObjectUriMatches, UriFor, BearerTicket, ObjectOk;
    if objectId in g.objects {
      assert HasOwner(g, objectId);
      var owner :| Owns(g, owner, objectId);
      assert SlotOk(cfg, g.slots[owner], g.objects);
      UriMatchesItsIdOnly(s.objectUri, s.objectId, objectId);
    }
    UriMatchesItsIdOnly(s.objectUri, s.objectId, s.objectId);
  }

  /** A ticket is refused as past its deadline always once more than 300 s have passed since its issue,
      and never within the first 299 s. */
  lemma TicketWindow(cfg: Config, run: seq<Event>, i: nat, j: nat, ticket: string)
    requires i < j < |run| && FreshRun(cfg, run) && Issues(cfg, run, i, ticket)
    requires run[j].Fetch? && BearerTicket(run[j].authorization) == Some(ticket)
    ensures var issued, used, refused := TimeOf(run[i]), TimeOf(run[j]),
              ReplyAt(cfg, run, j) == FetchReply(DownloadRefused(TicketPastDeadline));
            && (refused <==> used > (issued / SECOND + 300) * SECOND)
            && (used > issued + 300 * SECOND ==> refused)
            && (used <= issued + 299 * SECOND ==> !refused)
  {
    hide Step, Handle, Upload, Download;
    IssueStoresTicket(cfg, run, i, ticket);
    var slotId :| NewestFor(At(cfg, run, i).files, run[i].call.files.binding, slotId);
    TicketOpensItsObject(cfg, run, i, j, ticket, slotId);
    hide FreshRun, At, Issues, ReplyAt, BearerTicket, NewestFor;
  }
}
