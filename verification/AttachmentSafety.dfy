/** What every attachment request keeps: coherent objects, frozen commits, honest downloads. */
module AttachmentSafety {
  import opened Wrappers
  import opened Wire
  import opened Schema
  import opened Attachments

  /** The slot's URI names its object. */
  ghost predicate WellNamed(s: Slot) {
    PlainId(s.objectId) && UriFor(s.objectUri, s.objectId)
  }

  /** What the slot records agrees with its object. */
  ghost predicate Agrees(cfg: Config, s: Slot, objects: map<string, Object>) {
    && (s.status == Created ==> s.actual.None?)
    && (s.status == Committed ==> s.actual.Some?)
    && (s.actual.Some? ==> s.objectId in objects &&
                           s.actual.value == Recorded(objects[s.objectId].size, objects[s.objectId].digest))
    && (s.objectId in objects ==> ObjectOk(cfg, s, objects[s.objectId]))
  }

  ghost predicate SlotOk(cfg: Config, s: Slot, objects: map<string, Object>) {
    WellNamed(s) && Agrees(cfg, s, objects)
  }

  ghost predicate Distinct(slots: map<string, Slot>) {
    forall a, b | a in slots && b in slots && a != b :: slots[a].objectId != slots[b].objectId
  }

  /** Size and digest are those of the bytes, within the limit and as declared. */
  ghost predicate ObjectOk(cfg: Config, s: Slot, o: Object) {
    && o.size == |o.data| <= MAX_UPLOAD_BYTES
    && o.digest == cfg.digest(o.data)
    && (DeclaredSize(s.expectedSize).Some? ==> DeclaredSize(s.expectedSize).value == o.size)
  }

  ghost predicate Owns(f: FileTables, slotId: string, objectId: string) {
    slotId in f.slots && f.slots[slotId].objectId == objectId
  }

  /** A ticket is only ever issued for the URI of a committed slot. */
  ghost predicate Grants(f: FileTables, slotId: string, t: Ticket) {
    slotId in f.slots && f.slots[slotId].objectUri == t.binding.objectUri && f.slots[slotId].actual.Some?
  }

  ghost predicate HasOwner(f: FileTables, objectId: string) {
    exists slotId :: Owns(f, slotId, objectId)
  }

  ghost predicate Granted(f: FileTables, t: Ticket) {
    exists slotId :: Grants(f, slotId, t)
  }

  ghost predicate SlotsOk(cfg: Config, slots: map<string, Slot>, objects: map<string, Object>) {
    forall slotId | slotId in slots :: SlotOk(cfg, slots[slotId], objects)
  }

  ghost predicate LinksOk(f: FileTables) {
    && (forall objectId | objectId in f.objects :: HasOwner(f, objectId))
    && (forall ticket | ticket in f.tickets :: Granted(f, f.tickets[ticket]))
  }

  ghost predicate Inv(cfg: Config, f: FileTables) {
    SlotsOk(cfg, f.slots, f.objects) && Distinct(f.slots) && LinksOk(f)
  }

  /** The id generator's promise for a new slot's object. */
  ghost predicate FreshObject(f: FileTables, env: Env) {
    PlainId(env.objectId) && forall slotId | slotId in f.slots :: f.slots[slotId].objectId != env.objectId
  }

  function Rank(s: Status): nat {
    match s case Created => 0 case Committed => 1 case Aborted => 2
  }

  /** A slot keeps its identity, its status only moves forward, and once past Created its bytes and
      the recorded size and digest stay. */
  ghost predicate SlotEvolves(f: FileTables, g: FileTables, slotId: string) {
    slotId in f.slots ==>
      && slotId in g.slots
      && (var s, s' := f.slots[slotId], g.slots[slotId];
          && s' == s.(status := s'.status, actual := s'.actual)
          && Rank(s.status) <= Rank(s'.status)
          && (s.actual.Some? ==> s'.actual == s.actual)
          && (s.status != Created ==>
                && s'.actual == s.actual
                && (s.objectId in f.objects <==> s.objectId in g.objects)
                && (s.objectId in f.objects ==> g.objects[s.objectId] == f.objects[s.objectId])))
  }

  ghost predicate Evolves(f: FileTables, g: FileTables) {
    && (forall slotId :: SlotEvolves(f, g, slotId))
    && (forall ticket | ticket in f.tickets :: ticket in g.tickets && g.tickets[ticket] == f.tickets[ticket])
  }

  lemma EvolvesTransitive(f: FileTables, g: FileTables, h: FileTables)
    requires Evolves(f, g) && Evolves(g, h)
    ensures Evolves(f, h)
  {
    forall slotId
      ensures SlotEvolves(f, h, slotId)
    {
      assert SlotEvolves(f, g, slotId) && SlotEvolves(g, h, slotId);
    }
  }

  // ---- requests ----

  lemma HandleIsSafe(cfg: Config, f: FileTables, caller: string, c: FileCall, env: Env)
    requires Inv(cfg, f) && (c.CreateSlot? ==> FreshObject(f, env))
    ensures Inv(cfg, Handle(cfg, f, caller, c, env).tables)
    ensures Evolves(f, Handle(cfg, f, caller, c, env).tables)
  {
    if c.CreateSlot? {
      CreateIsSafe(cfg, f, caller, c, env);
    } else if c.Commit? {
      CommitIsSafe(cfg, f, c, env);
    } else if c.Abort? {
      AbortIsSafe(cfg, f, c, env);
    } else {
      TicketIsSafe(cfg, f, caller, c, env);
    }
  }

  lemma CreateIsSafe(cfg: Config, f: FileTables, caller: string, c: FileCall, env: Env)
    requires Inv(cfg, f) && c.CreateSlot? && FreshObject(f, env)
    ensures var g := CreateUploadSlot(cfg, f, caller, c, env).tables; Inv(cfg, g) && Evolves(f, g)
  {
    var g := CreateUploadSlot(cfg, f, caller, c, env).tables;
    if g != f {
      var base := if env.baseUrl != "" then env.baseUrl else cfg.baseUrl;
      var s := g.slots[env.slotId];
      assert UriFor(s.objectUri, s.objectId) by {
        assert s.objectUri == base + (OBJECTS + env.objectId);
      }
      assert HasOwner(f, env.objectId) ==> env.objectId !in f.objects;
      RowChangeIsSafe(cfg, f, env.slotId, s);
    }
  }

  /** Adding a slot for a fresh object, or moving a slot's status forward, breaks nothing. */
  lemma RowChangeIsSafe(cfg: Config, f: FileTables, slotId: string, s: Slot)
    requires Inv(cfg, f) && SlotOk(cfg, s, f.objects)
    requires if slotId in f.slots
             then && s == f.slots[slotId].(status := s.status, actual := s.actual)
                  && Rank(f.slots[slotId].status) <= Rank(s.status)
                  && (f.slots[slotId].actual.Some? ==> s.actual == f.slots[slotId].actual)
                  && (f.slots[slotId].status != Created ==> s.actual == f.slots[slotId].actual)
             else forall other | other in f.slots :: f.slots[other].objectId != s.objectId
    ensures var g := f.(slots := f.slots[slotId := s]); Inv(cfg, g) && Evolves(f, g)
  {
    var g := f.(slots := f.slots[slotId := s]);
    RowChangeEvolves(f, slotId, s);
    LinksSurvive(f, g);
    assert SlotsOk(cfg, g.slots, g.objects) && Distinct(g.slots);
  }

  lemma RowChangeEvolves(f: FileTables, slotId: string, s: Slot)
    requires slotId in f.slots ==>
               && s == f.slots[slotId].(status := s.status, actual := s.actual)
               && Rank(f.slots[slotId].status) <= Rank(s.status)
               && (f.slots[slotId].actual.Some? ==> s.actual == f.slots[slotId].actual)
               && (f.slots[slotId].status != Created ==> s.actual == f.slots[slotId].actual)
    ensures Evolves(f, f.(slots := f.slots[slotId := s]))
  {}

  /** Slots that keep their object, URI and commit keep the objects and tickets that rest on them. */
  lemma LinksSurvive(f: FileTables, g: FileTables)
    requires forall s | s in f.slots ::
               && s in g.slots
               && g.slots[s].objectId == f.slots[s].objectId
               && g.slots[s].objectUri == f.slots[s].objectUri
               && (f.slots[s].actual.Some? ==> g.slots[s].actual.Some?)
    ensures forall objectId | HasOwner(f, objectId) :: HasOwner(g, objectId)
    ensures forall t | Granted(f, t) :: Granted(g, t)
  {
    forall objectId | HasOwner(f, objectId)
      ensures HasOwner(g, objectId)
    {
      var s :| Owns(f, s, objectId);
      assert Owns(g, s, objectId);
    }
    forall t | Granted(f, t)
      ensures Granted(g, t)
    {
      var s :| Grants(f, s, t);
      assert Grants(g, s, t);
    }
  }

  lemma CommitIsSafe(cfg: Config, f: FileTables, c: FileCall, env: Env)
    requires Inv(cfg, f) && c.Commit?
    ensures var g := CommitObject(cfg, f, c, env).tables; Inv(cfg, g) && Evolves(f, g)
  {
    var g := CommitObject(cfg, f, c, env).tables;
    if g != f {
      assert SlotOk(cfg, f.slots[c.slotId], f.objects);
      RowChangeIsSafe(cfg, f, c.slotId, g.slots[c.slotId]);
    }
  }

  lemma AbortIsSafe(cfg: Config, f: FileTables, c: FileCall, env: Env)
    requires Inv(cfg, f) && c.Abort?
    ensures var g := AbortObject(f, c, env).tables; Inv(cfg, g) && Evolves(f, g)
  {
    var g := AbortObject(f, c, env).tables;
    if g != f {
      assert SlotOk(cfg, f.slots[c.slotId], f.objects);
      RowChangeIsSafe(cfg, f, c.slotId, g.slots[c.slotId]);
    }
  }

  lemma TicketIsSafe(cfg: Config, f: FileTables, caller: string, c: FileCall, env: Env)
    requires Inv(cfg, f) && c.IssueTicket?
    ensures var g := IssueDownloadTicket(f, caller, c, env).tables; Inv(cfg, g) && Evolves(f, g)
  {
    var g := IssueDownloadTicket(f, caller, c, env).tables;
    if g != f {
      var t := g.tickets[env.ticket];
      assert g == f.(tickets := f.tickets[env.ticket := t]);
      var slotId := GrantedSlot(f, c.binding).value;
      assert SlotOk(cfg, f.slots[slotId], f.objects);
      assert Grants(f, slotId, t);
      NewTicketIsSafe(cfg, f, env.ticket, t);
    }
  }

  lemma NewTicketIsSafe(cfg: Config, f: FileTables, key: string, t: Ticket)
    requires Inv(cfg, f) && Granted(f, t) && key !in f.tickets
    ensures var g := f.(tickets := f.tickets[key := t]); Inv(cfg, g) && Evolves(f, g)
  {
    var g := f.(tickets := f.tickets[key := t]);
    NewTicketEvolves(f, key, t);
    LinksSurvive(f, g);
    assert Granted(g, t);
  }

  lemma NewTicketEvolves(f: FileTables, key: string, t: Ticket)
    requires key !in f.tickets
    ensures Evolves(f, f.(tickets := f.tickets[key := t]))
  {}

  lemma UploadIsSafe(cfg: Config, f: FileTables, slotId: string, content: seq<byte>, now: nat)
    requires Inv(cfg, f)
    ensures var g := Upload(cfg, f, slotId, content, now).0; Inv(cfg, g) && Evolves(f, g)
  {
    var g := Upload(cfg, f, slotId, content, now).0;
    if g != f {
      var id := f.slots[slotId].objectId;
      assert g == f.(objects := f.objects[id := g.objects[id]]);
      NewBytesAreSafe(cfg, f, slotId, g.objects[id]);
    }
  }

  lemma NewBytesAreSafe(cfg: Config, f: FileTables, slotId: string, o: Object)
    requires Inv(cfg, f) && slotId in f.slots && f.slots[slotId].status == Created
    requires ObjectOk(cfg, f.slots[slotId], o)
    ensures var g := f.(objects := f.objects[f.slots[slotId].objectId := o]); Inv(cfg, g) && Evolves(f, g)
  {
    var g := f.(objects := f.objects[f.slots[slotId].objectId := o]);
    LinksSurvive(f, g);
    NewBytesMoveForward(f, slotId, o);
    assert Owns(g, slotId, f.slots[slotId].objectId);
    hide Evolves, Agrees, WellNamed, ObjectOk;
    forall s | s in g.slots
      ensures SlotOk(cfg, g.slots[s], g.objects)
    {
      assert SlotOk(cfg, f.slots[s], f.objects);
      OtherBytesDoNotMatter(cfg, f.slots[s], f.objects, f.slots[slotId], o);
    }
  }

  lemma NewBytesMoveForward(f: FileTables, slotId: string, o: Object)
    requires Distinct(f.slots) && slotId in f.slots && f.slots[slotId].status == Created
    ensures Evolves(f, f.(objects := f.objects[f.slots[slotId].objectId := o]))
  {}

  lemma OtherBytesDoNotMatter(cfg: Config, s: Slot, objects: map<string, Object>, uploaded: Slot, o: Object)
    requires Agrees(cfg, s, objects) && ObjectOk(cfg, uploaded, o)
    requires s.objectId == uploaded.objectId ==> s == uploaded && s.status == Created
    ensures Agrees(cfg, s, objects[uploaded.objectId := o])
  {}

  // ---- one slot per URI ----

  lemma UriNamesOneSlot(cfg: Config, f: FileTables, a: string, b: string)
    requires Inv(cfg, f) && a in f.slots && b in f.slots && f.slots[a].objectUri == f.slots[b].objectUri
    ensures a == b
  {
    var s, t := f.slots[a], f.slots[b];
    assert SlotOk(cfg, s, f.objects) && SlotOk(cfg, t, f.objects);
    UriMatchesItsIdOnly(s.objectUri, s.objectId, t.objectId);
    UriMatchesItsIdOnly(t.objectUri, t.objectId, t.objectId);
  }

  /** A served download is the object of the committed slot its ticket names, with the size and
      digest recorded at the commit. */
  lemma DownloadIsCommitted(cfg: Config, f: FileTables, objectId: string, authorization: string, now: nat)
      returns (slotId: string)
    requires Inv(cfg, f) && Download(f, objectId, authorization, now).Bytes?
    ensures slotId in f.slots && f.slots[slotId].objectId == objectId && objectId in f.objects
    ensures f.slots[slotId].objectUri == f.tickets[BearerTicket(authorization).value].binding.objectUri
    ensures f.slots[slotId].actual.Some?
    ensures var data := Download(f, objectId, authorization, now).data;
            && data == f.objects[objectId].data
            && f.slots[slotId].actual.value == Recorded(|data|, cfg.digest(data))
  {
    var ticket := f.tickets[BearerTicket(authorization).value];
    assert Granted(f, ticket);
    slotId :| Grants(f, slotId, ticket);
    var s := f.slots[slotId];
    assert SlotOk(cfg, s, f.objects);
    assert HasOwner(f, objectId);
    var owner :| Owns(f, owner, objectId);
    assert SlotOk(cfg, f.slots[owner], f.objects);
    UriMatchesItsIdOnly(s.objectUri, s.objectId, objectId);
  }
}
