/** The one-time prekey table, and the bounded queues it stands for. */
module Prekeys {
  import opened Wrappers
  import opened Wire
  import opened Schema

  datatype Out = Out(tables: KeyTables, reply: Result<Response>)

  datatype KeyCall =
    | Publish(bundle: Option<Fields>, prekeys: Option<seq<Json>>)
    | GetBundle(target: string, requireOpk: bool)

  const KEPT: nat := 100

  // ---- the table ----

  function MaxRowid(rows: seq<PrekeyRow>): nat {
    if rows == [] then 0
    else
      var rest, last := MaxRowid(rows[..|rows| - 1]), rows[|rows| - 1].rowid;
      if rest < last then last else rest
  }

  /** SQLite's implicit rowid: one above the largest live one, so numbers come back after deletes. */
  function InsertRow(rows: seq<PrekeyRow>, owner: string, prekey: Json): seq<PrekeyRow> {
    rows + [PrekeyRow(MaxRowid(rows) + 1, owner, prekey)]
  }

  function InsertAll(rows: seq<PrekeyRow>, owner: string, entries: seq<Json>): seq<PrekeyRow> {
    if entries == [] then rows
    else InsertRow(InsertAll(rows, owner, entries[..|entries| - 1]), owner, entries[|entries| - 1])
  }

  /** SELECT rowid ... WHERE owner_did = owner ORDER BY rowid DESC LIMIT n. */
  function NewestRowids(rows: seq<PrekeyRow>, owner: string, n: nat): set<nat> {
    if rows == [] || n == 0 then {}
    else
      var last, rest := rows[|rows| - 1], rows[..|rows| - 1];
      if last.owner == owner then {last.rowid} + NewestRowids(rest, owner, n - 1) else NewestRowids(rest, owner, n)
  }

  /** DELETE ... WHERE owner_did = owner AND rowid NOT IN kept. */
  function DeleteUnlisted(rows: seq<PrekeyRow>, owner: string, kept: set<nat>): seq<PrekeyRow> {
    if rows == [] then []
    else
      var rest, last := DeleteUnlisted(rows[..|rows| - 1], owner, kept), rows[|rows| - 1];
      if last.owner == owner && last.rowid !in kept then rest else rest + [last]
  }

  function Trim(rows: seq<PrekeyRow>, owner: string): seq<PrekeyRow> {
    DeleteUnlisted(rows, owner, NewestRowids(rows, owner, KEPT))
  }

  /** SELECT prekey_json ... WHERE owner_did = owner ORDER BY rowid ASC LIMIT 1. */
  function Oldest(rows: seq<PrekeyRow>, owner: string): Option<Json> {
    if rows == [] then None
    else if rows[0].owner == owner then Some(rows[0].prekey)
    else Oldest(rows[1..], owner)
  }

  /** DELETE ... WHERE owner_did = owner AND prekey_json = prekey. */
  function DeleteEqual(rows: seq<PrekeyRow>, owner: string, prekey: Json): seq<PrekeyRow> {
    if rows == [] then []
    else
      var rest, last := DeleteEqual(rows[..|rows| - 1], owner, prekey), rows[|rows| - 1];
      if last.owner == owner && last.prekey == prekey then rest else rest + [last]
  }

  // ---- handlers ----

  function Owner(caller: string, bundle: Option<Fields>): string {
    if caller != "" then caller
    else if bundle.Some? then StringAt(bundle.value, "owner_did") else ""
  }

  function PublishBundle(t: KeyTables, caller: string, c: KeyCall, env: Env): Out
    requires c.Publish?
  {
    var owner := Owner(caller, c.bundle);
    if owner == "" then Out(t, Err(INTERNAL))
    else
      var bundleId := if c.bundle.Some? then StringAt(c.bundle.value, "bundle_id") else "";
      var rows := if c.prekeys.Some? then Trim(InsertAll(t.prekeys, owner, c.prekeys.value), owner) else t.prekeys;
      Out(KeyTables(t.bundles[owner := ToJson(c.bundle)], rows),
          Ok(PrekeysPublished(owner, bundleId, Seconds(env.now))))
  }

  /** A served prekey that is not an object is sent as null. */
  function Served(prekey: Json): Json {
    if prekey.Obj? then prekey else Null
  }

  function TakeBundle(t: KeyTables, c: KeyCall): Out
    requires c.GetBundle?
  {
    if c.target !in t.bundles then Out(t, Err(DID_NOT_FOUND))
    else if !c.requireOpk then Out(t, Ok(PrekeyBundle(c.target, t.bundles[c.target], None)))
    else match Oldest(t.prekeys, c.target)
      case None => Out(t, Err(OPK_UNAVAILABLE))
      case Some(prekey) =>
        Out(t.(prekeys := DeleteEqual(t.prekeys, c.target, prekey)),
            Ok(PrekeyBundle(c.target, t.bundles[c.target], Some(Served(prekey)))))
  }

  function Handle(t: KeyTables, caller: string, c: KeyCall, env: Env): Out {
    match c
    case Publish(_, _) => PublishBundle(t, caller, c, env)
    case GetBundle(_, _) => TakeBundle(t, c)
  }

  // ---- the table as queues ----

  ghost predicate Ascending(rows: seq<PrekeyRow>) {
    forall i, j | 0 <= i < j < |rows| :: rows[i].rowid < rows[j].rowid
  }

  /** One owner's prekeys, oldest first. */
  function Queue(rows: seq<PrekeyRow>, owner: string): seq<Json> {
    if rows == [] then []
    else
      var rest, last := Queue(rows[..|rows| - 1], owner), rows[|rows| - 1];
      if last.owner == owner then rest + [last.prekey] else rest
  }

  function Newest(queue: seq<Json>, n: nat): seq<Json> {
    if |queue| <= n then queue else queue[|queue| - n..]
  }

  function Without(queue: seq<Json>, x: Json): seq<Json> {
    if queue == [] then []
    else
      var rest, last := Without(queue[..|queue| - 1], x), queue[|queue| - 1];
      if last == x then rest else rest + [last]
  }

  ghost predicate OwnerOk(t: KeyTables, owner: string) {
    |Queue(t.prekeys, owner)| <= KEPT && (owner !in t.bundles ==> Queue(t.prekeys, owner) == [])
  }

  ghost predicate Inv(t: KeyTables) {
    Ascending(t.prekeys) && forall owner :: OwnerOk(t, owner)
  }

  function IfOwn(row: PrekeyRow, owner: string): seq<Json> {
    if row.owner == owner then [row.prekey] else []
  }

  lemma QueueAppend(rows: seq<PrekeyRow>, row: PrekeyRow, owner: string)
    ensures Queue(rows + [row], owner) == Queue(rows, owner) + IfOwn(row, owner)
  {
    assert (rows + [row])[..|rows|] == rows;
  }

  lemma {:induction false} MaxIsLast(rows: seq<PrekeyRow>)
    requires Ascending(rows)
    ensures forall i | 0 <= i < |rows| :: rows[i].rowid <= MaxRowid(rows)
    ensures rows != [] ==> MaxRowid(rows) == rows[|rows| - 1].rowid
  {
    if rows != [] {
      MaxIsLast(rows[..|rows| - 1]);
    }
  }

  lemma {:induction false} InsertAllAscends(rows: seq<PrekeyRow>, owner: string, entries: seq<Json>)
    requires Ascending(rows)
    ensures Ascending(InsertAll(rows, owner, entries))
  {
    if entries != [] {
      var init := entries[..|entries| - 1];
      InsertAllAscends(rows, owner, init);
      MaxIsLast(InsertAll(rows, owner, init));
    }
  }

  lemma {:induction false} InsertAllAppends(rows: seq<PrekeyRow>, owner: string, entries: seq<Json>, other: string)
    ensures Queue(InsertAll(rows, owner, entries), other) == Queue(rows, other) + if other == owner then entries else []
  {
    if entries != [] {
      var init, entry := entries[..|entries| - 1], entries[|entries| - 1];
      InsertAllAppends(rows, owner, init, other);
      var before := InsertAll(rows, owner, init);
      QueueAppend(before, PrekeyRow(MaxRowid(before) + 1, owner, entry), other);
      assert entries == init + [entry];
    }
  }

  lemma {:induction false} DeleteKeepsOrder(rows: seq<PrekeyRow>, owner: string, kept: set<nat>, other: string)
    requires Ascending(rows)
    ensures var after := DeleteUnlisted(rows, owner, kept);
            && Ascending(after)
            && (forall i | 0 <= i < |after| :: after[i] in rows)
            && (other != owner ==> Queue(after, other) == Queue(rows, other))
  {
    if rows != [] {
      var init, last := rows[..|rows| - 1], rows[|rows| - 1];
      DeleteKeepsOrder(init, owner, kept, other);
      var before, after := DeleteUnlisted(init, owner, kept), DeleteUnlisted(rows, owner, kept);
      if after != before {
        assert after[..|after| - 1] == before;
      }
    }
  }

  /** Row ids outside the rows at hand do not matter to a deletion. */
  lemma {:induction false} DeleteIgnoresNewer(rows: seq<PrekeyRow>, owner: string, kept: set<nat>, id: nat)
    requires forall i | 0 <= i < |rows| :: rows[i].rowid != id
    ensures DeleteUnlisted(rows, owner, {id} + kept) == DeleteUnlisted(rows, owner, kept)
  {
    if rows != [] {
      DeleteIgnoresNewer(rows[..|rows| - 1], owner, kept, id);
    }
  }

  /** Keeping the newest n row ids keeps the newest n prekeys. */
  lemma {:induction false} TrimKeepsNewest(rows: seq<PrekeyRow>, owner: string, n: nat)
    requires Ascending(rows)
    ensures Queue(DeleteUnlisted(rows, owner, NewestRowids(rows, owner, n)), owner) == Newest(Queue(rows, owner), n)
  {
    if rows != [] {
      var init, last := rows[..|rows| - 1], rows[|rows| - 1];
      hide DeleteUnlisted, NewestRowids, Queue, Newest;
      assert rows == init + [last];
      if last.owner != owner {
        TrimKeepsNewest(init, owner, n);
        TrimSkipsOther(init, last, owner, n);
      } else if n == 0 {
        TrimKeepsNewest(init, owner, 0);
        TrimDropsOwn(init, last, owner);
      } else {
        TrimKeepsNewest(init, owner, n - 1);
        TrimKeepsOwn(init, last, owner, n);
      }
    }
  }

  lemma TrimSkipsOther(init: seq<PrekeyRow>, last: PrekeyRow, owner: string, n: nat)
    requires last.owner != owner
    requires Queue(DeleteUnlisted(init, owner, NewestRowids(init, owner, n)), owner) == Newest(Queue(init, owner), n)
    ensures var rows := init + [last];
            Queue(DeleteUnlisted(rows, owner, NewestRowids(rows, owner, n)), owner) == Newest(Queue(rows, owner), n)
  {
    var rows := init + [last];
    assert rows[..|init|] == init;
    assert NewestRowids(rows, owner, n) == NewestRowids(init, owner, n);
    QueueAppend(DeleteUnlisted(init, owner, NewestRowids(init, owner, n)), last, owner);
    QueueAppend(init, last, owner);
  }

  lemma TrimDropsOwn(init: seq<PrekeyRow>, last: PrekeyRow, owner: string)
    requires last.owner == owner
    requires Queue(DeleteUnlisted(init, owner, NewestRowids(init, owner, 0)), owner) == Newest(Queue(init, owner), 0)
    ensures var rows := init + [last];
            Queue(DeleteUnlisted(rows, owner, NewestRowids(rows, owner, 0)), owner) == Newest(Queue(rows, owner), 0)
  {
    var rows := init + [last];
    assert rows[..|init|] == init;
    assert NewestRowids(rows, owner, 0) == {} == NewestRowids(init, owner, 0);
    QueueAppend(init, last, owner);
  }

  lemma TrimKeepsOwn(init: seq<PrekeyRow>, last: PrekeyRow, owner: string, n: nat)
    requires last.owner == owner && n > 0 && Ascending(init + [last])
    requires Queue(DeleteUnlisted(init, owner, NewestRowids(init, owner, n - 1)), owner)
              == Newest(Queue(init, owner), n - 1)
    ensures var rows := init + [last];
            Queue(DeleteUnlisted(rows, owner, NewestRowids(rows, owner, n)), owner) == Newest(Queue(rows, owner), n)
  {
    var rows, older := init + [last], NewestRowids(init, owner, n - 1);
    assert rows[..|init|] == init;
    assert NewestRowids(rows, owner, n) == {last.rowid} + older;
    NoRowHasNewId(init, last);
    DeleteIgnoresNewer(init, owner, older, last.rowid);
    QueueAppend(DeleteUnlisted(init, owner, older), last, owner);
    QueueAppend(init, last, owner);
    NewestAppend(Queue(init, owner), last.prekey, n);
  }

  lemma NoRowHasNewId(init: seq<PrekeyRow>, last: PrekeyRow)
    requires Ascending(init + [last])
    ensures forall i | 0 <= i < |init| :: init[i].rowid != last.rowid
  {
    var rows := init + [last];
    forall i | 0 <= i < |init|
      ensures init[i].rowid != last.rowid
    {
      assert rows[i].rowid < rows[|init|].rowid;
    }
  }

  lemma NewestAppend(q: seq<Json>, x: Json, n: nat)
    requires n > 0
    ensures Newest(q + [x], n) == Newest(q, n - 1) + [x]
  {}

  lemma {:induction false} OldestIsHead(rows: seq<PrekeyRow>, owner: string)
    ensures Oldest(rows, owner) == if Queue(rows, owner) == [] then None else Some(Queue(rows, owner)[0])
  {
    if rows != [] {
      OldestIsHead(rows[1..], owner);
      QueueFromFront(rows, owner);
    }
  }

  lemma {:induction false} QueueFromFront(rows: seq<PrekeyRow>, owner: string)
    requires rows != []
    ensures Queue(rows, owner) == (if rows[0].owner == owner then [rows[0].prekey] else []) + Queue(rows[1..], owner)
  {
    if |rows| > 1 {
      QueueFromFront(rows[..|rows| - 1], owner);
      assert rows[..|rows| - 1][1..] == rows[1..][..|rows| - 2];
    } else {
      assert rows[..0] == rows[1..] == [];
    }
  }

  lemma {:induction false} DeleteEqualAscends(rows: seq<PrekeyRow>, owner: string, x: Json)
    requires Ascending(rows)
    ensures var after := DeleteEqual(rows, owner, x);
            Ascending(after) && forall i | 0 <= i < |after| :: after[i] in rows
  {
    if rows != [] {
      var init := rows[..|rows| - 1];
      DeleteEqualAscends(init, owner, x);
      assert forall row | row in init :: row.rowid < rows[|rows| - 1].rowid;
    }
  }

  lemma {:induction false} DeleteEqualIsWithout(rows: seq<PrekeyRow>, owner: string, x: Json, other: string)
    ensures Queue(DeleteEqual(rows, owner, x), other) ==
            if other == owner then Without(Queue(rows, other), x) else Queue(rows, other)
  {
    if rows != [] {
      var init, last := rows[..|rows| - 1], rows[|rows| - 1];
      DeleteEqualIsWithout(init, owner, x, other);
      QueueAppend(DeleteEqual(init, owner, x), last, other);
      assert (Queue(init, other) + [last.prekey])[..|Queue(init, other)|] == Queue(init, other);
    }
  }

  lemma {:induction false} WithoutShorter(q: seq<Json>, x: Json)
    ensures |Without(q, x)| <= |q| && x !in Without(q, x)
    ensures forall y | y != x :: y in Without(q, x) <==> y in q
  {
    if q != [] {
      WithoutShorter(q[..|q| - 1], x);
    }
  }

  // ---- refinement ----

  /** The independent bounded queues: what a request does to the queue of owner. */
  function QueueAfter(queue: seq<Json>, owner: string, caller: string, c: KeyCall): seq<Json> {
    match c
    case Publish(bundle, prekeys) =>
      if Owner(caller, bundle) == owner && owner != "" && prekeys.Some?
      then Newest(queue + prekeys.value, KEPT) else queue
    case GetBundle(target, requireOpk) =>
      if target == owner && requireOpk && queue != [] then Without(queue, queue[0]) else queue
  }

  /** The shared table behaves as one bounded FIFO queue per owner: every request does to each
      owner's queue what QueueAfter says, and a get hands out the head. */
  lemma TableRefinesQueues(t: KeyTables, caller: string, c: KeyCall, env: Env, owner: string)
    requires Inv(t)
    ensures Inv(Handle(t, caller, c, env).tables)
    ensures Queue(Handle(t, caller, c, env).tables.prekeys, owner)
              == QueueAfter(Queue(t.prekeys, owner), owner, caller, c)
    ensures c.GetBundle? && c.requireOpk ==>
              Handle(t, caller, c, env).reply ==
                if c.target !in t.bundles then Err(DID_NOT_FOUND)
                else if Queue(t.prekeys, c.target) == [] then Err(OPK_UNAVAILABLE)
                else Ok(PrekeyBundle(c.target, t.bundles[c.target], Some(Served(Queue(t.prekeys, c.target)[0]))))
  {
    if c.GetBundle? {
      OldestIsHead(t.prekeys, c.target);
    }
    QueueStep(t, caller, c, env, owner);
    forall o {
      QueueStep(t, caller, c, env, o);
    }
  }

  lemma QueueStep(t: KeyTables, caller: string, c: KeyCall, env: Env, owner: string)
    requires Inv(t)
    ensures var u := Handle(t, caller, c, env).tables;
            && Ascending(u.prekeys)
            && Queue(u.prekeys, owner) == QueueAfter(Queue(t.prekeys, owner), owner, caller, c)
            && OwnerOk(u, owner)
  {
    assert OwnerOk(t, owner);
    if c.Publish? {
      PublishStep(t, caller, c, env, owner);
    } else {
      TakeStep(t, caller, c, owner);
    }
  }

  lemma PublishStep(t: KeyTables, caller: string, c: KeyCall, env: Env, owner: string)
    requires Inv(t) && OwnerOk(t, owner) && c.Publish?
    ensures var u := PublishBundle(t, caller, c, env).tables;
            && Ascending(u.prekeys)
            && Queue(u.prekeys, owner) == QueueAfter(Queue(t.prekeys, owner), owner, caller, c)
            && OwnerOk(u, owner)
  {
    var publisher := Owner(caller, c.bundle);
    if publisher != "" && c.prekeys.Some? {
      InsertAllAscends(t.prekeys, publisher, c.prekeys.value);
      InsertAllAppends(t.prekeys, publisher, c.prekeys.value, owner);
      var rows := InsertAll(t.prekeys, publisher, c.prekeys.value);
      DeleteKeepsOrder(rows, publisher, NewestRowids(rows, publisher, KEPT), owner);
      if owner == publisher {
        TrimKeepsNewest(rows, owner, KEPT);
      } else {
        assert Queue(t.prekeys, owner) + [] == Queue(t.prekeys, owner);
      }
    }
  }

  lemma TakeStep(t: KeyTables, caller: string, c: KeyCall, owner: string)
    requires Inv(t) && OwnerOk(t, owner) && c.GetBundle?
    ensures var u := TakeBundle(t, c).tables;
            && Ascending(u.prekeys)
            && Queue(u.prekeys, owner) == QueueAfter(Queue(t.prekeys, owner), owner, caller, c)
            && OwnerOk(u, owner)
  {
    OldestIsHead(t.prekeys, c.target);
    var q := Queue(t.prekeys, c.target);
    assert OwnerOk(t, c.target);
    if q != [] {
      DeleteEqualAscends(t.prekeys, c.target, q[0]);
      DeleteEqualIsWithout(t.prekeys, c.target, q[0], owner);
      WithoutShorter(q, q[0]);
    }
  }

  // ---- where every published prekey went ----

  /** What one request did with an owner's prekeys. */
  datatype Flow = Flow(published: multiset<Json>, served: multiset<Json>, duplicates: multiset<Json>,
                       evicted: multiset<Json>)

  const NO_FLOW := Flow(multiset{}, multiset{}, multiset{}, multiset{})

  function Combined(a: Flow, b: Flow): Flow {
    Flow(a.published + b.published, a.served + b.served, a.duplicates + b.duplicates, a.evicted + b.evicted)
  }

  function Evicted(queue: seq<Json>, n: nat): seq<Json> {
    if |queue| <= n then [] else queue[..|queue| - n]
  }

  function Copies(queue: seq<Json>, x: Json): nat { multiset(queue)[x] }

  /** The flow of a request that executes against a queue. */
  function FlowOf(queue: seq<Json>, owner: string, caller: string, c: KeyCall): Flow {
    match c
    case Publish(bundle, prekeys) =>
      if Owner(caller, bundle) == owner && owner != "" && prekeys.Some?
      then NO_FLOW.(published := multiset(prekeys.value), evicted := multiset(Evicted(queue + prekeys.value, KEPT)))
      else NO_FLOW
    case GetBundle(target, requireOpk) =>
      if target == owner && requireOpk && queue != []
      then NO_FLOW.(served := multiset{queue[0]}, duplicates := multiset{}[queue[0] := Copies(queue, queue[0]) - 1])
      else NO_FLOW
  }

  /** Nothing is lost or made up: what goes in is held, served, dropped as a copy of a served one, or evicted. */
  lemma FlowBalances(queue: seq<Json>, owner: string, caller: string, c: KeyCall)
    ensures var f := FlowOf(queue, owner, caller, c);
            multiset(queue) + f.published ==
            multiset(QueueAfter(queue, owner, caller, c)) + f.served + f.duplicates + f.evicted
  {
    if c.Publish? {
      if c.prekeys.Some? {
        EvictionBalances(queue, c.prekeys.value);
      }
    } else if queue != [] {
      WithoutRemovesCopies(queue, queue[0]);
    }
  }

  lemma EvictionBalances(queue: seq<Json>, added: seq<Json>)
    ensures multiset(queue) + multiset(added) == multiset(Newest(queue + added, KEPT))
              + multiset(Evicted(queue + added, KEPT))
  {
    var all := queue + added;
    assert all == Evicted(all, KEPT) + Newest(all, KEPT);
    assert multiset(all) == multiset(queue) + multiset(added);
  }

  lemma {:induction false} WithoutRemovesCopies(q: seq<Json>, x: Json)
    ensures multiset(Without(q, x)) == multiset(q)[x := 0]
  {
    if q != [] {
      var init := q[..|q| - 1];
      WithoutRemovesCopies(init, x);
      assert q == init + [q[|q| - 1]];
    }
  }
}
