/** The prekey queues over whole runs of the server. */
module KeyRuns {
  import opened Wrappers
  import opened Wire
  import opened Schema
  import opened Prekeys
  import opened Dispatch

  /** The queue of an owner after n events. */
  ghost function QueueAt(cfg: Config, run: seq<Event>, n: nat, owner: string): seq<Json>
    requires n <= |run|
  {
    Queue(At(cfg, run, n).keys.prekeys, owner)
  }

  ghost predicate RunsKeyCall(cfg: Config, run: seq<Event>, i: nat)
    requires i < |run|
  {
    run[i].Rpc? && run[i].call.Keys? && Executed(cfg, run, i)
  }

  lemma KeyStep(cfg: Config, db: Db, e: Event)
    requires Inv(db.keys)
    ensures Inv(Step(cfg, db, e).db.keys)
    ensures Step(cfg, db, e).db.keys ==
              if e.Rpc? && e.call.Keys? && !Cached(db, e)
              then Prekeys.Handle(db.keys, e.caller, e.call.keys, e.env).tables else db.keys
  {
    if e.Rpc? && e.call.Keys? {
      TableRefinesQueues(db.keys, e.caller, e.call.keys, e.env, "");
    }
  }

  /** In every reachable state row ids ascend and every queue holds at most 100 prekeys. */
  lemma {:induction false} KeyInvariant(cfg: Config, run: seq<Event>, n: nat)
    requires n <= |run|
    ensures Inv(At(cfg, run, n).keys)
  {
    hide Step;
    if n > 0 {
      hide Inv;
      KeyInvariant(cfg, run, n - 1);
      KeyStep(cfg, At(cfg, run, n - 1), run[n - 1]);
    } else {
      assert forall owner :: OwnerOk(EMPTY.keys, owner);
    }
  }

  /** In every run each owner's queue takes exactly the steps of an independent bounded queue. */
  lemma QueueStepInRun(cfg: Config, run: seq<Event>, i: nat, owner: string)
    requires i < |run|
    ensures QueueAt(cfg, run, i + 1, owner) ==
              if RunsKeyCall(cfg, run, i)
              then QueueAfter(QueueAt(cfg, run, i, owner), owner, run[i].caller, run[i].call.keys)
              else QueueAt(cfg, run, i, owner)
  {
    KeyInvariant(cfg, run, i);
    var db, e := At(cfg, run, i), run[i];
    KeyStep(cfg, db, e);
    if RunsKeyCall(cfg, run, i) {
      TableRefinesQueues(db.keys, e.caller, e.call.keys, e.env, owner);
    }
  }

  // ---- conservation ----

  ghost function FlowAt(cfg: Config, run: seq<Event>, i: nat, owner: string): Flow
    requires i < |run|
  {
    if RunsKeyCall(cfg, run, i)
    then FlowOf(QueueAt(cfg, run, i, owner), owner, run[i].caller, run[i].call.keys) else NO_FLOW
  }

  ghost function TotalFlow(cfg: Config, run: seq<Event>, n: nat, owner: string): Flow
    requires n <= |run|
  {
    if n == 0 then NO_FLOW else Combined(TotalFlow(cfg, run, n - 1, owner), FlowAt(cfg, run, n - 1, owner))
  }

  /** At all times every published prekey is exactly one of held, served, removed as a copy of a
      served one, or evicted by the trim. */
  lemma {:induction false} PrekeysAreConserved(cfg: Config, run: seq<Event>, n: nat, owner: string)
    requires n <= |run|
    ensures var total := TotalFlow(cfg, run, n, owner);
            total.published == multiset(QueueAt(cfg, run, n, owner)) + total.served + total.duplicates + total.evicted
  {
    hide Step, QueueAfter, FlowOf, Combined;
    if n > 0 {
      hide At;
      PrekeysAreConserved(cfg, run, n - 1, owner);
      QueueStepInRun(cfg, run, n - 1, owner);
      if RunsKeyCall(cfg, run, n - 1) {
        FlowBalances(QueueAt(cfg, run, n - 1, owner), owner, run[n - 1].caller, run[n - 1].call.keys);
      }
      BalancesAdd(TotalFlow(cfg, run, n - 1, owner), FlowAt(cfg, run, n - 1, owner),
                  multiset(QueueAt(cfg, run, n - 1, owner)), multiset(QueueAt(cfg, run, n, owner)));
    }
  }

  lemma BalancesAdd(total: Flow, f: Flow, before: multiset<Json>, after: multiset<Json>)
    requires total.published == before + total.served + total.duplicates + total.evicted
    requires before + f.published == after + f.served + f.duplicates + f.evicted
    ensures var sum := Combined(total, f); sum.published == after + sum.served + sum.duplicates + sum.evicted
  {
    var gone, going := total.served + total.duplicates + total.evicted, f.served + f.duplicates + f.evicted;
    assert total.published == before + gone;
    assert total.published + f.published == (before + f.published) + gone;
    assert before + f.published == after + going;
  }

  // ---- no double serving ----

  /** Event i is an executed get that handed out prekey x of the owner. */
  ghost predicate Serves(cfg: Config, run: seq<Event>, i: nat, owner: string, x: Json) {
    && i < |run| && RunsKeyCall(cfg, run, i) && run[i].call.keys.GetBundle? && run[i].call.keys.target == owner
    && exists bundle :: Succeeded(cfg, run, i, PrekeyBundle(owner, bundle, Some(x)))
  }

  ghost predicate Publishes(cfg: Config, run: seq<Event>, i: nat, owner: string, x: Json)
    requires i < |run|
  {
    && RunsKeyCall(cfg, run, i) && run[i].call.keys.Publish? && Owner(run[i].caller, run[i].call.keys.bundle) == owner
    && run[i].call.keys.prekeys.Some? && x in run[i].call.keys.prekeys.value
  }

  /** A prekey absent from a queue gets in only by being published. */
  lemma {:induction false} EntersByPublish(cfg: Config, run: seq<Event>, i: nat, j: nat, owner: string, x: Json)
      returns (k: nat)
    requires i <= j <= |run| && x !in QueueAt(cfg, run, i, owner) && x in QueueAt(cfg, run, j, owner)
    ensures i <= k < j && Publishes(cfg, run, k, owner, x)
  {
    if x in QueueAt(cfg, run, j - 1, owner) {
      k := EntersByPublish(cfg, run, i, j - 1, owner, x);
    } else {
      k := j - 1;
      QueueStepInRun(cfg, run, k, owner);
      NewEntryWasPublished(QueueAt(cfg, run, k, owner), owner, run[k].caller, run[k].call.keys, x);
    }
  }

  lemma NewEntryWasPublished(queue: seq<Json>, owner: string, caller: string, c: KeyCall, x: Json)
    requires x !in queue && x in QueueAfter(queue, owner, caller, c)
    ensures c.Publish? && Owner(caller, c.bundle) == owner && c.prekeys.Some? && x in c.prekeys.value
  {
    if c.GetBundle? && queue != [] {
      WithoutShorter(queue, queue[0]);
    }
  }

  /** Event i is an executed get that took the stored entry x off the head of the owner's queue. */
  ghost predicate Takes(cfg: Config, run: seq<Event>, i: nat, owner: string, x: Json) {
    && i < |run| && RunsKeyCall(cfg, run, i) && run[i].call.keys == GetBundle(owner, true)
    && !IsError(ReplyAt(cfg, run, i))
    && QueueAt(cfg, run, i, owner) != [] && QueueAt(cfg, run, i, owner)[0] == x
  }

  /** Whatever a get hands out is what it takes off the head, read as an object. */
  lemma ServingTakesHead(cfg: Config, run: seq<Event>, i: nat, owner: string, x: Json) returns (entry: Json)
    requires Serves(cfg, run, i, owner, x)
    ensures Takes(cfg, run, i, owner, entry) && x == Served(entry)
  {
    KeyInvariant(cfg, run, i);
    var db, e := At(cfg, run, i), run[i];
    TableRefinesQueues(db.keys, e.caller, e.call.keys, e.env, owner);
    entry := QueueAt(cfg, run, i, owner)[0];
  }

  lemma TakingEmptiesHead(cfg: Config, run: seq<Event>, i: nat, owner: string, x: Json)
    requires Takes(cfg, run, i, owner, x)
    ensures x !in QueueAt(cfg, run, i + 1, owner)
  {
    QueueStepInRun(cfg, run, i, owner);
    WithoutShorter(QueueAt(cfg, run, i, owner), x);
  }

  /** Between two executed gets that take the same stored entry of one owner, it was published again. */
  lemma NoDoubleTaking(cfg: Config, run: seq<Event>, i: nat, j: nat, owner: string, x: Json) returns (k: nat)
    requires i < j && Takes(cfg, run, i, owner, x) && Takes(cfg, run, j, owner, x)
    ensures i < k < j && Publishes(cfg, run, k, owner, x)
  {
    TakingEmptiesHead(cfg, run, i, owner, x);
    k := EntersByPublish(cfg, run, i + 1, j, owner, x);
  }

  /** Between two executed gets that hand out the same prekey object of one owner, it was published again. */
  lemma NoDoubleServing(cfg: Config, run: seq<Event>, i: nat, j: nat, owner: string, x: Json) returns (k: nat)
    requires i < j && Serves(cfg, run, i, owner, x) && Serves(cfg, run, j, owner, x) && x != Null
    ensures i < k < j && Publishes(cfg, run, k, owner, x)
  {
    var first := ServingTakesHead(cfg, run, i, owner, x);
    var second := ServingTakesHead(cfg, run, j, owner, x);
    k := NoDoubleTaking(cfg, run, i, j, owner, x);
  }

  ghost predicate RepublishedBetween(cfg: Config, run: seq<Event>, i: nat, j: nat, owner: string, x: Json) {
    exists k :: i < k < j && k < |run| && Publishes(cfg, run, k, owner, x)
  }

  /** Everything the owner publishes in the run is one of ok. */
  ghost predicate PublishesOnly(cfg: Config, run: seq<Event>, owner: string, ok: iset<Json>) {
    forall i, x | 0 <= i < |run| && Publishes(cfg, run, i, owner, x) :: x in ok
  }

  /** No value is handed out twice without having been published in between. */
  ghost predicate NeverServedTwice(cfg: Config, run: seq<Event>, owner: string) {
    forall i, j, x | 0 <= i < j && Serves(cfg, run, i, owner, x) && Serves(cfg, run, j, owner, x) ::
      RepublishedBetween(cfg, run, i, j, owner, x)
  }

  /** Whatever a get hands out was published, and it is that very entry if it is an object. */
  lemma ServedWasPublished(cfg: Config, run: seq<Event>, i: nat, owner: string, x: Json) returns (entry: Json, k: nat)
    requires Serves(cfg, run, i, owner, x)
    ensures Takes(cfg, run, i, owner, entry) && x == Served(entry)
    ensures k < i && Publishes(cfg, run, k, owner, entry)
  {
    hide Step, At, Serves;
    entry := ServingTakesHead(cfg, run, i, owner, x);
    NothingAtStart(cfg, run, owner);
    k := EntersByPublish(cfg, run, 0, i, owner, entry);
  }

  /** An owner who publishes only entries of ok is safe from double serving, in every run, exactly when
      each of these entries is an object, or null: any other entry is handed out as null. */
  lemma NoDoubleServingIff(cfg: Config, owner: string, ok: iset<Json>)
    requires owner != ""
    ensures (forall run | PublishesOnly(cfg, run, owner, ok) :: NeverServedTwice(cfg, run, owner))
            <==> forall e | e in ok :: e.Obj? || e == Null
  {
    hide PublishesOnly, NeverServedTwice;
    if forall e | e in ok :: e.Obj? || e == Null {
      forall run | PublishesOnly(cfg, run, owner, ok)
        ensures NeverServedTwice(cfg, run, owner)
      {
        ReadableIsNeverServedTwice(cfg, run, owner, ok);
      }
    } else {
      var y :| y in ok && !y.Obj? && y != Null;
      var env: Env :| true;
      PublishTwiceIsUnsafe(cfg, owner, ok, y, env);
    }
  }

  lemma ReadableIsNeverServedTwice(cfg: Config, run: seq<Event>, owner: string, ok: iset<Json>)
    requires PublishesOnly(cfg, run, owner, ok) && forall e | e in ok :: e.Obj? || e == Null
    ensures NeverServedTwice(cfg, run, owner)
  {
    hide Step, At, Serves, Publishes, Takes;
    forall i, j, x | 0 <= i < j && Serves(cfg, run, i, owner, x) && Serves(cfg, run, j, owner, x)
      ensures RepublishedBetween(cfg, run, i, j, owner, x)
    {
      ServesInRun(cfg, run, i, owner, x);
      ServesInRun(cfg, run, j, owner, x);
      var first, k := ServedWasPublished(cfg, run, i, owner, x);
      var second, l := ServedWasPublished(cfg, run, j, owner, x);
      assert first == x == second;
      var between := NoDoubleTaking(cfg, run, i, j, owner, x);
    }
  }

  lemma PublishTwiceIsUnsafe(cfg: Config, owner: string, ok: iset<Json>, y: Json, env: Env)
    requires owner != "" && y in ok && !y.Obj? && y != Null
    ensures PublishesOnly(cfg, PublishTwice(owner, y, env), owner, ok)
    ensures !NeverServedTwice(cfg, PublishTwice(owner, y, env), owner)
  {
    hide Step, At, Serves;
    var run := PublishTwice(owner, y, env);
    SameNullTwice(cfg, owner, y, env);
    assert !RepublishedBetween(cfg, run, 1, 3, owner, Null);
  }

  lemma ServesInRun(cfg: Config, run: seq<Event>, i: nat, owner: string, x: Json)
    requires Serves(cfg, run, i, owner, x)
    ensures i < |run|
  {}

  /** The owner publishes y, somebody takes it, and the same once more. */
  function PublishTwice(owner: string, y: Json, env: Env): seq<Event> {
    var publish := Rpc(owner, "direct.e2ee.publish_prekey_bundle", "", Keys(Publish(None, Some([y]))), env);
    var get := Rpc(owner, "direct.e2ee.get_prekey_bundle", "", Keys(GetBundle(owner, true)), env);
    [publish, get, publish, get]
  }

  lemma QueueOfOne(owner: string, y: Json)
    ensures QueueAfter([], owner, owner, Publish(None, Some([y]))) == if owner != "" then [y] else []
    ensures QueueAfter([y], owner, owner, GetBundle(owner, true)) == []
  {
    assert [] + [y] == [y];
    WithoutShorter([y], y);
    assert |Without([y], y)| == 0 by {
      assert [y][..0] == [];
    }
  }

  /** An entry that is neither an object nor null is handed out as null both times. */
  lemma SameNullTwice(cfg: Config, owner: string, y: Json, env: Env)
    requires owner != "" && !y.Obj? && y != Null
    ensures var run := PublishTwice(owner, y, env);
            Serves(cfg, run, 1, owner, Null) && Serves(cfg, run, 3, owner, Null)
  {
    var run := PublishTwice(owner, y, env);
    NothingAtStart(cfg, run, owner);
    hide Step, At, QueueAt, Serves;
    QueueOfOne(owner, y);
    hide QueueAfter;
    QueueStepInRun(cfg, run, 0, owner);
    QueueStepInRun(cfg, run, 1, owner);
    QueueStepInRun(cfg, run, 2, owner);
    HeadIsServed(cfg, run, 1, owner);
    HeadIsServed(cfg, run, 3, owner);
  }

  lemma NothingAtStart(cfg: Config, run: seq<Event>, owner: string)
    ensures QueueAt(cfg, run, 0, owner) == []
  {}

  lemma HeadIsServed(cfg: Config, run: seq<Event>, i: nat, owner: string)
    requires i < |run| && RunsKeyCall(cfg, run, i) && run[i].call.keys == GetBundle(owner, true)
    requires QueueAt(cfg, run, i, owner) != []
    ensures Serves(cfg, run, i, owner, Served(QueueAt(cfg, run, i, owner)[0]))
  {
    KeyInvariant(cfg, run, i);
    var db, e := At(cfg, run, i), run[i];
    TableRefinesQueues(db.keys, e.caller, e.call.keys, e.env, owner);
    assert OwnerOk(db.keys, owner);
    assert Succeeded(cfg, run, i, PrekeyBundle(owner, db.keys.bundles[owner],
                                               Some(Served(QueueAt(cfg, run, i, owner)[0]))));
  }

  /** The entries counted as served are those the gets took, each handed out in that get's reply. */
  lemma ServedFlowIsHandedOut(cfg: Config, run: seq<Event>, i: nat, owner: string, x: Json)
    requires i < |run|
    ensures FlowAt(cfg, run, i, owner).served == multiset{x} <==> Takes(cfg, run, i, owner, x)
    ensures Takes(cfg, run, i, owner, x) ==> Serves(cfg, run, i, owner, Served(x))
    ensures |FlowAt(cfg, run, i, owner).served| <= 1
  {
    hide Step, At, Serves;
    var q := QueueAt(cfg, run, i, owner);
    if RunsKeyCall(cfg, run, i) && run[i].call.keys == GetBundle(owner, true) && q != [] {
      HeadIsServed(cfg, run, i, owner);
      ServesIsNoError(cfg, run, i, owner, Served(q[0]));
      assert multiset{q[0]} == multiset{x} <==> q[0] == x by {
        assert q[0] in multiset{q[0]};
      }
    } else {
      assert x in multiset{x};
    }
  }

  lemma ServesIsNoError(cfg: Config, run: seq<Event>, i: nat, owner: string, x: Json)
    requires Serves(cfg, run, i, owner, x)
    ensures i < |run| && !IsError(ReplyAt(cfg, run, i))
  {}
}
