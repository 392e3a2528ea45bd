/** Prekey bundles over whole runs: whose they are, and which one a get answers with. */
module BundleRuns {
  import opened Wrappers
  import opened Wire
  import opened Schema
  import opened Envelope
  import opened Prekeys
  import opened Dispatch
  import opened KeyRuns

  /** Event k is an executed publish for the owner: the authenticated caller, or else the bundle's owner_did. */
  ghost predicate PublishesFor(cfg: Config, run: seq<Event>, k: nat, owner: string) {
    && k < |run| && RunsKeyCall(cfg, run, k) && run[k].call.keys.Publish? && owner != ""
    && var c := run[k].call.keys;
       owner == if run[k].caller != "" then run[k].caller
                else if c.bundle.Some? then TextAt(c.bundle.value, ["owner_did"]) else ""
  }

  /** The bundle of a publish; null when it has none. */
  function BundleOf(c: KeyCall): Json
    requires c.Publish?
  {
    if c.bundle.Some? then Obj(c.bundle.value) else Null
  }

  lemma OwnerIs(caller: string, bundle: Option<Fields>)
    ensures Owner(caller, bundle) ==
            if caller != "" then caller else if bundle.Some? then TextAt(bundle.value, ["owner_did"]) else ""
  {
    if bundle.Some? {
      OneStep(Obj(bundle.value), "owner_did");
    }
  }

  /** A publish succeeds iff there is an owner, and acknowledges it with the bundle's id. */
  lemma PublishOutcome(cfg: Config, run: seq<Event>, k: nat)
    requires k < |run| && RunsKeyCall(cfg, run, k) && run[k].call.keys.Publish?
    ensures var c := run[k].call.keys;
            var owner := if run[k].caller != "" then run[k].caller
                         else if c.bundle.Some? then TextAt(c.bundle.value, ["owner_did"]) else "";
            var id := if c.bundle.Some? then TextAt(c.bundle.value, ["bundle_id"]) else "";
            ReplyAt(cfg, run, k) ==
              RpcReply(if owner == "" then Err(-32000)
                       else Ok(PrekeysPublished(owner, id, run[k].env.now / 1_000_000_000)))
  {
    hide At, TextAt;
    var c := run[k].call.keys;
    OwnerIs(run[k].caller, c.bundle);
    if c.bundle.Some? {
      IdIs(c.bundle.value);
    }
  }

  lemma IdIs(bundle: Fields)
    ensures StringAt(bundle, "bundle_id") == TextAt(bundle, ["bundle_id"])
  {
    OneStep(Obj(bundle), "bundle_id");
  }

  lemma BundleStep(cfg: Config, run: seq<Event>, n: nat, owner: string)
    requires n < |run|
    ensures var t, u := At(cfg, run, n).keys.bundles, At(cfg, run, n + 1).keys.bundles;
            if PublishesFor(cfg, run, n, owner)
            then owner in u && u[owner] == BundleOf(run[n].call.keys)
            else (owner in u <==> owner in t) && (owner in t ==> u[owner] == t[owner])
  {
    StepParts(cfg, At(cfg, run, n), run[n]);
    if RunsKeyCall(cfg, run, n) && run[n].call.keys.Publish? {
      OwnerIs(run[n].caller, run[n].call.keys.bundle);
    }
    hide Step, TextAt;
  }

  /** The stored bundle of an owner is that of its latest executed publish; there is one iff there was one. */
  lemma {:induction false} StoredIsLatest(cfg: Config, run: seq<Event>, n: nat, owner: string)
    requires n <= |run|
    ensures var t := At(cfg, run, n).keys.bundles;
            && (owner in t <==> exists k :: 0 <= k < n && PublishesFor(cfg, run, k, owner))
            && (forall k | 0 <= k < n && IsLatest(cfg, run, k, n, owner) ::
                  owner in t && t[owner] == BundleOf(run[k].call.keys))
  {
    hide Step, PublishesFor;
    if n > 0 {
      StoredIsLatest(cfg, run, n - 1, owner);
      BundleStep(cfg, run, n - 1, owner);
      forall k | 0 <= k < n && IsLatest(cfg, run, k, n, owner)
        ensures owner in At(cfg, run, n).keys.bundles
        ensures At(cfg, run, n).keys.bundles[owner] == BundleOf(run[k].call.keys)
      {
        if k < n - 1 {
          assert IsLatest(cfg, run, k, n - 1, owner);
        }
      }
    }
  }

  /** Event k publishes for the owner, and none between it and n does. */
  ghost predicate IsLatest(cfg: Config, run: seq<Event>, k: nat, n: nat, owner: string) {
    && PublishesFor(cfg, run, k, owner) && run[k].Rpc? && run[k].call.Keys? && run[k].call.keys.Publish?
    && forall l | k < l < n :: !PublishesFor(cfg, run, l, owner)
  }

  lemma {:induction false} SomeIsLatest(cfg: Config, run: seq<Event>, k: nat, n: nat, owner: string) returns (l: nat)
    requires k < n <= |run| && PublishesFor(cfg, run, k, owner)
    ensures k <= l < n && IsLatest(cfg, run, l, n, owner)
  {
    if PublishesFor(cfg, run, n - 1, owner) {
      l := n - 1;
    } else {
      l := SomeIsLatest(cfg, run, k, n - 1, owner);
    }
  }

  /** An executed get is not found iff nobody published for its target before; it is refused for want of a
      one-time prekey iff it asks for one and the queue is empty. */
  lemma GetFindsPublished(cfg: Config, run: seq<Event>, i: nat)
    requires i < |run| && RunsKeyCall(cfg, run, i) && run[i].call.keys.GetBundle?
    ensures var c, reply := run[i].call.keys, ReplyAt(cfg, run, i);
            var published := exists k :: 0 <= k < i && PublishesFor(cfg, run, k, c.target);
            && (reply == RpcReply(Err(-32002)) <==> !published)
            && (reply == RpcReply(Err(-32003)) <==> published && c.requireOpk && QueueAt(cfg, run, i, c.target) == [])
            && (!IsError(reply) <==> published && (c.requireOpk ==> QueueAt(cfg, run, i, c.target) != []))
  {
    StoredIsLatest(cfg, run, i, run[i].call.keys.target);
    GetReads(cfg, run, i);
    hide Step, At, PublishesFor;
  }

  lemma GetReads(cfg: Config, run: seq<Event>, i: nat)
    requires i < |run| && RunsKeyCall(cfg, run, i) && run[i].call.keys.GetBundle?
    ensures var t, c := At(cfg, run, i).keys, run[i].call.keys;
            ReplyAt(cfg, run, i) == RpcReply(
              if c.target !in t.bundles then Err(-32002)
              else if !c.requireOpk then Ok(PrekeyBundle(c.target, t.bundles[c.target], None))
              else if QueueAt(cfg, run, i, c.target) == [] then Err(-32003)
              else var head := QueueAt(cfg, run, i, c.target)[0];
                   Ok(PrekeyBundle(c.target, t.bundles[c.target], Some(if head.Obj? then head else Null))))
  {
    KeyInvariant(cfg, run, i);
    hide At;
    var db, e := At(cfg, run, i), run[i];
    TableRefinesQueues(db.keys, e.caller, e.call.keys, e.env, "");
  }

  /** A successful get, with or without a one-time prekey, answers with the bundle of the target's latest
      executed publish. */
  lemma GetAnswersLatestBundle(cfg: Config, run: seq<Event>, i: nat, r: Response) returns (k: nat)
    requires i < |run| && RunsKeyCall(cfg, run, i) && run[i].call.keys.GetBundle? && Succeeded(cfg, run, i, r)
    ensures k < i && IsLatest(cfg, run, k, i, run[i].call.keys.target)
    ensures r.PrekeyBundle? && r.target == run[i].call.keys.target && r.bundle == BundleOf(run[k].call.keys)
    ensures var q := QueueAt(cfg, run, i, run[i].call.keys.target);
            if run[i].call.keys.requireOpk then q != [] && r.prekey == Some(if q[0].Obj? then q[0] else Null)
            else r.prekey == None
  {
    hide Step, At, PublishesFor;
    var owner := run[i].call.keys.target;
    StoredIsLatest(cfg, run, i, owner);
    GetReads(cfg, run, i);
    var first :| 0 <= first < i && PublishesFor(cfg, run, first, owner);
    k := SomeIsLatest(cfg, run, first, i, owner);
  }

  /** An executed publish of one-time prekeys appends them to its owner's queue, of which the newest hundred
      stay, and leaves every other queue alone. */
  lemma PublishFillsQueue(cfg: Config, run: seq<Event>, k: nat, owner: string, other: string)
    requires PublishesFor(cfg, run, k, owner) && run[k].call.keys.prekeys.Some? && other != owner
    ensures var all := QueueAt(cfg, run, k, owner) + run[k].call.keys.prekeys.value;
            QueueAt(cfg, run, k + 1, owner) == if |all| <= 100 then all else all[|all| - 100..]
    ensures QueueAt(cfg, run, k + 1, other) == QueueAt(cfg, run, k, other)
  {
    hide Step, At, TextAt;
    OwnerIs(run[k].caller, run[k].call.keys.bundle);
    QueueStepInRun(cfg, run, k, owner);
    QueueStepInRun(cfg, run, k, other);
  }
}
