/** One request at a time under the server's lock, with operation_id deduplication. */
module Dispatch {
  import opened Wrappers
  import opened Wire
  import opened Schema
  import G = Groups
  import P = Prekeys
  import A = Attachments

  datatype Db = Db(chat: ChatTables, keys: KeyTables, files: FileTables, idempotency: map<string, Response>)

  const EMPTY := Db(ChatTables(map[], map[], []), KeyTables(map[], []), FileTables(map[], map[], map[]), map[])

  /** A request for a modelled handler, or for one that touches no modelled table. */
  datatype Call =
    | Chat(chat: G.ChatCall)
    | Keys(keys: P.KeyCall)
    | Files(files: A.FileCall)
    | Unmodelled(outcome: Result<Json>)

  datatype Event =
    | Rpc(caller: string, method_: string, operationId: string, call: Call, env: Env)
    | Put(slotId: string, content: seq<byte>, now: nat)
    | Fetch(objectId: string, authorization: string, now: nat)

  datatype Reply =
    | RpcReply(result: Result<Response>)
    | PutReply(upload: A.UploadReply)
    | FetchReply(download: A.DownloadReply)

  datatype Out = Out(db: Db, reply: Reply)

  predicate IsError(r: Reply) {
    match r
    case RpcReply(result) => result.Err?
    case PutReply(upload) => upload.UploadRefused?
    case FetchReply(download) => download.DownloadRefused?
  }

  function IdempotencyKey(caller: string, method_: string, operationId: string): string {
    caller + "\0" + method_ + "\0" + operationId
  }

  function KeyOf(e: Event): string
    requires e.Rpc?
  {
    IdempotencyKey(e.caller, e.method_, e.operationId)
  }

  predicate Deduplicated(e: Event) {
    e.Rpc? && e.operationId != ""
  }

  /** The request is answered from the cache. */
  predicate Cached(db: Db, e: Event) {
    Deduplicated(e) && KeyOf(e) in db.idempotency
  }

  ghost function Execute(cfg: Config, db: Db, caller: string, call: Call, env: Env): (Db, Result<Response>) {
    match call
    case Chat(c) => var out := G.Handle(db.chat, caller, c, env); (db.(chat := out.tables), out.reply)
    case Keys(c) => var out := P.Handle(db.keys, caller, c, env); (db.(keys := out.tables), out.reply)
    case Files(c) => var out := A.Handle(cfg, db.files, caller, c, env); (db.(files := out.tables), out.reply)
    case Unmodelled(Ok(v)) => (db, Ok(Other(v)))
    case Unmodelled(Err(code)) => (db, Err(code))
  }

  ghost function Step(cfg: Config, db: Db, e: Event): Out {
    match e
    case Rpc(caller, _, operationId, call, env) =>
      if Cached(db, e) then Out(db, RpcReply(Ok(db.idempotency[KeyOf(e)])))
      else
        var (db', reply) := Execute(cfg, db, caller, call, env);
        if operationId != "" && reply.Ok?
        then Out(db'.(idempotency := db'.idempotency[KeyOf(e) := reply.value]), RpcReply(reply))
        else Out(db', RpcReply(reply))
    case Put(slotId, content, now) =>
      var (files, reply) := A.Upload(cfg, db.files, slotId, content, now);
      Out(db.(files := files), PutReply(reply))
    case Fetch(objectId, authorization, now) =>
      Out(db, FetchReply(A.Download(db.files, objectId, authorization, now)))
  }

  /** Each event drives at most one part of the tables, through its handler. */
  lemma StepParts(cfg: Config, db: Db, e: Event)
    ensures var u, ran := Step(cfg, db, e).db, e.Rpc? && !Cached(db, e);
            && u.chat == (if ran && e.call.Chat? then G.Handle(db.chat, e.caller, e.call.chat, e.env).tables
                          else db.chat)
            && u.keys == (if ran && e.call.Keys? then P.Handle(db.keys, e.caller, e.call.keys, e.env).tables
                          else db.keys)
            && u.files == (if ran && e.call.Files? then A.Handle(cfg, db.files, e.caller, e.call.files, e.env).tables
                           else if e.Put? then A.Upload(cfg, db.files, e.slotId, e.content, e.now).0 else db.files)
  {
    hide G.Handle, P.Handle, A.Handle, A.Upload, A.Download;
  }

  /** An executed request is answered by its handler, or by the outcome it brings from outside. */
  lemma StepReplies(cfg: Config, db: Db, e: Event)
    requires e.Rpc? && !Cached(db, e)
    ensures Step(cfg, db, e).reply == RpcReply(
              match e.call
              case Chat(c) => G.Handle(db.chat, e.caller, c, e.env).reply
              case Keys(c) => P.Handle(db.keys, e.caller, c, e.env).reply
              case Files(c) => A.Handle(cfg, db.files, e.caller, c, e.env).reply
              case Unmodelled(outcome) => if outcome.Ok? then Ok(Other(outcome.value)) else Err(outcome.code))
  {
    hide G.Handle, P.Handle, A.Handle;
  }

  // ---- runs ----

  /** The tables after the first n events of a run that starts empty. */
  ghost function At(cfg: Config, run: seq<Event>, n: nat): Db
    requires n <= |run|
  {
    if n == 0 then EMPTY else Step(cfg, At(cfg, run, n - 1), run[n - 1]).db
  }

  ghost function ReplyAt(cfg: Config, run: seq<Event>, i: nat): Reply
    requires i < |run|
  {
    Step(cfg, At(cfg, run, i), run[i]).reply
  }

  /** The i-th event ran its handler rather than being answered from the cache. */
  ghost predicate Executed(cfg: Config, run: seq<Event>, i: nat)
    requires i < |run|
  {
    !Cached(At(cfg, run, i), run[i])
  }

  ghost predicate Succeeded(cfg: Config, run: seq<Event>, i: nat, r: Response)
    requires i < |run|
  {
    ReplyAt(cfg, run, i) == RpcReply(Ok(r))
  }

  // ---- idempotency keys ----

  predicate NulFree(s: string) {
    forall i | 0 <= i < |s| :: s[i] != '\0'
  }

  /** A key gives back its triple against every other triple exactly when it holds no third NUL. */
  lemma KeyIsUniqueIff(caller: string, method_: string, op: string)
    ensures (forall c, m, o | IdempotencyKey(c, m, o) == IdempotencyKey(caller, method_, op) ::
               c == caller && m == method_ && o == op)
            <==> NulFree(caller) && NulFree(method_) && NulFree(op)
  {
    var key := IdempotencyKey(caller, method_, op);
    if NulFree(caller) && NulFree(method_) && NulFree(op) {
      forall c, m, o | IdempotencyKey(c, m, o) == key
        ensures c == caller && m == method_ && o == op
      {
        OnlyTwoNuls(caller, method_, op, c, m, o);
      }
    } else {
      var c, m, o := AnotherTriple(caller, method_, op);
    }
  }

  /** A third NUL lets another triple make the same key. */
  lemma AnotherTriple(caller: string, method_: string, op: string) returns (c: string, m: string, o: string)
    requires !(NulFree(caller) && NulFree(method_) && NulFree(op))
    ensures IdempotencyKey(c, m, o) == IdempotencyKey(caller, method_, op)
    ensures !(c == caller && m == method_ && o == op)
  {
    if !NulFree(caller) {
      var i := NulAt(caller);
      c, m, o := caller[..i], caller[i + 1..], method_ + "\0" + op;
    } else if !NulFree(method_) {
      var i := NulAt(method_);
      c, m, o := caller, method_[..i], method_[i + 1..] + "\0" + op;
    } else {
      var i := NulAt(op);
      c, m, o := caller, method_ + "\0" + op[..i], op[i + 1..];
    }
    assert IdempotencyKey(c, m, o) == IdempotencyKey(caller, method_, op);
  }

  lemma NulAt(s: string) returns (i: nat)
    requires !NulFree(s)
    ensures i < |s| && s == s[..i] + "\0" + s[i + 1..]
  {
    i :| i < |s| && s[i] == '\0';
  }

  lemma OnlyTwoNuls(caller: string, method_: string, op: string, c: string, m: string, o: string)
    requires NulFree(caller) && NulFree(method_) && NulFree(op)
    requires IdempotencyKey(c, m, o) == IdempotencyKey(caller, method_, op)
    ensures c == caller && m == method_ && o == op
  {
    var key := IdempotencyKey(caller, method_, op);
    var p, q := |caller|, |caller| + 1 + |method_|;
    KeyParts(caller, method_, op);
    KeyParts(c, m, o);
    NulsOfKey(caller, method_, op);
    assert key[|c|] == '\0' && key[|c| + 1 + |m|] == '\0';
  }

  lemma NulsOfKey(caller: string, method_: string, op: string)
    requires NulFree(caller) && NulFree(method_) && NulFree(op)
    ensures var key := IdempotencyKey(caller, method_, op);
            forall i | 0 <= i < |key| :: key[i] == '\0' ==> i == |caller| || i == |caller| + 1 + |method_|
  {}

  lemma KeyParts(caller: string, method_: string, op: string)
    ensures var key, p, q := IdempotencyKey(caller, method_, op), |caller|, |caller| + 1 + |method_|;
            && |key| == q + 1 + |op|
            && key[p] == '\0' && key[q] == '\0'
            && key[..p] == caller && key[p + 1..q] == method_ && key[q + 1..] == op
  {}

  /** For callers and methods without a NUL, any operation ids, equal keys mean equal triples. */
  lemma KeyIsInjective(caller: string, method_: string, op: string, c: string, m: string, o: string)
    requires NulFree(caller) && NulFree(c) && NulFree(method_) && NulFree(m)
    ensures IdempotencyKey(c, m, o) == IdempotencyKey(caller, method_, op) <==> c == caller && m == method_ && o == op
  {
    if IdempotencyKey(c, m, o) == IdempotencyKey(caller, method_, op) {
      assert IdempotencyKey(c, m, o) == c + "\0" + (m + "\0" + o);
      assert IdempotencyKey(caller, method_, op) == caller + "\0" + (method_ + "\0" + op);
      FirstNul(caller, c, method_ + "\0" + op, m + "\0" + o);
      FirstNul(method_, m, op, o);
    }
  }

  lemma FirstNul(a: string, b: string, x: string, y: string)
    requires NulFree(a) && NulFree(b)
    requires a + "\0" + x == b + "\0" + y
    ensures a == b && x == y
  {
    var s, t := a + "\0" + x, b + "\0" + y;
    assert s[|a|] == '\0' && t[|b|] == '\0';
    assert forall i | 0 <= i < |a| :: s[i] == a[i];
    assert forall i | 0 <= i < |b| :: t[i] == b[i];
    assert |a| == |b|;
    assert a == s[..|a|] == t[..|b|] == b;
    assert x == s[|a| + 1..] == t[|b| + 1..] == y;
  }

  // ---- exactly once ----

  ghost predicate SameRequest(e: Event, e': Event) {
    && Deduplicated(e) && Deduplicated(e')
    && e.caller == e'.caller && e.method_ == e'.method_ && e.operationId == e'.operationId
  }

  /** A step only adds to the cache, and only the answer of a request it executed. */
  lemma StepAndCache(cfg: Config, db: Db, e: Event)
    ensures var out := Step(cfg, db, e);
            && (Cached(db, e) ==> out == Out(db, RpcReply(Ok(db.idempotency[KeyOf(e)]))))
            && (!Cached(db, e) && Deduplicated(e) && !IsError(out.reply) ==>
                  out.db.idempotency == db.idempotency[KeyOf(e) := out.reply.result.value])
            && (!Deduplicated(e) || IsError(out.reply) ==> out.db.idempotency == db.idempotency)
            && (Deduplicated(e) ==> out.reply.RpcReply?)
  {}

  /** Once answered, a key's response stays in the cache. */
  lemma {:induction false} ResponseStays(cfg: Config, run: seq<Event>, i: nat, n: nat, r: Response)
    requires i < n <= |run| && Deduplicated(run[i]) && Succeeded(cfg, run, i, r)
    ensures var cache := At(cfg, run, n).idempotency; KeyOf(run[i]) in cache && cache[KeyOf(run[i])] == r
  {
    hide Step;
    StepAndCache(cfg, At(cfg, run, n - 1), run[n - 1]);
    if i < n - 1 {
      ResponseStays(cfg, run, i, n - 1, r);
    }
  }

  /** After a success, every later request with the same caller, method and operation id returns the
      same response and changes nothing. */
  lemma RetryReturnsFirstResponse(cfg: Config, run: seq<Event>, i: nat, j: nat, r: Response)
    requires i < j < |run| && SameRequest(run[i], run[j]) && Succeeded(cfg, run, i, r)
    ensures Succeeded(cfg, run, j, r)
    ensures At(cfg, run, j + 1) == At(cfg, run, j)
  {
    ResponseStays(cfg, run, i, j, r);
  }

  /** Every cached response was the answer to an executed request with that key. */
  lemma {:induction false} CacheProvenance(cfg: Config, run: seq<Event>, n: nat, key: string) returns (i: nat)
    requires n <= |run| && key in At(cfg, run, n).idempotency
    ensures i < n && Deduplicated(run[i]) && KeyOf(run[i]) == key && Executed(cfg, run, i)
    ensures Succeeded(cfg, run, i, At(cfg, run, n).idempotency[key])
  {
    hide Step;
    var before := At(cfg, run, n - 1);
    StepAndCache(cfg, before, run[n - 1]);
    if key in before.idempotency && At(cfg, run, n).idempotency[key] == before.idempotency[key] {
      i := CacheProvenance(cfg, run, n - 1, key);
    } else {
      i := n - 1;
    }
  }

  /** An earlier request with the same caller, method and operation id ran its handler and succeeded. */
  ghost predicate IsRetry(cfg: Config, run: seq<Event>, j: nat)
    requires j < |run|
  {
    exists i, r :: 0 <= i < j && SameRequest(run[i], run[j]) && Executed(cfg, run, i) && Succeeded(cfg, run, i, r)
  }

  /** Every successful answer is the answer of an executed request, this one or an earlier one. */
  lemma AnswerOrigin(cfg: Config, run: seq<Event>, i: nat, r: Response) returns (k: nat)
    requires i < |run| && Succeeded(cfg, run, i, r)
    ensures k <= i && run[k].Rpc? && Executed(cfg, run, k) && Succeeded(cfg, run, k, r)
  {
    if Executed(cfg, run, i) {
      k := i;
    } else {
      k := CacheProvenance(cfg, run, i, KeyOf(run[i]));
    }
  }

  /** The first n events without those answered from the cache. */
  ghost function Stripped(cfg: Config, run: seq<Event>, n: nat): seq<Event>
    requires n <= |run|
  {
    if n == 0 then []
    else Stripped(cfg, run, n - 1) + if Executed(cfg, run, n - 1) then [run[n - 1]] else []
  }

  lemma {:induction false} AtDependsOnPrefix(cfg: Config, run: seq<Event>, longer: seq<Event>, n: nat)
    requires run <= longer && n <= |run|
    ensures At(cfg, run, n) == At(cfg, longer, n)
  {
    if n > 0 {
      AtDependsOnPrefix(cfg, run, longer, n - 1);
    }
  }

  lemma {:induction false} StrippedGrows(cfg: Config, run: seq<Event>, m: nat, n: nat)
    requires m <= n <= |run|
    ensures Stripped(cfg, run, m) <= Stripped(cfg, run, n)
  {
    hide Step, At, Executed;
    if m < n {
      StrippedGrows(cfg, run, m, n - 1);
    }
  }

  lemma {:induction false} StrippedReachesSameTables(cfg: Config, run: seq<Event>, n: nat)
    requires n <= |run|
    ensures var kept := Stripped(cfg, run, n); At(cfg, kept, |kept|) == At(cfg, run, n)
  {
    hide Step;
    if n > 0 {
      hide At, Stripped;
      StrippedReachesSameTables(cfg, run, n - 1);
      StrippedStep(cfg, run, n - 1);
    }
  }

  /** One more event takes the stripped run and the full run from equal tables to equal tables. */
  lemma StrippedStep(cfg: Config, run: seq<Event>, n: nat)
    requires n < |run|
    requires var kept := Stripped(cfg, run, n); At(cfg, kept, |kept|) == At(cfg, run, n)
    ensures var kept := Stripped(cfg, run, n + 1); At(cfg, kept, |kept|) == At(cfg, run, n + 1)
  {
    hide Step;
    var before, kept := Stripped(cfg, run, n), Stripped(cfg, run, n + 1);
    if Executed(cfg, run, n) {
      assert kept == before + [run[n]];
      AtDependsOnPrefix(cfg, before, kept, |before|);
    } else {
      assert kept == before;
      StepAndCache(cfg, At(cfg, run, n), run[n]);
    }
  }

  /** Deleting the cached retries from a run changes neither the final tables nor any other answer. */
  lemma RetriesCanBeDeleted(cfg: Config, run: seq<Event>, i: nat)
    requires i < |run| && Executed(cfg, run, i)
    ensures var kept, at := Stripped(cfg, run, |run|), |Stripped(cfg, run, i)|;
            && At(cfg, kept, |kept|) == At(cfg, run, |run|)
            && at < |kept| && kept[at] == run[i]
            && ReplyAt(cfg, kept, at) == ReplyAt(cfg, run, i)
  {
    StrippedReachesSameTables(cfg, run, |run|);
    StrippedReachesSameTables(cfg, run, i);
    StrippedGrows(cfg, run, i + 1, |run|);
    var kept, before := Stripped(cfg, run, |run|), Stripped(cfg, run, i);
    StrippedGrows(cfg, run, i, |run|);
    AtDependsOnPrefix(cfg, before, kept, |before|);
    assert Stripped(cfg, run, i + 1) == before + [run[i]];
    assert kept[|before|] == Stripped(cfg, run, i + 1)[|before|];
  }
}
