/** Which requests the cache answers, in runs whose calls come from params by method name. */
module Retries {
  import opened Wrappers
  import opened Wire
  import opened Schema
  import opened Dispatch
  import opened Requests
  import opened Strings

  const REGISTER := "did.register_document"

  /** The call and the operation id are what the method name makes of some params. The caller of a
      registration is the did in its params; any other caller is read from a header, which holds no NUL. */
  ghost predicate FromParams(e: Event, p: Fields, outside: Result<Json>)
    requires e.Rpc?
  {
    && e.call == ParseCall(e.method_, p, outside)
    && e.operationId == OperationIdFromParams(p)
    && (if e.method_ == REGISTER then e.caller == StringAt(p, "did") else NulFree(e.caller))
  }

  ghost predicate Routed(e: Event) {
    e.Rpc? ==> exists p, outside :: FromParams(e, p, outside)
  }

  ghost predicate RoutedRun(run: seq<Event>) {
    forall e | e in run :: Routed(e)
  }

  lemma MessageNamesAreNulFree(name: string)
    requires name in ["msg.inbox", "direct.send", "group.send", "group.e2ee.send", "group.e2ee.notice", "group.create",
                      "group.get_info"]
    ensures NulFree(name)
  {}

  lemma MemberNamesAreNulFree(name: string)
    requires name in ["group.join", "group.add", "group.remove", "group.leave", "group.update_profile",
                      "group.update_policy", "group.rebind_member"]
    ensures NulFree(name)
  {}

  lemma KeyNamesAreNulFree(name: string)
    requires name in ["direct.e2ee.publish_prekey_bundle", "direct.e2ee.get_prekey_bundle"]
    ensures NulFree(name)
  {}

  lemma FileNamesAreNulFree(name: string)
    requires name in ["attachment.create_slot", "attachment.commit_object", "attachment.abort_object",
                      "attachment.get_download_ticket"]
    ensures NulFree(name)
  {}

  lemma OutsideNamesAreNulFree(name: string)
    requires name in OUTSIDE
    ensures NulFree(name)
  {}

  lemma PlaceholderNamesAreNulFree(name: string)
    requires name in ["direct.incoming", "group.incoming", "group.state_changed"]
    ensures NulFree(name)
  {}

  /** No name the routing knows holds a NUL. */
  lemma RoutedNamesAreNulFree(name: string, p: Fields, outside: Result<Json>)
    requires ParseCall(name, p, outside) != Unmodelled(Err(UNKNOWN_METHOD))
    ensures NulFree(name)
  {
    hide NulFree, OUTSIDE, ParseChat;
    if ParseChat(name, p).Some? {
      ChatNamesAreNulFree(name, p);
    } else if ParseKeys(name, p).Some? {
      KeyNamesAreNulFree(name);
    } else if ParseFiles(name, p).Some? {
      FileNamesAreNulFree(name);
    } else if name in OUTSIDE {
      OutsideNamesAreNulFree(name);
    } else {
      PlaceholderNamesAreNulFree(name);
    }
  }

  lemma ChatNamesAreNulFree(name: string, p: Fields)
    requires ParseChat(name, p).Some?
    ensures NulFree(name)
  {
    hide NulFree, InboxCall, SendDirectCall, CreateCall, GetInfoCall, JoinCall, AddCall, RemoveCall, LeaveCall;
    hide UpdateProfileCall, UpdatePolicyCall, SendPlainCall, RebindCall, SendCipherCall, SendNoticeCall;
    if name in ["group.join", "group.add", "group.remove", "group.leave", "group.update_profile", "group.update_policy",
                "group.rebind_member"] {
      MemberNamesAreNulFree(name);
    } else {
      MessageNamesAreNulFree(name);
    }
  }

  /** A request that succeeds when executed has a method the server knows, and no known name holds a NUL. */
  lemma SuccessIsNulFree(cfg: Config, run: seq<Event>, i: nat, r: Response)
    requires i < |run| && RoutedRun(run) && run[i].Rpc? && Executed(cfg, run, i) && Succeeded(cfg, run, i, r)
    ensures NulFree(run[i].method_)
    ensures NulFree(run[i].caller) || run[i].method_ == REGISTER
  {
    hide ParseCall, OperationIdFromParams, StringAt;
    assert Routed(run[i]);
    var p, outside :| FromParams(run[i], p, outside);
    RoutedNamesAreNulFree(run[i].method_, p, outside);
  }

  // ---- hits and retries ----

  lemma RetryIsCached(cfg: Config, run: seq<Event>, j: nat)
    requires j < |run| && IsRetry(cfg, run, j)
    ensures Cached(At(cfg, run, j), run[j])
  {
    hide Step, At;
    var i, r :| 0 <= i < j && SameRequest(run[i], run[j]) && Executed(cfg, run, i) && Succeeded(cfg, run, i, r);
    ResponseStays(cfg, run, i, j, r);
  }

  /** In every run, whatever else it holds, a request without a NUL in its caller, method and operation id
      is answered from the cache exactly when an earlier executed one with its triple succeeded. */
  lemma NulFreeCachedIffRetry(cfg: Config, run: seq<Event>, j: nat)
    requires j < |run| && run[j].Rpc?
    requires NulFree(run[j].caller) && NulFree(run[j].method_) && NulFree(run[j].operationId)
    ensures Cached(At(cfg, run, j), run[j]) <==> IsRetry(cfg, run, j)
  {
    hide Step, At;
    if Cached(At(cfg, run, j), run[j]) {
      var i := CacheProvenance(cfg, run, j, KeyOf(run[j]));
      KeyIsUniqueIff(run[j].caller, run[j].method_, run[j].operationId);
      assert SameRequest(run[i], run[j]);
    }
    if IsRetry(cfg, run, j) {
      RetryIsCached(cfg, run, j);
    }
  }

  /** At a the operation id reads as the end of a registration's key: the method, a NUL and some id. */
  predicate RegistrationAt(op: string, a: nat) {
    && a <= |op| && (a == 0 || op[a - 1] == '\0')
    && HasPrefix(op[a..], REGISTER + "\0") && |op| > a + |REGISTER| + 1
  }

  predicate HidesRegistration(op: string) {
    exists a | 0 <= a <= |op| :: RegistrationAt(op, a)
  }

  /** Event j is a request with this triple. */
  ghost predicate IsRequest(run: seq<Event>, j: nat, caller: string, method_: string, op: string) {
    j < |run| && run[j].Rpc? && run[j].caller == caller && run[j].method_ == method_ && run[j].operationId == op
  }

  /** The exact condition for an arbitrary operation id: requests with this triple are answered from the
      cache only as retries, in every run, iff the id does not hide a registration. Only the did of a
      registration can put a NUL in a caller. */
  lemma CachedIffRetry(cfg: Config, caller: string, method_: string, op: string)
    requires NulFree(caller) && NulFree(method_)
    ensures (forall run, j | RoutedRun(run) && IsRequest(run, j, caller, method_, op) ::
               Cached(At(cfg, run, j), run[j]) <==> IsRetry(cfg, run, j))
            <==> !HidesRegistration(op)
  {
    hide Step, At, RoutedRun, IsRetry, Cached;
    if !HidesRegistration(op) {
      forall run, j | RoutedRun(run) && IsRequest(run, j, caller, method_, op)
        ensures Cached(At(cfg, run, j), run[j]) <==> IsRetry(cfg, run, j)
      {
        HitIsRetry(cfg, run, j);
      }
    } else {
      var a :| RegistrationAt(op, a);
      var env: Env :| true;
      var run := RegistrationFirst(caller, method_, op, a, env);
      RegistrationAnswers(cfg, caller, method_, op, a, env);
      assert IsRequest(run, 1, caller, method_, op);
    }
  }

  lemma HitIsRetry(cfg: Config, run: seq<Event>, j: nat)
    requires j < |run| && RoutedRun(run) && run[j].Rpc? && NulFree(run[j].caller) && NulFree(run[j].method_)
    requires !HidesRegistration(run[j].operationId)
    ensures Cached(At(cfg, run, j), run[j]) <==> IsRetry(cfg, run, j)
  {
    hide Step, At, RoutedRun, HidesRegistration, NulFree;
    if Cached(At(cfg, run, j), run[j]) {
      var e := run[j];
      var i := CacheProvenance(cfg, run, j, KeyOf(e));
      SuccessIsNulFree(cfg, run, i, At(cfg, run, j).idempotency[KeyOf(e)]);
      if NulFree(run[i].caller) {
        KeyIsInjective(run[i].caller, run[i].method_, run[i].operationId, e.caller, e.method_, e.operationId);
        assert SameRequest(run[i], run[j]);
      } else {
        HiddenInOperationId(run[i].caller, run[i].operationId, e.caller, e.method_, e.operationId);
      }
    }
    if IsRetry(cfg, run, j) {
      RetryIsCached(cfg, run, j);
    }
  }

  /** A key shared with a registration whose did holds a NUL has that registration hidden in its operation id. */
  lemma HiddenInOperationId(did: string, registered: string, caller: string, method_: string, op: string)
    requires !NulFree(did) && registered != "" && NulFree(caller) && NulFree(method_)
    requires IdempotencyKey(did, REGISTER, registered) == IdempotencyKey(caller, method_, op)
    ensures HidesRegistration(op)
  {
    hide NulFree, RegistrationAt;
    var end := REGISTER + "\0" + registered;
    var first, rest := SplitAtNul(did);
    Regroup(first, rest, end);
    assert IdempotencyKey(did, REGISTER, registered) == did + "\0" + end;
    assert IdempotencyKey(caller, method_, op) == caller + "\0" + (method_ + "\0" + op);
    FirstNul(first, caller, rest + "\0" + end, method_ + "\0" + op);
    if NulFree(rest) {
      FirstNul(rest, method_, end, op);
      EndReads("", registered);
      assert "" + end == op;
    } else {
      var second, third := SplitAtNul(rest);
      Regroup(second, third, end);
      FirstNul(second, method_, third + "\0" + end, op);
      EndReads(third + "\0", registered);
    }
  }

  lemma Regroup(a: string, b: string, c: string)
    ensures a + "\0" + b + "\0" + c == a + "\0" + (b + "\0" + c)
  {}

  lemma EndReads(front: string, registered: string)
    requires front == "" || front[|front| - 1] == '\0'
    requires registered != ""
    ensures RegistrationAt(front + (REGISTER + "\0" + registered), |front|)
  {
    var end := REGISTER + "\0" + registered;
    assert (front + end)[|front|..] == end;
    assert end[..|REGISTER| + 1] == REGISTER + "\0";
  }

  lemma {:induction false} SplitAtNul(s: string) returns (first: string, rest: string)
    requires !NulFree(s)
    ensures s == first + "\0" + rest && NulFree(first)
  {
    if s[0] == '\0' {
      first, rest := "", s[1..];
    } else {
      assert !NulFree(s[1..]) by {
        var i :| 0 <= i < |s| && s[i] == '\0';
        assert s[1..][i - 1] == '\0';
      }
      first, rest := SplitAtNul(s[1..]);
      first := [s[0]] + first;
    }
  }

  /** A request for a method with a NUL in its name is never a retry: whatever the cache answers is wrong. */
  lemma NulMethodIsNoRetry(cfg: Config, run: seq<Event>, j: nat)
    requires j < |run| && RoutedRun(run) && run[j].Rpc? && !NulFree(run[j].method_)
    ensures !IsRetry(cfg, run, j)
  {
    hide Step, At, RoutedRun, NulFree;
    if IsRetry(cfg, run, j) {
      var i, r :| 0 <= i < j && SameRequest(run[i], run[j]) && Executed(cfg, run, i) && Succeeded(cfg, run, i, r);
      SuccessIsNulFree(cfg, run, i, r);
    }
  }

  // ---- the requests answered wrongly ----

  const KNOWN := "direct.incoming"
  const UNKNOWN := "direct.incoming\0a"

  /** A known method with operation id "a NUL b", then an unknown one, its name and a joined by a NUL, with b. */
  function TwoRequests(caller: string, env: Env): seq<Event> {
    var p, q: Fields := map["operation_id" := Str("a\0b")], map["operation_id" := Str("b")];
    [Rpc(caller, KNOWN, OperationIdFromParams(p), ParseCall(KNOWN, p, Err(INTERNAL)), env),
     Rpc(caller, UNKNOWN, OperationIdFromParams(q), ParseCall(UNKNOWN, q, Err(INTERNAL)), env)]
  }

  /** The unknown method is answered with the known one's response although nothing ran under its name. */
  lemma UnknownMethodIsAnswered(cfg: Config, caller: string, env: Env)
    requires NulFree(caller)
    ensures var run := TwoRequests(caller, env);
            && RoutedRun(run) && run[1].call == Unmodelled(Err(UNKNOWN_METHOD))
            && Succeeded(cfg, run, 1, Other(ACCEPTED)) && !IsRetry(cfg, run, 1)
  {
    hide Step, At, ParseChat, ParseKeys, ParseFiles, Succeeded, StringAt;
    var run := TwoRequests(caller, env);
    var p, q: Fields := map["operation_id" := Str("a\0b")], map["operation_id" := Str("b")];
    TwoCalls(caller, env);
    hide ParseCall, OperationIdFromParams;
    assert FromParams(run[0], p, Err(INTERNAL)) && FromParams(run[1], q, Err(INTERNAL));
    FirstIsCached(cfg, run, ACCEPTED);
    assert run[0].method_ != run[1].method_;
  }

  lemma TwoCalls(caller: string, env: Env)
    ensures var run := TwoRequests(caller, env);
            && run[0].operationId == "a\0b" && run[1].operationId == "b" && KeyOf(run[0]) == KeyOf(run[1])
            && run[0].call == Unmodelled(Ok(ACCEPTED)) && run[1].call == Unmodelled(Err(UNKNOWN_METHOD))
  {
    var run := TwoRequests(caller, env);
    var q: Fields := map["operation_id" := Str("b")];
    assert !NulFree(UNKNOWN) by {
      assert UNKNOWN[15] == '\0';
    }
    assert run[1].call == Unmodelled(Err(UNKNOWN_METHOD)) by {
      if ParseCall(UNKNOWN, q, Err(INTERNAL)) != Unmodelled(Err(UNKNOWN_METHOD)) {
        RoutedNamesAreNulFree(UNKNOWN, q, Err(INTERNAL));
      }
    }
    assert KeyOf(run[0]) == KeyOf(run[1]) by {
      assert caller + "\0" + KNOWN + "\0" + "a\0b" == caller + "\0" + UNKNOWN + "\0" + "b";
    }
  }

  /** The second of two requests with one key is answered with the first one's response and changes nothing. */
  lemma FirstIsCached(cfg: Config, run: seq<Event>, v: Json)
    requires |run| == 2 && Deduplicated(run[0]) && Deduplicated(run[1]) && KeyOf(run[0]) == KeyOf(run[1])
    requires run[0].call == Unmodelled(Ok(v))
    ensures Cached(At(cfg, run, 1), run[1]) && Succeeded(cfg, run, 1, Other(v)) && At(cfg, run, 2) == At(cfg, run, 1)
  {
    assert At(cfg, run, 0) == EMPTY;
    assert Succeeded(cfg, run, 0, Other(v));
    ResponseStays(cfg, run, 0, 1, Other(v));
  }

  /** The did of a registration whose key, with the end of the operation id, is that of the other request. */
  function CollidingDid(caller: string, method_: string, op: string, a: nat): string
    requires a <= |op|
  {
    caller + "\0" + method_ + if a == 0 then "" else "\0" + op[..a - 1]
  }

  function Registered(did: string): Json {
    Obj(map["did" := Str(did), "status" := Str("registered")])
  }

  function ParamsOf(did: string, op: string): Fields {
    map["did" := Str(did), "operation_id" := Str(op)]
  }

  lemma ParamsAreRead(did: string, op: string)
    ensures StringAt(ParamsOf(did, op), "did") == did && OperationIdFromParams(ParamsOf(did, op)) == op
  {}

  /** A registration of the colliding did, then the request itself. */
  function RegistrationFirst(caller: string, method_: string, op: string, a: nat, env: Env): seq<Event>
    requires RegistrationAt(op, a)
  {
    var did := CollidingDid(caller, method_, op, a);
    var p, q := ParamsOf(did, op[a + |REGISTER| + 1..]), ParamsOf(caller, op);
    [Rpc(did, REGISTER, op[a + |REGISTER| + 1..], ParseCall(REGISTER, p, Ok(Registered(did))), env),
     Rpc(caller, method_, op, ParseCall(method_, q, Ok(Registered(did))), env)]
  }

  /** The request gets the registration's answer and never runs. */
  lemma RegistrationAnswers(cfg: Config, caller: string, method_: string, op: string, a: nat, env: Env)
    requires NulFree(caller) && NulFree(method_) && RegistrationAt(op, a)
    ensures var run := RegistrationFirst(caller, method_, op, a, env);
            && RoutedRun(run) && Cached(At(cfg, run, 1), run[1]) && !IsRetry(cfg, run, 1)
            && Succeeded(cfg, run, 1, Other(Registered(CollidingDid(caller, method_, op, a))))
            && At(cfg, run, 2) == At(cfg, run, 1)
  {
    hide Step, At, Succeeded, Cached;
    var run, did := RegistrationFirst(caller, method_, op, a, env), CollidingDid(caller, method_, op, a);
    RegistrationIsRouted(caller, method_, op, a, env);
    SameKey(caller, method_, op, a);
    hide ParseCall, RoutedRun;
    FirstIsCached(cfg, run, Registered(did));
    assert did[|caller|] == '\0' && !NulFree(did);
    assert run[0].caller != run[1].caller;
  }

  lemma SameKey(caller: string, method_: string, op: string, a: nat)
    requires RegistrationAt(op, a)
    ensures IdempotencyKey(CollidingDid(caller, method_, op, a), REGISTER, op[a + |REGISTER| + 1..])
            == IdempotencyKey(caller, method_, op)
  {
    var end := op[a + |REGISTER| + 1..];
    assert op == op[..a] + (REGISTER + "\0" + end) by {
      assert op[a..] == op[a..][..|REGISTER| + 1] + end;
    }
    if a > 0 {
      assert op[..a] == op[..a - 1] + "\0";
    }
  }

  lemma RegistrationIsRouted(caller: string, method_: string, op: string, a: nat, env: Env)
    requires NulFree(caller) && RegistrationAt(op, a)
    ensures var run, did := RegistrationFirst(caller, method_, op, a, env), CollidingDid(caller, method_, op, a);
            RoutedRun(run) && run[0].call == Unmodelled(Ok(Registered(did)))
  {
    var run, did := RegistrationFirst(caller, method_, op, a, env), CollidingDid(caller, method_, op, a);
    var end := op[a + |REGISTER| + 1..];
    var p, q := ParamsOf(did, end), ParamsOf(caller, op);
    hide ParseCall, OperationIdFromParams, StringAt, ParamsOf, CollidingDid, RegistrationAt;
    ParamsAreRead(did, end);
    ParamsAreRead(caller, op);
    RegisterIsOutside(p, Ok(Registered(did)));
    assert FromParams(run[0], p, Ok(Registered(did)));
    assert FromParams(run[1], q, Ok(Registered(did)));
  }

  lemma RegisterIsOutside(p: Fields, outside: Result<Json>)
    ensures ParseCall(REGISTER, p, outside) == Unmodelled(outside)
  {}

  lemma LeaveIsRouted(p: Fields, outside: Result<Json>)
    ensures var call := ParseCall("group.leave", p, outside); call.Chat? && call.chat.Leave?
  {}

  /** For example: an unsigned registration of "V NUL group.leave", then V's own group.leave, which does not run. */
  lemma LeaveIsAnsweredAsRegistration(cfg: Config, did: string, env: Env)
    requires NulFree(did)
    ensures var op := REGISTER + "\0x";
            && RegistrationAt(op, 0)
            && var run := RegistrationFirst(did, "group.leave", op, 0, env);
               && RoutedRun(run) && run[0].caller == did + "\0group.leave" && run[1].caller == did
               && run[1].call.Chat? && run[1].call.chat.Leave? && !IsRetry(cfg, run, 1)
               && Succeeded(cfg, run, 1, Other(Registered(run[0].caller))) && At(cfg, run, 2) == At(cfg, run, 1)
  {
    hide Step, At, Succeeded, RoutedRun, IsRetry, IdempotencyKey, Cached, OperationIdFromParams, ParseCall;
    EndReads("", "x");
    var op := REGISTER + "\0x";
    assert op == "" + (REGISTER + "\0" + "x");
    MemberNamesAreNulFree("group.leave");
    LeaveIsRouted(ParamsOf(did, op), Ok(Registered(CollidingDid(did, "group.leave", op, 0))));
    RegistrationAnswers(cfg, did, "group.leave", op, 0, env);
    assert CollidingDid(did, "group.leave", op, 0) == did + "\0group.leave";
  }

  /** The other way round: V's direct.incoming, then an unsigned registration of "V NUL direct.incoming". */
  function RegistrationSecond(did: string, env: Env): seq<Event> {
    var p, q := ParamsOf(did, REGISTER + "\0x"), ParamsOf(did + "\0" + KNOWN, "x");
    [Rpc(did, KNOWN, OperationIdFromParams(p), ParseCall(KNOWN, p, Err(INTERNAL)), env),
     Rpc(did + "\0" + KNOWN, REGISTER, OperationIdFromParams(q), ParseCall(REGISTER, q, Err(INTERNAL)), env)]
  }

  /** The registration gets the other request's answer although no registration ran. */
  lemma RegistrationIsAnswered(cfg: Config, did: string, env: Env)
    requires NulFree(did)
    ensures var run := RegistrationSecond(did, env);
            && RoutedRun(run) && Succeeded(cfg, run, 1, Other(ACCEPTED)) && !IsRetry(cfg, run, 1)
            && At(cfg, run, 2) == At(cfg, run, 1)
  {
    var run := RegistrationSecond(did, env);
    var p, q := ParamsOf(did, REGISTER + "\0x"), ParamsOf(did + "\0" + KNOWN, "x");
    KnownIsAccepted(p);
    hide Step, At, Succeeded, ParseCall, OperationIdFromParams, StringAt, ParamsOf;
    ParamsAreRead(did, REGISTER + "\0x");
    ParamsAreRead(did + "\0" + KNOWN, "x");
    assert FromParams(run[0], p, Err(INTERNAL)) && FromParams(run[1], q, Err(INTERNAL));
    assert KeyOf(run[0]) == KeyOf(run[1]) by {
      assert did + "\0" + KNOWN + "\0" + (REGISTER + "\0x") == did + "\0" + KNOWN + "\0" + REGISTER + "\0" + "x";
    }
    FirstIsCached(cfg, run, ACCEPTED);
    assert run[0].method_ != run[1].method_;
  }

  lemma KnownIsAccepted(p: Fields)
    ensures ParseCall(KNOWN, p, Err(INTERNAL)) == Unmodelled(Ok(ACCEPTED))
  {}
}
