/** msg.inbox returns exactly the newest visible messages, and polling misses none. */
module InboxSafety {
  import opened Wrappers
  import opened Wire
  import opened Schema
  import opened Groups
  import opened GroupSafety

  /** The indices in [lo, hi) of the rows the caller may see. */
  ghost function VisibleRows(members: map<MemberKey, MemberRow>, caller: string, messages: seq<Message>, lo: nat,
                             hi: nat): set<nat>
    requires hi <= |messages|
  {
    set i: nat | lo <= i < hi && Visible(members, caller, messages[i])
  }

  ghost predicate Decreasing(rows: seq<Message>) {
    forall i, j | 0 <= i < j < |rows| :: rows[i].id > rows[j].id
  }

  ghost predicate Sequential(messages: seq<Message>) {
    forall i | 0 <= i < |messages| :: messages[i].id == i + 1
  }

  lemma {:induction false} VisibleDescCount(members: map<MemberKey, MemberRow>, caller: string, messages: seq<Message>,
                                            n: nat)
    requires n <= |messages|
    ensures |VisibleDesc(members, caller, messages, n)| == |VisibleRows(members, caller, messages, 0, n)|
  {
    if n == 0 {
      assert VisibleRows(members, caller, messages, 0, n) == {};
    } else {
      VisibleDescCount(members, caller, messages, n - 1);
      AddRow(members, caller, messages, 0, n);
    }
  }

  lemma AddRow(members: map<MemberKey, MemberRow>, caller: string, messages: seq<Message>, lo: nat, hi: nat)
    requires lo < hi <= |messages|
    ensures |VisibleRows(members, caller, messages, lo, hi)| ==
            |VisibleRows(members, caller, messages, lo, hi - 1)| +
            if Visible(members, caller, messages[hi - 1]) then 1 else 0
  {
    var before := VisibleRows(members, caller, messages, lo, hi - 1);
    assert VisibleRows(members, caller, messages, lo, hi) ==
           if Visible(members, caller, messages[hi - 1]) then before + {hi - 1} else before;
  }

  lemma {:induction false} VisibleDescRows(members: map<MemberKey, MemberRow>, caller: string, messages: seq<Message>,
                                           n: nat)
    requires Sequential(messages) && n <= |messages|
    ensures var all := VisibleDesc(members, caller, messages, n);
            && Decreasing(all)
            && forall j | 0 <= j < |all| :: 1 <= all[j].id <= n && all[j] == messages[all[j].id - 1]
                && Visible(members, caller, all[j])
  {
    hide Visible;
    if n > 0 {
      VisibleDescRows(members, caller, messages, n - 1);
    }
  }

  /** Later visible rows stand before all earlier ones. */
  lemma {:induction false} VisibleDescGrows(members: map<MemberKey, MemberRow>, caller: string, messages: seq<Message>,
                                            n: nat, hi: nat)
    requires n <= hi <= |messages|
    ensures var earlier, all := VisibleDesc(members, caller, messages, n), VisibleDesc(members, caller, messages, hi);
            var added := |VisibleRows(members, caller, messages, n, hi)|;
            |all| == added + |earlier| && all[added..] == earlier
  {
    if hi == n {
      assert VisibleRows(members, caller, messages, n, hi) == {};
    } else {
      VisibleDescGrows(members, caller, messages, n, hi - 1);
      AddRow(members, caller, messages, n, hi);
    }
  }

  /** A visible row stands right after the visible rows that are newer. */
  lemma VisibleDescAt(members: map<MemberKey, MemberRow>, caller: string, messages: seq<Message>, i: nat, hi: nat)
    requires i < hi <= |messages| && Visible(members, caller, messages[i])
    ensures var all, newer := VisibleDesc(members, caller, messages, hi),
              |VisibleRows(members, caller, messages, i + 1, hi)|;
            newer < |all| && all[newer] == messages[i]
  {
    VisibleDescGrows(members, caller, messages, i + 1, hi);
    var all, newer := VisibleDesc(members, caller, messages, hi), |VisibleRows(members, caller, messages, i + 1, hi)|;
    assert all[newer..][0] == messages[i];
  }

  function Min(a: nat, b: nat): nat { if a <= b then a else b }

  /** A page holds the newest min(limit, visible) visible rows, newest first, and no other row. */
  lemma PageIsNewestVisible(t: ChatTables, caller: string, limit: nat)
    requires Inv(t)
    ensures var page := Page(t, caller, limit);
            && |page| == Min(limit, |VisibleRows(t.members, caller, t.messages, 0, |t.messages|)|)
            && Decreasing(page)
            && (forall j | 0 <= j < |page| :: page[j] in t.messages && Visible(t.members, caller, page[j]))
            && (forall i | 0 <= i < |t.messages| && Visible(t.members, caller, t.messages[i]) ::
                  t.messages[i] in page || (|page| == limit && forall j | 0 <= j < |page| ::
                      t.messages[i].id < page[j].id))
  {
    var n := |t.messages|;
    VisibleDescCount(t.members, caller, t.messages, n);
    VisibleDescRows(t.members, caller, t.messages, n);
    var all, page := VisibleDesc(t.members, caller, t.messages, n), Page(t, caller, limit);
    assert forall j | 0 <= j < |page| :: page[j] == all[j];
    forall i | 0 <= i < n && Visible(t.members, caller, t.messages[i])
      ensures t.messages[i] in page || (|page| == limit && forall j | 0 <= j < |page| :: t.messages[i].id < page[j].id)
    {
      VisibleDescAt(t.members, caller, t.messages, i, n);
      var newer := |VisibleRows(t.members, caller, t.messages, i + 1, n)|;
      assert newer < |page| ==> page[newer] == t.messages[i];
    }
  }

  /** The decoding loop of msg.inbox drops no stored row and keeps every row's server_seq. */
  lemma {:induction false} NoRowSkipped(rows: seq<Message>)
    requires forall m | m in rows :: m.meta.Some? && m.body.Some?
    ensures |Items(rows)| == |rows|
    ensures forall i | 0 <= i < |rows| :: Items(rows)[i] ==
              InboxItem(rows[i].id, rows[i].meta.value, rows[i].body.value)
  {
    if rows != [] {
      NoRowSkipped(rows[1..]);
    }
  }

  /** A smaller limit gives a prefix of a larger one. */
  lemma SmallerLimitIsPrefix(t: ChatTables, caller: string, small: nat, large: nat)
    requires small <= large
    ensures Page(t, caller, small) <= Page(t, caller, large)
  {}

  /** If the caller's groups stay the same and at most limit visible rows arrive between two polls,
      the two pages hold every visible row from the oldest of the first page on. */
  lemma PollingHasNoGap(t: ChatTables, u: ChatTables, caller: string, limit: nat, i: nat)
    requires Inv(t) && Inv(u) && t.messages <= u.messages && 1 <= limit
    requires GroupsOf(t, caller) == GroupsOf(u, caller)
    requires |VisibleRows(u.members, caller, u.messages, |t.messages|, |u.messages|)| <= limit
    requires i < |u.messages| && Visible(u.members, caller, u.messages[i])
    requires var first := Page(t, caller, limit); first == [] || u.messages[i].id >= first[|first| - 1].id
    ensures u.messages[i] in Page(t, caller, limit) || u.messages[i] in Page(u, caller, limit)
  {
    var n := |t.messages|;
    forall row
      ensures Visible(t.members, caller, row) <==> Visible(u.members, caller, row)
    {
      SameVisibility(t, u, caller, row);
    }
    if i < n {
      assert t.messages[i] == u.messages[i];
      PageIsNewestVisible(t, caller, limit);
    } else {
      var hi := |u.messages|;
      VisibleDescAt(u.members, caller, u.messages, i, hi);
      var newer, added := VisibleRows(u.members, caller, u.messages, i + 1, hi),
          VisibleRows(u.members, caller, u.messages, n, hi);
      assert newer <= added - {i};
      SubsetCardinality(newer, added - {i});
      assert Page(u, caller, limit)[|newer|] == u.messages[i];
    }
  }

  lemma SameVisibility(t: ChatTables, u: ChatTables, caller: string, m: Message)
    requires GroupsOf(t, caller) == GroupsOf(u, caller)
    ensures Visible(t.members, caller, m) <==> Visible(u.members, caller, m)
  {
    if m.group.Some? {
      var k := MemberKey(m.group.value, caller);
      assert (k in t.members && t.members[k].status == "active") <==> k.group in GroupsOf(t, caller);
      assert (k in u.members && u.members[k].status == "active") <==> k.group in GroupsOf(u, caller);
    }
  }
}
