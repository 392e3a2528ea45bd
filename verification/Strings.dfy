/** The string library functions the server calls. */
module Strings {

  predicate HasPrefix(s: string, prefix: string) {
    |prefix| <= |s| && s[..|prefix|] == prefix
  }

  predicate HasSuffix(s: string, suffix: string) {
    |suffix| <= |s| && s[|s| - |suffix|..] == suffix
  }

  predicate OccursAt(s: string, sub: string, i: nat) {
    i + |sub| <= |s| && s[i..i + |sub|] == sub
  }

  lemma OccursInTail(s: string, sub: string, i: nat)
    requires s != []
    ensures OccursAt(s, sub, i + 1) <==> OccursAt(s[1..], sub, i)
  {
    if i + 1 + |sub| <= |s| {
      assert s[i + 1..i + 1 + |sub|] == s[1..][i..i + |sub|];
    }
  }

  /** The first place where sub occurs, or -1. */
  function IndexOf(s: string, sub: string): (i: int)
    ensures -1 <= i
    ensures i >= 0 ==> OccursAt(s, sub, i)
    ensures forall j: nat | OccursAt(s, sub, j) :: 0 <= i <= j
  {
    if HasPrefix(s, sub) then 0
    else if s == [] then -1
    else
      var i := IndexOf(s[1..], sub);
      assert forall j: nat | OccursAt(s, sub, j) :: 0 <= i < j by {
        forall j: nat | OccursAt(s, sub, j)
          ensures 0 <= i < j
        {
          assert j != 0;
          OccursInTail(s, sub, j - 1);
        }
      }
      assert i >= 0 ==> OccursAt(s, sub, i + 1) by {
        if i >= 0 { OccursInTail(s, sub, i); }
      }
      if i < 0 then -1 else i + 1
  }

  /** The last place where c occurs, or -1. */
  function LastIndexOf(s: string, c: char): (i: int)
    ensures -1 <= i < |s|
    ensures i >= 0 ==> s[i] == c
    ensures forall j | i < j < |s| :: s[j] != c
  {
    if s == [] then -1
    else if s[|s| - 1] == c then |s| - 1
    else LastIndexOf(s[..|s| - 1], c)
  }

  predicate IsSpace(c: char) {
    c in {'\t', '\n', '\U{0B}', '\U{0C}', '\r', ' ', '\U{85}', '\U{A0}', '\U{1680}',
          '\U{2028}', '\U{2029}', '\U{202F}', '\U{205F}', '\U{3000}'} || '\U{2000}' <= c <= '\U{200A}'
  }

  /** Among ASCII characters, space and the five control characters that count as space. */
  lemma AsciiSpaces(c: char)
    requires c < '\U{80}'
    ensures IsSpace(c) <==> c == ' ' || '\t' <= c <= '\r'
  {}

  function TrimLeft(s: string): string {
    if s != [] && IsSpace(s[0]) then TrimLeft(s[1..]) else s
  }

  function TrimRight(s: string): string {
    if s != [] && IsSpace(s[|s| - 1]) then TrimRight(s[..|s| - 1]) else s
  }

  function TrimSpace(s: string): string { TrimRight(TrimLeft(s)) }

  /** Trimming stops at a non-space: all of a stays, only the end of b may go. */
  lemma {:induction false} TrimKeepsFront(a: string, b: string)
    requires a != [] && !IsSpace(a[0]) && !IsSpace(a[|a| - 1])
    ensures TrimSpace(a + b) == a + TrimRight(b)
  {
    if b != [] && IsSpace(b[|b| - 1]) {
      TrimKeepsFront(a, b[..|b| - 1]);
      assert (a + b)[..|a + b| - 1] == a + b[..|b| - 1];
      assert TrimLeft(a + b) == a + b && TrimLeft(a + b[..|b| - 1]) == a + b[..|b| - 1];
    } else {
      assert a + b == (if b == [] then a else a + b);
    }
  }

  lemma {:induction false} TrimLeftShortens(s: string)
    ensures |TrimLeft(s)| <= |s|
  {
    if s != [] && IsSpace(s[0]) {
      TrimLeftShortens(s[1..]);
    }
  }

  lemma {:induction false} TrimRightShortens(s: string)
    ensures |TrimRight(s)| <= |s|
  {
    if s != [] && IsSpace(s[|s| - 1]) {
      TrimRightShortens(s[..|s| - 1]);
    }
  }

  lemma {:induction false} TrimRightIsPrefix(s: string)
    ensures TrimRight(s) <= s
  {
    if s != [] && IsSpace(s[|s| - 1]) {
      TrimRightIsPrefix(s[..|s| - 1]);
    }
  }

  lemma TrimShortens(s: string)
    ensures |TrimSpace(s)| <= |s|
  {
    TrimLeftShortens(s);
    TrimRightShortens(TrimLeft(s));
  }

  /** Trimming stays outside a middle part that starts and ends with a non-space. */
  lemma {:induction false} TrimsAround(a: string, mid: string, b: string)
    requires mid != [] && !IsSpace(mid[0]) && !IsSpace(mid[|mid| - 1])
    ensures TrimSpace(a + mid + b) == TrimLeft(a) + mid + TrimRight(b)
  {
    if a != [] && IsSpace(a[0]) {
      TrimsAround(a[1..], mid, b);
      assert (a + mid + b)[1..] == a[1..] + mid + b;
    } else if a == [] {
      TrimKeepsFront(mid, b);
      assert a + mid + b == mid + b;
    } else {
      TrimKeepsFront(a + mid, b);
    }
  }

  // ---- text order ----

  /** The order of a text column. */
  predicate AtMost(a: string, b: string) {
    a == [] || (b != [] && (a[0] < b[0] || (a[0] == b[0] && AtMost(a[1..], b[1..]))))
  }

  /** Lexicographic order: a prefix comes first, and otherwise the first difference decides. */
  lemma {:induction false} AtMostIsLexicographic(a: string, b: string)
    ensures AtMost(a, b) <==> a <= b || exists i :: DiffersAt(a, b, i) && a[i] < b[i]
  {
    if a != [] && b != [] && a[0] == b[0] {
      var s, t := a[1..], b[1..];
      AtMostIsLexicographic(s, t);
      assert a == [a[0]] + s && b == [b[0]] + t;
      assert a <= b <==> s <= t;
      forall i | DiffersAt(s, t, i) && s[i] < t[i]
        ensures DiffersAt(a, b, i + 1) && a[i + 1] < b[i + 1]
      {
        assert a[..i + 1] == [a[0]] + s[..i] && b[..i + 1] == [b[0]] + t[..i];
      }
      forall i | DiffersAt(a, b, i) && a[i] < b[i]
        ensures DiffersAt(s, t, i - 1) && s[i - 1] < t[i - 1]
      {
        assert a[..i][1..] == s[..i - 1] && b[..i][1..] == t[..i - 1];
      }
    } else if a != [] && b != [] {
      assert DiffersAt(a, b, 0);
      forall i | DiffersAt(a, b, i)
        ensures i == 0
      {
        if i > 0 {
          SameStart(a, b, i);
        }
      }
    }
  }

  lemma SameStart(a: string, b: string, i: int)
    requires 0 < i && DiffersAt(a, b, i)
    ensures a != [] && b != [] && a[0] == b[0]
  {
    assert a[..i][0] == b[..i][0];
  }

  /** i is the first place where the texts differ. */
  ghost predicate DiffersAt(a: string, b: string, i: int) {
    0 <= i < |a| && i < |b| && a[..i] == b[..i] && a[i] != b[i]
  }

  lemma {:induction false} AtMostTotal(a: string, b: string)
    ensures AtMost(a, b) || AtMost(b, a)
  {
    if a != [] && b != [] {
      AtMostTotal(a[1..], b[1..]);
    }
  }

  lemma {:induction false} AtMostAntisymmetric(a: string, b: string)
    requires AtMost(a, b) && AtMost(b, a)
    ensures a == b
  {
    if a != [] {
      AtMostAntisymmetric(a[1..], b[1..]);
      assert a == [a[0]] + a[1..] && b == [b[0]] + b[1..];
    }
  }

  lemma {:induction false} AtMostTransitive(a: string, b: string, c: string)
    requires AtMost(a, b) && AtMost(b, c)
    ensures AtMost(a, c)
  {
    if a != [] && a[0] == b[0] == c[0] {
      AtMostTransitive(a[1..], b[1..], c[1..]);
    }
  }

  predicate IsLeast(d: string, s: set<string>) {
    d in s && forall e | e in s :: AtMost(d, e)
  }

  lemma LeastExists(s: set<string>) returns (d: string)
    requires s != {}
    ensures IsLeast(d, s)
  {
    d :| d in s;
    var rest := s - {d};
    if rest != {} {
      var l := LeastExists(rest);
      AtMostTotal(d, l);
      AtMostTotal(d, d);
      if AtMost(d, l) {
        forall e | e in rest
          ensures AtMost(d, e)
        {
          AtMostTransitive(d, l, e);
        }
      } else {
        d := l;
      }
    } else {
      AtMostTotal(d, d);
      assert s == {d};
    }
  }

  lemma LeastIsUnique(s: set<string>)
    requires s != {}
    ensures exists d :: IsLeast(d, s)
    ensures forall d, e | IsLeast(d, s) && IsLeast(e, s) :: d == e
  {
    var d := LeastExists(s);
    forall d, e | IsLeast(d, s) && IsLeast(e, s)
      ensures d == e
    {
      AtMostAntisymmetric(d, e);
    }
  }

  ghost predicate Sorted(r: seq<string>) {
    forall i, j | 0 <= i < j < |r| :: r[i] != r[j] && AtMost(r[i], r[j])
  }

  /** ORDER BY over distinct texts. */
  function Ordered(s: set<string>): (r: seq<string>)
    ensures Sorted(r)
    ensures forall d :: d in r <==> d in s
  {
    if s == {} then []
    else
      LeastIsUnique(s);
      var d :| d in s && IsLeast(d, s);
      [d] + Ordered(s - {d})
  }
}
