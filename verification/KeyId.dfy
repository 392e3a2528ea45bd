/** Finding the signer's DID in a Signature-Input header. */
module KeyId {
  import opened Strings

  const MARKER := "keyid"

  function ExtractKeyId(signatureInput: string): string {
    var at := IndexOf(signatureInput, MARKER);
    if at < 0 then "" else ReadValue(signatureInput[at + |MARKER|..])
  }

  /** The value behind the marker, with or without an equals sign. */
  function ReadValue(tail: string): string {
    var rest := TrimSpace(tail);
    ReadInner(if HasPrefix(rest, "=") then TrimSpace(rest[1..]) else rest)
  }

  /** The text up to the closing quote, or else up to a semicolon. */
  function ReadInner(value: string): string {
    var quoted := HasPrefix(value, "\"");
    var inner := if quoted then value[1..] else value;
    var end := if quoted then IndexOf(inner, "\"") else -1;
    if end >= 0 then inner[..end]
    else
      var semi := IndexOf(inner, ";");
      TrimSpace(if semi >= 0 then inner[..semi] else inner)
  }

  function KeyIdToDid(keyId: string): string {
    var at := LastIndexOf(keyId, '#');
    if at >= 0 then keyId[..at] else keyId
  }

  predicate Lacks(s: string, c: char) {
    forall i | 0 <= i < |s| :: s[i] != c
  }

  /** A quoted key id D#F, with any parameters before and after it, is read back as D#F, and its DID as D,
      provided keyid does not occur earlier, no quote stands in D and F, and no # in F. */
  lemma KeyIdRoundTrip(before: string, did: string, fragment: string, after: string)
    requires IndexOf(before, MARKER) < 0
    requires Lacks(did, '\"') && Lacks(fragment, '\"') && Lacks(fragment, '#')
    ensures ExtractKeyId(SignatureInput(before, did, fragment, after)) == did + "#" + fragment
    ensures KeyIdToDid(did + "#" + fragment) == did
  {
    var keyId := did + "#" + fragment;
    hide IndexOf, LastIndexOf, TrimSpace;
    LastHash(did, fragment);
    assert SignatureInput(before, did, fragment, after) == before + MARKER + ("=" + ("\"" + keyId + "\"") + after);
    ExtractQuoted(before, keyId, after);
  }

  lemma ExtractQuoted(before: string, keyId: string, after: string)
    requires IndexOf(before, MARKER) < 0 && Lacks(keyId, '\"')
    ensures ExtractKeyId(before + MARKER + ("=" + ("\"" + keyId + "\"") + after)) == keyId
  {
    hide IndexOf, TrimSpace;
    var tail := "=" + ("\"" + keyId + "\"") + after;
    FirstMarker(before, tail);
    assert (before + MARKER + tail)[|before| + |MARKER|..] == tail;
    QuotedValue(keyId, after);
  }

  /** A Signature-Input with a quoted key id. */
  function SignatureInput(before: string, did: string, fragment: string, after: string): string {
    before + OPEN + (did + "#" + fragment) + "\"" + after
  }

  const OPEN := "keyid=\""

  /** Every quoted key id D#F is read back after a given text exactly when "keyid" does not occur in it. */
  lemma KeyIdRoundTripIff(before: string)
    ensures (forall did, fragment, after | Lacks(did, '\"') && Lacks(fragment, '\"') && Lacks(fragment, '#') ::
               ExtractKeyId(SignatureInput(before, did, fragment, after)) == did + "#" + fragment)
            <==> IndexOf(before, MARKER) < 0
  {
    hide IndexOf, ExtractKeyId;
    if IndexOf(before, MARKER) < 0 {
      forall did, fragment, after | Lacks(did, '\"') && Lacks(fragment, '\"') && Lacks(fragment, '#')
        ensures ExtractKeyId(SignatureInput(before, did, fragment, after)) == did + "#" + fragment
      {
        KeyIdRoundTrip(before, did, fragment, after);
      }
    } else {
      var long := seq(|before| + |OPEN|, _ => 'd');
      LongKeyIdIsMissed(before, long, "", "");
    }
  }

  /** Behind an earlier keyid, a key id longer than the text before it is not what is read. */
  lemma LongKeyIdIsMissed(before: string, did: string, fragment: string, after: string)
    requires IndexOf(before, MARKER) >= 0
    requires Lacks(did, '\"') && Lacks(fragment, '\"') && |did| >= |before| + |OPEN|
    ensures ExtractKeyId(SignatureInput(before, did, fragment, after)) != did + "#" + fragment
  {
    hide IndexOf, ExtractKeyId, SignatureInput, Lacks;
    var p := IndexOf(before, MARKER);
    NothingBeforeFirst(before);
    var between, r := before[p + |MARKER|..], did + "#" + fragment + "\"" + after;
    InputRegrouped(before[..p], between, did, fragment, after);
    ReadBehind(before[..p], between, r);
    QuoteFree(did, fragment);
  }

  lemma ReadBehind(head: string, between: string, r: string)
    requires IndexOf(head, MARKER) < 0
    ensures var read := ExtractKeyId(head + MARKER + (between + OPEN + r)); |read| <= |between| + |OPEN| || '\"' in read
  {
    hide IndexOf, ReadValue;
    ReadAfterFirst(head, between + OPEN + r);
    ReadingIsShortOrQuoted(between, r);
  }

  lemma QuoteFree(did: string, fragment: string)
    requires Lacks(did, '\"') && Lacks(fragment, '\"')
    ensures '\"' !in did + "#" + fragment
  {}

  lemma Regrouped(a: string, b: string, c: string, d: string, e: string)
    ensures a + b + c + d + e == a + (b + c + (d + e))
  {}

  lemma InputRegrouped(head: string, between: string, did: string, fragment: string, after: string)
    ensures SignatureInput(head + MARKER + between, did, fragment, after) ==
            head + MARKER + (between + OPEN + (did + "#" + fragment + "\"" + after))
  {
    var keyId := did + "#" + fragment;
    Regrouped(head + MARKER, between, OPEN, keyId, "\"" + after);
    assert keyId + "\"" + after == keyId + ("\"" + after);
    var front := head + MARKER + between + OPEN + keyId;
    assert front + "\"" + after == front + ("\"" + after);
  }

  lemma ReadAfterFirst(before: string, rest: string)
    requires IndexOf(before, MARKER) < 0
    ensures ExtractKeyId(before + MARKER + rest) == ReadValue(rest)
  {
    hide IndexOf, ReadValue;
    FirstMarker(before, rest);
    assert (before + MARKER + rest)[|before| + |MARKER|..] == rest;
  }

  lemma NothingBeforeFirst(s: string)
    requires IndexOf(s, MARKER) >= 0
    ensures var p := IndexOf(s, MARKER);
            && p + |MARKER| <= |s| && IndexOf(s[..p], MARKER) < 0
            && s == s[..p] + MARKER + s[p + |MARKER|..]
  {
    hide IndexOf;
    var p := IndexOf(s, MARKER);
    var q := IndexOf(s[..p], MARKER);
    if q >= 0 {
      OccursInPrefix(s, p, q);
    }
  }

  lemma OccursInPrefix(s: string, p: nat, q: nat)
    requires p <= |s| && OccursAt(s[..p], MARKER, q)
    ensures OccursAt(s, MARKER, q)
  {
    assert s[..p][q..q + |MARKER|] == s[q..q + |MARKER|];
  }

  /** What is read behind the marker never is a long text without quotes: it ends before the quote of the
      parameter, or holds it. */
  lemma ReadingIsShortOrQuoted(between: string, r: string)
    ensures var read := ReadValue(between + OPEN + r); |read| <= |between| + |OPEN| || '\"' in read
  {
    hide IndexOf, TrimSpace;
    TrimAround(between, r);
    var b, t := TrimLeft(between), TrimRight(r);
    TrimLeftShortens(between);
    if b != [] && b[0] == '=' {
      TrimAround(b[1..], t);
      TrimLeftShortens(b[1..]);
      assert (b + OPEN + t)[1..] == b[1..] + OPEN + t;
      InnerIsShortOrQuoted(TrimLeft(b[1..]), TrimRight(t));
    } else {
      assert OPEN[0] == 'k';
      InnerIsShortOrQuoted(b, t);
    }
  }

  lemma TrimAround(between: string, r: string)
    ensures TrimSpace(between + OPEN + r) == TrimLeft(between) + OPEN + TrimRight(r)
  {
    TrimsAround(between, OPEN, r);
  }

  lemma InnerIsShortOrQuoted(b: string, t: string)
    ensures var read := ReadInner(b + OPEN + t); |read| <= |b| + |OPEN| || '\"' in read
  {
    hide IndexOf, TrimSpace;
    var value := b + OPEN + t;
    assert value[|b| + 6] == '\"' && value[0] == (if b != [] then b[0] else 'k');
    if b != [] && b[0] == '\"' {
      var inner := value[1..];
      assert inner[|b| + 5] == '\"' && inner[|b| + 5..|b| + 6] == [inner[|b| + 5]];
      assert OccursAt(inner, "\"", |b| + 5);
    } else {
      var semi := IndexOf(value, ";");
      if 0 <= semi <= |b| + 6 {
        TrimShortens(value[..semi]);
      } else {
        var kept := if semi >= 0 then value[..semi] else value;
        var x := kept[|b| + |OPEN|..];
        assert kept == b + OPEN + x;
        TrimAround(b, x);
        assert TrimSpace(kept)[|TrimLeft(b)| + 6] == '\"';
      }
    }
  }

  /** A key id without quotes is read up to a semicolon or the end. */
  lemma UnquotedKeyId(before: string, keyId: string, after: string)
    requires IndexOf(before, MARKER) < 0
    requires keyId != "" && keyId[0] != '\"' && !IsSpace(keyId[0]) && !IsSpace(keyId[|keyId| - 1]) && Lacks(keyId, ';')
    requires after == "" || after[0] == ';'
    ensures ExtractKeyId(before + MARKER + ("=" + keyId + after)) == keyId
  {
    hide IndexOf, TrimSpace;
    ReadAfterFirst(before, "=" + keyId + after);
    var t := TrimRight(after);
    TrimKeepsFront("=" + keyId, after);
    assert ("=" + keyId + t)[1..] == keyId + t;
    TrimKeepsFront(keyId, t);
    SemicolonStays(after);
    SemicolonStays(t);
    ReadUpToSemicolon(keyId, TrimRight(t));
  }

  lemma SemicolonStays(s: string)
    requires s == "" || s[0] == ';'
    ensures TrimRight(s) == "" || TrimRight(s)[0] == ';'
  {
    TrimRightIsPrefix(s);
  }

  lemma ReadUpToSemicolon(keyId: string, after: string)
    requires keyId != "" && keyId[0] != '\"' && !IsSpace(keyId[0]) && !IsSpace(keyId[|keyId| - 1]) && Lacks(keyId, ';')
    requires after == "" || after[0] == ';'
    ensures ReadInner(keyId + after) == keyId
  {
    hide IndexOf, TrimSpace;
    var value := keyId + after;
    TrimKeepsFront(keyId, "");
    assert keyId + "" == keyId;
    assert !HasPrefix(value, "\"") by {
      assert value[0] == keyId[0];
    }
    FirstSemicolon(keyId, after);
    if after == "" {
      assert value == keyId;
    } else {
      assert value[..|keyId|] == keyId;
    }
  }

  lemma FirstSemicolon(keyId: string, after: string)
    requires Lacks(keyId, ';') && (after == "" || after[0] == ';')
    ensures IndexOf(keyId + after, ";") == if after == "" then -1 else |keyId|
  {
    hide IndexOf;
    var value := keyId + after;
    var i := IndexOf(value, ";");
    assert i >= 0 ==> value[i..i + 1] == ";" && value[i] == ';';
    assert forall j | 0 <= j < |keyId| :: value[j] == keyId[j];
    if after != "" {
      assert value[|keyId|..|keyId| + 1] == ";";
      assert OccursAt(value, ";", |keyId|);
    }
  }

  /** Without a keyid there is no signer, and without a # the key id is the DID. */
  lemma NoKeyIdNoSigner(signatureInput: string)
    requires IndexOf(signatureInput, MARKER) < 0
    ensures ExtractKeyId(signatureInput) == ""
  {}

  lemma NoFragmentIsDid(keyId: string)
    requires Lacks(keyId, '#')
    ensures KeyIdToDid(keyId) == keyId
  {
    hide LastIndexOf;
  }

  /** What stands after the marker of a quoted key id trims down to the key id, a quote and the rest. */
  lemma QuotedValue(keyId: string, after: string)
    requires Lacks(keyId, '\"')
    ensures var rest := TrimSpace("=" + ("\"" + keyId + "\"") + after);
            && HasPrefix(rest, "=")
            && var value := TrimSpace(rest[1..]);
               && HasPrefix(value, "\"")
               && IndexOf(value[1..], "\"") == |keyId|
               && value[1..][..|keyId|] == keyId
  {
    var quoted := "\"" + keyId + "\"";
    TrimKeepsFront("=" + quoted, after);
    var t := TrimRight(after);
    assert ("=" + quoted + t)[1..] == quoted + t;
    TrimKeepsFront(quoted, t);
    var inner := keyId + "\"" + TrimRight(t);
    assert (quoted + TrimRight(t))[1..] == inner;
    FirstQuote(inner, keyId);
  }

  /** keyid cannot straddle the text before it and itself, so its first place is right after that text. */
  lemma FirstMarker(before: string, tail: string)
    requires IndexOf(before, MARKER) < 0
    ensures IndexOf(before + MARKER + tail, MARKER) == |before|
  {
    var s := before + MARKER + tail;
    assert OccursAt(s, MARKER, |before|);
    forall j: nat | j < |before|
      ensures !OccursAt(s, MARKER, j)
    {
      assert !OccursAt(before, MARKER, j);
      NoStraddle(before, tail, j);
    }
  }

  lemma NoStraddle(before: string, tail: string, j: nat)
    requires j < |before| && !OccursAt(before, MARKER, j)
    ensures !OccursAt(before + MARKER + tail, MARKER, j)
  {
    var s := before + MARKER + tail;
    if j + 5 <= |before| {
      assert s[j..j + 5] == before[j..j + 5];
    } else {
      assert s[|before|] == 'k';
      assert s[j..j + 5][|before| - j] == 'k';
      assert MARKER[1] != 'k' && MARKER[2] != 'k' && MARKER[3] != 'k' && MARKER[4] != 'k';
    }
  }

  lemma FirstQuote(inner: string, keyId: string)
    requires |keyId| < |inner| && inner[..|keyId|] == keyId && inner[|keyId|] == '\"' && Lacks(keyId, '\"')
    ensures IndexOf(inner, "\"") == |keyId|
  {
    assert inner[|keyId|..|keyId| + 1] == "\"";
    assert OccursAt(inner, "\"", |keyId|);
    forall j: nat | j < |keyId|
      ensures !OccursAt(inner, "\"", j)
    {
      assert inner[j..j + 1][0] == keyId[j];
    }
  }

  lemma LastHash(did: string, fragment: string)
    requires Lacks(fragment, '#')
    ensures LastIndexOf(did + "#" + fragment, '#') == |did|
    ensures (did + "#" + fragment)[..|did|] == did
  {
    hide LastIndexOf;
    var s, tail := did + "#" + fragment, "#" + fragment;
    assert s == did + tail;
    assert forall j | 0 < j < |tail| :: tail[j] == fragment[j - 1];
    LastInTail(did, tail);
  }

  lemma LastInTail(front: string, tail: string)
    requires tail != [] && tail[0] == '#' && forall j | 0 < j < |tail| :: tail[j] != '#'
    ensures LastIndexOf(front + tail, '#') == |front|
  {
    hide LastIndexOf;
    var s := front + tail;
    assert s[|front|] == '#';
    assert s[|front|..] == tail;
    assert forall j | |front| < j < |s| :: s[j] == tail[j - |front|];
  }
}
