/** JSON wire values and the way handlers read them out of `params`. */
module Wire {
  import opened Wrappers

  datatype Json =
    | Null
    | Bool(b: bool)
    | Num(r: real)
    | Str(s: string)
    | Arr(items: seq<Json>)
    | Obj(fields: map<string, Json>)

  type Fields = map<string, Json>

  /** Indexing a Go map: a missing key and an explicit null both read as nil. */
  function Get(m: Fields, key: string): Json {
    if key in m then m[key] else Null
  }

  function AsMap(v: Json): Option<Fields> {
    if v.Obj? then Some(v.fields) else None
  }

  /** Reading from a nil Go map finds nothing, so nil may stand as the empty map. */
  function MapOrEmpty(v: Json): Fields {
    if v.Obj? then v.fields else map[]
  }

  function ToJson(m: Option<Fields>): Json {
    if m.Some? then Obj(m.value) else Null
  }

  function AsString(v: Json): string {
    if v.Str? then v.s else ""
  }

  function AsBool(v: Json): bool {
    v.Bool? && v.b
  }

  function StringAt(m: Fields, key: string): string {
    AsString(Get(m, key))
  }

  function Meta(params: Fields): Fields {
    MapOrEmpty(Get(params, "meta"))
  }

  function Body(params: Fields): Fields {
    MapOrEmpty(Get(params, "body"))
  }

  function Sender(params: Fields): string {
    StringAt(Meta(params), "sender_did")
  }

  function TargetDid(params: Fields): string {
    StringAt(MapOrEmpty(Get(Meta(params), "target")), "did")
  }

  predicate HasAuth(params: Fields) {
    Get(params, "auth").Obj?
  }

  function MetaJson(params: Fields): Json {
    ToJson(AsMap(Get(params, "meta")))
  }

  function BodyJson(params: Fields): Json {
    ToJson(AsMap(Get(params, "body")))
  }

  function GroupDidFromParams(params: Fields): string {
    var fromBody := StringAt(Body(params), "group_did");
    if fromBody != "" then fromBody else TargetDid(params)
  }

  /** group.e2ee methods fall back to group_state_ref.group_did. */
  function CipherGroupDid(body: Fields): string {
    var direct := StringAt(body, "group_did");
    if direct != "" then direct else StringAt(MapOrEmpty(Get(body, "group_state_ref")), "group_did")
  }

  function OperationIdFromParams(params: Fields): string {
    var fromMeta := StringAt(Meta(params), "operation_id");
    if fromMeta != "" then fromMeta else StringAt(params, "operation_id")
  }

  /** The page size of msg.inbox: a number in [1, 1000], truncated; anything else means 100. */
  function InboxLimit(params: Fields): (limit: nat)
    ensures 1 <= limit <= 1000
    ensures match Get(params, "limit")
            case Num(v) => if 1.0 <= v <= 1000.0 then limit as real <= v < limit as real + 1.0 else limit == 100
            case _ => limit == 100
  {
    match Get(params, "limit")
    case Num(v) => if 1.0 <= v <= 1000.0 then v.Floor else 100
    case _ => 100
  }

  datatype Kind = Text | JsonPayload | Binary | Cipher | Notice
  datatype Content = Content(kind: Kind, text: string)

  /** What a plaintext body may carry. */
  type Payload = c: Content | c.kind == Text || c.kind == JsonPayload || c.kind == Binary
    witness Content(Text, "")

  predicate HasText(body: Fields) { StringAt(body, "text") != "" }
  predicate HasPayload(body: Fields) { "payload" in body }
  predicate HasBinary(body: Fields) { StringAt(body, "payload_b64u") != "" }

  /** The message body mutual-exclusion rule; None when the rule is broken. */
  function ClassifyPayload(body: Fields): (p: Option<Payload>)
    ensures p.Some? <==>
      || (HasText(body) && !HasPayload(body) && !HasBinary(body))
      || (!HasText(body) && HasPayload(body) && !HasBinary(body))
      || (!HasText(body) && !HasPayload(body) && HasBinary(body))
    ensures p.Some? ==> (p.value.kind == Text <==> HasText(body)) && p.value.text == StringAt(body, "text")
    ensures p.Some? ==> (p.value.kind == JsonPayload <==> HasPayload(body))
    ensures p.Some? ==> (p.value.kind == Binary <==> HasBinary(body))
  {
    var c1, k1, t1 := if HasText(body) then 1 else 0, Text, if HasText(body) then StringAt(body, "text") else "";
    var c2, k2 := if HasPayload(body) then c1 + 1 else c1, if HasPayload(body) then JsonPayload else k1;
    var c3, k3 := if HasBinary(body) then c2 + 1 else c2, if HasBinary(body) then Binary else k2;
    if c3 == 1 then Some(Content(k3, t1)) else None
  }

  function Decimal(n: nat): string {
    var digit := [('0' as int + n % 10) as char];
    if n < 10 then digit else Decimal(n / 10) + digit
  }

  predicate IsDigits(s: string) {
    |s| > 0 && forall i | 0 <= i < |s| :: '0' <= s[i] <= '9'
  }

  function DigitsValue(s: string): nat
    requires forall i | 0 <= i < |s| :: '0' <= s[i] <= '9'
  {
    if s == [] then 0 else DigitsValue(s[..|s| - 1]) * 10 + (s[|s| - 1] as int - '0' as int)
  }

  const INT64_MAX: int := 0x7fff_ffff_ffff_ffff

  /** A number that fits in 64 bits. */
  function Fitting(v: int): Option<int> {
    if -INT64_MAX - 1 <= v <= INT64_MAX then Some(v) else None
  }

  /** strconv.ParseInt(s, 10, 64). */
  function ParseInt64(s: string): Option<int> {
    var signed := |s| > 0 && (s[0] == '-' || s[0] == '+');
    var digits := if signed then s[1..] else s;
    if !IsDigits(digits) then None
    else
      var v: int := if signed && s[0] == '-' then 0 - DigitsValue(digits) else DigitsValue(digits);
      Fitting(v)
  }

  /** A printed number, with or without a sign, is parsed back exactly when it fits in 64 bits. */
  lemma ParseOfDecimal(n: nat)
    ensures ParseInt64(Decimal(n)) == ParseInt64("+" + Decimal(n)) == if n <= INT64_MAX then Some(n) else None
    ensures var m: int := n; ParseInt64("-" + Decimal(n)) == if m <= INT64_MAX + 1 then Some(0 - m) else None
  {
    DecimalDigits(n);
    var s := Decimal(n);
    assert s[0] != '-' && s[0] != '+';
    assert ("+" + s)[1..] == s && ("-" + s)[1..] == s;
  }

  /** Any other character makes the text no number. */
  lemma OnlyDigitsParse(s: string, i: nat)
    requires i < |s| && !('0' <= s[i] <= '9') && (i == 0 ==> |s| == 1 || (s[0] != '-' && s[0] != '+'))
    ensures ParseInt64(s) == None
  {
    var signed := s[0] == '-' || s[0] == '+';
    if signed && i > 0 {
      assert s[1..][i - 1] == s[i];
    }
  }

  lemma {:induction false} DecimalDigits(n: nat)
    ensures IsDigits(Decimal(n)) && DigitsValue(Decimal(n)) == n
  {
    var s := Decimal(n);
    if n >= 10 {
      DecimalDigits(n / 10);
      assert s[..|s| - 1] == Decimal(n / 10);
    } else {
      assert s[..|s| - 1] == [];
    }
  }

  lemma {:induction false} LeadingZero(s: string)
    requires IsDigits(s)
    ensures DigitsValue("0" + s) == DigitsValue(s)
  {
    var init := s[..|s| - 1];
    assert ("0" + s)[..|s|] == "0" + init;
    if init != [] {
      LeadingZero(init);
    } else {
      assert "0" + init == "0" && "0"[..0] == "";
    }
  }

  /** Leading zeros do not matter. */
  lemma LeadingZeroParses(s: string)
    requires IsDigits(s)
    ensures ParseInt64("0" + s) == ParseInt64(s)
    ensures ParseInt64("-0" + s) == ParseInt64("-" + s) && ParseInt64("+0" + s) == ParseInt64("+" + s)
  {
    hide ParseInt64, DigitsValue;
    LeadingZero(s);
    var padded := "0" + s;
    assert "-0" + s == "-" + padded && "+0" + s == "+" + padded;
    ParseOfDigits(s);
    ParseOfDigits(padded);
  }

  lemma ParseOfDigits(s: string)
    requires IsDigits(s)
    ensures ParseInt64(s) == ParseInt64("+" + s) == Fitting(DigitsValue(s))
    ensures ParseInt64("-" + s) == Fitting(0 - DigitsValue(s))
  {
    assert ("+" + s)[1..] == s && ("-" + s)[1..] == s;
  }

  /** A JSON number is a size when it is not negative, and counts truncated. */
  lemma NumberIsTruncated(r: real, n: int)
    ensures SizeToInt64(Num(r)) == Some(n) <==> 0 <= n && n as real <= r < n as real + 1.0
  {}

  /** A size that may arrive as a decimal string or as a JSON number. */
  function SizeToInt64(v: Json): Option<int> {
    match v
    case Str(s) => ParseInt64(s)
    case Num(r) => if r >= 0.0 then Some(r.Floor) else None
    case _ => None
  }
}
