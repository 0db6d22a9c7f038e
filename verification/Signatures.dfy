/**
 Signature checks that bind a timestamp, and the replay key of a delivery.
 Text and bytes alike are strings: one char stands for one byte.
 */
module Signatures {
  import opened Prelude
  import opened Routes
  import opened ReplayCache

  /** A request with the headers the verifiers of timestamped providers read. */
  datatype Delivery = Delivery(
    agent: string, provider: string, route: string,
    signature: string,   // X-Webhook-Signature-V2
    timestamp: string,   // X-Webhook-Timestamp or Svix-Timestamp
    messageId: string,   // Svix-Id
    body: string, secret: string,
    vouched: bool)       // what the check of any other provider answers, apart from its timestamp

  /** HMAC-SHA256 as a function of key and message. */
  type Mac = (string, string) -> string

  /** The ideal the protocol relies on: one digest never stands for two messages. */
  ghost predicate CollisionFree(mac: Mac) {
    forall k, m, k', m' :: mac(k, m) == mac(k', m') ==> m == m'
  }

  /* Decimal timestamps */

  const INT64_MIN := -0x8000_0000_0000_0000
  const INT64_MAX := 0x7fff_ffff_ffff_ffff

  /** `strconv.ParseInt(raw, 10, 64)`: an optional sign, digits, and a 64-bit range. */
  function ParseInt64(raw: string): Option<int> {
    if raw == "" then None else
    var signed := raw[0] == '+' || raw[0] == '-';
    var digits := if signed then raw[1..] else raw;
    if digits == "" || !AllDigits(digits) then None else
    var magnitude: int := DigitsValue(digits);
    var n := if raw[0] == '-' then -magnitude else magnitude;
    if INT64_MIN <= n <= INT64_MAX then Some(n) else None
  }

  predicate ValidTimestamp(raw: string, now: Instant) {
    match ParseInt64(raw)
    case None => false
    case Some(seconds) => -SIGNATURE_TOLERANCE <= now - seconds * SECOND <= SIGNATURE_TOLERANCE
  }

  /* Hexadecimal, in either case */

  function HexDecode(s: string): Option<string> {
    if s == "" then Some("")
    else if |s| == 1 || HexDigit(s[0]).None? || HexDigit(s[1]).None? then None
    else
      match HexDecode(s[2..])
      case None => None
      case Some(rest) => Some([HexByte(s)] + rest)
  }

  function HexByte(s: string): char
    requires |s| >= 2 && HexDigit(s[0]).Some? && HexDigit(s[1]).Some?
  {
    (16 * HexDigit(s[0]).value + HexDigit(s[1]).value) as char
  }

  /* The check of the generic-v2 provider */

  function SignedText(d: Delivery): string {
    d.timestamp + ['.'] + d.body
  }

  predicate VerifyGenericV2(mac: Mac, d: Delivery, now: Instant) {
    && d.signature != "" && d.timestamp != ""
    && ValidTimestamp(d.timestamp, now)
    && HexDecode(d.signature) == Some(mac(d.secret, SignedText(d)))
  }

  /** The timestamp and presence rules of the svix provider; the digest comparison is `vouched`. */
  predicate VerifySvix(d: Delivery, now: Instant) {
    d.messageId != "" && d.timestamp != "" && ValidTimestamp(d.timestamp, now) && d.vouched
  }

  predicate VerifySignature(mac: Mac, d: Delivery, now: Instant) {
    && d.secret != ""
    && SupportedProvider(d.provider)
    && match d.provider
       case "generic-v2" => VerifyGenericV2(mac, d, now)
       case "svix" => VerifySvix(d, now)
       case _ => d.vouched
  }

  /* Replay keys */

  function Identity(d: Delivery): string {
    if d.provider == "generic-v2" then ToLower(d.signature) else d.messageId
  }

  predicate Timestamped(d: Delivery) {
    d.provider == "generic-v2" || d.provider == "svix"
  }

  function RoutePart(d: Delivery): string {
    d.route + [':'] + Identity(d)
  }

  function AgentPart(d: Delivery): string {
    d.agent + [':'] + RoutePart(d)
  }

  function ReplayKey(d: Delivery): string {
    if Timestamped(d) then d.provider + [':'] + AgentPart(d) else ""
  }

  lemma {:induction false} ValidNameHasNoColon(name: string)
    requires ValidRouteName(name)
    ensures ':' !in name
  {
    forall i | 0 <= i < |name| ensures name[i] != ':' {
      assert NameChar(name[i]);
    }
  }

  lemma {:induction false} ReplayKeySeparates(d: Delivery, d': Delivery)
    requires ValidRouteName(d.agent) && ValidRouteName(d.route) && ValidRouteName(d'.agent) && ValidRouteName(d'.route)
    requires Timestamped(d) && Timestamped(d')
    ensures ReplayKey(d) == ReplayKey(d') <==>
      d.provider == d'.provider && d.agent == d'.agent && d.route == d'.route && Identity(d) == Identity(d')
  {
    if ReplayKey(d) == ReplayKey(d') {
      ValidNameHasNoColon(d.agent);
      ValidNameHasNoColon(d.route);
      ValidNameHasNoColon(d'.agent);
      ValidNameHasNoColon(d'.route);
      CutUnique(d.provider, d'.provider, ':', AgentPart(d), AgentPart(d'));
      CutUnique(d.agent, d'.agent, ':', RoutePart(d), RoutePart(d'));
      CutUnique(d.route, d'.route, ':', Identity(d), Identity(d'));
    }
  }

  /** Decodable signatures are one key exactly when they are one digest, however they are spelled. */
  lemma {:induction false} SpellingsOfOneDigest(a: string, b: string)
    requires HexDecode(a).Some? && HexDecode(b).Some?
    ensures ToLower(a) == ToLower(b) <==> HexDecode(a) == HexDecode(b)
    decreases |a|
  {
    HexLength(a);
    HexLength(b);
    if a != "" && b != "" {
      SpellingsOfOneDigest(a[2..], b[2..]);
      LowerPair(a);
      LowerPair(b);
      HexDigitPair(a[0], a[1], b[0], b[1]);
      HeadsAndTails([Lower(a[0]), Lower(a[1])], ToLower(a[2..]), [Lower(b[0]), Lower(b[1])], ToLower(b[2..]));
      HeadsAndTails([HexByte(a)], HexDecode(a[2..]).value, [HexByte(b)], HexDecode(b[2..]).value);
    }
  }

  lemma LowerPair(s: string)
    requires |s| >= 2
    ensures ToLower(s) == [Lower(s[0]), Lower(s[1])] + ToLower(s[2..])
  {
    assert s[1..][1..] == s[2..];
  }

  lemma HeadsAndTails(h: string, t: string, h': string, t': string)
    requires |h| == |h'|
    ensures h + t == h' + t' <==> h == h' && t == t'
  {
    assert (h + t)[..|h|] == h && (h' + t')[..|h|] == h';
    assert (h + t)[|h|..] == t && (h' + t')[|h|..] == t';
  }

  lemma HexLength(s: string)
    requires HexDecode(s).Some?
    ensures |s| == 2 * |HexDecode(s).value|
  {
    if s != "" {
      HexLength(s[2..]);
    }
  }

  lemma HexDigitPair(a: char, b: char, c: char, d: char)
    requires HexDigit(a).Some? && HexDigit(b).Some? && HexDigit(c).Some? && HexDigit(d).Some?
    ensures (16 * HexDigit(a).value + HexDigit(b).value) as char == (16 * HexDigit(c).value + HexDigit(d).value) as char
            <==> Lower(a) == Lower(c) && Lower(b) == Lower(d)
  {
    HexDigitCase(a, c);
    HexDigitCase(b, d);
    BytesDiffer(HexDigit(a).value, HexDigit(b).value, HexDigit(c).value, HexDigit(d).value);
  }

  lemma BytesDiffer(x: nat, y: nat, u: nat, v: nat)
    requires x < 16 && y < 16 && u < 16 && v < 16
    ensures (16 * x + y) as char == (16 * u + v) as char <==> x == u && y == v
  {
    assert (16 * x + y) as char as int == 16 * x + y;
  }

  lemma HexDigitCase(a: char, b: char)
    requires HexDigit(a).Some? && HexDigit(b).Some?
    ensures HexDigit(a) == HexDigit(b) <==> Lower(a) == Lower(b)
  {
  }

  /** Replay keys of two decodable generic-v2 deliveries are equal iff agent, route and digest are. */
  lemma GenericKeysSeparate(d: Delivery, d': Delivery)
    requires ValidRouteName(d.agent) && ValidRouteName(d.route) && ValidRouteName(d'.agent) && ValidRouteName(d'.route)
    requires d.provider == d'.provider == "generic-v2"
    requires HexDecode(d.signature).Some? && HexDecode(d'.signature).Some?
    ensures ReplayKey(d) == ReplayKey(d') <==>
      d.agent == d'.agent && d.route == d'.route && HexDecode(d.signature) == HexDecode(d'.signature)
  {
    ReplayKeySeparates(d, d');
    SpellingsOfOneDigest(d.signature, d'.signature);
  }

  /** Replay keys of two svix deliveries are equal iff agent, route and message are; no key serves two providers. */
  lemma SvixKeysSeparate(d: Delivery, d': Delivery)
    requires ValidRouteName(d.agent) && ValidRouteName(d.route) && ValidRouteName(d'.agent) && ValidRouteName(d'.route)
    requires d.provider == "svix" && (d'.provider == "svix" || d'.provider == "generic-v2")
    ensures ReplayKey(d) == ReplayKey(d') <==>
      d'.provider == "svix" && d.agent == d'.agent && d.route == d'.route && d.messageId == d'.messageId
  {
    ReplayKeySeparates(d, d');
  }

  lemma TimestampHasNoDot(raw: string)
    requires ParseInt64(raw).Some?
    ensures '.' !in raw
  {
    var signed := raw[0] == '+' || raw[0] == '-';
    var digits := if signed then raw[1..] else raw;
    forall i | 0 <= i < |raw| ensures raw[i] != '.' {
      if !(signed && i == 0) {
        assert raw[i] == digits[if signed then i - 1 else i];
      }
    }
  }

  /** A generic-v2 replay key binds the timestamp and the body of everything that verifies under it. */
  lemma KeyBindsTimestamp(mac: Mac, d: Delivery, now: Instant, d': Delivery, now': Instant)
    requires CollisionFree(mac)
    requires ValidRouteName(d.agent) && ValidRouteName(d.route) && ValidRouteName(d'.agent) && ValidRouteName(d'.route)
    requires d.provider == d'.provider == "generic-v2" && ReplayKey(d) == ReplayKey(d')
    requires VerifySignature(mac, d, now) && VerifySignature(mac, d', now')
    ensures d.timestamp == d'.timestamp && d.body == d'.body
  {
    GenericKeysSeparate(d, d');
    assert mac(d.secret, SignedText(d)) == mac(d'.secret, SignedText(d'));
    TimestampHasNoDot(d.timestamp);
    TimestampHasNoDot(d'.timestamp);
    CutUnique(d.timestamp, d'.timestamp, '.', d.body, d'.body);
  }
}
