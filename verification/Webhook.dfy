/** The Standard Webhooks v1 profile: signing, verification and header parsing.

    A character of a body or header stands for one byte of the Go string. The
    HMAC-SHA256 function is a parameter, `mac`, with 32-byte results. */
module Webhook {
  import opened Text
  import opened Contract
  import opened Base64

  const MAX_MESSAGE_ID: nat := 256
  const MIN_SECRET: nat := 24
  const MAX_SECRET: nat := 64
  const DIGEST_SIZE: nat := 32
  const MAX_INT64: int := 0x7FFF_FFFF_FFFF_FFFF
  const SECRET_PREFIX: string := "whsec_"
  const VERSION: string := "v1"

  /** Seconds between Go's zero time and the Unix epoch. */
  const EPOCH: int := 62_135_596_800

  type Digest = d: seq<Byte> | |d| == DIGEST_SIZE witness seq(DIGEST_SIZE, _ => 0)

  type Secret = seq<Byte>

  type Mac = (Secret, string) -> Digest

  datatype Headers = Headers(id: string, timestamp: string, signature: string)

  datatype Error =
    InvalidSecret | InvalidHeaders | UnsupportedVersion | OutsideTolerance | InvalidTolerance | Mismatch

  function Unix(t: Time): int {
    t / SECOND - EPOCH
  }

  /** What a `time.Time` can hold. */
  predicate Representable(t: Time) {
    Unix(t) <= MAX_INT64
  }

  predicate ValidMessageID(id: string) {
    && 0 < |id| <= MAX_MESSAGE_ID
    && '.' !in id
    && forall i :: 0 <= i < |id| ==> id[i] > ' ' && id[i] != '\U{7f}'
  }

  method CheckMessageID(id: string) returns (ok: bool)
    ensures ok <==> ValidMessageID(id)
  {
    if id == "" || |id| > MAX_MESSAGE_ID || '.' in id {
      return false;
    }
    for i := 0 to |id|
      invariant forall k :: 0 <= k < i ==> id[k] > ' ' && id[k] != '\U{7f}'
    {
      if id[i] <= ' ' || id[i] == '\U{7f}' {
        return false;
      }
    }
    ok := true;
  }

  /* ---- Secrets ---- */

  function ParseSecret(serialized: string): Option<Secret> {
    if !(SECRET_PREFIX <= serialized) then None
    else match Decode(serialized[|SECRET_PREFIX|..])
      case None => None
      case Some(secret) => if MIN_SECRET <= |secret| <= MAX_SECRET then Some(secret) else None
  }

  /** Every secret of an admissible size has a serialization that parses back. */
  lemma {:induction false} SecretRoundTrip(secret: Secret)
    requires MIN_SECRET <= |secret| <= MAX_SECRET
    ensures ParseSecret(SECRET_PREFIX + Encode(secret)) == Some(secret)
  {
    DecodeOfEncode(secret);
    assert (SECRET_PREFIX + Encode(secret))[|SECRET_PREFIX|..] == Encode(secret);
  }

  method NewKeyring(serialized: seq<string>) returns (r: Option<seq<Secret>>)
    ensures r.Some? <==> 1 <= |serialized| <= 2 && forall i :: 0 <= i < |serialized| ==>
        ParseSecret(serialized[i]).Some?
    ensures r.Some? ==> |r.value| == |serialized|
                        && forall i :: 0 <= i < |serialized| ==> ParseSecret(serialized[i]) == Some(r.value[i])
  {
    if |serialized| == 0 || |serialized| > 2 {
      return None;
    }
    var secrets: seq<Secret> := [];
    for n := 0 to |serialized|
      invariant |secrets| == n
      invariant forall i :: 0 <= i < n ==> ParseSecret(serialized[i]) == Some(secrets[i])
    {
      var secret := ParseSecret(serialized[n]);
      if secret == None {
        return None;
      }
      secrets := secrets + [secret.value];
    }
    r := Some(secrets);
  }

  /* ---- Signed content ---- */

  function SigningContent(id: string, timestamp: string, body: string): string {
    id + "." + timestamp + "." + body
  }

  lemma FirstDot(a: string, x: string, b: string, y: string)
    requires '.' !in a && '.' !in b && a + "." + x == b + "." + y
    ensures a == b && x == y
  {
    var s := a + "." + x;
    assert s[|a|] == '.' && s[|b|] == '.';
    assert forall i :: 0 <= i < |a| ==> s[i] == a[i] && s[i] != '.';
    assert forall i :: 0 <= i < |b| ==> s[i] == b[i] && s[i] != '.';
    assert |a| == |b|;
    assert a == s[..|a|] && b == s[..|b|];
    assert x == s[|a| + 1..] && y == s[|b| + 1..];
  }

  /** Two messages are signed over the same content only when they are the same
      message: identifiers hold no dot and timestamps are digits. */
  lemma SigningContentInjective(id: string, ts: string, body: string, id': string, ts': string, body': string)
    requires ValidMessageID(id) && ValidMessageID(id') && AllDigits(ts) && AllDigits(ts')
    ensures SigningContent(id, ts, body) == SigningContent(id', ts', body') <==> id == id' && ts == ts' && body == body'
  {
    if SigningContent(id, ts, body) == SigningContent(id', ts', body') {
      assert SigningContent(id, ts, body) == id + "." + (ts + "." + body);
      assert SigningContent(id', ts', body') == id' + "." + (ts' + "." + body');
      FirstDot(id, ts + "." + body, id', ts' + "." + body');
      FirstDot(ts, body, ts', body');
    }
  }

  /* ---- Signing ---- */

  function SignatureValue(mac: Mac, secret: Secret, content: string): string {
    VERSION + "," + Encode(mac(secret, content))
  }

  function SignatureValues(mac: Mac, secrets: seq<Secret>, content: string): seq<string> {
    seq(|secrets|, i requires 0 <= i < |secrets| => SignatureValue(mac, secrets[i], content))
  }

  /** `strings.Join(parts, " ")`. */
  function Join(parts: seq<string>): string {
    if parts == [] then "" else if |parts| == 1 then parts[0] else parts[0] + " " + Join(parts[1..])
  }

  function Signed(mac: Mac, secrets: seq<Secret>, id: string, t: Time, body: string): Result<Headers, Error> {
    if secrets == [] || !ValidMessageID(id) || Unix(t) < 0 then Err(InvalidHeaders)
    else
      var timestamp := Format(Unix(t));
      Ok(Headers(id, timestamp, Join(SignatureValues(mac, secrets, SigningContent(id, timestamp, body)))))
  }

  method Sign(mac: Mac, secrets: seq<Secret>, id: string, t: Time, body: string) returns (r: Result<Headers, Error>)
    ensures r == Signed(mac, secrets, id, t, body)
  {
    var named := CheckMessageID(id);
    if secrets == [] || !named || Unix(t) < 0 {
      return Err(InvalidHeaders);
    }
    var timestamp := Format(Unix(t));
    var content := SigningContent(id, timestamp, body);
    var signatures: seq<string> := [];
    for n := 0 to |secrets|
      invariant |signatures| == n
      invariant forall i :: 0 <= i < n ==> signatures[i] == SignatureValue(mac, secrets[i], content)
    {
      signatures := signatures + [SignatureValue(mac, secrets[n], content)];
    }
    assert signatures == SignatureValues(mac, secrets, content);
    r := Ok(Headers(id, timestamp, Join(signatures)));
  }

  /* ---- Parsing headers ---- */

  function ParseTimestamp(value: string): Option<nat> {
    if value == "" || !AllDigits(value) || Parse(value) > MAX_INT64 then None else Some(Parse(value))
  }

  function IndexOf(s: string, c: char): (n: nat)
    ensures n <= |s| && c !in s[..n] && (n < |s| ==> s[n] == c)
  {
    if s == "" || s[0] == c then 0
    else
      var n := 1 + IndexOf(s[1..], c);
      assert s[..n] == [s[0]] + s[1..][..n - 1];
      n
  }

  /** `strings.Split(s, " ")`. */
  function SplitSpaces(s: string): seq<string>
    decreases |s|
  {
    var n := IndexOf(s, ' ');
    if n == |s| then [s] else [s[..n]] + SplitSpaces(s[n + 1..])
  }

  lemma {:induction false} IndexOfFirst(part: string, rest: string, c: char)
    requires c !in part
    ensures IndexOf(part + [c] + rest, c) == |part|
    decreases |part|
  {
    if part != "" {
      IndexOfFirst(part[1..], rest, c);
      assert (part + [c] + rest)[1..] == part[1..] + [c] + rest;
    }
  }

  lemma {:induction false} SplitJoin(parts: seq<string>)
    requires parts != [] && forall i :: 0 <= i < |parts| ==> ' ' !in parts[i]
    ensures SplitSpaces(Join(parts)) == parts
  {
    if |parts| == 1 {
      assert IndexOf(parts[0], ' ') == |parts[0]|;
    } else {
      var s := parts[0] + " " + Join(parts[1..]);
      IndexOfFirst(parts[0], Join(parts[1..]), ' ');
      SplitJoin(parts[1..]);
      assert s[..|parts[0]|] == parts[0] && s[|parts[0]| + 1..] == Join(parts[1..]);
    }
  }

  function ParsePart(part: string): Result<Digest, Error> {
    var comma := IndexOf(part, ',');
    if comma == |part| || comma == 0 || comma + 1 == |part| || ',' in part[comma + 1..] then Err(InvalidHeaders)
    else if part[..comma] != VERSION then Err(UnsupportedVersion)
    else match Decode(part[comma + 1..])
      case None => Err(InvalidHeaders)
      case Some(signature) => if |signature| == DIGEST_SIZE then Ok(signature) else Err(InvalidHeaders)
  }

  /** Every part in order, or the first error. */
  function ParseParts(parts: seq<string>): Result<seq<Digest>, Error> {
    if parts == [] then Ok([])
    else match ParseParts(parts[..|parts| - 1])
      case Err(e) => Err(e)
      case Ok(parsed) =>
        match ParsePart(parts[|parts| - 1])
        case Err(e) => Err(e)
        case Ok(d) => Ok(parsed + [d])
  }

  predicate WellSpaced(value: string) {
    value != "" && value[0] != ' ' && value[|value| - 1] != ' '
    && '\t' !in value && '\r' !in value && '\n' !in value
  }

  function ParsedSignatures(value: string): Result<seq<Digest>, Error> {
    if !WellSpaced(value) then Err(InvalidHeaders) else ParseParts(SplitSpaces(value))
  }

  lemma {:induction false} ErrorStays(parts: seq<string>, n: nat)
    requires n <= |parts| && ParseParts(parts[..n]).Err?
    ensures ParseParts(parts) == ParseParts(parts[..n])
  {
    if n == |parts| {
      assert parts[..n] == parts;
    } else {
      assert parts[..|parts| - 1][..n] == parts[..n];
      ErrorStays(parts[..|parts| - 1], n);
    }
  }

  method ParseSignatures(value: string) returns (r: Result<seq<Digest>, Error>)
    ensures r == ParsedSignatures(value)
  {
    if !WellSpaced(value) {
      return Err(InvalidHeaders);
    }
    var parts := SplitSpaces(value);
    var signatures: seq<Digest> := [];
    for n := 0 to |parts|
      invariant ParseParts(parts[..n]) == Ok(signatures)
    {
      assert parts[..n + 1][..n] == parts[..n];
      var parsed := ParsePart(parts[n]);
      if parsed.Err? {
        ErrorStays(parts, n + 1);
        return Err(parsed.error);
      }
      signatures := signatures + [parsed.value];
    }
    assert parts[..|parts|] == parts;
    r := Ok(signatures);
  }

  /* ---- Verification ---- */

  predicate WithinTolerance(timestamp: int, now: int, tolerance: int) {
    if now >= timestamp then now - timestamp <= tolerance else timestamp - now <= tolerance
  }

  predicate SignedBy(mac: Mac, secrets: seq<Secret>, signatures: seq<Digest>, content: string) {
    exists i, k :: 0 <= i < |secrets| && 0 <= k < |signatures| && mac(secrets[i], content) == signatures[k]
  }

  function Verified(mac: Mac, secrets: seq<Secret>, h: Headers, body: string, now: Time,
                    tolerance: int): Option<Error> {
    if secrets == [] || !ValidMessageID(h.id) then Some(InvalidHeaders)
    else if tolerance < SECOND || Unix(now) < 0 then Some(InvalidTolerance)
    else match ParseTimestamp(h.timestamp)
      case None => Some(InvalidHeaders)
      case Some(timestamp) =>
        if !WithinTolerance(timestamp, Unix(now), tolerance / SECOND) then Some(OutsideTolerance)
        else match ParsedSignatures(h.signature)
          case Err(e) => Some(e)
          case Ok(signatures) =>
            if SignedBy(mac, secrets, signatures, SigningContent(h.id, h.timestamp, body)) then None else Some(Mismatch)
  }

  lemma SignedByNext(mac: Mac, secrets: seq<Secret>, n: nat, signatures: seq<Digest>, content: string)
    requires n < |secrets|
    ensures SignedBy(mac, secrets[..n + 1], signatures, content) <==>
            || SignedBy(mac, secrets[..n], signatures, content)
            || exists k :: 0 <= k < |signatures| && mac(secrets[n], content) == signatures[k]
  {
    assert secrets[..n + 1] == secrets[..n] + [secrets[n]];
    if SignedBy(mac, secrets[..n], signatures, content) {
      var i, k :| 0 <= i < n && 0 <= k < |signatures| && mac(secrets[..n][i], content) == signatures[k];
      assert secrets[..n + 1][i] == secrets[..n][i];
    } else if exists k :: 0 <= k < |signatures| && mac(secrets[n], content) == signatures[k] {
      var k :| 0 <= k < |signatures| && mac(secrets[n], content) == signatures[k];
      assert secrets[..n + 1][n] == secrets[n];
    }
  }

  /** `None` is success. Every secret is compared with every signature. */
  method VerifyWithTolerance(mac: Mac, secrets: seq<Secret>, h: Headers, body: string, now: Time, tolerance: int)
    returns (e: Option<Error>)
    ensures e == Verified(mac, secrets, h, body, now, tolerance)
  {
    var named := CheckMessageID(h.id);
    if secrets == [] || !named {
      return Some(InvalidHeaders);
    }
    if tolerance < SECOND || Unix(now) < 0 {
      return Some(InvalidTolerance);
    }
    var timestamp := ParseTimestamp(h.timestamp);
    if timestamp == None {
      return Some(InvalidHeaders);
    }
    if !WithinTolerance(timestamp.value, Unix(now), tolerance / SECOND) {
      return Some(OutsideTolerance);
    }
    var parsed := ParseSignatures(h.signature);
    if parsed.Err? {
      return Some(parsed.error);
    }
    var signatures := parsed.value;
    var content := SigningContent(h.id, h.timestamp, body);
    var matched := false;
    for n := 0 to |secrets|
      invariant matched <==> SignedBy(mac, secrets[..n], signatures, content)
    {
      var expected := mac(secrets[n], content);
      ghost var before := matched;
      for m := 0 to |signatures|
        invariant matched <==> before || exists k :: 0 <= k < m && expected == signatures[k]
      {
        matched := matched || expected == signatures[m];
      }
      SignedByNext(mac, secrets, n, signatures, content);
    }
    assert secrets[..|secrets|] == secrets;
    if !matched {
      return Some(Mismatch);
    }
    e := None;
  }

  /* ---- Round trip ---- */

  function Digests(mac: Mac, secrets: seq<Secret>, content: string): seq<Digest> {
    seq(|secrets|, i requires 0 <= i < |secrets| => mac(secrets[i], content))
  }

  lemma ValueParses(mac: Mac, secret: Secret, content: string)
    ensures ParsePart(SignatureValue(mac, secret, content)) == Ok(mac(secret, content))
    ensures ' ' !in SignatureValue(mac, secret, content)
    ensures forall c :: c in "\t\r\n" ==> c !in SignatureValue(mac, secret, content)
    ensures SignatureValue(mac, secret, content) != ""
  {
    hide Encode, Decode, Value;
    var d := mac(secret, content);
    var encoded := Encode(d);
    EncodeChars(d);
    DecodeOfEncode(d);
    var part := SignatureValue(mac, secret, content);
    assert part == VERSION + [','] + encoded;
    IndexOfFirst(VERSION, encoded, ',');
    hide IndexOf;
    assert part[..2] == VERSION && part[3..] == encoded;
    SpecialsOutside();
    assert ',' !in encoded;
    forall c | c in " \t\r\n" ensures c !in part {
      assert c !in encoded && c !in VERSION && c != ',';
    }
  }

  lemma SpecialsOutside()
    ensures forall c :: c in " \t\r\n," ==> !IsBase64Char(c)
    ensures forall c :: c in " \t\r\n" ==> c !in VERSION && c != ','
  {
  }

  lemma {:induction false} PartsParse(mac: Mac, secrets: seq<Secret>, content: string)
    ensures ParseParts(SignatureValues(mac, secrets, content)) == Ok(Digests(mac, secrets, content))
  {
    hide ParsePart, SignatureValue;
    if secrets == [] {
      assert SignatureValues(mac, secrets, content) == [] && Digests(mac, secrets, content) == [];
    } else {
      var init, last := secrets[..|secrets| - 1], secrets[|secrets| - 1];
      PartsParse(mac, init, content);
      ValueParses(mac, last, content);
      var parts := SignatureValues(mac, secrets, content);
      assert parts[..|parts| - 1] == SignatureValues(mac, init, content);
      assert parts[|parts| - 1] == SignatureValue(mac, last, content);
      assert Digests(mac, secrets, content) == Digests(mac, init, content) + [mac(last, content)];
    }
  }

  lemma {:induction false} JoinedWellSpaced(parts: seq<string>)
    requires parts != []
    requires forall i :: 0 <= i < |parts| ==> parts[i] != "" && ' ' !in parts[i] && forall c :: c in "\t\r\n" ==>
        c !in parts[i]
    ensures WellSpaced(Join(parts))
  {
    hide IndexOf;
    if |parts| > 1 {
      JoinedWellSpaced(parts[1..]);
    }
    assert forall c :: c in "\t\r\n" <==> c == '\t' || c == '\r' || c == '\n';
  }

  /** The signatures in signed headers are exactly the digests of the keyring. */
  lemma SignedParses(mac: Mac, secrets: seq<Secret>, id: string, t: Time, body: string)
    requires Signed(mac, secrets, id, t, body).Ok?
    ensures var h := Signed(mac, secrets, id, t, body).value;
            ParsedSignatures(h.signature) == Ok(Digests(mac, secrets, SigningContent(id, h.timestamp, body)))
  {
    var h := Signed(mac, secrets, id, t, body).value;
    var content := SigningContent(id, h.timestamp, body);
    var parts := SignatureValues(mac, secrets, content);
    forall i | 0 <= i < |parts|
      ensures parts[i] != "" && ' ' !in parts[i] && forall c :: c in "\t\r\n" ==> c !in parts[i]
    {
      ValueParses(mac, secrets[i], content);
    }
    JoinedWellSpaced(parts);
    SplitJoin(parts);
    PartsParse(mac, secrets, content);
  }

  /** Headers signed by one keyring verify under any keyring that shares a secret,
      exactly when the clocks agree within the tolerance. */
  lemma SharedSecretVerifies(mac: Mac, signer: seq<Secret>, verifier: seq<Secret>, secret: Secret,
                             id: string, t: Time, body: string, now: Time, tolerance: int)
    requires secret in signer && secret in verifier
    requires ValidMessageID(id) && Unix(t) >= 0 && Representable(t) && Unix(now) >= 0 && tolerance >= SECOND
    ensures Signed(mac, signer, id, t, body).Ok?
    ensures var h := Signed(mac, signer, id, t, body).value;
            Verified(mac, verifier, h, body, now, tolerance) ==
            if WithinTolerance(Unix(t), Unix(now), tolerance / SECOND) then None else Some(OutsideTolerance)
  {
    var h := Signed(mac, signer, id, t, body).value;
    ParseFormat(Unix(t));
    SignedParses(mac, signer, id, t, body);
    var content := SigningContent(id, h.timestamp, body);
    var a :| 0 <= a < |signer| && signer[a] == secret;
    var b :| 0 <= b < |verifier| && verifier[b] == secret;
    var signatures := ParsedSignatures(h.signature).value;
    assert mac(verifier[b], content) == signatures[a];
    hide ValidMessageID, ParsedSignatures, SigningContent;
  }

  /** A signature cannot be carried to another message: if the signature header of
      a signed message verifies with another id, timestamp or body, two different
      contents have the same HMAC. */
  lemma NoTransplant(mac: Mac, signer: seq<Secret>, verifier: seq<Secret>, id: string, t: Time, body: string,
                     h: Headers, body': string, now: Time, tolerance: int)
    requires Signed(mac, signer, id, t, body).Ok?
    requires h.signature == Signed(mac, signer, id, t, body).value.signature
    requires Verified(mac, verifier, h, body', now, tolerance) == None
    ensures || (h == Signed(mac, signer, id, t, body).value && body' == body)
            || exists a, b :: a in signer && b in verifier
                 && SigningContent(id, Format(Unix(t)), body) != SigningContent(h.id, h.timestamp, body')
                 && mac(a, SigningContent(id, Format(Unix(t)), body)) ==
                     mac(b, SigningContent(h.id, h.timestamp, body'))
  {
    var signed := Signed(mac, signer, id, t, body).value;
    SignedParses(mac, signer, id, t, body);
    ParseFormat(Unix(t));
    SigningContentInjective(id, signed.timestamp, body, h.id, h.timestamp, body');
    var content, content' := SigningContent(id, signed.timestamp, body), SigningContent(h.id, h.timestamp, body');
    var signatures := ParsedSignatures(h.signature).value;
    var i, k :| 0 <= i < |verifier| && 0 <= k < |signatures| && mac(verifier[i], content') == signatures[k];
    assert signatures[k] == mac(signer[k], content);
    assert signer[k] in signer && verifier[i] in verifier;
  }
}
