/** What exactly is accepted: the secrets, the signature header and the whole request. */
module WebhookTheorems {
  import opened Text
  import opened Contract
  import opened Base64
  import opened Webhook

  /** A serialized secret parses exactly when it is the prefix followed by strict
      base64, up to line breaks, of 24 to 64 bytes, and it parses to those. */
  lemma {:induction false} SecretIff(serialized: string, secret: Secret)
    ensures ParseSecret(serialized) == Some(secret) <==>
            && "whsec_" <= serialized && 24 <= |secret| <= 64
            && WithoutNewlines(serialized[6..]) == Encode(secret)
  {
    hide Decode, Encode, WithoutNewlines;
    if "whsec_" <= serialized { DecodeIff(serialized[6..], secret); }
  }

  /* ---- The signature header ---- */

  /** One signature as it is written. */
  function Written(d: Digest): string {
    "v1," + Encode(d)
  }

  predicate NoBreaks(s: string) {
    '\t' !in s && '\r' !in s && '\n' !in s
  }

  lemma PartIff(part: string, d: Digest)
    requires NoBreaks(part)
    ensures ParsePart(part) == Ok(d) <==> part == Written(d)
  {
    hide Encode, Decode, WithoutNewlines;
    var comma := IndexOf(part, ',');
    if part == Written(d) {
      assert part == "v1" + [','] + Encode(d);
      IndexOfFirst("v1", Encode(d), ',');
      DecodeOfEncode(d);
      EncodeChars(d);
      SpecialsOutside();
      assert part[..2] == "v1" && part[3..] == Encode(d) && ',' !in Encode(d);
    }
    if ParsePart(part) == Ok(d) {
      var encoded := part[comma + 1..];
      DecodeIff(encoded, d);
      forall i | 0 <= i < |encoded| ensures !IsNewline(encoded[i]) { assert encoded[i] in part; }
      NoNewlinesKept(encoded);
      assert part == part[..comma] + "," + encoded;
    }
  }

  function AllWritten(digests: seq<Digest>): seq<string> {
    seq(|digests|, i requires 0 <= i < |digests| => Written(digests[i]))
  }

  ghost predicate Breakless(parts: seq<string>) {
    forall i :: 0 <= i < |parts| ==> NoBreaks(parts[i])
  }

  lemma {:induction false} PartsIff(parts: seq<string>, digests: seq<Digest>)
    requires Breakless(parts)
    ensures ParseParts(parts) == Ok(digests) <==> parts == AllWritten(digests)
  {
    hide ParsePart, Written, NoBreaks;
    if parts == [] {
      assert digests != [] ==> |AllWritten(digests)| > 0;
    } else if digests == [] {
      assert AllWritten(digests) == [];
    } else {
      var init, last := parts[..|parts| - 1], parts[|parts| - 1];
      var dinit, dlast := digests[..|digests| - 1], digests[|digests| - 1];
      PartsIff(init, dinit);
      PartIff(last, dlast);
      assert parts == init + [last] && digests == dinit + [dlast];
      assert AllWritten(digests) == AllWritten(dinit) + [Written(dlast)];
      SnocParses(init, last, dinit, dlast);
    }
  }

  lemma {:induction false} SnocParses(init: seq<string>, last: string, dinit: seq<Digest>, dlast: Digest)
    ensures ParseParts(init + [last]) == Ok(dinit + [dlast]) <==>
            ParseParts(init) == Ok(dinit) && ParsePart(last) == Ok(dlast)
  {
    hide ParsePart;
    assert (init + [last])[..|init|] == init;
    if ParseParts(init + [last]) == Ok(dinit + [dlast]) {
      var parsed, d := ParseParts(init).value, ParsePart(last).value;
      assert parsed == (parsed + [d])[..|dinit|] && dinit == (dinit + [dlast])[..|dinit|];
    }
  }

  /** Splitting loses nothing. */
  lemma {:induction false} JoinSplit(s: string)
    ensures SplitSpaces(s) != [] && Join(SplitSpaces(s)) == s
    decreases |s|
  {
    var n := IndexOf(s, ' ');
    hide IndexOf;
    if n < |s| {
      JoinSplit(s[n + 1..]);
      var first, rest := s[..n], SplitSpaces(s[n + 1..]);
      assert s == first + " " + s[n + 1..];
      assert ([first] + rest)[1..] == rest;
    }
  }

  lemma {:induction false} SplitBreakless(s: string)
    requires NoBreaks(s)
    ensures Breakless(SplitSpaces(s))
    decreases |s|
  {
    var n := IndexOf(s, ' ');
    hide IndexOf;
    if n < |s| {
      assert s == s[..n] + [s[n]] + s[n + 1..];
      assert NoBreaks(s[..n]) && NoBreaks(s[n + 1..]);
      SplitBreakless(s[n + 1..]);
    }
  }

  lemma WrittenPlain(d: Digest)
    ensures Written(d) != "" && ' ' !in Written(d) && NoBreaks(Written(d))
    ensures forall c :: c in "\t\r\n" ==> c !in Written(d)
  {
    hide Encode;
    EncodeChars(d);
    SpecialsOutside();
    assert forall c :: c in "\t\r\n" <==> c == '\t' || c == '\r' || c == '\n';
    forall c | c in " \t\r\n" ensures c !in Written(d) { assert c !in Encode(d) && c !in "v1,"; }
    assert ' ' in " \t\r\n" && '\t' in " \t\r\n" && '\r' in " \t\r\n" && '\n' in " \t\r\n";
  }

  /** A signature header parses to these digests exactly when it is their canonical
      writing, one space between two and none else: nothing is skipped, no other
      version or encoding passes, and the order is kept. */
  lemma HeaderIff(value: string, digests: seq<Digest>)
    ensures ParsedSignatures(value) == Ok(digests) <==> digests != [] && value == Join(AllWritten(digests))
  {
    hide Written, ParsePart;
    if WellSpaced(value) {
      JoinSplit(value);
      SplitBreakless(value);
      PartsIff(SplitSpaces(value), digests);
      hide ParseParts;
    }
    if digests != [] && value == Join(AllWritten(digests)) {
      forall i | 0 <= i < |digests| ensures AllWritten(digests)[i] == Written(digests[i]) {}
      forall d ensures Written(d) != "" && ' ' !in Written(d) { WrittenPlain(d); }
      forall d ensures forall c :: c in "\t\r\n" ==> c !in Written(d) { WrittenPlain(d); }
      JoinedWellSpaced(AllWritten(digests));
      SplitJoin(AllWritten(digests));
    }
  }

  /* ---- The whole request ---- */

  /** Some signature of the header is the digest, under one of the secrets, of the
      message: its id, its timestamp and its body, each after a dot. */
  ghost predicate Authentic(mac: Mac, secrets: seq<Secret>, h: Headers, body: string) {
    exists digests, i, k ::
      && 0 <= i < |secrets| && 0 <= k < |digests|
      && h.signature == Join(AllWritten(digests))
      && mac(secrets[i], h.id + "." + h.timestamp + "." + body) == digests[k]
  }

  predicate Named(id: string) {
    1 <= |id| <= 256 && '.' !in id && forall i :: 0 <= i < |id| ==> id[i] > ' ' && id[i] != '\U{7f}'
  }

  /** The timestamp is a decimal 64-bit number of seconds and the clock is at most
      the tolerance before or after it. */
  predicate Timely(timestamp: string, now: Time, tolerance: int) {
    && timestamp != "" && AllDigits(timestamp) && Parse(timestamp) <= 0x7FFF_FFFF_FFFF_FFFF
    && tolerance >= SECOND && Unix(now) >= 0
    && Parse(timestamp) - tolerance / SECOND <= Unix(now) <= Parse(timestamp) + tolerance / SECOND
  }

  /** A request is verified exactly when its id is well formed, its timestamp is
      within the tolerance, and it is authentic. */
  lemma VerifiedIff(mac: Mac, secrets: seq<Secret>, h: Headers, body: string, now: Time, tolerance: int)
    ensures Verified(mac, secrets, h, body, now, tolerance) == None <==>
            Named(h.id) && Timely(h.timestamp, now, tolerance) && Authentic(mac, secrets, h, body)
  {
    assert ValidMessageID(h.id) <==> Named(h.id);
    hide ValidMessageID, Named;
    assert SigningContent(h.id, h.timestamp, body) == h.id + "." + h.timestamp + "." + body;
    hide SigningContent;
    AuthenticIff(mac, secrets, h, body);
    hide ParsedSignatures, SignedBy, Authentic, Parse, AllDigits;
  }

  lemma AuthenticIff(mac: Mac, secrets: seq<Secret>, h: Headers, body: string)
    ensures Authentic(mac, secrets, h, body) <==>
            && ParsedSignatures(h.signature).Ok?
            && SignedBy(mac, secrets, ParsedSignatures(h.signature).value, SigningContent(h.id, h.timestamp, body))
  {
    assert SigningContent(h.id, h.timestamp, body) == h.id + "." + h.timestamp + "." + body;
    hide SigningContent;
    forall digests ensures ParsedSignatures(h.signature) == Ok(digests) <==>
                           digests != [] && h.signature == Join(AllWritten(digests)) {
      HeaderIff(h.signature, digests);
    }
    hide ParsedSignatures, Join, AllWritten;
    if Authentic(mac, secrets, h, body) {
      var digests, i, k :| && 0 <= i < |secrets| && 0 <= k < |digests| && h.signature == Join(AllWritten(digests))
                           && mac(secrets[i], h.id + "." + h.timestamp + "." + body) == digests[k];
      assert ParsedSignatures(h.signature) == Ok(digests);
    }
  }
}
