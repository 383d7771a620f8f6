/** The signed OAuth state (services/oauth_service.rs) over base64url without padding (section 5 of
    RFC 4648). A Rust string is its UTF-8 bytes: here a byte string is a string of characters below 256. */
module SignedState {
  import opened Prelude
  import opened Uuids

  predicate IsBytes(s: string) {
    forall i :: 0 <= i < |s| ==> s[i] as int < 256
  }

  // ── base64url ──────────────────────────────────────────────────────────────

  type Sextet = d: nat | d < 64

  function Symbol(d: Sextet): (c: char)
    ensures c as int < 128
  {
    if d < 26 then 'A' + d as char
    else if d < 52 then 'a' + (d - 26) as char
    else if d < 62 then '0' + (d - 52) as char
    else if d == 62 then '-' else '_'
  }

  function Digit(c: char): (d: Option<Sextet>)
    ensures d.Some? ==> Symbol(d.value) == c
  {
    if 'A' <= c <= 'Z' then Some(c as nat - 'A' as nat)
    else if 'a' <= c <= 'z' then Some(c as nat - 'a' as nat + 26)
    else if '0' <= c <= '9' then Some(c as nat - '0' as nat + 52)
    else if c == '-' then Some(62)
    else if c == '_' then Some(63)
    else None
  }

  lemma DigitOfSymbol(d: Sextet)
    ensures Digit(Symbol(d)) == Some(d)
  {}

  /** Octets regrouped into sextets; the last one padded with zero bits. */
  function Regroup(b: string): seq<Sextet>
    requires IsBytes(b)
  {
    if b == "" then []
    else
      var x := b[0] as nat;
      if |b| == 1 then [x / 4, x % 4 * 16]
      else
        var y := b[1] as nat;
        if |b| == 2 then [x / 4, x % 4 * 16 + y / 16, y % 16 * 4]
        else
          var z := b[2] as nat;
          [x / 4, x % 4 * 16 + y / 16, y % 16 * 4 + z / 64, z % 64] + Regroup(b[3..])
  }

  /** Rejects a lone trailing sextet and trailing bits that are not zero. */
  function Ungroup(d: seq<Sextet>): (b: Option<string>)
    ensures b.Some? ==> IsBytes(b.value)
  {
    if d == [] then Some("")
    else if |d| == 1 then None
    else
      var p: nat, q: nat := d[0], d[1];
      var x := (p * 4 + q / 16) as char;
      if |d| == 2 then if q % 16 == 0 then Some([x]) else None
      else
        var r: nat := d[2];
        var y := (q % 16 * 16 + r / 4) as char;
        if |d| == 3 then if r % 4 == 0 then Some([x, y]) else None
        else if Ungroup(d[4..]).None? then None
        else
          var t: nat := d[3];
          Some([x, y, (r % 4 * 64 + t) as char] + Ungroup(d[4..]).value)
  }

  /** Four sextets made of three octets give the three back. */
  lemma OctetsOfSextets(x: nat, y: nat, z: nat)
    requires x < 256 && y < 256 && z < 256
    ensures var p, q, r, t := x / 4, x % 4 * 16 + y / 16, y % 16 * 4 + z / 64, z % 64;
            && p < 64 && q < 64 && r < 64 && t < 64
            && p * 4 + q / 16 == x && q % 16 * 16 + r / 4 == y && r % 4 * 64 + t == z
  {}

  lemma UngroupOne(c: char)
    requires c as int < 256
    ensures Ungroup(Regroup([c])) == Some([c])
  {
    var x := c as nat;
    assert x % 4 * 16 / 16 == x % 4 && x % 4 * 16 % 16 == 0;
    assert Regroup([c]) == [x / 4, x % 4 * 16];
  }

  lemma UngroupTwo(c: char, d: char)
    requires c as int < 256 && d as int < 256
    ensures Ungroup(Regroup([c, d])) == Some([c, d])
  {
    var x, y := c as nat, d as nat;
    OctetsOfSextets(x, y, 0);
    assert y % 16 * 4 / 4 == y % 16 && y % 16 * 4 % 4 == 0;
    assert Regroup([c, d]) == [x / 4, x % 4 * 16 + y / 16, y % 16 * 4];
  }

  lemma {:induction false} UngroupRegroup(b: string)
    requires IsBytes(b)
    ensures Ungroup(Regroup(b)) == Some(b)
  {
    if |b| > 2 {
      OctetsOfSextets(b[0] as nat, b[1] as nat, b[2] as nat);
      UngroupRegroup(b[3..]);
      assert Regroup(b)[4..] == Regroup(b[3..]);
      assert b == [b[0], b[1], b[2]] + b[3..];
    } else if |b| == 2 {
      UngroupTwo(b[0], b[1]);
      assert b == [b[0], b[1]];
    } else if |b| == 1 {
      UngroupOne(b[0]);
      assert b == [b[0]];
    }
  }

  /** Three octets made of four sextets give the four back. */
  lemma SextetsOfOctets(p: nat, q: nat, r: nat, t: nat)
    requires p < 64 && q < 64 && r < 64 && t < 64
    ensures var x, y, z := p * 4 + q / 16, q % 16 * 16 + r / 4, r % 4 * 64 + t;
            x / 4 == p && x % 4 * 16 + y / 16 == q && y % 16 * 4 + z / 64 == r && z % 64 == t
  {}

  lemma {:induction false} RegroupUngroup(d: seq<Sextet>)
    requires Ungroup(d).Some?
    ensures Regroup(Ungroup(d).value) == d
  {
    if |d| > 3 {
      SextetsOfOctets(d[0], d[1], d[2], d[3]);
      RegroupUngroup(d[4..]);
      assert Ungroup(d).value[3..] == Ungroup(d[4..]).value;
      assert d == [d[0], d[1], d[2], d[3]] + d[4..];
    } else if |d| == 3 {
      SextetsOfOctets(d[0], d[1], d[2], 0);
      assert d == [d[0], d[1], d[2]];
    } else if |d| == 2 {
      SextetsOfOctets(d[0], d[1], 0, 0);
      assert d == [d[0], d[1]];
    }
  }

  function Encode(b: string): string
    requires IsBytes(b)
  {
    var d := Regroup(b);
    seq(|d|, i requires 0 <= i < |d| => Symbol(d[i]))
  }

  predicate AllDigits(s: string) {
    forall i :: 0 <= i < |s| ==> Digit(s[i]).Some?
  }

  /** A symbol outside the alphabet, padding included, rejects the whole text. */
  function Decode(s: string): (r: Option<string>)
    ensures r.Some? ==> IsBytes(r.value)
  {
    if AllDigits(s) then Ungroup(seq(|s|, i requires 0 <= i < |s| => Digit(s[i]).value)) else None
  }

  lemma DecodeEncode(b: string)
    requires IsBytes(b)
    ensures Decode(Encode(b)) == Some(b)
  {
    var d, s := Regroup(b), Encode(b);
    forall i | 0 <= i < |s| ensures Digit(s[i]) == Some(d[i]) {
      DigitOfSymbol(d[i]);
    }
    assert seq(|s|, i requires 0 <= i < |s| => Digit(s[i]).value) == d;
    UngroupRegroup(b);
  }

  /** The codec is a bijection onto what it accepts: no byte string has two accepted texts. */
  lemma EncodeDecode(s: string)
    requires Decode(s).Some?
    ensures Encode(Decode(s).value) == s
  {
    RegroupUngroup(seq(|s|, i requires 0 <= i < |s| => Digit(s[i]).value));
  }

  // ── UTF-8 (what `String::from_utf8` accepts) ───────────────────────────────

  predicate Continues(c: char) { 0x80 <= c as int < 0xC0 }

  function LeadLength(s: string): nat
    requires s != ""
  {
    var a := s[0] as int;
    if a < 0x80 then 1
    else if 0xC2 <= a < 0xE0 && |s| >= 2 && Continues(s[1]) then 2
    else if 0xE0 <= a < 0xF0 && |s| >= 3 && Continues(s[1]) && Continues(s[2])
            && (a == 0xE0 ==> s[1] as int >= 0xA0) && (a == 0xED ==> (s[1] as int) < 0xA0) then 3
    else if 0xF0 <= a < 0xF5 && |s| >= 4 && Continues(s[1]) && Continues(s[2]) && Continues(s[3])
            && (a == 0xF0 ==> s[1] as int >= 0x90) && (a == 0xF4 ==> (s[1] as int) < 0x90) then 4
    else 0
  }

  predicate ValidUtf8(s: string) {
    s == "" || (LeadLength(s) > 0 && ValidUtf8(s[LeadLength(s)..]))
  }

  lemma {:induction false} AsciiIsValid(s: string)
    requires forall i :: 0 <= i < |s| ==> s[i] as int < 0x80
    ensures ValidUtf8(s)
  {
    if s != "" {
      AsciiIsValid(s[1..]);
    }
  }

  // ── Splitting ──────────────────────────────────────────────────────────────

  /** `rfind(':')`. */
  function LastColon(s: string): (r: Option<nat>)
    ensures r.Some? ==> r.value < |s| && s[r.value] == ':' && ':' !in s[r.value + 1..]
    ensures r.None? ==> ':' !in s
  {
    if s == "" then None
    else if s[|s| - 1] == ':' then Some(|s| - 1)
    else
      var r := LastColon(s[..|s| - 1]);
      assert s == s[..|s| - 1] + [s[|s| - 1]];
      assert r.Some? ==> s[r.value + 1..] == s[..|s| - 1][r.value + 1..] + [s[|s| - 1]];
      r
  }

  /** `split(':').next()`. */
  function FirstField(s: string): string {
    if s == "" || s[0] == ':' then "" else [s[0]] + FirstField(s[1..])
  }

  lemma LastColonOfJoin(a: string, b: string)
    requires ':' !in b
    ensures LastColon(a + ":" + b) == Some(|a|)
  {
    var s := a + ":" + b;
    assert s[|a|] == ':';
    assert s[|a| + 1..] == b;
  }

  lemma {:induction false} FirstFieldOfJoin(a: string, b: string)
    requires ':' !in a
    ensures FirstField(a + ":" + b) == a
  {
    if a != "" {
      assert (a + ":" + b)[1..] == a[1..] + ":" + b;
      FirstFieldOfJoin(a[1..], b);
    }
  }

  // ── Generate and verify ────────────────────────────────────────────────────

  /** HMAC-SHA256 as hexadecimal text: the message and the key, 64 digits. */
  type Mac = s: string | |s| == 64 && AllHex(s) witness Digits(0, 64)

  type Hmac = (string, string) -> Mac

  function Signed(payload: string, key: string, hmac: Hmac): string { payload + ":" + hmac(payload, key) }

  function Payload(tenant: Uuid, nonce: Uuid): string { Text(tenant) + ":" + Text(nonce) }

  function Generate(tenant: Uuid, nonce: Uuid, key: string, hmac: Hmac): string {
    HexIsPlain(hmac(Payload(tenant, nonce), key));
    TextIsPlain(tenant);
    TextIsPlain(nonce);
    Encode(Signed(Payload(tenant, nonce), key, hmac))
  }

  function Verify(state: string, key: string, hmac: Hmac): Option<Uuid> {
    match Decode(state)
    case None => None
    case Some(decoded) =>
      if !ValidUtf8(decoded) || LastColon(decoded).None? then None
      else
        var c := LastColon(decoded).value;
        var payload, provided := decoded[..c], decoded[c + 1..];
        if provided != hmac(payload, key) then None else Parse(FirstField(payload))
  }

  lemma HexIsPlain(s: string)
    requires AllHex(s)
    ensures ':' !in s && forall i :: 0 <= i < |s| ==> s[i] as int < 0x80
  {}

  lemma TextIsPlain(u: Uuid)
    ensures ':' !in Text(u) && forall i :: 0 <= i < |Text(u)| ==> Text(u)[i] as int < 0x80
  {}

  /** Round trip, for every tenant, nonce and key. */
  lemma VerifyGenerate(tenant: Uuid, nonce: Uuid, key: string, hmac: Hmac)
    ensures Verify(Generate(tenant, nonce, key, hmac), key, hmac) == Some(tenant)
  {
    var payload := Payload(tenant, nonce);
    var mac := hmac(payload, key);
    HexIsPlain(mac);
    TextIsPlain(tenant);
    TextIsPlain(nonce);
    var s := Signed(payload, key, hmac);
    assert forall i :: 0 <= i < |s| ==> s[i] as int < 0x80;
    DecodeEncode(s);
    AsciiIsValid(s);
    LastColonOfJoin(payload, mac);
    assert s[..|payload|] == payload && s[|payload| + 1..] == mac;
    FirstFieldOfJoin(Text(tenant), Text(nonce));
    ParseText(tenant);
  }

  lemma AcceptedIsSigned(state: string, key: string, hmac: Hmac) returns (payload: string)
    requires Verify(state, key, hmac).Some?
    ensures IsSignedState(state, payload, key, hmac) && Parse(FirstField(payload)) == Verify(state, key, hmac)
  {
    var decoded := Decode(state).value;
    var c := LastColon(decoded).value;
    payload := decoded[..c];
    EncodeDecode(state);
    JoinAtColon(decoded, c);
  }

  lemma JoinAtColon(s: string, c: nat)
    requires c < |s| && s[c] == ':'
    ensures s[..c] + ":" + s[c + 1..] == s
  {}

  lemma SplitSigned(payload: string, key: string, hmac: Hmac)
    ensures var s := Signed(payload, key, hmac);
            LastColon(s) == Some(|payload|) && s[..|payload|] == payload && s[|payload| + 1..] == hmac(payload, key)
  {
    HexIsPlain(hmac(payload, key));
    LastColonOfJoin(payload, hmac(payload, key));
  }

  lemma SignedIsRead(state: string, payload: string, key: string, hmac: Hmac)
    requires IsSignedState(state, payload, key, hmac)
    ensures Verify(state, key, hmac) == Parse(FirstField(payload))
  {
    DecodeEncode(Signed(payload, key, hmac));
    SplitSigned(payload, key, hmac);
  }

  /** A text is accepted for a tenant exactly if it encodes some payload under that payload's own
      mac, and the payload's first field names the tenant. */
  lemma AcceptedIffSigned(state: string, key: string, hmac: Hmac, tenant: Uuid)
    ensures Verify(state, key, hmac) == Some(tenant)
            <==> exists payload ::
                   IsSignedState(state, payload, key, hmac) && Parse(FirstField(payload)) == Some(tenant)
  {
    if Verify(state, key, hmac) == Some(tenant) {
      var payload := AcceptedIsSigned(state, key, hmac);
    }
    forall payload | IsSignedState(state, payload, key, hmac)
      ensures Verify(state, key, hmac) == Parse(FirstField(payload))
    {
      SignedIsRead(state, payload, key, hmac);
    }
  }

  predicate IsSignedState(state: string, payload: string, key: string, hmac: Hmac) {
    var s := Signed(payload, key, hmac);
    IsBytes(s) && ValidUtf8(s) && state == Encode(s)
  }

  /** The split at the last colon is unambiguous: one text carries one payload. */
  lemma OnePayload(state: string, p: string, q: string, key: string, hmac: Hmac)
    requires IsSignedState(state, p, key, hmac) && IsSignedState(state, q, key, hmac)
    ensures p == q
  {
    var s, t := Signed(p, key, hmac), Signed(q, key, hmac);
    DecodeEncode(s);
    DecodeEncode(t);
    assert |p| == |s| - 65 && |q| == |t| - 65;
    assert p == s[..|p|] && q == t[..|q|];
  }

  /** With a mac that tells keys apart, a state signed under one key is worthless under another. */
  lemma OtherKeysRefuse(tenant: Uuid, nonce: Uuid, key: string, other: string, hmac: Hmac)
    requires hmac(Payload(tenant, nonce), key) != hmac(Payload(tenant, nonce), other)
    ensures Verify(Generate(tenant, nonce, key, hmac), other, hmac) == None
  {
    HexIsPlain(hmac(Payload(tenant, nonce), key));
    TextIsPlain(tenant);
    TextIsPlain(nonce);
    DecodeEncode(Signed(Payload(tenant, nonce), key, hmac));
    SplitSigned(Payload(tenant, nonce), key, hmac);
  }
}
