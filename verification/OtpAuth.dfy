/** The otpauth URI of an authenticator (services/mfa_service.rs) and its inverse. */
module OtpAuth {
  import opened Prelude
  import opened Uuids

  // ── Percent-encoding ───────────────────────────────────────────────────────

  predicate Unreserved(c: char) {
    'A' <= c <= 'Z' || 'a' <= c <= 'z' || '0' <= c <= '9' || c == '-' || c == '_' || c == '.' || c == '~'
  }

  function UpperDigit(d: nat): (c: char)
    requires d < 16
    ensures IsHex(c) && HexValue(c) == d && Unreserved(c)
  {
    if d < 10 then '0' + d as char else 'A' + (d - 10) as char
  }

  /** `{:02X}`: at least two digits, and as many as the number needs. */
  function UpperHex(n: nat): (s: string)
    ensures |s| >= 2 && forall i :: 0 <= i < |s| ==> IsHex(s[i]) && Unreserved(s[i])
    ensures n < 256 ==> |s| == 2 && 16 * HexValue(s[0]) + HexValue(s[1]) == n
  {
    if n < 256 then [UpperDigit(n / 16), UpperDigit(n % 16)] else UpperHex(n / 16) + [UpperDigit(n % 16)]
  }

  /** Escapes the code point, not its UTF-8 bytes. */
  function UrlEncode(s: string): string {
    if s == "" then ""
    else (if Unreserved(s[0]) then [s[0]] else "%" + UpperHex(s[0] as nat)) + UrlEncode(s[1..])
  }

  /** Section 2.1 of RFC 3986: a percent sign and two hexadecimal digits stand for one octet. */
  function UrlDecode(s: string): Option<string> {
    if s == "" then Some("")
    else if s[0] != '%' then
      var rest := UrlDecode(s[1..]);
      if rest.None? then None else Some([s[0]] + rest.value)
    else if |s| < 3 || !IsHex(s[1]) || !IsHex(s[2]) then None
    else
      var rest := UrlDecode(s[3..]);
      if rest.None? then None else Some([(16 * HexValue(s[1]) + HexValue(s[2])) as char] + rest.value)
  }

  predicate Latin(s: string) {
    forall i :: 0 <= i < |s| ==> s[i] as int < 256
  }

  lemma EscapeDecodes(c: char, rest: string)
    requires c as int < 256
    ensures UrlDecode("%" + UpperHex(c as nat) + rest)
            == if UrlDecode(rest).None? then None else Some([c] + UrlDecode(rest).value)
  {
    var h := UpperHex(c as nat);
    var s := "%" + h + rest;
    assert s[1] == h[0] && s[2] == h[1] && s[3..] == rest;
  }

  lemma EscapeTruncates(c: char, rest: string)
    requires c as int >= 256
    ensures var r := UrlDecode("%" + UpperHex(c as nat) + rest); r.Some? ==> r.value != "" && (r.value[0] as int) < 256
  {
    var h := UpperHex(c as nat);
    var s := "%" + h + rest;
    assert s[1] == h[0] && s[2] == h[1];
  }

  /** Decoding undoes encoding exactly for texts whose code points are all below 256. */
  lemma {:induction false} DecodesIffLatin(s: string)
    ensures UrlDecode(UrlEncode(s)) == Some(s) <==> Latin(s)
  {
    if s != "" {
      DecodesIffLatin(s[1..]);
      var rest := UrlEncode(s[1..]);
      assert s == [s[0]] + s[1..];
      assert Latin(s) <==> s[0] as int < 256 && Latin(s[1..]);
      if Unreserved(s[0]) {
        assert ([s[0]] + rest)[1..] == rest;
      } else if s[0] as int < 256 {
        EscapeDecodes(s[0], rest);
        assert UrlEncode(s) == "%" + UpperHex(s[0] as nat) + rest;
      } else {
        EscapeTruncates(s[0], rest);
      }
    }
  }

  /** For instance the first letter beyond Latin-1 comes back as a control character and a zero. */
  lemma BeyondLatin()
    ensures UrlEncode("\U{0100}") == "%100" && UrlDecode("%100") == Some("\U{0010}0")
  {
    assert UpperHex(256) == UpperHex(16) + [UpperDigit(0)] == "100";
    assert "\U{0100}"[1..] == "";
    assert UrlEncode("\U{0100}") == "%" + "100" + "";
    assert "%100"[3..] == "0" && "0"[1..] == "";
    EscapeDecodes('\U{0010}', "0");
    assert "%" + UpperHex(16) + "0" == "%100";
    assert UrlDecode("0") == Some(['0'] + "") && ['0'] + "" == "0";
    assert ['\U{0010}'] + "0" == "\U{0010}0";
  }

  predicate IsSeparator(c: char) { c == ':' || c == '/' || c == '?' || c == '#' || c == '&' || c == '=' || c == ' ' }

  predicate Plain(s: string) {
    forall i :: 0 <= i < |s| ==> !IsSeparator(s[i])
  }

  /** Encoded text contains no separator, whatever was encoded. */
  lemma {:induction false} EncodedIsPlain(s: string)
    ensures Plain(UrlEncode(s))
  {
    if s != "" {
      EncodedIsPlain(s[1..]);
    }
  }

  // ── The URI and its parser ─────────────────────────────────────────────────

  const SCHEME := "otpauth://totp/"

  const SETTINGS := "algorithm=SHA1&digits=6&period=30"

  function Field(name: string, value: string): string { name + ['='] + value }

  function Query(secret: string, issuer: string): string {
    Field("secret", secret) + ['&'] + (Field("issuer", issuer) + ['&'] + SETTINGS)
  }

  function TotpUri(secret: string, email: string, issuer: string): string {
    SCHEME + (UrlEncode(issuer) + [':'] + UrlEncode(email) + ['?'] + Query(secret, UrlEncode(issuer)))
  }

  /** The text before the first `c`, and what follows it. */
  function Cut(s: string, c: char): (r: (string, Option<string>))
    ensures r.1.Some? ==> |r.1.value| < |s|
  {
    if s == "" then ("", None)
    else if s[0] == c then ("", Some(s[1..]))
    else var r := Cut(s[1..], c); ([s[0]] + r.0, r.1)
  }

  function Fields(query: string): seq<string>
    decreases |query|
  {
    match Cut(query, '&')
    case (field, None) => [field]
    case (field, Some(rest)) => [field] + Fields(rest)
  }

  /** The value of the first field called `name`. */
  function ValueOf(fields: seq<string>, name: string): Option<string> {
    if fields == [] then None
    else
      var r := Cut(fields[0], '=');
      if r.0 == name && r.1.Some? then r.1 else ValueOf(fields[1..], name)
  }

  datatype Enrolment = Enrolment(secret: string, email: string, issuer: string)

  function Parse(uri: string): Option<Enrolment> {
    if |uri| < |SCHEME| || uri[..|SCHEME|] != SCHEME then None
    else
      var parts := Cut(uri[|SCHEME|..], '?');
      var path := Cut(parts.0, ':');
      if parts.1.None? || path.1.None? then None
      else
        var fields := Fields(parts.1.value);
        var secret, issuer := ValueOf(fields, "secret"), ValueOf(fields, "issuer");
        var email, prefix := UrlDecode(path.1.value), UrlDecode(path.0);
        if secret.None? || issuer.None? || email.None? || prefix.None? || UrlDecode(issuer.value) != prefix then None
        else Some(Enrolment(secret.value, email.value, prefix.value))
  }

  lemma {:induction false} CutAt(a: string, c: char, b: string)
    requires c !in a
    ensures Cut(a + [c] + b, c) == (a, Some(b))
  {
    if a == "" {
      assert a + [c] + b == [c] + b;
    } else {
      assert (a + [c] + b)[1..] == a[1..] + [c] + b;
      CutAt(a[1..], c, b);
      assert a == [a[0]] + a[1..];
    }
  }

  lemma FieldsOfJoin(a: string, b: string)
    requires '&' !in a
    ensures Fields(a + ['&'] + b) == [a] + Fields(b)
  {
    CutAt(a, '&', b);
  }

  predicate Base32(s: string) {
    forall i :: 0 <= i < |s| ==> 'A' <= s[i] <= 'Z' || '2' <= s[i] <= '7'
  }

  lemma LabelIsCut(secret: string, email: string, issuer: string)
    ensures var path := UrlEncode(issuer) + [':'] + UrlEncode(email);
            TotpUri(secret, email, issuer)[..|SCHEME|] == SCHEME
            && Cut(TotpUri(secret, email, issuer)[|SCHEME|..], '?') == (path, Some(Query(secret, UrlEncode(issuer))))
            && Cut(path, ':') == (UrlEncode(issuer), Some(UrlEncode(email)))
  {
    EncodedIsPlain(issuer);
    EncodedIsPlain(email);
    CutAt(UrlEncode(issuer) + [':'] + UrlEncode(email), '?', Query(secret, UrlEncode(issuer)));
    CutAt(UrlEncode(issuer), ':', UrlEncode(email));
  }

  lemma ValueOfField(name: string, value: string, rest: seq<string>, other: string)
    requires '=' !in name
    ensures ValueOf([Field(name, value)] + rest, other) == if other == name then Some(value) else ValueOf(rest, other)
  {
    CutAt(name, '=', value);
    assert ([Field(name, value)] + rest)[1..] == rest;
  }

  lemma FieldIsWhole(name: string, value: string)
    requires '&' !in name && '&' !in value
    ensures '&' !in Field(name, value)
  {}

  lemma QueryHasFields(secret: string, issuer: string)
    requires '&' !in secret && '&' !in issuer
    ensures Fields(Query(secret, issuer)) == [Field("secret", secret)] + ([Field("issuer", issuer)] + Fields(SETTINGS))
  {
    FieldIsWhole("secret", secret);
    FieldIsWhole("issuer", issuer);
    FieldsOfJoin(Field("secret", secret), Field("issuer", issuer) + ['&'] + SETTINGS);
    FieldsOfJoin(Field("issuer", issuer), SETTINGS);
  }

  lemma TwoFields(secret: string, issuer: string, rest: seq<string>)
    ensures var fields := [Field("secret", secret)] + ([Field("issuer", issuer)] + rest);
            ValueOf(fields, "secret") == Some(secret) && ValueOf(fields, "issuer") == Some(issuer)
  {
    ValueOfField("secret", secret, [Field("issuer", issuer)] + rest, "secret");
    ValueOfField("secret", secret, [Field("issuer", issuer)] + rest, "issuer");
    ValueOfField("issuer", issuer, rest, "issuer");
  }

  lemma FieldsOfQuery(secret: string, issuer: string)
    requires '&' !in secret && '&' !in issuer
    ensures ValueOf(Fields(Query(secret, issuer)), "secret") == Some(secret)
    ensures ValueOf(Fields(Query(secret, issuer)), "issuer") == Some(issuer)
  {
    QueryHasFields(secret, issuer);
    TwoFields(secret, issuer, Fields(SETTINGS));
  }

  /** The printer has an inverse: for a base32 secret, the URI reads back as exactly its three inputs
      if and only if issuer and email stay below code point 256. */
  lemma UriReadsBack(secret: string, email: string, issuer: string)
    requires Base32(secret)
    ensures Parse(TotpUri(secret, email, issuer)) == Some(Enrolment(secret, email, issuer))
            <==> Latin(email) && Latin(issuer)
  {
    LabelIsCut(secret, email, issuer);
    EncodedIsPlain(issuer);
    FieldsOfQuery(secret, UrlEncode(issuer));
    DecodesIffLatin(email);
    DecodesIffLatin(issuer);
  }
}
