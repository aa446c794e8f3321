/** What is advertised, and the discovery errors. Strings are sequences of Unicode characters. */
module DiscoveryTypes {
  import opened Wrappers

  const MAX_DISCRIMINATOR := 4095
  const ID_LENGTH := 16
  const WINDOW_DEFAULT := 15 * 60 * 1_000_000_000

  datatype CommissionableInfo = CommissionableInfo(
    discriminator: u16, categories: seq<u8>, serial: string, brand: string, model: string, deviceName: string,
    port: u16, host: string)

  datatype OperationalInfo = OperationalInfo(
    zoneId: string, deviceId: string, vendorProduct: string, firmware: string, endpointCount: u8,
    port: u16, host: string)

  datatype CommissionerInfo = CommissionerInfo(
    zoneName: string, zoneId: string, vendorProduct: string, controllerName: string, deviceCount: u8,
    port: u16, host: string)

  datatype PairingRequestInfo = PairingRequestInfo(discriminator: u16, zoneId: string, zoneName: string, host: string)

  datatype Error =
    | MissingRequired
    | InvalidDiscriminator
    | InvalidTXTRecord
    | NotFound
    | AlreadyExists
    | RegistrationFailed

  predicate IsHexDigit(c: char) {
    '0' <= c <= '9' || 'a' <= c <= 'f' || 'A' <= c <= 'F'
  }

  predicate IsHexString(s: string) {
    forall i :: 0 <= i < |s| ==> IsHexDigit(s[i])
  }

  /** A proper identifier: 16 hexadecimal digits. */
  predicate IsId(s: string) {
    |s| == ID_LENGTH && IsHexString(s)
  }

  /** An identifier is 16 characters out of these. */
  lemma IdExactly(s: string)
    ensures IsId(s) <==> |s| == 16 && forall i :: 0 <= i < |s| ==> s[i] in "0123456789abcdefABCDEF"
  {
    forall c: char
      ensures IsHexDigit(c) <==> c in "0123456789abcdefABCDEF"
    {
      HexDigitExactly(c);
    }
  }

  lemma HexDigitExactly(c: char)
    ensures IsHexDigit(c) <==> c in "0123456789abcdefABCDEF"
  {
    var digits := "0123456789abcdefABCDEF";
    if '0' <= c <= '9' {
      assert digits[c as int - '0' as int] == c;
    } else if 'a' <= c <= 'f' {
      assert digits[c as int - 'a' as int + 10] == c;
    } else if 'A' <= c <= 'F' {
      assert digits[c as int - 'A' as int + 16] == c;
    }
  }

  /** Bytes of a character in UTF-8. */
  function Utf8Width(c: char): nat {
    if c < '\U{80}' then 1 else if c < '\U{800}' then 2 else if c < '\U{10000}' then 3 else 4
  }

  /** What Go's len counts. */
  function Utf8Length(s: string): nat {
    if s == "" then 0 else Utf8Width(s[0]) + Utf8Length(s[1..])
  }

  /** For hexadecimal strings, bytes and characters are the same. */
  lemma {:induction false} HexLength(s: string)
    requires IsHexString(s)
    ensures Utf8Length(s) == |s|
  {
    if s != "" {
      HexLength(s[1..]);
    }
  }

  function Validate(p: PairingRequestInfo): Option<Error> {
    if p.discriminator > MAX_DISCRIMINATOR then Some(InvalidDiscriminator)
    else if Utf8Length(p.zoneId) != ID_LENGTH then Some(MissingRequired)
    else if !IsHexString(p.zoneId) then Some(InvalidTXTRecord)
    else if p.host == "" then Some(MissingRequired)
    else None
  }
}
