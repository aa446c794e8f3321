/** Inspection paths: parsing "[device/]endpoint/feature/attribute" and printing it back. */
module InspectPath {
  import opened Wrappers
  import opened GoStrings

  datatype Path = Path(
    device: string, endpoint: u8, feature: u8, attribute: u16, command: u8,
    isCommand: bool, isPartial: bool, raw: string)

  datatype Error = EmptyPath | InvalidPath | BadEndpoint | BadFeature | MissingCommand | BadCommand | BadAttribute

  /** The name tables, as lookups on the name as written. */
  datatype Names = Names(
    endpoint: string -> Option<u8>,
    feature: string -> Option<u8>,
    attribute: (u8, string) -> Option<u16>)

  const UINT8 := 0x100
  const UINT16 := 0x1_0000

  predicate HasHexPrefix(s: string) {
    |s| >= 2 && s[0] == '0' && (s[1] == 'x' || s[1] == 'X')
  }

  /** Decimal, or hexadecimal after "0x". */
  function ParseNumber(s: string, limit: nat): Option<nat> {
    if HasHexPrefix(s) then ParseUint(s[2..], 16, limit) else ParseUint(s, 10, limit)
  }

  predicate IsNumericOrEndpointName(names: Names, s: string) {
    || ParseUint(s, 10, UINT8).Some?
    || (HasHexPrefix(s) && ParseUint(s[2..], 16, UINT8).Some?)
    || names.endpoint(s).Some?
  }

  function OrElse<T>(a: Option<T>, b: Option<T>): Option<T> {
    if a.Some? then a else b
  }

  function ParseEndpoint(names: Names, s: string): Option<u8> {
    OrElse(ParseNumber(s, UINT8), names.endpoint(s))
  }

  function ParseFeature(names: Names, s: string): Option<u8> {
    OrElse(ParseNumber(s, UINT8), names.feature(s))
  }

  function ParseAttribute(names: Names, feature: u8, s: string): Option<u16> {
    OrElse(ParseNumber(s, UINT16), names.attribute(feature, s))
  }

  predicate HasDoubleSlash(s: string) {
    exists i :: 0 <= i < |s| - 1 && s[i] == '/' && s[i + 1] == '/'
  }

  /** The parts after the device prefix; anything after the fourth (third, for an attribute) is ignored. */
  function ParseParts(names: Names, device: string, parts: seq<string>, raw: string): Result<Path, Error>
    requires parts != []
  {
    match ParseEndpoint(names, parts[0])
    case None => Err(BadEndpoint)
    case Some(e) =>
      if |parts| == 1 then Ok(Path(device, e, 0, 0, 0, false, true, raw))
      else
        match ParseFeature(names, parts[1])
        case None => Err(BadFeature)
        case Some(f) =>
          if |parts| == 2 then Ok(Path(device, e, f, 0, 0, false, true, raw))
          else if parts[2] == "cmd" then
            if |parts| < 4 then Err(MissingCommand)
            else
              (match ParseNumber(parts[3], UINT8)
               case None => Err(BadCommand)
               case Some(c) => Ok(Path(device, e, f, 0, c, true, false, raw)))
          else
            match ParseAttribute(names, f, parts[2])
            case None => Err(BadAttribute)
            case Some(a) => Ok(Path(device, e, f, a, 0, false, false, raw))
  }

  function ParsePath(names: Names, input: string): Result<Path, Error> {
    var s := TrimSpace(input);
    if s == "" then Err(EmptyPath)
    else if s[0] == '/' || HasDoubleSlash(s) then Err(InvalidPath)
    else
      var parts := Split(s, '/');
      if !IsNumericOrEndpointName(names, parts[0]) && |parts| > 1
      then ParseParts(names, parts[0], parts[1..], s)
      else ParseParts(names, "", parts, s)
  }

  /** The pieces that String writes, without the slashes between them. */
  function Pieces(p: Path): seq<string> {
    (if p.device != "" then [p.device] else []) +
    [FormatUint(p.endpoint)] +
    (if p.isPartial && p.feature == 0 then []
     else
       [FormatUint(p.feature)] +
       (if p.isPartial && !p.isCommand then []
        else if p.isCommand then ["cmd", FormatUint(p.command)]
        else [FormatUint(p.attribute)]))
  }

  method String(p: Path) returns (r: string)
    ensures r == Join(Pieces(p), '/')
  {
    hide Join, FormatUint;
    var sb := "";
    ghost var parts := [FormatUint(p.endpoint)];
    JoinOne(FormatUint(p.endpoint), '/');
    if p.device != "" {
      sb := sb + p.device;
      sb := sb + "/";
      JoinOne(p.device, '/');
      JoinSnoc([p.device], FormatUint(p.endpoint), '/');
      parts := [p.device] + parts;
    }
    sb := sb + FormatUint(p.endpoint);
    assert sb == Join(parts, '/');
    if p.isPartial && p.feature == 0 {
      assert parts == Pieces(p);
      return sb;
    }
    sb := sb + "/";
    sb := sb + FormatUint(p.feature);
    JoinSnoc(parts, FormatUint(p.feature), '/');
    parts := parts + [FormatUint(p.feature)];
    if p.isPartial && !p.isCommand {
      assert parts == Pieces(p);
      return sb;
    }
    if p.isCommand {
      sb := sb + "/cmd/";
      sb := sb + FormatUint(p.command);
      JoinSnoc(parts, "cmd", '/');
      JoinSnoc(parts + ["cmd"], FormatUint(p.command), '/');
      parts := parts + ["cmd"] + [FormatUint(p.command)];
    } else {
      sb := sb + "/";
      sb := sb + FormatUint(p.attribute);
      JoinSnoc(parts, FormatUint(p.attribute), '/');
      parts := parts + [FormatUint(p.attribute)];
    }
    assert parts == Pieces(p);
    return sb;
  }

  // ---- Printing and parsing again ----

  /** A path that some parse produced: numbers where the form has them and zero elsewhere, and a device
      prefix that cannot be mistaken for an endpoint or for white space. */
  ghost predicate Canonical(names: Names, p: Path) {
    && (p.device != "" ==> !IsNumericOrEndpointName(names, p.device) && '/' !in p.device && !IsSpace(p.device[0]))
    && (p.isPartial ==> p.attribute == 0 && !p.isCommand)
    && (p.isCommand ==> p.attribute == 0)
    && (!p.isCommand ==> p.command == 0)
  }

  lemma NumberReads(n: nat, limit: nat)
    requires n < limit
    ensures ParseNumber(FormatUint(n), limit) == Some(n)
    ensures '/' !in FormatUint(n) && Trimmed(FormatUint(n)) && FormatUint(n) != "cmd" && FormatUint(n) != ""
  {
    hide FormatUint, ParseUint;
    FormatParse(n, limit);
    var t := FormatUint(n);
    assert t[0] in t && t[|t| - 1] in t;
    assert |t| >= 2 ==> t[1] in t;
  }

  lemma EndpointReads(names: Names, s: string)
    ensures IsNumericOrEndpointName(names, s) <==> ParseEndpoint(names, s).Some?
  {
    if HasHexPrefix(s) {
      PrefixedIsNotDecimal(s);
    }
  }

  /** No decimal number contains an 'x'. */
  lemma PrefixedIsNotDecimal(s: string)
    requires HasHexPrefix(s)
    ensures ParseUint(s, 10, UINT8) == None
  {
    NotDecimalPrefix(s, 2);
  }

  lemma {:induction false} NotDecimalPrefix(s: string, k: nat)
    requires HasHexPrefix(s) && 2 <= k <= |s|
    ensures Digits(s, 10) == None
    decreases |s|
  {
    var init := s[..|s| - 1];
    if |s| > 2 {
      NotDecimalPrefix(init, 2);
    }
  }

  /** Everything a successful parse returns is canonical. */
  lemma ParsedCanonical(names: Names, input: string)
    requires ParsePath(names, input).Ok?
    ensures Canonical(names, ParsePath(names, input).value)
  {
    hide ParseUint, Split;
    var s := TrimSpace(input);
    TrimSpaceTrims(input);
    var parts := Split(s, '/');
    assert parts[0] in parts;
    FirstPart(s);
  }

  /** The first part of a path starts like the path. */
  lemma FirstPart(s: string)
    requires s != "" && s[0] != '/'
    ensures Split(s, '/')[0] != "" && Split(s, '/')[0][0] == s[0]
  {
  }

  lemma PiecesClean(names: Names, p: Path)
    requires Canonical(names, p)
    ensures var parts := Pieces(p);
            && parts != [] && (forall i :: 0 <= i < |parts| ==> parts[i] != "" && '/' !in parts[i])
            && !IsSpace(parts[0][0]) && Trimmed(parts[|parts| - 1])
  {
    hide FormatUint, IsNumericOrEndpointName;
    NumberReads(p.endpoint, UINT8);
    NumberReads(p.feature, UINT8);
    NumberReads(p.command, UINT8);
    NumberReads(p.attribute, UINT16);
  }

  /** Joining clean pieces keeps the ends and puts no two slashes side by side. */
  lemma {:induction false} JoinClean(parts: seq<string>)
    requires parts != [] && forall i :: 0 <= i < |parts| ==> parts[i] != "" && '/' !in parts[i]
    ensures var s, last := Join(parts, '/'), parts[|parts| - 1];
            s != "" && s[0] == parts[0][0] && s[|s| - 1] == last[|last| - 1] && !HasDoubleSlash(s)
    decreases |parts|
  {
    var s := Join(parts, '/');
    if |parts| > 1 {
      var rest, n := Join(parts[1..], '/'), |parts[0]|;
      JoinClean(parts[1..]);
      assert s == parts[0] + ['/'] + rest;
      assert rest[0] == parts[1][0] && parts[1][0] in parts[1];
      forall i | 0 <= i < |s| - 1
        ensures !(s[i] == '/' && s[i + 1] == '/')
      {
        if i < n {
          assert s[i] == parts[0][i] && parts[0][i] in parts[0];
        } else if i > n {
          assert s[i] == rest[i - n - 1] && s[i + 1] == rest[i - n];
        }
      }
    } else {
      assert forall i :: 0 <= i < |s| ==> s[i] in parts[0];
    }
  }

  /** The four forms of a path after its device prefix. */
  lemma PieceShapes(p: Path)
    ensures var k := if p.device != "" then 1 else 0;
            var e, f := FormatUint(p.endpoint), FormatUint(p.feature);
            Pieces(p)[k..] ==
            if p.isPartial && p.feature == 0 then [e]
            else if p.isPartial && !p.isCommand then [e, f]
            else if p.isCommand then [e, f, "cmd", FormatUint(p.command)]
            else [e, f, FormatUint(p.attribute)]
  {
    hide FormatUint;
  }

  lemma ReadsPieces(names: Names, p: Path, raw: string)
    requires Canonical(names, p)
    ensures var k := if p.device != "" then 1 else 0;
            ParseParts(names, p.device, Pieces(p)[k..], raw) == Ok(p.(raw := raw))
  {
    PieceShapes(p);
    hide FormatUint, ParseNumber, IsNumericOrEndpointName;
    NumberReads(p.endpoint, UINT8);
    NumberReads(p.feature, UINT8);
    NumberReads(p.command, UINT8);
    NumberReads(p.attribute, UINT16);
  }

  /** For every string that parsing accepts, printing the path and parsing it again gives the same path,
      the raw text aside. */
  lemma PathNormalForm(names: Names, input: string)
    requires ParsePath(names, input).Ok?
    ensures var p := ParsePath(names, input).value;
            var text := Join(Pieces(p), '/');
            ParsePath(names, text) == Ok(p.(raw := text))
  {
    ParsedCanonical(names, input);
    CanonicalRoundTrip(names, ParsePath(names, input).value);
  }

  lemma CanonicalRoundTrip(names: Names, p: Path)
    requires Canonical(names, p)
    ensures var text := Join(Pieces(p), '/'); ParsePath(names, text) == Ok(p.(raw := text))
  {
    hide FormatUint, ParseNumber, IsNumericOrEndpointName, ParseEndpoint, Join, Split, TrimSpace, ParseParts;
    var parts := Pieces(p);
    var text := Join(parts, '/');
    PiecesClean(names, p);
    JoinClean(parts);
    assert forall t :: t in parts ==> exists i :: 0 <= i < |parts| && parts[i] == t;
    TrimsNothing(text);
    SplitJoin(parts, '/');
    ReadsPieces(names, p, text);
    if p.device == "" {
      NumberReads(p.endpoint, UINT8);
      NumberIsEndpoint(names, p.endpoint);
      assert parts[0..] == parts;
    }
  }

  lemma NumberIsEndpoint(names: Names, n: u8)
    ensures IsNumericOrEndpointName(names, FormatUint(n))
  {
    FormatParse(n, UINT8);
  }

  /** Different canonical paths print differently. */
  lemma PrintInjective(names: Names, p: Path, q: Path)
    requires Canonical(names, p) && Canonical(names, q) && Join(Pieces(p), '/') == Join(Pieces(q), '/')
    ensures p.(raw := "") == q.(raw := "")
  {
    CanonicalRoundTrip(names, p);
    CanonicalRoundTrip(names, q);
  }

  /** A canonical path is exactly what some input parses to. */
  lemma CanonicalIffParsed(names: Names, p: Path)
    ensures Canonical(names, p) <==> exists input, raw :: ParsePath(names, input) == Ok(p.(raw := raw))
  {
    if Canonical(names, p) {
      CanonicalRoundTrip(names, p);
    }
    if input, raw :| ParsePath(names, input) == Ok(p.(raw := raw)) {
      ParsedCanonical(names, input);
    }
  }
}
