/** What an inspection path means: numbers in decimal or hexadecimal, names, device prefixes, commands,
    ignored trailing parts, and the paths that are refused. */
module PathMeaning {
  import opened Wrappers
  import opened GoStrings
  import opened InspectPath

  /** The text is the number in decimal, or in hexadecimal after "0x" or "0X". */
  predicate NumberText(s: string, n: nat) {
    s == FormatUint(n) || s == "0x" + FormatHex(n) || s == "0X" + FormatHex(n)
  }

  /** Not a number: it does not start with a digit. */
  predicate IsName(s: string) {
    s != "" && !('0' <= s[0] <= '9')
  }

  predicate MeansEndpoint(names: Names, s: string, n: u8) {
    NumberText(s, n) || (IsName(s) && names.endpoint(s) == Some(n))
  }

  predicate MeansFeature(names: Names, s: string, n: u8) {
    NumberText(s, n) || (IsName(s) && names.feature(s) == Some(n))
  }

  /** Attribute names belong to a feature. */
  predicate MeansAttribute(names: Names, feature: u8, s: string, n: u16) {
    NumberText(s, n) || (IsName(s) && names.attribute(feature, s) == Some(n))
  }

  /** A prefix that can only be a device: a name, but not of an endpoint. */
  predicate IsDevice(names: Names, s: string) {
    IsName(s) && names.endpoint(s).None?
  }

  /** Parts that are neither empty nor contain a slash, without white space around them all. */
  predicate Clean(parts: seq<string>) {
    && parts != [] && (forall i :: 0 <= i < |parts| ==> parts[i] != "" && '/' !in parts[i])
    && !IsSpace(parts[0][0])
    && var last := parts[|parts| - 1]; !IsSpace(last[|last| - 1])
  }

  function Text(parts: seq<string>): string {
    Join(parts, '/')
  }

  // ---- Numbers and names ----

  lemma FirstDigit(n: nat)
    ensures FormatUint(n) != "" && '0' <= FormatUint(n)[0] <= '9'
    ensures |FormatUint(n)| >= 2 ==> '0' <= FormatUint(n)[1] <= '9'
  {
    FormatDigits(n);
    var t := FormatUint(n);
    assert t[0] in t && (|t| >= 2 ==> t[1] in t);
  }

  /** A number reads as itself in every spelling, if it is within the limit; beyond it, it is refused. */
  lemma NumberReadsAs(s: string, n: nat, limit: nat)
    requires NumberText(s, n)
    ensures ParseNumber(s, limit) == if n < limit then Some(n) else None
    ensures s != "" && !IsName(s) && s != "cmd"
  {
    FormatParse(n, limit);
    FormatHexDigits(n);
    FirstDigit(n);
    if s != FormatUint(n) {
      assert s[2..] == FormatHex(n);
    }
  }

  lemma NameIsNoNumber(s: string, limit: nat)
    requires IsName(s)
    ensures ParseNumber(s, limit) == None
  {
    NoDigits(s);
  }

  lemma EndpointMeans(names: Names, s: string, n: u8)
    requires MeansEndpoint(names, s, n)
    ensures ParseEndpoint(names, s) == Some(n) && IsNumericOrEndpointName(names, s)
  {
    hide FormatUint, FormatHex, IsNumericOrEndpointName, ParseNumber;
    if NumberText(s, n) {
      NumberReadsAs(s, n, UINT8);
    } else {
      NameIsNoNumber(s, UINT8);
    }
    EndpointReads(names, s);
  }

  lemma FeatureMeans(names: Names, s: string, n: u8)
    requires MeansFeature(names, s, n)
    ensures ParseFeature(names, s) == Some(n)
  {
    hide FormatUint, FormatHex, ParseNumber;
    if NumberText(s, n) {
      NumberReadsAs(s, n, UINT8);
    } else {
      NameIsNoNumber(s, UINT8);
    }
  }

  lemma AttributeMeans(names: Names, f: u8, s: string, n: u16)
    requires MeansAttribute(names, f, s, n)
    ensures ParseAttribute(names, f, s) == Some(n)
  {
    hide FormatUint, FormatHex, ParseNumber;
    if NumberText(s, n) {
      NumberReadsAs(s, n, UINT16);
    } else {
      NameIsNoNumber(s, UINT16);
    }
  }

  lemma DeviceMeans(names: Names, s: string)
    requires IsDevice(names, s)
    ensures !IsNumericOrEndpointName(names, s)
  {
    hide IsNumericOrEndpointName, ParseNumber;
    NameIsNoNumber(s, UINT8);
    EndpointReads(names, s);
  }

  // ---- Whole paths ----

  lemma ParsesParts(names: Names, parts: seq<string>)
    requires Clean(parts)
    ensures ParsePath(names, Text(parts)) ==
            if !IsNumericOrEndpointName(names, parts[0]) && |parts| > 1
            then ParseParts(names, parts[0], parts[1..], Text(parts))
            else ParseParts(names, "", parts, Text(parts))
  {
    hide ParseParts, IsNumericOrEndpointName, Join, Split, TrimSpace;
    var text := Text(parts);
    JoinClean(parts);
    assert forall t :: t in parts ==> exists i :: 0 <= i < |parts| && parts[i] == t;
    TrimsNothing(text);
    SplitJoin(parts, '/');
  }

  /** The parts of a path, after a device prefix if there is one. */
  function After(device: string, parts: seq<string>): seq<string> {
    if device == "" then parts else [device] + parts
  }

  lemma ParsesAfter(names: Names, device: string, parts: seq<string>, e: u8)
    requires device == "" || IsDevice(names, device)
    requires Clean(After(device, parts)) && parts != [] && MeansEndpoint(names, parts[0], e)
    ensures ParsePath(names, Text(After(device, parts))) == ParseParts(names, device, parts, Text(After(device, parts)))
  {
    hide ParseParts, IsNumericOrEndpointName, Join, MeansEndpoint, IsDevice;
    ParsesParts(names, After(device, parts));
    EndpointMeans(names, parts[0], e);
    if device != "" {
      DeviceMeans(names, device);
      assert ([device] + parts)[1..] == parts;
    }
  }

  /** Endpoint, feature and attribute, each as a number or a name; what follows is ignored. */
  lemma AttributePath(names: Names, device: string, parts: seq<string>, e: u8, f: u8, a: u16)
    requires device == "" || IsDevice(names, device)
    requires Clean(After(device, parts)) && |parts| >= 3 && parts[2] != "cmd"
    requires MeansEndpoint(names, parts[0], e) && MeansFeature(names, parts[1], f)
    requires MeansAttribute(names, f, parts[2], a)
    ensures var text := Text(After(device, parts));
            ParsePath(names, text) == Ok(Path(device, e, f, a, 0, false, false, text))
  {
    hide ParsePath, Text, MeansEndpoint, MeansFeature, MeansAttribute, IsDevice, Clean, ParseEndpoint, ParseFeature,
         ParseAttribute;
    ParsesAfter(names, device, parts, e);
    EndpointMeans(names, parts[0], e);
    FeatureMeans(names, parts[1], f);
    AttributeMeans(names, f, parts[2], a);
  }

  /** A command by its number; what follows is ignored. */
  lemma CommandPath(names: Names, device: string, parts: seq<string>, e: u8, f: u8, c: u8)
    requires device == "" || IsDevice(names, device)
    requires Clean(After(device, parts)) && |parts| >= 4 && parts[2] == "cmd"
    requires MeansEndpoint(names, parts[0], e) && MeansFeature(names, parts[1], f) && NumberText(parts[3], c)
    ensures var text := Text(After(device, parts));
            ParsePath(names, text) == Ok(Path(device, e, f, 0, c, true, false, text))
  {
    hide ParsePath, Text, MeansEndpoint, MeansFeature, IsDevice, Clean, ParseEndpoint, ParseFeature, ParseNumber,
         NumberText;
    ParsesAfter(names, device, parts, e);
    EndpointMeans(names, parts[0], e);
    FeatureMeans(names, parts[1], f);
    NumberReadsAs(parts[3], c, UINT8);
  }

  /** An endpoint alone, or with a feature, is a partial path. */
  lemma PartialPath(names: Names, device: string, parts: seq<string>, e: u8, f: u8)
    requires device == "" || IsDevice(names, device)
    requires Clean(After(device, parts)) && 1 <= |parts| <= 2 && MeansEndpoint(names, parts[0], e)
    requires if |parts| == 2 then MeansFeature(names, parts[1], f) else f == 0
    ensures var text := Text(After(device, parts));
            ParsePath(names, text) == Ok(Path(device, e, f, 0, 0, false, true, text))
  {
    hide ParsePath, Text, MeansEndpoint, MeansFeature, IsDevice, Clean, ParseEndpoint, ParseFeature;
    ParsesAfter(names, device, parts, e);
    EndpointMeans(names, parts[0], e);
    if |parts| == 2 {
      FeatureMeans(names, parts[1], f);
    }
  }

  // ---- Refused paths ----

  /** A single part that is neither a number nor the name of an endpoint. */
  lemma UnknownEndpoint(names: Names, s: string)
    requires Clean([s]) && IsDevice(names, s)
    ensures ParsePath(names, s) == Err(BadEndpoint)
  {
    hide ParsePath, ParseNumber;
    ParsesParts(names, [s]);
    JoinOne(s, '/');
    NameIsNoNumber(s, UINT8);
  }

  /** After an endpoint: a feature, an attribute or a command that means nothing, or no command at all. */
  lemma UnknownParts(names: Names, device: string, parts: seq<string>, e: u8, f: u8)
    requires device == "" || IsDevice(names, device)
    requires Clean(After(device, parts)) && |parts| >= 2 && MeansEndpoint(names, parts[0], e)
    ensures var r := ParsePath(names, Text(After(device, parts)));
            && (IsName(parts[1]) && names.feature(parts[1]).None? ==> r == Err(BadFeature))
            && (MeansFeature(names, parts[1], f) && |parts| >= 3 ==>
                  && (IsName(parts[2]) && parts[2] != "cmd" && names.attribute(f, parts[2]).None? ==>
                      r == Err(BadAttribute))
                  && (parts[2] == "cmd" && |parts| == 3 ==> r == Err(MissingCommand))
                  && (parts[2] == "cmd" && |parts| >= 4 && IsName(parts[3]) ==> r == Err(BadCommand)))
  {
    hide ParsePath, Text, MeansEndpoint, MeansFeature, IsDevice, Clean, ParseEndpoint, ParseNumber;
    ParsesAfter(names, device, parts, e);
    EndpointMeans(names, parts[0], e);
    if IsName(parts[1]) {
      NameIsNoNumber(parts[1], UINT8);
    }
    if MeansFeature(names, parts[1], f) && |parts| >= 3 {
      FeatureMeans(names, parts[1], f);
      if IsName(parts[2]) {
        NameIsNoNumber(parts[2], UINT16);
      }
      if |parts| >= 4 && IsName(parts[3]) {
        NameIsNoNumber(parts[3], UINT8);
      }
    }
  }

  /** Numbers beyond the range of their part are refused. */
  lemma TooLarge(names: Names, parts: seq<string>, e: u8, f: u8, n: nat)
    requires Clean(parts) && |parts| >= 3 && MeansEndpoint(names, parts[0], e) && MeansFeature(names, parts[1], f)
    requires NumberText(parts[2], n) && n >= 65536 && names.attribute(f, parts[2]).None?
    ensures ParsePath(names, Text(parts)) == Err(BadAttribute)
  {
    hide ParsePath, Text, MeansEndpoint, MeansFeature, Clean, ParseEndpoint, ParseFeature, ParseNumber, NumberText;
    ParsesAfter(names, "", parts, e);
    EndpointMeans(names, parts[0], e);
    FeatureMeans(names, parts[1], f);
    NumberReadsAs(parts[2], n, UINT16);
  }

  /** Nothing but white space; a slash in front or two in a row; and white space around a path. */
  lemma Surroundings(names: Names, a: string, s: string, b: string)
    requires Blank(a) && Blank(b)
    ensures ParsePath(names, a) == Err(EmptyPath)
    ensures s != "" && Trimmed(s) ==> ParsePath(names, a + s + b) == ParsePath(names, s)
    ensures s != "" && Trimmed(s) && (s[0] == '/' || HasDoubleSlash(s)) ==> ParsePath(names, s) == Err(InvalidPath)
  {
    hide TrimSpace, ParseParts, Split, IsNumericOrEndpointName;
    TrimBlank(a);
    if s != "" && Trimmed(s) {
      TrimPads(a, s, b);
      TrimsNothing(s);
    }
  }
}
