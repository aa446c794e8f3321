/** TXT records of the discovery services: encoding, flattening to "key=value" strings, and back. */
module TxtRecords {
  import opened Wrappers
  import opened DiscoveryTypes
  import opened GoStrings

  type Records = map<string, string>

  const KEY_DISCRIMINATOR := "D"
  const KEY_CATEGORIES := "cat"
  const KEY_SERIAL := "serial"
  const KEY_BRAND := "brand"
  const KEY_MODEL := "model"
  const KEY_DEVICE_NAME := "DN"
  const KEY_ZONE_ID := "ZI"
  const KEY_DEVICE_ID := "DI"
  const KEY_VENDOR_PRODUCT := "VP"
  const KEY_FIRMWARE := "FW"
  const KEY_ENDPOINTS := "EP"
  const KEY_ZONE_NAME := "ZN"
  const KEY_DEVICE_COUNT := "DC"

  // ---- Categories ----

  function Printed(cats: seq<u8>): seq<string> {
    if cats == [] then [] else Printed(cats[..|cats| - 1]) + [FormatUint(cats[|cats| - 1])]
  }

  function CategoryText(cats: seq<u8>): string {
    Join(Printed(cats), ',')
  }

  method EncodeCategories(cats: seq<u8>) returns (r: string)
    ensures r == CategoryText(cats)
  {
    if |cats| == 0 {
      return "";
    }
    var strs: seq<string> := [];
    for i := 0 to |cats|
      invariant strs == Printed(cats[..i])
    {
      assert cats[..i + 1][..i] == cats[..i];
      strs := strs + [FormatUint(cats[i])];
    }
    assert cats[..|cats|] == cats;
    r := Join(strs, ',');
  }

  /** Blank parts are skipped; any other part must be a number below 256. */
  function ParseParts(parts: seq<string>): Option<seq<u8>> {
    if parts == [] then Some([])
    else
      var p := TrimSpace(parts[|parts| - 1]);
      match ParseParts(parts[..|parts| - 1])
      case None => None
      case Some(init) =>
        if p == "" then Some(init)
        else
          match ParseUint(p, 10, 256)
          case Some(n) => Some(init + [n])
          case None => None
  }

  method ParseCategories(s: string) returns (r: Option<seq<u8>>)
    ensures r == CategoriesOf(s)
  {
    if s == "" {
      return Some([]);
    }
    var parts := Split(s, ',');
    var cats: seq<u8> := [];
    for i := 0 to |parts|
      invariant ParseParts(parts[..i]) == Some(cats)
    {
      assert parts[..i + 1][..i] == parts[..i];
      var p := TrimSpace(parts[i]);
      if p == "" {
        continue;
      }
      var n := ParseUint(p, 10, 256);
      if n.None? {
        PartsFail(parts, i + 1);
        return None;
      }
      cats := cats + [n.value];
    }
    assert parts[..|parts|] == parts;
    r := Some(cats);
  }

  lemma {:induction false} PartsFail(parts: seq<string>, i: nat)
    requires i <= |parts| && ParseParts(parts[..i]) == None
    ensures ParseParts(parts) == None
    decreases |parts| - i
  {
    if i < |parts| {
      assert parts[..i + 1][..i] == parts[..i];
      PartsFail(parts, i + 1);
    } else {
      assert parts[..i] == parts;
    }
  }

  function CategoriesOf(s: string): Option<seq<u8>> {
    if s == "" then Some([]) else ParseParts(Split(s, ','))
  }

  lemma {:induction false} PrintedPlain(cats: seq<u8>)
    ensures |Printed(cats)| == |cats|
    ensures forall p :: p in Printed(cats) ==> p != "" && ',' !in p
  {
    hide FormatUint;
    if cats != [] {
      PrintedPlain(cats[..|cats| - 1]);
      FormatParse(cats[|cats| - 1], 256);
    }
  }

  lemma {:induction false} PrintedParse(cats: seq<u8>)
    ensures ParseParts(Printed(cats)) == Some(cats)
  {
    hide FormatUint, ParseUint, TrimSpace;
    if cats != [] {
      var init, last := cats[..|cats| - 1], cats[|cats| - 1];
      PrintedParse(init);
      FormatParse(last, 256);
      DecimalTrimmed(FormatUint(last));
      assert Printed(cats)[..|Printed(cats)| - 1] == Printed(init);
      assert init + [last] == cats;
    }
  }

  lemma DecimalTrimmed(s: string)
    requires IsDecimal(s)
    ensures TrimSpace(s) == s
  {
    if s != "" {
      assert s[0] in s && s[|s| - 1] in s;
    }
    TrimsNothing(s);
  }

  /** A category list of any length, the empty one included, survives the trip. */
  lemma CategoriesRoundTrip(cats: seq<u8>)
    ensures CategoriesOf(CategoryText(cats)) == Some(cats)
  {
    PrintedPlain(cats);
    PrintedParse(cats);
    if cats != [] {
      SplitJoin(Printed(cats), ',');
      assert Printed(cats)[0] in Printed(cats);
      assert CategoryText(cats) != "";
    }
  }

  // ---- "key=value" strings ----

  function Flat(k: string, v: string): string {
    k + "=" + v
  }

  /** "strs" lists the entries of "txt" in the order of "keys", each once. */
  ghost predicate Flattens(strs: seq<string>, keys: seq<string>, txt: Records) {
    && |strs| == |keys|
    && (forall i, j :: 0 <= i < j < |keys| ==> keys[i] != keys[j])
    && (forall k :: k in keys <==> k in txt)
    && (forall i :: 0 <= i < |strs| ==> strs[i] == Flat(keys[i], txt[keys[i]]))
  }

  /** The order of the strings is whatever order the map yields its keys in. */
  method TXTRecordsToStrings(txt: Records) returns (strs: seq<string>)
    ensures exists keys :: Flattens(strs, keys, txt)
  {
    strs := [];
    ghost var keys: seq<string> := [];
    var todo := txt.Keys;
    while todo != {}
      invariant todo <= txt.Keys
      invariant |strs| == |keys|
      invariant forall i, j :: 0 <= i < j < |keys| ==> keys[i] != keys[j]
      invariant forall k :: k in keys <==> k in txt.Keys - todo
      invariant forall i :: 0 <= i < |strs| ==> keys[i] in txt && strs[i] == Flat(keys[i], txt[keys[i]])
    {
      var k :| k in todo;
      strs := strs + [k + "=" + txt[k]];
      ghost var before := keys;
      keys := keys + [k];
      todo := todo - {k};
      assert forall j :: j in keys <==> j in before || j == k;
      assert forall i :: 0 <= i < |before| ==> before[i] in before;
    }
    assert Flattens(strs, keys, txt);
  }

  /** One string: split at the first '='; without one it is a flag, unless it is empty. */
  function Insert(txt: Records, s: string): Records {
    var i := Index(s, '=');
    if i < |s| then txt[s[..i] := s[i + 1..]]
    else if s != "" then txt[s := ""]
    else txt
  }

  function Parse(strs: seq<string>): Records {
    if strs == [] then map[] else Insert(Parse(strs[..|strs| - 1]), strs[|strs| - 1])
  }

  method StringsToTXTRecords(strs: seq<string>) returns (txt: Records)
    ensures txt == Parse(strs)
  {
    txt := map[];
    for n := 0 to |strs|
      invariant txt == Parse(strs[..n])
    {
      assert strs[..n + 1][..n] == strs[..n];
      var i := Index(strs[n], '=');
      if i < |strs[n]| {
        txt := txt[strs[n][..i] := strs[n][i + 1..]];
      } else if strs[n] != "" {
        txt := txt[strs[n] := ""];
      }
    }
    assert strs[..|strs|] == strs;
  }

  lemma SplitsAtKey(k: string, v: string)
    requires '=' !in k
    ensures Index(Flat(k, v), '=') == |k| && Flat(k, v)[..|k|] == k && Flat(k, v)[|k| + 1..] == v
  {
    assert Flat(k, v)[..|k|] == k;
    IndexUnique(Flat(k, v), '=', |k|);
  }

  lemma {:induction false} ParseFlat(strs: seq<string>, keys: seq<string>, txt: Records)
    requires |strs| == |keys| && forall i, j :: 0 <= i < j < |keys| ==> keys[i] != keys[j]
    requires forall i :: 0 <= i < |strs| ==>
               keys[i] in txt && '=' !in keys[i] && strs[i] == Flat(keys[i], txt[keys[i]])
    ensures forall k :: k in Parse(strs) <==> k in keys
    ensures forall k :: k in keys ==> k in txt && Parse(strs)[k] == txt[k]
  {
    hide Flat, Index;
    if strs != [] {
      var n := |strs| - 1;
      ParseFlat(strs[..n], keys[..n], txt);
      SplitsAtKey(keys[n], txt[keys[n]]);
      InsertsKey(Parse(strs[..n]), keys[n], txt[keys[n]]);
      assert keys == keys[..n] + [keys[n]];
    }
  }

  lemma InsertsKey(txt: Records, k: string, v: string)
    requires '=' !in k
    ensures Insert(txt, Flat(k, v)) == txt[k := v]
  {
    SplitsAtKey(k, v);
  }

  lemma {:induction false} ParsedKeys(strs: seq<string>, k: string)
    requires k in Parse(strs)
    ensures '=' !in k
  {
    var last := strs[|strs| - 1];
    if k in Parse(strs[..|strs| - 1]) {
      ParsedKeys(strs[..|strs| - 1], k);
    } else if Index(last, '=') == |last| {
      assert last[..|last|] == last;
    }
  }

  /** In whatever order the records are flattened, parsing gives them back exactly when no key
      contains '='. Values may contain anything. */
  lemma RecordsRoundTrip(strs: seq<string>, keys: seq<string>, txt: Records)
    requires Flattens(strs, keys, txt)
    ensures Parse(strs) == txt <==> forall k :: k in txt ==> '=' !in k
  {
    if forall k :: k in txt ==> '=' !in k {
      forall i | 0 <= i < |strs|
        ensures keys[i] in txt && '=' !in keys[i]
      {
        assert keys[i] in keys;
      }
      ParseFlat(strs, keys, txt);
    } else {
      var k :| k in txt && '=' in k;
      if Parse(strs) == txt {
        ParsedKeys(strs, k);
      }
    }
  }

  // ---- The four record types ----

  function WithOptional(txt: Records, k: string, v: string): Records {
    if v != "" then txt[k := v] else txt
  }

  function WithCount(txt: Records, k: string, n: u8): Records {
    if n > 0 then txt[k := FormatUint(n)] else txt
  }

  function Lookup(txt: Records, k: string): string {
    if k in txt then txt[k] else ""
  }

  /** An absent or malformed count reads as zero. */
  function CountOf(txt: Records, k: string): u8 {
    if k in txt then (match ParseUint(txt[k], 10, 256) case Some(n) => n case None => 0) else 0
  }

  /** A required identifier: absent or of the wrong length, or not hexadecimal. */
  function IdError(txt: Records, k: string): Option<Error> {
    if k !in txt || Utf8Length(txt[k]) != ID_LENGTH then Some(MissingRequired)
    else if !IsHexString(txt[k]) then Some(InvalidTXTRecord)
    else None
  }

  function DiscriminatorOf(txt: Records): Result<u16, Error> {
    if KEY_DISCRIMINATOR !in txt then Err(MissingRequired)
    else
      match ParseUint(txt[KEY_DISCRIMINATOR], 10, 0x1_0000)
      case Some(n) => if n <= MAX_DISCRIMINATOR then Ok(n) else Err(InvalidDiscriminator)
      case None => Err(InvalidDiscriminator)
  }

  function EncodeCommissionable(info: CommissionableInfo): Records {
    WithOptional(map[KEY_DISCRIMINATOR := FormatUint(info.discriminator),
                     KEY_CATEGORIES := CategoryText(info.categories),
                     KEY_SERIAL := info.serial,
                     KEY_BRAND := info.brand,
                     KEY_MODEL := info.model], KEY_DEVICE_NAME, info.deviceName)
  }

  function DecodeCommissionable(txt: Records): Result<CommissionableInfo, Error> {
    var d := DiscriminatorOf(txt);
    if d.Err? then Err(d.error)
    else if KEY_CATEGORIES !in txt then Err(MissingRequired)
    else
      var cats := CategoriesOf(txt[KEY_CATEGORIES]);
      if cats.None? then Err(InvalidTXTRecord)
      else if KEY_SERIAL !in txt || KEY_BRAND !in txt || KEY_MODEL !in txt then Err(MissingRequired)
      else Ok(CommissionableInfo(d.value, cats.value, txt[KEY_SERIAL], txt[KEY_BRAND], txt[KEY_MODEL],
                                 Lookup(txt, KEY_DEVICE_NAME), 0, ""))
  }

  function EncodeOperational(info: OperationalInfo): Records {
    WithCount(WithOptional(WithOptional(map[KEY_ZONE_ID := info.zoneId, KEY_DEVICE_ID := info.deviceId],
                                        KEY_VENDOR_PRODUCT, info.vendorProduct),
                           KEY_FIRMWARE, info.firmware),
              KEY_ENDPOINTS, info.endpointCount)
  }

  function DecodeOperational(txt: Records): Result<OperationalInfo, Error> {
    if IdError(txt, KEY_ZONE_ID).Some? then Err(IdError(txt, KEY_ZONE_ID).value)
    else if IdError(txt, KEY_DEVICE_ID).Some? then Err(IdError(txt, KEY_DEVICE_ID).value)
    else Ok(OperationalInfo(txt[KEY_ZONE_ID], txt[KEY_DEVICE_ID], Lookup(txt, KEY_VENDOR_PRODUCT),
                            Lookup(txt, KEY_FIRMWARE), CountOf(txt, KEY_ENDPOINTS), 0, ""))
  }

  function EncodeCommissioner(info: CommissionerInfo): Records {
    WithCount(WithOptional(WithOptional(map[KEY_ZONE_NAME := info.zoneName, KEY_ZONE_ID := info.zoneId],
                                        KEY_VENDOR_PRODUCT, info.vendorProduct),
                           KEY_DEVICE_NAME, info.controllerName),
              KEY_DEVICE_COUNT, info.deviceCount)
  }

  function DecodeCommissioner(txt: Records): Result<CommissionerInfo, Error> {
    if KEY_ZONE_NAME !in txt || txt[KEY_ZONE_NAME] == "" then Err(MissingRequired)
    else if IdError(txt, KEY_ZONE_ID).Some? then Err(IdError(txt, KEY_ZONE_ID).value)
    else Ok(CommissionerInfo(txt[KEY_ZONE_NAME], txt[KEY_ZONE_ID], Lookup(txt, KEY_VENDOR_PRODUCT),
                             Lookup(txt, KEY_DEVICE_NAME), CountOf(txt, KEY_DEVICE_COUNT), 0, ""))
  }

  function EncodePairingRequest(info: PairingRequestInfo): Records {
    WithOptional(map[KEY_DISCRIMINATOR := FormatUint(info.discriminator), KEY_ZONE_ID := info.zoneId],
                 KEY_ZONE_NAME, info.zoneName)
  }

  function DecodePairingRequest(txt: Records): Result<PairingRequestInfo, Error> {
    var d := DiscriminatorOf(txt);
    if d.Err? then Err(d.error)
    else if IdError(txt, KEY_ZONE_ID).Some? then Err(IdError(txt, KEY_ZONE_ID).value)
    else Ok(PairingRequestInfo(d.value, txt[KEY_ZONE_ID], Lookup(txt, KEY_ZONE_NAME), ""))
  }

  function IdCheck(id: string): Option<Error> {
    if Utf8Length(id) != ID_LENGTH then Some(MissingRequired)
    else if !IsHexString(id) then Some(InvalidTXTRecord)
    else None
  }

  /** The checks pass exactly for 16 hexadecimal digits, although they count bytes. */
  lemma IdCheckExactly(id: string)
    ensures IdCheck(id).None? <==> IsId(id)
  {
    if IsHexString(id) {
      HexLength(id);
    }
  }

  lemma PlainKeys()
    ensures '=' !in KEY_DISCRIMINATOR && '=' !in KEY_CATEGORIES && '=' !in KEY_SERIAL && '=' !in KEY_BRAND
    ensures '=' !in KEY_MODEL && '=' !in KEY_DEVICE_NAME && '=' !in KEY_ZONE_ID && '=' !in KEY_DEVICE_ID
    ensures '=' !in KEY_VENDOR_PRODUCT && '=' !in KEY_FIRMWARE && '=' !in KEY_ENDPOINTS && '=' !in KEY_ZONE_NAME
    ensures '=' !in KEY_DEVICE_COUNT
  {
  }

  lemma CommissionableKeys()
    ensures KEY_DISCRIMINATOR != KEY_CATEGORIES && KEY_DISCRIMINATOR != KEY_SERIAL && KEY_DISCRIMINATOR != KEY_BRAND
    ensures KEY_DISCRIMINATOR != KEY_MODEL && KEY_DISCRIMINATOR != KEY_DEVICE_NAME && KEY_CATEGORIES != KEY_SERIAL
    ensures KEY_CATEGORIES != KEY_BRAND && KEY_CATEGORIES != KEY_MODEL && KEY_CATEGORIES != KEY_DEVICE_NAME
    ensures KEY_SERIAL != KEY_BRAND && KEY_SERIAL != KEY_MODEL && KEY_SERIAL != KEY_DEVICE_NAME
    ensures KEY_BRAND != KEY_MODEL && KEY_BRAND != KEY_DEVICE_NAME && KEY_MODEL != KEY_DEVICE_NAME
  {
    assert |KEY_DISCRIMINATOR| == 1 && KEY_DISCRIMINATOR[0] == 'D';
    assert |KEY_CATEGORIES| == 3 && KEY_CATEGORIES[0] == 'c' && KEY_CATEGORIES[1] == 'a';
    assert |KEY_SERIAL| == 6 && KEY_SERIAL[0] == 's' && KEY_SERIAL[1] == 'e';
    assert |KEY_BRAND| == 5 && KEY_BRAND[0] == 'b' && KEY_BRAND[1] == 'r';
    assert |KEY_MODEL| == 5 && KEY_MODEL[0] == 'm' && KEY_MODEL[1] == 'o';
    assert |KEY_DEVICE_NAME| == 2 && KEY_DEVICE_NAME[0] == 'D' && KEY_DEVICE_NAME[1] == 'N';
  }

  lemma OperationalKeys()
    ensures KEY_ZONE_ID != KEY_DEVICE_ID && KEY_ZONE_ID != KEY_VENDOR_PRODUCT && KEY_ZONE_ID != KEY_FIRMWARE
    ensures KEY_ZONE_ID != KEY_ENDPOINTS && KEY_DEVICE_ID != KEY_VENDOR_PRODUCT && KEY_DEVICE_ID != KEY_FIRMWARE
    ensures KEY_DEVICE_ID != KEY_ENDPOINTS && KEY_VENDOR_PRODUCT != KEY_FIRMWARE && KEY_VENDOR_PRODUCT != KEY_ENDPOINTS
    ensures KEY_FIRMWARE != KEY_ENDPOINTS
  {
    assert |KEY_ZONE_ID| == 2 && KEY_ZONE_ID[0] == 'Z' && KEY_ZONE_ID[1] == 'I';
    assert |KEY_DEVICE_ID| == 2 && KEY_DEVICE_ID[0] == 'D' && KEY_DEVICE_ID[1] == 'I';
    assert |KEY_VENDOR_PRODUCT| == 2 && KEY_VENDOR_PRODUCT[0] == 'V' && KEY_VENDOR_PRODUCT[1] == 'P';
    assert |KEY_FIRMWARE| == 2 && KEY_FIRMWARE[0] == 'F' && KEY_FIRMWARE[1] == 'W';
    assert |KEY_ENDPOINTS| == 2 && KEY_ENDPOINTS[0] == 'E' && KEY_ENDPOINTS[1] == 'P';
  }

  lemma CommissionerKeys()
    ensures KEY_ZONE_NAME != KEY_ZONE_ID && KEY_ZONE_NAME != KEY_VENDOR_PRODUCT && KEY_ZONE_NAME != KEY_DEVICE_NAME
    ensures KEY_ZONE_NAME != KEY_DEVICE_COUNT && KEY_ZONE_ID != KEY_VENDOR_PRODUCT && KEY_ZONE_ID != KEY_DEVICE_NAME
    ensures KEY_ZONE_ID != KEY_DEVICE_COUNT && KEY_VENDOR_PRODUCT != KEY_DEVICE_NAME &&
            KEY_VENDOR_PRODUCT != KEY_DEVICE_COUNT
    ensures KEY_DEVICE_NAME != KEY_DEVICE_COUNT
  {
    assert |KEY_ZONE_NAME| == 2 && KEY_ZONE_NAME[0] == 'Z' && KEY_ZONE_NAME[1] == 'N';
    assert |KEY_ZONE_ID| == 2 && KEY_ZONE_ID[0] == 'Z' && KEY_ZONE_ID[1] == 'I';
    assert |KEY_VENDOR_PRODUCT| == 2 && KEY_VENDOR_PRODUCT[0] == 'V' && KEY_VENDOR_PRODUCT[1] == 'P';
    assert |KEY_DEVICE_NAME| == 2 && KEY_DEVICE_NAME[0] == 'D' && KEY_DEVICE_NAME[1] == 'N';
    assert |KEY_DEVICE_COUNT| == 2 && KEY_DEVICE_COUNT[0] == 'D' && KEY_DEVICE_COUNT[1] == 'C';
  }

  lemma PairingRequestKeys()
    ensures KEY_DISCRIMINATOR != KEY_ZONE_ID && KEY_DISCRIMINATOR != KEY_ZONE_NAME && KEY_ZONE_ID != KEY_ZONE_NAME
  {
    assert |KEY_DISCRIMINATOR| == 1 && KEY_DISCRIMINATOR[0] == 'D';
    assert |KEY_ZONE_ID| == 2 && KEY_ZONE_ID[0] == 'Z' && KEY_ZONE_ID[1] == 'I';
    assert |KEY_ZONE_NAME| == 2 && KEY_ZONE_NAME[0] == 'Z' && KEY_ZONE_NAME[1] == 'N';
  }

  /** What the encoder puts under each key. */
  lemma CommissionableEncoded(info: CommissionableInfo)
    ensures var t := EncodeCommissionable(info);
            && (forall k :: k in t ==> '=' !in k)
            && (KEY_DISCRIMINATOR in t && t[KEY_DISCRIMINATOR] == FormatUint(info.discriminator))
            && (KEY_CATEGORIES in t && t[KEY_CATEGORIES] == CategoryText(info.categories))
            && (KEY_SERIAL in t && t[KEY_SERIAL] == info.serial)
            && (KEY_BRAND in t && t[KEY_BRAND] == info.brand)
            && (KEY_MODEL in t && t[KEY_MODEL] == info.model)
            && Lookup(t, KEY_DEVICE_NAME) == info.deviceName
  {
    hide KEY_DISCRIMINATOR, KEY_CATEGORIES, KEY_SERIAL, KEY_BRAND, KEY_MODEL, KEY_DEVICE_NAME, FormatUint, ParseUint,
         CategoryText;
    PlainKeys();
    CommissionableKeys();
  }

  /** Commissionable records come back as they were, host and port aside, exactly when the discriminator
      is within its 12 bits. */
  lemma CommissionableRoundTrip(info: CommissionableInfo, strs: seq<string>, keys: seq<string>)
    requires Flattens(strs, keys, EncodeCommissionable(info))
    ensures DecodeCommissionable(Parse(strs)) ==
            if info.discriminator <= MAX_DISCRIMINATOR then Ok(info.(port := 0, host := ""))
            else Err(InvalidDiscriminator)
  {
    hide EncodeCommissionable, FormatUint, ParseUint, CategoryText, CategoriesOf, KEY_DISCRIMINATOR, KEY_CATEGORIES,
         KEY_SERIAL, KEY_BRAND, KEY_MODEL, KEY_DEVICE_NAME;
    CommissionableEncoded(info);
    RecordsRoundTrip(strs, keys, EncodeCommissionable(info));
    FormatParse(info.discriminator, 0x1_0000);
    CategoriesRoundTrip(info.categories);
  }

  /** What the encoder puts under each key. */
  lemma OperationalEncoded(info: OperationalInfo)
    ensures var t := EncodeOperational(info);
            && (forall k :: k in t ==> '=' !in k)
            && (KEY_ZONE_ID in t && t[KEY_ZONE_ID] == info.zoneId)
            && (KEY_DEVICE_ID in t && t[KEY_DEVICE_ID] == info.deviceId)
            && Lookup(t, KEY_VENDOR_PRODUCT) == info.vendorProduct
            && Lookup(t, KEY_FIRMWARE) == info.firmware
            && CountOf(t, KEY_ENDPOINTS) == info.endpointCount
  {
    hide KEY_ZONE_ID, KEY_DEVICE_ID, KEY_VENDOR_PRODUCT, KEY_FIRMWARE, KEY_ENDPOINTS, FormatUint, ParseUint,
         CategoryText;
    PlainKeys();
    OperationalKeys();
    FormatParse(info.endpointCount, 256);
  }

  /** Operational records come back exactly when both identifiers are 16 hexadecimal digits. */
  lemma OperationalRoundTrip(info: OperationalInfo, strs: seq<string>, keys: seq<string>)
    requires Flattens(strs, keys, EncodeOperational(info))
    ensures DecodeOperational(Parse(strs)) ==
            if IdCheck(info.zoneId).Some? then Err(IdCheck(info.zoneId).value)
            else if IdCheck(info.deviceId).Some? then Err(IdCheck(info.deviceId).value)
            else Ok(info.(port := 0, host := ""))
    ensures DecodeOperational(Parse(strs)).Ok? <==> IsId(info.zoneId) && IsId(info.deviceId)
  {
    IdCheckExactly(info.zoneId);
    IdCheckExactly(info.deviceId);
    hide EncodeOperational, FormatUint, ParseUint, CategoryText, CategoriesOf, KEY_ZONE_ID, KEY_DEVICE_ID,
         KEY_VENDOR_PRODUCT, KEY_FIRMWARE, KEY_ENDPOINTS;
    OperationalEncoded(info);
    RecordsRoundTrip(strs, keys, EncodeOperational(info));
  }

  /** What the encoder puts under each key. */
  lemma CommissionerEncoded(info: CommissionerInfo)
    ensures var t := EncodeCommissioner(info);
            && (forall k :: k in t ==> '=' !in k)
            && (KEY_ZONE_NAME in t && t[KEY_ZONE_NAME] == info.zoneName)
            && (KEY_ZONE_ID in t && t[KEY_ZONE_ID] == info.zoneId)
            && Lookup(t, KEY_VENDOR_PRODUCT) == info.vendorProduct
            && Lookup(t, KEY_DEVICE_NAME) == info.controllerName
            && CountOf(t, KEY_DEVICE_COUNT) == info.deviceCount
  {
    hide KEY_ZONE_NAME, KEY_ZONE_ID, KEY_VENDOR_PRODUCT, KEY_DEVICE_NAME, KEY_DEVICE_COUNT, FormatUint, ParseUint,
         CategoryText;
    PlainKeys();
    CommissionerKeys();
    FormatParse(info.deviceCount, 256);
  }

  /** Commissioner records come back exactly when the zone name is not empty and the zone identifier
      is 16 hexadecimal digits. */
  lemma CommissionerRoundTrip(info: CommissionerInfo, strs: seq<string>, keys: seq<string>)
    requires Flattens(strs, keys, EncodeCommissioner(info))
    ensures DecodeCommissioner(Parse(strs)) ==
            if info.zoneName == "" then Err(MissingRequired)
            else if IdCheck(info.zoneId).Some? then Err(IdCheck(info.zoneId).value)
            else Ok(info.(port := 0, host := ""))
    ensures DecodeCommissioner(Parse(strs)).Ok? <==> info.zoneName != "" && IsId(info.zoneId)
  {
    IdCheckExactly(info.zoneId);
    hide EncodeCommissioner, FormatUint, ParseUint, CategoryText, CategoriesOf, KEY_ZONE_NAME, KEY_ZONE_ID,
         KEY_VENDOR_PRODUCT, KEY_DEVICE_NAME, KEY_DEVICE_COUNT;
    CommissionerEncoded(info);
    RecordsRoundTrip(strs, keys, EncodeCommissioner(info));
  }

  lemma PairingRequestEncoded(info: PairingRequestInfo)
    ensures var t := EncodePairingRequest(info);
            && (forall k :: k in t ==> '=' !in k)
            && (KEY_DISCRIMINATOR in t && t[KEY_DISCRIMINATOR] == FormatUint(info.discriminator))
            && (KEY_ZONE_ID in t && t[KEY_ZONE_ID] == info.zoneId)
            && Lookup(t, KEY_ZONE_NAME) == info.zoneName
  {
    hide KEY_DISCRIMINATOR, KEY_ZONE_ID, KEY_ZONE_NAME, FormatUint;
    PlainKeys();
    PairingRequestKeys();
  }

  /** Pairing requests come back, host aside, whenever they pass their own validation. */
  lemma PairingRequestRoundTrip(info: PairingRequestInfo, strs: seq<string>, keys: seq<string>)
    requires Flattens(strs, keys, EncodePairingRequest(info))
    ensures DecodePairingRequest(Parse(strs)) ==
            if info.discriminator > MAX_DISCRIMINATOR then Err(InvalidDiscriminator)
            else if IdCheck(info.zoneId).Some? then Err(IdCheck(info.zoneId).value)
            else Ok(info.(host := ""))
    ensures DecodePairingRequest(Parse(strs)).Ok? <==> info.discriminator <= MAX_DISCRIMINATOR && IsId(info.zoneId)
    ensures Validate(info).None? ==> DecodePairingRequest(Parse(strs)) == Ok(info.(host := ""))
  {
    IdCheckExactly(info.zoneId);
    hide EncodePairingRequest, FormatUint, ParseUint, KEY_DISCRIMINATOR, KEY_ZONE_ID, KEY_ZONE_NAME;
    PairingRequestEncoded(info);
    RecordsRoundTrip(strs, keys, EncodePairingRequest(info));
    FormatParse(info.discriminator, 0x1_0000);
  }

  /** Each string adds to what came before it: a pair under its key, whatever its value contains; a text
      without '=' as a flag; the empty string nothing. */
  lemma ParseAppended(strs: seq<string>, k: string, v: string)
    requires '=' !in k
    ensures Parse(strs + [k + "=" + v]) == Parse(strs)[k := v]
    ensures Parse(strs + [k]) == if k == "" then Parse(strs) else Parse(strs)[k := ""]
  {
    assert (strs + [k + "=" + v])[..|strs|] == strs && (strs + [k])[..|strs|] == strs;
    InsertsKey(Parse(strs), k, v);
    IndexAbsent(k, '=');
  }

  // ---- Which text stands under which key ----

  /** The records of a commissionable device. */
  lemma CommissionableWire(info: CommissionableInfo)
    ensures EncodeCommissionable(info) ==
            map["D" := FormatUint(info.discriminator), "cat" := CategoryText(info.categories), "serial" := info.serial,
                "brand" := info.brand, "model" := info.model]
            + (if info.deviceName != "" then map["DN" := info.deviceName] else map[])
  {
  }

  lemma OperationalWire(info: OperationalInfo)
    ensures EncodeOperational(info) ==
            map["ZI" := info.zoneId, "DI" := info.deviceId]
            + (if info.vendorProduct != "" then map["VP" := info.vendorProduct] else map[])
            + (if info.firmware != "" then map["FW" := info.firmware] else map[])
            + (if info.endpointCount > 0 then map["EP" := FormatUint(info.endpointCount)] else map[])
  {
  }

  lemma CommissionerWire(info: CommissionerInfo)
    ensures EncodeCommissioner(info) ==
            map["ZN" := info.zoneName, "ZI" := info.zoneId]
            + (if info.vendorProduct != "" then map["VP" := info.vendorProduct] else map[])
            + (if info.controllerName != "" then map["DN" := info.controllerName] else map[])
            + (if info.deviceCount > 0 then map["DC" := FormatUint(info.deviceCount)] else map[])
  {
  }

  lemma PairingRequestWire(info: PairingRequestInfo)
    ensures EncodePairingRequest(info) ==
            map["D" := FormatUint(info.discriminator), "ZI" := info.zoneId]
            + (if info.zoneName != "" then map["ZN" := info.zoneName] else map[])
  {
  }

  /** A comma before each further category. */
  lemma CategoryAppended(cats: seq<u8>, c: u8)
    ensures CategoryText(cats + [c]) == if cats == [] then FormatUint(c) else CategoryText(cats) + "," + FormatUint(c)
  {
    hide FormatUint;
    assert (cats + [c])[..|cats|] == cats;
    PrintedPlain(cats);
    if cats == [] {
      JoinOne(FormatUint(c), ',');
      assert Printed([c]) == [FormatUint(c)];
    } else {
      JoinSnoc(Printed(cats), FormatUint(c), ',');
    }
  }

  // ---- What can be decoded ----

  /** A number that its decimal text denotes and that is at most 4095. */
  predicate DiscriminatorText(s: string) {
    var n := ParseUint(s, 10, 0x1_0000);
    n.Some? && n.value <= 4095
  }

  predicate IdUnder(txt: Records, k: string) {
    k in txt && IsId(txt[k])
  }

  lemma IdErrorExactly(txt: Records, k: string)
    ensures IdError(txt, k).None? <==> IdUnder(txt, k)
  {
    if k in txt {
      IdCheckExactly(txt[k]);
    }
  }

  /** Records can be decoded exactly when what is required is there and well-formed. */
  lemma DecodableExactly(txt: Records)
    ensures DecodeCommissionable(txt).Ok? <==>
            && "D" in txt && DiscriminatorText(txt["D"]) && "cat" in txt && CategoriesOf(txt["cat"]).Some?
            && "serial" in txt && "brand" in txt && "model" in txt
    ensures DecodeOperational(txt).Ok? <==> IdUnder(txt, "ZI") && IdUnder(txt, "DI")
    ensures DecodeCommissioner(txt).Ok? <==> "ZN" in txt && txt["ZN"] != "" && IdUnder(txt, "ZI")
    ensures DecodePairingRequest(txt).Ok? <==> "D" in txt && DiscriminatorText(txt["D"]) && IdUnder(txt, "ZI")
  {
    hide ParseUint, CategoriesOf, IsId;
    IdErrorExactly(txt, "ZI");
    IdErrorExactly(txt, "DI");
  }

  /** Why a commissionable or pairing-request record is refused, in the order of the checks. */
  lemma DecodeErrors(txt: Records)
    requires !("D" in txt && DiscriminatorText(txt["D"]))
    ensures var e: Error := if "D" in txt then InvalidDiscriminator else MissingRequired;
            DecodeCommissionable(txt) == Err(e) && DecodePairingRequest(txt) == Err(e)
  {
    hide ParseUint;
  }

  lemma CategoryErrors(txt: Records)
    requires "D" in txt && DiscriminatorText(txt["D"]) && DecodeCommissionable(txt).Err?
    ensures DecodeCommissionable(txt).error ==
            if "cat" in txt && CategoriesOf(txt["cat"]).None? then InvalidTXTRecord else MissingRequired
  {
    hide ParseUint, CategoriesOf;
  }

  /** A zone identifier that is missing or does not have 16 bytes, and one that is not hexadecimal; the zone
      name of a commissioner comes first. */
  lemma ZoneErrors(txt: Records)
    requires !IdUnder(txt, "ZI")
    ensures var e: Error := if "ZI" in txt && Utf8Length(txt["ZI"]) == 16 then InvalidTXTRecord else MissingRequired;
            && DecodeOperational(txt) == Err(e)
            && DecodeCommissioner(txt) == Err(if "ZN" in txt && txt["ZN"] != "" then e else MissingRequired)
            && ("D" in txt && DiscriminatorText(txt["D"]) ==> DecodePairingRequest(txt) == Err(e))
  {
    hide ParseUint, IsId, Utf8Length, IsHexString;
    IdErrorExactly(txt, "ZI");
  }

  /** A count that is missing or malformed reads as zero and spoils nothing. */
  lemma LenientCounts(txt: Records)
    requires DecodeOperational(txt).Ok?
    ensures var n := DecodeOperational(txt).value.endpointCount;
            n == if "EP" in txt && ParseUint(txt["EP"], 10, 256).Some? then ParseUint(txt["EP"], 10, 256).value else 0
  {
    hide ParseUint;
  }

  /** White space around a category is ignored, and so are blank categories; anything else that is not a
      number below 256 spoils the list. */
  lemma PaddedCategories(parts: seq<string>, a: string, n: nat, b: string)
    requires ParseParts(parts).Some? && Blank(a) && Blank(b)
    ensures ParseParts(parts + [a]) == ParseParts(parts)
    ensures ParseParts(parts + [a + FormatUint(n) + b]) ==
            if n < 256 then Some(ParseParts(parts).value + [n]) else None
  {
    hide FormatUint, ParseUint, TrimSpace, Blank;
    assert (parts + [a])[..|parts|] == parts && (parts + [a + FormatUint(n) + b])[..|parts|] == parts;
    TrimBlank(a);
    FormatParse(n, 256);
    DecimalTrimmed(FormatUint(n));
    DecimalEnds(FormatUint(n));
    TrimPads(a, FormatUint(n), b);
  }

  lemma DecimalEnds(s: string)
    requires IsDecimal(s) && s != ""
    ensures Trimmed(s)
  {
    assert s[0] in s && s[|s| - 1] in s;
  }
}
