/** The store of a controller: a certificate store with the controller's own files and its devices. */
module ControllerStore {
  import opened Wrappers
  import opened Tombstones
  import opened CertStore

  // ---- The controller's own files ----

  datatype ZoneCA = ZoneCA(cert: Cert, key: Key, zoneId: string, zoneType: u8)

  datatype ControllerCert = ControllerCert(cert: Cert, key: Key, zoneId: string, zoneType: u8, ca: Option<Cert>)

  /** The JSON record beside the CA's certificate and key. */
  datatype Meta = Meta(zoneId: string, zoneType: u8)

  datatype OwnDir = OwnDir(caCert: File<Cert>, caKey: File<Key>, meta: File<Meta>, cert: File<Cert>, key: File<Key>)

  /** In memory. */
  datatype Own = Own(ca: Option<ZoneCA>, cert: Option<ControllerCert>)

  const NothingOwn := Own(None, None)

  datatype Outcome = Succeeds | Fails | Panics

  function Written<T>(f: File<T>, v: T, luck: Luck, step: nat): File<T> {
    if luck.FailsAt? && luck.step == step then Failed(f, luck.torn) else Holds(v)
  }

  /** Directory, certificate, key and record of the CA (steps 0 to 3), then directory, certificate and key of
      the controller (steps 4 to 6), each group only if it is there. */
  function SaveOwn(d: OwnDir, o: Own, luck: Luck): (OwnDir, bool) {
    var (d1, ok) := SaveCA(d, o.ca, luck);
    if ok then SaveCert(d1, o.cert, luck) else (d1, false)
  }

  function SaveCA(d: OwnDir, ca: Option<ZoneCA>, luck: Luck): (OwnDir, bool) {
    if ca.None? then (d, true)
    else
      var c := ca.value;
      var d1 := d.(caCert := Written(d.caCert, c.cert, luck, 1));
      var d2 := d1.(caKey := Written(d.caKey, c.key, luck, 2));
      var d3 := d2.(meta := Written(d.meta, Meta(c.zoneId, c.zoneType), luck, 3));
      if luck.AllGood? || luck.step > 3 then (d3, true)
      else (if luck.step == 0 then d else if luck.step == 1 then d1 else if luck.step == 2 then d2 else d3, false)
  }

  function SaveCert(d: OwnDir, cert: Option<ControllerCert>, luck: Luck): (OwnDir, bool) {
    if cert.None? then (d, true)
    else
      var d1 := d.(cert := Written(d.cert, cert.value.cert, luck, 5));
      var d2 := d1.(key := Written(d.key, cert.value.key, luck, 6));
      if luck.AllGood? || luck.step < 4 || luck.step > 6 then (d2, true)
      else (if luck.step == 4 then d else if luck.step == 5 then d1 else d2, false)
  }

  /** What reading a group of files gives: an error, nothing because the first file that is not good is
      missing, or all of them. */
  datatype Group<T> = Bad | Missing | Read(value: T)

  function ReadCA(d: OwnDir): Group<ZoneCA> {
    match (d.caCert, d.caKey, d.meta)
    case (Torn, _, _) => Bad
    case (Absent, _, _) => Missing
    case (_, Torn, _) => Bad
    case (_, Absent, _) => Missing
    case (_, _, Torn) => Bad
    case (_, _, Absent) => Missing
    case (Holds(c), Holds(k), Holds(m)) => Read(ZoneCA(c, k, m.zoneId, m.zoneType))
  }

  function ReadPair(d: OwnDir): Group<(Cert, Key)> {
    match (d.cert, d.key)
    case (Torn, _) => Bad
    case (Absent, _) => Missing
    case (_, Torn) => Bad
    case (_, Absent) => Missing
    case (Holds(c), Holds(k)) => Read((c, k))
  }

  datatype OwnOutcome = OwnLoads(o: Own) | OwnFails(o: Own) | OwnPanics

  /** A missing group is skipped. The controller's certificate takes its zone from the zone CA, and there is
      no check that there is one. */
  function LoadOwn(d: OwnDir, o: Own): OwnOutcome {
    if ReadCA(d).Bad? then OwnFails(o)
    else
      var o1 := if ReadCA(d).Read? then o.(ca := Some(ReadCA(d).value)) else o;
      match ReadPair(d)
      case Bad => OwnFails(o1)
      case Missing => OwnLoads(o1)
      case Read((c, k)) =>
        if o1.ca.None? then OwnPanics
        else OwnLoads(o1.(cert := Some(ControllerCert(c, k, o1.ca.value.zoneId, o1.ca.value.zoneType,
                                                      Some(o1.ca.value.cert)))))
  }

  /** What is complete on disk replaces what is in memory; what is missing leaves it. */
  lemma LoadsExactly(d: OwnDir, o: Own)
    requires LoadOwn(d, o).OwnLoads?
    ensures var r := LoadOwn(d, o).o;
            && (d.caCert.Holds? && d.caKey.Holds? && d.meta.Holds? ==>
                  r.ca == Some(ZoneCA(d.caCert.content, d.caKey.content, d.meta.content.zoneId,
                                      d.meta.content.zoneType)))
            && (!(d.caCert.Holds? && d.caKey.Holds? && d.meta.Holds?) ==> r.ca == o.ca)
            && (d.cert.Holds? && d.key.Holds? ==>
                  r.ca.Some? && r.cert.Some? &&
                  r.cert.value.cert == d.cert.content && r.cert.value.key == d.key.content &&
                  r.cert.value.zoneId == r.ca.value.zoneId && r.cert.value.zoneType == r.ca.value.zoneType &&
                  r.cert.value.ca == Some(r.ca.value.cert))
            && (!(d.cert.Holds? && d.key.Holds?) ==> r.cert == o.cert)
  {
  }

  /** Loading fails exactly on a damaged file that is reached: one before which its group has no gap. */
  lemma FailsExactly(d: OwnDir, o: Own)
    ensures LoadOwn(d, o).OwnFails? <==>
            || d.caCert.Torn? || (d.caCert.Holds? && d.caKey.Torn?)
            || (d.caCert.Holds? && d.caKey.Holds? && d.meta.Torn?)
            || d.cert.Torn? || (d.cert.Holds? && d.key.Torn?)
  {
  }

  /** Loading panics exactly on a complete controller certificate without a zone CA, on disk or in memory. */
  lemma PanicsExactly(d: OwnDir, o: Own)
    ensures LoadOwn(d, o).OwnPanics? <==>
            o.ca.None? && ReadCA(d).Missing? && d.cert.Holds? && d.key.Holds?
  {
  }

  /** A controller that saves a certificate of its own cannot be loaded again exactly when neither it nor
      the directory has a zone CA; with one, certificate and CA come back, the certificate in the CA's zone. */
  lemma OwnAfterSave(d: OwnDir, o: Own, luck: Luck)
    requires SaveOwn(d, o, luck).1 && o.cert.Some?
    ensures var r := LoadOwn(SaveOwn(d, o, luck).0, NothingOwn);
            && (r.OwnPanics? <==> o.ca.None? && ReadCA(d).Missing?)
            && (o.ca.Some? ==>
                  r == OwnLoads(o.(cert := Some(o.cert.value.(zoneId := o.ca.value.zoneId,
                                                              zoneType := o.ca.value.zoneType,
                                                              ca := Some(o.ca.value.cert))))))
  {
  }

  /** An interrupted save of the CA over nothing is skipped by the next load as if there were none, unless
      the file at which it stopped was damaged. */
  lemma InterruptedCA(d: OwnDir, o: Own, step: nat, torn: bool)
    requires o.ca.Some? && step <= 3 && d == OwnDir(Absent, Absent, Absent, Absent, Absent)
    ensures !SaveOwn(d, o, FailsAt(step, torn)).1
    ensures LoadOwn(SaveOwn(d, o, FailsAt(step, torn)).0, NothingOwn) ==
            if torn && step > 0 then OwnFails(NothingOwn) else OwnLoads(NothingOwn)
  {
  }

  /** An interrupted first save of the controller's certificate leaves the CA as saved and no certificate,
      unless the file at which it stopped was damaged. */
  lemma InterruptedCert(d: OwnDir, o: Own, step: nat, torn: bool)
    requires o.cert.Some? && 4 <= step <= 6 && d == OwnDir(Absent, Absent, Absent, Absent, Absent)
    ensures !SaveOwn(d, o, FailsAt(step, torn)).1
    ensures LoadOwn(SaveOwn(d, o, FailsAt(step, torn)).0, NothingOwn) ==
            if torn && step > 4 then OwnFails(Own(o.ca, None)) else OwnLoads(Own(o.ca, None))
    ensures SaveOwn(d, o, FailsAt(step, torn)).0.key == (if torn && step == 6 then Torn else Absent)
    ensures SaveOwn(d, o, FailsAt(step, torn)).0.cert ==
            (if step == 6 then Holds(o.cert.value.cert) else if torn && step == 5 then Torn else Absent)
  {
  }

  // ---- Devices of a controller ----

  datatype Device = Device(id: string, ski: seq<u8>, skiHex: string, deviceType: string)

  /** The JSON record: the key identifier is stored as hexadecimal text. */
  datatype DeviceRecord = DeviceRecord(id: string, ski: string, deviceType: string)

  datatype DeviceDir = DeviceDir(info: File<DeviceRecord>)

  function HexDigit(d: nat): char
    requires d < 16
  {
    "0123456789abcdef"[d]
  }

  function HexEncode(b: seq<u8>): string {
    if b == [] then "" else HexEncode(b[..|b| - 1]) + [HexDigit(b[|b| - 1] / 16), HexDigit(b[|b| - 1] % 16)]
  }

  function HexValue(c: char): Option<nat> {
    if '0' <= c <= '9' then Some(c as int - '0' as int)
    else if 'a' <= c <= 'f' then Some(c as int - 'a' as int + 10)
    else if 'A' <= c <= 'F' then Some(c as int - 'A' as int + 10)
    else None
  }

  function HexDecode(s: string): Option<seq<u8>> {
    if s == "" then Some([])
    else if |s| == 1 then None
    else
      var n := |s| - 2;
      match (HexDecode(s[..n]), HexValue(s[n]), HexValue(s[n + 1]))
      case (Some(b), Some(hi), Some(lo)) => if hi < 16 && lo < 16 then Some(b + [hi * 16 + lo]) else None
      case _ => None
  }

  lemma HexDigits(i: nat)
    requires i < 16
    ensures HexValue(HexDigit(i)) == Some(i)
  {
  }

  lemma HexNext(text: string, b: seq<u8>, last: u8)
    requires HexDecode(text) == Some(b)
    ensures HexDecode(text + [HexDigit(last / 16), HexDigit(last % 16)]) == Some(b + [last])
  {
    hide HexValue, HexDigit;
    HexDigits(last / 16);
    HexDigits(last % 16);
    var s := text + [HexDigit(last / 16), HexDigit(last % 16)];
    assert s[..|s| - 2] == text && s[|s| - 2] == HexDigit(last / 16) && s[|s| - 1] == HexDigit(last % 16);
  }

  lemma {:induction false} HexRoundTrip(b: seq<u8>)
    ensures HexDecode(HexEncode(b)) == Some(b) && |HexEncode(b)| == 2 * |b|
  {
    hide HexDecode, HexDigit;
    if b != [] {
      var init, last := b[..|b| - 1], b[|b| - 1];
      HexRoundTrip(init);
      HexNext(HexEncode(init), init, last);
      assert init + [last] == b;
    } else {
      NoHex();
    }
  }

  /** Two lower-case digits for each byte. */
  lemma {:induction false} HexText(b: seq<u8>)
    ensures forall c :: c in HexEncode(b) ==> '0' <= c <= '9' || 'a' <= c <= 'f'
  {
    if b != [] {
      HexText(b[..|b| - 1]);
    }
  }

  lemma NoHex()
    ensures HexDecode("") == Some([])
  {
  }

  function WriteDevice(d: Option<DeviceDir>, v: Device, luck: Luck): (Option<DeviceDir>, bool) {
    var base := if d.Some? then d.value else DeviceDir(Absent);
    match luck
    case FailsAt(0, _) => (d, false)
    case FailsAt(1, torn) => (Some(DeviceDir(Failed(base.info, torn))), false)
    case _ => (Some(DeviceDir(Holds(DeviceRecord(v.id, HexEncode(v.ski), v.deviceType)))), true)
  }

  function ReadDevice(d: DeviceDir): Option<Device> {
    if !d.info.Holds? then None
    else
      var r := d.info.content;
      if r.ski == "" then Some(Device(r.id, [], "", r.deviceType))
      else
        match HexDecode(r.ski)
        case Some(ski) => Some(Device(r.id, ski, r.ski, r.deviceType))
        case None => None
  }

  lemma DeviceWrites()
    ensures Writes(WriteDevice)
  {
  }

  lemma ReadAfterWriteDevice(d: Option<DeviceDir>, v: Device, luck: Luck)
    requires WriteDevice(d, v, luck).1
    ensures WriteDevice(d, v, luck).0.Some?
    ensures ReadDevice(WriteDevice(d, v, luck).0.value) == Some(v.(skiHex := HexEncode(v.ski)))
  {
    hide HexEncode, HexDecode;
    HexRoundTrip(v.ski);
  }

  /** After a successful save with nothing stuck, a load returns the same devices, with the hexadecimal
      form of their key identifiers filled in. */
  lemma DevicesAfterSave(disk: map<string, DeviceDir>, s: Store<Device>, order: seq<string>, luck: string -> Luck)
    requires Orders(order, s.live) && Within(s, disk) && SaveAll(WriteDevice, disk, s, order, luck, {}).1
    ensures Loaded(ReadDevice, SaveAll(WriteDevice, disk, s, order, luck, {}).0) == Some(WithHex(s.live))
  {
    hide HexEncode, WriteDevice, ReadDevice, SaveAll, Loaded;
    DeviceWrites();
    SaveEffect(WriteDevice, disk, s, order, luck, {});
    var d := SaveAll(WriteDevice, disk, s, order, luck, {}).0;
    assert d.Keys == s.live.Keys;
    forall k | k in s.live
      ensures ReadDevice(d[k]) == Some(WithHex(s.live)[k])
    {
      ReadAfterWriteDevice(Entry(disk, k), s.live[k], luck(k));
    }
    LoadedIs(ReadDevice, d, WithHex(s.live));
  }

  function WithHex(live: map<string, Device>): map<string, Device> {
    map k | k in live :: live[k].(skiHex := HexEncode(live[k].ski))
  }

  class ControllerDisk {
    const base: Disk
    var own: OwnDir
    var devices: map<string, DeviceDir>

    constructor (b: Disk)
      ensures base == b
    {
      base := b;
      own, devices := OwnDir(Absent, Absent, Absent, Absent, Absent), map[];
    }
  }

  class FileControllerStore {
    const base: FileStore
    var own: Own
    var devices: map<string, Device>
    var removedDevices: set<string>

    ghost function View(): Store<Device>
      reads this
    {
      Store(devices, removedDevices)
    }

    constructor (b: FileStore)
      ensures base == b && View() == Store(map[], {}) && own == NothingOwn
    {
      base, own, devices, removedDevices := b, NothingOwn, map[], {};
    }

    /** A zone CA lacking its certificate or key is refused. */
    method SetZoneCA(ca: Option<ZoneCA>) returns (error: Option<Error>)
      modifies this`own
      ensures error == if ca.None? then Some(InvalidCert) else None
      ensures own == if ca.Some? then old(own).(ca := ca) else old(own)
    {
      if ca.None? {
        return Some(InvalidCert);
      }
      own := own.(ca := ca);
      return None;
    }

    method SetControllerCert(cert: Option<ControllerCert>) returns (error: Option<Error>)
      modifies this`own
      ensures error == if cert.None? then Some(InvalidCert) else None
      ensures own == if cert.Some? then old(own).(cert := cert) else old(own)
    {
      if cert.None? {
        return Some(InvalidCert);
      }
      own := own.(cert := cert);
      return None;
    }

    method AddDevice(d: Option<Device>) returns (error: Option<Error>)
      modifies this
      ensures own == old(own)
      ensures error == if d.None? || d.value.id == "" then Some(InvalidCert) else None
      ensures View() == if error.Some? then old(View()) else Put(old(View()), d.value.id, d.value)
    {
      if d.None? || d.value.id == "" {
        return Some(InvalidCert);
      }
      devices := devices[d.value.id := d.value];
      removedDevices := removedDevices - {d.value.id};
      return None;
    }

    method RemoveDevice(id: string) returns (error: Option<Error>)
      modifies this
      ensures own == old(own)
      ensures error == if id in old(devices) then None else Some(DeviceNotFound)
      ensures View() == Remove(old(View()), id)
    {
      if id !in devices {
        return Some(DeviceNotFound);
      }
      devices := devices - {id};
      removedDevices := removedDevices + {id};
      return None;
    }

    /** The zones are saved first, then the controller's own files, then the devices; the first failure
        ends the save. */
    method Save(disk: ControllerDisk, root: bool, luck: string -> Luck, stuck: set<string>, ownLuck: Luck,
                deviceLuck: string -> Luck, stuckDevices: set<string>)
      returns (ok: bool, ghost zonesOk: bool)
      modifies disk, disk.base
      ensures if root
              then SavedAs(WriteZone, old(disk.base.zones), base.View(), luck, stuck, disk.base.zones, zonesOk)
              else !zonesOk && disk.base.zones == old(disk.base.zones)
      ensures disk.own == if zonesOk then SaveOwn(old(disk.own), own, ownLuck).0 else old(disk.own)
      ensures if zonesOk && SaveOwn(old(disk.own), own, ownLuck).1
              then SavedAs(WriteDevice, old(disk.devices), View(), deviceLuck, stuckDevices, disk.devices, ok)
              else !ok && disk.devices == old(disk.devices)
    {
      ok := base.Save(disk.base, root, luck, stuck);
      zonesOk := ok;
      if !ok {
        return;
      }
      var (written, saved) := SaveOwn(disk.own, own, ownLuck);
      disk.own := written;
      if !saved {
        return false, zonesOk;
      }
      var after;
      after, ok := Tombstones.Save(WriteDevice, disk.devices, Store(devices, removedDevices), deviceLuck, stuckDevices);
      disk.devices := after;
    }

    /** The outcome is a panic, a failure or success; what was read before a failure stays. */
    method Load(disk: ControllerDisk) returns (outcome: Outcome)
      modifies this, base
      ensures outcome ==
              if Loaded(ReadZone, disk.base.zones).None? then Fails
              else match LoadOwn(disk.own, old(own))
                   case OwnPanics => Panics
                   case OwnFails(_) => Fails
                   case OwnLoads(_) => if Loaded(ReadDevice, disk.devices).Some? then Succeeds else Fails
      ensures removedDevices == old(removedDevices) && base.removedZones == old(base.removedZones)
      ensures exists found :: Finds(ReadZone, disk.base.zones, found, Loaded(ReadZone, disk.base.zones).Some?)
                && base.operationalCerts == old(base.operationalCerts) + found
      ensures outcome.Succeeds? ==> OwnLoads(own) == LoadOwn(disk.own, old(own))
      ensures outcome.Succeeds? ==>
                exists found :: Finds(ReadDevice, disk.devices, found, true) && devices == old(devices) + found
      ensures outcome.Succeeds? && old(View()) == Store(map[], {}) && old(base.View()) == Store(map[], {}) ==>
                FreshlyLoaded(System(base.View(), disk.base.zones)) && FreshlyLoaded(System(View(), disk.devices))
    {
      var ok := base.Load(disk.base);
      if !ok {
        return Fails;
      }
      match LoadOwn(disk.own, own) {
        case OwnPanics => return Panics;
        case OwnFails(o) =>
          own := o;
          return Fails;
        case OwnLoads(o) => own := o;
      }
      var found;
      found, ok := Tombstones.Load(ReadDevice, disk.devices);
      devices := devices + found;
      return if ok then Succeeds else Fails;
    }
  }
}
