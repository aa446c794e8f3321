/** The file-backed certificate store of a device. */
module CertStore {
  import opened Wrappers
  import opened Tombstones

  /** Certificates and keys, by the text they are stored as. */
  datatype Cert = Cert(pem: string)
  datatype Key = Key(pem: string)

  const MAX_ZONES := 3

  datatype Error = InvalidCert | CertNotFound | MaxZonesExceeded | DeviceNotFound

  /** A certificate handed to the store may be missing; a stored one is not. */
  datatype OperationalCert = OperationalCert(cert: Option<Cert>, key: Key, zoneId: string, zoneType: u8,
                                             ca: Option<Cert>)
  datatype Stored = Stored(cert: Cert, key: Key, zoneType: u8, ca: Option<Cert>)

  datatype File<T> = Absent | Torn | Holds(content: T)

  datatype ZoneDir = ZoneDir(cert: File<Cert>, key: File<Key>, ca: File<Cert>)

  // ---- One zone's directory ----

  function Failed<T>(f: File<T>, torn: bool): File<T> {
    if torn then Torn else f
  }

  /** Directory, certificate, key and (if there is one) CA certificate, in this order. */
  function WriteZone(d: Option<ZoneDir>, v: Stored, luck: Luck): (Option<ZoneDir>, bool) {
    var base := if d.Some? then d.value else ZoneDir(Absent, Absent, Absent);
    var d1 := base.(cert := Holds(v.cert));
    var d2 := d1.(key := Holds(v.key));
    match luck
    case FailsAt(0, _) => (d, false)
    case FailsAt(1, torn) => (Some(base.(cert := Failed(base.cert, torn))), false)
    case FailsAt(2, torn) => (Some(d1.(key := Failed(base.key, torn))), false)
    case FailsAt(3, torn) =>
      if v.ca.Some? then (Some(d2.(ca := Failed(base.ca, torn))), false) else (Some(d2), true)
    case _ => (Some(if v.ca.Some? then d2.(ca := Holds(v.ca.value)) else d2), true)
  }

  /** The zone type is not stored. */
  function ReadZone(d: ZoneDir): Option<Stored> {
    if d.cert.Holds? && d.key.Holds? && !d.ca.Torn?
    then Some(Stored(d.cert.content, d.key.content, 0, if d.ca.Holds? then Some(d.ca.content) else None))
    else None
  }

  lemma ZoneWrites()
    ensures Writes(WriteZone)
  {
  }

  /** The CA certificate a directory already holds for a zone. */
  function OldCa(d: Option<ZoneDir>): File<Cert> {
    if d.Some? then d.value.ca else Absent
  }

  /** Reading a zone back after a complete write gives what was stored, without its zone type, and with
      the directory's previous CA certificate if the stored one has none. */
  lemma ReadAfterWrite(d: Option<ZoneDir>, v: Stored, luck: Luck)
    requires WriteZone(d, v, luck).1
    ensures ReadZone(WriteZone(d, v, luck).0.value) ==
            if v.ca.Some? then Some(v.(zoneType := 0))
            else match OldCa(d)
                 case Absent => Some(v.(zoneType := 0))
                 case Holds(ca) => Some(v.(zoneType := 0, ca := Some(ca)))
                 case Torn => None
  {
  }

  lemma LoadedIs<D, V>(read: D -> Option<V>, disk: map<string, D>, live: map<string, V>)
    requires disk.Keys == live.Keys && forall k :: k in disk ==> read(disk[k]) == Some(live[k])
    ensures Loaded(read, disk) == Some(live)
  {
    assert (map k | k in disk :: read(disk[k]).value) == live;
  }

  /** A load that follows a successful save returns the store's certificates exactly when no zone without
      a CA certificate finds an older one in its directory. */
  lemma LoadAfterSave(disk: map<string, ZoneDir>, s: Store<Stored>, order: seq<string>, luck: string -> Luck)
    requires Orders(order, s.live) && Within(s, disk) && SaveAll(WriteZone, disk, s, order, luck, {}).1
    ensures Loaded(ReadZone, SaveAll(WriteZone, disk, s, order, luck, {}).0) ==
              Some(map z | z in s.live :: s.live[z].(zoneType := 0)) <==>
            forall z :: z in s.live && s.live[z].ca.None? ==> OldCa(Entry(disk, z)).Absent?
  {
    ZoneWrites();
    SaveEffect(WriteZone, disk, s, order, luck, {});
    var d := SaveAll(WriteZone, disk, s, order, luck, {}).0;
    assert d.Keys == s.live.Keys;
    forall z | z in s.live
      ensures WriteZone(Entry(disk, z), s.live[z], luck(z)) == (Some(d[z]), true)
      ensures ReadZone(d[z]) == Some(s.live[z].(zoneType := 0)) <==>
              (s.live[z].ca.None? ==> OldCa(Entry(disk, z)).Absent?)
    {
      ReadAfterWrite(Entry(disk, z), s.live[z], luck(z));
    }
    var expected := map z | z in s.live :: s.live[z].(zoneType := 0);
    if forall z :: z in s.live && s.live[z].ca.None? ==> OldCa(Entry(disk, z)).Absent? {
      forall z | z in s.live
        ensures ReadZone(d[z]) == Some(expected[z])
      {
        assert s.live[z].ca.None? ==> OldCa(Entry(disk, z)).Absent?;
      }
      LoadedIs(ReadZone, d, expected);
    }
    if Loaded(ReadZone, d) == Some(expected) {
      forall z | z in s.live
        ensures ReadZone(d[z]) == Some(s.live[z].(zoneType := 0))
      {
        assert expected[z] == ReadZone(d[z]).value;
      }
    }
  }

  /** What an interrupted write leaves of a zone's directory, over whatever was there: nothing changes if
      the directory cannot be made; otherwise it can be read if and only if the failed file was not damaged
      and the files not reached yet were good, and then it mixes what was written with what was there. */
  lemma InterruptedWrite(d: Option<ZoneDir>, v: Stored, step: nat, torn: bool)
    requires !WriteZone(d, v, FailsAt(step, torn)).1
    ensures var after := WriteZone(d, v, FailsAt(step, torn)).0;
            var base := if d.Some? then d.value else ZoneDir(Absent, Absent, Absent);
            && (step == 0 ==> after == d)
            && (step > 0 ==>
                  && after.Some?
                  && (ReadZone(after.value).Some? <==>
                        !torn && !base.ca.Torn? && (step >= 2 || base.cert.Holds?) && (step >= 3 || base.key.Holds?))
                  && (ReadZone(after.value).Some? ==>
                        ReadZone(after.value).value ==
                        Stored(if step >= 2 then v.cert else base.cert.content,
                               if step >= 3 then v.key else base.key.content, 0,
                               if base.ca.Holds? then Some(base.ca.content) else None)))
            && (v.ca.Some? ==> ReadZone(WriteZone(after, v, AllGood).0.value) == Some(v.(zoneType := 0)))
  {
  }

  /** A write of one zone that is interrupted on a readable disk makes every later load fail if and only
      if it damaged a file, or stopped before the key of a zone that had no directory. */
  lemma InterruptedSave(disk: map<string, ZoneDir>, z: string, v: Stored, step: nat, torn: bool)
    requires Loaded(ReadZone, disk).Some? && !WriteZone(Entry(disk, z), v, FailsAt(step, torn)).1
    ensures Loaded(ReadZone, WriteEntry(WriteZone, disk, z, v, FailsAt(step, torn)).0).None? <==>
            step > 0 && (torn || (z !in disk && step <= 2))
  {
    InterruptedWrite(Entry(disk, z), v, step, torn);
    var after := WriteEntry(WriteZone, disk, z, v, FailsAt(step, torn)).0;
    hide WriteZone, ReadZone;
    assert z in disk ==> ReadZone(disk[z]).Some?;
    if step > 0 {
      assert z in after && forall k :: k in after && k != z ==> k in disk && after[k] == disk[k];
      ReadableFiles(disk, z);
    } else {
      assert after == disk;
    }
  }

  lemma ReadableFiles(disk: map<string, ZoneDir>, z: string)
    requires z in disk ==> ReadZone(disk[z]).Some?
    ensures z in disk ==> disk[z].cert.Holds? && disk[z].key.Holds? && !disk[z].ca.Torn?
  {
  }

  // ---- The store ----

  class Disk {
    var zones: map<string, ZoneDir>

    constructor ()
    {
      zones := map[];
    }
  }

  class FileStore {
    var operationalCerts: map<string, Stored>
    var zoneCACerts: map<string, Cert>
    var removedZones: set<string>

    ghost function View(): Store<Stored>
      reads this
    {
      Store(operationalCerts, removedZones)
    }

    constructor ()
      ensures View() == Store(map[], {}) && zoneCACerts == map[]
    {
      operationalCerts, zoneCACerts, removedZones := map[], map[], {};
    }

    method SetOperationalCert(c: OperationalCert) returns (error: Option<Error>)
      modifies this
      ensures error == if c.cert.None? then Some(InvalidCert)
                       else if c.zoneId !in old(operationalCerts) && |old(operationalCerts)| >= 3
                       then Some(MaxZonesExceeded)
                       else None
      ensures View() == if error.Some? then old(View())
                        else Put(old(View()), c.zoneId, Stored(c.cert.value, c.key, c.zoneType, c.ca))
      ensures |old(operationalCerts)| <= 3 ==> |operationalCerts| <= 3
      ensures zoneCACerts == old(zoneCACerts)
    {
      if c.cert.None? {
        return Some(InvalidCert);
      }
      if c.zoneId !in operationalCerts {
        if |operationalCerts| >= MAX_ZONES {
          return Some(MaxZonesExceeded);
        }
      }
      operationalCerts := operationalCerts[c.zoneId := Stored(c.cert.value, c.key, c.zoneType, c.ca)];
      removedZones := removedZones - {c.zoneId};
      return None;
    }

    method RemoveOperationalCert(z: string) returns (error: Option<Error>)
      modifies this
      ensures error == if z in old(operationalCerts) then None else Some(CertNotFound)
      ensures View() == Remove(old(View()), z)
      ensures zoneCACerts == if error.None? then old(zoneCACerts) - {z} else old(zoneCACerts)
    {
      if z !in operationalCerts {
        return Some(CertNotFound);
      }
      operationalCerts := operationalCerts - {z};
      zoneCACerts := zoneCACerts - {z};
      removedZones := removedZones + {z};
      return None;
    }

    /** Also reaches the stored certificate of the zone, if there is one; it does not revive a removed zone. */
    method SetZoneCACert(z: string, ca: Option<Cert>) returns (error: Option<Error>)
      modifies this
      ensures error == if ca.None? then Some(InvalidCert) else None
      ensures View() == if ca.Some? && z in old(operationalCerts)
                        then old(View()).(live := old(operationalCerts)[z := old(operationalCerts)[z].(ca := ca)])
                        else old(View())
      ensures ca.Some? && z in old(operationalCerts) && z !in old(removedZones) ==>
                View() == Put(old(View()), z, old(operationalCerts)[z].(ca := ca))
      ensures zoneCACerts == if ca.Some? then old(zoneCACerts)[z := ca.value] else old(zoneCACerts)
    {
      if ca.None? {
        return Some(InvalidCert);
      }
      zoneCACerts := zoneCACerts[z := ca.value];
      if z in operationalCerts {
        operationalCerts := operationalCerts[z := operationalCerts[z].(ca := ca)];
      }
      return None;
    }

    /** "root" tells whether the base directory can be made. */
    method Save(disk: Disk, root: bool, luck: string -> Luck, stuck: set<string>) returns (ok: bool)
      modifies disk`zones
      ensures if root then SavedAs(WriteZone, old(disk.zones), View(), luck, stuck, disk.zones, ok)
              else !ok && disk.zones == old(disk.zones)
    {
      if !root {
        return false;
      }
      var after;
      after, ok := Tombstones.Save(WriteZone, disk.zones, Store(operationalCerts, removedZones), luck, stuck);
      disk.zones := after;
    }

    /** Adds what it finds to what is in memory; tombstones stay. */
    method Load(disk: Disk) returns (ok: bool)
      modifies this
      ensures removedZones == old(removedZones)
      ensures exists found :: Finds(ReadZone, disk.zones, found, ok)
                && operationalCerts == old(operationalCerts) + found && zoneCACerts == old(zoneCACerts) + CaCerts(found)
      ensures ok && old(View()) == Store(map[], {}) ==> FreshlyLoaded(System(View(), disk.zones))
      ensures ok ==> forall z :: z in zoneCACerts <==>
                z in old(zoneCACerts) || (z in disk.zones && disk.zones[z].ca.Holds?)
      ensures ok ==> forall z :: z in disk.zones && disk.zones[z].ca.Holds? ==>
                z in zoneCACerts && zoneCACerts[z] == disk.zones[z].ca.content
    {
      var found;
      found, ok := Tombstones.Load(ReadZone, disk.zones);
      operationalCerts := operationalCerts + found;
      zoneCACerts := zoneCACerts + CaCerts(found);
    }
  }

  /** The CA certificates among loaded zones. */
  function CaCerts(found: map<string, Stored>): map<string, Cert> {
    map z | z in found && found[z].ca.Some? :: found[z].ca.value
  }
}
