/** What each limit-resolver operation does to the resolver's state, on values. */
module LimitSpec {
  import opened Wrappers
  import opened DurationManager
  import opened MultiZone

  datatype Direction = Consumption | Production

  datatype Slot = Slot(zone: ZoneId, dir: Direction)

  datatype ControlState = Autonomous | Controlled | Limited | Failsafe | Override

  /** The EnergyControl attributes the resolver writes. */
  datatype Attributes = Attributes(effConsumption: Option<int>, effProduction: Option<int>, control: ControlState)

  datatype Request = Request(consumption: Option<int>, production: Option<int>, seconds: Option<u32>) {
    function Of(dir: Direction): Option<int> {
      if dir.Consumption? then consumption else production
    }

    /** Nanoseconds; zero means indefinite. */
    function Duration(): int {
      if seconds.Some? && seconds.value > 0 then seconds.value * SECOND else 0
    }
  }

  /** The optional direction of a ClearLimit; "Unrecognized" stands for any other code. */
  datatype ClearTarget = Both | Only(dir: Direction) | Unrecognized {
    predicate Covers(d: Direction) {
      Both? || this == Only(d)
    }
  }

  /** One entry of a notification: the attribute is left out, or carries a value or nil. */
  datatype Change = Unchanged | To(value: Option<int>)

  datatype Note = Note(zone: ZoneId, consumption: Change, production: Change) {
    function Of(dir: Direction): Change {
      if dir.Consumption? then consumption else production
    }
  }

  type Replica = map<Slot, int>

  /** The device's nominal maxima; zero or less switches the check off. */
  datatype Capacity = Capacity(consumption: int, production: int) {
    predicate Exceeded(v: Option<int>, max: int) {
      v.Some? && max > 0 && v.value > max
    }
  }

  datatype State = State(
    consumption: Values,
    production: Values,
    timers: Table,
    zoneIndex: map<ZoneId, u8>,
    indexZone: map<u8, ZoneId>,
    nextIndex: u8,
    attrs: Attributes,
    my: Replica)
  {
    function Of(dir: Direction): Values {
      if dir.Consumption? then consumption else production
    }

    function With(dir: Direction, m: Values): State {
      if dir.Consumption? then this.(consumption := m) else this.(production := m)
    }
  }

  const Initial := State(map[], map[], map[], map[], map[], 0, Attributes(None, None, Autonomous), map[])

  function Command(dir: Direction): CommandType {
    if dir.Consumption? then LimitConsumption else LimitProduction
  }

  // ---- Notifications ----

  function Put(my: Replica, slot: Slot, c: Change): Replica {
    match c
    case Unchanged => my
    case To(None) => my - {slot}
    case To(Some(v)) => my[slot := v]
  }

  function Apply(my: Replica, n: Note): Replica {
    Put(Put(my, Slot(n.zone, Consumption), n.consumption), Slot(n.zone, Production), n.production)
  }

  /** What a subscriber holds after receiving the notifications in order. */
  function Fold(sent: seq<Note>): Replica {
    if sent == [] then map[] else Apply(Fold(sent[..|sent| - 1]), sent[|sent| - 1])
  }

  function Notify(s: State, n: Note): State {
    s.(my := Apply(s.my, n))
  }

  function SetChange(v: Option<int>): Change {
    if v.Some? then To(v) else Unchanged
  }

  function ClearChange(cleared: bool): Change {
    if cleared then To(None) else Unchanged
  }

  // ---- Shared steps ----

  function ControlFor(c: Option<int>, p: Option<int>): ControlState {
    if c.Some? || p.Some? then Controlled else Autonomous
  }

  ghost function Resolve(s: State, now: int): State {
    var c, p := Unexpired(s.consumption, now), Unexpired(s.production, now);
    var ec, ep := Effective(c), Effective(p);
    s.(consumption := c, production := p, attrs := Attributes(ec, ep, ControlFor(ec, ep)))
  }

  /** How every operation ends: recompute, then tell the zone. */
  ghost function Finish(s: State, n: Note, now: int): State {
    Notify(Resolve(s, now), n)
  }

  function EnsureIndex(s: State, z: ZoneId): State {
    if z in s.zoneIndex then s
    else s.(zoneIndex := s.zoneIndex[z := s.nextIndex],
            indexZone := s.indexZone[s.nextIndex := z],
            nextIndex := (s.nextIndex + 1) % 256)
  }

  function Store(s: State, slot: Slot, zoneType: u8, v: int, d: int, now: int): State
    requires slot.zone in s.zoneIndex
  {
    var key := TimerKey(s.zoneIndex[slot.zone], Command(slot.dir));
    s.With(slot.dir, s.Of(slot.dir)[slot.zone := ZoneValue(zoneType, v, d, now)])
     .(timers := if d > 0 then Arm(s.timers, key, d, v, now) else s.timers - {key})
  }

  function StoreIf(s: State, slot: Slot, zoneType: u8, v: Option<int>, d: int, now: int): State
    requires slot.zone in s.zoneIndex
  {
    if v.Some? then Store(s, slot, zoneType, v.value, d, now) else s
  }

  function Drop(s: State, slot: Slot): State {
    s.With(slot.dir, s.Of(slot.dir) - {slot.zone})
     .(timers := if slot.zone in s.zoneIndex
                 then s.timers - {TimerKey(s.zoneIndex[slot.zone], Command(slot.dir))}
                 else s.timers)
  }

  function DropIf(s: State, slot: Slot, b: bool): State {
    if b then Drop(s, slot) else s
  }

  function DropZone(s: State, z: ZoneId): State {
    s.(consumption := s.consumption - {z},
       production := s.production - {z},
       timers := if z in s.zoneIndex then WithoutZone(s.timers, s.zoneIndex[z]) else s.timers)
  }

  // ---- Operations ----

  datatype Verdict = NoZone | Negative | OverCapacity(dir: Direction) | Overridden | Accepted

  function Judge(s: State, cap: Capacity, z: ZoneId, req: Request): Verdict {
    if z == NO_ZONE then NoZone
    else if req.consumption.Some? && req.consumption.value < 0 then Negative
    else if req.production.Some? && req.production.value < 0 then Negative
    else if cap.Exceeded(req.consumption, cap.consumption) then OverCapacity(Consumption)
    else if cap.Exceeded(req.production, cap.production) then OverCapacity(Production)
    else if s.attrs.control == Override then Overridden
    else Accepted
  }

  /** The two values of a request, stored and timed. */
  function StorePair(s: State, z: ZoneId, zoneType: u8, req: Request, now: int): State
    requires z in s.zoneIndex
  {
    var s1 := StoreIf(s, Slot(z, Consumption), zoneType, req.consumption, req.Duration(), now);
    StoreIf(s1, Slot(z, Production), zoneType, req.production, req.Duration(), now)
  }

  function StoreBoth(s: State, z: ZoneId, zoneType: u8, req: Request, now: int): State {
    StorePair(EnsureIndex(s, z), z, zoneType, req, now)
  }

  function DropBoth(s: State, z: ZoneId, target: ClearTarget): State {
    DropIf(DropIf(s, Slot(z, Consumption), target.Covers(Consumption)),
           Slot(z, Production), target.Covers(Production))
  }

  ghost function SetLimit(s: State, cap: Capacity, z: ZoneId, zoneType: u8, req: Request, now: int): State {
    if !Judge(s, cap, z, req).Accepted? then s
    else if req.consumption.None? && req.production.None? then ClearZone(s, z, now)
    else
      Finish(StoreBoth(s, z, zoneType, req, now),
             Note(z, SetChange(req.consumption), SetChange(req.production)), now)
  }

  ghost function ClearLimit(s: State, z: ZoneId, target: ClearTarget, now: int): State {
    if z == NO_ZONE then s
    else
      var c, p := target.Covers(Consumption), target.Covers(Production);
      Finish(DropBoth(s, z, target), Note(z, ClearChange(c), ClearChange(p)), now)
  }

  ghost function ClearZone(s: State, z: ZoneId, now: int): State {
    Finish(DropZone(s, z), Note(z, To(None), To(None)), now)
  }

  function DropTimers(s: State): State {
    s.(timers := map key | key in s.timers && key.zone !in s.zoneIndex.Values :: s.timers[key])
  }

  function Forget(my: Replica, zones: set<ZoneId>): Replica {
    map slot | slot in my && slot.zone !in zones :: my[slot]
  }

  lemma ForgetNext(my: Replica, zones: set<ZoneId>, z: ZoneId)
    ensures Apply(Forget(my, zones), Note(z, To(None), To(None))) == Forget(my, zones + {z})
  {
    forall slot: Slot | slot.zone == z
      ensures slot == Slot(z, Consumption) || slot == Slot(z, Production)
    {
      match slot.dir {
        case Consumption =>
        case Production =>
      }
    }
    assert Apply(Forget(my, zones), Note(z, To(None), To(None)))
        == Forget(my, zones) - {Slot(z, Consumption)} - {Slot(z, Production)};
  }

  /** A reset up to the release of its lock: nobody has been told yet. */
  ghost function ResetSilently(s: State, now: int): State {
    Resolve(DropTimers(s.(consumption := map[], production := map[])), now)
  }

  ghost function ResetAll(s: State, now: int): State {
    ResetSilently(s, now).(my := Forget(s.my, s.zoneIndex.Keys))
  }

  /** The expiry callback; the timer has already left the table. */
  ghost function OnExpiry(s: State, key: TimerKey, now: int): State {
    if key.zone !in s.indexZone then s
    else
      var z := s.indexZone[key.zone];
      match key.cmd
      case LimitConsumption =>
        Finish(s.(consumption := s.consumption - {z}), Note(z, To(None), Unchanged), now)
      case LimitProduction =>
        Finish(s.(production := s.production - {z}), Note(z, Unchanged, To(None)), now)
      case _ => Resolve(s, now)
  }

  ghost function Expire(s: State, key: TimerKey, now: int): State {
    if key in s.timers then OnExpiry(s.(timers := s.timers - {key}), key, now) else s
  }

  /** What the read hook returns for a zone's own limit. */
  function ReadMy(s: State, slot: Slot): Option<int> {
    if slot.zone != NO_ZONE && slot.zone in s.Of(slot.dir) then Some(s.Of(slot.dir)[slot.zone].value) else None
  }
}
