/** Stores that keep their entries in memory, remember removed ones as tombstones, and write one
    directory per entry when saved: the pattern shared by zone certificates and commissioned devices. */
module Tombstones {
  import opened Wrappers

  datatype Store<V> = Store(live: map<string, V>, gone: set<string>)

  /** How the file operations of one entry go: all succeed, or the one numbered "step" fails, with
      "torn" telling whether it leaves a damaged file behind. */
  datatype Luck = AllGood | FailsAt(step: nat, torn: bool)

  /** Writes one entry into its directory; the flag tells whether every operation succeeded. */
  type Writer<!D, !V> = (Option<D>, V, Luck) -> (Option<D>, bool)

  function Put<V>(s: Store<V>, k: string, v: V): Store<V> {
    Store(s.live[k := v], s.gone - {k})
  }

  function Remove<V>(s: Store<V>, k: string): Store<V> {
    if k in s.live then Store(s.live - {k}, s.gone + {k}) else s
  }

  function Entry<D>(disk: map<string, D>, k: string): Option<D> {
    if k in disk then Some(disk[k]) else None
  }

  function WithEntry<D>(disk: map<string, D>, k: string, d: Option<D>): map<string, D> {
    if d.Some? then disk[k := d.value] else disk - {k}
  }

  function WriteEntry<D, V>(w: Writer<D, V>, disk: map<string, D>, k: string, v: V, luck: Luck)
    : (map<string, D>, bool)
  {
    var (d, ok) := w(Entry(disk, k), v, luck);
    (WithEntry(disk, k, d), ok)
  }

  /** Entries are written in the order given, up to the first failure. */
  function WriteAll<D, V>(w: Writer<D, V>, disk: map<string, D>, live: map<string, V>, order: seq<string>,
                          luck: string -> Luck)
    : (map<string, D>, bool)
    requires forall k :: k in order ==> k in live
  {
    if order == [] then (disk, true)
    else
      var k := order[|order| - 1];
      var (d, ok) := WriteAll(w, disk, live, order[..|order| - 1], luck);
      if ok then WriteEntry(w, d, k, live[k], luck(k)) else (d, false)
  }

  /** Directories of removed entries are deleted only after every write succeeded, and failures to
      delete ("stuck") are ignored. */
  function SaveAll<D, V>(w: Writer<D, V>, disk: map<string, D>, s: Store<V>, order: seq<string>, luck: string -> Luck,
                         stuck: set<string>)
    : (map<string, D>, bool)
    requires forall k :: k in order ==> k in s.live
  {
    var (d, ok) := WriteAll(w, disk, s.live, order, luck);
    if ok then (d - (s.gone - stuck), true) else (d, false)
  }

  /** The keys of a map in some order, each once. */
  ghost predicate Orders<V>(order: seq<string>, live: map<string, V>) {
    && (forall k :: k in order <==> k in live)
    && (forall i, j :: 0 <= i < j < |order| ==> order[i] != order[j])
  }

  /** Memory and tombstones never overlap, and every directory belongs to one of them. */
  ghost predicate Within<D, V>(s: Store<V>, disk: map<string, D>) {
    s.live.Keys !! s.gone && disk.Keys <= s.live.Keys + s.gone
  }

  /** A write without failures succeeds, writes the directory, and no write removes one. */
  ghost predicate Writes<D(!new), V(!new)>(w: Writer<D, V>) {
    && (forall d: Option<D>, v: V :: w(d, v, AllGood).1)
    && (forall d: Option<D>, v: V, l: Luck :: w(d, v, l).1 ==> w(d, v, l).0.Some?)
    && (forall d: Option<D>, v: V, l: Luck :: d.Some? ==> w(d, v, l).0.Some?)
  }

  lemma {:induction false} WriteAllEffect<D(!new), V(!new)>(w: Writer<D, V>, disk: map<string, D>, live: map<string, V>,
                                                            order: seq<string>, luck: string -> Luck)
    requires Writes(w) && forall k :: k in order ==> k in live
    requires forall i, j :: 0 <= i < j < |order| ==> order[i] != order[j]
    ensures var (d, ok) := WriteAll(w, disk, live, order, luck);
            && disk.Keys <= d.Keys <= disk.Keys + live.Keys
            && (forall k :: k in disk && k !in order ==> d[k] == disk[k])
            && (ok ==> forall k :: k in order ==>
                  k in d && w(Entry(disk, k), live[k], luck(k)) == (Some(d[k]), true))
            && ((forall k :: k in order ==> luck(k) == AllGood) ==> ok)
  {
    if order != [] {
      var n := |order| - 1;
      var k := order[n];
      var init := order[..n];
      assert forall j :: j in order <==> j in init || j == k;
      assert k !in init;
      WriteAllEffect(w, disk, live, init, luck);
      var (d, ok) := WriteAll(w, disk, live, init, luck);
      if ok {
        assert Entry(d, k) == Entry(disk, k) by {
          KeyUntouched(w, disk, live, init, luck, k);
        }
      }
    }
  }

  lemma {:induction false} KeyUntouched<D(!new), V(!new)>(w: Writer<D, V>, disk: map<string, D>, live: map<string, V>,
                                                          order: seq<string>, luck: string -> Luck, k: string)
    requires (forall j :: j in order ==> j in live) && k !in order
    ensures Entry(WriteAll(w, disk, live, order, luck).0, k) == Entry(disk, k)
  {
    if order != [] {
      KeyUntouched(w, disk, live, order[..|order| - 1], luck, k);
    }
  }

  /** After a successful save every live entry's directory is the one its write produced, and what else
      is on disk are the tombstoned directories that could not be deleted. */
  lemma SaveEffect<D(!new), V(!new)>(w: Writer<D, V>, disk: map<string, D>, s: Store<V>, order: seq<string>,
                                     luck: string -> Luck, stuck: set<string>)
    requires Writes(w) && Orders(order, s.live) && Within(s, disk)
    ensures var (d, ok) := SaveAll(w, disk, s, order, luck, stuck);
            && Within(s, d)
            && (ok ==> d.Keys == s.live.Keys + (disk.Keys * s.gone * stuck))
            && (ok ==> forall k :: k in s.live ==> w(Entry(disk, k), s.live[k], luck(k)) == (Some(d[k]), true))
            && ((forall k :: k in s.live ==> luck(k) == AllGood) ==> ok)
  {
    WriteAllEffect(w, disk, s.live, order, luck);
  }

  /** After a successful save the directories are exactly the live entries, if and only if no removed
      entry's directory resisted deletion. */
  lemma SavedExactly<D(!new), V(!new)>(w: Writer<D, V>, disk: map<string, D>, s: Store<V>, order: seq<string>,
                                       luck: string -> Luck, stuck: set<string>)
    requires Writes(w) && Orders(order, s.live) && Within(s, disk)
    requires SaveAll(w, disk, s, order, luck, stuck).1
    ensures SaveAll(w, disk, s, order, luck, stuck).0.Keys == s.live.Keys <==> disk.Keys * s.gone * stuck == {}
  {
    SaveEffect(w, disk, s, order, luck, stuck);
    var d := SaveAll(w, disk, s, order, luck, stuck).0;
    assert (disk.Keys * s.gone * stuck) !! s.live.Keys;
    if k :| k in disk.Keys * s.gone * stuck {
      assert k in d.Keys && k !in s.live.Keys;
    }
  }

  // ---- Runs ----

  datatype Event<V> =
    | Puts(key: string, value: V)
    | Removes(key: string)
    | Saves(order: seq<string>, luck: string -> Luck, stuck: set<string>)

  datatype System<D, V> = System(s: Store<V>, disk: map<string, D>)

  ghost predicate Possible<D, V>(x: System<D, V>, e: Event<V>) {
    e.Saves? ==> Orders(e.order, x.s.live)
  }

  function Step<D, V>(w: Writer<D, V>, x: System<D, V>, e: Event<V>): System<D, V>
    requires e.Saves? ==> forall k :: k in e.order ==> k in x.s.live
  {
    match e
    case Puts(k, v) => x.(s := Put(x.s, k, v))
    case Removes(k) => x.(s := Remove(x.s, k))
    case Saves(order, luck, stuck) => x.(disk := SaveAll(w, x.disk, x.s, order, luck, stuck).0)
  }

  /** A run: the systems before, between and after the events. */
  ghost predicate IsRun<D, V>(w: Writer<D, V>, xs: seq<System<D, V>>, es: seq<Event<V>>) {
    && |xs| == |es| + 1
    && forall i :: 0 <= i < |es| ==> Possible(xs[i], es[i]) && xs[i + 1] == Step(w, xs[i], es[i])
  }

  /** What loading a readable disk into an empty store gives. */
  ghost predicate FreshlyLoaded<D, V>(x: System<D, V>) {
    x.s.gone == {} && x.s.live.Keys == x.disk.Keys
  }

  lemma StepWithin<D(!new), V(!new)>(w: Writer<D, V>, x: System<D, V>, e: Event<V>)
    requires Writes(w) && Within(x.s, x.disk) && Possible(x, e)
    ensures var y := Step(w, x, e); Within(y.s, y.disk)
  {
    if e.Saves? {
      SaveEffect(w, x.disk, x.s, e.order, e.luck, e.stuck);
    }
  }

  /** In every run that starts with a load, whatever writes fail and whatever directories resist
      deletion, memory and tombstones stay disjoint and cover the disk; and every save that succeeds with
      nothing stuck leaves exactly the live entries on disk. */
  lemma {:induction false} StoreAlways<D(!new), V(!new)>(w: Writer<D, V>, xs: seq<System<D, V>>, es: seq<Event<V>>,
                                                         n: nat)
    requires Writes(w) && IsRun(w, xs, es) && FreshlyLoaded(xs[0]) && n < |xs|
    ensures Within(xs[n].s, xs[n].disk)
    ensures n > 0 && es[n - 1].Saves? && es[n - 1].stuck == {} &&
            SaveAll(w, xs[n - 1].disk, xs[n - 1].s, es[n - 1].order, es[n - 1].luck, {}).1 ==>
              xs[n].disk.Keys == xs[n].s.live.Keys
  {
    if n > 0 {
      StoreAlways(w, xs, es, n - 1);
      StepWithin(w, xs[n - 1], es[n - 1]);
      var x, e := xs[n - 1], es[n - 1];
      if e.Saves? {
        SaveEffect(w, x.disk, x.s, e.order, e.luck, e.stuck);
      }
    }
  }

  /** The last thing the run said about a key: nothing, that it was removed, or what was put. */
  function LastWord<V>(es: seq<Event<V>>, k: string): Option<Option<V>> {
    if es == [] then None
    else
      match es[|es| - 1]
      case Puts(j, v) => if j == k then Some(Some(v)) else LastWord(es[..|es| - 1], k)
      case Removes(j) => if j == k then Some(None) else LastWord(es[..|es| - 1], k)
      case Saves(_, _, _) => LastWord(es[..|es| - 1], k)
  }

  /** In every run an entry is in memory exactly as it was last put, not after it was removed, and otherwise
      as at the start. */
  lemma {:induction false} LiveExactly<D(!new), V(!new)>(w: Writer<D, V>, xs: seq<System<D, V>>, es: seq<Event<V>>,
                                                         n: nat, k: string)
    requires IsRun(w, xs, es) && n < |xs|
    ensures Entry(xs[n].s.live, k) ==
            match LastWord(es[..n], k)
            case None => Entry(xs[0].s.live, k)
            case Some(v) => v
  {
    hide SaveAll;
    if n > 0 {
      LiveExactly(w, xs, es, n - 1, k);
      assert es[..n][..n - 1] == es[..n - 1];
      assert Possible(xs[n - 1], es[n - 1]) && xs[n] == Step(w, xs[n - 1], es[n - 1]);
    }
  }

  /** In every run that starts with a load: after a save that succeeds with nothing stuck, a directory is
      there exactly if its entry was put since it was last removed, or was there at the start and neither
      put nor removed. */
  lemma DiskExactly<D(!new), V(!new)>(w: Writer<D, V>, xs: seq<System<D, V>>, es: seq<Event<V>>, n: nat, k: string)
    requires Writes(w) && IsRun(w, xs, es) && FreshlyLoaded(xs[0]) && 0 < n < |xs|
    requires es[n - 1].Saves? && es[n - 1].stuck == {}
    requires Possible(xs[n - 1], es[n - 1]) &&
             SaveAll(w, xs[n - 1].disk, xs[n - 1].s, es[n - 1].order, es[n - 1].luck, {}).1
    ensures k in xs[n].disk <==>
            match LastWord(es[..n], k)
            case None => k in xs[0].disk
            case Some(v) => v.Some?
  {
    hide SaveAll, Step, Writes;
    StoreAlways(w, xs, es, n);
    LiveExactly(w, xs, es, n, k);
  }

  /** Trying again works: whatever state failed saves left, a save whose writes all succeed does succeed. */
  lemma RetrySucceeds<D(!new), V(!new)>(w: Writer<D, V>, x: System<D, V>, order: seq<string>)
    requires Writes(w) && Within(x.s, x.disk) && Orders(order, x.s.live)
    ensures var (d, ok) := SaveAll(w, x.disk, x.s, order, _ => AllGood, {}); ok && d.Keys == x.s.live.Keys
  {
    SaveEffect(w, x.disk, x.s, order, _ => AllGood, {});
  }

  // ---- The loops ----

  lemma {:induction false} FailureStays<D, V>(w: Writer<D, V>, disk: map<string, D>, live: map<string, V>,
                                             order: seq<string>, rest: seq<string>, luck: string -> Luck)
    requires forall k :: k in order + rest ==> k in live
    requires forall k :: k in order ==> k in live
    requires !WriteAll(w, disk, live, order, luck).1
    ensures WriteAll(w, disk, live, order + rest, luck) == WriteAll(w, disk, live, order, luck)
  {
    if rest != [] {
      var init := rest[..|rest| - 1];
      assert (order + rest)[..|order + rest| - 1] == order + init;
      FailureStays(w, disk, live, order, init, luck);
    } else {
      assert order + rest == order;
    }
  }

  lemma SomeOrder(keys: set<string>) returns (order: seq<string>)
    ensures forall k :: k in order <==> k in keys
    ensures forall i, j :: 0 <= i < j < |order| ==> order[i] != order[j]
  {
    order := [];
    var todo := keys;
    while todo != {}
      invariant todo <= keys
      invariant forall k :: k in order <==> k in keys - todo
      invariant forall i, j :: 0 <= i < j < |order| ==> order[i] != order[j]
    {
      var k :| k in todo;
      ghost var before := order;
      order, todo := order + [k], todo - {k};
      assert forall i :: 0 <= i < |before| ==> before[i] in before;
      assert forall j :: j in order <==> j in before || j == k;
    }
  }

  lemma AppendKey<V>(order: seq<string>, live: map<string, V>, todo: set<string>, k: string)
    requires (forall j :: j in order <==> j in live.Keys - todo) && k in todo && todo <= live.Keys
    requires forall i, j :: 0 <= i < j < |order| ==> order[i] != order[j]
    ensures forall j :: j in order + [k] <==> j in live.Keys - (todo - {k})
    ensures forall i, j :: 0 <= i < j < |order + [k]| ==> (order + [k])[i] != (order + [k])[j]
  {
    assert forall i :: 0 <= i < |order| ==> order[i] in order;
  }

  /** The disk and the outcome are those of a save in some order of the live entries. */
  ghost predicate SavedAs<D, V>(w: Writer<D, V>, disk: map<string, D>, s: Store<V>, luck: string -> Luck,
                                stuck: set<string>, after: map<string, D>, ok: bool)
  {
    exists order :: Orders(order, s.live) && (after, ok) == SaveAll(w, disk, s, order, luck, stuck)
  }

  /** Writes the entries in whatever order the map yields them, stops at the first failure, and otherwise
      deletes the tombstoned directories. */
  method Save<D, V>(w: Writer<D, V>, disk: map<string, D>, s: Store<V>, luck: string -> Luck, stuck: set<string>)
    returns (after: map<string, D>, ok: bool)
    ensures SavedAs(w, disk, s, luck, stuck, after, ok)
  {
    after := disk;
    ghost var order: seq<string> := [];
    var todo := s.live.Keys;
    while todo != {}
      invariant todo <= s.live.Keys
      invariant forall k :: k in order <==> k in s.live.Keys - todo
      invariant forall i, j :: 0 <= i < j < |order| ==> order[i] != order[j]
      invariant WriteAll(w, disk, s.live, order, luck) == (after, true)
    {
      var k :| k in todo;
      AppendKey(order, s.live, todo, k);
      assert (order + [k])[..|order|] == order;
      order, todo := order + [k], todo - {k};
      var (d, written) := w(Entry(after, k), s.live[k], luck(k));
      after := WithEntry(after, k, d);
      if !written {
        FailedSave(w, disk, s, order, todo, luck, stuck, after);
        return after, false;
      }
    }
    FinishedSave(w, disk, s, order, luck, stuck, after);
    after := Sweep(after, s.gone, stuck);
    return after, true;
  }

  lemma FinishedSave<D, V>(w: Writer<D, V>, disk: map<string, D>, s: Store<V>, order: seq<string>, luck: string -> Luck,
                           stuck: set<string>, written: map<string, D>)
    requires Orders(order, s.live) && WriteAll(w, disk, s.live, order, luck) == (written, true)
    ensures SavedAs(w, disk, s, luck, stuck, written - (s.gone - stuck), true)
  {
    hide WriteAll;
    assert SaveAll(w, disk, s, order, luck, stuck) == (written - (s.gone - stuck), true);
  }

  /** The writes stopped at a failure; the keys not reached could come in any order. */
  lemma FailedSave<D, V>(w: Writer<D, V>, disk: map<string, D>, s: Store<V>, order: seq<string>, todo: set<string>,
                         luck: string -> Luck, stuck: set<string>, after: map<string, D>)
    requires (forall k :: k in order <==> k in s.live.Keys - todo) && todo <= s.live.Keys
    requires forall i, j :: 0 <= i < j < |order| ==> order[i] != order[j]
    requires WriteAll(w, disk, s.live, order, luck) == (after, false)
    ensures SavedAs(w, disk, s, luck, stuck, after, false)
  {
    hide WriteAll;
    var rest := SomeOrder(todo);
    AllInOrder(order, rest, s.live, todo);
    FailureStays(w, disk, s.live, order, rest, luck);
    assert SaveAll(w, disk, s, order + rest, luck, stuck) == (after, false);
  }

  /** Deletes the directories of removed entries, as far as they can be deleted. */
  method Sweep<D>(disk: map<string, D>, gone: set<string>, stuck: set<string>) returns (after: map<string, D>)
    ensures after == disk - (gone - stuck)
  {
    after := disk;
    var graves := gone;
    while graves != {}
      invariant graves <= gone
      invariant after == disk - ((gone - graves) - stuck)
    {
      var k :| k in graves;
      graves := graves - {k};
      if k !in stuck {
        after := after - {k};
      }
    }
    assert (gone - graves) - stuck == gone - stuck;
  }

  lemma AllInOrder<V>(order: seq<string>, rest: seq<string>, live: map<string, V>, todo: set<string>)
    requires (forall k :: k in order <==> k in live.Keys - todo) && (forall k :: k in rest <==> k in todo) &&
             todo <= live.Keys
    requires forall i, j :: 0 <= i < j < |order| ==> order[i] != order[j]
    requires forall i, j :: 0 <= i < j < |rest| ==> rest[i] != rest[j]
    ensures Orders(order + rest, live)
  {
    assert forall i :: 0 <= i < |order| ==> order[i] in order;
    assert forall i :: 0 <= i < |rest| ==> rest[i] in rest;
  }

  /** The entries of a disk when every directory can be read; a single unreadable one fails the load. */
  function Loaded<D, V>(read: D -> Option<V>, disk: map<string, D>): Option<map<string, V>> {
    if forall k :: k in disk ==> read(disk[k]).Some?
    then Some(map k | k in disk :: read(disk[k]).value)
    else None
  }

  /** What reading directories one by one finds: all of them, or some before one that cannot be read. */
  ghost predicate Finds<D, V>(read: D -> Option<V>, disk: map<string, D>, found: map<string, V>, ok: bool) {
    && (forall k :: k in found ==> k in disk && read(disk[k]) == Some(found[k]))
    && ok == Loaded(read, disk).Some?
    && (ok ==> Some(found) == Loaded(read, disk))
  }

  method Load<D, V>(read: D -> Option<V>, disk: map<string, D>) returns (found: map<string, V>, ok: bool)
    ensures Finds(read, disk, found, ok)
  {
    found := map[];
    var todo := disk.Keys;
    while todo != {}
      invariant todo <= disk.Keys
      invariant forall k :: k in disk.Keys - todo ==> read(disk[k]).Some?
      invariant found == map k | k in disk && k !in todo && read(disk[k]).Some? :: read(disk[k]).value
    {
      var k :| k in todo;
      todo := todo - {k};
      var v := read(disk[k]);
      if v.None? {
        return found, false;
      }
      found := found[k := v.value];
    }
    assert found == map k | k in disk :: read(disk[k]).value;
    return found, true;
  }

  /** Loading again, on top of what is in memory. */
  function Reloaded<V>(s: Store<V>, found: map<string, V>): Store<V> {
    s.(live := s.live + found)
  }

  /** A second load keeps memory and tombstones disjoint exactly when no removed entry still has its
      directory, that is, when every removal has been saved. */
  lemma ReloadExactly<D, V>(s: Store<V>, disk: map<string, D>, found: map<string, V>)
    requires Within(s, disk) && found.Keys == disk.Keys
    ensures Within(Reloaded(s, found), disk) <==> disk.Keys !! s.gone
  {
    if k :| k in disk.Keys && k in s.gone {
      assert k in Reloaded(s, found).live;
    }
  }

  /** Otherwise the removed entry is back in memory, and the next successful save deletes its directory. */
  lemma ReloadedVanishes<D, V>(w: Writer<D, V>, s: Store<V>, disk: map<string, D>, found: map<string, V>, k: string,
                               order: seq<string>, luck: string -> Luck)
    requires found.Keys == disk.Keys && k in disk && k in s.gone
    requires Orders(order, Reloaded(s, found).live) && SaveAll(w, disk, Reloaded(s, found), order, luck, {}).1
    ensures k in Reloaded(s, found).live && k !in SaveAll(w, disk, Reloaded(s, found), order, luck, {}).0
  {
  }
}
