/**
 The thread-local probe slots of src/relayed_probe.rs and the guards that own them. A guard knows the
 ids it inserted. In a debug build an insert into an occupied slot panics, and the unwind drops the
 guard under construction; in a release build it does nothing.
 */
module RelayedProbe {
  import opened Wrappers

  /** A probe's type id and an installed channel, known only by their identity. */
  type Id = nat
  type Entry = nat

  type Slots = map<Id, Entry>
  type Relay = seq<(Id, Entry)>

  // Inserting and removing -------------------------------------------------------------------------

  /** What an insert loop leaves: the slots, the ids it filled, and whether it panicked on the way. */
  datatype Placed = Placed(slots: Slots, ids: seq<Id>, panicked: bool)

  /** `insert` over the entries of `relay` in order, as the loop of `reinstall` runs it. */
  function Place(slots: Slots, relay: Relay, debug: bool): Placed
    decreases |relay|
  {
    if relay == [] then Placed(slots, [], false)
    else if relay[0].0 !in slots then
      var rest := Place(slots[relay[0].0 := relay[0].1], relay[1..], debug);
      rest.(ids := [relay[0].0] + rest.ids)
    else if debug then Placed(slots, [], true)
    else Place(slots, relay[1..], debug)
  }

  /** A guard's drop. */
  function Remove(slots: Slots, ids: seq<Id>): Slots {
    slots - set id | id in ids
  }

  predicate Fresh(slots: Slots, ids: seq<Id>) {
    && (forall i | 0 <= i < |ids| :: ids[i] !in slots)
    && (forall i, j | 0 <= i < j < |ids| :: ids[i] != ids[j])
  }

  /** However far it got, an insert loop filled vacant slots only, each once, and left the others alone. */
  lemma {:induction false} PlaceFillsVacant(slots: Slots, relay: Relay, debug: bool)
    ensures var p := Place(slots, relay, debug);
            && Fresh(slots, p.ids) && p.slots.Keys == slots.Keys + (set id | id in p.ids)
            && forall id | id in slots :: p.slots[id] == slots[id]
    decreases |relay|
  {
    if relay != [] {
      var id, entry := relay[0].0, relay[0].1;
      if id !in slots {
        PlaceFillsVacant(slots[id := entry], relay[1..], debug);
      } else if !debug {
        PlaceFillsVacant(slots, relay[1..], debug);
      }
    }
  }

  /** Inserting, then dropping the guard that did, restores the slots: also when a panic stopped it partway. */
  lemma PlaceThenRemove(slots: Slots, relay: Relay, debug: bool)
    ensures var p := Place(slots, relay, debug); Remove(p.slots, p.ids) == slots
  {
    PlaceFillsVacant(slots, relay, debug);
    var p := Place(slots, relay, debug);
    var after := Remove(p.slots, p.ids);
    assert after.Keys == slots.Keys;
  }

  /** The first entry a relay has for an id. */
  function FirstEntry(relay: Relay, id: Id): Option<Entry> {
    if relay == [] then None else if relay[0].0 == id then Some(relay[0].1) else FirstEntry(relay[1..], id)
  }

  /** Unless it panics, an insert loop fills every vacant slot the relay names, with the first entry named for it. */
  lemma {:induction false} PlaceFillsAll(slots: Slots, relay: Relay, debug: bool, id: Id)
    requires !Place(slots, relay, debug).panicked && id !in slots
    ensures var after := Place(slots, relay, debug).slots;
            (if id in after then Some(after[id]) else None) == FirstEntry(relay, id)
    decreases |relay|
  {
    if relay != [] {
      var head, entry := relay[0].0, relay[0].1;
      if head == id {
        PlaceFillsVacant(slots[id := entry], relay[1..], debug);
      } else if head !in slots {
        PlaceFillsAll(slots[head := entry], relay[1..], debug, id);
      } else {
        PlaceFillsAll(slots, relay[1..], debug, id);
      }
    }
  }

  /** An insert loop panics exactly when, in a debug build, an id of the relay is occupied or repeated. */
  lemma {:induction false} PanicsOnNesting(slots: Slots, relay: Relay, debug: bool)
    ensures Place(slots, relay, debug).panicked <==> debug && !Fresh(slots, Ids(relay))
    decreases |relay|
  {
    if relay != [] {
      var id, entry, rest := relay[0].0, relay[0].1, Ids(relay[1..]);
      assert Ids(relay) == [id] + rest;
      if id !in slots {
        PanicsOnNesting(slots[id := entry], relay[1..], debug);
        assert Fresh(slots, [id] + rest) <==>
          Fresh(slots[id := entry], rest) by { FreshSplits(slots, id, entry, rest); }
      } else {
        assert ([id] + rest)[0] == id;
        if !debug { PanicsOnNesting(slots, relay[1..], debug); }
      }
    }
  }

  function Ids(relay: Relay): seq<Id> {
    if relay == [] then [] else [relay[0].0] + Ids(relay[1..])
  }

  lemma FreshSplits(slots: Slots, id: Id, entry: Entry, rest: seq<Id>)
    requires id !in slots
    ensures Fresh(slots, [id] + rest) <==> Fresh(slots[id := entry], rest)
  {
    var all := [id] + rest;
    assert forall i | 0 <= i < |rest| :: all[i + 1] == rest[i];
    if Fresh(slots, all) {
      forall i | 0 <= i < |rest| ensures rest[i] !in slots[id := entry] { assert all[i + 1] != all[0]; }
    }
    if Fresh(slots[id := entry], rest) {
      forall i | 0 <= i < |all| ensures all[i] !in slots { assert i > 0 ==> all[i] == rest[i - 1]; }
    }
  }

  // Capturing --------------------------------------------------------------------------------------

  /** `relay` lists every installed probe once, in any order. */
  predicate IsCapture(relay: Relay, slots: Slots) {
    && (forall i | 0 <= i < |relay| :: relay[i].0 in slots && slots[relay[i].0] == relay[i].1)
    && (forall i, j | 0 <= i < j < |relay| :: relay[i].0 != relay[j].0)
    && (forall id | id in slots :: exists i :: 0 <= i < |relay| && relay[i].0 == id)
  }

  /** A capture reinstalled on a thread with no probe carries every probe across, in either build. */
  lemma CaptureCarriesAll(relay: Relay, slots: Slots, debug: bool)
    requires IsCapture(relay, slots)
    ensures Place(map[], relay, debug).slots == slots && !Place(map[], relay, debug).panicked
  {
    CarriesTail(map[], relay, slots, debug);
  }

  lemma {:induction false} CarriesTail(done: Slots, relay: Relay, slots: Slots, debug: bool)
    requires forall i | 0 <= i < |relay| ::
              relay[i].0 in slots && slots[relay[i].0] == relay[i].1 && relay[i].0 !in done
    requires forall i, j | 0 <= i < j < |relay| :: relay[i].0 != relay[j].0
    requires forall id | id in slots :: id in done || exists i :: 0 <= i < |relay| && relay[i].0 == id
    requires forall id | id in done :: id in slots && slots[id] == done[id]
    ensures Place(done, relay, debug).slots == slots && !Place(done, relay, debug).panicked
    decreases |relay|
  {
    if relay != [] {
      var more := done[relay[0].0 := relay[0].1];
      forall id | id in slots ensures id in more || exists i :: 0 <= i < |relay[1..]| && relay[1..][i].0 == id {
        if id !in more {
          var i :| 0 <= i < |relay| && relay[i].0 == id;
          assert relay[1..][i - 1].0 == id;
        }
      }
      CarriesTail(more, relay[1..], slots, debug);
    } else {
      assert done.Keys == slots.Keys;
    }
  }

  // The thread -------------------------------------------------------------------------------------

  datatype Event =
    | Install(id: Id, entry: Entry)
    | Reinstall(relay: Relay)
    | Drop(guard: nat)

  /** A thread's slots, and for each live guard what it installed. Guards are numbered as they are made. */
  datatype Thread = Thread(slots: Slots, guards: map<nat, Slots>, made: nat)

  const BARE := Thread(map[], map[], 0)

  /** The entries an insert loop added. */
  function Added(before: Slots, after: Slots): Slots {
    after - before.Keys
  }

  /** What a guard lists is what its loop added, so its drop, now or later, removes those slots and no others. */
  lemma GuardListsItsEntries(slots: Slots, relay: Relay, debug: bool, later: Slots)
    ensures var p := Place(slots, relay, debug);
            && Added(slots, p.slots).Keys == (set id | id in p.ids)
            && Remove(later, p.ids) == later - Added(slots, p.slots).Keys
  {
    PlaceFillsVacant(slots, relay, debug);
    hide Place;
    var p := Place(slots, relay, debug);
    assert Added(slots, p.slots).Keys == (set id | id in p.ids);
  }

  /** Inserting `relay` and keeping the guard, unless a panic dropped it. */
  function Guarded(t: Thread, relay: Relay, debug: bool): Thread {
    var p := Place(t.slots, relay, debug);
    if p.panicked then t.(slots := Remove(p.slots, p.ids))
    else Thread(p.slots, t.guards[t.made := Added(t.slots, p.slots)], t.made + 1)
  }

  function Next(t: Thread, e: Event, debug: bool): Thread {
    match e
    case Install(id, entry) => Guarded(t, [(id, entry)], debug)
    case Reinstall(relay) => Guarded(t, relay, debug)
    case Drop(g) => if g in t.guards then Thread(t.slots - t.guards[g].Keys, t.guards - {g}, t.made) else t
  }

  function After(events: seq<Event>, debug: bool): Thread {
    if events == [] then BARE else Next(After(events[..|events| - 1], debug), events[|events| - 1], debug)
  }

  /** Each live guard's entries are in their slots. */
  ghost predicate InPlace(t: Thread) {
    forall g | g in t.guards :: g < t.made && t.guards[g].Items <= t.slots.Items
  }

  ghost predicate Disjoint(t: Thread) {
    forall g, h | g in t.guards && h in t.guards && g != h :: t.guards[g].Keys !! t.guards[h].Keys
  }

  ghost predicate NoOrphan(t: Thread) {
    forall id | id in t.slots :: exists g :: g in t.guards && id in t.guards[g]
  }

  /** The occupied slots are the disjoint union of what the live guards installed, entries included. */
  ghost predicate Owned(t: Thread) {
    InPlace(t) && Disjoint(t) && NoOrphan(t)
  }

  lemma KeyOfItem(m: Slots, n: Slots, id: Id)
    requires m.Items <= n.Items && id in m
    ensures id in n && n[id] == m[id]
  {
    assert (id, m[id]) in m.Items;
  }

  /** Filling vacant slots under a new guard. */
  lemma AddKeeps(t: Thread, after: Slots)
    requires Owned(t) && t.slots.Items <= after.Items
    ensures Owned(Thread(after, t.guards[t.made := Added(t.slots, after)], t.made + 1))
  {
    var n := Thread(after, t.guards[t.made := Added(t.slots, after)], t.made + 1);
    assert InPlace(n);
    forall g, h | g in n.guards && h in n.guards && g != h ensures n.guards[g].Keys !! n.guards[h].Keys {
      if g == t.made { NewIsDisjoint(t, after, h); } else if h == t.made { NewIsDisjoint(t, after, g); }
    }
    forall id | id in n.slots ensures exists g :: g in n.guards && id in n.guards[g] {
      if id in t.slots {
        var g :| g in t.guards && id in t.guards[g];
        assert g in n.guards && n.guards[g] == t.guards[g];
      } else {
        assert id in n.guards[t.made];
      }
    }
  }

  lemma NewIsDisjoint(t: Thread, after: Slots, g: nat)
    requires InPlace(t) && g in t.guards
    ensures Added(t.slots, after).Keys !! t.guards[g].Keys
  {
    forall id | id in t.guards[g] ensures id in t.slots { KeyOfItem(t.guards[g], t.slots, id); }
  }

  lemma GuardedKeeps(t: Thread, relay: Relay, debug: bool)
    requires Owned(t)
    ensures Owned(Guarded(t, relay, debug))
  {
    hide Place, Remove, Owned;
    PlaceFillsVacant(t.slots, relay, debug);
    PlaceThenRemove(t.slots, relay, debug);
    AddKeeps(t, Place(t.slots, relay, debug).slots);
  }

  lemma DropKeeps(t: Thread, g: nat)
    requires Owned(t) && g in t.guards
    ensures Owned(Next(t, Drop(g), false))
  {
    var n := Thread(t.slots - t.guards[g].Keys, t.guards - {g}, t.made);
    forall h | h in n.guards ensures n.guards[h].Items <= n.slots.Items { DropSpares(t, g, h); }
    forall id | id in n.slots ensures exists h :: h in n.guards && id in n.guards[h] {
      var h :| h in t.guards && id in t.guards[h];
      assert h in n.guards && n.guards[h] == t.guards[h];
    }
  }

  lemma DropSpares(t: Thread, g: nat, h: nat)
    requires Owned(t) && g in t.guards && h in t.guards && g != h
    ensures t.guards[h].Items <= (t.slots - t.guards[g].Keys).Items
  {
    var kept := t.slots - t.guards[g].Keys;
    forall item | item in t.guards[h].Items ensures item in kept.Items {
      KeyOfItem(t.guards[h], t.slots, item.0);
      assert item.0 in kept && kept[item.0] == item.1;
    }
  }

  /** In every history of installs, reinstalls and drops, in any order. */
  lemma {:induction false} AlwaysOwned(events: seq<Event>, debug: bool)
    ensures Owned(After(events, debug))
  {
    if events != [] {
      var t, e := After(events[..|events| - 1], debug), events[|events| - 1];
      AlwaysOwned(events[..|events| - 1], debug);
      hide Owned, Guarded;
      match e
      case Install(id, entry) => GuardedKeeps(t, [(id, entry)], debug);
      case Reinstall(relay) => GuardedKeeps(t, relay, debug);
      case Drop(g) => if g in t.guards { DropKeeps(t, g); }
    }
  }

  /** A rejected install changes no slot; an accepted one fills its own and leaves the others alone. */
  lemma InstallFillsOrRejects(t: Thread, id: Id, entry: Entry, debug: bool)
    ensures Next(t, Install(id, entry), debug).slots == if id in t.slots then t.slots else t.slots[id := entry]
  {
    var relay := [(id, entry)];
    assert relay[1..] == [];
    PlaceThenRemove(t.slots, relay, debug);
  }

  /**
   A guard's drop takes away what that guard installed and nothing else, whatever was installed or
   dropped since: every other live guard still has all its entries.
   */
  lemma DropTakesOnlyItsOwn(events: seq<Event>, debug: bool, g: nat, h: nat)
    requires var t := After(events, debug); g in t.guards && h in t.guards && g != h
    ensures var t := After(events, debug);
            var n := After(events + [Drop(g)], debug);
            t.guards[g].Keys !! n.slots.Keys && t.guards[h].Items <= n.slots.Items
  {
    AlwaysOwned(events, debug);
    assert (events + [Drop(g)])[..|events|] == events;
    hide Owned;
    DropSpares(After(events, debug), g, h);
  }

  /** Once every guard is gone no probe is left behind. */
  lemma NoGuardsNoProbes(events: seq<Event>, debug: bool)
    requires After(events, debug).guards == map[]
    ensures After(events, debug).slots == map[]
  {
    AlwaysOwned(events, debug);
    var t := After(events, debug);
    assert forall id | id in t.slots :: exists g :: g in t.guards && id in t.guards[g];
  }

  // The slots in place -----------------------------------------------------------------------------

  class ThreadSlots {
    var slots: Slots

    constructor ()
      ensures slots == map[]
    {
      slots := map[];
    }

    /** `insert`: fills a vacant slot and says whether it did. */
    method Insert(id: Id, entry: Entry) returns (inserted: bool)
      modifies this
      ensures inserted <==> id !in old(slots)
      ensures slots == if inserted then old(slots)[id := entry] else old(slots)
    {
      inserted := id !in slots;
      if inserted {
        slots := slots[id := entry];
      }
    }

    /** `install`; `guard` lists what the guard will remove. In a debug build a rejection panics. */
    method InstallProbe(id: Id, entry: Entry, debug: bool) returns (guard: Option<seq<Id>>)
      modifies this
      ensures slots == if id in old(slots) then old(slots) else old(slots)[id := entry]
      ensures guard == if id !in old(slots) then Some([id]) else if debug then None else Some([])
    {
      var inserted := Insert(id, entry);
      guard := if inserted then Some([id]) else if debug then None else Some([]);
    }

    /** `Guard::drop` and `RelayGuard::drop`. */
    method DropGuard(ids: seq<Id>)
      modifies this
      ensures slots == Remove(old(slots), ids)
    {
      for i := 0 to |ids|
        invariant slots == Remove(old(slots), ids[..i])
      {
        slots := slots - {ids[i]};
        assert ids[..i + 1] == ids[..i] + [ids[i]];
      }
      assert ids[..|ids|] == ids;
    }

    /** `capture`. */
    method Capture() returns (relay: Relay)
      ensures IsCapture(relay, slots)
    {
      relay := [];
      var left := slots.Keys;
      while left != {}
        invariant left <= slots.Keys
        invariant forall id | id in left :: forall i | 0 <= i < |relay| :: relay[i].0 != id
        invariant forall i | 0 <= i < |relay| :: relay[i].0 in slots && slots[relay[i].0] == relay[i].1
        invariant forall i, j | 0 <= i < j < |relay| :: relay[i].0 != relay[j].0
        invariant forall id | id in slots :: id in left || exists i :: 0 <= i < |relay| && relay[i].0 == id
        decreases left
      {
        var id :| id in left;
        ghost var was := relay;
        relay := relay + [(id, slots[id])];
        left := left - {id};
        assert relay[|was|].0 == id;
        assert forall i | 0 <= i < |was| :: relay[i] == was[i];
      }
    }

    /** `Relay::reinstall`: the guard, or `None` if the loop panicked and the unwind dropped it. */
    method ReinstallRelay(relay: Relay, debug: bool) returns (guard: Option<seq<Id>>)
      modifies this
      ensures var p := Place(old(slots), relay, debug);
              if p.panicked then guard.None? && slots == old(slots) else guard == Some(p.ids) && slots == p.slots
    {
      ghost var all := Place(slots, relay, debug);
      PlaceThenRemove(slots, relay, debug);
      var ids := [];
      assert relay[0..] == relay;
      for i := 0 to |relay|
        invariant var rest := Place(slots, relay[i..], debug);
                  all == Placed(rest.slots, ids + rest.ids, rest.panicked)
      {
        assert relay[i..][0] == relay[i] && relay[i..][1..] == relay[i + 1..];
        var inserted := Insert(relay[i].0, relay[i].1);
        if inserted {
          ghost var rest := Place(slots, relay[i + 1..], debug);
          assert ids + ([relay[i].0] + rest.ids) == (ids + [relay[i].0]) + rest.ids;
          ids := ids + [relay[i].0];
        } else if debug {
          DropGuard(ids);
          return None;
        }
      }
      assert relay[|relay|..] == [] && ids + [] == ids;
      guard := Some(ids);
    }
  }
}
