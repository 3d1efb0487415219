/**
  The trip records of the travel planner and the pure list transformations the
  home screen's handlers apply to them: the per-trip `map` with an id test, the
  `filter` that deletes, the prepend that creates, the lookup of the current
  trip, and the read-only figures shown for it. The store invariant and the
  lemmas that every handler keeps it live here too.
 */
module Trips {
  import opened Wrappers
  import opened Text

  /** One line of a trip's packing checklist. */
  datatype PackingItem = PackingItem(caption: string, done: bool)

  /** A planned trip; `budget` and `spent` are amounts of money. */
  datatype Trip = Trip(
    id: string,
    name: string,
    dates: string,
    budget: real,
    spent: real,
    itinerary: seq<string>,
    packing: seq<PackingItem>)

  /** What a new trip shows when no dates were typed. */
  const DatesTbd: string := "Dates TBD"

  /** The two starter trips the planner opens with. */
  function SeedTrips(): (r: seq<Trip>)
    ensures |r| == 2 && r[0].id == "1" && r[1].id == "2"
  {
    [ Trip("1", "Lisbon Weekend", "Jan 12 - Jan 15", 1200.0, 450.0,
           ["Tram 28 ride + Alfama walk", "Time Out Market lunch", "Sunset at Miradouro da Graca"],
           [PackingItem("Passport", true), PackingItem("Universal adapter", false),
            PackingItem("Walking shoes", false)]),
      Trip("2", "Kyoto + Osaka", "Mar 3 - Mar 11", 2400.0, 0.0,
           ["Arrival + Nishiki Market", "Arashiyama morning", "Day trip to Osaka"],
           [PackingItem("JR Pass", false), PackingItem("Camera batteries", false),
            PackingItem("Light rain jacket", false)]) ]
  }

  // ---------------------------------------------------------------------------
  // Ids and lookup

  /** The ids present in a list of trips. */
  function Ids(trips: seq<Trip>): set<string> {
    set t | t in trips :: t.id
  }

  /** No two trips share an id. */
  predicate UniqueIds(trips: seq<Trip>) {
    forall i, j :: 0 <= i < j < |trips| ==> trips[i].id != trips[j].id
  }

  /** `trips.find(trip => trip.id === id)`: the first trip carrying `id`, if any. */
  function FindById(trips: seq<Trip>, id: string): (r: Option<Trip>)
    ensures r.Some? <==> id in Ids(trips)
    ensures r.Some? ==> r.value in trips && r.value.id == id
    ensures r.Some? ==> exists k :: 0 <= k < |trips| && trips[k] == r.value
                                    && forall j :: 0 <= j < k ==> trips[j].id != id
  {
    if trips == [] then None
    else if trips[0].id == id then Some(trips[0])
    else
      var r := FindById(trips[1..], id);
      assert Ids(trips) == {trips[0].id} + Ids(trips[1..]) by { IdsCons(trips); }
      assert r.Some? ==> exists k :: 0 <= k < |trips| && trips[k] == r.value
                                     && forall j :: 0 <= j < k ==> trips[j].id != id by {
        if r.Some? {
          var k :| 0 <= k < |trips[1..]| && trips[1..][k] == r.value
                   && forall j :: 0 <= j < k ==> trips[1..][j].id != id;
          assert trips[k + 1] == r.value;
          assert forall j :: 0 <= j < k + 1 ==> trips[j].id != id by {
            forall j | 0 <= j < k + 1 ensures trips[j].id != id {
              if j > 0 { assert trips[j] == trips[1..][j - 1]; }
            }
          }
        }
      }
      r
  }

  /**
    The trip the screen works on: the one whose id is selected, falling back to
    the first trip when the selection names none. It exists exactly when there
    are trips at all.
   */
  function CurrentTrip(trips: seq<Trip>, selected: Option<string>): (r: Option<Trip>)
    ensures r.Some? <==> |trips| > 0
    ensures r.Some? ==> r.value in trips
    ensures selected.Some? && selected.value in Ids(trips) ==> r.Some? && r.value.id == selected.value
    ensures (selected.None? || selected.value !in Ids(trips)) && |trips| > 0 ==> r == Some(trips[0])
  {
    var found := if selected.Some? then FindById(trips, selected.value) else None;
    if found.Some? then found
    else if |trips| > 0 then Some(trips[0])
    else None
  }

  // ---------------------------------------------------------------------------
  // The changes a handler applies to one trip

  /** The edit a handler makes to the trip it targets, with its input already normalised. */
  datatype Change =
    | Rename(name: string, dates: string)
    | AddStop(entry: string)
    | AddItem(caption: string)
    | Toggle(caption: string)
    | Spend(amount: real)
    | SetBudget(amount: real)

  /** The object spread `{ ...trip, field: value }` each handler builds. */
  function Apply(t: Trip, c: Change): (r: Trip)
    ensures r.id == t.id
    ensures !c.Rename? ==> r.name == t.name && r.dates == t.dates
    ensures !c.AddStop? ==> r.itinerary == t.itinerary
    ensures !(c.AddItem? || c.Toggle?) ==> r.packing == t.packing
    ensures !c.Spend? ==> r.spent == t.spent
    ensures !c.SetBudget? ==> r.budget == t.budget
    ensures c.AddStop? ==> r.itinerary == t.itinerary + [c.entry]
    ensures c.AddItem? ==> r.packing == t.packing + [PackingItem(c.caption, false)]
    ensures c.Spend? ==> r.spent == t.spent + c.amount
    ensures c.Rename? ==> r.name == c.name && r.dates == c.dates
    ensures c.SetBudget? ==> r.budget == c.amount
    ensures c.Toggle? ==> r.packing == FlipMatching(t.packing, c.caption)
  {
    match c
    case Rename(n, d) => t.(name := n, dates := d)
    case AddStop(e) => t.(itinerary := t.itinerary + [e])
    case AddItem(l) => t.(packing := t.packing + [PackingItem(l, false)])
    case Toggle(l) => t.(packing := FlipMatching(t.packing, l))
    case Spend(a) => t.(spent := t.spent + a)
    case SetBudget(a) => t.(budget := a)
  }

  /**
    `packing.map(item => item.caption === caption ? { ...item, done: !item.done } : item)`:
    every item with that caption is flipped, every other item is kept, and no
    caption moves.
   */
  function FlipMatching(packing: seq<PackingItem>, caption: string): (r: seq<PackingItem>)
    ensures |r| == |packing|
    ensures forall k :: 0 <= k < |packing| ==>
              r[k].caption == packing[k].caption
              && r[k].done == (if packing[k].caption == caption then !packing[k].done else packing[k].done)
  {
    if packing == [] then []
    else
      var item := packing[0];
      [if item.caption == caption then item.(done := !item.done) else item]
        + FlipMatching(packing[1..], caption)
  }

  /**
    `prev.map(trip => trip.id === id ? change(trip) : trip)`: the change reaches
    every trip carrying the id and no other; length, order and ids stay.
   */
  function UpdateWhere(trips: seq<Trip>, id: string, c: Change): (r: seq<Trip>)
    ensures |r| == |trips|
    ensures forall k :: 0 <= k < |trips| ==>
              r[k] == if trips[k].id == id then Apply(trips[k], c) else trips[k]
  {
    if trips == [] then []
    else
      [if trips[0].id == id then Apply(trips[0], c) else trips[0]]
        + UpdateWhere(trips[1..], id, c)
  }

  /** `prev.filter(trip => trip.id !== id)`: drops every trip carrying the id, keeps the rest. */
  function Without(trips: seq<Trip>, id: string): (r: seq<Trip>)
    ensures |r| <= |trips|
    ensures forall t :: t in r <==> t in trips && t.id != id
  {
    if trips == [] then []
    else if trips[0].id == id then Without(trips[1..], id)
    else [trips[0]] + Without(trips[1..], id)
  }

  /** `updated[0]?.id ?? null` when the deleted trip was selected, otherwise the old selection. */
  function RepairSelection(rest: seq<Trip>, selected: Option<string>, deleted: string): (r: Option<string>)
    ensures selected != Some(deleted) ==> r == selected
    ensures selected == Some(deleted) ==> (r.Some? <==> |rest| > 0)
    ensures selected == Some(deleted) && |rest| > 0 ==> r == Some(rest[0].id)
    ensures selected == Some(deleted) && r.Some? ==> r.value in Ids(rest)
    ensures deleted !in Ids(rest) ==> r != Some(deleted)
  {
    if selected == Some(deleted) then
      if |rest| > 0 then Some(rest[0].id) else None
    else selected
  }

  /** The trip the save handler creates from the typed name and dates. */
  function NewTrip(id: string, name: string, dates: string): (r: Trip)
    ensures r.id == id && r.name == Trim(name)
    ensures r.dates != "" && IsTrimmed(r.dates)
    ensures Trim(dates) != "" ==> r.dates == Trim(dates)
    ensures Trim(dates) == "" ==> r.dates == DatesTbd
    ensures r.budget == 0.0 && r.spent == 0.0 && r.itinerary == [] && r.packing == []
    ensures id != "" && Trim(name) != "" ==> WellFormed(r)
  {
    Trip(id, Trim(name), if Trim(dates) == "" then DatesTbd else Trim(dates), 0.0, 0.0, [], [])
  }

  // ---------------------------------------------------------------------------
  // Derived figures

  /** `Math.max(budget - spent, 0)`: what is left of the budget, never negative. */
  function Remaining(t: Trip): (r: real)
    ensures r >= 0.0 && r >= t.budget - t.spent
    ensures r == 0.0 || r == t.budget - t.spent
    ensures r == 0.0 <==> t.spent >= t.budget
  {
    if t.budget - t.spent > 0.0 then t.budget - t.spent else 0.0
  }

  /** `packing.filter(item => item.done).length`: how many items are packed. */
  function ReadyCount(packing: seq<PackingItem>): (r: nat)
    ensures r <= |packing|
    ensures r == |packing| <==> forall k :: 0 <= k < |packing| ==> packing[k].done
    ensures r == 0 <==> forall k :: 0 <= k < |packing| ==> !packing[k].done
    ensures |packing| == 1 ==> r == if packing[0].done then 1 else 0
  {
    if packing == [] then 0
    else (if packing[0].done then 1 else 0) + ReadyCount(packing[1..])
  }

  // ---------------------------------------------------------------------------
  // The store invariant

  /** A non-empty string with no whitespace at either end, as `trim` leaves accepted input. */
  predicate IsEntry(s: string) {
    s != "" && IsTrimmed(s)
  }

  /** Every field of a trip as the handlers leave it. */
  predicate WellFormed(t: Trip) {
    && t.id != ""
    && IsEntry(t.name)
    && IsTrimmed(t.dates)
    && t.budget >= 0.0
    && t.spent >= 0.0
    && (forall e :: e in t.itinerary ==> IsEntry(e))
    && (forall item :: item in t.packing ==> IsEntry(item.caption))
  }

  /**
    The invariant of the store: unique ids, well-formed trips, a selection that
    is set exactly when there are trips and then names one of them, and an edit
    in progress only on an existing trip.
   */
  predicate ValidStore(trips: seq<Trip>, selected: Option<string>, editing: Option<string>) {
    && UniqueIds(trips)
    && (forall t :: t in trips ==> WellFormed(t))
    && (selected.Some? <==> |trips| > 0)
    && (selected.Some? ==> selected.value in Ids(trips))
    && (editing.Some? ==> editing.value in Ids(trips))
  }

  /** The validation a handler performs before it applies a change. */
  predicate Allowed(c: Change) {
    match c
    case Rename(n, d) => IsEntry(n) && IsTrimmed(d)
    case AddStop(e) => IsEntry(e)
    case AddItem(l) => IsEntry(l)
    case Toggle(_) => true
    case Spend(a) => a > 0.0
    case SetBudget(a) => a >= 0.0
  }

  // ---------------------------------------------------------------------------
  // Lemmas

  lemma IdsCons(trips: seq<Trip>)
    requires trips != []
    ensures Ids(trips) == {trips[0].id} + Ids(trips[1..])
  {
    assert forall t :: t in trips <==> t == trips[0] || t in trips[1..];
  }

  /** Under unique ids, the per-trip map changes exactly one position: the trip carrying the id. */
  lemma UpdateTouchesOne(trips: seq<Trip>, k: nat, c: Change)
    requires UniqueIds(trips) && k < |trips|
    ensures UpdateWhere(trips, trips[k].id, c) == trips[k := Apply(trips[k], c)]
  {
    var r := UpdateWhere(trips, trips[k].id, c);
    forall j | 0 <= j < |trips| ensures r[j] == trips[k := Apply(trips[k], c)][j] {
      if j < k { assert trips[j].id != trips[k].id; }
      if j > k { assert trips[k].id != trips[j].id; }
    }
  }

  /** An allowed change keeps a trip's id and leaves it well-formed. */
  lemma ApplyKeepsWellFormed(t: Trip, c: Change)
    requires WellFormed(t) && Allowed(c)
    ensures Apply(t, c).id == t.id && WellFormed(Apply(t, c))
  {
    match c
    case Toggle(l) =>
      var p := FlipMatching(t.packing, l);
      forall item | item in p ensures IsEntry(item.caption) {
        var k :| 0 <= k < |p| && p[k] == item;
        assert t.packing[k] in t.packing;
      }
    case _ =>
  }

  /** The per-trip map keeps every id in its place, so the set of ids too. */
  lemma UpdateKeepsIds(trips: seq<Trip>, id: string, c: Change)
    ensures Ids(UpdateWhere(trips, id, c)) == Ids(trips)
  {
    var r := UpdateWhere(trips, id, c);
    forall x ensures x in Ids(r) <==> x in Ids(trips) {
      if x in Ids(r) {
        var k :| 0 <= k < |r| && r[k].id == x;
        assert trips[k] in trips;
      }
      if x in Ids(trips) {
        var k :| 0 <= k < |trips| && trips[k].id == x;
        assert r[k] in r;
      }
    }
  }

  /** Applying an allowed change to the trips carrying one id keeps the store invariant. */
  lemma UpdateKeepsValid(trips: seq<Trip>, selected: Option<string>, editing: Option<string>,
                         id: string, c: Change)
    requires ValidStore(trips, selected, editing) && Allowed(c)
    ensures ValidStore(UpdateWhere(trips, id, c), selected, editing)
  {
    var r := UpdateWhere(trips, id, c);
    forall k | 0 <= k < |trips| ensures r[k].id == trips[k].id && WellFormed(r[k]) {
      ApplyKeepsWellFormed(trips[k], c);
    }
    UpdateKeepsIds(trips, id, c);
  }

  /** Saving a new trip in front of a valid store, and selecting it, keeps the invariant. */
  lemma CreateKeepsValid(trips: seq<Trip>, selected: Option<string>,
                         id: string, name: string, dates: string)
    requires ValidStore(trips, selected, None)
    requires id != "" && id !in Ids(trips) && Trim(name) != ""
    ensures ValidStore([NewTrip(id, name, dates)] + trips, Some(id), None)
  {
    var t := NewTrip(id, name, dates);
    var r := [t] + trips;
    assert WellFormed(t);
    forall i, j | 0 <= i < j < |r| ensures r[i].id != r[j].id {
      if i == 0 { assert r[j] in trips; }
    }
    assert id in Ids(r) by { assert r[0] in r; }
    assert Ids(r) == {id} + Ids(trips) by { IdsCons(r); assert r[1..] == trips; }
  }

  /** Deleting an id, repairing the selection and cancelling its edit keeps the invariant. */
  lemma DeleteKeepsValid(trips: seq<Trip>, selected: Option<string>, editing: Option<string>,
                         id: string)
    requires ValidStore(trips, selected, editing)
    ensures var rest := Without(trips, id);
            ValidStore(rest, RepairSelection(rest, selected, id),
                       if editing == Some(id) then None else editing)
  {
    var rest := Without(trips, id);
    WithoutKeepsUnique(trips, id);
    WithoutIds(trips, id);
    if |rest| > 0 {
      assert rest[0] in rest;
    }
  }

  /** After the delete, exactly the deleted id is gone from the list. */
  lemma WithoutIds(trips: seq<Trip>, id: string)
    ensures Ids(Without(trips, id)) == Ids(trips) - {id}
  {
    var rest := Without(trips, id);
    forall x ensures x in Ids(rest) <==> x in Ids(trips) - {id} {
      if x in Ids(trips) - {id} {
        var t :| t in trips && t.id == x;
        assert t in rest;
      }
    }
  }

  /** A list headed by `t` has unique ids exactly when its tail does and does not carry `t`'s id. */
  lemma UniqueCons(t: Trip, rest: seq<Trip>)
    ensures UniqueIds([t] + rest) <==> t.id !in Ids(rest) && UniqueIds(rest)
  {
    var r := [t] + rest;
    if UniqueIds(r) {
      forall u | u in rest ensures u.id != t.id {
        var m :| 0 <= m < |rest| && rest[m] == u;
        assert r[0].id != r[m + 1].id;
      }
      forall i, j | 0 <= i < j < |rest| ensures rest[i].id != rest[j].id {
        assert r[i + 1] == rest[i] && r[j + 1] == rest[j];
      }
    }
    if t.id !in Ids(rest) && UniqueIds(rest) {
      forall i, j | 0 <= i < j < |r| ensures r[i].id != r[j].id {
        if i == 0 {
          assert r[j] in rest;
        } else {
          assert r[i] == rest[i - 1] && r[j] == rest[j - 1];
        }
      }
    }
  }

  /** `filter` keeps ids unique. */
  lemma {:induction false} WithoutKeepsUnique(trips: seq<Trip>, id: string)
    requires UniqueIds(trips)
    ensures UniqueIds(Without(trips, id))
  {
    if trips != [] {
      var head, tail := trips[0], trips[1..];
      assert trips == [head] + tail;
      UniqueCons(head, tail);
      WithoutKeepsUnique(tail, id);
      if head.id != id {
        var rest := Without(tail, id);
        forall u | u in rest ensures u.id != head.id {
          assert u in tail;
        }
        UniqueCons(head, rest);
      }
    }
  }

  /** `filter` preserves order: filtering a concatenation filters each part in place. */
  lemma {:induction false} WithoutAppend(a: seq<Trip>, b: seq<Trip>, id: string)
    ensures Without(a + b, id) == Without(a, id) + Without(b, id)
  {
    if a == [] {
      assert a + b == b;
    } else {
      assert (a + b)[0] == a[0] && (a + b)[1..] == a[1..] + b;
      WithoutAppend(a[1..], b, id);
    }
  }

  /** Deleting an id no trip carries changes nothing. */
  lemma {:induction false} WithoutAbsent(trips: seq<Trip>, id: string)
    requires id !in Ids(trips)
    ensures Without(trips, id) == trips
  {
    if trips != [] {
      IdsCons(trips);
      WithoutAbsent(trips[1..], id);
    }
  }

  /** Toggling the same caption twice on the same trip restores the whole list of trips. */
  lemma ToggleTwice(trips: seq<Trip>, id: string, caption: string)
    ensures UpdateWhere(UpdateWhere(trips, id, Toggle(caption)), id, Toggle(caption)) == trips
  {
    var once := UpdateWhere(trips, id, Toggle(caption));
    var twice := UpdateWhere(once, id, Toggle(caption));
    forall k | 0 <= k < |trips| ensures twice[k] == trips[k] {
      if trips[k].id == id {
        FlipTwice(trips[k].packing, caption);
      }
    }
  }

  /** Flipping the items of one caption twice gives back the checklist. */
  lemma FlipTwice(packing: seq<PackingItem>, caption: string)
    ensures FlipMatching(FlipMatching(packing, caption), caption) == packing
  {
    var twice := FlipMatching(FlipMatching(packing, caption), caption);
    assert forall k :: 0 <= k < |packing| ==> twice[k] == packing[k];
  }

  /** No allowed change lowers what a trip has spent; only an expense raises it, by exactly its amount. */
  lemma SpentNeverDecreases(trips: seq<Trip>, id: string, c: Change)
    requires Allowed(c)
    ensures forall k :: 0 <= k < |trips| ==>
              UpdateWhere(trips, id, c)[k].spent
                == if trips[k].id == id && c.Spend? then trips[k].spent + c.amount else trips[k].spent
    ensures forall k :: 0 <= k < |trips| ==> UpdateWhere(trips, id, c)[k].spent >= trips[k].spent
  {
  }

  /** The ready count of a checklist is the sum of the ready counts of its parts. */
  lemma {:induction false} ReadyCountAppend(a: seq<PackingItem>, b: seq<PackingItem>)
    ensures ReadyCount(a + b) == ReadyCount(a) + ReadyCount(b)
  {
    if a == [] {
      assert a + b == b;
    } else {
      assert (a + b)[0] == a[0] && (a + b)[1..] == a[1..] + b;
      ReadyCountAppend(a[1..], b);
    }
  }

  /** A new packing item starts unpacked: the ready count stays and the total grows by one. */
  lemma ReadyCountAppendUnpacked(packing: seq<PackingItem>, caption: string)
    ensures ReadyCount(packing + [PackingItem(caption, false)]) == ReadyCount(packing)
  {
    ReadyCountAppend(packing, [PackingItem(caption, false)]);
  }

  /** The texts of the first starter trip are trimmed and, except the dates, non-empty. */
  lemma LisbonTexts()
    ensures IsEntry("Lisbon Weekend") && IsTrimmed("Jan 12 - Jan 15")
    ensures IsEntry("Tram 28 ride + Alfama walk") && IsEntry("Time Out Market lunch")
    ensures IsEntry("Sunset at Miradouro da Graca")
    ensures IsEntry("Passport") && IsEntry("Universal adapter") && IsEntry("Walking shoes")
  {
  }

  /** The texts of the second starter trip are trimmed and, except the dates, non-empty. */
  lemma KyotoTexts()
    ensures IsEntry("Kyoto + Osaka") && IsTrimmed("Mar 3 - Mar 11")
    ensures IsEntry("Arrival + Nishiki Market") && IsEntry("Arashiyama morning")
    ensures IsEntry("Day trip to Osaka")
    ensures IsEntry("JR Pass") && IsEntry("Camera batteries") && IsEntry("Light rain jacket")
  {
  }

  /** The first starter trip is well-formed. */
  lemma LisbonWellFormed()
    ensures WellFormed(SeedTrips()[0])
  {
    LisbonTexts();
  }

  /** The second starter trip is well-formed. */
  lemma KyotoWellFormed()
    ensures WellFormed(SeedTrips()[1])
  {
    KyotoTexts();
  }

  /** The starter trips form a valid store with the first one selected and no edit in progress. */
  lemma SeedIsValid()
    ensures ValidStore(SeedTrips(), Some(SeedTrips()[0].id), None)
  {
    var seeds := SeedTrips();
    LisbonWellFormed();
    KyotoWellFormed();
    assert forall t :: t in seeds ==> t == seeds[0] || t == seeds[1];
    assert seeds[0] in seeds;
  }
}
