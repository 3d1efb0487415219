/**
  The home screen's trip store: the list of trips, the selected trip and the
  trip being edited, with one method per handler. Saving, adding an itinerary
  entry and adding a packing item ignore blank text; adding an expense and
  setting the budget ignore NaN and out-of-range amounts; starting an edit,
  selecting, deleting and toggling validate no text. An accepted save, append,
  toggle, expense or budget replaces the list by a prepend or a one-trip `map`
  of module `Trips`, a delete by a `filter`; starting an edit or selecting
  changes only the selection and edit mode. Every handler keeps the store
  invariant.
 */
module TripStore {
  import opened Wrappers
  import opened Text
  import opened Trips

  class Store {
    var trips: seq<Trip>
    /** `selectedTripId` */
    var selected: Option<string>
    /** `editingTripId` */
    var editing: Option<string>

    predicate Valid()
      reads this
    {
      ValidStore(trips, selected, editing)
    }

    /** The store the screen starts with: the starter trips, the first one selected. */
    constructor ()
      ensures Valid()
      ensures trips == SeedTrips() && selected == Some(SeedTrips()[0].id) && editing == None
    {
      trips := SeedTrips();
      selected := Some(SeedTrips()[0].id);
      editing := None;
      SeedIsValid();
    }

    /**
      `selectedTrip`: the selected trip, or the first trip when the selection
      names none. In a valid store it is always exactly the selected trip.
     */
    function Current(): (r: Option<Trip>)
      reads this
      ensures Valid() ==> (r.Some? <==> selected.Some?)
      ensures Valid() && r.Some? ==> r.value in trips && r.value.id == selected.value
    {
      CurrentTrip(trips, selected)
    }

    /**
      `handleSaveTrip`: a name that trims to nothing is ignored; with an edit in
      progress the edited trip gets the trimmed name and dates and the edit
      ends; otherwise a new trip is put in front and selected. `accepted` says
      whether the name and dates inputs are cleared.
     */
    method SaveTrip(name: string, dates: string, freshId: string) returns (accepted: bool)
      requires Valid()
      requires freshId != "" && freshId !in Ids(trips)
      modifies this
      ensures Valid()
      ensures accepted <==> !IsBlank(name)
      ensures !accepted ==> trips == old(trips) && selected == old(selected) && editing == old(editing)
      ensures accepted && old(editing).Some? ==>
                && trips == UpdateWhere(old(trips), old(editing).value, Rename(Trim(name), Trim(dates)))
                && selected == old(selected) && editing == None
      ensures accepted && old(editing).None? ==>
                && trips == [NewTrip(freshId, name, dates)] + old(trips)
                && selected == Some(freshId) && editing == None
    {
      TrimEmptyIffBlank(name);
      var n := Trim(name);
      if n == "" {
        return false;
      }
      if editing.Some? {
        var c := Rename(n, Trim(dates));
        UpdateKeepsValid(trips, selected, editing, editing.value, c);
        trips := UpdateWhere(trips, editing.value, c);
        editing := None;
      } else {
        CreateKeepsValid(trips, selected, freshId, name, dates);
        trips := [NewTrip(freshId, name, dates)] + trips;
        selected := Some(freshId);
      }
      accepted := true;
    }

    /**
      `handleEditTrip`: starts editing one of the listed trips and selects it;
      its name and dates are loaded into the inputs.
     */
    method EditTrip(t: Trip) returns (formName: string, formDates: string)
      requires Valid() && t in trips
      modifies this
      ensures Valid()
      ensures trips == old(trips) && editing == Some(t.id) && selected == Some(t.id)
      ensures formName == t.name && formDates == t.dates
    {
      formName, formDates := t.name, t.dates;
      editing := Some(t.id);
      selected := Some(t.id);
    }

    /** Tapping a listed trip selects it. */
    method SelectTrip(id: string)
      requires Valid() && id in Ids(trips)
      modifies this
      ensures Valid()
      ensures trips == old(trips) && editing == old(editing) && selected == Some(id)
    {
      selected := Some(id);
    }

    /**
      `handleDeleteTrip`: removes every trip with the id, moves the selection to
      the first remaining trip if the deleted one was selected, and cancels an
      edit of it (`formCleared`: the name and dates inputs are cleared).
     */
    method DeleteTrip(id: string) returns (formCleared: bool)
      requires Valid()
      modifies this
      ensures Valid()
      ensures formCleared <==> old(editing) == Some(id)
      ensures trips == Without(old(trips), id)
      ensures selected == RepairSelection(trips, old(selected), id)
      ensures editing == if formCleared then None else old(editing)
    {
      DeleteKeepsValid(trips, selected, editing, id);
      formCleared := editing == Some(id);
      if formCleared {
        editing := None;
      }
      var updated := Without(trips, id);
      if selected == Some(id) {
        selected := if |updated| > 0 then Some(updated[0].id) else None;
      }
      trips := updated;
    }

    /**
      `handleAddItinerary`: appends the trimmed entry to the current trip's
      itinerary; blank input, or no trip at all, changes nothing.
     */
    method AddItinerary(entry: string) returns (accepted: bool)
      requires Valid()
      modifies this
      ensures Valid()
      ensures accepted <==> !IsBlank(entry) && |old(trips)| > 0
      ensures selected == old(selected) && editing == old(editing)
      ensures trips == if accepted then UpdateWhere(old(trips), old(selected).value, AddStop(Trim(entry)))
                       else old(trips)
    {
      TrimEmptyIffBlank(entry);
      var current := Current();
      if Trim(entry) == "" || current.None? {
        return false;
      }
      UpdateKeepsValid(trips, selected, editing, current.value.id, AddStop(Trim(entry)));
      trips := UpdateWhere(trips, current.value.id, AddStop(Trim(entry)));
      accepted := true;
    }

    /**
      `handleAddPacking`: appends an unpacked item with the trimmed caption to
      the current trip's checklist; blank input, or no trip, changes nothing.
     */
    method AddPacking(caption: string) returns (accepted: bool)
      requires Valid()
      modifies this
      ensures Valid()
      ensures accepted <==> !IsBlank(caption) && |old(trips)| > 0
      ensures selected == old(selected) && editing == old(editing)
      ensures trips == if accepted then UpdateWhere(old(trips), old(selected).value, AddItem(Trim(caption)))
                       else old(trips)
    {
      TrimEmptyIffBlank(caption);
      var current := Current();
      if Trim(caption) == "" || current.None? {
        return false;
      }
      UpdateKeepsValid(trips, selected, editing, current.value.id, AddItem(Trim(caption)));
      trips := UpdateWhere(trips, current.value.id, AddItem(Trim(caption)));
      accepted := true;
    }

    /** `togglePackingItem`: flips every item of the current trip with that caption. */
    method TogglePacking(caption: string)
      requires Valid()
      modifies this
      ensures Valid()
      ensures selected == old(selected) && editing == old(editing)
      ensures trips == if |old(trips)| > 0 then UpdateWhere(old(trips), old(selected).value, Toggle(caption))
                       else old(trips)
    {
      var current := Current();
      if current.None? {
        return;
      }
      UpdateKeepsValid(trips, selected, editing, current.value.id, Toggle(caption));
      trips := UpdateWhere(trips, current.value.id, Toggle(caption));
    }

    /**
      `handleAddExpense`: adds a positive amount to what the current trip has
      spent; NaN (`None`), zero or a negative amount changes nothing.
     */
    method AddExpense(amount: Option<real>) returns (accepted: bool)
      requires Valid()
      modifies this
      ensures Valid()
      ensures accepted <==> |old(trips)| > 0 && amount.Some? && amount.value > 0.0
      ensures selected == old(selected) && editing == old(editing)
      ensures trips == if accepted then UpdateWhere(old(trips), old(selected).value, Spend(amount.value))
                       else old(trips)
    {
      var current := Current();
      if current.None? {
        return false;
      }
      if amount.None? || amount.value <= 0.0 {
        return false;
      }
      UpdateKeepsValid(trips, selected, editing, current.value.id, Spend(amount.value));
      trips := UpdateWhere(trips, current.value.id, Spend(amount.value));
      accepted := true;
    }

    /**
      `updateBudget`: replaces the current trip's budget by a non-negative
      amount; NaN (`None`) or a negative amount changes nothing.
     */
    method UpdateBudget(amount: Option<real>) returns (accepted: bool)
      requires Valid()
      modifies this
      ensures Valid()
      ensures accepted <==> |old(trips)| > 0 && amount.Some? && amount.value >= 0.0
      ensures selected == old(selected) && editing == old(editing)
      ensures trips == if accepted then UpdateWhere(old(trips), old(selected).value, SetBudget(amount.value))
                       else old(trips)
    {
      var current := Current();
      if current.None? {
        return false;
      }
      if amount.None? || amount.value < 0.0 {
        return false;
      }
      UpdateKeepsValid(trips, selected, editing, current.value.id, SetBudget(amount.value));
      trips := UpdateWhere(trips, current.value.id, SetBudget(amount.value));
      accepted := true;
    }
  }

  /** Budget tracking on the first starter trip: 1200 budgeted, 450 spent, 750 left. */
  method LisbonExpenseScenario() {
    var store := new Store();
    ghost var lisbon := store.trips[0];
    assert lisbon.id == "1" && Remaining(lisbon) == 750.0;
    var ok := store.AddExpense(Some(300.0));
    assert ok;
    assert store.trips[0] == Apply(lisbon, Spend(300.0));
    assert store.trips[0].spent == 750.0 && Remaining(store.trips[0]) == 450.0;
  }

  /** A negative expense and a NaN budget are ignored. */
  method RejectedInputScenario() {
    var store := new Store();
    var ok := store.AddExpense(Some(-5.0));
    assert !ok && store.trips == SeedTrips();
    ok := store.UpdateBudget(None);
    assert !ok && store.trips == SeedTrips();
  }

  /** A budget below what was already spent leaves nothing remaining. */
  method LisbonBudgetScenario() {
    var store := new Store();
    ghost var lisbon := store.trips[0];
    var ok := store.UpdateBudget(Some(100.0));
    assert ok;
    assert store.trips[0] == Apply(lisbon, SetBudget(100.0));
    assert Remaining(store.trips[0]) == 0.0;
  }

  /** Creating "  Porto  " with no dates: trimmed, defaulted, put first and selected. */
  method PortoScenario() {
    var store := new Store();
    var id := "1700000000000";
    var typed := "  Porto  ";
    PortoInput(typed, id);
    var ok := store.SaveTrip(typed, "", id);
    assert ok && store.trips[0] == NewTrip(id, typed, "");
    assert store.trips[0] == Trip(id, "Porto", DatesTbd, 0.0, 0.0, [], []);
    assert store.selected == Some(id) && |store.trips| == 3;
  }

  /** The input of the Porto scenario: a fresh id and a padded, non-blank name. */
  lemma PortoInput(typed: string, id: string)
    requires typed == "  Porto  " && id == "1700000000000"
    ensures id !in Ids(SeedTrips())
    ensures !IsBlank(typed) && Trim(typed) == "Porto" && Trim("") == ""
  {
    assert forall t :: t in SeedTrips() ==> |t.id| == 1;
    assert !IsSpace(typed[2]);
    assert typed == "  " + "Porto" + "  ";
    TrimOfPadded("  ", "Porto", "  ");
  }

  /** Unpacking "Passport" and packing it again gives back the starter trips. */
  method PassportScenario() {
    var store := new Store();
    ghost var lisbon := store.trips[0];
    store.TogglePacking("Passport");
    assert store.trips[0] == Apply(lisbon, Toggle("Passport"));
    assert !store.trips[0].packing[0].done;
    store.TogglePacking("Passport");
    ToggleTwice(SeedTrips(), "1", "Passport");
    assert store.trips == SeedTrips();
  }

  /** Deleting the selected trip moves the selection on; deleting the last one clears it. */
  method DeleteScenario() {
    var store := new Store();
    var cleared := store.DeleteTrip("1");
    assert !cleared && store.selected == Some("2");
    cleared := store.DeleteTrip("2");
    assert store.trips == [] && store.selected == None;
  }
}
