/**
 The repair itself: building the plan row by row, and applying it in one transaction whose
 statements rewrite the uniquely indexed key column in batches. An UPDATE changes its rows one
 after another, and the index refuses a key that another row holds at that moment.
 */
module RepairDates {
  import opened Outcomes
  import opened Totals
  import opened Sorting
  import opened RepairPlans

  const BATCH_SIZE: nat := 500

  // ----- building the plan -----

  /** The keys of a map in increasing order. */
  method SortedIds(ids: set<nat>) returns (r: seq<nat>)
    ensures StrictlyAscending(r)
    ensures forall id: nat :: id in r <==> id in ids
  {
    r := [];
    var rest := ids;
    while rest != {}
      invariant rest <= ids
      invariant NoRepeats(r)
      invariant forall id: nat :: id in r <==> id in ids && id !in rest
      decreases |rest|
    {
      var id := Pick(rest);
      rest := rest - {id};
      r := r + [id];
    }
    SortDistinct(r);
    var sorted: seq<int> := Sort(r);
    assert forall i :: 0 <= i < |sorted| ==> sorted[i] in sorted && sorted[i] in r;
    r := sorted;
  }

  method PlanCandidates(db: Database, documentDates: map<int, int>) returns (updates: seq<PlanUpdate>)
    requires WellFormed(db)
    ensures CandidatesPlanned(updates, db, documentDates)
  {
    var chosen: map<nat, PlanUpdate> := map[];
    var rest := db.planDocuments.Keys;
    while rest != {}
      invariant rest <= db.planDocuments.Keys
      invariant forall id: nat :: id in chosen <==>
                  id in db.planDocuments && id !in rest && PlanNeedsUpdate(db, documentDates, id)
      invariant forall id: nat :: id in chosen ==> chosen[id] == PlanUpdate(id, documentDates[db.planDocuments[id]])
      decreases |rest|
    {
      var id := Pick(rest);
      rest := rest - {id};
      var document := db.planDocuments[id];
      if document in documentDates && db.planDates[id] != documentDates[document] {
        chosen := chosen[id := PlanUpdate(id, documentDates[document])];
      }
    }
    var ids := SortedIds(chosen.Keys);
    updates := seq(|ids|, i requires 0 <= i < |ids| => assert ids[i] in ids; chosen[ids[i]]);
    assert forall i :: 0 <= i < |ids| ==> ids[i] in ids;
    assert PlanIds(updates) == ids;
  }

  method EventsInIdOrder(chosen: map<nat, EventUpdate>) returns (updates: seq<EventUpdate>)
    requires forall id :: id in chosen ==> chosen[id].id == id
    ensures StrictlyAscending(Ids(updates))
    ensures forall id: nat :: id in Ids(updates) <==> id in chosen
    ensures forall i :: 0 <= i < |updates| ==> updates[i].id in chosen && updates[i] == chosen[updates[i].id]
  {
    var ids := SortedIds(chosen.Keys);
    assert forall i :: 0 <= i < |ids| ==> ids[i] in ids;
    updates := seq(|ids|, i requires 0 <= i < |ids| => chosen[ids[i]]);
    assert Ids(updates) == ids;
  }

  /** The final keys seen so far, each with the visited event that has it. */
  ghost predicate KeysSeen(finalKeys: map<string, nat>, db: Database, documentDates: map<int, int>, keyOf: KeyOf,
                           rest: set<nat>)
    requires WellFormed(db)
  {
    && (forall id: nat :: id in db.events && id !in rest ==>
          FinalKey(db, documentDates, keyOf, id) in finalKeys
              && finalKeys[FinalKey(db, documentDates, keyOf, id)] == id)
    && (forall key :: key in finalKeys ==>
          finalKeys[key] in db.events && finalKeys[key] !in rest
              && FinalKey(db, documentDates, keyOf, finalKeys[key]) == key)
  }

  /** The updates and evaluations chosen among the visited events. */
  ghost predicate Chosen(chosen: map<nat, EventUpdate>, redated: set<nat>, db: Database, documentDates: map<int, int>,
                         keyOf: KeyOf, rest: set<nat>)
    requires WellFormed(db)
  {
    && (forall id: nat :: id in chosen <==> id in db.events && id !in rest && NeedsUpdate(db, documentDates, keyOf, id))
    && (forall id: nat :: id in chosen ==>
          chosen[id] == EventUpdate(id, FinalDate(db, documentDates, id), FinalKey(db, documentDates, keyOf, id)))
    && (forall id: nat :: id in redated <==> id in db.events && id !in rest && DateChanges(db, documentDates, id))
  }

  lemma SeeKey(finalKeys: map<string, nat>, db: Database, documentDates: map<int, int>, keyOf: KeyOf, rest: set<nat>,
               id: nat)
    requires WellFormed(db) && KeysSeen(finalKeys, db, documentDates, keyOf, rest) && id in rest && id in db.events
    ensures var key := FinalKey(db, documentDates, keyOf, id);
            && (key in finalKeys ==> finalKeys[key] != id && Collide(db, documentDates, keyOf, finalKeys[key], id))
            && (key !in finalKeys ==> KeysSeen(finalKeys[key := id], db, documentDates, keyOf, rest - {id}))
  {
    hide FinalKey;
  }

  lemma ChooseEvent(chosen: map<nat, EventUpdate>, redated: set<nat>, db: Database, documentDates: map<int, int>,
                    keyOf: KeyOf, rest: set<nat>, id: nat)
    requires WellFormed(db) && Chosen(chosen, redated, db, documentDates, keyOf, rest) && id in rest && id in db.events
    ensures Chosen(if NeedsUpdate(db, documentDates, keyOf, id)
              then chosen[id := EventUpdate(id, FinalDate(db, documentDates, id),
                  FinalKey(db, documentDates, keyOf, id))] else chosen,
                   if DateChanges(db, documentDates, id) then redated + {id} else redated,
                   db, documentDates, keyOf, rest - {id})
  {
    hide NeedsUpdate, DateChanges, FinalKey, FinalDate;
  }

  lemma NoneSeen(db: Database, documentDates: map<int, int>, keyOf: KeyOf)
    requires WellFormed(db)
    ensures KeysSeen(map[], db, documentDates, keyOf, db.events.Keys)
    ensures Chosen(map[], {}, db, documentDates, keyOf, db.events.Keys)
  {
  }

  lemma AllSeen(finalKeys: map<string, nat>, db: Database, documentDates: map<int, int>, keyOf: KeyOf)
    requires WellFormed(db) && KeysSeen(finalKeys, db, documentDates, keyOf, {})
    ensures !Collision(db, documentDates, keyOf)
  {
    hide FinalKey;
  }

  method PlanEvents(db: Database, documentDates: map<int, int>, keyOf: KeyOf)
    returns (r: Result<(seq<EventUpdate>, seq<nat>), (nat, nat)>)
    requires WellFormed(db) && documentDates != map[]
    ensures r.Err? ==> Collide(db, documentDates, keyOf, r.error.0, r.error.1)
    ensures r.Ok? ==> !Collision(db, documentDates, keyOf)
    ensures r.Ok? ==> EventsPlanned(r.value.0, db, documentDates, keyOf)
    ensures r.Ok? ==> EvaluationsPlanned(r.value.1, db, documentDates)
  {
    hide KeysSeen, Chosen, Collide, Collision, EventsPlanned, EvaluationsPlanned;
    var finalKeys: map<string, nat> := map[];
    var chosen: map<nat, EventUpdate> := map[];
    var redated: set<nat> := {};
    var rest := db.events.Keys;
    NoneSeen(db, documentDates, keyOf);
    while rest != {}
      invariant rest <= db.events.Keys
      invariant KeysSeen(finalKeys, db, documentDates, keyOf, rest)
      invariant Chosen(chosen, redated, db, documentDates, keyOf, rest)
      decreases |rest|
    {
      var id := Pick(rest);
      var document := db.events[id].document;
      var finalDate := db.eventDates[id];
      if document in documentDates {
        finalDate := documentDates[document];
      }
      var finalKey := keyOf(db.events[id].identity, finalDate);
      SeeKey(finalKeys, db, documentDates, keyOf, rest, id);
      if finalKey in finalKeys && finalKeys[finalKey] != id {
        return Err((finalKeys[finalKey], id));
      }
      finalKeys := finalKeys[finalKey := id];
      ChooseEvent(chosen, redated, db, documentDates, keyOf, rest, id);
      rest := rest - {id};
      if document in documentDates && (db.eventDates[id] != finalDate || db.keys[id] != finalKey) {
        chosen := chosen[id := EventUpdate(id, finalDate, finalKey)];
        if db.eventDates[id] != finalDate {
          redated := redated + {id};
        }
      }
    }
    AllSeen(finalKeys, db, documentDates, keyOf);
    AllChosen(chosen, redated, db, documentDates, keyOf);
    var updates := EventsInIdOrder(chosen);
    var evaluations := SortedIds(redated);
    InOrderPlanned(updates, evaluations, chosen, redated, db, documentDates, keyOf);
    return Ok((updates, evaluations));
  }

  lemma AllChosen(chosen: map<nat, EventUpdate>, redated: set<nat>, db: Database, documentDates: map<int, int>,
                  keyOf: KeyOf)
    requires WellFormed(db) && Chosen(chosen, redated, db, documentDates, keyOf, {})
    ensures forall id :: id in chosen ==> chosen[id].id == id
  {
  }

  lemma InOrderPlanned(updates: seq<EventUpdate>, evaluations: seq<nat>, chosen: map<nat, EventUpdate>,
                       redated: set<nat>,
                       db: Database, documentDates: map<int, int>, keyOf: KeyOf)
    requires WellFormed(db) && Chosen(chosen, redated, db, documentDates, keyOf, {})
    requires StrictlyAscending(Ids(updates)) && forall id: nat :: id in Ids(updates) <==> id in chosen
    requires forall i :: 0 <= i < |updates| ==> updates[i].id in chosen && updates[i] == chosen[updates[i].id]
    requires StrictlyAscending(evaluations) && forall id: nat :: id in evaluations <==> id in redated
    ensures EventsPlanned(updates, db, documentDates, keyOf) && EvaluationsPlanned(evaluations, db, documentDates)
  {
    hide NeedsUpdate, DateChanges, FinalKey, FinalDate, Ids, StrictlyAscending;
  }

  /** Fails exactly on a final collision, and otherwise plans exactly the rows that are off. */
  method BuildPlan(db: Database, documentDates: map<int, int>, keyOf: KeyOf) returns (r: Result<RepairPlan, (nat, nat)>)
    requires WellFormed(db)
    ensures r.Err? <==> Collision(db, documentDates, keyOf)
    ensures r.Err? ==> Collide(db, documentDates, keyOf, r.error.0, r.error.1)
    ensures r.Ok? ==> IsPlan(r.value, db, documentDates, keyOf)
  {
    if documentDates == map[] {
      return Ok(RepairPlan([], [], []));
    }
    var planUpdates := PlanCandidates(db, documentDates);
    var events := PlanEvents(db, documentDates, keyOf);
    match events {
      case Err(pair) => return Err(pair);
      case Ok(planned) => return Ok(RepairPlan(planUpdates, planned.0, planned.1));
    }
  }

  // ----- batches and groups -----

  function Flatten<T>(batches: seq<seq<T>>): seq<T> {
    if batches == [] then [] else Flatten(batches[..|batches| - 1]) + batches[|batches| - 1]
  }

  /** Consecutive slices: together the whole list, none empty, all but the last full. */
  method Batches<T>(values: seq<T>, size: nat) returns (batches: seq<seq<T>>)
    requires size > 0
    ensures Flatten(batches) == values
    ensures forall i :: 0 <= i < |batches| ==> 1 <= |batches[i]| <= size
    ensures forall i :: 0 <= i < |batches| - 1 ==> |batches[i]| == size
  {
    batches := [];
    var start := 0;
    while start < |values|
      invariant 0 <= start
      invariant Flatten(batches) == values[..if start < |values| then start else |values|]
      invariant forall i :: 0 <= i < |batches| ==> 1 <= |batches[i]| <= size
      invariant forall i :: 0 <= i < |batches| - 1 ==> |batches[i]| == size
      invariant start < |values| && batches != [] ==> |batches[|batches| - 1]| == size
    {
      var end := start + size;
      if end > |values| {
        end := |values|;
      }
      assert (batches + [values[start..end]])[..|batches|] == batches;
      batches := batches + [values[start..end]];
      start := start + size;
    }
  }

  function IdsOn(updates: seq<PlanUpdate>, date: int): seq<nat> {
    if updates == [] then []
    else
      var last := updates[|updates| - 1];
      IdsOn(updates[..|updates| - 1], date) + if last.newDate == date then [last.id] else []
  }

  lemma {:induction false} IdsOnMembers(updates: seq<PlanUpdate>, date: int, id: nat)
    ensures id in IdsOn(updates, date) <==> PlanUpdate(id, date) in updates
  {
    if updates != [] {
      IdsOnMembers(updates[..|updates| - 1], date, id);
      assert updates == updates[..|updates| - 1] + [updates[|updates| - 1]];
    }
  }

  method GroupByDate(updates: seq<PlanUpdate>) returns (groups: map<int, seq<nat>>)
    ensures forall date :: date in groups <==> IdsOn(updates, date) != []
    ensures forall date :: date in groups ==> groups[date] == IdsOn(updates, date)
  {
    groups := map[];
    for i := 0 to |updates|
      invariant forall date :: date in groups <==> IdsOn(updates[..i], date) != []
      invariant forall date :: date in groups ==> groups[date] == IdsOn(updates[..i], date)
    {
      var update := updates[i];
      assert updates[..i + 1][..i] == updates[..i];
      var group := if update.newDate in groups then groups[update.newDate] else [];
      groups := groups[update.newDate := group + [update.id]];
    }
    assert updates[..|updates|] == updates;
  }

  // ----- date statements -----

  /** One statement: the date of the listed rows. */
  function Dated(dates: map<nat, int>, ids: seq<nat>, date: int): map<nat, int> {
    map id | id in dates :: if id in ids then date else dates[id]
  }

  method UpdateDates(dates: map<nat, int>, ids: seq<nat>, date: int) returns (after: map<nat, int>)
    ensures after == Dated(dates, ids, date)
  {
    after := dates;
    var batches := Batches(ids, BATCH_SIZE);
    for i := 0 to |batches|
      invariant after == Dated(dates, Flatten(batches[..i]), date)
    {
      assert batches[..i + 1][..i] == batches[..i];
      after := Dated(after, batches[i], date);
    }
    assert batches[..|batches|] == batches;
  }

  lemma GroupsPartition(updates: seq<PlanUpdate>, date: int, id: nat)
    requires NoRepeats(PlanIds(updates))
    ensures id in IdsOn(updates, date) ==> id in PlanIds(updates)
    ensures forall i :: 0 <= i < |updates| && updates[i].id == id ==>
              (id in IdsOn(updates, date) <==> updates[i].newDate == date)
  {
    IdsOnMembers(updates, date, id);
    assert forall i :: 0 <= i < |updates| ==> updates[i] == PlanUpdate(updates[i].id, updates[i].newDate);
    assert forall i :: 0 <= i < |updates| ==> PlanIds(updates)[i] == updates[i].id;
  }

  /** The listed rows whose new date is still pending keep their date, the other listed rows have the new one. */
  ghost predicate RedatedExcept(after: map<nat, int>, dates: map<nat, int>, updates: seq<PlanUpdate>,
                                pending: set<int>) {
    && after.Keys == dates.Keys
    && (forall i :: 0 <= i < |updates| && updates[i].id in dates ==>
          after[updates[i].id] == if updates[i].newDate in pending then dates[updates[i].id] else updates[i].newDate)
    && (forall id :: id in dates && id !in PlanIds(updates) ==> after[id] == dates[id])
  }

  lemma OneGroup(before: map<nat, int>, after: map<nat, int>, dates: map<nat, int>, updates: seq<PlanUpdate>,
                 pending: set<int>, date: int)
    requires NoRepeats(PlanIds(updates)) && date in pending
    requires RedatedExcept(before, dates, updates, pending)
    requires after == Dated(before, IdsOn(updates, date), date)
    ensures RedatedExcept(after, dates, updates, pending - {date})
  {
    hide NoRepeats, PlanIds, IdsOn;
    forall id: nat | id in dates
      ensures id in IdsOn(updates, date) ==> id in PlanIds(updates)
      ensures forall i :: 0 <= i < |updates| && updates[i].id == id ==>
                (id in IdsOn(updates, date) <==> updates[i].newDate == date)
    {
      GroupsPartition(updates, date, id);
    }
  }

  /** Whatever the order of the date groups, each listed row ends on its own new date. */
  method UpdateAllDates(dates: map<nat, int>, updates: seq<PlanUpdate>) returns (after: map<nat, int>)
    requires NoRepeats(PlanIds(updates))
    ensures RedatedExcept(after, dates, updates, {})
  {
    hide RedatedExcept, NoRepeats, PlanIds;
    var groups := GroupByDate(updates);
    after := dates;
    var rest := groups.Keys;
    AllPending(dates, updates, rest);
    while rest != {}
      invariant rest <= groups.Keys
      invariant RedatedExcept(after, dates, updates, rest)
      decreases |rest|
    {
      var date := Pick(rest);
      var before := after;
      after := UpdateDates(before, groups[date], date);
      OneGroup(before, after, dates, updates, rest, date);
      rest := rest - {date};
    }
  }

  lemma AllPending(dates: map<nat, int>, updates: seq<PlanUpdate>, groups: set<int>)
    requires forall date :: date in groups <==> IdsOn(updates, date) != []
    ensures RedatedExcept(dates, dates, updates, groups)
  {
    forall i | 0 <= i < |updates| ensures updates[i].newDate in groups {
      IdsOnMembers(updates, updates[i].newDate, updates[i].id);
      assert updates[i] == PlanUpdate(updates[i].id, updates[i].newDate);
    }
  }
}
