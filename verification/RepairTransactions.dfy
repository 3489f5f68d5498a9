/** Applying a repair plan in one transaction: when it commits, and what it leaves. */
module RepairTransactions {
  import opened Sorting
  import opened RepairPlans
  import opened RepairDates
  import opened RepairStore

  /** A planned row's temporary key is already stored somewhere. */
  ghost predicate TempKeyTaken(keys: map<nat, string>, updates: seq<EventUpdate>) {
    exists a, b :: a in Ids(updates) && b in keys && keys[b] == TempKey(a)
  }

  /** A row outside the plan stores the final key of a planned row. */
  ghost predicate FinalKeyTaken(db: Database, documentDates: map<int, int>, keyOf: KeyOf)
    requires WellFormed(db)
  {
    exists a, b ::
      && a in db.events && NeedsUpdate(db, documentDates, keyOf, a)
      && b in db.events && !NeedsUpdate(db, documentDates, keyOf, b)
      && db.keys[b] == FinalKey(db, documentDates, keyOf, a)
  }

  lemma PlannedTargets(updates: seq<EventUpdate>, db: Database, documentDates: map<int, int>, keyOf: KeyOf, id: nat)
    requires WellFormed(db) && EventsPlanned(updates, db, documentDates, keyOf)
    ensures NoRepeats(Ids(updates))
    ensures id in Ids(updates) <==> id in db.events && NeedsUpdate(db, documentDates, keyOf, id)
    ensures id in Ids(updates) ==>
              && id in Target(Parking, updates) && Target(Parking, updates)[id] == TempKey(id)
              && id in Target(Finishing, updates)
                 && Target(Finishing, updates)[id] == FinalKey(db, documentDates, keyOf, id)
  {
    hide Target;
    if id in Ids(updates) {
      var i :| 0 <= i < |updates| && Ids(updates)[i] == id;
      TargetRow(Parking, updates, i);
      TargetRow(Finishing, updates, i);
    }
  }

  /** Parking is refused only if a temporary key is already in use: they never meet each other. */
  lemma ParkingBlocked(updates: seq<EventUpdate>, db: Database, documentDates: map<int, int>, keyOf: KeyOf)
    requires WellFormed(db) && Hexadecimal(keyOf) && EventsPlanned(updates, db, documentDates, keyOf)
    requires Clash(db.keys, Target(Parking, updates), Ids(updates))
               || AlreadyHeld(db.keys, Target(Parking, updates), Ids(updates))
    ensures TempKeyTaken(db.keys, updates)
  {
    hide EventsPlanned, Target, NeedsUpdate, FinalKey, Ids;
    var keys, target, ids := db.keys, Target(Parking, updates), Ids(updates);
    forall id: nat ensures id in ids ==> id in target && target[id] == TempKey(id) {
      PlannedTargets(updates, db, documentDates, keyOf, id);
    }
    if Clash(keys, target, ids) {
      var a, b :| a in target && a in ids && b in keys && a != b
          && (keys[b] == target[a] || (b in ids && b in target && target[b] == target[a]));
      TempKeysDistinct(a, b, keyOf, db.events[b].identity, 0);
      assert keys[b] == TempKey(a);
    }
  }

  /** Once all are parked, finishing is refused only by a row outside the plan, whatever cycles the renames form. */
  lemma FinishingBlocked(updates: seq<EventUpdate>, db: Database, documentDates: map<int, int>, keyOf: KeyOf,
                         parked: map<nat, string>)
    requires WellFormed(db) && Hexadecimal(keyOf) && EventsPlanned(updates, db, documentDates, keyOf)
    requires !Collision(db, documentDates, keyOf)
    requires Written(parked, db.keys, Target(Parking, updates), Ids(updates))
    requires Clash(parked, Target(Finishing, updates), Ids(updates))
               || AlreadyHeld(parked, Target(Finishing, updates), Ids(updates))
    ensures FinalKeyTaken(db, documentDates, keyOf)
  {
    hide EventsPlanned, Target, NeedsUpdate, FinalKey, Ids, TempKey;
    var target, ids := Target(Finishing, updates), Ids(updates);
    forall id: nat
      ensures id in ids <==> id in db.events && NeedsUpdate(db, documentDates, keyOf, id)
      ensures id in ids ==> id in target && target[id] == FinalKey(db, documentDates, keyOf, id)
      ensures id in ids ==> parked[id] == TempKey(id)
    {
      PlannedTargets(updates, db, documentDates, keyOf, id);
    }
    NothingPlanned(updates, db, documentDates, keyOf);
    forall a: nat, b: nat ensures a in ids && b in ids ==> parked[b] != target[a] {
      if a in ids && b in ids {
        TempKeyNotFinal(db, documentDates, keyOf, a, b);
      }
    }
    if Clash(parked, target, ids) {
      var a, b :| a in target && a in ids && b in parked && a != b
          && (parked[b] == target[a] || (b in ids && b in target && target[b] == target[a]));
      assert !Collide(db, documentDates, keyOf, a, b);
      assert b !in ids && db.keys[b] == FinalKey(db, documentDates, keyOf, a);
    }
  }

  lemma NothingPlanned(updates: seq<EventUpdate>, db: Database, documentDates: map<int, int>, keyOf: KeyOf)
    requires WellFormed(db) && EventsPlanned(updates, db, documentDates, keyOf)
    ensures documentDates == map[] ==> Ids(updates) == []
  {
    assert updates != [] ==> Ids(updates)[0] in Ids(updates);
  }

  lemma TempKeyNotFinal(db: Database, documentDates: map<int, int>, keyOf: KeyOf, a: nat, b: nat)
    requires Hexadecimal(keyOf) && a in db.events && a in db.eventDates
    ensures TempKey(b) != FinalKey(db, documentDates, keyOf, a)
  {
    TempKeysDistinct(b, b, keyOf, db.events[a].identity, FinalDate(db, documentDates, a));
  }

  /** Both phases leave every planned row under its final key and every other row as it was. */
  lemma PhasesRekey(updates: seq<EventUpdate>, db: Database, documentDates: map<int, int>, keyOf: KeyOf,
                    parked: map<nat, string>, final: map<nat, string>, id: nat)
    requires WellFormed(db) && EventsPlanned(updates, db, documentDates, keyOf) && id in db.events
    requires Written(parked, db.keys, Target(Parking, updates), Ids(updates))
    requires Written(final, parked, Target(Finishing, updates), Ids(updates))
    ensures id in final
    ensures final[id] == if NeedsUpdate(db, documentDates, keyOf, id)
                         then FinalKey(db, documentDates, keyOf, id)
                         else db.keys[id]
  {
    hide EventsPlanned, Target, FinalKey, Ids, NeedsUpdate;
    PlannedTargets(updates, db, documentDates, keyOf, id);
  }

  lemma KeysRepaired(db: Database, documentDates: map<int, int>, keyOf: KeyOf, final: map<nat, string>)
    requires WellFormed(db) && final.Keys == db.keys.Keys
    requires forall id :: id in db.events ==>
               final[id] == if NeedsUpdate(db, documentDates, keyOf, id)
                            then FinalKey(db, documentDates, keyOf, id)
                            else db.keys[id]
    ensures final == Repaired(db, documentDates, keyOf).keys
    ensures FinalKeyTaken(db, documentDates, keyOf) ==> !KeysUnique(final)
  {
    hide FinalKey;
    if FinalKeyTaken(db, documentDates, keyOf) {
      var a, b :| a in db.events && NeedsUpdate(db, documentDates, keyOf, a)
                  && b in db.events && !NeedsUpdate(db, documentDates, keyOf, b)
                  && db.keys[b] == FinalKey(db, documentDates, keyOf, a);
      assert final[a] == final[b];
    }
  }

  /**
   The keys are distinct after any part of the rows is parked, and after any part of them is
   finished once all are parked: so after every batch, for every batch size and row order.
   */
  lemma DistinctThroughout(updates: seq<EventUpdate>, db: Database, documentDates: map<int, int>, keyOf: KeyOf,
                           parked: seq<nat>, finished: seq<nat>, mid: map<nat, string>, keys: map<nat, string>)
    requires WellFormed(db) && Hexadecimal(keyOf) && KeysUnique(db.keys)
    requires EventsPlanned(updates, db, documentDates, keyOf)
    requires !Collision(db, documentDates, keyOf)
    requires !TempKeyTaken(db.keys, updates) && !FinalKeyTaken(db, documentDates, keyOf)
    requires forall id :: id in parked + finished ==> id in Ids(updates)
    requires finished != [] ==> forall id :: id in Ids(updates) ==> id in parked
    requires Written(mid, db.keys, Target(Parking, updates), parked)
    requires Written(keys, mid, Target(Finishing, updates), finished)
    ensures KeysUnique(keys)
  {
    hide EventsPlanned, Target, NeedsUpdate, FinalKey, Ids, TempKey, Hexadecimal, Collision, TempKeyTaken;
    hide FinalKeyTaken;
    forall id: nat | id in db.events
      ensures id in keys && keys[id] == if id in finished then FinalKey(db, documentDates, keyOf, id)
                else if id in parked then TempKey(id) else db.keys[id]
    {
      PlannedTargets(updates, db, documentDates, keyOf, id);
      assert id in parked + finished <==> id in parked || id in finished;
    }
    forall a: nat, b: nat | a in keys && b in keys && keys[a] == keys[b] ensures a == b {
      assert forall id :: id in parked || id in finished ==> id in parked + finished;
      if a in Ids(updates) {
        KeysApart(updates, db, documentDates, keyOf, a, b);
      }
      if b in Ids(updates) {
        KeysApart(updates, db, documentDates, keyOf, b, a);
      }
    }
  }

  /** The three kinds of key a row can hold, compared pairwise. */
  lemma KeysApart(updates: seq<EventUpdate>, db: Database, documentDates: map<int, int>, keyOf: KeyOf, a: nat, b: nat)
    requires WellFormed(db) && Hexadecimal(keyOf) && KeysUnique(db.keys)
    requires EventsPlanned(updates, db, documentDates, keyOf)
    requires !Collision(db, documentDates, keyOf)
    requires !TempKeyTaken(db.keys, updates) && !FinalKeyTaken(db, documentDates, keyOf)
    requires a in db.events && b in db.events && a in Ids(updates)
    ensures TempKey(a) == TempKey(b) ==> a == b
    ensures TempKey(a) != db.keys[b]
    ensures b in Ids(updates) ==> TempKey(b) != FinalKey(db, documentDates, keyOf, a)
    ensures FinalKey(db, documentDates, keyOf, a) == FinalKey(db, documentDates, keyOf, b) ==> a == b
    ensures b !in Ids(updates) ==> db.keys[b] != FinalKey(db, documentDates, keyOf, a)
  {
    hide EventsPlanned, NeedsUpdate, FinalKey, Ids, TempKey;
    PlannedTargets(updates, db, documentDates, keyOf, a);
    PlannedTargets(updates, db, documentDates, keyOf, b);
    NothingPlanned(updates, db, documentDates, keyOf);
    TempKeyNotFinal(db, documentDates, keyOf, a, b);
    TempKeysDistinct(a, b, keyOf, db.events[a].identity, 0);
    assert !Collide(db, documentDates, keyOf, a, b) || Collision(db, documentDates, keyOf);
  }

  /** Without parking, two rows that exchange their keys are refused, whichever comes first. */
  lemma SwapNeedsParking(first: string, second: string, id: nat)
    requires first != second && id in {1, 2}
    ensures var keys, target := map[1 := first, 2 := second], map[1 := second, 2 := first];
            KeysUnique(keys) && KeysUnique(target) && Held(keys, id, target[id])
  {
    var keys := map[1 := first, 2 := second];
    assert keys[3 - id] == map[1 := second, 2 := first][id];
  }

  /** Rows outside the plan cannot block it if each stores the key of its own identity and date. */
  lemma ConsistentRowsNeverBlock(db: Database, documentDates: map<int, int>, keyOf: KeyOf)
    requires WellFormed(db) && !Collision(db, documentDates, keyOf)
    requires forall id :: id in db.events && !Affected(db, documentDates, id) ==>
               db.keys[id] == keyOf(db.events[id].identity, db.eventDates[id])
    ensures !FinalKeyTaken(db, documentDates, keyOf)
  {
    hide NeedsUpdate, FinalKey;
    forall a: nat, b: nat | a in db.events && NeedsUpdate(db, documentDates, keyOf, a) && b in db.events
        && !NeedsUpdate(db, documentDates, keyOf, b)
      ensures db.keys[b] != FinalKey(db, documentDates, keyOf, a)
    {
      FreshKeysNeverClash(db, documentDates, keyOf, a, b);
    }
  }

  // ----- dates and metrics -----

  function DateUpdates(updates: seq<EventUpdate>): seq<PlanUpdate> {
    seq(|updates|, i requires 0 <= i < |updates| => PlanUpdate(updates[i].id, updates[i].newDate))
  }

  lemma EventsRedated(updates: seq<EventUpdate>, db: Database, documentDates: map<int, int>, keyOf: KeyOf,
                      dates: map<nat, int>)
    requires WellFormed(db) && EventsPlanned(updates, db, documentDates, keyOf)
    requires RedatedExcept(dates, db.eventDates, DateUpdates(updates), {})
    ensures dates == Repaired(db, documentDates, keyOf).eventDates
  {
    var listed := DateUpdates(updates);
    assert PlanIds(listed) == Ids(updates);
    forall id: nat | id in db.eventDates ensures dates[id] == FinalDate(db, documentDates, id) {
      if id in Ids(updates) {
        var i :| 0 <= i < |updates| && Ids(updates)[i] == id;
        assert listed[i].id == id;
      }
    }
  }

  lemma CandidatesRedated(updates: seq<PlanUpdate>, db: Database, documentDates: map<int, int>, keyOf: KeyOf,
                          dates: map<nat, int>)
    requires WellFormed(db) && CandidatesPlanned(updates, db, documentDates)
    requires RedatedExcept(dates, db.planDates, updates, {})
    ensures dates == Repaired(db, documentDates, keyOf).planDates
  {
    forall id: nat | id in db.planDates
      ensures dates[id] == if db.planDocuments[id] in documentDates then documentDates[db.planDocuments[id]]
                else db.planDates[id]
    {
      if id in PlanIds(updates) {
        var i :| 0 <= i < |updates| && PlanIds(updates)[i] == id;
        assert updates[i].id == id;
      }
    }
  }

  /** Deletes the metrics of the listed events, batch by batch. */
  method DeleteMetrics(metrics: map<nat, nat>, events: seq<nat>) returns (kept: map<nat, nat>)
    ensures kept == map m | m in metrics && metrics[m] !in events :: metrics[m]
  {
    kept := metrics;
    var batches := Batches(events, BATCH_SIZE);
    for i := 0 to |batches|
      invariant kept == map m | m in metrics && metrics[m] !in Flatten(batches[..i]) :: metrics[m]
    {
      assert batches[..i + 1][..i] == batches[..i];
      kept := map m | m in kept && kept[m] !in batches[i] :: kept[m];
    }
    assert batches[..|batches|] == batches;
  }

  // ----- the transaction -----

  class RecommendationStore {
    var db: Database

    constructor (initial: Database)
      ensures db == initial
    {
      db := initial;
    }

    /**
     Commits the whole repair or nothing. With fresh temporary keys it commits unless a row outside
     the plan stores a final key.
     */
    method Apply(plan: RepairPlan, ghost documentDates: map<int, int>, ghost keyOf: KeyOf) returns (applied: bool)
      requires WellFormed(db) && KeysUnique(db.keys) && Hexadecimal(keyOf)
      requires IsPlan(plan, db, documentDates, keyOf) && !Collision(db, documentDates, keyOf)
      modifies this
      ensures applied ==> db == Repaired(old(db), documentDates, keyOf)
      ensures !applied ==> db == old(db)
      ensures KeysUnique(db.keys)
      ensures applied ==> !FinalKeyTaken(old(db), documentDates, keyOf)
      ensures !applied ==> TempKeyTaken(old(db.keys), plan.eventUpdates) || FinalKeyTaken(old(db), documentDates, keyOf)
    {
      hide EventsPlanned, CandidatesPlanned, EvaluationsPlanned, Collision, Hexadecimal, Target, Clash;
      hide AlreadyHeld, FinalKeyTaken, TempKeyTaken, KeysUnique, NoRepeats, RedatedExcept, Written, NeedsUpdate;
      hide FinalKey, Repaired;
      ghost var before := db;
      PlanWritable(plan, db, documentDates, keyOf);
      var parked := KeyPhase(Parking, db.keys, plan.eventUpdates);
      if parked.None? {
        ParkingBlocked(plan.eventUpdates, db, documentDates, keyOf);
        return false;
      }
      var planDates := UpdateAllDates(db.planDates, plan.planUpdates);
      var eventDates := UpdateAllDates(db.eventDates, DateUpdates(plan.eventUpdates));
      WrittenKeys(parked.value, db.keys, Target(Parking, plan.eventUpdates), Ids(plan.eventUpdates));
      var keys := KeyPhase(Finishing, parked.value, plan.eventUpdates);
      if keys.None? {
        FinishingBlocked(plan.eventUpdates, db, documentDates, keyOf, parked.value);
        return false;
      }
      var metrics := DeleteMetrics(db.metrics, plan.evaluationIds);
      forall id: nat | id in db.events
        ensures id in keys.value
        ensures keys.value[id] == if NeedsUpdate(db, documentDates, keyOf, id)
                  then FinalKey(db, documentDates, keyOf, id) else db.keys[id]
      {
        PhasesRekey(plan.eventUpdates, db, documentDates, keyOf, parked.value, keys.value, id);
      }
      WrittenKeys(keys.value, parked.value, Target(Finishing, plan.eventUpdates), Ids(plan.eventUpdates));
      KeysRepaired(db, documentDates, keyOf, keys.value);
      EventsRedated(plan.eventUpdates, db, documentDates, keyOf, eventDates);
      CandidatesRedated(plan.planUpdates, db, documentDates, keyOf, planDates);
      MetricsDeleted(plan.evaluationIds, db, documentDates, keyOf, metrics);
      FixedColumns(db, documentDates, keyOf);
      db := db.(keys := keys.value, eventDates := eventDates, planDates := planDates, metrics := metrics);
      return true;
    }
  }

  lemma FixedColumns(db: Database, documentDates: map<int, int>, keyOf: KeyOf)
    requires WellFormed(db)
    ensures Repaired(db, documentDates, keyOf).events == db.events
    ensures Repaired(db, documentDates, keyOf).planDocuments == db.planDocuments
  {
  }

  lemma MetricsDeleted(ids: seq<nat>, db: Database, documentDates: map<int, int>, keyOf: KeyOf, metrics: map<nat, nat>)
    requires WellFormed(db) && EvaluationsPlanned(ids, db, documentDates)
    requires metrics == map m | m in db.metrics && db.metrics[m] !in ids :: db.metrics[m]
    ensures metrics == Repaired(db, documentDates, keyOf).metrics
  {
  }

  lemma PlanWritable(plan: RepairPlan, db: Database, documentDates: map<int, int>, keyOf: KeyOf)
    requires WellFormed(db) && IsPlan(plan, db, documentDates, keyOf)
    ensures NoRepeats(Ids(plan.eventUpdates)) && NoRepeats(PlanIds(plan.planUpdates))
    ensures NoRepeats(PlanIds(DateUpdates(plan.eventUpdates)))
    ensures forall id :: id in Ids(plan.eventUpdates) ==> id in db.keys
    ensures documentDates == map[] ==> plan.eventUpdates == []
  {
    assert PlanIds(DateUpdates(plan.eventUpdates)) == Ids(plan.eventUpdates);
    assert plan.eventUpdates != [] ==> Ids(plan.eventUpdates)[0] in Ids(plan.eventUpdates);
  }
}
