/**
 Planning the re-dating of recommendation events: which rows change, what their final keys are,
 and why applying the plan leaves nothing to repair. The key hash is a parameter; all that is
 used of it is that it prints as hexadecimal digits.
 */
module RepairPlans {
  import opened Sorting

  // ----- keys -----

  datatype Identity = Identity(name: string, institution: string, symbol: string, direction: string)

  type KeyOf = (Identity, int) -> string

  predicate HexDigit(c: char) {
    '0' <= c <= '9' || 'a' <= c <= 'f'
  }

  ghost predicate Hexadecimal(keyOf: KeyOf) {
    forall identity, date, i :: 0 <= i < |keyOf(identity, date)| ==> HexDigit(keyOf(identity, date)[i])
  }

  const TEMP_PREFIX := "date-repair:"

  function Decimal(n: nat): string {
    if n < 10 then ['0' + n as char] else Decimal(n / 10) + ['0' + (n % 10) as char]
  }

  function TempKey(id: nat): string {
    TEMP_PREFIX + Decimal(id)
  }

  lemma {:induction false} LastDigit(n: nat)
    ensures |Decimal(n)| >= 1 && Decimal(n)[|Decimal(n)| - 1] == '0' + (n % 10) as char
    ensures n < 10 ==> |Decimal(n)| == 1
    ensures n >= 10 ==> |Decimal(n)| >= 2 && Decimal(n)[..|Decimal(n)| - 1] == Decimal(n / 10)
  {
    if n >= 10 {
      LastDigit(n / 10);
    }
  }

  lemma {:induction false} DecimalInjective(m: nat, n: nat)
    ensures Decimal(m) == Decimal(n) ==> m == n
  {
    LastDigit(m);
    LastDigit(n);
    if m >= 10 && n >= 10 {
      DecimalInjective(m / 10, n / 10);
    }
  }

  /** Temporary keys are distinct from one another and from every hashed key. */
  lemma TempKeysDistinct(a: nat, b: nat, keyOf: KeyOf, identity: Identity, date: int)
    requires Hexadecimal(keyOf)
    ensures TempKey(a) == TempKey(b) ==> a == b
    ensures TempKey(a) != keyOf(identity, date)
  {
    DecimalInjective(a, b);
    assert Decimal(a) == TempKey(a)[|TEMP_PREFIX|..];
    assert Decimal(b) == TempKey(b)[|TEMP_PREFIX|..];
    assert TempKey(a)[4] == '-';
    assert |keyOf(identity, date)| > 4 ==> HexDigit(keyOf(identity, date)[4]);
  }

  // ----- rows -----

  /** What the repair never changes about an event. */
  datatype Event = Event(document: int, identity: Identity)

  /** The two tables the repair rewrites, with their date and key columns, and the metrics it deletes. */
  datatype Database = Database(
    events: map<nat, Event>, eventDates: map<nat, int>, keys: map<nat, string>,
    planDocuments: map<nat, int>, planDates: map<nat, int>,
    metrics: map<nat, nat>)

  ghost predicate WellFormed(db: Database) {
    db.eventDates.Keys == db.events.Keys && db.keys.Keys == db.events.Keys && db.planDates.Keys == db.planDocuments.Keys
  }

  ghost predicate KeysUnique(keys: map<nat, string>) {
    forall a, b :: a in keys && b in keys && keys[a] == keys[b] ==> a == b
  }

  /** `documentDates` says on which date the events of a document belong. */
  predicate Affected(db: Database, documentDates: map<int, int>, id: nat)
    requires id in db.events
  {
    db.events[id].document in documentDates
  }

  function FinalDate(db: Database, documentDates: map<int, int>, id: nat): int
    requires id in db.events && id in db.eventDates
  {
    if Affected(db, documentDates, id) then documentDates[db.events[id].document] else db.eventDates[id]
  }

  function FinalKey(db: Database, documentDates: map<int, int>, keyOf: KeyOf, id: nat): string
    requires id in db.events && id in db.eventDates
  {
    keyOf(db.events[id].identity, FinalDate(db, documentDates, id))
  }

  predicate DateChanges(db: Database, documentDates: map<int, int>, id: nat)
    requires id in db.events && id in db.eventDates
  {
    Affected(db, documentDates, id) && db.eventDates[id] != documentDates[db.events[id].document]
  }

  predicate NeedsUpdate(db: Database, documentDates: map<int, int>, keyOf: KeyOf, id: nat)
    requires id in db.events && id in db.eventDates && id in db.keys
  {
    Affected(db, documentDates, id)
    && (DateChanges(db, documentDates, id) || db.keys[id] != FinalKey(db, documentDates, keyOf, id))
  }

  predicate PlanNeedsUpdate(db: Database, documentDates: map<int, int>, id: nat)
    requires id in db.planDocuments && id in db.planDates
  {
    db.planDocuments[id] in documentDates && db.planDates[id] != documentDates[db.planDocuments[id]]
  }

  // ----- the plan -----

  datatype EventUpdate = EventUpdate(id: nat, newDate: int, newKey: string)

  datatype PlanUpdate = PlanUpdate(id: nat, newDate: int)

  datatype RepairPlan = RepairPlan(planUpdates: seq<PlanUpdate>, eventUpdates: seq<EventUpdate>,
      evaluationIds: seq<nat>)

  function Ids(updates: seq<EventUpdate>): seq<nat> {
    seq(|updates|, i requires 0 <= i < |updates| => updates[i].id)
  }

  function PlanIds(updates: seq<PlanUpdate>): seq<nat> {
    seq(|updates|, i requires 0 <= i < |updates| => updates[i].id)
  }

  ghost predicate EventsPlanned(updates: seq<EventUpdate>, db: Database, documentDates: map<int, int>, keyOf: KeyOf)
    requires WellFormed(db)
  {
    && StrictlyAscending(Ids(updates))
    && (forall id: nat :: id in Ids(updates) <==> id in db.events && NeedsUpdate(db, documentDates, keyOf, id))
    && (forall i :: 0 <= i < |updates| ==>
          && updates[i].id in db.events
          && updates[i] == EventUpdate(updates[i].id, FinalDate(db, documentDates, updates[i].id),
             FinalKey(db, documentDates, keyOf, updates[i].id)))
  }

  ghost predicate CandidatesPlanned(updates: seq<PlanUpdate>, db: Database, documentDates: map<int, int>)
    requires WellFormed(db)
  {
    && StrictlyAscending(PlanIds(updates))
    && (forall id: nat :: id in PlanIds(updates) <==> id in db.planDocuments && PlanNeedsUpdate(db, documentDates, id))
    && (forall i :: 0 <= i < |updates| ==>
          updates[i].id in db.planDocuments && db.planDocuments[updates[i].id] in documentDates
          && updates[i].newDate == documentDates[db.planDocuments[updates[i].id]])
  }

  ghost predicate EvaluationsPlanned(ids: seq<nat>, db: Database, documentDates: map<int, int>)
    requires WellFormed(db)
  {
    StrictlyAscending(ids) && forall id :: id in ids <==> id in db.events && DateChanges(db, documentDates, id)
  }

  /** The plan names every row that differs from what its document says, once, in id order. */
  ghost predicate IsPlan(plan: RepairPlan, db: Database, documentDates: map<int, int>, keyOf: KeyOf)
    requires WellFormed(db)
  {
    && CandidatesPlanned(plan.planUpdates, db, documentDates)
    && EventsPlanned(plan.eventUpdates, db, documentDates, keyOf)
    && EvaluationsPlanned(plan.evaluationIds, db, documentDates)
  }

  ghost predicate Collide(db: Database, documentDates: map<int, int>, keyOf: KeyOf, a: nat, b: nat) {
    && a in db.events && b in db.events && a in db.eventDates && b in db.eventDates && a != b
    && FinalKey(db, documentDates, keyOf, a) == FinalKey(db, documentDates, keyOf, b)
  }

  /** Two events would end on the same key; nothing is even looked at without documents to repair. */
  ghost predicate Collision(db: Database, documentDates: map<int, int>, keyOf: KeyOf) {
    documentDates != map[] && exists a, b :: Collide(db, documentDates, keyOf, a, b)
  }

  // ----- the repaired database -----

  ghost function Repaired(db: Database, documentDates: map<int, int>, keyOf: KeyOf): Database
    requires WellFormed(db)
  {
    db.(eventDates := map id | id in db.eventDates :: FinalDate(db, documentDates, id),
        keys := map id | id in db.keys ::
            if Affected(db, documentDates, id) then FinalKey(db, documentDates, keyOf, id) else db.keys[id],
        planDates := map id | id in db.planDates ::
          if db.planDocuments[id] in documentDates then documentDates[db.planDocuments[id]] else db.planDates[id],
        metrics := map m | m in db.metrics
            && !(db.metrics[m] in db.events && DateChanges(db, documentDates, db.metrics[m])) :: db.metrics[m])
  }

  /** Every affected event is at its expected date under the key of that date. */
  lemma RepairedRows(db: Database, documentDates: map<int, int>, keyOf: KeyOf, id: nat)
    requires WellFormed(db) && id in db.events
    ensures var after := Repaired(db, documentDates, keyOf);
            && WellFormed(after)
            && FinalDate(after, documentDates, id) == FinalDate(db, documentDates, id) == after.eventDates[id]
            && FinalKey(after, documentDates, keyOf, id) == FinalKey(db, documentDates, keyOf, id)
            && (Affected(db, documentDates, id) ==>
                  after.eventDates[id] == documentDates[db.events[id].document]
                  && after.keys[id] == keyOf(db.events[id].identity, after.eventDates[id]))
            && (!Affected(db, documentDates, id) ==>
               after.eventDates[id] == db.eventDates[id] && after.keys[id] == db.keys[id])
  {
  }

  /** The date that the listed documents give to an event, or the one it has. */
  function DateDue(db: Database, documentDates: map<int, int>, id: nat): int
    requires id in db.events && id in db.eventDates
  {
    var document := db.events[id].document;
    if document in documentDates then documentDates[document] else db.eventDates[id]
  }

  /**
   The repaired tables, row by row: events of listed documents have the listed date and the key
   hashed with it, candidate plans of listed documents the listed date, and exactly the metrics of
   events whose date was another one are gone.
   */
  lemma RepairedTables(db: Database, documentDates: map<int, int>, keyOf: KeyOf)
    requires WellFormed(db)
    ensures var after := Repaired(db, documentDates, keyOf);
            && after.events == db.events && after.planDocuments == db.planDocuments
            && after.eventDates.Keys == db.eventDates.Keys && after.keys.Keys == db.keys.Keys
            && (forall id :: id in db.events ==>
                  && after.eventDates[id] == DateDue(db, documentDates, id)
                  && after.keys[id] == if db.events[id].document in documentDates
                                       then keyOf(db.events[id].identity, documentDates[db.events[id].document])
                                       else db.keys[id])
            && after.planDates.Keys == db.planDates.Keys
            && (forall id :: id in db.planDates ==>
                  after.planDates[id] == if db.planDocuments[id] in documentDates
                                         then documentDates[db.planDocuments[id]] else db.planDates[id])
            && (forall m :: m in after.metrics <==>
                  && m in db.metrics
                  && (db.metrics[m] in db.events ==>
                        DateDue(db, documentDates, db.metrics[m]) == db.eventDates[db.metrics[m]]))
            && (forall m :: m in after.metrics ==> after.metrics[m] == db.metrics[m])
  {
  }

  /** What a plan names: rows of listed documents with another date or, for events, another key. */
  lemma PlannedExactly(plan: RepairPlan, db: Database, documentDates: map<int, int>, keyOf: KeyOf)
    requires WellFormed(db) && IsPlan(plan, db, documentDates, keyOf)
    ensures forall id: nat :: id in Ids(plan.eventUpdates) <==>
              && id in db.events && db.events[id].document in documentDates
              && (db.eventDates[id] != documentDates[db.events[id].document]
                  || db.keys[id] != keyOf(db.events[id].identity, documentDates[db.events[id].document]))
    ensures forall id: nat :: id in PlanIds(plan.planUpdates) <==>
              && id in db.planDocuments && db.planDocuments[id] in documentDates
              && db.planDates[id] != documentDates[db.planDocuments[id]]
    ensures forall id: nat :: id in plan.evaluationIds <==>
              && id in db.events && db.events[id].document in documentDates
              && db.eventDates[id] != documentDates[db.events[id].document]
    ensures forall i :: 0 <= i < |plan.eventUpdates| ==>
              var update := plan.eventUpdates[i];
              && update.id in db.events && update.newDate == DateDue(db, documentDates, update.id)
              && update.newKey == keyOf(db.events[update.id].identity, update.newDate)
  {
  }

  ghost predicate Meet(db: Database, documentDates: map<int, int>, keyOf: KeyOf, a: nat, b: nat)
    requires WellFormed(db) && a in db.events && b in db.events
  {
    a != b && keyOf(db.events[a].identity, DateDue(db, documentDates, a))
              == keyOf(db.events[b].identity, DateDue(db, documentDates, b))
  }

  /** A collision: documents are listed, and two events hash to one key at the dates they are due on. */
  lemma CollidesExactly(db: Database, documentDates: map<int, int>, keyOf: KeyOf)
    requires WellFormed(db)
    ensures Collision(db, documentDates, keyOf) <==>
              documentDates != map[]
              && exists a, b :: a in db.events && b in db.events && Meet(db, documentDates, keyOf, a, b)
  {
    forall a, b | a in db.events && b in db.events
      ensures Meet(db, documentDates, keyOf, a, b) <==> Collide(db, documentDates, keyOf, a, b)
    {
    }
  }

  ghost predicate NothingToRepair(db: Database, documentDates: map<int, int>, keyOf: KeyOf)
    requires WellFormed(db)
  {
    && (forall id :: id in db.events ==>
       !NeedsUpdate(db, documentDates, keyOf, id) && !DateChanges(db, documentDates, id))
    && (forall id :: id in db.planDocuments ==> !PlanNeedsUpdate(db, documentDates, id))
  }

  lemma RepairedNeedsNothing(db: Database, documentDates: map<int, int>, keyOf: KeyOf)
    requires WellFormed(db)
    ensures WellFormed(Repaired(db, documentDates, keyOf))
    ensures NothingToRepair(Repaired(db, documentDates, keyOf), documentDates, keyOf)
  {
    forall id: nat | id in db.events
      ensures !NeedsUpdate(Repaired(db, documentDates, keyOf), documentDates, keyOf, id)
      ensures !DateChanges(Repaired(db, documentDates, keyOf), documentDates, id)
    {
      RepairedRows(db, documentDates, keyOf, id);
    }
  }

  lemma OnlyTheEmptyPlan(plan: RepairPlan, db: Database, documentDates: map<int, int>, keyOf: KeyOf)
    requires WellFormed(db) && NothingToRepair(db, documentDates, keyOf)
    ensures IsPlan(plan, db, documentDates, keyOf) <==> plan == RepairPlan([], [], [])
  {
    assert plan.eventUpdates != [] ==> Ids(plan.eventUpdates)[0] in Ids(plan.eventUpdates);
    assert plan.planUpdates != [] ==> PlanIds(plan.planUpdates)[0] in PlanIds(plan.planUpdates);
    assert plan.evaluationIds != [] ==> plan.evaluationIds[0] in plan.evaluationIds;
  }

  lemma CollisionsAgree(db: Database, documentDates: map<int, int>, keyOf: KeyOf)
    requires WellFormed(db)
    ensures Collision(Repaired(db, documentDates, keyOf), documentDates, keyOf) <==> Collision(db, documentDates, keyOf)
  {
    var after := Repaired(db, documentDates, keyOf);
    forall id: nat | id in db.events
      ensures FinalKey(after, documentDates, keyOf, id) == FinalKey(db, documentDates, keyOf, id)
    {
      RepairedRows(db, documentDates, keyOf, id);
    }
    forall a: nat, b: nat ensures Collide(after, documentDates, keyOf, a, b) <==>
        Collide(db, documentDates, keyOf, a, b) {
    }
  }

  /** Planning again on the repaired database finds nothing, and no collision that was not there before. */
  lemma RepairIsFixpoint(db: Database, documentDates: map<int, int>, keyOf: KeyOf, plan: RepairPlan)
    requires WellFormed(db)
    ensures var after := Repaired(db, documentDates, keyOf);
            && WellFormed(after)
            && (IsPlan(plan, after, documentDates, keyOf) <==> plan == RepairPlan([], [], []))
            && (Collision(after, documentDates, keyOf) <==> Collision(db, documentDates, keyOf))
  {
    hide Repaired, IsPlan, NothingToRepair, Collision, WellFormed;
    RepairedNeedsNothing(db, documentDates, keyOf);
    OnlyTheEmptyPlan(plan, Repaired(db, documentDates, keyOf), documentDates, keyOf);
    CollisionsAgree(db, documentDates, keyOf);
  }

  /** If rows outside the plan store their recomputed key, no final key can meet a stored one. */
  lemma FreshKeysNeverClash(db: Database, documentDates: map<int, int>, keyOf: KeyOf, a: nat, b: nat)
    requires WellFormed(db) && !Collision(db, documentDates, keyOf)
    requires a in db.events && NeedsUpdate(db, documentDates, keyOf, a)
    requires b in db.events && !NeedsUpdate(db, documentDates, keyOf, b)
    requires !Affected(db, documentDates, b) ==> db.keys[b] == keyOf(db.events[b].identity, db.eventDates[b])
    ensures db.keys[b] != FinalKey(db, documentDates, keyOf, a)
  {
    assert !Collide(db, documentDates, keyOf, a, b);
  }
}
