/**
 The repair transaction on a table with a unique key column. An UPDATE changes its rows one after
 another, and the index refuses a key that another row holds at that moment; so the keys are
 distinct after every single row write, and what is to be proved is that no write is refused.
 */
module RepairStore {
  import opened Outcomes
  import opened Sorting
  import opened RepairPlans
  import opened RepairDates

  // ----- key statements -----

  /** CASE id WHEN ... THEN ...: the first matching branch. */
  function CaseOf(updates: seq<EventUpdate>): map<nat, string> {
    if updates == [] then map[] else CaseOf(updates[1..])[updates[0].id := updates[0].newKey]
  }

  lemma {:induction false} CaseOfRow(updates: seq<EventUpdate>, i: nat)
    requires NoRepeats(Ids(updates)) && i < |updates|
    ensures updates[i].id in CaseOf(updates) && CaseOf(updates)[updates[i].id] == updates[i].newKey
  {
    assert Ids(updates)[1..] == Ids(updates[1..]);
    if i > 0 {
      CaseOfRow(updates[1..], i - 1);
      assert Ids(updates)[0] != Ids(updates)[i];
    }
  }

  /** CONCAT of the prefix and the row's own id, for the listed rows. */
  function TempKeys(updates: seq<EventUpdate>): map<nat, string> {
    map i | 0 <= i < |updates| :: updates[i].id := TempKey(updates[i].id)
  }

  /** The rows in `done` hold their target, the others what they held before. */
  ghost predicate Written(after: map<nat, string>, before: map<nat, string>, target: map<nat, string>, done: seq<nat>) {
    && after.Keys == before.Keys
    && forall id :: id in before ==> after[id] == if id in done && id in target then target[id] else before[id]
  }

  /** Some row's new key is held by another row before the statement, or given to another row by it. */
  ghost predicate Clash(keys: map<nat, string>, target: map<nat, string>, ids: seq<nat>) {
    exists a, b :: a in target && a in ids && b in keys && a != b
                   && (keys[b] == target[a] || (b in ids && b in target && target[b] == target[a]))
  }

  /** The index entry is taken by another row. */
  predicate Held(keys: map<nat, string>, id: nat, key: string) {
    exists other :: other in keys && other != id && keys[other] == key
  }

  lemma OneRow(before: map<nat, string>, mid: map<nat, string>, after: map<nat, string>, target: map<nat, string>,
               ids: seq<nat>, i: nat)
    requires i < |ids| && ids[i] in target && ids[i] in mid
    requires Written(mid, before, target, ids[..i]) && after == mid[ids[i] := target[ids[i]]]
    ensures Written(after, before, target, ids[..i + 1])
  {
    assert ids[..i + 1] == ids[..i] + [ids[i]];
  }

  lemma Refused(before: map<nat, string>, mid: map<nat, string>, target: map<nat, string>, ids: seq<nat>, i: nat)
    requires i < |ids| && ids[i] in target && ids[i] in mid
    requires Written(mid, before, target, ids[..i]) && Held(mid, ids[i], target[ids[i]])
    ensures Clash(before, target, ids)
  {
    var other :| other in mid && other != ids[i] && mid[other] == target[ids[i]];
    assert before[other] == target[ids[i]] || (other in ids && other in target && target[other] == target[ids[i]]);
  }

  /** How many of the listed rows a statement changes. */
  function Changed(keys: map<nat, string>, target: map<nat, string>, ids: seq<nat>): nat {
    if ids == [] then 0
    else
      var last := ids[|ids| - 1];
      var changes := last in keys && last in target && keys[last] != target[last];
      Changed(keys, target, ids[..|ids| - 1]) + if changes then 1 else 0
  }

  lemma {:induction false} AllChanged(keys: map<nat, string>, target: map<nat, string>, ids: seq<nat>)
    ensures Changed(keys, target, ids) <= |ids|
    ensures Changed(keys, target, ids) == |ids| <==> forall id :: id in ids ==>
              id in keys && id in target && keys[id] != target[id]
  {
    if ids != [] {
      AllChanged(keys, target, ids[..|ids| - 1]);
      assert ids == ids[..|ids| - 1] + [ids[|ids| - 1]];
    }
  }

  lemma NotYet(before: map<nat, string>, mid: map<nat, string>, target: map<nat, string>, ids: seq<nat>, i: nat)
    requires i < |ids| && NoRepeats(ids) && Written(mid, before, target, ids[..i]) && ids[i] in before
    ensures ids[i] in mid && mid[ids[i]] == before[ids[i]]
  {
  }

  /** One row of an UPDATE: refused if another row holds the key. */
  method SetKey(keys: map<nat, string>, id: nat, key: string) returns (after: Option<map<nat, string>>)
    requires id in keys && KeysUnique(keys)
    ensures after.None? <==> Held(keys, id, key)
    ensures after.Some? ==> after.value == keys[id := key] && KeysUnique(after.value)
  {
    if Held(keys, id, key) {
      return None;
    }
    return Some(keys[id := key]);
  }

  /** One UPDATE of the key column, its rows in the given order; it reports how many rows it changed. */
  method UpdateKeys(keys: map<nat, string>, target: map<nat, string>, ids: seq<nat>)
    returns (r: Option<(map<nat, string>, nat)>)
    requires KeysUnique(keys) && NoRepeats(ids)
    requires forall id :: id in ids ==> id in keys && id in target
    ensures r.Some? ==> KeysUnique(r.value.0) && Written(r.value.0, keys, target, ids)
    ensures r.Some? ==> r.value.1 == Changed(keys, target, ids)
    ensures r.None? ==> Clash(keys, target, ids)
  {
    hide KeysUnique, Clash, Held;
    var after := keys;
    var count := 0;
    for i := 0 to |ids|
      invariant KeysUnique(after) && Written(after, keys, target, ids[..i])
      invariant count == Changed(keys, target, ids[..i])
    {
      NotYet(keys, after, target, ids, i);
      assert ids[..i + 1][..i] == ids[..i];
      if after[ids[i]] != target[ids[i]] {
        count := count + 1;
      }
      var row := SetKey(after, ids[i], target[ids[i]]);
      if row.None? {
        Refused(keys, after, target, ids, i);
        return None;
      }
      OneRow(keys, after, row.value, target, ids, i);
      after := row.value;
    }
    assert ids[..|ids|] == ids;
    return Some((after, count));
  }

  // ----- a phase: one statement for each batch -----

  datatype Phase = Parking | Finishing

  /** The right-hand side of the phase's UPDATE over these rows. */
  function Target(phase: Phase, updates: seq<EventUpdate>): map<nat, string> {
    if phase == Parking then TempKeys(updates) else CaseOf(updates)
  }

  lemma TargetRow(phase: Phase, updates: seq<EventUpdate>, i: nat)
    requires NoRepeats(Ids(updates)) && i < |updates|
    ensures var target := Target(phase, updates);
            && updates[i].id in target
            && target[updates[i].id] == if phase == Parking then TempKey(updates[i].id) else updates[i].newKey
  {
    CaseOfRow(updates, i);
  }

  /** A batch assigns to its rows what the whole list assigns to them. */
  lemma BatchTarget(phase: Phase, updates: seq<EventUpdate>, start: nat, end: nat, id: nat)
    requires NoRepeats(Ids(updates)) && start <= end <= |updates| && id in Ids(updates[start..end])
    ensures NoRepeats(Ids(updates[start..end]))
    ensures id in Ids(updates) && id in Target(phase, updates) && id in Target(phase, updates[start..end])
    ensures Target(phase, updates)[id] == Target(phase, updates[start..end])[id]
  {
    hide Target;
    var i :| 0 <= i < end - start && updates[start..end][i].id == id;
    assert Ids(updates[start..end]) == Ids(updates)[start..end];
    assert Ids(updates)[start + i] == id;
    TargetRow(phase, updates, start + i);
    TargetRow(phase, updates[start..end], i);
  }

  lemma {:induction false} BatchAt<T>(batches: seq<seq<T>>, i: nat)
    requires i < |batches|
    ensures var start := |Flatten(batches[..i])|;
            && start + |batches[i]| <= |Flatten(batches)|
            && Flatten(batches)[..start] == Flatten(batches[..i])
            && Flatten(batches)[start..start + |batches[i]|] == batches[i]
            && Flatten(batches)[..start + |batches[i]|] == Flatten(batches[..i + 1])
  {
    var last := |batches| - 1;
    if i < last {
      BatchAt(batches[..last], i);
      assert batches[..last][..i] == batches[..i] && batches[..last][..i + 1] == batches[..i + 1];
    } else {
      assert batches[..i + 1] == batches;
    }
  }

  /** One more statement after the rows in `done`. */
  lemma Compose(keys: map<nat, string>, mid: map<nat, string>, after: map<nat, string>,
                target: map<nat, string>, part: map<nat, string>, done: seq<nat>, ids: seq<nat>)
    requires forall id :: id in ids ==> id in part && id in target && part[id] == target[id]
    requires Written(mid, keys, target, done) && Written(after, mid, part, ids)
    ensures Written(after, keys, target, done + ids)
  {
  }

  lemma ClashLater(keys: map<nat, string>, mid: map<nat, string>, target: map<nat, string>, part: map<nat, string>,
                   done: seq<nat>, ids: seq<nat>, all: seq<nat>)
    requires forall id :: id in ids ==> id in all && id in part && id in target && part[id] == target[id]
    requires forall id :: id in done ==> id in all && id in target
    requires Written(mid, keys, target, done) && Clash(mid, part, ids)
    ensures Clash(keys, target, all)
  {
    var a, b :| a in part && a in ids && b in mid && a != b
        && (mid[b] == part[a] || (b in ids && b in part && part[b] == part[a]));
    assert a in target && a in all && b in keys;
    assert keys[b] == target[a] || (b in all && b in target && target[b] == target[a]);
  }

  /** A row already holding its new key is not counted as changed. */
  ghost predicate AlreadyHeld(keys: map<nat, string>, target: map<nat, string>, ids: seq<nat>) {
    exists id :: id in ids && id in keys && id in target && keys[id] == target[id]
  }

  lemma HeldLater(keys: map<nat, string>, mid: map<nat, string>, target: map<nat, string>, part: map<nat, string>,
                  done: seq<nat>, ids: seq<nat>, all: seq<nat>)
    requires forall id :: id in ids ==>
               id in all && id in mid && id in part && id in target && part[id] == target[id] && id !in done
    requires Written(mid, keys, target, done) && Changed(mid, part, ids) != |ids|
    ensures AlreadyHeld(keys, target, all)
  {
    AllChanged(mid, part, ids);
    var id :| id in ids && mid[id] == part[id];
    assert keys[id] == target[id];
  }

  /** All batches of a phase; an error if the index refuses a row or a row was not changed. */
  method KeyPhase(phase: Phase, keys: map<nat, string>, updates: seq<EventUpdate>) returns (r: Option<map<nat, string>>)
    requires KeysUnique(keys) && NoRepeats(Ids(updates)) && forall id :: id in Ids(updates) ==> id in keys
    ensures r.Some? ==> KeysUnique(r.value) && Written(r.value, keys, Target(phase, updates), Ids(updates))
    ensures r.None? ==> (Clash(keys, Target(phase, updates), Ids(updates))
                         || AlreadyHeld(keys, Target(phase, updates), Ids(updates)))
  {
    hide KeysUnique, Clash, AlreadyHeld, Target, Ids, NoRepeats, Written;
    var batches := Batches(updates, BATCH_SIZE);
    var after := keys;
    ghost var target, ids := Target(phase, updates), Ids(updates);
    ghost var done := 0;
    Started(keys, target, updates);
    for i := 0 to |batches|
      invariant done == |Flatten(batches[..i])| <= |updates|
      invariant KeysUnique(after) && after.Keys == keys.Keys
      invariant Written(after, keys, target, Ids(updates[..done]))
    {
      BatchAt(batches, i);
      var batch := batches[i];
      ghost var end := done + |batch|;
      assert batch == updates[done..end];
      Slices(phase, updates, done, end);
      var statement := UpdateKeys(after, Target(phase, batch), Ids(batch));
      if statement.None? {
        ClashLater(keys, after, target, Target(phase, batch), Ids(updates[..done]), Ids(batch), ids);
        return None;
      }
      if statement.value.1 != |batch| {
        HeldLater(keys, after, target, Target(phase, batch), Ids(updates[..done]), Ids(batch), ids);
        return None;
      }
      Compose(keys, after, statement.value.0, target, Target(phase, batch), Ids(updates[..done]), Ids(batch));
      WrittenKeys(statement.value.0, after, Target(phase, batch), Ids(batch));
      after := statement.value.0;
      done := end;
    }
    assert batches[..|batches|] == batches && updates[..done] == updates;
    return Some(after);
  }

  lemma Started(keys: map<nat, string>, target: map<nat, string>, updates: seq<EventUpdate>)
    ensures Written(keys, keys, target, Ids(updates[..0]))
  {
  }

  lemma WrittenKeys(after: map<nat, string>, before: map<nat, string>, target: map<nat, string>, done: seq<nat>)
    requires Written(after, before, target, done)
    ensures after.Keys == before.Keys
  {
  }

  lemma Slices(phase: Phase, updates: seq<EventUpdate>, start: nat, end: nat)
    requires NoRepeats(Ids(updates)) && start <= end <= |updates|
    ensures NoRepeats(Ids(updates[start..end])) && |Ids(updates[start..end])| == end - start
    ensures Ids(updates[..start]) + Ids(updates[start..end]) == Ids(updates[..end])
    ensures forall id :: id in Ids(updates[start..end]) ==>
              && id in Ids(updates) && id !in Ids(updates[..start])
              && id in Target(phase, updates) && id in Target(phase, updates[start..end])
              && Target(phase, updates)[id] == Target(phase, updates[start..end])[id]
    ensures forall id :: id in Ids(updates[..start]) ==> id in Ids(updates) && id in Target(phase, updates)
  {
    assert Ids(updates[start..end]) == Ids(updates)[start..end];
    assert Ids(updates[..start]) == Ids(updates)[..start];
    hide Target;
    forall id: nat | id in Ids(updates[start..end])
      ensures id in Ids(updates) && id in Target(phase, updates) && id in Target(phase, updates[start..end])
      ensures Target(phase, updates)[id] == Target(phase, updates[start..end])[id]
    {
      BatchTarget(phase, updates, start, end, id);
    }
    forall id: nat | id in Ids(updates[..start]) ensures id in Ids(updates) && id in Target(phase, updates) {
      assert updates[0..start] == updates[..start];
      BatchTarget(phase, updates, 0, start, id);
    }
  }
}
