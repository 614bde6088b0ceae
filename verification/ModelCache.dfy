/** The batched, cached lookup by primary key. */
module ModelCache {
  import opened Values
  import opened Coherence

  const BY_ID_BATCH := 100

  /** What a table without caches answers. */
  function Restrict(t: Table, ids: seq<Id>): map<Id, Row> {
    map id | id in ids && id in t :: t[id]
  }

  /** What holds of a lookup of any state: only ids asked for are found. */
  predicate Within(result: map<Id, Row>, ids: seq<Id>) { forall id :: id in result ==> id in ids }

  /** Looks the ids up in the cache. A client that is not `noneAware` reports the NoneResult marker as an
      error, which counts as a miss. */
  method LookupCached(ghost t: Table, models: map<Id, Cached>, noneAware: bool, ids: seq<Id>)
    returns (found: map<Id, Row>, missing: seq<Id>)
    ensures Within(found, ids) && forall id :: id in missing ==> id in ids
    ensures ModelsOk(t, models) ==> forall id :: id in found ==> id in t && found[id] == t[id]
    ensures ModelsOk(t, models) ==> forall id :: id in ids && id in t && id !in missing ==> id in found
  {
    found, missing := map[], [];
    for i := 0 to |ids|
      invariant Within(found, ids[..i]) && forall id :: id in missing ==> id in ids[..i]
      invariant ModelsOk(t, models) ==> forall id :: id in found ==> id in t && found[id] == t[id]
      invariant ModelsOk(t, models) ==> forall id :: id in ids[..i] && id in t && id !in missing ==> id in found
    {
      var id := ids[i];
      assert ids[..i + 1] == ids[..i] + [id];
      assert id in models && ModelsOk(t, models) ==> ModelOk(t, id, models[id]);
      if id in models && models[id].Present? {
        found := found[id := models[id].row];
      } else if !(id in models && noneAware) {
        missing := missing + [id];
      }
    }
    assert ids[..|ids|] == ids;
  }

  /** One SELECT: rows found are returned and cached, the other ids of the batch get the marker. */
  method LoadBatch(t: Table, models: map<Id, Cached>, batch: seq<Id>, result: map<Id, Row>)
    returns (models': map<Id, Cached>, result': map<Id, Row>)
    ensures ModelsOk(t, models) ==> ModelsOk(t, models')
    ensures result' == result + Restrict(t, batch)
  {
    models', result' := models, result;
    var rows := Restrict(t, batch);
    var todo := rows.Keys;
    while todo != {}
      invariant todo <= rows.Keys && (ModelsOk(t, models) ==> ModelsOk(t, models'))
      invariant result' == result + (map id | id in rows && id !in todo :: rows[id])
    {
      var id :| id in todo;
      result' := result'[id := rows[id]];
      models' := models'[id := Present(rows[id])];
      todo := todo - {id};
    }
    for j := 0 to |batch|
      invariant ModelsOk(t, models) ==> ModelsOk(t, models')
    {
      if batch[j] !in rows { models' := models'[batch[j] := NoneResult]; }
    }
  }

  lemma IsRestriction(t: Table, ids: seq<Id>, result: map<Id, Row>)
    requires forall id :: id in result ==> id in ids && id in t && result[id] == t[id]
    requires forall id :: id in ids && id in t ==> id in result
    ensures result == Restrict(t, ids)
  {
  }

  /** `fetchModelsByIDsInternal`: from a right cache, exactly the restriction of the table to the ids,
      duplicates and batch boundaries included, and the cache stays right; from any cache, nothing but
      ids asked for. */
  method FetchModelsByIDs(t: Table, models: map<Id, Cached>, noneAware: bool, ids: seq<Id>)
    returns (models': map<Id, Cached>, result: map<Id, Row>)
    ensures Within(result, ids)
    ensures ModelsOk(t, models) ==> ModelsOk(t, models') && result == Restrict(t, ids)
  {
    ghost var right := ModelsOk(t, models);
    models' := models;
    var found, missing := LookupCached(t, models, noneAware, ids);
    result := found;
    var i := 0;
    while i < |missing|
      invariant 0 <= i && (right ==> ModelsOk(t, models')) && Within(result, ids)
      invariant right ==> forall id :: id in result ==> id in t && result[id] == t[id]
      invariant forall id :: id in found || (id in missing[..Min(i, |missing|)] && id in t) ==> id in result
    {
      hide ModelsOk;
      var end := Min(i + BY_ID_BATCH, |missing|);
      var batch := missing[i..end];
      assert missing[..end] == missing[..i] + batch;
      models', result := LoadBatch(t, models', batch, result);
      i := i + BY_ID_BATCH;
    }
    hide ModelsOk;
    assert missing[..Min(i, |missing|)] == missing;
    if right { IsRestriction(t, ids, result); }
  }

  function Min(a: int, b: int): int { if a < b then a else b }
}
