/** The four phases of query-cache invalidation, as loops over the candidate keys. */
module InvalidationPhases {
  import opened WhereParser
  import opened WhereMatch
  import opened QueryDependencies
  import opened CacheIndexing
  import opened Coherence
  import opened Invalidation

  type Queries = map<CacheKey, Entry>

  /** The context describes its keys by their own parameters. */
  ghost predicate ContextOk(ctx: InvalidationContext) {
    forall k :: k in ctx.cacheKeys ==>
      && k in ctx.keyToParams && ctx.keyToParams[k] == k.params
      && k in ctx.keyToDeps && ctx.keyToDeps[k] == BuildQueryDependencies(k.params, k.kind.ListKey?)
      && k in ctx.keyToPredicate && ctx.keyToPredicate[k] == ParseQuery(k.params)
  }

  ghost function WithTask(w: World, x: Write, keys: set<CacheKey>): map<CacheKey, Task> {
    map k | k in keys && TaskFor(w, x, k).Update? :: TaskFor(w, x, k)
  }

  ghost function Failing(w: World, x: Write, keys: set<CacheKey>): set<CacheKey> {
    set k | k in keys && TaskFor(w, x, k).DeleteNow?
  }

  /** One candidate: match the current row, then the original one, then decide. */
  method GatherOne(w: World, x: Write, ctx: InvalidationContext, k: CacheKey) returns (task: Task)
    requires ContextOk(ctx) && k in ctx.cacheKeys
    ensures task == TaskFor(w, x, k)
  {
    hide ParseQuery, BuildQueryDependencies, Match;
    var q, deps, predicate_ := ctx.keyToParams[k], ctx.keyToDeps[k], ctx.keyToPredicate[k];
    var current := MatchPredicate(w.info.goFields, predicate_, q.args, x.model);
    var prior := if x.isCreate || x.original.None? then Verdict(false)
                 else MatchPredicate(w.info.goFields, predicate_, q.args, x.original.value);
    task := GatherTask(w, x, k.kind.ListKey?, deps, current, prior);
  }

  /** Phase 1: undecidable keys are deleted at once, the others become tasks. */
  method GatherTasks(w: World, x: Write, ctx: InvalidationContext, queries: Queries)
    returns (tasks: map<CacheKey, Task>, rest: Queries)
    requires ContextOk(ctx)
    ensures tasks == WithTask(w, x, ctx.cacheKeys)
    ensures rest == queries - Failing(w, x, ctx.cacheKeys)
  {
    hide TaskFor, ContextOk;
    tasks, rest := map[], queries;
    var todo := ctx.cacheKeys;
    while todo != {}
      invariant todo <= ctx.cacheKeys
      invariant tasks == WithTask(w, x, ctx.cacheKeys - todo)
      invariant rest == queries - Failing(w, x, ctx.cacheKeys - todo)
    {
      var k :| k in todo;
      var task := GatherOne(w, x, ctx, k);
      TasksGrow(w, x, ctx.cacheKeys - todo, k);
      assert ctx.cacheKeys - (todo - {k}) == ctx.cacheKeys - todo + {k};
      if task.DeleteNow? { rest := rest - {k}; }
      if task.Update? { tasks := tasks[k := task]; }
      todo := todo - {k};
    }
    assert ctx.cacheKeys - {} == ctx.cacheKeys;
  }

  lemma TasksGrow(w: World, x: Write, keys: set<CacheKey>, k: CacheKey)
    ensures WithTask(w, x, keys + {k}) ==
      if TaskFor(w, x, k).Update? then WithTask(w, x, keys)[k := TaskFor(w, x, k)] else WithTask(w, x, keys)
    ensures Failing(w, x, keys + {k}) == if TaskFor(w, x, k).DeleteNow? then Failing(w, x, keys) + {k}
      else Failing(w, x, keys)
  {
    hide TaskFor;
  }

  /** Phase 2: the ids cached for each list with a task. */
  method ReadLists(tasks: map<CacheKey, Task>, queries: Queries) returns (lists: map<CacheKey, seq<Id>>)
    ensures lists == map k | k in tasks && k.kind.ListKey? :: CachedIds(queries, k)
  {
    hide CachedIds;
    lists := map[];
    var todo := tasks.Keys;
    while todo != {}
      invariant todo <= tasks.Keys
      invariant lists == map k | k in tasks && k !in todo && k.kind.ListKey? :: CachedIds(queries, k)
    {
      var k :| k in todo;
      if k.kind.ListKey? { lists := lists[k := CachedIds(queries, k)]; }
      todo := todo - {k};
    }
  }

  /** Phase 3: the keys that have to go. */
  method ComputeWrites(tasks: map<CacheKey, Task>, lists: map<CacheKey, seq<Id>>, id: Id)
    returns (writes: set<CacheKey>)
    requires forall k :: k in tasks ==> tasks[k].Update?
    requires lists.Keys == set k | k in tasks && k.kind.ListKey?
    ensures writes == set k | k in tasks && Deletes(tasks[k], k.kind.ListKey?, id, if k in lists then lists[k] else [])
  {
    writes := {};
    var todo := tasks.Keys;
    while todo != {}
      invariant todo <= tasks.Keys
      invariant writes == set k | k in tasks && k !in todo &&
        Deletes(tasks[k], k.kind.ListKey?, id, if k in lists then lists[k] else [])
    {
      var k :| k in todo;
      var task := tasks[k];
      if k.kind.ListKey? {
        var changed := if task.needsAdd then id !in lists[k] else task.needsRemove;
        if changed { writes := writes + {k}; }
      } else if task.needsAdd || task.needsRemove {
        writes := writes + {k};
      }
      todo := todo - {k};
    }
  }

  /** Phase 4: both lists and counts are invalidated, never patched. */
  method DeleteKeys(queries: Queries, writes: set<CacheKey>) returns (rest: Queries)
    ensures rest == queries - writes
  {
    rest := queries;
    var todo := writes;
    while todo != {}
      invariant todo <= writes && rest == queries - (writes - todo)
    {
      var k :| k in todo;
      rest := rest - {k};
      todo := todo - {k};
    }
  }

  /** `invalidateAffectedQueryCaches`: the entries that remain are those not `Dropped`. */
  method InvalidateAffectedQueryCaches(w: World, index: CacheIndex, queries: Queries, x: Write) returns (rest: Queries)
    requires index.Valid() && RegistryOk(w, index.regs)
    ensures rest == queries - Dropped(w, index.regs, queries, x)
  {
    hide index.Valid, Projects, TaskFor, Selected, WithTask, Failing, Deletes, CandidateColumns, WfQuery, DepsOf;
    var id := GetID(x.model);
    if id == NO_ID { return queries; }
    var candidates := CandidateColumns(w, x);
    var ctx := index.GetInvalidationContext(w.info.tableName, x.model, candidates);
    ContextIsOk(w, index.regs, ctx, candidates);
    var tasks, kept := GatherTasks(w, x, ctx, queries);
    TasksAre(w, x, ctx.cacheKeys);
    var lists := ReadLists(tasks, kept);
    var writes := ComputeWrites(tasks, lists, id);
    rest := DeleteKeys(kept, writes);
    PhasesDrop(w, index.regs, queries, x, ctx.cacheKeys, tasks, kept, lists, writes);
  }

  lemma ContextIsOk(w: World, regs: Registry, ctx: InvalidationContext, candidates: set<string>)
    requires RegistryOk(w, regs) && ctx.cacheKeys == SelectedKeys(regs, w.info.tableName, candidates)
    requires ctx.keyToParams == map k | k in ctx.cacheKeys && k in regs :: regs[k].params
    requires ctx.keyToDeps == map k | k in ctx.cacheKeys && k in regs :: DepsOf(k, regs[k])
    requires ctx.keyToPredicate == map k | k in ctx.cacheKeys && k in regs :: ParseQuery(regs[k].params)
    ensures ContextOk(ctx)
  {
    hide ParseQuery, BuildQueryDependencies, Selected, WfQuery;
  }

  lemma TasksAre(w: World, x: Write, keys: set<CacheKey>)
    ensures forall k :: k in WithTask(w, x, keys) ==> WithTask(w, x, keys)[k].Update?
  {
    hide TaskFor;
  }

  lemma PhasesDrop(w: World, regs: Registry, queries: Queries, x: Write, keys: set<CacheKey>,
          tasks: map<CacheKey, Task>, kept: Queries, lists: map<CacheKey, seq<Id>>, writes: set<CacheKey>)
    requires GetID(x.model) != NO_ID && keys == SelectedKeys(regs, w.info.tableName, CandidateColumns(w, x))
    requires tasks == WithTask(w, x, keys) && kept == queries - Failing(w, x, keys)
    requires lists == map k | k in tasks && k.kind.ListKey? :: CachedIds(kept, k)
    requires writes == set k | k in tasks &&
      Deletes(tasks[k], k.kind.ListKey?, GetID(x.model), if k in lists then lists[k] else [])
    ensures kept - writes == queries - Dropped(w, regs, queries, x)
  {
    hide TaskFor, SelectedKeys, CandidateColumns;
    forall k ensures k in Dropped(w, regs, queries, x) <==> k in Failing(w, x, keys) || k in writes {
      if k in keys && TaskFor(w, x, k).Update? {
        assert k in tasks && k !in Failing(w, x, keys);
        assert CachedIds(kept, k) == CachedIds(queries, k);
      }
    }
  }
}
