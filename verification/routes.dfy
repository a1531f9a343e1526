/**
 * The request handlers of `flask_pydanql_api/routes.py`: the
 * `extend_query_for` wrapper that resolves the endpoint and asks its
 * authorization hook for a constraint, and the `find`, `get`, `delete`,
 * `create` and `update` handlers over one collection of the storage
 * layer, with the projection of records onto an endpoint's visible names.
 */
module Routes {
  import opened Wrappers
  import opened Text
  import opened Values
  import opened Endpoints
  import opened FilterCompiler

  /** The registered endpoints, by slug. */
  type Tables = map<string, EndpointConfig>

  /** One collection of the storage layer: its records, by record slug. */
  type Store = map<string, Data>

  /** Paging and sorting as read from the query string, passed to storage untouched. */
  datatype Page = Page(offset: Option<int>, count: Option<int>, sort: Option<string>)

  /** The storage layer's `find_many(offset, count, sort, **filters)`, left abstract. */
  type FindMany = (Filters, Page) -> seq<Data>

  /** A redirect to the `get` route of a record. */
  datatype Redirect = RedirectToGet(table: string, entryId: string)

  const InternalServerError := "Internal Server Error"

  /**
   * `extend_query_for(op)`: 404 for an unknown table (before any hook
   * runs); otherwise the hook's dict when it returns one, and the empty
   * constraint when there is no hook or it returns anything else.
   */
  function ExtendQuery(tables: Tables, table: string, op: Operation): (r: Outcome<Pairs>)
    ensures r.Err? <==> table !in tables
    ensures table !in tables ==> r == Err(404, "There is no endpoint named: " + table, None)
    ensures r.Crash? <==> table in tables && tables[table].filter.Some? && tables[table].filter.value(op, table).Raised?
    ensures r.Done? && tables[table].filter.Some? && tables[table].filter.value(op, table).DictResult? ==>
      r.value == tables[table].filter.value(op, table).constraint
    ensures r.Done? && (tables[table].filter.None? || tables[table].filter.value(op, table).OtherResult?) ==>
      r.value == []
  {
    if table !in tables then Err(404, "There is no endpoint named: " + table, None)
    else
      match tables[table].filter
      case None => Done([])
      case Some(hook) =>
        match hook(op, table)
        case DictResult(constraint) => Done(constraint)
        case OtherResult => Done([])
        case Raised => Crash(HookRaised)
  }

  /**
   * The record as a response: its data fields that are visible, plus the
   * visible zero-argument methods called on it; a method wins over a
   * field of the same name, and visible names that are neither are omitted.
   */
  function Project(record: Data, accessors: map<string, Accessor>, visible: seq<string>): (r: Data)
    ensures forall k :: k in r <==> k in visible && (k in record || k in accessors)
    ensures forall k :: k in r && k in accessors ==> r[k] == accessors[k](record)
    ensures forall k :: k in r && k !in accessors ==> r[k] == record[k]
  {
    var fields := map k | k in record && k in visible :: record[k];
    var methods := map m | m in accessors && m in visible :: accessors[m](record);
    fields + methods
  }

  /** The projection of every record found, in storage order. */
  function ProjectAll(records: seq<Data>, accessors: map<string, Accessor>, visible: seq<string>): (rs: seq<Data>)
    ensures |rs| == |records|
    ensures forall i :: 0 <= i < |records| ==> rs[i] == Project(records[i], accessors, visible)
  {
    seq(|records|, i requires 0 <= i < |records| => Project(records[i], accessors, visible))
  }

  /**
   * The filters `find` hands to storage: the query pairs and then the
   * hook's constraint pairs, compiled against the endpoint's allowed
   * fields plus the constraint's keys. A filter on a field named like a
   * paging keyword collides with that keyword argument of `find_many`.
   */
  function FindFilters(tables: Tables, table: string, args: Pairs, coerce: Coercion): (r: Outcome<Filters>)
    ensures r.Done? ==> table in tables
    ensures table !in tables ==> r == Err(404, "There is no endpoint named: " + table, None)
    ensures !ExtendQuery(tables, table, FindOp).Done? ==> !r.Done? && r.Crash? == ExtendQuery(tables, table, FindOp).Crash?
    ensures var constraint := ExtendQuery(tables, table, FindOp);
      constraint.Done? ==>
        var compiled := Compile(args + constraint.value, tables[table].allowedQueryFields + Keys(constraint.value),
                                FieldTypes(tables[table].model), coerce);
        && (!compiled.Done? ==> r == compiled)
        && (compiled.Done? && ("offset" in compiled.value || "count" in compiled.value || "sort" in compiled.value) ==>
              r == Crash(DuplicateKeyword))
        && (compiled.Done? && !("offset" in compiled.value || "count" in compiled.value || "sort" in compiled.value) ==>
              r == compiled)
  {
    var constraint := ExtendQuery(tables, table, FindOp);
    if !constraint.Done? then constraint.Propagate()
    else
      var endpoint := tables[table];
      var compiled := Compile(args + constraint.value, endpoint.allowedQueryFields + Keys(constraint.value),
                              FieldTypes(endpoint.model), coerce);
      if compiled.Done? && ("offset" in compiled.value || "count" in compiled.value || "sort" in compiled.value) then
        Crash(DuplicateKeyword)
      else
        compiled
  }

  /** `GET /<table>/find`: the visible part of every record storage finds for the filters. */
  function Find(tables: Tables, table: string, args: Pairs, page: Page, coerce: Coercion, findMany: FindMany)
    : (r: Outcome<seq<Data>>)
    ensures r.Done? ==> table in tables && FindFilters(tables, table, args, coerce).Done?
    ensures r.Done? ==> |r.value| == |findMany(FindFilters(tables, table, args, coerce).value, page)|
    ensures r.Done? ==> forall i, k :: 0 <= i < |r.value| && k in r.value[i] ==> k in tables[table].visibleFields
    ensures r.Done? ==> r.value == ProjectAll(findMany(FindFilters(tables, table, args, coerce).value, page),
                                              tables[table].model.accessors, tables[table].visibleFields)
    ensures !FindFilters(tables, table, args, coerce).Done? ==> r == FindFilters(tables, table, args, coerce).Propagate()
  {
    var filters := FindFilters(tables, table, args, coerce);
    if !filters.Done? then filters.Propagate()
    else
      var endpoint := tables[table];
      Done(ProjectAll(findMany(filters.value, page), endpoint.model.accessors, endpoint.visibleFields))
  }

  /** The storage layer's `find_one(slug=..., **constraint)`. */
  function FindOne(store: Store, slug: string, constraint: Pairs): (r: Option<Data>)
    ensures r.Some? ==> slug in store && r.value == store[slug]
    ensures r.Some? ==> forall k :: k in AsMap(constraint) ==> k in r.value && r.value[k] == AsMap(constraint)[k]
    ensures r.None? ==>
      (slug !in store || exists k :: k in AsMap(constraint) && (k !in store[slug] || store[slug][k] != AsMap(constraint)[k]))
  {
    if slug in store && Matches(store[slug], AsMap(constraint)) then Some(store[slug]) else None
  }

  /**
   * `GET /<table>/<entry_id>`. A constraint with a `slug` key repeats a
   * keyword argument of `find_one`; the handler catches that as a 500.
   */
  function Get(tables: Tables, table: string, entryId: string, store: Store): (r: Outcome<Data>)
    ensures r.Done? ==> table in tables && entryId in store
    ensures r.Done? ==> forall k :: k in r.value ==> k in tables[table].visibleFields
    ensures r.Crash? <==> ExtendQuery(tables, table, GetOp).Crash?
    ensures var c := ExtendQuery(tables, table, GetOp);
      c.Done? ==>
        && ("slug" in Keys(c.value) ==> r == Err(500, InternalServerError, None))
        && ("slug" !in Keys(c.value) && FindOne(store, entryId, c.value).None? ==>
              r == Err(404, "No entry found with id " + entryId, None))
        && ("slug" !in Keys(c.value) && FindOne(store, entryId, c.value).Some? ==>
              r == Done(Project(store[entryId], tables[table].model.accessors, tables[table].visibleFields)))
    ensures r.Done? ==>
      ExtendQuery(tables, table, GetOp).Done? && Matches(store[entryId], AsMap(ExtendQuery(tables, table, GetOp).value))
  {
    var constraint := ExtendQuery(tables, table, GetOp);
    if !constraint.Done? then constraint.Propagate()
    else if "slug" in Keys(constraint.value) then Err(500, InternalServerError, None)
    else
      match FindOne(store, entryId, constraint.value)
      case None => Err(404, "No entry found with id " + entryId, None)
      case Some(entry) => Done(Project(entry, tables[table].model.accessors, tables[table].visibleFields))
  }

  /** `DELETE /<table>/<entry_id>`: the reply and the collection afterwards. */
  function Delete(tables: Tables, table: string, entryId: string, store: Store): (r: (Outcome<string>, Store))
    ensures r.0.Done? ==> entryId in store && r.1 == store - {entryId}
    ensures !r.0.Done? ==> r.1 == store
    ensures r.0.Crash? <==> ExtendQuery(tables, table, DeleteOp).Crash?
    ensures var c := ExtendQuery(tables, table, DeleteOp);
      c.Done? ==>
        && ("slug" in Keys(c.value) ==> r.0 == Err(500, InternalServerError, None))
        && ("slug" !in Keys(c.value) && FindOne(store, entryId, c.value).None? ==>
              r.0 == Err(404, "No entry found with id " + entryId, None))
        && ("slug" !in Keys(c.value) && FindOne(store, entryId, c.value).Some? ==>
              r.0 == Done("Entry with id " + entryId + " successfully deleted"))
    ensures r.0.Done? ==>
      ExtendQuery(tables, table, DeleteOp).Done? && Matches(store[entryId], AsMap(ExtendQuery(tables, table, DeleteOp).value))
  {
    var constraint := ExtendQuery(tables, table, DeleteOp);
    if !constraint.Done? then (constraint.Propagate(), store)
    else if "slug" in Keys(constraint.value) then (Err(500, InternalServerError, None), store)
    else
      match FindOne(store, entryId, constraint.value)
      case None => (Err(404, "No entry found with id " + entryId, None), store)
      case Some(_) => (Done("Entry with id " + entryId + " successfully deleted"), store - {entryId})
  }

  /** `{**base, **top}`: every key of both, with the value from `top` where both have it. */
  function Overlay(base: Data, top: Data): (r: Data)
    ensures r.Keys == base.Keys + top.Keys
    ensures forall k :: k in top ==> r[k] == top[k]
    ensures forall k :: k in base && k !in top ==> r[k] == base[k]
  {
    base + top
  }

  /**
   * `POST /<table>/create`: the body with the hook's constraint laid over
   * it is validated by the model, stamped with the fresh slug and added.
   * An add that fails (the slug is taken) is caught as a 500.
   */
  function Create(tables: Tables, table: string, body: Option<Data>, freshSlug: string, store: Store)
    : (r: (Outcome<Redirect>, Store))
    ensures r.0.Done? ==> r.0.value == RedirectToGet(table, freshSlug)
    ensures r.0.Done? ==> freshSlug !in store && r.1.Keys == store.Keys + {freshSlug}
    ensures r.0.Done? ==> forall s :: s in store ==> r.1[s] == store[s]
    ensures r.0.Done? ==> "slug" in r.1[freshSlug] && r.1[freshSlug]["slug"] == Str(freshSlug)
    ensures !r.0.Done? ==> r.1 == store
    ensures r.0.Crash? <==> ExtendQuery(tables, table, CreateOp).Crash?
  {
    var constraint := ExtendQuery(tables, table, CreateOp);
    if !constraint.Done? then (constraint.Propagate(), store)
    else if body.None? then (Err(400, "Bad Request", Some("No JSON payload provided")), store)
    else
      match tables[table].model.construct(Overlay(body.value, AsMap(constraint.value)))
      case Invalid(detail) => (Err(400, "Invalid data", Some(detail)), store)
      case Valid(entry) =>
        if freshSlug in store then (Err(500, InternalServerError, None), store)
        else (Done(RedirectToGet(table, freshSlug)), store[freshSlug := entry["slug" := Str(freshSlug)]])
  }

  /**
   * `PUT /<table>/<slug>`: the stored record with the body laid over it is
   * validated by the model and replaces the record carrying the new
   * record's slug. Nothing here catches exceptions.
   */
  function Update(tables: Tables, table: string, slug: string, body: Option<Data>, store: Store)
    : (r: (Outcome<Redirect>, Store))
    ensures r.1.Keys == store.Keys
    ensures r.0.Done? ==> slug in store && r.0.value.table == table
    ensures r.0.Done? ==> forall s :: s in store && s != r.0.value.entryId ==> r.1[s] == store[s]
    ensures !r.0.Done? ==> r.1 == store
  {
    var constraint := ExtendQuery(tables, table, UpdateOp);
    if !constraint.Done? then (constraint.Propagate(), store)
    else if "slug" in Keys(constraint.value) then (Crash(DuplicateKeyword), store)
    else
      match FindOne(store, slug, constraint.value)
      case None => (Err(404, "Entry not found", None), store)
      case Some(existing) =>
        if body.None? then (Crash(NotAMapping), store)
        else
          match tables[table].model.construct(Overlay(existing, body.value))
          case Invalid(detail) => (Err(400, "Invalid data", Some(detail)), store)
          case Valid(entry) =>
            if "slug" !in entry || !entry["slug"].Str? then (Crash(NoSlug), store)
            else
              var target := entry["slug"].s;
              (Done(RedirectToGet(table, target)), if target in store then store[target := entry] else store)
  }

  /** Every handler answers 404 for an unknown table and leaves storage alone. */
  lemma UnknownTableNotFound(tables: Tables, table: string, args: Pairs, page: Page, coerce: Coercion,
                             findMany: FindMany, id: string, body: Option<Data>, store: Store)
    requires table !in tables
    ensures var message := "There is no endpoint named: " + table;
      && Find(tables, table, args, page, coerce, findMany) == Err(404, message, None)
      && Get(tables, table, id, store) == Err(404, message, None)
      && Delete(tables, table, id, store) == (Err(404, message, None), store)
      && Create(tables, table, body, id, store) == (Err(404, message, None), store)
      && Update(tables, table, id, body, store) == (Err(404, message, None), store)
  {
  }

  /** A hook result that is not a dict is dropped: the handler runs as under the default hook. */
  lemma NonDictHookResultIgnored(tables: Tables, table: string, op: Operation)
    requires table in tables && tables[table].filter.Some?
    requires tables[table].filter.value(op, table) == OtherResult
    ensures ExtendQuery(tables, table, op) == Done([])
    ensures ExtendQuery(tables[table := tables[table].(filter := Some(DefaultFilter))], table, op) == Done([])
  {
  }

  /**
   * Whatever the client asks, a plain constraint `k = v` of the hook is
   * the filter `find` hands to storage for `k`: equality with coerced `v`.
   */
  lemma FindEnforcesHookConstraint(tables: Tables, table: string, args: Pairs, coerce: Coercion, k: string, v: Value)
    requires table in tables && tables[table].filter.Some?
    requires tables[table].filter.value(FindOp, table).DictResult?
    requires var hook := tables[table].filter.value(FindOp, table).constraint;
      && (k, v) in hook && k !in Reserved && DistinctKeys(hook)
      && forall j :: 0 <= j < |hook| ==> !Contains(hook[j].0, Separator)
    requires FindFilters(tables, table, args, coerce).Done?
    ensures var types := FieldTypes(tables[table].model);
      && k in types && coerce(types[k], v).Valid?
      && var filters := FindFilters(tables, table, args, coerce).value;
         k in filters && filters[k] == Equals(coerce(types[k], v).value)
  {
    var endpoint := tables[table];
    var hook := endpoint.filter.value(FindOp, table).constraint;
    HookConstraintWins(args, hook, endpoint.allowedQueryFields, FieldTypes(endpoint.model), coerce, k, v);
  }

  /**
   * A query on a name the endpoint allows but the model does not annotate
   * (a method name, which the defaults allow) escapes as `KeyError`.
   */
  lemma UnannotatedQueryCrashes(tables: Tables, table: string, name: string, value: string, coerce: Coercion)
    requires table in tables
    requires ExtendQuery(tables, table, FindOp).Done?
    requires name in tables[table].allowedQueryFields && name !in FieldTypes(tables[table].model)
    requires name !in Reserved && !Contains(name, Separator)
    ensures FindFilters(tables, table, [(name, Str(value))], coerce) == Crash(MissingKey(name))
  {
    var endpoint := tables[table];
    var c := ExtendQuery(tables, table, FindOp).value;
    var pairs := [(name, Str(value))] + c;
    var allowed := endpoint.allowedQueryFields + Keys(c);
    var types := FieldTypes(endpoint.model);
    assert pairs[0] == (name, Str(value));
    UnannotatedFieldCrashes(name, Str(value), allowed, types, coerce);
    assert pairs[..0] == [];
    StopsAt(pairs, allowed, types, coerce, 0);
  }

  /**
   * A record that does not match the `get` constraint is answered by
   * `get` exactly as if it did not exist.
   */
  lemma GetHidesUnmatchedRecord(tables: Tables, table: string, entryId: string, store: Store)
    requires entryId in store
    requires ExtendQuery(tables, table, GetOp).Done?
    requires !Matches(store[entryId], AsMap(ExtendQuery(tables, table, GetOp).value))
    ensures Get(tables, table, entryId, store) == Get(tables, table, entryId, store - {entryId})
  {
    var c := ExtendQuery(tables, table, GetOp).value;
    assert FindOne(store, entryId, c) == None == FindOne(store - {entryId}, entryId, c);
  }

  /**
   * A record that does not match the `delete` constraint is answered by
   * `delete` exactly as if it did not exist, and stays stored.
   */
  lemma DeleteHidesUnmatchedRecord(tables: Tables, table: string, entryId: string, store: Store)
    requires entryId in store
    requires ExtendQuery(tables, table, DeleteOp).Done?
    requires !Matches(store[entryId], AsMap(ExtendQuery(tables, table, DeleteOp).value))
    ensures Delete(tables, table, entryId, store).0 == Delete(tables, table, entryId, store - {entryId}).0
    ensures Delete(tables, table, entryId, store).1 == store
  {
    var c := ExtendQuery(tables, table, DeleteOp).value;
    assert FindOne(store, entryId, c) == None == FindOne(store - {entryId}, entryId, c);
  }

  /**
   * A record that does not match the `update` constraint is answered by
   * `update` exactly as if it did not exist, and stays as it was.
   */
  lemma UpdateHidesUnmatchedRecord(tables: Tables, table: string, entryId: string, body: Option<Data>, store: Store)
    requires entryId in store
    requires ExtendQuery(tables, table, UpdateOp).Done?
    requires !Matches(store[entryId], AsMap(ExtendQuery(tables, table, UpdateOp).value))
    ensures Update(tables, table, entryId, body, store).0 == Update(tables, table, entryId, body, store - {entryId}).0
    ensures Update(tables, table, entryId, body, store).1 == store
  {
    var c := ExtendQuery(tables, table, UpdateOp).value;
    assert FindOne(store, entryId, c) == None == FindOne(store - {entryId}, entryId, c);
  }

  /** Deleting again answers 404 and changes nothing. */
  lemma DeleteTwiceNotFound(tables: Tables, table: string, entryId: string, store: Store)
    requires Delete(tables, table, entryId, store).0.Done?
    ensures var after := Delete(tables, table, entryId, store).1;
      Delete(tables, table, entryId, after) == (Err(404, "No entry found with id " + entryId, None), after)
  {
    var after := Delete(tables, table, entryId, store).1;
    assert after == store - {entryId};
    assert entryId !in after;
  }

  /**
   * A successful create adds one record, under the fresh slug, built by
   * the model from the body overlaid with the hook's constraint.
   */
  lemma CreateAddsOneRecord(tables: Tables, table: string, body: Option<Data>, freshSlug: string, store: Store)
    requires Create(tables, table, body, freshSlug, store).0.Done?
    ensures table in tables && body.Some? && ExtendQuery(tables, table, CreateOp).Done?
    ensures var constraint := AsMap(ExtendQuery(tables, table, CreateOp).value);
      var validated := tables[table].model.construct(Overlay(body.value, constraint));
      && validated.Valid?
      && freshSlug !in store
      && Create(tables, table, body, freshSlug, store) ==
           (Done(RedirectToGet(table, freshSlug)), store[freshSlug := validated.value["slug" := Str(freshSlug)]])
  {
  }

  /**
   * Create, then get on the slug it redirects to: the reply is the
   * projection of the record just added, provided the model keeps the
   * constraint's values and `get` runs under the same constraint.
   */
  lemma CreateThenGet(tables: Tables, table: string, body: Data, freshSlug: string, store: Store)
    requires Create(tables, table, Some(body), freshSlug, store).0.Done?
    requires ExtendQuery(tables, table, GetOp) == ExtendQuery(tables, table, CreateOp)
    requires var constraint := ExtendQuery(tables, table, CreateOp);
      && constraint.Done?
      && "slug" !in Keys(constraint.value)
      && var validated := tables[table].model.construct(Overlay(body, AsMap(constraint.value)));
         validated.Valid? && Matches(validated.value, AsMap(constraint.value))
    ensures var after := Create(tables, table, Some(body), freshSlug, store).1;
      && freshSlug in after
      && Get(tables, table, freshSlug, after)
         == Done(Project(after[freshSlug], tables[table].model.accessors, tables[table].visibleFields))
  {
    var constraint := ExtendQuery(tables, table, CreateOp).value;
    var entry := tables[table].model.construct(Overlay(body, AsMap(constraint))).value;
    var after := Create(tables, table, Some(body), freshSlug, store).1;
    assert after[freshSlug] == entry["slug" := Str(freshSlug)];
    assert "slug" !in AsMap(constraint);
    assert Matches(after[freshSlug], AsMap(constraint));
  }

  /**
   * A successful update validates the stored record overlaid with the body
   * and writes the result under the slug the result carries, if a record
   * is stored there; nothing else changes.
   */
  lemma UpdateReplacesOneRecord(tables: Tables, table: string, slug: string, body: Option<Data>, store: Store)
    requires Update(tables, table, slug, body, store).0.Done?
    ensures table in tables && body.Some? && slug in store
    ensures var validated := tables[table].model.construct(Overlay(store[slug], body.value));
      var (reply, after) := Update(tables, table, slug, body, store);
      && validated.Valid?
      && validated.value["slug"] == Str(reply.value.entryId)
      && after == (if reply.value.entryId in store then store[reply.value.entryId := validated.value] else store)
  {
  }

  /** A failed lookup answers 404 and writes nothing. */
  lemma UpdateOfUnmatchedRecordNotFound(tables: Tables, table: string, slug: string, body: Option<Data>, store: Store)
    requires var constraint := ExtendQuery(tables, table, UpdateOp);
      constraint.Done? && "slug" !in Keys(constraint.value) && FindOne(store, slug, constraint.value).None?
    ensures Update(tables, table, slug, body, store) == (Err(404, "Entry not found", None), store)
  {
  }

  /**
   * A `slug` in the body of an update wins over the stored one, so when
   * the model keeps it the write lands on that other record, which the
   * hook's constraint was never checked against.
   */
  lemma UpdateBodySlugRetargets(tables: Tables, table: string, slug: string, other: string, body: Data, store: Store)
    requires Update(tables, table, slug, Some(body), store).0.Done?
    requires "slug" in body && body["slug"] == Str(other) && other in store
    requires var validated := tables[table].model.construct(Overlay(store[slug], body));
      validated.Valid? && "slug" in validated.value && validated.value["slug"] == Overlay(store[slug], body)["slug"]
    ensures var (reply, after) := Update(tables, table, slug, Some(body), store);
      && reply == Done(RedirectToGet(table, other))
      && after == store[other := tables[table].model.construct(Overlay(store[slug], body)).value]
  {
  }

  /** Every record is stored under its own slug. */
  predicate WellKeyed(store: Store)
  {
    forall s :: s in store ==> "slug" in store[s] && store[s]["slug"] == Str(s)
  }

  /** Create keeps every record under its own slug. */
  lemma CreateKeepsStoreWellKeyed(tables: Tables, table: string, body: Option<Data>, freshSlug: string, store: Store)
    requires WellKeyed(store)
    ensures WellKeyed(Create(tables, table, body, freshSlug, store).1)
  {
  }

  /** Update keeps every record under its own slug: the record written carries the slug it is written under. */
  lemma UpdateKeepsStoreWellKeyed(tables: Tables, table: string, slug: string, body: Option<Data>, store: Store)
    requires WellKeyed(store)
    ensures WellKeyed(Update(tables, table, slug, body, store).1)
  {
  }

  /** Delete keeps every record under its own slug. */
  lemma DeleteKeepsStoreWellKeyed(tables: Tables, table: string, entryId: string, store: Store)
    requires WellKeyed(store)
    ensures WellKeyed(Delete(tables, table, entryId, store).1)
  {
  }
}
