/**
 * The car endpoint of the example application (`app.py`), written as an
 * endpoint: the query and return lists it declares and its hook, which
 * requires a signed-in user, restricts find, get, create and delete to the
 * user's own cars, and answers updates with a reply tuple instead of a dict.
 */
module Scenarios {
  import opened Wrappers
  import opened Text
  import opened Values
  import opened Endpoints
  import opened FilterCompiler
  import opened Routes

  /** The example hook; `None` is a request without a valid token, on which it raises. */
  function OwnerFilter(user: Option<string>, op: Operation, table: string): (r: HookResult)
    ensures user.None? <==> r.Raised?
    ensures user.Some? && op == UpdateOp ==> r.OtherResult?
    ensures user.Some? && op != UpdateOp ==>
      r.DictResult? && forall record: Data :: Matches(record, AsMap(r.constraint)) <==>
        "owner" in record && record["owner"] == Str(user.value)
  {
    if user.None? then Raised
    else if op == UpdateOp then OtherResult
    else DictResult([("owner", Str(user.value))])
  }

  function CarModel(accessors: map<string, Accessor>, construct: Data -> Validated<Data>): ModelClass
  {
    ModelClass("Car", CarAnnotations, CarMembers, accessors, construct)
  }

  /** The registered endpoints of the example application, for the user of the request. */
  function AppTables(user: Option<string>, accessors: map<string, Accessor>, construct: Data -> Validated<Data>): Tables
  {
    map["cars" := EndpointConfig(
      "cars",
      CarModel(accessors, construct),
      ["brand", "color", "year", "owner"],
      ["id", "owner", "brand", "color", "year", "model", "slug", "miles_per_year", "description"],
      Some((op: Operation, t: string) => OwnerFilter(user, op, t)))]
  }

  /** The car model's annotated types. */
  lemma CarFieldTypes()
    ensures var types := AsMap(CarAnnotations);
      && "color" in types && types["color"] == StrType
      && "owner" in types && types["owner"] == StrType
      && "description" !in types
  {
    AsMapLastWins(CarAnnotations, 3);
    AsMapLastWins(CarAnnotations, 5);
  }

  /** A field name without an underscore holds no `__`; these three are not paging keywords. */
  lemma PlainKeys()
    ensures !Contains("color", Separator) && "color" !in Reserved
    ensures !Contains("owner", Separator) && "owner" !in Reserved
    ensures !Contains("description", Separator) && "description" !in Reserved
  {
    FirstCharAbsent("color", Separator);
    FirstCharAbsent("owner", Separator);
    FirstCharAbsent("description", Separator);
    assert "color"[2] != "count"[2];
    assert "owner"[0] != "count"[0];
  }

  /** The two years of the query below read as integers. */
  lemma YearsParse()
    ensures ParseInt("2015") == Some(2015) && ParseInt("2020") == Some(2020)
  {
    assert DigitsValue("2015") == 2015 by {
      assert "2015"[..3] == "201" && "201"[..2] == "20" && "20"[..1] == "2" && "2"[..0] == "";
    }
    assert DigitsValue("2020") == 2020 by {
      assert "2020"[..3] == "202" && "202"[..2] == "20" && "20"[..1] == "2" && "2"[..0] == "";
    }
  }

  /** Under the example hook, `find` runs with the user's ownership as its constraint. */
  lemma FindConstraint(user: string, accessors: map<string, Accessor>, construct: Data -> Validated<Data>)
    ensures ExtendQuery(AppTables(Some(user), accessors, construct), "cars", FindOp) == Done([("owner", Str(user))])
  {
  }

  /** The filters `find` hands to storage for the query pairs under the example hook. */
  lemma AppFindFilters(user: string, accessors: map<string, Accessor>, construct: Data -> Validated<Data>,
                       args: Pairs, coerce: Coercion)
    ensures var allowed := ["brand", "color", "year", "owner", "owner"];
      var compiled := Compile(args + [("owner", Str(user))], allowed, AsMap(CarAnnotations), coerce);
      compiled.Done? && "offset" !in compiled.value && "count" !in compiled.value && "sort" !in compiled.value ==>
        FindFilters(AppTables(Some(user), accessors, construct), "cars", args, coerce) == compiled
  {
    FindConstraint(user, accessors, construct);
    var hook: Pairs := [("owner", Str(user))];
    assert ["brand", "color", "year", "owner"] + Keys(hook) == ["brand", "color", "year", "owner", "owner"];
  }

  /** `year` holds no `__` and does not end in an underscore. */
  lemma YearIsPlain()
    ensures PlainName("year")
  {
    FirstCharAbsent("year", Separator);
  }

  /** The same pair, with its key and value written as the compiler takes them apart. */
  lemma YearRangeAsBuilt(allowed: seq<string>, types: map<string, FieldType>, coerce: Coercion)
    requires "year" in allowed
    ensures CompileEntry("year" + "__range", Str("2015" + "," + "2020"), allowed, types, coerce)
         == Done(Some(("year", Range(2015, 2020))))
  {
    YearsParse();
    YearIsPlain();
    RangeOfTwoIntegers("year", "2015", "2020", allowed, types, coerce);
  }

  /** The `year__range=2015,2020` pair compiled on its own. */
  lemma YearRangeEntry(allowed: seq<string>, types: map<string, FieldType>, coerce: Coercion)
    requires "year" in allowed
    ensures CompileEntry("year__range", Str("2015,2020"), allowed, types, coerce) == Done(Some(("year", Range(2015, 2020))))
  {
    YearRangeAsBuilt(allowed, types, coerce);
    assert "year" + "__range" == "year__range";
    assert "2015" + "," + "2020" == "2015,2020";
  }

  /** Each of the three pairs of the query below, compiled on its own. */
  lemma ColorYearOwnerEntries(user: string, allowed: seq<string>, types: map<string, FieldType>, coerce: Coercion)
    requires "color" in allowed && "year" in allowed && "owner" in allowed
    requires "color" in types && types["color"] == StrType && "owner" in types && types["owner"] == StrType
    requires coerce(StrType, Str("red")) == Valid(Str("red"))
    requires coerce(StrType, Str(user)) == Valid(Str(user))
    ensures CompileEntry("color", Str("red"), allowed, types, coerce) == Done(Some(("color", Equals(Str("red")))))
    ensures CompileEntry("year__range", Str("2015,2020"), allowed, types, coerce) == Done(Some(("year", Range(2015, 2020))))
    ensures CompileEntry("owner", Str(user), allowed, types, coerce) == Done(Some(("owner", Equals(Str(user)))))
  {
    PlainKeys();
    PlainKeyEquality("color", Str("red"), allowed, types, coerce);
    PlainKeyEquality("owner", Str(user), allowed, types, coerce);
    YearRangeEntry(allowed, types, coerce);
  }

  /** The three pairs of the query below, compiled against any lists that admit them. */
  lemma CompileColorYearOwner(user: string, allowed: seq<string>, types: map<string, FieldType>, coerce: Coercion)
    requires "color" in allowed && "year" in allowed && "owner" in allowed
    requires "color" in types && types["color"] == StrType && "owner" in types && types["owner"] == StrType
    requires coerce(StrType, Str("red")) == Valid(Str("red"))
    requires coerce(StrType, Str(user)) == Valid(Str(user))
    ensures Compile([("color", Str("red")), ("year__range", Str("2015,2020")), ("owner", Str(user))], allowed, types, coerce)
         == Done(map["color" := Equals(Str("red")), "year" := Range(2015, 2020), "owner" := Equals(Str(user))])
  {
    var c := ("color", Str("red"));
    var y := ("year__range", Str("2015,2020"));
    var o := ("owner", Str(user));
    var pairs := [c, y, o];
    ColorYearOwnerEntries(user, allowed, types, coerce);
    assert pairs[..1] == [c] && pairs[..1][..0] == [];
    assert pairs[..2] == [c, y] && pairs[..2][..1] == [c];
    assert Compile(pairs[..1], allowed, types, coerce) == Done(map["color" := Equals(Str("red"))]);
    assert Compile(pairs[..2], allowed, types, coerce)
        == Done(map["color" := Equals(Str("red")), "year" := Range(2015, 2020)]);
  }

  /** None of the three filtered fields is a paging keyword. */
  lemma FiltersNotReserved(user: string)
    ensures var m := map["color" := Equals(Str("red")), "year" := Range(2015, 2020), "owner" := Equals(Str(user))];
      "offset" !in m && "count" !in m && "sort" !in m
  {
    assert "count"[2] != "color"[2] && "count"[0] != "owner"[0] && "sort"[0] != "year"[0];
  }

  /**
   * `GET /cars/find?color=red&year__range=2015,2020` as signed-in user `u`:
   * storage is asked for red cars of 2015 to 2020 owned by `u`.
   */
  lemma OwnCarsByColorAndYear(user: string, accessors: map<string, Accessor>, construct: Data -> Validated<Data>,
                              coerce: Coercion)
    requires coerce(StrType, Str("red")) == Valid(Str("red"))
    requires coerce(StrType, Str(user)) == Valid(Str(user))
    ensures FindFilters(AppTables(Some(user), accessors, construct), "cars",
                        [("color", Str("red")), ("year__range", Str("2015,2020"))], coerce)
         == Done(map["color" := Equals(Str("red")), "year" := Range(2015, 2020), "owner" := Equals(Str(user))])
  {
    var args := [("color", Str("red")), ("year__range", Str("2015,2020"))];
    var allowed := ["brand", "color", "year", "owner", "owner"];
    CarFieldTypes();
    assert args + [("owner", Str(user))] == [("color", Str("red")), ("year__range", Str("2015,2020")), ("owner", Str(user))];
    CompileColorYearOwner(user, allowed, AsMap(CarAnnotations), coerce);
    FiltersNotReserved(user);
    AppFindFilters(user, accessors, construct, args, coerce);
  }

  /** Two equality pairs on one field: the later one is the filter. */
  lemma CompileOwnerTwice(other: string, user: string, allowed: seq<string>, types: map<string, FieldType>,
                          coerce: Coercion)
    requires "owner" in allowed && "owner" in types && types["owner"] == StrType
    requires coerce(StrType, Str(other)) == Valid(Str(other))
    requires coerce(StrType, Str(user)) == Valid(Str(user))
    ensures Compile([("owner", Str(other)), ("owner", Str(user))], allowed, types, coerce)
         == Done(map["owner" := Equals(Str(user))])
  {
    var pairs := [("owner", Str(other)), ("owner", Str(user))];
    PlainKeys();
    assert pairs[..1] == [("owner", Str(other))] && pairs[..1][..0] == [];
    assert Compile(pairs[..1], allowed, types, coerce) == Done(map["owner" := Equals(Str(other))]);
  }

  /** A client asking for another owner's cars still gets a query for the user's own. */
  lemma OtherOwnerOverridden(user: string, other: string, accessors: map<string, Accessor>,
                             construct: Data -> Validated<Data>, coerce: Coercion)
    requires coerce(StrType, Str(other)) == Valid(Str(other))
    requires coerce(StrType, Str(user)) == Valid(Str(user))
    ensures FindFilters(AppTables(Some(user), accessors, construct), "cars", [("owner", Str(other))], coerce)
         == Done(map["owner" := Equals(Str(user))])
  {
    CarFieldTypes();
    CompileOwnerTwice(other, user, ["brand", "color", "year", "owner", "owner"], AsMap(CarAnnotations), coerce);
    assert [("owner", Str(other))] + [("owner", Str(user))] == [("owner", Str(other)), ("owner", Str(user))];
    AppFindFilters(user, accessors, construct, [("owner", Str(other))], coerce);
  }

  /** Without a valid token every handler ends in the hook's exception, before storage is touched. */
  lemma NoTokenNoAccess(accessors: map<string, Accessor>, construct: Data -> Validated<Data>, args: Pairs,
                        page: Page, coerce: Coercion, findMany: FindMany, id: string, body: Option<Data>, store: Store)
    ensures var tables := AppTables(None, accessors, construct);
      && Find(tables, "cars", args, page, coerce, findMany) == Crash(HookRaised)
      && Get(tables, "cars", id, store) == Crash(HookRaised)
      && Delete(tables, "cars", id, store) == (Crash(HookRaised), store)
      && Create(tables, "cars", body, id, store) == (Crash(HookRaised), store)
      && Update(tables, "cars", id, body, store) == (Crash(HookRaised), store)
  {
  }

  /**
   * The hook's answer to updates is not a dict, so it is dropped: a
   * signed-in user finds any stored car for update, whoever owns it.
   */
  lemma AnyUserReachesAnyCarForUpdate(user: string, accessors: map<string, Accessor>,
                                      construct: Data -> Validated<Data>, slug: string, body: Option<Data>, store: Store)
    requires slug in store
    ensures Update(AppTables(Some(user), accessors, construct), "cars", slug, body, store).0 != Err(404, "Entry not found", None)
  {
    var tables := AppTables(Some(user), accessors, construct);
    assert ExtendQuery(tables, "cars", UpdateOp) == Done([]);
    assert FindOne(store, slug, []) == Some(store[slug]);
  }

  /**
   * The car endpoint declared with only its slug and model allows queries on
   * `description`, a method; such a query escapes as `KeyError`.
   */
  lemma DefaultCarEndpointMethodQueryCrashes(accessors: map<string, Accessor>, construct: Data -> Validated<Data>,
                                             value: string, coerce: Coercion)
    ensures var r := Configure(Subclass(Some("cars"), Some(CarModel(accessors, construct))));
      && r.Registered?
      && FindFilters(map["cars" := r.config], "cars", [("description", Str(value))], coerce)
         == Crash(MissingKey("description"))
  {
    CarEndpointDefaults(accessors, construct);
    var config := Configure(Subclass(Some("cars"), Some(CarModel(accessors, construct)))).config;
    var tables := map["cars" := config];
    CarFieldTypes();
    PlainKeys();
    assert "description" in config.allowedQueryFields;
    UnannotatedQueryCrashes(tables, "cars", "description", value, coerce);
  }
}
