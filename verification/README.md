# flask-pydanql-api, modelled in Dafny

flask-pydanql-api exposes the collections of a pydanql database as a
REST API. Each collection gets one endpoint, with five routes: `find`,
`get`, `create`, `update` and `delete`.

An endpoint is a subclass of `Endpoint`. It names:

- a URL slug;
- a model class, a pydantic model whose annotated fields are the record's columns;
- the names a client may filter on (`allowed_query_fields`);
- the names shown in replies (`visible_fields`);
- an authorization hook `_filter(query_type, query_table)`.

When a subclass is created, `__init_subclass__` checks that it has a slug
and a model. Each name list that is left unset becomes the model's
annotated fields followed by the methods the model class defines itself.

Every route first runs the `extend_query_for` wrapper. The wrapper answers
404 for an unknown endpoint. Otherwise it calls the hook. When the hook
returns a dict, that dict becomes the request's constraint: equalities that
storage lookups must also satisfy and that creation writes into the new
record.

`find` compiles the query string plus the constraint into storage filters:

- `field=v` is an equality;
- `field__range=a,b` is an integer range;
- `field__in=a,b,…` is membership;
- `field__gt=v` and `field__lt=v` are comparisons;
- `field__like=v` is a substring pattern.

Equality, `in`, `gt` and `lt` values are coerced to the field's declared
type. A range is read with `int()` whatever the field's type, and a `like`
value is not coerced at all. The record replies
are projected onto the visible names, and a visible method is called on
the record.

The Dafny modules follow that structure:

- `Text` (`text.dfy`): the Python string operations the handlers rely on:
  - `sep in s`;
  - `s.split(sep)`, taking the leftmost non-overlapping occurrence;
  - `int(s)` and `str(i)`.
- `Values` (`values.dfy`): request values, Python dicts as pairs, and
  handler outcomes. An outcome is a result, an error reply (`Err`), or an
  exception nothing in the handler catches (`Crash`).
- `Endpoints` (`endpoints.dfy`): the endpoint declaration and
  `__init_subclass__`. The latter is both a function `Configure` and a
  method `Endpoint.InitSubclass` that completes the class attributes in place.
- `FilterCompiler` (`filter_compiler.dfy`): the loop of `find`, as a
  method `CompileFilters` proved against the prefix-recursive
  specification `Compile`.
- `Routes` (`routes.dfy`): the wrapper, the projection and the five
  handlers. A collection is a map from record slug to record data.
- `Scenarios` (`scenarios.dfy`): the car endpoint of the example
  application with its owner-restricting hook. The concrete queries there
  compile to the expected filters.

The value parser `parse_obj_as` and the model constructor are function
parameters. So are the storage layer's `find_many` and the fresh
identifier from `uuid4`. `Coercion` stands for the parser. The
`construct` field of `ModelClass` stands for the constructor. `FindMany`
stands for the storage call. The fresh slug is an argument of `Create`.

Four behaviours of the code are worth knowing:

- Update does not keep the record's identity. A `slug` in the request
  body wins over the stored one. Under the model's slug-keyed storage,
  the record written is then the one under that slug, and the hook's
  constraint was never checked against it (`UpdateBodySlugRetargets`).
- A hook result that is not a dict does not reject the request. It is
  dropped, and the handler runs without a constraint
  (`NonDictHookResultIgnored`). The example application answers updates
  with a reply tuple, so there every signed-in user reaches every car for
  update (`AnyUserReachesAnyCarForUpdate`).
- Create lays the constraint over the request body before the model
  validates it. It does not do this after validation.
- By default the allowed query names include method names. Querying one
  raises `KeyError`, because methods are not annotated
  (`DefaultCarEndpointMethodQueryCrashes`).

## Model

| member | source | states |
|---|---|---|
| Text.FindFrom | flask_pydanql_api/routes.py:68 | the position found is an occurrence of the separator and no earlier position is one |
| Text.OccurrenceIsContained | flask_pydanql_api/routes.py:68 | any occurrence of the separator makes `sep in s` true |
| Text.ContainsIffOccurs | flask_pydanql_api/routes.py:68 | `sep in s` holds exactly when some position of `s` starts an occurrence of `sep` |
| Text.FirstCharAbsent | flask_pydanql_api/routes.py:68 | a key without `_` holds no `__` anywhere |
| Text.Split | flask_pydanql_api/routes.py:69 | `split` yields the whole text when the separator is absent and at least two parts when present |
| Text.JoinSplit | flask_pydanql_api/routes.py:69 | joining the parts of `split` with the separator gives the text back |
| Text.SplitAtFirst | flask_pydanql_api/routes.py:69 | `a + sep + b` splits into exactly `a` and `b` when that separator is the first and `b` holds none |
| Text.SplitOnComma | flask_pydanql_api/routes.py:75 | `a,b` splits on the comma into `a` and `b` when neither holds a comma |
| Text.ParseInt | flask_pydanql_api/routes.py:75 | text accepted by `int()` consists of digits and a sign only |
| Text.IntegerTextHasNoComma | flask_pydanql_api/routes.py:75 | integer text never holds a comma, so a range value splits between its two integers |
| Text.DigitsRoundTrip | flask_pydanql_api/routes.py:75 | the digits of a natural number read back as that number |
| Text.IntRoundTrip | flask_pydanql_api/routes.py:75 | `int(str(i)) == i` for every integer |
| Values.Keys | flask_pydanql_api/routes.py:51 | `list(d.keys())` has one key per item, in order |
| Values.Show | flask_pydanql_api/routes.py:95 | a text value is formatted as itself, and an integer as text that `int()` reads back as that integer |
| Values.AsMap | flask_pydanql_api/routes.py:181 | a dict built from pairs has exactly the pairs' keys |
| Values.AsMapLastWins | flask_pydanql_api/routes.py:181 | a dict built from pairs holds, for each key, the value of its last pair |
| Endpoints.OwnMethods | flask_pydanql_api/__init__.py:43-46 | a name is discovered iff some member with that name is a function, not a dunder name, and defined in the model class itself |
| Endpoints.DefaultFilter | flask_pydanql_api/__init__.py:29-31 | the default hook returns a dict whose constraint every record satisfies |
| Endpoints.DefaultNames | flask_pydanql_api/__init__.py:39-49 | the default list starts with the annotated fields, and holds exactly the fields and the own methods |
| Endpoints.Configure | flask_pydanql_api/__init__.py:33-50 | `NotImplementedError` iff slug or model is missing; explicitly set lists are kept; each unset list is the annotated fields followed by the model's own methods |
| Endpoints.PrivateMethodDiscovered | flask_pydanql_api/__init__.py:45 | a function named with only a `__` prefix is still discovered |
| Endpoints.InheritedMemberIgnored | flask_pydanql_api/__init__.py:46 | a member defined in a base class is never discovered |
| Endpoints.CarMethodsDiscovered | flask_pydanql_api/__init__.py:43-46 | for the example car model only `description` and `miles_per_year` are discovered |
| Endpoints.CarEndpointDefaults | flask_pydanql_api/__init__.py:48-50 | the car endpoint's default lists are the six fields the car model declares itself followed by its two methods |
| Endpoints.Endpoint.constructor | flask_pydanql_api/__init__.py:23-27 | the class attributes are those the class body declares |
| Endpoints.Endpoint.InitSubclass | flask_pydanql_api/__init__.py:33-50 | the outcome is `Configure` of the declared attributes; on error nothing changes; on success the completed lists are written back |
| FilterCompiler.CoerceEach | flask_pydanql_api/routes.py:82 | the list is valid iff every part coerces, and then holds each part's coerced value in order |
| FilterCompiler.RangeBoundsReadsTwoIntegerTexts | flask_pydanql_api/routes.py:75 | a range value is accepted only as two integer texts joined by a comma, read in order |
| FilterCompiler.RangeOfIntegerTexts | flask_pydanql_api/routes.py:75 | two integer texts joined by a comma are accepted as those two integers |
| FilterCompiler.RangeBoundsRoundTrip | flask_pydanql_api/routes.py:75 | printing `low,high` and reading the range back gives `(low, high)` |
| FilterCompiler.CompileEntry | flask_pydanql_api/routes.py:64-107 | a key is skipped iff it is a paging keyword; an accepted entry writes the key's field part, which is allowed |
| FilterCompiler.CompileFilters | flask_pydanql_api/routes.py:49-107 | the loop returns the compilation of the query pairs then the constraint pairs, against the allowed fields plus the constraint's keys |
| FilterCompiler.FailureIsFinal | flask_pydanql_api/routes.py:71-106 | once a pair is rejected, later pairs do not change the outcome |
| FilterCompiler.StopsAt | flask_pydanql_api/routes.py:64-107 | the first rejected pair decides the outcome of the whole compilation |
| FilterCompiler.EveryEntryAccepted | flask_pydanql_api/routes.py:64-107 | a successful compilation accepted every pair |
| FilterCompiler.ReservedKeysIgnored | flask_pydanql_api/routes.py:65-66 | dropping the `offset`, `count` and `sort` pairs leaves the outcome unchanged |
| FilterCompiler.Compile | flask_pydanql_api/routes.py:64-107 | every filter of a successful compilation is on an allowed field |
| FilterCompiler.ReservedNeverFiltered | flask_pydanql_api/routes.py:65-66 | no paging keyword becomes a filter unless it is itself an allowed field |
| FilterCompiler.UnknownFieldRejected | flask_pydanql_api/routes.py:70-71 | a key whose field part is not allowed is rejected with 400 `Invalid field: <field>` |
| FilterCompiler.UnknownFieldEndsCompilation | flask_pydanql_api/routes.py:100-102 | an unknown field rejects the whole query with that 400 |
| FilterCompiler.DoubleSeparatorCrashes | flask_pydanql_api/routes.py:69 | a key with two or more `__` raises on unpacking |
| FilterCompiler.PlainKeyEquality | flask_pydanql_api/routes.py:100-107 | an allowed annotated plain key is an equality with the coerced value, or 400 `Invalid value for <key>` with the parser's detail |
| FilterCompiler.UnannotatedFieldCrashes | flask_pydanql_api/routes.py:104 | an allowed but unannotated plain key raises `KeyError` |
| FilterCompiler.AnnotatedAllowListNeverMissesKey | flask_pydanql_api/routes.py:82-104 | when every allowed name is annotated, compilation never raises `KeyError` |
| FilterCompiler.SplitCommandKey | flask_pydanql_api/routes.py:68-69 | `field__cmd` splits into field and command when the field is plain |
| FilterCompiler.RangeOfTwoIntegers | flask_pydanql_api/routes.py:73-78 | `field__range=a,b` with two integers is the range [a, b] as given |
| FilterCompiler.RangeNeedsTwoIntegers | flask_pydanql_api/routes.py:74-77 | any other range value is 400 `Invalid range value for <field>` |
| FilterCompiler.InCoercesEachPart | flask_pydanql_api/routes.py:80-85 | `field__in` coerces every comma-separated part to the field's type, or is 400 `Invalid in value for <field>`; a non-text value or an unannotated field raises |
| FilterCompiler.CompareCoercesValue | flask_pydanql_api/routes.py:87-92 | `field__gt`/`field__lt` compare with the value coerced to the field's type, or are 400 `Invalid value for <field>`; an unannotated field raises |
| FilterCompiler.LikeWrapsVerbatim | flask_pydanql_api/routes.py:94-95 | `field__like=v` is the pattern `%v%` |
| FilterCompiler.UnknownCommandRejected | flask_pydanql_api/routes.py:97-98 | any other command is 400 `Invalid command: <cmd>` |
| FilterCompiler.LastWriterWins | flask_pydanql_api/routes.py:64-107 | a field's filter is the one written by the last pair that writes it |
| FilterCompiler.HookConstraintWins | flask_pydanql_api/routes.py:49-51 | a plain constraint pair `k = v` is the final filter on `k`, whatever the query says |
| Routes.ExtendQuery | flask_pydanql_api/routes.py:28-44 | 404 iff the table is unknown; the constraint is the hook's dict, or empty without a hook or for a non-dict result; an exception only from the hook |
| Routes.Project | flask_pydanql_api/routes.py:111-113 | the reply holds exactly the visible names that are fields or methods; a method's value is its call on the record and wins over a field |
| Routes.ProjectAll | flask_pydanql_api/routes.py:111-115 | one projected reply per record found, in order |
| Routes.FindFilters | flask_pydanql_api/routes.py:46-109 | 404 for an unknown table; a hook failure is passed on; otherwise the compilation of the query then the constraint, except that a filter named `offset`, `count` or `sort` raises on the duplicate keyword |
| Routes.Find | flask_pydanql_api/routes.py:46-117 | a failure of the filters is the reply; otherwise the projection of exactly the records storage returns for those filters, so replies hold visible names only |
| Routes.FindOne | flask_pydanql_api/routes.py:125 | a record is found only under its slug and only when it has every constraint value; otherwise the slug is absent or some constraint value differs |
| Routes.Get | flask_pydanql_api/routes.py:141-167 | 500 when the constraint repeats `slug`; 404 when no record matches; otherwise the projection of the stored record, which matches the constraint; nothing but the hook raises |
| Routes.Delete | flask_pydanql_api/routes.py:119-139 | 500 when the constraint repeats `slug`; 404 when no record matches; success removes exactly the matching target record; any other outcome leaves the collection unchanged; nothing but the hook raises |
| Routes.Overlay | flask_pydanql_api/routes.py:181 | `{**base, **top}` has the keys of both and takes `top`'s value where both have one |
| Routes.Create | flask_pydanql_api/routes.py:169-204 | success adds exactly one record under the fresh slug, stamped with it, and redirects to it; otherwise nothing changes; nothing but the hook raises |
| Routes.Update | flask_pydanql_api/routes.py:206-225 | the set of stored slugs never changes; success found the record and changes at most the redirect target; otherwise nothing changes |
| Routes.UnknownTableNotFound | flask_pydanql_api/routes.py:32-34 | every route answers 404 for an unknown table and leaves storage alone |
| Routes.NonDictHookResultIgnored | flask_pydanql_api/routes.py:40-41 | a non-dict hook result gives the same empty constraint as the default hook |
| Routes.FindEnforcesHookConstraint | flask_pydanql_api/routes.py:49-51 | a plain constraint pair is the equality filter storage receives for its field |
| Routes.UnannotatedQueryCrashes | flask_pydanql_api/routes.py:104 | under any hook constraint, a query on an allowed but unannotated name, such as a default-allowed method, raises `KeyError` |
| Routes.GetHidesUnmatchedRecord | flask_pydanql_api/routes.py:151-155 | `get` answers for a record outside its constraint exactly as if it did not exist |
| Routes.DeleteHidesUnmatchedRecord | flask_pydanql_api/routes.py:125-129 | `delete` answers for a record outside its constraint as if it did not exist, and keeps it |
| Routes.UpdateHidesUnmatchedRecord | flask_pydanql_api/routes.py:212-215 | `update` answers for a record outside its constraint as if it did not exist, and keeps it |
| Routes.DeleteTwiceNotFound | flask_pydanql_api/routes.py:125-134 | deleting again answers 404 and changes nothing |
| Routes.CreateAddsOneRecord | flask_pydanql_api/routes.py:178-197 | the added record is the model's validation of the body overlaid with the constraint, stamped with the fresh slug |
| Routes.CreateThenGet | flask_pydanql_api/routes.py:169-197 | `get` on the slug `create` redirects to answers with the projection of the record just added |
| Routes.UpdateReplacesOneRecord | flask_pydanql_api/routes.py:217-225 | success validates the stored record overlaid with the body and writes it under the slug it carries, if stored |
| Routes.UpdateOfUnmatchedRecordNotFound | flask_pydanql_api/routes.py:212-215 | a failed lookup answers 404 `Entry not found` and writes nothing |
| Routes.UpdateBodySlugRetargets | flask_pydanql_api/routes.py:217-225 | a `slug` in the body redirects the write to that other record |
| Routes.CreateKeepsStoreWellKeyed | flask_pydanql_api/routes.py:188-191 | create keeps every record stored under its own slug |
| Routes.UpdateKeepsStoreWellKeyed | flask_pydanql_api/routes.py:217-223 | update keeps every record stored under its own slug |
| Routes.DeleteKeepsStoreWellKeyed | flask_pydanql_api/routes.py:125-132 | delete keeps every record stored under its own slug |
| Scenarios.CarFieldTypes | app.py:7-13 | `color` and `owner` are strings and `description` is not a field |
| Scenarios.OwnerFilter | app.py:24-36 | without a token the hook raises; updates get a non-dict reply; every other operation is constrained to records whose `owner` is the user |
| Scenarios.FindConstraint | app.py:24-28 | under the example hook, `find` runs constrained to the signed-in owner |
| Scenarios.CompileColorYearOwner | flask_pydanql_api/routes.py:64-107 | the pairs `color=red`, `year__range=2015,2020`, `owner=u` compile to the three expected filters |
| Scenarios.OwnCarsByColorAndYear | flask_pydanql_api/routes.py:46-109 | `find?color=red&year__range=2015,2020` as user `u` asks storage for red 2015–2020 cars owned by `u` |
| Scenarios.CompileOwnerTwice | flask_pydanql_api/routes.py:107 | of two equalities on one field, the later one is the filter |
| Scenarios.OtherOwnerOverridden | app.py:27-28 | asking for another owner's cars still queries the user's own |
| Scenarios.NoTokenNoAccess | app.py:25 | without a valid token every route ends in the hook's exception, before storage is touched |
| Scenarios.AnyUserReachesAnyCarForUpdate | app.py:36 | the example hook's reply tuple for updates is dropped, so update finds any stored car |
| Scenarios.DefaultCarEndpointMethodQueryCrashes | flask_pydanql_api/__init__.py:43-50 | a default car endpoint allows querying `description`, and that query raises `KeyError` |

## Left out

- The Flask plumbing is not modelled: route registration, the
  `before_request` connection set-up, `after_request` closing it,
  `jsonify` and `url_for`. A reply is an `Outcome`, and a redirect is
  `RedirectToGet`.
- `PydanqlAPI.__init__` and `init_app` are not modelled. They only store
  a configuration default and register the routes.
- The example application's configuration dict (`app.py:51-58`) is not
  modelled. It uses an older configuration shape, so the scenarios
  declare the same car endpoint as an `Endpoint`.
- Storage is modelled as a map from record slug to record data: `find_one`
  is a lookup plus the constraint's equalities, and `add`, `replace` and
  `delete` are map updates. pydanql is not part of this model, so how its
  `replace` picks the row to overwrite (records also carry an `id`) is not
  captured; that update writes the record under its new slug is a
  consequence of this slug-keyed storage. `find_many` is an abstract parameter, and
  sorting and paging are passed through without effect.
- pydantic's `parse_obj_as` and model construction are abstract
  parameters. Their validation rules and error lists are not modelled.
  Floats, dates and UUID typing are not modelled.
- Text.ParseInt: Python's `int()` also accepts surrounding whitespace,
  digit-group underscores and non-ASCII digits. The model accepts only an
  optional sign followed by ASCII digits.
- The query string is any sequence of string pairs. Werkzeug's handling of
  repeated keys in `request.args.items()` (only the first value of each key)
  is not modelled.
- The `offset` and `count` arguments are read with `type=int`, and `sort`
  with `type=str`; Werkzeug silently drops a value that does not parse. The model passes the
  parsed `Page` as given.
- A request body that is JSON but not an object is not modelled; bodies are
  `Option<Data>`. Flask's own 415 reply for a request whose content type
  is not JSON is not modelled either.
- The detail texts of error replies are opaque strings. The create reply
  for a missing body carries its text under `message`, and the update reply
  for invalid data carries it under `details`; both appear as the `detail`
  of `Err`.
- Exceptions other than those named in `CrashReason` are not modelled. Such
  exceptions would come from storage, from a visible method, or from
  `url_for`. Get, delete and create catch them as 500; update does not.
- The scenarios list only the fields the car model declares itself. The
  `id` and `slug` it inherits from pydanql's base model are not listed,
  since pydanql is not part of this model.
- `inspect.getmembers` lists members sorted by name. The model takes the
  member list in the order given.
- Dict key order in replies is not modelled. Replies are maps.
- `print` calls and logging are not modelled.
