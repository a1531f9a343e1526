/**
 * The query-filter compiler of the `find` handler
 * (`flask_pydanql_api/routes.py`): it turns the query string's
 * (key, value) pairs, followed by the authorization hook's constraint
 * pairs, into one filter per field, or stops at the first pair it
 * rejects. A key is `field` (equality) or `field__cmd` with a command
 * among `range`, `in`, `gt`, `lt`, `like`; `offset`, `count` and
 * `sort` are skipped.
 */
module FilterCompiler {
  import opened Wrappers
  import opened Text
  import opened Values

  /** The condition compiled for one field. */
  datatype Filter =
    | Equals(value: Value)
    | Range(low: int, high: int)
    | In(values: seq<Value>)
    | Gt(value: Value)
    | Lt(value: Value)
    | Like(pattern: string)

  /** The `filters` dict handed to the storage layer. */
  type Filters = map<string, Filter>

  /** Keys that carry paging and sorting, never a filter. */
  const Reserved: seq<string> := ["offset", "count", "sort"]

  /** What separates a field from its command in a key. */
  const Separator: string := "__"

  /** The field a key names: the whole key, or the part before its `__`. */
  function FieldPart(key: string): string
  {
    Split(key, Separator)[0]
  }

  /** A field name that comes back intact from splitting `field__cmd`. */
  predicate PlainName(field: string)
  {
    !Contains(field, Separator) && (|field| == 0 || field[|field| - 1] != '_')
  }

  /** `low, high = map(int, value.split(","))`: exactly two integers, in the given order. */
  function RangeBounds(value: string): Option<(int, int)>
  {
    var parts := Split(value, ",");
    if |parts| == 2 && ParseInt(parts[0]).Some? && ParseInt(parts[1]).Some? then
      Some((ParseInt(parts[0]).value, ParseInt(parts[1]).value))
    else
      None
  }

  /** A range value is accepted only when it is two integer texts joined by one comma. */
  lemma RangeBoundsReadsTwoIntegerTexts(value: string)
    ensures RangeBounds(value).Some? ==>
      exists a, b :: value == a + "," + b && ParseInt(a) == Some(RangeBounds(value).value.0)
                                          && ParseInt(b) == Some(RangeBounds(value).value.1)
  {
    var parts := Split(value, ",");
    if |parts| == 2 && ParseInt(parts[0]).Some? && ParseInt(parts[1]).Some? {
      JoinSplit(value, ",");
      assert parts[1..] == [parts[1]];
      assert value == parts[0] + "," + parts[1];
    }
  }

  /** Two integer texts joined by a comma are read back as those two integers, in order. */
  lemma RangeOfIntegerTexts(a: string, b: string)
    requires ParseInt(a).Some? && ParseInt(b).Some?
    ensures RangeBounds(a + "," + b) == Some((ParseInt(a).value, ParseInt(b).value))
  {
    IntegerTextHasNoComma(a);
    IntegerTextHasNoComma(b);
    SplitOnComma(a, b);
  }

  /** Printing two integers as `low,high` and reading the range back gives them again. */
  lemma RangeBoundsRoundTrip(low: int, high: int)
    ensures RangeBounds(IntToString(low) + "," + IntToString(high)) == Some((low, high))
  {
    IntRoundTrip(low);
    IntRoundTrip(high);
    RangeOfIntegerTexts(IntToString(low), IntToString(high));
  }

  /** `[parse_obj_as(ty, part) for part in parts]`: every part coerced, or a failure. */
  function CoerceEach(coerce: Coercion, ty: FieldType, parts: seq<string>): (r: Validated<seq<Value>>)
    ensures r.Valid? <==> forall i :: 0 <= i < |parts| ==> coerce(ty, Str(parts[i])).Valid?
    ensures r.Valid? ==> |r.value| == |parts|
    ensures r.Valid? ==> forall i :: 0 <= i < |parts| ==> r.value[i] == coerce(ty, Str(parts[i])).value
    decreases |parts|
  {
    if parts == [] then Valid([])
    else
      match coerce(ty, Str(parts[0]))
      case Invalid(d) => Invalid(d)
      case Valid(v) =>
        match CoerceEach(coerce, ty, parts[1..])
        case Invalid(d) => Invalid(d)
        case Valid(vs) => Valid([v] + vs)
  }

  /**
   * One turn of the loop over the pairs: `Done(None)` skips a reserved
   * key, `Done(Some((field, filter)))` is the assignment
   * `filters[field] = filter`, anything else ends the compilation.
   * `allowed` is the endpoint's allowed query fields followed by the
   * hook's keys, `types` the model's annotations.
   */
  function CompileEntry(key: string, value: Value, allowed: seq<string>, types: map<string, FieldType>,
                        coerce: Coercion): (r: Outcome<Option<(string, Filter)>>)
    ensures r.Done? && r.value.None? <==> key in Reserved
    ensures r.Done? && r.value.Some? ==> r.value.value.0 == FieldPart(key) && FieldPart(key) in allowed
  {
    if key in Reserved then Done(None)
    else if Contains(key, Separator) then
      var parts := Split(key, Separator);
      if |parts| != 2 then Crash(UnpackMismatch)
      else
        var field, cmd := parts[0], parts[1];
        if field !in allowed then Err(400, "Invalid field: " + field, None)
        else if cmd == "range" then
          if !value.Str? then Crash(NotAString)
          else
            match RangeBounds(value.s)
            case Some((low, high)) => Done(Some((field, Range(low, high))))
            case None => Err(400, "Invalid range value for " + field, None)
        else if cmd == "in" then
          if !value.Str? then Crash(NotAString)
          else if field !in types then Crash(MissingKey(field))
          else
            match CoerceEach(coerce, types[field], Split(value.s, ","))
            case Valid(vs) => Done(Some((field, In(vs))))
            case Invalid(d) => Err(400, "Invalid in value for " + field, Some(d))
        else if cmd == "gt" || cmd == "lt" then
          if field !in types then Crash(MissingKey(field))
          else
            match coerce(types[field], value)
            case Valid(v) => Done(Some((field, if cmd == "gt" then Gt(v) else Lt(v))))
            case Invalid(d) => Err(400, "Invalid value for " + field, Some(d))
        else if cmd == "like" then
          Done(Some((field, Like("%" + Show(value) + "%"))))
        else
          Err(400, "Invalid command: " + cmd, None)
    else if key !in allowed then Err(400, "Invalid field: " + key, None)
    else if key !in types then Crash(MissingKey(key))
    else
      match coerce(types[key], value)
      case Valid(v) => Done(Some((key, Equals(v))))
      case Invalid(d) => Err(400, "Invalid value for " + key, Some(d))
  }

  /** The effect of one turn on the filters compiled so far. */
  function Assign(filters: Filters, entry: Outcome<Option<(string, Filter)>>): Outcome<Filters>
  {
    match entry
    case Done(None) => Done(filters)
    case Done(Some((field, filter))) => Done(filters[field := filter])
    case _ => entry.Propagate()
  }

  /** The filters the loop has built after the given pairs, or the failure that stopped it. */
  function Compile(pairs: Pairs, allowed: seq<string>, types: map<string, FieldType>, coerce: Coercion)
    : (r: Outcome<Filters>)
    ensures r.Done? ==> forall field :: field in r.value ==> field in allowed
    decreases |pairs|
  {
    if pairs == [] then Done(map[])
    else
      var prior := Compile(pairs[..|pairs| - 1], allowed, types, coerce);
      if !prior.Done? then prior
      else
        var last := pairs[|pairs| - 1];
        Assign(prior.value, CompileEntry(last.0, last.1, allowed, types, coerce))
  }

  /** One more pair: the compilation so far, extended by that pair's turn. */
  lemma CompileStep(pairs: Pairs, allowed: seq<string>, types: map<string, FieldType>, coerce: Coercion, i: nat)
    requires i < |pairs|
    requires Compile(pairs[..i], allowed, types, coerce).Done?
    ensures Compile(pairs[..i + 1], allowed, types, coerce)
         == Assign(Compile(pairs[..i], allowed, types, coerce).value,
                   CompileEntry(pairs[i].0, pairs[i].1, allowed, types, coerce))
  {
    assert pairs[..i + 1][..i] == pairs[..i];
  }

  /**
   * The loop of the `find` handler: the request's pairs followed by the
   * hook's, checked against the allowed fields plus the hook's keys,
   * written into `filters` one by one, returning at the first failure.
   */
  method CompileFilters(args: Pairs, hook: Pairs, allowedQueryFields: seq<string>,
                        types: map<string, FieldType>, coerce: Coercion) returns (r: Outcome<Filters>)
    ensures r == Compile(args + hook, allowedQueryFields + Keys(hook), types, coerce)
  {
    var combined := args + hook;
    var allowed := allowedQueryFields + Keys(hook);
    var filters: Filters := map[];
    var i := 0;
    while i < |combined|
      invariant 0 <= i <= |combined|
      invariant Compile(combined[..i], allowed, types, coerce) == Done(filters)
    {
      var (key, value) := combined[i];
      var entry := CompileEntry(key, value, allowed, types, coerce);
      if !entry.Done? {
        StopsAt(combined, allowed, types, coerce, i);
        return entry.Propagate();
      }
      CompileStep(combined, allowed, types, coerce, i);
      if entry.value.Some? {
        var (field, filter) := entry.value.value;
        filters := filters[field := filter];
      }
      i := i + 1;
    }
    assert combined[..i] == combined;
    return Done(filters);
  }

  /** Once compilation has failed, later pairs change nothing. */
  lemma {:induction false} FailureIsFinal(pairs: Pairs, more: Pairs, allowed: seq<string>,
                                          types: map<string, FieldType>, coerce: Coercion)
    requires !Compile(pairs, allowed, types, coerce).Done?
    ensures Compile(pairs + more, allowed, types, coerce) == Compile(pairs, allowed, types, coerce)
    decreases |more|
  {
    if more == [] {
      assert pairs + more == pairs;
    } else {
      var init := more[..|more| - 1];
      FailureIsFinal(pairs, init, allowed, types, coerce);
      assert (pairs + more)[..|pairs + more| - 1] == pairs + init;
    }
  }

  /** The first rejected pair decides the result, whatever follows it. */
  lemma StopsAt(pairs: Pairs, allowed: seq<string>, types: map<string, FieldType>, coerce: Coercion, i: nat)
    requires i < |pairs|
    requires Compile(pairs[..i], allowed, types, coerce).Done?
    requires !CompileEntry(pairs[i].0, pairs[i].1, allowed, types, coerce).Done?
    ensures Compile(pairs, allowed, types, coerce) == CompileEntry(pairs[i].0, pairs[i].1, allowed, types, coerce).Propagate()
  {
    assert pairs[..i + 1][..i] == pairs[..i];
    FailureIsFinal(pairs[..i + 1], pairs[i + 1..], allowed, types, coerce);
    assert pairs[..i + 1] + pairs[i + 1..] == pairs;
  }

  /** A successful compilation accepted every pair. */
  lemma {:induction false} EveryEntryAccepted(pairs: Pairs, allowed: seq<string>, types: map<string, FieldType>,
                                              coerce: Coercion, i: nat)
    requires i < |pairs|
    requires Compile(pairs, allowed, types, coerce).Done?
    ensures Compile(pairs[..i], allowed, types, coerce).Done?
    ensures CompileEntry(pairs[i].0, pairs[i].1, allowed, types, coerce).Done?
    decreases |pairs|
  {
    var init := pairs[..|pairs| - 1];
    if i < |pairs| - 1 {
      EveryEntryAccepted(init, allowed, types, coerce, i);
      assert init[..i] == pairs[..i];
    }
  }

  /** The pairs without those whose key is reserved. */
  function WithoutReserved(pairs: Pairs): Pairs
    decreases |pairs|
  {
    if pairs == [] then []
    else
      var last := pairs[|pairs| - 1];
      WithoutReserved(pairs[..|pairs| - 1]) + (if last.0 in Reserved then [] else [last])
  }

  /** Paging and sorting keys play no part in the filters, whatever their values. */
  lemma {:induction false} ReservedKeysIgnored(pairs: Pairs, allowed: seq<string>, types: map<string, FieldType>,
                                               coerce: Coercion)
    ensures Compile(pairs, allowed, types, coerce) == Compile(WithoutReserved(pairs), allowed, types, coerce)
    decreases |pairs|
  {
    if pairs != [] {
      var init := pairs[..|pairs| - 1];
      var last := pairs[|pairs| - 1];
      ReservedKeysIgnored(init, allowed, types, coerce);
      var w := WithoutReserved(init);
      if last.0 !in Reserved {
        assert (w + [last])[..|w + [last]| - 1] == w;
      } else {
        assert WithoutReserved(pairs) == w;
      }
    }
  }

  /** So, unless a model field is itself named so, `offset`, `count` and `sort` never become filters. */
  lemma ReservedNeverFiltered(pairs: Pairs, allowed: seq<string>, types: map<string, FieldType>, coerce: Coercion)
    requires Compile(pairs, allowed, types, coerce).Done?
    requires forall k :: k in Reserved ==> k !in allowed
    ensures forall k :: k in Reserved ==> k !in Compile(pairs, allowed, types, coerce).value
  {
  }

  /**
   * A key whose field is not allowed is rejected with 400 naming the
   * field, before its command or value is looked at.
   */
  lemma UnknownFieldRejected(key: string, value: Value, allowed: seq<string>, types: map<string, FieldType>,
                             coerce: Coercion)
    requires key !in Reserved
    requires |Split(key, Separator)| <= 2
    requires FieldPart(key) !in allowed
    ensures CompileEntry(key, value, allowed, types, coerce) == Err(400, "Invalid field: " + FieldPart(key), None)
  {
  }

  /** ... and that rejection is the result of the whole compilation. */
  lemma UnknownFieldEndsCompilation(pairs: Pairs, allowed: seq<string>, types: map<string, FieldType>,
                                    coerce: Coercion, i: nat)
    requires i < |pairs| && Compile(pairs[..i], allowed, types, coerce).Done?
    requires pairs[i].0 !in Reserved && |Split(pairs[i].0, Separator)| <= 2
    requires FieldPart(pairs[i].0) !in allowed
    ensures Compile(pairs, allowed, types, coerce) == Err(400, "Invalid field: " + FieldPart(pairs[i].0), None)
  {
    UnknownFieldRejected(pairs[i].0, pairs[i].1, allowed, types, coerce);
    StopsAt(pairs, allowed, types, coerce, i);
  }

  /** A key with two or more `__` escapes as an exception (the unpacking fails). */
  lemma DoubleSeparatorCrashes(key: string, value: Value, allowed: seq<string>, types: map<string, FieldType>,
                               coerce: Coercion)
    requires key !in Reserved
    requires |Split(key, Separator)| > 2
    ensures CompileEntry(key, value, allowed, types, coerce) == Crash(UnpackMismatch)
  {
  }

  /**
   * A plain key (no `__`) that is allowed and annotated compiles to
   * equality with its coerced value, or to 400 when coercion rejects it.
   */
  lemma PlainKeyEquality(key: string, value: Value, allowed: seq<string>, types: map<string, FieldType>,
                         coerce: Coercion)
    requires key !in Reserved && !Contains(key, Separator)
    requires key in allowed && key in types
    ensures coerce(types[key], value).Valid? ==>
      CompileEntry(key, value, allowed, types, coerce) == Done(Some((key, Equals(coerce(types[key], value).value))))
    ensures coerce(types[key], value).Invalid? ==>
      CompileEntry(key, value, allowed, types, coerce)
        == Err(400, "Invalid value for " + key, Some(coerce(types[key], value).detail))
  {
  }

  /** An allowed name that is not an annotated field (a method name, say) escapes as `KeyError`. */
  lemma UnannotatedFieldCrashes(key: string, value: Value, allowed: seq<string>, types: map<string, FieldType>,
                                coerce: Coercion)
    requires key !in Reserved && !Contains(key, Separator)
    requires key in allowed && key !in types
    ensures CompileEntry(key, value, allowed, types, coerce) == Crash(MissingKey(key))
  {
  }

  /** When every allowed name is an annotated field, no `KeyError` can escape. */
  lemma {:induction false} AnnotatedAllowListNeverMissesKey(pairs: Pairs, allowed: seq<string>,
                                                             types: map<string, FieldType>, coerce: Coercion)
    requires forall a :: a in allowed ==> a in types
    ensures !(Compile(pairs, allowed, types, coerce).Crash? && Compile(pairs, allowed, types, coerce).reason.MissingKey?)
    decreases |pairs|
  {
    if pairs != [] {
      AnnotatedAllowListNeverMissesKey(pairs[..|pairs| - 1], allowed, types, coerce);
    }
  }

  /** In `field__cmd` with a plain field, no `__` starts inside the field. */
  lemma NoSeparatorInField(field: string, cmd: string)
    requires PlainName(field)
    ensures forall j: nat :: j < |field| ==> !OccursAt(field + Separator + cmd, Separator, j)
  {
    var key := field + Separator + cmd;
    forall j: nat | j < |field|
      ensures !OccursAt(key, Separator, j)
    {
      if j + 1 < |field| {
        assert key[j..j + 2] == field[j..j + 2];
        if OccursAt(field, Separator, j) {
          OccurrenceIsContained(field, Separator, j);
        }
      } else {
        assert key[j] == field[|field| - 1];
      }
    }
  }

  /** A key holding an underscore is none of the paging keywords. */
  lemma UnderscoreNotReserved(key: string, i: nat)
    requires i < |key| && key[i] == '_'
    ensures key !in Reserved
  {
    assert '_' in key;
    assert '_' !in "offset" && '_' !in "count" && '_' !in "sort";
  }

  /** `field__cmd` splits back into `field` and `cmd`. */
  lemma SplitCommandKey(field: string, cmd: string)
    requires PlainName(field)
    requires '_' !in cmd
    ensures Contains(field + Separator + cmd, Separator)
    ensures Split(field + Separator + cmd, Separator) == [field, cmd]
    ensures field + Separator + cmd !in Reserved
  {
    var key := field + Separator + cmd;
    NoSeparatorInField(field, cmd);
    FirstCharAbsent(cmd, Separator);
    SplitAtFirst(field, Separator, cmd);
    UnderscoreNotReserved(key, |field|);
  }

  /**
   * `field__range=a,b` with two integers compiles to the range [a, b]
   * exactly as given (no reordering), whatever the field's type.
   */
  lemma RangeOfTwoIntegers(field: string, a: string, b: string, allowed: seq<string>, types: map<string, FieldType>,
                           coerce: Coercion)
    requires PlainName(field) && field in allowed
    requires ParseInt(a).Some? && ParseInt(b).Some?
    ensures CompileEntry(field + "__range", Str(a + "," + b), allowed, types, coerce)
         == Done(Some((field, Range(ParseInt(a).value, ParseInt(b).value))))
  {
    SplitCommandKey(field, "range");
    assert field + "__range" == field + Separator + "range";
    RangeOfIntegerTexts(a, b);
  }

  /** Any other range value (not exactly two integer parts) is rejected with 400. */
  lemma RangeNeedsTwoIntegers(field: string, v: string, allowed: seq<string>, types: map<string, FieldType>,
                              coerce: Coercion)
    requires PlainName(field) && field in allowed
    requires var parts := Split(v, ","); !(|parts| == 2 && ParseInt(parts[0]).Some? && ParseInt(parts[1]).Some?)
    ensures CompileEntry(field + "__range", Str(v), allowed, types, coerce)
         == Err(400, "Invalid range value for " + field, None)
  {
    SplitCommandKey(field, "range");
    assert field + "__range" == field + Separator + "range";
  }

  /** `field__like=v` becomes the pattern `%v%`, with no type lookup or coercion. */
  lemma LikeWrapsVerbatim(field: string, v: string, allowed: seq<string>, types: map<string, FieldType>,
                          coerce: Coercion)
    requires PlainName(field) && field in allowed
    ensures CompileEntry(field + "__like", Str(v), allowed, types, coerce) == Done(Some((field, Like("%" + v + "%"))))
  {
    SplitCommandKey(field, "like");
    assert field + "__like" == field + Separator + "like";
  }

  /**
   * `field__in=a,b,…` coerces every comma-separated part to the field's
   * type: membership in the coerced values, or 400 with the parser's
   * detail. A value that is not text, or a field without annotation,
   * raises instead.
   */
  lemma InCoercesEachPart(field: string, value: Value, allowed: seq<string>, types: map<string, FieldType>,
                          coerce: Coercion)
    requires PlainName(field) && field in allowed
    ensures !value.Str? ==> CompileEntry(field + "__in", value, allowed, types, coerce) == Crash(NotAString)
    ensures value.Str? && field !in types ==>
      CompileEntry(field + "__in", value, allowed, types, coerce) == Crash(MissingKey(field))
    ensures value.Str? && field in types ==>
      var each := CoerceEach(coerce, types[field], Split(value.s, ","));
      && (each.Valid? ==> CompileEntry(field + "__in", value, allowed, types, coerce) == Done(Some((field, In(each.value)))))
      && (each.Invalid? ==>
            CompileEntry(field + "__in", value, allowed, types, coerce)
              == Err(400, "Invalid in value for " + field, Some(each.detail)))
  {
    SplitCommandKey(field, "in");
    assert field + "__in" == field + Separator + "in";
  }

  /**
   * `field__gt=v` and `field__lt=v` coerce `v` to the field's type: the
   * comparison with the coerced value, or 400 with the parser's detail;
   * a field without annotation raises.
   */
  lemma CompareCoercesValue(field: string, cmd: string, value: Value, allowed: seq<string>,
                            types: map<string, FieldType>, coerce: Coercion)
    requires PlainName(field) && field in allowed
    requires cmd == "gt" || cmd == "lt"
    ensures field !in types ==> CompileEntry(field + Separator + cmd, value, allowed, types, coerce) == Crash(MissingKey(field))
    ensures field in types && coerce(types[field], value).Valid? ==>
      var v := coerce(types[field], value).value;
      CompileEntry(field + Separator + cmd, value, allowed, types, coerce)
        == Done(Some((field, if cmd == "gt" then Gt(v) else Lt(v))))
    ensures field in types && coerce(types[field], value).Invalid? ==>
      CompileEntry(field + Separator + cmd, value, allowed, types, coerce)
        == Err(400, "Invalid value for " + field, Some(coerce(types[field], value).detail))
  {
    assert '_' !in "gt" && '_' !in "lt";
    SplitCommandKey(field, cmd);
    assert cmd != "range" && cmd != "in" by {
      assert |cmd| == 2 && cmd[0] != 'i';
    }
  }

  /** A command outside range, in, gt, lt and like is rejected with 400 naming it. */
  lemma UnknownCommandRejected(field: string, cmd: string, value: Value, allowed: seq<string>,
                               types: map<string, FieldType>, coerce: Coercion)
    requires PlainName(field) && field in allowed
    requires '_' !in cmd
    requires cmd !in ["range", "in", "gt", "lt", "like"]
    ensures CompileEntry(field + Separator + cmd, value, allowed, types, coerce) == Err(400, "Invalid command: " + cmd, None)
  {
    SplitCommandKey(field, cmd);
  }

  /** The pair writes the filter of `field`. */
  predicate WritesTo(pair: (string, Value), field: string, allowed: seq<string>, types: map<string, FieldType>,
                     coerce: Coercion)
  {
    var entry := CompileEntry(pair.0, pair.1, allowed, types, coerce);
    entry.Done? && entry.value.Some? && entry.value.value.0 == field
  }

  /** A field's filter is the one its last writing pair compiled: later pairs overwrite earlier ones. */
  lemma {:induction false} LastWriterWins(pairs: Pairs, allowed: seq<string>, types: map<string, FieldType>,
                                          coerce: Coercion, i: nat, field: string, filter: Filter)
    requires i < |pairs|
    requires CompileEntry(pairs[i].0, pairs[i].1, allowed, types, coerce) == Done(Some((field, filter)))
    requires forall j :: i < j < |pairs| ==> !WritesTo(pairs[j], field, allowed, types, coerce)
    requires Compile(pairs, allowed, types, coerce).Done?
    ensures field in Compile(pairs, allowed, types, coerce).value
    ensures Compile(pairs, allowed, types, coerce).value[field] == filter
    decreases |pairs|
  {
    var init := pairs[..|pairs| - 1];
    if i < |pairs| - 1 {
      assert !WritesTo(pairs[|pairs| - 1], field, allowed, types, coerce);
      LastWriterWins(init, allowed, types, coerce, i, field, filter);
    }
  }

  /**
   * A plain constraint `k = v` of the authorization hook, whose pairs come
   * after every request pair, decides the filter of `k`: it is equality
   * with the coerced `v`, whatever the client asked for that field.
   */
  lemma HookConstraintWins(args: Pairs, hook: Pairs, allowedQueryFields: seq<string>, types: map<string, FieldType>,
                           coerce: Coercion, k: string, v: Value)
    requires (k, v) in hook && k !in Reserved
    requires DistinctKeys(hook)
    requires forall j :: 0 <= j < |hook| ==> !Contains(hook[j].0, Separator)
    requires Compile(args + hook, allowedQueryFields + Keys(hook), types, coerce).Done?
    ensures k in types && coerce(types[k], v).Valid?
    ensures var filters := Compile(args + hook, allowedQueryFields + Keys(hook), types, coerce).value;
      k in filters && filters[k] == Equals(coerce(types[k], v).value)
  {
    var pairs := args + hook;
    var allowed := allowedQueryFields + Keys(hook);
    var h :| 0 <= h < |hook| && hook[h] == (k, v);
    var i := |args| + h;
    assert pairs[i] == (k, v);
    EveryEntryAccepted(pairs, allowed, types, coerce, i);
    forall j | i < j < |pairs|
      ensures !WritesTo(pairs[j], k, allowed, types, coerce)
    {
      assert pairs[j] == hook[j - |args|];
    }
    LastWriterWins(pairs, allowed, types, coerce, i, k, Equals(coerce(types[k], v).value));
  }
}
