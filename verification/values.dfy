/**
 * Values that flow through the request handlers: query-string and JSON
 * values, the (key, value) pairs of a query string or of a Python dict,
 * and the outcome of a handler (a result, an HTTP error reply, or an
 * exception that nothing in the handler catches).
 */
module Values {
  import opened Wrappers
  import opened Text

  /** A JSON-like value: query-string values are always `Str`. */
  datatype Value = Str(s: string) | Int(i: int) | Bool(b: bool) | Null

  /** Python's `str(v)`, as an f-string renders `v`: a string as itself, an integer in decimal. */
  function Show(v: Value): (r: string)
    ensures v.Str? ==> r == v.s
    ensures v.Int? ==> ParseInt(r) == Some(v.i)
  {
    IntRoundTrip(if v.Int? then v.i else 0);
    match v
    case Str(s) => s
    case Int(i) => IntToString(i)
    case Bool(b) => if b then "True" else "False"
    case Null => "None"
  }

  /** The declared type of a model field (its annotation). */
  datatype FieldType = IntType | FloatType | StrType | BoolType | OtherType(name: string)

  /** What the schema-typed parser returns: a value, or its validation errors. */
  datatype Validated<T> = Valid(value: T) | Invalid(detail: string)

  /** The schema-typed parser (`parse_obj_as`), left abstract. */
  type Coercion = (FieldType, Value) -> Validated<Value>

  /** A record's fields, a JSON object, or a request body. */
  type Data = map<string, Value>

  /** The record stands up to every equality of the constraint. */
  predicate Matches(record: Data, constraint: Data)
  {
    forall k :: k in constraint ==> k in record && record[k] == constraint[k]
  }

  /** The items of a query string or of a Python dict, in order. */
  type Pairs = seq<(string, Value)>

  /** `list(d.keys())`. */
  function Keys<V>(pairs: seq<(string, V)>): (keys: seq<string>)
    ensures |keys| == |pairs|
    ensures forall i :: 0 <= i < |pairs| ==> keys[i] == pairs[i].0
  {
    seq(|pairs|, i requires 0 <= i < |pairs| => pairs[i].0)
  }

  /** A dict's keys are distinct. */
  predicate DistinctKeys<V>(pairs: seq<(string, V)>)
  {
    forall i, j :: 0 <= i < j < |pairs| ==> pairs[i].0 != pairs[j].0
  }

  /** `dict(pairs)`: every key of the pairs, holding the value of its last pair. */
  function AsMap<V>(pairs: seq<(string, V)>): (m: map<string, V>)
    ensures forall k :: k in m <==> k in Keys(pairs)
    decreases |pairs|
  {
    if pairs == [] then map[]
    else
      var init := pairs[..|pairs| - 1];
      assert forall k :: k in Keys(pairs) <==> k in Keys(init) || k == pairs[|pairs| - 1].0 by {
        assert Keys(pairs) == Keys(init) + [pairs[|pairs| - 1].0];
      }
      AsMap(init)[pairs[|pairs| - 1].0 := pairs[|pairs| - 1].1]
  }

  /** The value a dict built from `pairs` keeps for a key is that of the key's last pair. */
  lemma {:induction false} AsMapLastWins<V>(pairs: seq<(string, V)>, i: nat)
    requires i < |pairs|
    requires forall j :: i < j < |pairs| ==> pairs[j].0 != pairs[i].0
    ensures pairs[i].0 in AsMap(pairs) && AsMap(pairs)[pairs[i].0] == pairs[i].1
    decreases |pairs|
  {
    if i < |pairs| - 1 {
      var init := pairs[..|pairs| - 1];
      AsMapLastWins(init, i);
    }
  }

  /** Why an exception escaped a handler. */
  datatype CrashReason =
    | UnpackMismatch     // `field, cmd = key.split('__')` on a key with two or more `__`
    | MissingKey(name: string)  // `model_fields[name]` on a name that is not annotated
    | NotAString         // `.split(",")` on a value that is not a string
    | DuplicateKeyword   // a keyword argument given twice to a storage call
    | NotAMapping        // `{**d}` where `d` is `None`
    | HookRaised         // the authorization hook raised
    | NoSlug             // the record to replace carries no string slug

  /**
   * The outcome of a handler or of one of its steps: a result, an error
   * reply the handler returns itself (status, `error` text, optional
   * `detail`), or an uncaught exception, which the web framework turns
   * into its own 500 reply.
   */
  datatype Outcome<T> =
    | Done(value: T)
    | Err(status: int, error: string, detail: Option<string>)
    | Crash(reason: CrashReason)
  {
    /** The same failure, for a step whose result has another type. */
    function Propagate<U>(): (r: Outcome<U>)
      requires !Done?
      ensures !r.Done? && (Err? <==> r.Err?)
    {
      if Err? then Err(status, error, detail) else Crash(reason)
    }
  }
}
