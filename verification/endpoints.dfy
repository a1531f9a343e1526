/**
 * Endpoint configuration (`flask_pydanql_api/__init__.py`): an endpoint
 * names its URL slug and its model class; when a subclass is defined,
 * its visible and queryable names default to the model's annotated
 * fields followed by the methods the model class defines itself.
 */
module Endpoints {
  import opened Wrappers
  import opened Text
  import opened Values

  /** One entry of `inspect.getmembers(model)`, which lists members sorted by name. */
  datatype Member = Member(name: string, isFunction: bool, qualname: string)

  /** A zero-argument method of a record: its result computed from the record's fields. */
  type Accessor = Data -> Value

  /**
   * A model class: its name, its annotated fields in declaration order, its
   * members as reflection lists them, the zero-argument callables an
   * instance offers (`dir(entry)`, own and inherited), and its constructor
   * `ModelClass(**data)`, which validates a dict into a record.
   */
  datatype ModelClass = ModelClass(
    name: string,
    annotations: seq<(string, FieldType)>,
    members: seq<Member>,
    accessors: map<string, Accessor>,
    construct: Data -> Validated<Data>)

  /** `list(get_all_annotations(model).keys())`. */
  function FieldNames(model: ModelClass): seq<string>
  {
    Keys(model.annotations)
  }

  /** `get_all_annotations(model)`: field name to declared type. */
  function FieldTypes(model: ModelClass): map<string, FieldType>
  {
    AsMap(model.annotations)
  }

  /**
   * A member counts as a method of the model when it is a plain function,
   * its name is not a dunder name (both `__`-prefixed and `__`-suffixed),
   * and it is defined in the model class itself (its qualified name starts
   * with the class name and a dot).
   */
  predicate IsOwnMethod(modelName: string, m: Member)
  {
    && m.isFunction
    && !(StartsWith(m.name, "__") && EndsWith(m.name, "__"))
    && StartsWith(m.qualname, modelName + ".")
  }

  /** The names of the members that are own methods, in the order reflection lists them. */
  function OwnMethods(modelName: string, members: seq<Member>): (names: seq<string>)
    ensures |names| <= |members|
    ensures forall n :: n in names <==> exists m :: m in members && IsOwnMethod(modelName, m) && m.name == n
    decreases |members|
  {
    if members == [] then []
    else
      var rest := OwnMethods(modelName, members[1..]);
      assert forall m :: m in members <==> m == members[0] || m in members[1..];
      if IsOwnMethod(modelName, members[0]) then [members[0].name] + rest else rest
  }

  /** `fields + methods`: the default for both name lists of an endpoint. */
  function DefaultNames(model: ModelClass): (names: seq<string>)
    ensures |FieldNames(model)| <= |names| && names[..|FieldNames(model)|] == FieldNames(model)
    ensures forall n :: n in names <==>
      n in FieldNames(model) || exists m :: m in model.members && IsOwnMethod(model.name, m) && m.name == n
  {
    FieldNames(model) + OwnMethods(model.name, model.members)
  }

  /** The operations an authorization hook is asked about. */
  datatype Operation = FindOp | GetOp | CreateOp | UpdateOp | DeleteOp

  /**
   * What an authorization hook hands back: a dict of equality constraints,
   * any other object (which the dispatcher ignores), or an exception.
   */
  datatype HookResult = DictResult(constraint: Pairs) | OtherResult | Raised

  /** An endpoint's `_filter(query_type, query_table)`. */
  type Hook = (Operation, string) -> HookResult

  /** `Endpoint._filter`, the hook every endpoint inherits: a constraint every record meets. */
  function DefaultFilter(op: Operation, table: string): (r: HookResult)
    ensures r.DictResult? && forall record: Data :: Matches(record, AsMap(r.constraint))
  {
    DictResult([])
  }

  /** The class attributes of an `Endpoint` subclass as its body declares them (`None` when absent). */
  datatype EndpointDecl = EndpointDecl(
    slug: Option<string>,
    model: Option<ModelClass>,
    allowedQueryFields: Option<seq<string>>,
    visibleFields: Option<seq<string>>,
    filter: Option<Hook>)

  /** A subclass that inherits every attribute of `Endpoint` except those it sets. */
  function Subclass(slug: Option<string>, model: Option<ModelClass>): EndpointDecl
  {
    EndpointDecl(slug, model, None, None, Some(DefaultFilter))
  }

  /** An endpoint once its subclass has been created. */
  datatype EndpointConfig = EndpointConfig(
    slug: string,
    model: ModelClass,
    allowedQueryFields: seq<string>,
    visibleFields: seq<string>,
    filter: Option<Hook>)

  /** Creating an `Endpoint` subclass either succeeds or raises `NotImplementedError`. */
  datatype Registration = Registered(config: EndpointConfig) | NotImplementedError(message: string)

  const MissingSlugOrModel := "Endpoint subclasses must define 'slug' and 'model' attributes"

  /**
   * `__init_subclass__`: rejects a declaration without slug or model, and
   * replaces an unset name list by the model's fields followed by its own
   * methods while keeping an explicitly given one unchanged.
   */
  function Configure(decl: EndpointDecl): (r: Registration)
    ensures r.NotImplementedError? <==> decl.slug.None? || decl.model.None?
    ensures r.NotImplementedError? ==> r.message == MissingSlugOrModel
    ensures r.Registered? ==>
      && Some(r.config.slug) == decl.slug
      && Some(r.config.model) == decl.model
      && r.config.filter == decl.filter
    ensures r.Registered? && decl.visibleFields.Some? ==> r.config.visibleFields == decl.visibleFields.value
    ensures r.Registered? && decl.allowedQueryFields.Some? ==> r.config.allowedQueryFields == decl.allowedQueryFields.value
    ensures r.Registered? && decl.visibleFields.None? ==> r.config.visibleFields == DefaultNames(decl.model.value)
    ensures r.Registered? && decl.allowedQueryFields.None? ==> r.config.allowedQueryFields == DefaultNames(decl.model.value)
    ensures r.Registered? && decl.visibleFields.None? ==>
      forall n :: n in r.config.visibleFields <==>
        n in FieldNames(decl.model.value) || n in OwnMethods(decl.model.value.name, decl.model.value.members)
    ensures r.Registered? && decl.allowedQueryFields.None? ==>
      forall n :: n in r.config.allowedQueryFields <==>
        n in FieldNames(decl.model.value) || n in OwnMethods(decl.model.value.name, decl.model.value.members)
  {
    if decl.slug.None? || decl.model.None? then
      NotImplementedError(MissingSlugOrModel)
    else
      var names := DefaultNames(decl.model.value);
      Registered(EndpointConfig(
        decl.slug.value,
        decl.model.value,
        if decl.allowedQueryFields.None? then names else decl.allowedQueryFields.value,
        if decl.visibleFields.None? then names else decl.visibleFields.value,
        decl.filter))
  }

  /** A function whose name is only `__`-prefixed (a private helper) is discovered. */
  lemma PrivateMethodDiscovered(modelName: string, name: string)
    requires StartsWith(name, "__") && !EndsWith(name, "__")
    ensures IsOwnMethod(modelName, Member(name, true, modelName + "." + name))
  {
    var q := modelName + "." + name;
    assert q[..|modelName + "."|] == modelName + ".";
  }

  /** A member defined in a base class is never discovered, whatever its name. */
  lemma InheritedMemberIgnored(model: ModelClass, m: Member)
    requires m in model.members
    requires !StartsWith(m.qualname, model.name + ".")
    requires forall m' :: m' in model.members && m'.name == m.name ==> m' == m
    ensures m.name !in OwnMethods(model.name, model.members)
  {
  }

  /**
   * The annotated fields the car model of the example application
   * declares itself; the `id` and `slug` it inherits from the storage
   * layer's base model are not listed here.
   */
  const CarAnnotations: seq<(string, FieldType)> :=
    [("brand", StrType), ("model", StrType), ("year", IntType),
     ("color", StrType), ("miles", FloatType), ("owner", StrType)]

  /** What reflection lists for the car model (sorted by name). */
  const CarMembers: seq<Member> :=
    [Member("__init__", true, "Car.__init__"),
     Member("copy", true, "BaseModel.copy"),
     Member("description", true, "Car.description"),
     Member("miles_per_year", true, "Car.miles_per_year"),
     Member("model_config", false, "")]

  /** Which of the car model's members count as its own methods. */
  lemma CarMemberKinds()
    ensures !IsOwnMethod("Car", CarMembers[0]) && !IsOwnMethod("Car", CarMembers[1])
    ensures IsOwnMethod("Car", CarMembers[2]) && IsOwnMethod("Car", CarMembers[3])
    ensures !IsOwnMethod("Car", CarMembers[4])
  {
    assert StartsWith("__init__", "__") && EndsWith("__init__", "__");
    assert "BaseModel.copy"[..4][0] != "Car."[0];
    assert "Car.description"[..4] == "Car." && "description"[..2][0] != "__"[0];
    assert "Car.miles_per_year"[..4] == "Car." && "miles_per_year"[..2][0] != "__"[0];
  }

  /**
   * Of the car model's members, only its own methods `description` and
   * `miles_per_year` are discovered: not the constructor, not the helper
   * inherited from the base model, not the non-function attribute.
   */
  lemma CarMethodsDiscovered()
    ensures OwnMethods("Car", CarMembers) == ["description", "miles_per_year"]
  {
    var ms := CarMembers;
    CarMemberKinds();
    assert OwnMethods("Car", ms[4..]) == [] by {
      assert ms[4..][1..] == [];
    }
    assert OwnMethods("Car", ms[3..]) == ["miles_per_year"] by {
      assert ms[3..][1..] == ms[4..];
    }
    assert OwnMethods("Car", ms[2..]) == ["description", "miles_per_year"] by {
      assert ms[2..][1..] == ms[3..];
    }
    assert OwnMethods("Car", ms[1..]) == ["description", "miles_per_year"] by {
      assert ms[1..][1..] == ms[2..];
    }
  }

  /** The car model's annotated field names, in declaration order. */
  lemma CarFieldNames()
    ensures Keys(CarAnnotations) == ["brand", "model", "year", "color", "miles", "owner"]
  {
  }

  /** The car model's default name list: its six fields, then its two own methods. */
  lemma CarDefaultNames(car: ModelClass)
    requires car.name == "Car" && car.annotations == CarAnnotations && car.members == CarMembers
    ensures DefaultNames(car) == ["brand", "model", "year", "color", "miles", "owner", "description", "miles_per_year"]
  {
    CarMethodsDiscovered();
    CarFieldNames();
  }

  /**
   * The car endpoint declared with only slug and model gets the six fields
   * followed by the two discovered methods as both name lists.
   */
  lemma CarEndpointDefaults(accessors: map<string, Accessor>, construct: Data -> Validated<Data>)
    ensures
      var r := Configure(Subclass(Some("cars"), Some(ModelClass("Car", CarAnnotations, CarMembers, accessors, construct))));
      && r.Registered?
      && r.config.visibleFields == ["brand", "model", "year", "color", "miles", "owner", "description", "miles_per_year"]
      && r.config.allowedQueryFields == r.config.visibleFields
  {
    CarDefaultNames(ModelClass("Car", CarAnnotations, CarMembers, accessors, construct));
  }

  /**
   * An `Endpoint` subclass while it is being created: its class attributes,
   * which `__init_subclass__` validates and completes in place.
   */
  class Endpoint {
    var slug: Option<string>
    var model: Option<ModelClass>
    var allowedQueryFields: Option<seq<string>>
    var visibleFields: Option<seq<string>>
    var filter: Option<Hook>

    /** The attributes as they stand. */
    function Declared(): EndpointDecl
      reads this
    {
      EndpointDecl(slug, model, allowedQueryFields, visibleFields, filter)
    }

    /** The class body: the attributes it declares. */
    constructor (decl: EndpointDecl)
      ensures Declared() == decl
    {
      slug := decl.slug;
      model := decl.model;
      allowedQueryFields := decl.allowedQueryFields;
      visibleFields := decl.visibleFields;
      filter := decl.filter;
    }

    /**
     * `__init_subclass__`: raises when slug or model is missing (leaving the
     * attributes alone), otherwise writes the completed name lists back.
     */
    method InitSubclass() returns (r: Registration)
      modifies this`allowedQueryFields, this`visibleFields
      ensures r == Configure(old(Declared()))
      ensures r.NotImplementedError? ==> Declared() == old(Declared())
      ensures r.Registered? ==>
        && visibleFields == Some(r.config.visibleFields)
        && allowedQueryFields == Some(r.config.allowedQueryFields)
    {
      if slug.None? || model.None? {
        return NotImplementedError(MissingSlugOrModel);
      }
      var fields := FieldNames(model.value);
      var methods := OwnMethods(model.value.name, model.value.members);
      if visibleFields.None? {
        visibleFields := Some(fields + methods);
      }
      if allowedQueryFields.None? {
        allowedQueryFields := Some(fields + methods);
      }
      r := Registered(EndpointConfig(slug.value, model.value, allowedQueryFields.value, visibleFields.value, filter));
    }
  }
}
