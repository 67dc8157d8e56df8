/** The record types of the pipeline and the construction of a
    `ShipmentExtraction` from a decoded dictionary: field types, defaults and
    the three field validators. */
module Schemas {
  import opened Wrappers
  import opened Json
  import opened Builtins

  /** An input email. Only `id`, `subject` and `body` are used by the core. */
  datatype EmailInput = EmailInput(
    id: string,
    subject: string,
    body: string,
    senderEmail: Option<string>,
    toEmails: Option<string>,
    ccEmails: Option<string>)

  /** One entry of the port reference list; several entries may share a code. */
  datatype PortReference = PortReference(code: string, name: string)

  /** The extraction record. */
  datatype ShipmentExtraction = ShipmentExtraction(
    id: string,
    productLine: Option<string>,
    originPortCode: Option<string>,
    originPortName: Option<string>,
    destinationPortCode: Option<string>,
    destinationPortName: Option<string>,
    incoterm: Option<string>,
    cargoWeightKg: Option<real>,
    cargoCbm: Option<real>,
    isDangerous: bool)

  // The field names, as they appear in the decoded JSON.
  const IdKey := "id"
  const ProductLineKey := "product_line"
  const OriginCodeKey := "origin_port_code"
  const OriginNameKey := "origin_port_name"
  const DestinationCodeKey := "destination_port_code"
  const DestinationNameKey := "destination_port_name"
  const IncotermKey := "incoterm"
  const WeightKey := "cargo_weight_kg"
  const CbmKey := "cargo_cbm"
  const IsDangerousKey := "is_dangerous"

  /** Why construction was refused (a pydantic `ValidationError`). */
  datatype ValidationError = Missing(field: string) | WrongType(field: string) | Negative(field: string)

  // ---------------------------------------------------------------------------
  // The validators
  // ---------------------------------------------------------------------------

  /** `round_to_two_decimals`: a number is rounded, null stays null. */
  function RoundToTwoDecimals(v: Option<real>): Option<real> {
    if v.Some? then Some(Round2(v.value)) else v
  }

  /** `validate_positive_or_null`: a negative number is refused. */
  function ValidatePositiveOrNull(field: string, v: Option<real>): Result<Option<real>, ValidationError> {
    if v.Some? && v.value < 0.0 then Failure(Negative(field)) else Success(v)
  }

  /** `normalize_incoterm`: upper-cases any string, with no vocabulary check. */
  function NormalizeIncoterm(v: Option<string>): Option<string> {
    if v.Some? then Some(Upper(v.value)) else v
  }

  // ---------------------------------------------------------------------------
  // Field types and defaults
  // ---------------------------------------------------------------------------

  /** The `Optional[str]` reading of a JSON value. */
  function StrOf(v: Value): Option<string>
    requires v.Null? || v.Str?
  {
    if v.Str? then Some(v.s) else None
  }

  /** An `Optional[str]` field: missing and null give the default `None`. */
  function StrField(fields: JsonObject, key: string): Result<Option<string>, ValidationError> {
    match Get(fields, key)
    case Null => Success(None)
    case Str(s) => Success(Some(s))
    case _ => Failure(WrongType(key))
  }

  /** An `Optional[float]` field: missing and null give `None`, an integer is widened. */
  function FloatField(fields: JsonObject, key: string): Result<Option<real>, ValidationError> {
    match Get(fields, key)
    case Null => Success(None)
    case Int(i) => Success(Some(i as real))
    case Float(f) => Success(Some(f))
    case _ => Failure(WrongType(key))
  }

  /** Weight and volume: the declared type, then `round_to_two_decimals`, then
      `validate_positive_or_null`, in their declaration order. */
  function QuantityField(fields: JsonObject, key: string): Result<Option<real>, ValidationError> {
    match FloatField(fields, key)
    case Failure(e) => Failure(e)
    case Success(v) => ValidatePositiveOrNull(key, RoundToTwoDecimals(v))
  }

  /** `is_dangerous: bool = False`: missing gives the default, anything but a
      boolean (null included) is refused. */
  function BoolField(fields: JsonObject, key: string): Result<bool, ValidationError> {
    if key !in fields then Success(false)
    else match fields[key]
      case Bool(b) => Success(b)
      case _ => Failure(WrongType(key))
  }

  /** `id: str`, required. */
  function IdField(fields: JsonObject): Result<string, ValidationError> {
    if IdKey !in fields then Failure(Missing(IdKey))
    else match fields[IdKey]
      case Str(s) => Success(s)
      case _ => Failure(WrongType(IdKey))
  }

  // ---------------------------------------------------------------------------
  // Construction
  // ---------------------------------------------------------------------------

  /** A value an `Optional[str]` field accepts. */
  predicate StrValue(v: Value) {
    v.Null? || v.Str?
  }

  /** A value a quantity field accepts: null, or a number that does not round
      below zero. */
  predicate QuantityValue(v: Value) {
    v.Null? || ((v.Int? || v.Float?) && v.AsReal() >= -0.005)
  }

  /** What construction demands of the dictionary, field by field. */
  predicate Acceptable(fields: JsonObject) {
    && IdKey in fields && fields[IdKey].Str?
    && StrValue(Get(fields, ProductLineKey))
    && StrValue(Get(fields, OriginCodeKey))
    && StrValue(Get(fields, OriginNameKey))
    && StrValue(Get(fields, DestinationCodeKey))
    && StrValue(Get(fields, DestinationNameKey))
    && StrValue(Get(fields, IncotermKey))
    && QuantityValue(Get(fields, WeightKey))
    && QuantityValue(Get(fields, CbmKey))
    && (IsDangerousKey in fields ==> fields[IsDangerousKey].Bool?)
  }

  /** The invariants every constructed record satisfies: the incoterm is upper
      case, and weight and volume have two decimals and are not negative. */
  predicate Validated(r: ShipmentExtraction) {
    && (r.incoterm.Some? ==> IsUpper(r.incoterm.value))
    && (r.cargoWeightKg.Some? ==> HasTwoDecimals(r.cargoWeightKg.value) && r.cargoWeightKg.value >= 0.0)
    && (r.cargoCbm.Some? ==> HasTwoDecimals(r.cargoCbm.value) && r.cargoCbm.value >= 0.0)
  }

  /** How a quantity of the record relates to its JSON value. */
  predicate QuantityFrom(q: Option<real>, v: Value) {
    (v.Null? ==> q.None?) && ((v.Int? || v.Float?) ==> q == Some(Round2(v.AsReal())))
  }

  /** `ShipmentExtraction(**fields)`: unknown keys are ignored. */
  function Construct(fields: JsonObject): (r: Result<ShipmentExtraction, ValidationError>)
    ensures r.Success? <==> Acceptable(fields)
    ensures r.Success? ==> Validated(r.value)
    ensures r.Success? ==>
      && r.value.id == fields[IdKey].s
      && r.value.productLine == StrOf(Get(fields, ProductLineKey))
      && r.value.originPortCode == StrOf(Get(fields, OriginCodeKey))
      && r.value.originPortName == StrOf(Get(fields, OriginNameKey))
      && r.value.destinationPortCode == StrOf(Get(fields, DestinationCodeKey))
      && r.value.destinationPortName == StrOf(Get(fields, DestinationNameKey))
      && r.value.incoterm == NormalizeIncoterm(StrOf(Get(fields, IncotermKey)))
      && QuantityFrom(r.value.cargoWeightKg, Get(fields, WeightKey))
      && QuantityFrom(r.value.cargoCbm, Get(fields, CbmKey))
      && r.value.isDangerous == (IsDangerousKey in fields && fields[IsDangerousKey].b)
  {
    var id := IdField(fields);
    var productLine := StrField(fields, ProductLineKey);
    var originCode := StrField(fields, OriginCodeKey);
    var originName := StrField(fields, OriginNameKey);
    var destinationCode := StrField(fields, DestinationCodeKey);
    var destinationName := StrField(fields, DestinationNameKey);
    var incoterm := StrField(fields, IncotermKey);
    var weight := QuantityField(fields, WeightKey);
    var cbm := QuantityField(fields, CbmKey);
    var isDangerous := BoolField(fields, IsDangerousKey);
    QuantityAccepted(fields, WeightKey);
    QuantityAccepted(fields, CbmKey);
    if id.Failure? then Failure(id.error)
    else if productLine.Failure? then Failure(productLine.error)
    else if originCode.Failure? then Failure(originCode.error)
    else if originName.Failure? then Failure(originName.error)
    else if destinationCode.Failure? then Failure(destinationCode.error)
    else if destinationName.Failure? then Failure(destinationName.error)
    else if incoterm.Failure? then Failure(incoterm.error)
    else if weight.Failure? then Failure(weight.error)
    else if cbm.Failure? then Failure(cbm.error)
    else if isDangerous.Failure? then Failure(isDangerous.error)
    else
      UpperNormalizes(if incoterm.value.Some? then incoterm.value.value else "");
      Success(ShipmentExtraction(id.value, productLine.value, originCode.value, originName.value,
                                 destinationCode.value, destinationName.value,
                                 NormalizeIncoterm(incoterm.value), weight.value, cbm.value,
                                 isDangerous.value))
  }

  /** A quantity is accepted exactly when it is null or a number not below
      -0.005, and what is kept is the rounded number. */
  lemma QuantityAccepted(fields: JsonObject, key: string)
    ensures QuantityField(fields, key).Success? <==> QuantityValue(Get(fields, key))
    ensures QuantityField(fields, key).Success? ==>
      var q := QuantityField(fields, key).value;
      QuantityFrom(q, Get(fields, key)) && (q.Some? ==> HasTwoDecimals(q.value) && q.value >= 0.0)
  {
    var v := Get(fields, key);
    if v.Int? || v.Float? {
      Round2Negative(v.AsReal());
    }
  }

  /** `e.dict()`: the record as a dictionary, `None` written as null. */
  function ToDict(r: ShipmentExtraction): JsonObject {
    map[IdKey := Str(r.id),
        ProductLineKey := OptionalStr(r.productLine),
        OriginCodeKey := OptionalStr(r.originPortCode),
        OriginNameKey := OptionalStr(r.originPortName),
        DestinationCodeKey := OptionalStr(r.destinationPortCode),
        DestinationNameKey := OptionalStr(r.destinationPortName),
        IncotermKey := OptionalStr(r.incoterm),
        WeightKey := OptionalFloat(r.cargoWeightKg),
        CbmKey := OptionalFloat(r.cargoCbm),
        IsDangerousKey := Bool(r.isDangerous)]
  }

  function OptionalStr(v: Option<string>): Value {
    if v.Some? then Str(v.value) else Null
  }

  function OptionalFloat(v: Option<real>): Value {
    if v.Some? then Float(v.value) else Null
  }

  /** What `ToDict` writes under each key. */
  lemma ToDictEntries(r: ShipmentExtraction)
    ensures var d := ToDict(r);
      && IdKey in d && d[IdKey] == Str(r.id)
      && Get(d, ProductLineKey) == OptionalStr(r.productLine)
      && Get(d, OriginCodeKey) == OptionalStr(r.originPortCode)
      && Get(d, OriginNameKey) == OptionalStr(r.originPortName)
      && Get(d, DestinationCodeKey) == OptionalStr(r.destinationPortCode)
      && Get(d, DestinationNameKey) == OptionalStr(r.destinationPortName)
      && Get(d, IncotermKey) == OptionalStr(r.incoterm)
      && Get(d, WeightKey) == OptionalFloat(r.cargoWeightKg)
      && Get(d, CbmKey) == OptionalFloat(r.cargoCbm)
      && IsDangerousKey in d && d[IsDangerousKey] == Bool(r.isDangerous)
  {
  }

  /** The validators are idempotent: a validated record, written out as a
      dictionary and constructed again, comes back unchanged. */
  lemma ConstructToDict(r: ShipmentExtraction)
    requires Validated(r)
    ensures Construct(ToDict(r)) == Success(r)
  {
    var d := ToDict(r);
    ToDictEntries(r);
    assert Acceptable(d);
    var c := Construct(d).value;
    if r.incoterm.Some? {
      UpperNormalizes(r.incoterm.value);
    }
    if r.cargoWeightKg.Some? {
      Round2Fixes(r.cargoWeightKg.value);
    }
    if r.cargoCbm.Some? {
      Round2Fixes(r.cargoCbm.value);
    }
    assert c.incoterm == r.incoterm;
    assert c.cargoWeightKg == r.cargoWeightKg;
    assert c.cargoCbm == r.cargoCbm;
  }

  /** Defaults: given only an id, every optional field is `None` and
      `is_dangerous` is `False`. */
  lemma FieldDefaults(id: string)
    ensures Construct(map[IdKey := Str(id)]) ==
      Success(ShipmentExtraction(id, None, None, None, None, None, None, None, None, false))
  {
  }

  /** The rounding test of the repository: 123.456789 is kept as 123.46 and
      7.891234 as 7.89. */
  lemma RoundingExample()
    ensures var r := Construct(map[IdKey := Str("TEST_002"), WeightKey := Float(123.456789),
                                   CbmKey := Float(7.891234), IsDangerousKey := Bool(false)]);
      r.Success? && r.value.cargoWeightKg == Some(123.46) && r.value.cargoCbm == Some(7.89)
  {
    assert Round2(123.456789) == 123.46;
    assert Round2(7.891234) == 7.89;
  }

  /** A negative quantity that rounds to zero is accepted (the check runs after
      rounding); one below -0.005 is refused. */
  lemma NegativeAfterRounding()
    ensures Construct(map[IdKey := Str("X"), WeightKey := Float(-0.004)]) ==
      Success(ShipmentExtraction("X", None, None, None, None, None, None, Some(0.0), None, false))
    ensures Construct(map[IdKey := Str("X"), CbmKey := Float(-0.01)]).Failure?
  {
    assert Round2(-0.004) == 0.0;
    QuantityAccepted(map[IdKey := Str("X"), CbmKey := Float(-0.01)], CbmKey);
  }

  /** Any string is accepted as an incoterm and stored upper-cased. */
  lemma IncotermUppercased(id: string, term: string)
    ensures Construct(map[IdKey := Str(id), IncotermKey := Str(term)]).Success?
    ensures Construct(map[IdKey := Str(id), IncotermKey := Str(term)]).value.incoterm == Some(Upper(term))
  {
  }
}
