/** The OleDb parameter factory: the sentinel-null policy that decides when an
    extracted value is sent as DBNull, the mapping from the adapter's logical
    column types to OleDb types, and the typed, output and return creators. */
module Parameters {
  import opened Values

  /** The logical column types of the data layer. `Unlisted` stands for every
      other member of the enumeration (or any other integer cast to it). */
  datatype DbTypeSupported =
    | dbVarChar | dbInt32 | dbDouble | dbDateTime | dbChar
    | dbBlob | dbVarBinary | dbDecimal | dbBit
    | Unlisted(ordinal: int)

  /** The OleDb wire types the adapter uses; VarWChar is OleDbParameter's default. */
  datatype OleDbType = VarChar | Integer | Double | DBDate | Char | Variant | Decimal | Boolean | Guid | VarWChar

  datatype Direction = Input | Output | ReturnValue

  /** What a parameter's `Value` holds: never assigned, `DBNull.Value`, or a
      boxed value (possibly a null reference). */
  datatype ParamValue = Unset | DBNull | Val(v: Value)

  datatype Parameter = Parameter(
    name: string,
    oleDbType: OleDbType,
    size: Option<int32>,
    sourceColumn: string,
    direction: Direction,
    value: ParamValue)

  /** Column metadata: immutable, supplied by schema-loading code. */
  datatype TableColumn = TableColumn(name: string, dbType: DbTypeSupported, isInsertable: bool)

  const ErrorCreatingParameter: string := "Error creating Parameter"

  const UnsupportedTypeMessage: string :=
    "Data type not supported.  DataTypes currently suported are: DbTypeSupported.dbString, DbTypeSupported.dbInt32, DbTypeSupported.dbDouble, DbTypeSupported.dbDateTime, DbTypeSupported.dbChar"

  /** The exception thrown for a type outside a creator's switch. */
  const UnsupportedType: Exception := Raise(ApplicationError, UnsupportedTypeMessage, None)

  /** What the runtime throws when a cast of the extracted object fails. */
  const InvalidCastError: Exception := Exception(InvalidCast, "Specified cast is not valid.", RuntimeSource, None)

  /** What the runtime throws when a null reference is unboxed to a value type. */
  const NullReferenceError: Exception :=
    Exception(NullReference, "Object reference not set to an instance of an object.", RuntimeSource, None)

  // ---------------------------------------------------------------------------
  // The sentinel-null policy, stated as a table.

  /** The extracted values that `CreateParameter` sends as DBNull for a column
      type: the type's "absent" sentinel. */
  function NullSentinels(t: DbTypeSupported): set<Value>
  {
    match t
    case dbVarChar => {Null, Str("")}
    case dbChar => {Null, Str("")}
    case dbInt32 => {Int(MinInt32)}
    case dbDouble => {Dbl(DoubleMinValue)}
    case dbDateTime => {Date(DateTime(0, Unspecified)), Date(DateTime(0, Utc)), Date(DateTime(0, Local))}
    case dbDecimal => {Dec(DecimalMinValue)}
    case dbBlob => {Null}
    case dbVarBinary => {Null}
    case dbBit => {Null}
    case Unlisted(_) => {}
  }

  /** A DateTime is the DateTime sentinel exactly when it is the same instant
      as `DateTime.MinValue`, whatever its kind. */
  lemma DateTimeSentinel(t: DateTime)
    ensures Date(t) in NullSentinels(dbDateTime) <==> SameInstant(t, DateTimeMinValue)
  {
    if t.ticks == 0 {
      match t.kind
      case Unspecified =>
      case Utc =>
      case Local =>
    }
  }

  /** The extracted values a column type accepts without a failing cast: the
      value types are unboxed, VarChar is cast to string, the rest are not cast. */
  predicate Admits(t: DbTypeSupported, v: Value)
  {
    match t
    case dbVarChar => v.Null? || v.Str?
    case dbInt32 => v.Int?
    case dbDouble => v.Dbl?
    case dbDateTime => v.Date?
    case dbDecimal => v.Dec?
    case dbChar => true
    case dbBlob => true
    case dbVarBinary => true
    case dbBit => true
    case Unlisted(_) => false
  }

  /** The cause wrapped in "Error creating Parameter" when a value is not admitted. */
  function Rejection(t: DbTypeSupported, v: Value): Exception
  {
    if t.Unlisted? then UnsupportedType
    else if v.Null? then NullReferenceError
    else InvalidCastError
  }

  /** The OleDb type of an output or return parameter of a logical type; None
      where the switch falls to its default and throws. Note that dbVarBinary
      has no case here. */
  function DirectionalTypeMap(t: DbTypeSupported): Option<OleDbType>
  {
    match t
    case dbVarChar => Some(VarChar)
    case dbInt32 => Some(Integer)
    case dbDouble => Some(Double)
    case dbDateTime => Some(DBDate)
    case dbChar => Some(Char)
    case dbBlob => Some(Variant)
    case dbDecimal => Some(Decimal)
    case dbBit => Some(Boolean)
    case _ => None
  }

  // ---------------------------------------------------------------------------
  // CreateParameter

  /** A parameter named by the safe form of a column name, with the column as
      its source column and no value yet. */
  function CreateDbServerParam(safeName: string -> string, column: string, t: OleDbType): Parameter
  {
    Parameter(safeName(column), t, None, column, Input, Unset)
  }

  /** The switch inside CreateParameter's try block: whether the extracted
      value is its type's sentinel, and the OleDb type; a failing cast or an
      unsupported type throws. */
  function Classify(t: DbTypeSupported, data: Value): (r: Result<(bool, OleDbType), Exception>)
    ensures r.Success? <==> Admits(t, data)
    ensures r.Success? ==> r.value.0 == (data in NullSentinels(t))
    ensures r.Failure? ==> r.error == Rejection(t, data)
  {
    match t
    case dbVarChar =>
      if data.Null? then Success((true, VarChar))
      else if data.Str? then Success((data.s == "", VarChar))
      else Failure(InvalidCastError)
    case dbInt32 =>
      if data.Int? then Success((data.i == MinInt32, Integer))
      else if data.Null? then Failure(NullReferenceError) else Failure(InvalidCastError)
    case dbDouble =>
      if data.Dbl? then Success((data.d == DoubleMinValue, Double))
      else if data.Null? then Failure(NullReferenceError) else Failure(InvalidCastError)
    case dbDateTime =>
      if data.Date? then
        DateTimeSentinel(data.t);
        Success((SameInstant(data.t, DateTimeMinValue), DBDate))
      else if data.Null? then Failure(NullReferenceError) else Failure(InvalidCastError)
    case dbChar =>
      // Convert.ToString of a non-null object is empty only for the empty string
      Success((data.Null? || data == Str(""), Char))
    case dbBlob => Success((data.Null?, Variant))
    case dbVarBinary => Success((data.Null?, Variant))
    case dbDecimal =>
      if data.Dec? then
        DecimalMinValueUnique(data.m);
        Success((DecimalEquals(data.m, DecimalMinValue), Decimal))
      else if data.Null? then Failure(NullReferenceError) else Failure(InvalidCastError)
    case dbBit => Success((data.Null?, Boolean))
    case Unlisted(_) => Failure(UnsupportedType)
  }

  /** Builds the parameter for one column of an entity. The value is extracted
      by the store before the try block, so an extraction failure passes through
      unwrapped; a failure inside the switch is wrapped as "Error creating
      Parameter". The value is DBNull exactly when the extracted value is its
      type's sentinel and is otherwise the extracted value, unchanged; the OleDb
      type is the output/return type map's, with dbVarBinary sent as Variant. */
  function CreateParameter(extract: string -> Result<Value, Exception>, col: TableColumn, safeName: string -> string)
    : (r: Result<Parameter, Exception>)
    ensures extract(col.name).Failure? ==> r == Failure(extract(col.name).error)
    ensures extract(col.name).Success? ==>
      var v := extract(col.name).value;
      && (r.Success? <==> Admits(col.dbType, v))
      && (r.Failure? ==> r.error == Raise(ApplicationError, ErrorCreatingParameter, Some(Rejection(col.dbType, v))))
      && (r.Success? ==>
            && r.value.name == safeName(col.name)
            && r.value.sourceColumn == col.name
            && r.value.direction == Input
            && r.value.size == None
            && r.value.oleDbType == (if col.dbType == dbVarBinary then Variant else DirectionalTypeMap(col.dbType).value)
            && r.value.value == (if v in NullSentinels(col.dbType) then DBNull else Val(v)))
  {
    match extract(col.name)
    case Failure(e) => Failure(e)
    case Success(data) =>
      match Classify(col.dbType, data)
      case Failure(e) => Failure(Raise(ApplicationError, ErrorCreatingParameter, Some(e)))
      case Success((isNull, t)) =>
        Success(CreateDbServerParam(safeName, col.name, t).(value := if isNull then DBNull else Val(data)))
  }

  /** The sentinel policy as a single rule: a supported column whose extracted
      value is admitted yields DBNull exactly for the sentinels and otherwise
      carries the value unchanged; no parameter both holds a sentinel and is non-null. */
  lemma SentinelPolicy(extract: string -> Result<Value, Exception>, col: TableColumn, safeName: string -> string, v: Value)
    requires extract(col.name) == Success(v) && Admits(col.dbType, v)
    ensures CreateParameter(extract, col, safeName).Success?
    ensures CreateParameter(extract, col, safeName).value.value == DBNull <==> v in NullSentinels(col.dbType)
    ensures CreateParameter(extract, col, safeName).value.value != DBNull ==>
      CreateParameter(extract, col, safeName).value.value == Val(v) && v !in NullSentinels(col.dbType)
  {
  }

  /** The creation of a parameter for an unsupported type fails with the
      wrapped unsupported-type error, whatever was extracted. */
  lemma UnsupportedColumnType(extract: string -> Result<Value, Exception>, col: TableColumn, safeName: string -> string)
    requires col.dbType.Unlisted? && extract(col.name).Success?
    ensures CreateParameter(extract, col, safeName)
         == Failure(Raise(ApplicationError, ErrorCreatingParameter, Some(UnsupportedType)))
  {
  }

  // ---------------------------------------------------------------------------
  // Output, return and empty parameters

  /** An output parameter: the type map's OleDb type, direction Output, and no
      value ever assigned; an unmapped type throws the unsupported-type error
      directly (no try block here), so dbVarBinary fails too. */
  function CreateOutputParameter(safeName: string -> string, parameterName: string, returnType: DbTypeSupported)
    : (r: Result<Parameter, Exception>)
    ensures r.Success? <==> !returnType.Unlisted? && returnType != dbVarBinary
    ensures r.Failure? ==> r.error == UnsupportedType
    ensures r.Success? ==>
      && r.value.name == safeName(parameterName)
      && r.value.sourceColumn == parameterName
      && r.value.direction == Output
      && r.value.value == Unset
      && r.value.size == None
      && r.value.oleDbType == DirectionalTypeMap(returnType).value
  {
    match DirectionalTypeMap(returnType)
    case None => Failure(UnsupportedType)
    case Some(t) => Success(CreateDbServerParam(safeName, parameterName, t).(direction := Output))
  }

  /** A return-value parameter: as an output parameter, with direction ReturnValue. */
  function CreateReturnParameter(safeName: string -> string, parameterName: string, returnType: DbTypeSupported)
    : (r: Result<Parameter, Exception>)
    ensures r.Success? <==> !returnType.Unlisted? && returnType != dbVarBinary
    ensures r.Failure? ==> r.error == UnsupportedType
    ensures r.Success? ==>
      && r.value.name == safeName(parameterName)
      && r.value.sourceColumn == parameterName
      && r.value.direction == ReturnValue
      && r.value.value == Unset
      && r.value.size == None
      && r.value.oleDbType == DirectionalTypeMap(returnType).value
  {
    match DirectionalTypeMap(returnType)
    case None => Failure(UnsupportedType)
    case Some(t) => Success(CreateDbServerParam(safeName, parameterName, t).(direction := ReturnValue))
  }

  /** Output and return parameters of the same name and type differ only in
      direction; both take the OleDb type CreateParameter would use. */
  lemma OutputAndReturnAgree(safeName: string -> string, name: string, t: DbTypeSupported, v: Value)
    requires t != dbVarBinary && Admits(t, v)
    ensures CreateOutputParameter(safeName, name, t).Success?
    ensures CreateReturnParameter(safeName, name, t)
         == Success(CreateOutputParameter(safeName, name, t).value.(direction := ReturnValue))
    ensures CreateOutputParameter(safeName, name, t).value.oleDbType
         == CreateParameter(_ => Success(v), TableColumn(name, t, true), safeName).value.oleDbType
  {
  }

  /** dbVarBinary is the one type CreateParameter accepts and the output and
      return creators reject. */
  lemma VarBinaryOnlyForInput(safeName: string -> string, name: string)
    ensures CreateParameter(_ => Success(Null), TableColumn(name, dbVarBinary, true), safeName).Success?
    ensures CreateOutputParameter(safeName, name, dbVarBinary) == Failure(UnsupportedType)
    ensures CreateReturnParameter(safeName, name, dbVarBinary) == Failure(UnsupportedType)
  {
  }

  /** A parameter with nothing bound, for callers that configure it themselves. */
  function CreateEmptyParameter(): (r: Parameter)
    ensures r.name == "" && r.sourceColumn == "" && r.value == Unset && r.size == None
    ensures r.direction == Input && r.oleDbType == VarWChar
  {
    Parameter("", VarWChar, None, "", Input, Unset)
  }

  // ---------------------------------------------------------------------------
  // Typed creators

  /** A Boolean parameter always carries its value. */
  function CreateBooleanParameter(safeName: string -> string, column: string, value: bool): (r: Parameter)
    ensures r.value == Val(Bool(value)) && r.oleDbType == Boolean
    ensures r.name == safeName(column) && r.sourceColumn == column && r.direction == Input
  {
    CreateDbServerParam(safeName, column, Boolean).(value := Val(Bool(value)))
  }

  /** A string parameter is DBNull only for the empty string; a null string is
      stored as a null reference, not as DBNull. */
  function CreateStringParameter(safeName: string -> string, column: string, value: NullableString): (r: Parameter)
    ensures r.value == DBNull <==> value == Str("")
    ensures r.value != DBNull ==> r.value == Val(value)
    ensures r.oleDbType == VarChar && r.name == safeName(column) && r.sourceColumn == column && r.direction == Input
  {
    CreateDbServerParam(safeName, column, VarChar).(value := if value != Str("") then Val(value) else DBNull)
  }

  /** An Int32 parameter is DBNull exactly for the Int32 sentinel. */
  function CreateInt32Parameter(safeName: string -> string, column: string, value: int32): (r: Parameter)
    ensures r.value == (if Int(value) in NullSentinels(dbInt32) then DBNull else Val(Int(value)))
    ensures r.oleDbType == Integer && r.name == safeName(column) && r.sourceColumn == column && r.direction == Input
  {
    CreateDbServerParam(safeName, column, Integer).(value := if value != MinInt32 then Val(Int(value)) else DBNull)
  }

  /** A Double parameter is DBNull exactly for the Double sentinel. */
  function CreateDoubleParameter(safeName: string -> string, column: string, value: Float64): (r: Parameter)
    ensures r.value == (if Dbl(value) in NullSentinels(dbDouble) then DBNull else Val(Dbl(value)))
    ensures r.oleDbType == Double && r.name == safeName(column) && r.sourceColumn == column && r.direction == Input
  {
    CreateDbServerParam(safeName, column, Double).(value := if value != DoubleMinValue then Val(Dbl(value)) else DBNull)
  }

  /** A DateTime parameter is DBNull exactly for the DateTime sentinel, of any kind. */
  function CreateDateTimeParameter(safeName: string -> string, column: string, value: DateTime): (r: Parameter)
    ensures r.value == (if Date(value) in NullSentinels(dbDateTime) then DBNull else Val(Date(value)))
    ensures r.oleDbType == DBDate && r.name == safeName(column) && r.sourceColumn == column && r.direction == Input
  {
    DateTimeSentinel(value);
    CreateDbServerParam(safeName, column, DBDate)
      .(value := if !SameInstant(value, DateTimeMinValue) then Val(Date(value)) else DBNull)
  }

  /** A Char parameter is typed VarChar (not Char), ignores its size, and is
      DBNull only for the empty string. */
  function CreateCharParameter(safeName: string -> string, column: string, value: NullableString, size: int32)
    : (r: Parameter)
    ensures r == CreateStringParameter(safeName, column, value)
    ensures r.oleDbType == VarChar && r.size == None
  {
    CreateDbServerParam(safeName, column, VarChar).(value := if value != Str("") then Val(value) else DBNull)
  }

  /** A Blob parameter is a sized Variant that always carries the array given,
      even a null one. */
  function CreateBlobParameter(safeName: string -> string, column: string, value: NullableBytes, size: int32)
    : (r: Parameter)
    ensures r.value == Val(value) && r.size == Some(size) && r.oleDbType == Variant
    ensures r.name == safeName(column) && r.sourceColumn == column && r.direction == Input
  {
    CreateDbServerParam(safeName, column, Variant).(size := Some(size), value := Val(value))
  }

  /** A Guid parameter always carries its value. */
  function CreateGuidParameter(safeName: string -> string, column: string, value: GuidValue): (r: Parameter)
    ensures r.value == Val(GuidVal(value)) && r.oleDbType == Guid
    ensures r.name == safeName(column) && r.sourceColumn == column && r.direction == Input
  {
    CreateDbServerParam(safeName, column, Guid).(value := Val(GuidVal(value)))
  }

  /** The Int32, Double and DateTime creators build exactly the parameter
      CreateParameter builds for a column of that type holding the same value. */
  lemma ValueTypeCreatorsAgree(safeName: string -> string, column: string, i: int32, d: Float64, t: DateTime)
    ensures CreateInt32Parameter(safeName, column, i)
         == CreateParameter(_ => Success(Int(i)), TableColumn(column, dbInt32, true), safeName).value
    ensures CreateDoubleParameter(safeName, column, d)
         == CreateParameter(_ => Success(Dbl(d)), TableColumn(column, dbDouble, true), safeName).value
    ensures CreateDateTimeParameter(safeName, column, t)
         == CreateParameter(_ => Success(Date(t)), TableColumn(column, dbDateTime, true), safeName).value
  {
  }

  /** Where the string creators part from CreateParameter: a null string is
      DBNull for a VarChar column but a null reference from
      CreateStringParameter; CreateCharParameter types its parameter VarChar
      where a Char column gets Char; a null blob is DBNull for a Blob column but
      is stored as given by CreateBlobParameter. On every other string the two
      string paths agree. */
  lemma StringAndBlobCreatorsDiffer(safeName: string -> string, column: string, s: NullableString, size: int32)
    ensures CreateParameter(_ => Success(Null), TableColumn(column, dbVarChar, true), safeName).value.value == DBNull
    ensures CreateStringParameter(safeName, column, Null).value == Val(Null)
    ensures s != Null ==>
      CreateStringParameter(safeName, column, s)
        == CreateParameter(_ => Success(s), TableColumn(column, dbVarChar, true), safeName).value
    ensures CreateCharParameter(safeName, column, s, size).oleDbType == VarChar
    ensures CreateParameter(_ => Success(s), TableColumn(column, dbChar, true), safeName).value.oleDbType == Char
    ensures CreateParameter(_ => Success(Null), TableColumn(column, dbBlob, true), safeName).value.value == DBNull
    ensures CreateBlobParameter(safeName, column, Null, size).value == Val(Null)
  {
  }
}
