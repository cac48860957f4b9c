/** The values that cross the adapter's boundary: the boxed .NET values that a
    store extracts from an entity, the exceptions the adapter raises or passes
    on, and the Option/Result wrappers used for its error paths. */
module Values {

  datatype Option<+T> = None | Some(value: T)

  datatype Result<+T, +E> = Success(value: T) | Failure(error: E)

  /** A .NET `int` (System.Int32). */
  type int32 = x: int | -0x8000_0000 <= x < 0x8000_0000

  /** `int.MinValue`, the Int32 "absent" sentinel. */
  const MinInt32: int32 := -0x8000_0000

  /** A .NET `byte`. */
  newtype byte = x: int | 0 <= x < 256

  /** A .NET `double`, kept as its IEEE 754 bit pattern. Only equality with
      `double.MinValue` matters to the adapter; that value is a normal, non-zero
      number, so a double equals it exactly when the two bit patterns agree. */
  datatype Float64 = Float64(bits: bv64)

  /** `double.MinValue`, i.e. -1.7976931348623157E+308. */
  const DoubleMinValue: Float64 := Float64(0xFFEF_FFFF_FFFF_FFFF)

  datatype DateTimeKind = Unspecified | Utc | Local

  /** The range of `DateTime.Ticks`. */
  type Ticks = t: int | 0 <= t <= 3_155_378_975_999_999_999

  /** A .NET `DateTime`. Its `==` compares ticks and ignores the kind. */
  datatype DateTime = DateTime(ticks: Ticks, kind: DateTimeKind)

  predicate SameInstant(a: DateTime, b: DateTime)
  {
    a.ticks == b.ticks
  }

  /** `DateTime.MinValue`, midnight of 1 January 0001. */
  const DateTimeMinValue: DateTime := DateTime(0, Unspecified)

  const MaxMantissa: int := 79228162514264337593543950335  // 2^96 - 1

  type Mantissa = m: int | -79228162514264337593543950335 <= m <= 79228162514264337593543950335

  type Scale = s: int | 0 <= s <= 28

  /** A .NET `decimal`: a 96-bit signed mantissa divided by 10^scale. Its `==`
      compares the numbers, so 1.0m == 1.00m. */
  datatype DecimalNumber = DecimalNumber(mantissa: Mantissa, scale: Scale)

  function Pow10(n: nat): (r: nat)
    ensures r >= 1
    ensures n >= 1 ==> r >= 10
  {
    if n == 0 then 1 else 10 * Pow10(n - 1)
  }

  /** Numeric equality of two decimals: m1 / 10^s1 == m2 / 10^s2. */
  predicate DecimalEquals(a: DecimalNumber, b: DecimalNumber)
  {
    a.mantissa * Pow10(b.scale) == b.mantissa * Pow10(a.scale)
  }

  /** `decimal.MinValue`, -79228162514264337593543950335. */
  const DecimalMinValue: DecimalNumber := DecimalNumber(-79228162514264337593543950335, 0)

  /** `decimal.MinValue` has a single representation: a decimal that compares
      equal to it is it, so the sentinel can be stated as one value. */
  lemma DecimalMinValueUnique(d: DecimalNumber)
    ensures DecimalEquals(d, DecimalMinValue) <==> d == DecimalMinValue
  {
  }

  /** A .NET `Guid`. */
  datatype GuidValue = GuidValue(bits: bv128)

  /** A boxed value as the store's `Extract` hands it over (a C# `object`). */
  datatype Value =
    | Null                       // a C# null reference
    | Str(s: string)
    | Int(i: int32)
    | Dbl(d: Float64)
    | Date(t: DateTime)
    | Dec(m: DecimalNumber)
    | Bytes(b: seq<byte>)
    | Bool(flag: bool)
    | GuidVal(g: GuidValue)

  /** A C# `string` variable: a string or null. */
  type NullableString = v: Value | v.Null? || v.Str? witness Null

  /** A C# `byte[]` variable: an array or null. */
  type NullableBytes = v: Value | v.Null? || v.Bytes? witness Null

  /** The exception classes the adapter raises, catches or lets through. */
  datatype ExceptionKind =
    | ApplicationError           // System.ApplicationException
    | FolderError                // CodedThought.Core.Exceptions.FolderException
    | InvalidCast                // System.InvalidCastException
    | NullReference              // System.NullReferenceException
    | ArgumentOutOfRange         // System.ArgumentOutOfRangeException
    | IndexOutOfRange            // System.IndexOutOfRangeException
    | OtherError(typeName: string)

  datatype Exception = Exception(kind: ExceptionKind, message: string, source: string, inner: Option<Exception>)

  /** The `Source` of an exception thrown by the adapter itself. */
  const AdapterSource: string := "CodedThought.Core.Data.OleDb"

  /** The `Source` of an exception thrown by the .NET runtime. */
  const RuntimeSource: string := "System.Private.CoreLib"

  /** An exception raised by the adapter, optionally wrapping a cause. */
  function Raise(kind: ExceptionKind, message: string, inner: Option<Exception>): Exception
  {
    Exception(kind, message, AdapterSource, inner)
  }

  /** `s.IndexOf(t) >= 0` with ordinal comparison. */
  predicate Contains(s: string, t: string)
    decreases |s|
  {
    (|t| <= |s| && s[..|t|] == t) || (|s| > 0 && Contains(s[1..], t))
  }

  /** A substring occurrence at a given index makes `Contains` hold. */
  lemma {:induction false} ContainsAt(s: string, t: string, i: nat)
    requires i + |t| <= |s| && s[i..i + |t|] == t
    ensures Contains(s, t)
    decreases i
  {
    if i > 0 {
      assert s[1..][i - 1..i - 1 + |t|] == s[i..i + |t|];
      ContainsAt(s[1..], t, i - 1);
    } else {
      assert s[..|t|] == s[0..|t|];
    }
  }
}
