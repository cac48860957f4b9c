# OleDb database object: a Dafny model

`OleDbDatabaseObject` is the OleDb (Microsoft Access) adapter of the
CodedThought data layer. It turns the entities of a store into OleDb command
parameters, inserts a row for an entity, reads large-object columns from a
data reader, and produces the Access dialect's SQL fragments. This project
models the logic of that class and proves the properties it promises:

- **Parameters** (`Parameters.dfy`): the sentinel-null policy of
  `CreateParameter`. An extracted value equal to its column type's "absent"
  sentinel is sent as `DBNull`; any other value is sent unchanged. The sentinels
  are `null` or `""` for text, `MinValue` for Int32, Double, DateTime and
  Decimal, and `null` for blob, binary and bit. The module also holds the map
  from logical column types to OleDb types, and the output, return, empty and
  typed creators with their small departures from that policy.
- **Insert** (`Insert.dfy`): the `Add` executor. It walks the columns, builds
  one parameter per insertable column, renders
  `INSERT INTO t (c1, c2) VALUES (@p1, @p2) `, and then either fetches the new
  identity or runs a plain command. On failure it rolls back once and
  classifies the error. The executor, the transaction and the store are a
  `Session` object whose methods append to an event trace. `Session.Add` is
  proved equal to the specification function `AddRun`, and the ordering and
  counting properties are lemmas about `AddRun`.
- **BlobReader** (`BlobReader.dfy`): `GetBlobValue`. It probes the column
  length, allocates an array of that length and fills it with 100-byte reads
  until a read comes back short. This is an array-filling loop proved to give
  the exact sequence of reader calls, and the column content for every length
  the OleDb cursor lets it finish (see Findings).
- **Dialect** (`Dialect.dfy`): the SQL fragment templates, with lemmas for
  their fallbacks and for recovering each embedded argument.
- **Values** (`Values.dfy`): the boxed .NET values, the exceptions and the
  Option/Result wrappers.

The collaborators the class calls but does not define are parameters of the
model:

- the store's `Extract` is a function from column name to value or exception;
- whether the store's `GetPrimaryKey` and `SetPrimaryKey` throw is configured;
- the base class's `ToSafeParamName` is an uninterpreted function;
- `ExecuteScalar` (with its `Convert.ToInt32`) and `ExecuteNonQuery` are
  configured replies;
- `RollbackTransaction` and the store's `SetPrimaryKey` are trace events;
- `DataReaderBehavior` is an argument;
- `__comma` is `", "` and `__singleQuote` is an argument.

Some behaviour of the code that is easy to overlook:

- **Extraction failure:** `store.Extract` runs before the `try` block of
  `CreateParameter` (line 147). An exception it throws therefore passes through
  unwrapped; it is not wrapped as "Error creating Parameter".
- **Number of data reads:** `GetBlobValue` issues n / 100 + 1 data reads for an
  n-byte column, not ⌈n / 100⌉. When n is a multiple of 100 (0 included) the
  last read starts at the end of the array, and the OleDb cursor rejects it.
- **Output and return types:** the output and return creators have no
  `dbVarBinary` case, so they reject a type that `CreateParameter` accepts.
- **No decimal creator:** this class defines no `CreateDecimalParameter`.

## Model

| member | source | states |
|---|---|---|
| Parameters.Classify | OleDbDatabaseObject.cs:150-191 | The switch succeeds exactly when the extracted value survives its type's cast. The null flag is then exactly "the value is a sentinel of the type". A failure raises the invalid-cast, null-reference or unsupported-type error. |
| Parameters.CreateParameter | OleDbDatabaseObject.cs:142-199 | An extraction failure passes through unwrapped. Otherwise a parameter exists iff the value is admitted. A rejected value gives "Error creating Parameter" wrapping the cause. The parameter is named by the safe name, has the column as source and Input direction, and takes the type map's OleDb type (Variant for VarBinary). Its value is DBNull iff the extracted value is a sentinel, and otherwise the value unchanged. |
| Parameters.SentinelPolicy | OleDbDatabaseObject.cs:152-196 | For an admitted value, the parameter is DBNull exactly for the type's sentinels. It never holds a sentinel as a non-null value. |
| Parameters.UnsupportedColumnType | OleDbDatabaseObject.cs:185-191 | An unsupported column type yields "Error creating Parameter" wrapping the unsupported-type error, and no parameter. |
| Parameters.CreateOutputParameter | OleDbDatabaseObject.cs:218-256 | Succeeds iff the type is in the map (not unsupported, not VarBinary). Otherwise it throws the unsupported-type error. The OleDb type is the map's, direction is Output, the value is never set and there is no size. |
| Parameters.CreateReturnParameter | OleDbDatabaseObject.cs:265-302 | Same as the output creator, with direction ReturnValue. |
| Parameters.OutputAndReturnAgree | OleDbDatabaseObject.cs:218-302 | The output and return parameters differ only in direction. Both carry the OleDb type that `CreateParameter` gives the same column type. |
| Parameters.VarBinaryOnlyForInput | OleDbDatabaseObject.cs:172-176 | `CreateParameter` accepts dbVarBinary; the output and return creators reject it. |
| Parameters.CreateEmptyParameter | OleDbDatabaseObject.cs:203-209 | A parameter with no name, no source column and no value, with OleDb's default type. |
| Parameters.CreateBooleanParameter | OleDbDatabaseObject.cs:127-133 | Always carries the given Boolean, typed Boolean. |
| Parameters.CreateStringParameter | OleDbDatabaseObject.cs:308-315 | DBNull iff the string is `""`. Any other value, a null reference included, is stored unchanged. Typed VarChar. |
| Parameters.CreateInt32Parameter | OleDbDatabaseObject.cs:321-328 | DBNull exactly for the Int32 sentinel, otherwise the value. Typed Integer. |
| Parameters.CreateDoubleParameter | OleDbDatabaseObject.cs:334-341 | DBNull exactly for the Double sentinel, otherwise the value. Typed Double. |
| Parameters.CreateDateTimeParameter | OleDbDatabaseObject.cs:347-354 | DBNull exactly for the DateTime sentinel of any kind, otherwise the value. Typed DBDate. |
| Parameters.CreateCharParameter | OleDbDatabaseObject.cs:361-368 | Identical to the string creator: typed VarChar, not Char, and its size is ignored. |
| Parameters.CreateBlobParameter | OleDbDatabaseObject.cs:375-382 | Always carries the array given, even a null one. Sized and typed Variant. |
| Parameters.CreateGuidParameter | OleDbDatabaseObject.cs:388-395 | Always carries the Guid given, typed Guid. |
| Parameters.ValueTypeCreatorsAgree | OleDbDatabaseObject.cs:321-354 | The Int32, Double and DateTime creators build exactly the parameter `CreateParameter` builds for a column of that type holding that value. |
| Parameters.StringAndBlobCreatorsDiffer | OleDbDatabaseObject.cs:308-382 | Where the typed creators depart from `CreateParameter`: a null string (and a null blob) is kept as null rather than sent as DBNull, and the char creator types VarChar where a Char column gets Char. On every non-null string the string paths agree. |
| Values.DecimalMinValueUnique | OleDbDatabaseObject.cs:178 | A decimal that compares equal to `decimal.MinValue` is that value, so the Decimal sentinel is a single value. |
| Insert.InsertableIsFilter | OleDbDatabaseObject.cs:420-431 | Only insertable columns contribute, and every insertable column does. There are none iff no column is insertable. |
| Insert.InsertableKeepsOrder | OleDbDatabaseObject.cs:420-431 | The contributing columns are taken from strictly increasing positions of the list, each once, and every insertable position is taken: the insertable columns in list order. |
| Insert.CreateAllInOrder | OleDbDatabaseObject.cs:420-431 | Parameters are created in column order, one per column. The first failing column's error ends the loop. |
| Insert.PrefixedDropsToJoin | OleDbDatabaseObject.cs:428-437 | Removing the first two characters of a comma-prefixed builder leaves the comma-separated list. |
| Insert.StatementShape | OleDbDatabaseObject.cs:420-438 | The statement exists iff some column is insertable and all of them yield parameters. It is `INSERT INTO t (cols) VALUES (@names) `, with one parameter per insertable column, and the i-th column and placeholder belong to the i-th parameter. |
| Insert.BuildStatement | OleDbDatabaseObject.cs:416-438 | The loop over the columns and the two builders computes exactly `Statement`, including the failure of `Remove(0, 2)` when nothing was appended. |
| Insert.NoInsertableColumnFails | OleDbDatabaseObject.cs:434-437 | With no insertable column, nothing is executed: the only effect is one rollback, and the error is an ApplicationException naming the table. |
| Insert.ExecutesOnce | OleDbDatabaseObject.cs:446-456 | Exactly one execution is issued: the scalar query with `SELECT SCOPE_IDENTITY() ` appended for an unassigned key (0 or `Int32.MinValue`), otherwise the plain command. |
| Insert.IdentityFetched | OleDbDatabaseObject.cs:446-452 | For an unassigned key, the identity the scalar query returns becomes the entity's key, when the store accepts it. |
| Insert.KeyAccessFailures | OleDbDatabaseObject.cs:446-451 | A throwing key read ends the call before any execution, with one rollback. A throwing key write, after the scalar query succeeded, leaves the key unchanged and rolls back. Both are translated like any other failure. |
| Insert.AssignedKeyKept | OleDbDatabaseObject.cs:453-456 | An assigned key is never written and never changes, and no scalar query is issued. |
| Insert.RollbackOnlyOnFailure | OleDbDatabaseObject.cs:461-478 | The transaction is rolled back exactly once iff the call fails, never on success, and the rollback is the last effect. |
| Insert.ErrorClassification | OleDbDatabaseObject.cs:461-478 | A duplicate-key ApplicationException becomes a FolderException with the same message. Every other failure becomes an ApplicationException whose message contains the table name. The cause is always kept as the inner exception. |
| Insert.Session.GetPrimaryKey | OleDbDatabaseObject.cs:446 | The store's key, or the exception its read throws. |
| Insert.Session.SetPrimaryKey | OleDbDatabaseObject.cs:451 | Stores the key and records it, or throws and changes nothing. |
| Insert.Session.TryInsert | OleDbDatabaseObject.cs:414-460 | The trace, the key and the outcome after the try block are those of `TryInsertRun`. |
| Insert.Session.Add | OleDbDatabaseObject.cs:412-479 | The trace, the key and the outcome after the call are those of `AddRun`. |
| BlobReader.GetOrdinal | OleDbDatabaseObject.cs:519 | The ordinal is of the first column with that name, and there is none iff no column has it. |
| BlobReader.GetBytes | OleDbDatabaseObject.cs:535-546 | A destination index at or past the end of the array is rejected with ArgumentOutOfRange and changes nothing. Otherwise it copies min(length, remaining) bytes of the content into the array at that index and leaves the rest of the array alone. |
| BlobReader.GetBlobValue | OleDbDatabaseObject.cs:516-550 | An unknown column, or a behavior other than SequentialAccess, fails before any `GetBytes` call. Otherwise one length probe and n / 100 + 1 data reads at offsets 0, 100, 200, … are issued. The result is the column's full content, except when n is a multiple of 100 (0 included), where the last read is rejected. |
| BlobReader.GetBlobValueCorrected | OleDbDatabaseObject.cs:535-547 | Reading only while the offset is inside the array takes ⌈n / 100⌉ data reads and returns the full content for every length. |
| BlobReader.ChunksCoverContent | OleDbDatabaseObject.cs:539-547 | The chunks read from an offset concatenate to the rest of the content. There are (remaining / 100) + 1 of them, every one full except a short last one. |
| BlobReader.ChunkProtocol | OleDbDatabaseObject.cs:535-547 | The chunks concatenate to the content. An n-byte column takes n / 100 + 1 data reads: 1 for 0 bytes, 2 for 100, 3 for 250. |
| BlobReader.AsciiDecode | OleDbDatabaseObject.cs:559 | One character per byte. Every character is 7-bit, and each 7-bit byte is decoded as itself. |
| BlobReader.GetStringFromBlob | OleDbDatabaseObject.cs:559 | Fails as `GetBlobValue` does, the rejected last read included; otherwise returns the ASCII decoding of the column content, with the same reader calls. |
| Dialect.TableNameQualification | OleDbDatabaseObject.cs:569-581 | The name is qualified iff the schema is non-empty, and then it is the schema, a dot, and the table. |
| Dialect.FunctionNameVocabulary | OleDbDatabaseObject.cs:602-621 | A name is produced exactly for SUBSTRING, ISNULL, CURRENTDATE and CONCATENATE, and distinct members give distinct names. Anything else gives `""`. |
| Dialect.DateToStringForColumnFallback | OleDbDatabaseObject.cs:629-648 | The fragment is the column itself iff the format is unrecognised. Otherwise it is the column wrapped, unescaped, in `FORMAT(…, "pattern")`, and the column can be read back. |
| Dialect.DateToStringForValueFallback | OleDbDatabaseObject.cs:655-674 | The fragment is the value itself iff the format is unrecognised. Otherwise it is the value in double quotes inside `FORMAT`, and the value can be read back. |
| Dialect.DateFormatsDistinct | OleDbDatabaseObject.cs:629-674 | Different recognised formats give different fragments for the same column or value. |
| Dialect.CaseDecodeLayout | OleDbDatabaseObject.cs:684-694 | The CASE expression opens with the tested column, ends with the alias, and keeps the comparison, true and false values in order. |
| Dialect.IfNullLayout | OleDbDatabaseObject.cs:703-709 | The two-argument form wraps both columns, the tested one first, in the function the no-argument form names. |
| Dialect.ConvertToCharEmbeds | OleDbDatabaseObject.cs:76 | `CONVERT(varchar, c)` embeds the column verbatim; stripping the fixed text gives it back. |
| Dialect.YearSyntaxEmbeds | OleDbDatabaseObject.cs:596 | The year fragment embeds the date string verbatim between `#` marks, formatted as "yyyy". |
| Dialect.DateOnlySyntaxEmbeds | OleDbDatabaseObject.cs:722 | `CSTR(c)` embeds the column verbatim. |
| Dialect.StringToDateSyntaxEmbeds | OleDbDatabaseObject.cs:731 | A date literal is the string verbatim between `#` marks, followed by a space. |
| Dialect.ToDateQuotes | OleDbDatabaseObject.cs:774 | The date string is embedded verbatim between two single quotes, and the format is never consulted. |
| Dialect.DatePartFallback | OleDbDatabaseObject.cs:750-766 | A part is produced exactly for DAY, MONTH and YEAR, wrapping the date expression verbatim. The date format never matters. |

## Findings

| source | as written | input that shows it | evidently intended | confidence | as-written member | corrected member |
|---|---|---|---|---|---|---|
| OleDbDatabaseObject.cs:539-547 | The loop reads again after every full read. When the column length is a multiple of 100, the extra read starts at the end of the array. An empty column gets an initial read at index 0 of an empty array. The OleDb cursor rejects a destination index at or past the end of the buffer, so `GetBlobValue` throws ArgumentOutOfRange. | A BLOB column of 0 bytes, or of exactly 100 bytes | Every column is returned in full, after ⌈n / 100⌉ data reads | not executed; rests on the cursor's rejection of a destination index at or past the end of the buffer, which is outside this repository | BlobReader.GetBlobValue | BlobReader.GetBlobValueCorrected |

`GetBlobValue` and `GetStringFromBlob` model the code as written. `GetBlobValueCorrected` is the reading loop with the intended property.

## Left out

- `OpenConnection`, `TestConnection` and `CreateDataAdapter` (lines 34-71) are connection I/O and ADO.NET object construction, so they are not modelled.
- `Commit`, `CreateApiParameter`, `ColumnDelimiter`, `CreateXMLParameter`, `CreateBetweenParameter`, `GetTableDefinitionQuery` and `ToSystemType` always throw `NotImplementedException`, so they are not modelled.
- `CreateParameterCollection`, the `ConnectionName` and `SupportedDatabase` properties, and `DebugParameters` (line 442, debug output only) are not modelled.
- `GetStringToDateSqlSyntax(DateTime)` (line 740) is not modelled, because it depends on .NET's "G" date formatting.
- The bodies of `ExecuteScalar`, `ExecuteNonQuery` and `RollbackTransaction` live in the base class, which is not part of this model. They are configured replies and trace events.
- An exception thrown by `RollbackTransaction` itself is not modelled.
- The `Convert.ToInt32` of the scalar result is folded into the configured scalar reply.
- `ToSafeParamName` is an uninterpreted function. Name clashes it might cause are not modelled.
- Insert.Session.GetPrimaryKey: line 446 reads the key up to twice. The model reads it once, so a store whose two reads disagree, or whose second read alone throws, is not modelled.
- Insert.ErrorClassification: the catch for `ApplicationException` also catches its subclasses. The model recognises only exceptions of that exact kind, and takes `FolderException` not to be one.
- Insert.ErrorClassification: `IndexOf("duplicate key")` is culture-sensitive in .NET. The model uses ordinal substring search.
- Parameters.Classify: the texts of the runtime's cast and null-reference exceptions are fixed strings, and a decimal's scale is kept but compared numerically.
- Parameters.CreateBlobParameter: OleDb's validation of a negative size is not modelled; the size is kept as given.
- BlobReader.GetOrdinal: the reader's name lookup is case-insensitive as a fallback; the model compares names exactly.
- BlobReader.GetBytes: a NULL (DBNull) column is not modelled, because a field's content is always a byte sequence. The exact message text of the cursor's exceptions is not part of any contract that matters here.
- BlobReader.GetBytes: it is modelled as a random-access copy from the column content. The reader's sequential-access restriction on going back is not modelled, because `GetBlobValue` only reads forward.
- BlobReader.GetBlobValue: the unused `outBuff` array and the `long`/`int` widths of the counters are not modelled, because byte arrays in .NET stay below 2^31 elements.
- BlobReader.AsciiDecode: it models `Encoding.ASCII.GetString` only through its replacement rule (`?` for bytes of 128 and above).
- Dialect.ToDate: `__singleQuote` belongs to the base class and is an argument.
- Dialect fragment functions with no `ensures` of their own are specified by the lemmas listed in the table above.
