# json-avro-converter in Dafny

A model of the JSON to Avro conversion core of json-avro-converter, with proofs about it.
Given a parsed JSON object and an Avro record schema, the converter builds a generic Avro
record. It walks the schema and the JSON value together and keeps a path of field names for
its error messages.

Two engines of the converter are modelled, each as written:

- **The generic reader** (`JsonGenericRecordReader`) is one recursive `switch` on the schema
  type. It runs JSON keys through a name transformer and skips JSON nulls. Keys the schema
  does not declare, and the entries of designated carrier fields, are collected into a
  catch-all `map<string>` field. Other unknown keys go to an unknown-field listener. A union
  is resolved by trying its branches in silent mode. A branch that does not fit answers with
  a private `INCOMPATIBLE` object.
- **The composite reader** (`CompositeJsonToAvroReader` with the converters of `types/`)
  keeps a priority list of converters: the caller's first, then the built-in ones. The first
  converter whose `canManage` holds converts the value. The converters cover records,
  unions, arrays, maps, enums and null, the primitives, and the date, time-millis,
  time-micros, timestamp-millis, timestamp-micros and decimal logical types. A silent
  converter that cannot use the value returns an `Incompatible` carrying the expected
  format.

Both engines push the field name onto a mutable path deque, unless it is already the last
segment, and pop it only after a normal return. Each engine is modelled twice:

- as pure functions of the path before the call (`GenericReading`, `CompositeReading`), each
  returning the outcome and the path the call leaves behind;
- as classes over a `PathDeque` object (`GenericRecordReaders`, `CompositeJsonToAvro`),
  whose methods are proved to compute exactly what those functions compute.

The properties are proved about the functions:

- leaf conversions;
- first-match union selection;
- element-wise arrays and key-wise maps;
- the fate of every record entry;
- restoring the path.

Exceptions are values of an `Error` datatype. `IsAvroRuntime` tells which of them a union
catches.

Smaller pieces are modelled alongside the engines:

- `DateTimeUtils`, and the `java.time` arithmetic it relies on (`DateTimes`);
- the serialisation of additional properties;
- `PathsPrinter`;
- the Base64 check of `StringUtil`;
- UTF-8 for BYTES;
- the post-processing queue of `FieldConversionFailureListener`;
- `FailOnUnknownField`;
- the validator's `ValidationMode` lookup.

JSON numbers are integers. `intValue` and `longValue` (`Values.ToInt`, `Values.ToLong`) are
written out as two's-complement wrap-around. The `java.time` formatters are parameters:
partial functions from a string to the date, time and offset fields they resolve.

Three behaviours of the code that are easy to miss are modelled as written:

- The decimal converter rescales with `RoundingMode.DOWN`, truncating excess digits toward
  zero; it does not reject them.
- A carrier field whose value is not a JSON object is a `ClassCastException` in the code.
  It is modelled as that error, not ignored.
- The path is pushed and popped as written. When a union branch throws after nested pushes,
  those segments stay on the path. `GenericReaderProperties.UnionBranchLeavesSegment`
  exhibits such a case. The general path lemmas are stated for the schemas where this cannot
  happen: `RecordFree` (no record at all), or `UnionSafe` (no union with a record branch).

## Model

| member | source | states |
|---|---|---|
| Paths.PathDeque.constructor | converter/src/main/java/tech/allegro/schema/json2avro/converter/JsonGenericRecordReader.java:123 | a reading starts on an empty path deque |
| Paths.PathDeque.Last | converter/src/main/java/tech/allegro/schema/json2avro/converter/JsonGenericRecordReader.java:170 | `peekLast` returns the last segment, and nothing exactly when the deque is empty |
| Paths.PathDeque.AddLast | converter/src/main/java/tech/allegro/schema/json2avro/converter/JsonGenericRecordReader.java:171-173 | `addLast` puts the segment at the end and changes nothing else |
| Paths.PathDeque.RemoveLast | converter/src/main/java/tech/allegro/schema/json2avro/converter/JsonGenericRecordReader.java:235-237 | `removeLast` on a non-empty deque returns the last segment and leaves the rest |
| Paths.PeekLast | converter/src/main/java/tech/allegro/schema/json2avro/converter/JsonGenericRecordReader.java:170 | the last segment of the path, and no segment exactly for the empty path |
| Paths.Enter | converter/src/main/java/tech/allegro/schema/json2avro/converter/JsonGenericRecordReader.java:169-173 | the path during a read ends with the field name, extends the old path, and is one segment longer exactly when the name was not already last |
| Paths.PrintWithIsChildPath | converter/src/main/java/tech/allegro/schema/json2avro/converter/PathsPrinter.java:9-18 | `print(path, segment)` is the dotted print of the path extended by the segment, for the empty path too |
| Text.JoinSnoc | converter/src/main/java/tech/allegro/schema/json2avro/converter/PathsPrinter.java:9-11 | joining one more part appends the separator and the part |
| Text.RemoveChar | validator/src/main/java/tech/allegro/schema/json2avro/validator/schema/ValidationMode.java:13 | no occurrence of the character is left, nothing is added, and a string without it is unchanged |
| Text.RemoveCharKeeps | validator/src/main/java/tech/allegro/schema/json2avro/validator/schema/ValidationMode.java:13 | every other character is still present after the removal, and no new one appears |
| Text.RemoveCharAppend | converter/src/main/java/tech/allegro/schema/json2avro/converter/util/DateTimeUtils.java:84 | removing a character from a concatenation removes it from each part, so the removal is an order-preserving filter |
| Values.ToInt | converter/src/main/java/tech/allegro/schema/json2avro/converter/types/PrimitiveConverter.java:14 | `intValue`: a 32-bit value congruent to the input modulo 2^32, the input itself when it fits |
| Values.ToLong | converter/src/main/java/tech/allegro/schema/json2avro/converter/types/PrimitiveConverter.java:15 | `longValue` and unchecked `long` arithmetic: a 64-bit value congruent modulo 2^64, the input itself when it fits |
| Values.Exact | converter/src/main/java/tech/allegro/schema/json2avro/converter/types/LongTimestampMicrosConverter.java:37-44 | `multiplyExact`/`addExact`: the exact value when it fits a `long`, an arithmetic exception otherwise |
| AvroSchema.FieldIndex | converter/src/main/java/tech/allegro/schema/json2avro/converter/JsonGenericRecordReader.java:145 | `getField`: the first field with the name, and none exactly when no field has it |
| AvroSchema.GetField | converter/src/main/java/tech/allegro/schema/json2avro/converter/types/RecordConverter.java:29 | `getField` of a record finds a field of that name, and none only when no field has it |
| AvroSchema.FirstMissing | converter/src/main/java/tech/allegro/schema/json2avro/converter/types/RecordConverter.java:37 | `build()` looks at the fields in schema order: the first one neither set nor defaulted, and none exactly when every field is provided |
| AvroSchema.Build | converter/src/main/java/tech/allegro/schema/json2avro/converter/types/RecordConverter.java:37 | `build()` succeeds exactly when every field is set or has a default, with the fields set; otherwise it names a field that is missing |
| AvroSchema.RecDepthOfChildren | converter/src/main/java/tech/allegro/schema/json2avro/converter/JsonGenericRecordReader.java:134-165 | record fields nest less deeply than their record; other children no deeper than their parent |
| JsonValues.UnescapeChar | converter/src/main/java/tech/allegro/schema/json2avro/converter/JsonHelper.java:12-18 | each escaped character reads back as itself |
| JsonValues.UnescapeEscape | converter/src/main/java/tech/allegro/schema/json2avro/converter/JsonHelper.java:12-18 | the escaped text of a string reads back as that string |
| Utf8.EncodeChar | converter/src/main/java/tech/allegro/schema/json2avro/converter/JsonGenericRecordReader.java:280-282 | one to four bytes per character, one byte exactly for ASCII |
| Utf8.Encode | converter/src/main/java/tech/allegro/schema/json2avro/converter/JsonGenericRecordReader.java:280-282 | `getBytes(UTF_8)` takes between one and four bytes per character |
| Utf8.DecodeFirstOfChar | converter/src/main/java/tech/allegro/schema/json2avro/converter/util/StringUtil.java:15 | the bytes of a character decode to that character |
| Utf8.DecodeEncode | converter/src/main/java/tech/allegro/schema/json2avro/converter/util/StringUtil.java:15 | UTF-8 decoding inverts UTF-8 encoding |
| Utf8.EncodeAscii | converter/src/main/java/tech/allegro/schema/json2avro/converter/types/PrimitiveConverter.java:18 | ASCII text is its own encoding, byte for byte |
| AdditionalProperties.AsMap | converter/src/main/java/tech/allegro/schema/json2avro/converter/JsonGenericRecordReader.java:137 | the map a log of puts denotes has exactly the keys put |
| AdditionalProperties.GetObjectValues | converter/src/main/java/tech/allegro/schema/json2avro/converter/AdditionalPropertyField.java:36-43 | one entry per input entry, the same key, its value serialized |
| AdditionalProperties.GetObjectValuesKeys | converter/src/main/java/tech/allegro/schema/json2avro/converter/AdditionalPropertyField.java:36-43 | the keys of `getObjectValues` are exactly the keys of the object |
| AdditionalProperties.PutOverrides | converter/src/main/java/tech/allegro/schema/json2avro/converter/JsonGenericRecordReader.java:152 | `put` makes the key denote the new value and leaves the other keys |
| AdditionalProperties.PutAllOverrides | converter/src/main/java/tech/allegro/schema/json2avro/converter/JsonGenericRecordReader.java:148 | `putAll` overrides with every key of the argument and keeps the rest |
| AdditionalProperties.PropsAsJson | converter/src/main/java/tech/allegro/schema/json2avro/converter/JsonGenericRecordReader.java:161 | the collected map as the JSON object read into the collecting field: the same keys in order, string values |
| StringUtil.SextetChar | converter/src/main/java/tech/allegro/schema/json2avro/converter/util/StringUtil.java:9 | an alphabet character standing for the six-bit value |
| StringUtil.CharOfSextet | converter/src/main/java/tech/allegro/schema/json2avro/converter/util/StringUtil.java:9 | each alphabet character is the character of its own value |
| StringUtil.MatchesIsShape | converter/src/main/java/tech/allegro/schema/json2avro/converter/util/StringUtil.java:9 | the pattern accepts exactly the strings of full groups with one optional padded group at the end |
| StringUtil.AcceptedLength | converter/src/main/java/tech/allegro/schema/json2avro/converter/util/StringUtil.java:9 | an accepted string has a length divisible by four; the empty string is accepted |
| StringUtil.PaddingOnlyAtEnd | converter/src/main/java/tech/allegro/schema/json2avro/converter/util/StringUtil.java:9 | '=' occurs only among the last two characters |
| StringUtil.Decode | converter/src/main/java/tech/allegro/schema/json2avro/converter/util/StringUtil.java:14 | the decoder yields three bytes per group less one per padding character |
| StringUtil.DecodeBase64 | converter/src/main/java/tech/allegro/schema/json2avro/converter/util/StringUtil.java:12-18 | null and text that is not Base64 come back unchanged; Base64 text always decodes |
| StringUtil.Encode | converter/src/main/java/tech/allegro/schema/json2avro/converter/util/StringUtil.java:14 | the section 4 encoder of RFC 4648 writes four characters per three bytes, padded |
| StringUtil.GroupRoundTrip | converter/src/main/java/tech/allegro/schema/json2avro/converter/util/StringUtil.java:14 | a full group decodes back to its three bytes |
| StringUtil.PaddedRoundTrip | converter/src/main/java/tech/allegro/schema/json2avro/converter/util/StringUtil.java:14 | a padded group decodes back to its one or two bytes |
| StringUtil.DecodeCons | converter/src/main/java/tech/allegro/schema/json2avro/converter/util/StringUtil.java:9-14 | a group in front of accepted text is accepted and decodes group first |
| StringUtil.DecodeEncode | converter/src/main/java/tech/allegro/schema/json2avro/converter/util/StringUtil.java:9-14 | every encoding is accepted and decodes back to the bytes |
| StringUtil.DecodeBase64OfEncoded | converter/src/main/java/tech/allegro/schema/json2avro/converter/util/StringUtil.java:12-16 | Base64 text decodes to the UTF-8 reading of the bytes it encodes |
| StringUtil.NotBase64Unchanged | converter/src/main/java/tech/allegro/schema/json2avro/converter/util/StringUtil.java:12-18 | text whose length is not a multiple of four, or with '=' early, is returned unchanged |
| UnknownFields.FailOnUnknownFieldAlwaysThrows | converter/src/main/java/tech/allegro/schema/json2avro/converter/FailOnUnknownField.java:8-10 | always fails, naming the path, whatever the key and value |
| FailureListener.ApplyAllAppend | converter/src/main/java/tech/allegro/schema/json2avro/converter/FieldConversionFailureListener.java:44-47 | running an extended queue runs the old actions, then the new ones |
| FailureListener.TwoActionsInPushOrder | converter/src/main/java/tech/allegro/schema/json2avro/converter/FieldConversionFailureListener.java:44-47 | two queued actions run in push order, each on the result of the one before |
| FailureListener.FieldConversionFailureListener.constructor | converter/src/main/java/tech/allegro/schema/json2avro/converter/FieldConversionFailureListener.java:31 | the queue starts empty |
| FailureListener.FieldConversionFailureListener.PushPostProcessingAction | converter/src/main/java/tech/allegro/schema/json2avro/converter/FieldConversionFailureListener.java:33-35 | the action goes to the end of the queue |
| FailureListener.FieldConversionFailureListener.FlushPostProcessingActions | converter/src/main/java/tech/allegro/schema/json2avro/converter/FieldConversionFailureListener.java:44-50 | the result is the record run through every queued action in push order, and the queue is left empty |
| FailureListener.FieldConversionFailureListener.Reset | converter/src/main/java/tech/allegro/schema/json2avro/converter/FieldConversionFailureListener.java:52-54 | the queue is emptied and nothing is applied |
| FailureListener.FlushTwice | converter/src/main/java/tech/allegro/schema/json2avro/converter/FieldConversionFailureListener.java:44-50 | a second flush returns the record it is given unchanged |
| FailureListener.ResetThenPush | converter/src/test/java/tech/allegro/schema/json2avro/converter/FieldConversionFailureListenerTest.java:73-83 | after a reset only the actions pushed later run, so nothing carries over from a previous run |
| ValidationModes.FindMode | validator/src/main/java/tech/allegro/schema/json2avro/validator/schema/ValidationMode.java:12-15 | the first mode whose normalized name matches ignoring case, and none exactly when no mode matches |
| ValidationModes.CharEqualsIgnoreCaseIsFold | validator/src/main/java/tech/allegro/schema/json2avro/validator/schema/ValidationMode.java:13 | two characters match ignoring case exactly when their upper-then-lower cases coincide |
| ValidationModes.NormalizedJoin | validator/src/main/java/tech/allegro/schema/json2avro/validator/schema/ValidationMode.java:13 | normalizing "A_TO_B" writes "2" between the normal forms of A and B |
| ValidationModes.NormalizedIsShortName | validator/src/main/java/tech/allegro/schema/json2avro/validator/schema/ValidationMode.java:7-16 | removing "_" and writing "TO" as "2" turns each constant name into JSON2AVRO, AVRO2JSON or JSON2AVRO2JSON |
| ValidationModes.ShortNameMatchUnique | validator/src/main/java/tech/allegro/schema/json2avro/validator/schema/ValidationMode.java:12-15 | at most one mode matches a name, so the declaration order does not matter |
| ValidationModes.FromIsUnique | validator/src/main/java/tech/allegro/schema/json2avro/validator/schema/ValidationMode.java:11-16 | `from` finds a mode exactly when the name is its short name ignoring case |
| ValidationModes.FromFound | validator/src/main/java/tech/allegro/schema/json2avro/validator/schema/ValidationMode.java:11-16 | whatever `from` finds matches the name |
| ValidationModes.DocumentedNames | validator/src/main/java/tech/allegro/schema/json2avro/validator/ValidatorOptions.java:18 | the literals json2avro, avro2json and json2avro2json select the three modes |
| ValidationModes.ConstantNameRejected | validator/src/main/java/tech/allegro/schema/json2avro/validator/schema/ValidationMode.java:16 | the name of the constant JSON_TO_AVRO matches nothing, so `get` fails |
| ValidationModes.LongSMatches | validator/src/main/java/tech/allegro/schema/json2avro/validator/schema/ValidationMode.java:13 | case is compared as `equalsIgnoreCase` does: a LATIN SMALL LETTER LONG S, whose upper case is S, selects JSON_TO_AVRO in "jſon2avro" |
| ValidationModes.KelvinSignFolds | validator/src/main/java/tech/allegro/schema/json2avro/validator/schema/ValidationMode.java:13 | a KELVIN SIGN is its own upper case, so it matches k and K only by their lower cases, and it matches no O |
| DateTimeUtils.CleanLineBreaks | converter/src/main/java/tech/allegro/schema/json2avro/converter/util/DateTimeUtils.java:83-85 | no line break is left and every other character is kept |
| DateTimeUtils.CleanLineBreaksIdentity | converter/src/main/java/tech/allegro/schema/json2avro/converter/util/DateTimeUtils.java:83-85 | text without line breaks is unchanged |
| DateTimeUtils.ParseLong | converter/src/main/java/tech/allegro/schema/json2avro/converter/util/DateTimeUtils.java:27 | `Long.valueOf` of a digit string yields a value within `long` |
| DateTimeUtils.GetEpochMicros | converter/src/main/java/tech/allegro/schema/json2avro/converter/util/DateTimeUtils.java:23-41 | a digit string is its own value, unscaled; when neither parse succeeds the result is null |
| DateTimeUtils.EpochMicrosOfZonedParse | converter/src/main/java/tech/allegro/schema/json2avro/converter/util/DateTimeUtils.java:29-40 | a zoned parse is used first; its instant is floored to milliseconds and multiplied by 1000 without overflow check |
| DateTimeUtils.EpochMicrosOfLocalParse | converter/src/main/java/tech/allegro/schema/json2avro/converter/util/DateTimeUtils.java:32-40 | a parse without a zone is read as UTC |
| DateTimeUtils.EpochMicrosOfParsed | converter/src/main/java/tech/allegro/schema/json2avro/converter/util/DateTimeUtils.java:29-40 | a resolved date and time give the epoch milliseconds at the parsed offset, or UTC, times 1000 |
| DateTimeUtils.EpochMicrosExample | converter/src/test/java/tech/allegro/schema/json2avro/converter/DateTimeUtilsTest.java:15 | 2018-09-15 12:00 without a zone is 1537012800000000 |
| DateTimeUtils.EpochMicrosDropsSubMillis | converter/src/test/java/tech/allegro/schema/json2avro/converter/DateTimeUtilsTest.java:16 | the sub-millisecond digits of ".006542" are dropped: 1537012800006000 |
| DateTimeUtils.EpochMicrosPreEpochExample | converter/src/test/java/tech/allegro/schema/json2avro/converter/DateTimeUtilsTest.java:40 | a BC time at offset -11:30 is -125941863974322000 |
| DateTimeUtils.GetEpochDay | converter/src/main/java/tech/allegro/schema/json2avro/converter/util/DateTimeUtils.java:47-57 | the epoch day of the parsed date narrowed to `int`, null exactly when no date is parsed; no digit shortcut |
| DateTimeUtils.EpochDayOfDateText | converter/src/test/java/tech/allegro/schema/json2avro/converter/DateTimeUtilsTest.java:44 | 2021-01-01 is day 18628 |
| DateTimeUtils.EpochDayOfBCText | converter/src/test/java/tech/allegro/schema/json2avro/converter/DateTimeUtilsTest.java:48 | 1 January 2021 BC is day -1457318 |
| DateTimeUtils.GetMicroSeconds | converter/src/main/java/tech/allegro/schema/json2avro/converter/util/DateTimeUtils.java:63-81 | text that is not a digit string never fails, and a resolved time gives a value in [0, 86400000000) |
| DateTimeUtils.MicroSecondsExample | converter/src/test/java/tech/allegro/schema/json2avro/converter/DateTimeUtilsTest.java:53 | 12:23:01.541214 is 44581541214 |
| DateTimeUtils.MicrosOfTime | converter/src/main/java/tech/allegro/schema/json2avro/converter/util/DateTimeUtils.java:80 | the nano of day of a valid time divided by 1000 is ((hour * 60 + minute) * 60 + second) * 10^6 + nano / 1000 |
| DateTimeUtils.MicroSecondsOfTimeParse | converter/src/main/java/tech/allegro/schema/json2avro/converter/util/DateTimeUtils.java:69-80 | a time that `TIME_FORMATTER` resolves gives ((hour * 60 + minute) * 60 + second) * 10^6 + nano / 1000 |
| DateTimeUtils.MicroSecondsOfDateTimeParse | converter/src/main/java/tech/allegro/schema/json2avro/converter/util/DateTimeUtils.java:72-80 | when `TIME_FORMATTER` gives no time, a time that `DATE_TIME_FORMATTER` resolves gives its microseconds after midnight in the same way |
| DateTimeUtils.MicroSecondsNull | converter/src/main/java/tech/allegro/schema/json2avro/converter/util/DateTimeUtils.java:65-80 | text that is not a digit string is null exactly when neither formatter gives a time |
| DateTimeUtils.ParseLongOfIntToString | converter/src/main/java/tech/allegro/schema/json2avro/converter/util/DateTimeUtils.java:26-28 | the decimal text of a `long` is a digit string read back as the same number |
| DateTimeUtils.EpochMicrosOfDigits | converter/src/main/java/tech/allegro/schema/json2avro/converter/util/DateTimeUtils.java:26-28 | a digit string is returned as its value, unscaled |
| DateTimeUtils.MicroSecondsOfDigits | converter/src/main/java/tech/allegro/schema/json2avro/converter/util/DateTimeUtils.java:66-68 | a digit string, negative ones too, is returned as its value |
| AvroTypeConverters.Rejected | converter/src/main/java/tech/allegro/schema/json2avro/converter/types/AvroTypeConverterWithStrictJavaTypeCheck.java:21-36 | a value of the wrong class gives `Incompatible` naming the Java type exactly when silent, otherwise an exception naming the dotted path and the type |
| AvroTypeConverters.InstanceOfExactlyOne | converter/src/main/java/tech/allegro/schema/json2avro/converter/types/AvroTypeConverterWithStrictJavaTypeCheck.java:21 | null is an instance of no class; any other value of exactly one, except that an array is both a `Collection` and a `List` |
| PrimitiveConverters.Convert | converter/src/main/java/tech/allegro/schema/json2avro/converter/types/PrimitiveConverter.java:29-32 | a value of the Java type is always converted, never to `Incompatible`; any other value is rejected by the gate |
| PrimitiveConverters.BooleanAndStringUnchanged | converter/src/main/java/tech/allegro/schema/json2avro/converter/types/PrimitiveConverter.java:12-13 | BOOLEAN and STRING return the input unchanged |
| PrimitiveConverters.IntegralNarrowing | converter/src/main/java/tech/allegro/schema/json2avro/converter/types/PrimitiveConverter.java:14-15 | INT and LONG accept any number and narrow it modulo 2^32 or 2^64; a number in range is unchanged |
| PrimitiveConverters.BytesAreUtf8 | converter/src/main/java/tech/allegro/schema/json2avro/converter/types/PrimitiveConverter.java:18 | BYTES holds the UTF-8 encoding of the string, which decodes back to it |
| PrimitiveConverters.SilentlyOnlyAtTheGate | converter/src/main/java/tech/allegro/schema/json2avro/converter/types/PrimitiveConverter.java:29-32 | for a value that passes the gate, `silently` plays no part |
| PrimitiveConverters.NullRefused | converter/src/main/java/tech/allegro/schema/json2avro/converter/types/AvroTypeConverterWithStrictJavaTypeCheck.java:21-29 | null is rejected by every primitive converter |
| EnumNullConverters.EnumConvert | converter/src/main/java/tech/allegro/schema/json2avro/converter/types/EnumConverter.java:17-28 | only a string passes; a listed symbol gives that symbol, an unlisted one an exception listing all symbols |
| EnumNullConverters.EnumMismatchEvenWhenSilent | converter/src/main/java/tech/allegro/schema/json2avro/converter/types/EnumConverter.java:27-37 | an unlisted symbol is an exception in silent mode too, the same as in strict mode |
| EnumNullConverters.NullConvert | converter/src/main/java/tech/allegro/schema/json2avro/converter/types/NullConverter.java:14-17 | null for null and `Incompatible("NULL")` for anything else; it never fails |
| EnumNullConverters.NullConverterIgnoresContract | converter/src/main/java/tech/allegro/schema/json2avro/converter/types/NullConverter.java:16 | a non-null value gives `Incompatible` even when not silent, against the contract of its interface |
| Registry.FirstManagingAppend | converter/src/main/java/tech/allegro/schema/json2avro/converter/CompositeJsonToAvroReader.java:87-89 | in a concatenated registry the second part is consulted only when nothing in the first part manages the schema |
| Registry.AdditionalConvertersFirst | converter/src/main/java/tech/allegro/schema/json2avro/converter/CompositeJsonToAvroReader.java:58-89 | a supplied converter that manages the schema wins over every built-in one |
| Registry.BuiltinIndex | converter/src/main/java/tech/allegro/schema/json2avro/converter/CompositeJsonToAvroReader.java:60-72 | each schema type but FIXED has its built-in converter in the registry |
| Registry.BuiltinManagesOnlyItsType | converter/src/main/java/tech/allegro/schema/json2avro/converter/CompositeJsonToAvroReader.java:60-72 | among the built-ins exactly the converter for the schema type manages it, whatever the logical type; none manages FIXED |
| Registry.BuiltinsDispatchOnType | converter/src/main/java/tech/allegro/schema/json2avro/converter/CompositeJsonToAvroReader.java:60-89 | the built-in registry finds the converter of the schema type, and finds none exactly for FIXED |
| Registry.FixedUnsupported | converter/src/main/java/tech/allegro/schema/json2avro/converter/CompositeJsonToAvroReader.java:90 | a FIXED schema is "Unsupported type", naming the type of the field schema, in silent mode too |
| CompositeReading.FirstManaging | converter/src/main/java/tech/allegro/schema/json2avro/converter/CompositeJsonToAvroReader.java:87-89 | the position of the first converter that manages the schema at this path; none before it does; the length when none does |
| CompositeReading.Read | converter/src/main/java/tech/allegro/schema/json2avro/converter/CompositeJsonToAvroReader.java:81-97 | a read never shortens the path |
| CompositeReading.Dispatch | converter/src/main/java/tech/allegro/schema/json2avro/converter/CompositeJsonToAvroReader.java:87-91 | the dispatch never shortens the path |
| CompositeReading.ConvertWith | converter/src/main/java/tech/allegro/schema/json2avro/converter/CompositeJsonToAvroReader.java:91 | a conversion never shortens the path |
| CompositeReading.ConvertRecord | converter/src/main/java/tech/allegro/schema/json2avro/converter/types/RecordConverter.java:26-38 | the record conversion never shortens the path |
| CompositeReading.RecordLoop | converter/src/main/java/tech/allegro/schema/json2avro/converter/types/RecordConverter.java:28-37 | the loop over the entries never shortens the path |
| CompositeReading.ArrayLoop | converter/src/main/java/tech/allegro/schema/json2avro/converter/types/ArrayConverter.java:21-25 | the loop over the elements never shortens the path |
| CompositeReading.MapLoop | converter/src/main/java/tech/allegro/schema/json2avro/converter/types/MapConverter.java:20-26 | the loop over the values never shortens the path |
| CompositeReading.UnionLoop | converter/src/main/java/tech/allegro/schema/json2avro/converter/types/UnionConverter.java:24-41 | the loop over the branches never shortens the path |
| CompositeJsonToAvro.CompositeJsonToAvroReader.constructor | converter/src/main/java/tech/allegro/schema/json2avro/converter/CompositeJsonToAvroReader.java:56-73 | the registry is the supplied converters followed by the thirteen built-ins in their order |
| CompositeJsonToAvro.CompositeJsonToAvroReader.WithConverters | converter/src/main/java/tech/allegro/schema/json2avro/converter/CompositeJsonToAvroReader.java:28-39 | the constructors without a listener install the failing listener |
| CompositeJsonToAvro.CompositeJsonToAvroReader.ReadJson | converter/src/main/java/tech/allegro/schema/json2avro/converter/CompositeJsonToAvroReader.java:76-78 | the main record converter runs on an empty path, strictly |
| CompositeJsonToAvro.CompositeJsonToAvroReader.Read | converter/src/main/java/tech/allegro/schema/json2avro/converter/CompositeJsonToAvroReader.java:81-97 | the field name is pushed unless already last, the value dispatched, and the name popped after a normal return |
| CompositeJsonToAvro.CompositeJsonToAvroReader.Dispatch | converter/src/main/java/tech/allegro/schema/json2avro/converter/CompositeJsonToAvroReader.java:87-91 | the first converter that manages the schema converts it; "Unsupported type" when none does |
| CompositeJsonToAvro.CompositeJsonToAvroReader.ConvertWith | converter/src/main/java/tech/allegro/schema/json2avro/converter/CompositeJsonToAvroReader.java:91 | the chosen converter converts with the same `silently` |
| CompositeJsonToAvro.CompositeJsonToAvroReader.ConvertRecord | converter/src/main/java/tech/allegro/schema/json2avro/converter/types/RecordConverter.java:26-46 | the builder is filled entry by entry, a null the field does not accept fails the set, unknown keys go to the listener, then the record is built |
| CompositeJsonToAvro.CompositeJsonToAvroReader.ConvertArray | converter/src/main/java/tech/allegro/schema/json2avro/converter/types/ArrayConverter.java:21-25 | each element is read strictly under the same field and collected in order |
| CompositeJsonToAvro.CompositeJsonToAvroReader.ConvertMap | converter/src/main/java/tech/allegro/schema/json2avro/converter/types/MapConverter.java:20-26 | each value is read strictly under the same field and put under its key |
| CompositeJsonToAvro.CompositeJsonToAvroReader.ConvertUnion | converter/src/main/java/tech/allegro/schema/json2avro/converter/types/UnionConverter.java:24-41 | branches are tried silently in order; `Incompatible` texts are gathered, Avro exceptions skipped |
| CompositeReaderProperties.UnmanagedIsUnsupported | converter/src/main/java/tech/allegro/schema/json2avro/converter/CompositeJsonToAvroReader.java:87-90 | with no converter for the schema the read fails with "Unsupported type" naming the field schema type, whatever `silently` |
| CompositeReaderProperties.ReadStable | converter/src/main/java/tech/allegro/schema/json2avro/converter/CompositeJsonToAvroReader.java:82-95 | a read under a field already last on the path, of a schema without records, leaves the path as it was, whatever the outcome |
| CompositeReaderProperties.ConvertWithStable | converter/src/main/java/tech/allegro/schema/json2avro/converter/CompositeJsonToAvroReader.java:91 | a converter run under such a field and schema leaves the path as it was |
| CompositeReaderProperties.ArrayLoopStable | converter/src/main/java/tech/allegro/schema/json2avro/converter/types/ArrayConverter.java:22-24 | the element reads push no segment: the same field is passed for every element |
| CompositeReaderProperties.MapLoopStable | converter/src/main/java/tech/allegro/schema/json2avro/converter/types/MapConverter.java:22-24 | the value reads push no segment: the same field is reused for every value |
| CompositeReaderProperties.UnionLoopStable | converter/src/main/java/tech/allegro/schema/json2avro/converter/types/UnionConverter.java:27-39 | the branch reads push no segment, even when a branch fails |
| CompositeReaderProperties.ReadRestores | converter/src/main/java/tech/allegro/schema/json2avro/converter/CompositeJsonToAvroReader.java:82-95 | a successful read of a schema where no union has a record branch leaves the path as it was |
| CompositeReaderProperties.ConvertWithRestores | converter/src/main/java/tech/allegro/schema/json2avro/converter/CompositeJsonToAvroReader.java:91 | a successful conversion of such a schema restores the path |
| CompositeReaderProperties.ConvertRecordRestores | converter/src/main/java/tech/allegro/schema/json2avro/converter/types/RecordConverter.java:26-38 | a successful record conversion of such a schema restores the path |
| CompositeReaderProperties.RecordLoopRestores | converter/src/main/java/tech/allegro/schema/json2avro/converter/types/RecordConverter.java:28-36 | on union-safe records each successful field read restores the path |
| CompositeReaderProperties.ArrayLoopRestores | converter/src/main/java/tech/allegro/schema/json2avro/converter/types/ArrayConverter.java:22-24 | on union-safe arrays each successful element read restores the path |
| CompositeReaderProperties.MapLoopRestores | converter/src/main/java/tech/allegro/schema/json2avro/converter/types/MapConverter.java:22-24 | on union-safe maps each successful value read restores the path |
| CompositeResults.ElementReads | converter/src/main/java/tech/allegro/schema/json2avro/converter/types/ArrayConverter.java:22-24 | one independent read per element, strictly, against the element schema |
| CompositeResults.ArrayLoopIsAppendAll | converter/src/main/java/tech/allegro/schema/json2avro/converter/types/ArrayConverter.java:22-24 | on union-safe arrays the element loop folds the independent element reads |
| CompositeResults.AppendAllElementwise | converter/src/main/java/tech/allegro/schema/json2avro/converter/types/ArrayConverter.java:22-24 | the fold succeeds exactly when every part does, and holds their values in order after the accumulated ones |
| CompositeResults.ArrayElementwise | converter/src/main/java/tech/allegro/schema/json2avro/converter/types/ArrayConverter.java:21-25 | the array succeeds exactly when every element reads, with one value per element in input order |
| CompositeResults.ValueReads | converter/src/main/java/tech/allegro/schema/json2avro/converter/types/MapConverter.java:22-24 | one independent read per value, strictly, against the value schema |
| CompositeResults.MapLoopIsPutAll | converter/src/main/java/tech/allegro/schema/json2avro/converter/types/MapConverter.java:22-24 | on union-safe maps the value loop folds the independent value reads |
| CompositeResults.PutAllAccepts | converter/src/main/java/tech/allegro/schema/json2avro/converter/types/MapConverter.java:22-24 | the fold succeeds exactly when every part does |
| CompositeResults.PutAllLastWins | converter/src/main/java/tech/allegro/schema/json2avro/converter/types/MapConverter.java:22-24 | the fold has the old keys plus the entry keys; the last put of a key wins and other keys keep their values |
| CompositeResults.MapAccepts | converter/src/main/java/tech/allegro/schema/json2avro/converter/types/MapConverter.java:20-26 | the map succeeds exactly when every value reads |
| CompositeResults.MapLastPutWins | converter/src/main/java/tech/allegro/schema/json2avro/converter/types/MapConverter.java:20-26 | the keys of the result are exactly the object keys, unchanged; a repeated key holds the value of its last occurrence |
| CompositeResults.RecordSteps | converter/src/main/java/tech/allegro/schema/json2avro/converter/types/RecordConverter.java:28-36 | one step per entry, each at the record path |
| CompositeResults.RecordLoopIsSetAll | converter/src/main/java/tech/allegro/schema/json2avro/converter/types/RecordConverter.java:28-37 | on union-safe records the entry loop applies the independent steps of its entries and then builds the record |
| CompositeResults.SetAllAccepts | converter/src/main/java/tech/allegro/schema/json2avro/converter/types/RecordConverter.java:28-37 | applying the steps succeeds exactly when none stops |
| CompositeResults.SetAllFields | converter/src/main/java/tech/allegro/schema/json2avro/converter/types/RecordConverter.java:28-37 | the record holds the fields set before plus those named by steps; the last set of a name wins |
| CompositeResults.StepMeaning | converter/src/main/java/tech/allegro/schema/json2avro/converter/types/RecordConverter.java:29-46 | an entry stops exactly when not accepted, and sets a field exactly when its key is declared as written, its strict read succeeds and the field accepts the value read |
| CompositeResults.RecordAccepts | converter/src/main/java/tech/allegro/schema/json2avro/converter/types/RecordConverter.java:26-46 | the record succeeds exactly when every entry is accepted (a null only into a nullable or defaulted field) and every field is set or has a default |
| CompositeResults.RecordFieldsFromEntries | converter/src/main/java/tech/allegro/schema/json2avro/converter/types/RecordConverter.java:26-46 | the record has exactly the declared keys that occur, each holding the strict read of its last occurrence, which its field accepts: a null only in a NULL, nullable-union or defaulted field |
| CompositeResults.DefaultListenerAdmitsOnlyDeclaredKeys | converter/src/main/java/tech/allegro/schema/json2avro/converter/types/RecordConverter.java:33-35 | with the failing listener every key of a successfully read object is declared |
| CompositeResults.NullListenerDropsUnknownKeys | converter/src/main/java/tech/allegro/schema/json2avro/converter/types/RecordConverter.java:33-35 | on union-safe records with no listener unknown keys are dropped: success depends on the declared entries and the fields provided only, and the record has only declared keys |
| CompositeResults.MissingFieldRejected | converter/src/main/java/tech/allegro/schema/json2avro/converter/types/RecordConverter.java:37 | an object without a required field fails the build with the missing field, and reads when the field has a default |
| CompositeResults.MissingFieldSkipsBranch | converter/src/main/java/tech/allegro/schema/json2avro/converter/types/RecordConverter.java:37 | the failed build is an Avro runtime exception, so a union goes on past a record branch missing a required field |
| CompositeResults.NullRejectedWithoutDefault | converter/src/main/java/tech/allegro/schema/json2avro/converter/types/RecordConverter.java:44-46 | a null read for a STRING field without a default fails the set |
| CompositeResults.NullKeptWithDefault | converter/src/main/java/tech/allegro/schema/json2avro/converter/types/RecordConverter.java:44-46 | the same null is set when the field has a default |
| CompositeResults.NullKeptInNullableUnion | converter/src/main/java/tech/allegro/schema/json2avro/converter/types/RecordConverter.java:44-46 | a null read for a union with a NULL branch is set |
| CompositeResults.BranchReads | converter/src/main/java/tech/allegro/schema/json2avro/converter/types/UnionConverter.java:29 | one independent silent read per branch |
| CompositeResults.UnionLoopIsTryAll | converter/src/main/java/tech/allegro/schema/json2avro/converter/types/UnionConverter.java:27-40 | on record-free unions the branch loop tries the independent branch reads in order |
| CompositeResults.TryAllFrom | converter/src/main/java/tech/allegro/schema/json2avro/converter/types/UnionConverter.java:27-40 | after skipped branches, the result is the first branch that is not skipped, or the exhausted-union exception |
| CompositeResults.UnionFirstDecisive | converter/src/main/java/tech/allegro/schema/json2avro/converter/types/UnionConverter.java:24-54 | the first branch that is neither `Incompatible` nor an Avro exception is the result; otherwise an exception with the field name, the `Incompatible` texts in branch order and the path; the union's own `silently` plays no part |
| CompositeResults.UnionNeverIncompatible | converter/src/main/java/tech/allegro/schema/json2avro/converter/types/UnionConverter.java:30-40 | the union converter never returns `Incompatible` |
| CompositeResults.RecordLoopBuildsRecord | converter/src/main/java/tech/allegro/schema/json2avro/converter/types/RecordConverter.java:37 | a successful record loop yields a record |
| CompositeResults.ReadRootResult | converter/src/main/java/tech/allegro/schema/json2avro/converter/CompositeJsonToAvroReader.java:76-78 | a non-object is a type error at the empty path; a schema that is not a record fails the builder; on union-safe schemas a successful read is a record and ends on the empty path |
| DateTimeConverters.DateFormatText | converter/src/main/java/tech/allegro/schema/json2avro/converter/types/IntDateConverter.java:18 | the date converter's constant is the template scheme "<string> string, <number> number" filled in |
| DateTimeConverters.ParseString | converter/src/main/java/tech/allegro/schema/json2avro/converter/types/IntDateConverter.java:28-38 | a string conversion fails to parse exactly when the formatter rejects the text |
| DateTimeConverters.Convert | converter/src/main/java/tech/allegro/schema/json2avro/converter/types/LongTimestampMicrosConverter.java:27-62 | a JSON number becomes the converter's narrowed number; a parse failure is `Incompatible(VALID_JSON_FORMAT)` when silent and the "should be a valid" exception otherwise; a value neither string nor number likewise, with the type exception; `Incompatible` appears only when silent |
| DateTimeConverters.DateIsEpochDay | converter/src/main/java/tech/allegro/schema/json2avro/converter/types/IntDateConverter.java:28-31 | a date string becomes its signed day count since 1970-01-01, as a long |
| DateTimeConverters.TimeOfDayInRange | converter/src/main/java/tech/allegro/schema/json2avro/converter/types/IntTimeMillisConverter.java:32-33 | a time string becomes whole milliseconds (time-millis) or microseconds (time-micros) since midnight: the nano-of-day divided down, within one day |
| DateTimeConverters.TimestampMillisWholeSeconds | converter/src/main/java/tech/allegro/schema/json2avro/converter/types/LongTimestampMillisConverter.java:31-32 | timestamp-millis keeps whole seconds only: a multiple of 1000, the instant seconds times 1000 |
| DateTimeConverters.TimestampMicrosIsFloorOfInstant | converter/src/main/java/tech/allegro/schema/json2avro/converter/types/LongTimestampMicrosConverter.java:31-45 | timestamp-micros is the floor of the instant in microseconds, or an arithmetic exception when that does not fit a `long` |
| DateTimeConverters.MissingFieldsEscape | converter/src/main/java/tech/allegro/schema/json2avro/converter/types/LongTimestampMicrosConverter.java:31 | a parse lacking the needed fields escapes as a java.time exception, which a union does not skip |
| DateTimeConverters.TemplateConvert | converter/src/main/java/tech/allegro/schema/json2avro/converter/types/AbstractDateTimeConverter.java:14-36 | the template: string parsed, number through `toTargetNumberFormat`, a failure `Incompatible(validJsonFormat)` when silent, else a "should be a valid" or type exception |
| DateTimeConverters.IntTemplate | converter/src/main/java/tech/allegro/schema/json2avro/converter/types/AbstractIntDateTimeConverter.java:7-15 | numbers are narrowed with `intValue` and the underlying schema type is INT |
| DateTimeConverters.IntTemplateManagesInt | converter/src/main/java/tech/allegro/schema/json2avro/converter/types/AbstractDateTimeConverter.java:38-41 | an INT template manages exactly the INT schemas carrying its logical type |
| DateTimeConverters.ConcreteIsTemplate | converter/src/main/java/tech/allegro/schema/json2avro/converter/types/AbstractDateTimeConverter.java:14-41 | each concrete converter converts and manages exactly as the template filled with its parts |
| DateTimes.LeapDaysStep | converter/src/main/java/tech/allegro/schema/json2avro/converter/types/IntDateConverter.java:31 | one more leap day lies before year y + 1 than before y exactly when y is a leap year |
| DateTimes.EpochDayOfEpoch | converter/src/main/java/tech/allegro/schema/json2avro/converter/types/IntDateConverter.java:31 | `toEpochDay` of 1970-01-01 is zero |
| DateTimes.EpochDayOfNextDay | converter/src/main/java/tech/allegro/schema/json2avro/converter/types/IntDateConverter.java:31 | the next calendar day has the next epoch day, so `toEpochDay` counts days from 1970-01-01 |
| DateTimes.EpochDayExample | converter/src/test/java/tech/allegro/schema/json2avro/converter/DateTimeUtilsTest.java:44 | 2021-01-01 is day 18628 |
| DateTimes.ToNanoOfDay | converter/src/main/java/tech/allegro/schema/json2avro/converter/types/IntTimeMillisConverter.java:32 | the nano-of-day of a valid time lies within one day |
| DateTimes.ToInstant | converter/src/main/java/tech/allegro/schema/json2avro/converter/util/DateTimeUtils.java:30-35 | a valid time at an offset gives a valid instant, nanos in [0, 10^9) |
| DateTimes.EpochMilliIsFloor | converter/src/main/java/tech/allegro/schema/json2avro/converter/util/DateTimeUtils.java:40 | `toEpochMilli` is the floor of the instant in milliseconds, failing exactly when that does not fit a `long` |
| DateTimes.TimestampMicrosIsFloor | converter/src/main/java/tech/allegro/schema/json2avro/converter/types/LongTimestampMicrosConverter.java:33-45 | both branches compute seconds times 10^6 plus nanos / 1000, the floor in microseconds; overflow raises exactly when it does not fit |
| DateTimes.TimestampMicrosPreEpochExample | converter/src/main/java/tech/allegro/schema/json2avro/converter/types/LongTimestampMicrosConverter.java:36-40 | one microsecond before the epoch is -1, through the pre-epoch branch |
| Decimals.JavaString | converter/src/main/java/tech/allegro/schema/json2avro/converter/types/BytesDecimalConverter.java:36 | `value.toString()` fails with a null pointer exactly for null, otherwise the text of the value |
| Decimals.Parse | converter/src/main/java/tech/allegro/schema/json2avro/converter/types/BytesDecimalConverter.java:48 | `new BigDecimal(text)` fails only with a number-format exception naming the text |
| Decimals.NotNumberStart | converter/src/main/java/tech/allegro/schema/json2avro/converter/types/BytesDecimalConverter.java:48 | text that does not start like a number does not parse |
| Decimals.ParseInteger | converter/src/main/java/tech/allegro/schema/json2avro/converter/types/BytesDecimalConverter.java:35-50 | the text of a JSON integer parses back as that integer at scale zero |
| Decimals.DigitValue | converter/src/main/java/tech/allegro/schema/json2avro/converter/types/BytesDecimalConverter.java:48 | an ASCII digit has its own value, every value lies in [-1, 10), and a digit is ASCII or lies at U+0660 or above |
| Decimals.DigitValueOfBlock | converter/src/main/java/tech/allegro/schema/json2avro/converter/types/BytesDecimalConverter.java:48 | each of the ten digits of every decimal-digit block is valued by its distance from the block zero |
| Decimals.DigitValueMeaning | converter/src/main/java/tech/allegro/schema/json2avro/converter/types/BytesDecimalConverter.java:48 | a character is a digit exactly when some decimal-digit block holds it, and then its value is its distance from that block zero |
| Decimals.ParseSigned | converter/src/main/java/tech/allegro/schema/json2avro/converter/types/BytesDecimalConverter.java:48 | a leading "-" negates the unsigned part, a "+" or no sign keeps it, and an unsigned part that does not parse is a number-format error naming the whole text |
| Decimals.ParseLiteral | converter/src/main/java/tech/allegro/schema/json2avro/converter/types/BytesDecimalConverter.java:48 | sign, integer digits, ".", fraction digits, "E" and exponent give the digits of both parts as unscaled value at scale fraction length minus exponent, negated under "-"; an exponent or scale outside `int` is a number-format error |
| Decimals.ParseOtherDigits | converter/src/main/java/tech/allegro/schema/json2avro/converter/types/BytesDecimalConverter.java:48 | digits of other blocks count: ARABIC-INDIC "١٢٣" is 123 and FULLWIDTH "１２" is 12 |
| Decimals.DivDown | converter/src/main/java/tech/allegro/schema/json2avro/converter/types/BytesDecimalConverter.java:49 | division rounding toward zero: the quotient magnitude is the floor of the magnitudes, with the sign of the dividend |
| Decimals.SetScaleDown | converter/src/main/java/tech/allegro/schema/json2avro/converter/types/BytesDecimalConverter.java:47-50 | a larger scale appends zero digits; a smaller one truncates the excess digits toward zero |
| Decimals.SetScaleSame | converter/src/main/java/tech/allegro/schema/json2avro/converter/types/BytesDecimalConverter.java:49 | rescaling to the scale the number already has changes nothing |
| Decimals.ToBytes | converter/src/main/java/tech/allegro/schema/json2avro/converter/types/BytesDecimalConverter.java:37 | `toByteArray` yields at least one byte |
| Decimals.FromToBytes | converter/src/main/java/tech/allegro/schema/json2avro/converter/types/BytesDecimalConverter.java:37 | the big-endian two's-complement bytes read back as the number |
| Decimals.ToBytesSign | converter/src/main/java/tech/allegro/schema/json2avro/converter/types/BytesDecimalConverter.java:37 | the top bit of the first byte is the sign |
| Decimals.ToBytesMinimal | converter/src/main/java/tech/allegro/schema/json2avro/converter/types/BytesDecimalConverter.java:37 | no leading byte is a redundant sign extension |
| Decimals.ToBytesExamples | converter/src/main/java/tech/allegro/schema/json2avro/converter/types/BytesDecimalConverter.java:37 | 1234 is [4, 210], -1 is [255], 128 is [0, 128] |
| Decimals.ConvertDecimal | converter/src/main/java/tech/allegro/schema/json2avro/converter/types/BytesDecimalConverter.java:35-38 | succeeds exactly when the text parses; the bytes encode the value rescaled to the schema scale |
| Decimals.Convert | converter/src/main/java/tech/allegro/schema/json2avro/converter/types/BytesDecimalConverter.java:21-33 | a scale outside `int` is a class-cast error, null a null-pointer error; success is the decimal bytes, or `Incompatible` when silent; strict failure names the path and value |
| Decimals.ConvertInteger | converter/src/main/java/tech/allegro/schema/json2avro/converter/types/BytesDecimalConverter.java:21-38 | a JSON integer at a non-negative scale becomes the bytes of the integer times ten to the scale |
| Decimals.ConvertNonNumber | converter/src/main/java/tech/allegro/schema/json2avro/converter/types/BytesDecimalConverter.java:26-31 | booleans, arrays and objects are `Incompatible("string number, decimal")` when silent and an exception otherwise |
| GenericReading.EnsureEnumSymbol | converter/src/main/java/tech/allegro/schema/json2avro/converter/JsonGenericRecordReader.java:272-278 | succeeds exactly for a symbol of the enum, giving that symbol; otherwise the exception names the path and lists the symbols joined by ", " |
| GenericReading.BytesFor | converter/src/main/java/tech/allegro/schema/json2avro/converter/JsonGenericRecordReader.java:280-282 | BYTES holds bytes that decode as UTF-8 back to the string |
| GenericReading.Reject | converter/src/main/java/tech/allegro/schema/json2avro/converter/JsonGenericRecordReader.java:285-298 | a value of the wrong class is `INCOMPATIBLE` exactly when silent, and otherwise a type exception naming the path and the expected Java class |
| GenericReading.Read | converter/src/main/java/tech/allegro/schema/json2avro/converter/JsonGenericRecordReader.java:168-239 | the path never loses a segment it had on entry; its results are given by the lemmas below |
| GenericReading.Switch | converter/src/main/java/tech/allegro/schema/json2avro/converter/JsonGenericRecordReader.java:176-233 | the switch leaves the path at least as long as it found it |
| GenericReading.Cases | converter/src/main/java/tech/allegro/schema/json2avro/converter/JsonGenericRecordReader.java:177-230 | the cases of the switch other than the default keep every segment of the path |
| GenericReading.ReadContainer | converter/src/main/java/tech/allegro/schema/json2avro/converter/JsonGenericRecordReader.java:177-188 | the RECORD, ARRAY, MAP and UNION cases keep every segment of the path |
| GenericReading.ReadRecord | converter/src/main/java/tech/allegro/schema/json2avro/converter/JsonGenericRecordReader.java:134-165 | reading a record keeps every segment of the path |
| GenericReading.RecordLoop | converter/src/main/java/tech/allegro/schema/json2avro/converter/JsonGenericRecordReader.java:139-156 | the entry loop keeps every segment of the path |
| GenericReading.Finish | converter/src/main/java/tech/allegro/schema/json2avro/converter/JsonGenericRecordReader.java:158-164 | setting the collected properties keeps every segment of the path |
| GenericReading.ArrayLoop | converter/src/main/java/tech/allegro/schema/json2avro/converter/JsonGenericRecordReader.java:241-243 | the element loop keeps every segment of the path |
| GenericReading.MapLoop | converter/src/main/java/tech/allegro/schema/json2avro/converter/JsonGenericRecordReader.java:245-249 | the value loop keeps every segment of the path |
| GenericReading.TypeNames | converter/src/main/java/tech/allegro/schema/json2avro/converter/JsonGenericRecordReader.java:266-268 | one type name per branch, in the branches' order |
| GenericReading.UnionLoop | converter/src/main/java/tech/allegro/schema/json2avro/converter/JsonGenericRecordReader.java:251-270 | trying the branches keeps every segment of the path |
| GenericRecordReaders.JsonGenericRecordReader.constructor | converter/src/main/java/tech/allegro/schema/json2avro/converter/JsonGenericRecordReader.java:100-111 | the reader holds the builder's settings, and its collecting field is the optional-map field named by the Avro name |
| GenericRecordReaders.JsonGenericRecordReader.ReadJson | converter/src/main/java/tech/allegro/schema/json2avro/converter/JsonGenericRecordReader.java:122-131 | `read(json, schema)` is the record read from a fresh empty path |
| GenericRecordReaders.JsonGenericRecordReader.ReadRecord | converter/src/main/java/tech/allegro/schema/json2avro/converter/JsonGenericRecordReader.java:134-165 | the in-place loop over the entries, with a mutable path deque, gives the outcome and final path of the pure model |
| GenericRecordReaders.JsonGenericRecordReader.Read | converter/src/main/java/tech/allegro/schema/json2avro/converter/JsonGenericRecordReader.java:168-239 | the deque push, switch and pop give the outcome and final path of the pure model |
| GenericRecordReaders.JsonGenericRecordReader.Switch | converter/src/main/java/tech/allegro/schema/json2avro/converter/JsonGenericRecordReader.java:176-233 | the switch on the deque agrees with the pure switch, outcome and path |
| GenericRecordReaders.JsonGenericRecordReader.Cases | converter/src/main/java/tech/allegro/schema/json2avro/converter/JsonGenericRecordReader.java:177-230 | each case on the deque agrees with the pure case |
| GenericRecordReaders.JsonGenericRecordReader.ReadArray | converter/src/main/java/tech/allegro/schema/json2avro/converter/JsonGenericRecordReader.java:241-243 | the in-place array loop agrees with the element fold, outcome and path |
| GenericRecordReaders.JsonGenericRecordReader.ReadMap | converter/src/main/java/tech/allegro/schema/json2avro/converter/JsonGenericRecordReader.java:245-249 | the in-place `HashMap` fill agrees with the value fold, outcome and path |
| GenericRecordReaders.JsonGenericRecordReader.ReadUnion | converter/src/main/java/tech/allegro/schema/json2avro/converter/JsonGenericRecordReader.java:251-270 | the branch loop on the deque agrees with the pure branch search, outcome and path |
| GenericRecordReaders.Builder.constructor | converter/src/main/java/tech/allegro/schema/json2avro/converter/JsonGenericRecordReader.java:48-52 | the defaults: no listener, the identity name transformer, the default set of carrier names and the default collecting field name |
| GenericRecordReaders.Builder.SetUnknownFieldListener | converter/src/main/java/tech/allegro/schema/json2avro/converter/JsonGenericRecordReader.java:62-65 | sets the listener and nothing else |
| GenericRecordReaders.Builder.SetNameTransformer | converter/src/main/java/tech/allegro/schema/json2avro/converter/JsonGenericRecordReader.java:67-70 | sets the name transformer and nothing else |
| GenericRecordReaders.Builder.SetJsonAdditionalPropsFieldNames | converter/src/main/java/tech/allegro/schema/json2avro/converter/JsonGenericRecordReader.java:72-75 | sets the carrier names and nothing else |
| GenericRecordReaders.Builder.SetAvroAdditionalPropsFieldName | converter/src/main/java/tech/allegro/schema/json2avro/converter/JsonGenericRecordReader.java:77-80 | sets the collecting field name and nothing else |
| GenericRecordReaders.Builder.Build | converter/src/main/java/tech/allegro/schema/json2avro/converter/JsonGenericRecordReader.java:82-84 | a fresh reader carrying exactly the builder's current settings |
| GenericReaderProperties.OnValidTypeGate | converter/src/main/java/tech/allegro/schema/json2avro/converter/JsonGenericRecordReader.java:285-298 | a value of the wrong class is `INCOMPATIBLE` when silent and a type exception when strict; a value of the right class is converted the same way in both modes, a null conversion result becoming `INCOMPATIBLE` |
| GenericReaderProperties.NullPassesNoGate | converter/src/main/java/tech/allegro/schema/json2avro/converter/JsonGenericRecordReader.java:285-298 | a JSON null is rejected by every class test |
| GenericReaderProperties.SwitchCases | converter/src/main/java/tech/allegro/schema/json2avro/converter/JsonGenericRecordReader.java:176-233 | the switch by type: FIXED falls to the unsupported-type default naming the field schema's type, ENUM and the primitives are leaves, the rest are containers |
| GenericReaderProperties.NullSchemaRead | converter/src/main/java/tech/allegro/schema/json2avro/converter/JsonGenericRecordReader.java:228-230 | a NULL schema gives null for a JSON null and `INCOMPATIBLE` for anything else, in both modes, and restores the path |
| GenericReaderProperties.LeafWrongClass | converter/src/main/java/tech/allegro/schema/json2avro/converter/JsonGenericRecordReader.java:285-298 | a leaf of the wrong class is `INCOMPATIBLE` with the path restored when silent; strict, the exception names the path with the transformed field name, which stays pushed |
| GenericReaderProperties.IntNarrowing | converter/src/main/java/tech/allegro/schema/json2avro/converter/JsonGenericRecordReader.java:189-197 | INT narrows a number as `intValue` does: the result fits 32 bits and equals the number when it already fits |
| GenericReaderProperties.LongNarrowing | converter/src/main/java/tech/allegro/schema/json2avro/converter/JsonGenericRecordReader.java:198-209 | LONG narrows as `longValue` does: the result fits 64 bits and equals the number when it already fits |
| GenericReaderProperties.BytesAreUtf8 | converter/src/main/java/tech/allegro/schema/json2avro/converter/JsonGenericRecordReader.java:225-227 | BYTES holds bytes that decode back to the string, and the path is restored |
| GenericReaderProperties.DateRead | converter/src/main/java/tech/allegro/schema/json2avro/converter/JsonGenericRecordReader.java:189-193 | INT with the date logical type holds the epoch day; a string that is not a date is `INCOMPATIBLE` even when strict |
| GenericReaderProperties.MicrosRead | converter/src/main/java/tech/allegro/schema/json2avro/converter/JsonGenericRecordReader.java:198-207 | LONG with timestamp-micros or time-micros holds the parsed microseconds or `INCOMPATIBLE`; an exception of the parser propagates with the field name still pushed |
| GenericReaderProperties.EnumRead | converter/src/main/java/tech/allegro/schema/json2avro/converter/JsonGenericRecordReader.java:219-221 | an ENUM takes exactly its symbols; any other string is an exception naming the path and the symbols, even when silent |
| GenericReaderProperties.FixedUnsupported | converter/src/main/java/tech/allegro/schema/json2avro/converter/JsonGenericRecordReader.java:231-232 | FIXED is "Unsupported type" naming the type of the field's own schema, in silent mode too |
| GenericReaderProperties.ContainerWrongClass | converter/src/main/java/tech/allegro/schema/json2avro/converter/JsonGenericRecordReader.java:177-185 | a record or map needs a JSON object and an array a JSON array; otherwise `INCOMPATIBLE` when silent and a type exception naming java.util.Map or java.util.List when strict |
| GenericReaderProperties.ReadStable | converter/src/main/java/tech/allegro/schema/json2avro/converter/JsonGenericRecordReader.java:169-173 | when the field name is already the last segment nothing is pushed, so a read of a record-free schema leaves the path as it was, whatever the outcome |
| GenericReaderProperties.SwitchStable | converter/src/main/java/tech/allegro/schema/json2avro/converter/JsonGenericRecordReader.java:176-233 | the switch on a record-free schema leaves the path as it was |
| GenericReaderProperties.ArrayLoopStable | converter/src/main/java/tech/allegro/schema/json2avro/converter/JsonGenericRecordReader.java:241-243 | the element loop of a record-free array leaves the path as it was |
| GenericReaderProperties.MapLoopStable | converter/src/main/java/tech/allegro/schema/json2avro/converter/JsonGenericRecordReader.java:245-249 | the value loop of a record-free map leaves the path as it was |
| GenericReaderProperties.UnionLoopStable | converter/src/main/java/tech/allegro/schema/json2avro/converter/JsonGenericRecordReader.java:251-270 | the branch loop of a record-free union leaves the path as it was |
| GenericReaderProperties.ReadRestores | converter/src/main/java/tech/allegro/schema/json2avro/converter/JsonGenericRecordReader.java:168-239 | a successful read of a schema where no union has a record branch pops every segment it pushed |
| GenericReaderProperties.SwitchRestores | converter/src/main/java/tech/allegro/schema/json2avro/converter/JsonGenericRecordReader.java:176-233 | a successful switch restores the path on such schemas |
| GenericReaderProperties.RecordLoopRestores | converter/src/main/java/tech/allegro/schema/json2avro/converter/JsonGenericRecordReader.java:139-156 | on union-safe records a successful entry loop restores the path |
| GenericReaderProperties.FinishRestores | converter/src/main/java/tech/allegro/schema/json2avro/converter/JsonGenericRecordReader.java:158-164 | setting the collected properties restores the path |
| GenericReaderProperties.ArrayLoopRestores | converter/src/main/java/tech/allegro/schema/json2avro/converter/JsonGenericRecordReader.java:241-243 | on union-safe arrays a successful element loop restores the path |
| GenericReaderProperties.MapLoopRestores | converter/src/main/java/tech/allegro/schema/json2avro/converter/JsonGenericRecordReader.java:245-249 | on union-safe maps a successful value loop restores the path |
| GenericResults.StringValues | converter/src/main/java/tech/allegro/schema/json2avro/converter/JsonGenericRecordReader.java:152-162 | the collecting map has exactly the collected keys, each holding its string |
| GenericResults.StringLeaf | converter/src/main/java/tech/allegro/schema/json2avro/converter/JsonGenericRecordReader.java:222-224 | a STRING leaf under a field already on the path reads a string as itself |
| GenericResults.CollectedMapLoop | converter/src/main/java/tech/allegro/schema/json2avro/converter/JsonGenericRecordReader.java:245-249 | the MAP loop over the collected entries yields their last-wins map of strings |
| GenericResults.CollectedMapBranch | converter/src/main/java/tech/allegro/schema/json2avro/converter/JsonGenericRecordReader.java:183-185 | the MAP branch of the collecting field takes the collected entries |
| GenericResults.CollectedUnionTail | converter/src/main/java/tech/allegro/schema/json2avro/converter/JsonGenericRecordReader.java:251-270 | from the MAP branch on, the union of the collecting field yields the collected map |
| GenericResults.CollectedUnion | converter/src/main/java/tech/allegro/schema/json2avro/converter/JsonGenericRecordReader.java:251-270 | the NULL branch turns the object down and the MAP branch takes it |
| GenericResults.CollectedRead | converter/src/main/java/tech/allegro/schema/json2avro/converter/JsonGenericRecordReader.java:158-162 | reading the collected properties under their field never fails and gives the map of the collected strings |
| GenericResults.FinishResult | converter/src/main/java/tech/allegro/schema/json2avro/converter/JsonGenericRecordReader.java:158-164 | the record is built from the fields set, plus the collecting field when the schema has it and something was collected; the collecting read cannot fail, only the build |
| GenericResults.Without | converter/src/main/java/tech/allegro/schema/json2avro/converter/JsonGenericRecordReader.java:140-142 | the entries with one taken out, the others in order |
| GenericResults.RecordLoopUnfold | converter/src/main/java/tech/allegro/schema/json2avro/converter/JsonGenericRecordReader.java:139-156 | one turn of the entry loop is one entry step |
| GenericResults.NullEntrySkipped | converter/src/main/java/tech/allegro/schema/json2avro/converter/JsonGenericRecordReader.java:140-142 | a null entry is skipped: the record reads as if the entry were absent, so it neither sets a field nor reaches the listener |
| GenericResults.ElementReads | converter/src/main/java/tech/allegro/schema/json2avro/converter/JsonGenericRecordReader.java:241-243 | one strict read per element, at the array's path |
| GenericResults.ArrayLoopIsAppendAll | converter/src/main/java/tech/allegro/schema/json2avro/converter/JsonGenericRecordReader.java:241-243 | on union-safe arrays the element loop is the fold appending independent element reads |
| GenericResults.ArrayElementwise | converter/src/main/java/tech/allegro/schema/json2avro/converter/JsonGenericRecordReader.java:241-243 | an array reads exactly when every element reads, and yields the elements' values in input order, one per element |
| GenericResults.ValueReads | converter/src/main/java/tech/allegro/schema/json2avro/converter/JsonGenericRecordReader.java:245-249 | one strict read per map value, at the map's path |
| GenericResults.MapLoopIsPutAll | converter/src/main/java/tech/allegro/schema/json2avro/converter/JsonGenericRecordReader.java:245-249 | on union-safe maps the value loop is the fold putting independent value reads |
| GenericResults.MapKeywise | converter/src/main/java/tech/allegro/schema/json2avro/converter/JsonGenericRecordReader.java:245-249 | a map reads exactly when every value reads; its keys are the object's keys as written, and a repeated key holds its last value |
| GenericResults.RecordSteps | converter/src/main/java/tech/allegro/schema/json2avro/converter/JsonGenericRecordReader.java:139-156 | one independent step per entry, at the record's path |
| GenericResults.NextIsStep | converter/src/main/java/tech/allegro/schema/json2avro/converter/JsonGenericRecordReader.java:139-156 | on union-safe records one loop turn applies the entry's step: set a field, collect, skip or stop |
| GenericResults.RecordLoopIsSetAll | converter/src/main/java/tech/allegro/schema/json2avro/converter/JsonGenericRecordReader.java:139-156 | on union-safe records the entry loop is the fold of the independent steps |
| GenericResults.SetAllIsFinish | converter/src/main/java/tech/allegro/schema/json2avro/converter/JsonGenericRecordReader.java:139-156 | without a stop, the fold ends with every field set and every property collected |
| GenericResults.SetAllStops | converter/src/main/java/tech/allegro/schema/json2avro/converter/JsonGenericRecordReader.java:153-155 | a stop anywhere ahead ends the record with an exception |
| GenericResults.BuiltFromFields | converter/src/main/java/tech/allegro/schema/json2avro/converter/JsonGenericRecordReader.java:149-150 | the fields set are the old ones plus the names set, each name holding the value of its last setting |
| GenericResults.StepMeaning | converter/src/main/java/tech/allegro/schema/json2avro/converter/JsonGenericRecordReader.java:140-155 | an entry stops the record exactly when it is not accepted; it sets a field exactly when it is declared and accepted, under its transformed name with its strict read |
| GenericResults.CollectedFromEntries | converter/src/main/java/tech/allegro/schema/json2avro/converter/JsonGenericRecordReader.java:147-152 | the properties the steps collect are those of the carrier objects and the unknown keys, in entry order |
| GenericResults.RecordAccepts | converter/src/main/java/tech/allegro/schema/json2avro/converter/JsonGenericRecordReader.java:134-165 | a record reads exactly when every entry is accepted and every field is provided (set, collected or defaulted), and then is the assembled record on the path it began |
| GenericResults.DeclaredFields | converter/src/main/java/tech/allegro/schema/json2avro/converter/JsonGenericRecordReader.java:144-150 | the fields set are exactly the declared entries' transformed names, each holding the read of the last entry of that name |
| GenericResults.RecordResult | converter/src/main/java/tech/allegro/schema/json2avro/converter/JsonGenericRecordReader.java:134-165 | a successful record holds the declared names, plus the collecting field holding the collected strings when allowed and non-empty, and restores the path |
| GenericResults.NullListenerDropsUnknownKeys | converter/src/main/java/tech/allegro/schema/json2avro/converter/JsonGenericRecordReader.java:153-155 | on union-safe records with no listener and no collecting field an unknown key is dropped: the record reads when every carrier is an object, every declared field reads and every field is provided, and holds only the declared names |
| GenericResults.SetValuesNeverNull | converter/src/main/java/tech/allegro/schema/json2avro/converter/JsonGenericRecordReader.java:140-150 | a null entry is skipped and a read of any other value is never null, so `set` is never given a null and its check never fires |
| GenericResults.NullForRequiredFieldIsMissing | converter/src/main/java/tech/allegro/schema/json2avro/converter/JsonGenericRecordReader.java:140-164 | a null for a required field leaves it unset, so the build fails with the missing field; with a default the record reads |
| GenericResults.UnknownKeyToListener | converter/src/main/java/tech/allegro/schema/json2avro/converter/JsonGenericRecordReader.java:153-155 | an unknown key reaches the listener with the key as written and its dotted path; a failure it returns ends the record |
| GenericResults.BranchReads | converter/src/main/java/tech/allegro/schema/json2avro/converter/JsonGenericRecordReader.java:253-265 | one silent read per branch, at the union's path |
| GenericResults.UnionLoopIsTryAll | converter/src/main/java/tech/allegro/schema/json2avro/converter/JsonGenericRecordReader.java:251-270 | on record-free unions the branch loop is the search over independent branch reads |
| GenericResults.TryAllFrom | converter/src/main/java/tech/allegro/schema/json2avro/converter/JsonGenericRecordReader.java:253-269 | the search gives the first branch that is neither `INCOMPATIBLE` nor an Avro runtime exception, or the exhausted-union exception when there is none |
| GenericResults.UnionFirstDecisive | converter/src/main/java/tech/allegro/schema/json2avro/converter/JsonGenericRecordReader.java:251-270 | a union is the outcome of its first branch whose silent read is neither `INCOMPATIBLE` nor an Avro runtime exception, whatever its own mode; when there is none, the exception names the field, all branch types and the path |
| GenericResults.UnionNeverIncompatible | converter/src/main/java/tech/allegro/schema/json2avro/converter/JsonGenericRecordReader.java:251-270 | `INCOMPATIBLE` never leaves a union |
| GenericResults.ReadRootResult | converter/src/main/java/tech/allegro/schema/json2avro/converter/JsonGenericRecordReader.java:122-131 | a root schema that is not a record is an exception naming its type; on union-safe schemas a successful root read is a record and leaves the path empty |
| GenericReaderProperties.StrictFieldFails | converter/src/main/java/tech/allegro/schema/json2avro/converter/JsonGenericRecordReader.java:189-197 | a strict INT field given a string pushes its name, throws a type exception naming "f.a", and leaves the name on the path |
| GenericReaderProperties.RecordBranchFails | converter/src/main/java/tech/allegro/schema/json2avro/converter/JsonGenericRecordReader.java:139-150 | a record whose field throws fails with the path its field left behind |
| GenericReaderProperties.StringBranchRejects | converter/src/main/java/tech/allegro/schema/json2avro/converter/JsonGenericRecordReader.java:169-173 | tried at a path whose last segment is another field, a read pushes its own name again, and pops it on `INCOMPATIBLE` |
| GenericReaderProperties.UnionExhaustedAtLongerPath | converter/src/main/java/tech/allegro/schema/json2avro/converter/JsonGenericRecordReader.java:266-269 | the exhausted-union exception lists "RECORD, STRING" and prints the path it is given |
| GenericReaderProperties.UnionTriedAtLongerPath | converter/src/main/java/tech/allegro/schema/json2avro/converter/JsonGenericRecordReader.java:251-270 | after the record branch throws, the STRING branch is tried, and the union fails, at the longer path |
| GenericReaderProperties.UnionBranchLeavesSegment | converter/src/main/java/tech/allegro/schema/json2avro/converter/JsonGenericRecordReader.java:168-270 | as written, a union whose record branch throws is not restored: its exception for field "f" names "f.a" and the path ends two segments long |

## Left out

- The default values `GenericRecordBuilder.build()` fills in: a field records only whether it has a default (which `set` and `build()` check), and a defaulted field left unset is absent from the record's map, because the default's JSON-to-value conversion inside the Avro library is not part of this model.
- `GenericData.EnumSymbol`: an enum symbol is its string, because that class is not part of this model.
- `GenericRecordBuilder.set`: only its null check is modelled (a null fails for a field that is not NULL, has no union branch NULL and has no default). Its checks of the field's position and schema are not, because both readers set only fields of the record's own schema.
- The patterns of the `java.time` formatters (`ISO_DATE`, `ISO_TIME`, `ISO_DATE_TIME`, the `DateTimeUtils` patterns): each formatter is a parameter, a partial function from text to parsed fields, because reproducing the pattern language is out of proportion to the core.
- Floating point: FLOAT and DOUBLE values, `floatValue` / `doubleValue`, and the narrowing of non-integral numbers, because JSON numbers are modelled as integers only.
- Custom converters a caller supplies: each is a `Leaf` known only by its `canManage` and `convert` functions, since their code is the caller's.
- Jackson parsing (`read(byte[], Schema)`) and the re-wrapping of exceptions in `read(Map, Schema)`: the model starts from a parsed `Json` value and reports the exception as it arises, because the parser is a library.
- `ObjectMapper.writeValueAsString` and `JsonHelper`: replaced by a hand-written compact JSON printer, `JsonValues.JsonText`, because Jackson is not part of this model.
- The iteration order of the `HashMap` of additional properties: the collected properties are an insertion-ordered log whose value under a key is the last one written, because the order is not observable in the resulting map.
- `AbstractLongDateTimeConverter`: as it stands it overrides a method its parent does not declare, so it is not modelled; the LONG converters are modelled directly.
- How a `FieldConversionFailureListener` is attached to a reader: no reader here calls it, so only its post-processing queue is modelled.
- The validator's command line, file I/O and logging (`AvroValidator`, `ValidatorRunner`, `ValidatorOptions`, `Main`, `FileValidationOutput`, `ValidationResult`, `ValidatorException`): only `ValidationMode` is modelled.
- The message texts of `AvroTypeExceptions`: each exception is an `Error` constructor carrying its parts (path, expected type, symbols), because the texts are plain formatting.
- `LogOnUnknownProperty` (logging only) and `FailOnUnknownProperty` (an interface not part of this model, with the behaviour of `FailOnUnknownField`).
- `NoWrappingJsonEncoder`, `DecimalAsStringConversion`, `JsonAvroConverter` and `AvroJsonConverter`: codec wrappers around the Avro library.
- Lone surrogates in strings converted to BYTES: a Java string may hold one and `getBytes` then writes a replacement byte. Dafny characters are Unicode scalar values, so such strings do not occur in the model.
- GenericReaderProperties.ReadRestores, GenericReaderProperties.RecordLoopRestores, GenericReaderProperties.ArrayLoopRestores and GenericReaderProperties.MapLoopRestores: stated only for `UnionSafe` schemas, because with a record inside a union branch the path as written is not restored after the branch throws.
- GenericResults.ArrayElementwise, GenericResults.MapKeywise, GenericResults.RecordAccepts, GenericResults.RecordResult, GenericResults.ArrayLoopIsAppendAll, GenericResults.MapLoopIsPutAll, GenericResults.RecordLoopIsSetAll, GenericResults.NullListenerDropsUnknownKeys and GenericResults.ReadRootResult: stated only for `UnionSafe` schemas, for the same reason.
- GenericResults.UnionFirstDecisive and GenericResults.UnionLoopIsTryAll: stated only for `RecordFree` unions, for the same reason.
- CompositeReaderProperties.ReadRestores, CompositeReaderProperties.RecordLoopRestores, CompositeReaderProperties.ArrayLoopRestores and CompositeReaderProperties.MapLoopRestores: stated only for `UnionSafe` schemas, for the same reason.
- CompositeResults.ArrayElementwise, CompositeResults.MapAccepts, CompositeResults.MapLastPutWins, CompositeResults.RecordAccepts, CompositeResults.RecordFieldsFromEntries, CompositeResults.DefaultListenerAdmitsOnlyDeclaredKeys, CompositeResults.NullListenerDropsUnknownKeys, CompositeResults.ArrayLoopIsAppendAll, CompositeResults.MapLoopIsPutAll, CompositeResults.RecordLoopIsSetAll and CompositeResults.ReadRootResult: stated only for `UnionSafe` schemas, for the same reason.
- CompositeResults.UnionFirstDecisive and CompositeResults.UnionLoopIsTryAll: stated only for `RecordFree` unions, for the same reason.
- DateTimeConverters.TimestampMillisWholeSeconds: stated only when seconds times 1000 fits a `long`; beyond that the model wraps around as the unchecked multiplication does.
- CompositeResults.MapLastPutWins, GenericResults.MapKeywise, CompositeResults.RecordFieldsFromEntries and GenericResults.DeclaredFields: a JSON object is a list of entries, and a repeated key is read once per occurrence, whereas the source's input is a `java.util.Map` with one value per key. On objects whose keys are distinct, which is every object such a map can hold, these statements describe the source.
- ValidationModes.ToUpper and ValidationModes.ToLower: only the characters whose upper or lower case is an ASCII letter are mapped (the ASCII letters, U+017F, U+0131, U+0130 and U+212A); every other character is its own case. This decides every comparison `from` makes, because one side is always an ASCII short name, but not a comparison of two other non-ASCII characters.
- Decimals.BlockZero: the decimal-digit blocks are those of the Basic Multilingual Plane in Unicode 7.0; blocks added to that plane by later Unicode versions are not recognised.
