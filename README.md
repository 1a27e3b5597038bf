# List value mapper of the SparkPost data mapper

The SparkPost client turns its domain objects (transmissions, recipients,
addresses, content, options) into key/value structures through a data mapper
that tries an ordered chain of value mappers on each property. This project
models one link of that chain, `MapASetOfItemsUsingToDictionary`: the mapper
for list-typed properties whose element type has its own `ToDictionary`
converter.

- `Reflection` (reflection.dfy) replaces .NET reflection with values: a
  declared type is a `TypeDesc` (assembly, namespace, simple name and
  generic arguments), a runtime
  value is a `Value` (`Null`, scalars, opaque domain entities, ordered
  dictionaries, lists), and a converter is a total function from the data
  mapper and one item to the converted item.
- `Strings` (strings.dfy) holds the ordinal `EndsWith` test and its
  characterisations.
- `SetOfItemsMapper` (set_of_items_mapper.dfy) holds the mapper itself. The
  mapper's two read-only fields are the datatype `ListMapper(converters,
  dataMapper)`. Building a value of it plays the part of the constructor, with
  the converter table passed in. `CanMap` is the applicability test. `Map`
  returns a `Result`: the three exceptions `Map` raises before any converter
  runs are error values, in the order the code meets them. An empty list maps to `Null`,
  which tells the data mapper to omit the field: the field is dropped when
  the input list is empty (MapASetOfItemsUsingToDictionary.cs:33-37), and
  since the conversion keeps the length, that is the same as dropping it
  when the converted list would be empty.

## Model

| member | source | states |
|---|---|---|
| Strings.EndsWith | src/SparkPost/ValueMappers/MapASetOfItemsUsingToDictionary.cs:22 | when the name test passes, the suffix is no longer than the name and each suffix character equals the name character at the same distance from the end |
| Strings.EndsWithIsTailSlice | src/SparkPost/ValueMappers/MapASetOfItemsUsingToDictionary.cs:22 | the back-to-front name test holds exactly when the last characters of the name are the suffix |
| Strings.EndsWithIffConcat | src/SparkPost/ValueMappers/MapASetOfItemsUsingToDictionary.cs:22 | a name passes the suffix test exactly when it is some string followed by the suffix |
| Strings.EndsWithAnyPrefix | src/SparkPost/ValueMappers/MapASetOfItemsUsingToDictionary.cs:22 | any string followed by the suffix passes the test |
| SetOfItemsMapper.CanMap | src/SparkPost/ValueMappers/MapASetOfItemsUsingToDictionary.cs:20-25 | a claimed type name ends in "List`1", and a claim guarantees that Map either succeeds or fails only at the list cast, never at the First() call or the table lookup |
| SetOfItemsMapper.CanMapRejectsNull | src/SparkPost/ValueMappers/MapASetOfItemsUsingToDictionary.cs:22 | a null value is never claimed, whatever the declared type |
| SetOfItemsMapper.CanMapCharacterization | src/SparkPost/ValueMappers/MapASetOfItemsUsingToDictionary.cs:20-25 | claimed if and only if the value is non-null, the type name ends in "List`1", there is exactly one generic argument and it has a converter |
| SetOfItemsMapper.AnyListSuffixQualifies | src/SparkPost/ValueMappers/MapASetOfItemsUsingToDictionary.cs:22-24 | every type named prefix + "List`1" (IList`1, a custom FooList`1), in any assembly and namespace, with one convertible argument is claimed for a non-null value |
| SetOfItemsMapper.CanMapLookupDefined | src/SparkPost/ValueMappers/MapASetOfItemsUsingToDictionary.cs:20-29 | when CanMap holds, the first generic argument exists and is a key of the table, so Map raises neither the First() nor the key lookup error |
| SetOfItemsMapper.CanMapThenMapSucceeds | src/SparkPost/ValueMappers/MapASetOfItemsUsingToDictionary.cs:20-39 | a claimed list value is always converted without error |
| SetOfItemsMapper.CanMapDoesNotCheckEnumerable | src/SparkPost/ValueMappers/MapASetOfItemsUsingToDictionary.cs:22-31 | a claimed value that is not a list passes CanMap and then fails at the cast in Map |
| SetOfItemsMapper.ConvertEach | src/SparkPost/ValueMappers/MapASetOfItemsUsingToDictionary.cs:34-35 | the converted list has the input's length and item i is the converter applied to input item i |
| SetOfItemsMapper.ConvertEachAppend | src/SparkPost/ValueMappers/MapASetOfItemsUsingToDictionary.cs:34-35 | converting a concatenation is the concatenation of the conversions |
| SetOfItemsMapper.Map | src/SparkPost/ValueMappers/MapASetOfItemsUsingToDictionary.cs:27-40 | succeeds exactly when there is a first generic argument with a converter and the value is a list; the result is Null exactly for the empty list, and otherwise a list of the same length holding the converted items in input order |
| SetOfItemsMapper.MapErrorOrder | src/SparkPost/ValueMappers/MapASetOfItemsUsingToDictionary.cs:29-31 | without a generic argument Map fails with the First() error whatever the table and the value; when the lookup fails it fails whatever the value; the cast error occurs exactly when the lookup succeeded and the value is not a list |
| SetOfItemsMapper.MapEmptyIsNull | src/SparkPost/ValueMappers/MapASetOfItemsUsingToDictionary.cs:33-38 | a claimed empty list maps to Null, so the field is omitted |
| SetOfItemsMapper.MapNeverEmptyList | src/SparkPost/ValueMappers/MapASetOfItemsUsingToDictionary.cs:33-39 | Map never returns an empty list |
| SetOfItemsMapper.MapTwoRecipients | src/SparkPost/ValueMappers/MapASetOfItemsUsingToDictionary.cs:33-35 | a claimed list of two items maps to the two converted items, first then second (the count and order a two-recipient list is expected to keep in DataMapperTests.cs:181-187) |
| SetOfItemsMapper.SameNameOtherNamespaceNotClaimed | src/SparkPost/ValueMappers/MapASetOfItemsUsingToDictionary.cs:11-29 | the table is keyed by type identity: a list of a same-named type from another namespace is not claimed and Map fails on the lookup |
| SetOfItemsMapper.DependsOnlyOnElementConverter | src/SparkPost/ValueMappers/MapASetOfItemsUsingToDictionary.cs:11-18 | CanMap and Map read only the fixed data mapper and the element type's table entry, so mappers that agree on those answer alike and the same (type, value) always maps the same way |

## Left out

- Type identity is the assembly, namespace, simple name and generic arguments of `TypeDesc`; nested types, generic type definitions versus constructed types, and assembly versions are not distinguished further.
- .NET reflection: `Type.Name`, `GetGenericArguments`, `MethodInfo.Invoke`, `BindingFlags` and `CultureInfo` are replaced by `TypeDesc` and a converter function per element type.
- Building the converter table (`MapASingleItemUsingToDictionary.GetTheConverters`) is not part of this model; the table is a parameter of `ListMapper`.
- The converters themselves are total functions: an exception thrown inside a `ToDictionary` overload is not modelled.
- Callers are taken to pass a non-null property type and a value of that type. The NullReferenceException a null property type raises (MapASetOfItemsUsingToDictionary.cs:22 and :29) and the ArgumentException `MethodInfo.Invoke` raises for an item that is not of the converter's parameter type (:34) are not modelled; the model converts such an item with the element type's converter.
- `String.EndsWith(string)` compares with the current culture; the model compares characters ordinally, which agrees for the ASCII suffix "List`1" under the usual cultures.
- A list whose elements are value types is not a list of objects in .NET, so its `as` cast yields null. The model does not tell value-type lists apart: every `List` value counts as a list of objects, and every other value fails the cast.
- The rest of the data mapper is not part of this model: the dispatcher and its chain order, the other value mappers, the domain entities, and the date and boolean formatting. Immutability of the fields is by construction, since the model's mapper is a value.
- The C# result of a non-empty list is a `List<object>`, because `MethodInfo.Invoke` returns `object`. The model's `List` carries no element type, so a caller's typed cast of the result (such as `as IEnumerable<IDictionary<string, object>>` in DataMapperTests.cs:180, which yields null for a `List<object>`) is not modelled, and whether a transmission's recipients reach the output through this mapper or another path is not decided here.
