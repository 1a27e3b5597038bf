/** The runtime shapes the data mapper works on: declared types, runtime
    values, the data mapper the converters are invoked on, and the converters
    themselves. */
module Reflection {

  /** A declared property type. Its identity is that of a .NET `Type`: the
      assembly, the namespace, the simple name as `Type.Name` reports it
      (`List`1`, `IList`1`, `Recipient`) and the generic arguments in order,
      so two types that share a simple name are still different types. */
  datatype TypeDesc = TypeDesc(assembly: string, nameSpace: string, name: string, args: seq<TypeDesc>)

  /** A runtime value as it reaches a value mapper. `Entity` stands for a
      domain object (a Recipient, an Address) whose fields are not looked at
      here; `Dict` is the ordered key/value structure the converters build. */
  datatype Value =
    | Null
    | Scalar(text: string)
    | Entity(typeName: string, id: nat)
    | Dict(entries: seq<(string, Value)>)
    | List(items: seq<Value>)

  /** The data mapper a converter is invoked on, known here by its version token. */
  datatype DataMapper = DataMapper(version: string)

  /** A per-element-type converter: the `ToDictionary` overload of the data
      mapper, invoked with the data mapper as target and one item as argument. */
  type Converter = (DataMapper, Value) -> Value
}
