/** The value mapper that turns a list of convertible items into a list of
    their converted forms, or into `Null` (field omitted) when the list is
    empty. */
module SetOfItemsMapper {
  import opened Reflection
  import opened Strings

  /** The suffix a declared type's name must end with to be taken for a list. */
  const ListSuffix: string := "List`1"

  /** The three exceptions `MapASetOfItemsUsingToDictionary.Map` raises before
      any converter runs, in the order its body meets them. */
  datatype MapError =
    | NoGenericArgument          // First() on an empty list of generic arguments
    | ConverterNotFound(elementType: TypeDesc)  // the table has no entry for the element type
    | NotAnEnumerable            // the value is not a list of objects, so the cast yields null

  datatype Result<T> = Ok(value: T) | Err(error: MapError)

  /** The mapper's two read-only fields, both fixed when it is built: the
      converter per element type and the data mapper they are invoked on. */
  datatype ListMapper = ListMapper(converters: map<TypeDesc, Converter>, dataMapper: DataMapper)

  /** Whether this mapper claims a property of declared type t holding value v.
      A claim guarantees that Map's converter lookup succeeds. */
  predicate CanMap(m: ListMapper, t: TypeDesc, v: Value): (claimed: bool)
    ensures claimed ==> |ListSuffix| <= |t.name| && t.name[|t.name| - |ListSuffix|..] == ListSuffix
    ensures claimed ==> Map(m, t, v).Ok? || Map(m, t, v) == Err(NotAnEnumerable)
  {
    EndsWithIsTailSlice(t.name, ListSuffix);
    v != Null && EndsWith(t.name, ListSuffix) &&
    |t.args| == 1 &&
    t.args[0] in m.converters
  }

  /** The converter applied to each item in order (the LINQ `Select` in
      `MapASetOfItemsUsingToDictionary.Map`). */
  function ConvertEach(convert: Converter, dm: DataMapper, items: seq<Value>): (out: seq<Value>)
    ensures |out| == |items|
    ensures forall i :: 0 <= i < |items| ==> out[i] == convert(dm, items[i])
  {
    if items == [] then [] else [convert(dm, items[0])] + ConvertEach(convert, dm, items[1..])
  }

  /** Looks up the element type's converter, copies the list and converts
      each item; an empty list becomes `Null`. */
  function Map(m: ListMapper, t: TypeDesc, v: Value): (r: Result<Value>)
    ensures r.Ok? <==> |t.args| > 0 && t.args[0] in m.converters && v.List?
    ensures r.Ok? ==> (r.value == Null <==> v.items == [])
    ensures r.Ok? && r.value != Null ==>
              r.value.List? && |r.value.items| == |v.items| &&
              forall i :: 0 <= i < |v.items| ==>
                r.value.items[i] == m.converters[t.args[0]](m.dataMapper, v.items[i])
  {
    if |t.args| == 0 then Err(NoGenericArgument)
    else if t.args[0] !in m.converters then Err(ConverterNotFound(t.args[0]))
    else if !v.List? then Err(NotAnEnumerable)
    else
      var convert := m.converters[t.args[0]];
      var list := v.items;
      if |list| > 0 then Ok(List(ConvertEach(convert, m.dataMapper, list)))
      else Ok(Null)
  }

  // ---------------------------------------------------------------------------
  // CanMap

  /** A null value is never claimed. */
  lemma CanMapRejectsNull(m: ListMapper, t: TypeDesc)
    ensures !CanMap(m, t, Null)
  {
  }

  /** CanMap holds exactly when the value is non-null, the type's name ends
      with "List`1", and its single generic argument has a converter. */
  lemma CanMapCharacterization(m: ListMapper, t: TypeDesc, v: Value)
    ensures CanMap(m, t, v) <==>
              && v != Null
              && |ListSuffix| <= |t.name| && t.name[|t.name| - |ListSuffix|..] == ListSuffix
              && |t.args| == 1
              && t.args[0] in m.converters
  {
    EndsWithIsTailSlice(t.name, ListSuffix);
  }

  /** The name test is a suffix test: any name ending in "List`1" passes it. */
  lemma AnyListSuffixQualifies(m: ListMapper, assembly: string, nameSpace: string, prefix: string,
                                element: TypeDesc, v: Value)
    requires v != Null && element in m.converters
    ensures CanMap(m, TypeDesc(assembly, nameSpace, prefix + ListSuffix, [element]), v)
  {
    EndsWithAnyPrefix(prefix, ListSuffix);
  }

  /** Whenever CanMap holds, the lookup Map starts with cannot fail. */
  lemma CanMapLookupDefined(m: ListMapper, t: TypeDesc, v: Value)
    requires CanMap(m, t, v)
    ensures |t.args| > 0 && t.args[0] in m.converters
    ensures Map(m, t, v) != Err(NoGenericArgument)
    ensures Map(m, t, v) != Err(ConverterNotFound(t.args[0]))
  {
  }

  /** A claimed list value is always converted without an exception. */
  lemma CanMapThenMapSucceeds(m: ListMapper, t: TypeDesc, items: seq<Value>)
    requires CanMap(m, t, List(items))
    ensures Map(m, t, List(items)).Ok?
  {
  }

  /** CanMap does not look at the runtime shape beyond null: a claimed value
      that is not a list reaches the cast and fails there. */
  lemma CanMapDoesNotCheckEnumerable(m: ListMapper, t: TypeDesc, v: Value)
    requires CanMap(m, t, v) && !v.List?
    ensures Map(m, t, v) == Err(NotAnEnumerable)
  {
  }

  // ---------------------------------------------------------------------------
  // Map

  /** The order of Map's failures. Without a generic argument it fails before
      the table or the value is looked at; when the lookup fails the value is
      never looked at; and the cast fails exactly when the lookup succeeded
      and the value is not a list. */
  lemma MapErrorOrder(m1: ListMapper, m2: ListMapper, t: TypeDesc, v: Value, w: Value)
    ensures |t.args| == 0 ==> Map(m1, t, v) == Map(m2, t, w) && Map(m1, t, v) == Err(NoGenericArgument)
    ensures !(|t.args| > 0 && t.args[0] in m1.converters) ==>
              Map(m1, t, v) == Map(m1, t, w) && Map(m1, t, v).Err?
    ensures Map(m1, t, v) == Err(NotAnEnumerable) <==>
              |t.args| > 0 && t.args[0] in m1.converters && !v.List?
  {
  }

  /** An empty list maps to Null, so the field is omitted. */
  lemma MapEmptyIsNull(m: ListMapper, t: TypeDesc)
    requires CanMap(m, t, List([]))
    ensures Map(m, t, List([])) == Ok(Null)
  {
  }

  /** Map never produces an empty list. */
  lemma MapNeverEmptyList(m: ListMapper, t: TypeDesc, v: Value)
    ensures Map(m, t, v) != Ok(List([]))
  {
  }

  /** Converting a concatenation converts each part. */
  lemma ConvertEachAppend(convert: Converter, dm: DataMapper, xs: seq<Value>, ys: seq<Value>)
    ensures ConvertEach(convert, dm, xs + ys) == ConvertEach(convert, dm, xs) + ConvertEach(convert, dm, ys)
  {
  }

  /** Two recipients in, two converted recipients out, in input order. */
  lemma MapTwoRecipients(convert: Converter, dm: DataMapper, first: Value, second: Value)
    ensures var recipient := TypeDesc("SparkPost", "SparkPost", "Recipient", []);
            var m := ListMapper(map[recipient := convert], dm);
            Map(m, TypeDesc("mscorlib", "System.Collections.Generic", "List`1", [recipient]),
                List([first, second]))
              == Ok(List([convert(dm, first), convert(dm, second)]))
  {
    var recipient := TypeDesc("SparkPost", "SparkPost", "Recipient", []);
    var m := ListMapper(map[recipient := convert], dm);
    var r := Map(m, TypeDesc("mscorlib", "System.Collections.Generic", "List`1", [recipient]),
                 List([first, second]));
    assert r.value.items == [convert(dm, first), convert(dm, second)];
  }

  /** The table is keyed by type identity, not by simple name: a list of a
      same-named type from another namespace is not claimed, and Map fails
      on the lookup. */
  lemma SameNameOtherNamespaceNotClaimed(convert: Converter, dm: DataMapper, v: Value)
    ensures var registered := TypeDesc("SparkPost", "SparkPost", "Recipient", []);
            var other := TypeDesc("Other", "Other", "Recipient", []);
            var m := ListMapper(map[registered := convert], dm);
            var t := TypeDesc("mscorlib", "System.Collections.Generic", "List`1", [other]);
            !CanMap(m, t, v) && Map(m, t, v) == Err(ConverterNotFound(other))
  {
  }

  // ---------------------------------------------------------------------------
  // Fixed fields

  /** CanMap and Map read nothing but the element type's table entry and the
      data mapper: two mappers agreeing on those give the same answers, so
      the same (type, value) always maps the same way. */
  lemma DependsOnlyOnElementConverter(m1: ListMapper, m2: ListMapper, t: TypeDesc, v: Value)
    requires m1.dataMapper == m2.dataMapper
    requires |t.args| > 0 ==> (t.args[0] in m1.converters <==> t.args[0] in m2.converters)
    requires |t.args| > 0 && t.args[0] in m1.converters ==>
               m1.converters[t.args[0]] == m2.converters[t.args[0]]
    ensures CanMap(m1, t, v) == CanMap(m2, t, v)
    ensures Map(m1, t, v) == Map(m2, t, v)
  {
  }
}
