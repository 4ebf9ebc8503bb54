/** The type-hint synthesiser and class emitter of build.py, as the mutually
    recursive functions the Python code is: a schema node becomes a
    `TypeHint` (`type_hint_for_property` and its two helpers), and an object
    node becomes the lines of a pydantic class (`build_class_code`). */
module Synthesis {
  import opened Wrappers
  import opened Strings
  import opened Schemas

  /** The `PropertyTypeHint` record of build.py:24-49. */
  datatype TypeHint = TypeHint(
    prependLines: seq<string>,        // class lines that must come before the user's class
    typeChecking: bool,               // a separate hint is used under TYPE_CHECKING
    hint: string,                     // the hint itself
    typeCheckingHint: Option<string>, // the hint under TYPE_CHECKING
    coreHint: Option<string>,         // the scalar type inside a container, such as int
    validator: bool)                  // a validator calling _convert_type is emitted

  /** The record `type_hint_for_property` starts from (build.py:196-198). */
  const Blank := TypeHint([], false, "", Some(""), None, false)

  /** How an f-string prints an optional string: `None` prints as "None". */
  function Render(o: Option<string>): string {
    match o
    case Some(v) => v
    case None => "None"
  }

  /** `create_name`: the parent's name followed by the title-cased child name,
      without underscores. */
  function CreateName(parent: string, child: string): (r: string)
    ensures '_' !in r
  {
    RemoveAll(parent + Title(child), '_')
  }

  // ---------------------------------------------------------------------------
  // type_hint_for_number_property

  function PythonNumberType(kind: string): string {
    if kind == "number" then "float" else "int"
  }

  /** Whether any of the keys that call for a `Field(...)` is present. */
  predicate HasFieldKeys(s: Schema) {
    s.defaultValue.Some? || s.minimum.Some? || s.maximum.Some?
  }

  /** `default=<d>` when the default is present and not null, `...` otherwise. */
  function DefaultArg(d: Option<Literal>): string {
    if d.Some? && d.value.Text? then "default=" + d.value.rendered else "..."
  }

  function FieldArgs(s: Schema): string {
    DefaultArg(s.defaultValue)
      + (if s.minimum.Some? then ", ge=" + s.minimum.value else "")
      + (if s.maximum.Some? then ", le=" + s.maximum.value else "")
  }

  /** `T = Field(...)` for a constrained number of Python type `t`. */
  function NumberField(t: string, s: Schema): string {
    t + " = Field(" + FieldArgs(s) + ")"
  }

  /** The single-value wrapper class that lets a constrained number sit in a container. */
  function RootClass(className: string, field: string, t: string): seq<string> {
    [ Header(className),
      "\t__root__: " + field,
      "",
      "\tdef __" + t + "__(self) -> " + t + ":",
      "\t\treturn self.__root__",
      "",
      "" ]
  }

  function NumberHint(s: Schema, name: string, parent: string, nested: bool): (r: Result<TypeHint, Error>)
    ensures r.Err? <==> s.kind != "number" && s.kind != "integer"
    ensures r.Err? ==> r.error == NotANumberType(s.kind)
  {
    if s.kind != "number" && s.kind != "integer" then Err(NotANumberType(s.kind))
    else
      var t := PythonNumberType(s.kind);
      if !HasFieldKeys(s) then Ok(TypeHint([], false, t, None, None, false))
      else if nested then
        var className := CreateName(parent, name) + "Item";
        Ok(TypeHint(RootClass(className, NumberField(t, s), t), true, className, Some(t), Some(t), true))
      else Ok(TypeHint([], false, NumberField(t, s), None, None, false))
  }

  // ---------------------------------------------------------------------------
  // type_hint_for_array_property

  /** Both bounds present and equal: a fixed-length tuple. */
  predicate IsFixed(s: Schema) {
    s.minItems.Some? && s.maxItems.Some? && s.minItems.value == s.maxItems.value
  }

  /** `Tuple[e, e, ..., e]` with `n` copies of `e`. A missing element hint prints
      as "None", as the `List[...]` branch's f-string prints it. */
  function FixedTuple(elem: Option<string>, n: int): string {
    "Tuple[" + Join(Repeat(Render(elem), n), ", ") + "]"
  }

  /** build.py:152-153 as written: joining a list of `None` raises TypeError. */
  function FixedTupleAsWritten(elem: Option<string>, n: int): (r: Result<string, Error>)
    ensures r.Err? <==> elem.None? && n >= 1
  {
    if n >= 1 && elem.None? then Err(JoinOfNone) else Ok(FixedTuple(elem, n))
  }

  /** The container hint of an array node around the element hint `elem`. */
  function ContainerHint(s: Schema, elem: Option<string>): string {
    if IsFixed(s) then FixedTuple(elem, s.minItems.value) else "List[" + Render(elem) + "]"
  }

  function BoundArg(key: string, b: Option<int>): string {
    if b.Some? then key + IntToString(b.value) else ""
  }

  function ArrayField(s: Schema, item: TypeHint): string {
    (if item.typeChecking then "conlist(" + item.hint
     else ContainerHint(s, Some(item.hint)) + " = Field(...")
      + BoundArg(", min_items=", s.minItems)
      + BoundArg(", max_items=", s.maxItems)
      + ")"
  }

  /** What build.py:140-186 makes of an array node once its item hint is known. */
  function ArrayOfItem(s: Schema, item: TypeHint): TypeHint {
    if s.minItems.None? && s.maxItems.None? then
      TypeHint(item.prependLines, false, ContainerHint(s, Some(item.hint)), None, None, false)
    else
      TypeHint(item.prependLines, item.typeChecking, ArrayField(s, item),
               Some(ContainerHint(s, item.typeCheckingHint)), item.coreHint, true)
  }

  // ---------------------------------------------------------------------------
  // Wrapping the hint of a property that is not required (build.py:232-239)

  /** The intended wrapping: a hint carrying a default stays; a hint `T = rhs`
      becomes `Optional[T] = rhs`; any other hint `T` becomes `Optional[T]`. */
  function OptionalHint(h: string): string {
    if Contains(h, "Field(default=") then h
    else if Contains(h, " =") then
      var chunks := SplitOnce(h, " =");
      "Optional[" + chunks[0] + "] = " + chunks[1]
    else "Optional[" + h + "]"
  }

  /** build.py:232-239 as written: it splits whenever the hint holds an `=`,
      and indexing the second chunk raises IndexError when no " =" occurs. */
  function OptionalHintAsWritten(h: string): Result<string, Error> {
    if Contains(h, "Field(default=") then Ok(h)
    else if '=' in h then
      var chunks := SplitOnce(h, " =");
      if |chunks| < 2 then Err(IndexOutOfRange)
      else Ok("Optional[" + chunks[0] + "] = " + chunks[1])
    else Ok("Optional[" + h + "]")
  }

  // ---------------------------------------------------------------------------
  // type_hint_for_property and build_class_code

  function StringHint(s: Schema): string {
    if s.enumValues.Some? then "Literal[\"" + Join(s.enumValues.value, "\", \"") + "\"]"
    else "str"
  }

  /** The hint of a node by its kind, before the optional wrapping. */
  function KindHint(s: Schema, name: string, parent: string, nested: bool): Result<TypeHint, Error>
    decreases s, 2
  {
    if s.kind == "string" then Ok(Blank.(hint := StringHint(s)))
    else if s.kind == "number" || s.kind == "integer" then NumberHint(s, name, parent, nested)
    else if s.kind == "boolean" then Ok(Blank.(hint := "bool"))
    else if s.kind == "object" then
      var className := CreateName(parent, name);
      var lines :- ClassCode(className, s);
      Ok(Blank.(hint := className, prependLines := lines))
    else if s.kind == "array" then ArrayHint(s, name, parent, nested)
    else Err(CannotHandleType(s.kind))
  }

  /** `type_hint_for_array_property`: the item is always synthesised as a
      required, nested property. (Its `nested` parameter is unused, as in build.py.) */
  function ArrayHint(s: Schema, name: string, parent: string, nested: bool): Result<TypeHint, Error>
    decreases s, 1
  {
    if s.items.None? then Err(MissingKey("items"))
    else
      var item :- PropertyHint(s.items.value, true, name, parent, true);
      Ok(ArrayOfItem(s, item))
  }

  /** `type_hint_for_property`. */
  function PropertyHint(s: Schema, required: bool, name: string, parent: string, nested: bool): Result<TypeHint, Error>
    decreases s, 3
  {
    var h :- KindHint(s, name, parent, nested);
    Ok(if required then h else h.(hint := OptionalHint(h.hint)))
  }

  function Header(className: string): string {
    "class " + className + "(BaseModel):"
  }

  /** The declaration of one field, split on TYPE_CHECKING when the hint asks for it. */
  function DeclLines(field: string, h: TypeHint): seq<string> {
    if h.typeChecking then
      [ "\tif TYPE_CHECKING:",
        "\t\t" + field + ": " + Render(h.typeCheckingHint),
        "\telse:",
        "\t\t" + field + ": " + h.hint ]
    else [ "\t" + field + ": " + h.hint ]
  }

  function DocLines(s: Schema): seq<string> {
    if s.description.Some? then [ "\t\"\"\"", "\t" + s.description.value, "\t\"\"\"" ] else []
  }

  function ValidatorLine(field: string): string {
    "\t@validator('" + field + "')"
  }

  function ValidatorLines(field: string, h: TypeHint): seq<string> {
    if h.validator then
      [ ValidatorLine(field),
        "\tdef validate_" + field + "(cls, v):",
        "\t\treturn _convert_type(v, " + Render(h.coreHint) + ")",
        "" ]
    else []
  }

  /** Everything one property appends after the lines accumulated so far. */
  function FieldLines(p: Property, h: TypeHint): seq<string> {
    DeclLines(p.name, h) + DocLines(p.schema) + ValidatorLines(p.name, h)
  }

  /** `build_class_code`. */
  function ClassCode(className: string, s: Schema): Result<seq<string>, Error>
    decreases s, 1
  {
    if s.kind != "object" then Err(NotAnObject(s.kind))
    else if s.additionalProperties.None? then Err(MissingKey("additionalProperties"))
    else if s.additionalProperties.value then Err(OpenObject)
    else if s.properties.Absent? then Ok([Header(className), "\tpass", ""])
    else
      var lines :- ClassFold(className, s, 0, [Header(className)]);
      Ok(lines + [""])
  }

  /** The loop of build.py:253-294 from the `i`-th property on, with `lines`
      accumulated so far: each property's prepended lines go in front of
      everything, its own lines at the end. */
  function ClassFold(className: string, s: Schema, i: nat, lines: seq<string>): Result<seq<string>, Error>
    requires s.properties.Present? && i <= |s.properties.entries|
    decreases s, 0, |s.properties.entries| - i
  {
    var ps := s.properties.entries;
    if i == |ps| then Ok(lines)
    else if s.required.None? then Err(MissingKey("required"))
    else
      var p := ps[i];
      assert p in ps;
      var h :- PropertyHint(p.schema, p.name in s.required.value, p.name, className, false);
      ClassFold(className, s, i + 1, h.prependLines + lines + FieldLines(p, h))
  }
}
