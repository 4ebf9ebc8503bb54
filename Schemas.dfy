/** The input of the generator: one node of an already-dereferenced AsyncAPI /
    JSON-Schema payload tree, holding exactly the keys build.py reads, and the
    errors the generator raises while walking it. */
module Schemas {
  import opened Wrappers

  /** A scalar schema value as the generator formats it: `null`, or the text
      Python's `str()` gives for it. */
  datatype Literal = Null | Text(rendered: string)

  /** One schema node. `None` stands for a key that is absent from the node's
      dict; `kind` is its `type` key. `additionalProperties == Some(false)` is the
      only value that passes the `is False` test; `Some(true)` stands for any other. */
  datatype Schema = Schema(
    kind: string,
    description: Option<string>,
    enumValues: Option<seq<string>>,
    defaultValue: Option<Literal>,
    minimum: Option<string>,
    maximum: Option<string>,
    items: Option<Schema>,
    minItems: Option<int>,
    maxItems: Option<int>,
    properties: Properties,
    required: Option<seq<string>>,
    additionalProperties: Option<bool>)

  /** The `properties` key of an object node: absent, or its entries in the dict's order. */
  datatype Properties = Absent | Present(entries: seq<Property>)

  /** One entry of a `properties` dict. */
  datatype Property = Property(name: string, schema: Schema)

  /** The exceptions build.py raises while generating code. */
  datatype Error =
    | NotANumberType(kind: string)         // ValueError, build.py:68
    | CannotHandleType(kind: string)       // ValueError, build.py:230
    | NotAnObject(kind: string)            // AssertionError, build.py:245
    | OpenObject                           // AssertionError, build.py:246
    | MissingKey(key: string)              // KeyError on a dict lookup
    | NoPublishOrSubscribe(topic: string)  // ValueError, build.py:327
    | IndexOutOfRange                      // IndexError, build.py:237 as written
    | JoinOfNone                           // TypeError, build.py:153 as written
}
