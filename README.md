# The AsyncAPI payload code generator of `build.py`, in Dafny

`build.py` turns the payload schemas of an AsyncAPI document into the text of a
Python module of pydantic classes. This project models its core:

- **Naming.** `create_name` builds class names from a parent name and a
  title-cased child name, with the underscores removed.
- **Type hints.** `type_hint_for_property`, `type_hint_for_array_property` and
  `build_class_code` are mutually recursive; `type_hint_for_property` calls
  `type_hint_for_number_property` for number nodes, which calls only
  `create_name`. Together they turn one schema node into a `PropertyTypeHint` record. The record holds:
  the hint, the separate `TYPE_CHECKING` hint, the auxiliary class lines that
  must come first, the core scalar type, and whether a validator is needed.
- **Classes.** `build_class_code` turns an object node into the lines of a
  class. Each property's auxiliary lines go in front of everything built so far;
  its own lines go at the end.
- **The module.** `python_code` does four things:
  - fills the topic registry (topic → last `/`-segment of the message `$ref`);
  - emits the fixed preamble;
  - emits one class per message;
  - emits one callback `Protocol` stub per distinct registered class.
- **Coercion.** `_convert_type` is the runtime helper written into the preamble.
  It turns nested lists and tuples into tuples and casts their leaves.

Modules:

- `Wrappers`: `Option` and `Result`.
- `Strings`: the Python string operations used, on ASCII text. These are
  `str.title`, `replace`, `in`, `split(maxsplit=1)`, `join`, `[x] * n`, `str(int)`
  and `int(str)`.
- `Schemas`: the schema node, with exactly the keys `build.py` reads, and the
  exceptions as an `Error` datatype.
- `Synthesis`: the pure part, as functions. `ClassCode` is `build_class_code` as
  a function, because `type_hint_for_property` calls it.
- `SynthesisFacts`: the properties of the pure part.
- `Emitter`: the imperative part, as methods with loops. Each is proved equal to
  the function that specifies it:
  - `BuildClassCode` equals `ClassCode`;
  - `BuildRegistry` equals `Registry`;
  - `EmitStubs` equals `Stubs` over the order it visited the set in;
  - `GenerateModule` is the whole of `python_code` up to the tab rewrite.
- `EmitterFacts`: the properties of the registry, the stubs and the classes.
- `Coercion`: `_convert_type` and its properties.

Where the code and the wider design of the generator disagree, the model follows
the code. The exception is the two defects listed under "## Findings": the
members that build classes and the module use the corrected wrapping and tuple
rendering, and the code as written is modelled beside them (see "## Left out").
Otherwise:

- A boolean node is always `bool`; its default is not folded into the hint.
- An object node whose `properties` dict is empty gets no `pass`. Only an absent
  `properties` key gives one (see `SynthesisFacts.EmptyPropertiesClass`).
- Only `default`, `minimum` and `maximum` are read. There are no exclusive bounds.
- A stub takes no payload when the class *name* contains `EmptyMessage`. Whether
  the class has fields plays no part.
- Auxiliary classes are hoisted by prepending, so the last property's come first.
  There is no topological ordering.
- The `subclass_name` computed at build.py:209 is never used.
- Class names are not checked for collisions. The properties `a_b` and `a__b` of
  one parent both become the class `<Parent>AB`, and two classes of that name are
  emitted (see `SynthesisFacts.CreateNameCollides`).

## Model

| member | source | states |
|---|---|---|
| Synthesis.CreateName | build.py:52-53 | a class name never contains `_` |
| SynthesisFacts.CreateNameParts | build.py:52-53 | the name is the parent and the title-cased child, each with every `_` removed |
| SynthesisFacts.CreateNameNoUnderscores | build.py:52-53 | without underscores in either part, the name is plain `parent + title(child)` |
| SynthesisFacts.CreateNameKeepsOut | build.py:52-53 | a non-letter in neither part never appears in the name |
| SynthesisFacts.CreateNameCollides | build.py:52-53 | a doubled underscore gives the same name as a single one, so distinct properties can name one class |
| Strings.TitleFromConcat | build.py:53 | title-casing a concatenation title-cases the second part from the first part's last character |
| Strings.TitleAt | build.py:53 | `str.title` keeps the length; each character is upper-cased after a non-letter and lower-cased after a letter |
| Strings.TitleKeepsUnderscores | build.py:53 | `str.title` neither adds nor removes an underscore |
| Strings.RemoveAll | build.py:53 | `replace("_", "")` leaves no `_`, and keeps only characters of its input |
| Strings.RemoveAllConcat | build.py:53 | removing underscores distributes over concatenation |
| Strings.SplitOnce | build.py:236 | `split(" =", maxsplit=1)` gives one piece exactly when `" ="` is absent; otherwise two pieces around its first occurrence |
| Strings.IntToStringRoundTrip | build.py:170-174 | the printed `min_items`/`max_items` bound reads back as the same integer |
| Synthesis.NumberHint | build.py:62-68 | fails exactly when the kind is neither `number` nor `integer`, with that kind in the error |
| SynthesisFacts.PlainNumber | build.py:70-76 | with none of default/minimum/maximum the record is exactly `int` or `float`: no prepended lines, no split, no validator |
| SynthesisFacts.ConstrainedNumber | build.py:78-123 | outside a container the hint is `T = Field(` + (`default=d` or `...`) + `, ge=min` if present + `, le=max` if present + `)` |
| SynthesisFacts.NestedNumber | build.py:98-116 | inside a container the hint is the wrapper class `<Parent><Name>Item`; its first prepended line declares that class and its second the `__root__` field; TYPE_CHECKING split and validator are on, and both the TYPE_CHECKING and core hints are the Python type |
| SynthesisFacts.NumberHintFlags | build.py:70-123 | the TYPE_CHECKING split, the validator and the wrapper class come together, exactly for a nested constrained number |
| SynthesisFacts.FieldDefaultOccurs | build.py:80-85 | `Field(default=` occurs in a number's `T = Field(...)` text (its hint outside a container) exactly when its default is present and not null, for rendered values without `(` |
| SynthesisFacts.NonRequiredNumber | build.py:229-239 | a non-required number: a bare type becomes `Optional[T]`; a Field with a default stays; any other Field becomes `Optional[T] = ` followed by what came after `T =` |
| SynthesisFacts.SplitAfterType | build.py:236-237 | the first `" ="` of `T = Field(...)` is the one right after the type name |
| SynthesisFacts.ArrayFromItem | build.py:132-138 | an array's item is always synthesised as a required, nested property of the same name and parent |
| SynthesisFacts.ArrayKind | build.py:224-227 | an array node's hint is made from its item's hint |
| SynthesisFacts.UnboundedArray | build.py:155-161 | with neither bound: `List[item]`, the item's prepended lines, no TYPE_CHECKING split and no validator |
| SynthesisFacts.FixedArrayCopies | build.py:146-152 | with minItems == maxItems == n: `Tuple[...]` holding n copies of the item hint, separated by `, ` |
| SynthesisFacts.VariableArray | build.py:141-150 | otherwise the container is `List[item]` |
| SynthesisFacts.BoundedArray | build.py:163-186 | with a bound: the item's prepended lines, TYPE_CHECKING flag and core type pass through and the validator is always on; the hint starts with `conlist(` exactly when the item has a TYPE_CHECKING split; only the bounds present are appended |
| SynthesisFacts.BoundedArrayWithoutCoreType | build.py:163-186 | a bounded array of strings or booleans gets a validator although its core type is None, so the validator calls `_convert_type(v, None)` and `convert_to` is the `None` target |
| SynthesisFacts.KindCore | build.py:189-230 | every hint a node's kind yields has core type None (the record's default), or `int` or `float` (a nested constrained number) |
| SynthesisFacts.ArrayCore | build.py:176-186 | an array's core type is its item's, so it too is None, `int` or `float` |
| SynthesisFacts.PropertyCore | build.py:286-291 | every validator line passes `int`, `float` or `None`, the name of the class `Coercion.TargetOf` gives its core type |
| SynthesisFacts.BoundArgReadsBack | build.py:169-174 | the text after `min_items=`/`max_items=` is the bound, read back exactly |
| SynthesisFacts.RequiredUnchanged | build.py:232-241 | a required property's hint is its kind's unchanged; a non-required one differs only in its wrapped hint |
| SynthesisFacts.UnknownKindRaises | build.py:229-230 | a node of any kind other than string, number, integer, boolean, object or array raises the ValueError naming its kind |
| SynthesisFacts.OptionalHintCases | build.py:232-239 | the three wrappings: a hint with `Field(default=` stays; `lhs = rhs` becomes `Optional[lhs] = rhs`, split at the first `" ="`; otherwise `Optional[hint]` |
| SynthesisFacts.OptionalAsWrittenAgrees | build.py:232-239 | wherever the wrapping as written succeeds, it agrees with the corrected one |
| SynthesisFacts.OptionalAsWrittenFails | build.py:234-237 | the wrapping as written fails exactly on hints that hold `=` but not `" ="` (and no `Field(default=`) |
| SynthesisFacts.AsWrittenFailureIntended | build.py:234-239 | where the wrapping as written fails, the corrected one gives `Optional[hint]` |
| SynthesisFacts.ConlistAsWrittenFails | build.py:164-177 | a bounded `conlist(X, ...)` hint whose item name has no `=` makes the wrapping as written raise IndexError |
| SynthesisFacts.BoundedConstrainedArray | build.py:232-237 | a non-required, bounded array of constrained numbers: its hint is `conlist(<Parent><Name>Item, ...)`, the code as written raises IndexError on it, and the corrected result is `Optional[conlist(...)]` |
| SynthesisFacts.PlainItemHasNoCheckingHint | build.py:70-76 | a plain number item has no TYPE_CHECKING hint (None) |
| SynthesisFacts.FixedPlainArrayCounterexample | build.py:153 | a fixed array of n >= 1 plain integers makes the join as written raise TypeError; the corrected hint is `Tuple[int, ...] = Field(...` with its bounds |
| Synthesis.FixedTupleAsWritten | build.py:153 | the join as written fails exactly when the item has no TYPE_CHECKING hint and n >= 1 |
| SynthesisFacts.FixedTupleAgrees | build.py:152-153 | wherever the join as written succeeds, it agrees with the corrected rendering |
| SynthesisFacts.PropHints | build.py:253-262 | the properties' hints in order, one per property |
| SynthesisFacts.ClassFoldShape | build.py:253-294 | the loop from property i on: every later property's auxiliary lines (last property's first), then what was accumulated, then each property's own lines in order |
| SynthesisFacts.ClassCodeShape | build.py:244-300 | a closed object with properties gives the hoisted auxiliary lines, the header, each property's lines, and a blank line |
| SynthesisFacts.ClassCodeRejects | build.py:245-246 | a non-object node, a missing `additionalProperties`, or one that is not `False` is rejected with its own error |
| SynthesisFacts.NoPropertiesClass | build.py:295-300 | without `properties` the class is exactly `[header, "\tpass", ""]` |
| SynthesisFacts.EmptyPropertiesClass | build.py:252-300 | an empty `properties` dict gives `[header, ""]`, with no `pass` |
| SynthesisFacts.ClassCodeEnds | build.py:248-300 | every class ends with `""`; its header comes right after all the auxiliary lines and no auxiliary line follows it |
| SynthesisFacts.ValidatorIff | build.py:268-294 | a field gets the `@validator` line exactly when its hint asks for a validator |
| Emitter.BuildClassCode | build.py:244-300 | the loop that prepends and appends builds exactly `ClassCode`; the result is at least two lines and ends with `""` |
| Emitter.LastSegment | build.py:330 | `split("/")[-1]`: a suffix without `/` that is the whole string or comes right after a `/` |
| EmitterFacts.LastSegmentUnique | build.py:330 | any suffix without `/` that is the whole reference or follows a `/` is the last segment |
| EmitterFacts.LastSegmentExample | build.py:330 | `#/components/messages/AVRPCMColorSet` names `AVRPCMColorSet` |
| Emitter.ChannelClass | build.py:322-330 | the class of a channel has no `/`; a channel with neither `subscribe` nor `publish` raises the ValueError naming its topic |
| EmitterFacts.ChannelClassFails | build.py:322-330 | a channel fails exactly when it has neither operation, or the operation used lacks `message` or `$ref` |
| EmitterFacts.SubscribePreferred | build.py:322-330 | with `subscribe`, the class comes from its reference whatever `publish` says |
| EmitterFacts.PublishOtherwise | build.py:322-330 | without `subscribe`, the class comes from `publish` |
| Emitter.BuildRegistry | build.py:314-330 | the loop fills exactly `Registry`, stopping at the first failing channel |
| Emitter.RegistryFail | build.py:317-328 | once a prefix of the channels fails, the whole loop fails with that error |
| EmitterFacts.RegistryOk | build.py:317-330 | the registry is filled exactly when every channel names a class |
| EmitterFacts.RegistryKeys | build.py:317-330 | its keys are exactly the channels' topics |
| EmitterFacts.RegistryValues | build.py:330 | each topic maps to the class of its (last) channel |
| EmitterFacts.RegistryError | build.py:317-328 | a failing registry fails with the error of the first channel that names no class |
| Emitter.Stub | build.py:368-382 | a stub is seven lines |
| EmitterFacts.StubSignature | build.py:368-378 | `__call__` takes no payload exactly when the class name contains `EmptyMessage`, and otherwise takes `payload: <class>` |
| EmitterFacts.StubsLength | build.py:367-382 | the stubs are seven lines per class |
| EmitterFacts.StubsAt | build.py:367-382 | line m of the k-th stub sits at 7k + m |
| EmitterFacts.StubHeader | build.py:374 | the k-th stub declares `_<class>Callable(Protocol)` |
| Emitter.EmitStubs | build.py:367-382 | every distinct registered class gets exactly one stub, in the order the set is visited |
| Emitter.BuildMessageClasses | build.py:359-364 | the loop gives each message's class in order, and fails on a missing payload or a class that cannot be built |
| Emitter.MessageClassesFail | build.py:360-364 | once a prefix of the messages fails, the whole loop fails with that error |
| EmitterFacts.MessageClassesOk | build.py:359-364 | the classes are built exactly when every message has a payload whose class can be built |
| Emitter.GenerateModule | build.py:304-382 | a failing registry or failing class fails the module with that error; otherwise the module is the preamble, then the classes, then one stub per distinct class |
| Coercion.Truncate | build.py:349 | `int()` of a float rounds toward zero |
| Coercion.Cast | build.py:349 | a leaf cast yields the target type, and `None(x)` always fails; a value already of that type is kept; a failure names the value |
| Coercion.TargetOf | build.py:291 | the printed core type `int` is the class `int`, `float` is the class `float`, and a missing core type is `None` (no other core type is produced, see `SynthesisFacts.KindCore`) |
| Coercion.NoTypeCastable | build.py:345-349 | with `convert_to = None` a value's every leaf can be cast exactly when it has no leaf at all |
| Coercion.NoTypeConvert | build.py:345-349 | with `convert_to = None` the conversion succeeds exactly on values without leaves (nested empty lists and tuples); every leaf raises TypeError |
| Coercion.ConvertMirrors | build.py:345-349 | every list or tuple level becomes a tuple of the same length, element by element, with its leaves cast |
| Coercion.ConvertOkIff | build.py:345-349 | the conversion raises nothing exactly when every leaf can be cast |
| Coercion.MirrorsNormal | build.py:345-349 | the result is tuples all the way down, with leaves of the target type |
| Coercion.ConvertNormal | build.py:345-349 | a value already in that form is returned unchanged |
| Coercion.ConvertIdempotent | build.py:345-349 | converting a converted value changes nothing |
| Coercion.WrgbExample | tests/test_mqtt_payloads.py:28-38 | `wrgb=(1, 2, 3, 4)`, handed to its validator as a list of four int wrapper items, is validated into a tuple of four ints |
| Coercion.IntListExample | build.py:345-349 | the list `[1, 2, 3, 4]` becomes the tuple `(1, 2, 3, 4)` |

## Left out

- Reading the YAML document, `jsonref.replace_refs`, and writing the output file
  (build.py:304-311, 387-389). The input is an already-dereferenced `Document`:
  channel references as strings, and message payloads as `Schema` trees.
- The tab-to-four-spaces rewrite of every line (build.py:385). `GenerateModule`
  returns the lines before it.
- The progress `print` (build.py:361), Jinja rendering (build.py:392-403), `docs()`
  with its `npx` call and pyproject parsing, and argparse. These are external
  tools and CLI.
- The runtime semantics of the generated pydantic classes: `Field` bounds,
  `Extra.forbid`, `__root__`, `conlist`. Only the emitted text is modelled, plus
  `_convert_type`. `Coercion.Item` stands for an instance of a generated wrapper
  class.
- Strings.Title: models `str.title()` on ASCII letters only. Non-ASCII cased
  characters are not modelled.
- Coercion.Cast: models `int(s)` and `float(s)` of a string only for an optional
  sign followed by decimal digits. Other accepted forms (spaces, underscores,
  decimals, exponents, `inf`) are reported as failures.
- Coercion.Cast: models floats as exact reals. IEEE rounding and `nan`/`inf` are
  not modelled.
- Schema leaf values (`default`, `minimum`, `maximum`) are held as the text
  Python's f-strings print for them. The printing itself is not modelled.
- Synthesis.StringHint: enum members are assumed to be strings. The TypeError that
  `'", "'.join(...)` at build.py:203 raises on any other member (such as
  `enum: [1, 2]`) is not modelled.
- The `type` key of a node is assumed present. The `channels`,
  `components.messages` and `payload` lookups of the document are modelled only
  as far as `Document` carries them. A missing `payload` is `MissingKey`.
- The iteration order of `set(topic_class.values())` is Python's own.
  `EmitStubs` takes whatever order it picks and returns it, and the properties
  hold for every order.
- Emitter.GenerateModule, Synthesis.PropertyHint, Synthesis.ClassCode and
  Emitter.BuildClassCode use the corrected wrapping (`Synthesis.OptionalHint`)
  and tuple rendering (`Synthesis.FixedTuple`). So they succeed on the inputs of
  the two findings, where build.py raises IndexError (build.py:237) or TypeError
  (build.py:153). The code as written is `Synthesis.OptionalHintAsWritten` and
  `Synthesis.FixedTupleAsWritten`, and the two findings' lemmas state where the
  two differ.
- Emitter.GenerateModule: the class loop of build.py:360-364 is factored into
  `BuildMessageClasses`.

## Findings

| source | as written | input that shows it | evidently intended | confidence | as-written member | corrected member |
|---|---|---|---|---|---|---|
| build.py:232-237 | a non-required hint containing `=` is split at `" ="` and `chunks[1]` is read | a non-required array with `minItems` whose items are constrained integers: the hint `conlist(XItem, min_items=4)` holds `=` but no `" ="`, so `chunks[1]` raises IndexError | split only when `" ="` occurs, otherwise `Optional[hint]` | not executed | SynthesisFacts.BoundedConstrainedArray | Synthesis.OptionalHint |
| build.py:153 | `', '.join([item.type_checking_type_hint] * n)` | a fixed array (`minItems == maxItems == 4`) of plain integers: the item's TYPE_CHECKING hint is None, so the join raises TypeError | render the missing hint as `None`, as the `List[...]` f-string at build.py:143 does; the value is unused, because such an item has no TYPE_CHECKING split | not executed | SynthesisFacts.FixedPlainArrayCounterexample | Synthesis.FixedTuple |
