/** What the generator's functions promise: naming, the number, array and
    optional rules of `type_hint_for_property`, and the layout of the class
    `build_class_code` emits. */
module SynthesisFacts {
  import opened Wrappers
  import opened Strings
  import opened Schemas
  import opened Synthesis
  import Coercion

  // ---------------------------------------------------------------------------
  // create_name

  /** A class name is the parent's name and the title-cased child name, each
      with its underscores dropped. */
  lemma CreateNameParts(parent: string, child: string)
    ensures CreateName(parent, child) == RemoveAll(parent, '_') + RemoveAll(Title(child), '_')
  {
    RemoveAllConcat(parent, Title(child), '_');
  }

  /** Without underscores in either part, `create_name` is plain concatenation
      with the child title-cased. */
  lemma CreateNameNoUnderscores(parent: string, child: string)
    requires '_' !in parent && '_' !in child
    ensures CreateName(parent, child) == parent + Title(child)
  {
    CreateNameParts(parent, child);
    RemoveAllAbsent(parent, '_');
    forall i | 0 <= i < |Title(child)|
      ensures Title(child)[i] != '_'
    {
      TitleKeepsUnderscores(child, i);
    }
    RemoveAllAbsent(Title(child), '_');
  }

  /** `str.title` keeps every non-letter where it was. */
  lemma TitleKeepsNonLetter(s: string, c: char)
    requires !IsLetter(c) && c !in s
    ensures c !in Title(s)
  {
    forall i | 0 <= i < |Title(s)|
      ensures Title(s)[i] != c
    {
      TitleAt(s, i);
    }
  }

  /** A character that is neither a letter nor in the two parts cannot show up
      in the name built from them. */
  lemma CreateNameKeepsOut(parent: string, child: string, c: char)
    requires !IsLetter(c) && c !in parent && c !in child
    ensures c !in CreateName(parent, child)
  {
    TitleKeepsNonLetter(child, c);
  }

  /** Names are not checked for collisions: a doubled underscore names the same
      class as a single one, so the properties `a_b` and `a__b` of one parent
      both name the class `<Parent>AB`. */
  lemma CreateNameCollides(parent: string, a: string, b: string)
    ensures CreateName(parent, a + "_" + b) == CreateName(parent, a + "__" + b)
  {
    var g := if a == [] then false else IsLetter(a[|a| - 1]);
    assert a + "_" + b == a + ("_" + b);
    assert a + "__" + b == a + ("_" + ("_" + b));
    TitleFromConcat(a, "_" + b, false);
    TitleFromConcat(a, "_" + ("_" + b), false);
    TitleAfterUnderscore(b, g);
    TitleAfterUnderscore("_" + b, g);
    TitleAfterUnderscore(b, false);
    var ta, tb := Title(a), Title(b);
    assert Title(a + "_" + b) == ta + ("_" + tb);
    assert Title(a + "__" + b) == ta + ("_" + ("_" + tb));
    CreateNameParts(parent, a + "_" + b);
    CreateNameParts(parent, a + "__" + b);
    RemoveAllConcat(ta, "_" + tb, '_');
    RemoveAllConcat(ta, "_" + ("_" + tb), '_');
    RemoveAllConcat("_", tb, '_');
    RemoveAllConcat("_", "_" + tb, '_');
  }

  // ---------------------------------------------------------------------------
  // type_hint_for_number_property

  /** A number node without default, minimum or maximum is the bare Python type. */
  lemma PlainNumber(s: Schema, name: string, parent: string, nested: bool)
    requires s.kind == "number" || s.kind == "integer"
    requires !HasFieldKeys(s)
    ensures NumberHint(s, name, parent, nested)
         == Ok(TypeHint([], false, if s.kind == "number" then "float" else "int", None, None, false))
  {
  }

  /** A constrained number outside a container is `T = Field(d, ge=.., le=..)`,
      the default (or `...`) first, then each bound that is present. */
  lemma ConstrainedNumber(s: Schema, name: string, parent: string)
    requires s.kind == "number" || s.kind == "integer"
    requires HasFieldKeys(s)
    ensures var t := PythonNumberType(s.kind);
            var args := DefaultArg(s.defaultValue)
                        + (if s.minimum.Some? then ", ge=" + s.minimum.value else "")
                        + (if s.maximum.Some? then ", le=" + s.maximum.value else "");
            NumberHint(s, name, parent, false) == Ok(TypeHint([], false, t + " = Field(" + args + ")", None, None, false))
  {
  }

  /** A constrained number inside a container becomes a wrapper class named
      after its parent and itself with an `Item` suffix; the hint is that class,
      and the TYPE_CHECKING and core hints are the plain Python type. */
  lemma NestedNumber(s: Schema, name: string, parent: string)
    requires s.kind == "number" || s.kind == "integer"
    requires HasFieldKeys(s)
    ensures var t := PythonNumberType(s.kind);
            var className := CreateName(parent, name) + "Item";
            var r := NumberHint(s, name, parent, true);
            && r.Ok?
            && r.value.hint == className
            && |r.value.prependLines| == 7
            && r.value.prependLines[0] == "class " + className + "(BaseModel):"
            && r.value.prependLines[1] == "\t__root__: " + NumberField(t, s)
            && r.value.typeChecking && r.value.validator
            && r.value.typeCheckingHint == Some(t) && r.value.coreHint == Some(t)
            && '_' !in className
  {
  }

  /** Number hints keep their flags in step: a wrapper class, a TYPE_CHECKING
      split and a validator come together or not at all. */
  lemma NumberHintFlags(s: Schema, name: string, parent: string, nested: bool)
    requires NumberHint(s, name, parent, nested).Ok?
    ensures var h := NumberHint(s, name, parent, nested).value;
            && (h.typeChecking <==> h.validator)
            && (h.typeChecking <==> h.prependLines != [])
            && (h.typeChecking <==> nested && HasFieldKeys(s))
            && (h.typeChecking ==> h.typeCheckingHint == h.coreHint == Some(PythonNumberType(s.kind)))
  {
  }

  // ---------------------------------------------------------------------------
  // Optional wrapping of a number that is not required

  /** The rendered default, minimum and maximum of a number hold no parenthesis. */
  predicate NumericTexts(s: Schema) {
    && (s.defaultValue.Some? && s.defaultValue.value.Text? ==> '(' !in s.defaultValue.value.rendered)
    && (s.minimum.Some? ==> '(' !in s.minimum.value)
    && (s.maximum.Some? ==> '(' !in s.maximum.value)
  }

  lemma NumberTypeChars(kind: string)
    ensures var t := PythonNumberType(kind);
            '(' !in t && ' ' !in t && '=' !in t && |t| >= 3
  {
  }

  /** `Field(default=` occurs in a number's `Field(...)` text exactly when the
      default is present and not null. */
  lemma FieldDefaultOccurs(s: Schema)
    requires NumericTexts(s)
    ensures var f := NumberField(PythonNumberType(s.kind), s);
            Contains(f, "Field(default=") <==> s.defaultValue.Some? && s.defaultValue.value.Text?
  {
    if s.defaultValue.Some? && s.defaultValue.value.Text? {
      FieldDefaultPresent(s);
    } else {
      FieldDefaultAbsent(s);
    }
  }

  lemma FieldDefaultPresent(s: Schema)
    requires s.defaultValue.Some? && s.defaultValue.value.Text?
    ensures Contains(NumberField(PythonNumberType(s.kind), s), "Field(default=")
  {
    var t := PythonNumberType(s.kind);
    var d := s.defaultValue.value.rendered;
    var bounds := (if s.minimum.Some? then ", ge=" + s.minimum.value else "")
                  + (if s.maximum.Some? then ", le=" + s.maximum.value else "");
    var rest := d + bounds;
    assert FieldArgs(s) == "default=" + rest;
    var nf := NumberField(t, s);
    assert nf == t + " = Field(" + ("default=" + rest) + ")";
    RegroupField(t, rest);
    OccursBetween(t + " = ", "Field(default=", rest + ")");
  }

  lemma RegroupField(t: string, rest: string)
    ensures t + " = Field(" + ("default=" + rest) + ")" == (t + " = ") + "Field(default=" + (rest + ")")
  {
    assert " = Field(" + "default=" == " = " + "Field(default=";
  }

  lemma FieldDefaultAbsent(s: Schema)
    requires NumericTexts(s)
    requires !(s.defaultValue.Some? && s.defaultValue.value.Text?)
    ensures !Contains(NumberField(PythonNumberType(s.kind), s), "Field(default=")
  {
    var t := PythonNumberType(s.kind);
    NumberTypeChars(s.kind);
    var args := FieldArgs(s);
    assert args[0] == '.';
    assert '(' !in args;
    assert NumberField(t, s) == (t + " = Field") + "(" + (args + ")");
    NoPatternAroundParen(t + " = Field", args + ")", "Field(default=", 5);
  }

  lemma OccursBetween(a: string, sub: string, b: string)
    ensures Contains(a + sub + b, sub)
  {
    assert (a + sub + b)[|a|..|a| + |sub|] == sub;
    ContainsAt(a + sub + b, sub, |a|);
  }

  /** A pattern holding `(` followed by some character cannot occur in a text
      whose only `(` is followed by another character. */
  lemma NoPatternAroundParen(a: string, b: string, sub: string, k: nat)
    requires '(' !in a && '(' !in b
    requires k + 1 < |sub| && sub[k] == '(' && (|b| == 0 || b[0] != sub[k + 1])
    ensures !Contains(a + "(" + b, sub)
  {
    var f := a + "(" + b;
    forall j
      ensures !OccursAt(f, sub, j)
    {
      if 0 <= j && j + |sub| <= |f| {
        var w := f[j..j + |sub|];
        assert w[k] == f[j + k];
        assert w[k + 1] == f[j + k + 1];
        if j + k < |a| {
          assert f[j + k] == a[j + k];
        } else if j + k == |a| {
          assert f[j + k + 1] == b[0];
        } else {
          assert f[j + k] == b[j + k - |a| - 1];
        }
      }
    }
  }

  /** The first " =" of `t + " =" + rest` is the one after `t` when `t` has no space. */
  lemma SplitAfterType(t: string, rest: string)
    requires ' ' !in t
    ensures SplitOnce(t + " =" + rest, " =") == [t, rest]
  {
    var f := t + " =" + rest;
    assert f[|t|..|t| + 2] == " =";
    assert OccursAt(f, " =", |t|);
    var chunks := SplitOnce(f, " =");
    var k := |chunks[0]|;
    assert f == chunks[0] + " =" + chunks[1];
    assert f[k..k + 2] == " =";
    forall j | 0 <= j < |t|
      ensures !OccursAt(f, " =", j)
    {
      assert f[j] == t[j] && t[j] in t;
      if j + 2 <= |f| {
        assert f[j..j + 2][0] == f[j];
      }
    }
    assert chunks[0] == f[..k] == t;
    assert chunks[1] == f[k + 2..] == rest;
  }

  /** The hint of a number that is not required: a bare type `T` becomes
      `Optional[T]`; a `Field` with a default stays as it is; a `Field`
      without one, `T = Field(...)`, becomes `Optional[T] = ` followed by what
      came after `T =`, which leaves two spaces before `Field`. */
  lemma NonRequiredNumber(s: Schema, name: string, parent: string)
    requires s.kind == "number" || s.kind == "integer"
    requires NumericTexts(s)
    ensures var t := PythonNumberType(s.kind);
            var r := PropertyHint(s, false, name, parent, false);
            && r.Ok?
            && r.value.hint
               == (if !HasFieldKeys(s) then "Optional[" + t + "]"
                   else if s.defaultValue.Some? && s.defaultValue.value.Text? then NumberField(t, s)
                   else "Optional[" + t + "] = " + " Field(" + FieldArgs(s) + ")")
  {
    var t := PythonNumberType(s.kind);
    var h := TypeHint([], false, if HasFieldKeys(s) then NumberField(t, s) else t, None, None, false);
    assert KindHint(s, name, parent, false) == Ok(h);
    assert PropertyHint(s, false, name, parent, false) == Ok(h.(hint := OptionalHint(h.hint)));
    if !HasFieldKeys(s) {
      WrapBareType(s.kind);
    } else if s.defaultValue.Some? && s.defaultValue.value.Text? {
      FieldDefaultPresent(s);
    } else {
      WrapFieldWithoutDefault(s);
    }
  }

  lemma WrapBareType(kind: string)
    ensures OptionalHint(PythonNumberType(kind)) == "Optional[" + PythonNumberType(kind) + "]"
  {
    var t := PythonNumberType(kind);
    NumberTypeChars(kind);
    MissingCharNotContained(t, "Field(default=", 5);
    MissingCharNotContained(t, " =", 0);
  }

  lemma WrapFieldWithoutDefault(s: Schema)
    requires NumericTexts(s)
    requires HasFieldKeys(s) && !(s.defaultValue.Some? && s.defaultValue.value.Text?)
    ensures var t := PythonNumberType(s.kind);
            OptionalHint(NumberField(t, s)) == "Optional[" + t + "] = " + " Field(" + FieldArgs(s) + ")"
  {
    var t := PythonNumberType(s.kind);
    NumberTypeChars(s.kind);
    FieldDefaultAbsent(s);
    var rest := " Field(" + FieldArgs(s) + ")";
    assert NumberField(t, s) == t + " =" + rest;
    SplitAfterType(t, rest);
    assert OccursAt(NumberField(t, s), " =", |t|);
    ContainsAt(NumberField(t, s), " =", |t|);
  }

  // ---------------------------------------------------------------------------
  // type_hint_for_array_property

  /** The item of an array is synthesised as a required, nested property under
      the array's own name and parent, and the array's hint is built from it. */
  lemma ArrayFromItem(s: Schema, name: string, parent: string, nested: bool)
    requires ArrayHint(s, name, parent, nested).Ok?
    ensures s.items.Some?
    ensures var item := PropertyHint(s.items.value, true, name, parent, true);
            item.Ok? && ArrayHint(s, name, parent, nested).value == ArrayOfItem(s, item.value)
  {
  }

  /** An array node's hint is made from its item's. */
  lemma ArrayKind(s: Schema, name: string, parent: string, nested: bool, item: TypeHint)
    requires s.kind == "array" && s.items.Some?
    requires KindHint(s.items.value, name, parent, true) == Ok(item)
    ensures KindHint(s, name, parent, nested) == Ok(ArrayOfItem(s, item))
  {
    assert PropertyHint(s.items.value, true, name, parent, true) == Ok(item);
  }

  /** An array without bounds is `List[item]` carrying the item's prepended
      lines, with no TYPE_CHECKING split and no validator. */
  lemma UnboundedArray(s: Schema, item: TypeHint)
    requires s.minItems.None? && s.maxItems.None?
    ensures ArrayOfItem(s, item)
         == TypeHint(item.prependLines, false, "List[" + item.hint + "]", None, None, false)
  {
  }

  /** With `minItems == maxItems == n` the container is `Tuple[...]` holding `n`
      copies of the item hint separated by ", ". */
  lemma FixedArrayCopies(s: Schema, elem: string, k: nat)
    requires IsFixed(s) && k < s.minItems.value
    ensures var n := s.minItems.value;
            var body := Join(Repeat(elem, n), ", ");
            var o := k * (|elem| + 2);
            && ContainerHint(s, Some(elem)) == "Tuple[" + body + "]"
            && |body| == n * (|elem| + 2) - 2
            && o + |elem| <= |body|
            && body[o..o + |elem|] == elem
            && (k + 1 < n ==> o + |elem| + 2 <= |body| && body[o + |elem|..o + |elem| + 2] == ", ")
  {
    var n := s.minItems.value;
    JoinRepeatLength(elem, ", ", n);
    JoinRepeatAt(elem, ", ", n, k);
    OffsetIsProduct(k, |elem| + 2);
  }

  /** Otherwise the container is `List[item]`. */
  lemma VariableArray(s: Schema, elem: string)
    requires !IsFixed(s)
    ensures ContainerHint(s, Some(elem)) == "List[" + elem + "]"
  {
  }

  /** An array with a bound passes on the item's prepended lines, TYPE_CHECKING
      flag and core type, always asks for a validator, and renders as
      `conlist(item` exactly when the item has a TYPE_CHECKING split, followed
      by `, min_items=N` and `, max_items=M` for the bounds that are present. */
  lemma BoundedArray(s: Schema, item: TypeHint)
    requires s.minItems.Some? || s.maxItems.Some?
    ensures var r := ArrayOfItem(s, item);
            && r.prependLines == item.prependLines
            && r.typeChecking == item.typeChecking
            && r.coreHint == item.coreHint
            && r.validator
            && r.typeCheckingHint == Some(ContainerHint(s, item.typeCheckingHint))
            && (|r.hint| >= 8 && r.hint[..8] == "conlist(" <==> item.typeChecking)
            && r.hint == (if item.typeChecking then "conlist(" + item.hint
                          else ContainerHint(s, Some(item.hint)) + " = Field(...")
                         + BoundArg(", min_items=", s.minItems)
                         + BoundArg(", max_items=", s.maxItems) + ")"
  {
    var r := ArrayOfItem(s, item);
    if !item.typeChecking {
      var c := ContainerHint(s, Some(item.hint));
      assert c[0] == 'T' || c[0] == 'L';
      assert r.hint[0] == c[0];
    }
  }

  /** A bounded array of strings or booleans asks for a validator although its
      item has no core type: the validator passes `None` to `_convert_type`. */
  lemma BoundedArrayWithoutCoreType(s: Schema, name: string, parent: string, nested: bool, field: string)
    requires s.kind == "array" && s.items.Some?
    requires s.items.value.kind == "string" || s.items.value.kind == "boolean"
    requires s.minItems.Some? || s.maxItems.Some?
    ensures var k := KindHint(s, name, parent, nested);
            && k.Ok? && k.value.validator && k.value.coreHint.None?
            && ValidatorLines(field, k.value)[2] == "\t\treturn _convert_type(v, None)"
            && Coercion.TargetOf(k.value.coreHint) == Coercion.NoType
  {
    var item := KindHint(s.items.value, name, parent, true).value;
    assert item.coreHint.None?;
    RequiredUnchanged(s.items.value, name, parent, true);
    ArrayKind(s, name, parent, nested, item);
  }

  /** The core types a hint can carry: none, `int` or `float`. */
  predicate CoreTyped(core: Option<string>) {
    core == None || core == Some("int") || core == Some("float")
  }

  /** Every core type the generator prints is `None`, `int` or `float`, so the
      class a validator passes to `_convert_type` is the one its text names. */
  lemma {:induction false} KindCore(s: Schema, name: string, parent: string, nested: bool)
    requires KindHint(s, name, parent, nested).Ok?
    ensures CoreTyped(KindHint(s, name, parent, nested).value.coreHint)
    decreases s, 2
  {
    if s.kind == "array" {
      ArrayCore(s, name, parent, nested);
    }
  }

  lemma {:induction false} ArrayCore(s: Schema, name: string, parent: string, nested: bool)
    requires ArrayHint(s, name, parent, nested).Ok?
    ensures CoreTyped(ArrayHint(s, name, parent, nested).value.coreHint)
    decreases s, 1
  {
    KindCore(s.items.value, name, parent, true);
  }

  /** A validator line passes `int`, `float` or `None`, and `Coercion.TargetOf`
      of the core type is the class that text names. */
  lemma PropertyCore(s: Schema, required: bool, name: string, parent: string, nested: bool, field: string)
    requires PropertyHint(s, required, name, parent, nested).Ok?
    ensures var h := PropertyHint(s, required, name, parent, nested).value;
            var t := Coercion.TargetOf(h.coreHint);
            && CoreTyped(h.coreHint)
            && (h.validator ==>
                  ValidatorLines(field, h)[2]
                  == "\t\treturn _convert_type(v, "
                     + (match t case IntType => "int" case FloatType => "float" case NoType => "None")
                     + ")")
  {
    KindCore(s, name, parent, nested);
  }

  /** The bound printed after `min_items=` or `max_items=` reads back as the bound. */
  lemma BoundArgReadsBack(key: string, b: int)
    ensures BoundArg(key, Some(b)) == key + IntToString(b)
    ensures ParseInt(BoundArg(key, Some(b))[|key|..]) == Some(b)
  {
    assert BoundArg(key, Some(b))[|key|..] == IntToString(b);
    IntToStringRoundTrip(b);
  }

  // ---------------------------------------------------------------------------
  // Optional wrapping and the first finding

  /** A required property's hint is its kind's hint unchanged; a property that is
      not required differs only in its hint, which is wrapped. */
  lemma RequiredUnchanged(s: Schema, name: string, parent: string, nested: bool)
    ensures PropertyHint(s, true, name, parent, nested) == KindHint(s, name, parent, nested)
    ensures var k := KindHint(s, name, parent, nested);
            PropertyHint(s, false, name, parent, nested) == (if k.Ok? then Ok(k.value.(hint := OptionalHint(k.value.hint))) else k)
  {
  }

  /** A node of any kind other than the six handled raises the ValueError
      naming its kind, whether or not the property is required. */
  lemma UnknownKindRaises(s: Schema, required: bool, name: string, parent: string, nested: bool)
    requires s.kind !in {"string", "number", "integer", "boolean", "object", "array"}
    ensures PropertyHint(s, required, name, parent, nested) == Err(CannotHandleType(s.kind))
  {
  }

  /** The three ways a hint is wrapped. */
  lemma OptionalHintCases(h: string)
    ensures Contains(h, "Field(default=") ==> OptionalHint(h) == h
    ensures !Contains(h, "Field(default=") && !Contains(h, " =") ==> OptionalHint(h) == "Optional[" + h + "]"
    ensures !Contains(h, "Field(default=") && Contains(h, " =") ==>
              exists lhs: string, rhs: string ::
                && h == lhs + " =" + rhs
                && (forall j :: 0 <= j < |lhs| ==> !OccursAt(h, " =", j))
                && OptionalHint(h) == "Optional[" + lhs + "] = " + rhs
  {
    if !Contains(h, "Field(default=") && Contains(h, " =") {
      var chunks := SplitOnce(h, " =");
      assert h == chunks[0] + " =" + chunks[1];
    }
  }

  /** Wherever build.py's own wrapping succeeds it agrees with the intended one. */
  lemma OptionalAsWrittenAgrees(h: string)
    requires OptionalHintAsWritten(h).Ok?
    ensures OptionalHintAsWritten(h).value == OptionalHint(h)
  {
    if !Contains(h, "Field(default=") && '=' !in h {
      MissingCharNotContained(h, " =", 1);
    }
  }

  /** build.py's wrapping fails exactly on hints that hold an `=` but no " =". */
  lemma OptionalAsWrittenFails(h: string)
    ensures OptionalHintAsWritten(h).Err?
        <==> !Contains(h, "Field(default=") && '=' in h && !Contains(h, " =")
  {
  }

  /** Where build.py's wrapping fails, the intended one gives `Optional[h]`. */
  lemma AsWrittenFailureIntended(h: string)
    requires OptionalHintAsWritten(h).Err?
    ensures OptionalHint(h) == "Optional[" + h + "]"
  {
    OptionalAsWrittenFails(h);
  }

  lemma BoundArgPreceded(key: string, b: Option<int>)
    requires key == ", min_items=" || key == ", max_items="
    ensures AlwaysPreceded(BoundArg(key, b), '=', 's')
  {
    if b.Some? {
      assert AlwaysPreceded(key, '=', 's');
      IntToStringChars(b.value);
      AlwaysPrecededConcat(key, IntToString(b.value), '=', 's');
    }
  }

  /** The `conlist(...)` hint of a bounded array around an item hint without
      `=`: every `=` in it is the one of `min_items=` or `max_items=`, and there
      is at least one. */
  lemma ConlistShape(x: string, s: Schema)
    requires '=' !in x
    requires s.minItems.Some? || s.maxItems.Some?
    ensures var h := "conlist(" + x + BoundArg(", min_items=", s.minItems) + BoundArg(", max_items=", s.maxItems) + ")";
            AlwaysPreceded(h, '=', 's') && '=' in h
  {
    var a := "conlist(" + x;
    var mn := BoundArg(", min_items=", s.minItems);
    var mx := BoundArg(", max_items=", s.maxItems);
    assert AlwaysPreceded(a, '=', 's');
    BoundArgPreceded(", min_items=", s.minItems);
    BoundArgPreceded(", max_items=", s.maxItems);
    AlwaysPrecededConcat(a, mn, '=', 's');
    AlwaysPrecededConcat(a + mn, mx, '=', 's');
    AlwaysPrecededConcat(a + mn + mx, ")", '=', 's');
    var h := a + mn + mx + ")";
    if s.minItems.Some? {
      assert h[|a| + 11] == '=';
    } else {
      assert h[|a| + |mn| + 11] == '=';
    }
  }

  /** Such a hint is where build.py's wrapping raises IndexError, and where
      the intended one gives `Optional[conlist(...)]`. */
  lemma ConlistAsWrittenFails(x: string, s: Schema)
    requires '=' !in x
    requires s.minItems.Some? || s.maxItems.Some?
    ensures var h := "conlist(" + x + BoundArg(", min_items=", s.minItems) + BoundArg(", max_items=", s.maxItems) + ")";
            && OptionalHintAsWritten(h) == Err(IndexOutOfRange)
            && OptionalHint(h) == "Optional[" + h + "]"
  {
    var h := "conlist(" + x + BoundArg(", min_items=", s.minItems) + BoundArg(", max_items=", s.maxItems) + ")";
    ConlistShape(x, s);
    PrecededBlocks(h, '=', 's', " =", 1);
    PrecededBlocks(h, '=', 's', "Field(default=", 13);
    OptionalAsWrittenFails(h);
  }

  /** A bounded array of constrained numbers that is not required: its hint is
      `conlist(<Parent><Name>Item, ...)`, build.py's wrapping of it raises
      IndexError, and the intended result is `Optional[conlist(...)]`. */
  lemma BoundedConstrainedArray(s: Schema, name: string, parent: string, nested: bool)
    requires s.kind == "array" && s.items.Some?
    requires s.items.value.kind == "integer" || s.items.value.kind == "number"
    requires HasFieldKeys(s.items.value)
    requires s.minItems.Some? || s.maxItems.Some?
    requires '=' !in name && '=' !in parent
    ensures var k := KindHint(s, name, parent, nested);
            && k.Ok?
            && k.value.hint == "conlist(" + (CreateName(parent, name) + "Item")
                               + BoundArg(", min_items=", s.minItems) + BoundArg(", max_items=", s.maxItems) + ")"
            && OptionalHintAsWritten(k.value.hint) == Err(IndexOutOfRange)
            && PropertyHint(s, false, name, parent, nested)
               == Ok(k.value.(hint := "Optional[" + k.value.hint + "]"))
  {
    var x := CreateName(parent, name) + "Item";
    CreateNameKeepsOut(parent, name, '=');
    assert '=' !in x;
    NestedNumber(s.items.value, name, parent);
    var item := NumberHint(s.items.value, name, parent, true).value;
    assert item.hint == x && item.typeChecking;
    RequiredUnchanged(s.items.value, name, parent, true);
    ArrayKind(s, name, parent, nested, item);
    var k := ArrayOfItem(s, item);
    assert k.hint == ArrayField(s, item);
    ConlistAsWrittenFails(x, s);
    RequiredUnchanged(s, name, parent, nested);
  }

  // ---------------------------------------------------------------------------
  // The second finding: a fixed tuple of plain items

  /** An item that is a plain number has no TYPE_CHECKING hint at all. */
  lemma PlainItemHasNoCheckingHint(item: Schema, name: string, parent: string)
    requires item.kind == "number" || item.kind == "integer"
    requires !HasFieldKeys(item)
    ensures var r := PropertyHint(item, true, name, parent, true);
            r.Ok? && r.value.typeCheckingHint.None? && !r.value.typeChecking
  {
  }

  /** So build.py's `', '.join([None] * n)` fails on a fixed array of `n >= 1`
      plain numbers, while the intended rendering prints `Tuple[None, ...]`
      there, a hint the emitted class never uses since the item has no
      TYPE_CHECKING split. */
  lemma FixedPlainArrayCounterexample(s: Schema, name: string, parent: string)
    requires s.kind == "array" && s.items.Some? && IsFixed(s) && s.minItems.value >= 1
    requires s.items.value.kind == "integer" && !HasFieldKeys(s.items.value)
    ensures var item := PropertyHint(s.items.value, true, name, parent, true);
            && item.Ok?
            && FixedTupleAsWritten(item.value.typeCheckingHint, s.minItems.value) == Err(JoinOfNone)
            && KindHint(s, name, parent, false).Ok?
            && !KindHint(s, name, parent, false).value.typeChecking
            && KindHint(s, name, parent, false).value.hint
               == FixedTuple(Some("int"), s.minItems.value) + " = Field(..."
                  + BoundArg(", min_items=", s.minItems) + BoundArg(", max_items=", s.maxItems) + ")"
  {
    PlainItemHasNoCheckingHint(s.items.value, name, parent);
  }

  /** The intended tuple rendering agrees with build.py wherever build.py does
      not fail. */
  lemma FixedTupleAgrees(elem: Option<string>, n: int)
    requires FixedTupleAsWritten(elem, n).Ok?
    ensures FixedTupleAsWritten(elem, n).value == FixedTuple(elem, n)
    ensures elem.Some? || n <= 0
  {
  }

  // ---------------------------------------------------------------------------
  // build_class_code

  /** Every property's hint, in order, the class's `required` list consulted
      for each; the reference against which the emitted layout is stated. */
  function PropHints(className: string, s: Schema, i: nat): (r: Result<seq<TypeHint>, Error>)
    requires s.properties.Present? && i <= |s.properties.entries|
    decreases |s.properties.entries| - i
    ensures r.Ok? ==> |r.value| == |s.properties.entries| - i
  {
    var ps := s.properties.entries;
    if i == |ps| then Ok([])
    else if s.required.None? then Err(MissingKey("required"))
    else
      var h :- PropertyHint(ps[i].schema, ps[i].name in s.required.value, ps[i].name, className, false);
      var rest :- PropHints(className, s, i + 1);
      Ok([h] + rest)
  }

  /** The auxiliary lines of all properties: the last property's first. */
  function Hoisted(hs: seq<TypeHint>): seq<string> {
    if hs == [] then [] else Hoisted(hs[1..]) + hs[0].prependLines
  }

  /** The properties' own lines, in declaration order. */
  function Fields(ps: seq<Property>, hs: seq<TypeHint>): seq<string>
    requires |ps| == |hs|
  {
    if hs == [] then [] else FieldLines(ps[0], hs[0]) + Fields(ps[1..], hs[1..])
  }

  /** The hint the loop computes for the `i`-th property. */
  function HintAt(className: string, s: Schema, i: nat): Result<TypeHint, Error>
    requires s.properties.Present? && i < |s.properties.entries| && s.required.Some?
  {
    var p := s.properties.entries[i];
    PropertyHint(p.schema, p.name in s.required.value, p.name, className, false)
  }

  lemma ClassFoldStep(className: string, s: Schema, i: nat, lines: seq<string>)
    requires s.properties.Present? && i < |s.properties.entries| && s.required.Some?
    ensures var h := HintAt(className, s, i);
            (ClassFold(className, s, i, lines)
               == if h.Err? then Err(h.error)
                  else ClassFold(className, s, i + 1, h.value.prependLines + lines + FieldLines(s.properties.entries[i], h.value)))
  {
  }

  lemma PropHintsStep(className: string, s: Schema, i: nat)
    requires s.properties.Present? && i < |s.properties.entries| && s.required.Some?
    ensures var h := HintAt(className, s, i);
            var rest := PropHints(className, s, i + 1);
            (PropHints(className, s, i)
               == if h.Err? then Err(h.error) else if rest.Err? then Err(rest.error) else Ok([h.value] + rest.value))
  {
  }

  lemma HoistedFieldsCons(p: Property, ps: seq<Property>, h: TypeHint, hs: seq<TypeHint>)
    requires |ps| == |hs|
    ensures Hoisted([h] + hs) == Hoisted(hs) + h.prependLines
    ensures Fields([p] + ps, [h] + hs) == FieldLines(p, h) + Fields(ps, hs)
  {
    assert ([h] + hs)[1..] == hs;
    assert ([p] + ps)[1..] == ps;
  }

  lemma Regroup(a: seq<string>, b: seq<string>, c: seq<string>, d: seq<string>, e: seq<string>)
    ensures a + (b + c + d) + e == (a + b) + c + (d + e)
  {
  }

  /** The loop's prepend-and-append leaves every auxiliary line in front of what
      was accumulated and every property's own lines behind it, in order. */
  lemma {:induction false} ClassFoldShape(className: string, s: Schema, i: nat, lines: seq<string>)
    requires s.properties.Present? && i <= |s.properties.entries|
    decreases |s.properties.entries| - i
    ensures ClassFold(className, s, i, lines)
         == match PropHints(className, s, i)
            case Err(e) => Err(e)
            case Ok(hs) => Ok(Hoisted(hs) + lines + Fields(s.properties.entries[i..], hs))
  {
    var ps := s.properties.entries;
    if i < |ps| && s.required.Some? {
      var h := HintAt(className, s, i);
      ClassFoldStep(className, s, i, lines);
      PropHintsStep(className, s, i);
      if h.Ok? {
        var p := ps[i];
        var next := h.value.prependLines + lines + FieldLines(p, h.value);
        ClassFoldShape(className, s, i + 1, next);
        var rest := PropHints(className, s, i + 1);
        if rest.Ok? {
          assert ps[i..] == [p] + ps[i + 1..];
          HoistedFieldsCons(p, ps[i + 1..], h.value, rest.value);
          Regroup(Hoisted(rest.value), h.value.prependLines, lines, FieldLines(p, h.value), Fields(ps[i + 1..], rest.value));
        }
      }
    } else if i == |ps| {
      assert Hoisted([]) + lines + Fields(ps[i..], []) == lines;
    }
  }

  /** The class emitted for a closed object with properties: every property's
      auxiliary classes (the last property's first), then the header, then each
      property's lines in order, then a blank line. */
  lemma ClassCodeShape(className: string, s: Schema)
    requires s.kind == "object" && s.additionalProperties == Some(false) && s.properties.Present?
    ensures ClassCode(className, s)
         == match PropHints(className, s, 0)
            case Err(e) => Err(e)
            case Ok(hs) => Ok(Hoisted(hs) + [Header(className)] + Fields(s.properties.entries, hs) + [""])
  {
    ClassFoldShape(className, s, 0, [Header(className)]);
    assert s.properties.entries[0..] == s.properties.entries;
  }

  /** Only closed object nodes make a class. */
  lemma ClassCodeRejects(className: string, s: Schema)
    ensures s.kind != "object" ==> ClassCode(className, s) == Err(NotAnObject(s.kind))
    ensures s.kind == "object" && s.additionalProperties.None?
            ==> ClassCode(className, s) == Err(MissingKey("additionalProperties"))
    ensures s.kind == "object" && s.additionalProperties == Some(true)
            ==> ClassCode(className, s) == Err(OpenObject)
  {
  }

  /** An object node without a `properties` key gives a header and `pass`. */
  lemma NoPropertiesClass(className: string, s: Schema)
    requires s.kind == "object" && s.additionalProperties == Some(false) && s.properties.Absent?
    ensures ClassCode(className, s) == Ok([Header(className), "\tpass", ""])
  {
  }

  /** An empty `properties` dict gives a header with no body at all: build.py
      only writes `pass` when the key is absent. */
  lemma EmptyPropertiesClass(className: string, s: Schema)
    requires s.kind == "object" && s.additionalProperties == Some(false) && s.properties == Present([])
    ensures ClassCode(className, s) == Ok([Header(className), ""])
  {
    assert ClassFold(className, s, 0, [Header(className)]) == Ok([Header(className)]);
    assert [Header(className)] + [""] == [Header(className), ""];
  }

  /** Whatever class is emitted, its header comes after every auxiliary line and
      the class ends with a blank line. */
  lemma ClassCodeEnds(className: string, s: Schema)
    requires ClassCode(className, s).Ok?
    ensures var lines := ClassCode(className, s).value;
            && |lines| >= 2 && lines[|lines| - 1] == ""
            && (s.properties.Present? ==>
                  && PropHints(className, s, 0).Ok?
                  && var hs := PropHints(className, s, 0).value;
                     && |Hoisted(hs)| < |lines|
                     && lines[|Hoisted(hs)|] == Header(className)
                     && lines[..|Hoisted(hs)|] == Hoisted(hs))
            && (s.properties.Absent? ==> lines[0] == Header(className))
  {
    if s.properties.Present? {
      ClassCodeShape(className, s);
    }
  }

  /** A field gets the `@validator` decorator exactly when its hint asks for it
      (for a field name that does not start with `@` and a description none of
      whose lines does). */
  lemma ValidatorIff(p: Property, h: TypeHint)
    requires p.name == [] || p.name[0] != '@'
    requires p.schema.description.Some? ==>
               p.schema.description.value == [] || p.schema.description.value[0] != '@'
    ensures ValidatorLine(p.name) in FieldLines(p, h) <==> h.validator
  {
    var v := ValidatorLine(p.name);
    assert v[1] == '@';
    var before := DeclLines(p.name, h) + DocLines(p.schema);
    forall k | 0 <= k < |before|
      ensures before[k] != v
    {
      if |before[k]| >= 2 {
        assert before[k][1] != '@';
      }
    }
    assert FieldLines(p, h) == before + ValidatorLines(p.name, h);
    if h.validator {
      assert FieldLines(p, h)[|before|] == v;
    }
  }
}
