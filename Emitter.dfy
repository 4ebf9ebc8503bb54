/** The imperative half of build.py: the loop of `build_class_code` and the
    parts of `python_code` that fill the topic registry, emit the Protocol
    stubs and put the module together. */
module Emitter {
  import opened Wrappers
  import opened Strings
  import opened Schemas
  import opened Synthesis
  import opened SynthesisFacts

  // ---------------------------------------------------------------------------
  // build_class_code, as the loop it is

  /** `build_class_code`: the class lines for `s`, built by prepending each
      property's auxiliary lines and appending its own, property by property. */
  method BuildClassCode(className: string, s: Schema) returns (r: Result<seq<string>, Error>)
    ensures r == ClassCode(className, s)
    ensures r.Ok? ==> |r.value| >= 2 && r.value[|r.value| - 1] == ""
  {
    if s.kind != "object" {
      return Err(NotAnObject(s.kind));
    }
    if s.additionalProperties.None? {
      return Err(MissingKey("additionalProperties"));
    }
    if s.additionalProperties.value {
      return Err(OpenObject);
    }
    var lines := [Header(className)];
    if s.properties.Present? {
      var ps := s.properties.entries;
      var i := 0;
      while i < |ps|
        invariant 0 <= i <= |ps|
        invariant |lines| >= 1
        invariant ClassFold(className, s, i, lines) == ClassFold(className, s, 0, [Header(className)])
      {
        if s.required.None? {
          return Err(MissingKey("required"));
        }
        var p := ps[i];
        assert p in ps;
        var h := PropertyHint(p.schema, p.name in s.required.value, p.name, className, false);
        if h.Err? {
          ClassFoldStep(className, s, i, lines);
          return Err(h.error);
        }
        var hint := h.value;
        ghost var before := lines;
        // auxiliary classes go in front of everything so far
        lines := hint.prependLines + lines;
        // then the field, its docstring and its validator at the end
        lines := lines + DeclLines(p.name, hint);
        lines := lines + DocLines(p.schema);
        lines := lines + ValidatorLines(p.name, hint);
        assert lines == hint.prependLines + before + FieldLines(p, hint);
        ClassFoldStep(className, s, i, before);
        i := i + 1;
      }
      assert ClassFold(className, s, i, lines) == Ok(lines);
      assert ClassCode(className, s) == Ok(lines + [""]);
    } else {
      lines := lines + ["\tpass"];
      NoPropertiesClass(className, s);
      assert lines + [""] == [Header(className), "\tpass", ""];
    }
    lines := lines + [""];
    return Ok(lines);
  }

  // ---------------------------------------------------------------------------
  // The topic registry (build.py:314-330)

  /** The `message` entry of a publish or subscribe operation; `ref` is its
      `$ref` string, `None` when the key is absent. */
  datatype MessageLink = MessageLink(ref: Option<string>)

  /** A publish or subscribe operation; `message` is `None` when the key is absent. */
  datatype Operation = Operation(message: Option<MessageLink>)

  /** One entry of the `channels` dict, as the raw (not dereferenced) document has it. */
  datatype Channel = Channel(topic: string, subscribe: Option<Operation>, publish: Option<Operation>)

  /** `ref.split("/")[-1]`: what follows the last `/`, or all of `ref`. */
  function LastSegment(ref: string): (r: string)
    ensures '/' !in r
    ensures |r| <= |ref| && r == ref[|ref| - |r|..]
    ensures '/' in ref ==> |r| < |ref| && ref[|ref| - |r| - 1] == '/'
    ensures '/' !in ref ==> r == ref
    decreases |ref|
  {
    if |ref| == 0 then ""
    else if ref[|ref| - 1] == '/' then ""
    else
      var r := LastSegment(ref[..|ref| - 1]) + [ref[|ref| - 1]];
      assert ref[..|ref| - 1] + [ref[|ref| - 1]] == ref;
      r
  }

  /** The class a channel's payload is, by its operation's message reference:
      `subscribe` is looked at before `publish`. */
  function ChannelClass(c: Channel): (r: Result<string, Error>)
    ensures r.Ok? ==> '/' !in r.value
    ensures c.subscribe.None? && c.publish.None? ==> r == Err(NoPublishOrSubscribe(c.topic))
  {
    var op :- if c.subscribe.Some? then Ok(c.subscribe.value)
              else if c.publish.Some? then Ok(c.publish.value)
              else Err(NoPublishOrSubscribe(c.topic));
    var link :- if op.message.Some? then Ok(op.message.value) else Err(MissingKey("message"));
    var ref :- if link.ref.Some? then Ok(link.ref.value) else Err(MissingKey("$ref"));
    Ok(LastSegment(ref))
  }

  /** The registry after the channels in `chs`, in order; the first channel
      that fails ends the loop with its error. */
  function Registry(chs: seq<Channel>): Result<map<string, string>, Error>
    decreases |chs|
  {
    if chs == [] then Ok(map[])
    else
      var m :- Registry(chs[..|chs| - 1]);
      var klass :- ChannelClass(chs[|chs| - 1]);
      Ok(m[chs[|chs| - 1].topic := klass])
  }

  /** The loop of build.py:317-330 filling `topic_class`. */
  method BuildRegistry(chs: seq<Channel>) returns (r: Result<map<string, string>, Error>)
    ensures r == Registry(chs)
  {
    var topicClass: map<string, string> := map[];
    var i := 0;
    while i < |chs|
      invariant 0 <= i <= |chs|
      invariant Registry(chs[..i]) == Ok(topicClass)
    {
      var c := chs[i];
      var op: Operation;
      if c.subscribe.Some? {
        op := c.subscribe.value;
      } else if c.publish.Some? {
        op := c.publish.value;
      } else {
        assert chs[..i + 1][..i] == chs[..i];
        RegistryFail(chs, i + 1);
        return Err(NoPublishOrSubscribe(c.topic));
      }
      if op.message.None? {
        assert chs[..i + 1][..i] == chs[..i];
        RegistryFail(chs, i + 1);
        return Err(MissingKey("message"));
      }
      if op.message.value.ref.None? {
        assert chs[..i + 1][..i] == chs[..i];
        RegistryFail(chs, i + 1);
        return Err(MissingKey("$ref"));
      }
      topicClass := topicClass[c.topic := LastSegment(op.message.value.ref.value)];
      assert chs[..i + 1][..i] == chs[..i];
      i := i + 1;
    }
    assert chs[..i] == chs;
    return Ok(topicClass);
  }

  /** Once the registry of a prefix fails, that of the whole sequence fails the same way. */
  lemma {:induction false} RegistryFail(chs: seq<Channel>, n: nat)
    requires n <= |chs| && Registry(chs[..n]).Err?
    ensures Registry(chs) == Registry(chs[..n])
    decreases |chs| - n
  {
    if n < |chs| {
      assert chs[..n + 1][..n] == chs[..n];
      RegistryFail(chs, n + 1);
    } else {
      assert chs[..n] == chs;
    }
  }

  // ---------------------------------------------------------------------------
  // The callback Protocol stubs (build.py:367-382)

  /** The parameters after `self` of a stub's `__call__`: none for an empty
      message, the payload otherwise. */
  function StubArgs(klass: string): string {
    if Contains(klass, "EmptyMessage") then "" else ", payload: " + klass
  }

  /** The Protocol class typing callbacks for messages of class `klass`. */
  function Stub(klass: string): (r: seq<string>)
    ensures |r| == 7
  {
    [ "class _" + klass + "Callable(Protocol):",
      "\t\"\"\"",
      "\tClass used only for type-hinting MQTT callbacks.",
      "\t\"\"\"",
      "\tdef __call__(self" + StubArgs(klass) + ") -> Any:",
      "\t\t...",
      "" ]
  }

  /** The lines `f(x)` of the elements `x` of `xs`, one block after another. */
  function Blocks(f: string -> seq<string>, xs: seq<string>): seq<string> {
    if xs == [] then [] else Blocks(f, xs[..|xs| - 1]) + f(xs[|xs| - 1])
  }

  /** The stubs of the classes in `order`, one after another. */
  function Stubs(order: seq<string>): seq<string> {
    Blocks(Stub, order)
  }

  /** A sequence holding every element of `xs` once. */
  predicate Enumerates<T>(order: seq<T>, xs: set<T>) {
    && (forall k :: 0 <= k < |order| ==> order[k] in xs)
    && (forall x :: x in xs ==> x in order)
    && (forall j, k :: 0 <= j < k < |order| ==> order[j] != order[k])
  }

  /** The loop over `set(topic_class.values())`. Python visits a set in an
      order of its own; `order` is the order this run visited the classes in. */
  method EmitStubs(classes: set<string>) returns (lines: seq<string>, order: seq<string>)
    ensures Enumerates(order, classes)
    ensures lines == Stubs(order)
  {
    lines := [];
    order := [];
    var left := classes;
    while left != {}
      invariant left <= classes
      invariant forall k :: 0 <= k < |order| ==> order[k] in classes && order[k] !in left
      invariant forall x :: x in classes ==> x in left || x in order
      invariant forall j, k :: 0 <= j < k < |order| ==> order[j] != order[k]
      invariant lines == Stubs(order)
      decreases left
    {
      var klass :| klass in left;
      assert (order + [klass])[..|order|] == order;
      lines := lines + Stub(klass);
      order := order + [klass];
      left := left - {klass};
    }
  }

  // ---------------------------------------------------------------------------
  // The module text (build.py:333-382)

  /** The header, imports, `_convert_type` and the `BaseModel` of the module. */
  const Preamble: seq<string> :=
    [ "# This file is automatically @generated. DO NOT EDIT!",
      "# fmt: off",
      "",
      "from __future__ import annotations",
      "",
      "from typing import TYPE_CHECKING, Any, List, Literal, Optional, Protocol, Tuple, Type, Union",
      "",
      "from pydantic import BaseModel as PydanticBaseModel",
      "from pydantic import Extra, Field, conlist, validator",
      "",
      "",
      "def _convert_type(iter: Union[list, tuple], convert_to: Union[Type[int], Type[float]]) -> Union[tuple, int, float]:",
      "\tif isinstance(iter, (tuple, list)):",
      "\t\treturn tuple(_convert_type(x, convert_to) for x in iter)",
      "\telse:",
      "\t\treturn convert_to(iter)",
      "",
      "",
      "class BaseModel(PydanticBaseModel):",
      "\tclass Config:",
      "\t\textra = Extra.forbid",
      "",
      "" ]

  /** One entry of `components.messages` in the dereferenced document;
      `payload` is `None` when the key is absent. */
  datatype Message = Message(name: string, payload: Option<Schema>)

  /** The parts of the AsyncAPI document the generator reads. */
  datatype Document = Document(channels: seq<Channel>, messages: seq<Message>)

  /** The classes of the messages in `msgs`, in order. */
  function MessageClasses(msgs: seq<Message>): Result<seq<string>, Error>
    decreases |msgs|
  {
    if msgs == [] then Ok([])
    else
      var before :- MessageClasses(msgs[..|msgs| - 1]);
      var m := msgs[|msgs| - 1];
      var payload :- if m.payload.Some? then Ok(m.payload.value) else Err(MissingKey("payload"));
      var lines :- ClassCode(m.name, payload);
      Ok(before + lines)
  }

  /** Every registered class appears once. */
  function Values(m: map<string, string>): set<string> {
    set t | t in m :: m[t]
  }

  /** The lines `python_code` writes (before tabs become spaces): the registry is
      built first, then the class of every message, then a stub per distinct class. */
  method GenerateModule(doc: Document) returns (r: Result<seq<string>, Error>, order: seq<string>)
    ensures Registry(doc.channels).Err? ==> r == Err(Registry(doc.channels).error)
    ensures Registry(doc.channels).Ok? && MessageClasses(doc.messages).Err?
            ==> r == Err(MessageClasses(doc.messages).error)
    ensures Registry(doc.channels).Ok? && MessageClasses(doc.messages).Ok?
            ==> && Enumerates(order, Values(Registry(doc.channels).value))
                && r == Ok(Preamble + MessageClasses(doc.messages).value + Stubs(order))
  {
    order := [];
    var registry := BuildRegistry(doc.channels);
    if registry.Err? {
      return Err(registry.error), order;
    }
    var lines := Preamble;
    var classes := BuildMessageClasses(doc.messages);
    if classes.Err? {
      return Err(classes.error), order;
    }
    lines := lines + classes.value;
    var stubs;
    stubs, order := EmitStubs(Values(registry.value));
    lines := lines + stubs;
    return Ok(lines), order;
  }

  /** The loop of build.py:360-364: the class of each message, in order. */
  method BuildMessageClasses(msgs: seq<Message>) returns (r: Result<seq<string>, Error>)
    ensures r == MessageClasses(msgs)
  {
    var lines := [];
    var i := 0;
    while i < |msgs|
      invariant 0 <= i <= |msgs|
      invariant MessageClasses(msgs[..i]) == Ok(lines)
    {
      var m := msgs[i];
      assert msgs[..i + 1][..i] == msgs[..i];
      if m.payload.None? {
        MessageClassesFail(msgs, i + 1);
        return Err(MissingKey("payload"));
      }
      var klass := BuildClassCode(m.name, m.payload.value);
      if klass.Err? {
        MessageClassesFail(msgs, i + 1);
        return Err(klass.error);
      }
      lines := lines + klass.value;
      i := i + 1;
    }
    assert msgs[..i] == msgs;
    return Ok(lines);
  }

  /** Once the classes of a prefix fail, those of the whole sequence fail the same way. */
  lemma {:induction false} MessageClassesFail(msgs: seq<Message>, n: nat)
    requires n <= |msgs| && MessageClasses(msgs[..n]).Err?
    ensures MessageClasses(msgs) == MessageClasses(msgs[..n])
    decreases |msgs| - n
  {
    if n < |msgs| {
      assert msgs[..n + 1][..n] == msgs[..n];
      MessageClassesFail(msgs, n + 1);
    } else {
      assert msgs[..n] == msgs;
    }
  }
}
