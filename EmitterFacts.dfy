/** What the registry, the stubs and the module assembly promise. */
module EmitterFacts {
  import opened Wrappers
  import opened Strings
  import opened Schemas
  import opened Synthesis
  import opened Emitter

  // ---------------------------------------------------------------------------
  // The last `/`-segment of a reference

  /** The last segment is the only suffix without `/` that is either all of
      the reference or comes right after a `/`. */
  lemma LastSegmentUnique(ref: string, r: string)
    requires '/' !in r && |r| <= |ref| && r == ref[|ref| - |r|..]
    requires |r| == |ref| || ref[|ref| - |r| - 1] == '/'
    ensures r == LastSegment(ref)
  {
  }

  lemma LastSegmentExample()
    ensures LastSegment("#/components/messages/AVRPCMColorSet") == "AVRPCMColorSet"
  {
    LastSegmentUnique("#/components/messages/AVRPCMColorSet", "AVRPCMColorSet");
  }

  // ---------------------------------------------------------------------------
  // The registry

  /** The registry is filled exactly when every channel names a class. */
  lemma {:induction false} RegistryOk(chs: seq<Channel>)
    ensures Registry(chs).Ok? <==> forall k :: 0 <= k < |chs| ==> ChannelClass(chs[k]).Ok?
    decreases |chs|
  {
    if chs != [] {
      var init := chs[..|chs| - 1];
      RegistryOk(init);
      assert forall k :: 0 <= k < |init| ==> init[k] == chs[k];
    }
  }

  /** One step of the registry loop: the last channel's topic is set to its class. */
  lemma RegistryStep(chs: seq<Channel>)
    requires chs != [] && Registry(chs).Ok?
    ensures Registry(chs[..|chs| - 1]).Ok? && ChannelClass(chs[|chs| - 1]).Ok?
    ensures Registry(chs).value
         == Registry(chs[..|chs| - 1]).value[chs[|chs| - 1].topic := ChannelClass(chs[|chs| - 1]).value]
  {
  }

  /** A filled registry has one key per topic. */
  lemma {:induction false} RegistryKeys(chs: seq<Channel>)
    requires Registry(chs).Ok?
    ensures forall t :: t in Registry(chs).value <==> exists k :: 0 <= k < |chs| && chs[k].topic == t
    decreases |chs|
  {
    if chs != [] {
      var n := |chs| - 1;
      var init := chs[..n];
      RegistryStep(chs);
      RegistryKeys(init);
      var m := Registry(init).value;
      var m' := Registry(chs).value;
      assert m'.Keys == m.Keys + {chs[n].topic};
      forall t
        ensures t in m' <==> exists k :: 0 <= k < |chs| && chs[k].topic == t
      {
        if t != chs[n].topic {
          if k :| 0 <= k < |chs| && chs[k].topic == t {
            assert k < n && init[k].topic == t;
          }
          if k :| 0 <= k < n && init[k].topic == t {
            assert chs[k].topic == t;
          }
        }
      }
    }
  }

  /** A filled registry maps each topic to the class of the last channel with
      that topic (the only one, dict keys being distinct). */
  lemma {:induction false} RegistryValues(chs: seq<Channel>, k: nat)
    requires Registry(chs).Ok? && k < |chs|
    requires forall j :: k < j < |chs| ==> chs[j].topic != chs[k].topic
    ensures chs[k].topic in Registry(chs).value
    ensures ChannelClass(chs[k]).Ok? && Registry(chs).value[chs[k].topic] == ChannelClass(chs[k]).value
    decreases |chs|
  {
    var n := |chs| - 1;
    var init := chs[..n];
    if k < n {
      assert init[k] == chs[k];
      assert forall j :: k < j < n ==> init[j] == chs[j];
      RegistryValues(init, k);
    }
  }

  /** A registry that fails does so with the error of the first channel that
      names no class. */
  lemma {:induction false} RegistryError(chs: seq<Channel>)
    requires Registry(chs).Err?
    ensures exists k :: 0 <= k < |chs| && ChannelClass(chs[k]).Err?
                        && (forall j :: 0 <= j < k ==> ChannelClass(chs[j]).Ok?)
                        && Registry(chs).error == ChannelClass(chs[k]).error
    decreases |chs|
  {
    var n := |chs| - 1;
    var init := chs[..n];
    assert forall k :: 0 <= k < n ==> init[k] == chs[k];
    if Registry(init).Err? {
      RegistryError(init);
      var k :| 0 <= k < n && ChannelClass(init[k]).Err?
               && (forall j :: 0 <= j < k ==> ChannelClass(init[j]).Ok?)
               && Registry(init).error == ChannelClass(init[k]).error;
      assert ChannelClass(chs[k]).Err?;
    } else {
      RegistryOk(init);
      assert ChannelClass(chs[n]).Err?;
    }
  }

  /** A channel names no class exactly when it has neither operation, or the
      operation looked at has no `message` or no `$ref`. */
  lemma ChannelClassFails(c: Channel)
    ensures ChannelClass(c).Err?
        <==> (c.subscribe.None? && c.publish.None?)
             || (var op := if c.subscribe.Some? then c.subscribe.value else c.publish.value;
                 op.message.None? || op.message.value.ref.None?)
  {
  }

  /** A channel names the class at the end of its `subscribe` reference when it
      has one, whatever its publish side says. */
  lemma SubscribePreferred(c: Channel, ref: string)
    requires c.subscribe == Some(Operation(Some(MessageLink(Some(ref)))))
    ensures ChannelClass(c) == Ok(LastSegment(ref))
  {
  }

  /** Without `subscribe`, the `publish` reference decides. */
  lemma PublishOtherwise(c: Channel, ref: string)
    requires c.subscribe.None? && c.publish == Some(Operation(Some(MessageLink(Some(ref)))))
    ensures ChannelClass(c) == Ok(LastSegment(ref))
  {
  }

  // ---------------------------------------------------------------------------
  // The stubs

  /** A stub's `__call__` takes no payload exactly when the class name contains
      `EmptyMessage`; otherwise it takes a payload of that class. */
  lemma StubSignature(klass: string)
    ensures Stub(klass)[4] == "\tdef __call__(self) -> Any:" <==> Contains(klass, "EmptyMessage")
    ensures !Contains(klass, "EmptyMessage") ==>
              Stub(klass)[4] == "\tdef __call__(self" + ", payload: " + klass + ") -> Any:"
  {
    if !Contains(klass, "EmptyMessage") {
      var long := "\tdef __call__(self" + (", payload: " + klass) + ") -> Any:";
      assert |long| > |"\tdef __call__(self) -> Any:"|;
    }
  }

  lemma {:induction false} BlocksLength(f: string -> seq<string>, xs: seq<string>, w: nat)
    requires forall x :: |f(x)| == w
    ensures |Blocks(f, xs)| == Offset(|xs|, w)
    decreases |xs|
  {
    if xs != [] {
      BlocksLength(f, xs[..|xs| - 1], w);
    }
  }

  /** With blocks of width `w`, line `m` of the `k`-th block sits at `k * w + m`. */
  lemma {:induction false} BlocksAt(f: string -> seq<string>, xs: seq<string>, w: nat, k: nat, m: nat)
    requires forall x :: |f(x)| == w
    requires k < |xs| && m < w
    ensures Offset(k, w) + m < |Blocks(f, xs)| && Blocks(f, xs)[Offset(k, w) + m] == f(xs[k])[m]
    decreases |xs|
  {
    var n := |xs| - 1;
    var init := xs[..n];
    BlocksLength(f, init, w);
    if k < n {
      BlocksAt(f, init, w, k, m);
      assert init[k] == xs[k];
    }
  }

  /** The module ends with seven lines per stub. */
  lemma StubsLength(order: seq<string>)
    ensures |Stubs(order)| == 7 * |order|
  {
    BlocksLength(Stub, order, 7);
    OffsetIsProduct(|order|, 7);
  }

  /** The `m`-th line of the `k`-th stub. */
  lemma StubsAt(order: seq<string>, k: nat, m: nat)
    requires k < |order| && m < 7
    ensures 7 * k + m < |Stubs(order)| && Stubs(order)[7 * k + m] == Stub(order[k])[m]
  {
    BlocksAt(Stub, order, 7, k, m);
    OffsetIsProduct(k, 7);
  }

  /** Every stub is a Protocol class named after its message class. */
  lemma StubHeader(order: seq<string>, k: nat)
    requires k < |order|
    ensures 7 * k < |Stubs(order)| && Stubs(order)[7 * k] == "class _" + order[k] + "Callable(Protocol):"
  {
    StubsAt(order, k, 0);
  }

  // ---------------------------------------------------------------------------
  // The message classes

  /** The module's classes are built exactly when every message has a payload
      whose class can be built. */
  lemma {:induction false} MessageClassesOk(msgs: seq<Message>)
    ensures MessageClasses(msgs).Ok?
        <==> forall k :: 0 <= k < |msgs| ==> msgs[k].payload.Some? && ClassCode(msgs[k].name, msgs[k].payload.value).Ok?
    decreases |msgs|
  {
    if msgs != [] {
      var init := msgs[..|msgs| - 1];
      MessageClassesOk(init);
      assert forall k :: 0 <= k < |init| ==> init[k] == msgs[k];
    }
  }
}
