/**
 * The segment tree. A `Segment` binds a waveform function to declared
 * properties (always including `duration`); a `SegmentGroup` holds an ordered
 * sequence of child nodes and a transformation applied to the context before
 * its children are forged. Forging resolves the properties against a context
 * and materialises samples, or, in metadata mode, a descriptor of the tree.
 */
module Segments {
  import opened Values
  import opened Transformations

  /** Resolved keyword arguments, by property name. */
  type Args = map<string, Value>

  /**
   * A waveform function, outside this model: its `__name__`, and the function,
   * which takes the time axis and the resolved non-duration properties and
   * returns samples or raises.
   */
  datatype Atom = Atom(name: string, fn: (seq<real>, Args) -> Result<seq<real>>)

  /**
   * A node of the tree. `localContext` is the attribute `in_context` sets on a
   * copy; nothing reads it for a segment or a group.
   */
  datatype Node =
    | Segment(atom: Atom, properties: map<string, Property>, localContext: Option<Context>)
    | SegmentGroup(children: seq<Node>, properties: map<string, Property>,
                   transformation: Transformation, localContext: Option<Context>)

  /** `Segment(function, duration, **function_arguments)`: `duration` is always stored as a property. */
  function NewSegment(atom: Atom, duration: Property, arguments: map<string, Property>): (n: Node)
    ensures n.Segment? && n.atom == atom && n.localContext == None
    ensures n.properties.Keys == arguments.Keys + {"duration"}
    ensures n.properties["duration"] == duration
    ensures forall k :: k in arguments && k != "duration" ==> n.properties[k] == arguments[k]
  {
    Segment(atom, arguments["duration" := duration], None)
  }

  /** `SegmentGroup(*segments, duration, transformation)`: the group's only property is `duration`. */
  function NewGroup(children: seq<Node>, duration: Property, transformation: Transformation): (n: Node)
    ensures n.SegmentGroup? && n.children == children && n.transformation == transformation
    ensures n.properties.Keys == {"duration"} && n.properties["duration"] == duration
    ensures n.localContext == None
  {
    SegmentGroup(children, map["duration" := duration], transformation, None)
  }

  /** `_BaseSegment.get`: look the name up among the declared properties, then resolve it. */
  function Get(properties: map<string, Property>, name: string, ctx: Context): (r: Result<Value>)
    ensures name !in properties ==> r == Err(UnknownProperty(name))
    ensures name in properties ==> r == Resolve(properties[name], ctx)
  {
    if name in properties then Resolve(properties[name], ctx) else Err(UnknownProperty(name))
  }

  /** A property declared as a symbol resolves to the context's binding, and fails exactly when it is unbound. */
  lemma GetSymbolProperty(properties: map<string, Property>, name: string, ctx: Context)
    requires name in properties && properties[name].Sym?
    ensures Get(properties, name, ctx).Ok? <==> properties[name].name in ctx
    ensures properties[name].name in ctx ==> Get(properties, name, ctx) == Ok(Num(ctx[properties[name].name]))
    ensures properties[name].name !in ctx ==>
      Get(properties, name, ctx) == Err(MissingSymbols({properties[name].name}))
  {
  }

  /** A number or `None` property comes back unchanged whatever the context. */
  lemma GetLiteralProperty(properties: map<string, Property>, name: string, c1: Context, c2: Context)
    requires name in properties && !properties[name].Sym?
    ensures Get(properties, name, c1) == Get(properties, name, c2)
    ensures Get(properties, name, c1) ==
      Ok(if properties[name].Lit? then Num(properties[name].x) else NoneV)
  {
  }

  /**
   * `get` on a node. For a segment it is `_BaseSegment.get`. `SegmentGroup.get`
   * as written never returns: after transforming the context it calls the
   * transformation once more, which is `None` (not callable) or returns `None`,
   * and `**None` is not a mapping.
   */
  function NodeGet(n: Node, name: string, ctx: Context): (r: Result<Value>)
    ensures n.Segment? ==> r == Get(n.properties, name, ctx)
    ensures n.SegmentGroup? ==> r.Err?
  {
    match n
    case Segment(_, properties, _) => Get(properties, name, ctx)
    case SegmentGroup(_, _, t, _) =>
      match TransformedContext(ctx, t)
      case Err(e) => Err(e)
      case Ok(newContext) =>
        if t.NoTransformation? then Err(NotCallable)
        else
          match TransformedContext(newContext, t)
          case Err(e) => Err(e)
          case Ok(_) => Err(NotAMapping)
  }

  /**
   * Which error `SegmentGroup.get` raises: the transformation's own error if the
   * first application fails, and otherwise a TypeError, since the second
   * application always succeeds.
   */
  lemma GroupGetError(g: Node, name: string, ctx: Context)
    requires g.SegmentGroup?
    ensures TransformedContext(ctx, g.transformation).Err? ==>
      NodeGet(g, name, ctx) == Err(TransformedContext(ctx, g.transformation).error)
    ensures TransformedContext(ctx, g.transformation).Ok? ==>
      NodeGet(g, name, ctx) == Err(if g.transformation.NoTransformation? then NotCallable else NotAMapping)
  {
    var t := g.transformation;
    if TransformedContext(ctx, t).Ok? {
      match t
      case NoTransformation =>
      case Linear(entries) => ReapplySucceeds(ctx, entries);
      case Bilinear(items) =>
        BilinearOnlyWithoutTerms(ctx, items);
        BilinearOnlyWithoutTerms(TransformedContext(ctx, t).value, items);
    }
  }

  /**
   * A transformation that only introduces symbols the context does not bind
   * leaves every property that already resolved resolving to the same value:
   * a group's children see the caller's bindings unchanged.
   */
  lemma FreshTransformationKeepsResolution(properties: map<string, Property>, ctx: Context, t: Transformation)
    requires TransformedContext(ctx, t).Ok?
    requires AssignedBy(t) !! ctx.Keys
    ensures forall k :: k in properties && Get(properties, k, ctx).Ok? ==>
      Get(properties, k, TransformedContext(ctx, t).value) == Get(properties, k, ctx)
  {
    var newContext := TransformedContext(ctx, t).value;
    TransformedContextFrame(ctx, t);
    forall k | k in properties && Get(properties, k, ctx).Ok?
      ensures Get(properties, k, newContext) == Get(properties, k, ctx)
    {
      ResolveStableUnderExtension(properties[k], ctx, newContext);
    }
  }

  /** The symbols that properties declare and the context does not bind. */
  function MissingSymbolsOf(properties: map<string, Property>, ctx: Context): set<string>
  {
    set k | k in properties && properties[k].Sym? && properties[k].name !in ctx :: properties[k].name
  }

  /**
   * `get_all_properties`: every declared property resolved, under the same keys.
   * The model reports all unbound symbols at once, where Python's dict
   * comprehension stops at the first one in declaration order.
   */
  function GetAllProperties(properties: map<string, Property>, ctx: Context): (r: Result<Args>)
    ensures r.Ok? <==> forall k :: k in properties ==> Get(properties, k, ctx).Ok?
    ensures r.Ok? ==> r.value.Keys == properties.Keys
    ensures r.Ok? ==> forall k :: k in properties ==> Get(properties, k, ctx) == Ok(r.value[k])
    ensures r.Err? ==> r.error.MissingSymbols? && r.error.names != {}
    ensures r.Err? ==> forall s :: s in r.error.names <==>
      s !in ctx && exists k :: k in properties && properties[k] == Sym(s)
  {
    if forall k :: k in properties ==> Resolve(properties[k], ctx).Ok? then
      Ok(map k | k in properties :: Resolve(properties[k], ctx).value)
    else
      MissingSymbolsWitnessed(properties, ctx);
      Err(MissingSymbols(MissingSymbolsOf(properties, ctx)))
  }

  /** Some property fails to resolve exactly when some declared symbol is unbound. */
  lemma MissingSymbolsWitnessed(properties: map<string, Property>, ctx: Context)
    requires exists k :: k in properties && Resolve(properties[k], ctx).Err?
    ensures MissingSymbolsOf(properties, ctx) != {}
  {
    var k :| k in properties && Resolve(properties[k], ctx).Err?;
    assert properties[k].name in MissingSymbolsOf(properties, ctx);
  }

  /** `int(round(x))` on exact values: the nearest integer, ties to the even one. */
  function RoundHalfEven(x: real): (n: int)
    ensures -0.5 <= x - n as real <= 0.5
    ensures (x - n as real == 0.5 || x - n as real == -0.5) ==> n % 2 == 0
  {
    var f := x.Floor;
    var d := x - f as real;
    if d < 0.5 then f
    else if d > 0.5 then f + 1
    else if f % 2 == 0 then f
    else f + 1
  }

  /** The rounded count is 0 exactly when the product lies within half a sample of 0. */
  lemma RoundsToZeroIff(x: real)
    ensures RoundHalfEven(x) == 0 <==> -0.5 <= x <= 0.5
  {
  }

  /** `int(round(duration * SR))`, the number of samples a segment of this duration gets. */
  function Samples(duration: real, sr: real): (n: int)
    ensures -0.5 <= duration * sr - n as real <= 0.5
    ensures n == 0 <==> -0.5 <= duration * sr <= 0.5
  {
    RoundsToZeroIff(duration * sr);
    RoundHalfEven(duration * sr)
  }

  /**
   * `np.linspace(0, duration, n, endpoint=False)`: n evenly spaced points from
   * 0, right-open at `duration`.
   */
  function TimeAxis(duration: real, n: nat): (t: seq<real>)
    ensures |t| == n
    ensures n > 0 ==> t[0] == 0.0
    ensures duration > 0.0 ==> forall i :: 0 <= i < n ==> 0.0 <= t[i] < duration
    ensures duration > 0.0 ==> forall i :: 0 <= i < n - 1 ==> t[i] < t[i + 1]
  {
    if n == 0 then []
    else
      var step := duration / n as real;
      var t := seq(n, i requires 0 <= i < n => i as real * step);
      assert duration > 0.0 ==> step > 0.0 && step * n as real == duration;
      assert duration > 0.0 ==> forall i :: 0 <= i < n ==> t[i] < duration by {
        if duration > 0.0 {
          forall i | 0 <= i < n ensures t[i] < duration {
            assert t[i] == i as real * step;
            assert (n - i) as real * step == n as real * step - i as real * step;
            assert (n - i) as real * step > 0.0;
          }
        }
      }
      t
  }

  /**
   * `Segment.forge` without metadata: resolve every property, round
   * `duration * SR` to a sample count, return nothing for a count of 0, and
   * otherwise call the waveform function on the time axis and the remaining
   * properties.
   */
  function SegmentForged(atom: Atom, properties: map<string, Property>, sr: real, ctx: Context): Result<seq<real>>
  {
    match GetAllProperties(properties, ctx)
    case Err(e) => Err(e)
    case Ok(kwargs) =>
      match Get(properties, "duration", ctx)
      case Err(e) => Err(e)
      case Ok(NoneV) => Err(NoneArithmetic)
      case Ok(Num(duration)) =>
        var intDur := Samples(duration, sr);
        if intDur == 0 then Ok([])
        else if intDur < 0 then Err(NegativeSampleCount(intDur))
        else atom.fn(TimeAxis(duration, intDur), kwargs - {"duration"})
  }

  /** Specification of forging a node into samples. */
  function Forged(n: Node, sr: real, ctx: Context): Result<seq<real>>
    decreases n, 1
  {
    match n
    case Segment(atom, properties, _) => SegmentForged(atom, properties, sr, ctx)
    case SegmentGroup(children, _, t, _) =>
      match TransformedContext(ctx, t)
      case Err(e) => Err(e)
      case Ok(newContext) => ForgedChildren(children, sr, newContext)
  }

  /** The children forged in order, each output appended to the previous ones. */
  function ForgedChildren(children: seq<Node>, sr: real, ctx: Context): Result<seq<real>>
    decreases children, 0
  {
    if children == [] then Ok([])
    else
      match Forged(children[0], sr, ctx)
      case Err(e) => Err(e)
      case Ok(first) =>
        match ForgedChildren(children[1..], sr, ctx)
        case Err(e) => Err(e)
        case Ok(rest) => Ok(first + rest)
  }

  /** A result with `prefix` put in front of its samples. */
  function Prefixed(prefix: seq<real>, r: Result<seq<real>>): Result<seq<real>>
  {
    match r
    case Err(e) => Err(e)
    case Ok(s) => Ok(prefix + s)
  }

  /**
   * `forge` with `meta_data_only=False`: a segment forges itself; a group
   * transforms the context once and appends its children's samples in order.
   */
  method Forge(n: Node, sr: real, context: Context) returns (r: Result<seq<real>>)
    ensures r == Forged(n, sr, context)
    decreases n
  {
    match n
    case Segment(atom, properties, _) =>
      r := SegmentForged(atom, properties, sr, context);
    case SegmentGroup(children, _, t, _) =>
      var newContext := GetTransformedContext(context, t);
      if newContext.Err? {
        return Err(newContext.error);
      }
      var returnArray: seq<real> := [];
      var i := 0;
      assert children[0..] == children;
      assert ForgedChildren(children, sr, newContext.value) ==
             Prefixed([], ForgedChildren(children, sr, newContext.value)) by {
        match ForgedChildren(children, sr, newContext.value) {
          case Err(_) =>
          case Ok(s) => assert [] + s == s;
        }
      }
      while i < |children|
        invariant 0 <= i <= |children|
        invariant ForgedChildren(children, sr, newContext.value) ==
                  Prefixed(returnArray, ForgedChildren(children[i..], sr, newContext.value))
        decreases |children| - i
      {
        assert children[i..][0] == children[i] && children[i..][1..] == children[i + 1..];
        var s := Forge(children[i], sr, newContext.value);
        if s.Err? {
          return Err(s.error);
        }
        match ForgedChildren(children[i + 1..], sr, newContext.value) {
          case Err(_) =>
          case Ok(rest) => assert returnArray + (s.value + rest) == (returnArray + s.value) + rest;
        }
        returnArray := returnArray + s.value;
        i := i + 1;
      }
      assert children[i..] == [];
      assert returnArray + [] == returnArray;
      r := Ok(returnArray);
  }

  /** What `forge(meta_data_only=True)` returns: `{'atom': name, 'args': kwargs}`, or a tuple of those. */
  datatype Meta = AtomMeta(atom: string, args: Args) | GroupMeta(children: seq<Meta>)

  /** Specification of forging in metadata mode: properties are resolved, no samples are made. */
  function ForgedMeta(n: Node, sr: real, ctx: Context): Result<Meta>
    decreases n, 1
  {
    match n
    case Segment(atom, properties, _) =>
      (match GetAllProperties(properties, ctx)
       case Err(e) => Err(e)
       case Ok(kwargs) => Ok(AtomMeta(atom.name, kwargs)))
    case SegmentGroup(children, _, t, _) =>
      match TransformedContext(ctx, t)
      case Err(e) => Err(e)
      case Ok(newContext) =>
        match ForgedMetaChildren(children, sr, newContext)
        case Err(e) => Err(e)
        case Ok(ms) => Ok(GroupMeta(ms))
  }

  /** The children's descriptors, in order, all under the same context. */
  function ForgedMetaChildren(children: seq<Node>, sr: real, ctx: Context): (r: Result<seq<Meta>>)
    ensures r.Ok? ==> |r.value| == |children|
    decreases children, 0
  {
    if children == [] then Ok([])
    else
      match ForgedMeta(children[0], sr, ctx)
      case Err(e) => Err(e)
      case Ok(first) =>
        match ForgedMetaChildren(children[1..], sr, ctx)
        case Err(e) => Err(e)
        case Ok(rest) => Ok([first] + rest)
  }

  /**
   * Metadata of a segment: the function's name and every resolved property,
   * `duration` included; it does not depend on the sample rate or on what the
   * waveform function computes.
   */
  lemma SegmentMetadata(name: string, f: (seq<real>, Args) -> Result<seq<real>>,
                        g: (seq<real>, Args) -> Result<seq<real>>,
                        properties: map<string, Property>, sr1: real, sr2: real, ctx: Context,
                        local: Option<Context>)
    ensures ForgedMeta(Segment(Atom(name, f), properties, local), sr1, ctx) ==
            ForgedMeta(Segment(Atom(name, g), properties, local), sr2, ctx)
    ensures ForgedMeta(Segment(Atom(name, f), properties, local), sr1, ctx).Ok? <==>
            GetAllProperties(properties, ctx).Ok?
    ensures ForgedMeta(Segment(Atom(name, f), properties, local), sr1, ctx).Ok? ==>
            var m := ForgedMeta(Segment(Atom(name, f), properties, local), sr1, ctx).value;
            m.AtomMeta? && m.atom == name && m.args.Keys == properties.Keys
            && forall k :: k in properties ==> Get(properties, k, ctx) == Ok(m.args[k])
  {
  }

  /**
   * Metadata of a group: one descriptor per child, in order, each the child's
   * own metadata under the transformed context.
   */
  lemma {:induction false} GroupMetadata(g: Node, sr: real, ctx: Context)
    requires g.SegmentGroup?
    requires TransformedContext(ctx, g.transformation).Ok?
    ensures ForgedMeta(g, sr, ctx).Ok? <==>
      forall i :: 0 <= i < |g.children| ==>
        ForgedMeta(g.children[i], sr, TransformedContext(ctx, g.transformation).value).Ok?
    ensures ForgedMeta(g, sr, ctx).Ok? ==>
      ForgedMeta(g, sr, ctx).value.GroupMeta?
      && |ForgedMeta(g, sr, ctx).value.children| == |g.children|
      && forall i :: 0 <= i < |g.children| ==>
           Ok(ForgedMeta(g, sr, ctx).value.children[i]) ==
           ForgedMeta(g.children[i], sr, TransformedContext(ctx, g.transformation).value)
  {
    MetaChildrenInOrder(g.children, sr, TransformedContext(ctx, g.transformation).value);
  }

  lemma {:induction false} MetaChildrenInOrder(children: seq<Node>, sr: real, ctx: Context)
    ensures ForgedMetaChildren(children, sr, ctx).Ok? <==>
      forall i :: 0 <= i < |children| ==> ForgedMeta(children[i], sr, ctx).Ok?
    ensures ForgedMetaChildren(children, sr, ctx).Ok? ==>
      forall i :: 0 <= i < |children| ==>
        Ok(ForgedMetaChildren(children, sr, ctx).value[i]) == ForgedMeta(children[i], sr, ctx)
    decreases children
  {
    if children != [] {
      MetaChildrenInOrder(children[1..], sr, ctx);
      assert forall i :: 1 <= i < |children| ==> children[1..][i - 1] == children[i];
    }
  }

  /** The resolved duration of a segment's properties, when it is a number. */
  ghost predicate HasDuration(properties: map<string, Property>, ctx: Context, d: real)
  {
    GetAllProperties(properties, ctx).Ok? && Get(properties, "duration", ctx) == Ok(Num(d))
  }

  /**
   * A segment whose sample count `int(round(duration * SR))` is 0 forges to the
   * empty sequence whatever its waveform function is, so that function is not
   * called; this happens exactly when `duration * SR` lies in [-1/2, 1/2].
   */
  lemma ZeroSamplesForgeEmpty(atom: Atom, properties: map<string, Property>, sr: real, ctx: Context,
                              d: real, local: Option<Context>)
    requires HasDuration(properties, ctx, d)
    requires -0.5 <= d * sr <= 0.5
    ensures Samples(d, sr) == 0
    ensures Forged(Segment(atom, properties, local), sr, ctx) == Ok([])
  {
  }

  /**
   * Otherwise the waveform function receives a time axis of exactly
   * `int(round(duration * SR))` points, starting at 0 and, for a positive
   * duration, increasing and all below it, together with every resolved
   * property except `duration`; its result is the segment's.
   */
  lemma WaveformCall(atom: Atom, properties: map<string, Property>, sr: real, ctx: Context,
                     d: real, local: Option<Context>)
    requires HasDuration(properties, ctx, d)
    requires Samples(d, sr) > 0
    ensures var n := Samples(d, sr);
            var t := TimeAxis(d, n);
            var kwargs := GetAllProperties(properties, ctx).value;
            && |t| == n && t[0] == 0.0
            && (d > 0.0 ==> forall i :: 0 <= i < n ==> 0.0 <= t[i] < d)
            && (kwargs - {"duration"}).Keys == properties.Keys - {"duration"}
            && (forall k :: k in properties && k != "duration" ==>
                  Get(properties, k, ctx) == Ok((kwargs - {"duration"})[k]))
            && Forged(Segment(atom, properties, local), sr, ctx) == atom.fn(t, kwargs - {"duration"})
  {
  }

  /** A negative sample count (a negative product) is the ValueError `np.linspace` raises. */
  lemma NegativeSamplesFail(atom: Atom, properties: map<string, Property>, sr: real, ctx: Context,
                            d: real, local: Option<Context>)
    requires HasDuration(properties, ctx, d)
    requires d * sr < -0.5
    ensures Samples(d, sr) < 0
    ensures Forged(Segment(atom, properties, local), sr, ctx) ==
            Err(NegativeSampleCount(Samples(d, sr)))
  {
  }

  /** Concatenation of a sequence of sample sequences, in order. */
  function Flatten(parts: seq<seq<real>>): seq<real>
  {
    if parts == [] then [] else parts[0] + Flatten(parts[1..])
  }

  /** Sum of the lengths of a sequence of sample sequences. */
  function TotalLength(parts: seq<seq<real>>): nat
  {
    if parts == [] then 0 else |parts[0]| + TotalLength(parts[1..])
  }

  lemma {:induction false} FlattenLength(parts: seq<seq<real>>)
    ensures |Flatten(parts)| == TotalLength(parts)
  {
    if parts != [] {
      FlattenLength(parts[1..]);
    }
  }

  /** The children's outputs under a context, once all of them are known to succeed. */
  function ChildOutputs(children: seq<Node>, sr: real, ctx: Context): (parts: seq<seq<real>>)
    requires forall i :: 0 <= i < |children| ==> Forged(children[i], sr, ctx).Ok?
    ensures |parts| == |children|
    ensures forall i :: 0 <= i < |children| ==> parts[i] == Forged(children[i], sr, ctx).value
  {
    seq(|children|, i requires 0 <= i < |children| => Forged(children[i], sr, ctx).value)
  }

  lemma {:induction false} ChildrenConcatenate(children: seq<Node>, sr: real, ctx: Context)
    ensures ForgedChildren(children, sr, ctx).Ok? <==>
      forall i :: 0 <= i < |children| ==> Forged(children[i], sr, ctx).Ok?
    ensures ForgedChildren(children, sr, ctx).Ok? ==>
      ForgedChildren(children, sr, ctx).value == Flatten(ChildOutputs(children, sr, ctx))
    decreases children
  {
    if children != [] {
      ChildrenConcatenate(children[1..], sr, ctx);
      assert forall i :: 1 <= i < |children| ==> children[1..][i - 1] == children[i];
      if ForgedChildren(children, sr, ctx).Ok? {
        assert ChildOutputs(children, sr, ctx)[1..] == ChildOutputs(children[1..], sr, ctx);
      }
    }
  }

  /**
   * A group's samples are its children's samples, concatenated in declaration
   * order, every child forged under the same transformed context; the group
   * succeeds exactly when the transformation and every child do. Its length is
   * the sum of the children's lengths.
   */
  lemma GroupConcatenation(g: Node, sr: real, ctx: Context)
    requires g.SegmentGroup?
    ensures TransformedContext(ctx, g.transformation).Err? ==>
      Forged(g, sr, ctx) == Err(TransformedContext(ctx, g.transformation).error)
    ensures TransformedContext(ctx, g.transformation).Ok? ==>
      var c := TransformedContext(ctx, g.transformation).value;
      && (Forged(g, sr, ctx).Ok? <==> forall i :: 0 <= i < |g.children| ==> Forged(g.children[i], sr, c).Ok?)
      && (Forged(g, sr, ctx).Ok? ==>
            Forged(g, sr, ctx).value == Flatten(ChildOutputs(g.children, sr, c))
            && |Forged(g, sr, ctx).value| == TotalLength(ChildOutputs(g.children, sr, c)))
  {
    if TransformedContext(ctx, g.transformation).Ok? {
      var c := TransformedContext(ctx, g.transformation).value;
      ChildrenConcatenate(g.children, sr, c);
      if Forged(g, sr, ctx).Ok? {
        FlattenLength(ChildOutputs(g.children, sr, c));
      }
    }
  }

  /** A group's own declared properties, `duration` included, play no part in forging it. */
  lemma GroupIgnoresOwnProperties(children: seq<Node>, p1: map<string, Property>, p2: map<string, Property>,
                                  t: Transformation, l1: Option<Context>, l2: Option<Context>,
                                  sr: real, ctx: Context)
    ensures Forged(SegmentGroup(children, p1, t, l1), sr, ctx) == Forged(SegmentGroup(children, p2, t, l2), sr, ctx)
    ensures ForgedMeta(SegmentGroup(children, p1, t, l1), sr, ctx) ==
            ForgedMeta(SegmentGroup(children, p2, t, l2), sr, ctx)
  {
  }

  /** Every waveform function in the tree returns as many samples as time points it is given. */
  ghost predicate PreservesLength(n: Node)
    decreases n
  {
    match n
    case Segment(atom, _, _) =>
      forall t: seq<real>, a: Args :: atom.fn(t, a).Ok? ==> |atom.fn(t, a).value| == |t|
    case SegmentGroup(children, _, _, _) =>
      forall i :: 0 <= i < |children| ==> PreservesLength(children[i])
  }

  /**
   * The expected sample count of a tree: `int(round(d * SR))` for each segment
   * of resolved duration `d`, summed over the children of each group under its
   * transformed context (a sum of rounded counts, not the rounded sum).
   */
  function SampleCount(n: Node, sr: real, ctx: Context): int
    decreases n, 1
  {
    match n
    case Segment(_, properties, _) =>
      (match Get(properties, "duration", ctx)
       case Ok(Num(d)) => Samples(d, sr)
       case _ => 0)
    case SegmentGroup(children, _, t, _) =>
      match TransformedContext(ctx, t)
      case Err(_) => 0
      case Ok(c) => ChildrenSampleCount(children, sr, c)
  }

  function ChildrenSampleCount(children: seq<Node>, sr: real, ctx: Context): int
    decreases children, 0
  {
    if children == [] then 0 else SampleCount(children[0], sr, ctx) + ChildrenSampleCount(children[1..], sr, ctx)
  }

  /**
   * With length-preserving waveform functions, a successfully forged tree has
   * exactly its expected sample count.
   */
  lemma {:induction false} ForgedLength(n: Node, sr: real, ctx: Context)
    requires PreservesLength(n)
    requires Forged(n, sr, ctx).Ok?
    ensures |Forged(n, sr, ctx).value| == SampleCount(n, sr, ctx)
    decreases n, 1
  {
    match n
    case Segment(atom, properties, _) =>
    case SegmentGroup(children, _, t, _) =>
      ChildrenLength(children, sr, TransformedContext(ctx, t).value);
  }

  lemma {:induction false} ChildrenLength(children: seq<Node>, sr: real, ctx: Context)
    requires forall i :: 0 <= i < |children| ==> PreservesLength(children[i])
    requires ForgedChildren(children, sr, ctx).Ok?
    ensures |ForgedChildren(children, sr, ctx).value| == ChildrenSampleCount(children, sr, ctx)
    decreases children, 0
  {
    if children != [] {
      ForgedLength(children[0], sr, ctx);
      assert forall i :: 1 <= i < |children| ==> children[1..][i - 1] == children[i];
      ChildrenLength(children[1..], sr, ctx);
    }
  }

  /**
   * The sum of rounded counts differs from the rounded sum: two segments of
   * duration 0.5 at one sample per unit each round to 0 (ties go to the even
   * neighbour), while their total duration 1.0 would give 1 sample.
   */
  lemma SumOfRoundedCountsExample()
    ensures Samples(0.5, 1.0) + Samples(0.5, 1.0) == 0
    ensures Samples(0.5 + 0.5, 1.0) == 1
  {
    assert (0.5 * 1.0).Floor == 0;
    assert ((0.5 + 0.5) * 1.0).Floor == 1;
  }

  /** A flat waveform: one 0 per time point. */
  function Zeros(): Atom
  {
    Atom("flat", (t: seq<real>, a: Args) => Ok(seq(|t|, _ => 0.0)))
  }

  /**
   * A group of two segments of duration 0.5 at one sample per unit forges to
   * nothing: each segment rounds to 0 samples (ties go to the even neighbour),
   * although the group's total duration 1.0 would round to 1.
   */
  lemma HalfSampleGroupForgesEmpty()
    ensures var half := NewSegment(Zeros(), Lit(0.5), map[]);
            var g := NewGroup([half, half], Lit(1.0), NoTransformation);
            && SampleCount(g, 1.0, map[]) == 0
            && Forged(g, 1.0, map[]) == Ok([])
            && Samples(1.0, 1.0) == 1
  {
    var half := NewSegment(Zeros(), Lit(0.5), map[]);
    var g := NewGroup([half, half], Lit(1.0), NoTransformation);
    SumOfRoundedCountsExample();
    assert Get(half.properties, "duration", map[]) == Ok(Num(0.5));
    assert GetAllProperties(half.properties, map[]).Ok?;
    assert Forged(half, 1.0, map[]) == Ok([]);
    assert PreservesLength(g) by {
      assert PreservesLength(half);
      assert forall i :: 0 <= i < |g.children| ==> g.children[i] == half;
    }
    ChildrenConcatenate(g.children, 1.0, map[]);
    assert ([half, half])[1..] == [half] && [half][1..] == [];
    assert SampleCount(half, 1.0, map[]) == 0;
    assert ChildrenSampleCount([half], 1.0, map[]) == 0;
    ForgedLength(g, 1.0, map[]);
  }

  /**
   * `in_context` on a segment or group: a copy with `local_context` set. The
   * copy forges and resolves exactly like the original, since nothing reads the
   * attribute at this level; the original is a value and stays as it was.
   */
  function InContext(n: Node, local: Context): (r: Node)
    ensures r.localContext == Some(local)
    ensures forall sr: real, ctx: Context :: Forged(r, sr, ctx) == Forged(n, sr, ctx)
    ensures forall sr: real, ctx: Context :: ForgedMeta(r, sr, ctx) == ForgedMeta(n, sr, ctx)
    ensures forall name: string, ctx: Context :: NodeGet(r, name, ctx) == NodeGet(n, name, ctx)
  {
    n.(localContext := Some(local))
  }
}
