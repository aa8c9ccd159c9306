/**
 * An element: one segment tree per channel, meant to play simultaneously.
 * `get_duration` demands that every channel resolve to one common duration;
 * `forge` merges the element's local context over the caller's and forges
 * every channel, without checking durations.
 */
module Elements {
  import opened Values
  import opened Transformations
  import opened Segments

  /** A channel identifier: an `int` or a `str`. */
  datatype ChannelId = IntChannel(i: int) | StrChannel(s: string)

  /**
   * `Element(segments, sequencing, local_context)`. The `segments` dict is kept
   * as its items in insertion order; `sequencing` is carried along, unread.
   */
  datatype Element = Element(segments: seq<(ChannelId, Node)>, sequencing: map<string, int>,
                             localContext: Context)

  /** The channel identifiers, which as keys of a dict are pairwise distinct. */
  ghost predicate DistinctIds(segments: seq<(ChannelId, Node)>)
  {
    forall i, j :: 0 <= i < j < |segments| ==> segments[i].0 != segments[j].0
  }

  function ChannelIds(segments: seq<(ChannelId, Node)>): set<ChannelId>
  {
    set i | 0 <= i < |segments| :: segments[i].0
  }

  /**
   * The set of the channels' resolved durations, gathered channel by channel
   * in order; gathering stops at the first channel whose duration does not resolve.
   */
  function Durations(segments: seq<(ChannelId, Node)>, ctx: Context): (r: Result<set<Value>>)
    ensures r.Ok? <==> forall i :: 0 <= i < |segments| ==> NodeGet(segments[i].1, "duration", ctx).Ok?
    ensures r.Ok? ==> forall i :: 0 <= i < |segments| ==> NodeGet(segments[i].1, "duration", ctx).value in r.value
    ensures r.Ok? ==> forall v :: v in r.value ==>
      exists i :: 0 <= i < |segments| && NodeGet(segments[i].1, "duration", ctx) == Ok(v)
    ensures r.Err? ==> exists i :: 0 <= i < |segments| && NodeGet(segments[i].1, "duration", ctx) == Err(r.error)
                                   && (forall j :: 0 <= j < i ==> NodeGet(segments[j].1, "duration", ctx).Ok?)
    decreases segments
  {
    if segments == [] then Ok({})
    else
      assert forall i :: 1 <= i < |segments| ==> segments[1..][i - 1] == segments[i];
      match NodeGet(segments[0].1, "duration", ctx)
      case Err(e) => Err(e)
      case Ok(v) =>
        match Durations(segments[1..], ctx)
        case Err(e) => Err(e)
        case Ok(rest) => Ok({v} + rest)
  }

  /** A set of size one holds a single value. */
  lemma SingletonHasOneValue(s: set<Value>)
    requires |s| == 1
    ensures forall x, y :: x in s && y in s ==> x == y
  {
    forall x, y | x in s && y in s ensures x == y {
      if x != y {
        assert {x, y} <= s;
        assert |{x, y}| == 2;
        SubsetSize({x, y}, s);
      }
    }
  }

  lemma {:induction false} SubsetSize(a: set<Value>, b: set<Value>)
    requires a <= b
    ensures |a| <= |b|
    decreases b
  {
    if a != {} {
      var x :| x in a;
      SubsetSize(a - {x}, b - {x});
    }
  }

  /**
   * `Element.get_duration`: the channels' durations, resolved against the
   * supplied context alone, must form a set of exactly one value, which is
   * returned; otherwise ElementDurationError.
   */
  function GetDuration(e: Element, ctx: Context): (r: Result<Value>)
    ensures r.Ok? ==> |e.segments| > 0
    ensures r.Ok? ==> forall i :: 0 <= i < |e.segments| ==> NodeGet(e.segments[i].1, "duration", ctx) == Ok(r.value)
    ensures e.segments == [] ==> r == Err(ElementDuration)
  {
    match Durations(e.segments, ctx)
    case Err(err) => Err(err)
    case Ok(durations) =>
      if |durations| != 1 then Err(ElementDuration)
      else
        SingletonHasOneValue(durations);
        var d :| d in durations;
        Ok(d)
  }

  /** When every channel resolves to the same duration, that duration is the element's. */
  lemma CommonDuration(e: Element, ctx: Context, v: Value)
    requires |e.segments| > 0
    requires forall i :: 0 <= i < |e.segments| ==> NodeGet(e.segments[i].1, "duration", ctx) == Ok(v)
    ensures GetDuration(e, ctx) == Ok(v)
  {
    var ds := Durations(e.segments, ctx).value;
    assert ds == {v} by {
      assert NodeGet(e.segments[0].1, "duration", ctx).value in ds;
    }
  }

  /** Two channels that resolve to different durations make ElementDurationError. */
  lemma MismatchedDurations(e: Element, ctx: Context, i: nat, j: nat)
    requires i < |e.segments| && j < |e.segments|
    requires forall k :: 0 <= k < |e.segments| ==> NodeGet(e.segments[k].1, "duration", ctx).Ok?
    requires NodeGet(e.segments[i].1, "duration", ctx) != NodeGet(e.segments[j].1, "duration", ctx)
    ensures GetDuration(e, ctx) == Err(ElementDuration)
  {
    var ds := Durations(e.segments, ctx).value;
    var vi := NodeGet(e.segments[i].1, "duration", ctx).value;
    var vj := NodeGet(e.segments[j].1, "duration", ctx).value;
    assert vi in ds && vj in ds && vi != vj;
    if |ds| == 1 {
      SingletonHasOneValue(ds);
    }
  }

  /**
   * A channel whose duration does not resolve stops `get_duration` with that
   * channel's error; a channel rooted at a group always does, since
   * `SegmentGroup.get` never succeeds.
   */
  lemma UnresolvedChannel(e: Element, ctx: Context, i: nat)
    requires i < |e.segments|
    requires NodeGet(e.segments[i].1, "duration", ctx).Err? || e.segments[i].1.SegmentGroup?
    ensures GetDuration(e, ctx).Err? && GetDuration(e, ctx).error != ElementDuration
    ensures exists k :: 0 <= k < |e.segments| && GetDuration(e, ctx) == NodeGet(e.segments[k].1, "duration", ctx)
  {
    assert NodeGet(e.segments[i].1, "duration", ctx).Err?;
    assert Durations(e.segments, ctx).Err?;
    var k :| 0 <= k < |e.segments| && NodeGet(e.segments[k].1, "duration", ctx) == Err(Durations(e.segments, ctx).error);
    NodeGetNeverElementDuration(e.segments[k].1, ctx);
  }

  /** Resolving a node's property never raises ElementDurationError. */
  lemma NodeGetNeverElementDuration(n: Node, ctx: Context)
    ensures NodeGet(n, "duration", ctx).Err? ==> NodeGet(n, "duration", ctx).error != ElementDuration
  {
    if n.SegmentGroup? {
      GroupGetError(n, "duration", ctx);
      var t := n.transformation;
      match t
      case NoTransformation =>
      case Linear(entries) =>
        if LinearFrom(ctx, entries).Err? {
          LinearSucceedsIffWellScoped(ctx, entries);
        }
      case Bilinear(items) => BilinearOnlyWithoutTerms(ctx, items);
    }
  }

  /** `get_duration` resolves against the supplied context only: the local context plays no part. */
  lemma GetDurationIgnoresLocalContext(e: Element, ctx: Context, local: Context)
    ensures GetDuration(e.(localContext := local), ctx) == GetDuration(e, ctx)
  {
  }

  /** `copy(context)` followed by `update(local_context)`: the local bindings override the caller's. */
  function Merge(outer: Context, local: Context): (m: Context)
    ensures m.Keys == outer.Keys + local.Keys
    ensures forall k :: k in local ==> m[k] == local[k]
    ensures forall k :: k in outer && k !in local ==> m[k] == outer[k]
  {
    outer + local
  }

  /** Every channel forged in order under one context, each output stored under its channel's identifier. */
  function ForgeChannels(segments: seq<(ChannelId, Node)>, sr: real, ctx: Context): (r: Result<map<ChannelId, seq<real>>>)
    ensures r.Ok? <==> forall i :: 0 <= i < |segments| ==> Forged(segments[i].1, sr, ctx).Ok?
    ensures r.Ok? ==> r.value.Keys == ChannelIds(segments)
    ensures r.Ok? && DistinctIds(segments) ==>
      forall i :: 0 <= i < |segments| ==> r.value[segments[i].0] == Forged(segments[i].1, sr, ctx).value
    ensures r.Err? ==> exists i :: 0 <= i < |segments| && Forged(segments[i].1, sr, ctx) == Err(r.error)
    decreases segments
  {
    if segments == [] then Ok(map[])
    else
      assert forall i :: 1 <= i < |segments| ==> segments[1..][i - 1] == segments[i];
      match Forged(segments[0].1, sr, ctx)
      case Err(e) => Err(e)
      case Ok(s) =>
        match ForgeChannels(segments[1..], sr, ctx)
        case Err(e) => Err(e)
        case Ok(m) =>
          ChannelsTail(segments);
          Ok(map[segments[0].0 := s] + m)
  }

  /** The channels after the first: their identifiers, and their distinctness. */
  lemma ChannelsTail(segments: seq<(ChannelId, Node)>)
    requires segments != []
    ensures ChannelIds(segments) == {segments[0].0} + ChannelIds(segments[1..])
    ensures DistinctIds(segments) ==> DistinctIds(segments[1..])
    ensures DistinctIds(segments) ==> segments[0].0 !in ChannelIds(segments[1..])
  {
    forall c | c in ChannelIds(segments) ensures c in {segments[0].0} + ChannelIds(segments[1..]) {
      var i :| 0 <= i < |segments| && segments[i].0 == c;
      if i > 0 { assert segments[1..][i - 1].0 == c; }
    }
    forall c | c in ChannelIds(segments[1..]) ensures c in ChannelIds(segments) {
      var i :| 0 <= i < |segments[1..]| && segments[1..][i].0 == c;
      assert segments[i + 1].0 == c;
    }
    if DistinctIds(segments) {
      forall i, j | 0 <= i < j < |segments[1..]| ensures segments[1..][i].0 != segments[1..][j].0 {
        assert segments[1..][i] == segments[i + 1] && segments[1..][j] == segments[j + 1];
      }
      forall i | 0 <= i < |segments[1..]| ensures segments[1..][i].0 != segments[0].0 {
        assert segments[1..][i] == segments[i + 1];
      }
    }
  }

  /**
   * `Element.forge`: every channel forged under the caller's context overridden
   * key by key by the local context; one entry per channel. No duration check
   * is made and `include_time` is not used.
   */
  function Forge(e: Element, sr: real, context: Context, includeTime: bool): (r: Result<map<ChannelId, seq<real>>>)
    ensures r.Ok? <==> forall i :: 0 <= i < |e.segments| ==>
      Forged(e.segments[i].1, sr, Merge(context, e.localContext)).Ok?
    ensures r.Ok? ==> r.value.Keys == ChannelIds(e.segments)
    ensures r.Ok? && DistinctIds(e.segments) ==> forall i :: 0 <= i < |e.segments| ==>
      r.value[e.segments[i].0] == Forged(e.segments[i].1, sr, Merge(context, e.localContext)).value
  {
    var contextArg := Merge(context, e.localContext);
    ForgeChannels(e.segments, sr, contextArg)
  }

  /** `include_time` does not change what `forge` returns. */
  lemma ForgeIgnoresIncludeTime(e: Element, sr: real, context: Context)
    ensures Forge(e, sr, context, true) == Forge(e, sr, context, false)
  {
  }

  /**
   * `Element.__copy__`: the same channels and sequencing, and the default empty
   * local context; the copy resolves durations as the original does and forges
   * under the caller's context alone.
   */
  function Copy(e: Element): (r: Element)
    ensures r.localContext == map[]
    ensures GetDuration(r, map[]) == GetDuration(e, map[])
    ensures forall ctx: Context :: GetDuration(r, ctx) == GetDuration(e, ctx)
    ensures forall sr: real, ctx: Context, it: bool :: Forge(r, sr, ctx, it) == ForgeChannels(e.segments, sr, ctx)
  {
    var r := Element(e.segments, e.sequencing, map[]);
    assert forall ctx: Context :: Merge(ctx, map[]) == ctx;
    r
  }

  /**
   * `in_context` on an element: `copy` (which is `__copy__`) with the local
   * context replaced; the copy forges under the caller's context overridden by
   * `local`, and resolves durations as the original does.
   */
  function InContext(e: Element, local: Context): (r: Element)
    ensures r.localContext == local
    ensures forall ctx: Context :: GetDuration(r, ctx) == GetDuration(e, ctx)
    ensures forall sr: real, ctx: Context, it: bool ::
      Forge(r, sr, ctx, it) == ForgeChannels(e.segments, sr, Merge(ctx, local))
  {
    Copy(e).(localContext := local)
  }

  /**
   * Two channels of durations 1.0 and 1.0000001 make ElementDurationError while
   * two of 1.0 give 1.0; `forge` succeeds on the mismatched element all the same.
   */
  lemma DurationCheckExamples()
    ensures GetDuration(Element([(IntChannel(1), NewSegment(Zeros(), Lit(1.0), map[])),
                                 (IntChannel(2), NewSegment(Zeros(), Lit(1.0000001), map[]))], map[], map[]),
                        map[]) == Err(ElementDuration)
    ensures GetDuration(Element([(IntChannel(1), NewSegment(Zeros(), Lit(1.0), map[])),
                                 (IntChannel(2), NewSegment(Zeros(), Lit(1.0), map[]))], map[], map[]),
                        map[]) == Ok(Num(1.0))
    ensures Forge(Element([(IntChannel(1), NewSegment(Zeros(), Lit(1.0), map[])),
                           (IntChannel(2), NewSegment(Zeros(), Lit(1.0000001), map[]))], map[], map[]),
                  1.0, map[], false).Ok?
  {
    var a := NewSegment(Zeros(), Lit(1.0), map[]);
    var b := NewSegment(Zeros(), Lit(1.0000001), map[]);
    var mismatched := Element([(IntChannel(1), a), (IntChannel(2), b)], map[], map[]);
    var matched := Element([(IntChannel(1), a), (IntChannel(2), a)], map[], map[]);
    assert NodeGet(a, "duration", map[]) == Ok(Num(1.0));
    assert NodeGet(b, "duration", map[]) == Ok(Num(1.0000001));
    MismatchedDurations(mismatched, map[], 0, 1);
    CommonDuration(matched, map[], Num(1.0));
    assert GetAllProperties(a.properties, map[]).Ok?;
    assert GetAllProperties(b.properties, map[]).Ok?;
    assert Samples(1.0, 1.0) == 1;
    assert Samples(1.0000001, 1.0) == 1;
  }
}
