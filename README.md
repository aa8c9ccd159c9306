# broadbean symbolic forging, modelled in Dafny

broadbean describes pulse sequences for arbitrary waveform generators. Its core
is symbolic. A `Segment` binds a waveform function (an "atom") to declared
properties. Each property is a number, `None`, or the name of a symbol to be
looked up in a context. A `SegmentGroup` holds an ordered list of child nodes
plus an optional transformation that rewrites the context before its children
see it. An `Element` holds one segment tree per channel.

Forging resolves every property against the context and turns the `duration`
into a sample count `int(round(duration * SR))`. Zero samples give an empty
array. Otherwise the atom is called on `np.linspace(0, duration, n,
endpoint=False)` and the remaining properties. A group appends its children's
samples in order. In metadata mode, forging returns `{'atom': name, 'args':
kwargs}` per segment and a tuple per group.

The model has four modules:

- `Values` (`values.dfy`): contexts as `map<string, real>`, properties, resolved
  values, one error variant per exception the core raises, and `Symbol.get`.
- `Transformations` (`transformations.dfy`): linear and bilinear
  transformations, and `get_transformed_context`. Each is a specification
  function plus an imperative method with its loop.
- `Segments` (`segment.dfy`): the node tree, `get`, `get_all_properties`,
  `forge` (a recursive imperative method whose group loop appends into an
  accumulator, proved against the `Forged` specification function), metadata
  mode and `in_context`.
- `Elements` (`element.dfy`): `get_duration`, `forge`, `__copy__` and
  `in_context` on an element.

Contexts are values. `get_transformed_context` copies its input before a
transformation mutates it, so the caller's context is never changed. The
model therefore threads contexts as values. Every raised exception becomes an
`Err` of the matching `Error` variant. `SegmentGroup.get` and the bilinear
transformation are modelled as written. As written, `SegmentGroup.get` never
succeeds. It raises the transformation's own error (a KeyError for an unbound
source) when the first application fails, and a `TypeError` otherwise. A
bilinear entry with any term calls `get_value` with one argument and fails.
These statements hold for the transformations the two makers in
`transformations.py` build, which are the only ones the model admits.

## Model

| member | source | states |
|---|---|---|
| Values.Symbol.Get | broadbean/segment.py:28-34 | `Symbol.get` resolves exactly as a declared property does: a string is looked up in the context (KeyError if absent), anything else is returned unchanged |
| Values.SymbolResolvesIffBound | broadbean/segment.py:56-58 | a symbol resolves iff its name is bound, then to the bound number, else to a KeyError naming it |
| Values.LiteralIgnoresContext | broadbean/segment.py:59-61 | a number or `None` resolves to itself whatever the context |
| Values.ResolveStableUnderExtension | broadbean/segment.py:50-61 | a resolution that succeeds is unchanged by adding bindings to the context |
| Segments.NewSegment | broadbean/segment.py:98-105 | the properties are the function arguments plus `duration`, which is always stored and overrides an argument of that name; no local context |
| Segments.NewGroup | broadbean/segment.py:147-153 | a group keeps its children and transformation in order; its only property is `duration` |
| Segments.Get | broadbean/segment.py:50-61 | an undeclared name is a KeyError; a declared one resolves by `Resolve` |
| Segments.GetSymbolProperty | broadbean/segment.py:55-58 | a property declared as a symbol succeeds iff the symbol is bound, and yields its binding |
| Segments.GetLiteralProperty | broadbean/segment.py:59-61 | a literal or `None` property yields itself, independent of the context |
| Segments.GetAllProperties | broadbean/segment.py:63-66 | succeeds iff every property resolves; the result has exactly the declared keys with each key's resolved value; on failure the error names exactly the unbound declared symbols, and there is at least one |
| Segments.NodeGet | broadbean/segment.py:172-176 | on a segment, `get` is `_BaseSegment.get`; on a group it never succeeds |
| Segments.GroupGetError | broadbean/segment.py:172-176 | `SegmentGroup.get` raises the transformation's error if the first application fails; otherwise a TypeError (None not callable, or `**None`), because a second application always succeeds |
| Segments.RoundHalfEven | broadbean/segment.py:121 | `round` gives the nearest integer, within 1/2, with ties going to the even neighbour |
| Segments.RoundsToZeroIff | broadbean/segment.py:129-130 | the rounded count is 0 iff the value lies in [-1/2, 1/2] |
| Segments.Samples | broadbean/segment.py:121 | the sample count is within 1/2 of `duration * SR` and is 0 iff the product lies in [-1/2, 1/2] |
| Segments.TimeAxis | broadbean/segment.py:133 | the time axis has exactly n points and starts at 0; for a positive duration it is strictly increasing and lies in [0, duration) |
| Segments.Forge | broadbean/segment.py:155-170 | the imperative forge (segments directly, groups by transforming the context once and looping over the children with an append accumulator) returns exactly the `Forged` specification, errors included |
| Segments.ZeroSamplesForgeEmpty | broadbean/segment.py:129-130 | a segment whose count rounds to 0 forges to the empty sequence without calling its atom; this happens exactly when `duration * SR` is in [-1/2, 1/2] |
| Segments.WaveformCall | broadbean/segment.py:131-135 | for a positive count, the atom's result is the segment's. The atom receives a time axis of exactly that many points starting at 0 and lying in [0, duration) for a positive duration. It also receives every resolved property except `duration` |
| Segments.NegativeSamplesFail | broadbean/segment.py:121-133 | a product below -1/2 gives a negative count and forging raises the linspace ValueError carrying that count |
| Segments.SegmentMetadata | broadbean/segment.py:112-116 | a segment's metadata is its atom's name with all resolved properties, `duration` included. It succeeds iff `get_all_properties` does, and does not depend on the sample rate or on the atom's function |
| Segments.ForgedMetaChildren | broadbean/segment.py:162-164 | a successful tuple of child descriptors has one entry per child |
| Segments.MetaChildrenInOrder | broadbean/segment.py:162-164 | the tuple succeeds iff every child's metadata does, and entry i is child i's metadata |
| Segments.GroupMetadata | broadbean/segment.py:159-164 | a group's metadata is one descriptor per child, in order, each taken under the once-transformed context |
| Segments.ChildrenConcatenate | broadbean/segment.py:167-170 | the children's loop succeeds iff every child forges, and yields their outputs concatenated in order |
| Segments.GroupConcatenation | broadbean/segment.py:159-170 | a failing transformation is the group's error. Otherwise the group succeeds iff every child does under the transformed context, and its samples are the children's outputs concatenated in order, with length the sum of theirs |
| Segments.FreshTransformationKeepsResolution | broadbean/segment.py:159-169 | a transformation that only introduces symbols the context does not bind leaves every property that resolved under the caller's context resolving to the same value under the transformed one |
| Segments.GroupIgnoresOwnProperties | broadbean/segment.py:155-170 | a group's own properties (its `duration`) and local context do not affect its samples or metadata |
| Segments.ForgedLength | broadbean/segment.py:121-170 | when atoms return one sample per time point, a forged tree has as many samples as the sum of its segments' rounded counts |
| Segments.ChildrenLength | broadbean/segment.py:167-170 | under the same hypothesis, the children's concatenation has the sum of their counts |
| Segments.SumOfRoundedCountsExample | broadbean/segment.py:121 | per-segment rounding is not additive: two segments of 0.5 at SR 1 give 0 samples, one of 1.0 gives 1 |
| Segments.HalfSampleGroupForgesEmpty | broadbean/segment.py:121-170 | a group of two 0.5-duration segments at SR 1 has expected sample count 0 and forges to the empty sequence, while its total duration 1.0 would round to 1 sample |
| Segments.InContext | broadbean/segment.py:15-18 | the copy carries the new local context and forges, describes and resolves exactly like the original |
| Transformations.SumTerms | broadbean/transformations.py:19-20 | the weighted sum succeeds iff every source symbol is bound; on failure the error names an unbound source preceded only by bound ones |
| Transformations.SumTermsConcat | broadbean/transformations.py:19-20 | the sum over two concatenated term lists is the sum of the two sums |
| Transformations.SumOfOneTerm | broadbean/transformations.py:19-20 | a single term contributes multiplier times binding |
| Transformations.ApplyLinear | broadbean/transformations.py:14-22 | the loop over the entries computes `LinearFrom`: entries applied in order, each reading the context as updated by the earlier ones |
| Transformations.LinearFrame | broadbean/transformations.py:17-21 | after a successful linear transformation the keys are the old keys plus the assigned symbols, and every unassigned key keeps its value |
| Transformations.LinearAppend | broadbean/transformations.py:17-21 | applying `a + b` is applying `a` and then `b` to the result |
| Transformations.LastAssignmentWins | broadbean/transformations.py:17-21 | a symbol not reassigned later holds the weighted sum of its entry, evaluated in the context left by the entries before it |
| Transformations.EmptyTermsAssignZero | broadbean/transformations.py:19-21 | an entry with no terms assigns 0 |
| Transformations.LinearSucceedsIffWellScoped | broadbean/transformations.py:17-21 | a linear transformation succeeds iff every source is bound initially or assigned by an earlier entry; on failure the error names such an unbound source |
| Transformations.ReapplySucceeds | broadbean/transformations.py:17-21 | a linear transformation that succeeded once succeeds again on its own output |
| Transformations.SequentialDependencyExample | broadbean/transformations.py:17-21 | `[(b, [(1, a)]), (c, [(1, b)])]` on `{a: 2}` gives `{a: 2, b: 2, c: 2}`: the second entry reads the `b` the first one wrote |
| Transformations.WeightedDependencyExample | broadbean/transformations.py:17-21 | `b = 3a` then `c = b + a` on `{a: 2}` gives `{a: 2, b: 6, c: 8}`: multipliers weight the sources and later entries see earlier assignments |
| Transformations.ApplyBilinear | broadbean/transformations.py:25-32 | the loop over the items computes `BilinearFrom` |
| Transformations.BilinearOnlyWithoutTerms | broadbean/transformations.py:25-38 | as written, a bilinear transformation fails with a TypeError iff some entry has a term (`get_value` gets one argument of two); otherwise it assigns 0 to each symbol like a linear transformation with empty entries |
| Transformations.GetTransformedContext | broadbean/transformations.py:6-11 | the copy-then-transform procedure returns `TransformedContext`: the input unchanged when there is no transformation, otherwise the transformation's result or error |
| Transformations.TransformedContextFrame | broadbean/transformations.py:6-11 | with no transformation the context is returned as is; otherwise only the assigned symbols are added or changed |
| Elements.Durations | broadbean/element.py:39 | the set of channel durations succeeds iff every channel's `get('duration')` does, and then is exactly the set of those values; on failure it is the error of a channel preceded only by resolving channels |
| Elements.GetDuration | broadbean/element.py:34-42 | a returned duration is every channel's duration; an element with no channels raises ElementDurationError |
| Elements.CommonDuration | broadbean/element.py:39-42 | a non-empty element whose channels all resolve to the same value has that duration |
| Elements.MismatchedDurations | broadbean/element.py:40-41 | two channels with different resolved durations raise ElementDurationError |
| Elements.UnresolvedChannel | broadbean/element.py:39 | a channel whose duration fails to resolve (a group channel always does) makes `get_duration` fail with some channel's own error, never ElementDurationError |
| Elements.NodeGetNeverElementDuration | broadbean/element.py:39 | resolving a node's property never raises ElementDurationError |
| Elements.GetDurationIgnoresLocalContext | broadbean/element.py:34-42 | `get_duration` uses only the supplied context, not the element's local context |
| Elements.Merge | broadbean/element.py:54-55 | the merged context has both key sets; local bindings override the caller's, the rest keep the caller's values |
| Elements.ForgeChannels | broadbean/element.py:56 | channel forging succeeds iff every channel forges. The result has one key per channel id and, for distinct ids, each channel's own output. On failure the error is some channel's error |
| Elements.Forge | broadbean/element.py:53-56 | `Element.forge` forges every channel under the caller's context overridden by the local context. It succeeds iff all channels do, with one entry per channel holding that channel's output, and makes no duration check |
| Elements.ForgeIgnoresIncludeTime | broadbean/element.py:53-56 | `include_time` does not affect the result |
| Elements.Copy | broadbean/element.py:48-50 | the copy has an empty local context, resolves durations as the original does, and forges under the caller's context alone |
| Elements.InContext | broadbean/segment.py:15-18 | on an element: the copy's local context is the given one; it forges under the caller's context overridden by it and resolves durations as the original |
| Elements.DurationCheckExamples | broadbean/element.py:39-41 | durations 1.0 and 1.0000001 raise ElementDurationError while 1.0 and 1.0 give 1.0; `forge` on the mismatched element still succeeds |

## Left out

- Waveform synthesis in `atoms.py` is not part of this model. An atom is a name plus an arbitrary function returning samples or an error. Length preservation is only a hypothesis (`PreservesLength`).
- Floating point: numbers are exact reals. `round` is exact round-half-to-even, and `np.linspace` is `i * (duration / n)` exactly, so float rounding of the product and of the time points is not modelled.
- The `types` module (`Number`, `Symbol`, `ContextDict`) is not part of this model. Symbols are strings and numbers are reals.
- Segments.GetAllProperties: properties form a map, so declaration order is lost. On failure the model reports the set of all unbound symbols, where Python raises a KeyError for the first one in declaration order.
- Python keyword-argument collisions between context keys and parameter names are not modelled. The model treats every context key as a symbol binding.
  - A context key named `SR` raises a TypeError in every `forge` call.
  - A context key named `meta_data_only` raises a TypeError only on a group's metadata path (`broadbean/segment.py:162-163`). On the calls from `Element.forge` and from the group's sample loop, the key binds the `meta_data_only` parameter and disappears from the context. A truthy value then silently switches that node to metadata mode.
  - A context key named `name` or `self` raises a TypeError in every call of `get`: from `get_all_properties`, from `Segment.forge` and from `Element.get_duration`.
  - A property named `time` collides with the time axis in the waveform call.
- A waveform function returning a scalar for a single point, and `np.append` flattening of multi-dimensional outputs, are not modelled. Samples are a flat sequence.
- Aliasing is not modelled: mutable default arguments shared between instances, shallow copies sharing the properties dict, and the identity of deep copies. All entities are values.
- A transformation is one the two makers build (linear or bilinear) or `None`. The source accepts any callable. One that returns a mapping would let `SegmentGroup.get` succeed, and one with other side effects would change what children see. Arbitrary callables are not modelled.
- `sequencing` is carried unread. The commented-out `apply_context` methods are not part of the source's behaviour.
- `__repr__` and `_property_list` (text rendering) are left out.
- `Element.__init__` is the `Element` datatype constructor. `ElementDurationError` is the `ElementDuration` error variant.
- Elements.Forge: channel ids are the dict's keys. The per-channel value is stated for pairwise distinct ids, which a dict guarantees.
