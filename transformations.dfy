/**
 * Context transformations: a transformation derives new symbols from existing
 * ones. `get_transformed_context` copies the caller's context and runs the
 * transformation on the copy; the linear transformation walks an ordered list
 * of `(assigned, [(multiplier, source), ...])` entries and writes each sum into
 * the working context at once, so later entries see earlier results.
 */
module Transformations {
  import opened Values

  /** One `(multiplier, source)` pair of a linear entry. */
  datatype Term = Term(multiplier: real, source: string)

  /** One `(assigned, [(multiplier, source), ...])` entry of a linear transformation. */
  datatype Entry = Entry(symbol: string, terms: seq<Term>)

  /** One `(multiplier, symbol)` pair of a bilinear entry; both sides may be symbols or literals. */
  datatype BilinearTerm = BilinearTerm(multiplier: Property, operand: Property)

  datatype BilinearEntry = BilinearEntry(symbol: string, terms: seq<BilinearTerm>)

  /** The transformation a group carries: none (Python's falsy `None`), or one built by a maker. */
  datatype Transformation =
    | NoTransformation
    | Linear(entries: seq<Entry>)
    | Bilinear(items: seq<BilinearEntry>)

  /** The symbols a list of linear entries assigns. */
  function Assigned(entries: seq<Entry>): set<string>
  {
    set i | 0 <= i < |entries| :: entries[i].symbol
  }

  /**
   * The sum of each term's multiplier times its source's binding. The terms are
   * evaluated left to right, so the first source missing from the context is the
   * one the KeyError names; the sum of no terms is 0.
   */
  function SumTerms(ctx: Context, terms: seq<Term>): (r: Result<real>)
    ensures r.Ok? <==> forall i :: 0 <= i < |terms| ==> terms[i].source in ctx
    ensures r.Err? ==>
      exists i :: 0 <= i < |terms| && terms[i].source !in ctx
        && r.error == MissingSymbols({terms[i].source})
        && forall j :: 0 <= j < i ==> terms[j].source in ctx
  {
    if terms == [] then Ok(0.0)
    else if terms[0].source !in ctx then Err(MissingSymbols({terms[0].source}))
    else
      match SumTerms(ctx, terms[1..])
      case Err(e) =>
        assert forall i :: 0 <= i < |terms| - 1 ==> terms[1..][i] == terms[i + 1];
        Err(e)
      case Ok(rest) => Ok(terms[0].multiplier * ctx[terms[0].source] + rest)
  }

  /** Sums over consecutive term lists add up: the sum is taken term by term. */
  lemma {:induction false} SumTermsConcat(ctx: Context, a: seq<Term>, b: seq<Term>)
    requires SumTerms(ctx, a).Ok? && SumTerms(ctx, b).Ok?
    ensures SumTerms(ctx, a + b).Ok?
    ensures SumTerms(ctx, a + b).value == SumTerms(ctx, a).value + SumTerms(ctx, b).value
  {
    if a == [] {
      assert a + b == b;
    } else {
      assert (a + b)[0] == a[0] && (a + b)[1..] == a[1..] + b;
      SumTermsConcat(ctx, a[1..], b);
      assert SumTerms(ctx, a[1..] + b).Ok?;
    }
  }

  /** A single term contributes its multiplier times the bound value. */
  lemma SumOfOneTerm(ctx: Context, m: real, s: string)
    requires s in ctx
    ensures SumTerms(ctx, [Term(m, s)]).Ok? && SumTerms(ctx, [Term(m, s)]).value == m * ctx[s]
  {
    assert [Term(m, s)][1..] == [];
    assert SumTerms(ctx, []) == Ok(0.0);
  }

  /**
   * Specification of the linear transformation: the entries run in list order
   * over a working context, each writing its sum into it before the next one reads.
   */
  function LinearFrom(work: Context, entries: seq<Entry>): Result<Context>
    decreases entries
  {
    if entries == [] then Ok(work)
    else
      match SumTerms(work, entries[0].terms)
      case Err(e) => Err(e)
      case Ok(v) => LinearFrom(work[entries[0].symbol := v], entries[1..])
  }

  /** The loop of `make_linear_transformation`'s closure, updating the working context entry by entry. */
  method ApplyLinear(ctx: Context, entries: seq<Entry>) returns (r: Result<Context>)
    ensures r == LinearFrom(ctx, entries)
  {
    var context := ctx;
    var i := 0;
    while i < |entries|
      invariant 0 <= i <= |entries|
      invariant LinearFrom(ctx, entries) == LinearFrom(context, entries[i..])
    {
      var item := entries[i];
      assert entries[i..][0] == item && entries[i..][1..] == entries[i + 1..];
      var value := SumTerms(context, item.terms);
      if value.Err? {
        return Err(value.error);
      }
      context := context[item.symbol := value.value];
      i := i + 1;
    }
    assert entries[i..] == [];
    r := Ok(context);
  }

  /**
   * Key preservation: the result holds the input keys plus the assigned
   * symbols, and every key no entry assigns keeps its input value.
   */
  lemma {:induction false} LinearFrame(ctx: Context, entries: seq<Entry>)
    requires LinearFrom(ctx, entries).Ok?
    ensures LinearFrom(ctx, entries).value.Keys == ctx.Keys + Assigned(entries)
    ensures forall k :: k in ctx && k !in Assigned(entries) ==> LinearFrom(ctx, entries).value[k] == ctx[k]
    decreases entries
  {
    if entries != [] {
      var e := entries[0];
      var v := SumTerms(ctx, e.terms).value;
      LinearFrame(ctx[e.symbol := v], entries[1..]);
      assert Assigned(entries) == {e.symbol} + Assigned(entries[1..]) by {
        forall s | s in Assigned(entries) ensures s in {e.symbol} + Assigned(entries[1..]) {
          var i :| 0 <= i < |entries| && entries[i].symbol == s;
          if i > 0 { assert entries[1..][i - 1].symbol == s; }
        }
        forall s | s in Assigned(entries[1..]) ensures s in Assigned(entries) {
          var i :| 0 <= i < |entries[1..]| && entries[1..][i].symbol == s;
          assert entries[i + 1].symbol == s;
        }
      }
    }
  }

  /** Running `a ++ b` is running `a` and then running `b` on its result. */
  lemma {:induction false} LinearAppend(ctx: Context, a: seq<Entry>, b: seq<Entry>)
    ensures LinearFrom(ctx, a + b) ==
      match LinearFrom(ctx, a)
      case Err(e) => Err(e)
      case Ok(w) => LinearFrom(w, b)
    decreases a
  {
    if a == [] {
      assert a + b == b;
    } else {
      assert (a + b)[0] == a[0] && (a + b)[1..] == a[1..] + b;
      match SumTerms(ctx, a[0].terms)
      case Err(_) =>
      case Ok(v) => LinearAppend(ctx[a[0].symbol := v], a[1..], b);
    }
  }

  /**
   * Sequential evaluation and last-write-wins: when entry `e` follows `a` and no
   * later entry reassigns its symbol, the final value of that symbol is e's sum
   * evaluated in the context `a` produced, earlier results included.
   */
  lemma LastAssignmentWins(ctx: Context, a: seq<Entry>, e: Entry, b: seq<Entry>)
    requires LinearFrom(ctx, a + [e] + b).Ok?
    requires e.symbol !in Assigned(b)
    ensures LinearFrom(ctx, a).Ok?
    ensures SumTerms(LinearFrom(ctx, a).value, e.terms).Ok?
    ensures e.symbol in LinearFrom(ctx, a + [e] + b).value
    ensures LinearFrom(ctx, a + [e] + b).value[e.symbol] ==
            SumTerms(LinearFrom(ctx, a).value, e.terms).value
  {
    LinearAppend(ctx, a + [e], b);
    LinearAppend(ctx, a, [e]);
    var w := LinearFrom(ctx, a).value;
    var v := SumTerms(w, e.terms).value;
    assert [e][1..] == [];
    LinearFrame(w[e.symbol := v], b);
  }

  /** An entry with an empty term list assigns 0, the sum of an empty list. */
  lemma EmptyTermsAssignZero(ctx: Context, a: seq<Entry>, s: string, b: seq<Entry>)
    requires LinearFrom(ctx, a + [Entry(s, [])] + b).Ok?
    requires s !in Assigned(b)
    ensures s in LinearFrom(ctx, a + [Entry(s, [])] + b).value
    ensures LinearFrom(ctx, a + [Entry(s, [])] + b).value[s] == 0.0
  {
    LastAssignmentWins(ctx, a, Entry(s, []), b);
  }

  /**
   * Every source an entry reads is available when it runs: bound in the input
   * context or assigned by an earlier entry of the same list.
   */
  ghost predicate WellScoped(keys: set<string>, entries: seq<Entry>)
  {
    forall i, j :: 0 <= i < |entries| && 0 <= j < |entries[i].terms| ==>
      entries[i].terms[j].source in keys + Assigned(entries[..i])
  }

  /**
   * A linear transformation succeeds exactly when it is well scoped; a source
   * missing from the working context makes it fail, naming that source.
   */
  lemma {:induction false} LinearSucceedsIffWellScoped(ctx: Context, entries: seq<Entry>)
    ensures LinearFrom(ctx, entries).Ok? <==> WellScoped(ctx.Keys, entries)
    ensures LinearFrom(ctx, entries).Err? ==>
      exists i, j :: 0 <= i < |entries| && 0 <= j < |entries[i].terms|
        && entries[i].terms[j].source !in ctx.Keys + Assigned(entries[..i])
        && LinearFrom(ctx, entries).error == MissingSymbols({entries[i].terms[j].source})
    decreases entries
  {
    if entries != [] {
      var e := entries[0];
      var rest := entries[1..];
      assert entries[..0] == [];
      assert Assigned(entries[..0]) == {};
      // Shifting the prefix by one entry adds that entry's symbol to the available keys.
      assert forall i :: 0 <= i < |rest| ==>
        ctx.Keys + Assigned(entries[..i + 1]) == (ctx.Keys + {e.symbol}) + Assigned(rest[..i]) by {
        forall i | 0 <= i < |rest|
          ensures ctx.Keys + Assigned(entries[..i + 1]) == (ctx.Keys + {e.symbol}) + Assigned(rest[..i])
        {
          AssignedShift(entries, i);
        }
      }
      match SumTerms(ctx, e.terms)
      case Err(err) =>
        var j :| 0 <= j < |e.terms| && e.terms[j].source !in ctx
          && err == MissingSymbols({e.terms[j].source});
        assert entries[0].terms[j].source !in ctx.Keys + Assigned(entries[..0]);
      case Ok(v) =>
        var next := ctx[e.symbol := v];
        assert next.Keys == ctx.Keys + {e.symbol};
        LinearSucceedsIffWellScoped(next, rest);
        if WellScoped(next.Keys, rest) {
          forall i, j | 0 <= i < |entries| && 0 <= j < |entries[i].terms|
            ensures entries[i].terms[j].source in ctx.Keys + Assigned(entries[..i])
          {
            if i > 0 {
              assert rest[i - 1] == entries[i];
            }
          }
        } else {
          var i, j :| 0 <= i < |rest| && 0 <= j < |rest[i].terms|
            && rest[i].terms[j].source !in next.Keys + Assigned(rest[..i]);
          assert entries[i + 1].terms[j].source !in ctx.Keys + Assigned(entries[..i + 1]);
        }
        if LinearFrom(next, rest).Err? {
          var i, j :| 0 <= i < |rest| && 0 <= j < |rest[i].terms|
            && rest[i].terms[j].source !in next.Keys + Assigned(rest[..i])
            && LinearFrom(next, rest).error == MissingSymbols({rest[i].terms[j].source});
          assert entries[i + 1].terms[j].source !in ctx.Keys + Assigned(entries[..i + 1]);
        }
    }
  }

  /** The symbols assigned by the first `i + 1` entries are the first one's plus those of the next `i`. */
  lemma AssignedShift(entries: seq<Entry>, i: nat)
    requires i < |entries|
    ensures Assigned(entries[..i + 1]) == {entries[0].symbol} + Assigned(entries[1..][..i])
  {
    var p := entries[..i + 1];
    var q := entries[1..][..i];
    forall s | s in Assigned(p) ensures s in {entries[0].symbol} + Assigned(q) {
      var k :| 0 <= k < |p| && p[k].symbol == s;
      if k > 0 { assert q[k - 1] == p[k]; }
    }
    forall s | s in Assigned(q) ensures s in Assigned(p) {
      var k :| 0 <= k < |q| && q[k].symbol == s;
      assert p[k + 1] == q[k];
    }
  }

  /**
   * Running a linear transformation a second time over its own successful
   * result also succeeds: the result binds every key the first run read.
   */
  lemma ReapplySucceeds(ctx: Context, entries: seq<Entry>)
    requires LinearFrom(ctx, entries).Ok?
    ensures LinearFrom(LinearFrom(ctx, entries).value, entries).Ok?
  {
    var r := LinearFrom(ctx, entries).value;
    LinearSucceedsIffWellScoped(ctx, entries);
    LinearFrame(ctx, entries);
    LinearSucceedsIffWellScoped(r, entries);
  }

  /** The ordering example: `[(b, [(1, a)]), (c, [(1, b)])]` over `{a: 2}` gives `b = 2` and `c = 2`. */
  lemma SequentialDependencyExample()
    ensures LinearFrom(map["a" := 2.0],
                       [Entry("b", [Term(1.0, "a")]), Entry("c", [Term(1.0, "b")])])
            == Ok(map["a" := 2.0, "b" := 2.0, "c" := 2.0])
  {
    var es := [Entry("b", [Term(1.0, "a")]), Entry("c", [Term(1.0, "b")])];
    var c0 := map["a" := 2.0];
    SumOfOneTerm(c0, 1.0, "a");
    var c1 := c0["b" := 2.0];
    assert es[1..] == [Entry("c", [Term(1.0, "b")])];
    SumOfOneTerm(c1, 1.0, "b");
    assert es[1..][1..] == [];
    assert c1["c" := 2.0] == map["a" := 2.0, "b" := 2.0, "c" := 2.0];
  }

  /**
   * Weighted sources: `b = 3a` and then `c = b + a` over `{a: 2}` give `b = 6`
   * and `c = 8`, the second entry reading the `b` the first one wrote.
   */
  lemma WeightedDependencyExample()
    ensures LinearFrom(map["a" := 2.0],
                       [Entry("b", [Term(3.0, "a")]), Entry("c", [Term(1.0, "b"), Term(1.0, "a")])])
            == Ok(map["a" := 2.0, "b" := 6.0, "c" := 8.0])
  {
    var es := [Entry("b", [Term(3.0, "a")]), Entry("c", [Term(1.0, "b"), Term(1.0, "a")])];
    var c0 := map["a" := 2.0];
    SumOfOneTerm(c0, 3.0, "a");
    var c1 := c0["b" := 6.0];
    assert es[1..] == [Entry("c", [Term(1.0, "b"), Term(1.0, "a")])];
    SumOfOneTerm(c1, 1.0, "b");
    SumOfOneTerm(c1, 1.0, "a");
    assert [Term(1.0, "b")] + [Term(1.0, "a")] == [Term(1.0, "b"), Term(1.0, "a")];
    SumTermsConcat(c1, [Term(1.0, "b")], [Term(1.0, "a")]);
    assert es[1..][1..] == [];
    assert c1["c" := 8.0] == map["a" := 2.0, "b" := 6.0, "c" := 8.0];
  }

  /**
   * Specification of the bilinear transformation as written: its comprehension
   * calls `get_value` with one argument where two are declared, so any entry with
   * a term fails; an entry with no terms assigns 0.
   */
  function BilinearFrom(work: Context, items: seq<BilinearEntry>): Result<Context>
    decreases items
  {
    if items == [] then Ok(work)
    else if items[0].terms != [] then Err(WrongArgumentCount)
    else BilinearFrom(work[items[0].symbol := 0.0], items[1..])
  }

  /** The loop of `make_bilinear_transformation`'s closure. */
  method ApplyBilinear(ctx: Context, items: seq<BilinearEntry>) returns (r: Result<Context>)
    ensures r == BilinearFrom(ctx, items)
  {
    var context := ctx;
    var i := 0;
    while i < |items|
      invariant 0 <= i <= |items|
      invariant BilinearFrom(ctx, items) == BilinearFrom(context, items[i..])
    {
      var item := items[i];
      assert items[i..][0] == item && items[i..][1..] == items[i + 1..];
      if item.terms != [] {
        // the first `get_value(multiplier)` call raises before any sum is formed
        return Err(WrongArgumentCount);
      }
      context := context[item.symbol := 0.0];
      i := i + 1;
    }
    assert items[i..] == [];
    r := Ok(context);
  }

  /** The linear entries with the same assigned symbols and no terms. */
  function EmptyEntries(items: seq<BilinearEntry>): (es: seq<Entry>)
    ensures |es| == |items|
  {
    seq(|items|, i requires 0 <= i < |items| => Entry(items[i].symbol, []))
  }

  /**
   * The bilinear transformation fails exactly when some entry has a term, and
   * otherwise does what a linear one with the same symbols and no terms does.
   */
  lemma {:induction false} BilinearOnlyWithoutTerms(ctx: Context, items: seq<BilinearEntry>)
    ensures BilinearFrom(ctx, items).Err? <==> exists i :: 0 <= i < |items| && items[i].terms != []
    ensures BilinearFrom(ctx, items).Err? ==> BilinearFrom(ctx, items).error == WrongArgumentCount
    ensures BilinearFrom(ctx, items).Ok? ==> BilinearFrom(ctx, items) == LinearFrom(ctx, EmptyEntries(items))
    decreases items
  {
    if items != [] {
      var es := EmptyEntries(items);
      assert es[0] == Entry(items[0].symbol, []);
      assert EmptyEntries(items[1..]) == es[1..];
      BilinearOnlyWithoutTerms(ctx[items[0].symbol := 0.0], items[1..]);
      if items[0].terms == [] {
        assert forall i :: 1 <= i < |items| ==> items[1..][i - 1] == items[i];
      }
    }
  }

  /** The symbols a transformation assigns. */
  function AssignedBy(t: Transformation): set<string>
  {
    match t
    case NoTransformation => {}
    case Linear(entries) => Assigned(entries)
    case Bilinear(items) => Assigned(EmptyEntries(items))
  }

  /** Specification of `get_transformed_context`: the copy, transformed unless the transformation is None. */
  function TransformedContext(ctx: Context, t: Transformation): Result<Context>
  {
    match t
    case NoTransformation => Ok(ctx)
    case Linear(entries) => LinearFrom(ctx, entries)
    case Bilinear(items) => BilinearFrom(ctx, items)
  }

  /**
   * `get_transformed_context`: the caller's context is a value, so the copy
   * taken here is all the transformation ever changes.
   */
  method GetTransformedContext(inputContext: Context, t: Transformation) returns (r: Result<Context>)
    ensures r == TransformedContext(inputContext, t)
  {
    var newContext := inputContext;
    match t
    case NoTransformation => r := Ok(newContext);
    case Linear(entries) => r := ApplyLinear(newContext, entries);
    case Bilinear(items) => r := ApplyBilinear(newContext, items);
  }

  /**
   * Whatever the transformation, a successful result is the input context
   * extended by the assigned symbols, and keeps every other binding; without a
   * transformation it equals the input.
   */
  lemma TransformedContextFrame(ctx: Context, t: Transformation)
    requires TransformedContext(ctx, t).Ok?
    ensures t.NoTransformation? ==> TransformedContext(ctx, t).value == ctx
    ensures TransformedContext(ctx, t).value.Keys == ctx.Keys + AssignedBy(t)
    ensures forall k :: k in ctx && k !in AssignedBy(t) ==> TransformedContext(ctx, t).value[k] == ctx[k]
  {
    match t
    case NoTransformation =>
    case Linear(entries) => LinearFrame(ctx, entries);
    case Bilinear(items) =>
      BilinearOnlyWithoutTerms(ctx, items);
      LinearFrame(ctx, EmptyEntries(items));
  }
}
