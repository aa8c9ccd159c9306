/**
 * Values shared by every part of the broadbean model: the context that binds
 * symbol names to numbers, declared properties (a literal, a symbol or None),
 * the values they resolve to, and the errors the engine can raise.
 */
module Values {

  /** A context binds symbol names to numbers; Python's `Number` is modelled as `real`. */
  type Context = map<string, real>

  /** What a declared property resolves to: a number, or Python's `None`. */
  datatype Value = Num(x: real) | NoneV

  /**
   * A declared property. In the source a `str` is always a symbol and anything
   * else (a number or `None`) is a literal; here the three cases are tagged.
   */
  datatype Property = Lit(x: real) | Sym(name: string) | NoneVal

  /** The exceptions the core can raise, one variant per distinct cause. */
  datatype Error =
    | MissingSymbols(names: set<string>)  // KeyError: symbol(s) absent from the context
    | UnknownProperty(name: string)       // KeyError: no property declared under this name
    | NotCallable                         // TypeError: calling a transformation that is None
    | NotAMapping                         // TypeError: `**` applied to the None a transformation returns
    | WrongArgumentCount                  // TypeError: `get_value` called with one argument instead of two
    | NoneArithmetic                      // TypeError: a `None` duration multiplied by the sample rate
    | NegativeSampleCount(n: int)         // ValueError: a time axis asked for a negative number of points
    | ElementDuration                     // ElementDurationError
    | AtomFailure(reason: string)         // whatever a waveform function raises

  datatype Result<+T> = Ok(value: T) | Err(error: Error)

  datatype Option<+T> = None | Some(value: T)

  /** Resolution of one property against a context: symbols are looked up, literals returned as they are. */
  function Resolve(p: Property, ctx: Context): (r: Result<Value>)
  {
    match p
    case Sym(name) => if name in ctx then Ok(Num(ctx[name])) else Err(MissingSymbols({name}))
    case Lit(x) => Ok(Num(x))
    case NoneVal => Ok(NoneV)
  }

  /** A literal or `None` property resolves to itself, whatever the context. */
  lemma LiteralIgnoresContext(p: Property, c1: Context, c2: Context)
    requires !p.Sym?
    ensures Resolve(p, c1) == Resolve(p, c2)
    ensures Resolve(p, c1) == Ok(if p.Lit? then Num(p.x) else NoneV)
  {
  }

  /** A symbol resolves exactly when it is a key of the context, and then to the bound number. */
  lemma SymbolResolvesIffBound(name: string, ctx: Context)
    ensures Resolve(Sym(name), ctx).Ok? <==> name in ctx
    ensures name in ctx ==> Resolve(Sym(name), ctx) == Ok(Num(ctx[name]))
    ensures name !in ctx ==> Resolve(Sym(name), ctx) == Err(MissingSymbols({name}))
  {
  }

  /**
   * Resolution that succeeds in a context is unchanged by extending that
   * context with more bindings that keep the existing ones.
   */
  lemma ResolveStableUnderExtension(p: Property, ctx: Context, ext: Context)
    requires Resolve(p, ctx).Ok?
    requires forall k :: k in ctx ==> k in ext && ext[k] == ctx[k]
    ensures Resolve(p, ext) == Resolve(p, ctx)
  {
  }

  /**
   * The `Symbol` helper: wraps a literal, `None` or a symbol name, and `Get`
   * resolves it. It behaves exactly like property resolution.
   */
  datatype Symbol = Symbol(value: Property) {
    function Get(ctx: Context): (r: Result<Value>)
      ensures r == Resolve(value, ctx)
    {
      if value.Sym? then
        (if value.name in ctx then Ok(Num(ctx[value.name])) else Err(MissingSymbols({value.name})))
      else if value.Lit? then Ok(Num(value.x))
      else Ok(NoneV)
    }
  }
}
