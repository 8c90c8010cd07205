/**
 * A symbol visitor that replaces every symbol found as a key of a mapping by
 * the symbol it is mapped to. The lookup happens before the visitor descends
 * into a symbol's arguments, and a replacement is never visited again.
 */
module MappingSymbolVisitor {
  import opened Wrappers

  /** A small symbol tree: leaves and function calls over argument symbols. */
  datatype Symbol =
    | Literal(value: int)
    | Reference(column: string)
    | Function(name: string, args: seq<Symbol>)

  /** The visitor's context: a Java map whose values may be null. */
  type SymbolMap = map<Symbol, Option<Symbol>>

  /**
   * A visitor instance. `inPlace` says whether the base visitor rewrites a
   * function's argument list in place or copies the function. Symbols are
   * values here, so the flag does not influence `Process`.
   */
  datatype Visitor = Visitor(inPlace: bool)

  const IN_PLACE: Visitor := Visitor(true)
  const COPYING: Visitor := Visitor(false)

  /** `inPlace()`: the shared in-place instance. */
  function InPlace(): (v: Visitor)
    ensures v.inPlace
    ensures v == IN_PLACE
  {
    IN_PLACE
  }

  /** `copying()`: the shared copying instance. */
  function Copying(): (v: Visitor)
    ensures !v.inPlace
    ensures v == COPYING
  {
    COPYING
  }

  /** `context.get(symbol)`: a missing key and a key mapped to null both give null. */
  function Get(m: SymbolMap, s: Symbol): (r: Option<Symbol>)
    ensures r.Some? <==> s in m && m[s].Some?
    ensures r.Some? ==> r.value == m[s].value
  {
    if s in m then m[s] else None
  }

  /**
   * `process`: a mapped symbol is returned as it is mapped, without visiting
   * either its own arguments or the replacement. An unmapped symbol goes to
   * the base replacing visitor: a leaf is kept, a function keeps its name and
   * gets each argument processed.
   */
  function Process(v: Visitor, s: Symbol, m: SymbolMap): (r: Symbol)
    ensures Get(m, s).Some? ==> r == Get(m, s).value
    ensures Get(m, s).None? && !s.Function? ==> r == s
    ensures Get(m, s).None? && s.Function? ==>
      r.Function? && r.name == s.name && |r.args| == |s.args|
    decreases s
  {
    match Get(m, s)
    case Some(mapped) => mapped
    case None =>
      match s
      case Function(name, args) =>
        Function(name, seq(|args|, i requires 0 <= i < |args| => Process(v, args[i], m)))
      case _ => s
  }

  /** No subsymbol of `s`, `s` included, is mapped to a non-null symbol. */
  predicate Untouched(s: Symbol, m: SymbolMap)
    decreases s
  {
    Get(m, s).None? &&
    (s.Function? ==> forall i :: 0 <= i < |s.args| ==> Untouched(s.args[i], m))
  }

  /** A symbol none of whose subsymbols is mapped comes back equal to itself. */
  lemma {:induction false} ProcessUntouchedIsIdentity(v: Visitor, s: Symbol, m: SymbolMap)
    requires Untouched(s, m)
    ensures Process(v, s, m) == s
    decreases s
  {
    if s.Function? {
      forall i | 0 <= i < |s.args|
        ensures Process(v, s.args[i], m) == s.args[i]
      {
        ProcessUntouchedIsIdentity(v, s.args[i], m);
      }
      assert Process(v, s, m).args == s.args;
    }
  }

  /** In particular an empty mapping, or one holding only nulls, changes nothing. */
  lemma {:induction false} ProcessNullMappingIsIdentity(v: Visitor, s: Symbol, m: SymbolMap)
    requires forall k :: k in m ==> m[k].None?
    ensures Process(v, s, m) == s
  {
    NullMappingLeavesUntouched(s, m);
    ProcessUntouchedIsIdentity(v, s, m);
  }

  lemma {:induction false} NullMappingLeavesUntouched(s: Symbol, m: SymbolMap)
    requires forall k :: k in m ==> m[k].None?
    ensures Untouched(s, m)
    decreases s
  {
    if s.Function? {
      forall i | 0 <= i < |s.args|
        ensures Untouched(s.args[i], m)
      {
        NullMappingLeavesUntouched(s.args[i], m);
      }
    }
  }

  /**
   * Substitution is single-step: with `a` mapped to `b` and `b` mapped to `c`,
   * processing `a` gives `b`, not `c`, even though processing `b` would give `c`.
   */
  lemma SubstitutionIsSingleStep(v: Visitor, a: Symbol, b: Symbol, c: Symbol, m: SymbolMap)
    requires a in m && m[a] == Some(b)
    requires b in m && m[b] == Some(c)
    ensures Process(v, a, m) == b
    ensures Process(v, b, m) == c
  {
  }

  /**
   * The lookup precedes descent: a mapped function is replaced wholesale, so
   * whatever its arguments map to has no influence on the result.
   */
  lemma MappedFunctionIsNotDescended(v: Visitor, s: Symbol, m: SymbolMap, m': SymbolMap)
    requires s.Function? && Get(m, s).Some?
    requires s in m' && m'[s] == m[s]
    ensures Process(v, s, m) == Process(v, s, m') == m[s].value
  {
  }

  /** A function that is not mapped keeps its name, and each argument is processed under the same mapping. */
  lemma UnmappedFunctionDescends(v: Visitor, s: Symbol, m: SymbolMap, i: nat)
    requires s.Function? && Get(m, s).None? && i < |s.args|
    ensures Process(v, s, m).args[i] == Process(v, s.args[i], m)
  {
  }
}
