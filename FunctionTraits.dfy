/** Signature transforms of clad's header layer (FunctionTraits.h).

    The C++ code is a family of partial template specializations over
    function-pointer types. Here a function-pointer type is a value of `Ty`,
    each family of specializations is a table of the signature shapes it
    declares, and each trait is a function that yields `None` where no
    specialization matches (where the C++ alias would be ill-formed). */
module FunctionTraits {
  import opened Wrappers

  /** The reference qualifier of a member function: none, `&` or `&&`. */
  datatype RefQual = NoRef | LRef | RRef

  /** The qualifiers a member-function type can carry after its parameter list. */
  datatype Quals = Quals(isConst: bool, isVolatile: bool, ref: RefQual, isNoexcept: bool)

  /** A C++ type, as far as the traits look into it. */
  datatype Ty =
    | Named(name: string)   // any other type: double, int, a class, ...
    | Void
    | Ptr(pointee: Ty)      // T*
    | FnPtr(sig: Sig)       // R (*)(Args...) or R (C::*)(Args...) quals

  /** A function signature: free `R (*)(Args... [, ...]) [noexcept]` or
      member `R (C::*)(Args... [, ...]) cv ref [noexcept]`. */
  datatype Sig =
    | Free(ret: Ty, params: seq<Ty>, variadic: bool, noexcept: bool)
    | Member(ret: Ty, cls: Ty, params: seq<Ty>, variadic: bool, quals: Quals)

  /** The attributes a specialization pattern fixes: everything but the types. */
  datatype Shape =
    | FreeShape(variadic: bool, noexcept: bool)
    | MemberShape(variadic: bool, quals: Quals)

  function ShapeOf(s: Sig): Shape
  {
    match s
    case Free(_, _, v, nx) => FreeShape(v, nx)
    case Member(_, _, _, v, q) => MemberShape(v, q)
  }

  /** The type a declaration has. Unless `noexcept` is part of the function type
      (`__cpp_noexcept_function_type`), the declared `noexcept` is dropped. */
  function TypeOf(noexceptTypes: bool, s: Sig): (t: Sig)
    ensures noexceptTypes ==> t == s
    ensures t.Free? == s.Free? && t.ret == s.ret && t.params == s.params && t.variadic == s.variadic
    ensures s.Free? ==> t.noexcept == (noexceptTypes && s.noexcept)
    ensures s.Member? ==>
      && t.cls == s.cls
      && t.quals.isConst == s.quals.isConst && t.quals.isVolatile == s.quals.isVolatile
      && t.quals.ref == s.quals.ref
      && t.quals.isNoexcept == (noexceptTypes && s.quals.isNoexcept)
  {
    if noexceptTypes then s
    else match s
      case Free(r, ps, v, _) => Free(r, ps, v, false)
      case Member(r, c, ps, v, q) => Member(r, c, ps, v, q.(isNoexcept := false))
  }

  /** Whether a type does not carry `noexcept` (or need not, because the flag is off). */
  predicate ThrowingFree(noexceptTypes: bool, s: Sig)
    requires s.Free?
  {
    !(noexceptTypes && s.noexcept)
  }

  // ---------------------------------------------------------------------------
  // The qualifier product that the DropArgs_Add* and
  // GradientDerivedFnTraits_Add* macros expand to. Both families have the same
  // structure: AddCON(()) -> AddVOL -> AddREF -> AddNOEX -> AddSPECS. The `var`
  // argument that AddCON is given (`()`) is passed down and never used, so every
  // generated specialization is non-variadic.
  // ---------------------------------------------------------------------------

  /** AddNOEX: the case without `noexcept`, and with it when the flag is on. */
  function AddNoex(noexceptTypes: bool, con: bool, vol: bool, ref: RefQual): seq<Quals>
  {
    if noexceptTypes then [Quals(con, vol, ref, false), Quals(con, vol, ref, true)]
    else [Quals(con, vol, ref, false)]
  }

  /** AddREF: no reference qualifier, `&` and `&&`. */
  function AddRef(noexceptTypes: bool, con: bool, vol: bool): seq<Quals>
  {
    AddNoex(noexceptTypes, con, vol, NoRef) + AddNoex(noexceptTypes, con, vol, LRef)
      + AddNoex(noexceptTypes, con, vol, RRef)
  }

  /** AddVOL: without and with `volatile`. */
  function AddVol(noexceptTypes: bool, con: bool): seq<Quals>
  {
    AddRef(noexceptTypes, con, false) + AddRef(noexceptTypes, con, true)
  }

  /** AddCON: without and with `const`; the single invocation declares all cases. */
  function AddCon(noexceptTypes: bool): seq<Quals>
  {
    AddVol(noexceptTypes, false) + AddVol(noexceptTypes, true)
  }

  /** The member qualifiers that return_type and ExtractDerivedFnTraits spell out
      one specialization at a time, in their order: none, const, volatile,
      const volatile, then the same four with `&` and with `&&`; then all twelve
      again with `noexcept` when the flag is on. */
  function WrittenOutQuals(noexceptTypes: bool): seq<Quals>
  {
    WrittenOutBlock(false) + (if noexceptTypes then WrittenOutBlock(true) else [])
  }

  function WrittenOutBlock(nx: bool): seq<Quals>
  {
    [ Quals(false, false, NoRef, nx), Quals(true, false, NoRef, nx),
      Quals(false, true, NoRef, nx), Quals(true, true, NoRef, nx),
      Quals(false, false, LRef, nx), Quals(true, false, LRef, nx),
      Quals(false, true, LRef, nx), Quals(true, true, LRef, nx),
      Quals(false, false, RRef, nx), Quals(true, false, RRef, nx),
      Quals(false, true, RRef, nx), Quals(true, true, RRef, nx) ]
  }

  function MemberShapes(variadic: bool, qs: seq<Quals>): (r: seq<Shape>)
    ensures forall sh :: sh in r <==> sh.MemberShape? && sh.variadic == variadic && sh.quals in qs
  {
    if qs == [] then []
    else
      assert qs == [qs[0]] + qs[1..];
      [MemberShape(variadic, qs[0])] + MemberShapes(variadic, qs[1..])
  }

  /** The shapes return_type specializes: free pointers with and without C
      varargs, and every written-out member qualifier with and without varargs.
      There is no free `noexcept` case. */
  function ReturnTypeShapes(noexceptTypes: bool): seq<Shape>
  {
    [FreeShape(false, false), FreeShape(true, false)]
      + MemberShapes(false, WrittenOutQuals(noexceptTypes))
      + MemberShapes(true, WrittenOutQuals(noexceptTypes))
  }

  /** The shapes DropArgs and GradientDerivedFnTraits specialize: the
      non-variadic, non-noexcept free pointer, and the macro product (members). */
  function MacroShapes(noexceptTypes: bool): seq<Shape>
  {
    [FreeShape(false, false)] + MemberShapes(false, AddCon(noexceptTypes))
  }

  /** The shapes ExtractDerivedFnTraits specializes. */
  function ExtractShapes(noexceptTypes: bool): seq<Shape>
  {
    [FreeShape(false, false)] + MemberShapes(false, WrittenOutQuals(noexceptTypes))
  }

  /** `table` declares a specialization for shape `sh`. */
  predicate Declares(table: seq<Shape>, sh: Shape)
  {
    |table| > 0 && (table[0] == sh || Declares(table[1..], sh))
  }

  lemma {:induction false} DeclaresIsMembership(table: seq<Shape>, sh: Shape)
    ensures Declares(table, sh) <==> sh in table
  {
    if |table| > 0 {
      DeclaresIsMembership(table[1..], sh);
      assert table == [table[0]] + table[1..];
    }
  }

  /** A partial specialization out of `table` matches the type of `s`. */
  predicate Specialized(table: seq<Shape>, noexceptTypes: bool, s: Sig)
  {
    Declares(table, ShapeOf(TypeOf(noexceptTypes, s)))
  }

  /** No element of the sequence occurs twice. */
  ghost predicate Distinct<T>(s: seq<T>)
  {
    forall i, j :: 0 <= i < j < |s| ==> s[i] != s[j]
  }

  lemma DistinctConcat<T>(a: seq<T>, b: seq<T>)
    requires Distinct(a) && Distinct(b)
    requires forall x :: x in a ==> x !in b
    ensures Distinct(a + b)
  {
    forall i, j | 0 <= i < j < |a + b| ensures (a + b)[i] != (a + b)[j] {
      if i < |a| && |a| <= j {
        assert (a + b)[i] in a && (a + b)[j] in b;
      }
    }
  }

  /** What one AddNOEX expansion declares. */
  lemma AddNoexContents(noexceptTypes: bool, con: bool, vol: bool, ref: RefQual)
    ensures forall q :: q in AddNoex(noexceptTypes, con, vol, ref) <==>
      q.isConst == con && q.isVolatile == vol && q.ref == ref && (noexceptTypes || !q.isNoexcept)
    ensures Distinct(AddNoex(noexceptTypes, con, vol, ref))
    ensures |AddNoex(noexceptTypes, con, vol, ref)| == if noexceptTypes then 2 else 1
  {
  }

  /** What one AddREF expansion declares: the three reference qualifiers. */
  lemma AddRefContents(noexceptTypes: bool, con: bool, vol: bool)
    ensures forall q :: q in AddRef(noexceptTypes, con, vol) <==>
      q.isConst == con && q.isVolatile == vol && (noexceptTypes || !q.isNoexcept)
    ensures Distinct(AddRef(noexceptTypes, con, vol))
    ensures |AddRef(noexceptTypes, con, vol)| == 3 * (if noexceptTypes then 2 else 1)
  {
    AddNoexContents(noexceptTypes, con, vol, NoRef);
    AddNoexContents(noexceptTypes, con, vol, LRef);
    AddNoexContents(noexceptTypes, con, vol, RRef);
    var a := AddNoex(noexceptTypes, con, vol, NoRef);
    var b := AddNoex(noexceptTypes, con, vol, LRef);
    var c := AddNoex(noexceptTypes, con, vol, RRef);
    DistinctConcat(a, b);
    DistinctConcat(a + b, c);
  }

  /** What one AddVOL expansion declares: without and with volatile. */
  lemma AddVolContents(noexceptTypes: bool, con: bool)
    ensures forall q :: q in AddVol(noexceptTypes, con) <==> q.isConst == con && (noexceptTypes || !q.isNoexcept)
    ensures Distinct(AddVol(noexceptTypes, con))
    ensures |AddVol(noexceptTypes, con)| == 6 * (if noexceptTypes then 2 else 1)
  {
    AddRefContents(noexceptTypes, con, false);
    AddRefContents(noexceptTypes, con, true);
    DistinctConcat(AddRef(noexceptTypes, con, false), AddRef(noexceptTypes, con, true));
  }

  /** Coverage of the macro product: exactly the 2 x 2 x 3 x 2 = 24
      const/volatile/ref/noexcept combinations, or the 12 without noexcept when
      noexcept is not part of the function type, each declared once. */
  lemma MacroProductCoverage(noexceptTypes: bool)
    ensures forall q :: q in AddCon(noexceptTypes) <==> noexceptTypes || !q.isNoexcept
    ensures |AddCon(noexceptTypes)| == if noexceptTypes then 24 else 12
    ensures Distinct(AddCon(noexceptTypes))
  {
    AddVolContents(noexceptTypes, false);
    AddVolContents(noexceptTypes, true);
    DistinctConcat(AddVol(noexceptTypes, false), AddVol(noexceptTypes, true));
  }

  /** One written-out block holds each const/volatile/ref combination once. */
  lemma WrittenOutBlockContents(nx: bool)
    ensures forall q :: q in WrittenOutBlock(nx) <==> q.isNoexcept == nx
    ensures |WrittenOutBlock(nx)| == 12
  {
    var b := WrittenOutBlock(nx);
    forall q | q in b ensures q.isNoexcept == nx {
      var i :| 0 <= i < |b| && b[i] == q;
    }
    forall q: Quals | q.isNoexcept == nx ensures q in b {
      var base := match q.ref case NoRef => 0 case LRef => 4 case RRef => 8;
      var k := base + (if q.isConst then 1 else 0) + (if q.isVolatile then 2 else 0);
      assert b[k] == q;
    }
  }

  /** The hand-written lists of return_type and ExtractDerivedFnTraits cover
      exactly the macro product's qualifiers. */
  lemma WrittenOutMatchesMacroProduct(noexceptTypes: bool)
    ensures forall q :: q in WrittenOutQuals(noexceptTypes) <==> q in AddCon(noexceptTypes)
    ensures |WrittenOutQuals(noexceptTypes)| == |AddCon(noexceptTypes)|
  {
    MacroProductCoverage(noexceptTypes);
    WrittenOutBlockContents(false);
    WrittenOutBlockContents(true);
  }

  /** The written-out qualifiers are those of the macro product. */
  lemma WrittenOutQualsContents(noexceptTypes: bool)
    ensures forall q :: q in WrittenOutQuals(noexceptTypes) <==> noexceptTypes || !q.isNoexcept
  {
    WrittenOutBlockContents(false);
    WrittenOutBlockContents(true);
  }

  /** The return_type table built from any qualifier list with the macro
      product's contents: both free forms without noexcept, every such member
      form with and without varargs. */
  lemma FormsContents(noexceptTypes: bool, w: seq<Quals>)
    requires forall q :: q in w <==> noexceptTypes || !q.isNoexcept
    ensures forall sh ::
      (sh in [FreeShape(false, false), FreeShape(true, false)] + MemberShapes(false, w) + MemberShapes(true, w)) <==>
      (sh.FreeShape? && !sh.noexcept) || (sh.MemberShape? && (noexceptTypes || !sh.quals.isNoexcept))
  {
  }

  /** The shapes return_type matches. */
  lemma ReturnTypeShapesContents(noexceptTypes: bool)
    ensures forall sh :: sh in ReturnTypeShapes(noexceptTypes) <==>
      (sh.FreeShape? && !sh.noexcept) || (sh.MemberShape? && (noexceptTypes || !sh.quals.isNoexcept))
  {
    WrittenOutQualsContents(noexceptTypes);
    FormsContents(noexceptTypes, WrittenOutQuals(noexceptTypes));
  }

  /** The shapes DropArgs and GradientDerivedFnTraits match. */
  lemma MacroShapesContents(noexceptTypes: bool)
    ensures forall sh :: sh in MacroShapes(noexceptTypes) <==>
      sh == FreeShape(false, false) || (sh.MemberShape? && !sh.variadic && (noexceptTypes || !sh.quals.isNoexcept))
  {
    MacroProductCoverage(noexceptTypes);
  }

  /** ExtractDerivedFnTraits matches the same shapes as the macro families. */
  lemma ExtractShapesContents(noexceptTypes: bool)
    ensures forall sh :: sh in ExtractShapes(noexceptTypes) <==> sh in MacroShapes(noexceptTypes)
  {
    WrittenOutMatchesMacroProduct(noexceptTypes);
    MacroShapesContents(noexceptTypes);
  }

  // ---------------------------------------------------------------------------
  // return_type
  // ---------------------------------------------------------------------------

  /** Where return_type_t<F> is defined, in closed form: every member pointer
      and every free pointer that is not `noexcept`-typed (ReturnTypeCoverage). */
  predicate HasReturnType(noexceptTypes: bool, f: Ty)
  {
    f.FnPtr? && (f.sig.Member? || ThrowingFree(noexceptTypes, f.sig))
  }

  /** return_type_t<F>: the declared return type of a function-pointer type. */
  function ReturnType(noexceptTypes: bool, f: Ty): Option<Ty>
  {
    if f.FnPtr? && Specialized(ReturnTypeShapes(noexceptTypes), noexceptTypes, f.sig)
    then Some(f.sig.ret) else None
  }

  /** return_type is defined for every free pointer that is not `noexcept`-typed,
      with or without varargs, and for every member pointer with any
      const/volatile/&/&& combination, with or without varargs; the `noexcept`
      member variants match their own specializations when the flag is on, and
      collapse onto the plain ones when it is off. It is the declared return type. */
  lemma ReturnTypeCoverage(noexceptTypes: bool, f: Ty)
    ensures ReturnType(noexceptTypes, f).Some? <==> HasReturnType(noexceptTypes, f)
    ensures ReturnType(noexceptTypes, f).Some? ==> ReturnType(noexceptTypes, f).value == f.sig.ret
  {
    if f.FnPtr? {
      ReturnTypeMatches(noexceptTypes, f.sig);
    }
  }

  /** Which signatures return_type's specializations match. */
  lemma ReturnTypeMatches(noexceptTypes: bool, s: Sig)
    ensures Specialized(ReturnTypeShapes(noexceptTypes), noexceptTypes, s) <==>
      s.Member? || ThrowingFree(noexceptTypes, s)
  {
    ReturnTypeShapesContents(noexceptTypes);
    DeclaresIsMembership(ReturnTypeShapes(noexceptTypes), ShapeOf(TypeOf(noexceptTypes, s)));
  }

  // ---------------------------------------------------------------------------
  // IndexSequence, MergeAndRemember, MakeIndexSequence
  // ---------------------------------------------------------------------------

  /** MergeAndRemember<IndexSequence<I1...>, IndexSequence<I2...>>: the first
      sequence followed by the second with every element shifted by |I1|. */
  function MergeAndRemember(a: seq<nat>, b: seq<nat>): (r: seq<nat>)
    ensures |r| == |a| + |b| && r[..|a|] == a
    ensures forall i :: 0 <= i < |b| ==> r[|a| + i] == |a| + b[i]
  {
    a + seq(|b|, i requires 0 <= i < |b| => |a| + b[i])
  }

  /** MakeIndexSequence<N>: built by splitting N into N/2 and N - N/2 and
      merging; the base cases are 0 and 1. It is exactly 0, 1, ..., N-1. */
  function MakeIndexSequence(n: nat): (r: seq<nat>)
    ensures |r| == n
    ensures forall i :: 0 <= i < n ==> r[i] == i
  {
    if n == 0 then []
    else if n == 1 then [0]
    else MergeAndRemember(MakeIndexSequence(n / 2), MakeIndexSequence(n - n / 2))
  }

  // ---------------------------------------------------------------------------
  // Drop_t and DropArgs
  // ---------------------------------------------------------------------------

  /** wrapRest<Idx...>(wrap<T>{}...): one placeholder parameter per index takes
      the first arguments; the remaining types are deduced as Rest. It fails to
      match when there are fewer types than placeholders. */
  function WrapRest(placeholders: nat, ts: seq<Ty>): Option<seq<Ty>>
  {
    if placeholders <= |ts| then Some(ts[placeholders..]) else None
  }

  /** Drop_t<N, T...>: defined exactly when N <= |T|, and then the types after the first N. */
  function DropT(n: nat, ts: seq<Ty>): (r: Option<seq<Ty>>)
    ensures r.Some? <==> n <= |ts|
    ensures r.Some? ==> r.value == ts[n..] && ts == ts[..n] + r.value
  {
    WrapRest(|MakeIndexSequence(n)|, ts)
  }

  /** DropArgs_t<N, F>: the parameters of F after the first N. */
  function DropArgs(noexceptTypes: bool, n: nat, f: Ty): Option<seq<Ty>>
  {
    if f.FnPtr? && Specialized(MacroShapes(noexceptTypes), noexceptTypes, f.sig)
    then DropT(n, f.sig.params) else None
  }

  /** Which types the macro-generated families (DropArgs, GradientDerivedFnTraits)
      match: every non-variadic member pointer, and the non-variadic free pointer
      that is not `noexcept`-typed. */
  lemma MacroShapesCoverage(noexceptTypes: bool, s: Sig)
    ensures Specialized(MacroShapes(noexceptTypes), noexceptTypes, s) <==>
      !s.variadic && (s.Member? || ThrowingFree(noexceptTypes, s))
  {
    MacroShapesContents(noexceptTypes);
    DeclaresIsMembership(MacroShapes(noexceptTypes), ShapeOf(TypeOf(noexceptTypes, s)));
  }

  /** DropArgs is defined for non-variadic shapes only (the `var` macro argument
      is never used), and then exactly when N does not exceed the parameter
      count; it yields the parameters after the first N whatever the receiver class. */
  lemma DropArgsCoverage(noexceptTypes: bool, n: nat, f: Ty)
    ensures DropArgs(noexceptTypes, n, f).Some? <==>
      f.FnPtr? && !f.sig.variadic && (f.sig.Member? || ThrowingFree(noexceptTypes, f.sig))
      && n <= |f.sig.params|
    ensures DropArgs(noexceptTypes, n, f).Some? ==>
      DropArgs(noexceptTypes, n, f).value == f.sig.params[n..]
  {
    if f.FnPtr? {
      MacroShapesCoverage(noexceptTypes, f.sig);
    }
  }

  /** The receiver class takes no part in DropArgs. */
  lemma DropArgsIgnoresReceiver(noexceptTypes: bool, n: nat, r: Ty, c1: Ty, c2: Ty,
                                ps: seq<Ty>, v: bool, q: Quals)
    ensures DropArgs(noexceptTypes, n, FnPtr(Member(r, c1, ps, v, q)))
         == DropArgs(noexceptTypes, n, FnPtr(Member(r, c2, ps, v, q)))
  {
    MacroShapesCoverage(noexceptTypes, Member(r, c1, ps, v, q));
    MacroShapesCoverage(noexceptTypes, Member(r, c2, ps, v, q));
  }

  /** Every type DropArgs covers also has a return_type. */
  lemma DropArgsHasReturnType(noexceptTypes: bool, n: nat, f: Ty)
    requires DropArgs(noexceptTypes, n, f).Some?
    ensures ReturnType(noexceptTypes, f) == Some(f.sig.ret)
  {
    DropArgsCoverage(noexceptTypes, n, f);
    ReturnTypeCoverage(noexceptTypes, f);
  }

  // ---------------------------------------------------------------------------
  // OutputParamType and GradientDerivedFnTraits
  // ---------------------------------------------------------------------------

  /** OutputParamType_t<T, R>: R*, whatever T is. */
  function OutputParamType(t: Ty, r: Ty): Ty
  {
    Ptr(r)
  }

  /** OutputParamType_t<Args, R>...: one output parameter per parameter. */
  function OutputParams(args: seq<Ty>, r: Ty): seq<Ty>
  {
    seq(|args|, i requires 0 <= i < |args| => OutputParamType(args[i], r))
  }

  /** The type one GradientDerivedFnTraits specialization names. */
  function GradientSig(s: Sig): Sig
  {
    match s
    case Free(r, args, _, _) => Free(Void, args + OutputParams(args, r), false, false)
    case Member(r, c, args, _, q) => Member(Void, c, args + OutputParams(args, r), false, q)
  }

  /** GradientDerivedFnTraits_t<F>: `void (*)(Args..., R*...)` for a free
      pointer, `void (C::*)(Args..., R*...) quals` for a member pointer. */
  function GradientDerivedFnTraits(noexceptTypes: bool, f: Ty): Option<Ty>
  {
    if f.FnPtr? && Specialized(MacroShapes(noexceptTypes), noexceptTypes, f.sig)
    then Some(FnPtr(GradientSig(TypeOf(noexceptTypes, f.sig)))) else None
  }

  /** The gradient transform exists for the non-variadic free pointer that is not
      `noexcept`-typed (there is no free noexcept case) and for every non-variadic
      member pointer, i.e. the 24 (or 12) macro-generated qualifier combinations. */
  lemma GradientCoverage(noexceptTypes: bool, f: Ty)
    ensures GradientDerivedFnTraits(noexceptTypes, f).Some? <==>
      f.FnPtr? && !f.sig.variadic && (f.sig.Member? || ThrowingFree(noexceptTypes, f.sig))
  {
    if f.FnPtr? {
      MacroShapesCoverage(noexceptTypes, f.sig);
    }
  }

  /** What one gradient specialization spells out, for any signature. */
  lemma GradientSigShape(t: Sig)
    ensures var g := GradientSig(t);
      && g.ret == Void && !g.variadic && g.Member? == t.Member?
      && |g.params| == 2 * |t.params|
      && g.params[..|t.params|] == t.params
      && (forall i :: |t.params| <= i < |g.params| ==> g.params[i] == Ptr(t.ret))
      && (t.Member? ==> g.cls == t.cls && g.quals == t.quals)
      && (t.Free? ==> !g.noexcept)
  {
  }

  /** Shape of the gradient type: void-returning, non-variadic, the original
      parameters followed by one `R*` per parameter, so twice as many; member
      pointers keep their class and their cv, ref and noexcept qualifiers. */
  lemma GradientShape(noexceptTypes: bool, f: Ty)
    requires GradientDerivedFnTraits(noexceptTypes, f).Some?
    ensures f.FnPtr? && GradientDerivedFnTraits(noexceptTypes, f).value.FnPtr?
    ensures var s := f.sig; var g := GradientDerivedFnTraits(noexceptTypes, f).value.sig;
      && g.ret == Void && !g.variadic && g.Member? == s.Member?
      && |g.params| == 2 * |s.params|
      && g.params[..|s.params|] == s.params
      && (forall i :: |s.params| <= i < |g.params| ==> g.params[i] == Ptr(s.ret))
      && (s.Member? ==> g.cls == s.cls && g.quals == TypeOf(noexceptTypes, s).quals)
      && (s.Free? ==> !g.noexcept)
  {
    GradientSigShape(TypeOf(noexceptTypes, f.sig));
  }

  /** For a plain free function pointer `R (*)(Args...)` the gradient type is
      exactly `void (*)(Args..., R*...)`. */
  lemma GradientOfFree(noexceptTypes: bool, r: Ty, params: seq<Ty>)
    ensures GradientDerivedFnTraits(noexceptTypes, FnPtr(Free(r, params, false, false))) ==
      Some(FnPtr(Free(Void, params + OutputParams(params, r), false, false)))
  {
    GradientCoverage(noexceptTypes, FnPtr(Free(r, params, false, false)));
  }

  // ---------------------------------------------------------------------------
  // ExtractDerivedFnTraits
  // ---------------------------------------------------------------------------

  /** The type one ExtractDerivedFnTraits specialization names. */
  function ExtractSig(s: Sig): Sig
  {
    match s
    case Free(r, args, _, _) => Free(Void, args + [Ptr(r)], false, false)
    case Member(r, c, args, _, q) => Member(Void, c, args + [Ptr(r)], false, q)
  }

  /** ExtractDerivedFnTraits_t<F>: `void (*)(Args..., R*)` for a free pointer,
      `void (C::*)(Args..., R*) quals` for a member pointer. */
  function ExtractDerivedFnTraits(noexceptTypes: bool, f: Ty): Option<Ty>
  {
    if f.FnPtr? && Specialized(ExtractShapes(noexceptTypes), noexceptTypes, f.sig)
    then Some(FnPtr(ExtractSig(TypeOf(noexceptTypes, f.sig)))) else None
  }

  /** The extract transform has no variadic specialization, neither free nor
      member, and no free noexcept one; every other member pointer is covered. */
  lemma ExtractCoverage(noexceptTypes: bool, f: Ty)
    ensures ExtractDerivedFnTraits(noexceptTypes, f).Some? <==>
      f.FnPtr? && !f.sig.variadic && (f.sig.Member? || ThrowingFree(noexceptTypes, f.sig))
  {
    if f.FnPtr? {
      ExtractShapesContents(noexceptTypes);
      MacroShapesCoverage(noexceptTypes, f.sig);
      DeclaresIsMembership(ExtractShapes(noexceptTypes), ShapeOf(TypeOf(noexceptTypes, f.sig)));
      DeclaresIsMembership(MacroShapes(noexceptTypes), ShapeOf(TypeOf(noexceptTypes, f.sig)));
    }
  }

  /** Shape of the extract type: void-returning, the original parameters
      followed by the single `R*`, and every member qualifier preserved. */
  lemma ExtractShape(noexceptTypes: bool, f: Ty)
    requires ExtractDerivedFnTraits(noexceptTypes, f).Some?
    ensures f.FnPtr? && ExtractDerivedFnTraits(noexceptTypes, f).value.FnPtr?
    ensures var s := f.sig; var e := ExtractDerivedFnTraits(noexceptTypes, f).value.sig;
      && e.ret == Void && !e.variadic && e.Member? == s.Member?
      && e.params == s.params + [Ptr(s.ret)]
      && |e.params| == |s.params| + 1
      && (s.Member? ==> e.cls == s.cls && e.quals == TypeOf(noexceptTypes, s).quals)
      && (s.Free? ==> !e.noexcept)
  {
  }

  /** The gaps: a variadic signature has a return type but no DropArgs, no
      gradient and no extract type. */
  lemma VariadicNotTransformed(noexceptTypes: bool, f: Ty, n: nat)
    requires f.FnPtr? && f.sig.variadic
    ensures ReturnType(noexceptTypes, f) == (if f.sig.Member? || ThrowingFree(noexceptTypes, f.sig) then Some(f.sig.ret) else None)
    ensures DropArgs(noexceptTypes, n, f).None?
    ensures GradientDerivedFnTraits(noexceptTypes, f).None?
    ensures ExtractDerivedFnTraits(noexceptTypes, f).None?
  {
    ReturnTypeCoverage(noexceptTypes, f);
    DropArgsCoverage(noexceptTypes, n, f);
    GradientCoverage(noexceptTypes, f);
    ExtractCoverage(noexceptTypes, f);
  }
}
