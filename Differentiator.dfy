/** The runtime layer of clad's header (Differentiator.h): C-string length,
    the reverse-mode tape operations, argument padding for partial calls, the
    CladFunction handle and the request entry points. */
module Differentiator {
  import opened Wrappers
  import opened FunctionTraits

  // ---------------------------------------------------------------------------
  // C strings and GetLength
  // ---------------------------------------------------------------------------

  /** The characters hold a terminating NUL somewhere. */
  predicate HasNul(s: seq<char>)
  {
    exists i :: 0 <= i < |s| && s[i] == '\0'
  }

  lemma HasNulTail(s: seq<char>)
    requires HasNul(s) && s[0] != '\0'
    ensures HasNul(s[1..])
  {
    var i :| 0 <= i < |s| && s[i] == '\0';
    assert s[1..][i - 1] == '\0';
  }

  /** strlen: the index of the first NUL. */
  function Strlen(s: seq<char>): (n: nat)
    requires HasNul(s)
    ensures n < |s| && s[n] == '\0'
    ensures forall i :: 0 <= i < n ==> s[i] != '\0'
  {
    if s[0] == '\0' then 0
    else
      HasNulTail(s);
      Strlen(s[1..]) + 1
  }

  /** The text of a C string: the characters before the first NUL. */
  function CText(s: seq<char>): (t: string)
    requires HasNul(s)
    ensures |t| == Strlen(s) && t + ['\0'] == s[..Strlen(s) + 1]
    ensures '\0' !in t
  {
    s[..Strlen(s)]
  }

  /** 2^32: one more than the largest `unsigned int`. */
  const UintModulus: nat := 0x1_0000_0000

  /** GetLength with the count held in an unbounded integer: the number of
      characters before the first NUL. The ctor below uses this one. */
  method GetLength(code: array<char>) returns (count: nat)
    requires HasNul(code[..])
    ensures count == Strlen(code[..])
  {
    count := 0;
    while code[count] != '\0'
      invariant count <= Strlen(code[..])
      decreases Strlen(code[..]) - count
    {
      count := count + 1;
    }
  }

  /** Counting modulo 2^32 one step at a time tracks the true count modulo 2^32. */
  lemma WrappingIncrement(n: nat)
    ensures (n % UintModulus + 1) % UintModulus == (n + 1) % UintModulus
  {
    var q := n / UintModulus;
    assert n == q * UintModulus + n % UintModulus;
    if n % UintModulus + 1 == UintModulus {
      assert n + 1 == (q + 1) * UintModulus;
    } else {
      assert n + 1 == q * UintModulus + (n % UintModulus + 1);
    }
  }

  /** GetLength as written: the CUDA loop advances a pointer and counts in an
      `unsigned int`, and the other branch truncates strlen's size_t to it, so
      both give the length modulo 2^32. */
  method GetLengthAsWritten(code: array<char>) returns (count: nat)
    requires HasNul(code[..])
    ensures count < UintModulus
    ensures count == Strlen(code[..]) % UintModulus
  {
    count := 0;
    var copy := 0;  // code_copy - code
    while code[copy] != '\0'
      invariant copy <= Strlen(code[..])
      invariant count == copy % UintModulus
      decreases Strlen(code[..]) - copy
    {
      WrappingIncrement(copy);
      count := (count + 1) % UintModulus;
      copy := copy + 1;
    }
  }

  /** The as-written constructor allocates GetLength() + 1 characters, the
      wrapped length, and then copies all Strlen + 1 characters into them: it
      writes past the buffer whenever the wrapped length is non-zero but short. */
  predicate CopyOverruns(s: seq<char>)
    requires HasNul(s)
  {
    var wrapped := Strlen(s) % UintModulus;
    0 < wrapped && wrapped < Strlen(s)
  }

  /** A code string of 2^32 + 1 characters: the as-written constructor
      allocates 2 characters and copies 2^32 + 2 into them. */
  lemma OverrunForLongCode()
    ensures var s := seq(UintModulus + 1, _ => 'a') + ['\0'];
      HasNul(s) && Strlen(s) == UintModulus + 1 && Strlen(s) % UintModulus + 1 == 2 && CopyOverruns(s)
  {
    var s := seq(UintModulus + 1, _ => 'a') + ['\0'];
    assert s[UintModulus + 1] == '\0';
  }

  /** A code string of 2^32 characters is reported as empty by the as-written
      GetLength, so the handle built from it is marked invalid. */
  lemma LengthWrapsForFourGiBCode()
    ensures var s := seq(UintModulus, _ => 'a') + ['\0'];
      HasNul(s) && Strlen(s) == UintModulus && Strlen(s) % UintModulus == 0
  {
    var s := seq(UintModulus, _ => 'a') + ['\0'];
    assert s[UintModulus] == '\0';
  }

  // ---------------------------------------------------------------------------
  // The tape
  // ---------------------------------------------------------------------------

  /** tape<T>: a growable sequence of values; its storage policy is not modelled. */
  class Tape<T> {
    var contents: seq<T>

    constructor ()
      ensures contents == []
    {
      contents := [];
    }
  }

  /** push: append the value at the end and return it. */
  method Push<T>(to: Tape<T>, val: T) returns (r: T)
    modifies to
    ensures to.contents == old(to.contents) + [val]
    ensures r == val
  {
    to.contents := to.contents + [val];
    r := val;
  }

  /** pop: remove the last value and return it. An empty tape is a caller error. */
  method Pop<T>(to: Tape<T>) returns (r: T)
    requires to.contents != []
    modifies to
    ensures r == old(to.contents)[|old(to.contents)| - 1]
    ensures to.contents == old(to.contents)[..|old(to.contents)| - 1]
  {
    r := to.contents[|to.contents| - 1];
    to.contents := to.contents[..|to.contents| - 1];
  }

  /** back: the last value; the tape is left as it is. */
  method Back<T>(tape: Tape<T>) returns (r: T)
    requires tape.contents != []
    ensures r == tape.contents[|tape.contents| - 1]
  {
    r := tape.contents[|tape.contents| - 1];
  }

  /** Values pushed on a forward sweep come back in reverse order on the
      reverse sweep, and the tape ends as it started. */
  method LifoOrder<T>(t: Tape<T>, v1: T, v2: T, v3: T) returns (a: T, b: T, c: T)
    modifies t
    ensures [a, b, c] == [v3, v2, v1]
    ensures t.contents == old(t.contents)
  {
    var _ := Push(t, v1);
    var _ := Push(t, v2);
    var _ := Push(t, v3);
    a := Pop(t);
    b := Pop(t);
    c := Pop(t);
  }

  // ---------------------------------------------------------------------------
  // Calls, padding and execute_helper
  // ---------------------------------------------------------------------------

  /** A run-time argument or result. Arithmetic values are abstracted to reals. */
  datatype Value =
    | Number(x: real)
    | Address(loc: nat)
    | Null
    | Object(id: nat)
    | NoValue             // the result of a void function

  /** static_cast<T>(0): zero for arithmetic types, nullptr for pointers. */
  function ZeroOf(t: Ty): Value
  {
    match t
    case Named(_) => Number(0.0)
    case Void => NoValue
    case Ptr(_) => Null
    case FnPtr(_) => Null
  }

  /** One zero per type, in order. */
  function Zeros(rest: seq<Ty>): (z: seq<Value>)
    ensures |z| == |rest|
    ensures forall i :: 0 <= i < |rest| ==> z[i] == ZeroOf(rest[i])
  {
    seq(|rest|, i requires 0 <= i < |rest| => ZeroOf(rest[i]))
  }

  /** A call as the callee receives it: the receiver object of a member call
      (`(obj.*f)(...)`) and the argument list. */
  datatype Call = Call(receiver: Option<Value>, args: seq<Value>)

  /** A generated derivative: a function of the call it receives. */
  type Body = Call -> Value

  /** pad_and_execute(list<Rest...>, f, [obj,] args...): the call it issues,
      `args..., static_cast<Rest>(0)...`. */
  function PadAndExecute(rest: seq<Ty>, receiver: Option<Value>, args: seq<Value>): (c: Call)
    ensures c.receiver == receiver
    ensures |c.args| == |args| + |rest| && c.args[..|args|] == args
    ensures forall i :: 0 <= i < |rest| ==> c.args[|args| + i] == ZeroOf(rest[i])
  {
    Call(receiver, args + Zeros(rest))
  }

  /** execute_helper(f, args...): the call it makes, or None where the C++ is
      ill-formed. For a member pointer the first argument is the object: the
      call target, not counted among the arguments handed to DropArgs. */
  function ExecuteHelper(noexceptTypes: bool, f: Ty, args: seq<Value>): Option<Call>
  {
    if f.FnPtr? && f.sig.Member? then
      if |args| == 0 then None
      else match DropArgs(noexceptTypes, |args| - 1, f)
        case None => None
        case Some(rest) => Some(PadAndExecute(rest, Some(args[0]), args[1..]))
    else
      match DropArgs(noexceptTypes, |args|, f)
      case None => None
      case Some(rest) => Some(PadAndExecute(rest, None, args))
  }

  /** The arguments the caller supplies for the parameters. */
  function Supplied(s: Sig, args: seq<Value>): seq<Value>
    requires s.Member? ==> |args| > 0
  {
    if s.Member? then args[1..] else args
  }

  /** execute_helper is well-formed exactly for a non-variadic function pointer
      that DropArgs covers, called with at most as many arguments as it has
      parameters (plus the object for a member). */
  lemma ExecuteHelperDefined(noexceptTypes: bool, f: Ty, args: seq<Value>)
    ensures ExecuteHelper(noexceptTypes, f, args).Some? <==>
      f.FnPtr? && !f.sig.variadic && (f.sig.Member? || ThrowingFree(noexceptTypes, f.sig))
      && (if f.sig.Member? then 0 < |args| <= |f.sig.params| + 1 else |args| <= |f.sig.params|)
  {
    if f.FnPtr? && f.sig.Member? && |args| > 0 {
      DropArgsCoverage(noexceptTypes, |args| - 1, f);
    } else if f.FnPtr? && f.sig.Free? {
      DropArgsCoverage(noexceptTypes, |args|, f);
    }
  }

  /** A well-formed execute_helper issues pad_and_execute over the parameters
      after the supplied ones. */
  lemma ExecuteHelperIsPadding(noexceptTypes: bool, f: Ty, args: seq<Value>)
    requires f.FnPtr? && ExecuteHelper(noexceptTypes, f, args).Some?
    ensures f.sig.Member? ==> |args| > 0
    ensures |Supplied(f.sig, args)| <= |f.sig.params|
    ensures ExecuteHelper(noexceptTypes, f, args).value ==
      PadAndExecute(f.sig.params[|Supplied(f.sig, args)|..],
                    if f.sig.Member? then Some(args[0]) else None, Supplied(f.sig, args))
  {
    if f.sig.Member? {
      DropArgsCoverage(noexceptTypes, |args| - 1, f);
    } else {
      DropArgsCoverage(noexceptTypes, |args|, f);
    }
  }

  /** A well-formed execute_helper calls f with the supplied arguments followed
      by one zero per omitted trailing parameter: exactly |params| arguments,
      and the object, for a member, as the call target. */
  lemma ExecuteHelperPads(noexceptTypes: bool, f: Ty, args: seq<Value>)
    requires f.FnPtr? && ExecuteHelper(noexceptTypes, f, args).Some?
    ensures f.sig.Member? ==> |args| > 0
    ensures var s := f.sig;
      var c := ExecuteHelper(noexceptTypes, f, args).value;
      var given := Supplied(s, args);
      && c.receiver == (if s.Member? then Some(args[0]) else None)
      && |c.args| == |s.params|
      && c.args[..|given|] == given
      && forall i :: |given| <= i < |s.params| ==> c.args[i] == ZeroOf(s.params[i])
  {
    ExecuteHelperIsPadding(noexceptTypes, f, args);
    var given := Supplied(f.sig, args);
    PaddedCall(f.sig.params, if f.sig.Member? then Some(args[0]) else None, given);
  }

  /** Padding the supplied prefix of a parameter list to its full length. */
  lemma PaddedCall(params: seq<Ty>, receiver: Option<Value>, given: seq<Value>)
    requires |given| <= |params|
    ensures var c := PadAndExecute(params[|given|..], receiver, given);
      && c.receiver == receiver
      && |c.args| == |params|
      && c.args[..|given|] == given
      && forall i :: |given| <= i < |params| ==> c.args[i] == ZeroOf(params[i])
  {
    var k := |given|;
    var rest := params[k..];
    var c := PadAndExecute(rest, receiver, given);
    forall i | k <= i < |params| ensures c.args[i] == ZeroOf(params[i]) {
      var j := i - k;
      assert rest[j] == params[i];
      assert c.args[k + j] == ZeroOf(rest[j]);
    }
  }

  /** A call to a non-variadic, non-noexcept free function with the first
      |args| arguments supplied: the rest are zeros. */
  lemma FreeCallPads(noexceptTypes: bool, r: Ty, params: seq<Ty>, args: seq<Value>)
    requires |args| <= |params|
    ensures ExecuteHelper(noexceptTypes, FnPtr(Free(r, params, false, false)), args) ==
      Some(Call(None, args + Zeros(params[|args|..])))
  {
    DropArgsCoverage(noexceptTypes, |args|, FnPtr(Free(r, params, false, false)));
  }

  /** The padding example of the header: fn_grad(double i, double j, int k,
      int l) called with 1.0 and 2.0 receives (1.0, 2.0, 0, 0); any arithmetic
      types and values stand for double, int, 1.0 and 2.0. */
  lemma FnGradPaddingExample(noexceptTypes: bool, dbl: Ty, integer: Ty, x: real, y: real)
    requires dbl.Named? && integer.Named?
    ensures ExecuteHelper(noexceptTypes, FnPtr(Free(dbl, [dbl, dbl, integer, integer], false, false)),
                          [Number(x), Number(y)]) ==
      Some(Call(None, [Number(x), Number(y), Number(0.0), Number(0.0)]))
  {
    var ps := [dbl, dbl, integer, integer];
    var args := [Number(x), Number(y)];
    FreeCallPads(noexceptTypes, dbl, ps, args);
    assert ps[2..] == [integer, integer];
    var z := Zeros([integer, integer]);
    assert z[0] == Number(0.0) && z[1] == Number(0.0);
    assert args + z == [Number(x), Number(y), Number(0.0), Number(0.0)];
  }

  /** One `R*` output parameter for each of two parameters. */
  lemma OutputParamsOfPair(a: Ty, b: Ty, r: Ty)
    ensures [a, b] + OutputParams([a, b], r) == [a, b, Ptr(r), Ptr(r)]
  {
    var outs := OutputParams([a, b], r);
    assert outs[0] == Ptr(r) && outs[1] == Ptr(r);
  }

  /** The gradient type of `R (*)(A, B)` is `void (*)(A, B, R*, R*)`. */
  lemma GradientOfPair(noexceptTypes: bool, r: Ty, a: Ty, b: Ty)
    ensures GradientDerivedFnTraits(noexceptTypes, FnPtr(Free(r, [a, b], false, false))) ==
      Some(FnPtr(Free(Void, [a, b, Ptr(r), Ptr(r)], false, false)))
  {
    GradientOfFree(noexceptTypes, r, [a, b]);
    OutputParamsOfPair(a, b, r);
  }

  /** Executing `void (*)(double, double, double*, double*)` with two values
      forwards them followed by two null pointers; `out` stands for double*. */
  lemma TwoNullOutputs(noexceptTypes: bool, ret: Ty, dbl: Ty, out: Ty, x: real, y: real)
    requires out.Ptr?
    ensures ExecuteHelper(noexceptTypes, FnPtr(Free(ret, [dbl, dbl, out, out], false, false)),
                          [Number(x), Number(y)]) ==
      Some(Call(None, [Number(x), Number(y), Null, Null]))
  {
    var ps := [dbl, dbl, out, out];
    var args := [Number(x), Number(y)];
    FreeCallPads(noexceptTypes, ret, ps, args);
    assert ps[2..] == [out, out];
    var z := Zeros([out, out]);
    assert z[0] == Null && z[1] == Null;
    assert args + z == [Number(x), Number(y), Null, Null];
  }

  /** The gradient of `double (*)(double, double)`, executed with two values,
      receives them followed by two null output pointers. */
  lemma GradientExecutionExample(noexceptTypes: bool, dbl: Ty, x: real, y: real)
    requires dbl.Named?
    ensures var g := GradientDerivedFnTraits(noexceptTypes, FnPtr(Free(dbl, [dbl, dbl], false, false)));
      g.Some? && ExecuteHelper(noexceptTypes, g.value, [Number(x), Number(y)]) ==
        Some(Call(None, [Number(x), Number(y), Null, Null]))
  {
    GradientOfPair(noexceptTypes, dbl, dbl, dbl);
    TwoNullOutputs(noexceptTypes, Void, dbl, Ptr(dbl), x, y);
  }

  /** Appending arguments appends them to the supplied ones; the object stays. */
  lemma SuppliedAppend(s: Sig, args: seq<Value>, more: seq<Value>)
    requires s.Member? ==> |args| > 0
    ensures Supplied(s, args + more) == Supplied(s, args) + more
    ensures s.Member? ==> (args + more)[0] == args[0]
  {
    if s.Member? {
      assert (args + more)[1..] == args[1..] + more;
    }
  }

  /** Supplying the zeros by hand leaves nothing to pad and issues the same call. */
  lemma PaddingByHand(params: seq<Ty>, receiver: Option<Value>, given: seq<Value>)
    requires |given| <= |params|
    ensures var full := given + Zeros(params[|given|..]);
      |full| == |params| &&
      PadAndExecute(params[|full|..], receiver, full) == PadAndExecute(params[|given|..], receiver, given)
  {
    var full := given + Zeros(params[|given|..]);
    assert Zeros(params[|full|..]) == [];
    assert full + [] == full;
  }

  /** Omitting trailing arguments is the same as passing explicit zeros for them. */
  lemma OmittedEqualsExplicitZeros(noexceptTypes: bool, f: Ty, args: seq<Value>)
    requires f.FnPtr? && ExecuteHelper(noexceptTypes, f, args).Some?
    ensures var s := f.sig; var k := |Supplied(s, args)|;
      ExecuteHelper(noexceptTypes, f, args + Zeros(s.params[k..])) == ExecuteHelper(noexceptTypes, f, args)
  {
    var s := f.sig;
    ExecuteHelperIsPadding(noexceptTypes, f, args);
    var given := Supplied(s, args);
    var pad := Zeros(s.params[|given|..]);
    SuppliedAppend(s, args, pad);
    ExecuteHelperDefined(noexceptTypes, f, args);
    ExecuteHelperDefined(noexceptTypes, f, args + pad);
    ExecuteHelperIsPadding(noexceptTypes, f, args + pad);
    PaddingByHand(s.params, if s.Member? then Some(args[0]) else None, given);
  }

  // ---------------------------------------------------------------------------
  // CladFunction
  // ---------------------------------------------------------------------------

  /** The constructor's `assert(f && ...)`: the callable is non-null. */
  predicate AssertAsWritten(f: Option<Body>)
  {
    f.Some?
  }

  /** What the constructor can accept: a non-null callable whenever there is
      code to place; with empty code (clad disabled or failed) a null callable
      is diagnosed, not refused. */
  predicate CtorAccepts(f: Option<Body>, src: seq<char>)
    requires HasNul(src)
  {
    f.Some? || Strlen(src) == 0
  }

  /** The entry points' defaults when clad did not run: `derivedFn` is nullptr
      and `code` is "". The as-written assert refuses them; the corrected
      precondition admits them. */
  lemma DisabledRequestTripsAssert()
    ensures var code := ['\0'];
      HasNul(code) && !AssertAsWritten(None) && CtorAccepts(None, code)
  {
    var code := ['\0'];
    assert code[0] == '\0';
  }

  /** `while ((*temp++ = *code++));` into a fresh buffer of length + 1 characters. */
  method CopyCode(src: array<char>, length: nat) returns (temp: array<char>)
    requires HasNul(src[..]) && length == Strlen(src[..])
    ensures fresh(temp) && temp[..] == src[..length + 1]
  {
    temp := new char[length + 1];
    var i := 0;
    while true
      invariant i <= length
      invariant temp[..i] == src[..i]
      decreases length - i
    {
      temp[i] := src[i];
      if src[i] == '\0' {
        break;
      }
      i := i + 1;
    }
    assert i == length;
    assert temp[..] == temp[..length + 1];
  }

  /** CladFunction<F>: a derived function and a copy of its generated code. */
  class CladFunction {
    const noexceptTypes: bool
    /** CladFunctionType, the F of CladFunction<F>. */
    const fnType: Ty
    /** m_Function; None stands for nullptr. */
    var func: Option<Body>
    /** m_Code: a NUL-terminated copy of the code, or null. */
    var code: array?<char>
    /** Whether the constructor printed its "failed to place" diagnostic. */
    ghost var diagnosed: bool

    /** A function is stored exactly when a non-empty, terminated code copy is. */
    ghost predicate Valid()
      reads this, code
    {
      && HasReturnType(noexceptTypes, fnType)
      && (func.Some? <==> code != null)
      && (code != null ==> code.Length > 1 && HasNul(code[..]) && Strlen(code[..]) == code.Length - 1)
    }

    /** The state the constructor leaves from callable f and code text `text`. */
    ghost predicate BuiltFrom(f: Option<Body>, text: string)
      reads this, code
    {
      && Valid()
      && if |text| > 0 then func == f && GetCode() == text && !diagnosed
         else func.None? && code == null && diagnosed
    }

    /** CladFunction(f, code) as intended: with non-empty code the function,
        which must then be non-null, is stored and the code, terminator
        included, copied into a fresh buffer; with empty code both placeholders
        are nulled and a diagnostic is printed, whatever f is. CladFunction<F>
        declares `return_type_t<F> execute(...)`, so F must have a return type. */
    constructor (noexceptTypes: bool, fnType: Ty, f: Option<Body>, src: array<char>)
      requires HasReturnType(noexceptTypes, fnType)
      requires HasNul(src[..]) && CtorAccepts(f, src[..])
      ensures this.noexceptTypes == noexceptTypes && this.fnType == fnType
      ensures BuiltFrom(f, CText(src[..]))
      ensures code != null ==> fresh(code) && code[..] == src[..Strlen(src[..]) + 1]
    {
      this.noexceptTypes := noexceptTypes;
      this.fnType := fnType;
      var length := GetLength(src);
      if length > 0 {
        var temp := CopyCode(src, length);
        func := f;
        code := temp;
        diagnosed := false;
      } else {
        func := None;
        code := null;
        diagnosed := true;
      }
    }

    /** CladFunction(f, code) as written: `assert(f)` comes first, so a null f
        is refused even with the empty code its else branch is meant to
        diagnose; and the branch tests the `unsigned int` GetLength, so code
        whose length is a multiple of 2^32 is discarded as if empty. Code that
        would make the copy overrun its buffer is excluded. */
    constructor AsWritten(noexceptTypes: bool, fnType: Ty, f: Option<Body>, src: array<char>)
      requires HasReturnType(noexceptTypes, fnType)
      requires HasNul(src[..]) && AssertAsWritten(f) && !CopyOverruns(src[..])
      ensures this.noexceptTypes == noexceptTypes && this.fnType == fnType
      ensures BuiltFrom(f, if Strlen(src[..]) % UintModulus > 0 then CText(src[..]) else "")
      ensures code != null ==> fresh(code) && code[..] == src[..Strlen(src[..]) + 1]
    {
      this.noexceptTypes := noexceptTypes;
      this.fnType := fnType;
      var length := GetLengthAsWritten(src);
      if length > 0 {
        var temp := CopyCode(src, length);
        func := f;
        code := temp;
        diagnosed := false;
      } else {
        func := None;
        code := null;
        diagnosed := true;
      }
    }

    /** getFunctionPtr: the stored function, null exactly when the handle is invalid. */
    function GetFunctionPtr(): (r: Option<Body>)
      reads this, code
      requires Valid()
      ensures r == func
      ensures r.None? <==> code == null
    {
      func
    }

    /** execute(args...): ill-formed (None) when execute_helper is, whether or not
        the handle is valid. On an invalid handle it returns the zero of the
        return type and calls nothing; otherwise it calls the stored function
        with the call execute_helper makes. */
    function Execute(args: seq<Value>): (r: Option<Value>)
      reads this
      ensures r.Some? <==> ExecuteHelper(noexceptTypes, fnType, args).Some?
      ensures r.Some? && func.None? ==>
        ReturnType(noexceptTypes, fnType).Some? && r.value == ZeroOf(ReturnType(noexceptTypes, fnType).value)
      ensures r.Some? && func.Some? ==>
        r.value == func.value(ExecuteHelper(noexceptTypes, fnType, args).value)
    {
      match ExecuteHelper(noexceptTypes, fnType, args)
      case None => None
      case Some(call) =>
        ExecuteHelperHasReturnType(noexceptTypes, fnType, args);
        if func.None? then Some(ZeroOf(ReturnType(noexceptTypes, fnType).value))
        else Some(func.value(call))
    }

    /** getCode: the stored copy, or "<invalid>"; never empty. */
    function GetCode(): (s: string)
      reads this, code
      requires Valid()
      ensures |s| > 0
      ensures code == null ==> s == "<invalid>"
      ensures code != null ==> s + ['\0'] == code[..]
    {
      if code != null then code[..code.Length - 1] else "<invalid>"
    }
  }

  /** Whenever execute_helper is well-formed, so is return_type_t<F>. */
  lemma ExecuteHelperHasReturnType(noexceptTypes: bool, f: Ty, args: seq<Value>)
    requires ExecuteHelper(noexceptTypes, f, args).Some?
    ensures f.FnPtr? && ReturnType(noexceptTypes, f) == Some(f.sig.ret)
  {
    var k := if f.FnPtr? && f.sig.Member? then |args| - 1 else |args|;
    DropArgsHasReturnType(noexceptTypes, k, f);
  }

  /** The types gradient and hessian derive have a return type, void, so
      CladFunction can be instantiated with them. */
  lemma DerivedTypesHaveReturnType(noexceptTypes: bool, f: Ty)
    ensures GradientDerivedFnTraits(noexceptTypes, f).Some? ==>
      && HasReturnType(noexceptTypes, GradientDerivedFnTraits(noexceptTypes, f).value)
      && ReturnType(noexceptTypes, GradientDerivedFnTraits(noexceptTypes, f).value) == Some(Void)
    ensures ExtractDerivedFnTraits(noexceptTypes, f).Some? ==>
      && HasReturnType(noexceptTypes, ExtractDerivedFnTraits(noexceptTypes, f).value)
      && ReturnType(noexceptTypes, ExtractDerivedFnTraits(noexceptTypes, f).value) == Some(Void)
  {
    if GradientDerivedFnTraits(noexceptTypes, f).Some? {
      GradientShape(noexceptTypes, f);
      ReturnTypeCoverage(noexceptTypes, GradientDerivedFnTraits(noexceptTypes, f).value);
    }
    if ExtractDerivedFnTraits(noexceptTypes, f).Some? {
      ExtractShape(noexceptTypes, f);
      ReturnTypeCoverage(noexceptTypes, ExtractDerivedFnTraits(noexceptTypes, f).value);
    }
  }

  // ---------------------------------------------------------------------------
  // Entry points
  // ---------------------------------------------------------------------------

  /** The differentiation modes: differentiate, gradient, hessian, jacobian. */
  datatype Mode = ForwardMode | ReverseMode | HessianMode | JacobianMode

  /** The handle type each entry point uses by default: F itself for
      differentiate, the gradient trait for gradient, the extract trait for
      hessian. jacobian's default trait is not part of this model. */
  function DefaultHandleType(noexceptTypes: bool, m: Mode, f: Ty): Option<Ty>
    requires m != JacobianMode
  {
    match m
    case ForwardMode => Some(f)
    case ReverseMode => GradientDerivedFnTraits(noexceptTypes, f)
    case HessianMode => ExtractDerivedFnTraits(noexceptTypes, f)
  }

  /** What the default handle type is, per mode: forward keeps F; gradient and
      hessian are void-returning with 2|Args| and |Args| + 1 parameters. */
  lemma DefaultHandleTypeShape(noexceptTypes: bool, m: Mode, f: Ty)
    requires m != JacobianMode && f.FnPtr? && !f.sig.variadic
    requires f.sig.Member? || ThrowingFree(noexceptTypes, f.sig)
    ensures DefaultHandleType(noexceptTypes, m, f).Some?
    ensures var h := DefaultHandleType(noexceptTypes, m, f).value;
      && (m == ForwardMode ==> h == f)
      && (m != ForwardMode ==> h.FnPtr? && h.sig.ret == Void && h.sig.Member? == f.sig.Member?)
      && (m == ReverseMode ==> |h.sig.params| == 2 * |f.sig.params|)
      && (m == HessianMode ==> |h.sig.params| == |f.sig.params| + 1)
  {
    match m
    case ForwardMode =>
    case ReverseMode =>
      GradientCoverage(noexceptTypes, f);
      GradientShape(noexceptTypes, f);
    case HessianMode =>
      ExtractCoverage(noexceptTypes, f);
      ExtractShape(noexceptTypes, f);
  }

  /** differentiate<N>(f, args, derivedFn, code), annotated "D": asserts f and
      returns CladFunction<F>(derivedFn, code). */
  method Differentiate(noexceptTypes: bool, fnType: Ty, f: Option<Body>, derivedFn: Option<Body>,
                       code: array<char>) returns (h: CladFunction)
    requires f.Some? && ReturnType(noexceptTypes, fnType).Some?
    requires HasNul(code[..]) && CtorAccepts(derivedFn, code[..])
    ensures fresh(h) && h.noexceptTypes == noexceptTypes
    ensures Some(h.fnType) == DefaultHandleType(noexceptTypes, ForwardMode, fnType)
    ensures h.BuiltFrom(derivedFn, CText(code[..]))
    ensures h.code != null ==> fresh(h.code) && h.code[..] == code[..Strlen(code[..]) + 1]
  {
    ReturnTypeCoverage(noexceptTypes, fnType);
    h := new CladFunction(noexceptTypes, fnType, derivedFn, code);
  }

  /** gradient(f, args, derivedFn, code), annotated "G": the handle has the
      gradient type of F. */
  method Gradient(noexceptTypes: bool, fnType: Ty, f: Option<Body>, derivedFn: Option<Body>,
                  code: array<char>) returns (h: CladFunction)
    requires f.Some?
    requires HasNul(code[..]) && CtorAccepts(derivedFn, code[..])
    requires GradientDerivedFnTraits(noexceptTypes, fnType).Some?
    ensures fresh(h) && h.noexceptTypes == noexceptTypes
    ensures Some(h.fnType) == DefaultHandleType(noexceptTypes, ReverseMode, fnType)
    ensures h.BuiltFrom(derivedFn, CText(code[..]))
    ensures h.code != null ==> fresh(h.code) && h.code[..] == code[..Strlen(code[..]) + 1]
  {
    DerivedTypesHaveReturnType(noexceptTypes, fnType);
    h := new CladFunction(noexceptTypes, GradientDerivedFnTraits(noexceptTypes, fnType).value, derivedFn, code);
  }

  /** hessian(f, args, derivedFn, code), annotated "H": the handle has the
      extract type of F. */
  method Hessian(noexceptTypes: bool, fnType: Ty, f: Option<Body>, derivedFn: Option<Body>,
                 code: array<char>) returns (h: CladFunction)
    requires f.Some?
    requires HasNul(code[..]) && CtorAccepts(derivedFn, code[..])
    requires ExtractDerivedFnTraits(noexceptTypes, fnType).Some?
    ensures fresh(h) && h.noexceptTypes == noexceptTypes
    ensures Some(h.fnType) == DefaultHandleType(noexceptTypes, HessianMode, fnType)
    ensures h.BuiltFrom(derivedFn, CText(code[..]))
    ensures h.code != null ==> fresh(h.code) && h.code[..] == code[..Strlen(code[..]) + 1]
  {
    DerivedTypesHaveReturnType(noexceptTypes, fnType);
    h := new CladFunction(noexceptTypes, ExtractDerivedFnTraits(noexceptTypes, fnType).value, derivedFn, code);
  }

  /** jacobian(f, args, derivedFn, code), annotated "J": the handle type is the
      derived type the caller names. */
  method Jacobian(noexceptTypes: bool, derivedType: Ty, f: Option<Body>, derivedFn: Option<Body>,
                  code: array<char>) returns (h: CladFunction)
    requires f.Some? && ReturnType(noexceptTypes, derivedType).Some?
    requires HasNul(code[..]) && CtorAccepts(derivedFn, code[..])
    ensures fresh(h) && h.noexceptTypes == noexceptTypes && h.fnType == derivedType
    ensures h.BuiltFrom(derivedFn, CText(code[..]))
    ensures h.code != null ==> fresh(h.code) && h.code[..] == code[..Strlen(code[..]) + 1]
  {
    ReturnTypeCoverage(noexceptTypes, derivedType);
    h := new CladFunction(noexceptTypes, derivedType, derivedFn, code);
  }

  /** A request made while clad is disabled: gradient with the default
      derivedFn (nullptr) and code (""). The handle is the invalid one. */
  method DisabledGradientRequest(noexceptTypes: bool, fnType: Ty, f: Option<Body>) returns (h: CladFunction)
    requires f.Some? && GradientDerivedFnTraits(noexceptTypes, fnType).Some?
    ensures h.Valid() && h.GetFunctionPtr().None? && h.GetCode() == "<invalid>"
  {
    var code := new char[1];
    code[0] := '\0';
    assert code[..] == ['\0'];
    h := Gradient(noexceptTypes, fnType, f, None, code);
  }
}
