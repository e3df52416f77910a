# clad runtime header: signature traits and the CladFunction handle

This project models the header-only runtime layer of clad, a Clang plugin for
automatic differentiation. The layer has two parts:

- **FunctionTraits.dfy** (`FunctionTraits.h`) covers the compile-time signature
  transforms. `return_type_t<F>` gives the declared return type.
  `DropArgs_t<N, F>` gives the parameters after the first `N`; it is built from
  `MakeIndexSequence<N>` and `Drop_t`. `GradientDerivedFnTraits_t<F>` is the
  reverse-mode signature `void(Args..., R*...)`, and
  `ExtractDerivedFnTraits_t<F>` is the Hessian signature `void(Args..., R*)`.
  - A C++ function-pointer type is a value of `Ty`.
  - Each family of partial specializations is a table of the signature shapes
    it declares.
  - Each trait is a function that yields `None` where no specialization
    matches, i.e. where the C++ alias is ill-formed.
  - Whether `noexcept` is part of the function type
    (`__cpp_noexcept_function_type`) is the parameter `noexceptTypes`.
  - The `*_AddCON → AddVOL → AddREF → AddNOEX` macro expansion and the
    hand-written specialization lists are separate definitions. Lemmas prove
    that they cover the same 24 (or 12) qualifier combinations.
- **Differentiator.dfy** (`Differentiator.h`) covers the runtime layer:
  - `GetLength`;
  - the tape operations `push`, `pop` and `back` on a `Tape` class;
  - `pad_and_execute` and `execute_helper`, modelled as the call they issue:
    the supplied arguments, then one `static_cast<T>(0)` per omitted trailing
    parameter, with the object of a member call as the call target;
  - the `CladFunction` class: its constructor copies the NUL-terminated code
    into a fresh array, and `getFunctionPtr`, `execute` and `getCode` read it;
  - the entry points `differentiate`, `gradient`, `hessian` and `jacobian`.
- **Wrappers.dfy** holds the `Option` type.

The generated derivative is a `Body`, a function from the `Call` it receives to
a `Value`. Numbers are reals (no floating point), pointers are `Null` or an
address, and `void` results are `NoValue`.

Points where the header's behaviour is easy to misread:

- Each gradient output parameter is `R*`, where `R` is the function's return
  type: `OutputParamType<T, R>` ignores `T`. It is not a pointer to each
  parameter's own type.
- `DropArgs_t<N, F>` drops the first `N` parameters. What remains is the
  trailing parameters still to be padded.
- The macro comments describe the product as covering all qualifier cases.
  Still, no variadic function has a `DropArgs`, gradient or extract
  specialization, and no free `noexcept` function pointer has any
  specialization, not even `return_type`.
  - `FunctionTraits.VariadicNotTransformed` states the first gap.
  - The coverage lemmas state the second.
- `CladFunction<F>` declares `return_type_t<F> execute(...)`. Its return type
  depends only on `F`, so it is a hard error, not a discarded overload, when
  `return_type_t<F>` is missing. `clad::differentiate` therefore does not
  compile for a `noexcept`-typed free function when `noexcept` is in the type
  system, nor for any `F` that is not a function pointer (a functor). The
  constructors require `HasReturnType`. `Differentiate` and `Jacobian` require
  `return_type_t` of their handle type. `DerivedTypesHaveReturnType` shows that
  gradient and hessian types always have one.
- The constructor's `assert(f)` refuses the null callable that the entry points
  pass by default. See "## Findings".

## Model

| member | source | states |
|---|---|---|
| FunctionTraits.ReturnType | include/clad/Differentiator/FunctionTraits.h:8-224 | return_type_t<F>: no contract of its own; ReturnTypeCoverage states where it is defined, and that it is then F's return type |
| FunctionTraits.HasReturnType | include/clad/Differentiator/FunctionTraits.h:8-224 | where return_type_t<F> is defined, in closed form: no contract of its own; ReturnTypeCoverage proves it equal to ReturnType being defined |
| FunctionTraits.ReturnTypeShapes | include/clad/Differentiator/FunctionTraits.h:14-224 | the list of return_type's partial specializations: no contract of its own; ReturnTypeShapesContents states its contents |
| FunctionTraits.MacroShapes | include/clad/Differentiator/FunctionTraits.h:278-377 | the list the DropArgs and gradient macro families specialize: no contract of its own; MacroShapesContents and MacroShapesCoverage state its contents |
| FunctionTraits.ExtractShapes | include/clad/Differentiator/FunctionTraits.h:388-503 | the hand-written extract specialization list: no contract of its own; ExtractShapesContents states its contents |
| FunctionTraits.Specialized | include/clad/Differentiator/FunctionTraits.h:8-503 | partial-specialization matching on the type TypeOf gives: no contract of its own; ReturnTypeMatches and MacroShapesCoverage state which signatures match |
| Differentiator.Supplied | include/clad/Differentiator/Differentiator.h:104-107 | the arguments counted against the parameters, the object of a member call not counted: no contract of its own; SuppliedAppend and ExecuteHelperIsPadding state its use |
| FunctionTraits.AddNoex | include/clad/Differentiator/FunctionTraits.h:298-305 | the AddNOEX expansion: no contract of its own; AddNoexContents states its cases |
| FunctionTraits.AddRef | include/clad/Differentiator/FunctionTraits.h:307-309 | the AddREF expansion: no contract of its own; AddRefContents states its cases |
| FunctionTraits.AddVol | include/clad/Differentiator/FunctionTraits.h:311-312 | the AddVOL expansion: no contract of its own; AddVolContents states its cases |
| FunctionTraits.AddCon | include/clad/Differentiator/FunctionTraits.h:314-316 | the AddCON(()) expansion: no contract of its own; MacroProductCoverage states that it is exactly the 24 (or 12) combinations |
| FunctionTraits.WrittenOutBlock | include/clad/Differentiator/FunctionTraits.h:24-124 | one hand-written block of twelve, in the header's order: no contract of its own; WrittenOutBlockContents states its contents |
| FunctionTraits.WrittenOutQuals | include/clad/Differentiator/FunctionTraits.h:24-224 | the hand-written list, with the noexcept block under `#if`: no contract of its own; WrittenOutQualsContents and WrittenOutMatchesMacroProduct state its contents |
| FunctionTraits.WrapRest | include/clad/Differentiator/FunctionTraits.h:260-267 | wrapRest: no contract of its own; DropT states that it yields the types after the placeholders, and only when there are enough types |
| FunctionTraits.DropArgs | include/clad/Differentiator/FunctionTraits.h:272-316 | DropArgs_t<N, F>: no contract of its own; DropArgsCoverage states where it is defined and that it is then the parameters after the first N |
| FunctionTraits.OutputParamType | include/clad/Differentiator/FunctionTraits.h:318-324 | OutputParamType_t<T, R>: R*; GradientSigShape states that every injected parameter is R* |
| FunctionTraits.OutputParams | include/clad/Differentiator/FunctionTraits.h:336 | the expansion OutputParamType_t<Args, R>... : no contract of its own; GradientSigShape states it is \|Args\| copies of R* |
| FunctionTraits.GradientSig | include/clad/Differentiator/FunctionTraits.h:333-353 | the type one gradient specialization names: no contract of its own; GradientSigShape states its shape |
| FunctionTraits.GradientDerivedFnTraits | include/clad/Differentiator/FunctionTraits.h:326-377 | GradientDerivedFnTraits_t<F>: no contract of its own; GradientCoverage, GradientShape and GradientOfFree state where it is defined and what it is |
| FunctionTraits.ExtractSig | include/clad/Differentiator/FunctionTraits.h:388-503 | the type one extract specialization names: no contract of its own; ExtractShape states its shape |
| FunctionTraits.ExtractDerivedFnTraits | include/clad/Differentiator/FunctionTraits.h:379-503 | ExtractDerivedFnTraits_t<F>: no contract of its own; ExtractCoverage and ExtractShape state where it is defined and what it is |
| Differentiator.ZeroOf | include/clad/Differentiator/Differentiator.h:168 | static_cast<T>(0): 0 for an arithmetic or class type, nullptr for a pointer, nothing for void. No contract of its own; Zeros, ExecuteHelperPads and Execute use it |
| Differentiator.ExecuteHelper | include/clad/Differentiator/Differentiator.h:104-125 | execute_helper: no contract of its own; ExecuteHelperDefined, ExecuteHelperIsPadding, ExecuteHelperPads and OmittedEqualsExplicitZeros state when it is well-formed and which call it makes |
| Differentiator.DefaultHandleType | include/clad/Differentiator/Differentiator.h:196-239 | the default DerivedFnType per entry point: no contract of its own; DefaultHandleTypeShape states it |
| FunctionTraits.TypeOf | include/clad/Differentiator/FunctionTraits.h:127-224 | the type a specialization sees. With `noexcept` in the type system it is the declaration itself. Otherwise the `noexcept` bit is cleared, and the kind, return type, parameters, varargs form, class, const, volatile and ref are all kept |
| FunctionTraits.MemberShapes | include/clad/Differentiator/FunctionTraits.h:24-124 | the member forms for a qualifier list: a shape is in it iff it is a member shape with that varargs form and a listed qualifier |
| FunctionTraits.AddNoexContents | include/clad/Differentiator/FunctionTraits.h:298-305 | AddNOEX declares the case without `noexcept`, plus the `noexcept` case iff the flag is on; 2 or 1 distinct cases |
| FunctionTraits.AddRefContents | include/clad/Differentiator/FunctionTraits.h:307-309 | AddREF declares every reference qualifier for the given cv, each once: 3 or 6 cases |
| FunctionTraits.AddVolContents | include/clad/Differentiator/FunctionTraits.h:311-312 | AddVOL declares both volatile forms for the given const, each once: 6 or 12 cases |
| FunctionTraits.MacroProductCoverage | include/clad/Differentiator/FunctionTraits.h:292-316 | the AddCON product is exactly the qualifiers allowed under the flag, with no duplicates: 24 cases with `noexcept` in the type, 12 without |
| FunctionTraits.WrittenOutBlockContents | include/clad/Differentiator/FunctionTraits.h:24-124 | one hand-written block of twelve member specializations holds every const/volatile/ref combination, with one `noexcept` setting |
| FunctionTraits.WrittenOutMatchesMacroProduct | include/clad/Differentiator/FunctionTraits.h:24-224 | the hand-written member list has the same qualifier combinations as the macro product, and as many |
| FunctionTraits.WrittenOutQualsContents | include/clad/Differentiator/FunctionTraits.h:127-224 | the hand-written list adds the twelve `noexcept` variants exactly when the flag is on |
| FunctionTraits.FormsContents | include/clad/Differentiator/FunctionTraits.h:14-224 | return_type's table built from such a list holds both free forms without `noexcept`, and every allowed member form with and without varargs |
| FunctionTraits.ReturnTypeShapesContents | include/clad/Differentiator/FunctionTraits.h:14-224 | the shapes return_type specializes: free without `noexcept` (both varargs forms), and every member form allowed by the flag |
| FunctionTraits.MacroShapesContents | include/clad/Differentiator/FunctionTraits.h:278-316 | DropArgs and the gradient traits specialize the non-variadic, non-noexcept free form and every non-variadic member form allowed by the flag |
| FunctionTraits.ExtractShapesContents | include/clad/Differentiator/FunctionTraits.h:388-503 | ExtractDerivedFnTraits' hand-written specializations match exactly the shapes the macro families match |
| FunctionTraits.ReturnTypeMatches | include/clad/Differentiator/FunctionTraits.h:14-224 | return_type matches a signature iff it is a member, or a free signature whose type is not `noexcept` |
| FunctionTraits.ReturnTypeCoverage | include/clad/Differentiator/FunctionTraits.h:8-224 | return_type_t<F> is defined iff F is a member pointer or a non-`noexcept`-typed free pointer, varargs or not, and is then F's declared return type |
| FunctionTraits.MergeAndRemember | include/clad/Differentiator/FunctionTraits.h:244-249 | the first index sequence followed by the second, each element of the second shifted by the length of the first |
| FunctionTraits.MakeIndexSequence | include/clad/Differentiator/FunctionTraits.h:251-258 | splitting N into N/2 and N-N/2 and merging produces exactly 0, 1, ..., N-1 |
| FunctionTraits.DropT | include/clad/Differentiator/FunctionTraits.h:260-270 | Drop_t<N, T...> is defined iff N <= \|T\|, and is then the types after the first N; those N and the rest make up T |
| FunctionTraits.MacroShapesCoverage | include/clad/Differentiator/FunctionTraits.h:278-316 | a signature matches the macro-generated specializations iff it is non-variadic and is a member, or a free signature not typed `noexcept` |
| FunctionTraits.DropArgsCoverage | include/clad/Differentiator/FunctionTraits.h:272-316 | DropArgs_t<N, F> is defined iff F is such a pointer and N <= its parameter count, and is then its parameters after the first N |
| FunctionTraits.DropArgsIgnoresReceiver | include/clad/Differentiator/FunctionTraits.h:292-296 | the member's class takes no part in DropArgs |
| FunctionTraits.DropArgsHasReturnType | include/clad/Differentiator/FunctionTraits.h:272-316 | every type DropArgs covers also has return_type, its declared return type |
| FunctionTraits.GradientCoverage | include/clad/Differentiator/FunctionTraits.h:326-377 | GradientDerivedFnTraits_t<F> is defined iff F is a non-variadic member pointer or a non-variadic, non-`noexcept`-typed free pointer |
| FunctionTraits.GradientSigShape | include/clad/Differentiator/FunctionTraits.h:333-353 | one gradient specialization: void, non-variadic, Args then one R* per argument, member class and qualifiers kept |
| FunctionTraits.GradientShape | include/clad/Differentiator/FunctionTraits.h:318-377 | the gradient type is void-returning and non-variadic, with the original parameters followed by \|Args\| copies of R*; a member keeps its class and its qualifiers, and a free result is not `noexcept` |
| FunctionTraits.GradientOfFree | include/clad/Differentiator/FunctionTraits.h:333-337 | for `R (*)(Args...)` the gradient type is exactly `void (*)(Args..., R*...)` |
| FunctionTraits.ExtractCoverage | include/clad/Differentiator/FunctionTraits.h:379-503 | ExtractDerivedFnTraits_t<F> is defined exactly where the gradient trait is: no varargs form, no free `noexcept` form |
| FunctionTraits.ExtractShape | include/clad/Differentiator/FunctionTraits.h:388-503 | the extract type is void-returning, non-variadic, the original parameters followed by a single R*, and a member keeps its class and its qualifiers, and a free result is not `noexcept` |
| FunctionTraits.VariadicNotTransformed | include/clad/Differentiator/FunctionTraits.h:14-503 | a variadic pointer has a return type when return_type matches it, but never a DropArgs, a gradient or an extract type |
| Differentiator.Strlen | include/clad/Differentiator/Differentiator.h:31-45 | the length of a C string: the index of its first NUL, with no NUL before it |
| Differentiator.CText | include/clad/Differentiator/Differentiator.h:139-146 | the text before the terminator: Strlen characters, NUL-free, and with the NUL it is the copied prefix |
| Differentiator.GetLength | include/clad/Differentiator/Differentiator.h:31-45 | the count of characters before the first NUL, with an unbounded count (the corrected form, used by the constructor) |
| Differentiator.GetLengthAsWritten | include/clad/Differentiator/Differentiator.h:31-45 | with the `unsigned int` counter, the result is the length modulo 2^32 |
| Differentiator.CopyOverruns | include/clad/Differentiator/Differentiator.h:141-145 | the as-written copy overruns its buffer: the wrapped length is non-zero and shorter than the code (no contract of its own) |
| Differentiator.OverrunForLongCode | include/clad/Differentiator/Differentiator.h:141-145 | a code string of 2^32 + 1 characters gets a 2-character buffer, into which the copy writes 2^32 + 2 |
| Differentiator.LengthWrapsForFourGiBCode | include/clad/Differentiator/Differentiator.h:32-44 | a string of 2^32 characters has length 2^32, which the as-written GetLength reports as 0 |
| Differentiator.Tape.constructor | include/clad/Differentiator/Differentiator.h:47-49 | a new tape is empty |
| Differentiator.Push | include/clad/Differentiator/Differentiator.h:51-56 | push appends the value at the end of the tape and returns it |
| Differentiator.Pop | include/clad/Differentiator/Differentiator.h:58-64 | pop requires a non-empty tape, returns its last value and removes only that value |
| Differentiator.Back | include/clad/Differentiator/Differentiator.h:66-70 | back returns the last value and leaves the tape unchanged |
| Differentiator.LifoOrder | include/clad/Differentiator/Differentiator.h:51-64 | values pushed on the forward sweep are popped in reverse order, and the tape returns to its previous contents |
| Differentiator.Zeros | include/clad/Differentiator/Differentiator.h:90-102 | `static_cast<Rest>(0)...`: one zero of each omitted type, in order |
| Differentiator.PadAndExecute | include/clad/Differentiator/Differentiator.h:72-102 | the callee receives the supplied arguments unchanged, followed by one zero per Rest type, and the given object as target |
| Differentiator.ExecuteHelperDefined | include/clad/Differentiator/Differentiator.h:104-125 | as far as arity and signature shape go, execute_helper is well-formed iff F is a non-variadic pointer that DropArgs covers, called with at most \|params\| arguments plus, for a member, the object it requires (argument and object types not checked, see Left out) |
| Differentiator.ExecuteHelperIsPadding | include/clad/Differentiator/Differentiator.h:104-125 | a well-formed execute_helper is pad_and_execute over the parameters after the supplied ones, without counting the object |
| Differentiator.ExecuteHelperPads | include/clad/Differentiator/Differentiator.h:72-125 | the call passes exactly \|params\| arguments: the supplied ones, then the zero of each omitted parameter type, with the object of a member call as target |
| Differentiator.PaddedCall | include/clad/Differentiator/Differentiator.h:90-93 | padding a supplied prefix with the remaining parameter types yields the full parameter count, with the prefix kept and zeros after it |
| Differentiator.FreeCallPads | include/clad/Differentiator/Differentiator.h:109-115 | a plain free call with the first \|args\| arguments forwards them followed by the zeros of the remaining parameters |
| Differentiator.FnGradPaddingExample | include/clad/Differentiator/Differentiator.h:73-89 | the header's example: fn_grad(double, double, int, int) called with 1.0 and 2.0 receives (1.0, 2.0, 0, 0) |
| Differentiator.OutputParamsOfPair | include/clad/Differentiator/FunctionTraits.h:336 | two parameters get two `R*` output parameters appended |
| Differentiator.GradientOfPair | include/clad/Differentiator/FunctionTraits.h:333-337 | the gradient type of `R (*)(A, B)` is `void (*)(A, B, R*, R*)` |
| Differentiator.TwoNullOutputs | include/clad/Differentiator/Differentiator.h:104-115 | a free `(T, T, P, P)` pointer with P a pointer, executed with two values, receives them followed by two null pointers |
| Differentiator.GradientExecutionExample | include/clad/Differentiator/Differentiator.h:209-223 | the gradient type of `double (*)(double, double)` is defined, and executing it with two values passes them followed by two null output pointers |
| Differentiator.SuppliedAppend | include/clad/Differentiator/Differentiator.h:116-125 | extra trailing arguments extend the supplied list and leave a member call's object in place |
| Differentiator.PaddingByHand | include/clad/Differentiator/Differentiator.h:90-93 | passing the zeros by hand leaves nothing to pad and produces the same call |
| Differentiator.OmittedEqualsExplicitZeros | include/clad/Differentiator/Differentiator.h:72-125 | omitting trailing arguments gives the same call as passing their zeros explicitly |
| Differentiator.CladFunction.constructor | include/clad/Differentiator/Differentiator.h:139-156 | the corrected constructor. F must have return_type_t, which `execute`'s declaration needs. Non-empty code needs a non-null function, stores it, and copies the code with its terminator into a fresh buffer. Empty code nulls both and emits the diagnostic, whatever the function is |
| Differentiator.CladFunction.AsWritten | include/clad/Differentiator/Differentiator.h:139-156 | the constructor as written: `assert(f)` first, then the branches on the `unsigned int` GetLength. Code of length a non-zero multiple of 2^32 is discarded as if empty: both pointers nulled and the diagnostic printed. Code that would overrun the copy buffer is excluded |
| Differentiator.AssertAsWritten | include/clad/Differentiator/Differentiator.h:140 | the constructor's assertion: the callable is non-null (no contract of its own) |
| Differentiator.CtorAccepts | include/clad/Differentiator/Differentiator.h:141-155 | the corrected precondition: a non-null callable whenever there is code to place (no contract of its own) |
| Differentiator.DisabledRequestTripsAssert | include/clad/Differentiator/Differentiator.h:203-206 | the entry points' defaults, a nullptr derivedFn and the code "", fail the as-written assert but meet the corrected precondition |
| Differentiator.DisabledGradientRequest | include/clad/Differentiator/Differentiator.h:209-223 | gradient with the default derivedFn and code yields the invalid handle: no function, and the code "<invalid>" |
| Differentiator.CopyCode | include/clad/Differentiator/Differentiator.h:143-145 | the copy loop fills a fresh buffer of length + 1 with the code and its terminator |
| Differentiator.CladFunction.GetFunctionPtr | include/clad/Differentiator/Differentiator.h:162 | the stored function, null exactly when the handle is invalid |
| Differentiator.CladFunction.Execute | include/clad/Differentiator/Differentiator.h:165-172 | ill-formed exactly when execute_helper is; on an invalid handle, the zero of return_type_t<F> with nothing called; otherwise the stored function applied to the padded call |
| Differentiator.ExecuteHelperHasReturnType | include/clad/Differentiator/Differentiator.h:165-172 | wherever execute_helper is well-formed, return_type_t<F> is too, and is F's return type |
| Differentiator.CladFunction.GetCode | include/clad/Differentiator/Differentiator.h:175-180 | never empty: the stored code without its terminator, or "<invalid>" when there is none |
| Differentiator.DerivedTypesHaveReturnType | include/clad/Differentiator/Differentiator.h:209-239 | the gradient and extract types have return_type_t, which is void, so CladFunction can hold them |
| Differentiator.DefaultHandleTypeShape | include/clad/Differentiator/Differentiator.h:196-237 | the default handle type: F for differentiate; a void-returning type of the same kind for gradient (2\|Args\| parameters) and hessian (\|Args\|+1) |
| Differentiator.Differentiate | include/clad/Differentiator/Differentiator.h:196-207 | requires a non-null f, an F with return_type_t, and a derivedFn the constructor accepts; returns a fresh CladFunction<F> built from derivedFn and the code; a valid handle holds a fresh copy of the code with its terminator, not the caller's buffer |
| Differentiator.Gradient | include/clad/Differentiator/Differentiator.h:209-223 | requires a non-null f and a derivedFn the constructor accepts; the handle has type GradientDerivedFnTraits_t<F> and is built from derivedFn and the code; a valid handle holds a fresh copy of the code with its terminator, not the caller's buffer |
| Differentiator.Hessian | include/clad/Differentiator/Differentiator.h:225-239 | requires a non-null f and a derivedFn the constructor accepts; the handle has type ExtractDerivedFnTraits_t<F> and is built from derivedFn and the code; a valid handle holds a fresh copy of the code with its terminator, not the caller's buffer |
| Differentiator.Jacobian | include/clad/Differentiator/Differentiator.h:241-252 | requires a non-null f, a named derived type with return_type_t, and a derivedFn the constructor accepts; the handle has that type and is built from derivedFn and the code; a valid handle holds a fresh copy of the code with its terminator, not the caller's buffer |

## Left out

- Differentiator.ExecuteHelperDefined: well-formedness is checked only by arity and signature shape. A `Value` carries no C++ type, so the model does not show that the header rejects an ill-typed argument at `f(static_cast<Args>(args)..., ...)`, e.g. `nullptr` for a `double` parameter, or an object of the wrong class at `(static_cast<Obj>(obj).*f)`. Execute and the padding lemmas inherit this.
- `CladFunction::dump` and the `printf` diagnostics are I/O. A ghost flag `diagnosed` records the constructor's "failed to place" message; the message of `execute` on an invalid handle is not modelled.
- The `tape_impl` storage (growth policy, CUDA support) is not modelled; `Tape.h` is not part of this model. The tape is a sequence.
- FunctionTraits.TypeOf: clears only the top-level `noexcept` bit. A function-pointer type nested in the parameters or the return type keeps its bit when `noexcept` is not in the type system. So one such type has two unequal values in the model, and gradient and extract types can carry a nested bit the language would not have.
- Back: returns the value, not a reference into the tape, so writes through the returned reference are not modelled.
- Differentiator.Jacobian: its default handle type `JacobianDerivedFnTraits_t<F>` is defined outside the modelled headers. The handle type is an explicit parameter.
- The template parameters `N` (derivative order) and `ArgSpec` (the argument-selection string) of the entry points only matter to the plugin. They are left out, and the target `f` only has to be non-null.
- The plugin that fills in `derivedFn` and `code` at compile time is outside the layer; both are inputs of the entry points.
- The intentional leak of the code buffer: Dafny has no deallocation, so the model cannot show a leak.
- `static_cast<Args>` forwarding, `wrap<T>`/`dummy` overload resolution and `REM_CTOR` are C++ mechanics. They are modelled only by what they compute: the arguments are passed unchanged, and the trailing types come from `wrapRest`.
- Arithmetic values are reals, and `static_cast<T>(0)` is `Number(0.0)` for every non-pointer type. Floating-point rounding and integer widths of arguments are not modelled.
- The later `setObject`/`clearObject` receiver binding is not in this version of the header, so it is not modelled.

## Findings

| source | as written | input that shows it | evidently intended | confidence | as-written member | corrected member |
|---|---|---|---|---|---|---|
| include/clad/Differentiator/Differentiator.h:32-44 | `GetLength` returns `unsigned int`: the CUDA loop counts in it and the host branch truncates `strlen`'s `size_t` into it, so the length is taken modulo 2^32 | a code string of exactly 2^32 non-NUL characters: `GetLength` returns 0, and the constructor discards the valid derivative as if it were empty. With 2^32 + k characters (0 < k) it allocates k + 1 characters and the copy writes 2^32 + k + 1 into them | the full `size_t` length, since the constructor stores it in a `size_t` and tests it for zero | not executed | Differentiator.GetLengthAsWritten, Differentiator.LengthWrapsForFourGiBCode, Differentiator.CladFunction.AsWritten, Differentiator.OverrunForLongCode | Differentiator.GetLength, Differentiator.CladFunction.constructor |
| include/clad/Differentiator/Differentiator.h:139-156 | the constructor runs `assert(f)` before it tests the code length, so a null callable is refused even with empty code | the entry points' own defaults, `derivedFn = nullptr` and `code = ""` (lines 203-206), which is the clad-disabled case the comment at lines 147-148 means the else branch to diagnose; with assertions on, the assert fires first | accept a null callable with empty code and build the invalid handle, which then reports "<invalid>" | not executed | Differentiator.CladFunction.AsWritten, Differentiator.DisabledRequestTripsAssert | Differentiator.CladFunction.constructor, Differentiator.DisabledGradientRequest |
