# strong-types in Dafny

A model of the single-header C++ library `strong.hpp`, which builds "strong typedefs": nominal types
that wrap an existing value type so that, say, a cycle count and an instruction count cannot be
mixed up even though both are `int`s underneath.

- **Wrapper** (`Strong.Type<Tag>`, file `strong.dfy`): `strong::type<TypeName, int>`, a class with a
  single field `value`. The C++ `TypeName` becomes the phantom type parameter `Tag`, so
  `Type<CycleCountTag>` and `Type<InstructionCountTag>` are distinct types with the same
  representation. It is built by default construction (value-initialised: 0) or from an `int`.
  `Strong.Get` is the free function `get`. The capabilities read values through it; the
  mutating ones assign the field, which stands for writing through the mutable `get` overload.
- **Capabilities** (module `Op`, file `op.dfy`): the mixins of `strong::op`, each forwarding to the
  built-in `int` operator through `get`.
  - `equals`: `Equal`, `NotEqual`, with `!=` derived as `!(==)`.
  - `orders`: `Less` and `Greater` forward directly. `LessEqual` is `!(rhs < lhs)` and
    `GreaterEqual` is `!(rhs > lhs)`, as in the header.
  - `adds`, `subtracts`, `multiplies`, `divides`: a binary operator that allocates a new wrapper,
    and a compound assignment that updates the left operand in place and returns it.
  - `modulo`: a binary operator only.
  - `increments`, `decrements`: prefix forms update in place and return the same object. Postfix
    forms call the prefix form and then return a copy of the object as it now is. So `x++` yields
    the incremented value, not the value before the call. The header's doc comment says as much
    ("The object incremented by one"), but it is not the usual C++ convention.
- **Underlying `int` operators** (module `CppInt`, file `cpp_int.dfy`): C++ `/` truncates toward zero
  and `%` takes the sign of the dividend, while Dafny's `/` and `%` are Euclidean. `CppInt.Div` and
  `CppInt.Rem` write the C++ meaning out. `Fits` counts how many whole divisors fit into the
  dividend. Both operators are characterised by their contracts, and `DivUnique` shows that this
  characterisation determines the quotient.
- **Example program** (module `ComputerArchitecture`, file `computer_architecture.dfy`): the
  `cycle_count` type and the operation sequence of `main`. `Run` returns the numbers that `main`
  writes, one per output line, and its contract gives the values stated in the program's comments.

Compound assignments accept `lhs` and `rhs` being the same object, as C++ does (`x += x` doubles
`x`). Their contracts therefore read the right operand's value from before the call.

The header implements `>` directly and `>=` as `!(rhs > lhs)`. The contracts of `Greater` and
`GreaterEqual` prove these equal to `rhs < lhs` and `!(lhs < rhs)`.

The example program names its bases `equality_comparison`, `relational_comparison`, `addition`,
`subtraction`, `increment` and `decrement` (examples/computer_architecture.cpp:8-13). The header
defines no classes by those names; it calls them `equals`, `orders`, `adds`, `subtracts`,
`increments` and `decrements`. The model maps the example's names onto the header's.

## Model

| member | source | states |
|---|---|---|
| `Strong.Type.Default` | include/strong.hpp:38-40 | default construction value-initialises the stored `int`, so `get` gives 0 |
| `Strong.Type.constructor` | include/strong.hpp:47-63 | round trip: `get` of a wrapper explicitly constructed from `v` is `v` |
| `Strong.Get` | include/strong.hpp:96-114 | the two `get` overloads; no contract of its own: the round trip with construction is in the `ensures` of `Strong.Type.Default` and `Strong.Type.constructor` |
| `Op.Equal` | include/strong.hpp:137-140 | `==` is reflexive: an object always equals itself (symmetry and transitivity are in `EqualIsEquivalence`) |
| `Op.NotEqual` | include/strong.hpp:149-152 | `!=`, built as `!(lhs == rhs)`, holds exactly when the underlying values differ |
| `Op.EqualIsEquivalence` | include/strong.hpp:137-152 | `==` is reflexive, symmetric and transitive; `!=` is always its negation |
| `Op.Less` | include/strong.hpp:171-174 | `<` is irreflexive: no object is less than itself (the rest of the order is in `LessIsStrictTotalOrder`) |
| `Op.LessEqual` | include/strong.hpp:183-186 | `<=`, built as `!(rhs < lhs)`, holds exactly when `lhs < rhs` or `lhs == rhs` |
| `Op.Greater` | include/strong.hpp:195-198 | `>` agrees with `<` with the operands swapped |
| `Op.GreaterEqual` | include/strong.hpp:207-210 | `>=`, built as `!(rhs > lhs)`, holds exactly when `lhs > rhs` or `lhs == rhs`, that is when `!(lhs < rhs)` |
| `Op.LessIsStrictTotalOrder` | include/strong.hpp:171-210 | `<` is irreflexive and transitive, and exactly one of `a < b`, `a == b`, `b < a` holds |
| `Op.Add` | include/strong.hpp:228-231 | `lhs + rhs` is a new wrapper whose value is the sum of the operands' values; operands unchanged |
| `Op.AddAssign` | include/strong.hpp:240-244 | `lhs += rhs` sets `lhs` to the old value plus `rhs`'s old value, changes nothing else and returns `lhs` itself |
| `Op.Subtract` | include/strong.hpp:262-265 | `lhs - rhs` is a new wrapper holding the difference; operands unchanged |
| `Op.SubtractAssign` | include/strong.hpp:274-278 | `lhs -= rhs` subtracts `rhs`'s old value from `lhs`, changes nothing else and returns `lhs` |
| `Op.Multiply` | include/strong.hpp:296-299 | `lhs * rhs` is a new wrapper holding the product; operands unchanged |
| `Op.MultiplyAssign` | include/strong.hpp:308-312 | `lhs *= rhs` multiplies `lhs` by `rhs`'s old value, changes nothing else and returns `lhs` |
| `Op.Divide` | include/strong.hpp:330-333 | `lhs / rhs` needs a non-zero divisor and is a new wrapper holding the C++ truncating quotient |
| `Op.DivideAssign` | include/strong.hpp:342-346 | `lhs /= rhs` needs a non-zero divisor, sets `lhs` to the C++ quotient and returns `lhs` |
| `Op.Modulo` | include/strong.hpp:364-367 | `lhs % rhs` needs a non-zero divisor and is a new wrapper holding the C++ remainder |
| `Op.Increment` | include/strong.hpp:383-389 | prefix `++` adds exactly 1 in place and returns the same object |
| `Op.PostIncrement` | include/strong.hpp:396-404 | postfix `++` adds exactly 1 in place and returns a new copy equal to the new value, not the old one |
| `Op.Decrement` | include/strong.hpp:420-426 | prefix `--` subtracts exactly 1 in place and returns the same object |
| `Op.PostDecrement` | include/strong.hpp:433-441 | postfix `--` subtracts exactly 1 in place and returns a new copy equal to the new value |
| `CppInt.Fits` | include/strong.hpp:330-333 | the magnitude of a truncated quotient is the number of whole divisors that fit: `k * d <= m < (k + 1) * d` |
| `CppInt.FitsUnique` | include/strong.hpp:330-333 | no other count of divisors brackets the dividend in that way |
| `CppInt.Div` | include/strong.hpp:330-333 | the `int` quotient the `divides` capability forwards to truncates toward zero: its magnitude is the largest whole number of divisors that fit in the dividend, and a non-zero quotient is negative exactly when the operand signs differ |
| `CppInt.DivUnique` | include/strong.hpp:330-333 | exactly one quotient has the properties in `Div`'s contract, so that contract fully specifies C++ division |
| `CppInt.Rem` | include/strong.hpp:364-367 | the `int` remainder the `modulo` capability forwards to satisfies `(a / b) * b + a % b == a`, is smaller than the divisor in magnitude, and is zero or has the sign of the dividend |
| `CppInt.DivRemAgreeWhenNonNegative` | include/strong.hpp:330-367 | for a non-negative dividend and a positive divisor, C++ `/` and `%` agree with Euclidean division |
| `ComputerArchitecture.BoolOutput` | examples/computer_architecture.cpp:44-49 | a `bool` written to `std::cout` appears as 1 when true and 0 when false |
| `ComputerArchitecture.Run` | examples/computer_architecture.cpp:39-60 | `main`'s `cycle_count` output is 0, 1, 1, 0, 1, 1, 50, 9, 62: `50 == 60` is false, `50 < 60` is true, `50 <= 110` is true, `50 > 60` is false, `50 >= 50` is true, `50 == 35 + 15` is true, `get` gives 50, `(110 - 50 + 4) - 60 + 5` is 9, and after `-= 3`, `++`, postfix `++` and `--` the value is 62 |

## Left out

- The stored field is private in C++, so only `get` reaches it. In the model `value` is a public
  field, so explicit-only access is a convention that the model's own members follow, not a
  guarantee Dafny enforces.
- No implicit conversion and no mixing of tags are compile-time guarantees. The model mirrors them
  only through Dafny's own typing, where `Type<A>` and `Type<B>` are different types.
- Capability opt-in is not modelled. In C++ a type has an operator only if it derives from the
  matching mixin. In the model every `Type<Tag>` can use every operator in `Op`.
- `noexcept` propagation on the move constructor cannot be expressed: there are no exceptions in the model.
- The comparison result type is fixed to `bool` instead of the `Result` template parameter.
- Copy and move construction are one constructor, because they do not differ for an `int` field.
- The underlying type is fixed to `int`. The `double` types `frequency` and `period` and the
  function `inverse` use floating point and are not modelled.
- C++ `int` is modelled by unbounded integers. Signed overflow, which is undefined behaviour in
  C++, is not modelled.
- The stream capabilities `outputs` and `inputs` are I/O behind `STRONG_USE_STL_STREAMS`. They are
  not modelled. `Run` returns what `main` prints instead of writing it.
- The `instruction_count` objects in `main` (a construction and a `std::move`) print nothing and
  are not modelled. The type itself is declared, as `ComputerArchitecture.InstructionCount`.
