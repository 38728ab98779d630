/** The capability mixins of `strong::op`. Every operator reads the operands' values
    through `Get` (a method that changes a value assigns the field, which stands for writing
    through the mutable `get` overload) and forwards to the built-in `int` operator (module CppInt for the two
    whose C++ meaning differs from Dafny's). Binary operators build a new wrapper; compound
    assignments, increments and decrements change their left operand in place and return it. */
module Op {
  import opened Strong
  import CppInt

  // ----- equals -----

  /** `lhs == rhs`: the underlying values are equal; an object always equals itself. */
  function Equal<Tag>(lhs: Type<Tag>, rhs: Type<Tag>): (r: bool)
    reads lhs, rhs
    ensures lhs == rhs ==> r
  {
    Get(lhs) == Get(rhs)
  }

  /** `lhs != rhs`, derived as `!(lhs == rhs)`: it holds exactly when the values differ. */
  function NotEqual<Tag>(lhs: Type<Tag>, rhs: Type<Tag>): (r: bool)
    reads lhs, rhs
    ensures r <==> Get(lhs) != Get(rhs)
  {
    !Equal(lhs, rhs)
  }

  /** `==` is an equivalence relation and `!=` is its negation. */
  lemma EqualIsEquivalence<Tag>(a: Type<Tag>, b: Type<Tag>, c: Type<Tag>)
    ensures Equal(a, a)
    ensures Equal(a, b) == Equal(b, a)
    ensures Equal(a, b) && Equal(b, c) ==> Equal(a, c)
    ensures NotEqual(a, b) == !Equal(a, b)
  {
  }

  // ----- orders -----

  /** `lhs < rhs`: forwards to `int`'s `<`; no object is less than itself. */
  function Less<Tag>(lhs: Type<Tag>, rhs: Type<Tag>): (r: bool)
    reads lhs, rhs
    ensures lhs == rhs ==> !r
  {
    Get(lhs) < Get(rhs)
  }

  /** `lhs <= rhs`, derived as `!(rhs < lhs)`: less or equal. */
  function LessEqual<Tag>(lhs: Type<Tag>, rhs: Type<Tag>): (r: bool)
    reads lhs, rhs
    ensures r <==> Less(lhs, rhs) || Equal(lhs, rhs)
  {
    !Less(rhs, lhs)
  }

  /** `lhs > rhs`: forwards to `int`'s `>`, and is `<` with the operands swapped. */
  function Greater<Tag>(lhs: Type<Tag>, rhs: Type<Tag>): (r: bool)
    reads lhs, rhs
    ensures r <==> Less(rhs, lhs)
  {
    Get(lhs) > Get(rhs)
  }

  /** `lhs >= rhs`, derived as `!(rhs > lhs)`: greater or equal, that is, not less. */
  function GreaterEqual<Tag>(lhs: Type<Tag>, rhs: Type<Tag>): (r: bool)
    reads lhs, rhs
    ensures r <==> Greater(lhs, rhs) || Equal(lhs, rhs)
    ensures r <==> !Less(lhs, rhs)
  {
    !Greater(rhs, lhs)
  }

  /** `<` is a strict total order: irreflexive, transitive, and exactly one of
      `a < b`, `a == b`, `b < a` holds. */
  lemma LessIsStrictTotalOrder<Tag>(a: Type<Tag>, b: Type<Tag>, c: Type<Tag>)
    ensures !Less(a, a)
    ensures Less(a, b) && Less(b, c) ==> Less(a, c)
    ensures Less(a, b) || Equal(a, b) || Less(b, a)
    ensures !(Less(a, b) && Equal(a, b)) && !(Less(a, b) && Less(b, a)) && !(Equal(a, b) && Less(b, a))
  {
  }

  // ----- adds -----

  /** `lhs + rhs`: a new wrapper holding the sum of the values. */
  method Add<Tag>(lhs: Type<Tag>, rhs: Type<Tag>) returns (r: Type<Tag>)
    ensures fresh(r) && Get(r) == Get(lhs) + Get(rhs)
  {
    r := new Type(Get(lhs) + Get(rhs));
  }

  /** `lhs += rhs`: adds the right value into `lhs` (which may be `rhs` itself) and returns `lhs`. */
  method AddAssign<Tag>(lhs: Type<Tag>, rhs: Type<Tag>) returns (r: Type<Tag>)
    modifies lhs
    ensures r == lhs && Get(lhs) == old(Get(lhs)) + old(Get(rhs))
  {
    lhs.value := Get(lhs) + Get(rhs);
    r := lhs;
  }

  // ----- subtracts -----

  /** `lhs - rhs`: a new wrapper holding the difference of the values. */
  method Subtract<Tag>(lhs: Type<Tag>, rhs: Type<Tag>) returns (r: Type<Tag>)
    ensures fresh(r) && Get(r) == Get(lhs) - Get(rhs)
  {
    r := new Type(Get(lhs) - Get(rhs));
  }

  /** `lhs -= rhs`: subtracts the right value from `lhs` and returns `lhs`. */
  method SubtractAssign<Tag>(lhs: Type<Tag>, rhs: Type<Tag>) returns (r: Type<Tag>)
    modifies lhs
    ensures r == lhs && Get(lhs) == old(Get(lhs)) - old(Get(rhs))
  {
    lhs.value := Get(lhs) - Get(rhs);
    r := lhs;
  }

  // ----- multiplies -----

  /** `lhs * rhs`: a new wrapper holding the product of the values. */
  method Multiply<Tag>(lhs: Type<Tag>, rhs: Type<Tag>) returns (r: Type<Tag>)
    ensures fresh(r) && Get(r) == Get(lhs) * Get(rhs)
  {
    r := new Type(Get(lhs) * Get(rhs));
  }

  /** `lhs *= rhs`: multiplies `lhs` by the right value and returns `lhs`. */
  method MultiplyAssign<Tag>(lhs: Type<Tag>, rhs: Type<Tag>) returns (r: Type<Tag>)
    modifies lhs
    ensures r == lhs && Get(lhs) == old(Get(lhs)) * old(Get(rhs))
  {
    lhs.value := Get(lhs) * Get(rhs);
    r := lhs;
  }

  // ----- divides -----

  /** `lhs / rhs`: a new wrapper holding the C++ (truncating) quotient; like `int`'s own `/`,
      it needs a non-zero divisor. */
  method Divide<Tag>(lhs: Type<Tag>, rhs: Type<Tag>) returns (r: Type<Tag>)
    requires Get(rhs) != 0
    ensures fresh(r) && Get(r) == CppInt.Div(Get(lhs), Get(rhs))
  {
    r := new Type(CppInt.Div(Get(lhs), Get(rhs)));
  }

  /** `lhs /= rhs`: replaces `lhs`'s value by the C++ quotient and returns `lhs`. */
  method DivideAssign<Tag>(lhs: Type<Tag>, rhs: Type<Tag>) returns (r: Type<Tag>)
    requires Get(rhs) != 0
    modifies lhs
    ensures r == lhs && Get(lhs) == CppInt.Div(old(Get(lhs)), old(Get(rhs)))
  {
    lhs.value := CppInt.Div(Get(lhs), Get(rhs));
    r := lhs;
  }

  // ----- modulo -----

  /** `lhs % rhs`: a new wrapper holding the C++ remainder (there is no `%=`). */
  method Modulo<Tag>(lhs: Type<Tag>, rhs: Type<Tag>) returns (r: Type<Tag>)
    requires Get(rhs) != 0
    ensures fresh(r) && Get(r) == CppInt.Rem(Get(lhs), Get(rhs))
  {
    r := new Type(CppInt.Rem(Get(lhs), Get(rhs)));
  }

  // ----- increments -----

  /** Prefix `++obj`: adds one in place and returns the same object. */
  method Increment<Tag>(obj: Type<Tag>) returns (r: Type<Tag>)
    modifies obj
    ensures r == obj && Get(obj) == old(Get(obj)) + 1
  {
    obj.value := Get(obj) + 1;
    r := obj;
  }

  /** Postfix `obj++`: runs the prefix form, then returns a copy of the object as it is
      now, so the copy holds the incremented value, not the one before the call. */
  method PostIncrement<Tag>(obj: Type<Tag>) returns (r: Type<Tag>)
    modifies obj
    ensures Get(obj) == old(Get(obj)) + 1
    ensures fresh(r) && Get(r) == Get(obj)
  {
    var incremented := Increment(obj);
    r := new Type(Get(incremented));
  }

  // ----- decrements -----

  /** Prefix `--obj`: subtracts one in place and returns the same object. */
  method Decrement<Tag>(obj: Type<Tag>) returns (r: Type<Tag>)
    modifies obj
    ensures r == obj && Get(obj) == old(Get(obj)) - 1
  {
    obj.value := Get(obj) - 1;
    r := obj;
  }

  /** Postfix `obj--`: runs the prefix form, then returns a copy holding the
      decremented value. */
  method PostDecrement<Tag>(obj: Type<Tag>) returns (r: Type<Tag>)
    modifies obj
    ensures Get(obj) == old(Get(obj)) - 1
    ensures fresh(r) && Get(r) == Get(obj)
  {
    var decremented := Decrement(obj);
    r := new Type(Get(decremented));
  }
}
