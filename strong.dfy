/** The strong typedef wrapper `strong::type<TypeName, int>`: one integer behind a nominal type.
    `Tag` is the phantom discriminator (the C++ `TypeName`): `Type<A>` and `Type<B>` are
    unrelated Dafny types even though both hold exactly one `int`. */
module Strong {

  class Type<Tag> {
    /** The single stored value. Reads go through `Get`; only the mutating capabilities of
        module Op assign it. */
    var value: int

    /** Default construction value-initialises the stored `int`, which gives 0. */
    constructor Default()
      ensures Get(this) == 0
    {
      value := 0;
    }

    /** Explicit construction from an underlying value (copy and move alike). */
    constructor (v: int)
      ensures Get(this) == v
    {
      value := v;
    }
  }

  /** The free function `get`: the explicit access to the stored value, for the immutable
      and (inside the mutating capabilities of module Op) the mutable overload. */
  function Get<Tag>(obj: Type<Tag>): (r: int)
    reads obj
  {
    obj.value
  }
}
