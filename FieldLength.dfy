/**
 * The lenient field-length resolver of utils.py and the patch that installs it
 * in place of fit_tool's own `Field.get_length_from_size`.
 *
 * A FIT field definition gives a field's size in bytes; the resolver turns it
 * into a number of elements of the field's base type. fit_tool's resolver fails
 * when the size is not a multiple of the element size; the lenient one rounds
 * down instead, so files from manufacturers that write odd sizes still parse.
 */
module FieldLength {
  import opened Common

  /** The base types of the FIT protocol. */
  datatype BaseType =
    | Enum | Sint8 | Uint8 | Sint16 | Uint16 | Sint32 | Uint32 | String
    | Float32 | Float64 | Uint8z | Uint16z | Uint32z | Byte | Sint64 | Uint64 | Uint64z

  /** The size in bytes of one element of a base type. */
  function ElementSize(t: BaseType): (r: nat)
    ensures r in {1, 2, 4, 8}
  {
    match t
    case Enum => 1 case Sint8 => 1 case Uint8 => 1 case String => 1 case Byte => 1
    case Uint8z => 1
    case Sint16 => 2 case Uint16 => 2 case Uint16z => 2
    case Sint32 => 4 case Uint32 => 4 case Float32 => 4 case Uint32z => 4
    case Float64 => 8 case Sint64 => 8 case Uint64 => 8 case Uint64z => 8
  }

  /** Strings and byte arrays are one element however many bytes they take. */
  predicate IsWhole(t: BaseType)
  {
    t == String || t == Byte
  }

  /**
   * `_lenient_get_length_from_size`: for a string or byte field, 0 when the size
   * is 0 and 1 otherwise; for any other type, the number of whole elements that
   * fit in `size` bytes, with any odd bytes left over ignored.
   */
  function LenientLength(t: BaseType, size: nat): (r: nat)
    ensures IsWhole(t) ==> (r == 0 <==> size == 0) && r <= 1
    ensures !IsWhole(t) ==> r * ElementSize(t) <= size < (r + 1) * ElementSize(t)
  {
    if IsWhole(t) then
      (if size == 0 then 0 else 1)
    else
      size / ElementSize(t)
  }

  /** The number of elements is the only one that fits: the floor of the division. */
  lemma LenientLengthIsFloor(t: BaseType, size: nat, n: nat)
    requires !IsWhole(t)
    requires n * ElementSize(t) <= size < (n + 1) * ElementSize(t)
    ensures LenientLength(t, size) == n
  {
    var r, e := LenientLength(t, size), ElementSize(t);
    MultiplyMonotone(r + 1, n, e);
    MultiplyMonotone(n + 1, r, e);
  }

  lemma MultiplyMonotone(a: int, b: int, e: int)
    requires e >= 0
    ensures a <= b ==> a * e <= b * e
  {}

  /** A size that is a whole number of elements resolves to exactly that number. */
  lemma LenientLengthExact(t: BaseType, n: nat)
    requires !IsWhole(t)
    ensures LenientLength(t, n * ElementSize(t)) == n
    ensures LenientLength(t, n * ElementSize(t)) * ElementSize(t) == n * ElementSize(t)
  {
    LenientLengthIsFloor(t, n * ElementSize(t), n);
  }

  /**
   * fit_tool's own resolver, as far as this program relies on it: it fails
   * (`None`) when the size is not a whole number of elements.
   */
  function StrictLength(t: BaseType, size: nat): (r: Option<nat>)
    ensures r.Some? ==> IsWhole(t) || r.value * ElementSize(t) == size
    ensures !IsWhole(t) ==> (r.Some? <==> size % ElementSize(t) == 0)
  {
    if IsWhole(t) then Some(if size == 0 then 0 else 1)
    else if size % ElementSize(t) == 0 then Some(size / ElementSize(t))
    else None
  }

  /** The lenient resolver never fails and agrees with fit_tool's wherever that succeeds. */
  lemma LenientExtendsStrict(t: BaseType, size: nat)
    ensures StrictLength(t, size).Some? ==> StrictLength(t, size).value == LenientLength(t, size)
    ensures !IsWhole(t) && size % ElementSize(t) != 0 ==> StrictLength(t, size).None?
  {}

  /** Which resolver `Field.get_length_from_size` currently refers to. */
  datatype Resolver = Original | Lenient

  /** fit_tool's `Field` class, reduced to the one attribute the patch replaces. */
  class Field {
    var getLengthFromSize: Resolver

    constructor ()
      ensures getLengthFromSize == Original
    {
      getLengthFromSize := Original;
    }

    /** Resolve a field's length through whichever resolver is installed. */
    function GetLengthFromSize(t: BaseType, size: nat): (r: Option<nat>)
      reads this
      ensures getLengthFromSize == Lenient ==> r == Some(LenientLength(t, size))
      ensures getLengthFromSize == Original ==> r == StrictLength(t, size)
    {
      match getLengthFromSize
      case Original => StrictLength(t, size)
      case Lenient => Some(LenientLength(t, size))
    }

    /**
     * `apply_fit_tool_patch`: install the lenient resolver. The new state does not
     * depend on the old one, so applying the patch twice is the same as once.
     */
    method ApplyFitToolPatch()
      modifies this
      ensures getLengthFromSize == Lenient
      ensures forall t, size :: GetLengthFromSize(t, size).Some?
    {
      getLengthFromSize := Lenient;
    }
  }
}
