/** Conversions between pointers, or references, to a class and to its bases:
    the expressions that `build_base_path` builds, and what they do to an address. */
module BasePath {
  import opened Hierarchy

  /** Pointers are 32 bits wide; the null pointer is 0. */
  const ADDRESSES := 0x1_0000_0000

  type Address = a: int | 0 <= a < ADDRESSES

  /** PLUS_EXPR, from a class to a base, and MINUS_EXPR, back. */
  datatype Direction = Plus | Minus

  /** Expressions over the one to be converted: Null is a test for the null pointer. */
  datatype Expr =
    | Operand
    | AddressOf(e: Expr)
    | Indirect(e: Expr)
    | Offset(code: Direction, e: Expr, offset: nat)
    | IfNull(test: Expr, otherwise: Expr)

  /** `build_base_path` for the base at `offset`: `nonnull` says that the pointer is
      known not to be null. */
  function BuildBasePath(code: Direction, offset: nat, isPointer: bool, nonnull: bool): Expr {
    var address := if isPointer then Operand else AddressOf(Operand);
    var moved := if offset != 0 then Offset(code, address, offset) else address;
    var result := if isPointer then moved else Indirect(moved);
    if isPointer && !nonnull && offset != 0 then IfNull(Operand, result) else result
  }

  function Moved(code: Direction, a: Address, offset: nat): Address {
    if code.Plus? then (a + offset) % ADDRESSES else (a - offset) % ADDRESSES
  }

  /** Moving wraps round at most once. */
  lemma {:induction false} Wraps(v: Address, k: nat)
    requires k < ADDRESSES
    ensures Moved(Plus, v, k) == if v + k < ADDRESSES then v + k else v + k - ADDRESSES
    ensures Moved(Minus, v, k) == if k <= v then v - k else v - k + ADDRESSES
  {
  }

  /** The value of a pointer expression, or the address of what an lvalue names. */
  function Eval(e: Expr, v: Address): Address {
    match e
    case Operand => v
    case AddressOf(e') => Eval(e', v)
    case Indirect(e') => Eval(e', v)
    case Offset(code, e', k) => Moved(code, Eval(e', v), k)
    case IfNull(test, e') => if Eval(test, v) == 0 then 0 else Eval(e', v)
  }

  /** How an expression is converted: as a pointer, perhaps null, or as an object. */
  datatype Use = Use(isPointer: bool, nonnull: bool)

  /** The use is truthful about `v`. */
  predicate Truthful(u: Use, v: Address) {
    v == 0 ==> u.isPointer && !u.nonnull
  }

  function Convert(code: Direction, offset: nat, u: Use, v: Address): Address {
    Eval(BuildBasePath(code, offset, u.isPointer, u.nonnull), v)
  }

  /** The null pointer stays null; anything else moves by the offset. */
  lemma {:induction false} ConvertMoves(code: Direction, offset: nat, u: Use, v: Address)
    requires Truthful(u, v)
    ensures Convert(code, offset, u, v) == if v == 0 then 0 else Moved(code, v, offset)
  {
    var address := if u.isPointer then Operand else AddressOf(Operand);
    assert Eval(address, v) == v;
    if offset == 0 {
      assert Moved(code, v, 0) == v;
    } else {
      assert Eval(Offset(code, address, offset), v) == Moved(code, v, offset);
    }
  }

  /** From class `c` to its base subobject `p`. */
  function ToBase(w: World, c: ClassId, p: Path, u: Use, v: Address): Address
    requires Ordered(w) && ValidPath(w, c, p)
  {
    Convert(Plus, OffsetAt(w, c, p), u, v)
  }

  function ToDerived(w: World, c: ClassId, p: Path, u: Use, v: Address): Address
    requires Ordered(w) && ValidPath(w, c, p)
  {
    Convert(Minus, OffsetAt(w, c, p), u, v)
  }

  /** Converting in two steps is converting in one, unless the base in between would be
      at address zero: its pointer passes for a null pointer. */
  lemma {:induction false} ConversionsCompose(w: World, c: ClassId, p: Path, q: Path, u: Use, u': Use, v: Address)
    requires Ordered(w) && ValidPath(w, c, p) && ValidPath(w, TypeAt(w, c, p), q) && ValidPath(w, c, p + q)
    requires Truthful(u, v) && Truthful(u', ToBase(w, c, p, u, v)) && OffsetAt(w, c, p + q) < ADDRESSES
    ensures ToBase(w, TypeAt(w, c, p), q, u', ToBase(w, c, p, u, v)) == ToBase(w, c, p + q, u, v) <==>
            v == 0 || OffsetAt(w, c, p) == OffsetAt(w, c, p + q) || v + OffsetAt(w, c, p) != ADDRESSES
  {
    PathConcat(w, c, p, q);
    var (x, y) := (OffsetAt(w, c, p), OffsetAt(w, TypeAt(w, c, p), q));
    ConvertMoves(Plus, x, u, v);
    ConvertMoves(Plus, x + y, u, v);
    ConvertMoves(Plus, y, u', ToBase(w, c, p, u, v));
    Wraps(v, x);
    Wraps(v, x + y);
    Wraps(Moved(Plus, v, x), y);
  }

  /** To a base and back is the identity, on null too, unless the base would be at
      address zero. */
  lemma {:induction false} ThereAndBack(w: World, c: ClassId, p: Path, u: Use, u': Use, v: Address)
    requires Ordered(w) && ValidPath(w, c, p) && OffsetAt(w, c, p) < ADDRESSES
    requires Truthful(u, v) && Truthful(u', ToBase(w, c, p, u, v))
    ensures ToDerived(w, c, p, u', ToBase(w, c, p, u, v)) == v <==>
            v == 0 || OffsetAt(w, c, p) == 0 || v + OffsetAt(w, c, p) != ADDRESSES
  {
    var k := OffsetAt(w, c, p);
    ConvertMoves(Plus, k, u, v);
    ConvertMoves(Minus, k, u', ToBase(w, c, p, u, v));
    Undone(v, k);
  }

  /** From a base and back, unless the derived object would be at address zero. */
  lemma {:induction false} BackAndThere(w: World, c: ClassId, p: Path, u: Use, u': Use, v: Address)
    requires Ordered(w) && ValidPath(w, c, p) && OffsetAt(w, c, p) < ADDRESSES
    requires Truthful(u, v) && Truthful(u', ToDerived(w, c, p, u, v))
    ensures ToBase(w, c, p, u', ToDerived(w, c, p, u, v)) == v <==> v == 0 || v != OffsetAt(w, c, p)
  {
    var k := OffsetAt(w, c, p);
    ConvertMoves(Minus, k, u, v);
    ConvertMoves(Plus, k, u', ToDerived(w, c, p, u, v));
    Undone(v, k);
  }

  lemma {:induction false} Undone(v: Address, k: nat)
    requires k < ADDRESSES
    ensures Moved(Minus, Moved(Plus, v, k), k) == v && Moved(Plus, Moved(Minus, v, k), k) == v
    ensures Moved(Plus, v, k) == 0 <==> (v == 0 && k == 0) || v + k == ADDRESSES
    ensures Moved(Minus, v, k) == 0 <==> v == k
  {
    Wraps(v, k);
    Wraps(Moved(Plus, v, k), k);
    Wraps(Moved(Minus, v, k), k);
  }

  /** Pointers to two base subobjects of one type are equal only if the subobjects
      are the same. */
  lemma {:induction false} DifferentBasesDifferentPointers(w: World, c: ClassId, p: Path, q: Path, u: Use, u': Use, v: Address)
    requires Ordered(w) && UniqueAddresses(w, c) && ValidPath(w, c, p) && ValidPath(w, c, q)
    requires v != 0 && OffsetAt(w, c, p) < ADDRESSES && OffsetAt(w, c, q) < ADDRESSES
    requires TypeAt(w, c, p) == TypeAt(w, c, q)
    ensures ToBase(w, c, p, u, v) == ToBase(w, c, q, u', v) <==> p == q
  {
    ConvertMoves(Plus, OffsetAt(w, c, p), u, v);
    ConvertMoves(Plus, OffsetAt(w, c, q), u', v);
    Wraps(v, OffsetAt(w, c, p));
    Wraps(v, OffsetAt(w, c, q));
  }
}
