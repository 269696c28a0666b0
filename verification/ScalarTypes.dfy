/**
  ScalarType ids (vllm/scalar_type.py and csrc/core/scalar_type.hpp): both sides pack six
  fields into one integer, and must agree on the layout; and the double that stands for
  the largest finite value of a floating-point type.
 */
module ScalarTypes {
  import opened Wrappers
  import opened Powers
  import HalfFloat

  function Abs(a: int): nat { if a < 0 then -a else a }

  /** Bitwise or, negative numbers in two's complement with no end, as in Python. */
  function Or(a: int, b: int): (r: int)
    ensures a >= 0 && b >= 0 ==> r >= 0
    decreases Abs(a) + Abs(b)
  {
    if -1 <= a <= 0 && -1 <= b <= 0 then if a == -1 || b == -1 then -1 else 0
    else 2 * Or(a / 2, b / 2) + if a % 2 == 1 || b % 2 == 1 then 1 else 0
  }

  /** x << n. */
  function ShiftLeft(x: int, n: nat): (r: int)
    ensures x >= 0 ==> r >= 0
  {
    x * Pow2(n)
  }

  /** A mantissa of -1, shifted, swallows whatever is put above it. */
  lemma {:induction false} OrNegative(b: nat, n: nat)
    ensures Or(ShiftLeft(-1, n), ShiftLeft(b, n)) == -(Pow2(n) as int) < 0
  {
    if n == 0 {
      Pow2Zero();
      OrMinusOne(b);
    } else {
      OrNegative(b, n - 1);
      var x, y, p := ShiftLeft(-1, n - 1), ShiftLeft(b, n - 1), Pow2(n - 1);
      assert Pow2(n) == 2 * p;
      assert ShiftLeft(-1, n) == 2 * x && ShiftLeft(b, n) == 2 * y by { Doubled(b, n - 1); }
      assert (2 * x) / 2 == x && (2 * y) / 2 == y && x < 0;
    }
  }

  lemma {:induction false} OrMinusOne(b: nat)
    ensures Or(-1, b) == -1
  {
    if b > 0 { OrMinusOne(b / 2); }
  }

  /** With no bits in common, or is addition. */
  lemma {:induction false} OrDisjoint(a: nat, b: nat, n: nat)
    requires a < Pow2(n)
    ensures 0 <= b * Pow2(n) && Or(a, b * Pow2(n)) == a + b * Pow2(n)
  {
    if n == 0 {
      OrZero(b);
    } else {
      var c := b * Pow2(n - 1);
      assert b * Pow2(n) == 2 * c by { Doubled(b, n - 1); }
      OrDisjoint(a / 2, b, n - 1);
    }
  }

  lemma {:induction false} OrZero(b: nat)
    ensures Or(0, b) == b
  {
    if b > 0 { OrZero(b / 2); }
  }

  // ----- fields side by side -----

  datatype Member = Member(value: int, width: nat)

  /** member & mask: negative members count as two's complement. */
  function Masked(m: Member): nat { m.value % Pow2(m.width) }

  /** or_and_advance of the id and the bit offset. */
  function Advance(acc: (nat, nat), m: Member): (nat, nat) {
    (Or(acc.0, ShiftLeft(Masked(m), acc.1)), acc.1 + m.width)
  }

  /** reduce_members. */
  function Reduce(acc: (nat, nat), ms: seq<Member>): (nat, nat)
    decreases |ms|
  {
    if ms == [] then acc else Reduce(Advance(acc, ms[0]), ms[1..])
  }

  /** The same number as digits of a mixed radix. */
  ghost function Mixed(ms: seq<Member>): nat {
    if ms == [] then 0 else Masked(ms[0]) + Mixed(ms[1..]) * Pow2(ms[0].width)
  }

  ghost function Width(ms: seq<Member>): nat { if ms == [] then 0 else ms[0].width + Width(ms[1..]) }

  lemma MaskedBound(m: Member)
    ensures Masked(m) < Pow2(m.width)
  {}

  lemma AdvanceAdds(id: nat, offset: nat, m: Member)
    requires id < Pow2(offset)
    ensures Advance((id, offset), m) == (id + Masked(m) * Pow2(offset), offset + m.width)
    ensures id + Masked(m) * Pow2(offset) < Pow2(offset + m.width)
  {
    hide Or; hide Pow2; hide Masked;
    OrDisjoint(id, Masked(m), offset);
    MaskedBound(m);
    Pow2Add(m.width, offset);
    Distribute(Masked(m), 1, Pow2(offset));
    if Masked(m) + 1 < Pow2(m.width) { Scale(Masked(m) + 1, Pow2(m.width), Pow2(offset)); }
  }

  lemma {:induction false} ReduceIsMixed(id: nat, offset: nat, ms: seq<Member>)
    requires id < Pow2(offset)
    ensures Reduce((id, offset), ms) == (id + Mixed(ms) * Pow2(offset), offset + Width(ms))
    decreases |ms|
  {
    hide Pow2; hide Advance; hide Masked;
    if ms != [] {
      var m := ms[0];
      AdvanceAdds(id, offset, m);
      ReduceIsMixed(id + Masked(m) * Pow2(offset), offset + m.width, ms[1..]);
      var rest := Mixed(ms[1..]);
      Pow2Add(m.width, offset);
      Reassociate(rest, Pow2(m.width), Pow2(offset));
      Distribute(Masked(m), rest * Pow2(m.width), Pow2(offset));
    }
  }

  /** extract_and_advance: (id >> offset) & mask, field after field. */
  function Extract(id: nat, offset: nat, widths: seq<nat>): seq<int>
    decreases |widths|
  {
    if widths == [] then []
    else [id / Pow2(offset) % Pow2(widths[0])] + Extract(id, offset + widths[0], widths[1..])
  }

  function Widths(ms: seq<Member>): seq<nat> { seq(|ms|, i requires 0 <= i < |ms| => ms[i].width) }

  function MaskedAll(ms: seq<Member>): seq<int> { seq(|ms|, i requires 0 <= i < |ms| => Masked(ms[i])) }

  /** Extracting undoes packing, for any list of fields. */
  lemma {:induction false} ExtractUndoes(id: nat, offset: nat, ms: seq<Member>)
    requires id / Pow2(offset) == Mixed(ms)
    ensures Extract(id, offset, Widths(ms)) == MaskedAll(ms)
    decreases |ms|
  {
    hide Pow2; hide Masked;
    if ms != [] {
      var w := ms[0].width;
      MaskedBound(ms[0]);
      DivUnique(Mixed(ms), Pow2(w), Mixed(ms[1..]), Masked(ms[0]));
      DivDiv(id, Pow2(offset), Pow2(w));
      Pow2Add(offset, w);
      assert Widths(ms)[1..] == Widths(ms[1..]);
      assert MaskedAll(ms) == [Masked(ms[0])] + MaskedAll(ms[1..]);
      ExtractUndoes(id, offset + w, ms[1..]);
    }
  }

  /** Packing undoes extracting, on ids that fit the fields. */
  lemma {:induction false} MixedUndoes(id: nat, offset: nat, ms: seq<Member>)
    requires Extract(id, offset, Widths(ms)) == MaskedAll(ms)
    requires 0 <= id / Pow2(offset) < Pow2(Width(ms))
    ensures Mixed(ms) == id / Pow2(offset)
    decreases |ms|
  {
    hide Pow2; hide Masked;
    if ms != [] {
      var w, y := ms[0].width, id / Pow2(offset);
      assert Extract(id, offset, Widths(ms))[0] == y % Pow2(w) == MaskedAll(ms)[0] == Masked(ms[0]);
      assert Widths(ms)[1..] == Widths(ms[1..]);
      assert MaskedAll(ms)[1..] == MaskedAll(ms[1..]);
      DivDiv(id, Pow2(offset), Pow2(w));
      Pow2Add(offset, w);
      Pow2Add(Width(ms[1..]), w);
      Quotients(y, Pow2(w));
      TopDigit(y, Pow2(w), Pow2(Width(ms[1..])));
      MixedUndoes(id, offset + w, ms[1..]);
    } else {
      Pow2Zero();
    }
  }

  lemma TopDigit(y: nat, b: nat, n: nat)
    requires b > 0 && y < n * b
    ensures y / b < n
  {
    Quotients(y, b);
    Distribute(n - y / b, y / b, b);
    Apart(n - y / b, b);
  }

  // ----- scalar types -----

  datatype ScalarType = ScalarType(exponent: int, mantissa: int, signed: bool, bias: int, finiteOnly: bool,
                                   nanRepr: int)

  const NAN_NONE := 0
  const NAN_IEEE_754 := 1
  const NAN_EXTD_RANGE_MAX_MIN := 2

  const ID_BITS := 58

  /** What the C++ field types can hold: uint8_t, uint8_t, bool, int32_t, bool, uint8_t. */
  predicate InRange(t: ScalarType) {
    && 0 <= t.exponent < 0x100 && 0 <= t.mantissa < 0x100 && 0 <= t.nanRepr < 0x100
    && -0x8000_0000 <= t.bias < 0x8000_0000
  }

  function Bit(b: bool): int { if b then 1 else 0 }

  /** The members in constructor order, each as wide as its C++ type. */
  function Members(t: ScalarType): seq<Member> {
    [Member(t.exponent, 8), Member(t.mantissa, 8), Member(Bit(t.signed), 1), Member(t.bias, 32),
     Member(Bit(t.finiteOnly), 1), Member(t.nanRepr, 8)]
  }

  /** ScalarType::id. */
  function Id(t: ScalarType): nat { Reduce((0, 0), Members(t)).0 }

  /** static_cast<int32_t> of a 32-bit field. */
  function Signed32(v: int): int { if v >= 0x8000_0000 then v - 0x1_0000_0000 else v }

  const FIELD_WIDTHS: seq<nat> := [8, 8, 1, 32, 1, 8]

  lemma {:induction false} ExtractLength(id: nat, offset: nat, widths: seq<nat>)
    ensures |Extract(id, offset, widths)| == |widths|
    decreases |widths|
  {
    if widths != [] { ExtractLength(id, offset + widths[0], widths[1..]); }
  }

  /** ScalarType::from_id. */
  function FromId(id: nat): ScalarType {
    ExtractLength(id, 0, FIELD_WIDTHS);
    var v := Extract(id, 0, FIELD_WIDTHS);
    ScalarType(v[0], v[1], v[2] != 0, Signed32(v[3]), v[4] != 0, v[5])
  }

  lemma FieldPowers()
    ensures Pow2(0) == 1 && Pow2(1) == 2 && Pow2(8) == 0x100 && Pow2(32) == 0x1_0000_0000
  {
    assert Pow2(4) == 16;
    Pow2Add(4, 4);
    Pow2Add(8, 8);
    Pow2Add(16, 16);
  }

  lemma IdIsMixed(t: ScalarType)
    ensures Id(t) == Mixed(Members(t)) && Id(t) / Pow2(0) == Mixed(Members(t))
  {
    hide Reduce; hide Mixed; hide Pow2;
    FieldPowers();
    ReduceIsMixed(0, 0, Members(t));
  }

  /** The fields of an id, whether or not the type fits them. */
  lemma IdFields(t: ScalarType)
    ensures Extract(Id(t), 0, FIELD_WIDTHS) == MaskedAll(Members(t))
    ensures MaskedAll(Members(t))
         == [t.exponent % 0x100, t.mantissa % 0x100, Bit(t.signed), t.bias % 0x1_0000_0000, Bit(t.finiteOnly),
             t.nanRepr % 0x100]
  {
    hide Extract; hide Mixed; hide Id; hide Pow2;
    FieldPowers();
    IdIsMixed(t);
    ExtractUndoes(Id(t), 0, Members(t));
    assert Widths(Members(t)) == FIELD_WIDTHS;
  }

  /** from_id(id(t)) is t, negative bias included. */
  lemma IdRoundTrip(t: ScalarType)
    requires InRange(t)
    ensures FromId(Id(t)) == t
  {
    hide Extract; hide MaskedAll; hide Id;
    IdFields(t);
  }

  /** Two types share an id exactly if their fields agree modulo the field widths. */
  lemma IdsEqual(t: ScalarType, u: ScalarType)
    ensures Id(t) == Id(u) <==>
              && t.exponent % 0x100 == u.exponent % 0x100 && t.mantissa % 0x100 == u.mantissa % 0x100
              && t.signed == u.signed && t.bias % 0x1_0000_0000 == u.bias % 0x1_0000_0000
              && t.finiteOnly == u.finiteOnly && t.nanRepr % 0x100 == u.nanRepr % 0x100
  {
    hide Extract; hide Id; hide Mixed; hide MaskedAll; hide Pow2;
    IdFields(t);
    IdFields(u);
    IdIsMixed(t);
    IdIsMixed(u);
    if MaskedAll(Members(t)) == MaskedAll(Members(u)) { SameDigits(Members(t), Members(u)); }
    var a, b := MaskedAll(Members(t)), MaskedAll(Members(u));
    assert a == b <==> a[0] == b[0] && a[1] == b[1] && a[2] == b[2] && a[3] == b[3] && a[4] == b[4] && a[5] == b[5];
  }

  lemma {:induction false} SameDigits(ms: seq<Member>, ns: seq<Member>)
    requires |ms| == |ns| && Widths(ms) == Widths(ns) && MaskedAll(ms) == MaskedAll(ns)
    ensures Mixed(ms) == Mixed(ns)
  {
    hide Masked;
    if ms != [] {
      assert Widths(ms)[0] == Widths(ns)[0] && MaskedAll(ms)[0] == MaskedAll(ns)[0];
      assert Widths(ms[1..]) == Widths(ms)[1..] && Widths(ns[1..]) == Widths(ns)[1..];
      assert MaskedAll(ms[1..]) == MaskedAll(ms)[1..] && MaskedAll(ns[1..]) == MaskedAll(ns)[1..];
      SameDigits(ms[1..], ns[1..]);
    }
  }

  /** And id(from_id(i)) is i: within 58 bits every integer is the id of exactly one type in range. */
  lemma FromIdRoundTrip(id: nat)
    requires id < Pow2(ID_BITS)
    ensures InRange(FromId(id)) && Id(FromId(id)) == id
  {
    hide Mixed; hide Id; hide Pow2; hide Extract; hide FromId; hide MaskedAll; hide Members; hide Width; hide Widths;
    var t := FromId(id);
    FieldsKept(id);
    SixWide(t);
    FieldPowers();
    assert id / Pow2(0) == id;
    MixedUndoes(id, 0, Members(t));
    IdIsMixed(t);
  }

  /** Casting a field to its type and masking it again changes nothing. */
  lemma FieldsKept(id: nat)
    ensures InRange(FromId(id)) && MaskedAll(Members(FromId(id))) == Extract(id, 0, FIELD_WIDTHS)
  {
    hide Extract; hide MaskedAll; hide Id;
    ExtractSix(id);
    var t, v := FromId(id), Extract(id, 0, FIELD_WIDTHS);
    IdFields(t);
    assert v == [v[0], v[1], v[2], v[3], v[4], v[5]];
    assert t.bias % 0x1_0000_0000 == v[3];
  }

  lemma ExtractSix(id: nat)
    ensures var v := Extract(id, 0, FIELD_WIDTHS);
            && |v| == 6 && 0 <= v[0] < 0x100 && 0 <= v[1] < 0x100 && 0 <= v[2] < 2
            && 0 <= v[3] < 0x1_0000_0000 && 0 <= v[4] < 2 && 0 <= v[5] < 0x100
  {
    FieldPowers();
    hide Pow2;
    ExtractLength(id, 0, FIELD_WIDTHS);
    forall i | 0 <= i < 6
      ensures |Extract(id, 0, FIELD_WIDTHS)| == 6 && 0 <= Extract(id, 0, FIELD_WIDTHS)[i] < Pow2(FIELD_WIDTHS[i])
    {
      ExtractBound(id, 0, FIELD_WIDTHS, i);
    }
  }

  lemma {:induction false} ExtractBound(id: nat, offset: nat, widths: seq<nat>, i: nat)
    requires i < |widths|
    ensures |Extract(id, offset, widths)| == |widths|
    ensures 0 <= Extract(id, offset, widths)[i] < Pow2(widths[i])
    decreases |widths|
  {
    hide Pow2;
    ExtractLength(id, offset, widths);
    Quotients(id, Pow2(offset));
    Quotients(id / Pow2(offset), Pow2(widths[0]));
    if i > 0 { ExtractBound(id, offset + widths[0], widths[1..], i - 1); }
  }

  lemma SixWide(t: ScalarType)
    ensures Widths(Members(t)) == FIELD_WIDTHS && Width(Members(t)) == ID_BITS
  {
    var ms := Members(t);
    assert ms[0..] == ms && ms[6..] == [];
    WidthStep(ms, 0);
    WidthStep(ms, 1);
    WidthStep(ms, 2);
    WidthStep(ms, 3);
    WidthStep(ms, 4);
    WidthStep(ms, 5);
  }

  lemma WidthStep(ms: seq<Member>, i: nat)
    requires i < |ms|
    ensures Width(ms[i..]) == ms[i].width + Width(ms[i + 1..])
  {
    assert ms[i..][1..] == ms[i + 1..];
  }

  // ----- the Python side -----

  /** ScalarType.id and the module's id map, which from_id reads. */
  class Registry {
    var types: map<int, ScalarType>

    /** Every id is bound to a type with that id. */
    ghost predicate Valid()
      reads this
    {
      forall id :: id in types ==> id == Id(types[id])
    }

    constructor ()
      ensures Valid() && types == map[]
    {
      types := map[];
    }

    /** Computes the C++ id, and binds it to the type. */
    method IdOf(t: ScalarType) returns (val: nat)
      requires Valid()
      modifies this
      ensures val == Id(t) && types == old(types)[val := t] && Valid()
    {
      hide Or; hide Pow2; hide Masked;
      var offset := 0;
      val := 0;
      val, offset := OrAndAdvance(val, offset, t.exponent, 8);
      val, offset := OrAndAdvance(val, offset, t.mantissa, 8);
      val, offset := OrAndAdvance(val, offset, Bit(t.signed), 1);
      val, offset := OrAndAdvance(val, offset, t.bias, 32);
      val, offset := OrAndAdvance(val, offset, Bit(t.finiteOnly), 1);
      val, offset := OrAndAdvance(val, offset, t.nanRepr, 8);
      SixSteps(Members(t), (0, 0));
      types := types[val := t];
    }

    /** A type with this very id, for exactly the ids handed out; if its fields are in range, the one C++ decodes. */
    method FromIdOf(id: int) returns (t: Option<ScalarType>)
      requires Valid()
      ensures t.Some? <==> id in types
      ensures t.Some? ==> Id(t.value) == id
      ensures t.Some? && InRange(t.value) ==> t.value == FromId(id)
    {
      hide Id; hide FromId;
      if id in types && InRange(types[id]) { IdRoundTrip(types[id]); }
      if id !in types { return None; }
      return Some(types[id]);
    }
  }

  method OrAndAdvance(val: nat, offset: nat, member: int, width: nat) returns (val': nat, offset': nat)
    ensures (val', offset') == Advance((val, offset), Member(member, width))
  {
    hide Or; hide Pow2;
    var masked := Masked(Member(member, width));
    val', offset' := Or(val, ShiftLeft(masked, offset)), offset + width;
  }

  lemma SixSteps(ms: seq<Member>, acc: (nat, nat))
    requires |ms| == 6
    ensures Reduce(acc, ms)
            == Advance(Advance(Advance(Advance(Advance(Advance(acc, ms[0]), ms[1]), ms[2]), ms[3]), ms[4]), ms[5])
  {
    hide Advance; hide Reduce;
    var a1 := Advance(acc, ms[0]);
    var a2 := Advance(a1, ms[1]);
    var a3 := Advance(a2, ms[2]);
    var a4 := Advance(a3, ms[3]);
    var a5 := Advance(a4, ms[4]);
    assert ms[0..] == ms;
    ReduceStep(acc, ms, 0);
    ReduceStep(a1, ms, 1);
    ReduceStep(a2, ms, 2);
    ReduceStep(a3, ms, 3);
    ReduceStep(a4, ms, 4);
    ReduceStep(a5, ms, 5);
    ReduceDone(Advance(a5, ms[5]), ms);
  }

  lemma ReduceStep(acc: (nat, nat), ms: seq<Member>, i: nat)
    requires i < |ms|
    ensures Reduce(acc, ms[i..]) == Reduce(Advance(acc, ms[i]), ms[i + 1..])
  {
    hide Advance;
    assert ms[i..][1..] == ms[i + 1..];
  }

  lemma ReduceDone(acc: (nat, nat), ms: seq<Member>)
    ensures Reduce(acc, ms[|ms|..]) == acc
  {}

  /** With fields in range the map never rebinds an id to another type, and agrees with from_id in C++. */
  lemma NeverRebound(types: map<int, ScalarType>, t: ScalarType)
    requires forall id :: id in types ==> id == Id(types[id]) && InRange(types[id])
    requires InRange(t)
    ensures Id(t) in types ==> types[Id(t)] == t
    ensures forall id :: id in types ==> FromId(id) == types[id]
  {
    hide Id; hide FromId;
    forall id | id in types ensures FromId(id) == types[id] { IdRoundTrip(types[id]); }
    IdRoundTrip(t);
  }

  /** Out of range it can: two types, one id. */
  lemma Rebinding()
    ensures
      var t, u := ScalarType(0, 4, false, 0, false, 1), ScalarType(0x100, 4, false, 0, false, 1);
      t != u && Id(t) == Id(u)
  {
    hide Id;
    IdsEqual(ScalarType(0, 4, false, 0, false, 1), ScalarType(0x100, 4, false, 0, false, 1));
  }

  // ----- the largest finite value -----

  /** Value of the bits of a positive finite double, in units of 2^-1074. */
  ghost function DoubleValue(bits: nat): int {
    Quotients(bits, Pow2(52));
    HalfFloat.Scaled(Pow2(52), bits / Pow2(52), bits % Pow2(52))
  }

  /** is_floating_point; there may be no mantissa bits. */
  predicate IsFloat(t: ScalarType) { t.exponent >= 1 && t.mantissa >= 0 && 0 <= t.nanRepr <= 2 }

  predicate FitsDouble(t: ScalarType) {
    t.mantissa <= 52 && t.exponent <= 11 && (t.nanRepr != NAN_IEEE_754 ==> t.exponent < 11)
  }

  function ExponentBias(t: ScalarType): nat
    requires IsFloat(t)
  {
    Pow2(t.exponent - 1) - 1
  }

  lemma BiasBound(t: ScalarType)
    requires IsFloat(t) && FitsDouble(t)
    ensures ExponentBias(t) <= 1023
  {
    Pow2Add(11 - t.exponent, t.exponent - 1);
    assert Pow2(10) == 1024 by { assert Pow2(5) == 32; Pow2Add(5, 5); }
    hide Pow2;
    Scale(1, Pow2(11 - t.exponent), Pow2(t.exponent - 1));
  }

  /** Value of an exponent and a mantissa field of the type, in the same unit. */
  ghost function FormatValue(t: ScalarType, e: nat, m: nat): int
    requires IsFloat(t) && FitsDouble(t)
  {
    BiasBound(t);
    HalfFloat.Scaled(Pow2(t.mantissa), e, m) * Pow2(1075 - ExponentBias(t) - t.mantissa)
  }

  // Which codes are numbers.  NaNs are as the NanRepr enum describes them.  Where infinities
  // are supported, +infinity is the last code that is not a NaN: for IEEE 754 types the top
  // exponent with mantissa 0, as section 3.4 of IEEE 754-2019 has it.

  ghost predicate IsCode(t: ScalarType, e: nat, m: nat)
    requires IsFloat(t)
  {
    e < Pow2(t.exponent) && m < Pow2(t.mantissa)
  }

  ghost predicate IsNan(t: ScalarType, e: nat, m: nat)
    requires IsFloat(t)
  {
    && e == Pow2(t.exponent) - 1
    && ((t.nanRepr == NAN_IEEE_754 && m != 0) || (t.nanRepr == NAN_EXTD_RANGE_MAX_MIN && m == Pow2(t.mantissa) - 1))
  }

  ghost predicate Before(e: nat, m: nat, e': nat, m': nat) { e < e' || (e == e' && m < m') }

  ghost predicate IsInfinity(t: ScalarType, e: nat, m: nat)
    requires IsFloat(t)
  {
    && !t.finiteOnly && IsCode(t, e, m) && !IsNan(t, e, m)
    && forall e': nat, m': nat :: IsCode(t, e', m') && !IsNan(t, e', m') ==> !Before(e, m, e', m')
  }

  ghost predicate Finite(t: ScalarType, e: nat, m: nat)
    requires IsFloat(t)
  {
    IsCode(t, e, m) && !IsNan(t, e, m) && !IsInfinity(t, e, m)
  }

  ghost predicate IsLargest(t: ScalarType, v: int)
    requires IsFloat(t) && FitsDouble(t)
  {
    && (exists e: nat, m: nat :: Finite(t, e, m) && FormatValue(t, e, m) == v)
    && (forall e: nat, m: nat :: Finite(t, e, m) ==> FormatValue(t, e, m) <= v)
  }

  lemma Pow2Least(n: nat)
    requires n >= 1
    ensures Pow2(n) >= 2
  {}

  function MaxMantissa(t: ScalarType): int
    requires t.mantissa >= 0
  {
    Pow2(t.mantissa) - if t.nanRepr == NAN_EXTD_RANGE_MAX_MIN then 2 else 1
  }

  function MaxExponent(t: ScalarType): int
    requires t.exponent >= 0
  {
    Pow2(t.exponent) - if t.nanRepr == NAN_IEEE_754 then 2 else 1
  }

  /** A significand below 2 is less than any a binade up or more. */
  lemma BinadeUp(one: nat, m: nat, e: nat, top: nat)
    requires m < one && 1 <= e < top
    ensures (one + m) * Pow2(e - 1) < one * Pow2(top - 1)
  {
    hide Pow2;
    var w, gap := Pow2(e - 1), Pow2(top - e);
    assert gap >= 2 by { Pow2Least(top - e); }
    assert one * Pow2(top - 1) == (one * gap) * w by { Pow2Add(top - e, e - 1); Reassociate(one, gap, w); }
    assert one + m < one * gap by { Scale(2, gap, one); }
    Scale(one + m, one * gap, w);
  }

  /** Codes are ordered like their values. */
  lemma BelowTop(one: nat, e: nat, m: nat, maxE: nat, maxM: nat)
    requires m < one && maxM < one && 1 <= maxE && Before(e, m, maxE, maxM)
    ensures HalfFloat.Scaled(one, e, m) < HalfFloat.Scaled(one, maxE, maxM)
  {
    hide Pow2;
    var top := Pow2(maxE - 1);
    Distribute(one, maxM, top);
    Scale(0, maxM, top);
    if e == maxE {
      Distribute(one, m, top);
      Scale(m, maxM, top);
    } else if e == 0 {
      Scale(1, top, one);
    } else {
      BinadeUp(one, m, e, maxE);
    }
  }

  lemma Ordered(t: ScalarType, e: nat, m: nat, e': nat, m': nat)
    requires IsFloat(t) && FitsDouble(t) && IsCode(t, e, m) && IsCode(t, e', m') && 1 <= e' && Before(e, m, e', m')
    ensures FormatValue(t, e, m) < FormatValue(t, e', m')
  {
    hide Pow2; hide ExponentBias;
    BiasBound(t);
    var one, w := Pow2(t.mantissa), Pow2(1075 - ExponentBias(t) - t.mantissa);
    BelowTop(one, e, m, e', m');
    var a, b := HalfFloat.Scaled(one, e, m), HalfFloat.Scaled(one, e', m');
    Distribute(b - a, a, w);
    Apart(b - a, w);
  }

  /** The bits assembled for a mantissa and an exponent field. */
  function Assembled(t: ScalarType, maxM: nat, maxE: nat): (bits: nat)
    requires IsFloat(t) && FitsDouble(t)
  {
    BiasBound(t);
    Or(ShiftLeft(maxM, 52 - t.mantissa), ShiftLeft(maxE - ExponentBias(t) + 1023, 52))
  }

  /** They denote (1.mantissa) * 2^(exponent - bias), whether or not the type has such a code. */
  lemma AssembledValue(t: ScalarType, maxM: nat, maxE: nat)
    requires IsFloat(t) && FitsDouble(t) && maxM < Pow2(t.mantissa) && maxE + 1023 > ExponentBias(t)
    ensures ExponentBias(t) <= 1023
    ensures DoubleValue(Assembled(t, maxM, maxE))
         == (Pow2(t.mantissa) + maxM) * Pow2(1074 - ExponentBias(t) - t.mantissa + maxE)
  {
    hide Or; hide Pow2; hide ExponentBias;
    BiasBound(t);
    var M, e := t.mantissa, maxE - ExponentBias(t) + 1023;
    var low := maxM * Pow2(52 - M);
    Pow2Add(M, 52 - M);
    Scale(maxM, Pow2(M), Pow2(52 - M));
    OrDisjoint(low, e, 52);
    DivUnique(low + e * Pow2(52), Pow2(52), e, low);
    Distribute(Pow2(M), maxM, Pow2(52 - M));
    Pow2Add(52 - M, e - 1);
    Reassociate(Pow2(M) + maxM, Pow2(52 - M), Pow2(e - 1));
  }

  /** The code the result is assembled from has that value, unless its exponent is 0. */
  lemma AssembledCode(t: ScalarType, maxM: nat, maxE: nat)
    requires IsFloat(t) && FitsDouble(t) && IsCode(t, maxE, maxM) && maxE >= 1
    ensures DoubleValue(Assembled(t, maxM, maxE)) == FormatValue(t, maxE, maxM)
  {
    hide Pow2; hide ExponentBias; hide Assembled; hide DoubleValue;
    BiasBound(t);
    var M := t.mantissa;
    var s := 1075 - ExponentBias(t) - M;
    AssembledValue(t, maxM, maxE);
    Pow2Add(maxE - 1, s);
    Reassociate(Pow2(M) + maxM, Pow2(maxE - 1), Pow2(s));
  }

  /**
    When the code the source takes for the largest finite one is: the type has infinities
    exactly if it is an IEEE 754 type, an IEEE 754 type has two exponent bits or more, and
    an extended-range type has a mantissa.
   */
  predicate Foreseen(t: ScalarType) {
    && (t.finiteOnly <==> t.nanRepr != NAN_IEEE_754)
    && (t.nanRepr == NAN_IEEE_754 ==> t.exponent > 1)
    && (t.nanRepr == NAN_EXTD_RANGE_MAX_MIN ==> t.mantissa > 0)
  }

  lemma MaxCode(t: ScalarType)
    requires IsFloat(t) && (t.mantissa > 0 || t.nanRepr != NAN_EXTD_RANGE_MAX_MIN)
    ensures 0 <= MaxExponent(t) < Pow2(t.exponent) && 0 <= MaxMantissa(t) < Pow2(t.mantissa)
    ensures MaxExponent(t) >= 1 <==> t.exponent > 1 || t.nanRepr != NAN_IEEE_754
    ensures IsCode(t, MaxExponent(t), MaxMantissa(t)) && !IsNan(t, MaxExponent(t), MaxMantissa(t))
  {
    Pow2Least(t.exponent);
    if t.mantissa > 0 { Pow2Least(t.mantissa); }
    if t.exponent > 1 {
      Doubled(1, t.exponent - 1);
      Pow2Least(t.exponent - 1);
    } else {
      Pow2Zero();
    }
  }

  /** The infinity of IEEE 754 types: the top exponent is left to it and the NaNs. */
  lemma IeeeInfinity(t: ScalarType)
    requires IsFloat(t) && t.nanRepr == NAN_IEEE_754 && !t.finiteOnly
    ensures IsInfinity(t, Pow2(t.exponent) - 1, 0)
    ensures forall e: nat, m: nat :: Finite(t, e, m) ==> e < Pow2(t.exponent) - 1
  {
    hide Pow2;
  }

  /** Then the assembled double is the largest finite value. */
  lemma LargestNormal(t: ScalarType)
    requires IsFloat(t) && FitsDouble(t) && Foreseen(t)
    ensures MaxMantissa(t) >= 0 && MaxExponent(t) >= 0
    ensures IsLargest(t, DoubleValue(Assembled(t, MaxMantissa(t), MaxExponent(t))))
  {
    MaxCode(t);
    hide Pow2; hide Assembled; hide DoubleValue; hide FormatValue;
    var maxE: nat, maxM: nat := MaxExponent(t), MaxMantissa(t);
    AssembledCode(t, maxM, maxE);
    if t.nanRepr == NAN_IEEE_754 { IeeeInfinity(t); }
    assert Finite(t, maxE, maxM);
    forall e: nat, m: nat | Finite(t, e, m) ensures FormatValue(t, e, m) <= FormatValue(t, maxE, maxM) {
      if Before(e, m, maxE, maxM) { Ordered(t, e, m, maxE, maxM); }
    }
  }

  /** One exponent bit under IEEE 754 leaves only subnormals, and the assembled double is not among them. */
  lemma OneBitExponent(t: ScalarType)
    requires IsFloat(t) && FitsDouble(t) && t.exponent == 1 && t.nanRepr == NAN_IEEE_754 && !t.finiteOnly
    ensures MaxExponent(t) == 0 <= MaxMantissa(t)
    ensures !IsLargest(t, DoubleValue(Assembled(t, MaxMantissa(t), MaxExponent(t))))
  {
    Pow2Zero();
    assert Pow2(1) == 2;
    hide Pow2; hide Assembled;
    IeeeInfinity(t);
    var M, maxM: nat := t.mantissa, MaxMantissa(t);
    AssembledValue(t, maxM, 0);
    var unit := Pow2(1074 - M);
    forall e: nat, m: nat | Finite(t, e, m)
      ensures FormatValue(t, e, m) != DoubleValue(Assembled(t, maxM, 0))
    {
      Doubled(m, 1074 - M);
      Reassociate(2, m, unit);
      assert FormatValue(t, e, m) == (2 * m) * unit;
      Scale(2 * m, Pow2(M) + maxM, unit);
    }
  }

  /** Without infinities an IEEE 754 type has one more finite code, whose value is larger. */
  lemma FiniteOnlyIeee(t: ScalarType)
    requires IsFloat(t) && FitsDouble(t) && t.nanRepr == NAN_IEEE_754 && t.finiteOnly
    ensures MaxMantissa(t) >= 0 && MaxExponent(t) >= 0 && Finite(t, MaxExponent(t) + 1, 0)
    ensures DoubleValue(Assembled(t, MaxMantissa(t), MaxExponent(t))) < FormatValue(t, MaxExponent(t) + 1, 0)
  {
    MaxCode(t);
    BiasBound(t);
    hide Pow2; hide Assembled; hide DoubleValue; hide ExponentBias;
    var one, maxE: nat, maxM: nat := Pow2(t.mantissa), MaxExponent(t), MaxMantissa(t);
    var s := 1074 - ExponentBias(t) - t.mantissa;
    var x := Pow2(s + maxE);
    AssembledValue(t, maxM, maxE);
    assert FormatValue(t, maxE + 1, 0) == (2 * one) * x by {
      Pow2Add(maxE, s + 1);
      Reassociate(one, Pow2(maxE), Pow2(s + 1));
      Doubled(one, s + maxE);
      Reassociate(2, one, x);
    }
    Scale(one + maxM, 2 * one, x);
  }

  /** With infinities but no code of their own foreseen, the assembled double is the infinity's. */
  lemma TakesInfinity(t: ScalarType)
    requires IsFloat(t) && FitsDouble(t) && t.nanRepr != NAN_IEEE_754 && !t.finiteOnly
    requires t.mantissa > 0 || t.nanRepr != NAN_EXTD_RANGE_MAX_MIN
    ensures MaxMantissa(t) >= 0 && MaxExponent(t) >= 0 && IsInfinity(t, MaxExponent(t), MaxMantissa(t))
    ensures !IsLargest(t, DoubleValue(Assembled(t, MaxMantissa(t), MaxExponent(t))))
  {
    MaxCode(t);
    hide Pow2; hide Assembled; hide DoubleValue; hide FormatValue;
    var maxE: nat, maxM: nat := MaxExponent(t), MaxMantissa(t);
    AssembledCode(t, maxM, maxE);
    assert IsInfinity(t, maxE, maxM);
    forall e: nat, m: nat | Finite(t, e, m) ensures FormatValue(t, e, m) < FormatValue(t, maxE, maxM) {
      assert !Before(maxE, maxM, e, m);
      Ordered(t, e, m, maxE, maxM);
    }
  }

  /** Two types the constructors accept for which the result is not the largest finite value. */
  lemma Unforeseen()
    ensures
      var half := ScalarType(5, 10, true, 0, true, NAN_IEEE_754);
      && IsFloat(half) && FitsDouble(half) && MaxExponent(half) == 30 && MaxMantissa(half) == 1023
      && Finite(half, 31, 0) && FormatValue(half, 31, 0) > FormatValue(half, 30, 1023)
    ensures
      var six := ScalarType(3, 2, true, 0, false, NAN_NONE);
      && IsFloat(six) && FitsDouble(six) && MaxExponent(six) == 7 && MaxMantissa(six) == 3 && IsInfinity(six, 7, 3)
  {
    assert Pow2(5) == 32 && Pow2(3) == 8 && Pow2(2) == 4;
    assert Pow2(10) == 1024 by { Pow2Add(5, 5); }
    var half, six := ScalarType(5, 10, true, 0, true, NAN_IEEE_754), ScalarType(3, 2, true, 0, false, NAN_NONE);
    hide Pow2; hide FormatValue;
    FiniteOnlyIeee(half);
    Ordered(half, 30, 1023, 31, 0);
    TakesInfinity(six);
  }

  /**
    _floating_point_max_int: fails exactly if a double cannot hold the type's range, and
    otherwise gives the type's largest finite value exactly if the type is one it foresees.
    (For an extended-range type without mantissa the result is negative, and no double.)
   */
  method FloatingPointMaxInt(t: ScalarType) returns (r: Option<int>)
    requires IsFloat(t)
    ensures r.Some? <==> t.mantissa <= 52 && if t.nanRepr == NAN_IEEE_754 then t.exponent <= 11 else t.exponent <= 10
    ensures r.Some? ==> FitsDouble(t) && (r.value >= 0 && IsLargest(t, DoubleValue(r.value)) <==> Foreseen(t))
  {
    hide Or; hide IsLargest; hide DoubleValue; hide Pow2; hide ShiftLeft; hide IsInfinity;
    if t.mantissa > 52 || t.exponent > 11 { return None; }
    var maxMantissa := Pow2(t.mantissa) - 1;
    if t.nanRepr == NAN_EXTD_RANGE_MAX_MIN {
      maxMantissa := maxMantissa - 1;
    }
    var maxExponent := Pow2(t.exponent) - 2;
    if t.nanRepr == NAN_EXTD_RANGE_MAX_MIN || t.nanRepr == NAN_NONE {
      if t.exponent >= 11 { return None; }
      maxExponent := maxExponent + 1;
    }
    Pow2Least(t.exponent);
    BiasBound(t);
    var bias := Pow2(t.exponent - 1) - 1;
    var maxExponentDouble := maxExponent - bias + 1023;
    var bits := Or(ShiftLeft(maxMantissa, 52 - t.mantissa), ShiftLeft(maxExponentDouble, 52));
    if t.mantissa == 0 && t.nanRepr == NAN_EXTD_RANGE_MAX_MIN {
      Pow2Zero();
      OrNegative(maxExponentDouble, 52);
    } else if Foreseen(t) {
      LargestNormal(t);
    } else {
      NotLargest(t);
    }
    r := Some(bits);
  }

  lemma NotLargest(t: ScalarType)
    requires IsFloat(t) && FitsDouble(t) && !Foreseen(t) && (t.mantissa > 0 || t.nanRepr != NAN_EXTD_RANGE_MAX_MIN)
    ensures MaxMantissa(t) >= 0 && MaxExponent(t) >= 0
    ensures !IsLargest(t, DoubleValue(Assembled(t, MaxMantissa(t), MaxExponent(t))))
  {
    hide Pow2; hide Assembled; hide DoubleValue; hide FormatValue; hide Finite; hide IsInfinity;
    if t.nanRepr != NAN_IEEE_754 {
      TakesInfinity(t);
    } else if t.finiteOnly {
      FiniteOnlyIeee(t);
    } else {
      OneBitExponent(t);
    }
  }
}
