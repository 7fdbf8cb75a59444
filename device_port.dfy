/** Bit-range ports of the FPGA-X2P back end (`BasicPort` and `ConfPorts`).

    A port is a pair of 64-bit unsigned bit indices `[lsb, msb]`.  A port whose
    `msb` is below its `lsb` is invalid and has width 0; the canonical invalid
    port is `lsb = 1, msb = 0`.  All arithmetic is on `size_t`, so `+=` wraps
    modulo 2^64 and is written out explicitly here.

    The pure functions on `Port` values state what each mutator does; the
    classes `BasicPort` and `ConfPorts` update their fields in place and are
    proved against those functions. */
module DevicePort {

  const SIZE_T_MODULUS: int := 0x1_0000_0000_0000_0000

  /** `size_t` on a 64-bit host. */
  newtype SizeT = x: int | 0 <= x < 0x1_0000_0000_0000_0000

  const SIZE_MAX: SizeT := 0xFFFF_FFFF_FFFF_FFFF

  /** `a + b` on `size_t`: wraps around modulo 2^64. */
  function WrapAdd(a: SizeT, b: SizeT): (r: SizeT)
    ensures a as int + b as int < SIZE_T_MODULUS ==> r as int == a as int + b as int
    ensures a as int + b as int >= SIZE_T_MODULUS ==> r as int == a as int + b as int - SIZE_T_MODULUS
  {
    ((a as int + b as int) % SIZE_T_MODULUS) as SizeT
  }

  /** The whole state of a `BasicPort`. */
  datatype Port = Port(lsb: SizeT, msb: SizeT)

  /** `is_valid`: a port is valid when its msb is not below its lsb. */
  predicate IsValid(p: Port) {
    !(p.msb < p.lsb)
  }

  /** `get_width`: `msb - lsb + 1` on `size_t` for a valid port, 0 otherwise.
      The full range `[0, SIZE_MAX]` wraps around to width 0. */
  function Width(p: Port): (w: SizeT)
    ensures !IsValid(p) ==> w == 0
    ensures IsValid(p) && !(p.lsb == 0 && p.msb == SIZE_MAX) ==> w as int == p.msb as int - p.lsb as int + 1
    ensures w == 0 <==> !IsValid(p) || (p.lsb == 0 && p.msb == SIZE_MAX)
  {
    if IsValid(p) then WrapAdd(p.msb - p.lsb, 1) else 0
  }

  /** The port that the default constructor, `reset` and `make_invalid` build. */
  function Invalid(): (p: Port)
    ensures !IsValid(p) && Width(p) == 0
  {
    Port(1, 0)
  }

  /** `set_width(width)`: `[0, width-1]`, or the invalid port for width 0. */
  function Sized(width: SizeT): (p: Port)
    ensures Width(p) == width
    ensures width == 0 ==> p == Invalid()
    ensures width > 0 ==> p.lsb == 0 && IsValid(p)
  {
    if width == 0 then Invalid() else Port(0, width - 1)
  }

  /** `set_width(lsb, msb)`: exactly `[lsb, msb]`, or the invalid port when
      `lsb > msb`. */
  function Ranged(lsb: SizeT, msb: SizeT): (p: Port)
    ensures lsb <= msb ==> p.lsb == lsb && p.msb == msb && IsValid(p)
    ensures lsb > msb ==> p == Invalid()
  {
    if lsb > msb then Invalid() else Port(lsb, msb)
  }

  /** `expand(width)`: a zero width is ignored; a port of width 0 becomes
      `[0, width]` (one bit wider than asked for); otherwise `msb += width`. */
  function Expanded(p: Port, width: SizeT): (q: Port)
    ensures width == 0 ==> q == p
    ensures width > 0 && Width(p) == 0 ==> q == Port(0, width)
    ensures width > 0 && Width(p) == 0 && width < SIZE_MAX ==> Width(q) as int == width as int + 1
    ensures width > 0 && Width(p) > 0 ==> q.lsb == p.lsb
    ensures width > 0 && Width(p) > 0 && p.msb as int + width as int < SIZE_MAX as int
            ==> Width(q) as int == Width(p) as int + width as int
  {
    if width == 0 then p
    else if Width(p) == 0 then Port(0, width)
    else p.(msb := WrapAdd(p.msb, width))
  }

  /** `revert`: swaps lsb and msb. */
  function Reverted(p: Port): (q: Port)
    ensures q.lsb == p.msb && q.msb == p.lsb
    ensures p.lsb < p.msb ==> !IsValid(q)
  {
    Port(p.msb, p.lsb)
  }

  /** `rotate(offset)`: a zero offset or a port of width 0 succeeds without
      change; an offset that would carry `msb` past `SIZE_MAX` fails without
      change; otherwise both ends move up by `offset`. */
  function Rotated(p: Port, offset: SizeT): (r: (bool, Port))
    ensures offset == 0 || Width(p) == 0 ==> r == (true, p)
    ensures Width(p) > 0 && offset > 0 && SIZE_MAX - p.msb < offset ==> r == (false, p)
    ensures r.0 && Width(p) > 0 ==>
              r.1.lsb as int == p.lsb as int + offset as int && r.1.msb as int == p.msb as int + offset as int
    ensures Width(r.1) == Width(p)
  {
    if offset == 0 || Width(p) == 0 then (true, p)
    else if SIZE_MAX - p.msb < offset then (false, p)
    else (true, Port(p.lsb + offset, p.msb + offset))
  }

  /** `counter_rotate(offset)`: a zero offset or a port of width 0 succeeds
      without change; an offset larger than `lsb` fails without change;
      otherwise both ends move down by `offset`. */
  function CounterRotated(p: Port, offset: SizeT): (r: (bool, Port))
    ensures offset == 0 || Width(p) == 0 ==> r == (true, p)
    ensures Width(p) > 0 && p.lsb < offset ==> r == (false, p)
    ensures r.0 && Width(p) > 0 ==>
              r.1.lsb as int == p.lsb as int - offset as int && r.1.msb as int == p.msb as int - offset as int
    ensures Width(r.1) == Width(p)
  {
    if offset == 0 || Width(p) == 0 then (true, p)
    else if p.lsb < offset then (false, p)
    else (true, Port(p.lsb - offset, p.msb - offset))
  }

  /** `combine(other)`: requires `other` of non-zero width; a port of width 0
      stays as it is, otherwise `msb += other.get_width()`. */
  function Combined(p: Port, other: Port): (q: Port)
    requires Width(other) > 0
    ensures Width(p) == 0 ==> q == p
    ensures q.lsb == p.lsb
    ensures Width(p) > 0 && p.msb as int + Width(other) as int < SIZE_MAX as int
            ==> Width(q) as int == Width(p) as int + Width(other) as int
  {
    if Width(p) == 0 then p else p.(msb := WrapAdd(p.msb, Width(other)))
  }

  /** A successful rotation is undone by the counter rotation by the same
      offset. */
  lemma RotateThenCounterRotate(p: Port, offset: SizeT)
    requires Rotated(p, offset).0
    ensures CounterRotated(Rotated(p, offset).1, offset) == (true, p)
  {
  }

  /** A successful counter rotation is undone by the rotation by the same
      offset. */
  lemma CounterRotateThenRotate(p: Port, offset: SizeT)
    requires CounterRotated(p, offset).0
    ensures Rotated(CounterRotated(p, offset).1, offset) == (true, p)
  {
  }

  /** Rotation fails exactly when the port has a width, the offset is
      non-zero and `msb + offset` does not fit in a `size_t`. */
  lemma RotateFailsOnlyOnOverflow(p: Port, offset: SizeT)
    ensures !Rotated(p, offset).0 <==>
            Width(p) > 0 && offset > 0 && p.msb as int + offset as int > SIZE_MAX as int
  {
  }

  /** `revert` is an involution. */
  lemma RevertTwice(p: Port)
    ensures Reverted(Reverted(p)) == p
  {
  }

  /** Expanding an invalid port by `w` gives width `w + 1`, while expanding
      a valid port by `w` adds exactly `w`: the two branches of `expand` are
      not the same operation. */
  lemma ExpandInvalidIsOneWider(w: SizeT)
    requires 0 < w < SIZE_MAX
    ensures Width(Expanded(Invalid(), w)) as int == w as int + 1
    ensures Width(Expanded(Sized(1), w)) as int == w as int + 1
    ensures Width(Expanded(Sized(w), w)) as int == 2 * w as int || 2 * w as int >= SIZE_MAX as int
  {
  }

  /** The full range `[0, SIZE_MAX]` is valid but reads as width 0, so
      `expand` and `combine` treat it as an invalid port. */
  lemma FullRangeHasZeroWidth()
    ensures IsValid(Port(0, SIZE_MAX)) && Width(Port(0, SIZE_MAX)) == 0
    ensures Expanded(Port(0, SIZE_MAX), 3) == Port(0, 3)
  {
  }

  /** A `BasicPort`: two `size_t` fields updated in place. */
  class BasicPort {
    var msb: SizeT
    var lsb: SizeT

    /** The abstract value of this port. */
    function Value(): Port
      reads this
    {
      Port(lsb, msb)
    }

    /** `get_width`. */
    function GetWidth(): SizeT
      reads this
    {
      Width(Value())
    }

    /** Default constructor: an invalid port of width 0. */
    constructor ()
      ensures Value() == Invalid()
    {
      lsb := 1;
      msb := 0;
    }

    /** Copy constructor. */
    constructor Copy(other: BasicPort)
      ensures Value() == other.Value()
    {
      lsb := other.lsb;
      msb := other.msb;
    }

    method Set(other: BasicPort)
      modifies this
      ensures Value() == old(other.Value())
    {
      var l, m := other.lsb, other.msb;
      lsb := l;
      msb := m;
    }

    method SetWidth(width: SizeT)
      modifies this
      ensures Value() == Sized(width)
    {
      if width == 0 {
        MakeInvalid();
        return;
      }
      lsb := 0;
      msb := width - 1;
    }

    method SetRange(l: SizeT, m: SizeT)
      modifies this
      ensures Value() == Ranged(l, m)
    {
      if l > m {
        MakeInvalid();
        return;
      }
      SetLsb(l);
      SetMsb(m);
    }

    method SetLsb(l: SizeT)
      modifies this
      ensures lsb == l && msb == old(msb)
    {
      lsb := l;
    }

    method SetMsb(m: SizeT)
      modifies this
      ensures msb == m && lsb == old(lsb)
    {
      msb := m;
    }

    method Expand(width: SizeT)
      modifies this
      ensures Value() == Expanded(old(Value()), width)
    {
      if width == 0 {
        return;
      }
      if GetWidth() == 0 {
        lsb := 0;
        msb := width;
        return;
      }
      msb := WrapAdd(msb, width);
    }

    method Revert()
      modifies this
      ensures Value() == Reverted(old(Value()))
    {
      lsb, msb := msb, lsb;
    }

    method Rotate(offset: SizeT) returns (ok: bool)
      modifies this
      ensures (ok, Value()) == Rotated(old(Value()), offset)
    {
      if offset == 0 || GetWidth() == 0 {
        return true;
      }
      if SIZE_MAX - msb < offset {
        return false;
      }
      lsb := lsb + offset;
      msb := msb + offset;
      return true;
    }

    method CounterRotate(offset: SizeT) returns (ok: bool)
      modifies this
      ensures (ok, Value()) == CounterRotated(old(Value()), offset)
    {
      if offset == 0 || GetWidth() == 0 {
        return true;
      }
      if lsb < offset {
        return false;
      }
      lsb := lsb - offset;
      msb := msb - offset;
      return true;
    }

    method Reset()
      modifies this
      ensures Value() == Invalid()
    {
      MakeInvalid();
    }

    method Combine(other: BasicPort)
      requires other.GetWidth() > 0
      modifies this
      ensures Value() == Combined(old(Value()), old(other.Value()))
    {
      var w := other.GetWidth();
      if GetWidth() == 0 {
        return;
      }
      msb := WrapAdd(msb, w);
    }

    method MakeInvalid()
      modifies this
      ensures Value() == Invalid()
    {
      lsb := 1;
      msb := 0;
    }
  }

  /** The configuration ports of a block: a reserved port (used by RRAM
      architectures) and a regular port.  The two ports are distinct objects,
      as the C++ class holds them by value. */
  class ConfPorts {
    const reserved: BasicPort
    const regular: BasicPort

    ghost predicate Valid()
      reads this
    {
      reserved != regular
    }

    constructor ()
      ensures Valid() && fresh(reserved) && fresh(regular)
      ensures reserved.Value() == Invalid() && regular.Value() == Invalid()
    {
      reserved := new BasicPort();
      regular := new BasicPort();
    }

    /** Copy constructor: goes through `set`. */
    constructor Copy(other: ConfPorts)
      requires other.Valid()
      ensures Valid() && fresh(reserved) && fresh(regular)
      ensures reserved.Value() == Sized(Width(other.reserved.Value()))
      ensures regular.Value() == Ranged(other.regular.lsb, other.regular.msb)
    {
      var r := new BasicPort();
      var g := new BasicPort();
      r.SetWidth(Width(other.reserved.Value()));
      g.SetRange(other.regular.lsb, other.regular.msb);
      reserved := r;
      regular := g;
    }

    /** `set`: copies only the WIDTH of the other reserved port, and the
        lsb/msb of the other regular port through `set_width(lsb, msb)`. */
    method Set(other: ConfPorts)
      requires Valid() && other.Valid()
      modifies reserved, regular
      ensures reserved.Value() == Sized(Width(old(other.reserved.Value())))
      ensures regular.Value() == Ranged(old(other.regular.lsb), old(other.regular.msb))
    {
      var w := other.reserved.GetWidth();
      var l, m := other.regular.lsb, other.regular.msb;
      SetReservedPort(w);
      SetRegularRange(l, m);
    }

    method SetReservedPort(width: SizeT)
      requires Valid()
      modifies reserved
      ensures reserved.Value() == Sized(width)
    {
      reserved.SetWidth(width);
    }

    method SetRegularPort(width: SizeT)
      requires Valid()
      modifies regular
      ensures regular.Value() == Sized(width)
    {
      regular.SetWidth(width);
    }

    method SetRegularRange(l: SizeT, m: SizeT)
      requires Valid()
      modifies regular
      ensures regular.Value() == Ranged(l, m)
    {
      regular.SetRange(l, m);
    }

    method SetRegularPortLsb(l: SizeT)
      requires Valid()
      modifies regular
      ensures regular.lsb == l && regular.msb == old(regular.msb)
    {
      regular.SetLsb(l);
    }

    method SetRegularPortMsb(m: SizeT)
      requires Valid()
      modifies regular
      ensures regular.msb == m && regular.lsb == old(regular.lsb)
    {
      regular.SetMsb(m);
    }

    method ExpandReservedPort(width: SizeT)
      requires Valid()
      modifies reserved
      ensures reserved.Value() == Expanded(old(reserved.Value()), width)
    {
      reserved.Expand(width);
    }

    method ExpandRegularPort(width: SizeT)
      requires Valid()
      modifies regular
      ensures regular.Value() == Expanded(old(regular.Value()), width)
    {
      regular.Expand(width);
    }

    /** `expand`: widens both ports by the same amount. */
    method Expand(width: SizeT)
      requires Valid()
      modifies reserved, regular
      ensures reserved.Value() == Expanded(old(reserved.Value()), width)
      ensures regular.Value() == Expanded(old(regular.Value()), width)
    {
      ExpandReservedPort(width);
      ExpandRegularPort(width);
    }

    /** Rotation applies to the regular port only. */
    method RotateRegularPort(offset: SizeT) returns (ok: bool)
      requires Valid()
      modifies regular
      ensures (ok, regular.Value()) == Rotated(old(regular.Value()), offset)
      ensures reserved.Value() == old(reserved.Value())
    {
      ok := regular.Rotate(offset);
    }

    method CounterRotateRegularPort(offset: SizeT) returns (ok: bool)
      requires Valid()
      modifies regular
      ensures (ok, regular.Value()) == CounterRotated(old(regular.Value()), offset)
      ensures reserved.Value() == old(reserved.Value())
    {
      ok := regular.CounterRotate(offset);
    }

    method Reset()
      requires Valid()
      modifies reserved, regular
      ensures reserved.Value() == Invalid() && regular.Value() == Invalid()
    {
      reserved.Reset();
      regular.Reset();
    }
  }

  /** Copying a `ConfPorts` keeps the reserved port's width but normalises it
      to start at bit 0, and keeps a valid regular port exactly. */
  lemma ConfPortsCopyKeepsWidths(reservedPort: Port, regularPort: Port)
    requires IsValid(regularPort)
    ensures Width(Sized(Width(reservedPort))) == Width(reservedPort)
    ensures Width(reservedPort) > 0 ==> Sized(Width(reservedPort)).lsb == 0
    ensures Ranged(regularPort.lsb, regularPort.msb) == regularPort
  {
  }

  /** The reserved port of a copy differs from the original whenever the
      original's reserved port does not start at bit 0. */
  lemma ConfPortsCopyMovesReserved()
    ensures Sized(Width(Port(4, 7))) == Port(0, 3) != Port(4, 7)
  {
  }
}
