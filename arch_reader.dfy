/** The integer and character rules of the architecture reader
    `read_xml_arch_file.c`: the connection-block / switch-block
    depopulation pattern parser, the default pattern lists of a segment,
    the inherited power-estimation method, the pin-class numbering of a
    block type, the port numbering of the user models, and the name,
    duplicate and offset checks on switches, segments and direct links.

    The XML tree is not modelled: each rule receives the attribute strings
    and the element text it would have read.  The fatal `exit(1)` paths
    become `Err` results. */
module ArchReader {
  import opened Common

  // ---------------------------------------------------------------------
  // Depopulation patterns (`ProcessCB_SB`)
  // ---------------------------------------------------------------------

  /** The ways `ProcessCB_SB` stops the program. */
  datatype PatternError =
    | NotPattern(typeName: string)   // the `type` attribute is not "pattern"
    | TooLong                        // more than `len` symbols
    | TooShort                       // fewer than `len` symbols
    | InvalidChar(c: char)           // a character that is neither blank nor a symbol

  /** Characters the scanner skips. */
  predicate IsBlank(c: char) {
    c == ' ' || c == '\t' || c == '\n'
  }

  /** Characters that stand for a populated position. */
  predicate IsOn(c: char) {
    c == 'T' || c == '1'
  }

  /** Characters that stand for a depopulated position. */
  predicate IsOff(c: char) {
    c == 'F' || c == '0'
  }

  predicate IsSymbol(c: char) {
    IsOn(c) || IsOff(c)
  }

  /** The element text is a C string: it ends at its first NUL. */
  function TextEnd(txt: string): (n: nat)
    ensures n <= |txt|
    ensures forall k :: 0 <= k < n ==> txt[k] != '\0'
    ensures n < |txt| ==> txt[n] == '\0'
  {
    if txt == [] || txt[0] == '\0' then 0 else 1 + TextEnd(txt[1..])
  }

  /** The scanner from position `pos` on, with `read` the values already
      written to the list: the character loop of `ProcessCB_SB`. */
  function ScanFrom(txt: string, len: int, pos: nat, read: seq<bool>): (r: Result<seq<bool>, PatternError>)
    decreases |txt| - pos
  {
    if pos >= |txt| || txt[pos] == '\0' then
      if |read| < len then Err(TooShort) else Ok(read)
    else if IsBlank(txt[pos]) then
      ScanFrom(txt, len, pos + 1, read)
    else if IsSymbol(txt[pos]) then
      if |read| >= len then Err(TooLong) else ScanFrom(txt, len, pos + 1, read + [IsOn(txt[pos])])
    else
      Err(InvalidChar(txt[pos]))
  }

  /** `ProcessCB_SB` as a value: the list it writes, or why it fails. */
  function ParsePattern(typeName: string, txt: string, len: int): (r: Result<seq<bool>, PatternError>)
  {
    if typeName != "pattern" then Err(NotPattern(typeName)) else ScanFrom(txt, len, 0, [])
  }

  // An independent reading of the same rule: the symbols of the text, in
  // order, once every character is known to be allowed.

  /** The values of the symbols of `s`, in order. */
  function Symbols(s: string): (r: seq<bool>)
    ensures |r| <= |s|
  {
    if s == [] then []
    else if IsSymbol(s[|s| - 1]) then Symbols(s[..|s| - 1]) + [IsOn(s[|s| - 1])]
    else Symbols(s[..|s| - 1])
  }

  predicate AllAllowed(s: string) {
    forall k :: 0 <= k < |s| ==> IsBlank(s[k]) || IsSymbol(s[k])
  }

  lemma SymbolsStep(s: string, n: nat)
    requires n < |s|
    ensures Symbols(s[..n + 1]) == if IsSymbol(s[n]) then Symbols(s[..n]) + [IsOn(s[n])] else Symbols(s[..n])
  {
    assert s[..n + 1][..n] == s[..n];
  }

  lemma AllowedExtend(s: string, n: nat)
    requires n < |s| && AllAllowed(s[..n]) && (IsBlank(s[n]) || IsSymbol(s[n]))
    ensures AllAllowed(s[..n + 1])
  {
    var t := s[..n + 1];
    forall k | 0 <= k < |t| ensures IsBlank(t[k]) || IsSymbol(t[k]) {
      if k < n {
        assert t[k] == s[..n][k];
      }
    }
  }

  /** Symbol `q` of `s` is the one too many for a list of `len`. */
  predicate OverflowsAt(s: string, q: nat, len: int) {
    q < |s| && AllAllowed(s[..q + 1]) && |Symbols(s[..q + 1])| == len + 1
  }

  /** Character `q` of `s` is the first one that is not allowed, and no
      overflow came before it. */
  predicate InvalidAt(s: string, q: nat, len: int) {
    q < |s| && !IsBlank(s[q]) && !IsSymbol(s[q]) && AllAllowed(s[..q]) && |Symbols(s[..q])| <= len
  }

  /** A longer prefix has at least as many symbols. */
  lemma {:induction false} SymbolsGrow(s: string, m: nat, n: nat)
    requires m <= n <= |s|
    ensures |Symbols(s[..m])| <= |Symbols(s[..n])|
    decreases n - m
  {
    if m < n {
      SymbolsStep(s, n - 1);
      SymbolsGrow(s, m, n - 1);
    }
  }

  /** The scanner, started after an allowed prefix whose symbols it has
      read, ends as the reference reading says. */
  lemma {:induction false} ScanFromMeetsSymbols(txt: string, len: int, pos: nat)
    requires pos <= TextEnd(txt)
    requires AllAllowed(txt[..pos]) && |Symbols(txt[..pos])| <= len
    ensures var r := ScanFrom(txt, len, pos, Symbols(txt[..pos]));
      && (r.Ok? <==> AllAllowed(txt[..TextEnd(txt)]) && |Symbols(txt[..TextEnd(txt)])| == len)
      && (r.Ok? ==> r.value == Symbols(txt[..TextEnd(txt)]))
      && (r == Err(TooShort) ==> AllAllowed(txt[..TextEnd(txt)]) && |Symbols(txt[..TextEnd(txt)])| < len)
      && (r == Err(TooLong) ==>
            exists q: nat :: pos <= q < TextEnd(txt) && OverflowsAt(txt, q, len))
      && (r.Err? && r.error.InvalidChar? ==>
            exists q: nat :: pos <= q < TextEnd(txt) && InvalidAt(txt, q, len) && txt[q] == r.error.c)
      && !(r.Err? && r.error.NotPattern?)
    decreases |txt| - pos
  {
    var e := TextEnd(txt);
    var read := Symbols(txt[..pos]);
    if pos == e {
    } else {
      var c := txt[pos];
      SymbolsStep(txt, pos);
      if IsBlank(c) || IsSymbol(c) {
        AllowedExtend(txt, pos);
        if IsSymbol(c) && |read| >= len {
          assert ScanFrom(txt, len, pos, read) == Err(TooLong);
          assert OverflowsAt(txt, pos, len);
          SymbolsGrow(txt, pos + 1, e);
        } else {
          ScanFromMeetsSymbols(txt, len, pos + 1);
        }
      } else {
        assert ScanFrom(txt, len, pos, read) == Err(InvalidChar(c));
        assert !AllAllowed(txt[..e]) by {
          assert txt[..e][pos] == c;
        }
      }
    }
  }

  /** `ProcessCB_SB` succeeds exactly when the type is "pattern", every
      character of the text is a blank or a symbol and there are exactly
      `len` symbols; the list it writes is then the symbols in order.  Each
      failure names a rule the text breaks. */
  lemma ParsePatternMeetsSymbols(typeName: string, txt: string, len: nat)
    ensures var r := ParsePattern(typeName, txt, len);
      var text := txt[..TextEnd(txt)];
      && (r.Ok? <==> typeName == "pattern" && AllAllowed(text) && |Symbols(text)| == len)
      && (r.Ok? ==> r.value == Symbols(text) && |r.value| == len)
      && (r == Err(NotPattern(typeName)) <==> typeName != "pattern")
      && (r == Err(TooShort) ==> AllAllowed(text) && |Symbols(text)| < len)
      && (r == Err(TooLong) ==>
            exists q: nat :: OverflowsAt(text, q, len))
      && (r.Err? && r.error.InvalidChar? ==>
            exists q: nat :: InvalidAt(text, q, len) && text[q] == r.error.c)
  {
    var e := TextEnd(txt);
    var text := txt[..e];
    assert txt[..0] == [];
    if typeName == "pattern" {
      ScanFromMeetsSymbols(txt, len, 0);
      var r := ParsePattern(typeName, txt, len);
      if r == Err(TooLong) {
        var q :| 0 <= q < e && OverflowsAt(txt, q, len);
        assert text[..q + 1] == txt[..q + 1];
        assert OverflowsAt(text, q, len);
      }
      if r.Err? && r.error.InvalidChar? {
        var q :| 0 <= q < e && InvalidAt(txt, q, len) && txt[q] == r.error.c;
        assert text[..q] == txt[..q];
        assert InvalidAt(text, q, len);
      }
    }
  }

  /** `ProcessCB_SB(Node, list, len)`: walks the element text with a
      cursor and writes one entry of `list` per symbol.  The `type`
      attribute and the text are passed in; `list` has room for `len`
      entries, as at every call site. */
  method ProcessCbSb(typeName: string, txt: string, list: array<bool>, len: int) returns (r: Result<(), PatternError>)
    requires 0 <= len <= list.Length
    modifies list
    ensures r.Ok? <==> ParsePattern(typeName, txt, len).Ok?
    ensures r.Err? ==> r.error == ParsePattern(typeName, txt, len).error
    ensures r.Ok? ==> list[..len] == ParsePattern(typeName, txt, len).value
    ensures list[len..] == old(list[len..])
  {
    if typeName != "pattern" {
      return Err(NotPattern(typeName));
    }
    var i := 0;
    var pos := 0;
    while pos < |txt| && txt[pos] != '\0'
      invariant 0 <= pos <= |txt| && 0 <= i <= len
      invariant ScanFrom(txt, len, pos, list[..i]) == ScanFrom(txt, len, 0, [])
      invariant list[len..] == old(list[len..])
      decreases |txt| - pos
    {
      var c := txt[pos];
      if c == ' ' || c == '\t' || c == '\n' {
      } else if c == 'T' || c == '1' {
        if i >= len {
          return Err(TooLong);
        }
        ghost var read := list[..i];
        list[i] := true;
        assert list[..i + 1] == read + [true];
        i := i + 1;
      } else if c == 'F' || c == '0' {
        if i >= len {
          return Err(TooLong);
        }
        ghost var read := list[..i];
        list[i] := false;
        assert list[..i + 1] == read + [false];
        i := i + 1;
      } else {
        return Err(InvalidChar(c));
      }
      pos := pos + 1;
    }
    if i < len {
      return Err(TooShort);
    }
    assert list[..i] == list[..len];
    return Ok(());
  }

  // ---------------------------------------------------------------------
  // Segment pattern lists (`ProcessSegments`)
  // ---------------------------------------------------------------------

  /** An optional `<cb>` or `<sb>` child of a segment: its `type`
      attribute and its text. */
  datatype PatternElement = PatternElement(typeName: string, txt: string)

  /** The list a segment ends up with: all populated when the element is
      absent, otherwise what the pattern says. */
  function DepopList(len: nat, elem: Option<PatternElement>): (r: Result<seq<bool>, PatternError>)
  {
    match elem
    case None => Ok(seq(len, _ => true))
    case Some(e) => ParsePattern(e.typeName, e.txt, len)
  }

  /** A segment's list, when it is made at all, has one entry per position
      and is the default exactly when no pattern is given; a pattern
      replaces every default entry. */
  lemma DepopListShape(len: nat, elem: Option<PatternElement>)
    ensures var r := DepopList(len, elem);
      && (r.Ok? ==> |r.value| == len)
      && (elem.None? ==> r.Ok? && forall k :: 0 <= k < len ==> r.value[k])
      && (elem.Some? && r.Ok? ==> r.value == Symbols(elem.value.txt[..TextEnd(elem.value.txt)]))
  {
    if elem.Some? {
      ParsePatternMeetsSymbols(elem.value.typeName, elem.value.txt, len);
    }
  }

  /** A freshly allocated list with every entry populated. */
  method FullList(len: nat) returns (list: array<bool>)
    ensures fresh(list) && list.Length == len
    ensures forall k :: 0 <= k < len ==> list[k]
  {
    list := new bool[len];
    var j := 0;
    while j < len
      invariant 0 <= j <= len
      invariant forall k :: 0 <= k < j ==> list[k]
    {
      list[j] := true;
      j := j + 1;
    }
  }

  /** The `cb` list (`length` entries) and the `sb` list (`length + 1`
      entries) of one segment: each starts fully populated and is then
      overlaid by its pattern element, if any. */
  method SegmentLists(length: nat, cb: Option<PatternElement>, sb: Option<PatternElement>)
    returns (cbList: array<bool>, sbList: array<bool>, r: Result<(), PatternError>)
    ensures fresh(cbList) && fresh(sbList)
    ensures cbList.Length == length
    ensures r.Ok? <==> DepopList(length, cb).Ok? && DepopList(length + 1, sb).Ok?
    ensures r.Err? ==> r.error == if DepopList(length, cb).Err? then DepopList(length, cb).error
                                  else DepopList(length + 1, sb).error
    ensures r.Ok? ==> sbList.Length == length + 1
    ensures r.Ok? ==> cbList[..] == DepopList(length, cb).value && sbList[..] == DepopList(length + 1, sb).value
  {
    cbList := FullList(length);
    if cb.Some? {
      r := ProcessCbSb(cb.value.typeName, cb.value.txt, cbList, length);
      if r.Err? {
        sbList := new bool[0];
        return;
      }
      assert cbList[..] == cbList[..length];
    } else {
      assert cbList[..] == seq(length, _ => true);
    }
    sbList := FullList(length + 1);
    r := Ok(());
    if sb.Some? {
      r := ProcessCbSb(sb.value.typeName, sb.value.txt, sbList, length + 1);
      if r.Err? {
        return;
      }
      assert sbList[..] == sbList[..length + 1];
    } else {
      assert sbList[..] == seq(length + 1, _ => true);
    }
  }

  // ---------------------------------------------------------------------
  // Power estimation (`power_method_inherited`)
  // ---------------------------------------------------------------------

  /** `e_power_estimation_method`. */
  datatype PowerMethod =
    | PowerUndefined
    | PowerIgnore
    | PowerSumOfChildren
    | PowerAutoSizes
    | PowerSpecifySizes
    | PowerTogglePins
    | PowerCInternal
    | PowerAbsolute

  /** The methods a child can hold by inheritance. */
  predicate Inheritable(m: PowerMethod) {
    m in {PowerUndefined, PowerIgnore, PowerAutoSizes, PowerSpecifySizes, PowerTogglePins}
  }

  /** The power-estimation method a child block inherits from its parent. */
  function PowerMethodInherited(parent: PowerMethod): (m: PowerMethod)
    ensures Inheritable(m)
    ensures m == parent <==> Inheritable(parent)
    ensures parent == PowerSumOfChildren ==> m == PowerAutoSizes
    ensures parent in {PowerCInternal, PowerAbsolute} ==> m == PowerIgnore
  {
    match parent
    case PowerIgnore | PowerAutoSizes | PowerSpecifySizes | PowerTogglePins => parent
    case PowerCInternal | PowerAbsolute => PowerIgnore
    case PowerUndefined => PowerUndefined
    case PowerSumOfChildren => PowerAutoSizes
  }

  // ---------------------------------------------------------------------
  // Pin classes (`SetupPinLocationsAndPinClasses`)
  // ---------------------------------------------------------------------

  /** `PORTS`: the direction of a port of a block type. */
  datatype PortDir = InPort | OutPort | InOutPort

  /** The fields of a port of the type's top-level `pb_type` that the
      pin-class setup reads. */
  datatype PbPort = PbPort(numPins: nat, equivalent: bool, dir: PortDir, isClock: bool, isNonClockGlobal: bool)

  /** The type of a pin class.  `Unset` is the zero fill of the class array,
      which only a class of an equivalent port without pins keeps. */
  datatype ClassKind = Unset | Receiver | Driver

  /** `struct s_class`: its type, its `num_pins` field and its pin list. */
  datatype PinClass = PinClass(kind: ClassKind, numPins: nat, pins: seq<int>)

  /** The freshly allocated (zero-filled) class record. */
  const BlankClass := PinClass(Unset, 0, [])

  /** `OPEN`, the initial value of every `pin_class` and `is_global_pin` entry. */
  const OPEN: int := -1

  /** Input ports give receiver classes; every other port with pins must be
      an output port and gives driver classes. */
  predicate DirsAsserted(ports: seq<PbPort>) {
    forall j :: 0 <= j < |ports| && ports[j].numPins > 0 ==> ports[j].dir != InOutPort
  }

  function KindOf(p: PbPort): ClassKind {
    if p.dir == InPort then Receiver else Driver
  }

  /** An equivalent port makes one class, any other port one per pin. */
  function ClassesOf(p: PbPort): (n: nat)
    ensures p.equivalent ==> n == 1
    ensures !p.equivalent ==> n == p.numPins
  {
    if p.equivalent then 1 else p.numPins
  }

  /** `pin0, pin0 + 1, ..., pin0 + k - 1`. */
  function Consecutive(pin0: int, k: nat): (r: seq<int>)
    ensures |r| == k
    ensures forall t :: 0 <= t < k ==> r[t] == pin0 + t
  {
    seq(k, t => pin0 + t)
  }

  /** The classes of port `p` after its first `k` pins, the first of them
      numbered `pin0`. */
  function PortClassesUpTo(p: PbPort, pin0: int, k: nat): (r: seq<PinClass>)
    requires k <= p.numPins
  {
    if p.equivalent then [PinClass(if k == 0 then Unset else KindOf(p), p.numPins, Consecutive(pin0, k))]
    else seq(k, t => PinClass(KindOf(p), 1, [pin0 + t]))
  }

  function PortClasses(p: PbPort, pin0: int): (r: seq<PinClass>)
    ensures |r| == ClassesOf(p)
  {
    PortClassesUpTo(p, pin0, p.numPins)
  }

  /** The `pin_class` entries of the first `k` pins of `p`, its first class
      numbered `class0`. */
  function PortPinClassesUpTo(p: PbPort, class0: int, k: nat): (r: seq<int>)
    ensures |r| == k
  {
    seq(k, t => if p.equivalent then class0 else class0 + t)
  }

  /** The `is_global_pin` entries of the first `k` pins of `p`. */
  function PortGlobalsUpTo(p: PbPort, k: nat): (r: seq<int>)
    ensures |r| == k
  {
    seq(k, _ => if p.isClock || p.isNonClockGlobal then 1 else 0)
  }

  /** The ports of `capacity` instances, one after the other: the order of
      the two outer loops. */
  function Repeated(ports: seq<PbPort>, capacity: nat): (r: seq<PbPort>)
    ensures |r| == capacity * |ports|
  {
    if capacity == 0 then [] else Repeated(ports, capacity - 1) + ports
  }

  // The functions below describe the first `n` ports of a list: the pins,
  // classes and table entries made once those ports are handled.

  /** Number of pins of the first `n` ports. */
  function Pins(all: seq<PbPort>, n: nat): (r: nat)
    requires n <= |all|
  {
    if n == 0 then 0 else Pins(all, n - 1) + all[n - 1].numPins
  }

  /** Number of classes of the first `n` ports. */
  function ClassCount(all: seq<PbPort>, n: nat): (r: nat)
    requires n <= |all|
  {
    if n == 0 then 0 else ClassCount(all, n - 1) + ClassesOf(all[n - 1])
  }

  /** The class records of the first `n` ports, in order. */
  function Classes(all: seq<PbPort>, n: nat): (r: seq<PinClass>)
    requires n <= |all|
    ensures |r| == ClassCount(all, n)
  {
    if n == 0 then [] else Classes(all, n - 1) + PortClasses(all[n - 1], Pins(all, n - 1))
  }

  /** The class number of every pin of the first `n` ports, in pin order. */
  function PinClassIds(all: seq<PbPort>, n: nat): (r: seq<int>)
    requires n <= |all|
    ensures |r| == Pins(all, n)
  {
    if n == 0 then []
    else PinClassIds(all, n - 1) + PortPinClassesUpTo(all[n - 1], ClassCount(all, n - 1), all[n - 1].numPins)
  }

  /** Whether each pin of the first `n` ports is global, in pin order. */
  function Globals(all: seq<PbPort>, n: nat): (r: seq<int>)
    requires n <= |all|
    ensures |r| == Pins(all, n)
  {
    if n == 0 then [] else Globals(all, n - 1) + PortGlobalsUpTo(all[n - 1], all[n - 1].numPins)
  }

  /** The tables after one more port `p`. */
  lemma OnePortMore(all: seq<PbPort>, n: nat, p: PbPort)
    requires n < |all| && all[n] == p
    ensures Pins(all, n + 1) == Pins(all, n) + p.numPins
    ensures ClassCount(all, n + 1) == ClassCount(all, n) + ClassesOf(p)
    ensures Classes(all, n + 1) == Classes(all, n) + PortClasses(p, Pins(all, n))
    ensures PinClassIds(all, n + 1) == PinClassIds(all, n) + PortPinClassesUpTo(p, ClassCount(all, n), p.numPins)
    ensures Globals(all, n + 1) == Globals(all, n) + PortGlobalsUpTo(p, p.numPins)
  {
  }

  /** A prefix never has more pins or classes than the whole list. */
  lemma {:induction false} PrefixCounts(all: seq<PbPort>, m: nat, n: nat)
    requires m <= n <= |all|
    ensures Pins(all, m) <= Pins(all, n) && ClassCount(all, m) <= ClassCount(all, n)
    decreases n - m
  {
    if m < n {
      PrefixCounts(all, m, n - 1);
    }
  }

  /** The pin loop over port `p` of one instance: each pin gets the
      current class (a class of its own when the port is not equivalent,
      the port's single class otherwise), and the pin and class counters
      advance.  The arrays hold `classes0`, `ids0` and `globals0` for the
      ports handled before. */
  method AssignPortPins(p: PbPort, ghost classes0: seq<PinClass>, ghost ids0: seq<int>, ghost globals0: seq<int>,
                        classInf: array<PinClass>, pinClass: array<int>, isGlobalPin: array<int>, numClass: nat, pinCount: nat)
    returns (numClassAfter: nat, pinCountAfter: nat)
    requires p.numPins > 0 ==> p.dir != InOutPort
    requires pinClass != isGlobalPin
    requires numClass + ClassesOf(p) <= classInf.Length
    requires pinCount + p.numPins <= pinClass.Length && isGlobalPin.Length == pinClass.Length
    requires classInf[..numClass] == classes0
    requires forall c :: numClass <= c < classInf.Length ==> classInf[c] == BlankClass
    requires pinClass[..pinCount] == ids0 && isGlobalPin[..pinCount] == globals0
    requires forall q :: pinCount <= q < pinClass.Length ==> pinClass[q] == OPEN && isGlobalPin[q] == OPEN
    modifies classInf, pinClass, isGlobalPin
    ensures numClassAfter == numClass + ClassesOf(p) && pinCountAfter == pinCount + p.numPins
    ensures classInf[..numClassAfter] == classes0 + PortClasses(p, pinCount)
    ensures forall c :: numClassAfter <= c < classInf.Length ==> classInf[c] == BlankClass
    ensures pinClass[..pinCountAfter] == ids0 + PortPinClassesUpTo(p, numClass, p.numPins)
    ensures isGlobalPin[..pinCountAfter] == globals0 + PortGlobalsUpTo(p, p.numPins)
    ensures forall q :: pinCountAfter <= q < pinClass.Length ==> pinClass[q] == OPEN && isGlobalPin[q] == OPEN
  {
    var g := if p.isClock || p.isNonClockGlobal then 1 else 0;
    if p.equivalent {
      pinCountAfter := AssignSharedClassPins(p, classInf, pinClass, isGlobalPin, numClass, pinCount, g);
      numClassAfter := numClass + 1;
    } else {
      numClassAfter, pinCountAfter := AssignOwnClassPins(p, classInf, pinClass, isGlobalPin, numClass, pinCount, g);
    }
    PortArraysAsSeqs(p, classes0, ids0, globals0, classInf[..], pinClass[..], isGlobalPin[..], numClass, pinCount);
  }

  /** The pin loop for an equivalent port: the port's single class gets
      its `num_pins`, then every pin joins it. */
  method AssignSharedClassPins(p: PbPort, classInf: array<PinClass>, pinClass: array<int>, isGlobalPin: array<int>,
                               numClass: nat, pinCount: nat, g: int)
    returns (pinCountAfter: nat)
    requires p.equivalent && (p.numPins > 0 ==> p.dir != InOutPort)
    requires pinClass != isGlobalPin
    requires numClass < classInf.Length && classInf[numClass] == BlankClass
    requires pinCount + p.numPins <= pinClass.Length && isGlobalPin.Length == pinClass.Length
    modifies classInf, pinClass, isGlobalPin
    ensures pinCountAfter == pinCount + p.numPins
    ensures forall c :: 0 <= c < classInf.Length && c != numClass ==> classInf[c] == old(classInf[c])
    ensures classInf[numClass] == PinClass(if p.numPins == 0 then Unset else KindOf(p), p.numPins, Consecutive(pinCount, p.numPins))
    ensures forall q :: pinCount <= q < pinCountAfter ==> pinClass[q] == numClass && isGlobalPin[q] == g
    ensures forall q :: 0 <= q < pinClass.Length && !(pinCount <= q < pinCountAfter) ==>
              pinClass[q] == old(pinClass[q]) && isGlobalPin[q] == old(isGlobalPin[q])
  {
    classInf[numClass] := classInf[numClass].(numPins := p.numPins);
    var pin := pinCount;
    var k := 0;
    while k < p.numPins
      invariant 0 <= k <= p.numPins && pin == pinCount + k
      invariant forall c :: 0 <= c < classInf.Length && c != numClass ==> classInf[c] == old(classInf[c])
      invariant classInf[numClass] == PinClass(if k == 0 then Unset else KindOf(p), p.numPins, Consecutive(pinCount, k))
      invariant forall q :: pinCount <= q < pin ==> pinClass[q] == numClass && isGlobalPin[q] == g
      invariant forall q :: 0 <= q < pinClass.Length && !(pinCount <= q < pin) ==>
                  pinClass[q] == old(pinClass[q]) && isGlobalPin[q] == old(isGlobalPin[q])
    {
      assert Consecutive(pinCount, k + 1) == Consecutive(pinCount, k) + [pin];
      classInf[numClass] := classInf[numClass].(pins := classInf[numClass].pins + [pin]);
      classInf[numClass] := classInf[numClass].(kind := if p.dir == InPort then Receiver else Driver);
      pinClass[pin] := numClass;
      isGlobalPin[pin] := g;
      pin := pin + 1;
      k := k + 1;
    }
    pinCountAfter := pin;
  }

  /** The pin loop for a port that is not equivalent: every pin gets a
      class of its own. */
  method AssignOwnClassPins(p: PbPort, classInf: array<PinClass>, pinClass: array<int>, isGlobalPin: array<int>,
                            numClass: nat, pinCount: nat, g: int)
    returns (numClassAfter: nat, pinCountAfter: nat)
    requires !p.equivalent && (p.numPins > 0 ==> p.dir != InOutPort)
    requires pinClass != isGlobalPin
    requires numClass + p.numPins <= classInf.Length
    requires pinCount + p.numPins <= pinClass.Length && isGlobalPin.Length == pinClass.Length
    modifies classInf, pinClass, isGlobalPin
    ensures numClassAfter == numClass + p.numPins && pinCountAfter == pinCount + p.numPins
    ensures forall c :: numClass <= c < numClassAfter ==> classInf[c] == PinClass(KindOf(p), 1, [pinCount + (c - numClass)])
    ensures forall c :: 0 <= c < classInf.Length && !(numClass <= c < numClassAfter) ==> classInf[c] == old(classInf[c])
    ensures forall q :: pinCount <= q < pinCountAfter ==> pinClass[q] == numClass + (q - pinCount) && isGlobalPin[q] == g
    ensures forall q :: 0 <= q < pinClass.Length && !(pinCount <= q < pinCountAfter) ==>
              pinClass[q] == old(pinClass[q]) && isGlobalPin[q] == old(isGlobalPin[q])
  {
    var cls := numClass;
    var pin := pinCount;
    var k := 0;
    while k < p.numPins
      invariant 0 <= k <= p.numPins && pin == pinCount + k && cls == numClass + k
      invariant forall c :: numClass <= c < cls ==> classInf[c] == PinClass(KindOf(p), 1, [pinCount + (c - numClass)])
      invariant forall c :: 0 <= c < classInf.Length && !(numClass <= c < cls) ==> classInf[c] == old(classInf[c])
      invariant forall q :: pinCount <= q < pin ==> pinClass[q] == numClass + (q - pinCount) && isGlobalPin[q] == g
      invariant forall q :: 0 <= q < pinClass.Length && !(pinCount <= q < pin) ==>
                  pinClass[q] == old(pinClass[q]) && isGlobalPin[q] == old(isGlobalPin[q])
    {
      classInf[cls] := PinClass(classInf[cls].kind, 1, [pin]);
      classInf[cls] := classInf[cls].(kind := if p.dir == InPort then Receiver else Driver);
      pinClass[pin] := cls;
      isGlobalPin[pin] := g;
      pin := pin + 1;
      cls := cls + 1;
      k := k + 1;
    }
    numClassAfter := cls;
    pinCountAfter := pin;
  }

  /** The state the pin loop leaves, read as sequences. */
  lemma PortArraysAsSeqs(p: PbPort, classes0: seq<PinClass>, ids0: seq<int>, globals0: seq<int>,
                         a: seq<PinClass>, b: seq<int>, gs: seq<int>, numClass: nat, pinCount: nat)
    requires numClass + ClassesOf(p) <= |a| && pinCount + p.numPins <= |b| == |gs|
    requires |classes0| == numClass && forall c :: 0 <= c < numClass ==> a[c] == classes0[c]
    requires p.equivalent ==> a[numClass] == PinClass(if p.numPins == 0 then Unset else KindOf(p), p.numPins, Consecutive(pinCount, p.numPins))
    requires !p.equivalent ==> forall c :: numClass <= c < numClass + p.numPins ==> a[c] == PinClass(KindOf(p), 1, [pinCount + (c - numClass)])
    requires |ids0| == |globals0| == pinCount
    requires forall q :: 0 <= q < pinCount ==> b[q] == ids0[q] && gs[q] == globals0[q]
    requires forall q :: pinCount <= q < pinCount + p.numPins ==> b[q] == if p.equivalent then numClass else numClass + (q - pinCount)
    requires forall q :: pinCount <= q < pinCount + p.numPins ==> gs[q] == if p.isClock || p.isNonClockGlobal then 1 else 0
    ensures a[..numClass + ClassesOf(p)] == classes0 + PortClasses(p, pinCount)
    ensures b[..pinCount + p.numPins] == ids0 + PortPinClassesUpTo(p, numClass, p.numPins)
    ensures gs[..pinCount + p.numPins] == globals0 + PortGlobalsUpTo(p, p.numPins)
  {
    var n := p.numPins;
    var pc := PortClasses(p, pinCount);
    assert |a[..numClass + ClassesOf(p)]| == |classes0 + pc|;
    forall c | 0 <= c < numClass + ClassesOf(p) ensures a[..numClass + ClassesOf(p)][c] == (classes0 + pc)[c] {
    }
    var ids := PortPinClassesUpTo(p, numClass, n);
    assert |b[..pinCount + n]| == |ids0 + ids|;
    forall q | 0 <= q < pinCount + n ensures b[..pinCount + n][q] == (ids0 + ids)[q] {
    }
    var gl := PortGlobalsUpTo(p, n);
    assert |gs[..pinCount + n]| == |globals0 + gl|;
    forall q | 0 <= q < pinCount + n ensures gs[..pinCount + n][q] == (globals0 + gl)[q] {
    }
  }

  /** Counting over `a + b` continues the count over `a`. */
  lemma {:induction false} CountsAdd(a: seq<PbPort>, b: seq<PbPort>, k: nat)
    requires k <= |b|
    ensures Pins(a + b, |a| + k) == Pins(a, |a|) + Pins(b, k)
    ensures ClassCount(a + b, |a| + k) == ClassCount(a, |a|) + ClassCount(b, k)
  {
    if k == 0 {
      SameCounts(a, a + b, |a|);
    } else {
      CountsAdd(a, b, k - 1);
      assert (a + b)[|a| + k - 1] == b[k - 1];
    }
  }

  /** Counts of a prefix depend only on that prefix. */
  lemma {:induction false} SameCounts(a: seq<PbPort>, b: seq<PbPort>, n: nat)
    requires n <= |a| && n <= |b| && a[..n] == b[..n]
    ensures Pins(a, n) == Pins(b, n) && ClassCount(a, n) == ClassCount(b, n)
  {
    if n > 0 {
      assert a[..n - 1] == a[..n][..n - 1];
      assert b[..n - 1] == b[..n][..n - 1];
      assert a[n - 1] == a[..n][n - 1];
      SameCounts(a, b, n - 1);
    }
  }

  /** `capacity` instances have `capacity` times the pins and classes of one. */
  lemma {:induction false} RepeatedCounts(ports: seq<PbPort>, capacity: nat)
    ensures Pins(Repeated(ports, capacity), capacity * |ports|) == capacity * Pins(ports, |ports|)
    ensures ClassCount(Repeated(ports, capacity), capacity * |ports|) == capacity * ClassCount(ports, |ports|)
  {
    if capacity > 0 {
      var prev := Repeated(ports, capacity - 1);
      RepeatedCounts(ports, capacity - 1);
      CountsAdd(prev, ports, |ports|);
      assert capacity * |ports| == |prev| + |ports|;
      assert capacity * Pins(ports, |ports|) == (capacity - 1) * Pins(ports, |ports|) + Pins(ports, |ports|);
      assert capacity * ClassCount(ports, |ports|) == (capacity - 1) * ClassCount(ports, |ports|) + ClassCount(ports, |ports|);
    }
  }

  /** Port `j` of instance `i` sits at `i * |ports| + j` of the repeated list. */
  lemma {:induction false} RepeatedAt(ports: seq<PbPort>, capacity: nat, i: nat, j: nat)
    requires i < capacity && j < |ports|
    ensures i * |ports| + j < capacity * |ports|
    ensures Repeated(ports, capacity)[i * |ports| + j] == ports[j]
  {
    var prev := Repeated(ports, capacity - 1);
    if i == capacity - 1 {
      assert i * |ports| == |prev|;
    } else {
      RepeatedAt(ports, capacity - 1, i, j);
    }
  }

  lemma MulAdd(c: nat, a: nat, b: nat)
    ensures c * (a + b) == c * a + c * b
  {
  }

  /** The first loop: the number of classes of `capacity` instances, each
      equivalent port counting once per instance and every other port once
      per pin and instance. */
  method CountPinClasses(capacity: nat, ports: seq<PbPort>) returns (numClass: nat)
    ensures numClass == capacity * ClassCount(ports, |ports|)
  {
    numClass := 0;
    var i := 0;
    while i < |ports|
      invariant 0 <= i <= |ports|
      invariant numClass == capacity * ClassCount(ports, i)
    {
      MulAdd(capacity, ClassCount(ports, i), ClassesOf(ports[i]));
      if ports[i].equivalent {
        numClass := numClass + capacity;
      } else {
        numClass := numClass + capacity * ports[i].numPins;
      }
      i := i + 1;
    }
  }

  /** The class, pin-class and global-pin tables once the first `n` ports
      of `all` are handled, with `numClass` classes and `pinCount` pins
      made; everything after them is still as allocated. */
  predicate PinTables(all: seq<PbPort>, n: nat, classInf: array<PinClass>, pinClass: array<int>,
                      isGlobalPin: array<int>, numClass: nat, pinCount: nat)
    reads classInf, pinClass, isGlobalPin
  {
    && n <= |all|
    && numClass == ClassCount(all, n) && pinCount == Pins(all, n)
    && numClass <= classInf.Length && pinCount <= pinClass.Length && isGlobalPin.Length == pinClass.Length
    && classInf[..numClass] == Classes(all, n)
    && (forall c :: numClass <= c < classInf.Length ==> classInf[c] == BlankClass)
    && pinClass[..pinCount] == PinClassIds(all, n)
    && isGlobalPin[..pinCount] == Globals(all, n)
    && (forall q :: pinCount <= q < pinClass.Length ==> pinClass[q] == OPEN && isGlobalPin[q] == OPEN)
  }

  /** One pass of the port loop: port `all[n]` after the first `n`. */
  method AssignNextPort(p: PbPort, ghost all: seq<PbPort>, ghost n: nat,
                        classInf: array<PinClass>, pinClass: array<int>,
                        isGlobalPin: array<int>, numClass: nat, pinCount: nat)
    returns (numClassAfter: nat, pinCountAfter: nat)
    requires n < |all| && all[n] == p && (p.numPins > 0 ==> p.dir != InOutPort)
    requires pinClass != isGlobalPin && isGlobalPin.Length == pinClass.Length
    requires ClassCount(all, |all|) <= classInf.Length && Pins(all, |all|) <= pinClass.Length
    requires PinTables(all, n, classInf, pinClass, isGlobalPin, numClass, pinCount)
    modifies classInf, pinClass, isGlobalPin
    ensures PinTables(all, n + 1, classInf, pinClass, isGlobalPin, numClassAfter, pinCountAfter)
  {
    PrefixCounts(all, n + 1, |all|);
    OnePortMore(all, n, p);
    numClassAfter, pinCountAfter := AssignPortPins(p, Classes(all, n), PinClassIds(all, n), Globals(all, n),
                                                   classInf, pinClass, isGlobalPin, numClass, pinCount);
  }

  /** The port loop of one instance, over `all[base..base + |ports|]`. */
  method AssignInstancePins(ports: seq<PbPort>, ghost all: seq<PbPort>, ghost base: nat,
                            classInf: array<PinClass>, pinClass: array<int>,
                            isGlobalPin: array<int>, numClass: nat, pinCount: nat)
    returns (numClassAfter: nat, pinCountAfter: nat)
    requires DirsAsserted(ports)
    requires base + |ports| <= |all| && forall j :: 0 <= j < |ports| ==> all[base + j] == ports[j]
    requires pinClass != isGlobalPin && isGlobalPin.Length == pinClass.Length
    requires ClassCount(all, |all|) <= classInf.Length && Pins(all, |all|) <= pinClass.Length
    requires PinTables(all, base, classInf, pinClass, isGlobalPin, numClass, pinCount)
    modifies classInf, pinClass, isGlobalPin
    ensures PinTables(all, base + |ports|, classInf, pinClass, isGlobalPin, numClassAfter, pinCountAfter)
  {
    numClassAfter := numClass;
    pinCountAfter := pinCount;
    var j := 0;
    ghost var n: nat := base;
    while j < |ports|
      invariant 0 <= j <= |ports| && n == base + j
      invariant PinTables(all, n, classInf, pinClass, isGlobalPin, numClassAfter, pinCountAfter)
    {
      assert all[n] == ports[j];
      numClassAfter, pinCountAfter := AssignNextPort(ports[j], all, n, classInf, pinClass, isGlobalPin, numClassAfter, pinCountAfter);
      n := n + 1;
      j := j + 1;
    }
  }

  /** Every entry of both pin tables starts as `OPEN`. */
  method OpenPinTables(pinClass: array<int>, isGlobalPin: array<int>)
    requires isGlobalPin.Length == pinClass.Length && pinClass != isGlobalPin
    modifies pinClass, isGlobalPin
    ensures forall q :: 0 <= q < pinClass.Length ==> pinClass[q] == OPEN && isGlobalPin[q] == OPEN
  {
    var i := 0;
    while i < pinClass.Length
      invariant 0 <= i <= pinClass.Length
      invariant forall q :: 0 <= q < i ==> pinClass[q] == OPEN && isGlobalPin[q] == OPEN
    {
      pinClass[i] := OPEN;
      isGlobalPin[i] := OPEN;
      i := i + 1;
    }
  }

  /** Instance `i` occupies `[i * |ports|, (i + 1) * |ports|)` of the repeated list. */
  lemma InstanceSlice(ports: seq<PbPort>, capacity: nat, i: nat, base: nat)
    requires i < capacity && base == i * |ports|
    ensures base + |ports| == (i + 1) * |ports| <= capacity * |ports|
    ensures forall j :: 0 <= j < |ports| ==> Repeated(ports, capacity)[base + j] == ports[j]
  {
    forall j | 0 <= j < |ports| ensures Repeated(ports, capacity)[base + j] == ports[j] {
      RepeatedAt(ports, capacity, i, j);
    }
    InstanceEnd(|ports|, capacity, i);
  }

  lemma InstanceEnd(k: nat, capacity: nat, i: nat)
    requires i < capacity
    ensures i * k + k == (i + 1) * k <= capacity * k
  {
    MulSucc(i, k);
    MulLe(i + 1, capacity, k);
  }

  lemma MulSucc(a: nat, c: nat)
    ensures a * c + c == (a + 1) * c
  {
  }

  lemma MulLe(a: nat, b: nat, c: nat)
    requires a <= b
    ensures a * c <= b * c
  {
  }

  /** The two outer loops over the instances and their ports. */
  method AssignAllInstances(capacity: nat, ports: seq<PbPort>, ghost all: seq<PbPort>,
                            classInf: array<PinClass>, pinClass: array<int>, isGlobalPin: array<int>)
    returns (numClass: nat, pinCount: nat)
    requires DirsAsserted(ports) && all == Repeated(ports, capacity)
    requires pinClass != isGlobalPin
    requires ClassCount(all, |all|) <= classInf.Length && Pins(all, |all|) <= pinClass.Length
    requires PinTables(all, 0, classInf, pinClass, isGlobalPin, 0, 0)
    modifies classInf, pinClass, isGlobalPin
    ensures PinTables(all, |all|, classInf, pinClass, isGlobalPin, numClass, pinCount)
  {
    numClass, pinCount := 0, 0;
    var i := 0;
    ghost var n: nat := 0;
    while i < capacity
      invariant 0 <= i <= capacity && n == i * |ports|
      invariant PinTables(all, n, classInf, pinClass, isGlobalPin, numClass, pinCount)
    {
      InstanceSlice(ports, capacity, i, n);
      numClass, pinCount := AssignInstancePins(ports, all, n, classInf, pinClass, isGlobalPin, numClass, pinCount);
      n := n + |ports|;
      i := i + 1;
    }
  }

  /** Fresh tables: `numClass` blank classes and `numEntries` `OPEN` pins. */
  method NewPinTables(numClass: nat, numEntries: nat)
    returns (classInf: array<PinClass>, pinClass: array<int>, isGlobalPin: array<int>)
    ensures fresh(classInf) && fresh(pinClass) && fresh(isGlobalPin) && pinClass != isGlobalPin
    ensures classInf.Length == numClass && pinClass.Length == isGlobalPin.Length == numEntries
    ensures forall c :: 0 <= c < classInf.Length ==> classInf[c] == BlankClass
    ensures forall q :: 0 <= q < pinClass.Length ==> pinClass[q] == OPEN && isGlobalPin[q] == OPEN
  {
    classInf := new PinClass[numClass](_ => BlankClass);
    pinClass := new int[numEntries];
    isGlobalPin := new int[numEntries];
    OpenPinTables(pinClass, isGlobalPin);
  }

  /** The pin-class part of `SetupPinLocationsAndPinClasses` for a type
      with `capacity` instances of `ports`; `numPins` is the type's pin
      count, `capacity` times the pins of one instance.  The class table is
      allocated from the first count; `pin_class` and `is_global_pin` have
      `numPins * capacity` entries, of which the first `numPins` are
      written.  The two closing assertions of the source are proved. */
  method SetupPinClasses(capacity: nat, ports: seq<PbPort>, numPins: nat)
    returns (numClass: nat, classInf: array<PinClass>, pinClass: array<int>, isGlobalPin: array<int>)
    requires DirsAsserted(ports)
    requires numPins == capacity * Pins(ports, |ports|)
    ensures fresh(classInf) && fresh(pinClass) && fresh(isGlobalPin)
    ensures numClass == classInf.Length == capacity * ClassCount(ports, |ports|)
    ensures classInf[..] == Classes(Repeated(ports, capacity), capacity * |ports|)
    ensures pinClass.Length == isGlobalPin.Length == numPins * capacity && numPins <= pinClass.Length
    ensures pinClass[..numPins] == PinClassIds(Repeated(ports, capacity), capacity * |ports|)
    ensures isGlobalPin[..numPins] == Globals(Repeated(ports, capacity), capacity * |ports|)
    ensures forall q :: numPins <= q < pinClass.Length ==> pinClass[q] == OPEN && isGlobalPin[q] == OPEN
  {
    ghost var all := Repeated(ports, capacity);
    RepeatedCounts(ports, capacity);
    numClass := CountPinClasses(capacity, ports);
    classInf, pinClass, isGlobalPin := NewPinTables(numClass, numPins * capacity);
    if capacity > 0 {
      MulLe(1, capacity, numPins);
    }
    var pinCount;
    numClass, pinCount := AssignAllInstances(capacity, ports, all, classInf, pinClass, isGlobalPin);
    assert numClass == classInf.Length;
    assert pinCount == numPins;
    assert classInf[..] == classInf[..numClass];
  }

  // Properties of the tables the setup builds.

  /** A class record whose pin count is the length of its pin list, and
      which has a type exactly when it has a pin. */
  predicate WellFormedClass(k: PinClass) {
    k.numPins == |k.pins| && (k.kind == Unset <==> k.pins == [])
  }

  /** The pins of a port's classes lie in its pin range, and its
      `pin_class` entries name its classes. */
  lemma PortBounds(p: PbPort, pin0: int, class0: int)
    ensures forall c, x :: 0 <= c < |PortClasses(p, pin0)| && x in PortClasses(p, pin0)[c].pins ==>
                             pin0 <= x < pin0 + p.numPins
    ensures forall t :: 0 <= t < p.numPins ==>
                          class0 <= PortPinClassesUpTo(p, class0, p.numPins)[t] < class0 + ClassesOf(p)
  {
  }

  /** Every class record of a port is well formed. */
  lemma PortClassesWellFormed(p: PbPort, pin0: int)
    ensures forall c :: 0 <= c < |PortClasses(p, pin0)| ==> WellFormedClass(PortClasses(p, pin0)[c])
  {
  }

  /** Within one port, pin `pin0 + t` is in class `class0 + c` exactly when
      its `pin_class` entry says so. */
  lemma PortMembership(p: PbPort, pin0: int, class0: int, t: nat, c: nat)
    requires t < p.numPins && c < ClassesOf(p)
    ensures pin0 + t in PortClasses(p, pin0)[c].pins <==> PortPinClassesUpTo(p, class0, p.numPins)[t] == class0 + c
  {
    if p.equivalent {
      assert PortClasses(p, pin0)[c].pins[t] == pin0 + t;
    } else {
      assert PortClasses(p, pin0)[c].pins == [pin0 + c];
    }
  }

  /** Every class of the first `n` ports holds only pins below the pin
      count, and every `pin_class` entry is a class number below the class
      count. */
  lemma {:induction false} TableBounds(all: seq<PbPort>, n: nat)
    requires n <= |all|
    ensures forall c, x :: 0 <= c < ClassCount(all, n) && x in Classes(all, n)[c].pins ==> 0 <= x < Pins(all, n)
    ensures forall q :: 0 <= q < Pins(all, n) ==> 0 <= PinClassIds(all, n)[q] < ClassCount(all, n)
  {
    if n > 0 {
      var p := all[n - 1];
      TableBounds(all, n - 1);
      OnePortMore(all, n - 1, p);
      PortBounds(p, Pins(all, n - 1), ClassCount(all, n - 1));
      var old_ := Classes(all, n - 1);
      var new_ := PortClasses(p, Pins(all, n - 1));
      forall c, x | 0 <= c < ClassCount(all, n) && x in Classes(all, n)[c].pins ensures 0 <= x < Pins(all, n) {
        if c < |old_| {
          assert Classes(all, n)[c] == old_[c];
        } else {
          assert Classes(all, n)[c] == new_[c - |old_|];
        }
      }
      forall q | 0 <= q < Pins(all, n) ensures 0 <= PinClassIds(all, n)[q] < ClassCount(all, n) {
        if q < Pins(all, n - 1) {
          assert PinClassIds(all, n)[q] == PinClassIds(all, n - 1)[q];
        } else {
          assert PinClassIds(all, n)[q] == PortPinClassesUpTo(p, ClassCount(all, n - 1), p.numPins)[q - Pins(all, n - 1)];
        }
      }
    }
  }

  /** Class `c` of the first `n` ports: an earlier port's, or one of port `n - 1`'s. */
  lemma ClassAt(all: seq<PbPort>, n: nat, c: nat)
    requires 0 < n <= |all| && c < ClassCount(all, n)
    ensures c < ClassCount(all, n - 1) ==> Classes(all, n)[c] == Classes(all, n - 1)[c]
    ensures c >= ClassCount(all, n - 1) ==>
              Classes(all, n)[c] == PortClasses(all[n - 1], Pins(all, n - 1))[c - ClassCount(all, n - 1)]
  {
  }

  /** The `pin_class` entry of pin `q` of the first `n` ports. */
  lemma PinClassIdAt(all: seq<PbPort>, n: nat, q: nat)
    requires 0 < n <= |all| && q < Pins(all, n)
    ensures q < Pins(all, n - 1) ==> PinClassIds(all, n)[q] == PinClassIds(all, n - 1)[q]
    ensures q >= Pins(all, n - 1) ==>
              PinClassIds(all, n)[q] == PortPinClassesUpTo(all[n - 1], ClassCount(all, n - 1), all[n - 1].numPins)[q - Pins(all, n - 1)]
  {
  }

  /** An earlier pin is in no class of the last port, and its entry names an earlier class. */
  lemma OldPinNewClass(all: seq<PbPort>, n: nat, q: nat, c: nat)
    requires 0 < n <= |all| && q < Pins(all, n - 1) && ClassCount(all, n - 1) <= c < ClassCount(all, n)
    ensures q !in Classes(all, n)[c].pins && PinClassIds(all, n)[q] != c
  {
    ClassAt(all, n, c);
    PinClassIdAt(all, n, q);
    TableBounds(all, n - 1);
    PortBounds(all[n - 1], Pins(all, n - 1), ClassCount(all, n - 1));
  }

  /** A pin of the last port is in no earlier class, and its entry names a class of that port. */
  lemma NewPinOldClass(all: seq<PbPort>, n: nat, q: nat, c: nat)
    requires 0 < n <= |all| && Pins(all, n - 1) <= q < Pins(all, n) && c < ClassCount(all, n - 1)
    ensures q !in Classes(all, n)[c].pins && PinClassIds(all, n)[q] != c
  {
    ClassAt(all, n, c);
    PinClassIdAt(all, n, q);
    TableBounds(all, n - 1);
    PortBounds(all[n - 1], Pins(all, n - 1), ClassCount(all, n - 1));
  }

  /** Pin `q` is listed in class `c` exactly when `pin_class[q] == c`: the
      class records and the pin-to-class table describe the same
      partition of the pins. */
  lemma {:induction false} PinClassMembership(all: seq<PbPort>, n: nat, q: nat, c: nat)
    requires n <= |all|
    requires q < Pins(all, n) && c < ClassCount(all, n)
    ensures q in Classes(all, n)[c].pins <==> PinClassIds(all, n)[q] == c
  {
    var pins0, classes0 := Pins(all, n - 1), ClassCount(all, n - 1);
    if q < pins0 && c < classes0 {
      PinClassMembership(all, n - 1, q, c);
      OldPinOldClass(all, n, q, c);
    } else if q < pins0 {
      OldPinNewClass(all, n, q, c);
    } else if c < classes0 {
      NewPinOldClass(all, n, q, c);
    } else {
      NewPinNewClass(all, n, q, c);
    }
  }

  /** A pin and a class both of the first `n - 1` ports keep their
      relation when port `n - 1` is added. */
  lemma OldPinOldClass(all: seq<PbPort>, n: nat, q: nat, c: nat)
    requires 0 < n <= |all|
    requires q < Pins(all, n - 1) && c < ClassCount(all, n - 1)
    requires q in Classes(all, n - 1)[c].pins <==> PinClassIds(all, n - 1)[q] == c
    ensures q in Classes(all, n)[c].pins <==> PinClassIds(all, n)[q] == c
  {
    ClassAt(all, n, c);
    PinClassIdAt(all, n, q);
  }

  /** A pin and a class both of port `n - 1` are related as within the port. */
  lemma NewPinNewClass(all: seq<PbPort>, n: nat, q: nat, c: nat)
    requires 0 < n <= |all|
    requires Pins(all, n - 1) <= q < Pins(all, n) && ClassCount(all, n - 1) <= c < ClassCount(all, n)
    ensures q in Classes(all, n)[c].pins <==> PinClassIds(all, n)[q] == c
  {
    var pins0, classes0 := Pins(all, n - 1), ClassCount(all, n - 1);
    ClassAt(all, n, c);
    PinClassIdAt(all, n, q);
    PortMembership(all[n - 1], pins0, classes0, q - pins0, c - classes0);
  }

  /** Every class record of the first `n` ports is well formed. */
  lemma {:induction false} ClassesWellFormed(all: seq<PbPort>, n: nat)
    requires n <= |all|
    ensures forall c :: 0 <= c < ClassCount(all, n) ==> WellFormedClass(Classes(all, n)[c])
  {
    if n > 0 {
      var p := all[n - 1];
      ClassesWellFormed(all, n - 1);
      OnePortMore(all, n - 1, p);
      PortClassesWellFormed(p, Pins(all, n - 1));
      forall c | 0 <= c < ClassCount(all, n) ensures WellFormedClass(Classes(all, n)[c]) {
        if c < ClassCount(all, n - 1) {
          assert Classes(all, n)[c] == Classes(all, n - 1)[c];
        } else {
          assert Classes(all, n)[c] == PortClasses(p, Pins(all, n - 1))[c - ClassCount(all, n - 1)];
        }
      }
    }
  }

  /** The pin lists of the class records, one after the other. */
  function ClassPins(cs: seq<PinClass>): (r: seq<int>)
  {
    if cs == [] then [] else ClassPins(cs[..|cs| - 1]) + cs[|cs| - 1].pins
  }

  lemma {:induction false} ClassPinsAppend(a: seq<PinClass>, b: seq<PinClass>)
    ensures ClassPins(a + b) == ClassPins(a) + ClassPins(b)
    decreases |b|
  {
    if b != [] {
      var b' := b[..|b| - 1];
      assert (a + b)[..|a + b| - 1] == a + b';
      ClassPinsAppend(a, b');
    } else {
      assert a + b == a;
    }
  }

  /** The single-pin classes of the first `k` pins of a non-equivalent port
      list those pins in order. */
  lemma {:induction false} OwnClassPins(p: PbPort, pin0: int, k: nat)
    requires !p.equivalent && k <= p.numPins
    ensures ClassPins(PortClassesUpTo(p, pin0, k)) == Consecutive(pin0, k)
  {
    if k > 0 {
      OwnClassPins(p, pin0, k - 1);
      assert PortClassesUpTo(p, pin0, k)[..k - 1] == PortClassesUpTo(p, pin0, k - 1);
      assert Consecutive(pin0, k) == Consecutive(pin0, k - 1) + [pin0 + k - 1];
    }
  }

  /** The classes of a port list its pins in order. */
  lemma PortClassPins(p: PbPort, pin0: int)
    ensures ClassPins(PortClasses(p, pin0)) == Consecutive(pin0, p.numPins)
  {
    if p.equivalent {
      assert PortClasses(p, pin0)[..0] == [];
    } else {
      OwnClassPins(p, pin0, p.numPins);
    }
  }

  lemma ConsecutiveSplit(a: nat, b: nat)
    ensures Consecutive(0, a + b) == Consecutive(0, a) + Consecutive(a, b)
  {
  }

  /** The classes of the first `n` ports list the pins `0, 1, ...` in
      order: each pin sits in exactly one class, and a class holds its
      pins in increasing order. */
  lemma {:induction false} PinsNumberedInOrder(all: seq<PbPort>, n: nat)
    requires n <= |all|
    ensures ClassPins(Classes(all, n)) == Consecutive(0, Pins(all, n))
  {
    if n > 0 {
      var p := all[n - 1];
      var pins0 := Pins(all, n - 1);
      PinsNumberedInOrder(all, n - 1);
      OnePortMore(all, n - 1, p);
      PortClassPins(p, pins0);
      ClassPinsJoin(Classes(all, n - 1), PortClasses(p, pins0), pins0, p.numPins);
    }
  }

  /** Classes listing `0 .. a - 1` followed by classes listing
      `a .. a + b - 1` list `0 .. a + b - 1`. */
  lemma ClassPinsJoin(first: seq<PinClass>, next: seq<PinClass>, a: nat, b: nat)
    requires ClassPins(first) == Consecutive(0, a) && ClassPins(next) == Consecutive(a, b)
    ensures ClassPins(first + next) == Consecutive(0, a + b)
  {
    ClassPinsAppend(first, next);
    ConsecutiveSplit(a, b);
  }

  // ---------------------------------------------------------------------
  // Model port numbering (`UpdateAndCheckModels`)
  // ---------------------------------------------------------------------

  /** A port of a `t_model`: whether it is a clock, and the index the walk
      assigns. */
  class ModelPort {
    const isClock: bool
    var index: int
  }

  /** A `t_model`: its name, whether any `pb_type` implements it, and its
      input and output port lists. */
  class Model {
    const name: string
    const hasPbTypes: bool
    const inputs: seq<ModelPort>
    const outputs: seq<ModelPort>
  }

  function PortsOf(m: Model): seq<ModelPort> {
    m.inputs + m.outputs
  }

  predicate PortsDistinct(ps: seq<ModelPort>) {
    forall i, j :: 0 <= i < j < |ps| ==> ps[i] != ps[j]
  }

  /** Every port object sits in exactly one list position of one model. */
  predicate ModelPortsDistinct(models: seq<Model>) {
    && (forall i :: 0 <= i < |models| ==> PortsDistinct(PortsOf(models[i])))
    && (forall i, j, p :: 0 <= i < |models| && 0 <= j < |models| && i != j && p in PortsOf(models[i]) ==>
                           p !in PortsOf(models[j]))
  }

  function ClockFlags(ports: seq<ModelPort>): (r: seq<bool>)
    ensures |r| == |ports| && forall k :: 0 <= k < |ports| ==> r[k] == ports[k].isClock
  {
    seq(|ports|, k requires 0 <= k < |ports| => ports[k].isClock)
  }

  /** How many of the first `k` flags equal `b`. */
  function CountBefore(flags: seq<bool>, k: nat, b: bool): (n: nat)
    requires k <= |flags|
  {
    if k == 0 then 0 else CountBefore(flags, k - 1, b) + (if flags[k - 1] == b then 1 else 0)
  }

  /** The index input `k` receives: the number of inputs before it of its
      own kind, clock or not. */
  function Rank(flags: seq<bool>, k: nat): nat
    requires k < |flags|
  {
    CountBefore(flags, k, flags[k])
  }

  /** The indices one model's walk leaves behind. */
  predicate Numbered(m: Model)
    reads set p | p in PortsOf(m)
  {
    && (forall k :: 0 <= k < |m.inputs| ==> m.inputs[k].index == Rank(ClockFlags(m.inputs), k))
    && (forall k :: 0 <= k < |m.outputs| ==> m.outputs[k].index == k)
  }

  /** The position of the first model no `pb_type` implements, or the
      number of models when there is none. */
  function FirstUnimplemented(models: seq<Model>): (e: nat)
    ensures e <= |models|
    ensures forall i :: 0 <= i < e ==> models[i].hasPbTypes
    ensures e < |models| ==> !models[e].hasPbTypes
  {
    if models == [] || !models[0].hasPbTypes then 0 else 1 + FirstUnimplemented(models[1..])
  }

  /** The distinct ports of two lists put together are distinct within
      each list and shared by neither. */
  lemma DistinctParts(a: seq<ModelPort>, b: seq<ModelPort>)
    requires PortsDistinct(a + b)
    ensures PortsDistinct(a) && PortsDistinct(b)
    ensures forall k, t :: 0 <= k < |a| && 0 <= t < |b| ==> a[k] != b[t]
  {
    forall i, j | 0 <= i < j < |a| ensures a[i] != a[j] {
      assert (a + b)[i] == a[i] && (a + b)[j] == a[j];
    }
    forall i, j | 0 <= i < j < |b| ensures b[i] != b[j] {
      assert (a + b)[|a| + i] == b[i] && (a + b)[|a| + j] == b[j];
    }
    forall k, t | 0 <= k < |a| && 0 <= t < |b| ensures a[k] != b[t] {
      assert (a + b)[k] == a[k] && (a + b)[|a| + t] == b[t];
    }
  }

  /** The input walk of one model, with a counter for clock inputs and one
      for the others. */
  method NumberInputs(inputs: seq<ModelPort>, ghost flags: seq<bool>)
    requires PortsDistinct(inputs)
    requires |flags| == |inputs| && forall k :: 0 <= k < |inputs| ==> flags[k] == inputs[k].isClock
    modifies set p | p in inputs
    ensures forall k :: 0 <= k < |inputs| ==> inputs[k].index == Rank(flags, k)
  {
    var clocks, others := 0, 0;
    var k := 0;
    while k < |inputs|
      invariant 0 <= k <= |inputs|
      invariant clocks == CountBefore(flags, k, true) && others == CountBefore(flags, k, false)
      invariant forall t :: 0 <= t < k ==> inputs[t].index == Rank(flags, t)
    {
      var p := inputs[k];
      if p.isClock {
        p.index := clocks;
        clocks := clocks + 1;
      } else {
        p.index := others;
        others := others + 1;
      }
      k := k + 1;
    }
  }

  /** The output walk of one model. */
  method NumberOutputs(outputs: seq<ModelPort>)
    requires PortsDistinct(outputs)
    modifies set p | p in outputs
    ensures forall k :: 0 <= k < |outputs| ==> outputs[k].index == k
  {
    var k := 0;
    while k < |outputs|
      invariant 0 <= k <= |outputs|
      invariant forall t :: 0 <= t < k ==> outputs[t].index == t
    {
      outputs[k].index := k;
      k := k + 1;
    }
  }

  /** Both walks of one model. */
  method NumberModelPorts(m: Model)
    requires PortsDistinct(PortsOf(m))
    modifies set p | p in PortsOf(m)
    ensures Numbered(m)
  {
    DistinctParts(m.inputs, m.outputs);
    NumberInputs(m.inputs, ClockFlags(m.inputs));
    NumberOutputs(m.outputs);
  }

  /** Walks the model list: a model without a `pb_type` is fatal (its name
      is the error), and every model before it gets its port indices;
      models from the failing one on are left as they were. */
  method UpdateAndCheckModels(models: seq<Model>) returns (r: Result<(), string>)
    requires ModelPortsDistinct(models)
    modifies set m, p | m in models && p in PortsOf(m) :: p
    ensures r.Ok? <==> FirstUnimplemented(models) == |models|
    ensures r.Err? ==> r.error == models[FirstUnimplemented(models)].name
    ensures forall i :: 0 <= i < FirstUnimplemented(models) ==> Numbered(models[i])
    ensures forall i, p :: FirstUnimplemented(models) <= i < |models| && p in PortsOf(models[i]) ==>
                             p.index == old(p.index)
  {
    var i := 0;
    while i < |models|
      invariant 0 <= i <= FirstUnimplemented(models)
      invariant forall k :: 0 <= k < i ==> Numbered(models[k])
      invariant forall k, p :: i <= k < |models| && p in PortsOf(models[k]) ==> p.index == old(p.index)
    {
      if !models[i].hasPbTypes {
        return Err(models[i].name);
      }
      NumberModelPorts(models[i]);
      i := i + 1;
    }
    r := Ok(());
  }

  /** Counting over a longer prefix never gives less. */
  lemma {:induction false} CountBeforeGrows(flags: seq<bool>, i: nat, j: nat, b: bool)
    requires i <= j <= |flags|
    ensures CountBefore(flags, i, b) <= CountBefore(flags, j, b)
    decreases j - i
  {
    if i < j {
      CountBeforeGrows(flags, i, j - 1, b);
    }
  }

  /** An input's index is below the number of inputs of its kind. */
  lemma RankBelowCount(flags: seq<bool>, k: nat)
    requires k < |flags|
    ensures Rank(flags, k) < CountBefore(flags, |flags|, flags[k])
  {
    CountBeforeGrows(flags, k + 1, |flags|, flags[k]);
  }

  /** Among inputs of one kind, a later input has a larger index: the
      indices of a kind never repeat. */
  lemma RankIncreasing(flags: seq<bool>, i: nat, j: nat)
    requires i < j < |flags| && flags[i] == flags[j]
    ensures Rank(flags, i) < Rank(flags, j)
  {
    CountBeforeGrows(flags, i + 1, j, flags[i]);
  }

  /** Every index below the number of inputs of a kind is taken by an
      input of that kind: each kind is numbered `0, 1, ...` without gaps. */
  lemma {:induction false} RankOnto(flags: seq<bool>, n: nat, b: bool, v: nat)
    requires n <= |flags| && v < CountBefore(flags, n, b)
    ensures exists k :: 0 <= k < n && flags[k] == b && Rank(flags, k) == v
  {
    if v < CountBefore(flags, n - 1, b) {
      RankOnto(flags, n - 1, b, v);
      var k :| 0 <= k < n - 1 && flags[k] == b && Rank(flags, k) == v;
      assert 0 <= k < n;
    } else {
      assert flags[n - 1] == b && Rank(flags, n - 1) == v;
    }
  }

  // ---------------------------------------------------------------------
  // Switch names of segments, switches and directs
  // (`ProcessSegments`, `ProcessSwitches`, `ProcessDirects`)
  // ---------------------------------------------------------------------

  /** `j` is the first position of `name` in `names`. */
  predicate FirstMatch(names: seq<string>, name: string, j: nat) {
    j < |names| && names[j] == name && forall k :: 0 <= k < j ==> names[k] != name
  }

  /** The name-matching loop: the first position of `name` among the
      switch names, or `|names|` when no switch has it. */
  method MatchName(names: seq<string>, name: string) returns (j: nat)
    ensures j <= |names|
    ensures j < |names| ==> FirstMatch(names, name, j)
    ensures j == |names| <==> name !in names
  {
    j := 0;
    while j < |names| && names[j] != name
      invariant j <= |names|
      invariant forall k :: 0 <= k < j ==> names[k] != name
    {
      j := j + 1;
    }
  }

  /** The switches a `<segment>` names: the `<mux>` of a unidirectional
      segment, or the `<wire_switch>` and `<opin_switch>` of a
      bidirectional one. */
  datatype SegmentSwitchNames = MuxName(mux: string) | BidirNames(wireSwitch: string, opinSwitch: string)

  datatype SwitchNameError = InvalidMux(name: string) | InvalidWireSwitch(name: string) | InvalidOpinSwitch(name: string)

  /** The segment's `wire_switch` and `opin_switch` numbers.  A
      unidirectional segment uses its mux for both; a bidirectional one
      resolves the wire switch first, so an unknown wire switch is the
      error reported when both are unknown. */
  method ResolveSegmentSwitches(names: seq<string>, given: SegmentSwitchNames)
    returns (r: Result<(nat, nat), SwitchNameError>)
    ensures given.MuxName? ==> (r.Ok? <==> given.mux in names)
    ensures given.MuxName? && r.Ok? ==> r.value.0 == r.value.1 && FirstMatch(names, given.mux, r.value.0)
    ensures given.MuxName? && r.Err? ==> r.error == InvalidMux(given.mux)
    ensures given.BidirNames? ==> (r.Ok? <==> given.wireSwitch in names && given.opinSwitch in names)
    ensures given.BidirNames? && r.Ok? ==>
              FirstMatch(names, given.wireSwitch, r.value.0) && FirstMatch(names, given.opinSwitch, r.value.1)
    ensures given.BidirNames? && r.Err? ==>
              r.error == if given.wireSwitch !in names then InvalidWireSwitch(given.wireSwitch)
                         else InvalidOpinSwitch(given.opinSwitch)
  {
    match given
    case MuxName(mux) =>
      var j := MatchName(names, mux);
      if j >= |names| {
        return Err(InvalidMux(mux));
      }
      r := Ok((j, j));
    case BidirNames(wireSwitch, opinSwitch) =>
      var wire := MatchName(names, wireSwitch);
      if wire >= |names| {
        return Err(InvalidWireSwitch(wireSwitch));
      }
      var opin := MatchName(names, opinSwitch);
      if opin >= |names| {
        return Err(InvalidOpinSwitch(opinSwitch));
      }
      r := Ok((wire, opin));
  }

  /** Entry `i` repeats the name of an entry loaded before it. */
  predicate NamedBefore(names: seq<string>, i: nat)
    requires i < |names|
  {
    exists j :: 0 <= j < i && names[j] == names[i]
  }

  predicate DistinctNames(names: seq<string>) {
    forall i, j :: 0 <= i < j < |names| ==> names[i] != names[j]
  }

  /** The names are distinct exactly when no entry repeats an earlier one. */
  lemma DistinctIffNoneNamedBefore(names: seq<string>)
    ensures DistinctNames(names) <==> forall i :: 0 <= i < |names| ==> !NamedBefore(names, i)
  {
    if forall i :: 0 <= i < |names| ==> !NamedBefore(names, i) {
      forall i, j | 0 <= i < j < |names| ensures names[i] != names[j] {
        assert !NamedBefore(names, j);
      }
    }
  }

  /** The collision check of entry `i`: the inner loop over the entries
      loaded before it. */
  method NameTaken(names: seq<string>, i: nat) returns (taken: bool)
    requires i < |names|
    ensures taken <==> NamedBefore(names, i)
  {
    var j := 0;
    while j < i
      invariant j <= i
      invariant forall k :: 0 <= k < j ==> names[k] != names[i]
    {
      if names[j] == names[i] {
        return true;
      }
      j := j + 1;
    }
    return false;
  }

  /** The name checks of the switch loading loop: the error is the
      position of the first switch whose name an earlier switch has. */
  method CheckSwitchNames(names: seq<string>) returns (r: Result<(), nat>)
    ensures r.Ok? <==> DistinctNames(names)
    ensures r.Err? ==> r.error < |names| && NamedBefore(names, r.error)
    ensures r.Err? ==> forall k :: 0 <= k < r.error ==> !NamedBefore(names, k)
  {
    DistinctIffNoneNamedBefore(names);
    var i := 0;
    while i < |names|
      invariant i <= |names|
      invariant forall k :: 0 <= k < i ==> !NamedBefore(names, k)
    {
      var taken := NameTaken(names, i);
      if taken {
        return Err(i);
      }
      i := i + 1;
    }
    r := Ok(());
  }

  /** A `<direct>`: its name, its two pins and its offsets. */
  datatype Direct = Direct(name: string, fromPin: string, toPin: string, xOffset: int, yOffset: int, zOffset: int)

  /** The fatal errors of a direct, each with the direct's position. */
  datatype DirectError = DuplicateDirect(index: nat) | SamePins(index: nat) | ZeroLength(index: nat)

  function DirectNames(ds: seq<Direct>): (r: seq<string>)
    ensures |r| == |ds| && forall i :: 0 <= i < |ds| ==> r[i] == ds[i].name
  {
    seq(|ds|, i requires 0 <= i < |ds| => ds[i].name)
  }

  /** The first check direct `i` fails, in the order they are made: its
      name, then its pins, then its offsets. */
  function DirectFault(ds: seq<Direct>, i: nat): Option<DirectError>
    requires i < |ds|
  {
    if NamedBefore(DirectNames(ds), i) then Some(DuplicateDirect(i))
    else if ds[i].fromPin == ds[i].toPin then Some(SamePins(i))
    else if ds[i].xOffset == 0 && ds[i].yOffset == 0 then Some(ZeroLength(i))
    else None
  }

  /** The checks of the direct loading loop: the error is that of the first
      direct failing one. */
  method CheckDirects(ds: seq<Direct>) returns (r: Result<(), DirectError>)
    ensures r.Ok? <==> forall i :: 0 <= i < |ds| ==> DirectFault(ds, i).None?
    ensures r.Err? ==> r.error.index < |ds| && DirectFault(ds, r.error.index) == Some(r.error)
    ensures r.Err? ==> forall k :: 0 <= k < r.error.index ==> DirectFault(ds, k).None?
  {
    var names := DirectNames(ds);
    var i := 0;
    while i < |ds|
      invariant i <= |ds|
      invariant forall k :: 0 <= k < i ==> DirectFault(ds, k).None?
    {
      var taken := NameTaken(names, i);
      if taken || ds[i].fromPin == ds[i].toPin || (ds[i].xOffset == 0 && ds[i].yOffset == 0) {
        assert DirectFault(ds, i).Some?;
        if taken {
          return Err(DuplicateDirect(i));
        } else if ds[i].fromPin == ds[i].toPin {
          return Err(SamePins(i));
        }
        return Err(ZeroLength(i));
      }
      i := i + 1;
    }
    r := Ok(());
  }

  /** The directs pass every check exactly when their names are distinct,
      no direct joins a pin to itself and none has both offsets zero. */
  lemma DirectsAccepted(ds: seq<Direct>)
    ensures (forall i :: 0 <= i < |ds| ==> DirectFault(ds, i).None?) <==>
            && DistinctNames(DirectNames(ds))
            && (forall i :: 0 <= i < |ds| ==> ds[i].fromPin != ds[i].toPin)
            && (forall i :: 0 <= i < |ds| ==> ds[i].xOffset != 0 || ds[i].yOffset != 0)
  {
    var names := DirectNames(ds);
    DistinctIffNoneNamedBefore(names);
    if forall i :: 0 <= i < |ds| ==> DirectFault(ds, i).None? {
      forall i | 0 <= i < |ds|
        ensures !NamedBefore(names, i) && ds[i].fromPin != ds[i].toPin && (ds[i].xOffset != 0 || ds[i].yOffset != 0)
      {
        assert DirectFault(ds, i).None?;
      }
    } else {
      var i :| 0 <= i < |ds| && DirectFault(ds, i).Some?;
      assert NamedBefore(names, i) || ds[i].fromPin == ds[i].toPin || (ds[i].xOffset == 0 && ds[i].yOffset == 0);
    }
  }
}
