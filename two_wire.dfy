/**
 * The two-wire driver (class Dot): it bit-bangs a data line and a clock line
 * by storing pin masks into the GPIO "write 1 to set" and "write 1 to clear"
 * output registers. The registers are modelled by the ghost log of the stores
 * the driver makes; what those stores do to the two lines, and which data bits
 * a receiver latches on the rising clock edges, is defined on that log.
 */
module TwoWire {
  import opened Common

  /** The chip families the register selection distinguishes. */
  datatype Chip = Esp32C3 | Esp32C6 | OtherEsp32

  /** GPIO 0-31 are driven through the low output bank, higher pins through the high one. */
  datatype Bank = Low | High

  /** A "write 1 to set" or a "write 1 to clear" output register. */
  datatype Op = SetBits | ClearBits

  /** A register pointer: NULL where the chip has no such register. */
  datatype Handle = Null | Reg(op: Op, bank: Bank)

  /** One store of a mask into a register. */
  datatype RegWrite = RegWrite(reg: Handle, mask: bv32)

  /** The driver's four register pointers and two masks. */
  datatype Lines = Lines(dataSet: Handle, dataClear: Handle, clockSet: Handle, clockClear: Handle,
                         dataMask: bv32, clockMask: bv32)

  /** The two GPIO pin numbers. */
  datatype Pins = Pins(data: nat, clock: nat)

  /** The levels of the data and the clock line. */
  datatype Wire = Wire(data: bool, clock: bool)

  /** Bit b of v, counted from the least significant bit 0: the test `(v >> b) & 1`. */
  predicate BitOf(v: bv32, b: nat)
    requires b < 32
  {
    (v >> b) & 1 == 1
  }

  /** The bank a pin is driven through. */
  function BankOf(pin: nat): Bank
  {
    if pin < 32 then Low else High
  }

  /** `1 << (pin % 32)`: the mask has exactly the pin's bit within its bank set. */
  function MaskOf(pin: nat): (m: bv32)
    ensures forall b :: 0 <= b < 32 ==> (BitOf(m, b) <==> b == pin % 32)
  {
    var m: bv32 := 1 << (pin % 32);
    MaskBits(pin % 32, m);
    m
  }

  /** The single bit of `1 << s` is bit s. */
  lemma MaskBits(s: nat, m: bv32)
    requires s < 32 && m == 1 << s
    ensures forall b :: 0 <= b < 32 ==> (BitOf(m, b) <==> b == s)
  {
    forall b | 0 <= b < 32
      ensures BitOf(m, b) <==> b == s
    {
      if b < s {
        assert (m >> b) & 1 == 0;
      } else if b > s {
        assert (m >> b) & 1 == 0;
      } else {
        assert (m >> b) & 1 == 1;
      }
    }
  }

  /**
   * The register the constructor selects: ESP32-C3 has no high bank, so its
   * high-bank pointers are NULL; the other chips have both banks.
   */
  function Register(chip: Chip, op: Op, bank: Bank): Handle
  {
    if chip == Esp32C3 && bank == High then Null else Reg(op, bank)
  }

  /** Lines that drive the given pins: each pointer of its pin's bank, each mask of its pin. */
  predicate Wired(l: Lines, p: Pins)
  {
    && l.dataSet == Reg(SetBits, BankOf(p.data)) && l.dataClear == Reg(ClearBits, BankOf(p.data))
    && l.clockSet == Reg(SetBits, BankOf(p.clock)) && l.clockClear == Reg(ClearBits, BankOf(p.clock))
    && l.dataMask == MaskOf(p.data) && l.clockMask == MaskOf(p.clock)
  }

  /** The two pins are distinct output bits: different banks or different bits within the bank. */
  predicate Apart(p: Pins)
  {
    BankOf(p.data) != BankOf(p.clock) || p.data % 32 != p.clock % 32
  }

  // ---------------------------------------------------------------------------
  // The stores `Dot::set` makes
  // ---------------------------------------------------------------------------

  /** One clock pulse: set the clock bit, then clear it. */
  function Pulse(l: Lines): seq<RegWrite>
  {
    [RegWrite(l.clockSet, l.clockMask), RegWrite(l.clockClear, l.clockMask)]
  }

  function Pulses(l: Lines, n: nat): seq<RegWrite>
  {
    if n == 0 then [] else Pulses(l, n - 1) + Pulse(l)
  }

  /** The start and the end frame: data cleared, then 31 clock pulses. */
  function ZeroFrame(l: Lines): seq<RegWrite>
  {
    [RegWrite(l.dataClear, l.dataMask)] + Pulses(l, 31)
  }

  /** One bit: data set or cleared to match it, then a clock pulse. */
  function BitWrites(l: Lines, bit: bool): seq<RegWrite>
  {
    [if bit then RegWrite(l.dataSet, l.dataMask) else RegWrite(l.dataClear, l.dataMask)] + Pulse(l)
  }

  /** A sequence of bits, in order. */
  function WordWrites(l: Lines, bits: seq<bool>): seq<RegWrite>
  {
    if bits == [] then [] else WordWrites(l, bits[..|bits| - 1]) + BitWrites(l, bits[|bits| - 1])
  }

  /** All 32 bits of every value, most significant first, one value after the other. */
  function PixelWrites(l: Lines, vals: seq<bv32>): seq<RegWrite>
  {
    if vals == [] then [] else PixelWrites(l, vals[..|vals| - 1]) + WordWrites(l, Msb(vals[|vals| - 1]))
  }

  /** Everything one call of `Dot::set` stores. */
  function DotWrites(l: Lines, vals: seq<bv32>): seq<RegWrite>
  {
    ZeroFrame(l) + PixelWrites(l, vals) + ZeroFrame(l)
  }

  /** `c` advances by `multiColor` after each pixel, so pixel k reads colour Pos(k, multiColor). */
  predicate DotCovers(colors: seq<Color>, count: nat, multiColor: bool)
  {
    forall k :: 0 <= k < count ==> Pos(k, multiColor) < |colors|
  }

  /** The 32-bit values of the first `count` pixels. */
  function Values(colors: seq<Color>, count: nat, multiColor: bool): seq<bv32>
    requires DotCovers(colors, count, multiColor)
  {
    seq(count, k requires 0 <= k < count => colors[Pos(k, multiColor)].val)
  }

  /** A log holding the stores of some bits, extended by one more bit, holds the stores of the longer sequence. */
  lemma WordAppend(l: Lines, bits: seq<bool>, bit: bool, w0: seq<RegWrite>, before: seq<RegWrite>, after: seq<RegWrite>)
    requires before == w0 + WordWrites(l, bits)
    requires after == before + BitWrites(l, bit)
    ensures after == w0 + WordWrites(l, bits + [bit])
  {
    assert (bits + [bit])[..|bits|] == bits;
    Associative(w0, WordWrites(l, bits), BitWrites(l, bit));
  }

  /** One more value sent appends its 32 bits. */
  lemma PixelStep(l: Lines, vals: seq<bv32>, i: nat)
    requires i < |vals|
    ensures PixelWrites(l, vals[..i + 1]) == PixelWrites(l, vals[..i]) + WordWrites(l, Msb(vals[i]))
  {
    assert vals[..i + 1][..i] == vals[..i];
  }

  // ---------------------------------------------------------------------------
  // What the stores do to the lines
  // ---------------------------------------------------------------------------

  /** A store changes a line when it goes to the line's bank and its mask holds the line's bit. */
  function StepWire(p: Pins, w: Wire, e: RegWrite): Wire
  {
    match e.reg
    case Null => w
    case Reg(op, bank) =>
      Wire(if bank == BankOf(p.data) && BitOf(e.mask, p.data % 32) then op == SetBits else w.data,
           if bank == BankOf(p.clock) && BitOf(e.mask, p.clock % 32) then op == SetBits else w.clock)
  }

  /** The line levels after a sequence of stores. */
  function Run(p: Pins, w: Wire, es: seq<RegWrite>): Wire
  {
    if es == [] then w else StepWire(p, Run(p, w, es[..|es| - 1]), es[|es| - 1])
  }

  /** A store that raises the clock latches the data level. */
  function Latched(before: Wire, after: Wire): seq<bool>
  {
    if !before.clock && after.clock then [after.data] else []
  }

  /** The data levels a receiver latches: the data line at each rising clock edge. */
  function Samples(p: Pins, w: Wire, es: seq<RegWrite>): seq<bool>
  {
    if es == [] then []
    else
      var before := Run(p, w, es[..|es| - 1]);
      Samples(p, w, es[..|es| - 1]) + Latched(before, StepWire(p, before, es[|es| - 1]))
  }

  /** n copies of a level. */
  function Repeat(x: bool, n: nat): (r: seq<bool>)
    ensures |r| == n && forall i :: 0 <= i < n ==> r[i] == x
  {
    if n == 0 then [] else Repeat(x, n - 1) + [x]
  }

  /** Two runs of the same level make one run of the combined length. */
  lemma RepeatAppend(x: bool, m: nat, n: nat)
    ensures Repeat(x, m) + Repeat(x, n) == Repeat(x, m + n)
  {
    var r := Repeat(x, m) + Repeat(x, n);
    assert forall i :: 0 <= i < m + n ==> r[i] == Repeat(x, m + n)[i];
  }

  function Zeros(n: nat): seq<bool>
  {
    Repeat(false, n)
  }

  /** v's bits, most significant first: position i holds bit 31 - i. */
  function Msb(v: bv32): seq<bool>
  {
    seq(32, i requires 0 <= i < 32 => BitOf(v, 31 - i))
  }

  /** The bits of every value, most significant first, one value after the other. */
  function MsbAll(vals: seq<bv32>): seq<bool>
  {
    if vals == [] then [] else MsbAll(vals[..|vals| - 1]) + Msb(vals[|vals| - 1])
  }

  lemma {:induction false} RunSamplesAppend(p: Pins, w: Wire, a: seq<RegWrite>, b: seq<RegWrite>)
    ensures Run(p, w, a + b) == Run(p, Run(p, w, a), b)
    ensures Samples(p, w, a + b) == Samples(p, w, a) + Samples(p, Run(p, w, a), b)
    decreases |b|
  {
    if b == [] {
      assert a + b == a;
    } else {
      var b' := b[..|b| - 1];
      assert (a + b)[..|a + b| - 1] == a + b';
      RunSamplesAppend(p, w, a, b');
    }
  }

  /** A data store moves only the data line; clock stores move only the clock line. */
  lemma StoreEffects(l: Lines, p: Pins, w: Wire)
    requires Wired(l, p) && Apart(p)
    ensures StepWire(p, w, RegWrite(l.dataSet, l.dataMask)) == Wire(true, w.clock)
    ensures StepWire(p, w, RegWrite(l.dataClear, l.dataMask)) == Wire(false, w.clock)
    ensures StepWire(p, w, RegWrite(l.clockSet, l.clockMask)) == Wire(w.data, true)
    ensures StepWire(p, w, RegWrite(l.clockClear, l.clockMask)) == Wire(w.data, false)
  {
    assert BitOf(l.dataMask, p.data % 32);
    assert BitOf(l.clockMask, p.clock % 32);
    assert BankOf(p.data) == BankOf(p.clock) ==> !BitOf(l.dataMask, p.clock % 32) && !BitOf(l.clockMask, p.data % 32);
  }

  /** A single store. */
  lemma Single(p: Pins, w: Wire, e: RegWrite)
    ensures Run(p, w, [e]) == StepWire(p, w, e)
    ensures Samples(p, w, [e]) == Latched(w, StepWire(p, w, e))
  {
    assert [e][..0] == [];
  }

  /** A pulse from clock low latches the data level once and leaves the clock low. */
  lemma PulseEffect(l: Lines, p: Pins, w: Wire)
    requires Wired(l, p) && Apart(p) && !w.clock
    ensures Run(p, w, Pulse(l)) == w
    ensures Samples(p, w, Pulse(l)) == [w.data]
  {
    var up := RegWrite(l.clockSet, l.clockMask);
    var down := RegWrite(l.clockClear, l.clockMask);
    assert Pulse(l) == [up] + [down];
    RunSamplesAppend(p, w, [up], [down]);
    StoreEffects(l, p, w);
    Single(p, w, up);
    var high := Wire(w.data, true);
    StoreEffects(l, p, high);
    Single(p, high, down);
  }

  lemma {:induction false} PulsesEffect(l: Lines, p: Pins, w: Wire, n: nat)
    requires Wired(l, p) && Apart(p) && !w.clock
    ensures Run(p, w, Pulses(l, n)) == w
    ensures Samples(p, w, Pulses(l, n)) == Repeat(w.data, n)
  {
    if n > 0 {
      PulsesEffect(l, p, w, n - 1);
      RunSamplesAppend(p, w, Pulses(l, n - 1), Pulse(l));
      PulseEffect(l, p, w);
    }
  }

  /** The start or end frame, from clock low: 31 zeros latched; both lines end low. */
  lemma ZeroFrameEffect(l: Lines, p: Pins, w: Wire)
    requires Wired(l, p) && Apart(p) && !w.clock
    ensures Run(p, w, ZeroFrame(l)) == Wire(false, false)
    ensures Samples(p, w, ZeroFrame(l)) == Zeros(31)
  {
    var first := RegWrite(l.dataClear, l.dataMask);
    assert ZeroFrame(l) == [first] + Pulses(l, 31);
    RunSamplesAppend(p, w, [first], Pulses(l, 31));
    StoreEffects(l, p, w);
    Single(p, w, first);
    PulsesEffect(l, p, Wire(false, false), 31);
  }

  /** One bit, from clock low: the bit is latched and the clock ends low. */
  lemma BitEffect(l: Lines, p: Pins, w: Wire, bit: bool)
    requires Wired(l, p) && Apart(p) && !w.clock
    ensures Run(p, w, BitWrites(l, bit)) == Wire(bit, false)
    ensures Samples(p, w, BitWrites(l, bit)) == [bit]
  {
    var first := if bit then RegWrite(l.dataSet, l.dataMask) else RegWrite(l.dataClear, l.dataMask);
    assert BitWrites(l, bit) == [first] + Pulse(l);
    RunSamplesAppend(p, w, [first], Pulse(l));
    StoreEffects(l, p, w);
    Single(p, w, first);
    PulseEffect(l, p, Wire(bit, false));
  }

  /** A sequence of bits, from clock low: exactly those bits are latched, and the clock ends low. */
  lemma {:induction false} WordEffect(l: Lines, p: Pins, w: Wire, bits: seq<bool>)
    requires Wired(l, p) && Apart(p) && !w.clock
    ensures !Run(p, w, WordWrites(l, bits)).clock
    ensures Samples(p, w, WordWrites(l, bits)) == bits
    decreases |bits|
  {
    if bits != [] {
      var n := |bits| - 1;
      WordEffect(l, p, w, bits[..n]);
      var front := WordWrites(l, bits[..n]);
      RunSamplesAppend(p, w, front, BitWrites(l, bits[n]));
      BitEffect(l, p, Run(p, w, front), bits[n]);
      SplitLast(bits);
    }
  }

  lemma {:induction false} PixelsEffect(l: Lines, p: Pins, w: Wire, vals: seq<bv32>)
    requires Wired(l, p) && Apart(p) && !w.clock
    ensures !Run(p, w, PixelWrites(l, vals)).clock
    ensures Samples(p, w, PixelWrites(l, vals)) == MsbAll(vals)
    decreases |vals|
  {
    if vals != [] {
      var front := vals[..|vals| - 1];
      PixelsEffect(l, p, w, front);
      RunSamplesAppend(p, w, PixelWrites(l, front), WordWrites(l, Msb(vals[|vals| - 1])));
      WordEffect(l, p, Run(p, w, PixelWrites(l, front)), Msb(vals[|vals| - 1]));
    }
  }

  lemma {:induction false} MsbAllLength(vals: seq<bv32>)
    ensures |MsbAll(vals)| == 32 * |vals|
    decreases |vals|
  {
    if vals != [] {
      MsbAllLength(vals[..|vals| - 1]);
    }
  }

  /** MsbAll puts value k's bit b, most significant first, at position 32 * k + 31 - b. */
  lemma {:induction false} MsbAllAt(vals: seq<bv32>, k: nat, b: nat)
    requires k < |vals| && b < 32
    ensures |MsbAll(vals)| == 32 * |vals|
    ensures MsbAll(vals)[32 * k + 31 - b] == BitOf(vals[k], b)
    decreases |vals|
  {
    var n := |vals| - 1;
    var front := vals[..n];
    MsbAllLength(vals);
    MsbAllLength(front);
    var head, last := MsbAll(front), Msb(vals[n]);
    assert MsbAll(vals) == head + last;
    var i := 32 * k + 31 - b;
    if k < n {
      MsbAllAt(front, k, b);
      assert (head + last)[i] == head[i];
      assert front[k] == vals[k];
    } else {
      assert (head + last)[i] == last[31 - b];
    }
  }

  /**
   * What a receiver on the two lines latches from one `Dot::set`: 31 zeros,
   * then every value's 32 bits most significant first, then 31 zeros; so
   * 62 + 32 * |vals| clock pulses, and both lines are left low.
   */
  lemma DotSignal(l: Lines, p: Pins, w: Wire, vals: seq<bv32>)
    requires Wired(l, p) && Apart(p) && !w.clock
    ensures Samples(p, w, DotWrites(l, vals)) == Zeros(31) + MsbAll(vals) + Zeros(31)
    ensures |Samples(p, w, DotWrites(l, vals))| == 62 + 32 * |vals|
    ensures Run(p, w, DotWrites(l, vals)) == Wire(false, false)
  {
    var start := ZeroFrame(l);
    var body := PixelWrites(l, vals);
    ZeroFrameEffect(l, p, w);
    var w1 := Run(p, w, start);
    PixelsEffect(l, p, w1, vals);
    RunSamplesAppend(p, w, start, body);
    var w2 := Run(p, w, start + body);
    ZeroFrameEffect(l, p, w2);
    RunSamplesAppend(p, w, start + body, start);
    MsbAllLength(vals);
  }

  /** Scenario: the value 1 is 31 zero bits and then a one. */
  lemma ValueOne()
    ensures Msb(1) == Zeros(31) + [true]
  {
    MaskBits(0, 1);
    forall i | 0 <= i < 32
      ensures Msb(1)[i] == (Zeros(31) + [true])[i]
    {
      assert Msb(1)[i] == BitOf(1, 31 - i);
    }
  }

  /** With no pixels (or a negative count) only the two frames go out: 62 zeros. */
  lemma NoPixelsStillFrames(l: Lines, p: Pins, w: Wire, colors: seq<Color>, multiColor: bool)
    requires Wired(l, p) && Apart(p) && !w.clock
    ensures Samples(p, w, DotWrites(l, Values(colors, 0, multiColor))) == Zeros(62)
  {
    var vals := Values(colors, 0, multiColor);
    assert vals == [];
    DotSignal(l, p, w, vals);
    assert MsbAll(vals) == [];
    assert Zeros(31) + [] == Zeros(31);
    RepeatAppend(false, 31, 31);
  }

  /** With multiColor false every pixel carries the first colour's value. */
  lemma DotSingleColor(colors: seq<Color>, count: nat)
    requires 0 < |colors|
    ensures DotCovers(colors, count, false)
    ensures Values(colors, count, false) == seq(count, _ => colors[0].val)
  {
  }

  // ---------------------------------------------------------------------------
  // The driver
  // ---------------------------------------------------------------------------

  class Dot {
    /** The pins the driver was built for (the source keeps only their masks). */
    ghost const dataPin: nat
    ghost const clockPin: nat
    const dataMask: bv32
    const clockMask: bv32
    const dataSetReg: Handle
    const dataClearReg: Handle
    const clockSetReg: Handle
    const clockClearReg: Handle
    /** The register stores made so far. */
    ghost var writes: seq<RegWrite>

    /** The pointers and masks as one value. */
    function Wiring(): Lines
    {
      Lines(dataSetReg, dataClearReg, clockSetReg, clockClearReg, dataMask, clockMask)
    }

    /** All four pointers exist, so `set` dereferences no NULL. */
    predicate Usable()
    {
      dataSetReg != Null && dataClearReg != Null && clockSetReg != Null && clockClearReg != Null
    }

    /**
     * `Dot(dataPin, clockPin)` on the given chip: the masks of the pins' bits,
     * and the pointers of their banks, which exist except for the high bank
     * of an ESP32-C3.
     */
    constructor (dataPin: uint8, clockPin: uint8, chip: Chip)
      ensures this.dataPin == dataPin && this.clockPin == clockPin && writes == []
      ensures dataMask == MaskOf(dataPin) && clockMask == MaskOf(clockPin)
      ensures dataSetReg == Register(chip, SetBits, BankOf(dataPin))
           && dataClearReg == Register(chip, ClearBits, BankOf(dataPin))
      ensures clockSetReg == Register(chip, SetBits, BankOf(clockPin))
           && clockClearReg == Register(chip, ClearBits, BankOf(clockPin))
      ensures Usable() <==> chip != Esp32C3 || (dataPin < 32 && clockPin < 32)
      ensures Usable() ==> Wired(Wiring(), Pins(dataPin, clockPin))
      ensures (dataSetReg == Null <==> chip == Esp32C3 && dataPin >= 32)
           && (dataClearReg == Null <==> chip == Esp32C3 && dataPin >= 32)
           && (clockSetReg == Null <==> chip == Esp32C3 && clockPin >= 32)
           && (clockClearReg == Null <==> chip == Esp32C3 && clockPin >= 32)
    {
      this.dataPin := dataPin;
      this.clockPin := clockPin;
      dataMask := 1 << (dataPin % 32);
      clockMask := 1 << (clockPin % 32);
      dataSetReg := Register(chip, SetBits, if dataPin < 32 then Low else High);
      dataClearReg := Register(chip, ClearBits, if dataPin < 32 then Low else High);
      clockSetReg := Register(chip, SetBits, if clockPin < 32 then Low else High);
      clockClearReg := Register(chip, ClearBits, if clockPin < 32 then Low else High);
      writes := [];
      new;
      assert dataMask == MaskOf(dataPin) && clockMask == MaskOf(clockPin);
    }

    /** One clock pulse. */
    method Strobe()
      modifies this`writes
      ensures writes == old(writes) + Pulse(Wiring())
    {
      writes := writes + [RegWrite(clockSetReg, clockMask)];
      writes := writes + [RegWrite(clockClearReg, clockMask)];
    }

    /** The block that opens and closes `set`: data cleared, then 31 clock pulses. */
    method Frame()
      modifies this`writes
      ensures writes == old(writes) + ZeroFrame(Wiring())
    {
      ghost var w0 := writes;
      writes := writes + [RegWrite(dataClearReg, dataMask)];
      var j := 0;
      while j < 31
        invariant 0 <= j <= 31
        invariant writes == w0 + [RegWrite(dataClearReg, dataMask)] + Pulses(Wiring(), j)
      {
        Strobe();
        j := j + 1;
      }
    }

    /** One pass of the inner loop: the data line to the level of one bit, then a clock pulse. */
    method SendBit(bit: bool)
      modifies this`writes
      ensures writes == old(writes) + BitWrites(Wiring(), bit)
    {
      ghost var w0 := writes;
      var store: RegWrite;
      if bit {
        store := RegWrite(dataSetReg, dataMask);
      } else {
        store := RegWrite(dataClearReg, dataMask);
      }
      writes := writes + [store];
      Strobe();
      Associative(w0, [store], Pulse(Wiring()));
    }

    /** The inner loop of `set`: bits 31 down to 0 of one value, most significant first. */
    method SendWord(v: bv32)
      modifies this`writes
      ensures writes == old(writes) + WordWrites(Wiring(), Msb(v))
    {
      ghost var w0 := writes;
      ghost var l := Wiring();
      ghost var bits: seq<bool> := [];
      var b := 31;
      while b >= 0
        invariant -1 <= b <= 31
        invariant |bits| == 31 - b
        invariant forall k :: 0 <= k < |bits| ==> bits[k] == BitOf(v, 31 - k)
        invariant writes == w0 + WordWrites(l, bits)
      {
        var bit := BitOf(v, b);
        ghost var before := writes;
        SendBit(bit);
        WordAppend(l, bits, bit, w0, before, writes);
        bits := bits + [bit];
        b := b - 1;
      }
      assert bits == Msb(v);
    }

    /**
     * `Dot::set`: the start frame, then the 32 bits of each of the first
     * nPixels colours (none when nPixels is zero or negative), each next
     * colour read from the next position when `multiColor`, then the end frame.
     */
    method Set(colors: seq<Color>, nPixels: int, multiColor: bool)
      requires Usable()
      requires DotCovers(colors, Max(nPixels, 0), multiColor)
      modifies this`writes
      ensures writes == old(writes) + DotWrites(Wiring(), Values(colors, Max(nPixels, 0), multiColor))
    {
      ghost var w0 := writes;
      ghost var vals := Values(colors, Max(nPixels, 0), multiColor);
      Frame();
      ghost var w1 := writes;
      var c := 0;
      var i := 0;
      while i < nPixels
        invariant 0 <= i <= |vals|
        invariant c == Pos(i, multiColor)
        invariant writes == w1 + PixelWrites(Wiring(), vals[..i])
      {
        assert colors[c].val == vals[i];
        SendWord(colors[c].val);
        PixelStep(Wiring(), vals, i);
        Associative(w1, PixelWrites(Wiring(), vals[..i]), WordWrites(Wiring(), Msb(vals[i])));
        c := c + if multiColor then 1 else 0;
        i := i + 1;
      }
      Frame();
      assert vals[..i] == vals;
      ghost var z, body := ZeroFrame(Wiring()), PixelWrites(Wiring(), vals);
      Associative(w0, z, body);
      Associative(w0, z + body, z);
    }
  }

  /**
   * The driver's stores, on pins it was built for, latch into the strip 31
   * zeros, the bits of each colour sent, and 31 zeros.
   */
  lemma DotDrivesPins(d: Dot, colors: seq<Color>, nPixels: int, multiColor: bool, w: Wire)
    requires d.Usable() && Wired(d.Wiring(), Pins(d.dataPin, d.clockPin)) && Apart(Pins(d.dataPin, d.clockPin))
    requires DotCovers(colors, Max(nPixels, 0), multiColor) && !w.clock
    ensures Samples(Pins(d.dataPin, d.clockPin), w, DotWrites(d.Wiring(), Values(colors, Max(nPixels, 0), multiColor)))
         == Zeros(31) + MsbAll(Values(colors, Max(nPixels, 0), multiColor)) + Zeros(31)
  {
    DotSignal(d.Wiring(), Pins(d.dataPin, d.clockPin), w, Values(colors, Max(nPixels, 0), multiColor));
  }
}
