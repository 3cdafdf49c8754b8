/**
 * The single-wire driver (class Pixel): it remaps colour bytes through the
 * pixelType table and hands them, one pixel at a time, to an RMT transmit
 * channel clocked at 80 MHz. The RMT channel is modelled by the ghost log of
 * the staging steps and the calls the driver makes on it.
 */
module SingleWire {
  import opened Common
  import opened PixelType

  /** A staging step of the driver, or a call it makes on its RMT channel. */
  datatype RmtEvent =
    | Fill(slot: nat)                                        // remap a colour into one ping/pong slot
    | WaitAllDone                                            // rmt_tx_wait_all_done
    | Transmit(slot: nat, bytes: seq<byte>, enc: BytesEncoder) // rmt_transmit of a slot through the encoder
    | Delay(us: nat)                                         // delayMicroseconds

  /** One RMT symbol: a level held for a number of ticks, then a second level. */
  datatype Symbol = Symbol(level0: int, duration0: nat, level1: int, duration1: nat)

  /** The bytes encoder's configuration: the symbol for a 0 bit, for a 1 bit, and the bit order. */
  datatype BytesEncoder = BytesEncoder(bit0: Symbol, bit1: Symbol, msbFirst: bool)

  /** The configuration `rmt_new_bytes_encoder` starts from before the first retiming. */
  const BlankEncoder := BytesEncoder(Symbol(0, 0, 0, 0), Symbol(0, 0, 0, 0), false)

  /**
   * A duration in microseconds as 80 MHz ticks, `d*80 + 0.5` truncated: the
   * tick count nearest to the duration, halves rounded up.
   */
  function Ticks(d: real): (t: nat)
    requires d >= 0.0
    ensures d * 80.0 - 0.5 < t as real <= d * 80.0 + 0.5
  {
    (d * 80.0 + 0.5).Floor
  }

  /** No whole number of ticks is closer to the duration than `Ticks(d)`. */
  lemma TicksNearest(d: real, n: int)
    requires d >= 0.0
    ensures var e := Ticks(d) as real - d * 80.0;
            var f := n as real - d * 80.0;
            (if e < 0.0 then -e else e) <= (if f < 0.0 then -f else f)
  {
    var t := Ticks(d);
    if n > t {
      assert n as real >= t as real + 1.0;
    } else if n < t {
      assert n as real <= t as real - 1.0;
    }
  }

  /** The encoder configuration `setTiming` installs. */
  function Encoder(high0: real, low0: real, high1: real, low1: real): BytesEncoder
    requires high0 >= 0.0 && low0 >= 0.0 && high1 >= 0.0 && low1 >= 0.0
  {
    BytesEncoder(Symbol(1, Ticks(high0), 0, Ticks(low0)), Symbol(1, Ticks(high1), 0, Ticks(low1)), true)
  }

  /** The constructor's default timing for SK68 and WS28 pixels, in ticks. */
  lemma DefaultTiming()
    ensures Encoder(0.32, 0.88, 0.64, 0.56)
         == BytesEncoder(Symbol(1, 26, 0, 70), Symbol(1, 51, 0, 45), true)
  {
    assert Ticks(0.32) == 26;
    assert Ticks(0.88) == 70;
    assert Ticks(0.64) == 51;
    assert Ticks(0.56) == 45;
  }

  /** Every colour read for `count` pixels exists and has the bytes the map names. */
  predicate Covers(colors: seq<Color>, count: nat, multiColor: bool, m: seq<nat>)
  {
    forall k :: 0 <= k < count ==>
      Pos(k, multiColor) < |colors| && forall i :: 0 <= i < |m| ==> m[i] < |colors[Pos(k, multiColor)].col|
  }

  /** One colour's bytes in output order: output byte i is colour byte m[i]. */
  function Remap(c: Color, m: seq<nat>): seq<byte>
    requires forall i :: 0 <= i < |m| ==> m[i] < |c.col|
  {
    seq(|m|, i requires 0 <= i < |m| => c.col[m[i]])
  }

  /**
   * How many pixels the do/while loop sends for a non-zero count: the body
   * runs once before `--nPixels > 0` is first tested.
   */
  function Submitted(nPixels: int): nat
  {
    if nPixels > 0 then nPixels else 1
  }

  /** The remapped buffer of every pixel sent. */
  function Buffers(colors: seq<Color>, m: seq<nat>, count: nat, multiColor: bool): seq<seq<byte>>
    requires Covers(colors, count, multiColor, m)
  {
    seq(count, k requires 0 <= k < count => Remap(colors[Pos(k, multiColor)], m))
  }

  /**
   * The events of sending `bufs` through encoder `enc`: for buffer k, slot
   * k % 2 is filled, the channel is waited on, and the slot is submitted.
   */
  function Submissions(bufs: seq<seq<byte>>, enc: BytesEncoder): seq<RmtEvent>
  {
    if bufs == [] then []
    else
      var k := |bufs| - 1;
      Submissions(bufs[..k], enc) + [Fill(k % 2), WaitAllDone, Transmit(k % 2, bufs[k], enc)]
  }

  /** Everything one call of `Pixel::set` does, with `enc` the encoder configuration in force. */
  function Transmission(enabled: bool, m: seq<nat>, colors: seq<Color>, nPixels: int, multiColor: bool,
                        enc: BytesEncoder, resetTime: nat): seq<RmtEvent>
    requires enabled && nPixels != 0 ==> Covers(colors, Submitted(nPixels), multiColor, m)
  {
    if !enabled || nPixels == 0 then []
    else Submissions(Buffers(colors, m, Submitted(nPixels), multiColor), enc) + [WaitAllDone, Delay(resetTime)]
  }

  /** Proof step for `Pixel.Set`: the enabled branch of `Transmission`, unfolded once. */
  lemma TransmissionOfEnabled(m: seq<nat>, colors: seq<Color>, nPixels: int, multiColor: bool,
                               enc: BytesEncoder, resetTime: nat)
    requires nPixels != 0 && Covers(colors, Submitted(nPixels), multiColor, m)
    ensures Transmission(true, m, colors, nPixels, multiColor, enc, resetTime)
         == Submissions(Buffers(colors, m, Submitted(nPixels), multiColor), enc) + [WaitAllDone, Delay(resetTime)]
  {
  }

  /** Number of submissions in a sequence of calls. */
  function TransmitCount(es: seq<RmtEvent>): nat
  {
    if es == [] then 0
    else TransmitCount(es[..|es| - 1]) + (if es[|es| - 1].Transmit? then 1 else 0)
  }

  lemma {:induction false} TransmitCountAppend(a: seq<RmtEvent>, b: seq<RmtEvent>)
    ensures TransmitCount(a + b) == TransmitCount(a) + TransmitCount(b)
    decreases |b|
  {
    if b == [] {
      assert a + b == a;
    } else {
      var b' := b[..|b| - 1];
      assert (a + b)[..|a + b| - 1] == a + b';
      TransmitCountAppend(a, b');
    }
  }

  /** Three events per buffer, one of them a submission. */
  lemma {:induction false} SubmissionsLength(bufs: seq<seq<byte>>, enc: BytesEncoder)
    ensures |Submissions(bufs, enc)| == 3 * |bufs|
    ensures TransmitCount(Submissions(bufs, enc)) == |bufs|
  {
    if bufs != [] {
      var n := |bufs| - 1;
      var front := bufs[..n];
      SubmissionsLength(front, enc);
      var tail := [Fill(n % 2), WaitAllDone, Transmit(n % 2, bufs[n], enc)];
      assert Submissions(bufs, enc) == Submissions(front, enc) + tail;
      TransmitCountAppend(Submissions(front, enc), tail);
      assert TransmitCount(tail) == 1 by {
        var fill := [Fill(n % 2)];
        assert TransmitCount(fill) == 0 by { assert fill[..0] == []; }
        assert TransmitCount(fill + [WaitAllDone]) == 0 by { assert (fill + [WaitAllDone])[..1] == fill; }
        assert tail[..2] == fill + [WaitAllDone];
      }
    }
  }

  /** Buffer k's events: slot k % 2 is filled, the channel waited on, and the slot submitted with buffer k. */
  lemma {:induction false} SubmissionsAt(bufs: seq<seq<byte>>, enc: BytesEncoder, k: nat)
    requires k < |bufs|
    ensures |Submissions(bufs, enc)| == 3 * |bufs|
    ensures Submissions(bufs, enc)[3 * k] == Fill(k % 2)
    ensures Submissions(bufs, enc)[3 * k + 1] == WaitAllDone
    ensures Submissions(bufs, enc)[3 * k + 2] == Transmit(k % 2, bufs[k], enc)
    decreases |bufs|
  {
    var n := |bufs| - 1;
    var front := bufs[..n];
    SubmissionsLength(bufs, enc);
    SubmissionsLength(front, enc);
    var head, tail := Submissions(front, enc), [Fill(n % 2), WaitAllDone, Transmit(n % 2, bufs[n], enc)];
    assert Submissions(bufs, enc) == head + tail;
    if k < n {
      SubmissionsAt(front, enc, k);
      assert front[k] == bufs[k];
      assert (head + tail)[3 * k] == head[3 * k];
      assert (head + tail)[3 * k + 1] == head[3 * k + 1];
      assert (head + tail)[3 * k + 2] == head[3 * k + 2];
    }
  }

  /** Sending pixel k after the first k appends its fill, a wait and its submission from slot k % 2. */
  lemma BuffersStep(colors: seq<Color>, m: seq<nat>, k: nat, multiColor: bool, enc: BytesEncoder)
    requires Covers(colors, k + 1, multiColor, m)
    ensures Covers(colors, k, multiColor, m)
    ensures Submissions(Buffers(colors, m, k + 1, multiColor), enc)
         == Submissions(Buffers(colors, m, k, multiColor), enc)
            + [Fill(k % 2), WaitAllDone, Transmit(k % 2, Remap(colors[Pos(k, multiColor)], m), enc)]
  {
    var bufs := Buffers(colors, m, k + 1, multiColor);
    assert bufs[..k] == Buffers(colors, m, k, multiColor);
  }

  /** A log holding the first k pixels' events, extended by pixel k's, holds the first k + 1 pixels' events. */
  lemma LogStep(colors: seq<Color>, m: seq<nat>, k: nat, multiColor: bool, enc: BytesEncoder,
                log0: seq<RmtEvent>, before: seq<RmtEvent>, after: seq<RmtEvent>)
    requires Covers(colors, k + 1, multiColor, m)
    requires Covers(colors, k, multiColor, m) && before == log0 + Submissions(Buffers(colors, m, k, multiColor), enc)
    requires after == before + [Fill(k % 2), WaitAllDone, Transmit(k % 2, Remap(colors[Pos(k, multiColor)], m), enc)]
    ensures after == log0 + Submissions(Buffers(colors, m, k + 1, multiColor), enc)
  {
    BuffersStep(colors, m, k, multiColor, enc);
    Associative(log0, Submissions(Buffers(colors, m, k, multiColor), enc),
                [Fill(k % 2), WaitAllDone, Transmit(k % 2, Remap(colors[Pos(k, multiColor)], m), enc)]);
  }

  /** Proof step for `Pixel.Set`: flipping the slot index keeps it equal to the pixel count mod 2. */
  lemma SlotAlternates(k: nat)
    ensures (k + 1) % 2 == 1 - k % 2
  {
  }

  /**
   * What `Pixel::set` sends: nothing when disabled or asked for no pixels;
   * otherwise, for each of the Submitted(nPixels) pixels, a fill of slot
   * k % 2, a wait, and the submission of that slot holding colour
   * Pos(k, multiColor) remapped; then a final wait and the reset delay.
   */
  lemma TransmissionContents(enabled: bool, m: seq<nat>, colors: seq<Color>, nPixels: int, multiColor: bool,
                             enc: BytesEncoder, resetTime: nat)
    requires enabled && nPixels != 0 ==> Covers(colors, Submitted(nPixels), multiColor, m)
    ensures var es := Transmission(enabled, m, colors, nPixels, multiColor, enc, resetTime);
      && (!enabled || nPixels == 0 ==> es == [])
      && (enabled && nPixels != 0 ==>
           && |es| == 3 * Submitted(nPixels) + 2
           && TransmitCount(es) == Submitted(nPixels)
           && (forall k :: 0 <= k < Submitted(nPixels) ==>
                 && es[3 * k] == Fill(k % 2)
                 && es[3 * k + 1] == WaitAllDone
                 && es[3 * k + 2] == Transmit(k % 2, Remap(colors[Pos(k, multiColor)], m), enc))
           && es[|es| - 2] == WaitAllDone
           && es[|es| - 1] == Delay(resetTime))
  {
    if enabled && nPixels != 0 {
      var count := Submitted(nPixels);
      var bufs := Buffers(colors, m, count, multiColor);
      var subs, tail := Submissions(bufs, enc), [WaitAllDone, Delay(resetTime)];
      var es := Transmission(enabled, m, colors, nPixels, multiColor, enc, resetTime);
      assert es == subs + tail;
      SubmissionsLength(bufs, enc);
      TransmitCountAppend(subs, tail);
      assert TransmitCount(tail) == 0 by {
        assert tail[..1] == [WaitAllDone];
        assert [WaitAllDone][..0] == [];
      }
      forall k | 0 <= k < count
        ensures && es[3 * k] == Fill(k % 2)
                && es[3 * k + 1] == WaitAllDone
                && es[3 * k + 2] == Transmit(k % 2, Remap(colors[Pos(k, multiColor)], m), enc)
      {
        SubmissionsAt(bufs, enc, k);
        assert es[3 * k] == subs[3 * k] && es[3 * k + 1] == subs[3 * k + 1] && es[3 * k + 2] == subs[3 * k + 2];
      }
    }
  }

  /** Each submission is preceded directly by a wait for the channel to go idle. */
  lemma WaitBeforeEverySubmission(enabled: bool, m: seq<nat>, colors: seq<Color>, nPixels: int, multiColor: bool,
                                  enc: BytesEncoder, resetTime: nat)
    requires enabled && nPixels != 0 ==> Covers(colors, Submitted(nPixels), multiColor, m)
    ensures var es := Transmission(enabled, m, colors, nPixels, multiColor, enc, resetTime);
      forall j :: 0 <= j < |es| && es[j].Transmit? ==> 0 < j && es[j - 1] == WaitAllDone
  {
    TransmissionContents(enabled, m, colors, nPixels, multiColor, enc, resetTime);
    var es := Transmission(enabled, m, colors, nPixels, multiColor, enc, resetTime);
    forall j | 0 <= j < |es| && es[j].Transmit?
      ensures 0 < j && es[j - 1] == WaitAllDone
    {
      // the last two events are the final wait and the delay, not submissions
      assert j < 3 * Submitted(nPixels);
      var k := j / 3;
      assert j == 3 * k || j == 3 * k + 1 || j == 3 * k + 2;
      assert es[3 * k] == Fill(k % 2) && es[3 * k + 1] == WaitAllDone;
    }
  }

  /**
   * The layout of a whole frame for `count` pixels: per pixel a fill of
   * slot k % 2, a wait and a submission from that slot; then a final wait
   * and a delay.
   */
  ghost predicate Framed(es: seq<RmtEvent>, count: nat)
  {
    && |es| == 3 * count + 2
    && (forall k :: 0 <= k < count ==>
          es[3 * k] == Fill(k % 2) && es[3 * k + 1] == WaitAllDone
          && es[3 * k + 2].Transmit? && es[3 * k + 2].slot == k % 2)
    && es[|es| - 2] == WaitAllDone && es[|es| - 1].Delay?
  }

  /** In a framed log, a wait lies between every submission of a slot and any later fill of it. */
  lemma FramedWaits(es: seq<RmtEvent>, count: nat, i: nat, j: nat)
    requires Framed(es, count)
    requires i < j < |es| && es[i].Transmit? && es[j].Fill? && es[i].slot == es[j].slot
    ensures exists w :: i < w < j && es[w] == WaitAllDone
  {
    // only the first 3 * count events are fills and submissions
    assert i < 3 * count && j < 3 * count;
    var ki, kj := i / 3, j / 3;
    assert i == 3 * ki + 2 by {
      assert i == 3 * ki || i == 3 * ki + 1 || i == 3 * ki + 2;
      assert es[3 * ki] == Fill(ki % 2) && es[3 * ki + 1] == WaitAllDone;
    }
    assert j == 3 * kj by {
      assert j == 3 * kj || j == 3 * kj + 1 || j == 3 * kj + 2;
      assert es[3 * kj + 1] == WaitAllDone && es[3 * kj + 2].Transmit?;
    }
    assert ki % 2 == kj % 2 by {
      assert es[i].slot == ki % 2 && es[j] == Fill(kj % 2);
    }
    // so the fill comes at least two pixels after the submission
    assert ki + 2 <= kj;
    assert es[3 * (kj - 1) + 1] == WaitAllDone;
  }

  /**
   * No slot is refilled while it may still be sending: between any
   * submission of a slot and a later fill of the same slot, the channel
   * has been waited on.
   */
  lemma NoFillWhileInFlight(m: seq<nat>, colors: seq<Color>, nPixels: int, multiColor: bool,
                            enc: BytesEncoder, resetTime: nat, i: nat, j: nat)
    requires nPixels != 0 && Covers(colors, Submitted(nPixels), multiColor, m)
    requires var es := Transmission(true, m, colors, nPixels, multiColor, enc, resetTime);
      i < j < |es| && es[i].Transmit? && es[j].Fill? && es[i].slot == es[j].slot
    ensures var es := Transmission(true, m, colors, nPixels, multiColor, enc, resetTime);
      exists w :: i < w < j && es[w] == WaitAllDone
  {
    TransmissionContents(true, m, colors, nPixels, multiColor, enc, resetTime);
    var es := Transmission(true, m, colors, nPixels, multiColor, enc, resetTime);
    assert Framed(es, Submitted(nPixels));
    FramedWaits(es, Submitted(nPixels), i, j);
  }

  /** Every submission goes out through the encoder configuration in force. */
  lemma EverySubmissionUsesEncoder(enabled: bool, m: seq<nat>, colors: seq<Color>, nPixels: int, multiColor: bool,
                                   enc: BytesEncoder, resetTime: nat)
    requires enabled && nPixels != 0 ==> Covers(colors, Submitted(nPixels), multiColor, m)
    ensures var es := Transmission(enabled, m, colors, nPixels, multiColor, enc, resetTime);
      forall j :: 0 <= j < |es| && es[j].Transmit? ==> es[j].enc == enc
  {
    TransmissionContents(enabled, m, colors, nPixels, multiColor, enc, resetTime);
    var es := Transmission(enabled, m, colors, nPixels, multiColor, enc, resetTime);
    forall j | 0 <= j < |es| && es[j].Transmit?
      ensures es[j].enc == enc
    {
      assert j < 3 * Submitted(nPixels);
      var k := j / 3;
      assert j == 3 * k || j == 3 * k + 1 || j == 3 * k + 2;
      assert es[3 * k] == Fill(k % 2) && es[3 * k + 1] == WaitAllDone;
    }
  }

  /** Two different timings make the same `set` send differently. */
  lemma TimingTellsApart(m: seq<nat>, colors: seq<Color>, nPixels: int, multiColor: bool,
                         enc: BytesEncoder, enc': BytesEncoder, resetTime: nat)
    requires nPixels != 0 && Covers(colors, Submitted(nPixels), multiColor, m)
    ensures (Transmission(true, m, colors, nPixels, multiColor, enc, resetTime)
             == Transmission(true, m, colors, nPixels, multiColor, enc', resetTime)) <==> enc == enc'
  {
    TransmissionContents(true, m, colors, nPixels, multiColor, enc, resetTime);
    TransmissionContents(true, m, colors, nPixels, multiColor, enc', resetTime);
  }

  /** With multiColor false every pixel carries the first colour. */
  lemma SingleColorRepeated(m: seq<nat>, colors: seq<Color>, nPixels: int, enc: BytesEncoder, resetTime: nat)
    requires nPixels != 0 && Covers(colors, Submitted(nPixels), false, m)
    ensures var es := Transmission(true, m, colors, nPixels, false, enc, resetTime);
      |es| == 3 * Submitted(nPixels) + 2
      && forall k :: 0 <= k < Submitted(nPixels) ==> es[3 * k + 2] == Transmit(k % 2, Remap(colors[0], m), enc)
  {
    TransmissionContents(true, m, colors, nPixels, false, enc, resetTime);
    var es := Transmission(true, m, colors, nPixels, false, enc, resetTime);
    forall k | 0 <= k < Submitted(nPixels)
      ensures es[3 * k + 2] == Transmit(k % 2, Remap(colors[0], m), enc)
    {
      assert Pos(k, false) == 0;
    }
  }

  /** "GRB" with colour bytes 10, 20, 30 sends 20, 10, 30. */
  lemma GrbScenario(v: bv32, enc: BytesEncoder, resetTime: nat)
    ensures var es := Transmission(true, ParseMap("GRB"), [Color([10, 20, 30], v)], 1, true, enc, resetTime);
      es == [Fill(0), WaitAllDone, Transmit(0, [20, 10, 30], enc), WaitAllDone, Delay(resetTime)]
  {
    GrbLayout();
    var colors := [Color([10, 20, 30], v)];
    TransmissionContents(true, [1, 0, 2], colors, 1, true, enc, resetTime);
    assert Remap(colors[0], [1, 0, 2]) == [20, 10, 30];
  }

  /** "RGBW" with colour bytes 1, 2, 3, 4 sends them unchanged. */
  lemma RgbwScenario(v: bv32, enc: BytesEncoder, resetTime: nat)
    ensures var es := Transmission(true, ParseMap("RGBW"), [Color([1, 2, 3, 4], v)], 1, true, enc, resetTime);
      es == [Fill(0), WaitAllDone, Transmit(0, [1, 2, 3, 4], enc), WaitAllDone, Delay(resetTime)]
  {
    assert ParseMap("RGBW") == [0, 1, 2, 3];
    var colors := [Color([1, 2, 3, 4], v)];
    TransmissionContents(true, [0, 1, 2, 3], colors, 1, true, enc, resetTime);
    assert Remap(colors[0], [0, 1, 2, 3]) == [1, 2, 3, 4];
  }

  /** A negative pixel count still sends exactly one pixel. */
  lemma NegativeCountSendsOne(m: seq<nat>, colors: seq<Color>, nPixels: int, multiColor: bool,
                              enc: BytesEncoder, resetTime: nat)
    requires nPixels < 0 && |colors| > 0 && forall i :: 0 <= i < |m| ==> m[i] < |colors[0].col|
    ensures Transmission(true, m, colors, nPixels, multiColor, enc, resetTime)
         == [Fill(0), WaitAllDone, Transmit(0, Remap(colors[0], m), enc), WaitAllDone, Delay(resetTime)]
  {
    assert Covers(colors, 1, multiColor, m);
    TransmissionContents(true, m, colors, nPixels, multiColor, enc, resetTime);
  }

  /** The bytes in row `r` of the ping/pong staging buffer. */
  function Row(data: array2<byte>, r: nat, len: nat): seq<byte>
    reads data
    requires r < data.Length0 && len <= data.Length1
  {
    seq(len, j requires 0 <= j < len reads data => data[r, j])
  }

  class Pixel {
    /** The GPIO pin the driver was built for. */
    const pin: int
    /** The RMT channel number, or -1 for a disabled driver. */
    var channel: int
    /** Number of pixelType characters parsed: bytes sent per pixel. */
    var bytesPerPixel: nat
    /** The remap table: output byte i is colour byte pixelMap[i]. */
    const pixelMap: array<nat>
    /** Delay after the last pixel, in microseconds. */
    var resetTime: uint32
    /** The bytes encoder, once created. */
    var encoder: Option<BytesEncoder>
    /** The calls made on the RMT channel so far. */
    ghost var log: seq<RmtEvent>

    /** The remap table has its five slots and the parsed count fits in them. */
    predicate Shaped()
      reads this`bytesPerPixel
    {
      pixelMap.Length == MaxBytesPerPixel && bytesPerPixel <= MaxBytesPerPixel
    }

    ghost predicate Valid()
      reads this`bytesPerPixel, this`channel, this`encoder, pixelMap
    {
      && Shaped()
      && (forall i :: 0 <= i < pixelMap.Length ==> pixelMap[i] < 5)
      && (channel >= 0 <==> encoder.Some?)
      && (channel >= 0 ==> 3 <= bytesPerPixel)
    }

    /** The part of the remap table in use. */
    function Map(): seq<nat>
      reads this`bytesPerPixel, pixelMap
      requires bytesPerPixel <= pixelMap.Length
    {
      pixelMap[..bytesPerPixel]
    }

    /**
     * `Pixel(pin, pixelType)`. `pinIsOutput` is what the platform says of the
     * pin; `newChannel` is the outcome of asking for an RMT channel (the
     * channel number, or None when none is free).
     */
    constructor (pin: int, pixelType: string, pinIsOutput: bool, newChannel: Option<nat>)
      ensures Valid() && fresh(pixelMap)
      ensures this.pin == pin && log == []
      ensures pinIsOutput && newChannel.Some? ==>
        bytesPerPixel == Min(|pixelType|, MaxBytesPerPixel) && Map() == ParseMap(pixelType)
      ensures !(pinIsOutput && newChannel.Some?) ==> bytesPerPixel == 0
      ensures channel == if pinIsOutput && newChannel.Some? && Accepted(pixelType) then newChannel.value else -1
      ensures channel >= 0 ==> encoder == Some(Encoder(0.32, 0.88, 0.64, 0.56)) && resetTime == 80
    {
      this.pin := pin;
      pixelMap := new nat[MaxBytesPerPixel](_ => 0);
      channel := -1;
      bytesPerPixel := 0;
      resetTime := 0;
      encoder := None;
      log := [];
      new;
      if !pinIsOutput || newChannel.None? {
        return;
      }
      var invalidMap := ParsePixelType(pixelType);
      RejectionTest(pixelType, invalidMap);
      if bytesPerPixel < 3 || |pixelType| > MaxBytesPerPixel || invalidMap {
        return;
      }
      channel := newChannel.value;
      encoder := Some(BlankEncoder);
      var _ := SetTiming(0.32, 0.88, 0.64, 0.56, 80);
    }

    /**
     * The constructor's parse loop: fills the remap table from the first five
     * characters of `pixelType`, counts them in `bytesPerPixel`, and reports
     * whether one of them is unknown.
     */
    method ParsePixelType(pixelType: string) returns (invalidMap: bool)
      requires pixelMap.Length == MaxBytesPerPixel && forall j :: 0 <= j < pixelMap.Length ==> pixelMap[j] < 5
      modifies this`bytesPerPixel, pixelMap
      ensures bytesPerPixel == Min(|pixelType|, MaxBytesPerPixel)
      ensures pixelMap[..bytesPerPixel] == ParseMap(pixelType)
      ensures forall j :: 0 <= j < pixelMap.Length ==> pixelMap[j] < 5
      ensures invalidMap <==> exists j :: 0 <= j < bytesPerPixel && !InAlphabet(pixelType[j])
    {
      bytesPerPixel := 0;
      var len := |pixelType|;
      invalidMap := false;
      var i := 0;
      while i < len && i < MaxBytesPerPixel
        invariant 0 <= i <= Min(len, MaxBytesPerPixel)
        invariant bytesPerPixel == i
        invariant pixelMap[..i] == ParseMap(pixelType)[..i]
        invariant forall j :: 0 <= j < pixelMap.Length ==> pixelMap[j] < 5
        invariant invalidMap == UnknownBefore(pixelType, i)
      {
        var index := IndexOf(Alphabet, ToUpper(pixelType[i]));
        if index == |Alphabet| {
          invalidMap := true;
        }
        SearchMeaning(pixelType[i]);
        pixelMap[bytesPerPixel] := index % 5;
        assert pixelMap[..i + 1] == pixelMap[..i] + [ParseMap(pixelType)[i]];
        assert ParseMap(pixelType)[..i + 1] == ParseMap(pixelType)[..i] + [ParseMap(pixelType)[i]];
        bytesPerPixel := bytesPerPixel + 1;
        i := i + 1;
      }
      assert ParseMap(pixelType)[..i] == ParseMap(pixelType);
      UnknownAmong(pixelType, i);
    }

    /**
     * `setTiming`: on an enabled driver, installs the encoder for the four
     * durations (each high then low, most significant bit first) and the
     * reset delay; on a disabled driver, changes nothing.
     */
    method SetTiming(high0: real, low0: real, high1: real, low1: real, lowReset: uint32) returns (self: Pixel)
      requires Valid()
      requires high0 >= 0.0 && low0 >= 0.0 && high1 >= 0.0 && low1 >= 0.0
      modifies this`encoder, this`resetTime
      ensures Valid() && self == this
      ensures old(channel) < 0 ==> encoder == old(encoder) && resetTime == old(resetTime)
      ensures old(channel) >= 0 ==> encoder == Some(Encoder(high0, low0, high1, low1)) && resetTime == lowReset
    {
      if channel < 0 {
        return this;
      }
      var bit0 := Symbol(1, Ticks(high0), 0, Ticks(low0));
      var bit1 := Symbol(1, Ticks(high1), 0, Ticks(low1));
      encoder := Some(BytesEncoder(bit0, bit1, true));
      resetTime := lowReset;
      return this;
    }

    /** Copies one colour's bytes, in map order, into row `slot` of the staging buffer. */
    method Stage(data: array2<byte>, slot: nat, c: Color)
      requires Shaped() && slot < data.Length0 && data.Length1 == MaxBytesPerPixel
      requires forall i :: 0 <= i < bytesPerPixel ==> pixelMap[i] < |c.col|
      modifies data
      ensures Row(data, slot, bytesPerPixel) == Remap(c, Map())
      ensures forall r, j :: 0 <= r < data.Length0 && 0 <= j < data.Length1 && r != slot ==> data[r, j] == old(data[r, j])
    {
      var i := 0;
      while i < bytesPerPixel
        invariant 0 <= i <= bytesPerPixel
        invariant forall j :: 0 <= j < i ==> data[slot, j] == c.col[pixelMap[j]]
        invariant forall r, j :: 0 <= r < data.Length0 && 0 <= j < data.Length1 && r != slot ==> data[r, j] == old(data[r, j])
      {
        data[slot, i] := c.col[pixelMap[i]];
        i := i + 1;
      }
    }

    /**
     * One pass of the do/while body: remap into a slot, wait for the channel,
     * submit the slot. The other slot, which may still be sending, is left
     * as it was.
     */
    method Send(data: array2<byte>, slot: nat, c: Color)
      requires Shaped() && slot < data.Length0 && data.Length1 == MaxBytesPerPixel && encoder.Some?
      requires forall i :: 0 <= i < |Map()| ==> Map()[i] < |c.col|
      modifies data, this`log
      ensures log == old(log) + [Fill(slot), WaitAllDone, Transmit(slot, Remap(c, Map()), encoder.value)]
      ensures forall r :: 0 <= r < data.Length0 && r != slot ==> Row(data, r, data.Length1) == old(Row(data, r, data.Length1))
    {
      assert forall i :: 0 <= i < bytesPerPixel ==> Map()[i] == pixelMap[i];
      ghost var rows := seq(data.Length0, r requires 0 <= r < data.Length0 reads data => Row(data, r, data.Length1));
      Stage(data, slot, c);
      forall r | 0 <= r < data.Length0 && r != slot
        ensures Row(data, r, data.Length1) == rows[r]
      {
      }
      ghost var log0 := log;
      ghost var sent := Transmit(slot, Row(data, slot, bytesPerPixel), encoder.value);
      log := log + [Fill(slot)];
      log := log + [WaitAllDone];
      log := log + [sent];
      Associative(log0, [Fill(slot)], [WaitAllDone]);
      Associative(log0, [Fill(slot), WaitAllDone], [sent]);
    }

    /**
     * `Pixel::set`: sends `nPixels` colours (one when the count is negative,
     * none when it is zero or the driver is disabled), the first from
     * `colors[0]` and each next one from the next colour when `multiColor`.
     */
    method Set(colors: seq<Color>, nPixels: int, multiColor: bool)
      requires Valid()
      requires channel >= 0 && nPixels != 0 ==> Covers(colors, Submitted(nPixels), multiColor, Map())
      modifies this`log
      ensures channel < 0 ==> log == old(log)
      ensures channel >= 0 ==> log == old(log) + Transmission(true, Map(), colors, nPixels, multiColor, encoder.value, resetTime)
    {
      if channel < 0 || nPixels == 0 {
        assert channel >= 0 ==> Transmission(true, Map(), colors, nPixels, multiColor, encoder.value, resetTime) == [];
        return;
      }
      var data := new byte[2, MaxBytesPerPixel];
      var index := 0;
      var c := 0;
      var n := nPixels;
      ghost var count := Submitted(nPixels);
      ghost var m := Map();
      ghost var enc := encoder.value;
      ghost var k := 0;
      ghost var log0 := log;
      var more := true;
      // do { ... } while (--nPixels > 0)
      while more
        invariant 0 <= k <= count && (more <==> k < count)
        invariant more ==> n == nPixels - k
        invariant index == k % 2 && c == Pos(k, multiColor)
        invariant encoder == Some(enc)
        invariant log == log0 + Submissions(Buffers(colors, m, k, multiColor), enc)
        modifies data, this`log
        decreases count - k
      {
        ghost var before := log;
        Send(data, index, colors[c]);
        LogStep(colors, m, k, multiColor, enc, log0, before, log);
        SlotAlternates(k);
        index := 1 - index;
        c := c + if multiColor then 1 else 0;
        k := k + 1;
        n := n - 1;
        more := n > 0;
      }
      ghost var sent := Submissions(Buffers(colors, m, count, multiColor), enc);
      log := log + [WaitAllDone];
      log := log + [Delay(resetTime)];
      Associative(log0 + sent, [WaitAllDone], [Delay(resetTime)]);
      Associative(log0, sent, [WaitAllDone, Delay(resetTime)]);
      TransmissionOfEnabled(Map(), colors, nPixels, multiColor, encoder.value, resetTime);
    }
  }

  /** `setTiming` followed by `set`: every pixel goes out with the tick counts just installed. */
  method RetimeThenSet(p: Pixel, high0: real, low0: real, high1: real, low1: real, lowReset: uint32,
                       colors: seq<Color>, nPixels: int, multiColor: bool)
    requires p.Valid()
    requires high0 >= 0.0 && low0 >= 0.0 && high1 >= 0.0 && low1 >= 0.0
    requires p.channel >= 0 && nPixels != 0 ==> Covers(colors, Submitted(nPixels), multiColor, p.Map())
    modifies p`encoder, p`resetTime, p`log
    ensures p.channel < 0 ==> p.log == old(p.log)
    ensures p.channel >= 0 ==>
      p.log == old(p.log) + Transmission(true, p.Map(), colors, nPixels, multiColor,
                                         Encoder(high0, low0, high1, low1), lowReset)
  {
    var _ := p.SetTiming(high0, low0, high1, low1, lowReset);
    p.Set(colors, nPixels, multiColor);
  }

  /** Retiming twice with the same arguments leaves the same state as retiming once. */
  method RetimeTwice(p: Pixel, high0: real, low0: real, high1: real, low1: real, lowReset: uint32)
    requires p.Valid()
    requires high0 >= 0.0 && low0 >= 0.0 && high1 >= 0.0 && low1 >= 0.0
    modifies p`encoder, p`resetTime
    ensures p.Valid()
    ensures p.encoder == (if p.channel >= 0 then Some(Encoder(high0, low0, high1, low1)) else old(p.encoder))
    ensures p.resetTime == (if p.channel >= 0 then lowReset else old(p.resetTime))
  {
    var _ := p.SetTiming(high0, low0, high1, low1, lowReset);
    var once, onceReset := p.encoder, p.resetTime;
    var _ := p.SetTiming(high0, low0, high1, low1, lowReset);
    assert p.encoder == once && p.resetTime == onceReset;
  }
}
