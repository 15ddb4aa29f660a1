/** Twelve-byte frames over pipes: little-endian codec, the transfer loop with its
    short transfers, interrupts and empty polls, and the order of frames. */
module Framing {
  type Byte = b: int | 0 <= b < 256

  const DEADLINE_REACHED := -2
  const FAILED := -1

  // ------------------------------------------------------------------- codec

  function Power(n: nat): (p: nat)
    ensures p > 0
  {
    if n == 0 then 1 else 256 * Power(n - 1)
  }

  function LittleEndian(v: nat, n: nat): (s: seq<Byte>)
    ensures |s| == n
  {
    if n == 0 then [] else [v % 256] + LittleEndian(v / 256, n - 1)
  }

  function Number(s: seq<Byte>): nat {
    if s == [] then 0 else s[0] + 256 * Number(s[1..])
  }

  /** Loading undoes storing for every value that fits. */
  lemma {:induction false} NumberOfLittleEndian(v: nat, n: nat)
    requires v < Power(n)
    ensures Number(LittleEndian(v, n)) == v
  {
    if n > 0 {
      NumberOfLittleEndian(v / 256, n - 1);
      assert LittleEndian(v, n)[1..] == LittleEndian(v / 256, n - 1);
    }
  }

  /** Storing undoes loading for every sequence of bytes. */
  lemma {:induction false} LittleEndianOfNumber(s: seq<Byte>)
    ensures Number(s) < Power(|s|) && LittleEndian(Number(s), |s|) == s
  {
    if s != [] {
      LittleEndianOfNumber(s[1..]);
      assert Number(s) % 256 == s[0] && Number(s) / 256 == Number(s[1..]);
    }
  }

  /** Byte i of a stored value is the value shifted right by 8i, truncated. */
  lemma {:induction false} StoredByte(v: nat, n: nat, i: nat)
    requires i < n
    ensures LittleEndian(v, n)[i] == v / Power(i) % 256
  {
    if i > 0 {
      StoredByte(v / 256, n - 1, i - 1);
      DivideTwice(v, Power(i - 1));
    }
  }

  lemma DivideTwice(v: nat, p: nat)
    requires p > 0
    ensures v / 256 / p == v / (256 * p)
  {
    var q, r := v / 256 / p, v / 256 % p;
    assert v == 256 * (p * q + r) + v % 256;
    assert v == (256 * p) * q + (256 * r + v % 256);
    assert 0 <= 256 * r + v % 256 < 256 * p;
    Quotient(v, 256 * p, q, 256 * r + v % 256);
  }

  lemma Quotient(v: nat, d: nat, q: nat, r: nat)
    requires 0 <= r < d && v == d * q + r
    ensures v / d == q
  {
    assert (v / d - q) * d == r - v % d;
    Multiple(v / d - q, d);
  }

  lemma Multiple(x: int, d: nat)
    requires d > 0
    ensures x >= 1 ==> x * d >= d
    ensures x <= -1 ==> x * d + d <= 0
  {
  }

  method StoreU32(p: array<Byte>, at: nat, v: nat)
    requires at + 4 <= p.Length
    modifies p
    ensures p[at..at + 4] == LittleEndian(v, 4)
    ensures forall i :: 0 <= i < p.Length && !(at <= i < at + 4) ==> p[i] == old(p[i])
  {
    p[at] := v % 256;
    p[at + 1] := v / 256 % 256;
    p[at + 2] := v / 256 / 256 % 256;
    p[at + 3] := v / 256 / 256 / 256 % 256;
    FourBytes(v);
  }

  lemma FourBytes(v: nat)
    ensures LittleEndian(v, 4) == [v % 256, v / 256 % 256, v / 256 / 256 % 256, v / 256 / 256 / 256 % 256]
  {
    var w := v / 256;
    assert LittleEndian(w / 256, 2) == [w / 256 % 256] + LittleEndian(w / 256 / 256, 1);
    assert LittleEndian(w / 256 / 256, 1) == [w / 256 / 256 % 256];
  }

  method StoreU64(p: array<Byte>, at: nat, v: nat)
    requires at + 8 <= p.Length
    modifies p
    ensures p[at..at + 8] == LittleEndian(v, 8)
    ensures forall i :: 0 <= i < p.Length && !(at <= i < at + 8) ==> p[i] == old(p[i])
  {
    for i := 0 to 8
      invariant forall j :: 0 <= j < i ==> p[at + j] == LittleEndian(v, 8)[j]
      invariant forall j :: 0 <= j < p.Length && !(at <= j < at + 8) ==> p[j] == old(p[j])
    {
      StoredByte(v, 8, i);
      p[at + i] := v / Power(i) % 256;
    }
  }

  /** The bytes are disjoint, so or-ing the shifted bytes adds them. */
  method LoadU64(p: array<Byte>, at: nat) returns (v: nat)
    requires at + 8 <= p.Length
    ensures v == Number(p[at..at + 8])
  {
    v := 0;
    for i := 0 to 8
      invariant v == Number(p[at..at + i])
    {
      NumberAppend(p[at..at + i], p[at + i]);
      assert p[at..at + i] + [p[at + i]] == p[at..at + i + 1];
      v := v + p[at + i] * Power(i);
    }
  }

  method LoadU32(p: array<Byte>, at: nat) returns (v: nat)
    requires at + 4 <= p.Length
    ensures v == Number(p[at..at + 4])
  {
    var b0: int, b1: int, b2: int, b3: int := p[at], p[at + 1], p[at + 2], p[at + 3];
    v := b0 + b1 * 0x100 + b2 * 0x1_0000 + b3 * 0x100_0000;
    FourNumber(p[at..at + 4]);
  }

  lemma FourNumber(s: seq<Byte>)
    requires |s| == 4
    ensures Number(s) == s[0] as int + s[1] as int * 0x100 + s[2] as int * 0x1_0000 + s[3] as int * 0x100_0000
  {
    var t, u, w := s[1..], s[2..], s[3..];
    assert t[1..] == u && u[1..] == w && w[1..] == [];
    assert Number(w) == s[3] as int;
    assert Number(u) == s[2] as int + 256 * Number(w);
    assert Number(t) == s[1] as int + 256 * Number(u);
  }

  lemma {:induction false} NumberAppend(s: seq<Byte>, b: Byte)
    ensures Number(s + [b]) == Number(s) + b * Power(|s|)
  {
    if s == [] {
      assert s + [b] == [b];
    } else {
      assert (s + [b])[1..] == s[1..] + [b];
      NumberAppend(s[1..], b);
    }
  }

  // ------------------------------------------------------------------ frames

  datatype Frame = Frame(op: nat, value: nat)

  predicate Fits(f: Frame) {
    f.op < Power(4) && f.value < Power(8)
  }

  function Encode(f: Frame): (s: seq<Byte>)
    ensures |s| == 12
  {
    LittleEndian(f.op, 4) + LittleEndian(f.value, 8)
  }

  function Decode(s: seq<Byte>): Frame
    requires |s| == 12
  {
    Frame(Number(s[..4]), Number(s[4..]))
  }

  lemma FrameRoundTrip(f: Frame)
    requires Fits(f)
    ensures Decode(Encode(f)) == f
  {
    NumberOfLittleEndian(f.op, 4);
    NumberOfLittleEndian(f.value, 8);
    assert Encode(f)[..4] == LittleEndian(f.op, 4) && Encode(f)[4..] == LittleEndian(f.value, 8);
  }

  lemma BytesRoundTrip(s: seq<Byte>)
    requires |s| == 12
    ensures Fits(Decode(s)) && Encode(Decode(s)) == s
  {
    LittleEndianOfNumber(s[..4]);
    LittleEndianOfNumber(s[4..]);
    assert s == s[..4] + s[4..];
  }

  function EncodeAll(frames: seq<Frame>): seq<Byte> {
    if frames == [] then [] else Encode(frames[0]) + EncodeAll(frames[1..])
  }

  lemma {:induction false} EncodedAt(frames: seq<Frame>, rest: seq<Byte>, k: nat)
    requires k < |frames|
    ensures |EncodeAll(frames)| == 12 * |frames|
    ensures (EncodeAll(frames) + rest)[12 * k..12 * k + 12] == Encode(frames[k])
  {
    var tail := EncodeAll(frames[1..]) + rest;
    var all := EncodeAll(frames) + rest;
    assert all == Encode(frames[0]) + tail;
    if |frames| == 1 {
      assert EncodeAll(frames[1..]) == [];
    } else {
      EncodedAt(frames[1..], rest, if k > 0 then k - 1 else 0);
    }
    if k > 0 {
      assert all[12 * k..12 * k + 12] == tail[12 * (k - 1)..12 * (k - 1) + 12];
    }
  }

  // ------------------------------------------------------------ the transfer loop

  datatype Polled = PollFailed | PollInterrupted | Nothing | Ready

  datatype Moved = IoFailed | IoInterrupted | Count(k: nat)

  /** One end of the pipes. `incoming` is every byte the peer will ever write; it
      arrives in any portions. A poll that finds nothing lets time pass, and the
      number of interrupts is finite but unknown. */
  class Endpoint {
    const incoming: seq<Byte>
    var taken: nat
    var sent: seq<Byte>
    var now: int
    var interrupts: nat

    ghost predicate Valid()
      reads this
    {
      taken <= |incoming|
    }

    constructor (incoming: seq<Byte>, interrupts: nat)
      ensures Valid() && this.incoming == incoming && taken == 0 && sent == []
    {
      this.incoming, this.interrupts := incoming, interrupts;
      taken, sent, now := 0, [], *;
    }

    method NowMs() returns (t: int)
      modifies this`now
      ensures t == now >= old(now)
    {
      var passed: int := *;
      if passed > 0 { now := now + passed; }
      t := now;
    }

    method Poll(left: int) returns (r: Polled)
      modifies this`now, this`interrupts
      ensures now >= old(now) && interrupts <= old(interrupts)
      ensures r.PollInterrupted? ==> interrupts < old(interrupts)
      ensures r.Nothing? ==> now > old(now)
    {
      r := *;
      if r.PollInterrupted? && interrupts == 0 { r := PollFailed; }
      if r.PollInterrupted? { interrupts := interrupts - 1; }
      if r.Nothing? { now := now + 1; }
    }

    method Interrupt() returns (m: Moved)
      modifies this`interrupts
      ensures interrupts <= old(interrupts) && !m.Count? && (m.IoInterrupted? ==> interrupts < old(interrupts))
    {
      var failed: bool := *;
      if failed || interrupts == 0 { return IoFailed; }
      interrupts := interrupts - 1;
      return IoInterrupted;
    }

    /** Writes some first part of `data`, or fails, or is interrupted. */
    method Write(data: seq<Byte>) returns (m: Moved)
      modifies this`sent, this`interrupts
      ensures interrupts <= old(interrupts) && (m.IoInterrupted? ==> interrupts < old(interrupts))
      ensures m.Count? ==> m.k <= |data| && sent == old(sent) + data[..m.k]
      ensures !m.Count? ==> sent == old(sent)
    {
      m := *;
      if !m.Count? {
        m := Interrupt();
        return;
      }
      if m.k > |data| || m.k < 0 { m := Count(|data|); }
      sent := sent + data[..m.k];
    }

    /** Takes some of the bytes that have arrived; none at the end of the stream. */
    method Read(room: nat) returns (m: Moved, data: seq<Byte>)
      requires Valid()
      modifies this`taken, this`interrupts
      ensures Valid()
      ensures interrupts <= old(interrupts) && (m.IoInterrupted? ==> interrupts < old(interrupts))
      ensures m.Count? ==> m.k == |data| <= room && taken == old(taken) + m.k && data == incoming[old(taken)..taken]
      ensures !m.Count? ==> taken == old(taken)
    {
      m, data := *, [];
      if !m.Count? {
        m := Interrupt();
        return;
      }
      if m.k > room || m.k < 0 || taken + m.k > |incoming| { m := Count(0); }
      data := incoming[taken..taken + m.k];
      taken := taken + m.k;
    }

    /** Moves exactly the whole buffer, or reports why not. `done` bytes were moved, in
        order; 0 is returned exactly when that was all of them. */
    method TransferAll(buf: array<Byte>, deadline: int, writing: bool) returns (rc: int, ghost done: nat)
      requires Valid()
      modifies this`taken, this`sent, this`now, this`interrupts, buf
      ensures Valid() && done <= buf.Length && (rc == 0 <==> done == buf.Length)
      ensures rc == 0 || rc == FAILED || rc == DEADLINE_REACHED
      ensures writing ==> buf[..] == old(buf[..]) && taken == old(taken) && sent == old(sent) + buf[..done]
      ensures !writing ==> sent == old(sent) && taken == old(taken) + done && buf[..done] == incoming[old(taken)..taken]
    {
      var moved := 0;
      while moved < buf.Length
        invariant Valid() && 0 <= moved <= buf.Length
        invariant writing ==> buf[..] == old(buf[..]) && taken == old(taken) && sent == old(sent) + buf[..moved]
        invariant !writing ==> sent == old(sent) && taken == old(taken) + moved && buf[..moved] == incoming[old(taken)..taken]
        decreases buf.Length - moved, interrupts, deadline - now
      {
        var t := NowMs();
        var left := deadline - t;
        if left <= 0 {
          return DEADLINE_REACHED, moved;
        }
        var polled := Poll(if left > 250 then 250 else left);
        if polled.PollFailed? {
          return FAILED, moved;
        }
        if polled.PollInterrupted? || polled.Nothing? {
          continue;
        }
        ghost var here := taken;
        var m := Portion(buf, moved, writing);
        if m.IoInterrupted? {
          continue;
        }
        if m.IoFailed? || m.k == 0 {
          return FAILED, moved;
        }
        assert buf[..moved + m.k] == buf[..moved] + buf[moved..moved + m.k];
        if writing {
          Rejoined(old(sent), buf[..moved], buf[moved..moved + m.k]);
        } else {
          assert incoming[old(taken)..here] + incoming[here..taken] == incoming[old(taken)..taken];
        }
        moved := moved + m.k;
      }
      return 0, moved;
    }

    static lemma Rejoined(a: seq<Byte>, b: seq<Byte>, c: seq<Byte>)
      ensures a + b + c == a + (b + c)
    {
    }

    /** One write from, or one read into, the buffer at `moved`. */
    method Portion(buf: array<Byte>, moved: nat, writing: bool) returns (m: Moved)
      requires Valid() && moved <= buf.Length
      modifies this`taken, this`sent, this`interrupts, buf
      ensures Valid() && interrupts <= old(interrupts) && (m.IoInterrupted? ==> interrupts < old(interrupts))
      ensures m.Count? ==> moved + m.k <= buf.Length
      ensures writing ==> buf[..] == old(buf[..]) && taken == old(taken)
      ensures writing ==> sent == old(sent) + buf[moved..if m.Count? then moved + m.k else moved]
      ensures !writing ==> sent == old(sent) && buf[..moved] == old(buf[..moved])
      ensures !writing ==> taken == old(taken) + if m.Count? then m.k else 0
      ensures !writing && m.Count? ==> buf[moved..moved + m.k] == incoming[old(taken)..taken]
    {
      if writing {
        m := Write(buf[moved..]);
        if m.Count? {
          assert buf[moved..][..m.k] == buf[moved..moved + m.k];
        }
      } else {
        var data;
        m, data := Read(buf.Length - moved);
        if m.Count? {
          forall i | 0 <= i < |data| {
            buf[moved + i] := data[i];
          }
          assert buf[moved..moved + m.k] == data;
        }
      }
    }

    method Filled(f: Frame) returns (buf: array<Byte>)
      ensures fresh(buf) && buf.Length == 12 && buf[..] == Encode(f)
    {
      buf := new Byte[12];
      StoreU32(buf, 0, f.op);
      StoreU64(buf, 4, f.value);
      assert buf[..] == buf[0..4] + buf[4..12];
    }

    /** After a failure, less than a frame may have been written. */
    method WriteFrame(f: Frame, deadline: int) returns (rc: int)
      requires Valid()
      modifies this`taken, this`sent, this`now, this`interrupts
      ensures Valid() && taken == old(taken)
      ensures rc == 0 ==> sent == old(sent) + Encode(f)
      ensures rc != 0 ==> exists part: nat :: part < 12 && sent == old(sent) + Encode(f)[..part]
    {
      var buf := Filled(f);
      ghost var done;
      rc, done := TransferAll(buf, deadline, true);
      assert buf[..done] == Encode(f)[..done];
    }

    method ReadFrame(deadline: int) returns (rc: int, f: Frame)
      requires Valid()
      modifies this`taken, this`sent, this`now, this`interrupts
      ensures Valid() && sent == old(sent)
      ensures rc == 0 ==> taken == old(taken) + 12 && f == Decode(incoming[old(taken)..taken])
      ensures rc != 0 ==> old(taken) <= taken < old(taken) + 12
    {
      var buf := new Byte[12];
      ghost var done;
      rc, done := TransferAll(buf, deadline, false);
      if rc != 0 {
        return rc, Frame(0, 0);
      }
      var op := LoadU32(buf, 0);
      var value := LoadU64(buf, 4);
      f := Frame(op, value);
      assert buf[..12] == incoming[old(taken)..taken];
      assert buf[0..4] == buf[..12][..4] && buf[4..12] == buf[..12][4..];
    }
  }

  // ------------------------------------------------------------- order of frames

  /** A writer whose writes all succeed puts exactly the frames on the pipe. */
  method WriteFrames(out: Endpoint, frames: seq<Frame>, deadline: int) returns (all: bool)
    requires out.Valid() && out.sent == []
    modifies out
    ensures all ==> out.sent == EncodeAll(frames)
  {
    assert frames[..0] == [];
    for i := 0 to |frames|
      invariant out.Valid() && out.sent == EncodeAll(frames[..i])
    {
      var rc := out.WriteFrame(frames[i], deadline);
      if rc != 0 {
        return false;
      }
      EncodeAllAppend(frames[..i], frames[i]);
      assert frames[..i] + [frames[i]] == frames[..i + 1];
    }
    assert frames[..|frames|] == frames;
    return true;
  }

  lemma {:induction false} EncodeAllAppend(frames: seq<Frame>, f: Frame)
    ensures EncodeAll(frames + [f]) == EncodeAll(frames) + Encode(f)
  {
    if frames == [] {
      assert frames + [f] == [f] && EncodeAll([f][1..]) == [];
    } else {
      assert (frames + [f])[1..] == frames[1..] + [f];
      EncodeAllAppend(frames[1..], f);
    }
  }

  /** A reader that stops at its first failure, as both programs do, gets the frames
      in the order in which they were written, whatever part of another frame a
      failed last write left behind. */
  method ReadFrames(into: Endpoint, deadline: int, limit: nat, ghost frames: seq<Frame>, ghost part: seq<Byte>)
    returns (got: seq<Frame>)
    requires into.Valid() && into.taken == 0
    requires into.incoming == EncodeAll(frames) + part && |part| < 12
    requires forall i :: 0 <= i < |frames| ==> Fits(frames[i])
    modifies into
    ensures |got| <= |frames| && got == frames[..|got|]
  {
    got := [];
    for i := 0 to limit
      invariant into.Valid() && |got| == i && into.taken == 12 * i
      invariant i <= |frames| && got == frames[..i]
    {
      var rc, f := into.ReadFrame(deadline);
      if rc != 0 {
        return;
      }
      NextFrame(frames, part, i);
      got := got + [f];
      assert frames[..i] + [frames[i]] == frames[..i + 1];
    }
  }

  lemma {:induction false} EncodedLength(frames: seq<Frame>)
    ensures |EncodeAll(frames)| == 12 * |frames|
  {
    if frames != [] { EncodedLength(frames[1..]); }
  }

  /** Twelve more bytes at a frame boundary are the next frame written. */
  lemma NextFrame(frames: seq<Frame>, part: seq<Byte>, k: nat)
    requires |part| < 12 && 12 * k + 12 <= |EncodeAll(frames) + part|
    requires forall i :: 0 <= i < |frames| ==> Fits(frames[i])
    ensures k < |frames|
    ensures Decode((EncodeAll(frames) + part)[12 * k..12 * k + 12]) == frames[k]
  {
    EncodedLength(frames);
    EncodedAt(frames, part, k);
    FrameRoundTrip(frames[k]);
  }

  /** Twelve bytes of the pipe, `r` bytes past the start of one of two frames in a row. */
  function Window(f: Frame, g: Frame, r: nat): (s: seq<Byte>)
    requires r <= 12
    ensures |s| == 12
  {
    (Encode(f) + Encode(g))[r..r + 12]
  }

  /** Whatever two frames were written, a read here returns one of them. */
  ghost predicate ReadsAFrame(r: nat)
    requires r <= 12
  {
    forall f, g :: Fits(f) && Fits(g) ==> Decode(Window(f, g, r)) == f || Decode(Window(f, g, r)) == g
  }

  /** A failed read may have taken part of a frame, and nothing tells its caller how much.
      Reading on is right for all frames only if it took nothing or everything. */
  lemma ReadingOnIsRightAtBoundaries(r: nat)
    requires r <= 12
    ensures ReadsAFrame(r) <==> r == 0 || r == 12
  {
    if r == 0 || r == 12 {
      forall f, g | Fits(f) && Fits(g) ensures Decode(Window(f, g, r)) == f || Decode(Window(f, g, r)) == g {
        assert Window(f, g, r) == if r == 0 then Encode(f) else Encode(g);
        FrameRoundTrip(f);
        FrameRoundTrip(g);
      }
    } else {
      var counting := seq(12, i requires 0 <= i < 12 => i as Byte);
      var ones := seq(12, i requires 0 <= i < 12 => 255 as Byte);
      Misaligned(counting, ones, r);
    }
  }

  /** Between boundaries a frame is read that nobody wrote, for instance if the bytes of
      the first frame count up and those of the second are all ones. */
  lemma Misaligned(a: seq<Byte>, b: seq<Byte>, r: nat)
    requires |a| == |b| == 12 && 0 < r < 12 && a[r] != a[0] && a[r] != b[0]
    ensures !ReadsAFrame(r)
  {
    var f, g := Decode(a), Decode(b);
    BytesRoundTrip(a);
    BytesRoundTrip(b);
    var window := Window(f, g, r);
    BytesRoundTrip(window);
    assert window[0] == a[r];
    assert Fits(f) && Fits(g) && Decode(window) != f && Decode(window) != g;
  }
}
