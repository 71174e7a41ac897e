/** The 128-entry anti-replay window of src/crypto.rs (`DataReplayWindow`), the same shape as the window in
    section 3.4.3 of RFC 4303, and the 48-bit wire counter. */
module ReplayWindow {
  import opened Wrappers

  const WINDOW_BITS: nat := 128

  // ---------- the u128 operations that the window uses ----------

  /** `bits & (1 << d) != 0` */
  predicate Bit(bits: nat, d: nat) {
    if d == 0 then bits % 2 == 1 else Bit(bits / 2, d - 1)
  }

  /** `bits | (1 << d)` */
  function SetBit(bits: nat, d: nat): nat {
    if d == 0 then (if bits % 2 == 1 then bits else bits + 1) else 2 * SetBit(bits / 2, d - 1) + bits % 2
  }

  /** `bits << shift` on a word of `width` bits */
  function ShiftLeft(bits: nat, shift: nat, width: nat): nat {
    if shift == 0 then bits else (2 * ShiftLeft(bits, shift - 1, width)) % Pow2(width)
  }

  lemma {:induction false} BitOfSetBit(bits: nat, d: nat, e: nat)
    ensures Bit(SetBit(bits, d), e) <==> e == d || Bit(bits, e)
  {
    if d == 0 {
      assert SetBit(bits, d) / 2 == bits / 2;
    } else if e > 0 {
      BitOfSetBit(bits / 2, d - 1, e - 1);
    }
  }

  /** Dropping the top power of two leaves the lower bits alone. */
  lemma {:induction false} BitBelow(x: nat, n: nat, e: nat)
    requires x >= Pow2(n) && e < n
    ensures Bit(x - Pow2(n), e) <==> Bit(x, e)
  {
    assert Pow2(n) == 2 * Pow2(n - 1);
    assert (x - Pow2(n)) / 2 == x / 2 - Pow2(n - 1);
    if e > 0 {
      BitBelow(x / 2, n - 1, e - 1);
    }
  }

  lemma {:induction false} BitOfShift(bits: nat, shift: nat, width: nat, d: nat)
    requires bits < Pow2(width) && d < width
    ensures ShiftLeft(bits, shift, width) < Pow2(width)
    ensures Bit(ShiftLeft(bits, shift, width), d) <==> d >= shift && Bit(bits, d - shift)
    decreases shift
  {
    if shift > 0 {
      var x, half := ShiftLeft(bits, shift - 1, width), Pow2(width - 1);
      BitOfShift(bits, shift - 1, width, if d == 0 then 0 else d - 1);
      assert Pow2(width) == 2 * half;
      ModOnce(2 * x, 2 * half);
      if d > 0 && x >= half {
        BitBelow(x, width - 1, d - 1);
      }
    }
  }

  lemma ModOnce(y: nat, m: nat)
    requires 0 < m && y < 2 * m
    ensures y % m == if y < m then y else y - m
  {
    var q := y / m;
    assert y == m * q + y % m;
    if q == 1 {
      assert m * q == m;
    }
  }

  lemma {:induction false} SetBitBounded(bits: nat, d: nat, n: nat)
    requires bits < Pow2(n) && d < n
    ensures SetBit(bits, d) < Pow2(n)
  {
    assert Pow2(n) == 2 * Pow2(n - 1);
    if d > 0 {
      SetBitBounded(bits / 2, d - 1, n - 1);
    }
  }

  // ---------- the window ----------

  datatype Window = Window(top: Option<nat>, bits: nat)

  const EMPTY := Window(None, 0)

  predicate Allows(w: Window, counter: nat) {
    match w.top
    case None => true
    case Some(top) => counter > top || (top - counter < WINDOW_BITS && !Bit(w.bits, top - counter))
  }

  function Commit(w: Window, counter: nat): Window {
    match w.top
    case None => Window(Some(counter), 1)
    case Some(top) =>
      if counter > top then
        var shift := Min(counter - top, WINDOW_BITS);
        Window(Some(counter), SetBit(if shift >= WINDOW_BITS then 0 else ShiftLeft(w.bits, shift, WINDOW_BITS), 0))
      else if top - counter < WINDOW_BITS then
        w.(bits := SetBit(w.bits, top - counter))
      else
        w
  }

  function CommitAll(cs: seq<nat>): Window {
    if cs == [] then EMPTY else Commit(CommitAll(cs[..|cs| - 1]), cs[|cs| - 1])
  }

  /** `w` remembers exactly the committed counters `cs`: its top is their maximum, and the bit `d` places below
      the top says whether that counter was committed. */
  ghost predicate Remembers(w: Window, cs: seq<nat>) {
    && w.bits < Pow2(WINDOW_BITS)
    && (w.top.None? <==> cs == [])
    && (w.top.Some? ==>
          && w.top.value in cs
          && (forall c :: c in cs ==> c <= w.top.value)
          && (forall d: nat :: d < WINDOW_BITS ==> (Bit(w.bits, d) <==> d <= w.top.value && w.top.value - d in cs)))
  }

  lemma CommitRemembers(w: Window, cs: seq<nat>, counter: nat)
    requires Remembers(w, cs)
    ensures Remembers(Commit(w, counter), cs + [counter])
  {
    assert counter in cs + [counter];
    var w' := Commit(w, counter);
    if w.top.None? {
      forall d: nat | d < WINDOW_BITS ensures Bit(1, d) <==> d == 0 {
        NoBits(d);
      }
    } else if counter > w.top.value {
      JumpRemembers(w, cs, counter);
    } else if w.top.value - counter < WINDOW_BITS {
      var delta := w.top.value - counter;
      SetBitBounded(w.bits, delta, WINDOW_BITS);
      forall d: nat | d < WINDOW_BITS ensures Bit(w'.bits, d) <==> d <= w.top.value && w.top.value - d in cs + [counter] {
        BitOfSetBit(w.bits, delta, d);
      }
    }
  }

  lemma NoBits(d: nat)
    ensures !Bit(0, d) && (Bit(1, d) <==> d == 0)
  {
    if d > 0 {
      NoBits(d - 1);
    }
  }

  lemma JumpRemembers(w: Window, cs: seq<nat>, counter: nat)
    requires Remembers(w, cs) && w.top.Some? && counter > w.top.value
    ensures Remembers(Commit(w, counter), cs + [counter])
  {
    var w' := Commit(w, counter);
    var shift := Min(counter - w.top.value, WINDOW_BITS);
    var shifted := if shift >= WINDOW_BITS then 0 else ShiftLeft(w.bits, shift, WINDOW_BITS);
    if shift < WINDOW_BITS {
      BitOfShift(w.bits, shift, WINDOW_BITS, 0);
    }
    SetBitBounded(shifted, 0, WINDOW_BITS);
    forall d: nat | d < WINDOW_BITS ensures Bit(w'.bits, d) <==> d <= counter && counter - d in cs + [counter] {
      BitOfSetBit(shifted, 0, d);
      NoBits(d);
      if shift < WINDOW_BITS {
        BitOfShift(w.bits, shift, WINDOW_BITS, d);
      }
    }
  }

  /** After any sequence of commits, the window is a faithful record of it. */
  lemma {:induction false} EveryRunRemembers(cs: seq<nat>)
    ensures Remembers(CommitAll(cs), cs)
  {
    if cs != [] {
      EveryRunRemembers(cs[..|cs| - 1]);
      CommitRemembers(CommitAll(cs[..|cs| - 1]), cs[..|cs| - 1], cs[|cs| - 1]);
      assert cs[..|cs| - 1] + [cs[|cs| - 1]] == cs;
    }
  }

  /** Allowed means new: above everything committed, or fewer than 128 behind it and never committed. */
  lemma AllowedExactlyWhenNew(cs: seq<nat>, counter: nat)
    ensures Allows(CommitAll(cs), counter) <==>
              (forall c :: c in cs ==> counter > c) ||
              (counter !in cs && forall c :: c in cs ==> c - counter < 128)
  {
    EveryRunRemembers(cs);
  }

  /** A committed counter is refused for ever, whatever is committed afterwards. */
  lemma CommittedNeverAllowedAgain(cs: seq<nat>, more: seq<nat>, counter: nat)
    requires counter in cs
    ensures !Allows(CommitAll(cs + more), counter)
  {
    assert counter in cs + more;
    AllowedExactlyWhenNew(cs + more, counter);
  }

  class DataReplayWindow {
    var top: Option<nat>
    var bits: nat
    /** The counters committed so far. */
    ghost var committed: seq<nat>

    ghost predicate Valid()
      reads this
    {
      View() == CommitAll(committed)
    }

    function View(): Window
      reads this
    {
      Window(top, bits)
    }

    constructor ()
      ensures Valid() && committed == []
    {
      top, bits, committed := None, 0, [];
    }

    method Check(counter: nat) returns (ok: bool)
      requires Valid()
      ensures ok <==> (forall c :: c in committed ==> counter > c) ||
                      (counter !in committed && forall c :: c in committed ==> c - counter < 128)
    {
      AllowedExactlyWhenNew(committed, counter);
      if top.None? || counter > top.value {
        return true;
      }
      var delta := top.value - counter;
      if delta >= WINDOW_BITS {
        return false;
      }
      ok := !Bit(bits, delta);
    }

    method Record(counter: nat)
      requires Valid()
      modifies this
      ensures Valid() && committed == old(committed) + [counter]
    {
      assert (committed + [counter])[..|committed|] == committed;
      committed := committed + [counter];
      if top.None? {
        top, bits := Some(counter), 1;
        return;
      }
      if counter > top.value {
        var shift := Min(counter - top.value, WINDOW_BITS);
        bits := if shift >= WINDOW_BITS then 0 else ShiftLeft(bits, shift, WINDOW_BITS);
        top := Some(counter);
        bits := SetBit(bits, 0);
        return;
      }
      var delta := top.value - counter;
      if delta < WINDOW_BITS {
        bits := SetBit(bits, delta);
      }
    }
  }

  // ---------- the counter on the wire ----------

  const MAX_WIRE_COUNTER: nat := 0xFFFF_FFFF_FFFF
  const WIRE_COUNTER_LEN: nat := 6

  type byte = n: int | 0 <= n < 0x100

  function LittleEndian(n: nat, len: nat): (bytes: seq<byte>)
    ensures |bytes| == len
  {
    if len == 0 then [] else [n % 0x100] + LittleEndian(n / 0x100, len - 1)
  }

  function EncodeWireCounter(counter: nat): Result<seq<byte>> {
    if counter > MAX_WIRE_COUNTER then Err else Ok(LittleEndian(counter, WIRE_COUNTER_LEN))
  }

  function DecodeWireCounter(wire: seq<byte>): nat {
    if wire == [] then 0 else wire[0] + 0x100 * DecodeWireCounter(wire[1..])
  }

  function NonceFromCounter(salt: seq<byte>, wire: seq<byte>): seq<byte> {
    salt + wire
  }

  function Pow256(n: nat): nat {
    if n == 0 then 1 else 0x100 * Pow256(n - 1)
  }

  lemma {:induction false} LittleEndianRoundTrip(n: nat, len: nat)
    requires n < Pow256(len)
    ensures DecodeWireCounter(LittleEndian(n, len)) == n
  {
    if len > 0 {
      LittleEndianRoundTrip(n / 0x100, len - 1);
      assert LittleEndian(n, len)[1..] == LittleEndian(n / 0x100, len - 1);
    }
  }

  /** Encoding fails exactly beyond 48 bits, and otherwise decodes to the same counter. */
  lemma WireCounterRoundTrip(counter: nat)
    ensures EncodeWireCounter(counter).Ok? <==> counter <= MAX_WIRE_COUNTER
    ensures counter <= MAX_WIRE_COUNTER ==> DecodeWireCounter(EncodeWireCounter(counter).value) == counter
  {
    if counter <= MAX_WIRE_COUNTER {
      assert Pow256(2) == 0x1_0000 && Pow256(4) == 0x1_0000_0000;
      assert Pow256(6) == 0x1_0000_0000_0000;
      LittleEndianRoundTrip(counter, WIRE_COUNTER_LEN);
    }
  }

  /** Under one salt, different counters never share a nonce. */
  lemma NoncesNeverRepeat(salt: seq<byte>, a: nat, b: nat)
    requires EncodeWireCounter(a).Ok? && EncodeWireCounter(b).Ok?
    ensures NonceFromCounter(salt, EncodeWireCounter(a).value) == NonceFromCounter(salt, EncodeWireCounter(b).value) <==> a == b
  {
    WireCounterRoundTrip(a);
    WireCounterRoundTrip(b);
    var x, y := EncodeWireCounter(a).value, EncodeWireCounter(b).value;
    assert (salt + x)[|salt|..] == x && (salt + y)[|salt|..] == y;
  }
}
