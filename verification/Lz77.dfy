/** LZ77 expansion, one byte at a time, and the ring window of `compress.py`. */
module Lz77 {
  import opened Bits

  const WINDOW_SIZE: nat := 0x4000

  datatype Token = Literal(b: byte) | Copy(length: nat, distance: nat)

  /** The byte `d` places back; zero before the start. */
  function Back(out: seq<byte>, d: nat): byte
    requires d > 0
  {
    if d <= |out| then out[|out| - d] else 0
  }

  function CopyFrom(out: seq<byte>, distance: nat, length: nat): seq<byte>
    requires distance > 0
    decreases length
  {
    if length == 0 then out
    else
      var shorter := CopyFrom(out, distance, length - 1);
      shorter + [Back(shorter, distance)]
  }

  function ExpandToken(out: seq<byte>, t: Token): seq<byte>
    requires t.Copy? ==> t.distance > 0
  {
    match t
    case Literal(b) => out + [b]
    case Copy(length, distance) => CopyFrom(out, distance, length)
  }

  predicate TokensOk(ts: seq<Token>) {
    forall t :: t in ts ==> t.Copy? ==> t.distance > 0
  }

  function Expand(out: seq<byte>, ts: seq<Token>): seq<byte>
    requires TokensOk(ts)
    decreases |ts|
  {
    if ts == [] then out
    else
      assert ts[0] in ts;
      Expand(ExpandToken(out, ts[0]), ts[1..])
  }

  lemma {:induction false} CopyLength(out: seq<byte>, distance: nat, length: nat)
    requires distance > 0
    ensures |CopyFrom(out, distance, length)| == |out| + length && out <= CopyFrom(out, distance, length)
  {
    if length > 0 {
      CopyLength(out, distance, length - 1);
    }
  }

  lemma {:induction false} CopyAppend(out: seq<byte>, distance: nat, a: nat, b: nat)
    requires distance > 0
    ensures CopyFrom(CopyFrom(out, distance, a), distance, b) == CopyFrom(out, distance, a + b)
    decreases b
  {
    if b > 0 {
      CopyAppend(out, distance, a, b - 1);
    }
  }

  /** A copy is the self-overlapping repetition: each byte equals the one `distance` places before it. */
  lemma {:induction false} CopyRepeats(out: seq<byte>, distance: nat, length: nat, i: nat)
    requires 0 < distance && |out| <= i < |out| + length
    ensures |CopyFrom(out, distance, length)| == |out| + length
    ensures CopyFrom(out, distance, length)[i] ==
            if i >= distance then CopyFrom(out, distance, length)[i - distance] else 0
    decreases length
  {
    CopyLength(out, distance, length);
    CopyLength(out, distance, length - 1);
    if i < |out| + length - 1 {
      CopyRepeats(out, distance, length - 1, i);
    }
  }

  lemma {:induction false} ExpandSnoc(out: seq<byte>, ts: seq<Token>, t: Token)
    requires TokensOk(ts + [t]) && TokensOk(ts) && (t.Copy? ==> t.distance > 0)
    ensures Expand(out, ts + [t]) == ExpandToken(Expand(out, ts), t)
    decreases |ts|
  {
    if ts == [] {
      assert ts + [t] == [t] && [t][1..] == [];
    } else {
      assert ts[0] in ts && (ts + [t])[0] == ts[0] && (ts + [t])[1..] == ts[1..] + [t];
      ExpandSnoc(ExpandToken(out, ts[0]), ts[1..], t);
    }
  }

  lemma {:induction false} ExpandAppend(out: seq<byte>, ts: seq<Token>, us: seq<Token>)
    requires TokensOk(ts) && TokensOk(us)
    ensures TokensOk(ts + us) && Expand(out, ts + us) == Expand(Expand(out, ts), us)
    decreases |ts|
  {
    if ts == [] {
      assert ts + us == us;
    } else {
      assert ts[0] in ts;
      assert (ts + us)[1..] == ts[1..] + us;
      ExpandAppend(ExpandToken(out, ts[0]), ts[1..], us);
    }
  }

  // ----- the ring -----

  /** How far back the byte in slot `i` was written, after `n` bytes of output. */
  function Age(n: nat, i: nat): (d: nat)
    ensures 1 <= d <= WINDOW_SIZE
  {
    (n - 1 - i) % WINDOW_SIZE + 1
  }

  /** The window holds the last 16384 bytes of the output, zeros before its start. */
  ghost predicate Ring(window: seq<byte>, out: seq<byte>) {
    && |window| == WINDOW_SIZE
    && forall i :: 0 <= i < WINDOW_SIZE ==> window[i] == Back(out, Age(|out|, i))
  }

  lemma {:induction false} RingStart(window: seq<byte>)
    requires |window| == WINDOW_SIZE && forall i :: 0 <= i < WINDOW_SIZE ==> window[i] == 0
    ensures Ring(window, [])
  {
  }

  lemma {:induction false} AgeStep(n: nat, i: nat)
    requires i < WINDOW_SIZE
    ensures i == n % WINDOW_SIZE ==> Age(n + 1, i) == 1
    ensures i != n % WINDOW_SIZE ==> Age(n + 1, i) == Age(n, i) + 1
  {
  }

  lemma {:induction false} RingPut(window: seq<byte>, out: seq<byte>, b: byte)
    requires Ring(window, out)
    ensures Ring(window[|out| % WINDOW_SIZE := b], out + [b])
  {
    var w := window[|out| % WINDOW_SIZE := b];
    forall i | 0 <= i < WINDOW_SIZE
      ensures w[i] == Back(out + [b], Age(|out| + 1, i))
    {
      AgeStep(|out|, i);
    }
  }

  /** Slot `(n - d) mod size` holds the byte `d` places back. */
  lemma {:induction false} SlotOf(n: nat, d: nat)
    requires 1 <= d <= WINDOW_SIZE
    ensures Age(n, (n - d) % WINDOW_SIZE) == d
  {
  }

  lemma {:induction false} RingGet(window: seq<byte>, out: seq<byte>, d: nat)
    requires Ring(window, out) && 1 <= d <= WINDOW_SIZE
    ensures window[(|out| - d) % WINDOW_SIZE] == Back(out, d)
  {
    SlotOf(|out|, d);
  }

  /** The slots a copy has just filled hold its bytes. */
  lemma {:induction false} RingSlice(window: seq<byte>, out: seq<byte>, chunk: nat)
    requires Ring(window, out) && chunk <= |out| && chunk <= WINDOW_SIZE
    requires (|out| - chunk) % WINDOW_SIZE + chunk <= WINDOW_SIZE
    ensures var w := (|out| - chunk) % WINDOW_SIZE;
            window[w..w + chunk] == out[|out| - chunk..]
  {
    var n := |out|;
    var w := (n - chunk) % WINDOW_SIZE;
    forall k | w <= k < w + chunk
      ensures window[k] == out[n - chunk..][k - w]
    {
      SlotOf(n, chunk - (k - w));
      ModAdd(n - chunk, k - w);
    }
  }

  lemma {:induction false} ModAdd(a: nat, j: nat)
    requires a % WINDOW_SIZE + j < WINDOW_SIZE
    ensures (a + j) % WINDOW_SIZE == a % WINDOW_SIZE + j
  {
  }
}
