/** Canonical Huffman codes (section 3.2.2 of RFC 1951) as `compress.py` assigns them: the code
words, when they are prefix-free, and what reading them means. A code is given by the list of
code lengths, one per symbol; length 0 means the symbol is not used. */
module Huffman {
  import opened Bits

  /** The `n` low bits of `v`, most significant first: the order in which a code word is sent. */
  function MsbBits(v: nat, n: nat): (s: seq<bool>)
    ensures |s| == n
    decreases n
  {
    if n == 0 then [] else MsbBits(v / 2, n - 1) + [v % 2 == 1]
  }

  function MaxLen(lengths: seq<nat>): (m: nat)
    ensures forall i :: 0 <= i < |lengths| ==> lengths[i] <= m
  {
    if lengths == [] then 0
    else
      var m := MaxLen(lengths[..|lengths| - 1]);
      var last := lengths[|lengths| - 1];
      if last > m then last else m
  }

  lemma {:induction false} MaxLenBound(lengths: seq<nat>, m: nat)
    requires forall i :: 0 <= i < |lengths| ==> lengths[i] <= m
    ensures MaxLen(lengths) <= m
  {
    if lengths != [] {
      MaxLenBound(lengths[..|lengths| - 1], m);
    }
  }

  /** How many of the lengths are `l`. */
  function Count(lengths: seq<nat>, l: nat): nat {
    if lengths == [] then 0
    else Count(lengths[..|lengths| - 1], l) + if lengths[|lengths| - 1] == l then 1 else 0
  }

  function CodesOfLength(lengths: seq<nat>, l: nat): nat {
    if l == 0 then 0 else Count(lengths, l)
  }

  /** The first code value of length `l`: section 3.2.2, step 2. */
  function FirstCode(lengths: seq<nat>, l: nat): nat {
    if l == 0 then 0 else 2 * (FirstCode(lengths, l - 1) + CodesOfLength(lengths, l - 1))
  }

  /** Code values of length `l` run from `FirstCode` up to, not including, this. */
  function Load(lengths: seq<nat>, l: nat): nat {
    FirstCode(lengths, l) + CodesOfLength(lengths, l)
  }

  predicate Used(lengths: seq<nat>, i: nat) {
    i < |lengths| && lengths[i] > 0
  }

  function CodeValue(lengths: seq<nat>, i: nat): nat
    requires i < |lengths|
  {
    FirstCode(lengths, lengths[i]) + Count(lengths[..i], lengths[i])
  }

  /** The code word of a symbol, in stream order. */
  function Word(lengths: seq<nat>, i: nat): (w: seq<bool>)
    requires i < |lengths|
    ensures |w| == lengths[i]
  {
    MsbBits(CodeValue(lengths, i), lengths[i])
  }

  /** The space the used lengths take, in units of one word of length `l`: Kraft's sum times 2^l. */
  function KraftSum(lengths: seq<nat>, l: nat): nat {
    if lengths == [] then 0
    else
      var last := lengths[|lengths| - 1];
      KraftSum(lengths[..|lengths| - 1], l) + if 0 < last <= l then Pow2(l - last) else 0
  }

  predicate Kraft(lengths: seq<nat>) {
    KraftSum(lengths, MaxLen(lengths)) <= Pow2(MaxLen(lengths))
  }

  /** No code word is a prefix of another symbol's. */
  ghost predicate PrefixFree(lengths: seq<nat>) {
    forall i, j :: Used(lengths, i) && Used(lengths, j) && i != j ==> !(Word(lengths, i) <= Word(lengths, j))
  }

  // ----- code values and Kraft's sum -----

  lemma {:induction false} KraftStep(lengths: seq<nat>, l: nat)
    requires l > 0
    ensures KraftSum(lengths, l) == 2 * KraftSum(lengths, l - 1) + Count(lengths, l)
  {
    if lengths != [] {
      KraftStep(lengths[..|lengths| - 1], l);
    }
  }

  /** The code values of length `l` end exactly at Kraft's sum. */
  lemma {:induction false} LoadIsKraftSum(lengths: seq<nat>, l: nat)
    ensures Load(lengths, l) == KraftSum(lengths, l)
  {
    if l == 0 {
      KraftZero(lengths);
    } else {
      LoadIsKraftSum(lengths, l - 1);
      KraftStep(lengths, l);
    }
  }

  lemma {:induction false} KraftZero(lengths: seq<nat>)
    ensures KraftSum(lengths, 0) == 0
  {
    if lengths != [] {
      KraftZero(lengths[..|lengths| - 1]);
    }
  }

  /** If the longest codes fit, so do the shorter ones. */
  lemma {:induction false} LoadFits(lengths: seq<nat>, l: nat, m: nat)
    requires l <= m && Load(lengths, m) <= Pow2(m)
    ensures Load(lengths, l) <= Pow2(l)
    decreases m - l
  {
    if l < m {
      LoadFits(lengths, l + 1, m);
    }
  }

  /** Codes of a longer length start above everything below a shorter one. */
  lemma {:induction false} FirstAbove(lengths: seq<nat>, l: nat, d: nat)
    requires d > 0
    ensures FirstCode(lengths, l + d) >= Shl(Load(lengths, l), d)
    decreases d
  {
    if d > 1 {
      FirstAbove(lengths, l, d - 1);
      assert l + d - 1 == l + (d - 1);
    }
  }

  lemma {:induction false} CountPrefix(lengths: seq<nat>, i: nat, l: nat)
    requires i < |lengths| && lengths[i] == l
    ensures Count(lengths[..i], l) < Count(lengths, l)
    decreases |lengths|
  {
    var n := |lengths| - 1;
    if i == n {
    } else {
      CountPrefix(lengths[..n], i, l);
      assert lengths[..n][..i] == lengths[..i];
    }
  }

  lemma {:induction false} CountMonotone(lengths: seq<nat>, i: nat, j: nat, l: nat)
    requires i < j <= |lengths| && lengths[i] == l
    ensures Count(lengths[..i], l) < Count(lengths[..j], l)
  {
    CountPrefix(lengths[..j], i, l);
    assert lengths[..j][..i] == lengths[..i];
  }

  lemma {:induction false} ValueFits(lengths: seq<nat>, i: nat)
    requires Kraft(lengths) && Used(lengths, i)
    ensures CodeValue(lengths, i) < Load(lengths, lengths[i]) <= Pow2(lengths[i])
  {
    LoadIsKraftSum(lengths, MaxLen(lengths));
    LoadFits(lengths, lengths[i], MaxLen(lengths));
    CountPrefix(lengths, i, lengths[i]);
  }

  // ----- words -----

  lemma {:induction false} MsbInjective(a: nat, b: nat, n: nat)
    requires a < Pow2(n) && b < Pow2(n) && MsbBits(a, n) == MsbBits(b, n)
    ensures a == b
    decreases n
  {
    if n > 0 {
      assert MsbBits(a, n)[..n - 1] == MsbBits(a / 2, n - 1) && MsbBits(b, n)[..n - 1] == MsbBits(b / 2, n - 1);
      MsbInjective(a / 2, b / 2, n - 1);
      assert MsbBits(a, n)[n - 1] == (a % 2 == 1) && MsbBits(b, n)[n - 1] == (b % 2 == 1);
    }
  }

  /** The first `n` bits of a word of length `n + d`. */
  lemma {:induction false} MsbPrefix(v: nat, n: nat, d: nat)
    ensures MsbBits(v, n + d)[..n] == MsbBits(Shr(v, d), n)
    decreases d
  {
    if d == 0 {
      assert MsbBits(v, n)[..n] == MsbBits(v, n);
    } else {
      MsbPrefix(v / 2, n, d - 1);
      assert MsbBits(v, n + d)[..n] == MsbBits(v / 2, n + d - 1)[..n];
    }
  }

  lemma {:induction false} ShrAtLeast(v: nat, x: nat, d: nat)
    requires v >= Shl(x, d)
    ensures Shr(v, d) >= x
    decreases d
  {
    if d > 0 {
      ShrAtLeast(v / 2, x, d - 1);
    }
  }

  /** A word of a shorter symbol never starts a longer one. */
  lemma {:induction false} NotPrefix(lengths: seq<nat>, i: nat, j: nat)
    requires Kraft(lengths) && Used(lengths, i) && Used(lengths, j) && i != j
    ensures !(Word(lengths, i) <= Word(lengths, j))
  {
    var a, b := lengths[i], lengths[j];
    if a <= b {
      ValueFits(lengths, i);
      ValueFits(lengths, j);
      var d := b - a;
      var v := CodeValue(lengths, j);
      MsbPrefix(v, a, d);
      if d == 0 {
        if i < j {
          CountMonotone(lengths, i, j, a);
        } else {
          CountMonotone(lengths, j, i, a);
        }
      } else {
        FirstAbove(lengths, a, d);
        ShrAtLeast(v, Load(lengths, a), d);
      }
      ShrBound(v, d, a);
      assert d + a == b;
      if Word(lengths, i) <= Word(lengths, j) {
        assert Word(lengths, j)[..a] == Word(lengths, i);
        MsbInjective(CodeValue(lengths, i), Shr(v, d), a);
      }
    }
  }

  // ----- the converse: an overfull code is ambiguous -----

  /** The symbol of length `l` with the given rank. */
  lemma {:induction false} Ranked(lengths: seq<nat>, l: nat, rank: nat) returns (i: nat)
    requires rank < Count(lengths, l)
    ensures i < |lengths| && lengths[i] == l && Count(lengths[..i], l) == rank
    decreases |lengths|
  {
    var n := |lengths| - 1;
    if rank < Count(lengths[..n], l) {
      i := Ranked(lengths[..n], l, rank);
      assert lengths[..n][..i] == lengths[..i];
    } else {
      i := n;
    }
  }

  /** The shortest length at which the codes overflow. */
  lemma {:induction false} Overflow(lengths: seq<nat>, m: nat) returns (l: nat)
    requires Load(lengths, m) > Pow2(m)
    ensures 0 < l <= m && Load(lengths, l) > Pow2(l) && FirstCode(lengths, l) <= Pow2(l)
  {
    if m > 0 && Load(lengths, m - 1) > Pow2(m - 1) {
      l := Overflow(lengths, m - 1);
    } else {
      l := m;
    }
  }

  /** The shortest length in use; its first code value is 0. */
  lemma {:induction false} Shortest(lengths: seq<nat>, m: nat) returns (l: nat)
    requires CodesOfLength(lengths, m) > 0
    ensures 0 < l <= m && CodesOfLength(lengths, l) > 0 && FirstCode(lengths, l) == 0
  {
    l := m;
    while FirstCode(lengths, l) > 0
      invariant 0 < l <= m && CodesOfLength(lengths, l) > 0
      decreases l
    {
      l := LowerLength(lengths, l);
    }
  }

  lemma {:induction false} LowerLength(lengths: seq<nat>, l: nat) returns (k: nat)
    requires FirstCode(lengths, l) > 0
    ensures 0 < k < l && CodesOfLength(lengths, k) > 0
  {
    if CodesOfLength(lengths, l - 1) > 0 {
      k := l - 1;
    } else {
      k := LowerLength(lengths, l - 1);
    }
  }

  /** Word values wrap: a value that is a multiple of 2^n has an all-zero word. */
  lemma {:induction false} WrappedZero(x: nat, n: nat)
    ensures MsbBits(Shl(x, n), n) == Zeros(n)
  {
    if n > 0 {
      WrappedZero(x, n - 1);
      assert Zeros(n) == Zeros(n - 1) + [false];
    }
  }

  /** When the lengths overfill the code space, the words of two symbols clash. */
  lemma {:induction false} Clash(lengths: seq<nat>) returns (i: nat, j: nat)
    requires !Kraft(lengths)
    ensures Used(lengths, i) && Used(lengths, j) && i != j && Word(lengths, i) <= Word(lengths, j)
  {
    var m := MaxLen(lengths);
    LoadIsKraftSum(lengths, m);
    var l := Overflow(lengths, m);
    var s := Shortest(lengths, l);
    var rank := Pow2(l) - FirstCode(lengths, l);
    i := Ranked(lengths, s, 0);
    j := Ranked(lengths, l, rank);
    WrappedZero(1, l);
    ShlZero(s);
    WrappedZero(0, s);
    assert Zeros(s) <= Zeros(l);
  }

  /** The assigned words are prefix-free exactly when the lengths satisfy Kraft's inequality. */
  lemma {:induction false} PrefixFreeIffKraft(lengths: seq<nat>)
    ensures PrefixFree(lengths) <==> Kraft(lengths)
  {
    if Kraft(lengths) {
      forall i, j | Used(lengths, i) && Used(lengths, j) && i != j
        ensures !(Word(lengths, i) <= Word(lengths, j))
      {
        NotPrefix(lengths, i, j);
      }
    } else {
      var i, j := Clash(lengths);
    }
  }

  // ----- reading -----

  /** The last symbol, of the first `upto`, whose word starts `bits`: later table entries overwrite. */
  function Match(lengths: seq<nat>, upto: nat, bits: seq<bool>): (r: Option<nat>)
    requires upto <= |lengths|
    ensures r.Some? ==> Used(lengths, r.value) && r.value < upto && Word(lengths, r.value) <= bits
  {
    if upto == 0 then None
    else if lengths[upto - 1] > 0 && Word(lengths, upto - 1) <= bits then Some(upto - 1)
    else Match(lengths, upto - 1, bits)
  }

  lemma {:induction false} Nested(a: seq<bool>, b: seq<bool>, bits: seq<bool>)
    ensures a <= bits && b <= bits ==> a <= b || b <= a
  {
  }

  /** With prefix-free words, the symbol whose word starts the bits is the one that is found. */
  lemma {:induction false} MatchUnique(lengths: seq<nat>, upto: nat, bits: seq<bool>, sym: nat)
    requires Kraft(lengths) && sym < upto <= |lengths| && Used(lengths, sym) && Word(lengths, sym) <= bits
    ensures Match(lengths, upto, bits) == Some(sym)
  {
    var last := upto - 1;
    if last != sym {
      if lengths[last] > 0 {
        NotPrefix(lengths, last, sym);
        NotPrefix(lengths, sym, last);
        Nested(Word(lengths, last), Word(lengths, sym), bits);
      }
      MatchUnique(lengths, last, bits, sym);
    }
  }

  /** Reading one symbol: it takes `MaxLen` bits to look at, and consumes only the word. */
  function ReadSymbol(lengths: seq<nat>, bits: seq<bool>): (r: Option<(nat, seq<bool>)>)
    ensures r.Some? ==> Used(lengths, r.value.0) && |r.value.1| < |bits|
  {
    var m := MaxLen(lengths);
    if |bits| < m then None
    else
      match Match(lengths, |lengths|, bits[..m])
      case None => None
      case Some(sym) => Some((sym, bits[lengths[sym]..]))
  }

  lemma {:induction false} TooShort(lengths: seq<nat>, bits: seq<bool>)
    requires |bits| < MaxLen(lengths)
    ensures ReadSymbol(lengths, bits) == None
  {
  }

  function Encode(lengths: seq<nat>, syms: seq<nat>): seq<bool>
    requires forall k :: 0 <= k < |syms| ==> Used(lengths, syms[k])
  {
    if syms == [] then []
    else
      assert Used(lengths, syms[0]);
      Word(lengths, syms[0]) + Encode(lengths, syms[1..])
  }

  function ReadSymbols(lengths: seq<nat>, bits: seq<bool>, n: nat): Option<(seq<nat>, seq<bool>)>
    decreases n
  {
    if n == 0 then Some(([], bits))
    else
      match ReadSymbol(lengths, bits)
      case None => None
      case Some((sym, rest)) =>
        match ReadSymbols(lengths, rest, n - 1)
        case None => None
        case Some((more, end)) => Some(([sym] + more, end))
  }

  lemma {:induction false} ReadWord(lengths: seq<nat>, sym: nat, rest: seq<bool>)
    requires Kraft(lengths) && Used(lengths, sym) && lengths[sym] + |rest| >= MaxLen(lengths)
    ensures ReadSymbol(lengths, Word(lengths, sym) + rest) == Some((sym, rest))
  {
    var bits := Word(lengths, sym) + rest;
    assert Word(lengths, sym) <= bits[..MaxLen(lengths)];
    MatchUnique(lengths, |lengths|, bits[..MaxLen(lengths)], sym);
    assert bits[lengths[sym]..] == rest;
  }

  /** Reading back any sequence of symbols, given enough trailing bits to look at. */
  lemma {:induction false} ReadEncoded(lengths: seq<nat>, syms: seq<nat>, spare: seq<bool>)
    requires Kraft(lengths) && forall k :: 0 <= k < |syms| ==> Used(lengths, syms[k])
    requires |spare| + 1 >= MaxLen(lengths)
    ensures ReadSymbols(lengths, Encode(lengths, syms) + spare, |syms|) == Some((syms, spare))
  {
    if syms == [] {
      assert Encode(lengths, syms) + spare == spare;
    } else {
      assert Used(lengths, syms[0]);
      assert syms == [syms[0]] + syms[1..];
      var rest := Encode(lengths, syms[1..]) + spare;
      assert Encode(lengths, syms) + spare == Word(lengths, syms[0]) + rest;
      ReadWord(lengths, syms[0], rest);
      ReadEncoded(lengths, syms[1..], spare);
    }
  }
}
