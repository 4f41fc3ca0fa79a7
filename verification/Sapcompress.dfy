/** The public face of SAPCOMPRESS (compress.py): decompressing a block of either algorithm. */
module Sapcompress {
  import opened Bits
  import opened LzwSpec
  import opened Lz77
  import LzcReader
  import LzcWriter
  import LzhStream

  const ALG_LZC := 1
  const ALG_LZH := 2

  /** What a block stands for: LZC in compatibility mode or LZH, the declared, the expected and the
  actual length all agreeing. */
  function Meaning(data: seq<byte>, outLength: nat): Result<seq<byte>> {
    match ParseHeader(data)
    case Err(e) => Err(e)
    case Ok(h) =>
      if h.length != outLength then Err("header length differs")
      else if h.algo == ALG_LZC then Checked(LzwSpec.Decompressed(data, true), outLength)
      else if h.algo == ALG_LZH then Checked(LzhStream.Decompressed(data), outLength)
      else Err("unknown algo")
  }

  function Checked(r: Result<seq<byte>>, outLength: nat): Result<seq<byte>> {
    match r
    case Err(e) => Err(e)
    case Ok(out) => if |out| != outLength then Err("wrong length") else Ok(out)
  }

  method SapcompressDecompress(data: seq<byte>, outLength: nat) returns (r: Result<seq<byte>>)
    ensures r == Meaning(data, outLength)
    ensures r.Ok? ==> |r.value| == outLength
  {
    hide ParseHeader, LzwSpec.Decompressed, LzhStream.Decompressed, ToBits, Packed, Pow2;
    var header := ParseHeader(data);
    if header.Err? {
      return Err(header.reason);
    }
    if header.value.length != outLength {
      return Err("header length differs");
    }
    if header.value.algo == ALG_LZC {
      var d := new LzcReader.LzcDecompress(data, true);
      r := d.Decompress();
    } else if header.value.algo == ALG_LZH {
      r := LzhStream.Decompress(data);
    } else {
      return Err("unknown algo");
    }
    if r.Ok? && |r.value| != outLength {
      return Err("wrong length");
    }
  }

  /** What a compressor wrote has a header that says so. */
  lemma {:induction false} LzcHeader(data: seq<byte>, length: nat, p: Params, payload: seq<byte>)
    requires OpenLzc(data) == Ok((length, p, payload))
    ensures ParseHeader(data).Ok? && ParseHeader(data).value.length == length && ParseHeader(data).value.algo == ALG_LZC
  {
    hide ParseHeader;
  }

  /** Compressing, then decompressing with the input's length, gives the input back. */
  method RoundTrip(data: seq<byte>, codeLenLimit: nat, multi: bool) returns (back: Result<seq<byte>>)
    requires 9 <= codeLenLimit <= 16 && |data| < 0x1_0000_0000
    ensures back == Ok(data)
  {
    hide ParseHeader, OpenLzc, LzwSpec.Decompressed, LzhStream.Decompressed;
    var packed := LzcWriter.SapcompressCompressLzc(data, codeLenLimit, multi);
    var p := Params(multi, codeLenLimit);
    assert OpenLzc(packed.value).Ok? && OpenLzc(packed.value).value.0 == |data|;
    LzcHeader(packed.value, OpenLzc(packed.value).value.0, OpenLzc(packed.value).value.1, OpenLzc(packed.value).value.2);
    back := SapcompressDecompress(packed.value, |data|);
  }

  /** Whatever valid blocks an LZH file holds: it gives their expansion, for the length of the expansion
  alone, exactly when its last headers and items have enough behind them to be looked at. */
  lemma {:induction false} LzhFileIff(config: byte, noise: seq<bool>, bs: seq<LzhStream.Block>, spare: seq<bool>, n: nat)
    requires |noise| < 4 && bs != [] && LzhStream.BlocksOk(bs)
    requires |Expand([], LzhStream.StreamTokens(bs))| < 0x1_0000_0000
    ensures
      var out := Expand([], LzhStream.StreamTokens(bs));
      var r := Meaning(LzhStream.File(|out|, config, noise, bs, spare), n);
      if n == |out| && LzhStream.StreamReadable(bs, LzhStream.Behind(noise, bs, spare)) then r == Ok(out) else r.Err?
  {
    var out := Expand([], LzhStream.StreamTokens(bs));
    LzhStream.FileIff(|out|, config, noise, bs, spare);
    HeaderBack(LzhStream.FileHeader(|out|, config), LzhStream.ToBytes(LzhStream.NoiseBits(noise) + LzhStream.StreamBits(bs) + spare));
    hide LzhStream.BlocksOk, LzhStream.StreamTokens, Expand, ParseHeader, LzhStream.Decompressed, LzhStream.ToBytes,
         HeaderBytes, LzhStream.StreamReadable, LzhStream.Behind;
  }

  /** With spare bits enough for any tree, every such file is read. */
  lemma {:induction false} LzhFileBack(config: byte, noise: seq<bool>, bs: seq<LzhStream.Block>, spare: seq<bool>, n: nat)
    requires |noise| < 4 && bs != [] && LzhStream.BlocksOk(bs) && LzhStream.Spare(bs, |spare|)
    requires |Expand([], LzhStream.StreamTokens(bs))| < 0x1_0000_0000
    ensures
      var out := Expand([], LzhStream.StreamTokens(bs));
      Meaning(LzhStream.File(|out|, config, noise, bs, spare), n) ==
      if n == |out| then Ok(out) else Err("header length differs")
  {
    var out := Expand([], LzhStream.StreamTokens(bs));
    LzhStream.FileBack(|out|, config, noise, bs, spare);
    HeaderBack(LzhStream.FileHeader(|out|, config), LzhStream.ToBytes(LzhStream.NoiseBits(noise) + LzhStream.StreamBits(bs) + spare));
    hide LzhStream.BlocksOk, LzhStream.StreamTokens, Expand, ParseHeader, LzhStream.Decompressed, LzhStream.ToBytes,
         HeaderBytes;
  }
}
