/**
 The CryptoNight hash from end to end: cn_slow_hash on every platform and monero_cpu_fast compute
 one function of the data. Memory size and iteration count are parameters, and so are the four
 finalising hash functions.
 */
module SlowHash {
  import opened Words
  import opened CryptoNight
  import opened Scratchpad
  import Keccak

  // extra_hashes, given the number of the entry and the 200 state bytes.
  type Finalizers = (bv2, seq<Byte>) -> seq<Byte>

  // The scratchpad has 8 * rows cells, and `mask` masks cell numbers.
  datatype Params = Params(rows: nat, mask: bv64, iterations: nat, extra: Finalizers) {
    ghost predicate Valid() {
      Covers(8 * rows, mask)
    }
  }

  // The values in the source: MEMORY is 2^21 bytes and ITER / 2 is 2^19.
  function MoneroParams(extra: Finalizers): (p: Params)
    ensures p.Valid() && p.mask < 0x1000_0000
  {
    NatAllOnes();
    Params(0x4000, 0x1_FFFF, 0x8_0000, extra)
  }

  // ----- the 200-byte state -----

  // A 16-byte piece of the state.
  function StateCell(w: seq<bv64>, i: nat): Block
    requires |w| == 25 && i < 12
  {
    Block(w[2 * i], w[2 * i + 1])
  }

  // state.init
  function InitText(w: seq<bv64>): Text
    requires |w| == 25
  {
    seq(8, j requires 0 <= j < 8 => StateCell(w, 4 + j))
  }

  // memcpy(state.init, text)
  function WithText(w: seq<bv64>, text: Text): (v: seq<bv64>)
    requires |w| == 25
    ensures |v| == 25
  {
    seq(25, i requires 0 <= i < 25 =>
      if 8 <= i < 24 then (if i % 2 == 0 then text[i / 2 - 4].lo else text[i / 2 - 4].hi) else w[i])
  }

  // keccak1600 on a message, as words.
  function Absorbed(data: seq<Byte>): Keccak.State {
    Keccak.Sponge(Keccak.ZeroState(), Keccak.PaddedMessage(data, 136), 136)
  }

  // A state given as its 200 bytes.
  function StateWords(data: seq<Byte>): Keccak.State
    requires |data| == 200
  {
    seq(25, i requires 0 <= i < 25 => Word64(data[8 * i..8 * i + 8]))
  }

  // The state at the start; with `prehashed` the data are the state.
  function Initial(data: seq<Byte>, prehashed: bool): Keccak.State
    requires prehashed ==> |data| == 200
  {
    if prehashed then StateWords(data) else Absorbed(data)
  }

  function NonceWord(data: seq<Byte>): bv64
    requires |data| >= 43
  {
    Word64(data[35..43])
  }

  // ----- the hash -----

  function TweakOf(w: seq<bv64>, data: seq<Byte>, variant: int): bv64
    requires |w| == 25 && (variant > 0 ==> |data| >= 43)
  {
    if variant > 0 then Xor64(w[24], NonceWord(data)) else 0
  }

  function StartBlockA(w: seq<bv64>): Block
    requires |w| == 25
  {
    XorBlock(StateCell(w, 0), StateCell(w, 2))
  }

  function StartBlockB(w: seq<bv64>): Block
    requires |w| == 25
  {
    XorBlock(StateCell(w, 1), StateCell(w, 3))
  }

  // The scratchpad after filling and mixing.
  ghost function Mixed(p: Params, w: seq<bv64>, tweak: bv64, variant: int): Mix
    requires p.Valid() && |w| == 25
  {
    var mem := Filled(ExpandedBlocks(StateCell(w, 0), StateCell(w, 1)), InitText(w), p.rows);
    Run(AesBlock, p.mask, variant, tweak, p.iterations, Mix(mem, StartBlockA(w), StartBlockB(w)))
  }

  // The state after folding the scratchpad back and permuting.
  ghost function Finished(p: Params, w: seq<bv64>, mem: seq<Block>): Keccak.State
    requires |w| == 25 && |mem| == 8 * p.rows
  {
    Keccak.KeccakF(WithText(w, Folded(ExpandedBlocks(StateCell(w, 2), StateCell(w, 3)), InitText(w), mem, p.rows)))
  }

  ghost function HashFromState(p: Params, w: seq<bv64>, tweak: bv64, variant: int): seq<Byte>
    requires p.Valid() && |w| == 25
  {
    var v := Finished(p, w, Mixed(p, w, tweak, variant).mem);
    p.extra(ByByte(v), Keccak.StateBytes(v))
  }

  // Which finalising hash: the low bits of the first state byte in slow-hash.c, and of the first state
  // word in monero.cpp.
  function ByByte(v: Keccak.State): bv2 {
    (Keccak.StateBytes(v)[0] & 3) as bv2
  }

  function ByWord(v: Keccak.State): bv2 {
    (v[0] & 3) as bv2
  }

  lemma SameFinalizer(v: Keccak.State)
    ensures ByByte(v) == ByWord(v)
  {
    assert Keccak.StateBytes(v)[0] == Bytes64(v[0])[0];
    LowBits(v[0]);
  }

  lemma LowBits(x: bv64)
    ensures (Bytes64(x)[0] & 3) as bv2 == (x & 3) as bv2
  {
  }

  // The length check of variant 1 ends the program; `None` stands for that.
  ghost function SlowHash(p: Params, data: seq<Byte>, variant: int, prehashed: bool): Option<seq<Byte>>
    requires p.Valid() && (prehashed ==> |data| == 200)
  {
    if variant > 0 && |data| < 43 then None
    else
      var w := Initial(data, prehashed);
      Some(HashFromState(p, w, TweakOf(w, data, variant), variant))
  }

  // ----- steps shared by all versions -----

  lemma WordOfStateBytes(s: Keccak.State, i: nat)
    requires i < 25
    ensures Word64(Keccak.StateBytes(s)[8 * i..8 * i + 8]) == s[i]
  {
    hide ByteAt, Word64;
    var bytes := Keccak.StateBytes(s)[8 * i..8 * i + 8];
    forall k | 0 <= k < 8
      ensures bytes[k] == Bytes64(s[i])[k]
    {
      assert (8 * i + k) / 8 == i && (8 * i + k) % 8 == k;
    }
    assert bytes == Bytes64(s[i]);
    WordOfBytes(s[i]);
  }

  lemma WholeState(data: seq<Byte>)
    ensures Keccak.Digest(data, 200) == Some(Keccak.StateBytes(Absorbed(data)))
  {
    hide Keccak.StateBytes, Keccak.Sponge, Keccak.PaddedMessage, Keccak.Digest;
    Keccak.DigestIsSponge(data, 200);
    var bytes := Keccak.StateBytes(Absorbed(data));
    assert bytes[..200] == bytes;
  }

  // Step 1: hash_process, read back as words.
  method HashProcess(data: seq<Byte>) returns (state: array<bv64>)
    ensures fresh(state) && state.Length == 25 && state[..] == Absorbed(data)
  {
    hide Word64, Keccak.StateBytes, Absorbed, Keccak.Digest;
    var digest := Keccak.Keccak(data, 200);
    WholeState(data);
    var bytes := digest.value;
    state := new bv64[25];
    for i := 0 to 25
      invariant forall k :: 0 <= k < i ==> state[k] == Absorbed(data)[k]
    {
      state[i] := Word64(bytes[8 * i..8 * i + 8]);
      WordOfStateBytes(Absorbed(data), i);
    }
  }

  // Without the tweak, the hash of the state that a message is absorbed to is the hash of the message.
  lemma PrehashedAgrees(p: Params, data: seq<Byte>)
    requires p.Valid()
    ensures SlowHash(p, Keccak.StateBytes(Absorbed(data)), 0, true) == SlowHash(p, data, 0, false)
  {
    hide HashFromState, Word64, Keccak.StateBytes, Absorbed;
    var bytes := Keccak.StateBytes(Absorbed(data));
    forall i | 0 <= i < 25
      ensures StateWords(bytes)[i] == Absorbed(data)[i]
    {
      WordOfStateBytes(Absorbed(data), i);
    }
    assert StateWords(bytes) == Absorbed(data);
  }

  // Step 1 with `prehashed`: the state is copied.
  method CopyState(data: seq<Byte>) returns (state: array<bv64>)
    requires |data| == 200
    ensures fresh(state) && state.Length == 25 && state[..] == StateWords(data)
  {
    hide Word64;
    state := new bv64[25];
    for i := 0 to 25
      invariant forall k :: 0 <= k < i ==> state[k] == StateWords(data)[k]
    {
      state[i] := Word64(data[8 * i..8 * i + 8]);
    }
  }

  method FirstState(data: seq<Byte>, prehashed: bool) returns (state: array<bv64>)
    requires prehashed ==> |data| == 200
    ensures fresh(state) && state.Length == 25 && state[..] == Initial(data, prehashed)
  {
    hide StateWords, Absorbed;
    if prehashed {
      state := CopyState(data);
    } else {
      state := HashProcess(data);
    }
  }

  method StoreText(state: array<bv64>, text: Text)
    requires state.Length == 25
    modifies state
    ensures state[..] == WithText(old(state[..]), text)
  {
    for j := 0 to 8
      invariant forall k :: 0 <= k < 25 ==>
        state[k] == if 8 <= k < 8 + 2 * j then WithText(old(state[..]), text)[k] else old(state[..])[k]
    {
      state[8 + 2 * j] := text[j].lo;
      state[9 + 2 * j] := text[j].hi;
    }
  }

  // Step 5: permute, and let the first byte of the state choose the last hash.
  method FinishByByte(p: Params, state: array<bv64>, text: Text) returns (hash: seq<Byte>)
    requires state.Length == 25
    modifies state
    ensures var v := Keccak.KeccakF(WithText(old(state[..]), text));
            hash == p.extra(ByByte(v), Keccak.StateBytes(v))
  {
    hide WithText, Keccak.KeccakF, Keccak.StateBytes;
    StoreText(state, text);
    Keccak.KeccakFInPlace(state);
    var bytes := Keccak.StateBytes(state[..]);
    hash := p.extra((bytes[0] & 3) as bv2, bytes);
  }

  // The same in monero_cpu_fast, which looks at the first word.
  method FinishByWord(p: Params, state: array<bv64>, text: Text) returns (hash: seq<Byte>)
    requires state.Length == 25
    modifies state
    ensures var v := Keccak.KeccakF(WithText(old(state[..]), text));
            hash == p.extra(ByByte(v), Keccak.StateBytes(v))
  {
    hide WithText, Keccak.KeccakF, Keccak.StateBytes, ByByte;
    StoreText(state, text);
    Keccak.KeccakFInPlace(state);
    SameFinalizer(state[..]);
    hash := p.extra((state[0] & 3) as bv2, Keccak.StateBytes(state[..]));
  }

  // VARIANT1_PORTABLE_INIT: eight state bytes with the nonce bytes added one by one.
  method TweakBytes(state: array<bv64>, data: seq<Byte>) returns (tweak: bv64)
    requires state.Length == 25 && |data| >= 43
    ensures tweak == Xor64(state[24], NonceWord(data))
  {
    hide Word64, ByteAt, XorByte, Xor64;
    var bytes := Bytes64(state[24]);
    var nonce := data[35..43];
    for i := 0 to 8
      invariant |bytes| == 8
      invariant forall k :: 0 <= k < i ==> bytes[k] == XorByte(Bytes64(state[24])[k], nonce[k])
      invariant forall k :: i <= k < 8 ==> bytes[k] == Bytes64(state[24])[k]
    {
      bytes := bytes[i := XorByte(bytes[i], nonce[i])];
    }
    tweak := Word64(bytes);
    BytesOfWord(nonce);
    XorBytes64(state[24], Word64(nonce), bytes);
  }

  // ----- cn_slow_hash -----

  // The builds of cn_slow_hash: the fallback, x86 with and without AES instructions, and the two ARM ones.
  datatype Platform = Portable | X86Soft | X86Hard | ArmCrypto | ArmPlain

  function EngineOf(platform: Platform): Engine {
    match platform
    case X86Hard => AesNi
    case ArmCrypto => ArmV8
    case _ => Tables
  }

  function RoundOf(platform: Platform): Round {
    match platform
    case X86Hard => AesBlock
    case ArmCrypto => ArmBlock
    case _ => TableBlock
  }

  lemma RoundOfIsAes(platform: Platform, x: Block, k: Block)
    ensures RoundOf(platform)(x, k) == AesBlock(x, k)
  {
    hide AesBlock, TableBlock, ArmBlock;
    RoundsAgree(x, k);
  }

  // Step 3 on each platform.
  method MixOn(platform: Platform, mem: array<Block>, p: Params, variant: int, tweak: bv64, a0: Block, b0: Block)
    requires p.Valid() && mem.Length == 8 * p.rows
    requires platform == ArmPlain ==> p.mask < 0x1000_0000
    modifies mem
    ensures mem[..] == Run(AesBlock, p.mask, variant, tweak, p.iterations, Mix(old(mem[..]), a0, b0)).mem
  {
    hide Run, AesBlock, TableBlock, ArmBlock;
    var aes := RoundOf(platform);
    var a, b;
    if platform == Portable {
      a, b := PortableLoop(mem, p.mask, aes, variant, tweak, p.iterations, a0, b0);
    } else if platform == ArmPlain {
      a, b := ArmLoop(mem, p.mask, aes, variant, tweak, p.iterations, a0, b0);
    } else {
      a, b := X86Loop(mem, p.mask, aes, variant, tweak, p.iterations, a0, b0);
    }
    forall x, k
      ensures aes(x, k) == AesBlock(x, k)
    {
      RoundOfIsAes(platform, x, k);
    }
    RunCongruence(aes, AesBlock, p.mask, variant, tweak, p.iterations, Mix(old(mem[..]), a0, b0));
  }

  // The tweak of variant 1: byte by byte in the fallback, as one word in the others.
  method VariantTweak(platform: Platform, state: array<bv64>, data: seq<Byte>) returns (tweak: bv64)
    requires state.Length == 25 && |data| >= 43
    ensures tweak == Xor64(state[24], NonceWord(data))
  {
    if platform == Portable {
      tweak := TweakBytes(state, data);
    } else {
      tweak := Xor64(state[24], NonceWord(data));
    }
  }

  // Steps 2 to 4: filling, mixing and folding back.
  method Scramble(platform: Platform, p: Params, state: array<bv64>, variant: int, tweak: bv64) returns (text: Text)
    requires p.Valid() && (platform == ArmPlain ==> p.mask < 0x1000_0000)
    requires state.Length == 25
    ensures text == Folded(ExpandedBlocks(StateCell(state[..], 2), StateCell(state[..], 3)), InitText(state[..]),
                           Mixed(p, state[..], tweak, variant).mem, p.rows)
  {
    hide StateCell, InitText, StartBlockA, StartBlockB, Run, Filled, Folded, ExpandedBlocks, Covers;
    ghost var w := state[..];
    var mem := new Block[8 * p.rows];
    var exp := ExpandedBytes(EngineOf(platform), StateCell(state[..], 0), StateCell(state[..], 1));
    Explode(EngineOf(platform), exp, InitText(state[..]), mem);
    MixOn(platform, mem, p, variant, tweak, StartBlockA(state[..]), StartBlockB(state[..]));
    assert mem[..] == Mixed(p, w, tweak, variant).mem;
    exp := ExpandedBytes(EngineOf(platform), StateCell(state[..], 2), StateCell(state[..], 3));
    text := Implode(EngineOf(platform), exp, InitText(state[..]), mem);
  }

  method CnSlowHash(platform: Platform, p: Params, data: seq<Byte>, variant: int, prehashed: bool)
    returns (hash: Option<seq<Byte>>)
    requires p.Valid() && (platform == ArmPlain ==> p.mask < 0x1000_0000)
    requires prehashed ==> |data| == 200
    ensures hash == SlowHash(p, data, variant, prehashed)
  {
    hide Initial, StateCell, InitText, WithText, Mixed, Folded, ExpandedBlocks, NonceWord, Covers;
    hide Keccak.KeccakF, Keccak.StateBytes;
    var state := FirstState(data, prehashed);
    var tweak := 0;
    if variant > 0 {
      if |data| < 43 {
        return None;
      }
      tweak := VariantTweak(platform, state, data);
    }
    var text := Scramble(platform, p, state, variant, tweak);
    var h := FinishByByte(p, state, text);
    hash := Some(h);
  }

  // ----- monero_standard and monero_cpu_fast -----

  // monero_standard: the variant follows the major version, the first byte.
  function VariantOf(majorVersion: Byte): int {
    if majorVersion >= 7 then majorVersion as int - 6 else 0
  }

  method MoneroStandard(platform: Platform, p: Params, data: seq<Byte>) returns (hash: Option<seq<Byte>>)
    requires p.Valid() && (platform == ArmPlain ==> p.mask < 0x1000_0000)
    requires |data| != 0 && data[0] <= 127
    ensures hash == SlowHash(p, data, VariantOf(data[0]), false)
  {
    hash := CnSlowHash(platform, p, data, VariantOf(data[0]), false);
  }

  method MoneroCpuFast(p: Params, blob: seq<Byte>) returns (hash: seq<Byte>)
    requires p.Valid() && 76 <= |blob| <= 80 && blob[0] == 7
    ensures Some(hash) == SlowHash(p, blob, 1, false)
  {
    hide Absorbed, InitText, WithText, Run, Filled, Folded, ExpandedBlocks, NonceWord;
    hide Keccak.KeccakF, Keccak.StateBytes, Covers, AesBlock;
    var state := HashProcess(blob);
    var tweak := Xor64(state[24], NonceWord(blob));
    var memory := new Block[8 * p.rows];
    ExplodeScalar(StateCell(state[..], 0), StateCell(state[..], 1), InitText(state[..]), memory);
    var al, ah := Xor64(state[0], state[4]), Xor64(state[1], state[5]);
    var bx := Block(Xor64(state[2], state[6]), Xor64(state[3], state[7]));
    var a, b := ScalarLoop(memory, p.mask, AesBlock, tweak, p.iterations, Block(al, ah), bx);
    var text := ImplodeScalar(memory, StateCell(state[..], 2), StateCell(state[..], 3), InitText(state[..]));
    hash := FinishByWord(p, state, text);
  }

  // For every blob the fast form accepts, it returns what monero_standard returns on any platform.
  method FastAgreesWithStandard(platform: Platform, p: Params, blob: seq<Byte>)
    returns (fast: seq<Byte>, standard: Option<seq<Byte>>)
    requires p.Valid() && (platform == ArmPlain ==> p.mask < 0x1000_0000)
    requires 76 <= |blob| <= 80 && blob[0] == 7
    ensures standard == Some(fast) == SlowHash(p, blob, 1, false)
  {
    hide SlowHash;
    fast := MoneroCpuFast(p, blob);
    standard := MoneroStandard(platform, p, blob);
  }

  // With the memory size and iteration count of the source, on all five platforms.
  method MoneroAgrees(platform: Platform, extra: Finalizers, blob: seq<Byte>)
    returns (fast: seq<Byte>, standard: Option<seq<Byte>>)
    requires 76 <= |blob| <= 80 && blob[0] == 7
    ensures standard == Some(fast) == SlowHash(MoneroParams(extra), blob, 1, false)
  {
    hide SlowHash, MoneroParams;
    fast, standard := FastAgreesWithStandard(platform, MoneroParams(extra), blob);
  }
}
