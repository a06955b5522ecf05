/**
 Filling the scratchpad from eight blocks and folding it back into them. The blockwise loops of
 slow-hash.c and the eight-lane loops of monero.cpp are proved to compute the same two functions.
 */
module Scratchpad {
  import opened Words
  import opened Words32
  import opened Aes
  import opened AesFast
  import opened AesKeys

  // INIT_SIZE_BLK blocks.
  type Text = t: seq<Block> | |t| == 8 witness seq(8, i => Block(0, 0))

  // ----- blocks as AES states -----

  function BlockState(b: Block): State {
    BlockBytes(b)
  }

  function StateBlock(s: State): Block {
    BytesBlock(s)
  }

  function AesBlock(x: Block, k: Block): Block {
    StateBlock(AesRound(BlockState(x), BlockState(k)))
  }

  // aesb_single_round
  function TableBlock(x: Block, k: Block): Block {
    StateBlock(StateOf(TableRound(Columns(BlockState(x)), Columns(BlockState(k)))))
  }

  // vaeseq_u8 with a zero key, vaesmcq_u8, veorq_u8
  function ArmBlock(x: Block, k: Block): Block {
    StateBlock(ArmRound(BlockState(x), BlockState(k)))
  }

  // The three rounds that are plugged into the mixing loop are one function.
  lemma RoundsAgree(x: Block, k: Block)
    ensures TableBlock(x, k) == AesBlock(x, k) == ArmBlock(x, k)
  {
    hide TableRound, Columns, StateOf, AesRound, ArmRound, BlockState, StateBlock;
    TableRoundIsAesRound(BlockState(x), BlockState(k));
    StateOfColumns(AesRound(BlockState(x), BlockState(k)));
    ArmRoundIsAesRound(BlockState(x), BlockState(k));
  }

  // The ten rounds on one block.
  function PseudoBlock(exp: seq<Byte>, x: Block): Block
    requires |exp| >= 160
  {
    StateBlock(PseudoRounds(BlockState(x), exp, 10))
  }

  // ----- filling -----

  // The text after `n` encryptions.
  function TextAfter(exp: seq<Byte>, init: Text, n: nat): Text
    requires |exp| >= 160
  {
    if n == 0 then init
    else
      var t := TextAfter(exp, init, n - 1);
      seq(8, j requires 0 <= j < 8 => PseudoBlock(exp, t[j]))
  }

  // Row i of the scratchpad is the text after i + 1 encryptions.
  function Filled(exp: seq<Byte>, init: Text, rows: nat): (mem: seq<Block>)
    requires |exp| >= 160
    ensures |mem| == 8 * rows
  {
    seq(8 * rows, k requires 0 <= k < 8 * rows => TextAfter(exp, init, k / 8 + 1)[k % 8])
  }

  ghost predicate RowsFilled(exp: seq<Byte>, init: Text, mem: seq<Block>, rows: nat)
    requires |exp| >= 160
  {
    8 * rows <= |mem| && forall i :: 0 <= i < rows ==> RowFilled(exp, init, mem, i)
  }

  ghost predicate RowFilled(exp: seq<Byte>, init: Text, mem: seq<Block>, i: nat)
    requires |exp| >= 160 && 8 * i + 8 <= |mem|
  {
    mem[8 * i..8 * i + 8] == TextAfter(exp, init, i + 1)
  }

  lemma AllRowsFilled(exp: seq<Byte>, init: Text, mem: seq<Block>, rows: nat)
    requires |exp| >= 160 && |mem| == 8 * rows && RowsFilled(exp, init, mem, rows)
    ensures mem == Filled(exp, init, rows)
  {
    hide TextAfter;
    forall k | 0 <= k < |mem|
      ensures mem[k] == Filled(exp, init, rows)[k]
    {
      assert RowFilled(exp, init, mem, k / 8);
      assert mem[k] == mem[8 * (k / 8)..8 * (k / 8) + 8][k % 8];
    }
  }

  lemma NextRowFilled(exp: seq<Byte>, init: Text, before: seq<Block>, after: seq<Block>, i: nat)
    requires |exp| >= 160 && RowsFilled(exp, init, before, i)
    requires |after| == |before| >= 8 * i + 8 && after[..8 * i] == before[..8 * i]
    requires after[8 * i..8 * i + 8] == TextAfter(exp, init, i + 1)
    ensures RowsFilled(exp, init, after, i + 1)
  {
    hide TextAfter;
    forall r | 0 <= r < i + 1
      ensures RowFilled(exp, init, after, r)
    {
      if r < i {
        assert RowFilled(exp, init, before, r);
        assert after[8 * r..8 * r + 8] == after[..8 * i][8 * r..8 * r + 8];
        assert before[8 * r..8 * r + 8] == before[..8 * i][8 * r..8 * r + 8];
      }
    }
  }

  // memcpy of the text over one row.
  method StoreRow(mem: array<Block>, i: nat, text: seq<Block>)
    requires |text| == 8 && 8 * i + 8 <= mem.Length
    modifies mem
    ensures mem[..8 * i] == old(mem[..8 * i]) && mem[8 * i..8 * i + 8] == text
    ensures mem[8 * i + 8..] == old(mem[8 * i + 8..])
  {
    for j := 0 to 8
      invariant forall k :: 0 <= k < mem.Length && !(8 * i <= k < 8 * i + j) ==> mem[k] == old(mem[k])
      invariant forall k :: 8 * i <= k < 8 * i + j ==> mem[k] == text[k - 8 * i]
    {
      mem[8 * i + j] := text[j];
    }
  }

  // How one block goes through ten rounds: by tables, with aesenc, or with aese and aesmc.
  datatype Engine = Tables | AesNi | ArmV8

  // aesb_pseudo_round, and one turn of the two aes_pseudo_round loops.
  function PseudoRound(e: Engine, exp: seq<Byte>, x: Block): Block
    requires |exp| >= 160
  {
    match e
    case Tables => StateBlock(StateOf(TablePseudoRounds(Columns(BlockState(x)), exp, 10)))
    case AesNi => StateBlock(PseudoRounds(BlockState(x), exp, 10))
    case ArmV8 => StateBlock(AddRoundKey(ArmRounds(BlockState(x), ZeroKey(), exp, 9), RoundKey(exp, 9)))
  }

  // The same with a block added first; the ARM code gives it to aese as the first key.
  function PseudoRoundXor(e: Engine, exp: seq<Byte>, x: Block, y: Block): Block
    requires |exp| >= 160
  {
    match e
    case Tables => StateBlock(StateOf(TablePseudoRounds(Columns(BlockState(XorBlock(x, y))), exp, 10)))
    case AesNi => StateBlock(PseudoRounds(BlockState(XorBlock(x, y)), exp, 10))
    case ArmV8 => StateBlock(AddRoundKey(ArmRounds(BlockState(x), BlockState(y), exp, 9), RoundKey(exp, 9)))
  }

  lemma PseudoRoundAgrees(e: Engine, exp: seq<Byte>, x: Block)
    requires |exp| >= 160
    ensures PseudoRound(e, exp, x) == PseudoBlock(exp, x)
  {
    hide Columns, StateOf, AddRoundKey, RoundKey, BlockState, StateBlock, PseudoRounds, TablePseudoRounds, ArmRounds;
    TablePseudoRoundsAgree(BlockState(x), exp, 10);
    ArmRoundsAgree(BlockState(x), ZeroKey(), exp, 9);
    AddZeroKey(BlockState(x));
  }

  lemma PseudoRoundXorAgrees(e: Engine, exp: seq<Byte>, x: Block, y: Block)
    requires |exp| >= 160
    ensures PseudoRoundXor(e, exp, x, y) == PseudoBlock(exp, XorBlock(x, y))
  {
    hide Columns, StateOf, AddRoundKey, RoundKey, BlockState, StateBlock, XorBlock, PseudoRounds, TablePseudoRounds,
        ArmRounds;
    TablePseudoRoundsAgree(BlockState(XorBlock(x, y)), exp, 10);
    ArmRoundsAgree(BlockState(x), BlockState(y), exp, 9);
    AddBlockState(x, y);
  }

  lemma AddBlockState(x: Block, y: Block)
    ensures AddRoundKey(BlockState(x), BlockState(y)) == BlockState(XorBlock(x, y))
  {
    hide XorByte, BytesBlock, XorBlock, BlockBytes;
    var r := AddRoundKey(BlockState(x), BlockState(y));
    XorBytesBlock(x, y, r);
    BytesOfBlock(r);
  }

  // Step 2 of cn_slow_hash.
  method Explode(e: Engine, exp: seq<Byte>, init: Text, mem: array<Block>)
    requires |exp| >= 160 && mem.Length % 8 == 0
    modifies mem
    ensures mem[..] == Filled(exp, init, mem.Length / 8)
  {
    hide TextAfter, PseudoRound, PseudoBlock;
    var text := init;
    assert init == TextAfter(exp, init, 0) by { FirstText(exp, init); }
    for i := 0 to mem.Length / 8
      invariant text == TextAfter(exp, init, i)
      invariant RowsFilled(exp, init, mem[..], i)
    {
      text := EncryptText(e, exp, text);
      NextText(exp, init, i);
      ghost var before := mem[..];
      StoreRow(mem, i, text);
      NextRowFilled(exp, init, before, mem[..], i);
    }
    AllRowsFilled(exp, init, mem[..], mem.Length / 8);
  }

  lemma FirstText(exp: seq<Byte>, init: Text)
    requires |exp| >= 160
    ensures TextAfter(exp, init, 0) == init
  {
  }

  lemma NextText(exp: seq<Byte>, init: Text, n: nat)
    requires |exp| >= 160
    ensures TextAfter(exp, init, n + 1) == seq(8, j requires 0 <= j < 8 => PseudoBlock(exp, TextAfter(exp, init, n)[j]))
  {
    hide PseudoBlock;
  }

  // aes_pseudo_round, for any number of blocks.
  method EncryptText(e: Engine, exp: seq<Byte>, t: seq<Block>) returns (u: seq<Block>)
    requires |exp| >= 160
    ensures u == seq(|t|, j requires 0 <= j < |t| => PseudoBlock(exp, t[j]))
  {
    hide PseudoRound, PseudoBlock;
    u := t;
    for j := 0 to |t|
      invariant |u| == |t|
      invariant forall k :: 0 <= k < j ==> u[k] == PseudoBlock(exp, t[k])
      invariant forall k :: j <= k < |t| ==> u[k] == t[k]
    {
      PseudoRoundAgrees(e, exp, u[j]);
      u := u[j := PseudoRound(e, exp, u[j])];
    }
  }

  // ----- folding -----

  // The text after the first `n` rows have been added and encrypted.
  function Folded(exp: seq<Byte>, init: Text, mem: seq<Block>, n: nat): Text
    requires |exp| >= 160 && 8 * n <= |mem|
  {
    if n == 0 then init
    else
      var t := Folded(exp, init, mem, n - 1);
      seq(8, j requires 0 <= j < 8 => PseudoBlock(exp, XorBlock(t[j], mem[8 * (n - 1) + j])))
  }

  lemma NextFold(exp: seq<Byte>, init: Text, mem: seq<Block>, n: nat)
    requires |exp| >= 160 && 8 * (n + 1) <= |mem|
    ensures Folded(exp, init, mem, n + 1)
         == seq(8, j requires 0 <= j < 8 => PseudoBlock(exp, XorBlock(Folded(exp, init, mem, n)[j], mem[8 * n + j])))
  {
    hide PseudoBlock, XorBlock;
  }

  lemma FirstFold(exp: seq<Byte>, init: Text, mem: seq<Block>)
    requires |exp| >= 160
    ensures Folded(exp, init, mem, 0) == init
  {
  }

  // Step 4 of cn_slow_hash.
  method Implode(e: Engine, exp: seq<Byte>, init: Text, mem: array<Block>) returns (text: Text)
    requires |exp| >= 160 && mem.Length % 8 == 0
    ensures text == Folded(exp, init, mem[..], mem.Length / 8)
  {
    hide Folded, PseudoBlock, XorBlock;
    text := init;
    FirstFold(exp, init, mem[..]);
    for i := 0 to mem.Length / 8
      invariant text == Folded(exp, init, mem[..], i)
    {
      text := FoldText(e, exp, text, mem[8 * i..8 * i + 8]);
      NextFold(exp, init, mem[..], i);
    }
  }

  // xor_blocks and aesb_pseudo_round for each block, or aes_pseudo_round_xor, for any number of blocks.
  method FoldText(e: Engine, exp: seq<Byte>, t: seq<Block>, row: seq<Block>) returns (u: seq<Block>)
    requires |exp| >= 160 && |row| == |t|
    ensures u == seq(|t|, j requires 0 <= j < |t| => PseudoBlock(exp, XorBlock(t[j], row[j])))
  {
    hide PseudoRoundXor, PseudoBlock, XorBlock;
    u := t;
    for j := 0 to |t|
      invariant |u| == |t|
      invariant forall k :: 0 <= k < j ==> u[k] == PseudoBlock(exp, XorBlock(t[k], row[k]))
      invariant forall k :: j <= k < |t| ==> u[k] == t[k]
    {
      PseudoRoundXorAgrees(e, exp, u[j], row[j]);
      u := u[j := PseudoRoundXor(e, exp, u[j], row[j])];
    }
  }

  // ----- eight lanes at once -----

  // aes_round
  function AllLanes(key: Block, x: Text): Text {
    seq(8, j requires 0 <= j < 8 => AesBlock(x[j], key))
  }

  // aes_round with the first `n` keys.
  function LaneRounds(k: seq<Block>, x: Text, n: nat): Text
    requires n <= |k|
    decreases n, x
  {
    if n == 0 then x else AllLanes(k[n - 1], LaneRounds(k, x, n - 1))
  }

  // The registers hold the round keys of an expanded key.
  ghost predicate KeysOf(k: seq<Block>, exp: seq<Byte>) {
    16 * |k| <= |exp| && forall n :: 0 <= n < |k| ==> BlockState(k[n]) == RoundKey(exp, n)
  }

  lemma {:induction false} LaneRoundsAgree(k: seq<Block>, exp: seq<Byte>, x: Text, n: nat, j: nat)
    requires KeysOf(k, exp) && n <= |k| && j < 8
    ensures LaneRounds(k, x, n)[j] == StateBlock(PseudoRounds(BlockState(x[j]), exp, n))
  {
    hide AesRound, RoundKey, BlockState, StateBlock;
    if n == 0 {
      BlockStateBack(x[j]);
    } else {
      LaneRoundsAgree(k, exp, x, n - 1, j);
      StateBlockBack(PseudoRounds(BlockState(x[j]), exp, n - 1));
    }
  }

  lemma StateBlockBack(s: State)
    ensures BlockState(StateBlock(s)) == s
  {
    BytesOfBlock(s);
  }

  lemma BlockStateBack(b: Block)
    ensures StateBlock(BlockState(b)) == b
  {
    BlockOfBytes(b);
  }

  lemma TenLaneRounds(k: seq<Block>, exp: seq<Byte>, x: Text)
    requires KeysOf(k, exp) && |k| == 10
    ensures LaneRounds(k, x, 10) == seq(8, j requires 0 <= j < 8 => PseudoBlock(exp, x[j]))
  {
    hide LaneRounds, StateBlock, BlockState, PseudoRounds;
    forall j | 0 <= j < 8
      ensures LaneRounds(k, x, 10)[j] == PseudoBlock(exp, x[j])
    {
      LaneRoundsAgree(k, exp, x, 10, j);
    }
  }

  // The first ten round keys of the expansion of two key blocks.
  function ExpandedBlocks(key0: Block, key1: Block): (exp: seq<Byte>)
    ensures |exp| == 160
  {
    ExpandedKey(Columns(BlockState(key0)) + Columns(BlockState(key1)))[..160]
  }

  lemma PrefixRoundKey(exp: seq<Byte>, k: nat, n: nat)
    requires 16 * (n + 1) <= k <= |exp|
    ensures RoundKey(exp[..k], n) == RoundKey(exp, n)
  {
  }

  // A register of 32-bit lanes as a block.
  function LanesBlock(x: Lanes): Block {
    StateBlock(StateOf(x))
  }

  method RegisterKeys(key0: Block, key1: Block) returns (k: seq<Block>)
    ensures |k| == 10 && KeysOf(k, ExpandedBlocks(key0, key1))
  {
    hide Columns, StateOf, BlockState, StateBlock, RoundKey, KeyWord;
    var lanes := ExpandScalar(Columns(BlockState(key0)), Columns(BlockState(key1)));
    ghost var key := Columns(BlockState(key0)) + Columns(BlockState(key1));
    k := seq(10, n requires 0 <= n < 10 => LanesBlock(lanes[n]));
    forall n | 0 <= n < 10
      ensures BlockState(k[n]) == RoundKey(ExpandedBlocks(key0, key1), n)
    {
      StateBlockBack(StateOf(lanes[n]));
      RoundKeyState(key, n);
      PrefixRoundKey(ExpandedKey(key), 160, n);
    }
  }

  // The expanded key in memory: the byte loop of oaes_lib.c for the table code, the x86 or ARM registers otherwise.
  method ExpandedBytes(e: Engine, key0: Block, key1: Block) returns (exp: seq<Byte>)
    ensures exp == ExpandedBlocks(key0, key1)
  {
    hide Columns, StateOf, RoundKey, KeyWord, ExpandedKey, BlockBytes;
    ghost var key := Columns(BlockState(key0)) + Columns(BlockState(key1));
    if e == Tables {
      var data := new Byte[32];
      var bytes := BlockState(key0) + BlockState(key1);
      for i := 0 to 32
        invariant forall k :: 0 <= k < i ==> data[k] == bytes[k]
      {
        data[i] := bytes[i];
      }
      assert data[..] == bytes;
      KeyColumnsOfBlocks(BlockState(key0), BlockState(key1));
      var expData := KeyExpand(data);
      exp := expData[..160];
    } else {
      var ek;
      if e == AesNi {
        ek := ExpandX86(Columns(BlockState(key0)), Columns(BlockState(key1)));
      } else {
        ek := ExpandArm(Columns(BlockState(key0)), Columns(BlockState(key1)));
      }
      exp := seq(160, i requires 0 <= i < 160 => StateOf(ek[i / 16])[i % 16]);
      RegisterBytes(ek, key, exp);
    }
  }

  lemma TailAt(k0: State, k1: State, i: nat)
    requires i < 16
    ensures (k0 + k1)[16 + i] == k1[i]
  {
  }

  lemma KeyColumnAt(k: seq<Byte>, j: nat)
    requires |k| == 32 && j < 8
    ensures KeyColumns(k)[j] == LittleWord(k[4 * j], k[4 * j + 1], k[4 * j + 2], k[4 * j + 3])
  {
    hide LittleWord;
  }

  lemma ColumnOf(k: State, c: nat)
    requires c < 4
    ensures Columns(k)[c] == LittleWord(k[4 * c], k[4 * c + 1], k[4 * c + 2], k[4 * c + 3])
  {
    hide LittleWord;
  }

  lemma SecondKeyColumn(k0: State, k1: State, c: nat)
    requires c < 4
    ensures |k0 + k1| == 32 && KeyColumns(k0 + k1)[4 + c] == Columns(k1)[c]
  {
    hide *;
    KeyColumnAt(k0 + k1, 4 + c);
    ColumnOf(k1, c);
    TailAt(k0, k1, 4 * c);
    TailAt(k0, k1, 4 * c + 1);
    TailAt(k0, k1, 4 * c + 2);
    TailAt(k0, k1, 4 * c + 3);
  }

  lemma HeadAt(k0: State, k1: State, i: nat)
    requires i < 16
    ensures (k0 + k1)[i] == k0[i]
  {
  }

  lemma FirstKeyColumn(k0: State, k1: State, c: nat)
    requires c < 4
    ensures |k0 + k1| == 32 && KeyColumns(k0 + k1)[c] == Columns(k0)[c]
  {
    hide *;
    KeyColumnAt(k0 + k1, c);
    ColumnOf(k0, c);
    HeadAt(k0, k1, 4 * c);
    HeadAt(k0, k1, 4 * c + 1);
    HeadAt(k0, k1, 4 * c + 2);
    HeadAt(k0, k1, 4 * c + 3);
  }

  lemma KeyColumnsOfBlocks(k0: State, k1: State)
    ensures KeyColumns(k0 + k1) == Columns(k0) + Columns(k1)
  {
    hide *;
    forall j | 0 <= j < 8
      ensures KeyColumns(k0 + k1)[j] == (Columns(k0) + Columns(k1))[j]
    {
      if j < 4 {
        FirstKeyColumn(k0, k1, j);
      } else {
        SecondKeyColumn(k0, k1, j - 4);
      }
    }
  }

  lemma RegisterBytes(ek: seq<Lanes>, key: seq<bv32>, exp: seq<Byte>)
    requires |key| == 8 && |ek| == 11 && RoundKeys(ek, key)
    requires |exp| == 160 && forall i :: 0 <= i < 160 ==> exp[i] == StateOf(ek[i / 16])[i % 16]
    ensures exp == ExpandedKey(key)[..160]
  {
    hide StateOf, KeyWord, ExpandedKey;
    forall i | 0 <= i < 160
      ensures exp[i] == ExpandedKey(key)[i]
    {
      RoundKeyState(key, i / 16);
      assert RoundKey(ExpandedKey(key), i / 16)[i % 16] == ExpandedKey(key)[16 * (i / 16) + i % 16];
    }
  }

  // cn_explode_scratchpad
  method ExplodeScalar(key0: Block, key1: Block, init: Text, output: array<Block>)
    requires output.Length % 8 == 0
    modifies output
    ensures output[..] == Filled(ExpandedBlocks(key0, key1), init, output.Length / 8)
  {
    hide TextAfter, LaneRounds, PseudoBlock, ExpandedBlocks, BlockState;
    var k := RegisterKeys(key0, key1);
    ghost var exp := ExpandedBlocks(key0, key1);
    var xin := init;
    FirstText(exp, init);
    var i := 0;
    while i < output.Length
      invariant i % 8 == 0 && 0 <= i <= output.Length
      invariant xin == TextAfter(exp, init, i / 8)
      invariant RowsFilled(exp, init, output[..], i / 8)
    {
      TenLaneRounds(k, exp, xin);
      NextText(exp, init, i / 8);
      xin := LaneRounds(k, xin, 10);
      ghost var before := output[..];
      StoreRow(output, i / 8, xin);
      NextRowFilled(exp, init, before, output[..], i / 8);
      i := i + 8;
    }
    AllRowsFilled(exp, init, output[..], output.Length / 8);
  }

  // cn_implode_scratchpad
  method ImplodeScalar(input: array<Block>, key0: Block, key1: Block, init: Text) returns (xout: Text)
    requires input.Length % 8 == 0
    ensures xout == Folded(ExpandedBlocks(key0, key1), init, input[..], input.Length / 8)
  {
    hide Folded, LaneRounds, PseudoBlock, XorBlock, ExpandedBlocks, BlockState;
    var k := RegisterKeys(key0, key1);
    ghost var exp := ExpandedBlocks(key0, key1);
    xout := init;
    FirstFold(exp, init, input[..]);
    var i := 0;
    while i < input.Length
      invariant i % 8 == 0 && 0 <= i <= input.Length
      invariant xout == Folded(exp, init, input[..], i / 8)
    {
      NextFold(exp, init, input[..], i / 8);
      var x: Text := seq(8, j requires 0 <= j < 8 reads input => XorBlock(input[i + j], xout[j]));
      TenLaneRounds(k, exp, x);
      LoadedRow(xout, input[8 * (i / 8)..8 * (i / 8) + 8], x);
      xout := LaneRounds(k, x, 10);
      i := i + 8;
    }
  }

  lemma LoadedRow(t: Text, row: seq<Block>, x: Text)
    requires |row| == 8 && forall j :: 0 <= j < 8 ==> x[j] == XorBlock(row[j], t[j])
    ensures forall j :: 0 <= j < 8 ==> x[j] == XorBlock(t[j], row[j])
  {
    hide XorBlock;
    forall j | 0 <= j < 8
      ensures x[j] == XorBlock(t[j], row[j])
    {
      XorBlockCommutes(row[j], t[j]);
    }
  }
}
