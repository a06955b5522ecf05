/**
 oaes_encrypt and oaes_decrypt on whole messages: a header, the initialisation vector, and the
 padded data in ECB or CBC mode. Decryption returns the message exactly when one mode is set, and
 oaes_alloc and oaes_set_option keep it so through any sequence of calls.
 */
module OaesMessage {
  import opened Words
  import opened Aes
  import opened Oaes

  datatype Ret = Success | ErrArg2 | ErrArg3 | ErrNoKey | ErrBuf | ErrHeader

  // An expanded key.
  datatype Key = Key(exp: seq<Byte>, numKeys: nat) {
    predicate Valid() {
      numKeys >= 2 && |exp| >= 16 * numKeys
    }
  }

  const OPTION_ECB: bv16 := 1
  const OPTION_CBC: bv16 := 2
  const FLAG_PAD: Byte := 1

  // ----- what a message is encrypted to -----

  function PadLength(n: nat): (p: nat)
    ensures p < 16 && (n + p) % 16 == 0
  {
    if n % 16 == 0 then 0 else 16 - n % 16
  }

  // The bytes 1, 2, ..., n.
  function Pad(n: nat): (p: seq<Byte>)
    requires n < 16
    ensures |p| == n
  {
    if n == 0 then [] else Pad(n - 1) + [n as Byte]
  }

  function Flags(n: nat): Byte {
    if PadLength(n) != 0 then FLAG_PAD else 0
  }

  function Header(options: bv16, flags: Byte): (h: seq<Byte>)
    ensures |h| == 16
  {
    [0x4f, 0x41, 0x45, 0x53, 0x01, 0x02, (options & 0xFF) as Byte, (options >> 8) as Byte, flags] + seq(7, i => 0)
  }

  predicate Chained(options: bv16) {
    options & OPTION_CBC != 0
  }

  // Blocks of 16 bytes, each added to the previous cipher block in CBC mode.
  function EncryptChain(key: Key, chained: bool, iv: State, data: seq<Byte>): (c: seq<Byte>)
    requires key.Valid() && |data| % 16 == 0
    ensures |c| == |data|
    decreases |data|
  {
    if data == [] then []
    else
      var x := if chained then AddRoundKey(data[..16], iv) else data[..16];
      var y := EncryptBlock(x, key.exp, key.numKeys);
      y + EncryptChain(key, chained, if chained then y else iv, data[16..])
  }

  function DecryptChain(key: Key, chained: bool, iv: State, data: seq<Byte>): (m: seq<Byte>)
    requires key.Valid() && |data| % 16 == 0
    ensures |m| == |data|
    decreases |data|
  {
    if data == [] then []
    else
      var x := DecryptBlock(data[..16], key.exp, key.numKeys);
      (if chained then AddRoundKey(x, iv) else x) + DecryptChain(key, chained, data[..16], data[16..])
  }

  function Encrypted(key: Key, options: bv16, iv: State, m: seq<Byte>): (c: seq<Byte>)
    requires key.Valid()
  {
    Header(options, Flags(|m|)) + iv + EncryptChain(key, Chained(options), iv, m + Pad(PadLength(|m|)))
  }

  // The vector left in the context: the last cipher block in CBC mode.
  function LastIv(chained: bool, iv: State, c: seq<Byte>): State
    requires |c| % 16 == 0
  {
    if chained && |c| > 0 then c[|c| - 16..] else iv
  }

  // ----- what a cipher text is decrypted to -----

  function Options(c: seq<Byte>): bv16
    requires |c| >= 32
  {
    (c[6] as bv16) | ((c[7] as bv16) << 8)
  }

  predicate HeaderAccepted(c: seq<Byte>)
    requires |c| >= 32
  {
    && c[..6] == [0x4f, 0x41, 0x45, 0x53, 0x01, 0x02]
    && (Options(c) == OPTION_ECB || Options(c) == OPTION_CBC)
    && c[8] & !FLAG_PAD == 0
  }

  // The last bytes of `m` are 1, 2, ..., n with n the last byte, and 0 < n < 16.
  predicate PadAccepted(m: seq<Byte>)
    requires |m| >= 16
  {
    var n := PadCount(m);
    0 < n <= 0x0f && forall i :: |m| - n <= i < |m| ==> m[i] as nat == i - (|m| - n) + 1
  }

  // The last byte, as a number.
  function PadCount(m: seq<Byte>): nat
    requires |m| > 0
  {
    m[|m| - 1] as nat
  }

  function Decrypted(key: Key, c: seq<Byte>): Option<seq<Byte>>
    requires key.Valid() && |c| >= 32 && |c| % 16 == 0
    requires |c| == 32 ==> c[8] & FLAG_PAD == 0
  {
    if !HeaderAccepted(c) then None
    else
      var m := DecryptChain(key, Chained(Options(c)), c[16..32], c[32..]);
      if c[8] & FLAG_PAD == 0 then Some(m)
      else if PadAccepted(m) then Some(m[..|m| - PadCount(m)])
      else None
  }

  // ----- the round trip -----

  lemma {:induction false} ChainUndone(key: Key, chained: bool, iv: State, data: seq<Byte>)
    requires key.Valid() && |data| % 16 == 0
    ensures DecryptChain(key, chained, iv, EncryptChain(key, chained, iv, data)) == data
    decreases |data|
  {
    hide AddRoundKey, EncryptBlock, DecryptBlock;
    if data != [] {
      var x := if chained then AddRoundKey(data[..16], iv) else data[..16];
      var y := EncryptBlock(x, key.exp, key.numKeys);
      var rest := EncryptChain(key, chained, if chained then y else iv, data[16..]);
      assert (y + rest)[..16] == y && (y + rest)[16..] == rest;
      DecryptBlockUndoes(x, key.exp, key.numKeys);
      AddRoundKeyUndoes(data[..16], iv);
      ChainUndone(key, chained, if chained then y else iv, data[16..]);
      if !chained {
        IvIrrelevant(key, iv, y, rest);
      }
      assert data == data[..16] + data[16..];
    }
  }

  lemma IvIrrelevant(key: Key, iv: State, iv': State, data: seq<Byte>)
    requires key.Valid() && |data| % 16 == 0
    ensures DecryptChain(key, false, iv, data) == DecryptChain(key, false, iv', data)
  {
  }

  lemma {:induction false} PadBytes(n: nat)
    requires n < 16
    ensures forall i :: 0 <= i < n ==> Pad(n)[i] as nat == i + 1
  {
    if n > 0 {
      PadBytes(n - 1);
      ByteRoundTrip(n);
    }
  }

  lemma ByteRoundTrip(n: nat)
    requires n < 16
    ensures (n as Byte) as nat == n
  {
  }

  lemma HeaderOptions(options: bv16, flags: Byte)
    ensures var h := Header(options, flags);
            (h[6] as bv16) | ((h[7] as bv16) << 8) == options && h[8] == flags
  {
  }

  // The padding is recognised and removed.
  lemma PadRemoved(m: seq<Byte>)
    requires PadLength(|m|) != 0
    ensures var p := m + Pad(PadLength(|m|)); |p| >= 16 && PadAccepted(p) && p[..|p| - PadCount(p)] == m
  {
    PadBytes(PadLength(|m|));
  }

  // Header, vector and chained blocks of a cipher text.
  lemma CipherParts(key: Key, options: bv16, iv: State, m: seq<Byte>)
    requires key.Valid()
    ensures var c := Encrypted(key, options, iv, m);
            && |c| >= 32 && |c| % 16 == 0
            && c[..16] == Header(options, Flags(|m|)) && c[16..32] == iv
            && c[32..] == EncryptChain(key, Chained(options), iv, m + Pad(PadLength(|m|)))
            && (|c| == 32 <==> m == [])
  {
    hide EncryptChain, Header, Flags;
  }

  // What the decryption reads in the header of a message of `n` bytes.
  lemma HeaderSeen(c: seq<Byte>, options: bv16, n: nat)
    requires |c| >= 32 && c[..16] == Header(options, Flags(n))
    ensures Options(c) == options
    ensures c[8] & FLAG_PAD == 0 <==> PadLength(n) == 0
    ensures HeaderAccepted(c) <==> options == OPTION_ECB || options == OPTION_CBC
  {
    HeaderOptions(options, Flags(n));
    var h := Header(options, Flags(n));
    assert c[6] == c[..16][6] == h[6] && c[7] == c[..16][7] == h[7] && c[8] == c[..16][8] == h[8];
    assert c[..6] == c[..16][..6] == h[..6];
  }

  // Decryption, when the chained blocks come out as `data`.
  lemma DecryptedIs(key: Key, c: seq<Byte>, data: seq<Byte>, chained: bool, n: nat)
    requires key.Valid() && |c| >= 32 && |c| % 16 == 0 && (|c| == 32 ==> c[8] & FLAG_PAD == 0)
    requires chained == Chained(Options(c)) && DecryptChain(key, chained, c[16..32], c[32..]) == data
    requires c[8] & FLAG_PAD == 0 <==> PadLength(n) == 0
    requires PadLength(n) != 0 ==> |data| >= 16 && PadAccepted(data)
    ensures !HeaderAccepted(c) ==> Decrypted(key, c) == None
    ensures HeaderAccepted(c) && PadLength(n) == 0 ==> Decrypted(key, c) == Some(data)
    ensures HeaderAccepted(c) && PadLength(n) != 0 ==> Decrypted(key, c) == Some(data[..|data| - PadCount(data)])
  {
    hide HeaderAccepted, DecryptChain, PadAccepted, Options, PadLength, Chained;
  }

  lemma NoPad(m: seq<Byte>)
    ensures PadLength(|m|) == 0 ==> m + Pad(PadLength(|m|)) == m
  {
  }

  // Exactly one of the two modes.
  predicate OneMode(options: bv16) {
    options == OPTION_ECB || options == OPTION_CBC
  }

  // oaes_decrypt returns what oaes_encrypt was given exactly when one of the two modes is set, whatever
  // was written to the option word of the context.
  lemma RoundTrip(key: Key, options: bv16, iv: State, m: seq<Byte>)
    requires key.Valid()
    ensures var c := Encrypted(key, options, iv, m);
            && |c| >= 32 && |c| % 16 == 0 && (|c| == 32 ==> c[8] & FLAG_PAD == 0)
            && (Decrypted(key, c) == Some(m) <==> OneMode(options))
  {
    OneModeIs(options);
    hide *;
    CipherParts(key, options, iv, m);
    var c := Encrypted(key, options, iv, m);
    var data := m + Pad(PadLength(|m|));
    HeaderSeen(c, options, |m|);
    ChainUndone(key, Chained(options), iv, data);
    if PadLength(|m|) != 0 {
      PadRemoved(m);
    } else {
      NoPad(m);
    }
    DecryptedIs(key, c, data, Chained(options), |m|);
  }

  lemma OneModeIs(options: bv16)
    ensures OneMode(options) <==> options == OPTION_ECB || options == OPTION_CBC
  {
  }

  // ----- the modes of a context, over any sequence of calls -----

  // The fields that oaes_set_option and oaes_encrypt write.
  datatype Settings = Settings(options: bv16, iv: State)

  function ZeroBlock(): State {
    seq(16, i => 0)
  }

  function Without(options: bv16, mode: bv16): bv16 {
    options & !mode
  }

  function With(options: bv16, option: bv16): bv16 {
    options | option
  }

  // oaes_set_option: the new settings and the return code. `drawn` is what rand() gives.
  function SetTo(s: Settings, option: bv16, value: Option<State>, drawn: State): (Settings, Ret) {
    if option == OPTION_ECB then (Settings(With(Without(s.options, OPTION_CBC), option), ZeroBlock()), Success)
    else if option == OPTION_CBC then
      (Settings(With(Without(s.options, OPTION_ECB), option), if value.Some? then value.value else drawn), Success)
    else (s, ErrArg2)
  }

  // oaes_alloc: zeroed memory, then CBC with a random vector.
  function Fresh(drawn: State): Settings {
    SetTo(Settings(0, ZeroBlock()), OPTION_CBC, None, drawn).0
  }

  // The calls that change the settings of a context.
  datatype Call =
    | SetOption(option: bv16, value: Option<State>, drawn: State)
    | Encrypt(key: Key, m: seq<Byte>)

  predicate ValidCalls(calls: seq<Call>) {
    forall i :: 0 <= i < |calls| && calls[i].Encrypt? ==> calls[i].key.Valid()
  }

  function AfterCall(s: Settings, call: Call): Settings
    requires call.Encrypt? ==> call.key.Valid()
  {
    match call
    case SetOption(option, value, drawn) => SetTo(s, option, value, drawn).0
    case Encrypt(key, m) =>
      PaddedMultiple(|m|);
      s.(iv := LastIv(Chained(s.options), s.iv,
                      EncryptChain(key, Chained(s.options), s.iv, m + Pad(PadLength(|m|)))))
  }

  lemma PaddedMultiple(n: nat)
    ensures (n + PadLength(n)) % 16 == 0
  {
  }

  function AfterCalls(s: Settings, calls: seq<Call>): Settings
    requires ValidCalls(calls)
    decreases |calls|
  {
    if calls == [] then s else AfterCalls(AfterCall(s, calls[0]), calls[1..])
  }

  lemma SetKeepsMode(s: Settings, option: bv16, value: Option<State>, drawn: State)
    requires OneMode(s.options) || (s.options == 0 && OneMode(option))
    ensures OneMode(SetTo(s, option, value, drawn).0.options)
  {
  }

  lemma {:induction false} CallsKeepMode(s: Settings, calls: seq<Call>)
    requires OneMode(s.options) && ValidCalls(calls)
    ensures OneMode(AfterCalls(s, calls).options)
    decreases |calls|
  {
    hide OneMode, SetTo, LastIv, EncryptChain;
    if calls != [] {
      if calls[0].SetOption? {
        SetKeepsMode(s, calls[0].option, calls[0].value, calls[0].drawn);
      }
      CallsKeepMode(AfterCall(s, calls[0]), calls[1..]);
    }
  }

  // After oaes_alloc and any calls, whatever is encrypted next is decrypted again.
  lemma AlwaysRoundTrips(drawn: State, calls: seq<Call>, key: Key, m: seq<Byte>)
    requires ValidCalls(calls) && key.Valid()
    ensures var s := AfterCalls(Fresh(drawn), calls);
            var c := Encrypted(key, s.options, s.iv, m);
            && |c| >= 32 && |c| % 16 == 0 && (|c| == 32 ==> c[8] & FLAG_PAD == 0)
            && Decrypted(key, c) == Some(m)
  {
    hide AfterCalls, Encrypted, Decrypted;
    SetKeepsMode(Settings(0, ZeroBlock()), OPTION_CBC, None, drawn);
    CallsKeepMode(Fresh(drawn), calls);
    var s := AfterCalls(Fresh(drawn), calls);
    RoundTrip(key, s.options, s.iv, m);
  }

  // Without a mode, as in zeroed memory that oaes_alloc has not set up, nothing is decrypted again.
  lemma NoModeFails(key: Key, iv: State, m: seq<Byte>)
    requires key.Valid()
    ensures var c := Encrypted(key, 0, iv, m);
            && |c| >= 32 && |c| % 16 == 0 && (|c| == 32 ==> c[8] & FLAG_PAD == 0)
            && Decrypted(key, c) != Some(m)
  {
    hide Encrypted, Decrypted;
    RoundTrip(key, 0, iv, m);
  }

  // ----- the context and its operations -----

  function Padded(m: seq<Byte>): (p: seq<Byte>)
    ensures |p| % 16 == 0
  {
    m + Pad(PadLength(|m|))
  }

  // The loop over a prefix and the loop over the rest.
  lemma EncryptChainStep(key: Key, chained: bool, iv: State, data: seq<Byte>, i: nat)
    requires key.Valid() && |data| % 16 == 0 && i % 16 == 0 && i < |data|
    ensures var x := if chained then AddRoundKey(data[i..i + 16], iv) else data[i..i + 16];
            var y := EncryptBlock(x, key.exp, key.numKeys);
            EncryptChain(key, chained, iv, data[i..])
              == y + EncryptChain(key, chained, if chained then y else iv, data[i + 16..])
  {
    assert data[i..][..16] == data[i..i + 16] && data[i..][16..] == data[i + 16..];
  }

  lemma {:induction false} PadElement(n: nat, k: nat)
    requires k < n < 16
    ensures Pad(n)[k] == (k + 1) as Byte
  {
    if k < n - 1 {
      PadElement(n - 1, k);
    }
  }

  lemma PadFillsBlock(n: nat, i: nat)
    requires i % 16 == 0 && i < n
    ensures i + 16 <= n + PadLength(n)
    ensures n - i < 16 ==> PadLength(n) == 16 - (n - i)
  {
  }

  // A block that takes what is left of the message and goes on 1, 2, ... is the padded block.
  lemma PadBlock(m: seq<Byte>, i: nat, size: nat, block: seq<Byte>)
    requires i % 16 == 0 && i < |m| && size == (if |m| - i < 16 then |m| - i else 16) && |block| == 16
    requires forall k :: 0 <= k < size ==> block[k] == m[i + k]
    requires forall k :: size <= k < 16 ==> block[k] == (k - size + 1) as Byte
    ensures i + 16 <= |Padded(m)| && block == Padded(m)[i..i + 16]
  {
    hide Pad, PadLength;
    var n := PadLength(|m|);
    PadFillsBlock(|m|, i);
    forall k | 0 <= k < 16
      ensures block[k] == Padded(m)[i + k]
    {
      if k >= size {
        PadElement(n, k - size);
      }
    }
  }

  // What an encryption starts from: the buffer, the key and mode, the vector and the message.
  datatype EncryptRun = EncryptRun(buffer: seq<Byte>, key: Key, chained: bool, iv: State, m: seq<Byte>)

  ghost predicate EncryptedSoFar(r: EncryptRun, c: seq<Byte>, iv: State, i: nat) {
    && r.key.Valid() && i % 16 == 0 && i <= |Padded(r.m)| && |c| == |r.buffer| >= 32 + |Padded(r.m)|
    && |Padded(r.m)| == |r.m| + PadLength(|r.m|)
    && c[..32] == r.buffer[..32]
    && (i < |r.m| ==> c[32 + i..32 + |r.m|] == r.m[i..])
    && c[32 + |Padded(r.m)|..] == r.buffer[32 + |Padded(r.m)|..]
    && c[32..32 + i] + EncryptChain(r.key, r.chained, iv, Padded(r.m)[i..]) ==
        EncryptChain(r.key, r.chained, r.iv, Padded(r.m))
    && iv == LastIv(r.chained, r.iv, c[32..32 + i])
  }

  lemma EncryptionStarts(r: EncryptRun)
    requires r.key.Valid() && |r.buffer| >= 32 + |Padded(r.m)| && r.buffer[32..32 + |r.m|] == r.m
    ensures EncryptedSoFar(r, r.buffer, r.iv, 0)
  {
    hide EncryptChain, Padded;
    PaddedLength(r.m);
    assert Padded(r.m)[0..] == Padded(r.m) && r.buffer[32..32] == [];
    assert [] + EncryptChain(r.key, r.chained, r.iv, Padded(r.m)) == EncryptChain(r.key, r.chained, r.iv, Padded(r.m));
  }

  lemma EncryptionReads(r: EncryptRun, c: seq<Byte>, iv: State, i: nat)
    requires EncryptedSoFar(r, c, iv, i) && i < |Padded(r.m)|
    ensures i < |r.m| && |c| >= 32 + |Padded(r.m)| && 32 + |r.m| <= |c| && c[32 + i..32 + |r.m|] == r.m[i..]
  {
    hide EncryptChain, Padded;
  }

  lemma EncryptionGoesOn(r: EncryptRun, before: seq<Byte>, iv: State, after: seq<Byte>, iv': State, i: nat, y: State)
    requires EncryptedSoFar(r, before, iv, i) && i < |r.m|
    requires i + 16 <= |Padded(r.m)| && SameOutside(before, after, 32 + i) && StateAt(after, 32 + i) == y
    requires y == EncryptBlock(if r.chained then AddRoundKey(Padded(r.m)[i..i + 16], iv) else Padded(r.m)[i..i + 16],
                               r.key.exp, r.key.numKeys)
    requires iv' == if r.chained then y else iv
    ensures EncryptedSoFar(r, after, iv', i + 16)
  {
    hide EncryptChain, Padded, AddRoundKey, EncryptBlock, PadLength, StateAt;
    var data := Padded(r.m);
    EncryptChainStep(r.key, r.chained, iv, data, i);
    ChainExtended(before, after, i, y, EncryptChain(r.key, r.chained, iv, data[i..]),
                  EncryptChain(r.key, r.chained, iv', data[i + 16..]), EncryptChain(r.key, r.chained, r.iv, data));
    TailKept(before, after, i, r.m, 32 + |data|);
  }

  lemma EncryptionEnds(r: EncryptRun, c: seq<Byte>, iv: State)
    requires EncryptedSoFar(r, c, iv, |Padded(r.m)|)
    ensures c[..32] == r.buffer[..32]
    ensures c[32..32 + |Padded(r.m)|] == EncryptChain(r.key, r.chained, r.iv, Padded(r.m))
    ensures c[32 + |Padded(r.m)|..] == r.buffer[32 + |Padded(r.m)|..]
    ensures iv == LastIv(r.chained, r.iv, c[32..32 + |Padded(r.m)|])
  {
    hide Padded;
    EncryptChainEnd(r.key, r.chained, iv, Padded(r.m)[|Padded(r.m)|..]);
  }

  // One block more has been processed: the data part of `after` and the remaining chain still make the whole.
  lemma ChainExtended(before: seq<Byte>, after: seq<Byte>, i: nat, y: State, rest: seq<Byte>, rest': seq<Byte>,
                      whole: seq<Byte>)
    requires |before| >= 48 + i && SameOutside(before, after, 32 + i) && StateAt(after, 32 + i) == y
    requires before[32..32 + i] + rest == whole && rest == y + rest'
    ensures after[32..32 + i + 16] + rest' == whole
    ensures after[32..32 + i + 16][i..] == y && after[32..32 + i] == before[32..32 + i]
    ensures after[..32] == before[..32]
  {
    assert after[32..32 + i + 16] == before[32..32 + i] + y;
    assert (before[32..32 + i] + y) + rest' == before[32..32 + i] + (y + rest');
  }

  // The same bookkeeping for decryption; the vector of a block is always the cipher block before it.
  ghost predicate DecryptedSoFar(k: Key, chained: bool, c: seq<Byte>, m: seq<Byte>, i: nat) {
    && k.Valid() && |c| >= 32 && |c| % 16 == 0 && i % 16 == 0 && i <= |c| - 32 <= |m|
    && m[i..|c| - 32] == c[32 + i..]
    && m[..i] + DecryptChain(k, chained, c[16 + i..32 + i], c[32 + i..]) == DecryptChain(k, chained, c[16..32], c[32..])
  }

  lemma DecryptionGoesOn(k: Key, chained: bool, c: seq<Byte>, before: seq<Byte>, after: seq<Byte>, i: nat)
    requires DecryptedSoFar(k, chained, c, before, i) && i < |c| - 32
    requires SameOutside(before, after, i)
    requires var x := DecryptBlock(before[i..i + 16], k.exp, k.numKeys);
             StateAt(after, i) == if chained then AddRoundKey(x, c[16 + i..32 + i]) else x
    ensures DecryptedSoFar(k, chained, c, after, i + 16)
  {
    hide DecryptChain, AddRoundKey, DecryptBlock;
    var block := c[32 + i..48 + i];
    assert before[i..i + 16] == block by {
      assert before[i..i + 16] == before[i..|c| - 32][..16];
    }
    DecryptedBlock(k, chained, c, i, StateAt(after, i));
    assert after[..i + 16] == before[..i] + StateAt(after, i);
    assert after[i + 16..|c| - 32] == before[i..|c| - 32][16..];
    var y, rest := StateAt(after, i), DecryptChain(k, chained, c[32 + i..48 + i], c[48 + i..]);
    assert (before[..i] + y) + rest == before[..i] + (y + rest);
  }

  lemma DecryptedBlock(k: Key, chained: bool, c: seq<Byte>, i: nat, y: State)
    requires k.Valid() && |c| % 16 == 0 && i % 16 == 0 && 48 + i <= |c|
    requires var x := DecryptBlock(c[32 + i..48 + i], k.exp, k.numKeys);
             y == if chained then AddRoundKey(x, c[16 + i..32 + i]) else x
    ensures DecryptChain(k, chained, c[16 + i..32 + i], c[32 + i..])
         == y + DecryptChain(k, chained, c[32 + i..48 + i], c[48 + i..])
  {
    hide AddRoundKey, DecryptBlock;
    assert c[32 + i..][..16] == c[32 + i..48 + i] && c[32 + i..][16..] == c[48 + i..];
  }

  lemma DecryptionEnds(k: Key, chained: bool, c: seq<Byte>, m: seq<Byte>)
    requires |c| >= 32 && DecryptedSoFar(k, chained, c, m, |c| - 32)
    ensures m[..|c| - 32] == DecryptChain(k, chained, c[16..32], c[32..])
  {
    assert c[|c|..] == [];
  }

  class OaesCtx {
    var key: Option<Key>
    var options: bv16
    var iv: State

    // A context whose fields were written directly.
    constructor (key: Option<Key>, options: bv16, iv: State)
      ensures this.key == key && this.options == options && this.iv == iv
    {
      this.key := key;
      this.options := options;
      this.iv := iv;
    }

    // oaes_alloc
    constructor Alloc(drawn: State)
      ensures key == None && Settings(options, iv) == Fresh(drawn)
    {
      key := None;
      options := 0;
      iv := ZeroBlock();
      new;
      var _ := SetOption(OPTION_CBC, None, drawn);
    }

    method SetOption(option: bv16, value: Option<State>, drawn: State) returns (rc: Ret)
      modifies `options, `iv
      ensures (Settings(options, iv), rc) == SetTo(Settings(old(options), old(iv)), option, value, drawn)
    {
      hide Without, With, ZeroBlock;
      if option == OPTION_ECB {
        options := Without(options, OPTION_CBC);
        iv := ZeroBlock();
      } else if option == OPTION_CBC {
        options := Without(options, OPTION_ECB);
        iv := if value.Some? then value.value else drawn;
      } else {
        return ErrArg2;
      }
      options := With(options, option);
      rc := Success;
    }

    // The block at `i` of the data part of `c`, padded when the message ends inside it.
    method TakeBlock(c: array<Byte>, i: nat, m: seq<Byte>) returns (block: array<Byte>)
      requires i % 16 == 0 && i < |m| && 32 + |m| <= c.Length
      requires c[32 + i..32 + |m|] == m[i..]
      ensures fresh(block) && block.Length == 16
      ensures i + 16 <= |Padded(m)| && block[..] == Padded(m)[i..i + 16]
    {
      var size := if |m| - i < 16 then |m| - i else 16;
      block := new Byte[16];
      for j := 0 to size
        invariant forall k :: 0 <= k < j ==> block[k] == m[i + k]
      {
        assert c[32 + i..32 + |m|][j] == m[i..][j];
        block[j] := c[32 + i + j];
      }
      for j := 0 to 16 - size
        invariant forall k :: 0 <= k < size ==> block[k] == m[i + k]
        invariant forall k :: size <= k < size + j ==> block[k] == (k - size + 1) as Byte
      {
        block[size + j] := (j + 1) as Byte;
      }
      PadBlock(m, i, size, block[..]);
    }

    // One turn of the encryption loop.
    method EncryptNext(c: array<Byte>, i: nat, m: seq<Byte>, k: Key) returns (ghost y: State)
      requires k.Valid() && i % 16 == 0 && i < |m| && 32 + |Padded(m)| <= c.Length
      requires c[32 + i..32 + |m|] == m[i..]
      modifies c, `iv
      ensures i + 16 <= |Padded(m)| && SameOutside(old(c[..]), c[..], 32 + i) && StateAt(c[..], 32 + i) == y
      ensures var data := Padded(m);
              y == EncryptBlock(if Chained(options) then AddRoundKey(data[i..i + 16], old(iv)) else data[i..i + 16],
                                k.exp, k.numKeys)
      ensures iv == if Chained(options) then y else old(iv)
    {
      hide AddRoundKey, EncryptBlock;
      var block := TakeBlock(c, i, m);
      assert block[..] == StateAt(block[..], 0);
      if Chained(options) {
        assert RoundKey(iv, 0) == iv;
        AddRoundKeyInPlace(block, 0, iv, 0);
      }
      EncryptBlockInPlace(block, 0, k.exp, k.numKeys);
      assert block[..] == StateAt(block[..], 0);
      StoreBlock(c, 32 + i, block[..]);
      y := block[..];
      if Chained(options) {
        iv := block[..];
      }
    }

    // Header, vector and plain message, before the loop.
    method WritePrefix(c: array<Byte>, prefix: seq<Byte>)
      requires |prefix| <= c.Length
      modifies c
      ensures c[..|prefix|] == prefix && c[|prefix|..] == old(c[|prefix|..])
    {
      for i := 0 to |prefix|
        invariant c[..i] == prefix[..i]
        invariant forall k :: |prefix| <= k < c.Length ==> c[k] == old(c[k])
      {
        c[i] := prefix[i];
      }
    }

    // The encryption loop, over a buffer that holds the plain message after its first 32 bytes.
    method EncryptData(c: array<Byte>, m: seq<Byte>, k: Key)
      requires k.Valid() && 32 + |Padded(m)| <= c.Length
      requires c[32..32 + |m|] == m
      modifies c, `iv
      ensures c[..32] == old(c[..32])
      ensures c[32..32 + |Padded(m)|] == EncryptChain(k, Chained(options), old(iv), Padded(m))
      ensures c[32 + |Padded(m)|..] == old(c[32 + |Padded(m)|..])
      ensures iv == LastIv(Chained(options), old(iv), c[32..32 + |Padded(m)|])
    {
      hide Padded, AddRoundKey, EncryptBlock, EncryptedSoFar, Chained, SameOutside, StateAt;
      PaddedLength(m);
      var dataLen := |m| + if |m| % 16 == 0 then 0 else 16 - |m| % 16;
      ghost var run := EncryptRun(c[..], k, Chained(options), iv, m);
      var i := 0;
      EncryptionStarts(run);
      while i < dataLen
        invariant i % 16 == 0 && 0 <= i <= dataLen
        invariant EncryptedSoFar(run, c[..], iv, i)
      {
        ghost var before, ivBefore := c[..], iv;
        EncryptionReads(run, before, iv, i);
        ghost var y := EncryptNext(c, i, m, k);
        EncryptionGoesOn(run, before, ivBefore, c[..], iv, i, y);
        i := i + 16;
      }
      EncryptionEnds(run, c[..], iv);
    }

    method Encrypt(m: seq<Byte>, c: array?<Byte>, cLenIn: nat) returns (rc: Ret, cLen: nat)
      requires key.Some? ==> key.value.Valid()
      requires c != null ==> cLenIn <= c.Length
      modifies c, `iv
      ensures cLen == 32 + |Padded(m)|
      ensures rc == if c == null then Success else if cLenIn < cLen then ErrBuf else if key.None? then ErrNoKey
          else Success
      ensures c != null && rc == Success ==>
        && c[..cLen] == Encrypted(key.value, options, old(iv), m)
        && c[cLen..] == old(c[cLen..])
        && iv == LastIv(Chained(options), old(iv), c[32..cLen])
      ensures c == null || rc != Success ==> iv == old(iv) && (c != null ==> c[..] == old(c[..]))
    {
      hide EncryptChain, Padded, Header, Encrypted, LastIv;
      PaddedLength(m);
      var padLen := if |m| % 16 == 0 then 0 else 16 - |m| % 16;
      var flags := if padLen != 0 then FLAG_PAD else 0;
      cLen := 2 * 16 + |m| + padLen;
      if c == null {
        return Success, cLen;
      }
      if cLenIn < cLen {
        return ErrBuf, cLen;
      }
      if key == None {
        return ErrNoKey, cLen;
      }
      ghost var iv0 := iv;
      WritePrefix(c, Header(options, flags) + iv + m);
      PrefixWritten(c[..], Header(options, flags), iv, m);
      assert c[cLen..] == old(c[cLen..]) by {
        assert forall k :: cLen <= k < c.Length ==> c[k] == c[32 + |m|..][k - 32 - |m|];
      }
      EncryptData(c, m, key.value);
      EncryptedParts(key.value, options, iv0, m, c[..]);
      rc := Success;
    }

    // One turn of the decryption loop.
    method DecryptNext(m: array<Byte>, i: nat, k: Key, chained: bool, iv: State)
      requires k.Valid() && i + 16 <= m.Length
      modifies m
      ensures SameOutside(old(m[..]), m[..], i)
      ensures var x := DecryptBlock(old(m[..])[i..i + 16], k.exp, k.numKeys);
              StateAt(m[..], i) == if chained then AddRoundKey(x, iv) else x
    {
      hide AddRoundKey, DecryptBlock;
      DecryptBlockInPlace(m, i, k.exp, k.numKeys);
      if chained {
        assert RoundKey(iv, 0) == iv;
        AddRoundKeyInPlace(m, i, iv, 0);
      }
    }

    // Copying the data part and decrypting it in place.
    method DecryptData(c: seq<Byte>, m: array<Byte>, k: Key, chained: bool)
      requires k.Valid() && |c| >= 32 && |c| % 16 == 0 && |c| - 32 <= m.Length
      modifies m
      ensures m[..|c| - 32] == DecryptChain(k, chained, c[16..32], c[32..])
      ensures m[|c| - 32..] == old(m[|c| - 32..])
    {
      hide AddRoundKey, DecryptBlock, DecryptChain, SameOutside, StateAt;
      WritePrefix(m, c[32..]);
      assert [] + DecryptChain(k, chained, c[16..32], c[32..]) == DecryptChain(k, chained, c[16..32], c[32..]);
      assert m[0..|c| - 32] == c[32..];
      var iv: State := c[16..32];
      var i := 0;
      while i < |c| - 32
        invariant i % 16 == 0 && 0 <= i <= |c| - 32
        invariant i == 0 ==> iv == c[16..32]
        invariant DecryptedSoFar(k, chained, c, m[..], i)
        invariant m[|c| - 32..] == old(m[|c| - 32..])
      {
        if chained && i > 0 {
          iv := c[16 + i..32 + i];
        }
        ghost var before := m[..];
        DecryptNext(m, i, k, chained, iv);
        DecryptionGoesOn(k, chained, c, before, m[..], i);
        BehindKept(before, m[..], i, |c| - 32);
        i := i + 16;
      }
      DecryptionEnds(k, chained, c, m[..]);
    }

    // The padding check and removal at the end of oaes_decrypt.
    method RemovePad(m: array<Byte>, mLen: nat) returns (rc: Ret, newLen: nat)
      requires 16 <= mLen <= m.Length
      modifies m
      ensures rc == if PadAccepted(old(m[..mLen])) then Success else ErrHeader
      ensures rc == Success ==>
        && newLen == mLen - PadCount(old(m[..mLen]))
        && m[..] == old(m[..newLen]) + Zeros(mLen - newLen) + old(m[mLen..])
      ensures rc != Success ==> m[..] == old(m[..])
    {
      var temp := m[mLen - 1] as nat;
      ghost var data := m[..mLen];
      assert temp == PadCount(data);
      newLen := mLen;
      if temp <= 0 || temp > 0x0f {
        return ErrHeader, mLen;
      }
      var isPad := true;
      for i := 0 to temp
        invariant isPad <==> forall j :: mLen - i <= j < mLen ==> data[j] as nat == j - (mLen - temp) + 1
      {
        if m[mLen - 1 - i] as nat != temp - i {
          isPad := false;
          assert data[mLen - 1 - i] as nat != temp - i;
        }
      }
      if !isPad {
        return ErrHeader, mLen;
      }
      for i := 0 to temp
        invariant forall j :: 0 <= j < m.Length ==>
          m[j] == if mLen - temp <= j < mLen - temp + i then 0 else old(m[j])
      {
        m[mLen - temp + i] := 0;
      }
      rc := Success;
      newLen := mLen - temp;
    }

    // `m_len` wraps for an input shorter than header and vector, and no buffer is that large.
    method Decrypt(c: seq<Byte>, m: array?<Byte>, mLenIn: nat) returns (rc: Ret, mLen: nat)
      requires key.Some? ==> key.value.Valid()
      requires m != null ==> mLenIn <= m.Length
      requires mLenIn < TWO64 - 32
      requires |c| == 32 ==> c[8] & FLAG_PAD == 0
      modifies m
      ensures |c| % 16 != 0 ==> rc == ErrArg3
      ensures |c| % 16 == 0 ==>
        var size := if |c| >= 32 then |c| - 32 else TWO64 + |c| - 32;
        if m == null then rc == Success && mLen == size
        else if mLenIn < size then rc == ErrBuf
        else if key.None? then rc == ErrNoKey
        else |c| >= 32 && match Decrypted(key.value, c)
          case None => rc == ErrHeader
          case Some(text) =>
            rc == Success && mLen == |text| <= size && m[..] == text + Zeros(size - |text|) + old(m[size..])
      ensures m != null && (rc == ErrArg3 || rc == ErrBuf || rc == ErrNoKey) ==> m[..] == old(m[..])
    {
      hide DecryptChain, PadAccepted, PadCount, Options;
      if |c| % 16 != 0 {
        return ErrArg3, mLenIn;
      }
      mLen := if |c| >= 32 then |c| - 32 else TWO64 + |c| - 32;
      if m == null {
        return Success, mLen;
      }
      if mLenIn < mLen {
        return ErrBuf, mLen;
      }
      if key == None {
        return ErrNoKey, mLen;
      }
      if !HeaderOk(c) {
        return ErrHeader, mLen;
      }
      DecryptData(c, m, key.value, Chained(Options(c)));
      ghost var size := |c| - 32;
      assert m[..] == m[..size] + Zeros(0) + m[size..];
      rc := Success;
      if c[8] & FLAG_PAD != 0 {
        rc, mLen := RemovePad(m, mLen);
      }
    }
  }

  function Zeros(n: nat): (z: seq<Byte>)
    ensures |z| == n
  {
    seq(n, i => 0)
  }

  lemma BehindKept(before: seq<Byte>, after: seq<Byte>, i: nat, end: nat)
    requires i + 16 <= end <= |before| && SameOutside(before, after, i)
    ensures |after| == |before| && after[end..] == before[end..]
  {
  }

  // The checks of oaes_decrypt in their order: name, version, type, options, flags.
  function HeaderOk(c: seq<Byte>): (ok: bool)
    requires |c| >= 32
    ensures ok <==> HeaderAccepted(c)
  {
    if c[..4] != [0x4f, 0x41, 0x45, 0x53] then false
    else if c[4] != 0x01 then false
    else if c[5] != 0x02 then false
    else if Options(c) & !(OPTION_ECB | OPTION_CBC) != 0 then false
    else if Options(c) & OPTION_ECB != 0 && Options(c) & OPTION_CBC != 0 then false
    else if Options(c) == 0 then false
    else
      assert c[..6] == c[..4] + [c[4], c[5]];
      OptionValues(Options(c));
      c[8] & !FLAG_PAD == 0
  }

  lemma OptionValues(o: bv16)
    ensures o & !(OPTION_ECB | OPTION_CBC) == 0 ==> o == 0 || o == 1 || o == 2 || o == 3
  {
  }

  lemma EncryptedParts(key: Key, options: bv16, iv: State, m: seq<Byte>, c: seq<Byte>)
    requires key.Valid() && |c| >= 32 + |Padded(m)|
    requires c[..32] == Header(options, Flags(|m|)) + iv
    requires c[32..32 + |Padded(m)|] == EncryptChain(key, Chained(options), iv, Padded(m))
    ensures c[..32 + |Padded(m)|] == Encrypted(key, options, iv, m)
  {
    hide EncryptChain;
    assert c[..32 + |Padded(m)|] == c[..32] + c[32..32 + |Padded(m)|];
  }

  lemma PaddedLength(m: seq<Byte>)
    ensures |Padded(m)| == |m| + PadLength(|m|)
  {
  }

  lemma EncryptChainEnd(key: Key, chained: bool, iv: State, data: seq<Byte>)
    requires key.Valid() && |data| == 0
    ensures EncryptChain(key, chained, iv, data) == []
  {
  }

  lemma PrefixWritten(c: seq<Byte>, header: seq<Byte>, iv: State, m: seq<Byte>)
    requires |header| == 16 && |c| >= 32 + |m| && c[..32 + |m|] == header + iv + m
    ensures c[..32] == header + iv && c[32..32 + |m|] == m && c[32..32] == []
  {
    assert c[..32] == c[..32 + |m|][..32];
    assert c[32..32 + |m|] == c[..32 + |m|][32..];
  }

  // What lies after the block just written is as it was.
  lemma TailKept(before: seq<Byte>, after: seq<Byte>, i: nat, m: seq<Byte>, cLen: nat)
    requires i % 16 == 0 && i < |m| && 48 + i <= cLen <= |before| && 32 + |m| <= cLen
    requires SameOutside(before, after, 32 + i)
    requires before[32 + i..32 + |m|] == m[i..]
    ensures after[cLen..] == before[cLen..]
    ensures i + 16 < |m| ==> after[32 + i + 16..32 + |m|] == m[i + 16..]
  {
    if i + 16 < |m| {
      assert after[32 + i + 16..32 + |m|] == before[32 + i..32 + |m|][16..];
    }
  }
}
