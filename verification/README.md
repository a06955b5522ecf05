# Verification of the CryptoNight and SHA-256 code

This project models the hash code of the repository in Dafny and proves that its fast forms compute
what its simple forms and the standards say. `dafny verify dfyconfig.toml` checks all of it.

Much of the code exists more than once: a plain form next to one for a particular processor or
number of lanes, or a hand-tuned form of a published algorithm. The main results are therefore
refinements and inversions, for all inputs, all lengths and any number of steps:

- The four CryptoNight mixing loops, with their different address computations, tweak encodings and
  multiplications, are one function of scratchpad and registers (`CryptoNight.dfy`), and the whole
  fast hash returns what the standard hash returns on every platform (`Scratchpad.dfy`,
  `SlowHash.dfy`). The wide multiplication and division beneath are exact (`WideMul.dfy`).
- AES: the table round is the round of FIPS 197, decryption inverts encryption, the register key
  schedules for x86 and ARMv8 are the loop (`AesTables.dfy`, `Aes.dfy`, `AesFast.dfy`,
  `AesKeys.dfy`, `Oaes.dfy`), and over any sequence of calls a message that `oaes_encrypt` was given
  comes back from `oaes_decrypt` (`OaesMessage.dfy`).
- Keccak: the in-place rho and pi walk, and the sponge, with the exact output lengths for which the
  code takes in whole blocks (`Keccak.dfy`).
- BLAKE-256: chunked updates with the exact condition under which they lose bytes, the compensated
  counter of finalisation, HMAC (`Blake256.dfy`), and the compression function, whose diagonals run
  in another order than in the specification (`BlakeCompress.dfy`).
- Skein: Threefish is a permutation for both widths (`Rotations.dfy`, `Threefish.dfy`), the sliding
  key schedule of Skein-1024 refines the modular one (`SkeinBlock.dfy`, `Skein1024.dfy`), and
  Skein-512 hashes the concatenation of its updates, down to single bits (`Skein512.dfy`).
- JH: the bit-sliced S-box layer is the two S-box tables of the specification, and E8 and F8 are
  bijections (`Jh.dfy`, `JhTable.dfy`).
- SHA-256: every lane of the multiway code computes FIPS 180-4 on its own blocks, over the packed and
  over the array lane type (`Sha256.dfy`, `Lanes.dfy`, `MultiwaySha256.dfy`).

Where the code fails to meet a law, the condition is part of the statement: `Blake256.UpdateKeeps`
and `Blake256.ChunksAppend` (an empty update drops waiting bytes), and `Keccak.LastBlockAbsorbed`
with `Keccak.LostBytes` (an output length that is not a multiple of 4 leaves bytes of the message
out; the lengths in use avoid that). `OaesMessage.RoundTrip` says for which option words the round
trip holds when the field of the context is written directly; `OaesMessage.AlwaysRoundTrips` says
that the interface never leaves those words.

Code that changes memory is modelled by methods on arrays and by classes, each proved against a
function of the old contents; the laws are lemmas about those functions. Memory is little-endian, as
the code assumes. The AES instructions are taken by their published meaning. `Words.dfy` and
`Words32.dfy` hold what is needed about machine words; `Words.Nat` reads a word as a number bit by
bit, which keeps arithmetic and bit operations apart.

## Model

| member | source | states |
|---|---|---|
| WideMul.Mul128 | src/hash/monero/common/int-util.h:82-106 | The two words returned are the exact 128-bit product: both carries are accounted for and the assertion that the upper word does not overflow holds. |
| WideMul.LimbMul | src/hash/monero/slow-hash.c:1030-1057 | The product from 32-bit limbs, accumulated in place, is the same exact 128-bit product. |
| WideMul.DivWithReminder | src/hash/monero/common/int-util.h:108-113 | For every 64-bit dividend: the merged number = quotient * divisor + remainder with remainder < divisor. For a digit below 2^32, which is how the long division calls it, the merged number is carry * 2^32 + digit, and the quotient fits 32 bits whenever the carry is below the divisor. |
| WideMul.MergedIsSum | src/hash/monero/common/int-util.h:109 | Merging the carry into the dividend by a bitwise or adds it if and only if no bit of it meets a bit of the upper half of the dividend. |
| WideMul.Div128By32 | src/hash/monero/common/int-util.h:115-132 | For every nonzero divisor dividend = q * d + r over 128 bits, with r < d. |
| CryptoNight.Variant1Forms | src/hash/monero/slow-hash.c:52-59 | Both encodings of the variant-1 change, on byte 11 and on the upper word, are the same function of a block. |
| CryptoNight.OffsetCell | src/hash/monero/slow-hash.c:137 | The byte offset computed from a word addresses exactly the masked cell and is a multiple of 16. |
| CryptoNight.OffsetPortableForm | src/hash/monero/slow-hash.c:1252 | Dividing by 16 and then masking, as the fallback does, reaches the offset that shifting and masking gives. |
| CryptoNight.OffsetScalarForm | src/hash/monero.cpp:216 | The single mask of the scalar loop gives the same offset. |
| CryptoNight.OffsetArm32Form | src/hash/monero/slow-hash.c:1185-1186 | Masking only the low 32 bits gives the same offset for every scratchpad below 2^28 cells. |
| CryptoNight.MulPortable | src/hash/monero/slow-hash.c:1254-1263 | The product is stored upper word first. |
| CryptoNight.MulArm | src/hash/monero/slow-hash.c:1030-1057 | The ARM product stores the same block. |
| CryptoNight.XorBytewise | src/hash/monero/slow-hash.c:1293-1298 | The byte loop is the exclusive or of both words. |
| CryptoNight.PortableLoop | src/hash/monero/slow-hash.c:1355-1381 | After any number of iterations of the copy-and-swap loop the scratchpad and both registers are those of the reference run, for every variant, also when both addresses of an iteration coincide. |
| CryptoNight.ArmLoop | src/hash/monero/slow-hash.c:1183-1206 | The loop that works directly on the cells has the same result, for every scratchpad below 2^28 cells, which is as far as its 32-bit offsets reach; the other three loops have no such bound. |
| CryptoNight.X86Loop | src/hash/monero/slow-hash.c:152-180 | The register loop has the same result. |
| CryptoNight.ScalarLoop | src/hash/monero.cpp:214-259 | The loop over 64-bit words, which carries the next address in idx0, has the result of the reference run of variant 1. |
| CryptoNight.RunCongruence | src/hash/monero/slow-hash.c:646-674 | Only the values of the AES round matter for a run, not which routine computes them. |
| AesTables.SubByteInverse | src/hash/monero/oaes_lib.c:88-126 | The table of the inverse S-box undoes the S-box table at every byte. |
| AesTables.InvSubByteInverse | src/hash/monero/oaes_lib.c:88-126 | And the other way round. |
| AesTables.MixByteInverse | src/hash/monero/oaes_lib.c:128-246 | The multiplication tables of MixColumns and InvMixColumns multiply to the identity in GF(2^8) on every column. |
| AesTables.GfMul2IsTimes | src/hash/monero/oaes_lib.c:128-146 | The table is multiplication by 2 modulo the AES polynomial. |
| AesTables.GfMulEIsTimes | src/hash/monero/oaes_lib.c:228-246 | The table is multiplication by 14 modulo the AES polynomial. |
| Aes.InvSubBytesUndoes | src/hash/monero/oaes_lib.c:248-278 | InvSubBytes undoes SubBytes on every state. |
| Aes.InvShiftRowsUndoes | src/hash/monero/oaes_lib.c:308-362 | InvShiftRows undoes ShiftRows on every state. |
| Aes.InvMixColumnsUndoes | src/hash/monero/oaes_lib.c:399-437 | InvMixColumns undoes MixColumns on every state. |
| Aes.DecryptRoundsUndo | src/hash/monero/oaes_lib.c:1141-1255 | Induction over the rounds: the decryption loop takes the state after n encryption rounds back to the start. |
| Aes.DecryptBlockUndoes | src/hash/monero/oaes_lib.c:1024-1255 | Decryption inverts encryption for every block and every expanded key of at least two round keys, so for all three round counts. |
| Oaes.ShiftRowsInPlace | src/hash/monero/oaes_lib.c:308-334 | The hand-written byte moves are ShiftRows of section 5.1.2 of FIPS 197 on the block, and nothing outside it changes. |
| Oaes.InvShiftRowsInPlace | src/hash/monero/oaes_lib.c:336-362 | The same for InvShiftRows. |
| Oaes.MixColumnsInPlace | src/hash/monero/oaes_lib.c:399-417 | The four column calls are MixColumns. |
| Oaes.InvMixColumnsInPlace | src/hash/monero/oaes_lib.c:419-437 | The four column calls are InvMixColumns. |
| Oaes.EncryptBlockInPlace | src/hash/monero/oaes_lib.c:1024-1139 | In place, the block becomes the AES encryption of section 5.1 of FIPS 197 under the expanded key; no byte outside the block changes. |
| Oaes.DecryptBlockInPlace | src/hash/monero/oaes_lib.c:1141-1255 | In place, the block becomes the AES decryption of section 5.3 of FIPS 197. |
| Oaes.EncryptionRoundInPlace | src/hash/monero/oaes_lib.c:1456-1484 | One call is one full AES round. |
| Oaes.PseudoEncryptInPlace | src/hash/monero/oaes_lib.c:1486-1506 | One call is ten full rounds without initial key addition, the function that aesb_pseudo_round computes by tables. |
| AesFast.TableRoundIsAesRound | src/hash/monero/aesb.c:55-160 | The table round equals SubBytes, ShiftRows, MixColumns and AddRoundKey on every state and key. |
| AesFast.UColumns | src/hash/monero/aesb.c:101-123 | Each of the macros u0 to u3 is one column of the MixColumns matrix scaled by the byte. |
| AesFast.TablePseudoRoundsAgree | src/hash/monero/aesb.c:162-180 | Ten table rounds on columns are ten step-by-step rounds on the state, for any round keys. |
| AesFast.ArmRoundIsAesRound | src/hash/monero/slow-hash.c:987-995 | aese with a zero key, aesmc and a final addition are one AES round. |
| AesFast.ArmRoundsAgree | src/hash/monero/slow-hash.c:862-929 | The re-slicing of the ARM code, keys shifted by half a round and the last key added at the end, is n ordinary rounds after adding the first operand. |
| AesKeys.RconInRange | src/hash/monero/oaes_lib.c:568-625 | For all three key lengths the index into the round-constant table stays inside its ten entries. |
| AesKeys.KeyExpand | src/hash/monero/oaes_lib.c:568-625 | The byte-by-byte expansion in place is the recurrence of section 5.2 of FIPS 197 for keys of 16, 24 and 32 bytes. |
| AesKeys.PrefixXor | src/hash/monero.cpp:29-40 | Shift-and-add of the four lanes yields the prefix sums that the recurrence w[i] = w[i-8] ^ w[i-1] asks for. |
| AesKeys.GenkeySubStep | src/hash/monero.cpp:42-52 | One register step turns round keys 2t and 2t + 1 into round keys 2t + 2 and 2t + 3. |
| AesKeys.ExpandScalar | src/hash/monero.cpp:54-75 | The ten registers are the first ten round keys of the expansion of every 32-byte key. |
| AesKeys.ExpandX86 | src/hash/monero/slow-hash.c:272-356 | The eleven registers are its first eleven round keys. |
| AesKeys.TblRotates | src/hash/monero/slow-hash.c:809-822 | The table lookup of the ARMv8 code puts the rotated last word of the register into every lane. |
| AesKeys.AeseSubstitutes | src/hash/monero/slow-hash.c:825-840 | On four equal columns and a zero key aese is SubWord in every column: its row shift changes nothing. |
| AesKeys.ExpandArm | src/hash/monero/slow-hash.c:807-852 | The assembler loop, left half way through its fifth pass, stores the same eleven round keys. |
| AesKeys.RoundKeyState | src/hash/monero/slow-hash.c:318-356 | A register holds the same sixteen bytes as the byte expansion. |
| OaesMessage.ChainUndone | src/hash/monero/oaes_lib.c:1257-1453 | Decrypting the chained blocks gives the padded message back, with or without chaining. |
| OaesMessage.PadBytes | src/hash/monero/oaes_lib.c:1307-1309 | The padding of n bytes is 1, 2, ..., n. |
| OaesMessage.PadRemoved | src/hash/monero/oaes_lib.c:1432-1450 | The padding check accepts every padding that encryption writes, and what it leaves is the message. |
| OaesMessage.HeaderOk | src/hash/monero/oaes_lib.c:1363-1409 | The checks in their order accept a header exactly when name, version, type, one of the two modes and the flags are right. |
| OaesMessage.RoundTrip | src/hash/monero/oaes_lib.c:1257-1453 | For every message, key, vector and option word that may have been written to the context, decryption returns the message that was encrypted if and only if the options are exactly ECB or exactly CBC. |
| OaesMessage.OaesCtx.Alloc | src/hash/monero/oaes_lib.c:893-931 | A new context has no key and CBC mode with a random vector. |
| OaesMessage.OaesCtx.SetOption | src/hash/monero/oaes_lib.c:960-1022 | One mode bit is cleared and the other set, the vector becomes zero, the given one or a random one, and any other option is refused and changes nothing. |
| OaesMessage.CallsKeepMode | src/hash/monero/oaes_lib.c:960-1022 | Over any sequence of option and encryption calls the options stay exactly ECB or exactly CBC. |
| OaesMessage.AlwaysRoundTrips | src/hash/monero/oaes_lib.c:893-1453 | For a context from oaes_alloc, after any sequence of option and encryption calls, every message that is encrypted next is decrypted again, without condition. |
| OaesMessage.NoModeFails | src/hash/monero/oaes_lib.c:1400-1401 | The failing input: an option word with no mode, which no call of the interface leaves behind; every message is then rejected. |
| OaesMessage.OaesCtx.Encrypt | src/hash/monero/oaes_lib.c:1257-1327 | The return code in every case, the length, the whole cipher text (header, vector, chained blocks), the bytes behind it unchanged, and the vector left in the context. |
| OaesMessage.OaesCtx.Decrypt | src/hash/monero/oaes_lib.c:1329-1453 | Except for a 32-byte cipher text with the padding flag: the return code, and on success the decrypted text and its length, zeros where the padding was, and the bytes behind it unchanged. |
| OaesMessage.OaesCtx.RemovePad | src/hash/monero/oaes_lib.c:1432-1450 | The loop over the last bytes recognises exactly the padding 1, 2, ..., n, which is then cleared; otherwise nothing changes. |
| Keccak.PiSourceArrives | src/hash/monero/keccak.c:64-71 | The lane that arrives at (y, 2x + 3y) is lane (x, y): section 3.2.3 of FIPS 202. |
| Keccak.WalkIsCycle | src/hash/monero/keccak.c:39-43 | The position table lists each position once. |
| Keccak.EveryWordVisited | src/hash/monero/keccak.c:39-43 | The walk visits every word but word 0. |
| Keccak.WalkFollowsPi | src/hash/monero/keccak.c:39-43 | Each step of the walk takes the word that pi moves to the position it writes. |
| Keccak.WalkRotations | src/hash/monero/keccak.c:33-37 | The rotation of each step is the rho offset of the lane it moves, a triangular number modulo 64: section 3.2.2 of FIPS 202. |
| Keccak.RhoPiInPlace | src/hash/monero/keccak.c:64-71 | The walk with a single temporary equals rho and pi applied to all lanes at once. |
| Keccak.ThetaInPlace | src/hash/monero/keccak.c:54-62 | Theta in place, over column parities taken first. |
| Keccak.ChiInPlace | src/hash/monero/keccak.c:73-79 | Chi in place, row by row over a saved row. |
| Keccak.KeccakFInPlace | src/hash/monero/keccak.c:47-84 | The 24 rounds in place are the permutation of section 3.3 of FIPS 202. |
| Keccak.AbsorbsWholeBlock | src/hash/monero/keccak.c:101-126 | Adding only whole words takes a block in entirely if and only if its length is a multiple of 8, when its last byte is not zero. |
| Keccak.LastBlockAbsorbed | src/hash/monero/keccak.c:101-126 | For every output length from 29 to 99 and every message, the last padded block is taken in entirely if and only if the output length is a multiple of 4. |
| Keccak.LostBytes | src/hash/monero/keccak.c:101-128 | For the other output lengths: messages that differ only in bytes behind the whole words of their blocks have the same digest. |
| Keccak.NothingTaken | src/hash/monero/keccak.c:101-128 | For 97 to 99 output bytes no word is ever taken in: the digest depends on the number of blocks only. |
| Keccak.EmptyAndByteCollide | src/hash/monero/keccak.c:101-128 | The failing input: with 99 output bytes the empty message and every message of one byte have the same digest. |
| Keccak.DigestIsSponge | src/hash/monero/keccak.c:89-129 | For output lengths 200 and the multiples of 4 from 32 to 96 the result is the sponge over the message padded by one bit, zeros and one bit. |
| Keccak.Keccak | src/hash/monero/keccak.c:89-134 | The absorbing loop ends for every input, and the result is the specified one, the aborting case for bad lengths included. |
| Scratchpad.RoundsAgree | src/hash/monero/slow-hash.c:646-674 | The table round, aesenc and the ARM instructions are one function of block and key. |
| Scratchpad.PseudoRoundAgrees | src/hash/monero/slow-hash.c:376-398 | One block through ten rounds is the same by tables, with aesenc and with aese and aesmc. |
| Scratchpad.PseudoRoundXorAgrees | src/hash/monero/slow-hash.c:414-438 | The same when a scratchpad block is added first; the ARM code gives it to aese as the first key. |
| Scratchpad.Explode | src/hash/monero/slow-hash.c:607-627 | Every row of the scratchpad is the text after one more encryption, on all three engines. |
| Scratchpad.Implode | src/hash/monero/slow-hash.c:680-702 | The text after all rows have been added and encrypted, on all three engines. |
| Scratchpad.ExplodeScalar | src/hash/monero.cpp:90-125 | Eight lanes side by side fill the scratchpad with the same rows. |
| Scratchpad.ImplodeScalar | src/hash/monero.cpp:127-174 | Eight lanes side by side fold it to the same text. |
| Scratchpad.ExpandedBytes | src/hash/monero/slow-hash.c:607-620 | The expanded key in memory is the same from the byte loop, the x86 registers and the ARMv8 assembler. |
| Scratchpad.EncryptText | src/hash/monero/slow-hash.c:376-398 | Any number of blocks, each through ten rounds, on all three engines. |
| Scratchpad.FoldText | src/hash/monero/slow-hash.c:414-438 | The same with a scratchpad block added to each. |
| SlowHash.HashProcess | src/hash/monero/slow-hash.c:593-598 | The state is Keccak with 200 output bytes, read as little-endian words. |
| SlowHash.TweakBytes | src/hash/monero/slow-hash.c:76-83 | The tweak built byte by byte is the word that the other builds compute. |
| SlowHash.MixOn | src/hash/monero/slow-hash.c:646-674 | Whatever the platform, the scratchpad after mixing is that of the reference run with the AES round of FIPS 197. |
| SlowHash.SameFinalizer | src/hash/monero.cpp:271 | The low bits of the first state word and of the first state byte choose the same finalising hash. |
| SlowHash.CnSlowHash | src/hash/monero/slow-hash.c:567-722 | All five builds compute one hash of the data and variant, from a message or from a state given in advance; variant 1 with fewer than 43 bytes stops. |
| SlowHash.PrehashedAgrees | src/hash/monero/slow-hash.c:594-598 | Without the tweak, passing the state of a message in advance gives the hash of the message. |
| SlowHash.MoneroStandard | src/hash/monero.cpp:20-27 | The variant follows the first byte. |
| SlowHash.MoneroCpuFast | src/hash/monero.cpp:176-272 | The fast form computes the hash of variant 1. |
| SlowHash.FastAgreesWithStandard | src/hash/monero.cpp:20-272 | End to end: for every blob of 76 to 80 bytes that starts with 7, the fast form returns what the standard form returns on every platform, for every memory size and iteration count. |
| SlowHash.MoneroAgrees | src/hash/monero.cpp:20-272 | The same with the memory size and iteration count of the source. |
| Blake256.CounterStep | src/hash/monero/blake256.c:162-175 | The two 32-bit counter words count blocks without losing a carry. |
| Blake256.State.Update | src/hash/monero/blake256.c:155-184 | The method on the struct, filling the buffer, compressing from the input and storing the rest, has the specified new state. |
| Blake256.UpdateKeeps | src/hash/monero/blake256.c:155-184 | One update appends its data to what the state stands for, if and only if it is not an empty update while bytes are waiting: that one drops them. |
| Blake256.EmptyUpdateForgets | src/hash/monero/blake256.c:178-183 | The failing input: one byte and then an update with no data. |
| Blake256.ChunksAppend | src/hash/monero/blake256.c:155-184 | After any sequence of updates the state stands for the whole concatenation if and only if no chunk was empty while bytes were waiting; nothing that comes later makes a loss good. |
| Blake256.ChunksAsOne | src/hash/monero/blake256.c:155-184 | Any sequence of non-empty chunks leaves the chaining value, counter and live buffer bytes of one update. |
| Blake256.Compensated | src/hash/monero/blake256.c:198-217 | Taking the padding bits off the low counter word makes the next block count exactly the message bits, with no carry. |
| Blake256.FinalOne | src/hash/monero/blake256.c:198-200 | A single padding byte carries both markers; the last block counts all message bits. |
| Blake256.FinalFits | src/hash/monero/blake256.c:202-215 | Padding and length fit the block: one compression, counted only if the block holds a message bit. |
| Blake256.FinalTwo | src/hash/monero/blake256.c:206-215 | The padding runs over: the first block counts all message bits, the second none. |
| Blake256.LengthFieldIsLength | src/hash/monero/blake256.c:192-196 | The eight bytes appended are the message length in bits, big-endian. |
| Blake256.FinalHashes | src/hash/monero/blake256.c:191-235 | For every message below 2^64 bits finalisation compresses exactly the blocks of the padded message, and each compression sees the number of message bits hashed so far, or no counter when the block holds none, in all three cases. |
| Blake256.State.Final | src/hash/monero/blake256.c:191-227 | The method on the struct leaves the specified state and digest. |
| Blake256.HashBlake256 | src/hash/monero/blake256.c:237-243 | The one-shot hash is BLAKE-256 of every message. |
| Blake256.HashBlake224 | src/hash/monero/blake256.c:245-251 | The one-shot hash is BLAKE-224, without the marker bit. |
| Blake256.HmacState.constructor | src/hash/monero/blake256.c:253-281 | Both states have taken in the key block, hashed first when it is longer than 64 bytes, added to their pad. |
| Blake256.HmacState.Final | src/hash/monero/blake256.c:325-331 | The digest is H((K ^ opad) || H((K ^ ipad) || text)). |
| Blake256.HmacHash | src/hash/monero/blake256.c:341-347 | The same for every key and every text, the empty one included: section 2 of RFC 2104. |
| BlakeCompress.RowsRepeat | src/hash/monero/blake256.c:52-67 | The four extra rows of the table are the first four again, which is the round number modulo 10. |
| BlakeCompress.CodeOrder | src/hash/monero/blake256.c:114-123 | Running the diagonal steps in the order 7, 6, 4, 5 gives the round of the BLAKE specification. |
| BlakeCompress.StepsCommute | src/hash/monero/blake256.c:119-122 | Steps on different diagonals can change places. |
| BlakeCompress.Compress | src/hash/monero/blake256.c:82-127 | In place, the chaining value becomes that of section 2.1 of the BLAKE specification; no counter is the counter 0. |
| Rotations.RotationUndone | src/hash/monero/skein_port.h:91-92 | Rotating by any distance from 1 to 63 and by its complement is the identity. |
| Threefish.MixUndone | src/hash/monero/skein.c:787-791 | The mix of two words and its inverse undo each other. |
| Threefish.RoundUndone | src/hash/monero/skein.c:787-838 | A round, with its pairs and distances, is invertible. |
| Threefish.InjectUndone | src/hash/monero/skein.c:798-806 | A key injection is invertible. |
| Threefish.EncryptUndone | src/hash/monero/skein.c:774-839 | For a fixed key and tweak the cipher is a permutation of the block, composed over all rounds, for 8 and for 16 words. |
| Skein1024.WindowStarts | src/hash/monero/skein.c:961-990 | The two windows start out as the tweak and the key with their parity words. |
| Skein1024.WindowSlides | src/hash/monero/skein.c:1070-1071 | The two writes of an injection move both windows one word on, in the modular order. |
| Skein1024.WindowInjects | src/hash/monero/skein.c:1053-1069 | What injection n reads from the windows is subkey n of the modular form. |
| Skein1024.InjectSliding | src/hash/monero/skein.c:1053-1074 | The looping injection is the modular one, and the invariant on the array holds again. |
| Skein1024.Rounds | src/hash/monero/skein.c:1074-1089 | The twenty injections and eighty rounds are those of the modular form; no access leaves the array and the first three words stay as they were. |
| Skein1024.Ctxt.ProcessBlock | src/hash/monero/skein.c:925-1166 | For any number of blocks the looping key schedule computes the chaining words and tweak of the modular form. |
| Skein512.EightRounds | src/hash/monero/skein.c:829-839 | Eight unrolled rounds and two injections. |
| Skein512.Ctxt.ProcessBlock | src/hash/monero/skein.c:717-908 | For any number of blocks the unrolled code computes the chaining words and tweak of the block function. |
| Skein512.TweakCounts | src/hash/monero/skein.c:1492-1536 | After any sequence of updates from the start, T[0] + bCnt is the number of bytes taken in, the first flag is set exactly as long as that is at most 64, and after any byte something is held back. |
| Skein512.UpdateKeeps | src/hash/monero/skein.c:1492-1536 | An update appends its data to what the state stands for, whatever its length. |
| Skein512.ChunksAppend | src/hash/monero/skein.c:1492-1536 | After any sequence of updates, empty ones included, the state stands for the concatenation. |
| Skein512.Ctxt.Update | src/hash/monero/skein.c:1492-1536 | The method on the context has the specified new state. |
| Skein512.FinalHashes | src/hash/monero/skein.c:1540-1571 | Finalisation of a state that stands for a message gives the hash of the message by the definition of UBI in section 3.4 of the Skein specification, with the bit padding flag in the final block only. |
| Skein512.Ctxt.Final | src/hash/monero/skein.c:1540-1571 | Exactly ceil(hashBitLen / 8) bytes are written, byte j being byte j mod 64 of counter block j / 64; the rest of the output is unchanged, and the chaining words are the counter-mode key again. |
| Skein512.CounterIsUbi | src/hash/monero/skein.c:1558-1569 | An output block is the block function at position 8 with type OUT, first and final flag. |
| Skein512.ConfigIsUbi | src/hash/monero/skein.c:1409-1418 | The configuration block is the block function at position 32 with type CFG, first and final flag, on zero chaining words. |
| Skein512.Ctxt.constructor | src/hash/monero/skein.c:1387-1427 | The context stands for the empty message, from the tabulated or the computed initial chaining words. |
| Skein512.LastByteIs | src/hash/monero/skein.c:1984-1988 | The mask arithmetic keeps the bits of the message, sets the next one and clears the rest, for each of the seven partial lengths. |
| Skein512.UpdateBits | src/hash/monero/skein.c:1966-2007 | A message of any number of bits is taken in, and the padding flag is set exactly when it ends inside a byte. |
| Skein512.Hash | src/hash/monero/skein.c:2025-2036 | The one-shot hash of any number of bits, for every output of at most 512 bits, is Skein-512 of them; the rest of the output is unchanged. |
| Jh.SsIsSbox | src/hash/monero/jh.c:126-150 | At every bit position SS applies S-box S0 or S1 of the JH specification, chosen by that bit of the constant. |
| Jh.SsUndone | src/hash/monero/jh.c:126-150 | For every constant the S-box layer is invertible. |
| Jh.MdsUndone | src/hash/monero/jh.c:115-124 | The linear layer L is invertible. |
| Jh.MdsRedone | src/hash/monero/jh.c:115-124 | And its inverse is a right inverse. |
| Jh.SwapTwice | src/hash/monero/jh.c:102-113 | Each of the six bit swaps is its own inverse. |
| Jh.RoundsUndone | src/hash/monero/jh.c:152-211 | E8 is a bijection on the 1024-bit state: any number of rounds up to 42 can be undone from both sides. |
| Jh.F8Undone | src/hash/monero/jh.c:213-226 | With a fixed message block F8 is a bijection. |
| Jh.SsMacro | src/hash/monero/jh.c:128-150 | The macro on its eight words is two S-box layers. |
| Jh.SwapRound | src/hash/monero/jh.c:158-198 | One of the six loops over the columns is one round. |
| Jh.LastRound | src/hash/monero/jh.c:200-208 | The seventh round exchanges the words of the odd rows. |
| Jh.E8 | src/hash/monero/jh.c:153-211 | The loops in place are the 42 rounds. |
| Jh.F8 | src/hash/monero/jh.c:214-226 | In place, the compression function. |
| Lanes.PackedAdd | include/fingera/multiway_integer.hpp:40-47 | Addition through the union adds lane by lane with no carry from one lane to the next. |
| Lanes.PackedRol | include/fingera/multiway_integer.hpp:77-85 | Rotation through the union, lane by lane. |
| Lanes.PackedShr | include/fingera/multiway_integer.hpp:61-68 | Right shift through the union, lane by lane. |
| Lanes.PackedShl | include/fingera/multiway_integer.hpp:69-76 | Left shift through the union, lane by lane. |
| Lanes.PackedXor | include/fingera/multiway_integer.hpp:48-50 | One exclusive or on the packed word acts lane by lane. |
| Lanes.PackedOr | include/fingera/multiway_integer.hpp:51-53 | The same for or. |
| Lanes.PackedAnd | include/fingera/multiway_integer.hpp:54-56 | The same for and. |
| Lanes.PackedAndNot | include/fingera/multiway_integer.hpp:57-59 | The same for and with the complement. |
| Lanes.PackedBroadcast | include/fingera/multiway_integer.hpp:32-38 | Every lane holds the value. |
| Lanes.PackedLoad | include/fingera/multiway_integer.hpp:87-99 | The loop over the union: lane i holds the big-endian word at the offset in its own block, for any stride. |
| Lanes.PackedSave | include/fingera/multiway_integer.hpp:100-111 | The loop over the union writes the lanes one after the other, for any stride. |
| Lanes.DataWrap.OpAdd | include/fingera/multiway_integer.hpp:136-141 | The array type adds lane by lane, the same function as the packed type. |
| Lanes.DataWrap.OpXor | include/fingera/multiway_integer.hpp:142-147 | The same function as the packed exclusive or. |
| Lanes.DataWrap.OpShr | include/fingera/multiway_integer.hpp:166-171 | The same function as the packed shift. |
| Lanes.SlowRol | include/fingera/multiway_integer.hpp:215-220 | Rotation from two shifted copies is the rotation of the packed type. |
| Lanes.SlowAndNot | include/fingera/multiway_integer.hpp:203-205 | The same function as the packed one. |
| Lanes.SlowLoad | include/fingera/multiway_integer.hpp:222-234 | The array type loads the same lanes as the packed type. |
| Lanes.SlowSave | include/fingera/multiway_integer.hpp:235-245 | The array type leaves the same memory as the packed type. |
| Lanes.OpAdd | include/fingera/multiway_integer.hpp:40-47 | Whichever lane type the code is instantiated with, the lanes of the sum are the sums of the lanes. |
| Lanes.OpXor | include/fingera/multiway_integer.hpp:48-50 | The same for exclusive or. |
| Lanes.OpAndNot | include/fingera/multiway_integer.hpp:57-59 | The same for and with the complement. |
| Lanes.OpRol | include/fingera/multiway_integer.hpp:77-85 | The same for rotation. |
| Lanes.Load | include/fingera/multiway_integer.hpp:87-99 | The same for loading. |
| Lanes.Save | include/fingera/multiway_integer.hpp:100-111 | The same for saving. |
| Lanes.SavedWord | include/fingera/multiway_integer.hpp:100-111 | After a save with blocks of at least four bytes, each lane is found big-endian at its offset in its own block, and lanes not yet written are as before. |
| Lanes.SavedElsewhere | include/fingera/multiway_integer.hpp:100-111 | A save changes no byte outside the words of the lanes. |
| Sha256.ChForm | include/fingera/hash/multiway_sha256.hpp:58-61 | The form with three operations is Ch of section 4.1.2 of FIPS 180-4. |
| Sha256.MajForm | include/fingera/hash/multiway_sha256.hpp:62-65 | The form with four operations is Maj. |
| MultiwaySha256.BigSigmasAt | include/fingera/hash/multiway_sha256.hpp:66-73 | The left rotations are the right rotations of the two large sigma functions. |
| MultiwaySha256.SmallSigmasAt | include/fingera/hash/multiway_sha256.hpp:74-81 | The same for the two small ones. |
| MultiwaySha256.LaneOfRound | include/fingera/hash/multiway_sha256.hpp:83-94 | Lane i of a round is the round of FIPS 180-4 on lane i. |
| MultiwaySha256.LaneOfSchedule | include/fingera/hash/multiway_sha256.hpp:132-190 | Lane i of schedule word t is word t of the 64-word schedule of lane i. |
| MultiwaySha256.LaneOfRounds | include/fingera/hash/multiway_sha256.hpp:96-200 | Lane i of any number of rounds depends on lane i alone and is the textbook computation. |
| MultiwaySha256.Round | include/fingera/hash/multiway_sha256.hpp:83-94 | Over either lane type, the lanes of the two registers written are those of the round. |
| MultiwaySha256.KeyedRound | include/fingera/hash/multiway_sha256.hpp:112-190 | A round with a constant and a schedule word moves the registers on by one role. |
| MultiwaySha256.LoadEight | include/fingera/hash/multiway_sha256.hpp:112-130 | Over either lane type: eight rounds whose registers change roles instead of moving, with the words loaded. |
| MultiwaySha256.RollEight | include/fingera/hash/multiway_sha256.hpp:132-190 | Over either lane type: eight rounds that roll eight of the sixteen words forward in place, w0 to w7 or w8 to w15; the registers and words are those of the 64-word schedule. |
| MultiwaySha256.ProcessBlock | include/fingera/hash/multiway_sha256.hpp:96-200 | One block of every lane, over either lane type: role-rotated registers and a sixteen-word rolling schedule give the 64 rounds and the final addition. |
| MultiwaySha256.LaneOfBlock | include/fingera/hash/multiway_sha256.hpp:96-200 | Every lane compresses its own 64 bytes by section 6.2.2 of FIPS 180-4. |
| MultiwaySha256.MessageAt | include/fingera/hash/multiway_sha256.hpp:212-216 | Block b of lane i lies 64 * way * b + 64 * i bytes into the input. |
| MultiwaySha256.ProcessTrunk | include/fingera/hash/multiway_sha256.hpp:202-226 | For the packed and for the array lane type, every lane count and every block count: the 32 output bytes of lane i are the chained compression of its own blocks, and the bytes behind the digests are unchanged. |
| Words.NatPlus | src/hash/monero/skein.c:753-754 | Word addition is addition of numbers as long as the sum fits 64 bits. |

## Left out

- OaesMessage.OaesCtx.Decrypt: requires that a cipher text of exactly 32 bytes carries no padding flag, because the code then reads the byte before its output buffer, and an output capacity below 2^64 - 32; allocation failure and null arguments other than the output buffer are not modelled.
- Keccak.Keccak: requires mdlen != 100, because there the rate is 0 and the absorbing loop of the code does not end.
- SlowHash.CnSlowHash: takes the four finalising hashes as one parameter, the same for all builds; the memory size and iteration count are parameters as well; data passed as a state must be its 200 bytes.
- SlowHash.MixOn: models the ARMv8 loop by the text of the x86 loop with its own round, from which it differs only in how registers are loaded.
- Blake256.FinalHashes: holds for every compression function, which is a parameter of that module; the concrete one is BlakeCompress.Compress. Messages of whole bytes only.
- Blake256.HmacHash: BLAKE-256 only; hmac_blake224_init cuts a BLAKE-256 digest of a long key to 28 bytes, so the law of RFC 2104 does not hold there.
- Skein512.Hash: outputs of at most 512 bits, since longer ones use Skein-1024. The four tables of initial chaining words are taken as they stand: that they are what the configuration block gives is not proved.
- Skein1024.Ctxt.ProcessBlock: models the block function only; the update and finalisation of Skein-1024 repeat those of Skein-512.
- Threefish.EncryptUndone: the order of rounds of Skein-256 is not modelled, since that width is not compiled in.
- Jh.F8: the update and finalisation around it are not modelled; the update with several calls copies a fixed amount whatever the length of the data, and only the one-shot path is used.
- Lanes.PackedAdd: lanes of 32 bits, the width that SHA-256 uses; the packed word is modelled as its bytes in memory, little-endian. Loading and saving are big-endian, the only order in use.
- MultiwaySha256.ProcessTrunk: padding of messages is left to the caller, as in the code; the vector instruction classes are not modelled, only the two portable lane types.
- Groestl: the table-driven column code needs a table of 512 words, and its buffering is an easier repeat of that of BLAKE-256.
- Hexadecimal conversion, the stratum client, OpenCL, CPU detection and build files: formatting, network and environment.
- Random generation of keys and vectors, and allocation failures: keys and vectors are arbitrary inputs.
- Cryptographic strength: no claim is made about it.
