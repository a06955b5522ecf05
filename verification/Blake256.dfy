/**
 The streaming part of BLAKE-256 (blake256.c): buffering, the bit counter with its compensation
 in finalisation, padding, and HMAC. The compression function is a parameter, so everything here
 holds for every compression function.
 */
module Blake256 {
  import opened Words
  import opened Words32

  // The chaining value h[8].
  type Chain = h: seq<bv32> | |h| == 8 witness seq(8, i => 0)

  // blake256_compress on chaining value, block and counter; without a counter when nullt is set.
  type Compression = (Chain, seq<Byte>, Option<nat>) -> Chain

  // The struct `state`: `t0` and `t1` are 32-bit words, `buflen` counts bits.
  datatype St = St(h: Chain, t0: nat, t1: nat, buflen: nat, nullt: bool, buf: seq<Byte>) {
    predicate Valid() {
      && t0 < TWO32 && t1 < TWO32 && |buf| == 64
      && buflen % 8 == 0 && buflen < 512
    }

    // Bytes waiting in the buffer.
    function Left(): nat {
      buflen / 8
    }
  }

  // ----- blake256_update on values -----

  // Counting a block and compressing it.
  function Absorb(cf: Compression, s: St, block: seq<Byte>): (r: St)
    ensures r.buf == s.buf && r.buflen == s.buflen && r.nullt == s.nullt && r.t0 < TWO32
    ensures s.t1 < TWO32 ==> r.t1 < TWO32
  {
    var t0 := (s.t0 + 512) % TWO32;
    var t1 := if t0 == 0 then (s.t1 + 1) % TWO32 else s.t1;
    s.(h := cf(s.h, block, if s.nullt then None else Some(t1 * TWO32 + t0)), t0 := t0, t1 := t1)
  }

  function AbsorbAll(cf: Compression, s: St, data: seq<Byte>): (r: St)
    ensures r.buf == s.buf && r.buflen == s.buflen && r.nullt == s.nullt
    ensures s.t0 < TWO32 && s.t1 < TWO32 ==> r.t0 < TWO32 && r.t1 < TWO32
    decreases |data|
  {
    if |data| < 64 then s else AbsorbAll(cf, Absorb(cf, s, data[..64]), data[64..])
  }

  // The copy of what is left into the buffer, and the new buflen.
  function Store(s: St, left: nat, rest: seq<Byte>): (r: St)
    requires left + |rest| <= |s.buf|
    ensures |r.buf| == |s.buf| && r.t0 == s.t0 && r.t1 == s.t1 && r.nullt == s.nullt
    ensures r.buflen % 8 == 0 && (left + |rest| < 64 ==> r.buflen < 512)
  {
    if |rest| > 0 then
      s.(buf := s.buf[..left] + rest + s.buf[left + |rest|..], buflen := 8 * left + 8 * |rest|)
    else s.(buflen := 0)
  }

  function Rest(data: seq<Byte>): (r: seq<Byte>)
    ensures |r| == |data| % 64
  {
    data[|data| - |data| % 64..]
  }

  lemma Fits(buflen: nat, n: nat)
    requires buflen < 512
    ensures buflen / 8 < 64
    ensures n < 64 - buflen / 8 ==> n % 64 == n
  {
  }

  function Updated(cf: Compression, s: St, data: seq<Byte>): (r: St)
    requires s.Valid()
    ensures r.Valid() && r.nullt == s.nullt
  {
    hide Store, Absorb, AbsorbAll, Rest;
    Fits(s.buflen, |data|);
    var left := s.Left();
    var fill := 64 - left;
    if left > 0 && |data| >= fill then
      var full := s.(buf := s.buf[..left] + data[..fill]);
      var s1 := Absorb(cf, full, full.buf);
      Store(AbsorbAll(cf, s1, data[fill..]), 0, Rest(data[fill..]))
    else
      // either left is 0 or data is too short to fill the buffer
      Store(AbsorbAll(cf, s, data), left, Rest(data))
  }

  // ----- absorbing a message -----

  // Blocks that lie inside the message, each with the number of bits hashed so far.
  function PlainBlocks(cf: Compression, h: Chain, m: seq<Byte>, n: nat): Chain
    requires 64 * n <= |m|
  {
    if n == 0 then h
    else cf(PlainBlocks(cf, h, m, n - 1), m[64 * (n - 1)..64 * n], Some(512 * n))
  }

  // The state that has taken in exactly the message `m` since it had chaining value `h`.
  ghost predicate Holds(cf: Compression, h: Chain, s: St, m: seq<Byte>) {
    && s.Valid() && !s.nullt
    && s.h == PlainBlocks(cf, h, m, |m| / 64)
    && s.t1 * TWO32 + s.t0 == 512 * (|m| / 64)
    && s.buflen == 8 * (|m| % 64)
    && s.buf[..|m| % 64] == m[|m| - |m| % 64..]
  }

  // Only the prefix matters.
  lemma {:induction false} PlainBlocksPrefix(cf: Compression, h: Chain, m: seq<Byte>, x: seq<Byte>, n: nat)
    requires 64 * n <= |m|
    ensures PlainBlocks(cf, h, m + x, n) == PlainBlocks(cf, h, m, n)
  {
    if n > 0 {
      PlainBlocksPrefix(cf, h, m, x, n - 1);
      assert (m + x)[64 * (n - 1)..64 * n] == m[64 * (n - 1)..64 * n];
    }
  }

  // A state between blocks: `m` is a whole number of blocks and all of it has been compressed.
  ghost predicate Between(cf: Compression, h: Chain, s: St, m: seq<Byte>) {
    && |s.buf| == 64 && s.t0 < TWO32 && s.t1 < TWO32 && !s.nullt
    && |m| % 64 == 0
    && s.h == PlainBlocks(cf, h, m, |m| / 64)
    && s.t1 * TWO32 + s.t0 == 512 * (|m| / 64)
  }

  // The two counter words count blocks without losing a carry.
  lemma CounterStep(t0: nat, t1: nat, n: nat)
    requires t0 < TWO32 && t1 < TWO32 && t1 * TWO32 + t0 == 512 * n && 512 * (n + 1) < TWO64
    ensures var u0 := (t0 + 512) % TWO32;
            var u1 := if u0 == 0 then (t1 + 1) % TWO32 else t1;
            u0 < TWO32 && u1 < TWO32 && u1 * TWO32 + u0 == 512 * (n + 1)
  {
  }

  lemma AbsorbKeeps(cf: Compression, h: Chain, s: St, m: seq<Byte>, block: seq<Byte>)
    requires Between(cf, h, s, m) && |block| == 64 && 8 * (|m| + 64) < TWO64
    ensures Between(cf, h, Absorb(cf, s, block), m + block)
    ensures Absorb(cf, s, block).buf == s.buf
  {
    var n := |m| / 64;
    CounterStep(s.t0, s.t1, n);
    PlainBlocksPrefix(cf, h, m, block, n);
    assert (m + block)[64 * n..64 * (n + 1)] == block;
    assert |m + block| / 64 == n + 1;
  }

  lemma {:induction false} AbsorbAllKeeps(cf: Compression, h: Chain, s: St, m: seq<Byte>, data: seq<Byte>)
    requires Between(cf, h, s, m) && 8 * (|m| + |data|) < TWO64
    ensures Between(cf, h, AbsorbAll(cf, s, data), m + data[..|data| - |data| % 64])
    ensures AbsorbAll(cf, s, data).buf == s.buf
    decreases |data|
  {
    hide Between, Absorb;
    if |data| < 64 {
      assert m + data[..0] == m;
    } else {
      AbsorbKeeps(cf, h, s, m, data[..64]);
      AbsorbAllKeeps(cf, h, Absorb(cf, s, data[..64]), m + data[..64], data[64..]);
      assert |data[64..]| % 64 == |data| % 64;
      assert (m + data[..64]) + data[64..][..|data[64..]| - |data[64..]| % 64] == m + data[..|data| - |data| % 64];
    }
  }

  lemma HoldsIsValid(cf: Compression, h: Chain, s: St, m: seq<Byte>)
    requires Holds(cf, h, s, m)
    ensures s.Valid()
  {
  }

  // ----- what one update does -----

  lemma UpdateFills(cf: Compression, s: St, data: seq<Byte>)
    requires s.Valid() && s.Left() > 0 && |data| >= 64 - s.Left()
    ensures var left := s.Left();
            var fill := 64 - left;
            var full := s.(buf := s.buf[..left] + data[..fill]);
            Updated(cf, s, data)
            == Store(AbsorbAll(cf, Absorb(cf, full, full.buf), data[fill..]), 0, Rest(data[fill..]))
  {
  }

  lemma {:induction false} StoreKeeps(cf: Compression, h: Chain, s: St, m: seq<Byte>, rest: seq<Byte>)
    requires Between(cf, h, s, m) && |rest| < 64
    ensures Holds(cf, h, Store(s, 0, rest), m + rest)
  {
    var q := |m| / 64;
    PlainBlocksPrefix(cf, h, m, rest, q);
    assert |m + rest| / 64 == q && |m + rest| % 64 == |rest|;
    assert (m + rest)[|m|..] == rest;
    if |rest| > 0 {
      assert (s.buf[..0] + rest + s.buf[0 + |rest|..])[..|rest|] == rest;
    }
  }

  // The buffered bytes and the blocks before them.
  lemma HoldsSplits(cf: Compression, h: Chain, s: St, m: seq<Byte>)
    requires Holds(cf, h, s, m)
    ensures var w := |m| - |m| % 64;
            Between(cf, h, s, m[..w]) && m == m[..w] + m[w..] && s.buf[..s.Left()] == m[w..] && s.Left() == |m| % 64
  {
    var w := |m| - |m| % 64;
    assert m == m[..w] + m[w..];
    PlainBlocksPrefix(cf, h, m[..w], m[w..], |m| / 64);
  }

  lemma RestSplits(data: seq<Byte>)
    ensures data[..|data| - |data| % 64] + Rest(data) == data
  {
  }

  // Taking the whole blocks of `data` and then storing what is left.
  lemma AbsorbAndStore(cf: Compression, h: Chain, s: St, m: seq<Byte>, data: seq<Byte>)
    requires Between(cf, h, s, m) && 8 * (|m| + |data|) < TWO64
    ensures Holds(cf, h, Store(AbsorbAll(cf, s, data), 0, Rest(data)), m + data)
  {
    hide *;
    var cut := |data| - |data| % 64;
    AbsorbAllKeeps(cf, h, s, m, data);
    StoreKeeps(cf, h, AbsorbAll(cf, s, data), m + data[..cut], Rest(data));
    RestSplits(data);
    assert (m + data[..cut]) + Rest(data) == m + (data[..cut] + Rest(data));
  }

  lemma UpdateAligned(cf: Compression, h: Chain, s: St, m: seq<Byte>, data: seq<Byte>)
    requires Holds(cf, h, s, m) && |m| % 64 == 0 && 8 * (|m| + |data|) < TWO64
    ensures Holds(cf, h, Updated(cf, s, data), m + data)
  {
    HoldsSplits(cf, h, s, m);
    assert m[..|m|] == m;
    AbsorbAndStore(cf, h, s, m, data);
  }

  // Between blocks the buffer does not matter.
  lemma BetweenAnyBuffer(cf: Compression, h: Chain, s: St, m: seq<Byte>, b: seq<Byte>)
    requires Between(cf, h, s, m) && |b| == 64
    ensures Between(cf, h, s.(buf := b), m)
  {
  }

  lemma FillAndAbsorb(cf: Compression, h: Chain, full: St, m: seq<Byte>, data: seq<Byte>)
    requires Between(cf, h, full, m) && 8 * (|m| + 64 + |data|) < TWO64
    ensures Holds(cf, h, Store(AbsorbAll(cf, Absorb(cf, full, full.buf), data), 0, Rest(data)), m + full.buf + data)
  {
    assert |full.buf| == 64;
    hide Holds, AbsorbAll, Absorb, Between, Store, Rest;
    AbsorbKeeps(cf, h, full, m, full.buf);
    AbsorbAndStore(cf, h, Absorb(cf, full, full.buf), m + full.buf, data);
  }

  lemma FillFromTail(cf: Compression, h: Chain, s: St, m: seq<Byte>, tail: seq<Byte>, data: seq<Byte>, fill: nat)
    requires Between(cf, h, s, m) && |tail| + fill == 64 && fill <= |data| && 8 * (|m| + |tail| + |data|) < TWO64
    ensures var full := s.(buf := tail + data[..fill]);
            Holds(cf, h, Store(AbsorbAll(cf, Absorb(cf, full, full.buf), data[fill..]), 0, Rest(data[fill..])),
                m + tail + data)
  {
    hide *;
    var full := s.(buf := tail + data[..fill]);
    BetweenAnyBuffer(cf, h, s, m, full.buf);
    FillAndAbsorb(cf, h, full, m, data[fill..]);
    assert m + (tail + data[..fill]) + data[fill..] == m + tail + data;
  }

  lemma UpdateOverflows(cf: Compression, h: Chain, s: St, m: seq<Byte>, data: seq<Byte>)
    requires Holds(cf, h, s, m) && |m| % 64 > 0 && |data| >= 64 - |m| % 64 && 8 * (|m| + |data|) < TWO64
    ensures Holds(cf, h, Updated(cf, s, data), m + data)
  {
    hide *;
    HoldsIsValid(cf, h, s, m);
    HoldsSplits(cf, h, s, m);
    var w := |m| - |m| % 64;
    FillFromTail(cf, h, s, m[..w], m[w..], data, 64 - s.Left());
    UpdateFills(cf, s, data);
  }

  lemma UpdateBuffers(cf: Compression, h: Chain, s: St, m: seq<Byte>, data: seq<Byte>)
    requires Holds(cf, h, s, m) && 0 < |data| < 64 - |m| % 64
    ensures Holds(cf, h, Updated(cf, s, data), m + data)
  {
    HoldsSplits(cf, h, s, m);
    var left := s.Left();
    var q := |m| / 64;
    assert Rest(data) == data;
    PlainBlocksPrefix(cf, h, m, data, q);
    assert |m + data| / 64 == q && |m + data| % 64 == left + |data|;
    var r := Updated(cf, s, data);
    assert r == s.(buf := s.buf[..left] + data + s.buf[left + |data|..], buflen := 8 * left + 8 * |data|);
    assert r.buf[..left + |data|] == s.buf[..left] + data == (m + data)[|m| - left..];
  }

  // The guard of the branch that forgets: no bytes arrive while bytes are waiting.
  predicate Forgets(waiting: nat, data: seq<Byte>) {
    data == [] && waiting != 0
  }

  // One update appends its data, except that an update with no data drops the waiting bytes.
  lemma UpdateKeeps(cf: Compression, h: Chain, s: St, m: seq<Byte>, data: seq<Byte>)
    requires Holds(cf, h, s, m) && 8 * (|m| + |data|) < TWO64
    ensures Holds(cf, h, Updated(cf, s, data), m + data) <==> !Forgets(|m| % 64, data)
  {
    if |m| % 64 == 0 {
      UpdateAligned(cf, h, s, m, data);
    } else if |data| >= 64 - |m| % 64 {
      UpdateOverflows(cf, h, s, m, data);
    } else if data != [] {
      UpdateBuffers(cf, h, s, m, data);
    } else {
      assert m + data == m;
      assert Updated(cf, s, data).buflen == 0;
    }
  }

  // ----- any sequence of updates -----

  function UpdateEach(cf: Compression, s: St, chunks: seq<seq<Byte>>): (r: St)
    requires s.Valid()
    ensures r.Valid() && r.nullt == s.nullt
  {
    if chunks == [] then s
    else Updated(cf, UpdateEach(cf, s, chunks[..|chunks| - 1]), chunks[|chunks| - 1])
  }

  // No chunk is empty at a moment when bytes are waiting, going by the lengths alone.
  predicate NeverForgets(waiting: nat, chunks: seq<seq<Byte>>) {
    |chunks| > 0 ==>
      && NeverForgets(waiting, chunks[..|chunks| - 1])
      && !Forgets((waiting + |Concat(chunks[..|chunks| - 1])|) % 64, chunks[|chunks| - 1])
  }

  // The two counter words together count `n` compressed blocks.
  ghost predicate Ticks(s: St, n: nat) {
    s.t0 < TWO32 && s.t1 < TWO32 && s.t1 * TWO32 + s.t0 == 512 * n
  }

  lemma AbsorbTicks(cf: Compression, s: St, n: nat, block: seq<Byte>)
    requires Ticks(s, n) && 512 * (n + 1) < TWO64
    ensures Ticks(Absorb(cf, s, block), n + 1)
  {
    CounterStep(s.t0, s.t1, n);
  }

  lemma {:induction false} AbsorbAllTicks(cf: Compression, s: St, n: nat, data: seq<Byte>)
    requires Ticks(s, n) && 512 * n + 8 * |data| < TWO64
    ensures Ticks(AbsorbAll(cf, s, data), n + |data| / 64)
    decreases |data|
  {
    hide Ticks, Absorb;
    if |data| >= 64 {
      AbsorbTicks(cf, s, n, data[..64]);
      AbsorbAllTicks(cf, Absorb(cf, s, data[..64]), n + 1, data[64..]);
      assert |data| / 64 == 1 + |data[64..]| / 64;
    }
  }

  lemma Carries(left: nat, d: nat)
    requires left < 64 && left + d >= 64
    ensures (left + d) / 64 == 1 + (d - (64 - left)) / 64
    ensures (left + d) % 64 == (d - (64 - left)) % 64
  {
  }

  lemma StoreLeaves(s: St, left: nat, rest: seq<Byte>)
    requires left + |rest| <= |s.buf|
    ensures Store(s, left, rest).Left() == if rest == [] then 0 else left + |rest|
  {
  }

  lemma FillTicks(cf: Compression, full: St, n: nat, data: seq<Byte>)
    requires |full.buf| == 64 && Ticks(full, n) && 512 * (n + 1) + 8 * |data| < TWO64
    ensures var r := Store(AbsorbAll(cf, Absorb(cf, full, full.buf), data), 0, Rest(data));
            Ticks(r, n + 1 + |data| / 64) && r.Left() == |data| % 64
  {
    hide AbsorbAll, Absorb;
    AbsorbTicks(cf, full, n, full.buf);
    AbsorbAllTicks(cf, Absorb(cf, full, full.buf), n + 1, data);
    StoreLeaves(AbsorbAll(cf, Absorb(cf, full, full.buf), data), 0, Rest(data));
  }

  lemma ShortTicks(cf: Compression, s: St, n: nat, data: seq<Byte>)
    requires s.Valid() && Ticks(s, n) && 512 * n + 8 * |data| < TWO64
    requires s.Left() == 0 || |data| < 64 - s.Left()
    ensures Ticks(Updated(cf, s, data), n + (s.Left() + |data|) / 64)
    ensures Updated(cf, s, data).Left() == if data == [] then 0 else (s.Left() + |data|) % 64
  {
    AbsorbAllTicks(cf, s, n, data);
    StoreLeaves(AbsorbAll(cf, s, data), s.Left(), Rest(data));
  }

  lemma TicksAnyBuffer(s: St, n: nat, b: seq<Byte>)
    requires Ticks(s, n)
    ensures Ticks(s.(buf := b), n)
  {
  }

  lemma LeftFits(s: St)
    requires s.Valid()
    ensures s.Left() < 64 && |s.buf| == 64 && s.buflen == 8 * s.Left()
  {
  }

  lemma LongTicks(cf: Compression, s: St, n: nat, data: seq<Byte>)
    requires s.Valid() && 0 < s.Left() < 64 && |s.buf| == 64 && |data| >= 64 - s.Left()
    requires Ticks(s, n) && 512 * n + 8 * s.Left() + 8 * |data| < TWO64
    ensures var rest := |data| - (64 - s.Left());
            Ticks(Updated(cf, s, data), n + 1 + rest / 64) && Updated(cf, s, data).Left() == rest % 64
  {
    hide *;
    UpdateFills(cf, s, data);
    var left := s.Left();
    var full := s.(buf := s.buf[..left] + data[..64 - left]);
    TicksAnyBuffer(s, n, full.buf);
    FillTicks(cf, full, n, data[64 - left..]);
  }

  // An update accounts for its own bytes; one that forgets takes the waiting bytes back.
  lemma UpdateTicks(cf: Compression, s: St, n: nat, data: seq<Byte>)
    requires s.Valid() && Ticks(s, n) && 512 * n + 8 * s.Left() + 8 * |data| < TWO64
    ensures Ticks(Updated(cf, s, data), n + (s.Left() + |data|) / 64)
    ensures Updated(cf, s, data).Left() == if Forgets(s.Left(), data) then 0 else (s.Left() + |data|) % 64
  {
    LeftFits(s);
    hide *;
    if s.Left() > 0 && |data| >= 64 - s.Left() {
      LongTicks(cf, s, n, data);
      Carries(s.Left(), |data|);
    } else {
      ShortTicks(cf, s, n, data);
    }
  }

  // One more chunk of `d` bytes on `left` waiting ones, when `total` bytes have arrived before.
  lemma AccountStep(n: nat, left: nat, d: nat, total: nat)
    requires left < 64 && 64 * n + left <= total
    ensures 64 * (n + (left + d) / 64) + (left + d) % 64 == 64 * n + left + d
    ensures d == 0 ==> (left + d) / 64 == 0
    ensures 64 * n + left == total ==> left == total % 64
  {
  }

  lemma RunStep(cf: Compression, h: Chain, s: St, m: seq<Byte>, front: seq<seq<Byte>>, last: seq<Byte>)
    requires s.Valid() && NeverForgets(|m|, front + [last])
    ensures NeverForgets(|m|, front)
    ensures !Forgets(|m + Concat(front)| % 64, last)
    ensures UpdateEach(cf, s, front + [last]) == Updated(cf, UpdateEach(cf, s, front), last)
    ensures m + Concat(front + [last]) == m + Concat(front) + last
  {
    hide Updated;
    assert (front + [last])[..|front + [last]| - 1] == front;
  }

  lemma {:induction false} RunHolds(cf: Compression, h: Chain, s: St, m: seq<Byte>, chunks: seq<seq<Byte>>)
    requires Holds(cf, h, s, m) && 8 * |m + Concat(chunks)| < TWO64 && NeverForgets(|m|, chunks)
    ensures s.Valid()
    ensures Holds(cf, h, UpdateEach(cf, s, chunks), m + Concat(chunks))
  {
    HoldsIsValid(cf, h, s, m);
    if chunks == [] {
      assert m + [] == m;
    } else {
      hide *;
      var front, last := chunks[..|chunks| - 1], chunks[|chunks| - 1];
      assert chunks == front + [last];
      RunStep(cf, h, s, m, front, last);
      RunHolds(cf, h, s, m, front);
      UpdateKeeps(cf, h, UpdateEach(cf, s, front), m + Concat(front), last);
    }
  }

  // What the state accounts for after a run that began with `m` bytes accounted for: never more
  // than has arrived, and all of it exactly when nothing was forgotten.
  lemma {:induction false} RunAccounts(cf: Compression, s: St, n0: nat, chunks: seq<seq<Byte>>) returns (n: nat)
    requires s.Valid() && Ticks(s, n0) && 8 * (64 * n0 + s.Left() + |Concat(chunks)|) < TWO64
    ensures var r, m := UpdateEach(cf, s, chunks), 64 * n0 + s.Left();
            && Ticks(r, n)
            && 64 * n + r.Left() <= m + |Concat(chunks)|
            && (64 * n + r.Left() == m + |Concat(chunks)| <==> NeverForgets(m, chunks))
  {
    hide *;
    if chunks == [] {
      n := n0;
      EmptyRun(cf, s, 64 * n0 + s.Left());
    } else {
      var front, last := chunks[..|chunks| - 1], chunks[|chunks| - 1];
      assert chunks == front + [last];
      RunParts(cf, s, 64 * n0 + s.Left(), front, last);
      n := RunAccounts(cf, s, n0, front);
      var r := UpdateEach(cf, s, front);
      LeftFits(r);
      AccountStep(n, r.Left(), |last|, 64 * n0 + s.Left() + |Concat(front)|);
      UpdateTicks(cf, r, n, last);
      ForgetsIs(r.Left(), last);
      ForgetsIs((64 * n0 + s.Left() + |Concat(front)|) % 64, last);
      n := n + (r.Left() + |last|) / 64;
    }
  }

  lemma ForgetsIs(waiting: nat, data: seq<Byte>)
    ensures Forgets(waiting, data) <==> |data| == 0 && waiting != 0
  {
  }

  lemma EmptyRun(cf: Compression, s: St, m: nat)
    requires s.Valid()
    ensures UpdateEach(cf, s, []) == s && Concat([]) == [] && NeverForgets(m, [])
  {
  }

  lemma RunParts(cf: Compression, s: St, m: nat, front: seq<seq<Byte>>, last: seq<Byte>)
    requires s.Valid()
    ensures UpdateEach(cf, s, front + [last]) == Updated(cf, UpdateEach(cf, s, front), last)
    ensures |Concat(front + [last])| == |Concat(front)| + |last|
    ensures NeverForgets(m, front + [last]) <==> NeverForgets(m, front) && !Forgets((m + |Concat(front)|) % 64, last)
  {
    hide Updated, Forgets;
    assert (front + [last])[..|front + [last]| - 1] == front;
  }

  lemma HoldsTicks(cf: Compression, h: Chain, s: St, m: seq<Byte>)
    requires Holds(cf, h, s, m)
    ensures s.Valid() && Ticks(s, |m| / 64) && 64 * (|m| / 64) + s.Left() == |m|
  {
  }

  lemma TicksUnique(s: St, n: nat, k: nat)
    requires Ticks(s, n) && Ticks(s, k)
    ensures n == k
  {
  }

  // After any sequence of chunks the state stands for the whole concatenation exactly when no chunk
  // was empty while bytes were waiting: what a forgetting update loses is never made good.
  lemma ChunksAppend(cf: Compression, h: Chain, s: St, m: seq<Byte>, chunks: seq<seq<Byte>>)
    requires Holds(cf, h, s, m) && 8 * (|m| + |Concat(chunks)|) < TWO64
    ensures Holds(cf, h, UpdateEach(cf, s, chunks), m + Concat(chunks)) <==> NeverForgets(|m|, chunks)
  {
    hide *;
    HoldsTicks(cf, h, s, m);
    if NeverForgets(|m|, chunks) {
      RunHolds(cf, h, s, m, chunks);
    }
    if Holds(cf, h, UpdateEach(cf, s, chunks), m + Concat(chunks)) {
      var n := RunAccounts(cf, s, |m| / 64, chunks);
      HoldsTicks(cf, h, UpdateEach(cf, s, chunks), m + Concat(chunks));
      TicksUnique(UpdateEach(cf, s, chunks), n, |m + Concat(chunks)| / 64);
    }
  }

  lemma {:induction false} NonEmptyNeverForgets(waiting: nat, chunks: seq<seq<Byte>>)
    requires forall c :: c in chunks ==> c != []
    ensures NeverForgets(waiting, chunks)
  {
    if chunks != [] {
      var front := chunks[..|chunks| - 1];
      assert forall c :: c in front ==> c in chunks;
      NonEmptyNeverForgets(waiting, front);
      assert chunks[|chunks| - 1] in chunks;
    }
  }

  // Everything of a state that a later operation can look at.
  ghost predicate SameLive(s: St, r: St)
    requires s.Valid() && r.Valid()
  {
    && s.h == r.h && s.t0 == r.t0 && s.t1 == r.t1 && s.buflen == r.buflen && s.nullt == r.nullt
    && s.buf[..s.Left()] == r.buf[..r.Left()]
  }

  lemma HoldsFixes(cf: Compression, h: Chain, s: St, r: St, m: seq<Byte>)
    requires Holds(cf, h, s, m) && Holds(cf, h, r, m)
    ensures SameLive(s, r)
  {
  }

  // Non-empty chunks leave the state that one update with all of them leaves.
  lemma ChunksAsOne(cf: Compression, h: Chain, s: St, m: seq<Byte>, chunks: seq<seq<Byte>>)
    requires Holds(cf, h, s, m) && 8 * (|m| + |Concat(chunks)|) < TWO64
    requires chunks != [] && forall c :: c in chunks ==> c != []
    ensures SameLive(UpdateEach(cf, s, chunks), Updated(cf, s, Concat(chunks)))
  {
    NonEmptyNeverForgets(|m|, chunks);
    ChunksAppend(cf, h, s, m, chunks);
    assert chunks[|chunks| - 1] in chunks;
    assert Concat(chunks) != [];
    assert s.Valid();
    hide Holds, Updated, UpdateEach, SameLive;
    UpdateKeeps(cf, h, s, m, Concat(chunks));
    HoldsFixes(cf, h, UpdateEach(cf, s, chunks), Updated(cf, s, Concat(chunks)), m + Concat(chunks));
  }

  // ----- the padded message -----

  function ToByte(n: nat): Byte
    requires n < 256
  {
    n as Byte
  }

  // `n` in `k` bytes, most significant first.
  function BigEndian(n: nat, k: nat): (r: seq<Byte>)
    ensures |r| == k
  {
    if k == 0 then [] else BigEndian(n / 256, k - 1) + [ToByte(n % 256)]
  }

  // The number of padding bytes that leaves exactly 8 bytes of the last block for the length.
  function PadLength(len: nat): (k: nat)
    ensures 1 <= k <= 64
  {
    if len % 64 < 56 then 56 - len % 64 else 120 - len % 64
  }

  // A one bit, zeros, and the marker of the variant in the last bit (section 2.1.3 of the BLAKE
  // specification); the first and last padding byte may be the same one.
  function Pad(k: nat, marker: Byte): (r: seq<Byte>)
    ensures |r| == k
  {
    seq(k, i => (if i == 0 then 0x80 else 0) | (if i == k - 1 then marker else 0))
  }

  function Padded(m: seq<Byte>, marker: Byte): seq<Byte> {
    m + Pad(PadLength(|m|), marker) + BigEndian(8 * |m|, 8)
  }

  // The message bits hashed up to and including block `i`; none when the block holds no message bit.
  function Counter(len: nat, i: nat): Option<nat> {
    if 64 * i < len then Some(if 64 * (i + 1) <= len then 512 * (i + 1) else 8 * len) else None
  }

  function HashBlocks(cf: Compression, h: Chain, p: seq<Byte>, len: nat, n: nat): Chain
    requires 64 * n <= |p|
  {
    if n == 0 then h else cf(HashBlocks(cf, h, p, len, n - 1), p[64 * (n - 1)..64 * n], Counter(len, n - 1))
  }

  // BLAKE from chaining value `h`.
  function Hash(cf: Compression, h: Chain, m: seq<Byte>, marker: Byte): Chain {
    HashBlocks(cf, h, Padded(m, marker), |m|, |Padded(m, marker)| / 64)
  }

  // ----- blake256_final_h on values -----

  function U32To8(v: nat): seq<Byte>
    requires v < TWO32
  {
    [ToByte(v / 0x100_0000), ToByte(v / 0x1_0000 % 256), ToByte(v / 0x100 % 256), ToByte(v % 256)]
  }

  // The static array `padding`.
  function Padding(): (r: seq<Byte>)
    ensures |r| == 64
  {
    seq(64, i => if i == 0 then 0x80 else 0)
  }

  // The compensation `t[0] -= n`.
  function Back(s: St, n: nat): St {
    s.(t0 := (s.t0 - n) % TWO32)
  }

  function LengthField(s: St): (r: seq<Byte>)
    requires s.Valid()
    ensures |r| == 8
  {
    var lo := (s.t0 + s.buflen) % TWO32;
    var hi := if lo < s.buflen then (s.t1 + 1) % TWO32 else s.t1;
    U32To8(hi) + U32To8(lo)
  }

  // The zeros up to the last padding byte, when that byte is not the first.
  function ZerosIn(cf: Compression, s: St): (r: St)
    requires s.Valid() && s.buflen != 440
    ensures r.Valid()
  {
    if s.buflen < 440 then
      var s0 := if s.buflen == 0 then s.(nullt := true) else s;
      Updated(cf, Back(s0, 440 - s.buflen), Padding()[..55 - s.Left()])
    else
      var s0 := Updated(cf, Back(s, 512 - s.buflen), Padding()[..64 - s.Left()]);
      Updated(cf, Back(s0, 440), Padding()[1..56]).(nullt := true)
  }

  // Everything of blake256_final_h before the length goes in.
  function PadState(cf: Compression, s: St, pa: Byte, pb: Byte): (r: St)
    requires s.Valid()
    ensures r.Valid()
  {
    if s.buflen == 440 then Updated(cf, Back(s, 8), [pa])
    else Back(Updated(cf, ZerosIn(cf, s), [pb]), 8)
  }

  function FinalState(cf: Compression, s: St, pa: Byte, pb: Byte): St
    requires s.Valid()
  {
    Updated(cf, Back(PadState(cf, s, pa, pb), 64), LengthField(s))
  }

  function Finished(cf: Compression, s: St, pa: Byte, pb: Byte): Chain
    requires s.Valid()
  {
    FinalState(cf, s, pa, pb).h
  }

  // ----- finalisation compresses the padded message -----

  lemma DivideTwice(v: nat)
    requires v < TWO32
    ensures v / 256 / 256 == v / 0x1_0000
    ensures v / 256 / 256 / 256 == v / 0x100_0000 < 256
  {
  }

  lemma U32To8IsBigEndian(v: nat)
    requires v < TWO32
    ensures U32To8(v) == BigEndian(v, 4)
  {
    hide ToByte;
    DivideTwice(v);
    assert BigEndian(v / 256 / 256 / 256, 1) == [ToByte(v / 256 / 256 / 256 % 256)];
    assert BigEndian(v / 256 / 256, 2) == [ToByte(v / 256 / 256 / 256 % 256), ToByte(v / 256 / 256 % 256)];
    assert BigEndian(v / 256, 3)
        == [ToByte(v / 256 / 256 / 256 % 256), ToByte(v / 256 / 256 % 256), ToByte(v / 256 % 256)];
  }

  // Both words of the length field together.
  lemma {:induction false} BigEndianJoins(hi: nat, lo: nat, k: nat, p: nat)
    requires p == Power256(k) && lo < p
    ensures BigEndian(hi * p + lo, 4 + k) == BigEndian(hi, 4) + BigEndian(lo, k)
  {
    if k == 0 {
      assert hi * 1 + 0 == hi;
    } else {
      var q := Power256(k - 1);
      Regroup(hi, lo, q);
      BigEndianJoins(hi, lo / 256, k - 1, q);
    }
  }

  function Power256(k: nat): (p: nat)
    ensures p > 0
  {
    if k == 0 then 1 else 256 * Power256(k - 1)
  }

  lemma Regroup(hi: nat, lo: nat, q: nat)
    requires q > 0 && lo < 256 * q
    ensures (hi * (256 * q) + lo) / 256 == hi * q + lo / 256
    ensures (hi * (256 * q) + lo) % 256 == lo % 256
    ensures lo / 256 < q
  {
    assert hi * (256 * q) == 256 * (hi * q);
  }

  lemma CounterWords(t0: nat, t1: nat, b: nat)
    requires t0 < TWO32 && t1 < TWO32 && b < 512 && t1 * TWO32 + t0 + b < TWO64
    ensures var lo := (t0 + b) % TWO32;
            var hi := if lo < b then (t1 + 1) % TWO32 else t1;
            lo < TWO32 && hi < TWO32 && hi * TWO32 + lo == t1 * TWO32 + t0 + b
  {
  }

  lemma LengthFieldIsLength(s: St, bits: nat)
    requires s.Valid() && s.t1 * TWO32 + s.t0 + s.buflen == bits < TWO64
    ensures LengthField(s) == BigEndian(bits, 8)
  {
    hide BigEndian, U32To8, Power256;
    CounterWords(s.t0, s.t1, s.buflen);
    var lo := (s.t0 + s.buflen) % TWO32;
    var hi := if lo < s.buflen then (s.t1 + 1) % TWO32 else s.t1;
    assert LengthField(s) == U32To8(hi) + U32To8(lo);
    hide LengthField;
    U32To8IsBigEndian(hi);
    U32To8IsBigEndian(lo);
    assert TWO32 == Power256(4) by {
      TwoTo32();
    }
    BigEndianJoins(hi, lo, 4, TWO32);
  }

  lemma TwoTo32()
    ensures Power256(4) == TWO32
  {
    assert Power256(2) == 0x1_0000;
  }

  // The bytes waiting in a valid state.
  ghost predicate Tail(s: St, x: seq<Byte>) {
    s.Valid() && |x| < 64 && s.Left() == |x| && s.buf[..|x|] == x
  }

  lemma Append(cf: Compression, s: St, x: seq<Byte>, d: seq<Byte>)
    requires Tail(s, x) && d != [] && |x| + |d| < 64
    ensures var r := Updated(cf, s, d);
            Tail(r, x + d) && r.h == s.h && r.t0 == s.t0 && r.t1 == s.t1 && r.nullt == s.nullt
  {
    assert Rest(d) == d;
    var r := Updated(cf, s, d);
    assert r == s.(buf := s.buf[..|x|] + d + s.buf[|x| + |d|..], buflen := 8 * |x| + 8 * |d|);
    assert r.buf[..|x + d|] == s.buf[..|x|] + d;
  }

  lemma NothingLeft(cf: Compression, s: St)
    requires |s.buf| == 64
    ensures Store(AbsorbAll(cf, s, []), 0, Rest([])) == s.(buflen := 0)
  {
  }

  lemma AbsorbIs(cf: Compression, s: St, block: seq<Byte>)
    ensures var r := Absorb(cf, s, block);
            && r.t0 == (s.t0 + 512) % TWO32
            && r.t1 == (if r.t0 == 0 then (s.t1 + 1) % TWO32 else s.t1)
            && r == s.(h := cf(s.h, block, if s.nullt then None else Some(r.t1 * TWO32 + r.t0)), t0 := r.t0, t1 := r.t1)
  {
  }

  lemma TailFacts(s: St, x: seq<Byte>)
    requires Tail(s, x)
    ensures s.Valid() && |s.buf| == 64 && s.Left() == |x| && s.buf[..|x|] == x
  {
  }

  lemma CompleteIs(cf: Compression, s: St, x: seq<Byte>, d: seq<Byte>)
    requires s.Valid() && s.Left() == |x| && s.buf[..|x|] == x && x != [] && |x| + |d| == 64
    ensures Updated(cf, s, d) == Absorb(cf, s.(buf := x + d), x + d).(buflen := 0)
  {
    UpdateFills(cf, s, d);
    hide *;
    assert d[64 - s.Left()..] == [] && d[..64 - s.Left()] == d;
    NothingLeft(cf, Absorb(cf, s.(buf := x + d), x + d));
  }

  lemma Complete(cf: Compression, s: St, x: seq<Byte>, d: seq<Byte>)
    requires Tail(s, x) && x != [] && |x| + |d| == 64
    ensures var r := Updated(cf, s, d);
            && Tail(r, [])
            && r.nullt == s.nullt
            && r.t0 == (s.t0 + 512) % TWO32
            && r.t1 == (if r.t0 == 0 then (s.t1 + 1) % TWO32 else s.t1)
            && r.h == cf(s.h, x + d, if s.nullt then None else Some(r.t1 * TWO32 + r.t0))
  {
    hide *;
    TailFacts(s, x);
    CompleteIs(cf, s, x, d);
    AbsorbIs(cf, s.(buf := x + d), x + d);
    EmptyTail(Updated(cf, s, d));
  }

  lemma EmptyTail(s: St)
    requires s.Valid() && s.buflen == 0
    ensures Tail(s, [])
  {
  }

  // Taking `512 - b` off the low word makes the next block count `b` bits, with no carry.
  lemma Compensated(t0: nat, t1: nat, q: nat, b: nat)
    requires t0 < TWO32 && t1 < TWO32 && t1 * TWO32 + t0 == 512 * q && 0 < b < 512
    ensures var u := ((t0 - (512 - b)) % TWO32 + 512) % TWO32;
            u == t0 + b && u != 0 && t1 * TWO32 + u == 512 * q + b
  {
  }

  lemma BackBack(t: int, a: nat, b: nat)
    ensures (((t - a) % TWO32) - b) % TWO32 == (t - (a + b)) % TWO32
  {
  }

  // One padding byte, a0: both markers in one.
  lemma FinalOne(cf: Compression, s: St, x: seq<Byte>, q: nat, pa: Byte, pb: Byte)
    requires Tail(s, x) && |x| == 55 && !s.nullt && s.t1 * TWO32 + s.t0 == 512 * q
    ensures Finished(cf, s, pa, pb) == cf(s.h, x + [pa] + LengthField(s), Some(512 * q + 440))
  {
    hide Updated, LengthField;
    var s1 := Back(s, 8);
    Append(cf, s1, x, [pa]);
    var s2 := Updated(cf, s1, [pa]);
    Complete(cf, Back(s2, 64), x + [pa], LengthField(s));
    BackBack(s.t0, 8, 64);
    Compensated(s.t0, s.t1, q, 440);
  }

  // Room for the padding and the length in one block.
  lemma FinalFits(cf: Compression, s: St, x: seq<Byte>, q: nat, pa: Byte, pb: Byte)
    requires Tail(s, x) && |x| < 55 && !s.nullt && s.t1 * TWO32 + s.t0 == 512 * q
    ensures Finished(cf, s, pa, pb)
         == cf(s.h, x + Padding()[..55 - |x|] + [pb] + LengthField(s), if |x| == 0 then None
             else Some(512 * q + 8 * |x|))
  {
    hide Updated, LengthField, Padding;
    var s0 := Back(if s.buflen == 0 then s.(nullt := true) else s, 440 - s.buflen);
    var fill := Padding()[..55 - |x|];
    Append(cf, s0, x, fill);
    var s1 := Updated(cf, s0, fill);
    Append(cf, s1, x + fill, [pb]);
    var s2 := Updated(cf, s1, [pb]);
    Complete(cf, Back(Back(s2, 8), 64), x + fill + [pb], LengthField(s));
    BackBack(s.t0, 440 - 8 * |x|, 8);
    BackBack(s.t0, 448 - 8 * |x|, 64);
    if |x| > 0 {
      Compensated(s.t0, s.t1, q, 8 * |x|);
    }
  }

  // The padding runs over into a block of its own.
  lemma FinalTwo(cf: Compression, s: St, x: seq<Byte>, q: nat, pa: Byte, pb: Byte)
    requires Tail(s, x) && |x| >= 56 && !s.nullt && s.t1 * TWO32 + s.t0 == 512 * q
    ensures Finished(cf, s, pa, pb)
         == cf(cf(s.h, x + Padding()[..64 - |x|], Some(512 * q + 8 * |x|)), Padding()[1..56] + [pb] + LengthField(s),
             None)
  {
    hide Updated, LengthField, Padding;
    var s0 := Back(s, 512 - s.buflen);
    var fill := Padding()[..64 - |x|];
    Complete(cf, s0, x, fill);
    Compensated(s.t0, s.t1, q, 8 * |x|);
    var s1 := Updated(cf, s0, fill);
    var zeros := Padding()[1..56];
    Append(cf, Back(s1, 440), [], zeros);
    var s2 := Updated(cf, Back(s1, 440), zeros).(nullt := true);
    assert [] + zeros == zeros;
    Append(cf, s2, zeros, [pb]);
    var s3 := Updated(cf, s2, [pb]);
    Complete(cf, Back(Back(s3, 8), 64), zeros + [pb], LengthField(s));
  }

  // The blocks inside the message are compressed alike by both accounts.
  lemma {:induction false} PlainIsHash(cf: Compression, h: Chain, m: seq<Byte>, p: seq<Byte>, n: nat)
    requires m <= p && 64 * n <= |m|
    ensures PlainBlocks(cf, h, m, n) == HashBlocks(cf, h, p, |m|, n)
  {
    if n > 0 {
      PlainIsHash(cf, h, m, p, n - 1);
      assert p[64 * (n - 1)..64 * n] == m[64 * (n - 1)..64 * n];
    }
  }

  lemma PaddedIs(m: seq<Byte>, marker: Byte, x: seq<Byte>, front: seq<Byte>)
    requires m == front + x && |front| % 64 == 0 && |x| < 64
    ensures Padded(m, marker)
         == front + (x + Pad(if |x| < 56 then 56 - |x| else 120 - |x|, marker) + BigEndian(8 * |m|, 8))
  {
    hide Pad, BigEndian;
    assert |m| % 64 == |x|;
    var pad := Pad(PadLength(|m|), marker);
    assert m + pad + BigEndian(8 * |m|, 8) == front + (x + pad + BigEndian(8 * |m|, 8));
  }

  // The padded message starts with the message, and its last blocks are the message's tail, the
  // padding and the length.
  lemma PaddedShape(m: seq<Byte>, marker: Byte, w: nat)
    requires w == |m| - |m| % 64
    ensures m <= Padded(m, marker)
    ensures |Padded(m, marker)| == w + (if |m| - w < 56 then 64 else 128)
    ensures EndsWith(Padded(m, marker)[w..], m[w..], marker, BigEndian(8 * |m|, 8))
  {
    PaddedStart(m, marker);
    hide Pad, BigEndian, Padded;
    assert m == m[..w] + m[w..];
    PaddedIs(m, marker, m[w..], m[..w]);
  }

  lemma PaddedStart(m: seq<Byte>, marker: Byte)
    ensures m <= Padded(m, marker)
  {
  }

  lemma HashIs(cf: Compression, h: Chain, m: seq<Byte>, marker: Byte)
    ensures Hash(cf, h, m, marker) == HashBlocks(cf, h, Padded(m, marker), |m|, |Padded(m, marker)| / 64)
  {
  }

  lemma PadIsOne(pa: Byte, pb: Byte)
    requires pa == 0x80 | pb
    ensures Pad(1, pb) == [pa]
  {
  }

  lemma PadFits(k: nat, pb: Byte)
    requires 1 < k <= 56
    ensures Pad(k, pb) == Padding()[..k - 1] + [pb]
  {
  }

  lemma PadTwo(k: nat, pb: Byte)
    requires 56 < k <= 64
    ensures Pad(k, pb) == Padding()[..k - 56] + Padding()[1..56] + [pb]
  {
  }

  // The last one or two blocks `p`, on top of `q` whole blocks and with `r` message bytes in them.
  function LastBlocks(cf: Compression, c: Chain, p: seq<Byte>, q: nat, r: nat): Chain
    requires |p| == if r < 56 then 64 else 128
  {
    if r == 0 then cf(c, p, None)
    else if r < 56 then cf(c, p, Some(512 * q + 8 * r))
    else cf(cf(c, p[..64], Some(512 * q + 8 * r)), p[64..], None)
  }

  ghost predicate EndsWith(p: seq<Byte>, x: seq<Byte>, marker: Byte, size: seq<Byte>) {
    |x| < 64 && |size| == 8 && p == x + Pad(if |x| < 56 then 56 - |x| else 120 - |x|, marker) + size
  }

  lemma FinalBlocksOne(cf: Compression, s: St, x: seq<Byte>, q: nat, pa: Byte, pb: Byte, p: seq<Byte>)
    requires Tail(s, x) && |x| == 55 && !s.nullt && s.t1 * TWO32 + s.t0 == 512 * q && pa == 0x80 | pb
    requires EndsWith(p, x, pb, LengthField(s))
    ensures |p| == 64 && Finished(cf, s, pa, pb) == LastBlocks(cf, s.h, p, q, |x|)
  {
    hide Finished, Pad, LengthField, Tail;
    FinalOne(cf, s, x, q, pa, pb);
    PadIsOne(pa, pb);
  }

  lemma FinalBlocksFit(cf: Compression, s: St, x: seq<Byte>, q: nat, pa: Byte, pb: Byte, p: seq<Byte>)
    requires Tail(s, x) && |x| < 55 && !s.nullt && s.t1 * TWO32 + s.t0 == 512 * q
    requires EndsWith(p, x, pb, LengthField(s))
    ensures |p| == 64 && Finished(cf, s, pa, pb) == LastBlocks(cf, s.h, p, q, |x|)
  {
    var size := LengthField(s);
    var zeros := Padding()[..55 - |x|];
    hide Finished, Pad, Padding, LengthField, Tail;
    FinalFits(cf, s, x, q, pa, pb);
    PadFits(56 - |x|, pb);
    Regroup4(x, zeros, [pb], size);
  }

  lemma Regroup4(a: seq<Byte>, b: seq<Byte>, c: seq<Byte>, d: seq<Byte>)
    ensures a + (b + c) + d == a + b + c + d
  {
  }

  lemma FinalBlocksTwo(cf: Compression, s: St, x: seq<Byte>, q: nat, pa: Byte, pb: Byte, p: seq<Byte>)
    requires Tail(s, x) && 56 <= |x| && !s.nullt && s.t1 * TWO32 + s.t0 == 512 * q
    requires EndsWith(p, x, pb, LengthField(s))
    ensures |p| == 128 && Finished(cf, s, pa, pb) == LastBlocks(cf, s.h, p, q, |x|)
  {
    var size := LengthField(s);
    var a, b := Padding()[..64 - |x|], Padding()[1..56];
    hide Finished, Pad, Padding, LengthField, Tail, PadLength;
    FinalTwo(cf, s, x, q, pa, pb);
    PadTwo(120 - |x|, pb);
    Regroup3(a, b, [pb]);
    CutAt64(x, a, b + [pb], size);
  }

  lemma Regroup3(a: seq<Byte>, b: seq<Byte>, c: seq<Byte>)
    ensures a + b + c == a + (b + c)
  {
  }

  lemma CutAt64(x: seq<Byte>, a: seq<Byte>, b: seq<Byte>, size: seq<Byte>)
    requires |x| + |a| == 64
    ensures (x + (a + b) + size)[..64] == x + a
    ensures (x + (a + b) + size)[64..] == b + size
  {
  }

  lemma HashStep(cf: Compression, h: Chain, p: seq<Byte>, len: nat, n: nat)
    requires 64 * (n + 1) <= |p|
    ensures p[64 * n..][..64] == p[64 * n..64 * (n + 1)]
    ensures HashBlocks(cf, h, p, len, n + 1)
         == cf(HashBlocks(cf, h, p, len, n), p[64 * n..][..64], Counter(len, n))
  {
    assert p[64 * n..][..64] == p[64 * n..64 * (n + 1)];
  }

  lemma HashEnds(cf: Compression, h: Chain, p: seq<Byte>, q: nat, r: nat)
    requires r < 64 && |p| == 64 * q + (if r < 56 then 64 else 128)
    ensures HashBlocks(cf, h, p, 64 * q + r, |p| / 64)
         == LastBlocks(cf, HashBlocks(cf, h, p, 64 * q + r, q), p[64 * q..], q, r)
  {
    hide HashBlocks;
    HashStep(cf, h, p, 64 * q + r, q);
    if r < 56 {
      assert |p| / 64 == q + 1;
      assert p[64 * q..][..64] == p[64 * q..];
    } else {
      assert |p| / 64 == q + 2;
      HashStep(cf, h, p, 64 * q + r, q + 1);
      assert p[64 * (q + 1)..][..64] == p[64 * q..][64..];
    }
  }

  lemma HoldsTail(cf: Compression, h: Chain, s: St, m: seq<Byte>)
    requires Holds(cf, h, s, m)
    ensures var w := |m| - |m| % 64;
            && Tail(s, m[w..]) && !s.nullt && s.t1 * TWO32 + s.t0 == 512 * (|m| / 64)
            && s.h == PlainBlocks(cf, h, m, |m| / 64)
            && s.t1 * TWO32 + s.t0 + s.buflen == 8 * |m|
  {
  }

  // Finalisation: the chaining value is that of the padded message, block by block, and every
  // compression sees the message bits hashed so far, or no counter, in spite of the compensation.
  lemma FinalHashes(cf: Compression, h: Chain, s: St, m: seq<Byte>, pa: Byte, pb: Byte)
    requires Holds(cf, h, s, m) && 8 * |m| < TWO64 && pa == 0x80 | pb
    ensures s.Valid() && Finished(cf, s, pa, pb) == Hash(cf, h, m, pb)
  {
    hide *;
    HoldsIsValid(cf, h, s, m);
    HoldsTail(cf, h, s, m);
    var q, w := |m| / 64, |m| - |m| % 64;
    var p := Padded(m, pb);
    LengthFieldIsLength(s, 8 * |m|);
    PaddedShape(m, pb, w);
    HashEnds(cf, h, p, q, |m| % 64);
    PlainIsHash(cf, h, m, p, q);
    if |m| % 64 == 55 {
      FinalBlocksOne(cf, s, m[w..], q, pa, pb, p[w..]);
    } else if |m| % 64 < 55 {
      FinalBlocksFit(cf, s, m[w..], q, pa, pb, p[w..]);
    } else {
      FinalBlocksTwo(cf, s, m[w..], q, pa, pb, p[w..]);
    }
    HashIs(cf, h, m, pb);
  }

  // ----- the hash functions -----

  // The initial chaining values of BLAKE-256 and BLAKE-224.
  function Iv256(): Chain {
    [0x6A09E667, 0xBB67AE85, 0x3C6EF372, 0xA54FF53A, 0x510E527F, 0x9B05688C, 0x1F83D9AB, 0x5BE0CD19]
  }

  function Iv224(): Chain {
    [0xC1059ED8, 0x367CD507, 0x3070DD17, 0xF70E5939, 0xFFC00B31, 0x68581511, 0x64F98FA7, 0xBEFA4FA4]
  }

  function Digest(h: Chain): (r: seq<Byte>)
    ensures |r| == 32
  {
    seq(32, i requires 0 <= i < 32 => BigByte(h[i / 4], i % 4))
  }

  function Blake256Of(cf: Compression, m: seq<Byte>): (r: seq<Byte>)
    ensures |r| == 32
  {
    Digest(Hash(cf, Iv256(), m, 0x01))
  }

  function Blake224Of(cf: Compression, m: seq<Byte>): (r: seq<Byte>)
    ensures |r| == 32
  {
    Digest(Hash(cf, Iv224(), m, 0x00))
  }

  lemma FreshHolds(cf: Compression, h: Chain, buf: seq<Byte>)
    requires |buf| == 64
    ensures Holds(cf, h, St(h, 0, 0, 0, false, buf), [])
  {
  }

  // The failing case, concretely: after the one byte 0x61, an update with no data leaves a state that
  // no longer stands for that byte.
  lemma EmptyUpdateForgets(cf: Compression, h: Chain, buf: seq<Byte>)
    requires |buf| == 64
    ensures var s := Updated(cf, St(h, 0, 0, 0, false, buf), [0x61]);
            !Holds(cf, h, Updated(cf, s, []), [0x61])
  {
    var s0 := St(h, 0, 0, 0, false, buf);
    FreshHolds(cf, h, buf);
    UpdateKeeps(cf, h, s0, [], [0x61]);
    assert [] + [0x61 as Byte] == [0x61];
    UpdateKeeps(cf, h, Updated(cf, s0, [0x61]), [0x61], []);
    assert [0x61 as Byte] + [] == [0x61];
  }

  lemma AbsorbNext(cf: Compression, s: St, data: seq<Byte>, pos: nat)
    requires pos + 64 <= |data|
    ensures AbsorbAll(cf, s, data[pos..]) == AbsorbAll(cf, Absorb(cf, s, data[pos..pos + 64]), data[pos + 64..])
  {
    assert data[pos..][..64] == data[pos..pos + 64];
    assert data[pos..][64..] == data[pos + 64..];
  }

  lemma AbsorbDone(cf: Compression, s: St, data: seq<Byte>, from: nat, pos: nat)
    requires from <= pos <= |data| < pos + 64 && (|data| - pos) % 64 == (|data| - from) % 64
    ensures AbsorbAll(cf, s, data[pos..]) == s
    ensures data[pos..] == Rest(data[from..])
  {
    assert data[pos..] == data[from..][pos - from..];
  }

  // The C struct, changed in place.
  class State {
    var h: Chain
    var t0: nat
    var t1: nat
    var buflen: nat
    var nullt: bool
    const buf: array<Byte>

    ghost function Value(): St
      reads this, buf
    {
      St(h, t0, t1, buflen, nullt, buf[..])
    }

    // blake256_init and blake224_init, by their initial value; the buffer starts out arbitrary.
    constructor (iv: Chain)
      ensures fresh(buf) && buf.Length == 64
      ensures Value() == St(iv, 0, 0, 0, false, buf[..])
    {
      h, t0, t1, buflen, nullt := iv, 0, 0, 0, false;
      buf := new Byte[64];
    }

    method CountAndCompress(cf: Compression, block: seq<Byte>)
      modifies this
      ensures Value() == Absorb(cf, old(Value()), block)
    {
      t0 := (t0 + 512) % TWO32;
      if t0 == 0 {
        t1 := (t1 + 1) % TWO32;
      }
      h := cf(h, block, if nullt then None else Some(t1 * TWO32 + t0));
    }

    // memcpy into the buffer.
    method CopyIn(at: nat, src: seq<Byte>)
      requires at + |src| <= buf.Length
      modifies buf
      ensures buf[..] == old(buf[..at]) + src + old(buf[at + |src|..])
    {
      forall i | 0 <= i < |src| {
        buf[at + i] := src[i];
      }
    }

    // The loop over the whole blocks of data[from..]; returns the position behind them.
    method CompressWhole(cf: Compression, data: seq<Byte>, from: nat) returns (pos: nat)
      requires from <= |data|
      modifies this
      ensures Value() == AbsorbAll(cf, old(Value()), data[from..])
      ensures from <= pos <= |data| && data[pos..] == Rest(data[from..])
    {
      hide Absorb, AbsorbAll, Rest;
      pos := from;
      var datalen := 8 * (|data| - pos);
      while datalen >= 512
        invariant from <= pos <= |data| && datalen == 8 * (|data| - pos)
        invariant AbsorbAll(cf, Value(), data[pos..]) == AbsorbAll(cf, old(Value()), data[from..])
        invariant (|data| - pos) % 64 == (|data| - from) % 64
      {
        AbsorbNext(cf, Value(), data, pos);
        CountAndCompress(cf, data[pos..pos + 64]);
        pos := pos + 64;
        datalen := datalen - 512;
      }
      AbsorbDone(cf, Value(), data, from, pos);
    }

    // Completing the block in the buffer and compressing it.
    method FillBuffer(cf: Compression, front: seq<Byte>)
      requires Value().Valid() && buflen / 8 + |front| == 64
      modifies this, buf
      ensures var s := old(Value());
              var full := s.(buf := s.buf[..s.Left()] + front);
              Value() == Absorb(cf, full, full.buf)
    {
      hide Absorb;
      CopyIn(buflen / 8, front);
      assert buf[..] == old(buf[..buflen / 8]) + front;
      CountAndCompress(cf, buf[..]);
    }

    // The copy at the end of an update, and the new buflen.
    method StoreRest(left: nat, rest: seq<Byte>)
      requires buf.Length == 64 && left + |rest| <= 64
      modifies this`buflen, buf
      ensures Value() == Store(old(Value()), left, rest)
    {
      if |rest| > 0 {
        CopyIn(left, rest);
        buflen := 8 * left + 8 * |rest|;
      } else {
        buflen := 0;
      }
    }

    method Update(cf: Compression, data: seq<Byte>)
      requires Value().Valid() && 8 * |data| < TWO64
      modifies this, buf
      ensures Value() == Updated(cf, old(Value()), data)
    {
      hide Absorb, AbsorbAll, Rest, Store;
      var left := buflen / 8;
      var fill := 64 - left;
      var from := 0;
      if left != 0 && |data| >= fill {
        UpdateFills(cf, Value(), data);
        FillBuffer(cf, data[..fill]);
        from := fill;
        left := 0;
      } else {
        assert data[from..] == data;
      }
      var pos := CompressWhole(cf, data, from);
      StoreRest(left, data[pos..]);
    }

    method TakeBack(n: nat)
      modifies this
      ensures Value() == Back(old(Value()), n)
    {
      t0 := (t0 - n) % TWO32;
    }

    method FillWithZeros(cf: Compression)
      requires Value().Valid() && buflen != 440
      modifies this, buf
      ensures Value() == ZerosIn(cf, old(Value()))
    {
      hide Updated, Padding;
      if buflen < 440 {
        var n := 440 - buflen;
        if buflen == 0 {
          nullt := true;
        }
        TakeBack(n);
        Update(cf, Padding()[..n / 8]);
      } else {
        var n := 512 - buflen;
        TakeBack(n);
        Update(cf, Padding()[..n / 8]);
        TakeBack(440);
        Update(cf, Padding()[1..56]);
        nullt := true;
      }
    }

    method LengthBytes() returns (msglen: seq<Byte>)
      requires Value().Valid()
      ensures msglen == LengthField(Value())
    {
      var lo, hi := (t0 + buflen) % TWO32, t1;
      if lo < buflen {
        hi := (hi + 1) % TWO32;
      }
      msglen := U32To8(hi) + U32To8(lo);
    }

    // blake256_final_h.
    method Final(cf: Compression, pa: Byte, pb: Byte) returns (digest: seq<Byte>)
      requires Value().Valid()
      modifies this, buf
      ensures Value() == FinalState(cf, old(Value()), pa, pb)
      ensures digest == Digest(Finished(cf, old(Value()), pa, pb))
    {
      hide Updated, Digest, U32To8, LengthField, ZerosIn;
      ghost var s := Value();
      var msglen := LengthBytes();
      if buflen == 440 {
        TakeBack(8);
        Update(cf, [pa]);
      } else {
        FillWithZeros(cf);
        Update(cf, [pb]);
        TakeBack(8);
      }
      assert Value() == PadState(cf, s, pa, pb);
      hide PadState;
      TakeBack(64);
      Update(cf, msglen);
      digest := Digest(h);
    }
  }

  lemma MarkersAgree()
    ensures 0x81 as Byte == 0x80 | 0x01 && 0x80 as Byte == 0x80 | 0x00
  {
  }

  // One hash: an update with the whole message from the initial state, then finalisation.
  lemma OneShot(cf: Compression, iv: Chain, buf: seq<Byte>, m: seq<Byte>, pa: Byte, pb: Byte)
    requires |buf| == 64 && 8 * |m| < TWO64 && pa == 0x80 | pb
    ensures var s := Updated(cf, St(iv, 0, 0, 0, false, buf), m);
            s.Valid() && Finished(cf, s, pa, pb) == Hash(cf, iv, m, pb)
  {
    var s0 := St(iv, 0, 0, 0, false, buf);
    FreshHolds(cf, iv, buf);
    UpdateKeeps(cf, iv, s0, [], m);
    assert [] + m == m;
    FinalHashes(cf, iv, Updated(cf, s0, m), m, pa, pb);
  }

  // blake256_hash.
  method HashBlake256(cf: Compression, data: seq<Byte>) returns (out: seq<Byte>)
    requires 8 * |data| < TWO64
    ensures out == Blake256Of(cf, data)
  {
    hide Updated, Finished, FinalState, Hash, Digest;
    var s := new State(Iv256());
    OneShot(cf, Iv256(), s.buf[..], data, 0x81, 0x01) by {
      MarkersAgree();
    }
    s.Update(cf, data);
    out := s.Final(cf, 0x81, 0x01);
  }

  // blake224_hash.
  method HashBlake224(cf: Compression, data: seq<Byte>) returns (out: seq<Byte>)
    requires 8 * |data| < TWO64
    ensures out == Blake224Of(cf, data)
  {
    hide Updated, Finished, FinalState, Hash, Digest;
    var s := new State(Iv224());
    OneShot(cf, Iv224(), s.buf[..], data, 0x80, 0x00) by {
      MarkersAgree();
    }
    s.Update(cf, data);
    out := s.Final(cf, 0x80, 0x00);
  }

  // ----- HMAC (section 2 of RFC 2104) -----

  // The key of one block: a longer key is hashed, and zeros follow.
  function KeyBlock(cf: Compression, key: seq<Byte>): (r: seq<Byte>)
    ensures |r| == 64
  {
    var k := if |key| > 64 then Blake256Of(cf, key) else key;
    k + seq(64 - |k|, i => 0)
  }

  function XorAll(k: seq<Byte>, c: Byte): (r: seq<Byte>)
    ensures |r| == |k|
  {
    seq(|k|, i requires 0 <= i < |k| => XorByte(k[i], c))
  }

  function HmacOf(cf: Compression, key: seq<Byte>, text: seq<Byte>): (r: seq<Byte>)
    ensures |r| == 32
  {
    var k := KeyBlock(cf, key);
    Blake256Of(cf, XorAll(k, 0x5c) + Blake256Of(cf, XorAll(k, 0x36) + text))
  }

  // memset and the loop `pad[i] ^= key[i]`.
  method MakePad(key: seq<Byte>, c: Byte) returns (pad: array<Byte>)
    requires |key| <= 64
    ensures fresh(pad) && pad[..] == XorAll(key + seq(64 - |key|, i => 0), c)
  {
    hide XorByte;
    pad := new Byte[64](_ => c);
    var i := 0;
    while i < |key|
      invariant 0 <= i <= |key|
      invariant forall j :: 0 <= j < i ==> pad[j] == XorByte(c, key[j])
      invariant forall j :: i <= j < 64 ==> pad[j] == c
    {
      pad[i] := XorByte(pad[i], key[i]);
      i := i + 1;
    }
    var k := key + seq(64 - |key|, i => 0);
    forall j | 0 <= j < 64
      ensures pad[j] == XorByte(k[j], c)
    {
      XorByteCommutes(c, k[j]);
      XorByteCancels(c, 0);
    }
  }

  class HmacState {
    const inner: State
    const outer: State

    // Both states have taken in one block made of the key; the inner one also `text`.
    ghost predicate Keyed(cf: Compression, key: seq<Byte>, text: seq<Byte>)
      reads this, inner, inner.buf, outer, outer.buf
    {
      && inner != outer && inner.buf != outer.buf
      && Holds(cf, Iv256(), inner.Value(), XorAll(KeyBlock(cf, key), 0x36) + text)
      && Holds(cf, Iv256(), outer.Value(), XorAll(KeyBlock(cf, key), 0x5c))
    }

    // hmac_blake256_init.
    constructor (cf: Compression, key: seq<Byte>)
      requires 8 * |key| < TWO64
      ensures Keyed(cf, key, [])
      ensures fresh(inner) && fresh(inner.buf) && fresh(outer) && fresh(outer.buf)
    {
      var k := key;
      if |key| > 64 {
        k := HashBlake256(cf, key);
      }
      hide Holds, Updated, Blake256Of, XorByte;
      ghost var block := k + seq(64 - |k|, i => 0);
      var i := new State(Iv256());
      var pad := MakePad(k, 0x36);
      FreshHolds(cf, Iv256(), i.buf[..]);
      HoldsIsValid(cf, Iv256(), i.Value(), []);
      UpdateKeeps(cf, Iv256(), i.Value(), [], pad[..]);
      i.Update(cf, pad[..]);
      var o := new State(Iv256());
      pad := MakePad(k, 0x5c);
      FreshHolds(cf, Iv256(), o.buf[..]);
      HoldsIsValid(cf, Iv256(), o.Value(), []);
      UpdateKeeps(cf, Iv256(), o.Value(), [], pad[..]);
      o.Update(cf, pad[..]);
      inner, outer := i, o;
      new;
      assert block == KeyBlock(cf, key);
      assert [] + XorAll(block, 0x36) == XorAll(block, 0x36) + [];
      assert [] + XorAll(block, 0x5c) == XorAll(block, 0x5c);
    }

    // hmac_blake256_update.
    method Update(cf: Compression, ghost key: seq<Byte>, ghost text: seq<Byte>, data: seq<Byte>)
      requires Keyed(cf, key, text) && 8 * (64 + |text| + |data|) < TWO64 && !Forgets(|text| % 64, data)
      modifies inner, inner.buf
      ensures Keyed(cf, key, text + data)
    {
      hide Holds, Updated, KeyBlock, XorAll;
      ghost var m := XorAll(KeyBlock(cf, key), 0x36);
      HoldsIsValid(cf, Iv256(), inner.Value(), m + text);
      UpdateKeeps(cf, Iv256(), inner.Value(), m + text, data);
      inner.Update(cf, data);
      assert m + text + data == m + (text + data);
    }

    // hmac_blake256_final.
    method Final(cf: Compression, ghost key: seq<Byte>, ghost text: seq<Byte>) returns (digest: seq<Byte>)
      requires Keyed(cf, key, text) && 8 * (64 + |text|) < TWO64
      modifies inner, inner.buf, outer, outer.buf
      ensures digest == HmacOf(cf, key, text)
    {
      hide Holds, Updated, KeyBlock, XorAll, Finished, FinalState, Hash, Digest;
      MarkersAgree();
      ghost var mi := XorAll(KeyBlock(cf, key), 0x36) + text;
      ghost var mo := XorAll(KeyBlock(cf, key), 0x5c);
      FinalHashes(cf, Iv256(), inner.Value(), mi, 0x81, 0x01);
      var ihash := inner.Final(cf, 0x81, 0x01);
      HoldsIsValid(cf, Iv256(), outer.Value(), mo);
      UpdateKeeps(cf, Iv256(), outer.Value(), mo, ihash);
      outer.Update(cf, ihash);
      FinalHashes(cf, Iv256(), outer.Value(), mo + ihash, 0x81, 0x01);
      digest := outer.Final(cf, 0x81, 0x01);
    }
  }

  // hmac_blake256_hash.
  method HmacHash(cf: Compression, key: seq<Byte>, text: seq<Byte>) returns (out: seq<Byte>)
    requires 8 * |key| < TWO64 && 8 * (64 + |text|) < TWO64
    ensures out == HmacOf(cf, key, text)
  {
    ghost var none: seq<Byte> := [];
    NothingForgotten(none, text);
    assert none + text == text;
    hide *;
    var s := new HmacState(cf, key);
    s.Update(cf, key, none, text);
    out := s.Final(cf, key, text);
  }

  lemma NothingForgotten(none: seq<Byte>, text: seq<Byte>)
    requires none == []
    ensures !Forgets(|none| % 64, text)
  {
  }
}
