/** PackBits run-length coding. A packed string is a series of blocks: a header
    0..127 announces that many plus one literal bytes, a header -1..-127 announces
    one byte to be repeated; -128 is skipped. */
module PackBits {

  newtype int8 = x: int | -128 <= x < 128

  const MIN_RUN := 3
  const MAX_RUN := 128
  const MAX_DAT := 128

  datatype Block = Literal(bytes: seq<int8>) | Run(length: nat, byte: int8)

  function Repeat(n: nat, c: int8): seq<int8> {
    seq(n, i => c)
  }

  /** What a block stands for. */
  function Meaning(b: Block): seq<int8> {
    match b
    case Literal(bytes) => bytes
    case Run(n, c) => Repeat(n, c)
  }

  /** How a block is written. */
  function Emit(b: Block): seq<int8>
    requires WellFormed(b)
  {
    match b
    case Literal(bytes) => [(|bytes| - 1) as int8] + bytes
    case Run(n, c) => [(1 - n) as int8, c]
  }

  /** Blocks that fit their header. */
  predicate WellFormed(b: Block) {
    match b
    case Literal(bytes) => 1 <= |bytes| <= MAX_DAT
    case Run(n, _) => 2 <= n <= MAX_RUN
  }

  /** A literal block never holds three equal bytes in a row. */
  predicate NoTriple(s: seq<int8>) {
    forall i :: 0 <= i < |s| - 2 ==> !(s[i] == s[i + 1] == s[i + 2])
  }

  predicate Compressed(b: Block) {
    b.Literal? ==> NoTriple(b.bytes) && BeginsMixed(b.bytes)
  }

  /** Nor does it begin with two equal bytes: those would have been a run. */
  predicate BeginsMixed(s: seq<int8>) {
    |s| >= 2 ==> s[0] != s[1]
  }

  /** A series of blocks, the last one outermost. */
  datatype Blocks = None | More(before: Blocks, last: Block)

  /** A run shorter than the maximum was not cut short: another byte follows it. */
  predicate Joins(bs: Blocks, next: int8) {
    bs.More? && bs.last.Run? && bs.last.length < MAX_RUN ==> bs.last.byte != next
  }

  predicate AllWellFormed(bs: Blocks) {
    bs.More? ==>
      && AllWellFormed(bs.before) && WellFormed(bs.last) && Compressed(bs.last)
      && Joins(bs.before, Meaning(bs.last)[0])
  }

  function MeaningAll(bs: Blocks): seq<int8> {
    if bs.None? then [] else MeaningAll(bs.before) + Meaning(bs.last)
  }

  function EmitAll(bs: Blocks): seq<int8>
    requires AllWellFormed(bs)
  {
    if bs.None? then [] else EmitAll(bs.before) + Emit(bs.last)
  }

  /** No header is the one that unpacking skips. */
  predicate HeadersFit(bs: Blocks)
    requires AllWellFormed(bs)
  {
    bs.More? ==> HeadersFit(bs.before) && Emit(bs.last)[0] != -128
  }

  lemma {:induction false} HeadersAlwaysFit(bs: Blocks)
    requires AllWellFormed(bs)
    ensures HeadersFit(bs)
  {
    if bs.More? {
      HeadersAlwaysFit(bs.before);
    }
  }

  /** The format: a header from 0 to 127 and that many plus one bytes, or a header from -1
      to -127 and the byte that comes one minus it times. */
  lemma EmitFormat(b: Block)
    requires WellFormed(b)
    ensures var e := Emit(b);
            if b.Literal? then |e| == 1 + |b.bytes| && e[0] as int == |b.bytes| - 1 && e[1..] == b.bytes
            else |e| == 2 && e[0] as int == 1 - b.length && e[1] == b.byte && |Meaning(b)| == b.length
                 && forall i :: 0 <= i < b.length ==> Meaning(b)[i] == b.byte
  {
  }

  // -------------------------------------------------------------- unpacking

  /** Done: the rest of the source and what was written; TooLong: a block exceeds
      what is still wanted; Overrun: the source ends inside a block. */
  datatype Unpacked =
    | Done(rest: seq<int8>, out: seq<int8>)
    | TooLong(out: seq<int8>)
    | Overrun(out: seq<int8>)

  function Unpack(src: seq<int8>, count: nat, out: seq<int8>): Unpacked
    decreases |src|
  {
    if count == 0 then Done(src, out)
    else if src == [] then Overrun(out)
    else
      var h := src[0] as int;
      if h == -128 then Unpack(src[1..], count, out)
      else if h < 0 then
        if 1 - h > count then TooLong(out)
        else if |src| < 2 then Overrun(out)
        else Unpack(src[2..], count - (1 - h), out + Repeat(1 - h, src[1]))
      else
        if h + 1 > count then TooLong(out)
        else if |src| < h + 2 then Overrun(out)
        else Unpack(src[h + 2..], count - (h + 1), out + src[1..h + 2])
  }

  /** What unpacking makes of a header, with something wanted: -128 is skipped; a header
      that stands for more bytes than wanted, or lacks its own, ends it. */
  lemma UnpackHeader(src: seq<int8>, count: nat, out: seq<int8>)
    requires count > 0
    ensures src == [] ==> Unpack(src, count, out) == Overrun(out)
    ensures src != [] ==>
              var h := src[0] as int;
              && (h == -128 ==> Unpack(src, count, out) == Unpack(src[1..], count, out))
              && (0 <= h ==>
                    if h >= count then Unpack(src, count, out) == TooLong(out)
                    else if |src| <= h + 1 then Unpack(src, count, out) == Overrun(out)
                    else Unpack(src, count, out) == Unpack(src[h + 2..], count - h - 1, out + src[1..h + 2]))
              && (-128 < h < 0 ==>
                    if -h >= count then Unpack(src, count, out) == TooLong(out)
                    else if |src| == 1 then Unpack(src, count, out) == Overrun(out)
                    else Unpack(src, count, out) == Unpack(src[2..], count + h - 1, out + seq(1 - h, i => src[1])))
  {
  }

  /** Unpacking one emitted block gives what it stands for. */
  lemma UnpackBlock(b: Block, rest: seq<int8>, count: nat, out: seq<int8>)
    requires WellFormed(b) && |Meaning(b)| <= count
    ensures Unpack(Emit(b) + rest, count, out) == Unpack(rest, count - |Meaning(b)|, out + Meaning(b))
  {
    var src := Emit(b) + rest;
    match b
    case Literal(bytes) =>
      assert src[0] as int == |bytes| - 1;
      assert src[1..|bytes| + 1] == bytes && src[|bytes| + 1..] == rest;
    case Run(n, c) =>
      assert src[0] as int == 1 - n && src[1] == c;
      assert src[2..] == rest;
  }

  lemma ConcatAssociates<T>(a: seq<T>, b: seq<T>, c: seq<T>)
    ensures a + b + c == a + (b + c)
  {
  }

  lemma UnpackOneMore(a: seq<int8>, m: seq<int8>, b: Block, rest: seq<int8>, count: nat, out: seq<int8>)
    requires WellFormed(b) && |m| + |Meaning(b)| <= count
    requires Unpack(a + (Emit(b) + rest), count, out) == Unpack(Emit(b) + rest, count - |m|, out + m)
    ensures Unpack(a + Emit(b) + rest, count, out)
            == Unpack(rest, count - |m + Meaning(b)|, out + (m + Meaning(b)))
  {
    ConcatAssociates(a, Emit(b), rest);
    ConcatAssociates(out, m, Meaning(b));
    UnpackBlock(b, rest, count - |m|, out + m);
  }

  /** Unpacking undoes emitting: for every list of blocks, the count they stand
      for and any bytes that follow. */
  lemma {:induction false} UnpackEmitted(bs: Blocks, rest: seq<int8>, count: nat, out: seq<int8>)
    requires AllWellFormed(bs) && |MeaningAll(bs)| <= count
    ensures Unpack(EmitAll(bs) + rest, count, out)
            == Unpack(rest, count - |MeaningAll(bs)|, out + MeaningAll(bs))
  {
    match bs
    case None =>
      assert [] + rest == rest && out + [] == out;
    case More(before, last) =>
      var a, m := EmitAll(before), MeaningAll(before);
      assert Unpack(a + (Emit(last) + rest), count, out) == Unpack(Emit(last) + rest, count - |m|, out + m) by {
        UnpackEmitted(before, Emit(last) + rest, count, out);
      }
      UnpackOneMore(a, m, last, rest, count, out);
  }

  /** The packed form unpacks to what it stands for, consuming exactly itself. */
  lemma UnpackIsInverse(bs: Blocks, rest: seq<int8>)
    requires AllWellFormed(bs)
    ensures Unpack(EmitAll(bs) + rest, |MeaningAll(bs)|, []) == Done(rest, MeaningAll(bs))
  {
    UnpackEmitted(bs, rest, |MeaningAll(bs)|, []);
    assert [] + MeaningAll(bs) == MeaningAll(bs);
  }

  // ---------------------------------------------------------------- packing

  datatype Mode = Dump | InRun

  /** The encoder between two bytes: the look-back buffer, where the current run
      starts in it, and what was written so far. The last byte read is the last
      byte of the buffer. */
  datatype Packer = Packer(mode: Mode, buf: seq<int8>, rstart: nat, out: seq<int8>) {
    predicate Valid() {
      && 0 <= rstart < |buf| < 2 * MAX_DAT
      && (mode == Dump ==> |buf| <= MAX_DAT)
      && (mode == InRun ==> 2 <= |buf| - rstart <= MAX_RUN && rstart <= MAX_DAT - MIN_RUN)
    }

    function Last(): int8
      requires Valid()
    {
      buf[|buf| - 1]
    }
  }

  function Begin(c: int8): Packer {
    Packer(Dump, [c], 0, [])
  }

  /** One more byte. */
  function Step(p: Packer, c: int8): Packer
    requires p.Valid()
  {
    var buf := p.buf + [c];
    var n := |buf|;
    if p.mode == Dump then
      if n > MAX_DAT then Packer(Dump, [c], 0, p.out + [(n - 2) as int8] + p.buf)
      else if c == p.Last() then
        if n - p.rstart >= MIN_RUN then
          Packer(InRun, buf, p.rstart,
                 if p.rstart > 0 then p.out + [(p.rstart - 1) as int8] + buf[..p.rstart] else p.out)
        else Packer(if p.rstart == 0 then InRun else Dump, buf, p.rstart, p.out)
      else Packer(Dump, buf, n - 1, p.out)
    else
      if c != p.Last() || n - p.rstart > MAX_RUN then
        Packer(Dump, [c], 0, p.out + [-(n - p.rstart - 2) as int8, p.Last()])
      else Packer(InRun, buf, p.rstart, p.out)
  }

  /** Writes out what is still in the buffer. */
  function Finish(p: Packer): seq<int8>
    requires p.Valid()
  {
    if p.mode == Dump then p.out + [(|p.buf| - 1) as int8] + p.buf
    else p.out + [-(|p.buf| - p.rstart - 1) as int8, p.Last()]
  }

  /** The buffer ends in a run of equal bytes that starts at rstart, and there is
      no longer one ahead of it. */
  ghost predicate BufferInv(p: Packer) {
    && p.Valid()
    && (forall i :: p.rstart <= i < |p.buf| ==> p.buf[i] == p.buf[|p.buf| - 1])
    && (p.mode == Dump ==>
          && |p.buf| - p.rstart <= 2 && (p.rstart == 0 ==> |p.buf| == 1)
          && NoTriple(p.buf) && BeginsMixed(p.buf) && (p.rstart > 0 ==> p.buf[p.rstart - 1] != p.buf[p.rstart]))
  }

  ghost function Waiting(p: Packer): seq<int8>
    requires p.Valid()
  {
    if p.mode == Dump then p.buf else p.buf[p.rstart..]
  }

  /** What waiting bytes may still save or cost: a run saves, a dump does not. */
  ghost function Credit(p: Packer): int
    requires p.Valid()
  {
    if p.mode == InRun then |p.buf| - p.rstart - 2 else 0
  }

  /** The encoder has written the blocks bs, and what it has read is what they
      stand for followed by what waits in the buffer. Every full literal block,
      counted by full, costs one byte; nothing else costs anything in the end. */
  ghost predicate PackInv(p: Packer, bs: Blocks, full: nat, read: seq<int8>) {
    && BufferInv(p)
    && Written(p.out, bs, full, |p.out| - Credit(p))
    && Joins(bs, Waiting(p)[0])
    && MeaningAll(bs) + Waiting(p) == read
  }

  /** These bytes are the blocks, and size is within what full literals explain. */
  ghost predicate Written(out: seq<int8>, bs: Blocks, full: nat, size: int) {
    && AllWellFormed(bs) && out == EmitAll(bs)
    && 128 * full <= |MeaningAll(bs)| && size <= |MeaningAll(bs)| + full
  }

  /** One more block; a full literal block pays for its own header. */
  lemma AppendBlock(out: seq<int8>, bs: Blocks, full: nat, size: int, b: Block)
    requires Written(out, bs, full, size) && WellFormed(b) && Compressed(b) && Joins(bs, Meaning(b)[0])
    ensures Written(out + Emit(b), More(bs, b), full, size + |Meaning(b)|)
    ensures |Meaning(b)| == 128 ==> Written(out + Emit(b), More(bs, b), full + 1, size + |Meaning(b)| + 1)
  {
  }

  /** The buffer is full: all but the new byte is written as a literal block. */
  lemma StepFull(p: Packer, c: int8, bs: Blocks, full: nat, read: seq<int8>)
    requires PackInv(p, bs, full, read) && p.mode == Dump && |p.buf| == MAX_DAT
    ensures PackInv(Step(p, c), More(bs, Literal(p.buf)), full + 1, read + [c])
  {
    var b := Literal(p.buf);
    AppendBlock(p.out, bs, full, |p.out|, b);
    ConcatAssociates(p.out, [127], p.buf);
    assert Emit(b) == [127] + p.buf;
  }

  /** Three equal bytes: what comes before them is written, and a run begins. */
  lemma StepStartRun(p: Packer, c: int8, bs: Blocks, full: nat, read: seq<int8>)
    requires PackInv(p, bs, full, read) && p.mode == Dump && |p.buf| < MAX_DAT && c == p.Last()
    requires p.rstart > 0 && |p.buf| + 1 - p.rstart >= MIN_RUN
    ensures PackInv(Step(p, c), More(bs, Literal(p.buf[..p.rstart])), full, read + [c])
  {
    var literal, run := p.buf[..p.rstart], p.buf[p.rstart..];
    var b := Literal(literal);
    var p' := Step(p, c);
    AppendBlock(p.out, bs, full, |p.out|, b);
    assert p'.buf[..p.rstart] == literal && Waiting(p') == run + [c];
    ConcatAssociates(p.out, [(p.rstart - 1) as int8], literal);
    SplitAt(MeaningAll(bs), p.buf, p.rstart, c);
    StepKeepsBuffer(p, c);
  }

  /** A buffer cut in two, with one byte more. */
  lemma SplitAt(m: seq<int8>, buf: seq<int8>, k: nat, c: int8)
    requires k <= |buf|
    ensures m + buf[..k] + (buf[k..] + [c]) == m + buf + [c]
  {
    assert buf == buf[..k] + buf[k..];
  }

  /** The byte joins the buffer, which stays in the dump mode. */
  lemma StepDump(p: Packer, c: int8, bs: Blocks, full: nat, read: seq<int8>)
    requires PackInv(p, bs, full, read) && p.mode == Dump && |p.buf| < MAX_DAT
    requires c == p.Last() ==> p.rstart > 0 && |p.buf| + 1 - p.rstart < MIN_RUN
    ensures PackInv(Step(p, c), bs, full, read + [c])
  {
    StepKeepsBuffer(p, c);
    ConcatAssociates(MeaningAll(bs), p.buf, [c]);
  }

  lemma DumpKeepsNoTriple(p: Packer, c: int8)
    requires BufferInv(p) && p.mode == Dump
    requires c == p.Last() ==> p.rstart > 0 && |p.buf| + 1 - p.rstart < MIN_RUN
    ensures NoTriple(p.buf + [c])
  {
    var n := |p.buf|;
    if n >= 2 {
      assert p.buf[n - 2] == p.buf[n - 1] ==> p.rstart < n - 1;
    }
  }

  /** Two equal bytes at the front of the buffer are taken as a run at once. */
  lemma StepShortRun(p: Packer, c: int8, bs: Blocks, full: nat, read: seq<int8>)
    requires PackInv(p, bs, full, read) && p.mode == Dump && c == p.Last() && p.rstart == 0
    ensures PackInv(Step(p, c), bs, full, read + [c])
  {
    StepKeepsBuffer(p, c);
    var p' := Step(p, c);
    assert p'.buf[0..] == p.buf + [c];
    ConcatAssociates(MeaningAll(bs), p.buf, [c]);
  }

  /** A run ends, by another byte or by its length, and is written. */
  lemma StepEndRun(p: Packer, c: int8, bs: Blocks, full: nat, read: seq<int8>)
    requires PackInv(p, bs, full, read) && p.mode == InRun
    requires c != p.Last() || |p.buf| - p.rstart == MAX_RUN
    ensures PackInv(Step(p, c), More(bs, Run(|p.buf| - p.rstart, p.Last())), full, read + [c])
  {
    var n := |p.buf| - p.rstart;
    var b := Run(n, p.Last());
    RunIsWaiting(p);
    AppendBlock(p.out, bs, full, |p.out| - Credit(p), b);
    EndedRun(p, c);
    OneByteWaits(c, p.out + Emit(b));
  }

  lemma EndedRun(p: Packer, c: int8)
    requires p.Valid() && p.mode == InRun && (c != p.Last() || |p.buf| - p.rstart == MAX_RUN)
    ensures Step(p, c) == Packer(Dump, [c], 0, p.out + Emit(Run(|p.buf| - p.rstart, p.Last())))
  {
    var n := |p.buf| - p.rstart;
    assert Emit(Run(n, p.Last())) == [-(n - 1) as int8, p.Last()];
  }

  lemma OneByteWaits(c: int8, out: seq<int8>)
    ensures var p := Packer(Dump, [c], 0, out); BufferInv(p) && Waiting(p) == [c] && Credit(p) == 0
  {
  }

  lemma RunIsWaiting(p: Packer)
    requires BufferInv(p) && p.mode == InRun
    ensures Waiting(p) == Meaning(Run(|p.buf| - p.rstart, p.Last()))
  {
  }

  lemma StepInRun(p: Packer, c: int8, bs: Blocks, full: nat, read: seq<int8>)
    requires PackInv(p, bs, full, read) && p.mode == InRun
    requires c == p.Last() && |p.buf| - p.rstart < MAX_RUN
    ensures PackInv(Step(p, c), bs, full, read + [c])
  {
    StepKeepsBuffer(p, c);
    var p' := Step(p, c);
    assert p'.buf[p.rstart..] == p.buf[p.rstart..] + [c];
    ConcatAssociates(MeaningAll(bs), p.buf[p.rstart..], [c]);
  }

  lemma StepKeeps(p: Packer, c: int8, bs: Blocks, full: nat, read: seq<int8>)
    returns (bs': Blocks, full': nat)
    requires PackInv(p, bs, full, read)
    ensures PackInv(Step(p, c), bs', full', read + [c])
  {
    bs', full' := bs, full;
    if p.mode == InRun {
      if c != p.Last() || |p.buf| - p.rstart == MAX_RUN {
        StepEndRun(p, c, bs, full, read);
        bs' := More(bs, Run(|p.buf| - p.rstart, p.Last()));
      } else {
        StepInRun(p, c, bs, full, read);
      }
    } else if |p.buf| == MAX_DAT {
      StepFull(p, c, bs, full, read);
      bs', full' := More(bs, Literal(p.buf)), full + 1;
    } else if c == p.Last() && p.rstart == 0 {
      StepShortRun(p, c, bs, full, read);
    } else if c == p.Last() && |p.buf| + 1 - p.rstart >= MIN_RUN {
      StepStartRun(p, c, bs, full, read);
      bs' := More(bs, Literal(p.buf[..p.rstart]));
    } else {
      StepDump(p, c, bs, full, read);
    }
  }

  /** One byte more for every 128 bytes begun. */
  predicate WithinBound(packed: nat, n: nat) {
    packed <= n + (n + 127) / 128
  }

  /** The packed bytes are these blocks, which fit their headers, stand for the
      string, hold no three equal bytes as literals, cut no run short of 128, and
      are at most one byte in 128 longer than the string. */
  ghost predicate Represents(bs: Blocks, packed: seq<int8>, s: seq<int8>) {
    && AllWellFormed(bs) && HeadersFit(bs)
    && packed == EmitAll(bs) && MeaningAll(bs) == s
    && WithinBound(|packed|, |s|)
  }

  /** All that was read is written; only the literal blocks cost a byte. */
  lemma FinishDump(p: Packer, bs: Blocks, full: nat, read: seq<int8>)
    requires PackInv(p, bs, full, read) && p.mode == Dump
    ensures Represents(More(bs, Literal(p.buf)), Finish(p), read)
  {
    var b := Literal(p.buf);
    AppendBlock(p.out, bs, full, |p.out|, b);
    HeadersAlwaysFit(More(bs, b));
    ConcatAssociates(p.out, [(|p.buf| - 1) as int8], p.buf);
    assert Finish(p) == p.out + Emit(b);
  }

  lemma FinishRun(p: Packer, bs: Blocks, full: nat, read: seq<int8>)
    requires PackInv(p, bs, full, read) && p.mode == InRun
    ensures Represents(More(bs, Run(|p.buf| - p.rstart, p.Last())), Finish(p), read)
  {
    var b := Run(|p.buf| - p.rstart, p.Last());
    RunIsWaiting(p);
    AppendBlock(p.out, bs, full, |p.out| - Credit(p), b);
    HeadersAlwaysFit(More(bs, b));
    assert Finish(p) == p.out + Emit(b);
  }

  lemma FinishBlocks(p: Packer, bs: Blocks, full: nat, read: seq<int8>) returns (bs': Blocks)
    requires PackInv(p, bs, full, read)
    ensures Represents(bs', Finish(p), read)
  {
    if p.mode == Dump {
      FinishDump(p, bs, full, read);
      bs' := More(bs, Literal(p.buf));
    } else {
      FinishRun(p, bs, full, read);
      bs' := More(bs, Run(|p.buf| - p.rstart, p.Last()));
    }
  }

  lemma StepKeepsBuffer(p: Packer, c: int8)
    requires BufferInv(p)
    ensures BufferInv(Step(p, c))
  {
    if p.mode == Dump && |p.buf| < MAX_DAT {
      if c == p.Last() ==> p.rstart > 0 && |p.buf| + 1 - p.rstart < MIN_RUN {
        DumpKeepsNoTriple(p, c);
      }
    }
  }

  ghost function PackFrom(p: Packer, src: seq<int8>): seq<int8>
    requires BufferInv(p)
    decreases |src|
  {
    if src == [] then Finish(p)
    else
      StepKeepsBuffer(p, src[0]);
      PackFrom(Step(p, src[0]), src[1..])
  }

  /** The packed form of a non-empty string. */
  ghost function Pack(s: seq<int8>): seq<int8>
    requires s != []
  {
    PackFrom(Begin(s[0]), s[1..])
  }

  lemma ReadOne(s: seq<int8>, i: nat)
    requires i < |s|
    ensures s[..i] + [s[i]] == s[..i + 1]
    ensures s[i..] != [] && s[i..][0] == s[i] && s[i..][1..] == s[i + 1..]
  {
  }

  /** From any state of the encoder after i bytes, the final output represents all. */
  lemma {:induction false} PackFromBlocks(p: Packer, bs: Blocks, full: nat, s: seq<int8>, i: nat)
    returns (bs': Blocks)
    requires i <= |s| && PackInv(p, bs, full, s[..i])
    ensures Represents(bs', PackFrom(p, s[i..]), s)
    decreases |s| - i
  {
    if i == |s| {
      assert s[..i] == s && s[i..] == [];
      bs' := FinishBlocks(p, bs, full, s);
    } else {
      ReadOne(s, i);
      var bs1, full1 := StepKeeps(p, s[i], bs, full, s[..i]);
      bs' := PackFromBlocks(Step(p, s[i]), bs1, full1, s, i + 1);
    }
  }

  lemma BeginInv(c: int8)
    ensures PackInv(Begin(c), None, 0, [c])
  {
    var p := Packer(Dump, [c], 0, []);
    assert BufferInv(p) && Waiting(p) == [c];
    assert MeaningAll(None) + Waiting(p) == [c];
  }

  /** Packing represents the string, compressed and within bounds. */
  lemma PackIsCompressed(s: seq<int8>) returns (bs: Blocks)
    requires s != []
    ensures Represents(bs, Pack(s), s)
  {
    BeginInv(s[0]);
    assert s[..1] == [s[0]];
    bs := PackFromBlocks(Begin(s[0]), None, 0, s, 1);
  }

  /** Round trip: unpacking the packed form with the string's length gives the
      string and consumes exactly the packed form, whatever follows it. */
  lemma RoundTrip(s: seq<int8>, rest: seq<int8>)
    requires s != []
    ensures Unpack(Pack(s) + rest, |s|, []) == Done(rest, s)
  {
    var bs := PackIsCompressed(s);
    UnpackIsInverse(bs, rest);
  }

  predicate NoRepeats(s: seq<int8>) {
    forall i :: 0 <= i < |s| - 1 ==> s[i] != s[i + 1]
  }

  /** Without equal neighbours everything is written as literals. */
  lemma {:induction false} PackFromLiterals(p: Packer, src: seq<int8>, full: nat)
    requires BufferInv(p) && p.mode == Dump && |p.out| == 129 * full
    requires NoRepeats(src) && (src != [] ==> src[0] != p.Last())
    ensures var n := 128 * full + |p.buf| + |src|; |PackFrom(p, src)| == n + (n + 127) / 128
    decreases |src|
  {
    if src != [] {
      var p' := Step(p, src[0]);
      StepKeepsBuffer(p, src[0]);
      assert p'.Last() == src[0];
      PackFromLiterals(p', src[1..], if |p.buf| == MAX_DAT then full + 1 else full);
    }
  }

  /** The size bound is reached, for every length. */
  lemma BoundIsReached(s: seq<int8>)
    requires s != [] && NoRepeats(s)
    ensures |Pack(s)| == |s| + (|s| + 127) / 128
  {
    PackFromLiterals(Begin(s[0]), s[1..], 0);
  }

  // ------------------------------------------------------------ the two loops

  /** Packs one line of data. The reads and writes of the look-back buffer stay
      within its 256 bytes, and the returned size is the number of bytes written. */
  method PackBits(source: seq<int8>) returns (dest: seq<int8>, putsize: nat)
    requires source != []
    ensures dest == Pack(source) && putsize == |dest|
  {
    var buf := new int8[2 * MAX_DAT];
    var mode := Dump;
    var nbuf, rstart := 1, 0;
    var lastc := source[0];
    buf[0] := lastc;
    dest, putsize := [], 0;
    var i := 1;
    assert buf[..1] == [lastc];
    while i < |source|
      invariant 1 <= i <= |source| && putsize == |dest|
      invariant 0 < nbuf < buf.Length && buf.Length == 2 * MAX_DAT
      invariant rstart >= 0 && lastc == buf[nbuf - 1]
      invariant BufferInv(Packer(mode, buf[..nbuf], rstart, dest))
      invariant PackFrom(Packer(mode, buf[..nbuf], rstart, dest), source[i..]) == Pack(source)
    {
      ghost var p := Packer(mode, buf[..nbuf], rstart, dest);
      assert source[i..][0] == source[i] && source[i..][1..] == source[i + 1..];
      StepKeepsBuffer(p, source[i]);
      mode, nbuf, rstart, dest, putsize := PackByte(buf, mode, nbuf, rstart, lastc, source[i], dest, putsize);
      lastc := source[i];
      i := i + 1;
    }
    if mode == Dump {
      dest := dest + [(nbuf - 1) as int8] + buf[..nbuf];
      putsize := putsize + nbuf + 1;
    } else {
      dest := dest + [-(nbuf - rstart - 1) as int8, lastc];
      putsize := putsize + 2;
    }
  }

  /** One round of the packing loop. */
  method PackByte(buf: array<int8>, mode: Mode, nbuf: nat, rstart: nat, lastc: int8, c: int8,
                  dest: seq<int8>, putsize: nat)
    returns (mode': Mode, nbuf': nat, rstart': nat, dest': seq<int8>, putsize': nat)
    requires buf.Length == 2 * MAX_DAT && nbuf < buf.Length && putsize == |dest|
    requires Packer(mode, buf[..nbuf], rstart, dest).Valid()
    requires lastc == buf[nbuf - 1]
    modifies buf
    ensures 0 < nbuf' <= buf.Length && buf[nbuf' - 1] == c && putsize' == |dest'|
    ensures Packer(mode', buf[..nbuf'], rstart', dest') == Step(Packer(mode, old(buf[..nbuf]), rstart, dest), c)
  {
    ghost var before := buf[..nbuf];
    buf[nbuf] := c;
    nbuf' := nbuf + 1;
    mode', rstart', dest', putsize' := mode, rstart, dest, putsize;
    assert buf[..nbuf] == before && buf[..nbuf'] == before + [c];
    if mode == Dump {
      if nbuf' > MAX_DAT {
        dest' := dest' + [(nbuf' - 2) as int8] + buf[..nbuf' - 1];
        putsize' := putsize' + nbuf';
        buf[0] := c;
        nbuf', rstart' := 1, 0;
      } else if c == lastc {
        if nbuf' - rstart >= MIN_RUN {
          if rstart > 0 {
            dest' := dest' + [(rstart - 1) as int8] + buf[..rstart];
            putsize' := putsize' + rstart + 1;
          }
          mode' := InRun;
        } else if rstart == 0 {
          mode' := InRun;
        }
      } else {
        rstart' := nbuf' - 1;
      }
    } else if c != lastc || nbuf' - rstart > MAX_RUN {
      dest' := dest' + [-(nbuf' - rstart - 2) as int8, lastc];
      putsize' := putsize' + 2;
      buf[0] := c;
      nbuf', rstart', mode' := 1, 0, Dump;
    }
  }

  datatype UnpackResult = Consumed(size: nat) | Null | OutOfSource

  /** How many bytes a header other than -128 stands for, and what they are. */
  function Length(h: int8): nat {
    if h < 0 then 1 - h as int else h as int + 1
  }

  function Payload(h: int8): nat {
    if h < 0 then 1 else Length(h)
  }

  function BytesAt(source: seq<int8>, pos: nat, h: int8): (bytes: seq<int8>)
    requires pos + Payload(h) <= |source|
    ensures |bytes| == Length(h)
  {
    if h < 0 then Repeat(Length(h), source[pos]) else source[pos..pos + Length(h)]
  }

  /** Unpacking from a position, one header at a time. */
  lemma UnpackAt(source: seq<int8>, pos: nat, count: nat, out: seq<int8>)
    requires pos < |source| && count > 0
    ensures var h := source[pos];
            Unpack(source[pos..], count, out) ==
              if h == -128 then Unpack(source[pos + 1..], count, out)
              else if Length(h) > count then TooLong(out)
              else if pos + 1 + Payload(h) > |source| then Overrun(out)
              else Unpack(source[pos + 1 + Payload(h)..], count - Length(h), out + BytesAt(source, pos + 1, h))
  {
    var src, h := source[pos..], source[pos];
    assert src[0] == h && src[1..] == source[pos + 1..];
    if h != -128 && pos + 1 + Payload(h) <= |source| {
      assert src[1 + Payload(h)..] == source[pos + 1 + Payload(h)..];
      assert h >= 0 ==> src[1..1 + Payload(h)] == source[pos + 1..pos + 1 + Payload(h)];
    }
  }

  /** What the outcome of unpacking means for the caller: the size consumed, or a
      null pointer, or a read past the end; and the bytes written either way. */
  ghost predicate Outcome(u: Unpacked, source: seq<int8>, count: nat, written: seq<int8>, r: UnpackResult) {
    && |u.out| <= count <= |written| && written[..|u.out|] == u.out
    && match u
       case Done(rest, out) => r.Consumed? && r.size <= |source| && rest == source[r.size..] && |out| == count
       case TooLong(_) => r == Null
       case Overrun(_) => r == OutOfSource
  }

  /** Unpacks destcount bytes; a negative count is answered with a null pointer. */
  method UnpackBits(source: seq<int8>, dest: array<int8>, destcount: int) returns (r: UnpackResult)
    requires destcount <= dest.Length
    modifies dest
    ensures destcount < 0 ==> r == Null && dest[..] == old(dest[..])
    ensures destcount >= 0 ==> Outcome(Unpack(source, destcount, []), source, destcount, dest[..], r)
    ensures destcount >= 0 ==>
              var n := |Unpack(source, destcount, []).out|; n <= destcount && dest[n..] == old(dest[n..])
  {
    r := Null;
    if destcount >= 0 {
      r := UnpackCount(source, dest, destcount);
    }
  }

  /** What unpacking comes to once a round has ended with r, at a position of the
      source, with some bytes left to write behind those written. */
  function Onward(source: seq<int8>, pos: nat, left: nat, out: seq<int8>, r: UnpackResult): Unpacked
    requires pos <= |source|
  {
    match r
    case Consumed(_) => Unpack(source[pos..], left, out)
    case Null => TooLong(out)
    case OutOfSource => Overrun(out)
  }

  /** Unpacks until count bytes are written to the start of the destination. */
  method UnpackCount(source: seq<int8>, dest: array<int8>, count: nat) returns (r: UnpackResult)
    requires count <= dest.Length
    modifies dest
    ensures Outcome(Unpack(source, count, []), source, count, dest[..], r)
    ensures var n := |Unpack(source, count, []).out|; n <= count && dest[n..] == old(dest[n..])
  {
    var pos, done := 0, 0;
    r := Consumed(0);
    assert source[0..] == source;
    while done < count && r.Consumed?
      invariant 0 <= pos <= |source| && 0 <= done <= count
      invariant dest[done..] == old(dest[done..])
      invariant r.Consumed? ==> r.size == pos
      invariant Unpack(source, count, []) == Onward(source, pos, count - done, dest[..done], r)
      decreases |source| - pos, if r.Consumed? then 1 else 0
    {
      pos, done, r := UnpackNext(source, dest, pos, done, count);
    }
    assert dest[..][..done] == dest[..done];
  }

  /** One round of the unpacking loop. */
  method UnpackNext(source: seq<int8>, dest: array<int8>, pos: nat, done: nat, count: nat)
    returns (pos': nat, done': nat, r: UnpackResult)
    requires pos <= |source| && done < count <= dest.Length
    modifies dest
    ensures pos <= pos' <= |source| && done <= done' <= count && dest[done'..] == old(dest[done'..])
    ensures r.Consumed? ==> r.size == pos' && pos < pos'
    ensures Unpack(source[pos..], count - done, old(dest[..done]))
            == Onward(source, pos', count - done', dest[..done'], r)
  {
    pos', done', r := pos, done, OutOfSource;
    ghost var out := dest[..done];
    if pos < |source| {
      UnpackAt(source, pos, count - done, out);
      var h := source[pos];
      if h == -128 {
        pos' := pos + 1;
        r := Consumed(pos');
      } else if Length(h) > count - done {
        r := Null;
      } else if pos + 1 + Payload(h) <= |source| {
        CopyBlock(dest, done, BytesAt(source, pos + 1, h));
        pos', done' := pos + 1 + Payload(h), done + Length(h);
        r := Consumed(pos');
      }
    } else {
      assert source[pos..] == [];
    }
  }

  method CopyBlock(dest: array<int8>, at: nat, bytes: seq<int8>)
    requires at + |bytes| <= dest.Length
    modifies dest
    ensures dest[..at + |bytes|] == old(dest[..at]) + bytes
    ensures dest[at + |bytes|..] == old(dest[at + |bytes|..])
  {
    for k := 0 to |bytes|
      invariant dest[..at + k] == old(dest[..at]) + bytes[..k]
      invariant dest[at + |bytes|..] == old(dest[at + |bytes|..])
    {
      dest[at + k] := bytes[k];
    }
  }
}
