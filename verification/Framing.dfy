/** Fixed-size records over a byte stream that arrives in pieces of any size, and their per-client numbers:
    the receive loops of src/include/order_gateway/order_server.hpp and src/order_gateway/gateway_client.cpp. */
module Framing {
  import opened Types

  type Byte = b: nat | b < 256

  /** A wire layout of fixed size, for the messages whose fields fit it. */
  datatype Codec<!M> = Codec(size: nat, fits: M -> bool, encode: M -> seq<Byte>, decode: seq<Byte> -> M)

  ghost predicate Lawful<M(!new)>(c: Codec<M>) {
    0 < c.size && forall m :: c.fits(m) ==> |c.encode(m)| == c.size && c.decode(c.encode(m)) == m
  }

  predicate AllFit<M>(c: Codec<M>, ms: seq<M>) {
    forall i :: 0 <= i < |ms| ==> c.fits(ms[i])
  }

  // ---------------------------------------------------------------- cutting a stream into records

  /** The whole records at the front of the buffer. */
  function Frames<M>(c: Codec<M>, bs: seq<Byte>): seq<M>
    requires 0 < c.size
  {
    if |bs| < c.size then [] else [c.decode(bs[..c.size])] + Frames(c, bs[c.size..])
  }

  /** What is left behind the last whole record. */
  function Leftover<M>(c: Codec<M>, bs: seq<Byte>): (r: seq<Byte>)
    requires 0 < c.size
    ensures |r| < c.size && |r| <= |bs| && r == bs[|bs| - |r|..]
  {
    if |bs| < c.size then bs else Leftover(c, bs[c.size..])
  }

  lemma {:induction false} FirstCut<M>(c: Codec<M>, bs: seq<Byte>)
    requires 0 < c.size <= |bs|
    ensures Frames(c, bs) == [c.decode(bs[..c.size])] + Frames(c, bs[c.size..])
    ensures Leftover(c, bs) == Leftover(c, bs[c.size..])
  {
  }

  /** Cutting what has arrived so far and then the rest is cutting all of it. */
  lemma {:induction false} FramesSplit<M>(c: Codec<M>, a: seq<Byte>, b: seq<Byte>, all: seq<Byte>)
    requires 0 < c.size && all == a + b
    ensures Frames(c, all) == Frames(c, a) + Frames(c, Leftover(c, a) + b)
    ensures Leftover(c, all) == Leftover(c, Leftover(c, a) + b)
    decreases |a|
  {
    if |a| >= c.size {
      var tail := a[c.size..];
      assert all[..c.size] == a[..c.size] && all[c.size..] == tail + b;
      FirstCut(c, a);
      FirstCut(c, all);
      FramesSplit(c, tail, b, tail + b);
      Grouped([c.decode(a[..c.size])], Frames(c, tail), Frames(c, Leftover(c, tail) + b));
    }
  }

  /** The record at position `i` of a buffer, and what follows it. */
  lemma {:induction false} FramesFrom<M>(c: Codec<M>, bs: seq<Byte>, i: nat, j: nat)
    requires 0 < c.size && j == i + c.size <= |bs|
    ensures Frames(c, bs[i..]) == [c.decode(bs[i..j])] + Frames(c, bs[j..])
    ensures Leftover(c, bs[i..]) == Leftover(c, bs[j..])
  {
    assert bs[i..][..c.size] == bs[i..j] && bs[i..][c.size..] == bs[j..];
    FirstCut(c, bs[i..]);
  }

  /** The first `i` bytes of a buffer have been cut into the records `cut`. */
  ghost predicate CutTo<M>(c: Codec<M>, bs: seq<Byte>, i: nat, cut: seq<M>)
    requires 0 < c.size && i <= |bs|
    decreases i
  {
    if i == 0 then cut == []
    else
      && c.size <= i && cut != [] && CutTo(c, bs, i - c.size, cut[..|cut| - 1])
      && cut[|cut| - 1] == c.decode(bs[i - c.size..i])
  }

  lemma {:induction false} CutIsFrames<M>(c: Codec<M>, bs: seq<Byte>, i: nat, cut: seq<M>)
    requires 0 < c.size && i <= |bs| && CutTo(c, bs, i, cut)
    ensures Frames(c, bs) == cut + Frames(c, bs[i..]) && Leftover(c, bs) == Leftover(c, bs[i..])
    decreases i
  {
    if i == 0 {
      assert bs[0..] == bs;
    } else {
      var j, before, m := i - c.size, cut[..|cut| - 1], cut[|cut| - 1];
      CutIsFrames(c, bs, j, before);
      FramesFrom(c, bs, j, i);
      Rejoined(Frames(c, bs), before, Frames(c, bs[j..]), m, Frames(c, bs[i..]), cut);
    }
  }

  lemma Rejoined<M>(all: seq<M>, before: seq<M>, rest: seq<M>, m: M, more: seq<M>, cut: seq<M>)
    requires all == before + rest && rest == [m] + more && cut != [] && before == cut[..|cut| - 1] && m == cut[|cut| - 1]
    ensures all == cut + more
  {
    assert cut == before + [m];
    Grouped(before, [m], more);
  }

  lemma {:induction false} NextIsFrame<M>(c: Codec<M>, bs: seq<Byte>, i: nat, j: nat, cut: seq<M>, m: M)
    requires 0 < c.size && j == i + c.size <= |bs| && CutTo(c, bs, i, cut) && m == c.decode(bs[i..j])
    ensures m in Frames(c, bs) && |cut| < |Frames(c, bs)|
  {
    CutIsFrames(c, bs, i, cut);
    FramesFrom(c, bs, i, j);
    assert Frames(c, bs)[|cut|] == m;
  }

  lemma {:induction false} CutOneMore<M>(c: Codec<M>, bs: seq<Byte>, i: nat, j: nat, cut: seq<M>, m: M)
    requires 0 < c.size && j == i + c.size <= |bs| && CutTo(c, bs, i, cut) && m == c.decode(bs[i..j])
    ensures CutTo(c, bs, j, cut + [m])
  {
    assert (cut + [m])[..|cut|] == cut && j - c.size == i;
  }

  lemma CutNext<M>(c: Codec<M>, bs: seq<Byte>, i: nat, cut: seq<M>, m: M)
    requires 0 < c.size && i + c.size <= |bs| && CutTo(c, bs, i, cut) && m == c.decode(bs[i..i + c.size])
    ensures CutTo(c, bs, i + c.size, cut + [m]) && m in Frames(c, bs) && |cut| < |Frames(c, bs)|
  {
    CutOneMore(c, bs, i, i + c.size, cut, m);
    NextIsFrame(c, bs, i, i + c.size, cut, m);
  }

  lemma {:induction false} CutAll<M>(c: Codec<M>, bs: seq<Byte>, i: nat, cut: seq<M>)
    requires 0 < c.size && i <= |bs| < i + c.size && CutTo(c, bs, i, cut)
    ensures Frames(c, bs) == cut && Leftover(c, bs) == bs[i..]
  {
    CutIsFrames(c, bs, i, cut);
    assert Frames(c, bs[i..]) == [];
    assert cut + [] == cut;
  }

  function Concat(chunks: seq<seq<Byte>>): seq<Byte> {
    if chunks == [] then [] else Concat(chunks[..|chunks| - 1]) + chunks[|chunks| - 1]
  }

  /** The records a receiver has cut and the bytes it holds after receiving the chunks one by one. */
  function Reassembled<M>(c: Codec<M>, chunks: seq<seq<Byte>>): (seq<M>, seq<Byte>)
    requires 0 < c.size
  {
    if chunks == [] then ([], [])
    else
      var (ms, held) := Reassembled(c, chunks[..|chunks| - 1]);
      var buffer := held + chunks[|chunks| - 1];
      (ms + Frames(c, buffer), Leftover(c, buffer))
  }

  /** How the stream was cut into chunks makes no difference. */
  lemma {:induction false} ChunkingIsIrrelevant<M>(c: Codec<M>, chunks: seq<seq<Byte>>)
    requires 0 < c.size
    ensures Reassembled(c, chunks) == (Frames(c, Concat(chunks)), Leftover(c, Concat(chunks)))
  {
    if chunks != [] {
      ChunkingIsIrrelevant(c, chunks[..|chunks| - 1]);
      FramesSplit(c, Concat(chunks[..|chunks| - 1]), chunks[|chunks| - 1], Concat(chunks));
    }
  }

  // ---------------------------------------------------------------- what was sent

  function Stream<M>(c: Codec<M>, ms: seq<M>): seq<Byte> {
    if ms == [] then [] else c.encode(ms[0]) + Stream(c, ms[1..])
  }

  lemma {:induction false} StreamLast<M>(c: Codec<M>, ms: seq<M>, m: M)
    ensures Stream(c, ms + [m]) == Stream(c, ms) + c.encode(m)
  {
    if ms == [] {
      assert ms + [m] == [m] && [m][1..] == [];
    } else {
      assert (ms + [m])[1..] == ms[1..] + [m];
      StreamLast(c, ms[1..], m);
    }
  }

  lemma {:induction false} FirstFrame<M(!new)>(c: Codec<M>, ms: seq<M>, arrived: seq<Byte>, rest: seq<Byte>)
    requires Lawful(c) && AllFit(c, ms) && arrived + rest == Stream(c, ms) && c.size <= |arrived|
    ensures ms != [] && c.decode(arrived[..c.size]) == ms[0]
    ensures arrived == c.encode(ms[0]) + arrived[c.size..] && arrived[c.size..] + rest == Stream(c, ms[1..])
  {
    var e := c.encode(ms[0]);
    assert |e| == c.size && c.decode(e) == ms[0];
    assert arrived[..c.size] == (arrived + rest)[..c.size] == e;
    assert arrived[c.size..] + rest == (arrived + rest)[c.size..];
  }

  lemma {:induction false} OneMore<M>(c: Codec<M>, ms: seq<M>, got: seq<M>, more: seq<M>, left: seq<Byte>)
    requires ms != [] && |more| < |ms| && more == ms[1..][..|more|] && got == [ms[0]] + more
    ensures got == ms[..|got|] && (more == ms[1..] ==> got == ms)
    ensures c.encode(ms[0]) + (Stream(c, more) + left) == Stream(c, got) + left
  {
    assert got[1..] == more;
    Grouped(c.encode(ms[0]), Stream(c, more), left);
  }

  /** From any part of a stream that has arrived, a prefix of the records comes out, whole and unchanged;
      from all of it, all of them. */
  lemma {:induction false} FramesOfStream<M(!new)>(c: Codec<M>, ms: seq<M>, arrived: seq<Byte>, rest: seq<Byte>, got: seq<M>)
    requires Lawful(c) && AllFit(c, ms) && arrived + rest == Stream(c, ms) && got == Frames(c, arrived)
    ensures |got| <= |ms| && got == ms[..|got|]
    ensures arrived == Stream(c, got) + Leftover(c, arrived)
    ensures rest == [] ==> got == ms && Leftover(c, arrived) == []
    decreases |arrived|
  {
    if |arrived| >= c.size {
      var tail := arrived[c.size..];
      FirstFrame(c, ms, arrived, rest);
      FirstCut(c, arrived);
      FramesOfStream(c, ms[1..], tail, rest, Frames(c, tail));
      OneMore(c, ms, got, Frames(c, tail), Leftover(c, tail));
    } else {
      assert got == [] && Stream(c, got) + arrived == arrived;
      NothingWhole(c, ms, arrived, rest);
    }
  }

  lemma {:induction false} NothingWhole<M(!new)>(c: Codec<M>, ms: seq<M>, arrived: seq<Byte>, rest: seq<Byte>)
    requires Lawful(c) && AllFit(c, ms) && arrived + rest == Stream(c, ms) && |arrived| < c.size
    ensures rest == [] ==> ms == [] && arrived == []
  {
    if ms != [] {
      StreamIsLong(c, ms);
    }
  }

  lemma {:induction false} StreamIsLong<M(!new)>(c: Codec<M>, ms: seq<M>)
    requires Lawful(c) && AllFit(c, ms) && ms != []
    ensures c.size <= |Stream(c, ms)|
  {
    assert |c.encode(ms[0])| == c.size;
  }

  // ---------------------------------------------------------------- numbering

  datatype Numbered<+M> = Numbered(seqNum: nat, body: M)

  /** `ms` numbered from `k` on. */
  function Number<M>(k: nat, ms: seq<M>): (r: seq<Numbered<M>>)
    ensures |r| == |ms| && forall i :: 0 <= i < |ms| ==> r[i] == Numbered(k + i, ms[i])
  {
    seq(|ms|, i requires 0 <= i < |ms| => Numbered(k + i, ms[i]))
  }

  /** What a receiver that expects number `k` next takes of the messages: those in sequence. */
  function InSequence<M>(k: nat, ms: seq<Numbered<M>>): seq<M>
    decreases |ms|
  {
    if ms == [] then []
    else if ms[0].seqNum == k then [ms[0].body] + InSequence(k + 1, ms[1..])
    else InSequence(k, ms[1..])
  }

  lemma {:induction false} InSequenceOfAll<M>(k: nat, ms: seq<M>)
    ensures InSequence(k, Number(k, ms)) == ms
    decreases |ms|
  {
    if ms != [] {
      assert Number(k, ms)[1..] == Number(k + 1, ms[1..]);
      InSequenceOfAll(k + 1, ms[1..]);
    }
  }

  lemma {:induction false} InSequenceSplits<M>(k: nat, ms: seq<Numbered<M>>, ns: seq<Numbered<M>>)
    ensures InSequence(k, ms + ns) == InSequence(k, ms) + InSequence(k + |InSequence(k, ms)|, ns)
    decreases |ms|
  {
    if ms == [] {
      assert ms + ns == ns;
    } else {
      assert (ms + ns)[1..] == ms[1..] + ns;
      InSequenceSplits(if ms[0].seqNum == k then k + 1 else k, ms[1..], ns);
    }
  }

  /** One more message is taken exactly when its number is the next one; every other is as if it had not come. */
  lemma {:induction false} OneMoreInSequence<M>(k: nat, ms: seq<Numbered<M>>, m: Numbered<M>)
    ensures var before := InSequence(k, ms);
            InSequence(k, ms + [m]) == if m.seqNum == k + |before| then before + [m.body] else before
  {
    InSequenceSplits(k, ms, [m]);
    assert [m][1..] == [];
  }

  lemma {:induction false} InSequenceOfSome<M>(ms: seq<M>, n: nat, some: seq<Numbered<M>>)
    requires n <= |ms| && some == Number(1, ms)[..n]
    ensures InSequence(1, some) == ms[..n]
  {
    assert some == Number(1, ms[..n]);
    InSequenceOfAll(1, ms[..n]);
  }

  /** Lossless delivery: whatever the chunks in which a numbered stream has arrived so far, the messages taken are
      the first ones sent, in order, none skipped for its number; and all of them once all has arrived. */
  lemma {:induction false} DeliveredInOrder<M(!new)>(c: Codec<Numbered<M>>, ms: seq<M>, chunks: seq<seq<Byte>>, rest: seq<Byte>,
                                                     frames: seq<Numbered<M>>)
    requires Lawful(c) && AllFit(c, Number(1, ms)) && Concat(chunks) + rest == Stream(c, Number(1, ms)) && frames == Reassembled(c, chunks).0
    ensures |frames| <= |ms| && InSequence(1, frames) == ms[..|frames|]
    ensures rest == [] ==> |frames| == |ms|
  {
    ChunkingIsIrrelevant(c, chunks);
    FramesOfStream(c, Number(1, ms), Concat(chunks), rest, frames);
    InSequenceOfSome(ms, |frames|, frames);
  }
}
