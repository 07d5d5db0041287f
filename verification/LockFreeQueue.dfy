/** The single-producer single-consumer ring buffer under every interleaving of its atomic steps
    (src/include/runtime/lock_free_queue.hpp). */
module LockFreeQueue {
  import opened Types

  /** Where the producer is: free, filling its slot (possibly in several writes), or between its two counters. */
  datatype Producer<T> = Away | Filling(value: T) | Advanced(value: T)

  /** Where the consumer is: free, past a Size() that was not zero, holding what it read, or between its two counters. */
  datatype Consumer<T> = Absent | Admitted | Holding(value: T) | Passed(value: T)

  datatype Queue<T> = Queue(
    store: seq<T>, nextWrite: nat, nextRead: nat, count: nat,
    producer: Producer<T>, consumer: Consumer<T>,
    committed: seq<T>, consumed: seq<T>)

  datatype Event<T> =
    | Write(value: T) | AdvanceWrite | Count
    | Look | Read | AdvanceRead | Uncount

  /** The two slot indexes move on by `(i + 1) % n`. */
  function Next(i: nat, n: nat): (r: nat)
    requires i < n
    ensures r < n
  {
    (i + 1) % n
  }

  predicate Shaped<T>(q: Queue<T>) {
    0 < |q.store| && q.nextWrite < |q.store| && q.nextRead < |q.store|
  }

  predicate Enabled<T>(q: Queue<T>, e: Event<T>) {
    && Shaped(q)
    && match e
       case Write(_) => !q.producer.Advanced?
       case AdvanceWrite => q.producer.Filling?
       case Count => q.producer.Advanced?
       case Look => q.consumer.Absent?
       case Read => q.consumer.Admitted? || q.consumer.Holding?
       case AdvanceRead => q.consumer.Holding?
       case Uncount => q.consumer.Passed? && q.count != 0
  }

  function Step<T>(q: Queue<T>, e: Event<T>): Queue<T>
    requires Enabled(q, e)
  {
    match e
    case Write(v) => q.(store := q.store[q.nextWrite := v], producer := Filling(v))
    case AdvanceWrite => q.(nextWrite := Next(q.nextWrite, |q.store|), producer := Advanced(q.producer.value))
    case Count => q.(count := q.count + 1, producer := Away, committed := q.committed + [q.producer.value])
    case Look => if q.count != 0 then q.(consumer := Admitted) else q
    case Read => q.(consumer := Holding(q.store[q.nextRead]))
    case AdvanceRead => q.(nextRead := Next(q.nextRead, |q.store|), consumer := Passed(q.consumer.value))
    case Uncount => q.(count := q.count - 1, consumer := Absent, consumed := q.consumed + [q.consumer.value])
  }

  function Empty<T>(store: seq<T>): Queue<T> {
    Queue(store, 0, 0, 0, Away, Absent, [], [])
  }

  // ---------------------------------------------------------------- the invariant

  /** The slot `j` places on from slot `i`. */
  function At(i: nat, j: nat, n: nat): (r: nat)
    requires i < n && j <= n
    ensures r < n
  {
    if i + j < n then i + j else i + j - n
  }

  /** The values the consumer is done with: a slot is free once nextRead has moved on, before the count follows. */
  function Taken<T>(q: Queue<T>): seq<T> {
    q.consumed + if q.consumer.Passed? then [q.consumer.value] else []
  }

  /** How many slots hold a committed value that is still to be read. */
  function Occupied<T>(q: Queue<T>): int {
    q.count - if q.consumer.Passed? then 1 else 0
  }

  /** The slot the producer fills next, or has just filled. */
  function Tail<T>(q: Queue<T>): nat
    requires Shaped(q)
  {
    if !q.producer.Advanced? then q.nextWrite else if q.nextWrite == 0 then |q.store| - 1 else q.nextWrite - 1
  }

  /** What has been committed and not taken stands in its slots, behind it what the producer is filling; what the
      consumer has read is the oldest of it. */
  ghost predicate Inv<T>(q: Queue<T>) {
    && Shaped(q)
    && Taken(q) <= q.committed
    && q.count == |q.committed| - |q.consumed| && Occupied(q) <= |q.store|
    && Tail(q) == At(q.nextRead, Occupied(q), |q.store|)
    && (forall j :: 0 <= j < Occupied(q) ==> q.store[At(q.nextRead, j, |q.store|)] == q.committed[|Taken(q)| + j])
    && (!q.producer.Away? ==> Occupied(q) < |q.store| && q.store[Tail(q)] == q.producer.value)
    && (q.consumer.Admitted? || q.consumer.Holding? ==> 0 < Occupied(q))
    && (q.consumer.Holding? ==> q.consumer.value == q.committed[|q.consumed|])
  }

  /** The producer has room: what the code relies on, but does not check, when a slot is written. */
  predicate Room<T>(q: Queue<T>, e: Event<T>) {
    e.Write? ==> Occupied(q) < |q.store|
  }

  lemma NextIsAt(i: nat, n: nat)
    requires i < n
    ensures Next(i, n) == (if i + 1 == n then 0 else i + 1)
  {
  }

  lemma ProducerKeeps<T>(q: Queue<T>, e: Event<T>)
    requires Inv(q) && Enabled(q, e) && Room(q, e) && (e.Write? || e.AdvanceWrite? || e.Count?)
    ensures Inv(Step(q, e))
  {
    NextIsAt(q.nextWrite, |q.store|);
  }

  lemma LookKeeps<T>(q: Queue<T>, e: Event<T>)
    requires Inv(q) && Enabled(q, e) && (e.Look? || e.Read? || e.Uncount?)
    ensures Inv(Step(q, e))
  {
    assert At(q.nextRead, 0, |q.store|) == q.nextRead;
  }

  lemma AdvanceReadKeeps<T>(q: Queue<T>, q': Queue<T>)
    requires Inv(q) && Enabled(q, AdvanceRead) && q' == Step(q, AdvanceRead)
    ensures Inv(q')
  {
    var n := |q.store|;
    NextIsAt(q.nextRead, n);
    assert At(q'.nextRead, Occupied(q'), n) == At(q.nextRead, Occupied(q), n);
    forall j | 0 <= j < Occupied(q') ensures q'.store[At(q'.nextRead, j, n)] == q'.committed[|Taken(q')| + j] {
      assert At(q'.nextRead, j, n) == At(q.nextRead, j + 1, n);
    }
  }

  lemma StepKeeps<T>(q: Queue<T>, e: Event<T>)
    requires Inv(q) && Enabled(q, e) && Room(q, e)
    ensures Inv(Step(q, e))
  {
    if e.Write? || e.AdvanceWrite? || e.Count? {
      ProducerKeeps(q, e);
    } else if e.AdvanceRead? {
      AdvanceReadKeeps(q, Step(q, e));
    } else {
      LookKeeps(q, e);
    }
  }

  // ---------------------------------------------------------------- every interleaving

  /** The events in this order, None when one of them is not possible in its turn. */
  function Run<T>(q: Queue<T>, es: seq<Event<T>>): Option<Queue<T>>
    decreases |es|
  {
    if es == [] then Some(q) else if Enabled(q, es[0]) then Run(Step(q, es[0]), es[1..]) else None
  }

  /** Every write of the run finds room. */
  predicate Roomy<T>(q: Queue<T>, es: seq<Event<T>>)
    decreases |es|
  {
    es != [] && Enabled(q, es[0]) ==> Room(q, es[0]) && Roomy(Step(q, es[0]), es[1..])
  }

  lemma {:induction false} RunKeeps<T>(q: Queue<T>, es: seq<Event<T>>, t: Queue<T>)
    requires Inv(q) && Roomy(q, es) && Run(q, es) == Some(t)
    ensures Inv(t)
    decreases |es|
  {
    if es != [] {
      StepKeeps(q, es[0]);
      RunKeeps(Step(q, es[0]), es[1..], t);
    }
  }

  /** Under every interleaving, as long as the producer finds room: what was consumed is a prefix of what was
      committed, and what the consumer holds is the next committed value, never one that is being written or has
      been overwritten. */
  lemma {:induction false} ConsumedIsPrefixOfCommitted<T>(store: seq<T>, es: seq<Event<T>>, q: Queue<T>)
    requires 0 < |store| && Roomy(Empty(store), es) && Run(Empty(store), es) == Some(q)
    ensures q.consumed <= q.committed
    ensures q.consumer.Holding? || q.consumer.Passed? ==>
              |q.consumed| < |q.committed| && q.consumer.value == q.committed[|q.consumed|]
    ensures q.consumer.Admitted? ==>
              |q.consumed| < |q.committed| && q.nextRead < |q.store| && q.store[q.nextRead] == q.committed[|q.consumed|]
    ensures q.consumer.Passed? ==> q.count != 0
  {
    RunKeeps(Empty(store), es, q);
    assert At(q.nextRead, 0, |q.store|) == q.nextRead;
    assert q.consumed <= Taken(q);
  }

  // ---------------------------------------------------------------- no room

  /** How the consumer goes on until it has given back one more value. */
  function Consume<T>(c: Consumer<T>): seq<Event<T>> {
    match c
    case Absent => [Look, Read, AdvanceRead, Uncount]
    case Admitted => [Read, AdvanceRead, Uncount]
    case Holding(_) => [Read, AdvanceRead, Uncount]
    case Passed(_) => [Uncount, Look, Read, AdvanceRead, Uncount]
  }

  lemma {:induction false} RunSplits<T>(q: Queue<T>, es: seq<Event<T>>, fs: seq<Event<T>>)
    requires Run(q, es).Some?
    ensures Run(q, es + fs) == Run(Run(q, es).value, fs)
    decreases |es|
  {
    if es == [] {
      assert es + fs == fs;
    } else {
      assert (es + fs)[1..] == es[1..] + fs;
      RunSplits(Step(q, es[0]), es[1..], fs);
    }
  }

  lemma {:induction false} RunThree<T>(q: Queue<T>, a: Event<T>, b: Event<T>, c: Event<T>)
    requires Enabled(q, a) && Enabled(Step(q, a), b) && Enabled(Step(Step(q, a), b), c)
    ensures Run(q, [a, b, c]) == Some(Step(Step(Step(q, a), b), c))
  {
    var q1 := Step(q, a);
    var q2 := Step(q1, b);
    assert [a, b, c][1..] == [b, c] && [b, c][1..] == [c] && [c][1..] == [];
    assert Run(Step(q2, c), []) == Some(Step(q2, c));
    assert Run(q2, [c]) == Run(Step(q2, c), []);
    assert Run(q1, [b, c]) == Run(q2, [c]);
  }

  /** The queue after a value is read from the slot at nextRead and given back. */
  function AfterRead<T>(q: Queue<T>): Queue<T>
    requires Shaped(q) && q.count != 0
  {
    q.(nextRead := Next(q.nextRead, |q.store|), count := q.count - 1, consumer := Absent,
       consumed := q.consumed + [q.store[q.nextRead]])
  }

  lemma {:induction false} ReadsSlot<T>(q: Queue<T>)
    requires Shaped(q) && (q.consumer.Admitted? || q.consumer.Holding?) && q.count != 0
    ensures Run(q, [Read, AdvanceRead, Uncount]) == Some(AfterRead(q))
  {
    RunThree(q, Read, AdvanceRead, Uncount);
  }

  lemma {:induction false} LooksAndReads<T>(q: Queue<T>)
    requires Shaped(q) && q.consumer.Absent? && q.count != 0
    ensures Run(q, [Look, Read, AdvanceRead, Uncount]) == Some(AfterRead(q))
  {
    ReadsSlot(Step(q, Look));
    var es: seq<Event<T>> := [Look, Read, AdvanceRead, Uncount];
    assert es[1..] == [Read, AdvanceRead, Uncount];
  }

  lemma {:induction false} ConsumesOne<T>(q: Queue<T>)
    requires Shaped(q) && q.count != 0 && (q.consumer.Passed? ==> q.count > 1)
    ensures var q' := if q.consumer.Passed? then Step(q, Uncount) else q;
            Run(q, Consume(q.consumer)) == Some(AfterRead(q'))
  {
    match q.consumer
    case Absent => LooksAndReads(q);
    case Passed(_) =>
      LooksAndReads(Step(q, Uncount));
      assert Consume(q.consumer)[1..] == [Look, Read, AdvanceRead, Uncount];
    case _ => ReadsSlot(q);
  }

  /** Writing is sound exactly when a slot is free: into a full ring, whatever the consumer is doing, the value goes
      over the oldest one still to be read, and the consumer comes to hand it on in place of that. */
  lemma {:induction false} FullRingOverwrites<T>(q: Queue<T>, value: T, q': Queue<T>)
    requires Inv(q) && Enabled(q, Write(value)) && q' == Step(q, Write(value))
    ensures Occupied(q) < |q.store| ==> Inv(q')
    ensures Occupied(q) == |q.store| && value != q.committed[|Taken(q)|] ==>
              Run(q', Consume(q.consumer)).Some?
              && var t := Run(q', Consume(q.consumer)).value;
                 t.consumed == Taken(q) + [value] && t.committed == q.committed && !(t.consumed <= t.committed)
  {
    if Occupied(q) < |q.store| {
      ProducerKeeps(q, Write(value));
    } else {
      ConsumesOne(q');
    }
  }

  // ---------------------------------------------------------------- a run into a full ring

  function Fill<T>(vs: seq<T>): seq<Event<T>> {
    if vs == [] then [] else Fill(vs[..|vs| - 1]) + [Write(vs[|vs| - 1]), AdvanceWrite, Count]
  }

  lemma {:induction false} Filled<T>(store: seq<T>, vs: seq<T>)
    requires 0 < |store| && |vs| <= |store|
    ensures Run(Empty(store), Fill(vs))
            == Some(Queue(vs + store[|vs|..], if |vs| < |store| then |vs| else 0, 0, |vs|, Away, Absent, vs, []))
    decreases |vs|
  {
    if vs == [] {
      assert vs + store[|vs|..] == store;
    } else {
      var k := |vs| - 1;
      Filled(store, vs[..k]);
      var q := Run(Empty(store), Fill(vs[..k])).value;
      NextIsAt(k, |store|);
      RunThree(q, Write(vs[k]), AdvanceWrite, Count);
      RunSplits(Empty(store), Fill(vs[..k]), [Write(vs[k]), AdvanceWrite, Count]);
      assert (vs[..k] + store[k..])[k := vs[k]] == vs + store[|vs|..];
      assert vs[..k] + [vs[k]] == vs;
    }
  }

  /** For rings of every size: values that fill the ring, then one more write, and what the consumer hands on is
      not what was committed. */
  lemma {:induction false} OldestIsLost<T>(store: seq<T>, vs: seq<T>, value: T, es: seq<Event<T>>)
    requires 0 < |store| == |vs| && value != vs[0]
    requires es == Fill(vs) + ([Write(value)] + Consume(Absent))
    ensures Run(Empty(store), es).Some?
    ensures var t := Run(Empty(store), es).value; t.consumed == [value] && t.committed == vs && !(t.consumed <= t.committed)
  {
    Filled(store, vs);
    var q := Run(Empty(store), Fill(vs)).value;
    RunSplits(Empty(store), Fill(vs), [Write(value)] + Consume(Absent));
    assert ([Write(value)] + Consume(Absent))[1..] == Consume(Absent);
    ConsumesOne(Step(q, Write(value)));
  }
}
