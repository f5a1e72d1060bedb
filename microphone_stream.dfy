/** The microphone capture buffer and the chunk coalescer of the kiosk
    (class MicrophoneStream in device/app.py).

    The hardware callback puts raw chunks into a FIFO; `__exit__` closes the
    stream and puts one `None` sentinel; the generator does one blocking get,
    then drains the FIFO with non-blocking gets and yields the concatenation
    of what it drained.  The FIFO is modelled single-threaded as a sequence:
    a get removes its front, and "Empty" means the sequence is empty. */
module Microphone {

  /** The recording parameters `main` opens the stream with (lines 22-23). */
  const RATE: nat := 44100
  const CHUNK: nat := 1600

  /** One entry of the buffer: a chunk of captured bytes, or the `None` sentinel. */
  datatype Item = Chunk(bytes: seq<bv8>) | Sentinel

  /** What one resumption of the generator produces: a yielded batch, a wait in
      the blocking get (the buffer is empty; no step is possible until the
      producer puts something), or the end of the generator. */
  datatype Resumption = Yield(data: seq<bv8>) | Blocked | Stop

  /** Where the generator is suspended: before the `while not self.closed` test,
      inside the blocking get, or finished. */
  datatype Phase = AtLoopHead | AtGet | Done

  /** The effect of one resumption: what it produces, where it suspends, the
      buffer it leaves, the chunks it removed from the buffer (in order) and
      whether it then removed the sentinel. */
  datatype Transition = Transition(next: Resumption, phase: Phase, buff: seq<Item>, chunks: seq<Item>, sentinel: bool)
  {
    /** Everything the resumption removed from the buffer, in order. */
    function Taken(): seq<Item>
    {
      chunks + (if sentinel then [Sentinel] else [])
    }
  }

  /** No sentinel among `items`: every one of them is a chunk. */
  predicate AllChunks(items: seq<Item>)
  {
    Sentinel !in items
  }

  /** `b''.join(parts)`. */
  function Join(parts: seq<seq<bv8>>): seq<bv8>
  {
    if parts == [] then [] else parts[0] + Join(parts[1..])
  }

  /** The byte payloads of the chunks among `items`, in order. */
  function Payloads(items: seq<Item>): seq<seq<bv8>>
  {
    if items == [] then []
    else (if items[0].Chunk? then [items[0].bytes] else []) + Payloads(items[1..])
  }

  /** The bytes carried by `items`: what a consumer that kept every chunk would send. */
  function Bytes(items: seq<Item>): seq<bv8>
  {
    Join(Payloads(items))
  }

  /** The position of the first sentinel in `items`, or `|items|` if there is none. */
  function FirstSentinel(items: seq<Item>): (k: nat)
    ensures k <= |items|
    ensures k < |items| ==> items[k] == Sentinel
    ensures AllChunks(items[..k])
  {
    if items == [] then 0
    else if items[0].Sentinel? then 0
    else
      var k := 1 + FirstSentinel(items[1..]);
      assert items[..k] == [items[0]] + items[1..][..k - 1];
      k
  }

  /** Every sentinel ever put is the last item put. */
  predicate SentinelOnlyLast(items: seq<Item>)
  {
    items == [] || AllChunks(items[..|items| - 1])
  }

  /** The producer's discipline: chunks only while the stream is open, and the
      sentinel, if any, last. */
  predicate ProducerOrder(produced: seq<Item>, closed: bool)
  {
    SentinelOnlyLast(produced) && (!closed ==> AllChunks(produced))
  }

  /** The blocking get of line 73 and the drain of lines 79-86, run from `buff`:
      block on an empty buffer; otherwise take items up to the first sentinel,
      which ends the generator and drops the chunks taken before it, or take
      the whole buffer and yield the join of its chunks. */
  function Get(buff: seq<Item>): Transition
  {
    if buff == [] then Transition(Blocked, AtGet, [], [], false)
    else
      var k := FirstSentinel(buff);
      if k < |buff| then Transition(Stop, Done, buff[k + 1..], buff[..k], true)
      else Transition(Yield(Bytes(buff)), AtLoopHead, [], buff, false)
  }

  /** One resumption of the generator of lines 68-88, from suspension point `phase`. */
  function Resume(phase: Phase, closed: bool, buff: seq<Item>): Transition
  {
    match phase
    case Done => Transition(Stop, Done, buff, [], false)
    case AtLoopHead => if closed then Transition(Stop, Done, buff, [], false) else Get(buff)
    case AtGet => Get(buff)
  }

  /** What one resumption promises: it removes a prefix of the buffer and keeps
      the order of what remains; a yield takes at least one chunk, only
      chunks, and leaves the buffer empty (the drain is greedy), and its data
      is the join of those chunks in order; the generator stops exactly when
      it is finished already, finds `closed` at the loop head, or meets a
      sentinel, and a sentinel met after chunks drops them; a block happens
      only on an empty buffer and changes nothing. */
  lemma ResumeSpec(phase: Phase, closed: bool, buff: seq<Item>)
    ensures var t := Resume(phase, closed, buff);
      && t.Taken() + t.buff == buff && AllChunks(t.chunks)
      && (phase == Done ==> t == Transition(Stop, Done, buff, [], false))
      && (phase == AtLoopHead && closed ==> t == Transition(Stop, Done, buff, [], false))
      && (t.next.Stop? <==> phase == Done || (phase == AtLoopHead && closed) || Sentinel in buff)
      && (t.next.Stop? ==> t.phase == Done)
      && (t.sentinel ==> t.next.Stop? && phase != Done)
      && (t.next.Yield? ==>
            t.phase == AtLoopHead && t.buff == [] && t.chunks != [] && !t.sentinel
            && t.next.data == Bytes(t.chunks))
      && (t.next.Blocked? <==> phase != Done && !(phase == AtLoopHead && closed) && buff == [])
      && (t.next.Blocked? ==> t == Transition(Blocked, AtGet, [], [], false))
  {
  }

  lemma {:induction false} JoinAppend(a: seq<seq<bv8>>, b: seq<seq<bv8>>)
    ensures Join(a + b) == Join(a) + Join(b)
  {
    if a == [] {
      assert a + b == b;
    } else {
      assert (a + b)[1..] == a[1..] + b;
      JoinAppend(a[1..], b);
    }
  }

  lemma {:induction false} PayloadsAppend(a: seq<Item>, b: seq<Item>)
    ensures Payloads(a + b) == Payloads(a) + Payloads(b)
  {
    if a == [] {
      assert a + b == b;
    } else {
      assert (a + b)[1..] == a[1..] + b;
      PayloadsAppend(a[1..], b);
    }
  }

  /** Bytes distributes over concatenation of item sequences. */
  lemma BytesAppend(a: seq<Item>, b: seq<Item>)
    ensures Bytes(a + b) == Bytes(a) + Bytes(b)
  {
    PayloadsAppend(a, b);
    JoinAppend(Payloads(a), Payloads(b));
  }

  /** Once the sentinel is taken the generator is finished, and a finished
      generator keeps reporting the end without touching the buffer. */
  lemma StopIsFinal(phase: Phase, closed: bool, buff: seq<Item>, closed': bool, buff': seq<Item>)
    requires Resume(phase, closed, buff).next.Stop?
    ensures Resume(Resume(phase, closed, buff).phase, closed', buff') == Transition(Stop, Done, buff', [], false)
  {
  }

  /** The bytes of a sequence are a prefix of the bytes of any extension of it. */
  lemma BytesPrefix(a: seq<Item>, b: seq<Item>)
    ensures Bytes(a) <= Bytes(a + b)
  {
    BytesAppend(a, b);
  }

  /** The recording stream and its `generator()`: `buff` is the queue, `closed`
      the flag of the same name, `phase` the suspension point of the one
      generator the program draws from it (main calls `generator()` once). */
  class MicrophoneStream {
    const rate: nat
    const chunk: nat
    var buff: seq<Item>
    var closed: bool
    var phase: Phase

    /** Every item ever put into the buffer, in order. */
    ghost var produced: seq<Item>
    /** The chunks of all yielded batches, in yield order. */
    ghost var yielded: seq<Item>
    /** The chunks taken, and never yielded, by the resumption that met the sentinel. */
    ghost var dropped: seq<Item>
    /** Whether the generator has taken the sentinel. */
    ghost var sentinelTaken: bool
    /** The concatenation of all yielded data. */
    ghost var sent: seq<bv8>

    ghost predicate Valid()
      reads this
    {
      Accounted() && ProducerOrder(produced, closed)
    }

    /** The consumer's books: every item put is in a yielded batch, among the
        chunks dropped at the sentinel, the sentinel itself, or still in the
        buffer, in that order, and what was sent is the bytes of the yielded
        chunks. */
    ghost predicate Accounted()
      reads this
    {
      produced == yielded + dropped + (if sentinelTaken then [Sentinel] else []) + buff
      && AllChunks(yielded) && sent == Bytes(yielded)
      && AllChunks(dropped) && (sentinelTaken ==> phase == Done) && (!sentinelTaken ==> dropped == [])
    }

    /** What has been sent is a prefix of the bytes of everything produced:
        batches come out in FIFO order, with nothing duplicated or reordered. */
    lemma SentIsPrefix()
      requires Accounted()
      ensures sent <= Bytes(produced)
      ensures AllChunks(yielded) && yielded <= produced
    {
      var rest := dropped + (if sentinelTaken then [Sentinel] else []) + buff;
      assert produced == yielded + rest;
      BytesPrefix(yielded, rest);
    }

    /** `__init__`: an empty buffer and `closed` set. */
    constructor (rate: nat, chunk: nat)
      ensures Valid()
      ensures this.rate == rate && this.chunk == chunk
      ensures buff == [] && closed && phase == AtLoopHead
      ensures produced == [] && yielded == [] && dropped == [] && !sentinelTaken && sent == []
    {
      this.rate := rate;
      this.chunk := chunk;
      buff := [];
      closed := true;
      phase := AtLoopHead;
      produced := [];
      yielded := [];
      dropped := [];
      sentinelTaken := false;
      sent := [];
    }

    /** `__enter__`, reduced to its effect on the model: `closed` is cleared
        once the device stream is open. */
    method Enter()
      requires Valid() && closed && produced == []
      modifies this
      ensures Valid() && !closed
      ensures buff == old(buff) && phase == old(phase) && produced == old(produced)
      ensures yielded == old(yielded) && dropped == old(dropped) && sentinelTaken == old(sentinelTaken) && sent == old(sent)
    {
      closed := false;
    }

    /** `_fill_buffer`: the capture callback puts one chunk; it runs only while
        the device stream is active, that is, while `closed` is unset. */
    method FillBuffer(inData: seq<bv8>)
      requires Valid() && !closed
      modifies this
      ensures Valid()
      ensures buff == old(buff) + [Chunk(inData)] && produced == old(produced) + [Chunk(inData)]
      ensures closed == old(closed) && phase == old(phase)
      ensures yielded == old(yielded) && dropped == old(dropped) && sentinelTaken == old(sentinelTaken) && sent == old(sent)
    {
      buff := buff + [Chunk(inData)];
      produced := produced + [Chunk(inData)];
    }

    /** `__exit__`: stop the device stream, set `closed`, put one sentinel.
        After it nothing else is ever put: `FillBuffer` and `Exit` need `closed`
        unset and `Enter` a stream that has never been filled. */
    method Exit()
      requires Valid() && !closed
      modifies this
      ensures Valid() && closed
      ensures buff == old(buff) + [Sentinel] && produced == old(produced) + [Sentinel]
      ensures phase == old(phase) && yielded == old(yielded) && dropped == old(dropped) && sentinelTaken == old(sentinelTaken) && sent == old(sent)
    {
      closed := true;
      buff := buff + [Sentinel];
      produced := produced + [Sentinel];
    }

    /** One resumption of `generator()`: runs from the current suspension point
        to the next `yield`, to a blocking get on an empty buffer, or to a
        `return`. */
    method Next() returns (r: Resumption)
      requires Valid()
      modifies this
      ensures Valid()
      ensures var t := Resume(old(phase), old(closed), old(buff));
        r == t.next && phase == t.phase && buff == t.buff
      ensures closed == old(closed) && produced == old(produced)
      ensures var t := Resume(old(phase), old(closed), old(buff));
        && yielded == old(yielded) + (if t.next.Yield? then t.chunks else [])
        && dropped == old(dropped) + (if t.sentinel then t.chunks else [])
        && sentinelTaken == (old(sentinelTaken) || t.sentinel)
      ensures sent == old(sent) + (if r.Yield? then r.data else [])
    {
      if phase == Done {
        return Stop;
      }
      if phase == AtLoopHead {
        if closed {
          phase := Done;
          return Stop;
        }
        phase := AtGet;
      }
      r := Take();
    }

    /** Lines 73-88 from the blocking get: wait on an empty buffer, end on
        the sentinel, or start a batch with the chunk returned. */
    method Take() returns (r: Resumption)
      requires Accounted() && phase == AtGet
      modifies this
      ensures Accounted()
      ensures var t := Get(old(buff)); r == t.next && phase == t.phase && buff == t.buff
      ensures closed == old(closed) && produced == old(produced)
      ensures var t := Get(old(buff));
        && yielded == old(yielded) + (if t.next.Yield? then t.chunks else [])
        && dropped == old(dropped) + (if t.sentinel then t.chunks else [])
        && sentinelTaken == (old(sentinelTaken) || t.sentinel)
      ensures sent == old(sent) + (if r.Yield? then r.data else [])
    {
      ghost var b0 := buff;
      if buff == [] {
        return Blocked;
      }
      var chunk := buff[0];
      buff := buff[1..];
      if chunk.Sentinel? {
        assert b0 == [Sentinel] + buff;
        assert Get(b0) == Transition(Stop, Done, buff, [], true) by {
          assert FirstSentinel(b0) == 0;
          assert b0[..0] == [] && b0[1..] == buff;
        }
        phase := Done;
        sentinelTaken := true;
        return Stop;
      }
      assert b0 == [chunk] + buff;
      r := Batch(chunk.bytes);
    }

    /** Lines 76-88, after the blocking get returned a chunk: drain the buffer,
        then yield the batch, or end the generator if the drain meets the
        sentinel. */
    method Batch(first: seq<bv8>) returns (r: Resumption)
      requires phase == AtGet && !sentinelTaken && dropped == []
      requires AllChunks(yielded) && sent == Bytes(yielded)
      requires produced == yielded + ([Chunk(first)] + buff)
      modifies this`buff, this`phase, this`yielded, this`sent, this`dropped, this`sentinelTaken
      ensures Accounted()
      ensures var t := Get([Chunk(first)] + old(buff));
        r == t.next && phase == t.phase && buff == t.buff
      ensures var t := Get([Chunk(first)] + old(buff));
        && yielded == old(yielded) + (if t.next.Yield? then t.chunks else [])
        && dropped == old(dropped) + (if t.sentinel then t.chunks else [])
        && sentinelTaken == (old(sentinelTaken) || t.sentinel)
      ensures sent == old(sent) + (if r.Yield? then r.data else [])
    {
      ghost var b0 := [Chunk(first)] + buff;
      ghost var rest0 := buff;
      var data, sawSentinel, drained := Drain(first);
      DrainOutcome(first, rest0, drained, sawSentinel, buff, data);
      r := Settle(b0, [Chunk(first)] + drained, data, sawSentinel);
    }

    /** Lines 82-88: the outcome of a drain that took `taken` from `b0`. */
    method Settle(ghost b0: seq<Item>, ghost taken: seq<Item>, data: seq<seq<bv8>>, sawSentinel: bool)
        returns (r: Resumption)
      requires !sentinelTaken && dropped == [] && AllChunks(taken)
      requires AllChunks(yielded) && sent == Bytes(yielded) && data == Payloads(taken)
      requires !sawSentinel ==> buff == []
      requires produced == yielded + b0 && b0 == taken + (if sawSentinel then [Sentinel] else []) + buff
      requires Get(b0) == if sawSentinel then Transition(Stop, Done, buff, taken, true)
                          else Transition(Yield(Bytes(taken)), AtLoopHead, [], taken, false)
      modifies this`phase, this`yielded, this`sent, this`dropped, this`sentinelTaken
      ensures Accounted()
      ensures var t := Get(b0); r == t.next && phase == t.phase && buff == t.buff
      ensures var t := Get(b0);
        && yielded == old(yielded) + (if t.next.Yield? then t.chunks else [])
        && dropped == old(dropped) + (if t.sentinel then t.chunks else [])
        && sentinelTaken == (old(sentinelTaken) || t.sentinel)
      ensures sent == old(sent) + (if r.Yield? then r.data else [])
    {
      assert produced == yielded + taken + (if sawSentinel then [Sentinel] else []) + buff;
      if sawSentinel {
        r := DropBatch(b0, taken);
      } else {
        r := YieldBatch(b0, taken, data);
      }
    }

    /** A sentinel ended the drain: the batch is discarded and the generator returns. */
    method DropBatch(ghost b0: seq<Item>, ghost taken: seq<Item>) returns (r: Resumption)
      requires Get(b0) == Transition(Stop, Done, buff, taken, true)
      requires !sentinelTaken && dropped == [] && AllChunks(taken)
      requires AllChunks(yielded) && sent == Bytes(yielded)
      requires produced == yielded + taken + [Sentinel] + buff
      modifies this`phase, this`dropped, this`sentinelTaken
      ensures Accounted()
      ensures var t := Get(b0); r == t.next && phase == t.phase && buff == t.buff
      ensures var t := Get(b0);
        && yielded == old(yielded) + (if t.next.Yield? then t.chunks else [])
        && dropped == old(dropped) + (if t.sentinel then t.chunks else [])
        && sentinelTaken == (old(sentinelTaken) || t.sentinel)
      ensures sent == old(sent)
    {
      phase := Done;
      dropped := taken;
      sentinelTaken := true;
      r := Stop;
    }

    /** The buffer ran dry: the joined batch is yielded. */
    method YieldBatch(ghost b0: seq<Item>, ghost taken: seq<Item>, data: seq<seq<bv8>>) returns (r: Resumption)
      requires Get(b0) == Transition(Yield(Bytes(taken)), AtLoopHead, [], taken, false)
      requires !sentinelTaken && dropped == [] && AllChunks(taken) && buff == []
      requires AllChunks(yielded) && sent == Bytes(yielded)
      requires produced == yielded + taken && data == Payloads(taken)
      modifies this`phase, this`yielded, this`sent
      ensures Accounted()
      ensures var t := Get(b0); r == t.next && phase == t.phase && buff == t.buff
      ensures var t := Get(b0);
        && yielded == old(yielded) + (if t.next.Yield? then t.chunks else [])
        && dropped == old(dropped) + (if t.sentinel then t.chunks else [])
        && sentinelTaken == (old(sentinelTaken) || t.sentinel)
      ensures r.Yield? && sent == old(sent) + r.data
    {
      phase := AtLoopHead;
      r := Yield(Join(data));
      BytesAppend(yielded, taken);
      yielded := yielded + taken;
      sent := sent + r.data;
    }

    /** The inner `while True` loop of lines 79-86: non-blocking gets append
        chunks to `data` until the buffer is empty or a sentinel comes out. */
    method Drain(first: seq<bv8>) returns (data: seq<seq<bv8>>, sawSentinel: bool, ghost taken: seq<Item>)
      modifies this`buff
      ensures old(buff) == taken + (if sawSentinel then [Sentinel] else []) + buff
      ensures AllChunks(taken) && data == [first] + Payloads(taken)
      ensures !sawSentinel ==> buff == []
    {
      data := [first];
      sawSentinel := false;
      taken := [];
      while buff != []
        invariant old(buff) == taken + buff
        invariant AllChunks(taken)
        invariant data == [first] + Payloads(taken)
        decreases |buff|
      {
        var item := buff[0];
        buff := buff[1..];
        if item.Sentinel? {
          sawSentinel := true;
          return;
        }
        PayloadsAppend(taken, [item]);
        assert Payloads([item]) == [item.bytes] + Payloads([]);
        data := data + [item.bytes];
        taken := taken + [item];
      }
    }
  }

  /** What a drain that took `drained` (and met the sentinel when `sawSentinel`)
      out of `rest0`, after a first chunk `first`, leaves: the greedy get of `Get`. */
  lemma DrainOutcome(first: seq<bv8>, rest0: seq<Item>, drained: seq<Item>, sawSentinel: bool,
                     rest: seq<Item>, data: seq<seq<bv8>>)
    requires rest0 == drained + (if sawSentinel then [Sentinel] else []) + rest
    requires AllChunks(drained) && data == [first] + Payloads(drained)
    requires !sawSentinel ==> rest == []
    ensures var taken := [Chunk(first)] + drained;
      var b0 := [Chunk(first)] + rest0;
      && b0 == taken + (if sawSentinel then [Sentinel] else []) + rest
      && AllChunks(taken) && data == Payloads(taken)
      && Get(b0) == if sawSentinel then Transition(Stop, Done, rest, taken, true)
                    else Transition(Yield(Bytes(taken)), AtLoopHead, [], taken, false)
  {
    var taken := [Chunk(first)] + drained;
    var b0 := [Chunk(first)] + rest0;
    var tail := (if sawSentinel then [Sentinel] else []) + rest;
    assert b0 == taken + tail;
    assert taken[1..] == drained;
    FirstSentinelAfterChunks(taken, tail);
    if sawSentinel {
      assert b0[..|taken|] == taken && b0[|taken| + 1..] == rest;
    } else {
      assert b0 == taken;
    }
  }

  /** After a run of chunks, the first sentinel is the first one of what follows. */
  lemma {:induction false} FirstSentinelAfterChunks(pre: seq<Item>, rest: seq<Item>)
    requires AllChunks(pre)
    ensures FirstSentinel(pre + rest) == |pre| + FirstSentinel(rest)
  {
    if pre != [] {
      assert (pre + rest)[0] == pre[0];
      assert (pre + rest)[1..] == pre[1..] + rest;
      FirstSentinelAfterChunks(pre[1..], rest);
    } else {
      assert pre + rest == rest;
    }
  }

  lemma BytesOne(c: seq<bv8>)
    ensures Bytes([Chunk(c)]) == c
  {
    assert [Chunk(c)][1..] == [];
    assert Payloads([Chunk(c)]) == [c] + Payloads([]);
    assert [c][1..] == [];
    assert Join([c]) == c + Join([]);
  }

  /** Two chunks: the get takes both and yields their concatenation. */
  lemma TwoChunks(c1: seq<bv8>, c2: seq<bv8>)
    ensures Get([Chunk(c1), Chunk(c2)]) == Transition(Yield(c1 + c2), AtLoopHead, [], [Chunk(c1), Chunk(c2)], false)
  {
    assert FirstSentinel([Chunk(c1), Chunk(c2)]) == 2 by {
      FirstSentinelAfterChunks([Chunk(c1), Chunk(c2)], []);
    }
    assert Bytes([Chunk(c1), Chunk(c2)]) == c1 + c2 by {
      BytesAppend([Chunk(c1)], [Chunk(c2)]);
      BytesOne(c1);
      BytesOne(c2);
    }
  }

  /** A session in which the stream closes while the generator is suspended
      at its `yield`: two chunks come out as one batch, and a chunk put after
      that batch is never yielded, because the next resumption finds `closed`
      at the loop head. */
  method CloseAfterYield(c1: seq<bv8>, c2: seq<bv8>, c3: seq<bv8>) returns (r1: Resumption, r2: Resumption)
    ensures r1 == Yield(c1 + c2)
    ensures r2 == Stop
  {
    var m := new MicrophoneStream(RATE, CHUNK);
    m.Enter();
    m.FillBuffer(c1);
    m.FillBuffer(c2);
    TwoChunks(c1, c2);
    r1 := m.Next();
    m.FillBuffer(c3);
    m.Exit();
    r2 := m.Next();
  }

  /** A chunk followed by the sentinel: the get takes both and drops the chunk. */
  lemma ChunkThenSentinel(c: seq<bv8>)
    ensures Get([Chunk(c), Sentinel]) == Transition(Stop, Done, [], [Chunk(c)], true)
  {
    FirstSentinelAfterChunks([Chunk(c)], [Sentinel]);
    assert [Chunk(c), Sentinel][..1] == [Chunk(c)];
  }

  /** A session in which the generator waits in its blocking get, a chunk and
      then the sentinel arrive before it runs again: the drain meets the
      sentinel and the chunk is discarded, so nothing is ever yielded. */
  method CloseDuringDrain(c1: seq<bv8>) returns (r1: Resumption, r2: Resumption, r3: Resumption)
    ensures r1 == Blocked && r2 == Stop && r3 == Stop
  {
    var m := new MicrophoneStream(RATE, CHUNK);
    m.Enter();
    r1 := m.Next();
    assert m.buff == [] && m.phase == AtGet && !m.closed;
    m.FillBuffer(c1);
    m.Exit();
    assert m.buff == [Chunk(c1), Sentinel] && m.phase == AtGet;
    ChunkThenSentinel(c1);
    r2 := m.Next();
    r3 := m.Next();
  }
}
