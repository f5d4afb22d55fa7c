/** The sub-stream protocol: one Producer writing batches, one Consumer reading them back.

    The Arrow IPC library is an opaque pair.  A chunk written by a writer carries that writer's
    whole past, and a reader accepts a chunk only when it has itself read exactly that past. */
module Streams {
  import opened Wrappers
  import opened Decimals

  type PayloadType = nat

  datatype Record = Record(schema: string, rows: string)

  datatype RecordMessage = RecordMessage(
    batchId: string, subStreamId: string, payloadType: PayloadType, record: Record)

  // ---------------------------------------------------------------- Arrow IPC, opaque

  datatype Chunk = Chunk(writer: nat, past: seq<Record>, record: Record)

  datatype Writer = Writer(id: nat, schema: string, written: seq<Record>)

  datatype Reader = Reader(writer: nat, consumed: seq<Record>)

  /** A writer refuses a record whose schema is not the one it was ready with. */
  predicate CanWrite(w: Writer, r: Record) {
    r.schema == w.schema
  }

  /** Opening a reader needs the schema message, which only a writer's first chunk carries. */
  function NewReader(c: Chunk): Option<Reader> {
    if c.past == [] then Some(Reader(c.writer, [])) else None
  }

  predicate CanRead(r: Reader, c: Chunk) {
    r.writer == c.writer && r.consumed == c.past
  }

  // ---------------------------------------------------------------- Producer

  datatype Payload = Payload(subStreamId: string, payloadType: PayloadType, chunk: Chunk)

  datatype Batch = Batch(batchId: string, payloads: seq<Payload>)

  datatype StreamProducer = StreamProducer(
    subStreamId: string, payloadType: PayloadType, writer: Option<Writer>)

  /** streams is keyed by schema id; writers numbers the IPC writer objects made so far. */
  datatype ProducerState = ProducerState(
    streams: map<string, StreamProducer>, nextSubStreamId: nat, batchId: nat,
    created: nat, closed: nat, writers: nat)

  const INITIAL_PRODUCER := ProducerState(map[], 0, 0, 0, 0, 0)

  ghost function KeysOfType(m: map<string, StreamProducer>, t: PayloadType): set<string> {
    set k | k in m && m[k].payloadType == t
  }

  ghost function FindOrCreate(st: ProducerState, rm: RecordMessage): ProducerState {
    if rm.subStreamId in st.streams then st else
      var stale := KeysOfType(st.streams, rm.payloadType);
      st.(streams := (st.streams - stale)[rm.subStreamId :=
            StreamProducer(Decimal(st.nextSubStreamId), rm.payloadType, None)],
          nextSubStreamId := st.nextSubStreamId + 1,
          created := st.created + 1,
          closed := st.closed + |stale|)
  }

  ghost function OpenWriter(st: ProducerState, rm: RecordMessage): ProducerState
    requires rm.subStreamId in st.streams
  {
    var sp := st.streams[rm.subStreamId];
    if sp.writer.Some? then st else
      st.(streams := st.streams[rm.subStreamId :=
            sp.(writer := Some(Writer(st.writers, rm.record.schema, [])))],
          writers := st.writers + 1)
  }

  /** The stream a message is written to, found or made, with its writer open. */
  ghost function Prepare(st: ProducerState, rm: RecordMessage): (r: ProducerState)
    ensures rm.subStreamId in r.streams && r.streams[rm.subStreamId].writer.Some?
  {
    OpenWriter(FindOrCreate(st, rm), rm)
  }

  ghost function Write(st: ProducerState, key: string, record: Record): (r: ProducerState)
    requires key in st.streams && st.streams[key].writer.Some?
  {
    var w := st.streams[key].writer.value;
    st.(streams := st.streams[key := st.streams[key].(writer := Some(w.(written := w.written + [record])))])
  }

  /** One message: the state after it and the payload, or None when the IPC writer refuses. */
  ghost function ProduceOne(st: ProducerState, rm: RecordMessage): (ProducerState, Option<Payload>) {
    var ready := Prepare(st, rm);
    var sp := ready.streams[rm.subStreamId];
    var w := sp.writer.value;
    if !CanWrite(w, rm.record) then (ready, None) else
      (Write(ready, rm.subStreamId, rm.record),
       Some(Payload(sp.subStreamId, rm.payloadType, Chunk(w.id, w.written, rm.record))))
  }

  datatype Progress = Progress(state: ProducerState, payloads: seq<Payload>, ok: bool)

  ghost function ProduceAll(st: ProducerState, rms: seq<RecordMessage>): (r: Progress)
    ensures r.ok ==> |r.payloads| == |rms|
  {
    if rms == [] then Progress(st, [], true) else
      var before := ProduceAll(st, rms[..|rms| - 1]);
      if !before.ok then before else
        var (after, payload) := ProduceOne(before.state, rms[|rms| - 1]);
        if payload.None? then Progress(after, before.payloads, false)
        else Progress(after, before.payloads + [payload.value], true)
  }

  /** A whole call: an error returns no batch, and the batch counter moves only on success. */
  ghost function ProduceBatch(st: ProducerState, rms: seq<RecordMessage>): (ProducerState, Option<Batch>) {
    var p := ProduceAll(st, rms);
    if p.ok then (p.state.(batchId := p.state.batchId + 1), Some(Batch(Decimal(p.state.batchId), p.payloads)))
    else (p.state, None)
  }

  class Producer {
    var streamProducers: map<string, StreamProducer>
    var nextSubStreamId: nat
    var batchId: nat
    var created: nat
    var closed: nat
    var writers: nat

    ghost function State(): ProducerState
      reads this
    {
      ProducerState(streamProducers, nextSubStreamId, batchId, created, closed, writers)
    }

    constructor ()
      ensures State() == INITIAL_PRODUCER
    {
      streamProducers := map[];
      nextSubStreamId, batchId, created, closed, writers := 0, 0, 0, 0, 0;
    }

    /** Closes every live stream of a payload type, in whatever order the map yields them. */
    method CloseStreamsOfType(t: PayloadType)
      modifies this`streamProducers, this`closed
      ensures streamProducers == old(streamProducers) - KeysOfType(old(streamProducers), t)
      ensures closed == old(closed) + |KeysOfType(old(streamProducers), t)|
    {
      var todo := streamProducers.Keys;
      ghost var all := streamProducers;
      ghost var left := KeysOfType(all, t);
      while todo != {}
        invariant left <= todo <= all.Keys
        invariant forall k :: k in todo ==> (k in left <==> all[k].payloadType == t)
        invariant left <= KeysOfType(all, t)
        invariant streamProducers == all - (KeysOfType(all, t) - left)
        invariant closed + |left| == old(closed) + |KeysOfType(all, t)|
        decreases |todo|
      {
        var ssID :| ssID in todo;
        if streamProducers[ssID].payloadType == t {
          streamProducers := streamProducers - {ssID};
          closed := closed + 1;
          left := left - {ssID};
        }
        todo := todo - {ssID};
      }
      assert left == {};
    }

    method ProduceMessage(rm: RecordMessage) returns (payload: Option<Payload>)
      modifies this
      ensures (State(), payload) == ProduceOne(old(State()), rm)
    {
      if rm.subStreamId !in streamProducers {
        CloseStreamsOfType(rm.payloadType);
        var newStream := StreamProducer(Decimal(nextSubStreamId), rm.payloadType, None);
        streamProducers := streamProducers[rm.subStreamId := newStream];
        nextSubStreamId := nextSubStreamId + 1;
        created := created + 1;
      }
      assert State() == FindOrCreate(old(State()), rm);
      var sp := streamProducers[rm.subStreamId];
      if sp.writer == None {
        sp := sp.(writer := Some(Writer(writers, rm.record.schema, [])));
        writers := writers + 1;
        streamProducers := streamProducers[rm.subStreamId := sp];
      }
      var w := sp.writer.value;
      if !CanWrite(w, rm.record) {
        return None;
      }
      streamProducers := streamProducers[rm.subStreamId :=
        sp.(writer := Some(w.(written := w.written + [rm.record])))];
      return Some(Payload(sp.subStreamId, rm.payloadType, Chunk(w.id, w.written, rm.record)));
    }

    method Produce(rms: seq<RecordMessage>) returns (batch: Option<Batch>)
      modifies this
      ensures (State(), batch) == ProduceBatch(old(State()), rms)
    {
      var oapl: seq<Payload> := [];
      for i := 0 to |rms|
        invariant Progress(State(), oapl, true) == ProduceAll(old(State()), rms[..i])
      {
        assert rms[..i + 1][..i] == rms[..i];
        var payload := ProduceMessage(rms[i]);
        if payload.None? {
          FailureIsFinal(old(State()), rms, i + 1);
          return None;
        }
        oapl := oapl + [payload.value];
      }
      assert rms[..|rms|] == rms;
      batch := Some(Batch(Decimal(batchId), oapl));
      batchId := batchId + 1;
    }
  }

  /** Once a message fails, the rest of the call is not looked at. */
  lemma {:induction false} FailureIsFinal(st: ProducerState, rms: seq<RecordMessage>, i: nat)
    requires i <= |rms| && !ProduceAll(st, rms[..i]).ok
    ensures ProduceAll(st, rms) == ProduceAll(st, rms[..i])
    decreases |rms|
  {
    if i < |rms| {
      assert rms[..|rms| - 1][..i] == rms[..i];
      FailureIsFinal(st, rms[..|rms| - 1], i);
    } else {
      assert rms[..i] == rms;
    }
  }

  // ---------------------------------------------------------------- Consumer

  datatype StreamConsumer = StreamConsumer(payloadType: PayloadType, reader: Option<Reader>)

  type ConsumerState = map<string, StreamConsumer>

  /** NoReader is the error of opening a reader; Crash is releasing a reader that was never ready. */
  datatype Step = Decoded(message: RecordMessage) | Dropped | NoReader | Crash

  ghost function ConsumersOfType(cs: ConsumerState, t: PayloadType): set<string> {
    set k | k in cs && cs[k].payloadType == t
  }

  ghost function FindOrOpen(cs: ConsumerState, p: Payload): ConsumerState {
    if p.subStreamId in cs then cs else
      (cs - ConsumersOfType(cs, p.payloadType))[p.subStreamId := StreamConsumer(p.payloadType, None)]
  }

  ghost predicate CleanupCrashes(cs: ConsumerState, p: Payload) {
    p.subStreamId !in cs && exists k :: k in ConsumersOfType(cs, p.payloadType) && cs[k].reader.None?
  }

  ghost function ConsumeOne(cs: ConsumerState, batchId: string, p: Payload): (ConsumerState, Step) {
    if CleanupCrashes(cs, p) then (cs, Crash) else
      var found := FindOrOpen(cs, p);
      var sc := found[p.subStreamId];
      var reader := if sc.reader.Some? then sc.reader else NewReader(p.chunk);
      if reader.None? then (found, NoReader) else
        var r := reader.value;
        if CanRead(r, p.chunk) then
          (found[p.subStreamId := sc.(reader := Some(r.(consumed := r.consumed + [p.chunk.record])))],
           Decoded(RecordMessage(batchId, "", p.payloadType, p.chunk.record)))
        else (found[p.subStreamId := sc.(reader := reader)], Dropped)
  }

  datatype Consumed = Consumed(state: ConsumerState, messages: seq<RecordMessage>, ok: bool, crashed: bool)

  ghost function ConsumeAll(cs: ConsumerState, batchId: string, ps: seq<Payload>): (r: Consumed)
    ensures r.ok ==> !r.crashed
  {
    if ps == [] then Consumed(cs, [], true, false) else
      var before := ConsumeAll(cs, batchId, ps[..|ps| - 1]);
      if !before.ok then before else
        var (after, step) := ConsumeOne(before.state, batchId, ps[|ps| - 1]);
        match step
        case Decoded(m) => Consumed(after, before.messages + [m], true, false)
        case Dropped => before.(state := after)
        case NoReader => Consumed(after, [], false, false)
        case Crash => Consumed(after, [], false, true)
  }

  lemma {:induction false} ConsumeStopsAtError(cs: ConsumerState, batchId: string, ps: seq<Payload>, i: nat)
    requires i <= |ps| && !ConsumeAll(cs, batchId, ps[..i]).ok
    ensures ConsumeAll(cs, batchId, ps) == ConsumeAll(cs, batchId, ps[..i])
    decreases |ps|
  {
    if i < |ps| {
      assert ps[..|ps| - 1][..i] == ps[..i];
      ConsumeStopsAtError(cs, batchId, ps[..|ps| - 1], i);
    } else {
      assert ps[..i] == ps;
    }
  }

  class Consumer {
    var streamConsumers: ConsumerState

    constructor ()
      ensures streamConsumers == map[]
    {
      streamConsumers := map[];
    }

    /** Releases every reader of a payload type; stops, having crashed, at one that is missing. */
    method ReleaseStreamsOfType(t: PayloadType) returns (crashed: bool)
      modifies this
      ensures crashed
          <==> exists k :: k in ConsumersOfType(old(streamConsumers), t) && old(streamConsumers)[k].reader.None?
      ensures !crashed ==> streamConsumers == old(streamConsumers) - ConsumersOfType(old(streamConsumers), t)
    {
      var todo := streamConsumers.Keys;
      ghost var gone: set<string> := {};
      while todo != {}
        invariant todo <= old(streamConsumers).Keys
        invariant gone == ConsumersOfType(old(streamConsumers), t) - todo
        invariant forall k :: k in gone ==> old(streamConsumers)[k].reader.Some?
        invariant streamConsumers == old(streamConsumers) - gone
        decreases |todo|
      {
        var scID :| scID in todo;
        var sc := streamConsumers[scID];
        if sc.payloadType == t {
          if sc.reader.None? {
            assert scID in ConsumersOfType(old(streamConsumers), t);
            return true;
          }
          streamConsumers := streamConsumers - {scID};
          gone := gone + {scID};
        }
        todo := todo - {scID};
      }
      assert gone == ConsumersOfType(old(streamConsumers), t);
      return false;
    }

    method ConsumePayload(batchId: string, p: Payload) returns (step: Step)
      modifies this
      ensures step == ConsumeOne(old(streamConsumers), batchId, p).1
      ensures step != Crash ==> streamConsumers == ConsumeOne(old(streamConsumers), batchId, p).0
    {
      if p.subStreamId !in streamConsumers {
        var crashed := ReleaseStreamsOfType(p.payloadType);
        if crashed {
          return Crash;
        }
        streamConsumers := streamConsumers[p.subStreamId := StreamConsumer(p.payloadType, None)];
      }
      assert streamConsumers == FindOrOpen(old(streamConsumers), p);
      var sc := streamConsumers[p.subStreamId];
      if sc.reader == None {
        var ready := NewReader(p.chunk);
        if ready.None? {
          return NoReader;
        }
        sc := sc.(reader := ready);
      }
      var r := sc.reader.value;
      if CanRead(r, p.chunk) {
        r := r.(consumed := r.consumed + [p.chunk.record]);
        streamConsumers := streamConsumers[p.subStreamId := sc.(reader := Some(r))];
        return Decoded(RecordMessage(batchId, "", p.payloadType, p.chunk.record));
      }
      streamConsumers := streamConsumers[p.subStreamId := sc];
      return Dropped;
    }

    method Consume(bar: Batch) returns (ibes: Option<seq<RecordMessage>>, ghost crashed: bool)
      modifies this
      ensures var c := ConsumeAll(old(streamConsumers), bar.batchId, bar.payloads);
              && crashed == c.crashed
              && (!crashed ==> streamConsumers == c.state)
              && ibes == if c.ok then Some(c.messages) else None
    {
      hide ConsumeOne;
      var out: seq<RecordMessage> := [];
      for i := 0 to |bar.payloads|
        invariant Consumed(streamConsumers, out, true, false)
               == ConsumeAll(old(streamConsumers), bar.batchId, bar.payloads[..i])
      {
        assert bar.payloads[..i + 1][..i] == bar.payloads[..i];
        var step := ConsumePayload(bar.batchId, bar.payloads[i]);
        match step
        case Decoded(m) => out := out + [m];
        case Dropped =>
        case NoReader =>
          ConsumeStopsAtError(old(streamConsumers), bar.batchId, bar.payloads, i + 1);
          return None, false;
        case Crash =>
          ConsumeStopsAtError(old(streamConsumers), bar.batchId, bar.payloads, i + 1);
          return None, true;
      }
      assert bar.payloads[..|bar.payloads|] == bar.payloads;
      return Some(out), false;
    }
  }

  // ---------------------------------------------------------------- Invariants

  /** What every reachable producer state keeps: one live stream per payload type, each under its
      own number, each with the one writer of that number, and balanced counters. */
  ghost predicate ProducerInv(st: ProducerState) {
    && st.writers == st.nextSubStreamId
    && st.created == st.closed + |st.streams|
    && StreamsInv(st.streams, st.nextSubStreamId)
  }

  ghost predicate StreamsInv(streams: map<string, StreamProducer>, next: nat) {
    && (forall k :: k in streams ==> NamedByItsWriter(streams[k]) && streams[k].writer.value.id < next)
    && (forall k, l :: k in streams && l in streams && k != l ==> Apart(streams[k], streams[l]))
  }

  ghost predicate NamedByItsWriter(sp: StreamProducer) {
    sp.writer.Some? && sp.subStreamId == Decimal(sp.writer.value.id)
  }

  ghost predicate Apart(a: StreamProducer, b: StreamProducer) {
    a.payloadType != b.payloadType && a.subStreamId != b.subStreamId
  }

  /** The consumer holds, for each live producer stream and for nothing else, a reader of the same
      payload type that has consumed exactly what that stream's writer wrote. */
  ghost predicate InStep(streams: map<string, StreamProducer>, cs: ConsumerState) {
    && (forall k :: k in streams ==> Mirrors(streams[k], cs))
    && (forall id :: id in cs ==> exists k :: k in streams && streams[k].subStreamId == id)
  }

  ghost predicate Mirrors(sp: StreamProducer, cs: ConsumerState) {
    sp.writer.Some? && sp.subStreamId in cs && cs[sp.subStreamId] == ReaderOf(sp)
  }

  ghost function ReaderOf(sp: StreamProducer): StreamConsumer
    requires sp.writer.Some?
  {
    StreamConsumer(sp.payloadType, Some(Reader(sp.writer.value.id, sp.writer.value.written)))
  }

  ghost function NewStream(next: nat, rm: RecordMessage): StreamProducer {
    StreamProducer(Decimal(next), rm.payloadType, Some(Writer(next, rm.record.schema, [])))
  }

  ghost function Replace(streams: map<string, StreamProducer>, next: nat, rm: RecordMessage)
      : map<string, StreamProducer>
  {
    (streams - KeysOfType(streams, rm.payloadType))[rm.subStreamId := NewStream(next, rm)]
  }

  /** What Prepare amounts to on a reachable state. */
  lemma PrepareShape(st: ProducerState, rm: RecordMessage)
    requires ProducerInv(st)
    ensures var f := Prepare(st, rm);
            if rm.subStreamId in st.streams then f == st
            else && f.streams == Replace(st.streams, st.nextSubStreamId, rm)
                 && f.nextSubStreamId == st.nextSubStreamId + 1 == f.writers
                 && f.created == st.created + 1
                 && f.closed == st.closed + |KeysOfType(st.streams, rm.payloadType)|
                 && f.batchId == st.batchId
  {
  }

  lemma ReplaceCounts(streams: map<string, StreamProducer>, next: nat, rm: RecordMessage)
    requires rm.subStreamId !in streams
    ensures |Replace(streams, next, rm)| + |KeysOfType(streams, rm.payloadType)| == |streams| + 1
  {
    hide NewStream;
    var stale := KeysOfType(streams, rm.payloadType);
    var after := Replace(streams, next, rm);
    assert after.Keys == (streams.Keys - stale) + {rm.subStreamId};
    assert |after| == |after.Keys| && |streams| == |streams.Keys|;
  }

  lemma NextNameIsNew(streams: map<string, StreamProducer>, next: nat, k: string)
    requires StreamsInv(streams, next) && k in streams
    ensures streams[k].subStreamId != Decimal(next)
  {
    if streams[k].subStreamId == Decimal(next) {
      DecimalInjective(streams[k].writer.value.id, next);
    }
  }

  lemma ReplaceKeepsInv(streams: map<string, StreamProducer>, next: nat, rm: RecordMessage)
    requires StreamsInv(streams, next) && rm.subStreamId !in streams
    ensures StreamsInv(Replace(streams, next, rm), next + 1)
  {
    hide Decimal;
    var after := Replace(streams, next, rm);
    forall k | k in after ensures NamedByItsWriter(after[k]) && after[k].writer.value.id < next + 1 {
    }
    forall k, l | k in after && l in after && k != l ensures Apart(after[k], after[l]) {
      if k == rm.subStreamId {
        NextNameIsNew(streams, next, l);
      } else if l == rm.subStreamId {
        NextNameIsNew(streams, next, k);
      }
    }
  }

  lemma PrepareKeepsInv(st: ProducerState, rm: RecordMessage)
    requires ProducerInv(st)
    ensures ProducerInv(Prepare(st, rm))
  {
    PrepareShape(st, rm);
    if rm.subStreamId !in st.streams {
      ReplaceKeepsInv(st.streams, st.nextSubStreamId, rm);
      ReplaceCounts(st.streams, st.nextSubStreamId, rm);
    }
  }

  lemma WriteKeepsInv(st: ProducerState, key: string, record: Record)
    requires ProducerInv(st) && key in st.streams
    ensures ProducerInv(Write(st, key, record))
  {
    var after := Write(st, key, record);
    assert after.streams.Keys == st.streams.Keys;
    assert |after.streams| == |after.streams.Keys| && |st.streams| == |st.streams.Keys|;
  }

  lemma ProduceOneKeepsInv(st: ProducerState, rm: RecordMessage)
    requires ProducerInv(st)
    ensures ProducerInv(ProduceOne(st, rm).0)
    ensures var p := ProduceOne(st, rm).1; p.Some? ==> p.value.subStreamId == Decimal(p.value.chunk.writer)
  {
    PrepareKeepsInv(st, rm);
    WriteKeepsInv(Prepare(st, rm), rm.subStreamId, rm.record);
    assert NamedByItsWriter(Prepare(st, rm).streams[rm.subStreamId]);
  }

  /** A chunk written on a stream that both sides hold: it is read, and both advance. */
  lemma DeliverOnOpenStream(st: ProducerState, cs: ConsumerState, rm: RecordMessage, batchId: string, p: Payload)
    requires ProducerInv(st) && InStep(st.streams, cs) && rm.subStreamId in st.streams
    requires var sp := st.streams[rm.subStreamId];
             p == Payload(sp.subStreamId, rm.payloadType, Chunk(sp.writer.value.id, sp.writer.value.written, rm.record))
    ensures var (cs', step) := ConsumeOne(cs, batchId, p);
            && InStep(Write(st, rm.subStreamId, rm.record).streams, cs')
            && step == Decoded(RecordMessage(batchId, "", rm.payloadType, rm.record))
  {
    hide Decimal, NamedByItsWriter, ConsumersOfType;
    var sp := st.streams[rm.subStreamId];
    var after := Write(st, rm.subStreamId, rm.record).streams;
    assert Mirrors(sp, cs);
    var cs' := ConsumeOne(cs, batchId, p).0;
    assert cs' == cs[sp.subStreamId := ReaderOf(after[rm.subStreamId])];
    forall k | k in after ensures Mirrors(after[k], cs') {
      if k != rm.subStreamId {
        assert Mirrors(st.streams[k], cs) && Apart(st.streams[k], sp);
      }
    }
    forall id | id in cs' ensures exists k :: k in after && after[k].subStreamId == id {
      var k :| k in st.streams && st.streams[k].subStreamId == id;
      assert after[k].subStreamId == id;
    }
  }

  /** In step, every reader the consumer holds belongs to a live stream. */
  lemma OwnerOf(st: ProducerState, cs: ConsumerState, id: string) returns (k: string)
    requires ProducerInv(st) && InStep(st.streams, cs) && id in cs
    ensures k in st.streams && st.streams[k].subStreamId == id
    ensures st.streams[k].writer.Some? && cs[id] == ReaderOf(st.streams[k])
    ensures id != Decimal(st.nextSubStreamId)
  {
    k :| k in st.streams && st.streams[k].subStreamId == id;
    assert Mirrors(st.streams[k], cs);
    NextNameIsNew(st.streams, st.nextSubStreamId, k);
  }

  /** Both sides drop the same streams when one of type rm.payloadType starts. */
  lemma ReplaceStaysInStep(st: ProducerState, cs: ConsumerState, rm: RecordMessage, cs': ConsumerState,
      streams': map<string, StreamProducer>)
    requires ProducerInv(st) && InStep(st.streams, cs)
    requires rm.subStreamId in streams' && Mirrors(streams'[rm.subStreamId], cs')
    requires streams'[rm.subStreamId].subStreamId == Decimal(st.nextSubStreamId)
    requires streams' - {rm.subStreamId} == st.streams - KeysOfType(st.streams, rm.payloadType) - {rm.subStreamId}
    requires cs' - {Decimal(st.nextSubStreamId)} == cs - ConsumersOfType(cs, rm.payloadType)
    requires rm.subStreamId !in st.streams
    ensures InStep(streams', cs')
  {
    hide Decimal, ProducerInv;
    var next := Decimal(st.nextSubStreamId);
    forall k | k in streams' ensures Mirrors(streams'[k], cs') {
      if k != rm.subStreamId {
        assert k in streams' - {rm.subStreamId};
        assert Mirrors(st.streams[k], cs);
        var id := st.streams[k].subStreamId;
        assert id in cs - ConsumersOfType(cs, rm.payloadType);
        assert id in cs' - {next};
      }
    }
    forall id | id in cs' ensures exists k :: k in streams' && streams'[k].subStreamId == id {
      if id == next {
        assert streams'[rm.subStreamId].subStreamId == id;
      } else {
        assert id in cs' - {next};
        var k := OwnerOf(st, cs, id);
        assert k in st.streams - KeysOfType(st.streams, rm.payloadType) - {rm.subStreamId};
        assert k in streams' - {rm.subStreamId};
        assert streams'[k].subStreamId == id;
      }
    }
  }

  /** The first chunk of a new stream. */
  lemma DeliverOnNewStream(st: ProducerState, cs: ConsumerState, rm: RecordMessage, batchId: string, p: Payload)
    requires ProducerInv(st) && InStep(st.streams, cs) && rm.subStreamId !in st.streams
    requires p == Payload(Decimal(st.nextSubStreamId), rm.payloadType, Chunk(st.nextSubStreamId, [], rm.record))
    ensures var (cs', step) := ConsumeOne(cs, batchId, p);
            && InStep(Write(Prepare(st, rm), rm.subStreamId, rm.record).streams, cs')
            && step == Decoded(RecordMessage(batchId, "", rm.payloadType, rm.record))
  {
    hide InStep, Decimal, ProducerInv;
    PrepareShape(st, rm);
    forall id | id in cs ensures id != p.subStreamId && cs[id].reader.Some? {
      var k := OwnerOf(st, cs, id);
    }
    assert !CleanupCrashes(cs, p);
    var after := Write(Prepare(st, rm), rm.subStreamId, rm.record).streams;
    var (cs', step) := ConsumeOne(cs, batchId, p);
    assert cs' == (cs - ConsumersOfType(cs, rm.payloadType))[p.subStreamId := ReaderOf(after[rm.subStreamId])];
    ReplaceStaysInStep(st, cs, rm, cs', after);
  }

  /** The step of the refinement: the consumer decodes the very message the producer took. */
  lemma DeliverOne(st: ProducerState, cs: ConsumerState, rm: RecordMessage, batchId: string)
    requires ProducerInv(st) && InStep(st.streams, cs)
    requires ProduceOne(st, rm).1.Some?
    ensures var (st', p) := ProduceOne(st, rm);
            var (cs', step) := ConsumeOne(cs, batchId, p.value);
            && InStep(st'.streams, cs')
            && step == Decoded(RecordMessage(batchId, "", rm.payloadType, rm.record))
  {
    PrepareShape(st, rm);
    var p := ProduceOne(st, rm).1.value;
    if rm.subStreamId in st.streams {
      DeliverOnOpenStream(st, cs, rm, batchId, p);
    } else {
      DeliverOnNewStream(st, cs, rm, batchId, p);
    }
  }

  lemma InitiallyInStep()
    ensures ProducerInv(INITIAL_PRODUCER) && InStep(INITIAL_PRODUCER.streams, map[])
  {
  }

  function Delivered(batchId: string, rms: seq<RecordMessage>): seq<RecordMessage> {
    seq(|rms|, i requires 0 <= i < |rms| => RecordMessage(batchId, "", rms[i].payloadType, rms[i].record))
  }

  lemma {:induction false} DeliverAll(st: ProducerState, cs: ConsumerState, rms: seq<RecordMessage>, batchId: string)
    requires ProducerInv(st) && InStep(st.streams, cs)
    requires ProduceAll(st, rms).ok
    ensures var p := ProduceAll(st, rms);
            var c := ConsumeAll(cs, batchId, p.payloads);
            && ProducerInv(p.state) && InStep(p.state.streams, c.state)
            && c.ok && c.messages == Delivered(batchId, rms)
  {
    hide ProducerInv, InStep, ProduceOne, ConsumeOne;
    if rms != [] {
      var init := rms[..|rms| - 1];
      DeliverAll(st, cs, init, batchId);
      var before := ProduceAll(st, init);
      var p := ProduceAll(st, rms);
      assert p.payloads[..|p.payloads| - 1] == before.payloads;
      var read := ConsumeAll(cs, batchId, before.payloads);
      DeliverOne(before.state, read.state, rms[|rms| - 1], batchId);
      ProduceOneKeepsInv(before.state, rms[|rms| - 1]);
      assert Delivered(batchId, rms) ==
             Delivered(batchId, init) + [RecordMessage(batchId, "", rms[|rms| - 1].payloadType, rms[|rms| - 1].record)];
    }
  }

  // ---------------------------------------------------------------- Whole runs

  datatype Run = Run(state: ProducerState, batches: seq<Batch>, ok: bool)

  /** The calls of a whole session; ok when none of them failed. */
  ghost function ProduceRun(calls: seq<seq<RecordMessage>>): (r: Run)
    ensures r.ok ==> |r.batches| == |calls|
  {
    if calls == [] then Run(INITIAL_PRODUCER, [], true) else
      var before := ProduceRun(calls[..|calls| - 1]);
      if !before.ok then before else
        var (st, batch) := ProduceBatch(before.state, calls[|calls| - 1]);
        if batch.None? then Run(st, before.batches, false)
        else Run(st, before.batches + [batch.value], true)
  }

  datatype ReadRun = ReadRun(state: ConsumerState, outputs: seq<seq<RecordMessage>>, ok: bool)

  ghost function ConsumeRun(batches: seq<Batch>): ReadRun {
    if batches == [] then ReadRun(map[], [], true) else
      var before := ConsumeRun(batches[..|batches| - 1]);
      if !before.ok then before else
        var last := batches[|batches| - 1];
        var c := ConsumeAll(before.state, last.batchId, last.payloads);
        ReadRun(c.state, before.outputs + [c.messages], c.ok)
  }

  /** End to end: whatever the schema changes, a consumer fed every batch of an error-free session
      returns each call's records with their types, in order, under that call's batch id; and both
      sides end holding the same streams at the same position. */
  lemma {:induction false} SessionRoundTrip(calls: seq<seq<RecordMessage>>)
    requires ProduceRun(calls).ok
    ensures var p := ProduceRun(calls);
            var c := ConsumeRun(p.batches);
            && ProducerInv(p.state) && p.state.batchId == |calls|
            && InStep(p.state.streams, c.state)
            && c.ok && |c.outputs| == |calls|
            && (forall i :: 0 <= i < |calls| ==>
                 && p.batches[i].batchId == Decimal(i)
                 && c.outputs[i] == Delivered(Decimal(i), calls[i]))
  {
    hide StreamsInv, InStep, ProduceAll, ConsumeAll, Decimal;
    InitiallyInStep();
    if calls != [] {
      var init, last := calls[..|calls| - 1], calls[|calls| - 1];
      SessionRoundTrip(init);
      var before := ProduceRun(init);
      var p := ProduceRun(calls);
      assert p.batches[..|p.batches| - 1] == before.batches;
      var read := ConsumeRun(before.batches);
      BatchIdUntouched(before.state, last);
      DeliverAll(before.state, read.state, last, Decimal(before.state.batchId));
    }
  }

  lemma {:induction false} BatchIdUntouched(st: ProducerState, rms: seq<RecordMessage>)
    ensures ProduceAll(st, rms).state.batchId == st.batchId
  {
    if rms != [] {
      BatchIdUntouched(st, rms[..|rms| - 1]);
    }
  }

  /** The state after any calls, failed ones included. */
  ghost function StateAfter(calls: seq<seq<RecordMessage>>): ProducerState {
    if calls == [] then INITIAL_PRODUCER
    else ProduceBatch(StateAfter(calls[..|calls| - 1]), calls[|calls| - 1]).0
  }

  lemma {:induction false} ProduceAllKeepsInv(st: ProducerState, rms: seq<RecordMessage>)
    requires ProducerInv(st)
    ensures ProducerInv(ProduceAll(st, rms).state)
    ensures forall p :: p in ProduceAll(st, rms).payloads ==> p.subStreamId == Decimal(p.chunk.writer)
  {
    if rms != [] {
      ProduceAllKeepsInv(st, rms[..|rms| - 1]);
      ProduceOneKeepsInv(ProduceAll(st, rms[..|rms| - 1]).state, rms[|rms| - 1]);
    }
  }

  lemma {:induction false} ReachableKeepsInv(calls: seq<seq<RecordMessage>>)
    ensures ProducerInv(StateAfter(calls))
  {
    if calls != [] {
      ReachableKeepsInv(calls[..|calls| - 1]);
      ProduceAllKeepsInv(StateAfter(calls[..|calls| - 1]), calls[|calls| - 1]);
    }
  }

  /** What call number i returned, after the calls before it, some of which may have failed. */
  ghost function BatchOf(calls: seq<seq<RecordMessage>>, i: nat): Option<Batch>
    requires i < |calls|
  {
    ProduceBatch(StateAfter(calls[..i]), calls[i]).1
  }

  lemma BatchOfMeaning(calls: seq<seq<RecordMessage>>, i: nat)
    requires i < |calls| && BatchOf(calls, i).Some?
    ensures var batch, st := BatchOf(calls, i).value, StateAfter(calls[..i]);
            && batch.batchId == Decimal(st.batchId) && StateAfter(calls[..i + 1]).batchId == st.batchId + 1
            && forall p :: p in batch.payloads ==> p.subStreamId == Decimal(p.chunk.writer)
  {
    assert calls[..i + 1][..i] == calls[..i];
    ReachableKeepsInv(calls[..i]);
    ProduceAllKeepsInv(StateAfter(calls[..i]), calls[i]);
    BatchIdUntouched(StateAfter(calls[..i]), calls[i]);
    hide Decimal, ProduceAll, ProducerInv;
  }

  lemma {:induction false} BatchIdGrows(calls: seq<seq<RecordMessage>>, i: nat, j: nat)
    requires i <= j <= |calls|
    ensures StateAfter(calls[..i]).batchId <= StateAfter(calls[..j]).batchId
    decreases j
  {
    if i < j {
      assert calls[..j][..j - 1] == calls[..j - 1];
      BatchIdGrows(calls, i, j - 1);
      BatchIdUntouched(StateAfter(calls[..j - 1]), calls[j - 1]);
    }
  }

  /** Ids are never reused: over any calls, failed ones included, a sub-stream id names one writer and
      a batch id one batch. */
  lemma IdsNeverReused(calls: seq<seq<RecordMessage>>, i: nat, j: nat)
    requires i < |calls| && j < |calls| && BatchOf(calls, i).Some? && BatchOf(calls, j).Some?
    ensures forall p, q :: p in BatchOf(calls, i).value.payloads && q in BatchOf(calls, j).value.payloads ==>
              (p.subStreamId == q.subStreamId <==> p.chunk.writer == q.chunk.writer)
    ensures BatchOf(calls, i).value.batchId == BatchOf(calls, j).value.batchId <==> i == j
  {
    var a, b := BatchOf(calls, i).value, BatchOf(calls, j).value;
    BatchOfMeaning(calls, i);
    BatchOfMeaning(calls, j);
    if i < j {
      BatchIdGrows(calls, i + 1, j);
    } else if j < i {
      BatchIdGrows(calls, j + 1, i);
    }
    hide Decimal, BatchOf, StateAfter;
    forall p, q | p in a.payloads && q in b.payloads
      ensures p.subStreamId == q.subStreamId <==> p.chunk.writer == q.chunk.writer
    {
      if p.subStreamId == q.subStreamId {
        DecimalInjective(p.chunk.writer, q.chunk.writer);
      }
    }
    if a.batchId == b.batchId {
      DecimalInjective(StateAfter(calls[..i]).batchId, StateAfter(calls[..j]).batchId);
    }
  }

  /** The calls before number i that returned a batch. */
  ghost function Successes(calls: seq<seq<RecordMessage>>, i: nat): set<nat>
    requires i <= |calls|
  {
    set j: nat | j < i && BatchOf(calls, j).Some?
  }

  /** A batch is numbered by how many calls before it succeeded. */
  lemma BatchNumber(calls: seq<seq<RecordMessage>>, i: nat)
    requires i < |calls| && BatchOf(calls, i).Some?
    ensures BatchOf(calls, i).value.batchId == Decimal(|Successes(calls, i)|)
  {
    BatchOfMeaning(calls, i);
    BatchIdCounts(calls, i);
  }

  lemma {:induction false} BatchIdCounts(calls: seq<seq<RecordMessage>>, i: nat)
    requires i <= |calls|
    ensures StateAfter(calls[..i]).batchId == |Successes(calls, i)|
  {
    hide BatchOf, StateAfter, Successes;
    if i == 0 {
      NoSuccesses(calls);
    } else {
      BatchIdCounts(calls, i - 1);
      BatchIdNext(calls, i - 1);
      SuccessesNext(calls, i - 1);
    }
  }

  lemma NoSuccesses(calls: seq<seq<RecordMessage>>)
    ensures StateAfter(calls[..0]).batchId == 0 == |Successes(calls, 0)|
  {
    assert Successes(calls, 0) == {};
  }

  lemma SuccessesNext(calls: seq<seq<RecordMessage>>, i: nat)
    requires i < |calls|
    ensures |Successes(calls, i + 1)| == |Successes(calls, i)| + if BatchOf(calls, i).Some? then 1 else 0
  {
    hide BatchOf;
    assert Successes(calls, i + 1) == Successes(calls, i) + if BatchOf(calls, i).Some? then {i} else {};
  }

  lemma BatchIdNext(calls: seq<seq<RecordMessage>>, i: nat)
    requires i < |calls|
    ensures StateAfter(calls[..i + 1]).batchId ==
            StateAfter(calls[..i]).batchId + (if BatchOf(calls, i).Some? then 1 else 0)
  {
    hide ProduceAll;
    assert calls[..i + 1][..i] == calls[..i];
    BatchIdUntouched(StateAfter(calls[..i]), calls[i]);
  }

  /** A message of a known schema id goes out on that id's stream and touches no other; one of a new id gets the
      next number and takes the place of its payload type's streams. */
  lemma WhereAMessageGoes(st: ProducerState, rm: RecordMessage)
    ensures var (after, p) := ProduceOne(st, rm);
      var known := rm.subStreamId in st.streams;
      var stale := if known then {} else set k | k in st.streams && st.streams[k].payloadType == rm.payloadType;
      && after.streams.Keys == st.streams.Keys - stale + {rm.subStreamId}
      && (forall k :: k in after.streams && k != rm.subStreamId ==> after.streams[k] == st.streams[k])
      && after.nextSubStreamId == st.nextSubStreamId + (if known then 0 else 1)
      && after.created == st.created + (if known then 0 else 1)
      && after.closed == st.closed + |stale| && after.batchId == st.batchId
    ensures var p := ProduceOne(st, rm).1;
      var known := rm.subStreamId in st.streams;
      var writer := if known then st.streams[rm.subStreamId].writer else None;
      && (p.None? <==> writer.Some? && writer.value.schema != rm.record.schema)
      && (p.Some? ==>
            && p.value.payloadType == rm.payloadType && p.value.chunk.record == rm.record
            && (known ==> p.value.subStreamId == st.streams[rm.subStreamId].subStreamId)
            && (!known ==> p.value.subStreamId == Decimal(st.nextSubStreamId))
            && p.value.chunk.past == (if writer.Some? then writer.value.written else [])
            && p.value.chunk.writer == (if writer.Some? then writer.value.id else st.writers))
  {
    hide Decimal;
    var stale := set k | k in st.streams && st.streams[k].payloadType == rm.payloadType;
    assert KeysOfType(st.streams, rm.payloadType) == stale;
  }

  /** One payload by its sub-stream id: the streams that go, the crash on one of them that was never ready, and
      what its own stream makes of it. */
  lemma WhereAPayloadGoes(cs: ConsumerState, batchId: string, p: Payload)
    ensures var (after, step) := ConsumeOne(cs, batchId, p);
      var known := p.subStreamId in cs;
      var stale := if known then {} else set k | k in cs && cs[k].payloadType == p.payloadType;
      var reader := if known then cs[p.subStreamId].reader else None;
      && (step == Crash <==> exists k :: k in stale && cs[k].reader.None?)
      && (step == Crash ==> after == cs)
      && (step == NoReader <==> step != Crash && reader.None? && p.chunk.past != [])
      && (step == Dropped <==>
            step != Crash && reader.Some? && reader.value != Reader(p.chunk.writer, p.chunk.past))
      && (step.Decoded? ==> step.message == RecordMessage(batchId, "", p.payloadType, p.chunk.record))
      && (step != Crash ==>
            && after.Keys == cs.Keys - stale + {p.subStreamId}
            && (forall k :: k in after && k != p.subStreamId ==> after[k] == cs[k])
            && (known ==> after[p.subStreamId].payloadType == cs[p.subStreamId].payloadType)
            && (!known ==> after[p.subStreamId].payloadType == p.payloadType)
            && after[p.subStreamId].reader ==
               if step.Decoded? then Some(Reader(p.chunk.writer, p.chunk.past + [p.chunk.record])) else reader)
  {
    assert ConsumersOfType(cs, p.payloadType) == set k | k in cs && cs[k].payloadType == p.payloadType;
  }

  // ---------------------------------------------------------------- Failed calls

  /** now continues old: each of its streams is newer than old, or an old one with no fewer records. */
  ghost predicate Continues(old_: ProducerState, now: ProducerState) {
    && old_.nextSubStreamId <= now.nextSubStreamId
    && (forall k :: k in now.streams ==> now.streams[k].writer.Some? && NotOlder(old_, k, now.streams[k].writer.value))
  }

  ghost predicate NotOlder(old_: ProducerState, k: string, w: Writer) {
    || w.id >= old_.nextSubStreamId
    || (k in old_.streams && old_.streams[k].writer.Some? && old_.streams[k].writer.value.id == w.id
        && |old_.streams[k].writer.value.written| <= |w.written|)
  }

  lemma ContinuesStep(old_: ProducerState, now: ProducerState, rm: RecordMessage)
    requires ProducerInv(now) && Continues(old_, now)
    ensures Continues(old_, ProduceOne(now, rm).0)
  {
    PrepareShape(now, rm);
  }

  lemma {:induction false} ContinuesAll(st: ProducerState, rms: seq<RecordMessage>)
    requires ProducerInv(st)
    ensures Continues(st, ProduceAll(st, rms).state)
  {
    if rms != [] {
      var init := rms[..|rms| - 1];
      ContinuesAll(st, init);
      ProduceAllKeepsInv(st, init);
      ContinuesStep(st, ProduceAll(st, init).state, rms[|rms| - 1]);
    }
  }

  /** A refused message changes nothing: it can only be refused by a writer that was already open. */
  lemma RefusalChangesNothing(st: ProducerState, rm: RecordMessage)
    requires ProducerInv(st) && ProduceOne(st, rm).1.None?
    ensures ProduceOne(st, rm).0 == st
  {
    PrepareShape(st, rm);
  }

  lemma {:induction false} FailedCallStopsAfter(st: ProducerState, rms: seq<RecordMessage>)
    requires ProducerInv(st) && !ProduceAll(st, rms).ok
    ensures var n := |ProduceAll(st, rms).payloads|;
            n < |rms| && ProduceAll(st, rms[..n]) == ProduceAll(st, rms).(ok := true)
  {
    var init := rms[..|rms| - 1];
    var before := ProduceAll(st, init);
    if before.ok {
      ProduceAllKeepsInv(st, init);
      RefusalChangesNothing(before.state, rms[|rms| - 1]);
    } else {
      FailedCallStopsAfter(st, init);
      assert init[..|before.payloads|] == rms[..|before.payloads|];
    }
  }

  /** The writer open for this message's schema id does not take its record. */
  ghost predicate Refuses(st: ProducerState, rm: RecordMessage) {
    && rm.subStreamId in st.streams && st.streams[rm.subStreamId].writer.Some?
    && !CanWrite(st.streams[rm.subStreamId].writer.value, rm.record)
  }

  lemma RefusesIff(st: ProducerState, rm: RecordMessage)
    requires ProducerInv(st)
    ensures ProduceOne(st, rm).1.None? <==> Refuses(st, rm)
  {
    PrepareShape(st, rm);
  }

  lemma {:induction false} PayloadsGrow(st: ProducerState, rms: seq<RecordMessage>, i: nat)
    requires i <= |rms|
    ensures |ProduceAll(st, rms[..i]).payloads| <= |ProduceAll(st, rms).payloads|
    decreases |rms|
  {
    hide ProduceOne;
    if i < |rms| {
      assert rms[..|rms| - 1][..i] == rms[..i];
      PayloadsGrow(st, rms[..|rms| - 1], i);
    } else {
      assert rms[..i] == rms;
    }
  }

  /** A failed call has written nothing exactly when its first message was refused. */
  lemma NothingWrittenIff(st: ProducerState, rms: seq<RecordMessage>)
    requires ProducerInv(st) && !ProduceAll(st, rms).ok
    ensures rms != [] && (ProduceAll(st, rms).payloads == [] <==> Refuses(st, rms[0]))
  {
    assert rms[..1][..0] == [] && rms[..1][0] == rms[0];
    assert ProduceAll(st, []) == Progress(st, [], true);
    RefusesIff(st, rms[0]);
    PayloadsGrow(st, rms, 1);
    hide ProduceOne, ProducerInv, Refuses;
    if !ProduceAll(st, rms[..1]).ok {
      FailureIsFinal(st, rms, 1);
    }
  }

  /** A failed call leaves the consumer in step exactly when the writer open for its first message
      refuses that message: later on, payloads already written are thrown away with the error and no
      reader ever sees them. */
  lemma FailedCallKeepsStepIff(st: ProducerState, cs: ConsumerState, rms: seq<RecordMessage>)
    requires ProducerInv(st) && InStep(st.streams, cs)
    requires ProduceBatch(st, rms).1.None?
    ensures rms != [] && (InStep(ProduceBatch(st, rms).0.streams, cs) <==> Refuses(st, rms[0]))
  {
    NothingWrittenIff(st, rms);
    FailedCallStopsAfter(st, rms);
    hide Refuses;
    var n := |ProduceAll(st, rms).payloads|;
    if n > 0 {
      WritingLosesStep(st, cs, rms[..n]);
    }
  }

  /** Two messages under one schema id whose records have different schemas: the second is refused, the
      first is lost, and a consumer that was in step no longer is. */
  lemma FailedCallCanLoseStep(a: RecordMessage, b: RecordMessage)
    requires a.subStreamId == b.subStreamId && a.record.schema != b.record.schema
    ensures var (st, batch) := ProduceBatch(INITIAL_PRODUCER, [a, b]);
            batch.None? && !InStep(st.streams, map[])
  {
    InitiallyInStep();
    assert [a, b][..1] == [a] && [a][..0] == [];
    assert ProduceAll(INITIAL_PRODUCER, []) == Progress(INITIAL_PRODUCER, [], true);
    PrepareShape(INITIAL_PRODUCER, a);
    var after := ProduceOne(INITIAL_PRODUCER, a).0;
    assert ProduceAll(INITIAL_PRODUCER, [a]).ok && ProduceAll(INITIAL_PRODUCER, [a]).state == after;
    ProduceOneKeepsInv(INITIAL_PRODUCER, a);
    RefusesIff(after, b);
    FailedCallKeepsStepIff(INITIAL_PRODUCER, map[], [a, b]);
  }

  /** A stream that is new, or further on than it was in st, is not at the consumer's position. */
  lemma AheadMeansOutOfStep(st: ProducerState, cs: ConsumerState, key: string, before: Writer, after: StreamProducer)
    requires StreamsInv(st.streams, st.nextSubStreamId) && InStep(st.streams, cs)
    requires NotOlder(st, key, before) && after.writer.Some?
    requires after.writer.value.id == before.id && |after.writer.value.written| > |before.written|
    ensures !Mirrors(after, cs)
  {
    hide Decimal;
    if after.subStreamId in cs {
      var k :| k in st.streams && st.streams[k].subStreamId == after.subStreamId;
      assert Mirrors(st.streams[k], cs);
    }
  }

  lemma WritingLosesStep(st: ProducerState, cs: ConsumerState, rms: seq<RecordMessage>)
    requires ProducerInv(st) && InStep(st.streams, cs)
    requires rms != [] && ProduceAll(st, rms).ok
    ensures !InStep(ProduceAll(st, rms).state.streams, cs)
  {
    hide Decimal, StreamsInv;
    var init, rm := rms[..|rms| - 1], rms[|rms| - 1];
    var before := ProduceAll(st, init).state;
    ProduceAllKeepsInv(st, init);
    ContinuesAll(st, init);
    PrepareShape(before, rm);
    var w := Prepare(before, rm).streams[rm.subStreamId].writer.value;
    assert NotOlder(st, rm.subStreamId, w);
    AheadMeansOutOfStep(st, cs, rm.subStreamId, w, ProduceOne(before, rm).0.streams[rm.subStreamId]);
  }
}
