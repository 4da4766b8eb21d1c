/** Cutting records into chunks that fit one database statement (pkg/evm/processing.go). */
module Chunking {
  import opened Basics

  const BATCH_SIZE: nat := 1000
  const MAX_PARAMS: nat := 65535

  /** A record's type as reflection sees it. */
  datatype RecordType = Struct(fields: nat) | Pointer(elem: RecordType) | NotAStruct

  function Pointee(t: RecordType): (e: RecordType)
    ensures !e.Pointer?
  {
    if t.Pointer? then Pointee(t.elem) else t
  }

  /** The largest batch within both limits, and at least one record. */
  predicate IsOptimalBatch(t: RecordType, size: nat) {
    && 1 <= size <= 1000
    && match Pointee(t)
       case Struct(fields) =>
         && (fields <= 65535 ==> size * fields <= 65535)
         && (fields > 65535 ==> size == 1)
         && (size < 1000 ==> (size + 1) * fields > 65535)
       case _ => size == 1000
  }

  /** The quotient, clamped to the two limits. */
  function ClampedQuotient(fields: nat): (size: nat)
    requires fields >= 1
    ensures 1 <= size <= BATCH_SIZE
    ensures fields <= MAX_PARAMS ==> size * fields <= MAX_PARAMS
    ensures fields > MAX_PARAMS ==> size == 1
    ensures size < BATCH_SIZE ==> (size + 1) * fields > MAX_PARAMS
  {
    LargestQuotient(MAX_PARAMS, fields);
    var q := MAX_PARAMS / fields;
    if q > BATCH_SIZE then FewerFit(BATCH_SIZE, q, fields); BATCH_SIZE
    else if q < 1 then 1
    else q
  }

  /** That batch, computed. */
  function OptimalBatch(t: RecordType): (size: nat)
    ensures size >= 1
    ensures Pointee(t) != Struct(0) ==> IsOptimalBatch(t, size)
  {
    match Pointee(t)
    case Struct(fields) => if fields == 0 then 1 else ClampedQuotient(fields)
    case _ => BATCH_SIZE
  }

  /** That batch is unique, and a statement with it stays within the limit if and only if a single record does. */
  lemma {:induction false} OptimalBatchUnique(t: RecordType, a: nat, b: nat)
    requires IsOptimalBatch(t, a) && IsOptimalBatch(t, b)
    ensures a == b
    ensures Pointee(t).Struct? ==> (a * Pointee(t).fields <= 65535 <==> Pointee(t).fields <= 65535)
  {
    if Pointee(t).Struct? {
      var fields := Pointee(t).fields;
      if a < b {
        FewerFit(a + 1, b, fields);
      } else if b < a {
        FewerFit(b + 1, a, fields);
      }
      FewerFit(1, a, fields);
    }
  }

  /** A struct without fields divides by zero in the program. */
  method CalculateOptimalBatchSize(t: RecordType) returns (size: nat)
    requires Pointee(t) != Struct(0)
    ensures IsOptimalBatch(t, size)
  {
    var e := t;
    while e.Pointer?
      invariant Pointee(e) == Pointee(t)
      decreases e
    {
      e := e.elem;
    }
    if !e.Struct? {
      return BATCH_SIZE;
    }
    size := MAX_PARAMS / e.fields;
    LargestQuotient(MAX_PARAMS, e.fields);
    if size > BATCH_SIZE {
      FewerFit(BATCH_SIZE, size, e.fields);
      size := BATCH_SIZE;
    }
    if size < 1 {
      size := 1;
      assert 2 * e.fields > MAX_PARAMS;
    }
  }

  lemma {:induction false} LargestQuotient(n: nat, d: nat)
    requires d >= 1
    ensures n / d * d <= n < (n / d + 1) * d
    ensures n / d >= 1 <==> d <= n
  {
    assert n == n / d * d + n % d;
  }

  lemma {:induction false} FewerFit(a: nat, b: nat, d: nat)
    requires a <= b
    ensures a * d <= b * d
  {
  }

  function Concat<T>(chunks: seq<seq<T>>): seq<T>
    decreases |chunks|
  {
    if chunks == [] then [] else Concat(chunks[..|chunks| - 1]) + chunks[|chunks| - 1]
  }

  predicate AllFull<T>(chunks: seq<seq<T>>, size: nat) {
    forall i :: 0 <= i < |chunks| ==> |chunks[i]| == size
  }

  /** None empty, none too long, and all but the last full. */
  predicate ChunkShape<T>(chunks: seq<seq<T>>, size: nat) {
    && (chunks != [] ==> 1 <= |chunks[|chunks| - 1]| <= size && AllFull(chunks[..|chunks| - 1], size))
  }

  lemma {:induction false} FullLength<T>(chunks: seq<seq<T>>, size: nat)
    requires AllFull(chunks, size)
    ensures |Concat(chunks)| == |chunks| * size
    decreases |chunks|
  {
    if chunks == [] {
    } else {
      FullLength(chunks[..|chunks| - 1], size);
      assert |chunks| * size == (|chunks| - 1) * size + size;
    }
  }

  lemma {:induction false} ChunksReachEnd<T>(chunks: seq<seq<T>>, size: nat)
    requires ChunkShape(chunks, size)
    ensures |Concat(chunks)| <= |chunks| * size
  {
    if chunks != [] {
      FullLength(chunks[..|chunks| - 1], size);
      assert |chunks| * size == (|chunks| - 1) * size + size;
    }
  }

  lemma {:induction false} ConcatPrefix<T>(chunks: seq<seq<T>>, n: nat)
    requires n <= |chunks|
    ensures Concat(chunks[..n]) <= Concat(chunks)
    ensures n < |chunks| ==> |Concat(chunks[..n])| + |chunks[n]| <= |Concat(chunks)|
    decreases |chunks| - n
  {
    if n < |chunks| {
      ConcatPrefix(chunks, n + 1);
      assert chunks[..n + 1][..n] == chunks[..n];
    } else {
      assert chunks[..n] == chunks;
    }
  }

  /** The first k chunks hold the first k * size records, and every chunk adds some. */
  lemma {:induction false} PrefixOfChunks<T>(chunks: seq<seq<T>>, size: nat, k: nat)
    requires size >= 1 && ChunkShape(chunks, size) && k <= |chunks|
    ensures Concat(chunks[..k]) == Concat(chunks)[..Min(|Concat(chunks)|, k * size)]
    ensures k < |chunks| ==> k * size < |Concat(chunks)|
  {
    ConcatPrefix(chunks, k);
    if k < |chunks| {
      var init := chunks[..|chunks| - 1];
      assert chunks[..k] == init[..k];
      assert k < |init| ==> chunks[k] == init[k];
      FullLength(chunks[..k], size);
    } else {
      assert chunks[..k] == chunks;
      ChunksReachEnd(chunks, size);
    }
  }

  /** The number of chunks is the length over the batch size, rounded up. */
  lemma {:induction false} ChunkCount<T>(chunks: seq<seq<T>>, size: nat)
    requires size >= 1 && ChunkShape(chunks, size)
    ensures |chunks| == (|Concat(chunks)| + size - 1) / size
  {
    if chunks == [] {
      CeilingIs(0, size, 0);
    } else {
      FullLength(chunks[..|chunks| - 1], size);
      assert |chunks| * size == (|chunks| - 1) * size + size;
      CeilingIs(|Concat(chunks)|, size, |chunks|);
    }
  }

  /** Chunks in order, none empty, all but the last full: there is only one such cut. */
  method ChunkRecords<T>(records: seq<T>, batchSize: nat) returns (chunks: seq<seq<T>>)
    requires batchSize >= 1
    ensures Concat(chunks) == records && ChunkShape(chunks, batchSize)
    ensures |chunks| == (|records| + batchSize - 1) / batchSize
  {
    chunks := [];
    if |records| == 0 {
      ChunkCount(chunks, batchSize);
      return;
    }
    var i := 0;
    while i < |records|
      invariant 0 <= i
      invariant Concat(chunks) == records[..Min(i, |records|)]
      invariant ChunkShape(chunks, batchSize)
      invariant i <= |records| ==> AllFull(chunks, batchSize)
      decreases |records| - i
    {
      var end := i + batchSize;
      if end > |records| {
        end := |records|;
      }
      ghost var before := chunks;
      chunks := chunks + [records[i..end]];
      assert chunks[..|chunks| - 1] == before;
      assert records[..i] + records[i..end] == records[..end];
      i := i + batchSize;
    }
    assert records[..|records|] == records;
    ChunkCount(chunks, batchSize);
  }

  lemma {:induction false} CeilingIs(n: nat, b: nat, k: nat)
    requires b >= 1 && n <= k * b < n + b
    ensures (n + b - 1) / b == k
  {
    var q := (n + b - 1) / b;
    LargestQuotient(n + b - 1, b);
    assert (k + 1) * b == k * b + b;
    if q < k {
      FewerFit(q + 1, k, b);
    } else if q > k {
      FewerFit(k + 1, q, b);
    }
  }
}

/**
 * From fetched logs to the TokenSent and ContractCall tables (pkg/evm/processing.go, pkg/evm/parser/converter.go,
 * pkg/db/token.go, pkg/db/manipulation.go): group by topic, convert, save in chunks, insert if absent.
 */
module EventTables {
  import opened Basics
  import opened Text
  import opened Chunking
  import opened InsertIfAbsent

  datatype Log = Log(txHash: Hash32, index: nat, blockNumber: nat, topic: string, data: Bytes)

  /** The two events whose rows are keyed by event id alone; the others go to other tables. */
  datatype Kind = TokenSent | ContractCall | OtherEvent

  datatype Row = Row(eventID: string, txHash: string, blockNumber: nat, logIndex: nat, body: Bytes)

  type Table = map<string, Row>
  datatype Tables = Tables(tokenSents: Table, contractCalls: Table)

  /** The configured events, the ABI decoder as a function of the log, and each event's record type. */
  datatype Decoder = Decoder(events: map<string, Kind>, decode: (Kind, Log) -> Option<Bytes>, recordType: Kind -> RecordType)

  /** Every event has its own topic, and its records have fields. */
  ghost predicate Configured(d: Decoder) {
    && (forall t, u :: t in d.events && u in d.events && d.events[t] == d.events[u] && d.events[t] != OtherEvent ==> t == u)
    && (forall k :: Pointee(d.recordType(k)) != Struct(0))
  }

  function EventID(log: Log): string {
    Hex(log.txHash) + "-" + Decimal(log.index)
  }

  function ToRow(kind: Kind, log: Log, body: Bytes): Row {
    var txHash := if kind.TokenSent? then Hex(log.txHash) else "0x" + Hex(log.txHash);
    Row(EventID(log), txHash, log.blockNumber, log.index, body)
  }

  /** The record a log gives rise to, if its topic is known and its data decodes. */
  function RecordOf(d: Decoder, log: Log): Option<Row> {
    if log.topic !in d.events then None
    else
      var kind := d.events[log.topic];
      match d.decode(kind, log)
      case None => None
      case Some(body) => Some(ToRow(kind, log, body))
  }

  function KindOf(d: Decoder, topic: string): Option<Kind> {
    if topic in d.events then Some(d.events[topic]) else None
  }

  /** The records of one event, in the order of the logs. */
  function RowsOf(d: Decoder, logs: seq<Log>, kind: Kind): seq<Row>
    decreases |logs|
  {
    if logs == [] then [] else
      var last := logs[|logs| - 1];
      var init := RowsOf(d, logs[..|logs| - 1], kind);
      if KindOf(d, last.topic) == Some(kind) && RecordOf(d, last).Some? then init + [RecordOf(d, last).value] else init
  }

  function EventKey(row: Row): string {
    row.eventID
  }

  /** ON CONFLICT (event_id) DO NOTHING, row by row. */
  function InsertRows(t: Table, rows: seq<Row>): Table {
    InsertAbsent(t, rows, EventKey)
  }

  function Save(t: Tables, kind: Kind, rows: seq<Row>): Tables {
    match kind
    case TokenSent => t.(tokenSents := InsertRows(t.tokenSents, rows))
    case ContractCall => t.(contractCalls := InsertRows(t.contractCalls, rows))
    case OtherEvent => t
  }

  /** What one delivered batch of logs does to the tables. */
  function AfterBatch(d: Decoder, t: Tables, logs: seq<Log>): Tables {
    Tables(InsertRows(t.tokenSents, RowsOf(d, logs, TokenSent)), InsertRows(t.contractCalls, RowsOf(d, logs, ContractCall)))
  }

  /** A delivered batch, and for each event the first chunk the database refuses, if any. */
  datatype Delivery = Delivery(logs: seq<Log>, refused: map<Kind, nat>)

  /** How many of `n` records are in the first `chunks` chunks. */
  function InChunks(n: nat, chunks: nat, batch: nat): (m: nat)
    ensures m == Min(n, chunks * batch)
  {
    if chunks * batch < n then chunks * batch else n
  }

  /** The records in the chunks before the first refused one. */
  function SavedPrefix(records: seq<Row>, batch: nat, refused: Option<nat>): seq<Row> {
    if refused.Some? then records[..InChunks(|records|, refused.value, batch)] else records
  }

  function Refusal(dv: Delivery, kind: Kind): Option<nat> {
    if kind in dv.refused then Some(dv.refused[kind]) else None
  }

  /** The rows of one event that a delivery saves. */
  function SavedOf(d: Decoder, dv: Delivery, kind: Kind): seq<Row> {
    SavedPrefix(RowsOf(d, dv.logs, kind), OptimalBatch(d.recordType(kind)), Refusal(dv, kind))
  }

  /** What a delivery does to the tables; a failed save of one event is skipped and does not affect the others. */
  function AfterDelivery(d: Decoder, t: Tables, dv: Delivery): Tables {
    Tables(InsertRows(t.tokenSents, SavedOf(d, dv, TokenSent)), InsertRows(t.contractCalls, SavedOf(d, dv, ContractCall)))
  }

  /** Without refusals a delivery is a batch. */
  lemma {:induction false} UnrefusedDelivery(d: Decoder, t: Tables, logs: seq<Log>)
    ensures AfterDelivery(d, t, Delivery(logs, map[])) == AfterBatch(d, t, logs)
  {
  }

  // ---------------------------------------------------------------------------------------------
  // The code

  lemma {:induction false} ChunksBeforeRefusal(records: seq<Row>, chunks: seq<seq<Row>>, batch: nat, k: nat)
    requires batch >= 1 && ChunkShape(chunks, batch) && Concat(chunks) == records
    ensures Concat(chunks[..Min(|chunks|, k)]) == records[..Min(|records|, k * batch)]
    ensures |chunks| <= k <==> |records| <= k * batch
  {
    if k < |chunks| {
      PrefixOfChunks(chunks, batch, k);
    } else {
      assert chunks[..|chunks|] == chunks;
      ChunksReachEnd(chunks, batch);
      FewerFit(|chunks|, k, batch);
    }
  }

  lemma {:induction false} StoredChunks(records: seq<Row>, chunks: seq<seq<Row>>, batch: nat, refused: Option<nat>, stored: nat)
    requires batch >= 1 && ChunkShape(chunks, batch) && Concat(chunks) == records
    requires stored == if refused.Some? then Min(|chunks|, refused.value) else |chunks|
    ensures Concat(chunks[..stored]) == SavedPrefix(records, batch, refused)
    ensures stored == |chunks| <==> SavedPrefix(records, batch, refused) == records
  {
    assert chunks[..|chunks|] == chunks && records[..|records|] == records;
    if refused.Some? {
      ChunksBeforeRefusal(records, chunks, batch, refused.value);
    }
  }

  class Database {
    var tables: Tables

    constructor ()
      ensures tables == Tables(map[], map[])
    {
      tables := Tables(map[], map[]);
    }

    method SaveChunks(kind: Kind, chunks: seq<seq<Row>>, refused: Option<nat>) returns (stored: nat)
      modifies this
      ensures stored == if refused.Some? then Min(|chunks|, refused.value) else |chunks|
      ensures tables == Save(old(tables), kind, Concat(chunks[..stored]))
    {
      for i := 0 to |chunks|
        invariant refused.Some? ==> i <= refused.value
        invariant tables == Save(old(tables), kind, Concat(chunks[..i]))
      {
        if refused == Some(i) {
          return i;
        }
        assert chunks[..i + 1][..i] == chunks[..i];
        InsertConcat(old(tables).tokenSents, Concat(chunks[..i]), chunks[i], EventKey);
        InsertConcat(old(tables).contractCalls, Concat(chunks[..i]), chunks[i], EventKey);
        tables := Save(tables, kind, chunks[i]);
      }
      return |chunks|;
    }

    /** Chunk by chunk, stopping at the first chunk the database refuses; without one the chunk size leaves no trace. */
    method SaveRecords(kind: Kind, records: seq<Row>, recordType: RecordType, refused: Option<nat>) returns (ok: bool)
      requires Pointee(recordType) != Struct(0)
      modifies this
      ensures tables == Save(old(tables), kind, SavedPrefix(records, OptimalBatch(recordType), refused))
      ensures ok <==> SavedPrefix(records, OptimalBatch(recordType), refused) == records
    {
      if |records| == 0 {
        return true;
      }
      var size := CalculateOptimalBatchSize(recordType);
      OptimalBatchUnique(recordType, size, OptimalBatch(recordType));
      var chunks := ChunkRecords(records, size);
      var stored := SaveChunks(kind, chunks, refused);
      StoredChunks(records, chunks, size, refused, stored);
      ok := stored == |chunks|;
    }

    /**
     * One batch: records are grouped by topic and the groups saved in whatever order the map yields them; a group
     * that fails is skipped. The block heights of all logs, known event or not, go on to the header fetcher.
     */
    method ProcessBatch(d: Decoder, dv: Delivery) returns (heights: set<nat>)
      requires Configured(d)
      modifies this
      ensures tables == AfterDelivery(d, old(tables), dv)
      ensures heights == set l | l in dv.logs :: l.blockNumber
    {
      var logs := dv.logs;
      var mapRecords: map<string, seq<Row>> := map[];
      heights := {};
      for i := 0 to |logs|
        invariant heights == HeightsOf(logs[..i])
        invariant Grouped(d, logs[..i], mapRecords)
        invariant tables == old(tables)
      {
        var log := logs[i];
        assert logs[..i + 1] == logs[..i] + [log];
        HeightsGrow(logs[..i], log);
        GroupsGrow(d, logs[..i], log, mapRecords);
        heights := heights + {log.blockNumber};
        var record := RecordOf(d, log);
        if record.Some? {
          var sofar := if log.topic in mapRecords then mapRecords[log.topic] else [];
          mapRecords := mapRecords[log.topic := sofar + [record.value]];
        }
      }
      assert logs[..|logs|] == logs && heights == HeightsOf(logs);
      SaveGroups(d, mapRecords, dv);
    }

    method SaveGroups(d: Decoder, mapRecords: map<string, seq<Row>>, dv: Delivery)
      requires Configured(d) && Grouped(d, dv.logs, mapRecords)
      modifies this
      ensures tables == AfterDelivery(d, old(tables), dv)
    {
      var pending := mapRecords.Keys;
      while pending != {}
        invariant pending <= mapRecords.Keys
        invariant tables == Saved(d, old(tables), dv, mapRecords.Keys - pending)
        decreases |pending|
      {
        var topic :| topic in pending;
        ghost var done := mapRecords.Keys - pending;
        var kind := d.events[topic];
        var ok := SaveRecords(kind, mapRecords[topic], d.recordType(kind), Refusal(dv, kind));
        pending := pending - {topic};
        assert mapRecords.Keys - pending == done + {topic};
        SaveOneMore(d, old(tables), dv, done, topic);
      }
      AllSaved(d, old(tables), dv, mapRecords);
    }
  }

  /** The records found so far, by topic, are those of each event in log order. */
  ghost predicate Grouped(d: Decoder, logs: seq<Log>, mapRecords: map<string, seq<Row>>) {
    && (forall t :: t in mapRecords ==> t in d.events)
    && (forall t :: t in d.events && d.events[t] != OtherEvent ==>
          RowsOf(d, logs, d.events[t]) == if t in mapRecords then mapRecords[t] else [])
  }

  /** One more log goes to the end of its topic's group, or nowhere. */
  lemma {:induction false} GroupsGrow(d: Decoder, logs: seq<Log>, log: Log, groups: map<string, seq<Row>>)
    requires Configured(d) && Grouped(d, logs, groups)
    ensures
      var record := RecordOf(d, log);
      var sofar := if log.topic in groups then groups[log.topic] else [];
      Grouped(d, logs + [log], if record.Some? then groups[log.topic := sofar + [record.value]] else groups)
  {
    assert (logs + [log])[..|logs|] == logs;
  }

  function HeightsOf(logs: seq<Log>): set<nat> {
    set l | l in logs :: l.blockNumber
  }

  lemma {:induction false} HeightsGrow(logs: seq<Log>, log: Log)
    ensures HeightsOf(logs + [log]) == HeightsOf(logs) + {log.blockNumber}
  {
    var after := logs + [log];
    forall h | h in HeightsOf(logs) + {log.blockNumber}
      ensures h in HeightsOf(after)
    {
      if h != log.blockNumber {
        var l :| l in logs && l.blockNumber == h;
        assert l in after;
      } else {
        assert log in after;
      }
    }
  }

  predicate KindSaved(d: Decoder, done: set<string>, kind: Kind) {
    exists t :: t in done && t in d.events && d.events[t] == kind
  }

  /** The tables once the groups of the topics in `done` have been saved. */
  function Saved(d: Decoder, t: Tables, dv: Delivery, done: set<string>): Tables {
    Tables(if KindSaved(d, done, TokenSent) then InsertRows(t.tokenSents, SavedOf(d, dv, TokenSent)) else t.tokenSents,
           if KindSaved(d, done, ContractCall) then InsertRows(t.contractCalls, SavedOf(d, dv, ContractCall)) else t.contractCalls)
  }

  lemma {:induction false} SaveOneMore(d: Decoder, t: Tables, dv: Delivery, done: set<string>, topic: string)
    requires Configured(d) && topic in d.events && topic !in done
    ensures Save(Saved(d, t, dv, done), d.events[topic], SavedOf(d, dv, d.events[topic])) == Saved(d, t, dv, done + {topic})
  {
    var kind := d.events[topic];
    assert KindSaved(d, done + {topic}, kind);
    forall k | k != kind
      ensures KindSaved(d, done + {topic}, k) <==> KindSaved(d, done, k)
    {
      if KindSaved(d, done, k) {
        var u :| u in done && u in d.events && d.events[u] == k;
        assert u in done + {topic};
      }
    }
  }

  lemma {:induction false} AllSaved(d: Decoder, t: Tables, dv: Delivery, mapRecords: map<string, seq<Row>>)
    requires Grouped(d, dv.logs, mapRecords)
    ensures Saved(d, t, dv, mapRecords.Keys) == AfterDelivery(d, t, dv)
  {
    forall k | k != OtherEvent && !KindSaved(d, mapRecords.Keys, k)
      ensures SavedOf(d, dv, k) == []
    {
      if u :| u in d.events && d.events[u] == k {
        assert u !in mapRecords.Keys;
      } else {
        NoTopicNoRows(d, dv.logs, k);
      }
    }
  }

  lemma {:induction false} NoTopicNoRows(d: Decoder, logs: seq<Log>, kind: Kind)
    requires forall u :: u in d.events ==> d.events[u] != kind
    ensures RowsOf(d, logs, kind) == []
    decreases |logs|
  {
    if logs == [] {
    } else {
      NoTopicNoRows(d, logs[..|logs| - 1], kind);
    }
  }

  // ---------------------------------------------------------------------------------------------
  // Independence of batching

  /** The event id determines the transaction and the log index. */
  lemma {:induction false} EventIDInjective(a: Log, b: Log)
    requires EventID(a) == EventID(b)
    ensures a.txHash == b.txHash && a.index == b.index
  {
    var n := 2 * HASH_SIZE;
    assert EventID(a)[..n] == Hex(a.txHash) && EventID(b)[..n] == Hex(b.txHash);
    HexInjective(a.txHash, b.txHash);
    assert EventID(a)[n + 1..] == Decimal(a.index) && EventID(b)[n + 1..] == Decimal(b.index);
    DecimalValue(a.index);
    DecimalValue(b.index);
  }

  /** A transaction hash and log index name one log. */
  predicate UniqueLogs(logs: set<Log>) {
    forall a, b :: a in logs && b in logs && a.txHash == b.txHash && a.index == b.index ==> a == b
  }

  /** Log `l` gives rise to `row` in the table of `kind`. */
  predicate Yields(d: Decoder, kind: Kind, l: Log, row: Row) {
    KindOf(d, l.topic) == Some(kind) && RecordOf(d, l) == Some(row)
  }

  lemma {:induction false} RowsComeFromLogs(d: Decoder, logs: seq<Log>, kind: Kind, row: Row)
    ensures row in RowsOf(d, logs, kind) <==> exists l :: l in logs && Yields(d, kind, l, row)
    decreases |logs|
  {
    if logs == [] {
    } else {
      var init, last := logs[..|logs| - 1], logs[|logs| - 1];
      assert logs == init + [last];
      assert forall l :: l in logs <==> l in init || l == last;
      RowsComeFromLogs(d, init, kind, row);
      assert Yields(d, kind, last, row) ==> exists l :: l in logs && Yields(d, kind, l, row);
    }
  }

  /** The table's content, read off the rows: what was there, and else the row with that id. */
  lemma {:induction false} InsertRowsContent(t: Table, rows: seq<Row>, id: string)
    requires forall r, s :: r in rows && s in rows && r.eventID == s.eventID ==> r == s
    ensures id in InsertRows(t, rows) <==> id in t || exists r :: r in rows && r.eventID == id
    ensures id in t ==> InsertRows(t, rows)[id] == t[id]
    ensures forall r :: r in rows && r.eventID == id && id !in t ==> InsertRows(t, rows)[id] == r
  {
    InsertedRows(t, rows, EventKey, id);
    assert forall r :: EventKey(r) == r.eventID;
  }

  lemma {:induction false} RowsUnique(d: Decoder, logs: seq<Log>, kind: Kind)
    requires UniqueLogs(set l | l in logs)
    ensures forall r, s :: r in RowsOf(d, logs, kind) && s in RowsOf(d, logs, kind) && r.eventID == s.eventID ==> r == s
  {
    forall r, s | r in RowsOf(d, logs, kind) && s in RowsOf(d, logs, kind) && r.eventID == s.eventID
      ensures r == s
    {
      RowsComeFromLogs(d, logs, kind, r);
      RowsComeFromLogs(d, logs, kind, s);
      var a :| a in logs && Yields(d, kind, a, r);
      var b :| b in logs && Yields(d, kind, b, s);
      EventIDInjective(a, b);
    }
  }

  lemma {:induction false} SameLogsSameTable(d: Decoder, t: Table, kind: Kind, a: seq<Log>, b: seq<Log>)
    requires UniqueLogs(set l | l in a) && forall l :: l in a <==> l in b
    ensures InsertRows(t, RowsOf(d, a, kind)) == InsertRows(t, RowsOf(d, b, kind))
  {
    var ra, rb := RowsOf(d, a, kind), RowsOf(d, b, kind);
    assert (set l | l in a) == (set l | l in b);
    RowsUnique(d, a, kind);
    RowsUnique(d, b, kind);
    forall r
      ensures r in ra <==> r in rb
    {
      RowsComeFromLogs(d, a, kind, r);
      RowsComeFromLogs(d, b, kind, r);
    }
    forall id
      ensures id in InsertRows(t, ra) <==> id in InsertRows(t, rb)
      ensures id in InsertRows(t, ra) ==> InsertRows(t, ra)[id] == InsertRows(t, rb)[id]
    {
      InsertRowsContent(t, ra, id);
      InsertRowsContent(t, rb, id);
    }
  }

  /** A history of deliveries, batch after batch. */
  function AfterHistory(d: Decoder, t: Tables, batches: seq<seq<Log>>): Tables
    decreases |batches|
  {
    if batches == [] then t
    else AfterBatch(d, AfterHistory(d, t, batches[..|batches| - 1]), batches[|batches| - 1])
  }

  lemma {:induction false} RowsOfConcat(d: Decoder, a: seq<Log>, b: seq<Log>, kind: Kind)
    ensures RowsOf(d, a + b, kind) == RowsOf(d, a, kind) + RowsOf(d, b, kind)
    decreases |b|
  {
    if b == [] {
      assert a + b == a;
    } else {
      assert (a + b)[..|a + b| - 1] == a + b[..|b| - 1] && (a + b)[|a + b| - 1] == b[|b| - 1];
      RowsOfConcat(d, a, b[..|b| - 1], kind);
    }
  }

  /** A log on its own gives the one row it decodes to, in the event its topic is configured for, or none. */
  lemma {:induction false} RowsOfOne(d: Decoder, l: Log, kind: Kind)
    ensures RowsOf(d, [l], kind) ==
      if l.topic in d.events && d.events[l.topic] == kind && d.decode(kind, l).Some?
      then [Row(Hex(l.txHash) + "-" + Decimal(l.index), if kind.TokenSent? then Hex(l.txHash) else "0x" + Hex(l.txHash),
                l.blockNumber, l.index, d.decode(kind, l).value)]
      else []
  {
    assert [l][..0] == [];
  }

  /** Where the batches are cut makes no difference. */
  lemma {:induction false} HistoryIsOneBatch(d: Decoder, t: Tables, batches: seq<seq<Log>>)
    ensures AfterHistory(d, t, batches) == AfterBatch(d, t, Concat(batches))
    decreases |batches|
  {
    if batches == [] {
    } else {
      var init, last := batches[..|batches| - 1], batches[|batches| - 1];
      HistoryIsOneBatch(d, t, init);
      RowsOfConcat(d, Concat(init), last, TokenSent);
      RowsOfConcat(d, Concat(init), last, ContractCall);
      InsertConcat(t.tokenSents, RowsOf(d, Concat(init), TokenSent), RowsOf(d, last, TokenSent), EventKey);
      InsertConcat(t.contractCalls, RowsOf(d, Concat(init), ContractCall), RowsOf(d, last, ContractCall), EventKey);
    }
  }

  /**
   * Batching independence: two histories that deliver the same logs -- split, ordered, repeated and overlapping in any
   * way -- leave the same TokenSent and ContractCall tables.
   */
  lemma {:induction false} BatchingIndependence(d: Decoder, t: Tables, h1: seq<seq<Log>>, h2: seq<seq<Log>>)
    requires UniqueLogs(set l | l in Concat(h1)) && forall l :: l in Concat(h1) <==> l in Concat(h2)
    ensures AfterHistory(d, t, h1) == AfterHistory(d, t, h2)
  {
    HistoryIsOneBatch(d, t, h1);
    HistoryIsOneBatch(d, t, h2);
    SameLogsSameTable(d, t.tokenSents, TokenSent, Concat(h1), Concat(h2));
    SameLogsSameTable(d, t.contractCalls, ContractCall, Concat(h1), Concat(h2));
  }

  function TableOf(t: Tables, kind: Kind): Table {
    match kind
    case TokenSent => t.tokenSents
    case ContractCall => t.contractCalls
    case OtherEvent => map[]
  }

  /**
   * What a delivery leaves in a table, id by id: of the event's rows -- all of them, or the full chunks before the
   * refused one -- the first with a free id is stored, and what was there stays.
   */
  lemma {:induction false} DeliveredRows(d: Decoder, t: Tables, dv: Delivery, kind: Kind, batch: nat, id: string)
    requires kind != OtherEvent && Pointee(d.recordType(kind)) != Struct(0) && IsOptimalBatch(d.recordType(kind), batch)
    ensures var t' := AfterDelivery(d, t, dv);
      var table := if kind.TokenSent? then t.tokenSents else t.contractCalls;
      var table' := if kind.TokenSent? then t'.tokenSents else t'.contractCalls;
      var all := RowsOf(d, dv.logs, kind);
      var rows := if kind in dv.refused then all[..InChunks(|all|, dv.refused[kind], batch)] else all;
      && (id in table' <==> id in table || exists i :: 0 <= i < |rows| && rows[i].eventID == id)
      && (id in table ==> id in table' && table'[id] == table[id])
      && forall i :: 0 <= i < |rows| && rows[i].eventID == id ==>
           id in table || (exists j :: 0 <= j < i && rows[j].eventID == id) || (id in table' && table'[id] == rows[i])
  {
    SavedCount(d, dv, kind, batch);
    StoredById(TableOf(t, kind), SavedOf(d, dv, kind), id);
  }

  lemma {:induction false} SavedCount(d: Decoder, dv: Delivery, kind: Kind, batch: nat)
    requires Pointee(d.recordType(kind)) != Struct(0) && IsOptimalBatch(d.recordType(kind), batch)
    ensures SavedOf(d, dv, kind) == SavedPrefix(RowsOf(d, dv.logs, kind), batch, Refusal(dv, kind))
  {
    OptimalBatchUnique(d.recordType(kind), batch, OptimalBatch(d.recordType(kind)));
  }

  lemma {:induction false} StoredById(t: Table, rows: seq<Row>, id: string)
    ensures id in InsertRows(t, rows) <==> id in t || exists i :: 0 <= i < |rows| && rows[i].eventID == id
    ensures id in t ==> id in InsertRows(t, rows) && InsertRows(t, rows)[id] == t[id]
    ensures forall i :: 0 <= i < |rows| && rows[i].eventID == id ==>
      id in t || (exists j :: 0 <= j < i && rows[j].eventID == id)
      || (id in InsertRows(t, rows) && InsertRows(t, rows)[id] == rows[i])
  {
    StoredByKey(t, rows, EventKey, id);
    assert forall r :: EventKey(r) == r.eventID;
  }

  lemma {:induction false} RowPresent(d: Decoder, logs: seq<Log>, kind: Kind, l: Log, row: Row)
    requires UniqueLogs(set l | l in logs)
    requires l in logs && Yields(d, kind, l, row)
    ensures var table := InsertRows(map[], RowsOf(d, logs, kind));
      row.eventID in table && table[row.eventID] == row
  {
    RowsUnique(d, logs, kind);
    RowsComeFromLogs(d, logs, kind, row);
    InsertRowsContent(map[], RowsOf(d, logs, kind), row.eventID);
  }

  lemma {:induction false} HistoryTable(d: Decoder, history: seq<seq<Log>>, kind: Kind)
    requires kind != OtherEvent
    ensures TableOf(AfterHistory(d, Tables(map[], map[]), history), kind)
         == InsertRows(map[], RowsOf(d, Concat(history), kind))
  {
    HistoryIsOneBatch(d, Tables(map[], map[]), history);
  }

  /** Every delivered log of the event that decodes has its row under its event id. */
  lemma {:induction false} EveryLogHasItsRow(d: Decoder, history: seq<seq<Log>>, kind: Kind, l: Log, body: Bytes)
    requires UniqueLogs(set l | l in Concat(history)) && kind != OtherEvent
    requires l in Concat(history) && l.topic in d.events && d.events[l.topic] == kind && d.decode(kind, l) == Some(body)
    ensures var tables := AfterHistory(d, Tables(map[], map[]), history);
      var table := if kind.TokenSent? then tables.tokenSents else tables.contractCalls;
      var txHash := if kind.TokenSent? then Hex(l.txHash) else "0x" + Hex(l.txHash);
      var id := Hex(l.txHash) + "-" + Decimal(l.index);
      id in table && table[id] == Row(id, txHash, l.blockNumber, l.index, body)
  {
    HistoryTable(d, history, kind);
    RowPresent(d, Concat(history), kind, l, ToRow(kind, l, body));
  }

  lemma {:induction false} RowExplained(d: Decoder, logs: seq<Log>, kind: Kind, id: string)
    requires UniqueLogs(set l | l in logs)
    requires id in InsertRows(map[], RowsOf(d, logs, kind))
    ensures exists l :: l in logs && EventID(l) == id && Yields(d, kind, l, InsertRows(map[], RowsOf(d, logs, kind))[id])
  {
    RowsUnique(d, logs, kind);
    InsertRowsContent(map[], RowsOf(d, logs, kind), id);
    var r :| r in RowsOf(d, logs, kind) && r.eventID == id;
    RowsComeFromLogs(d, logs, kind, r);
    var l :| l in logs && Yields(d, kind, l, r);
  }

  /** And every row comes from a delivered log of the event, with what that log decodes to. */
  lemma {:induction false} EveryRowHasItsLog(d: Decoder, history: seq<seq<Log>>, kind: Kind, id: string)
    returns (l: Log, body: Bytes)
    requires UniqueLogs(set l | l in Concat(history)) && kind != OtherEvent
    requires id in TableOf(AfterHistory(d, Tables(map[], map[]), history), kind)
    ensures l in Concat(history) && l.topic in d.events && d.events[l.topic] == kind && d.decode(kind, l) == Some(body)
    ensures var tables := AfterHistory(d, Tables(map[], map[]), history);
      var table := if kind.TokenSent? then tables.tokenSents else tables.contractCalls;
      var txHash := if kind.TokenSent? then Hex(l.txHash) else "0x" + Hex(l.txHash);
      id in table && table[id] == Row(id, txHash, l.blockNumber, l.index, body) && id == Hex(l.txHash) + "-" + Decimal(l.index)
  {
    HistoryTable(d, history, kind);
    RowExplained(d, Concat(history), kind, id);
    var row := InsertRows(map[], RowsOf(d, Concat(history), kind))[id];
    l :| l in Concat(history) && EventID(l) == id && Yields(d, kind, l, row);
    body := d.decode(kind, l).value;
  }

  // ---------------------------------------------------------------------------------------------
  // Failed saves

  function AfterDeliveries(d: Decoder, t: Tables, dvs: seq<Delivery>): Tables
    decreases |dvs|
  {
    if dvs == [] then t else AfterDelivery(d, AfterDeliveries(d, t, dvs[..|dvs| - 1]), dvs[|dvs| - 1])
  }

  /** All logs delivered. */
  function LogsOf(dvs: seq<Delivery>): seq<Log>
    decreases |dvs|
  {
    if dvs == [] then [] else LogsOf(dvs[..|dvs| - 1]) + dvs[|dvs| - 1].logs
  }

  /** All rows of one event that some delivery saved. */
  function AllSavedOf(d: Decoder, dvs: seq<Delivery>, kind: Kind): seq<Row>
    decreases |dvs|
  {
    if dvs == [] then [] else AllSavedOf(d, dvs[..|dvs| - 1], kind) + SavedOf(d, dvs[|dvs| - 1], kind)
  }

  lemma {:induction false} DeliveriesTable(d: Decoder, t: Tables, dvs: seq<Delivery>, kind: Kind)
    requires kind != OtherEvent
    ensures TableOf(AfterDeliveries(d, t, dvs), kind) == InsertRows(TableOf(t, kind), AllSavedOf(d, dvs, kind))
    decreases |dvs|
  {
    if dvs == [] {
    } else {
      var init, last := dvs[..|dvs| - 1], dvs[|dvs| - 1];
      DeliveriesTable(d, t, init, kind);
      InsertConcat(TableOf(t, kind), AllSavedOf(d, init, kind), SavedOf(d, last, kind), EventKey);
    }
  }

  lemma {:induction false} SavedAreDelivered(d: Decoder, dvs: seq<Delivery>, kind: Kind, r: Row)
    requires r in AllSavedOf(d, dvs, kind)
    ensures r in RowsOf(d, LogsOf(dvs), kind)
    decreases |dvs|
  {
    var init, last := dvs[..|dvs| - 1], dvs[|dvs| - 1];
    RowsOfConcat(d, LogsOf(init), last.logs, kind);
    if r in AllSavedOf(d, init, kind) {
      SavedAreDelivered(d, init, kind, r);
    }
  }

  lemma {:induction false} SavedBySome(d: Decoder, dvs: seq<Delivery>, kind: Kind, r: Row)
    ensures r in AllSavedOf(d, dvs, kind) <==> exists i :: 0 <= i < |dvs| && r in SavedOf(d, dvs[i], kind)
    decreases |dvs|
  {
    if dvs == [] {
    } else {
      var init := dvs[..|dvs| - 1];
      SavedBySome(d, init, kind, r);
      if i :| 0 <= i < |init| && r in SavedOf(d, init[i], kind) {
        assert r in SavedOf(d, dvs[i], kind);
      }
      assert forall i :: 0 <= i < |init| ==> init[i] == dvs[i];
    }
  }

  /** Inserting part of a set of rows gives the same table as inserting all if and only if the rest was there already. */
  lemma {:induction false} PartialInsert(t: Table, part: seq<Row>, rows: seq<Row>)
    requires forall r, s :: r in rows && s in rows && r.eventID == s.eventID ==> r == s
    requires forall r :: r in part ==> r in rows
    ensures InsertRows(t, part) == InsertRows(t, rows) <==> forall r :: r in rows ==> r.eventID in t || r in part
  {
    forall id
      ensures id in InsertRows(t, part) <==> id in t || exists r :: r in part && r.eventID == id
      ensures id in InsertRows(t, rows) <==> id in t || exists r :: r in rows && r.eventID == id
      ensures id in InsertRows(t, part) && id in InsertRows(t, rows) ==> InsertRows(t, part)[id] == InsertRows(t, rows)[id]
    {
      InsertRowsContent(t, part, id);
      InsertRowsContent(t, rows, id);
    }
    if InsertRows(t, part) == InsertRows(t, rows) {
      forall r | r in rows
        ensures r.eventID in t || r in part
      {
        assert r.eventID in InsertRows(t, rows);
      }
    }
  }

  /**
   * With failed saves: the table holds what it would hold without failures if and only if every row of a delivered
   * log was there before or was saved by some delivery. A failure is made good by any later delivery of the same logs.
   */
  lemma {:induction false} FailedSavesLoseExactly(d: Decoder, t: Tables, dvs: seq<Delivery>, kind: Kind)
    requires UniqueLogs(set l | l in LogsOf(dvs)) && kind != OtherEvent
    ensures TableOf(AfterDeliveries(d, t, dvs), kind) == TableOf(AfterBatch(d, t, LogsOf(dvs)), kind)
       <==> forall r :: r in RowsOf(d, LogsOf(dvs), kind) ==>
              r.eventID in TableOf(t, kind) || exists i :: 0 <= i < |dvs| && r in SavedOf(d, dvs[i], kind)
  {
    forall r
      ensures r in AllSavedOf(d, dvs, kind) <==> exists i :: 0 <= i < |dvs| && r in SavedOf(d, dvs[i], kind)
    {
      SavedBySome(d, dvs, kind, r);
    }
    DeliveriesTable(d, t, dvs, kind);
    RowsUnique(d, LogsOf(dvs), kind);
    forall r | r in AllSavedOf(d, dvs, kind)
      ensures r in RowsOf(d, LogsOf(dvs), kind)
    {
      SavedAreDelivered(d, dvs, kind, r);
    }
    PartialInsert(TableOf(t, kind), AllSavedOf(d, dvs, kind), RowsOf(d, LogsOf(dvs), kind));
  }

  /** Delivering a batch again changes nothing, with or without unique logs. */
  lemma {:induction false} RedeliveryChangesNothing(d: Decoder, t: Tables, logs: seq<Log>)
    ensures AfterBatch(d, AfterBatch(d, t, logs), logs) == AfterBatch(d, t, logs)
  {
    InsertTwice(t.tokenSents, RowsOf(d, logs, TokenSent));
    InsertTwice(t.contractCalls, RowsOf(d, logs, ContractCall));
  }

  lemma {:induction false} InsertKnown(t: Table, rows: seq<Row>)
    requires forall r :: r in rows ==> r.eventID in t
    ensures InsertRows(t, rows) == t
    decreases |rows|
  {
    if rows == [] {
    } else {
      assert rows[|rows| - 1] in rows;
      InsertKnown(t, rows[..|rows| - 1]);
    }
  }

  lemma {:induction false} InsertTwice(t: Table, rows: seq<Row>)
    ensures InsertRows(InsertRows(t, rows), rows) == InsertRows(t, rows)
  {
    forall r | r in rows
      ensures r.eventID in InsertRows(t, rows)
    {
      InsertedRows(t, rows, EventKey, r.eventID);
      assert EventKey(r) == r.eventID;
    }
    InsertKnown(InsertRows(t, rows), rows);
  }
}
