/**
 * Indexing one block and whole runs of blocks (pkg/btc/btcnode.go, pkg/btc/db.go): check for a reorg near the
 * tip, insert the header if its height is free, insert the vault transactions in chunks.
 */
module BlockIndexer {
  import opened Basics
  import opened Reorg
  import opened InsertIfAbsent

  const FINAL_CONFIRMATIONS: nat := 12
  const VAULT_CHUNK: nat := 1000

  /**
   * A fetched block. `prevHash` is absent if the header cannot be rebuilt; `hashDecodes` tells whether the
   * reported hash is well formed; `rebuiltHash` is the hash of the rebuilt header, the one that is stored.
   */
  datatype Block = Block(height: int, prevHash: Option<Hash>, hashDecodes: bool, rebuiltHash: Hash, vaultTxs: seq<VaultTx>)

  /** What goes wrong in the database while one block is indexed. */
  datatype Faults = Faults(unreadable: set<int>, delete: DeleteFault, headerLost: bool, refusedChunk: Option<nat>)

  const NO_FAULTS: Faults := Faults({}, NoFault, false, None)

  predicate NearTip(b: Block, tip: u64) {
    b.height > AsInt64(tip) - FINAL_CONFIRMATIONS
  }

  predicate Skipped(b: Block, tip: u64) {
    b.prevHash.None? || (NearTip(b, tip) && !b.hashDecodes)
  }

  function VaultRowKey(tx: VaultTx): VaultKey {
    (tx.chain, tx.txHash)
  }

  /** ON CONFLICT (chain, tx_hash) DO NOTHING, row by row. */
  function InsertVaults(vaults: map<VaultKey, VaultTx>, txs: seq<VaultTx>): map<VaultKey, VaultTx> {
    InsertAbsent(vaults, txs, VaultRowKey)
  }

  function InsertHeader(headers: map<int, Header>, height: int, h: Header): map<int, Header> {
    if height in headers then headers else headers[height := h]
  }

  /** The transactions that reach the table: those before the first refused chunk. */
  function StoredTxs(txs: seq<VaultTx>, refused: Option<nat>): seq<VaultTx> {
    if refused.Some? then txs[..Min(|txs|, refused.value * VAULT_CHUNK)] else txs
  }

  /** The handler's outcome; a block that is final already is not checked, like the genesis block. */
  function OutcomeOf(s: Store, b: Block, tip: u64, f: Faults): Outcome
    requires !Skipped(b, tip)
  {
    if NearTip(b, tip) then Detect(s.headers, f.unreadable, b.height, b.prevHash.value) else Genesis
  }

  /** The tables between the reorg check and the inserts. */
  function Checked(s: Store, b: Block, tip: u64, f: Faults): Store
    requires !Skipped(b, tip)
  {
    AfterReorg(s, OutcomeOf(s, b, tip, f), f.delete)
  }

  function IndexStep(s: Store, b: Block, tip: u64, f: Faults): Store {
    if Skipped(b, tip) then s else
      var s1 := Checked(s, b, tip, f);
      Store(if f.headerLost then s1.headers else InsertHeader(s1.headers, b.height, Header(b.rebuiltHash, b.prevHash.value)),
            InsertVaults(s1.vaults, StoredTxs(b.vaultTxs, f.refusedChunk)))
  }

  // ---------------------------------------------------------------------------------------------
  // The code

  /** The chunk loop stores every transaction, or those before the first refused chunk. */
  method StoreVaultTransactions(db: Database, txs: seq<VaultTx>, refused: Option<nat>) returns (ok: bool)
    modifies db
    ensures db.headers == old(db.headers)
    ensures db.vaults == InsertVaults(old(db.vaults), StoredTxs(txs, refused))
    ensures ok <==> refused.None? || |txs| <= refused.value * VAULT_CHUNK
  {
    if |txs| == 0 {
      return true;
    }
    var i, chunks := 0, 0;
    while i < |txs|
      invariant db.headers == old(db.headers)
      invariant i == chunks * VAULT_CHUNK && (refused.Some? ==> chunks <= refused.value)
      invariant db.vaults == InsertVaults(old(db.vaults), txs[..Min(i, |txs|)])
    {
      var end := i + VAULT_CHUNK;
      if end > |txs| {
        end := |txs|;
      }
      var chunk := txs[i..end];
      if refused == Some(chunks) {
        return false;
      }
      assert txs[..end] == txs[..i] + chunk;
      InsertConcat(old(db.vaults), txs[..i], chunk, VaultRowKey);
      db.vaults := InsertVaults(db.vaults, chunk);
      i, chunks := i + VAULT_CHUNK, chunks + 1;
    }
    assert txs[..|txs|] == txs;
    return true;
  }

  /** Indexing a block; every failure past the first checks is logged and ignored. */
  method IndexBlock(db: Database, b: Block, tip: u64, f: Faults)
    modifies db
    ensures db.Contents() == IndexStep(old(db.Contents()), b, tip, f)
  {
    if b.prevHash.None? {
      return;
    }
    if b.height > AsInt64(tip) - FINAL_CONFIRMATIONS {
      if !b.hashDecodes {
        return;
      }
      var _ := db.DetectAndHandleReorg(b.height, b.prevHash.value, f.unreadable, f.delete);
    }
    if !f.headerLost {
      db.headers := InsertHeader(db.headers, b.height, Header(b.rebuiltHash, b.prevHash.value));
    }
    var _ := StoreVaultTransactions(db, b.vaultTxs, f.refusedChunk);
  }

  // ---------------------------------------------------------------------------------------------
  // What one block leaves in the tables

  /** A checked block whose predecessor is stored, but not directly below it: its greatest anchor is `fork`. */
  ghost predicate RollsBackTo(s: Store, b: Block, tip: u64, f: Faults, fork: int) {
    && b.prevHash.Some? && b.hashDecodes && b.height > AsInt64(tip) - 12 && b.height > 0
    && Readable(s.headers, f.unreadable, b.height - 1) && s.headers[b.height - 1].hash != b.prevHash.value
    && GreatestAnchor(s.headers, f.unreadable, b.height - 1, b.prevHash.value, fork)
  }

  lemma {:induction false} OutcomeOnRealHeights(s: Store, b: Block, tip: u64, f: Faults)
    requires NoNegative(s.headers) && 0 <= b.height && !Skipped(b, tip)
    ensures var o := OutcomeOf(s, b, tip, f);
      && o != FellBack
      && (o.ForkAt? ==> 0 <= o.height < b.height - 1)
      && forall fork :: RollsBackTo(s, b, tip, f, fork) <==> o == ForkAt(fork)
  {
    DetectMeaning(s.headers, f.unreadable, b.height, b.prevHash.value);
    var o := OutcomeOf(s, b, tip, f);
    forall fork | RollsBackTo(s, b, tip, f, fork)
      ensures o == ForkAt(fork)
    {
      assert HasAnchor(s.headers, f.unreadable, b.height - 1, b.prevHash.value);
    }
  }

  /**
   * The header table after one block, height by height, with any faults: rows above the fork go in a rollback that
   * does not fail, the block's own header is added if it is complete and its height is free, and all else stays.
   */
  lemma {:induction false} HeadersAfter(s: Store, b: Block, tip: u64, f: Faults, h: int)
    requires NoNegative(s.headers) && 0 <= b.height
    ensures var s' := IndexStep(s, b, tip, f);
      var removed := f.delete == NoFault && exists fork :: RollsBackTo(s, b, tip, f, fork) && h > fork;
      var kept := h in s.headers && !removed;
      var added := h == b.height && b.prevHash.Some? && (b.hashDecodes || b.height <= AsInt64(tip) - 12) && !f.headerLost;
      && (h in s'.headers <==> kept || added)
      && (kept ==> h in s'.headers && s'.headers[h] == s.headers[h])
      && (added && !kept ==> h in s'.headers && s'.headers[h] == Header(b.rebuiltHash, b.prevHash.value))
  {
    if !Skipped(b, tip) {
      OutcomeOnRealHeights(s, b, tip, f);
    }
  }

  lemma {:induction false} RolledBackVaults(s: Store, b: Block, tip: u64, f: Faults, k: VaultKey)
    requires NoNegative(s.headers) && 0 <= b.height < TWO_63 && !Skipped(b, tip)
    ensures var vaults := Checked(s, b, tip, f).vaults;
      var removed := f.delete != AtVaults && k in s.vaults
                     && exists fork :: RollsBackTo(s, b, tip, f, fork) && s.vaults[k].blockNumber > fork;
      && (k in vaults <==> k in s.vaults && !removed)
      && (k in vaults ==> vaults[k] == s.vaults[k])
  {
    OutcomeOnRealHeights(s, b, tip, f);
  }

  /**
   * The vault table after one block, key by key: rows above the fork go in a rollback, and of the block's
   * transactions -- all of them, or the first 1000 for each chunk before the refused one -- the first with a free key is stored.
   */
  lemma {:induction false} VaultRowsAfter(s: Store, b: Block, tip: u64, f: Faults, k: VaultKey)
    requires NoNegative(s.headers) && 0 <= b.height < TWO_63
    ensures var s' := IndexStep(s, b, tip, f);
      var removed := f.delete != AtVaults && k in s.vaults
                     && exists fork :: RollsBackTo(s, b, tip, f, fork) && s.vaults[k].blockNumber > fork;
      var kept := k in s.vaults && !removed;
      var txs := if b.prevHash.None? || (!b.hashDecodes && b.height > AsInt64(tip) - 12) then []
                 else if f.refusedChunk.Some? then b.vaultTxs[..Min(|b.vaultTxs|, 1000 * f.refusedChunk.value)] else b.vaultTxs;
      && (k in s'.vaults <==> kept || exists i :: 0 <= i < |txs| && (txs[i].chain, txs[i].txHash) == k)
      && (kept ==> k in s'.vaults && s'.vaults[k] == s.vaults[k])
      && forall i :: 0 <= i < |txs| && (txs[i].chain, txs[i].txHash) == k ==>
           kept || (exists j :: 0 <= j < i && (txs[j].chain, txs[j].txHash) == k) || (k in s'.vaults && s'.vaults[k] == txs[i])
  {
    if !Skipped(b, tip) {
      RolledBackVaults(s, b, tip, f, k);
      StoredVaults(Checked(s, b, tip, f).vaults, StoredTxs(b.vaultTxs, f.refusedChunk), k);
    }
  }

  lemma {:induction false} StoredVaults(vaults: map<VaultKey, VaultTx>, txs: seq<VaultTx>, k: VaultKey)
    ensures k in InsertVaults(vaults, txs) <==> k in vaults || exists i :: 0 <= i < |txs| && (txs[i].chain, txs[i].txHash) == k
    ensures k in vaults ==> k in InsertVaults(vaults, txs) && InsertVaults(vaults, txs)[k] == vaults[k]
    ensures forall i :: 0 <= i < |txs| && (txs[i].chain, txs[i].txHash) == k ==>
      k in vaults || (exists j :: 0 <= j < i && (txs[j].chain, txs[j].txHash) == k)
      || (k in InsertVaults(vaults, txs) && InsertVaults(vaults, txs)[k] == txs[i])
  {
    StoredByKey(vaults, txs, VaultRowKey, k);
    assert forall tx :: VaultRowKey(tx) == (tx.chain, tx.txHash);
  }

  // ---------------------------------------------------------------------------------------------
  // Linkage

  predicate LinkedAt(headers: map<int, Header>, h: int) {
    h in headers && h - 1 in headers ==> headers[h].prevHash == headers[h - 1].hash
  }

  /** Headers at adjacent heights are hash-linked. */
  ghost predicate Linked(headers: map<int, Header>) {
    forall h :: LinkedAt(headers, h)
  }

  /** Exactly when an insert keeps the table linked. */
  lemma {:induction false} InsertLinks(headers: map<int, Header>, height: int, h: Header)
    requires Linked(headers) && height !in headers
    ensures Linked(headers[height := h]) <==>
      && (height - 1 in headers ==> h.prevHash == headers[height - 1].hash)
      && (height + 1 in headers ==> headers[height + 1].prevHash == h.hash)
  {
    var after := headers[height := h];
    if Linked(after) {
      assert LinkedAt(after, height) && LinkedAt(after, height + 1);
    }
    forall k | k != height && k != height + 1
      ensures LinkedAt(after, k)
    {
      assert LinkedAt(headers, k);
    }
  }

  lemma {:induction false} ReorgLinks(s: Store, o: Outcome, fault: DeleteFault)
    requires Linked(s.headers)
    ensures Linked(AfterReorg(s, o, fault).headers)
  {
    forall h
      ensures LinkedAt(AfterReorg(s, o, fault).headers, h)
    {
      assert LinkedAt(s.headers, h);
    }
  }

  /** The new header agrees with whatever is stored just below and just above it. */
  predicate FitsNeighbours(headers: map<int, Header>, height: int, h: Header) {
    && (height - 1 in headers ==> h.prevHash == headers[height - 1].hash)
    && (height + 1 in headers ==> headers[height + 1].prevHash == h.hash)
  }

  /** What can be said of the table before the block is indexed. */
  ghost predicate KeepsLinks(s: Store, b: Block, tip: u64, f: Faults) {
    || Skipped(b, tip) || f.headerLost || b.height in s.headers
    || (f.delete == NoFault && exists fork :: RollsBackTo(s, b, tip, f, fork))
    || FitsNeighbours(s.headers, b.height, Header(b.rebuiltHash, b.prevHash.value))
  }

  /**
   * One block, in any order of arrival, checked or not, with any database faults: a linked table stays linked if and
   * only if the block is skipped, its header is not stored or its height is taken, it rolls the table back, or its
   * header fits its neighbours.
   */
  lemma {:induction false} StepKeepsLinks(s: Store, b: Block, tip: u64, f: Faults)
    requires Linked(s.headers) && NoNegative(s.headers) && 0 <= b.height < TWO_63
    ensures var s' := IndexStep(s, b, tip, f);
      && (Linked(s'.headers) <==> KeepsLinks(s, b, tip, f))
      && NoNegative(s'.headers)
  {
    if !Skipped(b, tip) {
      var s1 := Checked(s, b, tip, f);
      OutcomeOnRealHeights(s, b, tip, f);
      ReorgLinks(s, OutcomeOf(s, b, tip, f), f.delete);
      if b.height !in s1.headers {
        InsertLinks(s1.headers, b.height, Header(b.rebuiltHash, b.prevHash.value));
      }
    }
  }

  /** One step of a run. */
  datatype Event = Event(block: Block, tip: u64, faults: Faults)

  function IndexEvent(s: Store, e: Event): Store {
    IndexStep(s, e.block, e.tip, e.faults)
  }

  function IndexRun(s: Store, events: seq<Event>): Store
    decreases |events|
  {
    if events == [] then s else IndexRun(IndexEvent(s, events[0]), events[1..])
  }

  predicate RealHeights(events: seq<Event>) {
    forall e :: e in events ==> 0 <= e.block.height < TWO_63
  }

  /** The table is linked before and after every block of the run. */
  ghost predicate LinkedThroughout(s: Store, events: seq<Event>)
    decreases |events|
  {
    Linked(s.headers) && (events == [] || LinkedThroughout(IndexEvent(s, events[0]), events[1..]))
  }

  ghost predicate EachKeepsLinks(s: Store, events: seq<Event>)
    decreases |events|
  {
    events == [] ||
    (KeepsLinks(s, events[0].block, events[0].tip, events[0].faults) && EachKeepsLinks(IndexEvent(s, events[0]), events[1..]))
  }

  /** Over every run, in any order of arrival and with any faults: linked throughout exactly if each block keeps the links. */
  lemma {:induction false} RunKeepsLinks(s: Store, events: seq<Event>)
    requires Linked(s.headers) && NoNegative(s.headers) && RealHeights(events)
    ensures LinkedThroughout(s, events) <==> EachKeepsLinks(s, events)
    ensures EachKeepsLinks(s, events) ==> Linked(IndexRun(s, events).headers)
    decreases |events|
  {
    if events == [] {
    } else {
      var e := events[0];
      assert e in events;
      StepKeepsLinks(s, e.block, e.tip, e.faults);
      if KeepsLinks(s, e.block, e.tip, e.faults) {
        RunKeepsLinks(IndexEvent(s, e), events[1..]);
      }
    }
  }

  /** The block's predecessor height is stored, but no readable row at or below it is its predecessor. */
  ghost predicate WalkBackFails(s: Store, b: Block) {
    && b.prevHash.Some? && b.height - 1 in s.headers
    && !HasAnchor(s.headers, {}, b.height - 1, b.prevHash.value)
  }

  ghost predicate AllBelow(headers: map<int, Header>, height: int) {
    forall h :: h in headers ==> h < height
  }

  /** Blocks that arrive in increasing height, each checked and without faults. */
  ghost predicate InOrder(s: Store, events: seq<Event>) {
    && (forall i, j :: 0 <= i < j < |events| ==> events[i].block.height < events[j].block.height)
    && (forall e :: e in events ==> NearTip(e.block, e.tip) && !Skipped(e.block, e.tip) && e.faults == NO_FAULTS)
    && (events != [] ==> AllBelow(s.headers, events[0].block.height))
  }

  ghost predicate NoFailedWalk(s: Store, events: seq<Event>)
    decreases |events|
  {
    events == [] || (!WalkBackFails(s, events[0].block) && NoFailedWalk(IndexEvent(s, events[0]), events[1..]))
  }

  lemma {:induction false} InOrderStep(s: Store, events: seq<Event>)
    requires NoNegative(s.headers) && RealHeights(events) && InOrder(s, events) && events != []
    ensures KeepsLinks(s, events[0].block, events[0].tip, events[0].faults) <==> !WalkBackFails(s, events[0].block)
    ensures InOrder(IndexEvent(s, events[0]), events[1..])
  {
    var e := events[0];
    assert e in events;
    OutcomeOnRealHeights(s, e.block, e.tip, e.faults);
    DetectMeaning(s.headers, {}, e.block.height, e.block.prevHash.value);
    if |events| > 1 {
      assert events[1..][0] == events[1] && e.block.height < events[1].block.height;
    }
  }

  /** For blocks that arrive in order, the table is linked throughout if and only if no walk back fails. */
  lemma {:induction false} InOrderRunLinked(s: Store, events: seq<Event>)
    requires Linked(s.headers) && NoNegative(s.headers) && RealHeights(events) && InOrder(s, events)
    ensures LinkedThroughout(s, events) <==> NoFailedWalk(s, events)
    decreases |events|
  {
    if events == [] {
    } else {
      var e := events[0];
      assert e in events;
      InOrderStep(s, events);
      StepKeepsLinks(s, e.block, e.tip, e.faults);
      if !WalkBackFails(s, e.block) {
        InOrderRunLinked(IndexEvent(s, e), events[1..]);
      }
    }
  }

  /**
   * Out of order the links can break without any fault or failed walk back: with block 5 stored first, block 4 is
   * inserted below it whatever its hash.
   */
  lemma {:induction false} OutOfOrderUnlinks()
    ensures var empty := Store(map[], map[]);
      var b5, b4 := Block(5, Some([1]), true, [2], []), Block(4, Some([3]), true, [9], []);
      var s1 := IndexStep(empty, b5, 5, NO_FAULTS);
      && !WalkBackFails(empty, b5) && !WalkBackFails(s1, b4)
      && Linked(s1.headers) && !Linked(IndexStep(s1, b4, 5, NO_FAULTS).headers)
  {
    var empty := Store(map[], map[]);
    var b5, b4 := Block(5, Some([1]), true, [2], []), Block(4, Some([3]), true, [9], []);
    assert !Readable(empty.headers, {}, 4);
    var s1 := IndexStep(empty, b5, 5, NO_FAULTS);
    assert s1.headers == map[5 := Header([2], [1])];
    var s2 := IndexStep(s1, b4, 5, NO_FAULTS);
    assert s2.headers == map[5 := Header([2], [1]), 4 := Header([9], [3])];
    assert !LinkedAt(s2.headers, 5);
  }

  // ---------------------------------------------------------------------------------------------
  // Rows change only by rollback

  /** A run takes one block after the other. */
  lemma {:induction false} RunAppends(s: Store, events: seq<Event>, e: Event)
    ensures IndexRun(s, events + [e]) == IndexStep(IndexRun(s, events), e.block, e.tip, e.faults)
    decreases |events|
  {
    if events == [] {
      assert [e][1..] == [];
    } else {
      RunAppends(IndexEvent(s, events[0]), events[1..], e);
      assert (events + [e])[1..] == events[1..] + [e];
    }
  }

  /** Indexing `e` deletes the header at height `h`. */
  predicate RollbackCovers(s: Store, e: Event, h: int) {
    && !Skipped(e.block, e.tip) && e.faults.delete == NoFault
    && var o := OutcomeOf(s, e.block, e.tip, e.faults);
       (o.ForkAt? && h > o.height) || (o.FellBack? && h > 0)
  }

  /** Indexing `e` deletes the vault rows of block number `n`, which does not need the header delete to succeed. */
  predicate RollbackCoversVaults(s: Store, e: Event, n: nat) {
    && !Skipped(e.block, e.tip) && e.faults.delete != AtVaults
    && var o := OutcomeOf(s, e.block, e.tip, e.faults);
       (o.ForkAt? && n >= AsUint64(o.height + 1)) || (o.FellBack? && n > 0)
  }

  /** The state before event `i`, seen from after the first event. */
  lemma {:induction false} RunFromSecond(s: Store, events: seq<Event>, i: nat)
    requires i + 1 < |events|
    ensures IndexRun(IndexEvent(s, events[0]), events[1..][..i]) == IndexRun(s, events[..i + 1])
    ensures events[1..][i] == events[i + 1]
  {
    assert events[..i + 1][1..] == events[1..][..i];
  }

  /** Over every run with any faults, a stored header keeps its value until some rollback covers its height. */
  lemma {:induction false} HeadersAreStable(s: Store, events: seq<Event>, h: int)
    requires h in s.headers
    requires forall i :: 0 <= i < |events| ==> !RollbackCovers(IndexRun(s, events[..i]), events[i], h)
    ensures h in IndexRun(s, events).headers && IndexRun(s, events).headers[h] == s.headers[h]
    decreases |events|
  {
    if events == [] {
    } else {
      assert IndexRun(s, events[..0]) == s;
      forall i | 0 <= i < |events[1..]|
        ensures !RollbackCovers(IndexRun(IndexEvent(s, events[0]), events[1..][..i]), events[1..][i], h)
      {
        RunFromSecond(s, events, i);
      }
      HeadersAreStable(IndexEvent(s, events[0]), events[1..], h);
    }
  }

  /** And a rollback that covers it does remove it: afterwards only the new block's own height can be stored there. */
  lemma {:induction false} RollbackRemoves(s: Store, e: Event, h: int)
    requires RollbackCovers(s, e, h) && h != e.block.height
    ensures h !in IndexStep(s, e.block, e.tip, e.faults).headers
  {
  }

  lemma {:induction false} VaultRowStays(s: Store, e: Event, k: VaultKey)
    requires k in s.vaults && !RollbackCoversVaults(s, e, s.vaults[k].blockNumber)
    ensures k in IndexEvent(s, e).vaults && IndexEvent(s, e).vaults[k] == s.vaults[k]
  {
    if !Skipped(e.block, e.tip) {
      var s1 := Checked(s, e.block, e.tip, e.faults);
      InsertedRows(s1.vaults, StoredTxs(e.block.vaultTxs, e.faults.refusedChunk), VaultRowKey, k);
    }
  }

  /** A stored vault row keeps its value, whatever blocks bring its transaction again, until a rollback covers it. */
  lemma {:induction false} VaultRowsAreStable(s: Store, events: seq<Event>, k: VaultKey)
    requires k in s.vaults
    requires forall i :: 0 <= i < |events| ==>
      !RollbackCoversVaults(IndexRun(s, events[..i]), events[i], s.vaults[k].blockNumber)
    ensures k in IndexRun(s, events).vaults && IndexRun(s, events).vaults[k] == s.vaults[k]
    decreases |events|
  {
    if events == [] {
    } else {
      assert IndexRun(s, events[..0]) == s;
      VaultRowStays(s, events[0], k);
      forall i | 0 <= i < |events[1..]|
        ensures !RollbackCoversVaults(IndexRun(IndexEvent(s, events[0]), events[1..][..i]), events[1..][i], s.vaults[k].blockNumber)
      {
        RunFromSecond(s, events, i);
      }
      VaultRowsAreStable(IndexEvent(s, events[0]), events[1..], k);
    }
  }

  /** And a rollback that covers it removes it, unless the new block brings its transaction again. */
  lemma {:induction false} VaultRollbackRemoves(s: Store, e: Event, k: VaultKey)
    requires k in s.vaults && RollbackCoversVaults(s, e, s.vaults[k].blockNumber)
    requires forall tx :: tx in e.block.vaultTxs ==> (tx.chain, tx.txHash) != k
    ensures k !in IndexStep(s, e.block, e.tip, e.faults).vaults
  {
    var s1 := Checked(s, e.block, e.tip, e.faults);
    InsertedRows(s1.vaults, StoredTxs(e.block.vaultTxs, e.faults.refusedChunk), VaultRowKey, k);
  }

  // ---------------------------------------------------------------------------------------------
  // Every vault row has a header

  ghost predicate Referential(s: Store) {
    forall k :: k in s.vaults ==> s.vaults[k].blockNumber in s.headers
  }

  /** The rows a block brings carry its own height. */
  predicate OwnHeight(b: Block) {
    0 <= b.height < TWO_63 && forall i :: 0 <= i < |b.vaultTxs| ==> b.vaultTxs[i].blockNumber == AsUint64(b.height)
  }

  /** A rollback keeps the invariant even when it stops between its two deletes. */
  lemma {:induction false} RollbackReferential(s: Store, height: int, fault: DeleteFault)
    requires Referential(s) && 0 <= height < TWO_64
    ensures Referential(DeleteFrom(s, height, fault))
  {
    var s' := DeleteFrom(s, height, fault);
    forall k | k in s'.vaults
      ensures s'.vaults[k].blockNumber in s'.headers
    {
      assert s.vaults[k].blockNumber in s.headers;
    }
  }

  lemma {:induction false} CheckedReferential(s: Store, b: Block, tip: u64, f: Faults)
    requires Referential(s) && NoNegative(s.headers) && OwnHeight(b) && !Skipped(b, tip)
    ensures Referential(Checked(s, b, tip, f))
  {
    var o := OutcomeOf(s, b, tip, f);
    if o.ForkAt? {
      DetectMeaning(s.headers, f.unreadable, b.height, b.prevHash.value);
      RollbackReferential(s, o.height + 1, f.delete);
    } else if o.FellBack? {
      RollbackReferential(s, 1, f.delete);
    }
  }

  /**
   * The invariant survives indexing a block with any database faults exactly when the header is there in the
   * end -- which a header insert that does not fail ensures -- or no new vault row was stored.
   */
  lemma {:induction false} StepReferential(s: Store, b: Block, tip: u64, f: Faults)
    requires Referential(s) && NoNegative(s.headers) && OwnHeight(b) && !Skipped(b, tip)
    ensures var s1 := Checked(s, b, tip, f);
            var s' := IndexStep(s, b, tip, f);
      && (Referential(s') <==>
            || !f.headerLost
            || b.height in s1.headers
            || forall tx :: tx in StoredTxs(b.vaultTxs, f.refusedChunk) ==> (tx.chain, tx.txHash) in s1.vaults)
      && NoNegative(s'.headers)
  {
    var s1 := Checked(s, b, tip, f);
    var s' := IndexStep(s, b, tip, f);
    var txs := StoredTxs(b.vaultTxs, f.refusedChunk);
    CheckedReferential(s, b, tip, f);
    assert s1.headers.Keys <= s'.headers.Keys;
    forall k | k in s'.vaults
      ensures if k in s1.vaults then s'.vaults[k].blockNumber in s'.headers else s'.vaults[k].blockNumber == b.height
    {
      InsertedRows(s1.vaults, txs, VaultRowKey, k);
    }
    if tx :| tx in txs && (tx.chain, tx.txHash) !in s1.vaults {
      InsertedRows(s1.vaults, txs, VaultRowKey, (tx.chain, tx.txHash));
    } else {
      forall k | k in s'.vaults
        ensures k in s1.vaults
      {
        InsertedRows(s1.vaults, txs, VaultRowKey, k);
      }
    }
  }

  /** Over every run whose header inserts do not fail, whatever else fails, every vault row has a header. */
  lemma {:induction false} RunStaysReferential(s: Store, events: seq<Event>)
    requires Referential(s) && NoNegative(s.headers)
    requires forall e :: e in events ==> OwnHeight(e.block) && !e.faults.headerLost
    ensures Referential(IndexRun(s, events))
    decreases |events|
  {
    if events == [] {
    } else {
      var e := events[0];
      assert e in events;
      if !Skipped(e.block, e.tip) {
        StepReferential(s, e.block, e.tip, e.faults);
      }
      RunStaysReferential(IndexEvent(s, e), events[1..]);
    }
  }
}
