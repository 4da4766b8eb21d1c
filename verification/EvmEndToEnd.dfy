/**
 * From chain to tables: what the fetching protocol and the event processor guarantee together
 * (pkg/evm/client.go, pkg/evm/fetcher.go, pkg/evm/processing.go).
 */
module EvmEndToEnd {
  import opened Basics
  import opened Text
  import opened Intervals
  import opened LogFetcher
  import opened FetchProtocol
  import opened Chunking
  import opened EventTables

  /** The logs of every block of the chain, in order. */
  type Chain = int -> seq<Log>

  /** What the node answers for an interval. */
  function LogsIn(chain: Chain, r: Range): seq<Log>
    decreases r.hi - r.lo
  {
    if r.hi < r.lo then [] else LogsIn(chain, Range(r.lo, r.hi - 1)) + chain(r.hi)
  }

  ghost predicate HasLog(chain: Chain, blocks: set<int>, l: Log) {
    exists b :: b in blocks && l in chain(b)
  }

  lemma {:induction false} LogsOfInterval(chain: Chain, r: Range, l: Log)
    ensures l in LogsIn(chain, r) <==> HasLog(chain, Blocks(r), l)
    decreases r.hi - r.lo
  {
    if r.hi < r.lo {
      assert Blocks(r) == {};
    } else {
      var init := Range(r.lo, r.hi - 1);
      LogsOfInterval(chain, init, l);
      assert forall b :: b in Blocks(r) <==> b in Blocks(init) || b == r.hi;
      if l in chain(r.hi) {
        assert r.hi in Blocks(r);
      }
      if HasLog(chain, Blocks(init), l) {
        var b :| b in Blocks(init) && l in chain(b);
        assert b in Blocks(r);
      }
    }
  }

  /** The node answers with the chain's logs: a loop sends a batch exactly if its interval has logs. */
  predicate StepAnswersChain(chain: Chain, s: State, a: Action) {
    a.Send? && CallOf(s, a.who).Call? ==> (a.anyLogs <==> LogsIn(chain, CallOf(s, a.who).got) != [])
  }

  predicate AnswersChain(chain: Chain, s: State, run: seq<Action>)
    decreases |run|
  {
    run == [] || (StepAnswersChain(chain, s, run[0]) && (Enabled(s, run[0]) ==> AnswersChain(chain, Apply(s, run[0]), run[1..])))
  }

  /** The batch the processor handles in this step, if any. */
  function Handled(chain: Chain, s: State, a: Action): seq<seq<Log>>
    requires Enabled(s, a)
  {
    if a == Process(true) then [LogsIn(chain, s.channel[0])] else []
  }

  /** The batches the processor handles along a run. */
  function Batches(chain: Chain, s: State, run: seq<Action>): seq<seq<Log>>
    decreases |run|
  {
    if run == [] || !Enabled(s, run[0]) then []
    else Handled(chain, s, run[0]) + Batches(chain, Apply(s, run[0]), run[1..])
  }

  lemma {:induction false} ConcatSplits<T>(a: seq<seq<T>>, b: seq<seq<T>>)
    ensures Concat(a + b) == Concat(a) + Concat(b)
    decreases |b|
  {
    if b == [] {
      assert a + b == a;
    } else {
      var init, last := b[..|b| - 1], b[|b| - 1];
      assert (a + b)[..|a + b| - 1] == a + init && (a + b)[|a + b| - 1] == last;
      ConcatSplits(a, init);
      assert (Concat(a) + Concat(init)) + last == Concat(a) + (Concat(init) + last);
    }
  }

  /** One step: what it newly saves is what the processor handles in it. */
  lemma {:induction false} StepSavesBatch(chain: Chain, s: State, a: Action, l: Log)
    requires Enabled(s, a) && StepAnswersChain(chain, s, a)
    ensures HasLog(chain, Apply(s, a).saved, l) <==> HasLog(chain, s.saved, l) || l in Concat(Handled(chain, s, a))
  {
    var s' := Apply(s, a);
    if a == Process(true) {
      var q := s.channel[0];
      LogsOfInterval(chain, q, l);
      OneBatch(LogsIn(chain, q));
      UnionHasLog(chain, s.saved, Blocks(q), l);
    } else if a.Send? && !a.anyLogs {
      var q := CallOf(s, a.who).got;
      LogsOfInterval(chain, q, l);
      UnionHasLog(chain, s.saved, Blocks(q), l);
    } else {
      assert s'.saved == s.saved;
    }
  }

  lemma {:induction false} OneBatch<T>(batch: seq<T>)
    ensures Concat([batch]) == batch
  {
    assert [batch][..0] == [];
  }

  lemma {:induction false} UnionHasLog(chain: Chain, a: set<int>, b: set<int>, l: Log)
    ensures HasLog(chain, a + b, l) <==> HasLog(chain, a, l) || HasLog(chain, b, l)
  {
    if HasLog(chain, a, l) {
      var k :| k in a && l in chain(k);
      assert k in a + b;
    }
    if HasLog(chain, b, l) {
      var k :| k in b && l in chain(k);
      assert k in a + b;
    }
  }

  lemma {:induction false} RunSavesBatches(chain: Chain, s: State, run: seq<Action>, s': State, l: Log)
    requires Execution(s, run, s') && AnswersChain(chain, s, run)
    ensures HasLog(chain, s'.saved, l) <==> HasLog(chain, s.saved, l) || l in Concat(Batches(chain, s, run))
    decreases |run|
  {
    if run == [] {
    } else {
      var s1 := Apply(s, run[0]);
      StepSavesBatch(chain, s, run[0], l);
      RunSavesBatches(chain, s1, run[1..], s', l);
      ConcatSplits(Handled(chain, s, run[0]), Batches(chain, s1, run[1..]));
    }
  }

  const EMPTY: Tables := Tables(map[], map[])

  /** The tables after a run on a fresh database: every handled batch inserted in turn. */
  function TablesAfter(d: Decoder, chain: Chain, s: State, run: seq<Action>): Tables {
    AfterHistory(d, EMPTY, Batches(chain, s, run))
  }

  /** `all` lists the logs of the given blocks, each at least once. */
  ghost predicate Lists(chain: Chain, blocks: set<int>, all: seq<Log>) {
    forall l :: l in all <==> HasLog(chain, blocks, l)
  }

  /**
   * With any interleaving, own queries or a shared one, and stops at any step: the tables are those of one batch that
   * holds all logs of the saved blocks. A batch whose save fails counts as not handled.
   */
  lemma {:induction false} TablesOfSavedBlocks(d: Decoder, chain: Chain, shared: bool, startBlock: head,
                                               run: seq<Action>, s: State, all: seq<Log>)
    requires Execution(Initial(shared, startBlock), run, s) && AnswersChain(chain, Initial(shared, startBlock), run)
    requires Lists(chain, s.saved, all) && UniqueLogs(set l | l in all)
    ensures TablesAfter(d, chain, Initial(shared, startBlock), run) == AfterBatch(d, EMPTY, all)
  {
    var s0 := Initial(shared, startBlock);
    var history := Batches(chain, s0, run);
    forall l
      ensures l in Concat(history) <==> l in all
    {
      RunSavesBatches(chain, s0, run, s, l);
    }
    assert (set l | l in Concat(history)) == (set l | l in all);
    OneBatch(all);
    BatchingIndependence(d, EMPTY, history, [all]);
    HistoryIsOneBatch(d, EMPTY, [all]);
  }

  predicate Undisturbed(run: seq<Action>) {
    forall a :: a in run ==> !a.Stop? && a != Process(false)
  }

  /**
   * End to end: once the channel is empty after a run without a stop or a failed save, the tables are those of one
   * batch that holds all logs of all blocks the two loops have fetched.
   */
  lemma {:induction false} TablesOfFetchedBlocks(d: Decoder, chain: Chain, shared: bool, startBlock: head,
                                                 run: seq<Action>, s: State, all: seq<Log>)
    requires Execution(Initial(shared, startBlock), run, s) && AnswersChain(chain, Initial(shared, startBlock), run)
    requires Undisturbed(run) && s.channel == []
    requires Lists(chain, s.recovered + s.tailed, all) && UniqueLogs(set l | l in all)
    ensures TablesAfter(d, chain, Initial(shared, startBlock), run) == AfterBatch(d, EMPTY, all)
  {
    FetchedAreSaved(shared, startBlock, run, s);
    TablesOfSavedBlocks(d, chain, shared, startBlock, run, s, all);
  }

  lemma {:induction false} FetchedAreSaved(shared: bool, startBlock: head, run: seq<Action>, s: State)
    requires Execution(Initial(shared, startBlock), run, s) && Undisturbed(run) && s.channel == []
    ensures s.saved == s.recovered + s.tailed
  {
    LogsConserved(Initial(shared, startBlock), run, s);
    assert BlocksOf(s.channel) == {} && s.lost == {};
  }

  /** A transaction hash and log index name one log of the chain. */
  ghost predicate UniqueChain(chain: Chain) {
    forall b, c, l, m :: l in chain(b) && m in chain(c) && l.txHash == m.txHash && l.index == m.index ==> l == m
  }

  /**
   * So, when iterations on a shared query do not overlap: after an undisturbed run in which recovery has ended and
   * the channel has drained, every log of every block from max(StartBlock, 1) to before the realtime loop variable
   * has its row.
   */
  lemma {:induction false} EveryChainLogIsStored(d: Decoder, chain: Chain, shared: bool, startBlock: head,
                                                 run: seq<Action>, s: State, kind: Kind, b: int, l: Log, body: Bytes)
    requires Execution(Initial(shared, startBlock), run, s) && AnswersChain(chain, Initial(shared, startBlock), run)
    requires Serial(Initial(shared, startBlock), run) && Undisturbed(run) && UniqueChain(chain)
    requires s.channel == [] && s.realtime.Realtime? && s.recovery.NoCall?
    requires First(startBlock) <= b < s.realtime.from && l in chain(b)
    requires kind != OtherEvent && l.topic in d.events && d.events[l.topic] == kind && d.decode(kind, l) == Some(body)
    ensures var tables := TablesAfter(d, chain, Initial(shared, startBlock), run);
      var table := if kind.TokenSent? then tables.tokenSents else tables.contractCalls;
      var txHash := if kind.TokenSent? then Hex(l.txHash) else "0x" + Hex(l.txHash);
      var id := Hex(l.txHash) + "-" + Decimal(l.index);
      id in table && table[id] == Row(id, txHash, l.blockNumber, l.index, body)
  {
    var s0 := Initial(shared, startBlock);
    var history := Batches(chain, s0, run);
    RestartSafety(shared, startBlock, run, s);
    FetchedAreSaved(shared, startBlock, run, s);
    assert b in s.saved;
    RunSavesBatches(chain, s0, run, s, l);
    HandledAreUnique(chain, s0, run, s);
    EveryLogHasItsRow(d, history, kind, l, body);
  }

  lemma {:induction false} HandledAreUnique(chain: Chain, s: State, run: seq<Action>, s': State)
    requires Execution(s, run, s') && AnswersChain(chain, s, run) && UniqueChain(chain)
    ensures UniqueLogs(set l | l in Concat(Batches(chain, s, run)))
  {
    var logs := Concat(Batches(chain, s, run));
    forall l, m | l in logs && m in logs && l.txHash == m.txHash && l.index == m.index
      ensures l == m
    {
      RunSavesBatches(chain, s, run, s', l);
      RunSavesBatches(chain, s, run, s', m);
      var b :| b in s'.saved && l in chain(b);
      var c :| c in s'.saved && m in chain(c);
    }
  }

  // ---------------------------------------------------------------------------------------------
  // Such runs exist for every chain

  /** A run without stops and failed saves, whose iterations do not overlap on a shared query. */
  ghost predicate Orderly(chain: Chain, s: State, run: seq<Action>, s': State) {
    Execution(s, run, s') && Serial(s, run) && AnswersChain(chain, s, run) && Undisturbed(run)
  }

  lemma {:induction false} OrderlyThen(chain: Chain, s0: State, run: seq<Action>, s: State, a: Action)
    returns (run': seq<Action>, s': State)
    requires Orderly(chain, s0, run, s) && Enabled(s, a) && SerialStep(s, a) && StepAnswersChain(chain, s, a)
    requires !a.Stop? && a != Process(false)
    ensures s' == Apply(s, a) && Orderly(chain, s0, run', s') && run' == run + [a]
    decreases |run|
  {
    run', s' := run + [a], Apply(s, a);
    if run == [] {
      assert run' == [a] && [a][1..] == [];
    } else {
      assert forall b :: b in run[1..] ==> b in run;
      var tail, _ := OrderlyThen(chain, Apply(s0, run[0]), run[1..], s, a);
      assert run'[1..] == tail;
    }
  }

  /** A loop asks, is answered and sends its logs on; the processor takes them if there are any. */
  lemma {:induction false} OrderlyBatch(chain: Chain, s0: State, run: seq<Action>, s: State, who: Who)
    returns (run': seq<Action>, s': State)
    requires Orderly(chain, s0, run, s) && At(s, who, AtLoop) && CallOf(s, who).from <= CallOf(s, who).current
    requires s.channel == [] && CallOf(s, Other(who)).NoCall?
    ensures Orderly(chain, s0, run', s') && s'.channel == [] && At(s', who, Sent)
    ensures var c := CallOf(s, who);
      CallOf(s', who).from == c.from && CallOf(s', who).current == c.current
      && QueryOf(s', who) == QueryRange(c.from, c.range, c.current)
    ensures CallOf(s', Other(who)).NoCall? && s'.realtime == s.realtime
  {
    run', s' := OrderlyThen(chain, s0, run, s, Ask(who));
    run', s' := OrderlyThen(chain, s0, run', s', Answer(who));
    var any := LogsIn(chain, CallOf(s', who).got) != [];
    run', s' := OrderlyThen(chain, s0, run', s', Send(who, any));
    if any {
      run', s' := OrderlyThen(chain, s0, run', s', Process(true));
    }
  }

  /** With a range that reaches the current block one batch ends the activation. */
  lemma {:induction false} OrderlyPass(chain: Chain, s0: State, run: seq<Action>, s: State, who: Who)
    returns (run': seq<Action>, s': State)
    requires Orderly(chain, s0, run, s) && At(s, who, AtLoop) && CallOf(s, who).from <= CallOf(s, who).current
    requires s.channel == [] && CallOf(s, Other(who)).NoCall? && s.realtime.Realtime? && CallOf(s, who).range == TWO_63
    ensures Orderly(chain, s0, run', s') && s'.channel == [] && s'.recovery.NoCall? && s'.tail.NoCall?
    ensures who.Recovery? ==> s'.realtime == s.realtime
    ensures who.Tail? ==> s'.realtime.Realtime? && s'.realtime.from == s.realtime.current + 1
  {
    QueryReach(CallOf(s, who).from, TWO_63, CallOf(s, who).current);
    run', s' := OrderlyBatch(chain, s0, run, s, who);
    run', s' := OrderlyThen(chain, s0, run', s', if who.Recovery? then Store(false) else SkipStore);
    run', s' := OrderlyThen(chain, s0, run', s', Advance(who));
    run', s' := OrderlyThen(chain, s0, run', s', Return(who));
  }

  /** For every chain and head there is a run that meets what EveryChainLogIsStored asks for, up to that head. */
  lemma {:induction false} EveryChainCanBeStored(chain: Chain, shared: bool, startBlock: head, h: head)
    returns (run: seq<Action>, s: State)
    ensures Execution(Initial(shared, startBlock), run, s) && AnswersChain(chain, Initial(shared, startBlock), run)
    ensures Serial(Initial(shared, startBlock), run) && Undisturbed(run)
    ensures s.channel == [] && s.recovery.NoCall? && s.realtime.Realtime? && s.realtime.from == h + 1
  {
    var s0 := Initial(shared, startBlock);
    run, s := OrderlyThen(chain, s0, [], s0, Boot(h, false, TWO_63, TWO_63));
    if s.recovery.Call? {
      run, s := OrderlyPass(chain, s0, run, s, Recovery);
    }
    run, s := OrderlyThen(chain, s0, run, s, Poll(h));
    run, s := OrderlyPass(chain, s0, run, s, Tail);
  }
}
