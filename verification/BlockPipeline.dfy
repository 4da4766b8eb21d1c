/**
 * The worker pipeline of pkg/btc/btcnode.go: heights to block hashes to blocks to the indexer, over bounded
 * channels and two pools of workers, as a state machine with arbitrary interleaving and RPC failures.
 */
module BlockPipeline {
  import opened Basics
  import opened HeightEmitter

  /** A worker waits, has an RPC call running for a height, or waits to put its result on a channel. */
  datatype Slot = Idle | Calling(height: int) | Sending(height: int)

  /** Channel capacities and pool sizes; all of them are at least 1. */
  datatype Config = Config(heightCap: nat, hashCap: nat, blockCap: nat, hashers: nat, fetchers: nat)

  datatype State = State(
    todo: seq<int>,             // heights the emitter has still to send
    heights: seq<int>, hashers: seq<Slot>,
    hashes: seq<int>, fetchers: seq<Slot>,
    blocks: seq<int>, indexing: Option<int>,
    indexed: seq<int>,          // handed to the indexer and finished
    dropped: seq<int>)          // given up after an RPC error

  datatype Action =
    | Emit
    | TakeHeight(w: nat) | HashError(w: nat) | HashReply(w: nat) | PutHash(w: nat)
    | TakeHash(w: nat) | BlockError(w: nat) | BlockReply(w: nat) | PutBlock(w: nat)
    | TakeBlock | FinishBlock

  predicate Sound(c: Config, s: State) {
    && c.heightCap >= 1 && c.hashCap >= 1 && c.blockCap >= 1 && c.hashers >= 1 && c.fetchers >= 1
    && |s.hashers| == c.hashers && |s.fetchers| == c.fetchers
    && |s.heights| <= c.heightCap && |s.hashes| <= c.hashCap && |s.blocks| <= c.blockCap
  }

  function Start(c: Config, todo: seq<int>): State {
    State(todo, [], seq(c.hashers, _ => Idle), [], seq(c.fetchers, _ => Idle), [], None, [], [])
  }

  predicate Enabled(c: Config, s: State, a: Action) {
    match a
    case Emit => s.todo != [] && |s.heights| < c.heightCap
    case TakeHeight(w) => w < |s.hashers| && s.hashers[w].Idle? && s.heights != []
    case HashError(w) => w < |s.hashers| && s.hashers[w].Calling?
    case HashReply(w) => w < |s.hashers| && s.hashers[w].Calling?
    case PutHash(w) => w < |s.hashers| && s.hashers[w].Sending? && |s.hashes| < c.hashCap
    case TakeHash(w) => w < |s.fetchers| && s.fetchers[w].Idle? && s.hashes != []
    case BlockError(w) => w < |s.fetchers| && s.fetchers[w].Calling?
    case BlockReply(w) => w < |s.fetchers| && s.fetchers[w].Calling?
    case PutBlock(w) => w < |s.fetchers| && s.fetchers[w].Sending? && |s.blocks| < c.blockCap
    case TakeBlock => s.indexing.None? && s.blocks != []
    case FinishBlock => s.indexing.Some?
  }

  function Apply(c: Config, s: State, a: Action): State
    requires Enabled(c, s, a)
  {
    match a
    case Emit => s.(todo := s.todo[1..], heights := s.heights + [s.todo[0]])
    case TakeHeight(w) => s.(heights := s.heights[1..], hashers := s.hashers[w := Calling(s.heights[0])])
    case HashError(w) => s.(hashers := s.hashers[w := Idle], dropped := s.dropped + [s.hashers[w].height])
    case HashReply(w) => s.(hashers := s.hashers[w := Sending(s.hashers[w].height)])
    case PutHash(w) => s.(hashers := s.hashers[w := Idle], hashes := s.hashes + [s.hashers[w].height])
    case TakeHash(w) => s.(hashes := s.hashes[1..], fetchers := s.fetchers[w := Calling(s.hashes[0])])
    case BlockError(w) => s.(fetchers := s.fetchers[w := Idle], dropped := s.dropped + [s.fetchers[w].height])
    case BlockReply(w) => s.(fetchers := s.fetchers[w := Sending(s.fetchers[w].height)])
    case PutBlock(w) => s.(fetchers := s.fetchers[w := Idle], blocks := s.blocks + [s.fetchers[w].height])
    case TakeBlock => s.(blocks := s.blocks[1..], indexing := Some(s.blocks[0]))
    case FinishBlock => s.(indexing := None, indexed := s.indexed + [s.indexing.value])
  }

  predicate Execution(c: Config, s: State, run: seq<Action>, s': State)
    decreases |run|
  {
    if run == [] then s == s'
    else Enabled(c, s, run[0]) && Execution(c, Apply(c, s, run[0]), run[1..], s')
  }

  // ---------------------------------------------------------------------------------------------
  // Where a height can be

  function HeldBy(slot: Slot, h: int): nat {
    if !slot.Idle? && slot.height == h then 1 else 0
  }

  function Held(slots: seq<Slot>, h: int): nat
    decreases |slots|
  {
    if slots == [] then 0 else Held(slots[..|slots| - 1], h) + HeldBy(slots[|slots| - 1], h)
  }

  /** How many workers wait to put a result for `h` on their channel. */
  function Waiting(slots: seq<Slot>, h: int): nat
    decreases |slots|
  {
    if slots == [] then 0 else Waiting(slots[..|slots| - 1], h) + if slots[|slots| - 1] == Sending(h) then 1 else 0
  }

  /** In how many places height `h` is. */
  function Places(s: State, h: int): nat {
    Count(s.todo, h) + Count(s.heights, h) + Held(s.hashers, h) + Count(s.hashes, h) + Held(s.fetchers, h)
    + Count(s.blocks, h) + (if s.indexing == Some(h) then 1 else 0) + Count(s.indexed, h) + Count(s.dropped, h)
  }

  /** Remaining work of a slot whose running call is worth `call`. */
  function SlotWork(slot: Slot, call: nat): nat
    requires call >= 1
  {
    match slot
    case Idle => 0
    case Calling(_) => call
    case Sending(_) => call - 1
  }

  function PoolWork(slots: seq<Slot>, call: nat): nat
    requires call >= 1
    decreases |slots|
  {
    if slots == [] then 0 else PoolWork(slots[..|slots| - 1], call) + SlotWork(slots[|slots| - 1], call)
  }

  /** The weighted number of pending heights. */
  function Work(s: State): nat {
    10 * |s.todo| + 9 * |s.heights| + PoolWork(s.hashers, 8) + 6 * |s.hashes| + PoolWork(s.fetchers, 5)
    + 3 * |s.blocks| + if s.indexing.Some? then 2 else 0
  }

  lemma {:induction false} SlotUpdate(slots: seq<Slot>, w: nat, slot: Slot, call: nat, h: int)
    requires w < |slots| && call >= 1
    ensures Held(slots[w := slot], h) + HeldBy(slots[w], h) == Held(slots, h) + HeldBy(slot, h)
    ensures PoolWork(slots[w := slot], call) + SlotWork(slots[w], call) == PoolWork(slots, call) + SlotWork(slot, call)
    ensures Waiting(slots[w := slot], h) + (if slots[w] == Sending(h) then 1 else 0)
         == Waiting(slots, h) + (if slot == Sending(h) then 1 else 0)
    decreases |slots|
  {
    var n := |slots| - 1;
    if w == n {
      assert slots[w := slot][..n] == slots[..n];
    } else {
      SlotUpdate(slots[..n], w, slot, call, h);
      assert slots[w := slot][..n] == slots[..n][w := slot];
    }
  }

  lemma {:induction false} LastIn(q: seq<int>, x: int, h: int)
    ensures Count(q + [x], h) == Count(q, h) + if x == h then 1 else 0
  {
    assert (q + [x])[..|q|] == q;
  }

  lemma {:induction false} FirstOut(q: seq<int>, h: int)
    requires q != []
    ensures Count(q, h) == (if q[0] == h then 1 else 0) + Count(q[1..], h)
    decreases |q|
  {
    if |q| == 1 {
    } else {
      FirstOut(q[..|q| - 1], h);
      assert q[..|q| - 1][1..] == q[1..][..|q| - 2];
    }
  }

  predicate HasherAction(a: Action) {
    a.TakeHeight? || a.HashError? || a.HashReply? || a.PutHash?
  }

  predicate FetcherAction(a: Action) {
    a.TakeHash? || a.BlockError? || a.BlockReply? || a.PutBlock?
  }

  lemma {:induction false} HasherPlaces(c: Config, s: State, a: Action, h: int)
    requires Enabled(c, s, a) && HasherAction(a)
    ensures Places(Apply(c, s, a), h) == Places(s, h)
  {
    SlotUpdate(s.hashers, a.w, Apply(c, s, a).hashers[a.w], 8, h);
    match a {
      case TakeHeight(w) => FirstOut(s.heights, h);
      case HashError(w) => LastIn(s.dropped, s.hashers[w].height, h);
      case HashReply(w) =>
      case PutHash(w) => LastIn(s.hashes, s.hashers[w].height, h);
    }
  }

  lemma {:induction false} HasherWork(c: Config, s: State, a: Action)
    requires Enabled(c, s, a) && HasherAction(a)
    ensures Work(Apply(c, s, a)) < Work(s)
  {
    SlotUpdate(s.hashers, a.w, Apply(c, s, a).hashers[a.w], 8, 0);
  }

  lemma {:induction false} FetcherPlaces(c: Config, s: State, a: Action, h: int)
    requires Enabled(c, s, a) && FetcherAction(a)
    ensures Places(Apply(c, s, a), h) == Places(s, h)
  {
    SlotUpdate(s.fetchers, a.w, Apply(c, s, a).fetchers[a.w], 5, h);
    match a {
      case TakeHash(w) => FirstOut(s.hashes, h);
      case BlockError(w) => LastIn(s.dropped, s.fetchers[w].height, h);
      case BlockReply(w) =>
      case PutBlock(w) => LastIn(s.blocks, s.fetchers[w].height, h);
    }
  }

  lemma {:induction false} FetcherWork(c: Config, s: State, a: Action)
    requires Enabled(c, s, a) && FetcherAction(a)
    ensures Work(Apply(c, s, a)) < Work(s)
  {
    SlotUpdate(s.fetchers, a.w, Apply(c, s, a).fetchers[a.w], 5, 0);
  }

  /** Every step conserves every height and lowers the remaining work. */
  lemma {:induction false} StepConserves(c: Config, s: State, a: Action, h: int)
    requires Enabled(c, s, a)
    ensures Places(Apply(c, s, a), h) == Places(s, h) && Work(Apply(c, s, a)) < Work(s)
  {
    if a.Emit? {
      FirstOut(s.todo, h);
      LastIn(s.heights, s.todo[0], h);
    } else if HasherAction(a) {
      HasherPlaces(c, s, a, h);
      HasherWork(c, s, a);
    } else if a.TakeBlock? {
      FirstOut(s.blocks, h);
    } else if a.FinishBlock? {
      LastIn(s.indexed, s.indexing.value, h);
    } else {
      FetcherPlaces(c, s, a, h);
      FetcherWork(c, s, a);
    }
  }

  lemma {:induction false} StepBounded(c: Config, s: State, a: Action)
    requires Sound(c, s) && Enabled(c, s, a)
    ensures Sound(c, Apply(c, s, a))
  {
  }

  lemma {:induction false} RunConserves(c: Config, s: State, run: seq<Action>, s': State, h: int)
    requires Sound(c, s) && Execution(c, s, run, s')
    ensures Sound(c, s')
    ensures Places(s', h) == Places(s, h)
    ensures |run| + Work(s') <= Work(s)
    decreases |run|
  {
    if run == [] {
    } else {
      StepConserves(c, s, run[0], h);
      StepBounded(c, s, run[0]);
      RunConserves(c, Apply(c, s, run[0]), run[1..], s', h);
    }
  }

  lemma {:induction false} IdleMeansNoWork(slots: seq<Slot>, call: nat, h: int)
    requires call >= 1 && AllIdle(slots)
    ensures PoolWork(slots, call) == 0 && Held(slots, h) == 0
    decreases |slots|
  {
    if slots == [] {
    } else {
      IdleMeansNoWork(slots[..|slots| - 1], call, h);
    }
  }

  lemma {:induction false} StartPlaces(c: Config, plan: seq<int>, h: int)
    ensures Places(Start(c, plan), h) == Count(plan, h) && Work(Start(c, plan)) == 10 * |plan|
  {
    var s := Start(c, plan);
    IdleMeansNoWork(s.hashers, 8, h);
    IdleMeansNoWork(s.fetchers, 5, h);
  }

  /**
   * Conservation: in every reachable state each height of the emitter's plan is in exactly one place -- still to
   * be sent, in one channel, in one worker's hand, with the indexer, indexed or dropped -- and no other height is.
   */
  lemma {:induction false} EachHeightInOnePlace(c: Config, first: int, cursor: int, run: seq<Action>, s: State, h: int)
    requires c.heightCap >= 1 && c.hashCap >= 1 && c.blockCap >= 1 && c.hashers >= 1 && c.fetchers >= 1
    requires Execution(c, Start(c, Interval(first, cursor)), run, s)
    ensures Places(s, h) == if first <= h < cursor then 1 else 0
  {
    StartPlaces(c, Interval(first, cursor), h);
    RunConserves(c, Start(c, Interval(first, cursor)), run, s, h);
    IntervalDistinct(first, cursor, h);
  }

  // ---------------------------------------------------------------------------------------------
  // What the RPC calls of a run did

  predicate HashFails(s: State, a: Action, h: int) {
    a.HashError? && a.w < |s.hashers| && s.hashers[a.w] == Calling(h)
  }

  predicate HashArrives(s: State, a: Action, h: int) {
    a.HashReply? && a.w < |s.hashers| && s.hashers[a.w] == Calling(h)
  }

  predicate BlockFails(s: State, a: Action, h: int) {
    a.BlockError? && a.w < |s.fetchers| && s.fetchers[a.w] == Calling(h)
  }

  predicate BlockArrives(s: State, a: Action, h: int) {
    a.BlockReply? && a.w < |s.fetchers| && s.fetchers[a.w] == Calling(h)
  }

  /** How often along a run an action does for height `h` what `what` says. */
  function Times(c: Config, s: State, run: seq<Action>, what: (State, Action, int) -> bool, h: int): nat
    decreases |run|
  {
    if run == [] || !Enabled(c, s, run[0]) then 0
    else (if what(s, run[0], h) then 1 else 0) + Times(c, Apply(c, s, run[0]), run[1..], what, h)
  }

  /** How often `h` is in a place that only a fetched block reaches. */
  function Fetched(s: State, h: int): nat {
    Waiting(s.fetchers, h) + Count(s.blocks, h) + (if s.indexing == Some(h) then 1 else 0) + Count(s.indexed, h)
  }

  /** How often `h` is in a place that only a known block hash reaches. */
  function Hashed(s: State, h: int): nat {
    Waiting(s.hashers, h) + Count(s.hashes, h) + Held(s.fetchers, h) + Count(s.blocks, h)
    + (if s.indexing == Some(h) then 1 else 0) + Count(s.indexed, h)
  }

  function One(b: bool): nat {
    if b then 1 else 0
  }

  /** Heights move with their RPC replies and are dropped with their RPC errors, and not otherwise. */
  predicate MovesWithRpcs(s: State, a: Action, s': State, h: int) {
    && Count(s'.dropped, h) == Count(s.dropped, h) + One(HashFails(s, a, h)) + One(BlockFails(s, a, h))
    && Fetched(s', h) == Fetched(s, h) + One(BlockArrives(s, a, h))
    && Hashed(s', h) + One(BlockFails(s, a, h)) == Hashed(s, h) + One(HashArrives(s, a, h))
  }

  lemma {:induction false} SlotMoves(slots: seq<Slot>, w: nat, slot: Slot, h: int)
    requires w < |slots|
    ensures Held(slots[w := slot], h) + HeldBy(slots[w], h) == Held(slots, h) + HeldBy(slot, h)
    ensures Waiting(slots[w := slot], h) + One(slots[w] == Sending(h)) == Waiting(slots, h) + One(slot == Sending(h))
  {
    SlotUpdate(slots, w, slot, 1, h);
  }

  lemma {:induction false} HasherRpcs(c: Config, s: State, a: Action, h: int)
    requires Enabled(c, s, a) && HasherAction(a)
    ensures MovesWithRpcs(s, a, Apply(c, s, a), h)
  {
    SlotMoves(s.hashers, a.w, Apply(c, s, a).hashers[a.w], h);
    match a {
      case TakeHeight(w) =>
      case HashError(w) => LastIn(s.dropped, s.hashers[w].height, h);
      case HashReply(w) =>
      case PutHash(w) => LastIn(s.hashes, s.hashers[w].height, h);
    }
  }

  lemma {:induction false} ErrorRpcs(c: Config, s: State, a: Action, h: int)
    requires Enabled(c, s, a) && a.BlockError?
    ensures MovesWithRpcs(s, a, Apply(c, s, a), h)
  {
    SlotMoves(s.fetchers, a.w, Idle, h);
    LastIn(s.dropped, s.fetchers[a.w].height, h);
  }

  lemma {:induction false} ReplyRpcs(c: Config, s: State, a: Action, h: int)
    requires Enabled(c, s, a) && a.BlockReply?
    ensures MovesWithRpcs(s, a, Apply(c, s, a), h)
  {
    SlotMoves(s.fetchers, a.w, Sending(s.fetchers[a.w].height), h);
  }

  lemma {:induction false} QueueRpcs(c: Config, s: State, a: Action, h: int)
    requires Enabled(c, s, a) && (a.TakeHash? || a.PutBlock?)
    ensures MovesWithRpcs(s, a, Apply(c, s, a), h)
  {
    SlotMoves(s.fetchers, a.w, Apply(c, s, a).fetchers[a.w], h);
    if a.TakeHash? {
      FirstOut(s.hashes, h);
    } else {
      LastIn(s.blocks, s.fetchers[a.w].height, h);
    }
  }

  lemma {:induction false} IndexerRpcs(c: Config, s: State, a: Action, h: int)
    requires Enabled(c, s, a) && (a.Emit? || a.TakeBlock? || a.FinishBlock?)
    ensures MovesWithRpcs(s, a, Apply(c, s, a), h)
  {
    if a.TakeBlock? {
      FirstOut(s.blocks, h);
    } else if a.FinishBlock? {
      LastIn(s.indexed, s.indexing.value, h);
    }
  }

  lemma {:induction false} StepRpcs(c: Config, s: State, a: Action, h: int)
    requires Enabled(c, s, a)
    ensures MovesWithRpcs(s, a, Apply(c, s, a), h)
  {
    if HasherAction(a) {
      HasherRpcs(c, s, a, h);
    } else if a.BlockError? {
      ErrorRpcs(c, s, a, h);
    } else if a.BlockReply? {
      ReplyRpcs(c, s, a, h);
    } else if FetcherAction(a) {
      QueueRpcs(c, s, a, h);
    } else {
      IndexerRpcs(c, s, a, h);
    }
  }

  /**
   * Along every run: a height was dropped as often as an RPC call for it failed, is past the fetchers as often as its
   * block arrived, and past the hashers as often as its hash arrived, less the blocks that did not.
   */
  lemma {:induction false} RunRpcs(c: Config, s: State, run: seq<Action>, s': State, h: int)
    requires Execution(c, s, run, s')
    ensures Count(s'.dropped, h) == Count(s.dropped, h) + Times(c, s, run, HashFails, h) + Times(c, s, run, BlockFails, h)
    ensures Fetched(s', h) == Fetched(s, h) + Times(c, s, run, BlockArrives, h)
    ensures Hashed(s', h) + Times(c, s, run, BlockFails, h) == Hashed(s, h) + Times(c, s, run, HashArrives, h)
    decreases |run|
  {
    if run == [] {
    } else {
      StepRpcs(c, s, run[0], h);
      RunRpcs(c, Apply(c, s, run[0]), run[1..], s', h);
    }
  }

  // ---------------------------------------------------------------------------------------------
  // Order

  function InSlot(slot: Slot): seq<int> {
    if slot.Idle? then [] else [slot.height]
  }

  /** With one worker in each pool: the heights whose block hash is not yet taken for fetching, the foremost first. */
  function HashLine(s: State): seq<int>
    requires |s.hashers| == 1
  {
    s.hashes + (InSlot(s.hashers[0]) + (s.heights + s.todo))
  }

  /** All heights in the order of their way through the pipeline. */
  function Line(s: State): seq<int>
    requires |s.hashers| == 1 && |s.fetchers| == 1
  {
    s.indexed + ((if s.indexing.Some? then [s.indexing.value] else []) + (s.blocks + (InSlot(s.fetchers[0]) + HashLine(s))))
  }

  predicate NoErrors(run: seq<Action>) {
    forall a :: a in run ==> !a.HashError? && !a.BlockError?
  }

  /** Moving an item from the front of a queue to the end of the one before it. */
  lemma {:induction false} Passed(a: seq<int>, q: seq<int>, rest: seq<int>)
    requires q != []
    ensures (a + [q[0]]) + (q[1..] + rest) == a + (q + rest)
    ensures [q[0]] + (q[1..] + rest) == q + rest
  {
    assert q == [q[0]] + q[1..];
  }

  lemma {:induction false} HashLineStays(c: Config, s: State, a: Action)
    requires |s.hashers| == 1 && |s.fetchers| == 1 && Enabled(c, s, a) && !a.HashError? && (a.Emit? || HasherAction(a))
    ensures |Apply(c, s, a).hashers| == 1 && HashLine(Apply(c, s, a)) == HashLine(s)
  {
    match a {
      case Emit => Passed(s.heights, s.todo, []);
      case TakeHeight(w) => Passed([], s.heights, s.todo);
      case HashReply(w) =>
      case PutHash(w) => Passed(s.hashes, [s.hashers[w].height], s.heights + s.todo);
    }
  }

  lemma {:induction false} FetcherKeepsLine(c: Config, s: State, a: Action)
    requires |s.hashers| == 1 && |s.fetchers| == 1 && Enabled(c, s, a) && !a.BlockError? && FetcherAction(a)
    ensures var s' := Apply(c, s, a); |s'.hashers| == 1 && |s'.fetchers| == 1 && Line(s') == Line(s)
  {
    match a {
      case TakeHash(w) =>
        Passed([], s.hashes, InSlot(s.hashers[0]) + (s.heights + s.todo));
        assert InSlot(Apply(c, s, a).fetchers[0]) + HashLine(Apply(c, s, a)) == HashLine(s);
      case BlockReply(w) =>
      case PutBlock(w) => Passed(s.blocks, [s.fetchers[w].height], HashLine(s));
    }
  }

  lemma {:induction false} IndexerKeepsLine(c: Config, s: State, a: Action)
    requires |s.hashers| == 1 && |s.fetchers| == 1 && Enabled(c, s, a) && (a.TakeBlock? || a.FinishBlock?)
    ensures Line(Apply(c, s, a)) == Line(s)
  {
    if a.TakeBlock? {
      Passed([], s.blocks, InSlot(s.fetchers[0]) + HashLine(s));
    } else {
      Passed(s.indexed, [s.indexing.value], s.blocks + (InSlot(s.fetchers[0]) + HashLine(s)));
    }
  }

  /** The channels are queues: with one worker in each pool and no RPC error, heights are indexed in the order of the plan. */
  lemma {:induction false} OneWorkerKeepsOrder(c: Config, s: State, run: seq<Action>, s': State)
    requires |s.hashers| == 1 && |s.fetchers| == 1 && Execution(c, s, run, s') && NoErrors(run)
    ensures |s'.hashers| == 1 && |s'.fetchers| == 1 && Line(s') == Line(s) && s'.indexed <= Line(s)
    decreases |run|
  {
    if run == [] {
    } else {
      assert run[0] in run;
      if FetcherAction(run[0]) {
        FetcherKeepsLine(c, s, run[0]);
      } else if run[0].TakeBlock? || run[0].FinishBlock? {
        IndexerKeepsLine(c, s, run[0]);
      } else {
        HashLineStays(c, s, run[0]);
      }
      OneWorkerKeepsOrder(c, Apply(c, s, run[0]), run[1..], s');
    }
  }

  /** Extends an execution by one enabled action. */
  lemma {:induction false} Then(c: Config, s0: State, run: seq<Action>, s: State, a: Action) returns (run': seq<Action>, s': State)
    requires Execution(c, s0, run, s) && Enabled(c, s, a)
    ensures run' == run + [a] && s' == Apply(c, s, a) && Execution(c, s0, run', s')
    decreases |run|
  {
    run', s' := run + [a], Apply(c, s, a);
    if run == [] {
      assert run' == [a] && [a][1..] == [];
    } else {
      var tail, _ := Then(c, Apply(c, s0, run[0]), run[1..], s, a);
      assert run'[1..] == tail;
    }
  }

  /** Hasher `w` gets the next height of the plan. */
  lemma {:induction false} GetsHeight(c: Config, s0: State, run: seq<Action>, s: State, w: nat)
    returns (run': seq<Action>, s': State)
    requires Sound(c, s) && Execution(c, s0, run, s) && NoErrors(run)
    requires s.todo != [] && s.heights == [] && w < c.hashers && s.hashers[w].Idle?
    ensures Execution(c, s0, run', s') && NoErrors(run')
    ensures s' == s.(todo := s.todo[1..], hashers := s.hashers[w := Calling(s.todo[0])])
  {
    run', s' := Then(c, s0, run, s, Emit);
    run', s' := Then(c, s0, run', s', TakeHeight(w));
  }

  /** What hasher `w` works on goes to fetcher `v`. */
  lemma {:induction false} PassesHash(c: Config, s0: State, run: seq<Action>, s: State, w: nat, v: nat)
    returns (run': seq<Action>, s': State)
    requires Sound(c, s) && Execution(c, s0, run, s) && NoErrors(run)
    requires s.hashes == [] && w < c.hashers && v < c.fetchers && s.hashers[w].Calling? && s.fetchers[v].Idle?
    ensures Execution(c, s0, run', s') && NoErrors(run')
    ensures s' == s.(hashers := s.hashers[w := Idle], fetchers := s.fetchers[v := Calling(s.hashers[w].height)])
  {
    run', s' := Then(c, s0, run, s, HashReply(w));
    run', s' := Then(c, s0, run', s', PutHash(w));
    assert s'.hashers == s.hashers[w := Idle];
    run', s' := Then(c, s0, run', s', TakeHash(v));
  }

  /** What fetcher `v` works on is indexed. */
  lemma {:induction false} GetsIndexed(c: Config, s0: State, run: seq<Action>, s: State, v: nat)
    returns (run': seq<Action>, s': State)
    requires Sound(c, s) && Execution(c, s0, run, s) && NoErrors(run)
    requires s.blocks == [] && s.indexing.None? && v < c.fetchers && s.fetchers[v].Calling?
    ensures Execution(c, s0, run', s') && NoErrors(run')
    ensures s' == s.(fetchers := s.fetchers[v := Idle], indexed := s.indexed + [s.fetchers[v].height])
  {
    run', s' := Then(c, s0, run, s, BlockReply(v));
    run', s' := Then(c, s0, run', s', PutBlock(v));
    assert s'.fetchers == s.fetchers[v := Idle];
    run', s' := Then(c, s0, run', s', TakeBlock);
    run', s' := Then(c, s0, run', s', FinishBlock);
  }

  lemma {:induction false} FetchersReorder(c: Config, a: int, b: int) returns (run: seq<Action>, s: State)
    requires Sound(c, Start(c, [a, b])) && c.fetchers >= 2
    ensures Execution(c, Start(c, [a, b]), run, s) && NoErrors(run) && s.indexed == [b, a]
  {
    var s0 := Start(c, [a, b]);
    run, s := GetsHeight(c, s0, [], s0, 0);
    run, s := PassesHash(c, s0, run, s, 0, 0);
    run, s := GetsHeight(c, s0, run, s, 0);
    run, s := PassesHash(c, s0, run, s, 0, 1);
    run, s := GetsIndexed(c, s0, run, s, 1);
    run, s := GetsIndexed(c, s0, run, s, 0);
  }

  lemma {:induction false} HashersReorder(c: Config, a: int, b: int) returns (run: seq<Action>, s: State)
    requires Sound(c, Start(c, [a, b])) && c.hashers >= 2
    ensures Execution(c, Start(c, [a, b]), run, s) && NoErrors(run) && s.indexed == [b, a]
  {
    var s0 := Start(c, [a, b]);
    run, s := GetsHeight(c, s0, [], s0, 0);
    run, s := GetsHeight(c, s0, run, s, 1);
    run, s := PassesHash(c, s0, run, s, 1, 0);
    run, s := GetsIndexed(c, s0, run, s, 0);
    run, s := PassesHash(c, s0, run, s, 0, 0);
    run, s := GetsIndexed(c, s0, run, s, 0);
  }

  ghost predicate CanIndex(c: Config, plan: seq<int>, order: seq<int>) {
    exists run, s :: Execution(c, Start(c, plan), run, s) && NoErrors(run) && s.indexed == order
  }

  /** Two heights can be indexed in the wrong order, without any error, if and only if some pool has a second worker. */
  lemma {:induction false} ReorderIffManyWorkers(c: Config, a: int, b: int)
    requires c.heightCap >= 1 && c.hashCap >= 1 && c.blockCap >= 1 && c.hashers >= 1 && c.fetchers >= 1 && a != b
    ensures CanIndex(c, [a, b], [b, a]) <==> c.hashers >= 2 || c.fetchers >= 2
  {
    if c.fetchers >= 2 {
      var run, s := FetchersReorder(c, a, b);
    } else if c.hashers >= 2 {
      var run, s := HashersReorder(c, a, b);
    } else if CanIndex(c, [a, b], [b, a]) {
      var s0 := Start(c, [a, b]);
      var run, s :| Execution(c, s0, run, s) && NoErrors(run) && s.indexed == [b, a];
      assert Line(s0) == [a, b];
      OneWorkerKeepsOrder(c, s0, run, s);
    }
  }

  // ---------------------------------------------------------------------------------------------
  // Drain

  predicate AllIdle(slots: seq<Slot>) {
    forall w :: 0 <= w < |slots| ==> slots[w].Idle?
  }

  /** No deadlock: every state with pending work has an enabled step, and every running call can be answered or fail. */
  lemma {:induction false} NeverStuck(c: Config, s: State) returns (a: Action)
    requires Sound(c, s) && Work(s) > 0
    ensures Enabled(c, s, a)
    ensures forall w :: 0 <= w < |s.hashers| && s.hashers[w].Calling? ==> Enabled(c, s, HashReply(w)) && Enabled(c, s, HashError(w))
    ensures forall w :: 0 <= w < |s.fetchers| && s.fetchers[w].Calling? ==> Enabled(c, s, BlockReply(w)) && Enabled(c, s, BlockError(w))
  {
    if s.indexing.Some? {
      return FinishBlock;
    } else if s.blocks != [] {
      return TakeBlock;
    } else if !AllIdle(s.fetchers) {
      var w :| 0 <= w < |s.fetchers| && !s.fetchers[w].Idle?;
      return if s.fetchers[w].Calling? then BlockReply(w) else PutBlock(w);
    } else if s.hashes != [] {
      return TakeHash(0);
    } else if !AllIdle(s.hashers) {
      var w :| 0 <= w < |s.hashers| && !s.hashers[w].Idle?;
      return if s.hashers[w].Calling? then HashReply(w) else PutHash(w);
    } else if s.heights != [] {
      return TakeHeight(0);
    }
    IdleMeansNoWork(s.fetchers, 5, 0);
    IdleMeansNoWork(s.hashers, 8, 0);
    return Emit;
  }

  lemma {:induction false} BusyMeansWork(slots: seq<Slot>, call: nat, h: int)
    requires call >= 2 && PoolWork(slots, call) == 0
    ensures Held(slots, h) == 0
    decreases |slots|
  {
    if slots == [] {
    } else {
      BusyMeansWork(slots[..|slots| - 1], call, h);
    }
  }

  ghost predicate CannotMove(c: Config, s: State) {
    forall a :: !Enabled(c, s, a)
  }

  lemma {:induction false} NobodyWaits(slots: seq<Slot>, h: int)
    requires Held(slots, h) == 0
    ensures Waiting(slots, h) == 0
    decreases |slots|
  {
    if slots == [] {
    } else {
      NobodyWaits(slots[..|slots| - 1], h);
    }
  }

  /** Where nothing can move, every height is indexed or dropped. */
  lemma {:induction false} AtRest(c: Config, s: State, h: int)
    requires Sound(c, s) && CannotMove(c, s)
    ensures Places(s, h) == Count(s.indexed, h) + Count(s.dropped, h) && Fetched(s, h) == Count(s.indexed, h)
  {
    if Work(s) > 0 {
      var a := NeverStuck(c, s);
    }
    BusyMeansWork(s.hashers, 8, h);
    BusyMeansWork(s.fetchers, 5, h);
    NobodyWaits(s.fetchers, h);
  }

  lemma {:induction false} NothingDropped(c: Config, s: State, run: seq<Action>, s': State)
    requires Execution(c, s, run, s') && NoErrors(run)
    ensures s'.dropped == s.dropped
    decreases |run|
  {
    if run == [] {
    } else {
      assert run[0] in run;
      NothingDropped(c, Apply(c, s, run[0]), run[1..], s');
    }
  }

  /**
   * Drain: every run over a plan has at most ten steps per height. A run that can go no further has indexed every height
   * as often as its block arrived, and that is as often as it was planned, less the RPC calls that failed for it; the
   * others were dropped. Without RPC errors nothing is dropped, and one worker in each pool indexes the plan in order.
   */
  lemma {:induction false} PipelineDrains(c: Config, plan: seq<int>, run: seq<Action>, s: State, h: int)
    requires c.heightCap >= 1 && c.hashCap >= 1 && c.blockCap >= 1 && c.hashers >= 1 && c.fetchers >= 1
    requires Execution(c, Start(c, plan), run, s)
    ensures |run| <= 10 * |plan|
    ensures var s0 := Start(c, plan);
      var failed := Times(c, s0, run, HashFails, h) + Times(c, s0, run, BlockFails, h);
      && Count(s.dropped, h) == failed
      && (CannotMove(c, s) ==>
            Count(s.indexed, h) == Times(c, s0, run, BlockArrives, h) && Count(s.indexed, h) + failed == Count(plan, h))
    ensures NoErrors(run) ==> s.dropped == [] && (c.hashers == 1 && c.fetchers == 1 ==> s.indexed <= plan)
  {
    var s0 := Start(c, plan);
    StartPlaces(c, plan, h);
    NobodyWaits(s0.fetchers, h);
    RunConserves(c, s0, run, s, h);
    RunRpcs(c, s0, run, s, h);
    if CannotMove(c, s) {
      AtRest(c, s, h);
    }
    if NoErrors(run) {
      NothingDropped(c, s0, run, s);
      if c.hashers == 1 && c.fetchers == 1 {
        OneWorkerKeepsOrder(c, s0, run, s);
        assert Line(s0) == plan;
      }
    }
  }
}
