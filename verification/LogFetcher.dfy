/**
 * The adaptive range loop of pkg/evm/fetcher.go and the start rule of pkg/evm/client.go.
 *
 * The node's answers are a script of replies; a script that ends before the loop does stands for a
 * run that was cut off there. Block numbers are uint64; chain heads stay below 2^63 because the query
 * stores them as int64.
 */
module LogFetcher {
  import opened Basics
  import opened Intervals

  type head = x: int | 0 <= x < TWO_63

  /** What setQueryRange writes: uint64 arithmetic wraps, then the end is cut at the current block. */
  function QueryRange(fromBlock: u64, range: u64, current: u64): Range {
    var toBlock := AsUint64(fromBlock + range - 1);
    Range(AsInt64(fromBlock), AsInt64(if toBlock > current then current else toBlock))
  }

  /**
   * When a query reaches its own first block: exactly when the range is not 0 and does not wrap, or the
   * loop is still at block 0. Otherwise it ends before it starts.
   */
  lemma {:induction false} QueryReach(fromBlock: u64, range: u64, current: head)
    requires fromBlock <= current
    ensures var q := QueryRange(fromBlock, range, current);
      && q.lo == fromBlock && 0 <= q.hi <= current
      && (q.hi >= fromBlock <==> (range >= 1 && fromBlock + range <= TWO_64) || (range == 0 && fromBlock == 0))
      && (q.hi >= fromBlock && range >= 1 ==> q.hi == Min(current, fromBlock + range - 1))
      && (range == 0 && fromBlock >= 1 ==> q.hi == fromBlock - 1)
  {
    var sum := fromBlock + range - 1;
    if sum < 0 {
      assert sum % TWO_64 == TWO_64 - 1;
    } else if sum >= TWO_64 {
      assert sum % TWO_64 == sum - TWO_64;
    } else {
      assert sum % TWO_64 == sum;
    }
  }

  /** The node's answer to one query. A failure message may carry a number of blocks to use instead. */
  datatype Reply = Failed(parsedRange: Option<u64>) | Logs(count: nat, checkpointLost: bool)

  /** The loop's variables, its query, the queries answered so far and the stored checkpoint row. */
  datatype Progress = Progress(from: u64, range: u64, query: Range, answered: seq<Range>, checkpoint: Option<head>, logs: nat)

  predicate InLoop(current: head, p: Progress) {
    p.from <= current
  }

  function Step(current: head, store: bool, p: Progress, reply: Reply): (p': Progress)
    requires InLoop(current, p)
  {
    QueryReach(p.from, p.range, current);
    match reply
    case Failed(parsed) =>
      p.(range := if parsed.Some? then parsed.value else 0,
         query := QueryRange(p.from, if parsed.Some? then parsed.value else p.range, current))
    case Logs(count, lost) =>
      var q := QueryRange(p.from, p.range, current);
      Progress(q.hi + 1, p.range, q, p.answered + [q], if store && !lost then Some(q.hi) else p.checkpoint, p.logs + count)
  }

  /** Feeding a script of replies to the loop until it ends or the script does. */
  function Run(current: head, store: bool, p: Progress, replies: seq<Reply>): Progress
    decreases |replies|
  {
    if !InLoop(current, p) || replies == [] then p
    else Run(current, store, Step(current, store, p, replies[0]), replies[1..])
  }

  // ---------------------------------------------------------------------------------------------
  // The code

  class FilterQuery {
    var FromBlock: int
    var ToBlock: int
    constructor ()
      ensures FromBlock == 0 && ToBlock == 0
    {
      FromBlock, ToBlock := 0, 0;
    }
  }

  class RangeRef {
    var value: u64
    constructor (value: u64)
      ensures this.value == value
    {
      this.value := value;
    }
  }

  class CheckpointTable {
    var lastBlock: Option<head>
    constructor (lastBlock: Option<head>)
      ensures this.lastBlock == lastBlock
    {
      this.lastBlock := lastBlock;
    }
  }

  method SetQueryRange(query: FilterQuery, fromBlock: u64, recoverRange: RangeRef, current: u64)
    modifies query
    ensures Range(query.FromBlock, query.ToBlock) == QueryRange(fromBlock, recoverRange.value, current)
  {
    var toBlock := AsUint64(fromBlock + recoverRange.value - 1);
    if toBlock > current {
      toBlock := current;
    }
    query.FromBlock := AsInt64(fromBlock);
    query.ToBlock := AsInt64(toBlock);
  }

  /** The loop, owning its query, refines Run on every script of replies. */
  method FetchRangeLogs(query: FilterQuery, fromBlock: u64, current: head, recoverRange: RangeRef,
                        store: bool, table: CheckpointTable, replies: seq<Reply>)
    returns (nextBlock: u64, answered: seq<Range>, logCounter: nat)
    modifies query, recoverRange, table
    ensures Progress(nextBlock, recoverRange.value, Range(query.FromBlock, query.ToBlock), answered, table.lastBlock, logCounter)
         == Run(current, store, Progress(fromBlock, old(recoverRange.value), Range(old(query.FromBlock), old(query.ToBlock)),
                                         [], old(table.lastBlock), 0), replies)
  {
    nextBlock, answered, logCounter := fromBlock, [], 0;
    ghost var start := Progress(fromBlock, recoverRange.value, Range(query.FromBlock, query.ToBlock), [], table.lastBlock, 0);
    var i := 0;
    while nextBlock <= current && i < |replies|
      decreases |replies| - i
      invariant 0 <= i <= |replies|
      invariant Run(current, store, start, replies)
             == Run(current, store, Progress(nextBlock, recoverRange.value, Range(query.FromBlock, query.ToBlock),
                                             answered, table.lastBlock, logCounter), replies[i..])
    {
      ghost var before := Progress(nextBlock, recoverRange.value, Range(query.FromBlock, query.ToBlock),
                                   answered, table.lastBlock, logCounter);
      QueryReach(nextBlock, recoverRange.value, current);
      SetQueryRange(query, nextBlock, recoverRange, current);
      match replies[i] {
        case Failed(parsed) =>
          recoverRange.value := if parsed.Some? then parsed.value else 0;
          if parsed.Some? {
            SetQueryRange(query, nextBlock, recoverRange, current);
          }
        case Logs(count, lost) =>
          answered := answered + [Range(query.FromBlock, query.ToBlock)];
          logCounter := logCounter + count;
          if store && !lost {
            table.lastBlock := Some(query.ToBlock);
          }
          nextBlock := query.ToBlock + 1;
      }
      assert replies[i..][0] == replies[i] && replies[i..][1..] == replies[i + 1..];
      assert Progress(nextBlock, recoverRange.value, Range(query.FromBlock, query.ToBlock),
                      answered, table.lastBlock, logCounter) == Step(current, store, before, replies[i]);
      i := i + 1;
    }
  }

  /** Where recovery starts. A row that is missing or cannot be read counts as 0. */
  method RecoverStart(startBlock: u64, lastFetched: head) returns (fromBlock: u64)
    ensures fromBlock == Max(startBlock, lastFetched + 1)
  {
    fromBlock := 0;
    if lastFetched > 0 {
      fromBlock := lastFetched + 1;
    }
    if fromBlock < startBlock {
      fromBlock := startBlock;
    } else {
      fromBlock := lastFetched + 1;
    }
  }

  const DEFAULT_RECOVER_RANGE: u64 := 1000000
  const DEFAULT_FETCH_RANGE: u64 := 1000

  /** The configured range applies if it is set and smaller than the default. */
  function InitialRange(configured: u64, default: u64): u64 {
    if 0 < configured < default then configured else default
  }

  /** A recovery pass: from the start rule's block to the head at starting time, storing checkpoints. */
  method RecoverLogs(query: FilterQuery, table: CheckpointTable, startBlock: head, configuredRange: u64,
                     unreadable: bool, current: head, replies: seq<Reply>)
    returns (nextBlock: u64, answered: seq<Range>)
    modifies query, table
    ensures
      var row := old(table.lastBlock);
      var first := Max(startBlock, (if unreadable || row.None? then 0 else row.value) + 1);
      var range := if 0 < configuredRange < 1000000 then configuredRange else 1000000;
      var start := Progress(first, range, Range(old(query.FromBlock), old(query.ToBlock)), [], row, 0);
      var run := Run(current, true, start, replies);
      && nextBlock == run.from && answered == run.answered && table.lastBlock == run.checkpoint
      && (first <= current && replies != [] && replies[0].Logs? ==>
            answered != [] && answered[0] == Range(first, Min(current, first + range - 1)))
  {
    var lastFetched := if unreadable || table.lastBlock.None? then 0 else table.lastBlock.value;
    var fromBlock := RecoverStart(startBlock, lastFetched);
    var recoverRange := new RangeRef(InitialRange(configuredRange, DEFAULT_RECOVER_RANGE));
    nextBlock, answered := fromBlock, [];
    FirstAnswer(current, true, Progress(fromBlock, recoverRange.value, Range(query.FromBlock, query.ToBlock), [], table.lastBlock, 0), replies);
    if fromBlock <= current {
      var logCounter;
      nextBlock, answered, logCounter := FetchRangeLogs(query, fromBlock, current, recoverRange, true, table, replies);
    }
  }

  /** Block `b` was in one of the answered queries. */
  ghost predicate Asked(answered: seq<Range>, b: int) {
    exists i :: 0 <= i < |answered| && answered[i].lo <= b <= answered[i].hi
  }

  /** Coverage without any bound on ranges: wherever the loop stands, everything behind it was asked for. */
  lemma {:induction false} RunCovers(current: head, store: bool, p: Progress, replies: seq<Reply>, lo: int)
    requires forall b :: lo <= b < p.from ==> Asked(p.answered, b)
    ensures var r := Run(current, store, p, replies);
      && p.answered <= r.answered
      && (forall b :: lo <= b < r.from ==> Asked(r.answered, b))
      && (!store ==> r.checkpoint == p.checkpoint)
    decreases |replies|
  {
    if !InLoop(current, p) || replies == [] {
    } else {
      var p' := Step(current, store, p, replies[0]);
      QueryReach(p.from, p.range, current);
      forall b | lo <= b < p'.from
        ensures Asked(p'.answered, b)
      {
        if b < p.from {
          AskedGrows(p.answered, p'.answered, b);
        } else {
          assert p'.answered[|p.answered|].lo <= b <= p'.answered[|p.answered|].hi;
        }
      }
      RunCovers(current, store, p', replies[1..], lo);
    }
  }

  lemma {:induction false} AskedGrows(a: seq<Range>, b: seq<Range>, block: int)
    requires a <= b && Asked(a, block)
    ensures Asked(b, block)
  {
    var i :| 0 <= i < |a| && a[i].lo <= block <= a[i].hi;
    assert b[i] == a[i];
  }

  /** The first answer is to a query for the first range. */
  lemma {:induction false} FirstAnswer(current: head, store: bool, p: Progress, replies: seq<Reply>)
    requires 1 <= p.range <= TWO_63
    ensures InLoop(current, p) && replies != [] && replies[0].Logs? ==>
      var got := Run(current, store, p, replies).answered;
      |p.answered| < |got| && got[|p.answered|] == Range(p.from, Min(current, p.from + p.range - 1))
  {
    if InLoop(current, p) && replies != [] {
      QueryReach(p.from, p.range, current);
      RunKeepsAnswered(current, store, Step(current, store, p, replies[0]), replies[1..]);
    }
  }

  // ---------------------------------------------------------------------------------------------
  // The realtime loop

  /** One round of the realtime loop: the head it sees, unless it does not look, and the node's replies. */
  datatype Round = Round(newHead: Option<head>, replies: seq<Reply>)

  /** The realtime loop's variables and the queries answered so far; `cut` if the replies of a round ran out. */
  datatype Tailing = Tailing(from: u64, current: head, range: u64, query: Range, answered: seq<Range>, cut: bool)

  function HeadOf(t: Tailing, round: Round): head {
    if round.newHead.Some? then round.newHead.value else t.current
  }

  function RoundStart(t: Tailing): Progress {
    Progress(t.from, t.range, t.query, [], None, 0)
  }

  function AfterRound(t: Tailing, round: Round): Tailing {
    var h := HeadOf(t, round);
    if t.cut then t
    else if t.from > h then t.(current := h, from := h + 1)
    else
      var r := Run(h, false, RoundStart(t), round.replies);
      Tailing(if InLoop(h, r) then t.from else h + 1, h, r.range, r.query, t.answered + r.answered, InLoop(h, r))
  }

  function AfterRounds(t: Tailing, rounds: seq<Round>): Tailing
    decreases |rounds|
  {
    if rounds == [] then t else AfterRound(AfterRounds(t, rounds[..|rounds| - 1]), rounds[|rounds| - 1])
  }

  /** Nothing follows a round that was cut off. */
  lemma {:induction false} CutStays(t: Tailing, rounds: seq<Round>, k: nat)
    requires k <= |rounds| && AfterRounds(t, rounds[..k]).cut
    ensures AfterRounds(t, rounds) == AfterRounds(t, rounds[..k])
    decreases |rounds|
  {
    if k == |rounds| {
      assert rounds[..k] == rounds;
    } else {
      var init := rounds[..|rounds| - 1];
      assert init[..k] == rounds[..k];
      CutStays(t, init, k);
    }
  }

  /** A loop that stores no checkpoint does not depend on the row either. */
  lemma {:induction false} RunIgnoresRow(current: head, p: Progress, row: Option<head>, replies: seq<Reply>)
    ensures Run(current, false, p.(checkpoint := row), replies) == Run(current, false, p, replies).(checkpoint := row)
    decreases |replies|
  {
    if !InLoop(current, p) || replies == [] {
    } else {
      RunIgnoresRow(current, Step(current, false, p, replies[0]), row, replies[1..]);
    }
  }

  /** A round that is not cut off leaves the loop at the block after the head it saw, with everything up to it covered. */
  lemma {:induction false} RoundCovers(t: Tailing, round: Round, lo: int)
    requires forall b :: lo <= b < t.from ==> Asked(t.answered, b)
    ensures var t' := AfterRound(t, round);
      && t.answered <= t'.answered
      && (forall b :: lo <= b < t'.from ==> Asked(t'.answered, b))
      && (!t'.cut ==>
            var h := HeadOf(t, round);
            t'.from == h + 1 && t'.current == h && forall b :: lo <= b <= h ==> Asked(t'.answered, b))
  {
    var h := HeadOf(t, round);
    if !t.cut && t.from <= h {
      var r := Run(h, false, RoundStart(t), round.replies);
      RunCovers(h, false, RoundStart(t), round.replies, t.from);
      forall b | lo <= b < Max(t.from, r.from)
        ensures Asked(t.answered + r.answered, b)
      {
        AskedEither(t.answered, r.answered, b);
      }
    }
  }

  /** The head a sequence of rounds has seen last; a round that does not look keeps the one before. */
  function LastHead(first: head, rounds: seq<Round>): head
    decreases |rounds|
  {
    if rounds == [] then first
    else if rounds[|rounds| - 1].newHead.Some? then rounds[|rounds| - 1].newHead.value
    else LastHead(first, rounds[..|rounds| - 1])
  }

  /**
   * Realtime no-gap: for every sequence of heads, rising, falling or 0, and every mix of replies, all blocks behind the
   * loop variable were asked for. If no round was cut off the variable is one past the last head, and every block from
   * the start to every head seen was asked for.
   */
  lemma {:induction false} RealtimeCovers(t: Tailing, rounds: seq<Round>)
    requires !t.cut
    ensures var t' := AfterRounds(t, rounds);
      && t.answered <= t'.answered
      && (forall b :: t.from <= b < t'.from ==> Asked(t'.answered, b))
      && (!t'.cut ==>
            && t'.current == LastHead(t.current, rounds) && (rounds != [] ==> t'.from == t'.current + 1)
            && forall k, b :: 1 <= k <= |rounds| && t.from <= b <= LastHead(t.current, rounds[..k]) ==> Asked(t'.answered, b))
    decreases |rounds|
  {
    if rounds == [] {
    } else {
      var n := |rounds| - 1;
      var before, after := AfterRounds(t, rounds[..n]), AfterRounds(t, rounds);
      RealtimeCovers(t, rounds[..n]);
      RoundCovers(before, rounds[n], t.from);
      if !after.cut {
        forall k, b | 1 <= k <= |rounds| && t.from <= b <= LastHead(t.current, rounds[..k])
          ensures Asked(after.answered, b)
        {
          if k <= n {
            assert rounds[..n][..k] == rounds[..k];
            AskedGrows(before.answered, after.answered, b);
          } else {
            assert rounds[..k] == rounds;
          }
        }
      }
    }
  }

  /** The realtime loop, round by round; a round whose replies run out ends the run. It leaves the checkpoint row alone. */
  method FetchRealtimeLogs(query: FilterQuery, table: CheckpointTable, startBlock: head, configuredRange: u64,
                           firstHead: head, rounds: seq<Round>)
    returns (fromBlock: u64, answered: seq<Range>, cut: bool)
    modifies query, table
    ensures
      var range := if 0 < configuredRange < 1000 then configuredRange else 1000;
      var t := AfterRounds(Tailing(startBlock, firstHead, range, Range(old(query.FromBlock), old(query.ToBlock)), [], false), rounds);
      fromBlock == t.from && answered == t.answered && cut == t.cut && Range(query.FromBlock, query.ToBlock) == t.query
    ensures forall b :: startBlock <= b < fromBlock ==> Asked(answered, b)
    ensures !cut && rounds != [] ==> fromBlock == LastHead(firstHead, rounds) + 1
    ensures !cut ==>
      forall k, b :: 1 <= k <= |rounds| && startBlock <= b <= LastHead(firstHead, rounds[..k]) ==> Asked(answered, b)
    ensures table.lastBlock == old(table.lastBlock)
  {
    fromBlock, answered, cut := startBlock, [], false;
    var fetchRange := new RangeRef(InitialRange(configuredRange, DEFAULT_FETCH_RANGE));
    var current := firstHead;
    ghost var start := Tailing(startBlock, firstHead, fetchRange.value, Range(query.FromBlock, query.ToBlock), [], false);
    for i := 0 to |rounds|
      invariant fresh(fetchRange) && table.lastBlock == old(table.lastBlock)
      invariant Tailing(fromBlock, current, fetchRange.value, Range(query.FromBlock, query.ToBlock), answered, cut)
             == AfterRounds(start, rounds[..i])
      invariant !cut
    {
      assert rounds[..i + 1][..i] == rounds[..i];
      ghost var before := AfterRounds(start, rounds[..i]);
      if rounds[i].newHead.Some? {
        current := rounds[i].newHead.value;
      }
      if fromBlock <= current {
        RunIgnoresRow(current, RoundStart(before), table.lastBlock, rounds[i].replies);
        RunCovers(current, false, RoundStart(before), rounds[i].replies, fromBlock);
        var nextBlock, got, logCounter :=
          FetchRangeLogs(query, fromBlock, current, fetchRange, false, table, rounds[i].replies);
        answered := answered + got;
        if nextBlock <= current {
          CutStays(start, rounds, i + 1);
          RealtimeCovers(start, rounds);
          return fromBlock, answered, true;
        }
      }
      fromBlock := current as int + 1;
    }
    assert rounds[..|rounds|] == rounds;
    RealtimeCovers(start, rounds);
  }

  lemma {:induction false} AskedEither(a: seq<Range>, b: seq<Range>, block: int)
    requires Asked(a, block) || Asked(b, block)
    ensures Asked(a + b, block)
  {
    if Asked(a, block) {
      AskedGrows(a, a + b, block);
    } else {
      var i :| 0 <= i < |b| && b[i].lo <= block <= b[i].hi;
      assert (a + b)[|a| + i] == b[i];
    }
  }

  // ---------------------------------------------------------------------------------------------
  // Partition

  predicate RangesAtMost(range: u64, replies: seq<Reply>, bound: nat) {
    && range <= bound
    && forall r :: r in replies && r.Failed? && r.parsedRange.Some? ==> r.parsedRange.value <= bound
  }

  /** No range is ever 0: the first is not, and every failure message carries a number that is not. */
  predicate RangesPositive(range: u64, replies: seq<Reply>) {
    && range >= 1
    && forall r :: r in replies && r.Failed? ==> r.parsedRange.Some? && r.parsedRange.value >= 1
  }

  function Answers(replies: seq<Reply>): nat {
    if replies == [] then 0 else (if replies[0].Logs? then 1 else 0) + Answers(replies[1..])
  }

  /**
   * Partition: for ranges up to 2^63, the answered queries are consecutive and cover exactly the blocks
   * from the first one to the loop variable, at every point of the run; when the loop has ended they
   * cover exactly [from, current].
   */
  lemma {:induction false} FetchPartition(current: head, store: bool, p: Progress, replies: seq<Reply>, from0: u64)
    requires Tiles(p.answered, from0, p.from) && p.from <= current + 1
    requires RangesAtMost(p.range, replies, TWO_63)
    ensures var r := Run(current, store, p, replies);
      && Tiles(r.answered, from0, r.from) && p.from <= r.from <= current + 1
      && (!InLoop(current, r) ==> Tiles(r.answered, from0, current + 1))
    decreases |replies|
  {
    if !InLoop(current, p) || replies == [] {
    } else {
      var p' := Step(current, store, p, replies[0]);
      QueryReach(p.from, p.range, current);
      assert replies[0] in replies;
      if replies[0].Logs? {
        assert p'.answered[..|p.answered|] == p.answered;
      }
      FetchPartition(current, store, p', replies[1..], from0);
    }
  }

  /**
   * Progress: while ranges are positive every answer strictly advances, so no query is empty, there are at
   * most current - from + 1 of them, and that many answers end the loop.
   */
  lemma {:induction false} FetchProgress(current: head, store: bool, p: Progress, replies: seq<Reply>)
    requires p.from <= current + 1
    requires RangesAtMost(p.range, replies, TWO_63) && RangesPositive(p.range, replies)
    ensures var r := Run(current, store, p, replies);
      && |r.answered| - |p.answered| <= r.from - p.from
      && (Answers(replies) >= current - p.from + 1 ==> !InLoop(current, r))
      && (InLoop(current, r) ==> |r.answered| - |p.answered| == Answers(replies))
    decreases |replies|
  {
    if !InLoop(current, p) || replies == [] {
    } else {
      QueryReach(p.from, p.range, current);
      assert replies[0] in replies;
      FetchProgress(current, store, Step(current, store, p, replies[0]), replies[1..]);
    }
  }

  /**
   * Stall: after a failure without a usable number the range is 0, and from a block other than 0 no number
   * of answers moves the loop; every one of them asks for an empty interval.
   */
  lemma {:induction false} ZeroRangeStalls(current: head, store: bool, p: Progress, replies: seq<Reply>)
    requires 1 <= p.from <= current && p.range == 0
    requires forall r :: r in replies && r.Failed? ==> r.parsedRange == None || r.parsedRange == Some(0)
    ensures var r := Run(current, store, p, replies);
      && r.from == p.from && r.range == 0 && InLoop(current, r)
      && |r.answered| == |p.answered| + Answers(replies)
      && forall i :: |p.answered| <= i < |r.answered| ==> r.answered[i] == Range(p.from, p.from - 1)
    decreases |replies|
  {
    if replies == [] {
    } else {
      QueryReach(p.from, p.range, current);
      assert replies[0] in replies;
      var p' := Step(current, store, p, replies[0]);
      ZeroRangeStalls(current, store, p', replies[1..]);
      assert forall i :: |p.answered| <= i < |p'.answered| ==> p'.answered[i] == Range(p.from, p.from - 1);
      RunKeepsAnswered(current, store, p', replies[1..]);
    }
  }

  lemma {:induction false} RunKeepsAnswered(current: head, store: bool, p: Progress, replies: seq<Reply>)
    ensures p.answered <= Run(current, store, p, replies).answered
    decreases |replies|
  {
    if !InLoop(current, p) || replies == [] {
    } else {
      RunKeepsAnswered(current, store, Step(current, store, p, replies[0]), replies[1..]);
    }
  }

  // ---------------------------------------------------------------------------------------------
  // What a script of replies does, read off the script

  lemma {:induction false} RunSplits(current: head, store: bool, p: Progress, a: seq<Reply>, b: seq<Reply>)
    ensures Run(current, store, p, a + b) == Run(current, store, Run(current, store, p, a), b)
    decreases |a|
  {
    if a == [] {
      assert a + b == b;
    } else if InLoop(current, p) {
      assert (a + b)[0] == a[0] && (a + b)[1..] == a[1..] + b;
      RunSplits(current, store, Step(current, store, p, a[0]), a[1..], b);
    }
  }

  /** The same loop state without what was counted so far. */
  function Cleared(p: Progress): Progress {
    p.(answered := [], logs := 0)
  }

  function AddedTo(p: Progress, r: Progress): Progress {
    r.(answered := p.answered + r.answered, logs := p.logs + r.logs)
  }

  lemma {:induction false} StepAccumulates(current: head, store: bool, p: Progress, reply: Reply)
    requires InLoop(current, p)
    ensures Step(current, store, p, reply) == AddedTo(p, Step(current, store, Cleared(p), reply))
  {
  }

  /** What a run adds to the answered queries and the log count does not depend on what was there. */
  lemma {:induction false} RunAccumulates(current: head, store: bool, p: Progress, replies: seq<Reply>)
    ensures Run(current, store, p, replies) == AddedTo(p, Run(current, store, Cleared(p), replies))
    decreases |replies|
  {
    if !InLoop(current, p) || replies == [] {
    } else {
      var p1, q1 := Step(current, store, p, replies[0]), Step(current, store, Cleared(p), replies[0]);
      StepAccumulates(current, store, p, replies[0]);
      RunAccumulates(current, store, p1, replies[1..]);
      RunAccumulates(current, store, q1, replies[1..]);
      assert Cleared(p1) == Cleared(q1);
      var r := Run(current, store, Cleared(p1), replies[1..]);
      assert (p.answered + q1.answered) + r.answered == p.answered + (q1.answered + r.answered);
    }
  }

  predicate AllAnswers(replies: seq<Reply>) {
    forall r :: r in replies ==> r.Logs?
  }

  lemma {:induction false} AnswersKeepRange(current: head, store: bool, p: Progress, answers: seq<Reply>)
    requires AllAnswers(answers)
    ensures Run(current, store, p, answers).range == p.range
    decreases |answers|
  {
    if answers == [] || !InLoop(current, p) {
    } else {
      assert answers[0] in answers;
      AnswersKeepRange(current, store, Step(current, store, p, answers[0]), answers[1..]);
    }
  }

  /** While the loop runs, its range is what the last failure message said, or 0 if that said nothing. */
  lemma {:induction false} LastFailureSetsRange(current: head, store: bool, p: Progress, replies: seq<Reply>, i: nat)
    requires i < |replies| && replies[i].Failed? && AllAnswers(replies[i + 1..])
    requires InLoop(current, Run(current, store, p, replies))
    ensures Run(current, store, p, replies).range
         == match replies[i].parsedRange case Some(n) => n case None => 0
  {
    assert replies == replies[..i] + replies[i..] && replies[i..][1..] == replies[i + 1..];
    RunSplits(current, store, p, replies[..i], replies[i..]);
    var before := Run(current, store, p, replies[..i]);
    if InLoop(current, before) {
      AnswersKeepRange(current, store, Step(current, store, before, replies[i]), replies[i + 1..]);
    }
  }

  /** The first `k` intervals when the blocks from `from` to `current` are asked for `n` at a time. */
  function Cut(from: int, current: int, n: nat, k: nat): (pieces: seq<Range>)
    ensures |pieces| <= k
    decreases k
  {
    if k == 0 || from > current then []
    else [Range(from, Min(current, from + n - 1))] + Cut(from + n, current, n, k - 1)
  }

  lemma {:induction false} CutStep(from: int, current: int, n: nat, k: nat)
    requires from <= current && k >= 1
    ensures Cut(from, current, n, k)
         == [Range(from, Min(current, from + n - 1))] + Cut(Min(current + 1, from + n), current, n, k - 1)
  {
    if from + n > current {
      assert Cut(from + n, current, n, k - 1) == [] && Cut(current + 1, current, n, k - 1) == [];
    }
  }

  lemma {:induction false} CutAt(from: int, current: int, n: nat, k: nat, i: nat)
    requires i < |Cut(from, current, n, k)|
    ensures Cut(from, current, n, k)[i] == Range(from + i * n, Min(current, from + i * n + n - 1))
    decreases k
  {
    if i == 0 {
    } else {
      CutAt(from + n, current, n, k - 1, i - 1);
      assert i * n == (i - 1) * n + n;
    }
  }

  lemma {:induction false} AnswerAdvances(current: head, store: bool, p: Progress, answer: Reply)
    requires InLoop(current, p) && answer.Logs? && 1 <= p.range <= TWO_63
    ensures var p' := Step(current, store, p, answer);
      && p'.answered == p.answered + [Range(p.from, Min(current, p.from + p.range - 1))]
      && p'.from == Min(current + 1, p.from + p.range) && p'.range == p.range
  {
    QueryReach(p.from, p.range, current);
  }

  lemma {:induction false} JoinPieces(a: seq<Range>, piece: Range, rest: seq<Range>)
    ensures (a + [piece]) + rest == a + ([piece] + rest)
  {
  }

  /** Answers alone cut what is left into pieces of the range, up to the current block. */
  lemma {:induction false} AnswersCut(current: head, store: bool, p: Progress, answers: seq<Reply>)
    requires AllAnswers(answers) && 1 <= p.range <= TWO_63 && p.from <= current + 1
    ensures Run(current, store, p, answers).answered == p.answered + Cut(p.from, current, p.range, |answers|)
    decreases |answers|
  {
    if answers == [] || !InLoop(current, p) {
    } else {
      assert answers[0] in answers;
      AnswerAdvances(current, store, p, answers[0]);
      var p', rest := Step(current, store, p, answers[0]), answers[1..];
      AnswersCut(current, store, p', rest);
      CutStep(p.from, current, p.range, |answers|);
      JoinPieces(p.answered, Range(p.from, Min(current, p.from + p.range - 1)), Cut(p'.from, current, p.range, |rest|));
    }
  }

  /** Each answer is a query until the loop has ended. */
  lemma {:induction false} AnswersEnd(current: head, store: bool, p: Progress, answers: seq<Reply>)
    requires AllAnswers(answers) && 1 <= p.range <= TWO_63 && p.from <= current + 1
    ensures var r := Run(current, store, p, answers);
      |r.answered| - |p.answered| == |answers| || r.from == current + 1
    decreases |answers|
  {
    if answers == [] || !InLoop(current, p) {
    } else {
      assert answers[0] in answers;
      AnswerAdvances(current, store, p, answers[0]);
      AnswersEnd(current, store, Step(current, store, p, answers[0]), answers[1..]);
    }
  }

  /**
   * After a failure message with a number n the loop goes on at the same block with queries of n blocks, the last one
   * cut at the current block, until it ends or fails again.
   */
  lemma {:induction false} FailureCutsTheRest(current: head, store: bool, p: Progress, n: u64, answers: seq<Reply>)
    requires InLoop(current, p) && AllAnswers(answers) && 1 <= n <= TWO_63
    ensures var r := Run(current, store, p, [Failed(Some(n))] + answers);
      var done := |r.answered| - |p.answered|;
      && p.answered <= r.answered && r.range == n
      && (forall i :: 0 <= i < done ==>
            r.answered[|p.answered| + i] == Range(p.from + i * n, Min(current, p.from + i * n + n - 1)))
      && (done == |answers| || r.from == current + 1)
  {
    AfterFailure(current, store, p, n, answers);
    AllPieces(p.from, current, n, |answers|);
    var r := Run(current, store, p, [Failed(Some(n))] + answers);
    var pieces := Cut(p.from, current, n, |answers|);
    assert forall i :: 0 <= i < |pieces| ==> r.answered[|p.answered| + i] == pieces[i];
  }

  lemma {:induction false} AfterFailure(current: head, store: bool, p: Progress, n: u64, answers: seq<Reply>)
    requires InLoop(current, p) && AllAnswers(answers) && 1 <= n <= TWO_63
    ensures var r := Run(current, store, p, [Failed(Some(n))] + answers);
      && r.answered == p.answered + Cut(p.from, current, n, |answers|) && r.range == n
      && (|r.answered| - |p.answered| == |answers| || r.from == current + 1)
  {
    assert ([Failed(Some(n))] + answers)[1..] == answers;
    var p' := Step(current, store, p, Failed(Some(n)));
    AnswersCut(current, store, p', answers);
    AnswersEnd(current, store, p', answers);
    AnswersKeepRange(current, store, p', answers);
  }

  lemma {:induction false} AllPieces(from: int, current: int, n: nat, k: nat)
    ensures forall i :: 0 <= i < |Cut(from, current, n, k)| ==>
      Cut(from, current, n, k)[i] == Range(from + i * n, Min(current, from + i * n + n - 1))
  {
    forall i | 0 <= i < |Cut(from, current, n, k)|
      ensures Cut(from, current, n, k)[i] == Range(from + i * n, Min(current, from + i * n + n - 1))
    {
      CutAt(from, current, n, k, i);
    }
  }

  // ---------------------------------------------------------------------------------------------
  // Rounds of the realtime loop

  /** The queries answered in a round that is not cut off are consecutive and cover exactly [loop variable, head]. */
  lemma {:induction false} RoundPartition(t: Tailing, round: Round)
    requires RangesAtMost(t.range, round.replies, TWO_63) && !AfterRound(t, round).cut
    ensures var t' := AfterRound(t, round);
      && t.answered <= t'.answered
      && var got := t'.answered[|t.answered|..];
         if HeadOf(t, round) < t.from then got == [] else Tiles(got, t.from, HeadOf(t, round) + 1)
  {
    if t.from <= HeadOf(t, round) {
      FetchPartition(HeadOf(t, round), false, RoundStart(t), round.replies, t.from);
    }
  }

  /** The range a round ends with is the one its last failure message set, and the next round starts with it. */
  lemma {:induction false} RoundFollowsFailure(t: Tailing, newHead: head, n: u64, answers: seq<Reply>)
    requires AllAnswers(answers) && 1 <= n <= TWO_63 && !t.cut && t.from <= newHead
    ensures var t' := AfterRound(t, Round(Some(newHead), [Failed(Some(n))] + answers));
      var done := |t'.answered| - |t.answered|;
      && t.answered <= t'.answered && t'.range == n
      && (forall i :: 0 <= i < done ==>
            t'.answered[|t.answered| + i] == Range(t.from + i * n, Min(newHead, t.from + i * n + n - 1)))
      && (done == |answers| || !t'.cut)
  {
    FailureCutsTheRest(newHead, false, RoundStart(t), n, answers);
  }

  lemma {:induction false} RangeStays(current: head, store: bool, p: Progress, replies: seq<Reply>)
    requires RangesAtMost(p.range, replies, TWO_63) && RangesPositive(p.range, replies)
    ensures 1 <= Run(current, store, p, replies).range <= TWO_63
    decreases |replies|
  {
    if !InLoop(current, p) || replies == [] {
    } else {
      assert replies[0] in replies;
      RangeStays(current, store, Step(current, store, p, replies[0]), replies[1..]);
    }
  }

  /** A round with positive ranges and as many answers as there are blocks to ask for is not cut off. */
  lemma {:induction false} RoundEnds(t: Tailing, round: Round)
    requires !t.cut && RangesPositive(t.range, round.replies) && RangesAtMost(t.range, round.replies, TWO_63)
    requires Answers(round.replies) >= HeadOf(t, round) - t.from + 1
    ensures !AfterRound(t, round).cut && 1 <= AfterRound(t, round).range <= TWO_63
  {
    if t.from <= HeadOf(t, round) {
      FetchProgress(HeadOf(t, round), false, RoundStart(t), round.replies);
      RangeStays(HeadOf(t, round), false, RoundStart(t), round.replies);
    }
  }

  /** Failure messages carry a usable number, and there are answers enough for every block up to the head. */
  predicate Responsive(round: Round, h: head) {
    && RangesPositive(1, round.replies) && RangesAtMost(1, round.replies, TWO_63)
    && Answers(round.replies) > h
  }

  predicate AllResponsive(first: head, rounds: seq<Round>) {
    forall k :: 1 <= k <= |rounds| ==> Responsive(rounds[k - 1], LastHead(first, rounds[..k]))
  }

  lemma {:induction false} ResponsiveInit(first: head, rounds: seq<Round>)
    requires AllResponsive(first, rounds) && rounds != []
    ensures AllResponsive(first, rounds[..|rounds| - 1])
    ensures Responsive(rounds[|rounds| - 1], LastHead(first, rounds))
  {
    var init := rounds[..|rounds| - 1];
    assert rounds[..|rounds|] == rounds;
    forall k | 1 <= k <= |init|
      ensures Responsive(init[k - 1], LastHead(first, init[..k]))
    {
      assert init[..k] == rounds[..k];
    }
  }

  lemma {:induction false} NeverCut(t: Tailing, rounds: seq<Round>)
    requires !t.cut && 1 <= t.range <= TWO_63 && AllResponsive(t.current, rounds)
    ensures !AfterRounds(t, rounds).cut && 1 <= AfterRounds(t, rounds).range <= TWO_63
    decreases |rounds|
  {
    if rounds == [] {
    } else {
      var n := |rounds| - 1;
      ResponsiveInit(t.current, rounds);
      NeverCut(t, rounds[..n]);
      RealtimeCovers(t, rounds[..n]);
      RoundEnds(AfterRounds(t, rounds[..n]), rounds[n]);
    }
  }

  /** With responsive rounds the loop keeps up: every block from the start to the greatest head seen is asked for. */
  lemma {:induction false} RealtimeKeepsUp(t: Tailing, rounds: seq<Round>)
    requires !t.cut && 1 <= t.range <= TWO_63 && AllResponsive(t.current, rounds)
    ensures var t' := AfterRounds(t, rounds);
      && !t'.cut
      && forall k, b :: 1 <= k <= |rounds| && t.from <= b <= LastHead(t.current, rounds[..k]) ==> Asked(t'.answered, b)
  {
    NeverCut(t, rounds);
    RealtimeCovers(t, rounds);
  }

  /** How many logs a script's answers bring. */
  function LogCount(replies: seq<Reply>): nat {
    if replies == [] then 0 else (if replies[0].Logs? then replies[0].count else 0) + LogCount(replies[1..])
  }

  /** The loop reads replies until it ends; each answer read adds one query and its logs to the count. */
  lemma {:induction false} RunCounts(current: head, store: bool, p: Progress, replies: seq<Reply>) returns (read: nat)
    ensures read <= |replies|
    ensures var r := Run(current, store, p, replies);
      && r == Run(current, store, p, replies[..read]) && (read == |replies| || !InLoop(current, r))
      && |r.answered| == |p.answered| + Answers(replies[..read])
      && r.logs == p.logs + LogCount(replies[..read])
    decreases |replies|
  {
    if !InLoop(current, p) || replies == [] {
      read := 0;
    } else {
      read := RunCounts(current, store, Step(current, store, p, replies[0]), replies[1..]);
      read := read + 1;
      assert replies[..read][0] == replies[0] && replies[..read][1..] == replies[1..][..read - 1];
    }
  }

  /** The row holds what it held or the end of an answered query, and the last one if no write was lost. */
  lemma {:induction false} RunCheckpoint(current: head, p: Progress, replies: seq<Reply>)
    ensures var r := Run(current, true, p, replies);
      var got := r.answered;
      && |p.answered| <= |got|
      && (r.checkpoint == p.checkpoint || exists i :: |p.answered| <= i < |got| && r.checkpoint == Some(got[i].hi))
      && (|p.answered| < |got| && (forall a :: a in replies && a.Logs? ==> !a.checkpointLost) ==>
            r.checkpoint == Some(got[|got| - 1].hi) && r.from == got[|got| - 1].hi + 1)
    decreases |replies|
  {
    if !InLoop(current, p) || replies == [] {
    } else {
      QueryReach(p.from, p.range, current);
      assert replies[0] in replies;
      var p' := Step(current, true, p, replies[0]);
      var got := Run(current, true, p', replies[1..]).answered;
      RunCheckpoint(current, p', replies[1..]);
      RunKeepsAnswered(current, true, p', replies[1..]);
      if |p'.answered| == |got| {
        StuckRun(current, true, p', replies[1..]);
      }
      if replies[0].Logs? {
        assert got[|p.answered|] == p'.answered[|p.answered|] == QueryRange(p.from, p.range, current);
      }
    }
  }

  /** Without an answer nothing but the range and the query changes. */
  lemma {:induction false} StuckRun(current: head, store: bool, p: Progress, replies: seq<Reply>)
    requires |Run(current, store, p, replies).answered| == |p.answered|
    ensures var r := Run(current, store, p, replies); r.from == p.from && r.checkpoint == p.checkpoint
    decreases |replies|
  {
    if !InLoop(current, p) || replies == [] {
    } else {
      var p' := Step(current, store, p, replies[0]);
      RunKeepsAnswered(current, store, p', replies[1..]);
      StuckRun(current, store, p', replies[1..]);
    }
  }

  /** An oversized range wraps: the end of the query falls before its start and the loop moves backwards. */
  lemma {:induction false} OversizedRangeRetreats()
    ensures QueryRange(5, TWO_64 - 3, 100) == Range(5, 1)
    ensures Step(100, false, Progress(5, TWO_64 - 3, Range(0, 0), [], None, 0), Logs(0, false)).from == 2
  {
    QueryReach(5, TWO_64 - 3, 100);
    assert (5 + (TWO_64 - 3) - 1) % TWO_64 == 1;
  }
}
