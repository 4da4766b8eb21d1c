/**
 * Recovery and realtime fetching side by side, over any number of process lifetimes
 * (pkg/evm/client.go and pkg/evm/fetcher.go), as a state machine whose steps are the points between
 * which the two goroutines interleave and the process can stop.
 *
 * Both loops are handed the address of one query. `shared` says whether they really use one query or
 * each own one: writing a shared query changes what the other loop reads.
 */
module FetchProtocol {
  import opened Basics
  import opened Intervals
  import opened LogFetcher

  const LOGS_CHANNEL: nat := 1024

  /** The points of one FetchRangeLogs iteration. */
  datatype Point = AtLoop | Asking | Answered | Sent | Stored

  /** An activation of FetchRangeLogs; `got` is the interval the answered query asked for. */
  datatype Call = NoCall | Call(from: u64, current: head, range: u64, at: Point, got: Range)

  /** The realtime goroutine's own variables; `start` is the head it was started with. */
  datatype Realtime = Off | Realtime(start: head, from: u64, current: head, range: u64)

  datatype Who = Recovery | Tail

  datatype State = State(
    shared: bool,
    startBlock: head,
    checkpoint: Option<head>,
    recoveryQuery: Range, tailQuery: Range,
    recovery: Call, tail: Call, realtime: Realtime,
    recovered: set<int>,   // blocks whose logs recovery has sent on
    tailed: set<int>,      // blocks whose logs the realtime loop has sent on
    channel: seq<Range>,   // sent, not yet taken by the processor
    saved: set<int>,       // processed
    lost: set<int>)        // in the channel when the process stopped, or not saved by the processor

  datatype Action =
    | Boot(currentBlock: head, unreadable: bool, recoverRange: u64, fetchRange: u64)
    | Poll(newHead: head)
    | Ask(who: Who)
    | Refuse(who: Who, parsedRange: Option<u64>)
    | Answer(who: Who)
    | Send(who: Who, anyLogs: bool)
    | Store(checkpointLost: bool)
    | SkipStore
    | Advance(who: Who)
    | Return(who: Who)
    | Process(ok: bool)
    | Stop

  predicate Within(r: Range, b: int) {
    r.lo <= b <= r.hi
  }

  function Blocks(r: Range): set<int> {
    set b | r.lo <= b <= r.hi && Within(r, b)
  }

  function BlocksOf(rs: seq<Range>): set<int> {
    if rs == [] then {} else Blocks(rs[0]) + BlocksOf(rs[1..])
  }

  function CallOf(s: State, who: Who): Call {
    if who.Recovery? then s.recovery else s.tail
  }

  function QueryOf(s: State, who: Who): Range {
    if who.Recovery? then s.recoveryQuery else s.tailQuery
  }

  function SetCall(s: State, who: Who, c: Call): State {
    if who.Recovery? then s.(recovery := c) else s.(tail := c)
  }

  /** Writing the query: one object for both loops when it is shared. */
  function WriteQuery(s: State, who: Who, q: Range): State {
    if s.shared then s.(recoveryQuery := q, tailQuery := q)
    else if who.Recovery? then s.(recoveryQuery := q) else s.(tailQuery := q)
  }

  predicate At(s: State, who: Who, p: Point) {
    var c := CallOf(s, who);
    c.Call? && c.at == p
  }

  function First(startBlock: head): int {
    Max(startBlock, 1)
  }

  /** A fresh database and no process. */
  function Initial(shared: bool, startBlock: head): State {
    State(shared, startBlock, None, Range(0, 0), Range(0, 0), NoCall, NoCall, Off, {}, {}, [], {}, {})
  }

  predicate Enabled(s: State, a: Action) {
    match a
    case Boot(_, _, _, _) => s.realtime.Off?
    case Poll(_) => s.realtime.Realtime? && s.tail.NoCall?
    case Ask(who) => At(s, who, AtLoop) && CallOf(s, who).from <= CallOf(s, who).current
    case Refuse(who, _) => At(s, who, Asking)
    case Answer(who) => At(s, who, Asking)
    case Send(who, any) => At(s, who, Answered) && (any ==> |s.channel| < LOGS_CHANNEL)
    case Store(_) => At(s, Recovery, Sent) && 0 <= s.recoveryQuery.hi < TWO_63
    case SkipStore => At(s, Tail, Sent)
    case Advance(who) => At(s, who, Stored) && 0 <= QueryOf(s, who).hi < TWO_63
    case Return(who) =>
      && At(s, who, AtLoop) && CallOf(s, who).from > CallOf(s, who).current
      && (who.Tail? ==> s.realtime.Realtime?)
    case Process(_) => s.channel != []
    case Stop => s.realtime.Realtime?
  }

  function Apply(s: State, a: Action): State
    requires Enabled(s, a)
  {
    match a
    case Boot(currentBlock, unreadable, recoverRange, fetchRange) =>
      var last: head := if unreadable || s.checkpoint.None? then 0 else s.checkpoint.value;
      var from := Max(s.startBlock, last + 1);
      s.(recovery := if from <= currentBlock then Call(from, currentBlock, recoverRange, AtLoop, Range(0, 0)) else NoCall,
         realtime := Realtime(currentBlock, currentBlock, 0, fetchRange))
    case Poll(h) =>
      var rt := s.realtime;
      if rt.from <= h then
        s.(realtime := rt.(current := h), tail := Call(rt.from, h, rt.range, AtLoop, Range(0, 0)))
      else
        s.(realtime := rt.(current := h, from := h + 1))
    case Ask(who) =>
      var c := CallOf(s, who);
      WriteQuery(SetCall(s, who, c.(at := Asking)), who, QueryRange(c.from, c.range, c.current))
    case Refuse(who, parsed) =>
      var c := CallOf(s, who);
      var c' := c.(at := AtLoop, range := if parsed.Some? then parsed.value else 0);
      var s' := SetCall(s, who, c');
      if parsed.Some? then WriteQuery(s', who, QueryRange(c.from, c'.range, c.current)) else s'
    case Answer(who) =>
      SetCall(s, who, CallOf(s, who).(at := Answered, got := QueryOf(s, who)))
    case Send(who, anyLogs) =>
      var c := CallOf(s, who);
      var s1 := SetCall(s, who, c.(at := Sent));
      var s2 := if who.Recovery? then s1.(recovered := s1.recovered + Blocks(c.got))
                else s1.(tailed := s1.tailed + Blocks(c.got));
      if anyLogs then s2.(channel := s2.channel + [c.got]) else s2.(saved := s2.saved + Blocks(c.got))
    case Store(checkpointLost) =>
      var s' := SetCall(s, Recovery, s.recovery.(at := Stored));
      if checkpointLost then s' else s'.(checkpoint := Some(s.recoveryQuery.hi))
    case SkipStore =>
      SetCall(s, Tail, s.tail.(at := Stored))
    case Advance(who) =>
      SetCall(s, who, CallOf(s, who).(at := AtLoop, from := QueryOf(s, who).hi + 1))
    case Return(who) =>
      if who.Recovery? then s.(recovery := NoCall)
      else s.(tail := NoCall, realtime := s.realtime.(from := s.realtime.current + 1, range := s.tail.range))
    case Process(ok) =>
      var done := Blocks(s.channel[0]);
      if ok then s.(channel := s.channel[1..], saved := s.saved + done)
      else s.(channel := s.channel[1..], lost := s.lost + done)
    case Stop =>
      s.(recovery := NoCall, tail := NoCall, realtime := Off,
         recoveryQuery := Range(0, 0), tailQuery := Range(0, 0), channel := [], lost := s.lost + BlocksOf(s.channel))
  }

  /** `s'` is what a sequence of enabled actions makes of `s`. */
  predicate Execution(s: State, run: seq<Action>, s': State)
    decreases |run|
  {
    if run == [] then s == s'
    else Enabled(s, run[0]) && Execution(Apply(s, run[0]), run[1..], s')
  }

  /** Extends an execution by one enabled action. */
  lemma {:induction false} Then(s0: State, run: seq<Action>, s: State, a: Action) returns (run': seq<Action>, s': State)
    requires Execution(s0, run, s) && Enabled(s, a)
    ensures run' == run + [a] && s' == Apply(s, a) && Execution(s0, run', s')
    decreases |run|
  {
    run', s' := run + [a], Apply(s, a);
    if run == [] {
      assert run' == [a] && [a][1..] == [];
    } else {
      var tail, _ := Then(Apply(s0, run[0]), run[1..], s, a);
      assert run'[1..] == tail;
    }
  }

  // ---------------------------------------------------------------------------------------------
  // Coverage

  function Other(who: Who): Who {
    if who.Recovery? then Tail else Recovery
  }

  /** The loop is inside an iteration, between writing the query and moving on. */
  predicate Busy(c: Call) {
    c.Call? && !c.at.AtLoop?
  }

  /** On a shared query, a loop starts an iteration only while the other is not inside one. */
  predicate SerialStep(s: State, a: Action) {
    s.shared && a.Ask? ==> !Busy(CallOf(s, Other(a.who)))
  }

  /** The iterations of the two loops do not overlap on a shared query. With own queries that asks for nothing. */
  predicate Serial(s: State, run: seq<Action>)
    decreases |run|
  {
    run == [] || (SerialStep(s, run[0]) && (Enabled(s, run[0]) ==> Serial(Apply(s, run[0]), run[1..])))
  }

  predicate Covered(lo: int, end: int, covered: set<int>) {
    forall b :: lo <= b < end ==> b in covered
  }

  predicate CallInv(c: Call, q: Range, lo: int, covered: set<int>) {
    c.Call? ==>
      && Covered(lo, c.from, covered)
      && (!c.at.AtLoop? ==> c.from <= c.current && q == QueryRange(c.from, c.range, c.current))
      && (c.at.Answered? || c.at.Sent? || c.at.Stored? ==> c.got == q)
      && (c.at.Sent? || c.at.Stored? ==> Covered(c.from, q.hi + 1, covered))
  }

  predicate RecoveryInv(s: State) {
    && (s.checkpoint.Some? ==> Covered(First(s.startBlock), s.checkpoint.value + 1, s.recovered))
    && CallInv(s.recovery, s.recoveryQuery, First(s.startBlock), s.recovered)
    && (s.realtime.Realtime? ==>
         if s.recovery.Call? then s.recovery.current == s.realtime.start
         else Covered(First(s.startBlock), s.realtime.start + 1, s.recovered))
  }

  predicate RealtimeInv(s: State) {
    s.realtime.Realtime? ==>
      && Covered(s.realtime.start, s.realtime.from, s.tailed)
      && CallInv(s.tail, s.tailQuery, s.realtime.start, s.tailed)
      && (s.tail.Call? ==> s.tail.current == s.realtime.current)
  }

  predicate CoverageInv(s: State) {
    && (s.shared ==> !(Busy(s.recovery) && Busy(s.tail)))
    && (s.realtime.Off? ==> s.recovery.NoCall? && s.tail.NoCall?)
    && RecoveryInv(s)
    && RealtimeInv(s)
  }

  lemma {:induction false} CoverageBoot(s: State, a: Action)
    requires CoverageInv(s) && Enabled(s, a) && (a.Boot? || a.Stop?)
    ensures CoverageInv(Apply(s, a))
  {
  }

  lemma {:induction false} CoveragePoll(s: State, a: Action)
    requires CoverageInv(s) && Enabled(s, a) && (a.Poll? || a.Process?)
    ensures CoverageInv(Apply(s, a))
  {
  }

  lemma {:induction false} CoverageAsk(s: State, a: Action)
    requires CoverageInv(s) && Enabled(s, a) && SerialStep(s, a) && a.Ask?
    ensures CoverageInv(Apply(s, a))
  {
  }

  lemma {:induction false} CoverageRefuse(s: State, a: Action)
    requires CoverageInv(s) && Enabled(s, a) && a.Refuse?
    ensures CoverageInv(Apply(s, a))
  {
  }

  lemma {:induction false} CoverageAnswer(s: State, a: Action)
    requires CoverageInv(s) && Enabled(s, a) && a.Answer?
    ensures CoverageInv(Apply(s, a))
  {
  }

  lemma {:induction false} CoverageSend(s: State, a: Action)
    requires CoverageInv(s) && Enabled(s, a) && a.Send?
    ensures CoverageInv(Apply(s, a))
  {
    var c := CallOf(s, a.who);
    QueryReach(c.from, c.range, c.current);
  }

  lemma {:induction false} CoverageStore(s: State, a: Action)
    requires CoverageInv(s) && Enabled(s, a) && (a.Store? || a.SkipStore?)
    ensures CoverageInv(Apply(s, a))
  {
  }

  lemma {:induction false} CoverageAdvance(s: State, a: Action)
    requires CoverageInv(s) && Enabled(s, a) && (a.Advance? || a.Return?)
    ensures CoverageInv(Apply(s, a))
  {
  }

  lemma {:induction false} CoverageStep(s: State, a: Action)
    requires CoverageInv(s) && Enabled(s, a) && SerialStep(s, a)
    ensures CoverageInv(Apply(s, a))
  {
    match a {
      case Boot(_, _, _, _) => CoverageBoot(s, a);
      case Poll(_) => CoveragePoll(s, a);
      case Process(_) => CoveragePoll(s, a);
      case Stop => CoverageBoot(s, a);
      case Ask(_) => CoverageAsk(s, a);
      case Refuse(_, _) => CoverageRefuse(s, a);
      case Answer(_) => CoverageAnswer(s, a);
      case Send(_, _) => CoverageSend(s, a);
      case Store(_) => CoverageStore(s, a);
      case SkipStore => CoverageStore(s, a);
      case Advance(_) => CoverageAdvance(s, a);
      case Return(_) => CoverageAdvance(s, a);
    }
  }

  lemma {:induction false} CoverageRun(s: State, run: seq<Action>, s': State)
    requires CoverageInv(s) && Execution(s, run, s') && Serial(s, run)
    ensures CoverageInv(s') && s'.startBlock == s.startBlock
    decreases |run|
  {
    if run == [] {
    } else {
      CoverageStep(s, run[0]);
      CoverageRun(Apply(s, run[0]), run[1..], s');
    }
  }

  /**
   * What a maintainer wants of a state: every block from max(StartBlock, 1) to the stored checkpoint, and to
   * recovery's loop variable, was in an answered recovery query whose logs were sent on; so was every block from
   * the realtime start to its loop variable; and once recovery has ended the two meet without a gap.
   */
  ghost predicate Safe(s: State) {
    var first := First(s.startBlock);
    && (s.checkpoint.Some? ==> Covered(first, s.checkpoint.value + 1, s.recovered))
    && (s.recovery.Call? ==> Covered(first, s.recovery.from, s.recovered))
    && (s.realtime.Realtime? ==> Covered(s.realtime.start, s.realtime.from, s.tailed))
    && (s.realtime.Realtime? && s.recovery.NoCall? ==> Covered(first, s.realtime.from, s.recovered + s.tailed))
  }

  /**
   * Restart safety, realtime no-gap and no gap between the two, in every state reachable with any answers, any
   * heads (falling ones and the 0 of a failed read included), lost checkpoint writes and stops at any step, as long
   * as iterations on a shared query do not overlap. Loops with a query each may interleave in any way.
   */
  lemma {:induction false} RestartSafety(shared: bool, startBlock: head, run: seq<Action>, s: State)
    requires Execution(Initial(shared, startBlock), run, s) && Serial(Initial(shared, startBlock), run)
    ensures Safe(s) && s.startBlock == startBlock
  {
    CoverageRun(Initial(shared, startBlock), run, s);
  }

  lemma {:induction false} OwnQueriesAreSerial(s: State, run: seq<Action>)
    requires !s.shared
    ensures Serial(s, run)
    decreases |run|
  {
    if run == [] || !Enabled(s, run[0]) {
    } else {
      OwnQueriesAreSerial(Apply(s, run[0]), run[1..]);
    }
  }

  /** No enabling condition ever blocks a loop that owns its query or its turn, other than a full channel. */
  lemma {:induction false} NeverBlocks(s: State, who: Who)
    requires CoverageInv(s) && CallOf(s, who).Call? && s.realtime.Realtime?
    ensures match CallOf(s, who).at
      case AtLoop => Enabled(s, Ask(who)) || Enabled(s, Return(who))
      case Asking => Enabled(s, Answer(who)) && forall r :: Enabled(s, Refuse(who, r))
      case Answered => Enabled(s, Send(who, false)) && (|s.channel| < LOGS_CHANNEL ==> Enabled(s, Send(who, true)))
      case Sent => if who.Recovery? then forall l :: Enabled(s, Store(l)) else Enabled(s, SkipStore)
      case Stored => Enabled(s, Advance(who))
  {
    var c := CallOf(s, who);
    if !c.at.AtLoop? {
      QueryReach(c.from, c.range, c.current);
    }
  }

  // ---------------------------------------------------------------------------------------------
  // Iterations

  /** A loop after its query was answered and the logs sent on. */
  function BatchSent(s: State, who: Who, anyLogs: bool): State
    requires At(s, who, AtLoop)
  {
    var c := CallOf(s, who);
    var q := QueryRange(c.from, c.range, c.current);
    var s1 := WriteQuery(SetCall(s, who, c.(at := Sent, got := q)), who, q);
    var s2 := if who.Recovery? then s1.(recovered := s1.recovered + Blocks(q)) else s1.(tailed := s1.tailed + Blocks(q));
    if anyLogs then s2.(channel := s2.channel + [q]) else s2.(saved := s2.saved + Blocks(q))
  }

  lemma {:induction false} AskAndSend(s0: State, run: seq<Action>, s: State, who: Who, anyLogs: bool)
    returns (run': seq<Action>)
    requires Execution(s0, run, s)
    requires At(s, who, AtLoop) && CallOf(s, who).from <= CallOf(s, who).current
    requires anyLogs ==> |s.channel| < LOGS_CHANNEL
    ensures run' == run + [Ask(who), Answer(who), Send(who, anyLogs)]
    ensures Execution(s0, run', BatchSent(s, who, anyLogs))
  {
    var s' := s;
    run', s' := Then(s0, run, s', Ask(who));
    run', s' := Then(s0, run', s', Answer(who));
    run', s' := Then(s0, run', s', Send(who, anyLogs));
  }

  lemma {:induction false} StoreAndAdvance(s0: State, run: seq<Action>, s: State, who: Who, lost: bool)
    returns (run': seq<Action>, s': State)
    requires Execution(s0, run, s) && At(s, who, Sent) && 0 <= QueryOf(s, who).hi < TWO_63
    ensures Execution(s0, run', s')
    ensures s' == SetCall(s, who, CallOf(s, who).(at := AtLoop, from := QueryOf(s, who).hi + 1))
                  .(checkpoint := if who.Recovery? && !lost then Some(QueryOf(s, who).hi) else s.checkpoint)
  {
    if who.Recovery? {
      run', s' := Then(s0, run, s, Store(lost));
    } else {
      run', s' := Then(s0, run, s, SkipStore);
    }
    run', s' := Then(s0, run', s', Advance(who));
  }

  /** The blocks whose logs a loop has sent on. */
  function SentBy(s: State, who: Who): set<int> {
    if who.Recovery? then s.recovered else s.tailed
  }

  /** The loop's variables and query and the checkpoint row, after an activation with the given answers. */
  function ProgressOf(s: State, who: Who, answered: seq<Range>, logs: nat): Progress
    requires CallOf(s, who).Call?
  {
    Progress(CallOf(s, who).from, CallOf(s, who).range, QueryOf(s, who), answered, s.checkpoint, logs)
  }

  /** Only loop `who` has done something, besides what has become of the channel. */
  predicate OnlyMoved(s: State, who: Who, s': State) {
    && s'.shared == s.shared && s'.startBlock == s.startBlock && s'.realtime == s.realtime && s'.lost == s.lost
    && CallOf(s', Other(who)) == CallOf(s, Other(who)) && SentBy(s', Other(who)) == SentBy(s, Other(who))
    && (!s.shared ==> QueryOf(s', Other(who)) == QueryOf(s, Other(who)))
    && (who.Tail? ==> s'.checkpoint == s.checkpoint)
    && At(s, who, AtLoop) && At(s', who, AtLoop) && CallOf(s', who).current == CallOf(s, who).current
  }

  lemma {:induction false} OneRange(r: Range)
    ensures BlocksOf([r]) == Blocks(r)
  {
    assert [r][1..] == [];
  }

  lemma {:induction false} AnsweredIteration(s: State, who: Who, reply: Reply) returns (run: seq<Action>, s': State)
    requires At(s, who, AtLoop) && CallOf(s, who).from <= CallOf(s, who).current && reply.Logs?
    requires reply.count > 0 ==> |s.channel| < LOGS_CHANNEL
    ensures Execution(s, run, s')
    ensures var c := CallOf(s, who);
      var q := QueryRange(c.from, c.range, c.current);
      && 0 <= q.hi < TWO_63
      && s' == SetCall(BatchSent(s, who, reply.count > 0), who, c.(at := AtLoop, from := q.hi + 1, got := q))
                 .(checkpoint := if who.Recovery? && !reply.checkpointLost then Some(q.hi) else s.checkpoint)
  {
    var c := CallOf(s, who);
    QueryReach(c.from, c.range, c.current);
    run := AskAndSend(s, [], s, who, reply.count > 0);
    run, s' := StoreAndAdvance(s, run, BatchSent(s, who, reply.count > 0), who, reply.checkpointLost);
  }

  lemma {:induction false} RefusedIteration(s: State, who: Who, parsed: Option<u64>) returns (run: seq<Action>, s': State)
    requires At(s, who, AtLoop) && CallOf(s, who).from <= CallOf(s, who).current
    ensures Execution(s, run, s')
    ensures var c := CallOf(s, who);
      s' == WriteQuery(SetCall(s, who, c.(range := if parsed.Some? then parsed.value else 0)), who,
                       QueryRange(c.from, if parsed.Some? then parsed.value else c.range, c.current))
  {
    run, s' := Then(s, [], s, Ask(who));
    run, s' := Then(s, run, s', Refuse(who, parsed));
  }

  /**
   * The points of an undisturbed iteration of either loop, answered or refused, amount to one step of the fetch loop:
   * its variables, query and checkpoint row, the blocks sent on, and the batch put on the channel if there are logs.
   */
  lemma {:induction false} IterationIsOneStep(s: State, who: Who, reply: Reply) returns (run: seq<Action>, s': State)
    requires At(s, who, AtLoop) && CallOf(s, who).from <= CallOf(s, who).current
    requires reply.Logs? && reply.count > 0 ==> |s.channel| < LOGS_CHANNEL
    ensures Execution(s, run, s') && OnlyMoved(s, who, s')
    ensures var p := Step(CallOf(s, who).current, who.Recovery?, ProgressOf(s, who, [], 0), reply);
      && p == ProgressOf(s', who, p.answered, p.logs)
      && SentBy(s', who) == SentBy(s, who) + BlocksOf(p.answered)
      && s'.channel == s.channel + (if p.logs > 0 then p.answered else [])
      && s'.saved == s.saved + (if p.logs > 0 then {} else BlocksOf(p.answered))
  {
    if reply.Logs? {
      OneRange(QueryRange(CallOf(s, who).from, CallOf(s, who).range, CallOf(s, who).current));
      run, s' := AnsweredIteration(s, who, reply);
    } else {
      run, s' := RefusedIteration(s, who, reply.parsedRange);
    }
  }

  lemma {:induction false} Joined(s: State, a: seq<Action>, m: State, b: seq<Action>, s': State)
    requires Execution(s, a, m) && Execution(m, b, s')
    ensures Execution(s, a + b, s')
    decreases |a|
  {
    if a == [] {
      assert a + b == b;
    } else {
      assert (a + b)[1..] == a[1..] + b;
      Joined(Apply(s, a[0]), a[1..], m, b, s');
    }
  }

  lemma {:induction false} BlocksOfConcat(a: seq<Range>, b: seq<Range>)
    ensures BlocksOf(a + b) == BlocksOf(a) + BlocksOf(b)
    decreases |a|
  {
    if a == [] {
      assert a + b == b;
    } else {
      assert (a + b)[1..] == a[1..] + b;
      BlocksOfConcat(a[1..], b);
    }
  }

  /** An iteration that finds the channel full waits until the processor has taken a batch. */
  lemma {:induction false} IterationWithRoom(s: State, who: Who, reply: Reply) returns (run: seq<Action>, s': State)
    requires At(s, who, AtLoop) && CallOf(s, who).from <= CallOf(s, who).current && |s.channel| <= LOGS_CHANNEL
    ensures Execution(s, run, s') && OnlyMoved(s, who, s') && |s'.channel| <= LOGS_CHANNEL
    ensures var p := Step(CallOf(s, who).current, who.Recovery?, ProgressOf(s, who, [], 0), reply);
      && p == ProgressOf(s', who, p.answered, p.logs)
      && SentBy(s', who) == SentBy(s, who) + BlocksOf(p.answered)
  {
    if |s.channel| == LOGS_CHANNEL {
      var run0, s0 := Then(s, [], s, Process(true));
      run, s' := IterationIsOneStep(s0, who, reply);
      Joined(s, run0, s0, run, s');
      run := run0 + run;
    } else {
      run, s' := IterationIsOneStep(s, who, reply);
    }
  }

  /** A whole script of replies to an activation of either loop has the effect of the fetch loop's run on it. */
  lemma {:induction false} IterationsAreRun(s: State, who: Who, replies: seq<Reply>) returns (run: seq<Action>, s': State)
    requires At(s, who, AtLoop) && |s.channel| <= LOGS_CHANNEL
    ensures Execution(s, run, s') && OnlyMoved(s, who, s') && |s'.channel| <= LOGS_CHANNEL
    ensures var p := Run(CallOf(s, who).current, who.Recovery?, ProgressOf(s, who, [], 0), replies);
      && p == ProgressOf(s', who, p.answered, p.logs)
      && SentBy(s', who) == SentBy(s, who) + BlocksOf(p.answered)
    decreases |replies|
  {
    var current, p := CallOf(s, who).current, ProgressOf(s, who, [], 0);
    if replies == [] || !InLoop(current, p) {
      run, s' := [], s;
    } else {
      var run0, s0 := IterationWithRoom(s, who, replies[0]);
      run, s' := IterationsAreRun(s0, who, replies[1..]);
      Joined(s, run0, s0, run, s');
      run := run0 + run;
      var p0 := Step(current, who.Recovery?, p, replies[0]);
      RunAccumulates(current, who.Recovery?, p0, replies[1..]);
      BlocksOfConcat(p0.answered, Run(current, who.Recovery?, ProgressOf(s0, who, [], 0), replies[1..]).answered);
    }
  }

  /** The realtime goroutine of a state, as a loop that is about to begin a round. */
  function TailingOf(s: State): Tailing
    requires s.realtime.Realtime?
  {
    Tailing(s.realtime.from, s.realtime.current, s.realtime.range, s.tailQuery, [], false)
  }

  /** A round of the realtime goroutine has the effect of one round of the realtime loop. */
  lemma {:induction false} RoundIsOneStep(s: State, round: Round) returns (run: seq<Action>, s': State)
    requires s.realtime.Realtime? && s.tail.NoCall? && |s.channel| <= LOGS_CHANNEL
    requires !AfterRound(TailingOf(s), round).cut
    ensures Execution(s, run, s') && s'.tail.NoCall? && s'.recovery == s.recovery && s'.checkpoint == s.checkpoint
    ensures var t := AfterRound(TailingOf(s), round);
      && s'.realtime == Realtime(s.realtime.start, t.from, t.current, t.range) && s'.tailQuery == t.query
      && s'.tailed == s.tailed + BlocksOf(t.answered) && s'.recovered == s.recovered
  {
    var h := HeadOf(TailingOf(s), round);
    assert BlocksOf([]) == {};
    run, s' := Then(s, [], s, Poll(h));
    if s.realtime.from <= h {
      var s0, run0 := s', run;
      RunIgnoresRow(h, RoundStart(TailingOf(s)), s.checkpoint, round.replies);
      var r := Run(h, false, RoundStart(TailingOf(s)), round.replies);
      assert [] + r.answered == r.answered;
      run, s' := IterationsAreRun(s0, Tail, round.replies);
      Joined(s, run0, s0, run, s');
      run, s' := Then(s, run0 + run, s', Return(Tail));
    }
  }

  /** An activation of recovery runs through a script of replies, and returns if that ends it. */
  lemma {:induction false} RecoveryPass(s: State, replies: seq<Reply>) returns (run: seq<Action>, s': State)
    requires At(s, Recovery, AtLoop) && |s.channel| <= LOGS_CHANNEL
    ensures Execution(s, run, s') && s'.tail == s.tail && s'.tailed == s.tailed && s'.realtime == s.realtime
    ensures var p := Run(s.recovery.current, true, ProgressOf(s, Recovery, [], 0), replies);
      && s'.checkpoint == p.checkpoint && s'.recovered == s.recovered + BlocksOf(p.answered)
      && if p.from > s.recovery.current then s'.recovery.NoCall?
         else At(s', Recovery, AtLoop) && p == ProgressOf(s', Recovery, p.answered, p.logs)
  {
    run, s' := IterationsAreRun(s, Recovery, replies);
    if s'.recovery.from > s'.recovery.current {
      run, s' := Then(s, run, s', Return(Recovery));
    }
  }

  /**
   * A boot and its recovery pass have the effect of the recovery code: from max(StartBlock, last + 1), an unreadable or
   * missing row counting as 0, to the head at boot. The realtime goroutine starts at that head.
   */
  lemma {:induction false} RecoveryIsOneRun(s: State, boot: Action, replies: seq<Reply>) returns (run: seq<Action>, s': State)
    requires s.realtime.Off? && s.tail.NoCall? && boot.Boot? && |s.channel| <= LOGS_CHANNEL
    ensures Execution(s, run, s') && s'.tail.NoCall? && s'.tailed == s.tailed
    ensures s'.realtime == Realtime(boot.currentBlock, boot.currentBlock, 0, boot.fetchRange)
    ensures
      var first := Max(s.startBlock, (if boot.unreadable || s.checkpoint.None? then 0 else s.checkpoint.value) + 1);
      var p := Run(boot.currentBlock, true, Progress(first, boot.recoverRange, s.recoveryQuery, [], s.checkpoint, 0), replies);
      && s'.checkpoint == p.checkpoint && s'.recovered == s.recovered + BlocksOf(p.answered)
      && if p.from > boot.currentBlock then s'.recovery.NoCall?
         else At(s', Recovery, AtLoop) && p == ProgressOf(s', Recovery, p.answered, p.logs)
  {
    var run0, s0 := Then(s, [], s, boot);
    if s0.recovery.Call? {
      run, s' := RecoveryPass(s0, replies);
      Joined(s, run0, s0, run, s');
      run := run0 + run;
    } else {
      run, s' := run0, s0;
    }
  }

  /** What the poll of head `h` leads to, as long as the process runs on. */
  predicate PollMet(s: State, h: head) {
    s.realtime.Realtime? ==> Covered(s.realtime.start, h + 1, s.tailed) || (s.tail.Call? && s.tail.current == h)
  }

  predicate LastPollWas(s: State, h: head) {
    s.realtime.Realtime? ==>
      s.realtime.current == h && if s.tail.Call? then s.tail.current == h else s.realtime.from == h + 1
  }

  lemma {:induction false} PollStarts(s: State, h: head)
    requires CoverageInv(s) && Enabled(s, Poll(h))
    ensures PollMet(Apply(s, Poll(h)), h) && LastPollWas(Apply(s, Poll(h)), h)
  {
  }

  lemma {:induction false} PollStaysMet(s: State, a: Action, h: head)
    requires CoverageInv(s) && Enabled(s, a) && !a.Boot? && PollMet(s, h)
    ensures PollMet(Apply(s, a), h)
  {
  }

  lemma {:induction false} LastPollStays(s: State, a: Action, h: head)
    requires Enabled(s, a) && !a.Boot? && !a.Poll? && LastPollWas(s, h)
    ensures LastPollWas(Apply(s, a), h)
  {
  }

  lemma {:induction false} PollRunMet(s: State, run: seq<Action>, s': State, h: head)
    requires CoverageInv(s) && Execution(s, run, s') && Serial(s, run)
    requires PollMet(s, h) && forall a :: a in run ==> !a.Boot?
    ensures PollMet(s', h)
    decreases |run|
  {
    if run == [] {
    } else {
      assert run[0] in run;
      PollStaysMet(s, run[0], h);
      CoverageStep(s, run[0]);
      PollRunMet(Apply(s, run[0]), run[1..], s', h);
    }
  }

  lemma {:induction false} LastPollRun(s: State, run: seq<Action>, s': State, h: head)
    requires Execution(s, run, s') && LastPollWas(s, h)
    requires forall a :: a in run ==> !a.Boot? && !a.Poll?
    ensures LastPollWas(s', h)
    decreases |run|
  {
    if run == [] {
    } else {
      assert run[0] in run;
      LastPollStays(s, run[0], h);
      LastPollRun(Apply(s, run[0]), run[1..], s', h);
    }
  }

  /**
   * The realtime loop keeps up with the heads it polls, falling ones included: in every serial run, once the round of
   * a head polled since the last boot is over, every block from the realtime start to that head was asked for; and
   * between rounds the loop variable is one past the head polled last.
   */
  lemma {:induction false} PolledHeadsAreFetched(s: State, run: seq<Action>, s': State, i: nat)
    requires CoverageInv(s) && Execution(s, run, s') && Serial(s, run) && s'.realtime.Realtime?
    requires i < |run| && run[i].Poll? && forall a :: a in run[i + 1..] ==> !a.Boot?
    ensures Covered(s'.realtime.start, run[i].newHead + 1, s'.tailed) || (s'.tail.Call? && s'.tail.current == run[i].newHead)
    ensures (forall a :: a in run[i + 1..] ==> !a.Poll?) && s'.tail.NoCall? ==> s'.realtime.from == run[i].newHead + 1
    decreases |run|
  {
    CoverageStep(s, run[0]);
    if i == 0 {
      PollStarts(s, run[0].newHead);
      PollRunMet(Apply(s, run[0]), run[1..], s', run[0].newHead);
      if forall a :: a in run[1..] ==> !a.Poll? {
        LastPollRun(Apply(s, run[0]), run[1..], s', run[0].newHead);
      }
    } else {
      assert run[1..][i..] == run[i + 1..];
      PolledHeadsAreFetched(Apply(s, run[0]), run[1..], s', i - 1);
    }
  }

  // ---------------------------------------------------------------------------------------------
  // A shared query

  /** All runs from a fresh database are safe. */
  ghost predicate AlwaysSafe(shared: bool, startBlock: head) {
    forall run, s :: Execution(Initial(shared, startBlock), run, s) ==> Safe(s)
  }

  /** Recovery is at its first block and its first query failed without a usable number; the head is that block. */
  lemma {:induction false} RefusedAtFirst(shared: bool, startBlock: head) returns (run: seq<Action>, s: State)
    ensures Execution(Initial(shared, startBlock), run, s)
    ensures var first := First(startBlock);
      && s.recovery == Call(first, first, 0, AtLoop, Range(0, 0)) && s.realtime == Realtime(first, first, 0, 1000)
      && s.tail.NoCall? && s.shared == shared && s.recovered == {} && s.startBlock == startBlock && s.checkpoint.None?
  {
    var s0 := Initial(shared, startBlock);
    run, s := Then(s0, [], s0, Boot(First(startBlock), false, 1, 1000));
    run, s := Then(s0, run, s, Ask(Recovery));
    run, s := Then(s0, run, s, Refuse(Recovery, None));
  }

  /**
   * Whatever StartBlock is: recovery's empty query is answered, the realtime loop writes its own interval into the
   * same query, and recovery stores a checkpoint at a block it never asked for.
   */
  lemma {:induction false} SharedQueryUnsafe(startBlock: head) returns (run: seq<Action>, s: State)
    ensures Execution(Initial(true, startBlock), run, s) && !Safe(s)
  {
    var s0, first := Initial(true, startBlock), First(startBlock);
    var s1;
    run, s1 := RefusedAtFirst(true, startBlock);
    QueryReach(first, 0, first);
    run := AskAndSend(s0, run, s1, Recovery, false);
    run, s := Then(s0, run, BatchSent(s1, Recovery, false), Poll(first));
    run, s := Then(s0, run, s, Ask(Tail));
    QueryReach(first, 1000, first);
    run, s := Then(s0, run, s, Store(false));
    assert s.checkpoint == Some(first) && first !in s.recovered;
  }

  /** All runs are safe if and only if each loop has its own query. */
  lemma {:induction false} SafeIffOwnQueries(shared: bool, startBlock: head)
    ensures AlwaysSafe(shared, startBlock) <==> !shared
  {
    if shared {
      var run, s := SharedQueryUnsafe(startBlock);
    } else {
      forall run, s | Execution(Initial(shared, startBlock), run, s)
        ensures Safe(s)
      {
        OwnQueriesAreSerial(Initial(shared, startBlock), run);
        RestartSafety(shared, startBlock, run, s);
      }
    }
  }

  /** A first process: recovery has asked for its first block only, `room` blocks below the head, and sent the logs on. */
  function FirstBlockSent(shared: bool, startBlock: head, room: head, anyLogs: bool): State
    requires First(startBlock) + room < TWO_63
  {
    BatchSent(Apply(Initial(shared, startBlock), Boot(First(startBlock) + room, false, 1, 1000)), Recovery, anyLogs)
  }

  predicate FirstBlockDone(s: State, shared: bool, first: int, room: head)
    requires 0 <= first && first + room < TWO_63
  {
    && s.recovery == Call(first, first + room, 1, Sent, Range(first, first))
    && s.realtime == Realtime(first + room, first + room, 0, 1000) && s.tail.NoCall? && s.shared == shared
    && s.recovered == Blocks(Range(first, first)) && s.tailed == {}
  }

  lemma {:induction false} FirstBlockCall(shared: bool, startBlock: head, room: head, anyLogs: bool)
    requires First(startBlock) + room < TWO_63
    ensures FirstBlockDone(FirstBlockSent(shared, startBlock, room, anyLogs), shared, First(startBlock), room)
  {
    QueryReach(First(startBlock), 1, First(startBlock) + room);
  }

  lemma {:induction false} FirstBlock(shared: bool, startBlock: head, room: head, anyLogs: bool) returns (run: seq<Action>)
    requires First(startBlock) + room < TWO_63
    ensures Execution(Initial(shared, startBlock), run, FirstBlockSent(shared, startBlock, room, anyLogs))
    ensures FirstBlockDone(FirstBlockSent(shared, startBlock, room, anyLogs), shared, First(startBlock), room)
  {
    var s0 := Initial(shared, startBlock);
    var s;
    run, s := Then(s0, [], s0, Boot(First(startBlock) + room, false, 1, 1000));
    run := AskAndSend(s0, run, s, Recovery, anyLogs);
    FirstBlockCall(shared, startBlock, room, anyLogs);
  }

  lemma {:induction false} QueryOverwritten(startBlock: head) returns (run: seq<Action>, s: State)
    requires First(startBlock) + 2 < TWO_63
    ensures Execution(Initial(true, startBlock), run, s)
    ensures var first := First(startBlock);
      && s.recovery == Call(first, first + 2, 1, Sent, Range(first, first)) && s.recoveryQuery == Range(first + 2, first + 2)
      && s.recovered == Blocks(Range(first, first)) && s.tailed == {}
  {
    var s0, first := Initial(true, startBlock), First(startBlock);
    run := FirstBlock(true, startBlock, 2, false);
    run, s := Then(s0, run, FirstBlockSent(true, startBlock, 2, false), Poll(first + 2));
    run, s := Then(s0, run, s, Ask(Tail));
    QueryReach(first + 2, 1000, first + 2);
  }

  /**
   * For every StartBlock with two blocks above it: recovery asks for its first block, the realtime loop writes
   * the head into the same query, and recovery ends with the checkpoint at the head and a block in between that
   * neither loop has asked for or will: the realtime loop started above it.
   */
  lemma {:induction false} SharedQueryLosesBlocks(startBlock: head) returns (run: seq<Action>, s: State)
    requires First(startBlock) + 2 < TWO_63
    ensures Execution(Initial(true, startBlock), run, s)
    ensures var first := First(startBlock);
      && s.checkpoint == Some(first + 2) && s.recovery.NoCall?
      && first + 1 !in s.recovered && first + 1 !in s.tailed
  {
    var s0 := Initial(true, startBlock);
    run, s := QueryOverwritten(startBlock);
    run, s := Then(s0, run, s, Store(false));
    run, s := Then(s0, run, s, Advance(Recovery));
    run, s := Then(s0, run, s, Return(Recovery));
  }

  // ---------------------------------------------------------------------------------------------
  // The checkpoint never falls

  function CheckpointValue(s: State): int {
    if s.checkpoint.Some? then s.checkpoint.value else 0
  }

  /** Recovery does not start below the checkpoint although its row could not be read. */
  predicate HarmlessBoot(s: State, currentBlock: head) {
    First(s.startBlock) > currentBlock || CheckpointValue(s) < First(s.startBlock)
  }

  /** The checkpoint row can be read, or does not matter, and recovery's query does not wrap. */
  predicate SteadyStep(s: State, a: Action) {
    && (a.Boot? && a.unreadable ==> HarmlessBoot(s, a.currentBlock))
    && (a == Ask(Recovery) && s.recovery.Call? ==> s.recovery.from + s.recovery.range <= TWO_64)
  }

  predicate Steady(s: State, run: seq<Action>)
    decreases |run|
  {
    run == [] || (SteadyStep(s, run[0]) && (Enabled(s, run[0]) ==> Steady(Apply(s, run[0]), run[1..])))
  }

  /** Recovery is always working past the stored checkpoint. */
  predicate CheckpointInv(s: State) {
    s.recovery.Call? ==>
      && 1 <= s.recovery.from
      && (Busy(s.recovery) ==> s.recovery.from + s.recovery.range <= TWO_64)
      && CheckpointValue(s) < (if s.recovery.at.Stored? then s.recoveryQuery.hi + 1 else s.recovery.from)
  }

  lemma {:induction false} CheckpointWork(s: State, a: Action)
    requires CoverageInv(s) && CheckpointInv(s) && Enabled(s, a) && (a.Store? || a.Advance?)
    ensures CheckpointInv(Apply(s, a)) && CheckpointValue(s) <= CheckpointValue(Apply(s, a))
  {
    if s.recovery.Call? && !s.recovery.at.AtLoop? {
      QueryReach(s.recovery.from, s.recovery.range, s.recovery.current);
    }
  }

  lemma {:induction false} CheckpointStep(s: State, a: Action)
    requires CoverageInv(s) && CheckpointInv(s) && Enabled(s, a) && SerialStep(s, a) && SteadyStep(s, a)
    ensures CheckpointInv(Apply(s, a)) && CheckpointValue(s) <= CheckpointValue(Apply(s, a))
  {
    if a.Store? || a.Advance? {
      CheckpointWork(s, a);
    }
  }

  lemma {:induction false} CheckpointRun(s: State, run: seq<Action>, s': State)
    requires CoverageInv(s) && CheckpointInv(s) && Execution(s, run, s') && Serial(s, run) && Steady(s, run)
    ensures CoverageInv(s') && CheckpointInv(s') && CheckpointValue(s) <= CheckpointValue(s')
    decreases |run|
  {
    if run == [] {
    } else {
      CoverageStep(s, run[0]);
      CheckpointStep(s, run[0]);
      CheckpointRun(Apply(s, run[0]), run[1..], s');
    }
  }

  /** Between any two points of a serial run whose recovery queries do not wrap and whose boots are harmless, it only grows. */
  lemma {:induction false} CheckpointNeverFalls(shared: bool, startBlock: head,
                                                run1: seq<Action>, s1: State, run2: seq<Action>, s2: State)
    requires Execution(Initial(shared, startBlock), run1, s1) && Execution(s1, run2, s2)
    requires Serial(Initial(shared, startBlock), run1) && Steady(Initial(shared, startBlock), run1)
    requires Serial(s1, run2) && Steady(s1, run2)
    ensures CheckpointValue(s1) <= CheckpointValue(s2)
  {
    CheckpointRun(Initial(shared, startBlock), run1, s1);
    CheckpointRun(s1, run2, s2);
  }

  /** Every serial and steady continuation keeps the checkpoint at least at `value`. */
  ghost predicate CheckpointHolds(s: State, value: int) {
    forall run, s' :: Execution(s, run, s') && Serial(s, run) && Steady(s, run) ==> value <= CheckpointValue(s')
  }

  lemma {:induction false} Prefixed(s: State, a: Action, run: seq<Action>, s': State) returns (run': seq<Action>)
    requires Enabled(s, a) && SerialStep(s, a) && SteadyStep(s, a)
    requires Execution(Apply(s, a), run, s') && Serial(Apply(s, a), run) && Steady(Apply(s, a), run)
    ensures run' == [a] + run && Execution(s, run', s') && Serial(s, run') && Steady(s, run')
  {
    run' := [a] + run;
    assert run'[1..] == run;
  }

  lemma {:induction false} AnswerSent(s: State) returns (run: seq<Action>, s': State)
    requires At(s, Recovery, Answered) && 0 <= s.recoveryQuery.hi < TWO_63
    ensures Execution(s, run, s') && Serial(s, run) && Steady(s, run)
    ensures s'.checkpoint == Some(s.recoveryQuery.hi)
  {
    var s1 := Apply(s, Send(Recovery, false));
    s' := Apply(s1, Store(false));
    run := Prefixed(s1, Store(false), [], s');
    run := Prefixed(s, Send(Recovery, false), run, s');
  }

  /** With range 0 recovery can store the block before its own. */
  lemma {:induction false} EmptyBatchStored(s: State) returns (run: seq<Action>, s': State)
    requires At(s, Recovery, AtLoop) && s.recovery.range == 0 && 1 <= s.recovery.from <= s.recovery.current && s.tail.NoCall?
    ensures Execution(s, run, s') && Serial(s, run) && Steady(s, run)
    ensures s'.checkpoint == Some(s.recovery.from - 1)
  {
    QueryReach(s.recovery.from, 0, s.recovery.current);
    var s1 := Apply(s, Ask(Recovery));
    run, s' := AnswerSent(Apply(s1, Answer(Recovery)));
    run := Prefixed(s1, Answer(Recovery), run, s');
    run := Prefixed(s, Ask(Recovery), run, s');
  }

  /** A boot that is not harmless has a steady continuation that stores a smaller checkpoint. */
  lemma {:induction false} UnreadableRowLowersCheckpoint(s: State, boot: Action) returns (run: seq<Action>, s': State)
    requires CoverageInv(s) && Enabled(s, boot) && boot.Boot? && boot.unreadable && boot.recoverRange <= TWO_63
    requires !HarmlessBoot(s, boot.currentBlock)
    ensures var s1 := Apply(s, boot);
      && Execution(s1, run, s') && Serial(s1, run) && Steady(s1, run)
      && CheckpointValue(s') < CheckpointValue(s)
  {
    var s1 := Apply(s, boot);
    var s2 := Apply(s1, Ask(Recovery));
    run, s' := EmptyBatchStored(Apply(s2, Refuse(Recovery, None)));
    run := Prefixed(s2, Refuse(Recovery, None), run, s');
    run := Prefixed(s1, Ask(Recovery), run, s');
  }

  /** A boot that could not read the row leaves the checkpoint safe if and only if it is harmless. */
  lemma {:induction false} UnreadableBootExact(s: State, boot: Action)
    requires CoverageInv(s) && CheckpointInv(s)
    requires Enabled(s, boot) && boot.Boot? && boot.unreadable && boot.recoverRange <= TWO_63
    ensures CheckpointHolds(Apply(s, boot), CheckpointValue(s)) <==> HarmlessBoot(s, boot.currentBlock)
  {
    var s1 := Apply(s, boot);
    if HarmlessBoot(s, boot.currentBlock) {
      CoverageStep(s, boot);
      CheckpointStep(s, boot);
      forall run, s' | Execution(s1, run, s') && Serial(s1, run) && Steady(s1, run)
        ensures CheckpointValue(s) <= CheckpointValue(s')
      {
        CheckpointRun(s1, run, s');
      }
    } else {
      var run, s' := UnreadableRowLowersCheckpoint(s, boot);
    }
  }

  // ---------------------------------------------------------------------------------------------
  // Where the logs are

  predicate FlowInv(s: State) {
    s.recovered + s.tailed == s.saved + BlocksOf(s.channel) + s.lost
  }

  lemma {:induction false} BlocksOfAppend(rs: seq<Range>, r: Range)
    ensures BlocksOf(rs + [r]) == BlocksOf(rs) + Blocks(r)
    decreases |rs|
  {
    if rs == [] {
      assert rs + [r] == [r] && [r][1..] == [];
    } else {
      BlocksOfAppend(rs[1..], r);
      assert (rs + [r])[1..] == rs[1..] + [r];
    }
  }

  lemma {:induction false} FlowSend(s: State, a: Action)
    requires FlowInv(s) && Enabled(s, a) && a.Send?
    ensures FlowInv(Apply(s, a))
  {
    BlocksOfAppend(s.channel, CallOf(s, a.who).got);
  }

  lemma {:induction false} FlowStep(s: State, a: Action)
    requires FlowInv(s) && Enabled(s, a)
    ensures FlowInv(Apply(s, a))
    ensures Apply(s, a).lost != s.lost ==> a.Stop? || a == Process(false)
  {
    if a.Send? {
      FlowSend(s, a);
    }
  }

  /**
   * Conservation: the logs of every block sent on are saved, in the channel, or lost -- and they are lost only
   * if the process stops or a save fails. With own queries or shared ones.
   */
  lemma {:induction false} LogsConserved(s: State, run: seq<Action>, s': State)
    requires FlowInv(s) && Execution(s, run, s')
    ensures FlowInv(s')
    ensures (forall a :: a in run ==> !a.Stop? && a != Process(false)) ==> s'.lost == s.lost
    decreases |run|
  {
    if run == [] {
    } else {
      FlowStep(s, run[0]);
      LogsConserved(Apply(s, run[0]), run[1..], s');
    }
  }

  /** Block `b` is between the first one and the checkpoint. */
  predicate Checkpointed(s: State, b: int) {
    First(s.startBlock) <= b <= CheckpointValue(s)
  }

  /** The logs of block `b` are saved or on their way. */
  predicate InHand(s: State, b: int) {
    b in s.saved || b in BlocksOf(s.channel)
  }

  ghost predicate Kept(s: State) {
    forall b :: Checkpointed(s, b) ==> InHand(s, b)
  }

  /** In every reachable state: nothing below the checkpoint is missing if and only if nothing lost is missing. */
  lemma {:induction false} KeptUnlessLost(shared: bool, startBlock: head, run: seq<Action>, s: State)
    requires Execution(Initial(shared, startBlock), run, s) && Serial(Initial(shared, startBlock), run)
    ensures Kept(s) <==> forall b :: Checkpointed(s, b) && b in s.lost ==> InHand(s, b)
    ensures (forall a :: a in run ==> !a.Stop? && a != Process(false)) ==> Kept(s)
  {
    RestartSafety(shared, startBlock, run, s);
    LogsConserved(Initial(shared, startBlock), run, s);
    forall b | Checkpointed(s, b)
      ensures InHand(s, b) || b in s.lost
    {
      assert b in s.recovered + s.tailed;
    }
  }

  /** A stop keeps the checkpointed logs if and only if those still in the channel were already saved. */
  lemma {:induction false} StopKeeps(s: State)
    requires Kept(s) && Enabled(s, Stop)
    ensures Kept(Apply(s, Stop)) <==> forall b :: Checkpointed(s, b) && b in BlocksOf(s.channel) ==> b in s.saved
  {
    var s' := Apply(s, Stop);
    forall b
      ensures Checkpointed(s', b) <==> Checkpointed(s, b)
      ensures InHand(s', b) <==> b in s.saved
      ensures Checkpointed(s, b) ==> InHand(s, b)
    {
    }
  }

  /** A failed save keeps them if and only if the batch's checkpointed blocks are saved or queued again. */
  lemma {:induction false} FailedSaveKeeps(s: State)
    requires Kept(s) && Enabled(s, Process(false))
    ensures Kept(Apply(s, Process(false))) <==>
      forall b :: Checkpointed(s, b) && b in Blocks(s.channel[0]) ==> b in s.saved || b in BlocksOf(s.channel[1..])
  {
    var s' := Apply(s, Process(false));
    forall b
      ensures Checkpointed(s', b) <==> Checkpointed(s, b)
      ensures InHand(s', b) <==> b in s.saved || b in BlocksOf(s.channel[1..])
      ensures InHand(s, b) <==> b in s.saved || b in Blocks(s.channel[0]) || b in BlocksOf(s.channel[1..])
    {
    }
  }

  /** Storing a checkpoint keeps them if and only if no block it passes was lost for good. */
  lemma {:induction false} StoreKeeps(s: State)
    requires CoverageInv(s) && FlowInv(s) && Enabled(s, Store(false))
    ensures Kept(Apply(s, Store(false))) <==>
      forall b :: b in s.lost && First(s.startBlock) <= b <= s.recoveryQuery.hi ==> InHand(s, b)
  {
    var s' := Apply(s, Store(false));
    CoverageStore(s, Store(false));
    forall b
      ensures Checkpointed(s', b) <==> First(s.startBlock) <= b <= s.recoveryQuery.hi
      ensures InHand(s', b) <==> InHand(s, b)
      ensures Checkpointed(s', b) ==> InHand(s, b) || b in s.lost
    {
      if Checkpointed(s', b) {
        assert b in s'.recovered && b in s.recovered + s.tailed;
      }
    }
  }

  lemma {:induction false} SendKeeps(s: State, a: Action)
    requires Kept(s) && Enabled(s, a) && a.Send?
    ensures Kept(Apply(s, a))
  {
    var s' := Apply(s, a);
    BlocksOfAppend(s.channel, CallOf(s, a.who).got);
    forall b | Checkpointed(s', b)
      ensures InHand(s', b)
    {
      assert Checkpointed(s, b) && InHand(s, b);
    }
  }

  /** No other step can lose a checkpointed block. */
  lemma {:induction false} OtherStepsKeep(s: State, a: Action)
    requires Kept(s) && Enabled(s, a) && !a.Stop? && a != Process(false) && a != Store(false)
    ensures Kept(Apply(s, a))
  {
    if a.Send? {
      SendKeeps(s, a);
    } else {
      var s' := Apply(s, a);
      forall b | Checkpointed(s', b)
        ensures InHand(s', b)
      {
        assert Checkpointed(s, b) && InHand(s, b);
      }
    }
  }

  /** What can be said before a step: it leaves every checkpointed block saved or on its way. */
  ghost predicate StepKeepsLogs(s: State, a: Action) {
    match a
    case Stop => forall b :: Checkpointed(s, b) && b in BlocksOf(s.channel) ==> b in s.saved
    case Process(ok) =>
      !ok && s.channel != [] ==>
        forall b :: Checkpointed(s, b) && b in Blocks(s.channel[0]) ==> b in s.saved || b in BlocksOf(s.channel[1..])
    case Store(checkpointLost) =>
      !checkpointLost ==> forall b :: b in s.lost && First(s.startBlock) <= b <= s.recoveryQuery.hi ==> InHand(s, b)
    case _ => true
  }

  ghost predicate EachKeepsLogs(s: State, run: seq<Action>)
    decreases |run|
  {
    run == [] || (StepKeepsLogs(s, run[0]) && (Enabled(s, run[0]) ==> EachKeepsLogs(Apply(s, run[0]), run[1..])))
  }

  /** The checkpointed logs are in hand before and after every step. */
  ghost predicate KeptThroughout(s: State, run: seq<Action>)
    decreases |run|
  {
    Kept(s) && (run == [] || (Enabled(s, run[0]) ==> KeptThroughout(Apply(s, run[0]), run[1..])))
  }

  lemma {:induction false} KeptStep(s: State, a: Action)
    requires Kept(s) && CoverageInv(s) && FlowInv(s) && Enabled(s, a)
    ensures Kept(Apply(s, a)) <==> StepKeepsLogs(s, a)
  {
    if a == Stop {
      StopKeeps(s);
    } else if a == Process(false) {
      FailedSaveKeeps(s);
    } else if a == Store(false) {
      StoreKeeps(s);
    } else {
      OtherStepsKeep(s, a);
    }
  }

  /** Over every serial run: the checkpointed logs stay in hand throughout if and only if each step keeps them. */
  lemma {:induction false} RunKeepsLogs(s: State, run: seq<Action>, s': State)
    requires Kept(s) && CoverageInv(s) && FlowInv(s) && Execution(s, run, s') && Serial(s, run)
    ensures KeptThroughout(s, run) <==> EachKeepsLogs(s, run)
    decreases |run|
  {
    if run == [] {
    } else {
      KeptStep(s, run[0]);
      CoverageStep(s, run[0]);
      FlowStep(s, run[0]);
      if StepKeepsLogs(s, run[0]) {
        RunKeepsLogs(Apply(s, run[0]), run[1..], s');
      }
    }
  }

  /** The process stops right after storing its first block as the checkpoint; the logs are still in the channel. */
  lemma {:induction false} StoppedAfterStore(startBlock: head) returns (run: seq<Action>, s: State)
    requires First(startBlock) + 1 < TWO_63
    ensures Execution(Initial(false, startBlock), run, s)
    ensures var first := First(startBlock);
      && s.startBlock == startBlock && s.checkpoint == Some(first) && s.realtime.Off?
      && first !in s.saved && s.channel == [] && first in s.lost
  {
    var s0, first := Initial(false, startBlock), First(startBlock);
    run := FirstBlock(false, startBlock, 1, true);
    run, s := Then(s0, run, FirstBlockSent(false, startBlock, 1, true), Store(false));
    assert first in Blocks(s.channel[0]);
    run, s := Then(s0, run, s, Stop);
  }

  /**
   * The checkpoint does run ahead of saving: a process that stops right after storing it has lost the logs still in
   * its channel, and the next recovery starts behind them.
   */
  lemma {:induction false} StopLosesCheckpointedLogs(startBlock: head) returns (run: seq<Action>, s: State)
    requires First(startBlock) + 1 < TWO_63
    ensures Execution(Initial(false, startBlock), run, s)
    ensures var first := First(startBlock);
      && s.checkpoint == Some(first) && first !in s.saved && s.channel == [] && first in s.lost
      && s.recovery.Call? && s.recovery.from == first + 1
  {
    run, s := StoppedAfterStore(startBlock);
    run, s := Then(Initial(false, startBlock), run, s, Boot(First(startBlock) + 1, false, 1, 1000));
  }
}
