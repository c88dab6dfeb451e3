/**
 The command queue and its atomic flag under every interleaving of any number of API threads and the dispatcher, with
 test_and_set, the size check, the send and the clear as separate steps. Worker 0 is the dispatcher.
 */
module FtpThreads {
  import opened Wrappers
  import opened FtpModel
  import opened FtpInvariant
  import opened FtpHistory

  /**
   Where a worker stands. Testing to Clearing are the steps of ProcessNextCmd; Popping is SkipCommand with `left`
   commands still to pop (none of them popped yet if `first`), after which it clears the flag.
   */
  datatype Pc = Idle | Testing | Checking | Sending | Clearing | Popping(left: nat, first: bool)

  datatype World = World(
    pcs: seq<Pc>, flag: bool, q: seq<Cmd>,
    awaiting: bool,            // a command has been sent and its reply not yet taken up
    sent: seq<Cmd>, gone: seq<Gone>, enqueued: seq<Cmd>)

  datatype Action =
    | Append(t: nat, cmds: seq<Cmd>)   // an API call queues its commands under the lock
    | TestAndSet(t: nat)
    | CheckSize(t: nat)
    | SendFront(t: nat)
    | ClearFlag(t: nat)
    | TakeReply(pops: nat)             // the dispatcher takes up the reply to the command in flight
    | PopFront
    | Release                          // the dispatcher clears the flag after popping

  predicate Enabled(w: World, a: Action) {
    && |w.pcs| > 0
    && match a
       case Append(t, cmds) => 0 < t < |w.pcs| && w.pcs[t] == Idle && Paired(cmds)
       case TestAndSet(t) => t < |w.pcs| && w.pcs[t] == Testing
       case CheckSize(t) => t < |w.pcs| && w.pcs[t] == Checking
       case SendFront(t) => t < |w.pcs| && w.pcs[t] == Sending
       case ClearFlag(t) => t < |w.pcs| && w.pcs[t] == Clearing
       case TakeReply(n) => w.pcs[0] == Idle && w.awaiting && w.q != [] && (n == 1 || (n == 2 && w.q[0].verb == PASV))
       case PopFront => w.pcs[0].Popping? && w.pcs[0].left > 0
       case Release => w.pcs[0].Popping? && w.pcs[0].left == 0
  }

  function Apply(w: World, a: Action): World
    requires Enabled(w, a)
  {
    match a
    case Append(t, cmds) => w.(pcs := w.pcs[t := Testing], q := w.q + cmds, enqueued := w.enqueued + cmds)
    case TestAndSet(t) => w.(pcs := w.pcs[t := if w.flag then Idle else Checking], flag := true)
    case CheckSize(t) => w.(pcs := w.pcs[t := if w.q == [] then Clearing else Sending])
    case SendFront(t) =>
      if w.q == [] then w
      else w.(pcs := w.pcs[t := Idle], awaiting := true, sent := w.sent + [w.q[0]])
    case ClearFlag(t) => w.(pcs := w.pcs[t := Idle], flag := false)
    case TakeReply(n) => w.(pcs := w.pcs[0 := Popping(n, true)], awaiting := false)
    case PopFront =>
      if w.q == [] then w
      else
        var p := w.pcs[0];
        w.(pcs := w.pcs[0 := Popping(p.left - 1, false)], q := w.q[1..],
           gone := w.gone + [if p.first then Retired(w.q[0]) else Skipped(w.q[0])])
    case Release => w.(pcs := w.pcs[0 := Testing], flag := false)
  }

  // -------- Who owns the flag --------

  /** The worker has set the flag and has to clear it or send. */
  predicate Holds(p: Pc) {
    !p.Idle? && !p.Testing?
  }

  function Holders(pcs: seq<Pc>): nat {
    if pcs == [] then 0 else Holders(pcs[..|pcs| - 1]) + if Holds(pcs[|pcs| - 1]) then 1 else 0
  }

  lemma {:induction false} HoldersUpdate(pcs: seq<Pc>, t: nat, p: Pc)
    requires t < |pcs|
    ensures Holders(pcs[t := p])
            == Holders(pcs) - (if Holds(pcs[t]) then 1 else 0) + (if Holds(p) then 1 else 0)
  {
    var n := |pcs| - 1;
    if t < n {
      HoldersUpdate(pcs[..n], t, p);
      assert pcs[t := p][..n] == pcs[..n][t := p];
    } else {
      assert pcs[t := p][..n] == pcs[..n];
    }
  }

  lemma {:induction false} OneHolder(pcs: seq<Pc>, t: nat, u: nat)
    requires t < |pcs| && u < |pcs| && t != u && Holds(pcs[t]) && Holds(pcs[u])
    ensures Holders(pcs) >= 2
  {
    HoldersUpdate(pcs, t, Idle);
    HoldersUpdate(pcs[t := Idle], u, Idle);
  }

  lemma {:induction false} HolderCounts(pcs: seq<Pc>, t: nat)
    requires t < |pcs| && Holds(pcs[t])
    ensures Holders(pcs) >= 1
  {
    HoldersUpdate(pcs, t, Idle);
  }

  /** The queue is paired, possibly with a transfer alone at its front. */
  predicate Shape(q: seq<Cmd>) {
    Paired(q) || (q != [] && IsTransfer(q[0].verb) && Paired(q[1..]))
  }

  /** The command in flight, still at the front of the queue. */
  predicate Outstanding(w: World)
    requires |w.pcs| > 0
  {
    w.awaiting || (w.pcs[0].Popping? && w.pcs[0].first)
  }

  /** The flag is set exactly when one worker holds it or one command is in flight; never two at once. */
  predicate Exclusive(w: World) {
    Holders(w.pcs) + (if w.awaiting then 1 else 0) == if w.flag then 1 else 0
  }

  /** What each worker's place says about the queue. */
  predicate Placed(w: World)
    requires |w.pcs| > 0
  {
    var d := w.pcs[0];
    && (forall t :: 0 < t < |w.pcs| ==> !w.pcs[t].Popping?)
    && (forall t :: 0 <= t < |w.pcs| && w.pcs[t].Sending? ==> w.q != [])
    && (w.awaiting ==> w.q != [])
    && (d.Popping? ==>
          && d.left <= |w.q| && d.left <= 2 && (d.first ==> d.left > 0)
          && (d.left == 2 ==> d.first && w.q[0].verb == PASV)
          && (d.left == 1 && !d.first ==>
                && IsTransfer(w.q[0].verb)
                && |w.gone| > 0 && w.gone[|w.gone| - 1].Retired? && w.gone[|w.gone| - 1].cmd.verb == PASV))
  }

  /**
   First in, first out; what was sent is what has been retired and what is outstanding; only transfers are skipped.
   */
  predicate Booked(w: World)
    requires |w.pcs| > 0
  {
    && w.enqueued == Cmds(w.gone) + w.q && SkipsOk(w.gone)
    && (Outstanding(w) ==> w.q != [])
    && w.sent == RetiredCmds(w.gone) + if Outstanding(w) then [w.q[0]] else []
  }

  predicate Safe(w: World) {
    |w.pcs| > 0 && Exclusive(w) && Shape(w.q) && Placed(w) && Booked(w)
  }

  /** Right before the login is confirmed: the dispatcher holds the flag and is about to clear it. */
  function Start(threads: nat, q: seq<Cmd>): World {
    World([Popping(0, false)] + seq(threads, _ => Idle), true, q, false, [], [], q)
  }

  lemma {:induction false} AllIdle(n: nat)
    ensures Holders(seq(n, _ => Idle)) == 0
  {
    if n > 0 {
      var s := seq(n, _ => Idle);
      AllIdle(n - 1);
      assert s[..n - 1] == seq(n - 1, _ => Idle);
    }
  }

  lemma StartSafe(threads: nat, q: seq<Cmd>)
    requires Paired(q)
    ensures Safe(Start(threads, q))
  {
    var pcs := seq(threads + 1, _ => Idle);
    AllIdle(threads + 1);
    HoldersUpdate(pcs, 0, Popping(0, false));
    assert pcs[0 := Popping(0, false)] == Start(threads, q).pcs;
  }

  lemma ShapeConcat(q: seq<Cmd>, cmds: seq<Cmd>)
    requires Shape(q) && Paired(cmds)
    ensures Shape(q + cmds)
  {
    if Paired(q) {
      PairedConcat(q, cmds);
    } else {
      PairedConcat(q[1..], cmds);
      DropConcat(q, cmds, 1);
    }
  }

  lemma AppendSafe(w: World, t: nat, cmds: seq<Cmd>)
    requires Safe(w) && Enabled(w, Append(t, cmds))
    ensures Safe(Apply(w, Append(t, cmds)))
  {
    HoldersUpdate(w.pcs, t, Testing);
    ShapeConcat(w.q, cmds);
    Bytes.Regroup(Cmds(w.gone), w.q, cmds);
  }

  /** Moving one worker other than into or out of Popping, with queue and logs as they are. */
  lemma MoveSafe(w: World, t: nat, p: Pc, flag: bool)
    requires Safe(w) && t < |w.pcs| && !w.pcs[t].Popping? && !p.Popping? && (p.Sending? ==> w.q != [])
    requires Exclusive(w.(pcs := w.pcs[t := p], flag := flag))
    ensures Safe(w.(pcs := w.pcs[t := p], flag := flag))
  {
  }

  lemma SendSafe(w: World, t: nat)
    requires Safe(w) && Enabled(w, SendFront(t))
    ensures Safe(Apply(w, SendFront(t)))
  {
    HoldersUpdate(w.pcs, t, Idle);
    if t != 0 && Holds(w.pcs[0]) {
      OneHolder(w.pcs, 0, t);
    }
    HolderCounts(w.pcs, t);
  }

  lemma TakeReplySafe(w: World, n: nat)
    requires Safe(w) && Enabled(w, TakeReply(n))
    ensures Safe(Apply(w, TakeReply(n)))
  {
    HoldersUpdate(w.pcs, 0, Popping(n, true));
  }

  lemma PopPlaced(w: World)
    requires Safe(w) && Enabled(w, PopFront)
    ensures Placed(Apply(w, PopFront)) && Exclusive(Apply(w, PopFront)) && Shape(Apply(w, PopFront).q)
  {
    var w' := Apply(w, PopFront);
    HoldersUpdate(w.pcs, 0, w'.pcs[0]);
    HolderCounts(w.pcs, 0);
    ShapeAfterPop(w.q);
    forall t | 0 < t < |w.pcs| ensures !Holds(w.pcs[t]) {
      if Holds(w.pcs[t]) {
        OneHolder(w.pcs, 0, t);
      }
    }
  }

  /** The books after one command has left. */
  lemma BookOne(gone: seq<Gone>, g: Gone, q: seq<Cmd>)
    requires q != [] && g.cmd == q[0]
    ensures Cmds(gone + [g]) + q[1..] == Cmds(gone) + q
    ensures RetiredCmds(gone + [g]) + [] == RetiredCmds(gone) + if g.Retired? then [q[0]] else []
  {
    DepartStep(gone, g);
    assert q == [q[0]] + q[1..];
    Bytes.Regroup(Cmds(gone), [q[0]], q[1..]);
  }

  lemma PopBooked(w: World)
    requires Safe(w) && Enabled(w, PopFront) && !w.awaiting
    ensures Booked(Apply(w, PopFront))
  {
    var g := if w.pcs[0].first then Retired(w.q[0]) else Skipped(w.q[0]);
    BookOne(w.gone, g, w.q);
    DepartStep(w.gone, g);
    assert Apply(w, PopFront).gone == w.gone + [g];
  }

  lemma PopSafe(w: World)
    requires Safe(w) && Enabled(w, PopFront)
    ensures Safe(Apply(w, PopFront))
  {
    HolderCounts(w.pcs, 0);
    PopPlaced(w);
    PopBooked(w);
  }

  lemma ShapeAfterPop(q: seq<Cmd>)
    requires Shape(q) && q != []
    ensures Shape(q[1..])
    ensures q[0].verb == PASV ==> |q| >= 2 && IsTransfer(q[1].verb)
  {
    if Paired(q) && !IsGen(q[0].verb) {
      assert q[1..][1..] == q[2..];
    }
  }

  lemma ReleaseSafe(w: World)
    requires Safe(w) && Enabled(w, Release)
    ensures Safe(Apply(w, Release))
  {
    HoldersUpdate(w.pcs, 0, Testing);
    HolderCounts(w.pcs, 0);
  }

  lemma StepSafe(w: World, a: Action)
    requires Safe(w) && Enabled(w, a)
    ensures Safe(Apply(w, a))
  {
    match a
    case Append(t, cmds) => AppendSafe(w, t, cmds);
    case TestAndSet(t) =>
      HoldersUpdate(w.pcs, t, if w.flag then Idle else Checking);
      MoveSafe(w, t, if w.flag then Idle else Checking, true);
    case CheckSize(t) =>
      HoldersUpdate(w.pcs, t, if w.q == [] then Clearing else Sending);
      MoveSafe(w, t, if w.q == [] then Clearing else Sending, w.flag);
    case SendFront(t) => SendSafe(w, t);
    case ClearFlag(t) =>
      HoldersUpdate(w.pcs, t, Idle);
      HolderCounts(w.pcs, t);
      MoveSafe(w, t, Idle, false);
    case TakeReply(n) => TakeReplySafe(w, n);
    case PopFront => PopSafe(w);
    case Release => ReleaseSafe(w);
  }

  // -------- Over every interleaving --------

  predicate EnabledRun(w: World, actions: seq<Action>)
    decreases |actions|, 0
  {
    actions != [] ==>
      var before := actions[..|actions| - 1];
      EnabledRun(w, before) && Enabled(Run(w, before), actions[|actions| - 1])
  }

  function Run(w: World, actions: seq<Action>): World
    requires EnabledRun(w, actions)
    decreases |actions|, 1
  {
    if actions == [] then w else Apply(Run(w, actions[..|actions| - 1]), actions[|actions| - 1])
  }

  lemma {:induction false} RunSafe(w: World, actions: seq<Action>)
    requires Safe(w) && EnabledRun(w, actions)
    ensures Safe(Run(w, actions))
    decreases |actions|
  {
    if actions != [] {
      RunSafe(w, actions[..|actions| - 1]);
      StepSafe(Run(w, actions[..|actions| - 1]), actions[|actions| - 1]);
    }
  }

  /**
   For any number of threads and every interleaving: at most one queued command is sent and not yet retired, it is
   the front of the queue, commands leave in the order they were queued, and no pop meets an empty queue.
   */
  lemma MutualExclusion(threads: nat, q: seq<Cmd>, actions: seq<Action>)
    requires Paired(q) && EnabledRun(Start(threads, q), actions)
    ensures var w := Run(Start(threads, q), actions);
            && |RetiredCmds(w.gone)| <= |w.sent| <= |RetiredCmds(w.gone)| + 1
            && (|w.sent| > |RetiredCmds(w.gone)| ==> w.q != [] && w.sent[|w.sent| - 1] == w.q[0])
            && w.enqueued == Cmds(w.gone) + w.q
            && (Enabled(w, PopFront) ==> w.q != [])
            && (forall t, u :: 0 <= t < u < |w.pcs| ==> !(Holds(w.pcs[t]) && Holds(w.pcs[u])))
  {
    StartSafe(threads, q);
    RunSafe(Start(threads, q), actions);
    var w := Run(Start(threads, q), actions);
    forall t, u | 0 <= t < u < |w.pcs| ensures !(Holds(w.pcs[t]) && Holds(w.pcs[u])) {
      if Holds(w.pcs[t]) && Holds(w.pcs[u]) {
        OneHolder(w.pcs, t, u);
      }
    }
  }

  // -------- The lost wakeup --------

  ghost predicate SomeoneTesting(w: World) {
    exists t :: 0 <= t < |w.pcs| && w.pcs[t] == Testing
  }

  /** If nothing holds the flag back, some worker is about to look at a non-empty queue. */
  ghost predicate Attended(w: World) {
    !w.flag && w.q != [] ==> SomeoneTesting(w)
  }

  /** A worker that saw the queue empty clears the flag after commands have come, and nobody is about to test it. */
  ghost predicate LosesWakeup(w: World, a: Action) {
    a.ClearFlag? && w.q != [] && !SomeoneTesting(w)
  }

  /** A step leaves the queue unattended if and only if it is such a clear. */
  lemma AttendedIff(w: World, a: Action)
    requires Safe(w) && Attended(w) && Enabled(w, a)
    ensures Attended(Apply(w, a)) <==> !LosesWakeup(w, a)
  {
    var w' := Apply(w, a);
    match a
    case Append(t, _) => assert w'.pcs[t] == Testing;
    case Release => assert w'.pcs[0] == Testing;
    case ClearFlag(t) =>
      if u :| 0 <= u < |w.pcs| && w.pcs[u] == Testing {
        assert w'.pcs[u] == Testing;
      }
      if u :| 0 <= u < |w'.pcs| && w'.pcs[u] == Testing {
        assert w.pcs[u] == Testing;
      }
    case PopFront => HolderCounts(w.pcs, 0);
    case CheckSize(t) => HolderCounts(w.pcs, t);
    case SendFront(t) => HolderCounts(w.pcs, t);
    case _ =>
  }

  ghost predicate NoneLost(w: World, actions: seq<Action>)
    requires EnabledRun(w, actions)
    decreases |actions|
  {
    actions != [] ==>
      var before := actions[..|actions| - 1];
      NoneLost(w, before) && !LosesWakeup(Run(w, before), actions[|actions| - 1])
  }

  lemma {:induction false} RunAttended(w: World, actions: seq<Action>)
    requires Safe(w) && Attended(w) && EnabledRun(w, actions) && NoneLost(w, actions)
    ensures Safe(Run(w, actions)) && Attended(Run(w, actions))
    decreases |actions|
  {
    if actions != [] {
      var before := actions[..|actions| - 1];
      RunAttended(w, before);
      StepSafe(Run(w, before), actions[|actions| - 1]);
      AttendedIff(Run(w, before), actions[|actions| - 1]);
    }
  }

  predicate Quiescent(w: World) {
    !w.awaiting && forall t :: 0 <= t < |w.pcs| ==> w.pcs[t] == Idle
  }

  lemma {:induction false} NoHolders(pcs: seq<Pc>)
    requires forall t :: 0 <= t < |pcs| ==> pcs[t] == Idle
    ensures Holders(pcs) == 0
  {
    if pcs != [] {
      NoHolders(pcs[..|pcs| - 1]);
    }
  }

  /** Without a lost wakeup, once everything has come to rest the flag is clear and nothing is left in the queue. */
  lemma RestMeansEmpty(threads: nat, q: seq<Cmd>, actions: seq<Action>)
    requires Paired(q) && EnabledRun(Start(threads, q), actions) && NoneLost(Start(threads, q), actions)
    ensures var w := Run(Start(threads, q), actions);
            Quiescent(w) ==> !w.flag && w.q == []
  {
    StartSafe(threads, q);
    RunAttended(Start(threads, q), actions);
    var w := Run(Start(threads, q), actions);
    if Quiescent(w) {
      NoHolders(w.pcs);
      assert !SomeoneTesting(w);
    }
  }

  /** The last action that cleared the flag was such a clear. */
  ghost predicate LastClearLost(w: World, actions: seq<Action>)
    requires EnabledRun(w, actions)
    decreases |actions|
  {
    actions != [] &&
      var before, a := actions[..|actions| - 1], actions[|actions| - 1];
      if a.ClearFlag? then LosesWakeup(Run(w, before), a) else !a.Release? && LastClearLost(w, before)
  }

  /** While the flag is clear: after a losing clear commands are waiting, and otherwise somebody attends to them. */
  ghost predicate Accounted(w: World, lost: bool) {
    !w.flag ==> if lost then w.q != [] else Attended(w)
  }

  lemma StepAccounted(w: World, lost: bool, a: Action)
    requires Safe(w) && Accounted(w, lost) && Enabled(w, a)
    ensures var lost' := if a.ClearFlag? then LosesWakeup(w, a) else !a.Release? && lost;
            Accounted(Apply(w, a), lost')
  {
    var w' := Apply(w, a);
    match a
    case Append(t, _) => assert w'.pcs[t] == Testing;
    case Release => assert w'.pcs[0] == Testing;
    case ClearFlag(t) =>
      if u :| 0 <= u < |w.pcs| && w.pcs[u] == Testing {
        assert w'.pcs[u] == Testing;
      }
    case PopFront => HolderCounts(w.pcs, 0);
    case CheckSize(t) => HolderCounts(w.pcs, t);
    case SendFront(t) => HolderCounts(w.pcs, t);
    case _ =>
  }

  lemma {:induction false} RunAccounted(w: World, actions: seq<Action>)
    requires Safe(w) && w.flag && EnabledRun(w, actions)
    ensures Safe(Run(w, actions)) && Accounted(Run(w, actions), LastClearLost(w, actions))
    decreases |actions|
  {
    if actions != [] {
      var before := actions[..|actions| - 1];
      RunAccounted(w, before);
      StepSafe(Run(w, before), actions[|actions| - 1]);
      StepAccounted(Run(w, before), LastClearLost(w, before), actions[|actions| - 1]);
    }
  }

  /**
   Once everything has come to rest, commands are left in the queue if and only if the last clear of the flag lost
   them.
   */
  lemma RestLeavesQueueIff(threads: nat, q: seq<Cmd>, actions: seq<Action>)
    requires Paired(q) && EnabledRun(Start(threads, q), actions) && Quiescent(Run(Start(threads, q), actions))
    ensures var w := Run(Start(threads, q), actions);
            !w.flag && (w.q != [] <==> LastClearLost(Start(threads, q), actions))
  {
    StartSafe(threads, q);
    RunAccounted(Start(threads, q), actions);
    var w := Run(Start(threads, q), actions);
    NoHolders(w.pcs);
    assert !SomeoneTesting(w);
  }

  // -------- A run that loses one --------

  const PWD_CMD := Cmd(PWD, "", "", NoResponse, None)

  lemma RunExtended(w: World, actions: seq<Action>, a: Action, r: World)
    requires EnabledRun(w, actions) && Run(w, actions) == r && Enabled(r, a)
    ensures EnabledRun(w, actions + [a]) && Run(w, actions + [a]) == Apply(r, a)
  {
    assert (actions + [a])[..|actions|] == actions;
  }

  const FINDS_EMPTY: seq<Action> := [] + [Release] + [TestAndSet(0)] + [CheckSize(0)]

  const OVERTAKEN: seq<Action> := FINDS_EMPTY + [Append(1, [PWD_CMD])] + [TestAndSet(1)] + [ClearFlag(0)]

  /** The dispatcher sets the flag and finds the queue empty. */
  lemma DispatcherFindsEmpty()
    ensures EnabledRun(Start(1, []), FINDS_EMPTY)
    ensures Run(Start(1, []), FINDS_EMPTY) == World([Clearing, Idle], true, [], false, [], [], [])
  {
    var w0 := Start(1, []);
    assert w0.pcs == [Popping(0, false), Idle];
    RunExtended(w0, [], Release, w0);
    var w1 := World([Testing, Idle], false, [], false, [], [], []);
    assert Apply(w0, Release) == w1;
    RunExtended(w0, [] + [Release], TestAndSet(0), w1);
    var w2 := World([Checking, Idle], true, [], false, [], [], []);
    assert Apply(w1, TestAndSet(0)) == w2;
    RunExtended(w0, [] + [Release] + [TestAndSet(0)], CheckSize(0), w2);
  }

  /**
   Before it clears the flag a thread queues PWD and finds the flag set. Then everybody is idle, the flag is clear,
   and PWD stays in the queue.
   */
  lemma LostWakeup()
    ensures EnabledRun(Start(1, []), OVERTAKEN)
    ensures var w := Run(Start(1, []), OVERTAKEN);
            Quiescent(w) && !w.flag && w.q == [PWD_CMD] && w.sent == []
  {
    var w0 := Start(1, []);
    var w3 := World([Clearing, Idle], true, [], false, [], [], []);
    DispatcherFindsEmpty();
    assert [PWD_CMD][1..] == [];
    RunExtended(w0, FINDS_EMPTY, Append(1, [PWD_CMD]), w3);
    var w4 := World([Clearing, Testing], true, [PWD_CMD], false, [], [], [PWD_CMD]);
    assert Apply(w3, Append(1, [PWD_CMD])) == w4;
    RunExtended(w0, FINDS_EMPTY + [Append(1, [PWD_CMD])], TestAndSet(1), w4);
    var w5 := World([Clearing, Idle], true, [PWD_CMD], false, [], [], [PWD_CMD]);
    assert Apply(w4, TestAndSet(1)) == w5;
    RunExtended(w0, FINDS_EMPTY + [Append(1, [PWD_CMD])] + [TestAndSet(1)], ClearFlag(0), w5);
  }

  // -------- The steps run undisturbed are the engine's own --------

  /** The queue, the flag and the logs are those of the engine. */
  predicate Agrees(w: World, s: Ftp) {
    w.flag == s.ctl.inProgress && w.q == s.ctl.q && w.sent == s.log.sent && w.gone == s.log.gone
  }

  /** Some interleaving leads from one world to the other. */
  ghost predicate Leads(w0: World, w: World) {
    exists actions :: EnabledRun(w0, actions) && Run(w0, actions) == w
  }

  lemma LeadsItself(w: World)
    ensures Leads(w, w)
  {
    assert EnabledRun(w, []) && Run(w, []) == w;
  }

  lemma LeadsOn(w0: World, w: World, a: Action, w': World)
    requires Leads(w0, w) && Enabled(w, a) && Apply(w, a) == w'
    ensures Leads(w0, w')
  {
    var actions :| EnabledRun(w0, actions) && Run(w0, actions) == w;
    RunExtended(w0, actions, a, w);
  }

  function AfterNext(w: World, t: nat): World
    requires t < |w.pcs|
  {
    if w.flag || w.q == [] then w.(pcs := w.pcs[t := Idle])
    else w.(pcs := w.pcs[t := Idle], flag := true, awaiting := true, sent := w.sent + [w.q[0]])
  }

  lemma NextSteps(w0: World, w: World, t: nat)
    requires Leads(w0, w) && t < |w.pcs| && w.pcs[t] == Testing
    ensures Leads(w0, AfterNext(w, t))
  {
    if w.flag {
      LeadsOn(w0, w, TestAndSet(t), AfterNext(w, t));
    } else {
      var w1 := w.(pcs := w.pcs[t := Checking], flag := true);
      var w2 := w1.(pcs := w.pcs[t := if w.q == [] then Clearing else Sending]);
      assert w1.pcs[t := w2.pcs[t]] == w2.pcs && w2.pcs[t := Idle] == w.pcs[t := Idle];
      LeadsOn(w0, w, TestAndSet(t), w1);
      LeadsOn(w0, w1, CheckSize(t), w2);
      LeadsOn(w0, w2, if w.q == [] then ClearFlag(t) else SendFront(t), AfterNext(w, t));
    }
  }

  /** A worker that nobody comes between does with its steps what ProcessNextCmd does. */
  lemma UndisturbedNext(w: World, t: nat, s: Ftp)
    requires t < |w.pcs| && w.pcs[t] == Testing && Agrees(w, s)
    ensures Leads(w, AfterNext(w, t)) && Agrees(AfterNext(w, t), ProcessNextCmd(s))
  {
    LeadsItself(w);
    NextSteps(w, w, t);
  }

  /** After `i` of `n` pops. */
  function AfterPops(w: World, n: nat, i: nat): World
    requires i <= n <= |w.q| && |w.pcs| > 0
  {
    w.(pcs := w.pcs[0 := Popping(n - i, i == 0)], awaiting := false, q := w.q[i..],
       gone := w.gone + Departures(w.q[..n])[..i])
  }

  lemma PopOne(w: World, n: nat, i: nat)
    requires i < n <= |w.q| && |w.pcs| > 0
    ensures Enabled(AfterPops(w, n, i), PopFront) && Apply(AfterPops(w, n, i), PopFront) == AfterPops(w, n, i + 1)
  {
    var g := Departures(w.q[..n]);
    assert g[..i + 1] == g[..i] + [g[i]];
    Bytes.Regroup(w.gone, g[..i], [g[i]]);
    assert w.q[i..][1..] == w.q[i + 1..];
    assert w.pcs[0 := Popping(n - i, i == 0)][0 := Popping(n - i - 1, false)] == w.pcs[0 := Popping(n - i - 1, false)];
  }

  lemma {:induction false} PopSteps(w: World, n: nat, i: nat)
    requires Enabled(w, TakeReply(n)) && i <= n <= |w.q|
    ensures Leads(w, AfterPops(w, n, i))
    decreases i
  {
    if i == 0 {
      assert w.gone + Departures(w.q[..n])[..0] == w.gone && w.q[0..] == w.q;
      LeadsItself(w);
      LeadsOn(w, w, TakeReply(n), AfterPops(w, n, 0));
    } else {
      PopSteps(w, n, i - 1);
      PopOne(w, n, i - 1);
      LeadsOn(w, AfterPops(w, n, i - 1), PopFront, AfterPops(w, n, i));
    }
  }

  /** The dispatcher that nobody comes between does with its steps what SkipCommand does, and is idle again. */
  lemma UndisturbedSkip(w: World, n: nat, s: Ftp) returns (w': World)
    requires Enabled(w, TakeReply(n)) && n <= |w.q| && Agrees(w, s)
    ensures Leads(w, w') && Agrees(w', SkipCommand(s, n)) && w'.pcs == w.pcs
  {
    var popped := AfterPops(w, n, n);
    var released := popped.(pcs := w.pcs[0 := Testing], flag := false);
    assert Departures(w.q[..n])[..n] == Departures(w.q[..n]);
    assert popped.pcs[0 := Testing] == released.pcs && released.pcs[0 := Idle] == w.pcs;
    PopSteps(w, n, n);
    LeadsOn(w, popped, Release, released);
    NextSteps(w, released, 0);
    w' := AfterNext(released, 0);
    assert Agrees(released, Pop(s, n));
  }
}
