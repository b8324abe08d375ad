/**
 Any number of helper processes competing for one socket path (native/display-helper/Listener.swift).
 Every system call is one step, so the calls of different processes interleave in any order, any call
 may fail, and any process may crash between two of its calls.
 */
module ListenerProtocol {
  import opened Outcomes

  type Pid = nat

  /** Names one socket ever created; the path may outlive the socket bound to it. */
  type SocketId = nat

  /** The next call of a process inside `start` or `stop`. */
  datatype Stage =
    | Idle | Opened | Locked | Fitted | Socketed | Configured | Cleared | Bound | Restricted | Listening
    | Stopping | Removing | Releasing | Closing

  datatype Process = Process(stage: Stage, lockOpen: bool, socket: Option<SocketId>)

  const IDLE := Process(Idle, false, None)

  datatype Unlinking = Unlinking(remover: Pid, holder: Option<Pid>)

  /** `owner` holds the file lock; `path` is the socket the path names; `unlinks` is the log. */
  datatype World = World(processes: map<Pid, Process>, owner: Option<Pid>, path: Option<SocketId>, next: SocketId, unlinks: seq<Unlinking>)

  const BOOT := World(map[], None, None, 0, [])

  datatype Call =
    | Open(ok: bool) | Flock(ok: bool) | Fit(ok: bool) | Socket(ok: bool) | Configure(ok: bool)
    | Unlink(ok: bool) | Bind(ok: bool) | Chmod(ok: bool) | Listen(ok: bool)
    | Stop | CloseSocket | Unlock | CloseLock | Crash

  datatype Action = Action(pid: Pid, call: Call)

  function At(w: World, pid: Pid): Process {
    if pid in w.processes then w.processes[pid] else IDLE
  }

  function Set(w: World, pid: Pid, p: Process): World {
    w.(processes := w.processes[pid := p])
  }

  function Advance(w: World, pid: Pid, ok: bool, stage: Stage): World {
    Set(w, pid, At(w, pid).(stage := if ok then stage else Stopping))
  }

  function Unlinked(w: World, pid: Pid, ok: bool): World {
    w.(path := if ok then None else w.path, unlinks := w.unlinks + [Unlinking(pid, w.owner)])
  }

  /** Whether the process is at the place in its code that makes this call. */
  predicate Enabled(p: Process, call: Call) {
    match call
    case Open(_) => p.stage.Idle?
    case Flock(_) => p.stage.Opened?
    case Fit(_) => p.stage.Locked?
    case Socket(_) => p.stage.Fitted?
    case Configure(_) => p.stage.Socketed?
    case Unlink(_) => p.stage.Configured? || p.stage.Removing?
    case Bind(_) => p.stage.Cleared?
    case Chmod(_) => p.stage.Bound?
    case Listen(_) => p.stage.Restricted?
    case Stop => p.stage.Listening?
    case CloseSocket => p.stage.Stopping?
    case Unlock => p.stage.Releasing?
    case CloseLock => p.stage.Closing?
    case Crash => true
  }

  function Made(w: World, pid: Pid, call: Call): World
    requires Enabled(At(w, pid), call)
  {
    var p := At(w, pid);
    match call
    case Open(ok) => if ok then Set(w, pid, p.(stage := Opened, lockOpen := true)) else w
    case Flock(ok) =>
      if ok && w.owner.None? then Set(w, pid, p.(stage := Locked)).(owner := Some(pid)) else Set(w, pid, IDLE)
    case Fit(ok) => Advance(w, pid, ok, Fitted)
    case Socket(ok) =>
      if ok then Set(w, pid, p.(stage := Socketed, socket := Some(w.next))).(next := w.next + 1)
      else Advance(w, pid, false, Socketed)
    case Configure(ok) => Advance(w, pid, ok, Configured)
    case Unlink(ok) => Set(Unlinked(w, pid, ok), pid, p.(stage := if p.stage.Configured? then Cleared else Releasing))
    case Bind(ok) =>
      var bound := ok && w.path.None?;
      Advance(w, pid, bound, Bound).(path := if bound then p.socket else w.path)
    case Chmod(ok) => Advance(w, pid, ok, Restricted)
    case Listen(ok) => Advance(w, pid, ok, Listening)
    case Stop => Advance(w, pid, true, Stopping)
    case CloseSocket => Set(w, pid, p.(stage := if p.socket.Some? then Removing else Releasing, socket := None))
    case Unlock => Set(w, pid, p.(stage := Closing)).(owner := None)
    case CloseLock => Set(w, pid, IDLE)
    case Crash => Set(w, pid, IDLE).(owner := if w.owner == Some(pid) then None else w.owner)
  }

  function Step(w: World, a: Action): World {
    if Enabled(At(w, a.pid), a.call) then Made(w, a.pid, a.call) else w
  }

  function Run(actions: seq<Action>): World {
    if actions == [] then BOOT else Step(Run(actions[..|actions| - 1]), actions[|actions| - 1])
  }

  // ----- What every run keeps -----

  predicate HoldsLock(s: Stage) {
    !s.Idle? && !s.Opened? && !s.Closing?
  }

  predicate OwnsPath(s: Stage) {
    s.Bound? || s.Restricted? || s.Listening?
  }

  predicate MayHaveSocket(s: Stage) {
    s.Stopping? || MustHaveSocket(s)
  }

  predicate MustHaveSocket(s: Stage) {
    s.Socketed? || s.Configured? || s.Cleared? || OwnsPath(s)
  }

  predicate Coherent(w: World, pid: Pid) {
    var p := At(w, pid);
    && (w.owner == Some(pid) <==> HoldsLock(p.stage))
    && (p.lockOpen <==> !p.stage.Idle?)
    && (MustHaveSocket(p.stage) ==> p.socket.Some?)
    && (p.socket.Some? ==> MayHaveSocket(p.stage) && p.socket.value < w.next)
    && (OwnsPath(p.stage) ==> w.path == p.socket)
  }

  predicate Bounded(w: World) {
    w.path.Some? ==> w.path.value < w.next
  }

  predicate Logged(w: World) {
    forall i :: 0 <= i < |w.unlinks| ==> w.unlinks[i].holder == Some(w.unlinks[i].remover)
  }

  ghost predicate Inv(w: World) {
    Bounded(w) && Logged(w) && forall pid :: Coherent(w, pid)
  }

  /** Calls of one process leave every other process coherent. */
  lemma OthersCoherent(w: World, a: Action, pid: Pid)
    requires Coherent(w, a.pid) && Coherent(w, pid) && pid != a.pid && Enabled(At(w, a.pid), a.call)
    ensures Coherent(Made(w, a.pid, a.call), pid)
  {
    assert At(Made(w, a.pid, a.call), pid) == At(w, pid);
  }

  lemma SelfCoherent(w: World, a: Action)
    requires Coherent(w, a.pid) && Enabled(At(w, a.pid), a.call)
    ensures Coherent(Made(w, a.pid, a.call), a.pid)
  {
  }

  lemma StepKeeps(w: World, a: Action)
    requires Inv(w)
    ensures Inv(Step(w, a))
  {
    if Enabled(At(w, a.pid), a.call) {
      assert Coherent(w, a.pid);
      forall pid ensures Coherent(Made(w, a.pid, a.call), pid) {
        if pid == a.pid { SelfCoherent(w, a); } else { OthersCoherent(w, a, pid); }
      }
    }
  }

  lemma {:induction false} RunKeeps(actions: seq<Action>)
    ensures Inv(Run(actions))
  {
    if actions != [] {
      RunKeeps(actions[..|actions| - 1]);
      StepKeeps(Run(actions[..|actions| - 1]), actions[|actions| - 1]);
    }
  }

  lemma StepElsewhere(w: World, a: Action, pid: Pid)
    requires a.pid != pid
    ensures At(Step(w, a), pid) == At(w, pid)
  {
  }

  // ----- The guarantees -----

  /** At most one process listens, and while it does the path names its own socket. */
  lemma OneListener(actions: seq<Action>, p: Pid, q: Pid)
    requires At(Run(actions), p).stage.Listening? && At(Run(actions), q).stage.Listening?
    ensures p == q && Run(actions).path == At(Run(actions), p).socket && Run(actions).path.Some?
  {
    RunKeeps(actions);
    assert Coherent(Run(actions), p) && Coherent(Run(actions), q);
  }

  /** No two live processes hold the lock, so none of them is between locking and unlocking with another. */
  lemma MutualExclusion(actions: seq<Action>, p: Pid, q: Pid)
    requires HoldsLock(At(Run(actions), p).stage) && HoldsLock(At(Run(actions), q).stage)
    ensures p == q
  {
    RunKeeps(actions);
    assert Coherent(Run(actions), p) && Coherent(Run(actions), q);
  }

  /** The path is only ever unlinked by the process that holds the lock at that moment. */
  lemma UnlinkedUnderLock(actions: seq<Action>, i: nat)
    requires i < |Run(actions).unlinks|
    ensures Run(actions).unlinks[i].holder == Some(Run(actions).unlinks[i].remover)
  {
    RunKeeps(actions);
  }

  /** The path changes only in the hands of the lock's holder: unlinked, or bound to a socket of its own when it named none. */
  lemma PathChangesUnderLock(actions: seq<Action>, a: Action)
    requires Step(Run(actions), a).path != Run(actions).path
    ensures Run(actions).owner == Some(a.pid)
    ensures || (a.call.Unlink? && Step(Run(actions), a).path == None)
            || (a.call.Bind? && Run(actions).path == None
                && Step(Run(actions), a).path == At(Run(actions), a.pid).socket && Step(Run(actions), a).path.Some?)
  {
    RunKeeps(actions);
    assert Coherent(Run(actions), a.pid);
  }

  /** Every unlink is made with the lock, recorded, and leaves the path named by nothing unless the system refused. */
  lemma UnlinkExact(actions: seq<Action>, pid: Pid, ok: bool)
    requires Enabled(At(Run(actions), pid), Unlink(ok))
    ensures var w, v := Run(actions), Step(Run(actions), Action(pid, Unlink(ok)));
            && w.owner == Some(pid) && v.unlinks == w.unlinks + [Unlinking(pid, Some(pid))]
            && v.path == if ok then None else w.path
  {
    RunKeeps(actions);
    assert Coherent(Run(actions), pid);
  }

  /** Unlinking or binding never takes the path from a socket that another process still has open. */
  lemma PathNeverStolen(actions: seq<Action>, a: Action, q: Pid)
    requires q != a.pid && Run(actions).path.Some? && At(Run(actions), q).socket == Run(actions).path
    requires OwnsPath(At(Run(actions), q).stage)
    ensures Step(Run(actions), a).path == Run(actions).path
    ensures At(Step(Run(actions), a), q) == At(Run(actions), q)
    ensures Step(Run(actions), a).owner == Some(q)
  {
    RunKeeps(actions);
    assert Coherent(Run(actions), q) && Coherent(Run(actions), a.pid);
  }

  /** A process outside `start` and `stop`, whatever made it leave, holds no descriptor and not the lock. */
  lemma IdleHoldsNothing(actions: seq<Action>, p: Pid)
    requires At(Run(actions), p).stage.Idle?
    ensures At(Run(actions), p) == IDLE && Run(actions).owner != Some(p)
  {
    RunKeeps(actions);
    assert Coherent(Run(actions), p);
  }

  // ----- Starting and stopping -----

  /** The calls of one process made without anyone else in between; calls its code does not reach are skipped. */
  function Perform(w: World, pid: Pid, calls: seq<Call>): World
    decreases |calls|
  {
    if calls == [] then w else Step(Perform(w, pid, calls[..|calls| - 1]), Action(pid, calls[|calls| - 1]))
  }

  datatype Results = Results(open: bool, flock: bool, fit: bool, socket: bool, configure: bool, unlink: bool, bind: bool, chmod: bool, listen: bool)

  function Locking(r: Results): seq<Call> {
    [Open(r.open), Flock(r.flock), Fit(r.fit)]
  }

  function Preparing(r: Results): seq<Call> {
    [Socket(r.socket), Configure(r.configure), Unlink(r.unlink)]
  }

  function Publishing(r: Results): seq<Call> {
    [Bind(r.bind), Chmod(r.chmod), Listen(r.listen)]
  }

  function Starting(r: Results): seq<Call> {
    Locking(r) + Preparing(r) + Publishing(r)
  }

  /** What `stop` does, also when `start` calls it on failure. */
  function Finishing(removed: bool): seq<Call> {
    [CloseSocket, Unlink(removed)] + [Unlock, CloseLock]
  }

  lemma PerformAppends(w: World, pid: Pid, a: seq<Call>, b: seq<Call>)
    ensures Perform(w, pid, a + b) == Perform(Perform(w, pid, a), pid, b)
    decreases |b|
  {
    if b == [] {
      assert a + b == a;
    } else {
      var front := b[..|b| - 1];
      assert (a + b)[..|a + b| - 1] == a + front;
      PerformAppends(w, pid, a, front);
    }
  }

  lemma PerformTwo(w: World, pid: Pid, a: Call, b: Call)
    ensures Perform(w, pid, [a, b]) == Step(Step(w, Action(pid, a)), Action(pid, b))
  {
    assert [a, b][..1] == [a] && [a][..0] == [];
    assert Perform(w, pid, []) == w;
    assert Perform(w, pid, [a]) == Step(w, Action(pid, a));
  }

  lemma PerformThree(w: World, pid: Pid, a: Call, b: Call, c: Call)
    ensures Perform(w, pid, [a, b, c]) == Step(Step(Step(w, Action(pid, a)), Action(pid, b)), Action(pid, c))
  {
    assert [a, b, c][..2] == [a, b];
    PerformTwo(w, pid, a, b);
  }

  lemma LockingExact(w: World, pid: Pid, r: Results)
    requires Inv(w) && At(w, pid) == IDLE
    ensures var v, s := Perform(w, pid, Locking(r)), At(Perform(w, pid, Locking(r)), pid).stage;
            && (s.Fitted? <==> r.open && r.flock && r.fit && w.owner.None?)
            && (s.Idle? || s.Stopping? || s.Fitted?)
            && v.path == w.path
            && (w.owner.Some? ==> At(v, pid) == IDLE && v.owner == w.owner && SameOthers(w, v, pid))
  {
    PerformThree(w, pid, Open(r.open), Flock(r.flock), Fit(r.fit));
  }

  lemma PreparingExact(w: World, pid: Pid, r: Results)
    requires Inv(w)
    ensures var v, s := Perform(w, pid, Preparing(r)), At(w, pid).stage;
            && (s.Fitted? && r.socket && r.configure ==>
                  && At(v, pid).stage.Cleared? && At(v, pid).socket == Some(w.next)
                  && v.path == (if r.unlink then None else w.path))
            && (s.Fitted? && !(r.socket && r.configure) ==> At(v, pid).stage.Stopping?)
            && (s.Idle? || s.Stopping? ==> v == w)
  {
    PerformThree(w, pid, Socket(r.socket), Configure(r.configure), Unlink(r.unlink));
  }

  lemma PublishingExact(w: World, pid: Pid, r: Results)
    requires Inv(w)
    ensures var v, s := Perform(w, pid, Publishing(r)), At(w, pid).stage;
            && (s.Cleared? && r.bind && w.path.None? && r.chmod && r.listen ==> At(v, pid).stage.Listening?)
            && (s.Cleared? && !(r.bind && w.path.None? && r.chmod && r.listen) ==> At(v, pid).stage.Stopping?)
            && (s.Idle? || s.Stopping? ==> v == w)
  {
    PerformThree(w, pid, Bind(r.bind), Chmod(r.chmod), Listen(r.listen));
  }

  lemma {:induction false} PerformKeeps(w: World, pid: Pid, calls: seq<Call>)
    requires Inv(w)
    ensures Inv(Perform(w, pid, calls))
    decreases |calls|
  {
    if calls != [] {
      PerformKeeps(w, pid, calls[..|calls| - 1]);
      StepKeeps(Perform(w, pid, calls[..|calls| - 1]), Action(pid, calls[|calls| - 1]));
    }
  }

  /**
   An uninterrupted start listens exactly when the lock is free and every call succeeds; removing the old
   path may fail only when there was none. In particular a path left behind by a crash never blocks the
   next start. Otherwise the start ends outside, or in its own cleanup.
   */
  lemma StartExact(w: World, pid: Pid, r: Results)
    requires Inv(w) && At(w, pid).stage.Idle?
    ensures var v := Perform(w, pid, Starting(r));
            && Inv(v)
            && (At(v, pid).stage.Listening? <==>
                  && w.owner.None? && r.open && r.flock && r.fit && r.socket && r.configure
                  && (r.unlink || w.path.None?) && r.bind && r.chmod && r.listen)
            && (At(v, pid).stage.Listening? || At(v, pid).stage.Idle? || At(v, pid).stage.Stopping?)
            && (w.owner.Some? ==>
                  At(v, pid) == IDLE && v.path == w.path && v.owner == w.owner && SameOthers(w, v, pid))
  {
    assert Coherent(w, pid);
    hide Step, Inv, Coherent, Locking, Preparing, Publishing;
    PerformAppends(w, pid, Locking(r), Preparing(r));
    PerformAppends(w, pid, Locking(r) + Preparing(r), Publishing(r));
    var x := Perform(w, pid, Locking(r));
    PerformKeeps(w, pid, Locking(r));
    LockingExact(w, pid, r);
    var y := Perform(x, pid, Preparing(r));
    PerformKeeps(x, pid, Preparing(r));
    PreparingExact(x, pid, r);
    PerformKeeps(y, pid, Publishing(r));
    PublishingExact(y, pid, r);
  }

  ghost predicate SameOthers(w: World, v: World, pid: Pid) {
    forall q :: q != pid ==> At(v, q) == At(w, q)
  }

  lemma RemovingPath(w: World, pid: Pid, removed: bool)
    requires Inv(w) && At(w, pid).stage.Stopping?
    ensures var v := Perform(w, pid, [CloseSocket, Unlink(removed)]);
            && At(v, pid).stage.Releasing? && SameOthers(w, v, pid)
            && (removed && At(w, pid).socket.Some? ==> v.path == None)
            && (At(w, pid).socket.None? ==> v.path == w.path)
  {
    PerformTwo(w, pid, CloseSocket, Unlink(removed));
  }

  lemma Unlocking(w: World, pid: Pid)
    requires At(w, pid).stage.Releasing?
    ensures var v := Perform(w, pid, [Unlock, CloseLock]);
            At(v, pid) == IDLE && v.owner == None && v.path == w.path && SameOthers(w, v, pid)
  {
    PerformTwo(w, pid, Unlock, CloseLock);
  }

  /** The cleanup of a failed start, and of `stop`, leaves neither a descriptor nor the lock. */
  lemma FinishingFrees(w: World, pid: Pid, removed: bool)
    requires Inv(w) && At(w, pid).stage.Stopping?
    ensures var v := Perform(w, pid, Finishing(removed));
            && Inv(v) && At(v, pid) == IDLE && v.owner == None && SameOthers(w, v, pid)
            && (removed && At(w, pid).socket.Some? ==> v.path == None)
            && (At(w, pid).socket.None? ==> v.path == w.path)
  {
    hide Step, Inv, Perform;
    PerformAppends(w, pid, [CloseSocket, Unlink(removed)], [Unlock, CloseLock]);
    RemovingPath(w, pid, removed);
    Unlocking(Perform(w, pid, [CloseSocket, Unlink(removed)]), pid);
    PerformKeeps(w, pid, Finishing(removed));
  }

  /** Once a listener has stopped, nothing of it is left, and any other process can take its place. */
  lemma HandOver(actions: seq<Action>, p: Pid, q: Pid)
    requires At(Run(actions), p).stage.Listening? && At(Run(actions), q).stage.Idle?
    ensures var v := Perform(Step(Run(actions), Action(p, Stop)), p, Finishing(true));
            && v.path == None && v.owner == None && At(v, p) == IDLE
            && At(Perform(v, p, Starting(ALL_WELL)), p).stage.Listening?
            && At(Perform(v, q, Starting(ALL_WELL)), q).stage.Listening?
  {
    var w := Run(actions);
    RunKeeps(actions);
    StepKeeps(w, Action(p, Stop));
    assert Coherent(w, p);
    FinishingFrees(Step(w, Action(p, Stop)), p, true);
    var v := Perform(Step(w, Action(p, Stop)), p, Finishing(true));
    StartExact(v, p, ALL_WELL);
    StartExact(v, q, ALL_WELL);
  }

  const ALL_WELL := Results(true, true, true, true, true, true, true, true, true)

  /** Nothing a crash leaves behind, in any reachable world, keeps the next process from starting. */
  lemma CrashNeverBlocks(actions: seq<Action>, p: Pid, q: Pid)
    requires Run(actions).owner == Some(p) && At(Run(actions), q).stage.Idle?
    ensures var v := Step(Run(actions), Action(p, Crash));
            v.path == Run(actions).path && At(Perform(v, q, Starting(ALL_WELL)), q).stage.Listening?
  {
    var w := Run(actions);
    RunKeeps(actions);
    assert Coherent(w, p) && Coherent(w, q);
    StepKeeps(w, Action(p, Crash));
    StartExact(Step(w, Action(p, Crash)), q, ALL_WELL);
  }

  /** While one process listens, a start by any other ends outside and changes nothing anyone can see. */
  lemma SecondStartRefused(actions: seq<Action>, p: Pid, q: Pid, r: Results)
    requires At(Run(actions), p).stage.Listening? && At(Run(actions), q).stage.Idle?
    ensures var w, v := Run(actions), Perform(Run(actions), q, Starting(r));
            && At(v, q) == IDLE && v.path == w.path && v.owner == w.owner && At(v, p) == At(w, p)
  {
    RunKeeps(actions);
    assert Coherent(Run(actions), p);
    StartExact(Run(actions), q, r);
  }
}
