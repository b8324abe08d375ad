/**
 The listener object (native/display-helper/Listener.swift). Between any two of its system calls other
 processes make calls of their own, and every one of its calls may fail.
 */
module ListenerObject {
  import opened Outcomes
  import opened ListenerProtocol

  predicate OfStart(call: Call) {
    match call
    case Stop | CloseSocket | Unlock | CloseLock | Crash => false
    case _ => true
  }

  function Next(call: Call): Stage
    requires OfStart(call)
  {
    match call
    case Open(_) => Opened
    case Flock(_) => Locked
    case Fit(_) => Fitted
    case Socket(_) => Socketed
    case Configure(_) => Configured
    case Unlink(_) => Cleared
    case Bind(_) => Bound
    case Chmod(_) => Restricted
    case Listen(_) => Listening
  }

  /** What a successful call of `start` adds to the process. */
  predicate Gains(p: Process, call: Call, q: Process) {
    && (q.lockOpen <==> call.Open? || p.lockOpen)
    && (if call.Socket? then q.socket.Some? else q.socket == p.socket)
  }

  /** Whether a call of `start` succeeds, from what the system answers, the lock and the path. */
  predicate Grants(owner: Option<Pid>, path: Option<SocketId>, call: Call)
    requires OfStart(call)
  {
    match call
    case Flock(ok) => ok && owner.None?
    case Bind(ok) => ok && path.None?
    case Unlink(_) => true
    case _ => call.ok
  }

  function OwnerAfter(pid: Pid, owner: Option<Pid>, call: Call): Option<Pid> {
    if call.Flock? then Some(pid) else owner
  }

  function PathAfter(path: Option<SocketId>, call: Call, socket: Option<SocketId>): Option<SocketId> {
    if call.Unlink? && call.ok then None else if call.Bind? then socket else path
  }

  /** Calls that leave lock and path alone, whoever makes them. */
  predicate Leaves(call: Call) {
    !call.Flock? && !call.Unlink? && !call.Bind? && !call.Unlock? && !call.Crash?
  }

  predicate Still(others: seq<Action>) {
    forall i :: 0 <= i < |others| ==> Leaves(others[i].call)
  }

  lemma LeavesStill(w: World, a: Action)
    requires Leaves(a.call)
    ensures Step(w, a).owner == w.owner && Step(w, a).path == w.path
  {
  }

  lemma TryGranted(w: World, pid: Pid, call: Call)
    requires OfStart(call) && Enabled(At(w, pid), call) && !At(w, pid).stage.Removing?
    ensures var v := Step(w, Action(pid, call));
            && (At(v, pid).stage == Next(call) <==> Grants(w.owner, w.path, call))
            && (At(v, pid).stage == Next(call) ==>
                  v.owner == OwnerAfter(pid, w.owner, call) && v.path == PathAfter(w.path, call, At(w, pid).socket))
  {
  }

  lemma TryOutcome(w: World, pid: Pid, call: Call)
    requires Inv(w) && OfStart(call) && Enabled(At(w, pid), call) && !At(w, pid).stage.Removing?
    ensures var q := At(Step(w, Action(pid, call)), pid);
            && (q.stage == Next(call) ==> Gains(At(w, pid), call, q) && (call.ok || call.Unlink?))
            && (q.stage != Next(call) ==> q == if call.Open? || call.Flock? then IDLE else At(w, pid).(stage := Stopping))
  {
    assert Coherent(w, pid);
  }

  predicate OfStop(p: Process, call: Call) {
    Enabled(p, call) && (call.Stop? || call.CloseSocket? || call.Unlock? || call.CloseLock? || (call.Unlink? && p.stage.Removing?))
  }

  /** How a call of `stop` changes the process. */
  function Undone(p: Process, call: Call): Process
    requires OfStop(p, call)
  {
    match call
    case Stop => p.(stage := Stopping)
    case CloseSocket => p.(stage := if p.socket.Some? then Removing else Releasing, socket := None)
    case Unlink(_) => p.(stage := Releasing)
    case Unlock => p.(stage := Closing)
    case CloseLock => IDLE
  }

  lemma UndoOutcome(w: World, pid: Pid, call: Call)
    requires OfStop(At(w, pid), call)
    ensures At(Step(w, Action(pid, call)), pid) == Undone(At(w, pid), call)
  {
  }

  /** `world` is the system around the process, and `history` the calls everyone has made so far. */
  class HelperListener {
    const pid: Pid
    var descriptor: int
    var lockDescriptor: int
    var source: bool
    var world: World
    var history: seq<Action>

    constructor (pid: Pid)
      ensures this.pid == pid && Valid() && AtRest() && world == BOOT && history == []
    {
      this.pid := pid;
      descriptor, lockDescriptor, source := -1, -1, false;
      world, history := BOOT, [];
    }

    function Me(): Process
      reads this
    {
      At(world, pid)
    }

    /** The descriptors the object remembers are the ones the process has open. */
    ghost predicate Valid()
      reads this
    {
      && world == Run(history)
      && descriptor >= -1 && lockDescriptor >= -1
      && (descriptor >= 0 <==> Me().socket.Some?)
      && (lockDescriptor >= 0 <==> Me().lockOpen)
    }

    /** Neither starting nor stopping. */
    ghost predicate AtRest()
      reads this
    {
      && (Me().stage.Idle? || Me().stage.Listening?)
      && (source <==> Me().stage.Listening?)
      && (descriptor >= 0 <==> source) && (lockDescriptor >= 0 <==> source)
      && (source ==> world.path == Me().socket && world.owner == Some(pid))
    }

    ghost predicate Foreign(others: seq<Action>) {
      forall i :: 0 <= i < |others| ==> others[i].pid != pid
    }

    ghost predicate Environment(others: nat -> seq<Action>) {
      forall k :: Foreign(others(k))
    }

    /** Nobody else touches the lock or the path meanwhile. */
    ghost predicate Undisturbed(others: nat -> seq<Action>) {
      forall k :: Still(others(k))
    }

    /** Other processes make their calls; nothing of this process changes. */
    method Elsewhere(others: seq<Action>)
      requires world == Run(history) && Foreign(others)
      modifies this`world, this`history
      ensures world == Run(history) && Me() == old(Me())
      ensures old(history) <= history
      ensures Still(others) ==> world.owner == old(world).owner && world.path == old(world).path
    {
      for i := 0 to |others|
        invariant world == Run(history) && Me() == old(Me()) && old(history) <= history
        invariant Still(others) ==> world.owner == old(world).owner && world.path == old(world).path
      {
        if Still(others) { LeavesStill(world, others[i]); }
        StepElsewhere(world, others[i], pid);
        world := Step(world, others[i]);
        history := history + [others[i]];
        assert history[..|history| - 1] + [others[i]] == history;
      }
    }

    /** One call of this process, after whatever the others did. */
    method Invoke(call: Call, others: seq<Action>) returns (ghost before: World)
      requires world == Run(history) && Foreign(others)
      modifies this`world, this`history
      ensures world == Run(history) && Inv(before) && old(history) <= history
      ensures At(before, pid) == old(Me()) && world == Step(before, Action(pid, call))
      ensures Still(others) ==> before.owner == old(world).owner && before.path == old(world).path
    {
      Elsewhere(others);
      before := world;
      RunKeeps(history);
      world := Step(world, Action(pid, call));
      history := history + [Action(pid, call)];
      assert history[..|history| - 1] + [Action(pid, call)] == history;
    }

    /** A call of `start`: it leads to its next stage, or the start is over. */
    method Try(call: Call, others: seq<Action>) returns (ok: bool)
      requires world == Run(history) && Foreign(others)
      requires OfStart(call) && Enabled(Me(), call) && !Me().stage.Removing?
      modifies this`world, this`history
      ensures world == Run(history) && old(history) <= history
      ensures ok ==> Me().stage == Next(call) && Gains(old(Me()), call, Me()) && (call.ok || call.Unlink?)
      ensures !ok ==> Me() == if call.Open? || call.Flock? then IDLE else old(Me()).(stage := Stopping)
      ensures Still(others) ==> (ok <==> Grants(old(world).owner, old(world).path, call))
      ensures Still(others) && ok ==>
                world.owner == OwnerAfter(pid, old(world).owner, call)
                && world.path == PathAfter(old(world).path, call, old(Me()).socket)
    {
      ghost var before := Invoke(call, others);
      TryGranted(before, pid, call);
      TryOutcome(before, pid, call);
      ok := Me().stage == Next(call);
    }

    /** A call of `stop`, which leads where it leads whatever the system answers. */
    method Undo(call: Call, others: seq<Action>)
      requires world == Run(history) && Foreign(others)
      requires OfStop(Me(), call)
      modifies this`world, this`history
      ensures world == Run(history) && old(history) <= history
      ensures Me() == Undone(old(Me()), call)
    {
      ghost var before := Invoke(call, others);
      UndoOutcome(before, pid, call);
    }

    /** Returns whether the helper listens; a start that throws leaves nothing behind. */
    method Start(results: Results, lockNumber: nat, socketNumber: nat, others: nat -> seq<Action>) returns (ok: bool)
      requires Valid() && AtRest() && Environment(others)
      modifies this
      ensures Valid() && AtRest() && old(history) <= history
      ensures ok <==> source
      ensures ok ==> Me().stage.Listening? && world.path == Me().socket && world.owner == Some(pid)
      ensures !ok ==> descriptor == -1 && lockDescriptor == -1 && Me() == IDLE && world.owner != Some(pid)
      ensures old(descriptor) >= 0 ==> ok && world == old(world) && history == old(history)
      ensures old(descriptor) < 0 && ok ==>
                results.open && results.flock && results.fit && results.socket && results.configure
                && results.bind && results.chmod && results.listen
      ensures old(descriptor) < 0 && Undisturbed(others) ==>
                (ok <==> && old(world).owner.None? && results.open && results.flock && results.fit && results.socket
                         && results.configure && (results.unlink || old(world).path.None?)
                         && results.bind && results.chmod && results.listen)
    {
      hide Still;
      if descriptor >= 0 {
        return true;
      }
      ok := Lock(results, lockNumber, others);
      if ok {
        ok := Prepare(results, socketNumber, others);
        if ok {
          ok := Publish(results, others);
        }
        if ok {
          RunKeeps(history);
          assert Coherent(world, pid);
          source := true;
        } else {
          Finish(results.unlink, others);
        }
      }
    }

    method Lock(results: Results, number: nat, others: nat -> seq<Action>) returns (ok: bool)
      requires Valid() && AtRest() && !source && Environment(others)
      modifies this
      ensures Valid() && old(history) <= history && !source
      ensures ok ==> results.open && results.flock && Me() == Process(Locked, true, None)
      ensures Undisturbed(others) ==> (ok <==> results.open && results.flock && old(world).owner.None?)
      ensures Undisturbed(others) && ok ==> world.path == old(world).path
      ensures !ok ==> descriptor == -1 && lockDescriptor == -1 && Me() == IDLE && world.owner != Some(pid)
    {
      hide Step, Run, Inv, Still;
      IdleHoldsNothing(history, pid);
      ok := Try(Open(results.open), others(0));
      if ok {
        lockDescriptor := number;
        ok := Try(Flock(results.flock), others(1));
        if !ok {
          lockDescriptor := -1;
        }
      }
      RunKeeps(history);
      assert Coherent(world, pid);
    }

    method Prepare(results: Results, number: nat, others: nat -> seq<Action>) returns (ok: bool)
      requires Valid() && Me() == Process(Locked, true, None) && !source && Environment(others)
      modifies this
      ensures Valid() && old(history) <= history && !source
      ensures ok ==> results.fit && results.socket && results.configure && Me().stage.Cleared?
      ensures Undisturbed(others) ==> (ok <==> results.fit && results.socket && results.configure)
      ensures Undisturbed(others) && ok ==> world.path == if results.unlink then None else old(world).path
      ensures !ok ==> Me().stage.Stopping?
    {
      hide Step, Run, Inv, Still;
      ok := OpenSocket(results, number, others);
      if !ok {
        return;
      }
      ok := Try(Configure(results.configure), others(4));
      if !ok {
        return;
      }
      ok := Try(Unlink(results.unlink), others(5));
    }

    method OpenSocket(results: Results, number: nat, others: nat -> seq<Action>) returns (ok: bool)
      requires Valid() && Me() == Process(Locked, true, None) && !source && Environment(others)
      modifies this`descriptor, this`world, this`history
      ensures Valid() && old(history) <= history
      ensures ok ==> results.fit && results.socket && Me().stage.Socketed?
      ensures !ok ==> Me().stage.Stopping?
      ensures Undisturbed(others) ==> (ok <==> results.fit && results.socket)
      ensures Undisturbed(others) && ok ==> world.path == old(world).path
    {
      hide Step, Run, Inv, Still;
      ok := Try(Fit(results.fit), others(2));
      if !ok {
        return;
      }
      ok := Try(Socket(results.socket), others(3));
      if ok {
        descriptor := number;
      }
    }

    method Publish(results: Results, others: nat -> seq<Action>) returns (ok: bool)
      requires Valid() && Me().stage.Cleared? && !source && Environment(others)
      modifies this`world, this`history
      ensures Valid() && old(history) <= history
      ensures ok ==> results.bind && results.chmod && results.listen && Me().stage.Listening?
      ensures Undisturbed(others) ==> (ok <==> results.bind && old(world).path.None? && results.chmod && results.listen)
      ensures !ok ==> Me().stage.Stopping?
    {
      hide Step, Run, Inv, Still;
      ok := Try(Bind(results.bind), others(6));
      if !ok {
        return;
      }
      ok := Try(Chmod(results.chmod), others(7));
      if !ok {
        return;
      }
      ok := Try(Listen(results.listen), others(8));
    }

    /** The cleanup that `stop` and a failed start share. */
    method Finish(removed: bool, others: nat -> seq<Action>)
      requires Valid() && Me().stage.Stopping? && !source && Environment(others)
      modifies this
      ensures Valid() && AtRest() && !source && old(history) <= history
      ensures descriptor == -1 && lockDescriptor == -1 && Me() == IDLE && world.owner != Some(pid)
    {
      hide Step, Run, Inv, Still;
      CloseDescriptor(removed, others);
      Undo(Unlock, others(11));
      Undo(CloseLock, others(12));
      lockDescriptor := -1;
      IdleHoldsNothing(history, pid);
    }

    method CloseDescriptor(removed: bool, others: nat -> seq<Action>)
      requires Valid() && Me().stage.Stopping? && !source && Environment(others)
      modifies this`descriptor, this`world, this`history
      ensures Valid() && old(history) <= history
      ensures descriptor == -1 && Me() == Process(Releasing, old(Me()).lockOpen, None)
    {
      hide Step, Run, Inv, Still;
      Undo(CloseSocket, others(9));
      if descriptor >= 0 {
        descriptor := -1;
        Undo(Unlink(removed), others(10));
      }
    }

    /** Stopping is complete even when removing the path fails, and harmless when not listening. */
    method Halt(removed: bool, others: nat -> seq<Action>)
      requires Valid() && AtRest() && Environment(others)
      modifies this
      ensures Valid() && AtRest() && !source && old(history) <= history
      ensures descriptor == -1 && lockDescriptor == -1 && Me() == IDLE && world.owner != Some(pid)
    {
      if !source {
        IdleHoldsNothing(history, pid);
        return;
      }
      source := false;
      Undo(Call.Stop, others(0));
      Finish(removed, others);
    }
  }
}
