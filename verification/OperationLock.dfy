/** The per-Job operation lock of `delivery.rs`: a stable lock file that is
    created on demand, locked exclusively and never unlinked. */
module OperationLock {
  import opened Common

  /** What the lock path names: a regular file with an inode, or something else. */
  datatype Node = Regular(inode: nat) | Other

  datatype Call =
    | Acquire | Probe
    | Opened(inode: nat)
    | Checked(inode: nat)
    | Holding(inode: nat)
    | Refused | NothingHeld | Dropped

  /** `locked` is the set of inodes with an exclusive lock on them. */
  datatype State = State(path: Option<Node>, nextInode: nat, locked: set<nat>, calls: seq<Call>)

  /** `Unlink` is not a step of this program; it is here to say what its absence buys. */
  datatype Op = BeginAcquire | BeginProbe | Advance(pid: nat) | Drop(pid: nat) | Unlink

  function Move(s: State, pid: nat): State
    requires pid < |s.calls|
  {
    match s.calls[pid]
    case Acquire =>
      (match s.path
       case None => s.(path := Some(Regular(s.nextInode)), nextInode := s.nextInode + 1,
                       calls := s.calls[pid := Opened(s.nextInode)])
       case Some(Regular(inode)) => s.(calls := s.calls[pid := Opened(inode)])
       case Some(Other) => s.(calls := s.calls[pid := Refused]))
    case Probe =>
      (match s.path
       case None => s.(calls := s.calls[pid := NothingHeld])
       case Some(Regular(inode)) => s.(calls := s.calls[pid := Opened(inode)])
       case Some(Other) => s.(calls := s.calls[pid := Refused]))
    case Opened(inode) =>
      s.(calls := s.calls[pid := if s.path == Some(Regular(inode)) then Checked(inode) else Refused])
    case Checked(inode) =>
      if inode in s.locked then s.(calls := s.calls[pid := Refused])
      else s.(locked := s.locked + {inode}, calls := s.calls[pid := Holding(inode)])
    case _ => s
  }

  function Step(s: State, op: Op): State {
    match op
    case BeginAcquire => s.(calls := s.calls + [Acquire])
    case BeginProbe => s.(calls := s.calls + [Probe])
    case Advance(pid) => if pid < |s.calls| then Move(s, pid) else s
    case Drop(pid) =>
      if pid < |s.calls| && s.calls[pid].Holding?
      then s.(locked := s.locked - {s.calls[pid].inode}, calls := s.calls[pid := Dropped]) else s
    case Unlink => s.(path := None)
  }

  function Run(start: Option<Node>, ops: seq<Op>): State {
    if ops == [] then State(start, if start.Some? && start.value.Regular? then start.value.inode + 1 else 0, {}, [])
    else Step(Run(start, ops[..|ops| - 1]), ops[|ops| - 1])
  }

  predicate NeverUnlinked(ops: seq<Op>) {
    Unlink !in ops
  }

  ghost predicate Invariant(s: State) {
    && (s.path.Some? && s.path.value.Regular? ==> s.path.value.inode < s.nextInode)
    && (forall i | 0 <= i < |s.calls| && (s.calls[i].Opened? || s.calls[i].Checked? || s.calls[i].Holding?) ::
          s.path == Some(Regular(s.calls[i].inode)))
    && (forall i | 0 <= i < |s.calls| && s.calls[i].Holding? :: s.calls[i].inode in s.locked)
    && (forall i, j | 0 <= i < j < |s.calls| && s.calls[i].Holding? && s.calls[j].Holding? ::
          s.calls[i].inode != s.calls[j].inode)
    && (forall inode | inode in s.locked :: HeldBySome(s, inode))
  }

  ghost predicate HeldBySome(s: State, inode: nat) {
    exists i :: 0 <= i < |s.calls| && s.calls[i] == Holding(inode)
  }

  lemma MoveKeepsInvariant(s: State, pid: nat)
    requires Invariant(s) && pid < |s.calls|
    ensures Invariant(Move(s, pid))
  {
    hide HeldBySome;
    var after := Move(s, pid);
    assert forall i | 0 <= i < |s.calls| && i != pid :: after.calls[i] == s.calls[i];
    forall inode | inode in after.locked
      ensures HeldBySome(after, inode)
    {
      StillHeld(s, after, pid, inode);
    }
  }

  lemma StillHeld(s: State, after: State, pid: nat, inode: nat)
    requires pid < |s.calls| && |after.calls| == |s.calls|
    requires forall i | 0 <= i < |s.calls| && i != pid :: after.calls[i] == s.calls[i]
    requires (HeldBySome(s, inode) && s.calls[pid] != Holding(inode)) || after.calls[pid] == Holding(inode)
    ensures HeldBySome(after, inode)
  {
    if after.calls[pid] != Holding(inode) {
      var i :| 0 <= i < |s.calls| && s.calls[i] == Holding(inode);
      assert after.calls[i] == Holding(inode);
    }
  }

  lemma DropKeepsInvariant(s: State, pid: nat)
    requires Invariant(s) && pid < |s.calls| && s.calls[pid].Holding?
    ensures Invariant(Step(s, Drop(pid))) && Step(s, Drop(pid)).locked == {}
  {
    hide HeldBySome;
    var after := Step(s, Drop(pid));
    assert forall i | 0 <= i < |s.calls| && i != pid :: after.calls[i] == s.calls[i];
    forall inode | inode in s.locked
      ensures inode == s.calls[pid].inode
    {
      SoleHolder(s, pid, inode);
    }
  }

  lemma SoleHolder(s: State, pid: nat, inode: nat)
    requires Invariant(s) && pid < |s.calls| && inode in s.locked
    requires s.calls[pid].Holding? || s.calls[pid].Checked?
    ensures inode == s.calls[pid].inode
  {
    assert HeldBySome(s, inode);
    var i :| 0 <= i < |s.calls| && s.calls[i] == Holding(inode);
    assert s.path == Some(Regular(inode));
  }

  lemma BeginKeepsInvariant(s: State, op: Op)
    requires Invariant(s) && (op.BeginAcquire? || op.BeginProbe?)
    ensures Invariant(Step(s, op))
  {
    var after := Step(s, op);
    assert forall i | 0 <= i < |s.calls| :: after.calls[i] == s.calls[i];
    forall inode | inode in after.locked
      ensures HeldBySome(after, inode)
    {
      assert HeldBySome(s, inode);
      var i :| 0 <= i < |s.calls| && s.calls[i] == Holding(inode);
      assert after.calls[i] == Holding(inode);
    }
  }

  lemma {:induction false} RunKeepsInvariant(start: Option<Node>, ops: seq<Op>)
    requires NeverUnlinked(ops)
    ensures Invariant(Run(start, ops))
  {
    if ops != [] {
      RunKeepsInvariant(start, ops[..|ops| - 1]);
      var before, op := Run(start, ops[..|ops| - 1]), ops[|ops| - 1];
      match op
      case Advance(pid) =>
        if pid < |before.calls| {
          MoveKeepsInvariant(before, pid);
        }
      case Drop(pid) =>
        if pid < |before.calls| && before.calls[pid].Holding? {
          DropKeepsInvariant(before, pid);
        }
      case _ =>
        BeginKeepsInvariant(before, op);
    }
  }

  /** A refusal is truthful: in every run without unlink a call that has checked
      its file is refused exactly when some call holds the lock, and otherwise
      gets it. */
  lemma RefusedIffHeld(start: Option<Node>, ops: seq<Op>, pid: nat)
    requires NeverUnlinked(ops)
    requires pid < |Run(start, ops).calls| && Run(start, ops).calls[pid].Checked?
    ensures var s := Run(start, ops);
      Move(s, pid).calls[pid] ==
        if exists i :: 0 <= i < |s.calls| && s.calls[i].Holding? then Refused else Holding(s.calls[pid].inode)
  {
    RunKeepsInvariant(start, ops);
    var s := Run(start, ops);
    var inode := s.calls[pid].inode;
    if inode in s.locked {
      assert HeldBySome(s, inode);
    }
    if i :| 0 <= i < |s.calls| && s.calls[i].Holding? {
      assert s.path == Some(Regular(s.calls[i].inode)) && s.path == Some(Regular(inode));
    }
  }

  /** Dropping frees the lock: in every run without unlink nothing is locked after
      the holder's drop. */
  lemma DropFrees(start: Option<Node>, ops: seq<Op>, pid: nat)
    requires NeverUnlinked(ops)
    requires pid < |Run(start, ops).calls| && Run(start, ops).calls[pid].Holding?
    ensures var s := Step(Run(start, ops), Drop(pid));
      s.locked == {} && forall i | 0 <= i < |s.calls| :: !s.calls[i].Holding?
  {
    RunKeepsInvariant(start, ops);
    DropKeepsInvariant(Run(start, ops), pid);
  }

  ghost predicate Held(s: State) {
    exists i :: 0 <= i < |s.calls| && s.calls[i].Holding?
  }

  /** An acquire that runs undisturbed, after any run without unlink: it creates the
      file if there is none, opens the one there is otherwise, and gets the lock
      exactly when no call holds it and the path is no other kind of node. */
  lemma UndisturbedAcquire(start: Option<Node>, ops: seq<Op>)
    requires NeverUnlinked(ops)
    ensures var s := Run(start, ops);
      var pid := |s.calls|;
      var t := Step(Step(Step(Step(s, BeginAcquire), Advance(pid)), Advance(pid)), Advance(pid));
      && t.path == (if s.path.None? then Some(Regular(s.nextInode)) else s.path)
      && |t.calls| == pid + 1
      && t.calls[pid] == (if s.path == Some(Other) || Held(s) then Refused else Holding(t.path.value.inode))
  {
    RunKeepsInvariant(start, ops);
    var s := Run(start, ops);
    hide Run, Invariant;
    AcquireFrom(s);
  }

  lemma AcquireFrom(s: State)
    requires Invariant(s)
    ensures var pid := |s.calls|;
      var t := Step(Step(Step(Step(s, BeginAcquire), Advance(pid)), Advance(pid)), Advance(pid));
      && t.path == (if s.path.None? then Some(Regular(s.nextInode)) else s.path)
      && |t.calls| == pid + 1
      && t.calls[pid] == (if s.path == Some(Other) || Held(s) then Refused else Holding(t.path.value.inode))
  {
    var pid := |s.calls|;
    if i :| 0 <= i < |s.calls| && s.calls[i].Holding? {
      assert s.path == Some(Regular(s.calls[i].inode)) && s.calls[i].inode in s.locked;
    }
    forall inode | inode in s.locked
      ensures Held(s)
    {
      assert HeldBySome(s, inode);
    }
  }

  /** Mutual exclusion: in every run of acquires, probes and drops at most one
      call holds the lock. */
  lemma AtMostOneHolder(start: Option<Node>, ops: seq<Op>, i: nat, j: nat)
    requires NeverUnlinked(ops)
    requires i < j < |Run(start, ops).calls|
    ensures !(Run(start, ops).calls[i].Holding? && Run(start, ops).calls[j].Holding?)
  {
    RunKeepsInvariant(start, ops);
  }

  /** The file the first acquire creates stays the one file for ever. */
  lemma {:induction false} PathIsStable(start: Option<Node>, ops: seq<Op>, more: seq<Op>)
    requires NeverUnlinked(ops + more)
    ensures Run(start, ops).path.Some? ==> Run(start, ops + more).path == Run(start, ops).path
  {
    if more == [] {
      assert ops + more == ops;
    } else {
      var shorter := more[..|more| - 1];
      assert (ops + more)[..|ops + more| - 1] == ops + shorter;
      assert forall op | op in ops + shorter :: op in ops + more;
      PathIsStable(start, ops, shorter);
    }
  }

  /** A run of probes alone creates nothing. */
  lemma {:induction false} ProbesCreateNothing(start: Option<Node>, ops: seq<Op>)
    requires forall op | op in ops :: op.BeginProbe? || op.Advance? || op.Drop?
    ensures Run(start, ops).path == start
    ensures forall i | 0 <= i < |Run(start, ops).calls| :: Run(start, ops).calls[i] != Acquire
  {
    if ops != [] {
      assert ops[|ops| - 1] in ops;
      ProbesCreateNothing(start, ops[..|ops| - 1]);
    }
  }

  /** Why the file is never unlinked: one unlink between two acquires is
      enough for both to hold the lock. */
  lemma UnlinkBreaksExclusion() returns (ops: seq<Op>)
    ensures |Run(None, ops).calls| == 2
    ensures Run(None, ops).calls[0].Holding? && Run(None, ops).calls[1].Holding?
  {
    var s1 := [BeginAcquire, Advance(0), Advance(0)];
    Extend(None, [], BeginAcquire);
    Extend(None, [BeginAcquire], Advance(0));
    Extend(None, [BeginAcquire, Advance(0)], Advance(0));
    Extend(None, s1, Advance(0));
    var first := s1 + [Advance(0)];
    assert Run(None, first) == State(Some(Regular(0)), 1, {0}, [Holding(0)]);
    Extend(None, first, Unlink);
    Extend(None, first + [Unlink], BeginAcquire);
    var second := first + [Unlink] + [BeginAcquire];
    Extend(None, second, Advance(1));
    Extend(None, second + [Advance(1)], Advance(1));
    Extend(None, second + [Advance(1)] + [Advance(1)], Advance(1));
    ops := second + [Advance(1)] + [Advance(1)] + [Advance(1)];
  }

  lemma Extend(start: Option<Node>, ops: seq<Op>, op: Op)
    ensures Run(start, ops + [op]) == Step(Run(start, ops), op)
  {
    assert (ops + [op])[..|ops + [op]| - 1] == ops;
  }
}
