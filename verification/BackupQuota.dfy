/** Quota-checked creation of backups and snapshots, under a lock on the VM row. */
module BackupQuota {
  datatype Backup = Backup(vm: string, deleted: bool)

  type Table = map<nat, Backup>

  /** The backups of a VM that count toward its limit. */
  function Live(table: Table, vm: string): set<nat> {
    set id | id in table && table[id].vm == vm && !table[id].deleted
  }

  ghost predicate AllDeleted(table: Table, vm: string) {
    forall id :: id in table && table[id].vm == vm ==> table[id].deleted
  }

  // ----- the repository methods -----

  datatype Stmt = BeginTx | LockVm | CountRows | InsertRow | CommitTx

  /** One database connection: an open transaction, and whether it holds the VM row. */
  class Session {
    var open: bool
    var holdsVm: bool

    constructor ()
      ensures !open && !holdsVm
    {
      open, holdsVm := false, false;
    }

    method End()
      modifies this
      ensures !open && !holdsVm
    {
      open, holdsVm := false, false;
    }
  }

  class BackupStore {
    var backups: Table
    var snapshots: map<nat, string>

    constructor (backups: Table, snapshots: map<nat, string>)
      ensures this.backups == backups && this.snapshots == snapshots
    {
      this.backups, this.snapshots := backups, snapshots;
    }

    function SnapshotsOf(vm: string): set<nat>
      reads this
    {
      set id | id in snapshots && snapshots[id] == vm
    }

    /** CreateBackupWithLimitCheck: the row is added exactly when the count is below the limit and nothing fails, and
        on every path the transaction has ended and the VM row is free. */
    method CreateBackupWithLimitCheck(tx: Session, vm: string, id: nat, limit: int, faults: set<Stmt>) returns (ok: bool)
      requires !tx.open && !tx.holdsVm && id !in backups
      modifies this`backups, tx
      ensures !tx.open && !tx.holdsVm
      ensures ok <==> faults == {} && |Live(old(backups), vm)| < limit
      ensures ok ==> backups == old(backups)[id := Backup(vm, false)] && |Live(backups, vm)| == |Live(old(backups), vm)| + 1
      ensures !ok ==> backups == old(backups)
      ensures faults == {} && limit > 0 && AllDeleted(old(backups), vm) ==> ok
    {
      if AllDeleted(backups, vm) {
        assert Live(backups, vm) == {};
      }
      if BeginTx in faults {
        return false;
      }
      tx.open := true;
      if LockVm in faults {
        tx.End();
        return false;
      }
      tx.holdsVm := true;
      if CountRows in faults || |Live(backups, vm)| >= limit || InsertRow in faults || CommitTx in faults {
        tx.End();
        return false;
      }
      assert Live(backups[id := Backup(vm, false)], vm) == Live(backups, vm) + {id};
      backups := backups[id := Backup(vm, false)];
      tx.End();
      OnlyStatements(faults);
      return true;
    }

    /** CreateSnapshotWithLimitCheck: its deferred rollback looks at an error variable that the quota return does not
        set, so the transaction and the VM row lock are left open if and only if the quota is what refuses. A failed
        commit does not set it either; there the driver ends the transaction by itself. */
    method CreateSnapshotWithLimitCheck(tx: Session, vm: string, id: nat, limit: int, faults: set<Stmt>) returns (ok: bool)
      requires !tx.open && !tx.holdsVm && id !in snapshots
      modifies this`snapshots, tx
      ensures tx.open == tx.holdsVm
      ensures tx.open <==> !(BeginTx in faults || LockVm in faults || CountRows in faults) && |old(SnapshotsOf(vm))| >= limit
      ensures ok <==> faults == {} && |old(SnapshotsOf(vm))| < limit
      ensures snapshots == if ok then old(snapshots)[id := vm] else old(snapshots)
    {
      if BeginTx in faults {
        return false;
      }
      tx.open := true;
      if LockVm in faults {
        tx.End();
        return false;
      }
      tx.holdsVm := true;
      if CountRows in faults {
        tx.End();
        return false;
      }
      if |SnapshotsOf(vm)| >= limit {
        return false;
      }
      if InsertRow in faults || CommitTx in faults {
        tx.End();
        return false;
      }
      snapshots := snapshots[id := vm];
      tx.End();
      OnlyStatements(faults);
      return true;
    }
  }

  lemma OnlyStatements(faults: set<Stmt>)
    requires !(BeginTx in faults || LockVm in faults || CountRows in faults || InsertRow in faults || CommitTx in faults)
    ensures faults == {}
  {
    forall x | x in faults
      ensures false
    {
      match x {
        case BeginTx =>
        case LockVm =>
        case CountRows =>
        case InsertRow =>
        case CommitTx =>
      }
    }
  }

  // ----- concurrent creations -----

  datatype Pc = Begun | VmHeld | Counted | Inserted | Finished(done: bool)

  /** A creation for a VM: id is the key the database gives the new row. */
  datatype Txn = Txn(vm: string, limit: int, id: nat, pc: Pc)

  /** vms are the existing VMs: a row lock on a missing VM locks nothing, and its foreign key refuses the insert. */
  datatype State = State(vms: set<string>, table: Table, txns: map<nat, Txn>)

  datatype Action = Statement(t: nat) | CommitStep(t: nat) | RollBack(t: nat) | Delete(id: nat) | SetStatus(id: nat, deleted: bool)

  predicate HoldsVm(s: State, t: nat)
    requires t in s.txns
  {
    var pc := s.txns[t].pc;
    s.txns[t].vm in s.vms && (pc == VmHeld || pc == Counted || pc == Inserted)
  }

  predicate VmFree(s: State, t: nat)
    requires t in s.txns
  {
    forall u | u in s.txns :: u != t && s.txns[u].vm == s.txns[t].vm ==> !HoldsVm(s, u)
  }

  /** DeleteBackup and UpdateBackupStatus run without the lock; no update revives a deleted backup. */
  predicate Enabled(s: State, a: Action) {
    match a
    case Statement(t) => t in s.txns && !s.txns[t].pc.Finished? && (s.txns[t].pc == Begun ==> VmFree(s, t))
    case CommitStep(t) => t in s.txns && s.txns[t].pc == Inserted && s.txns[t].id !in s.table
    case RollBack(t) => t in s.txns && !s.txns[t].pc.Finished?
    case Delete(id) => id in s.table
    case SetStatus(id, deleted) => id in s.table && (s.table[id].deleted ==> deleted)
  }

  function Advance(s: State, x: Txn): Txn {
    match x.pc
    case Begun => x.(pc := VmHeld)
    case VmHeld => if |Live(s.table, x.vm)| >= x.limit then x.(pc := Finished(false)) else x.(pc := Counted)
    case Counted => if x.vm in s.vms then x.(pc := Inserted) else x.(pc := Finished(false))
    case _ => x
  }

  function Do(s: State, a: Action): State
    requires Enabled(s, a)
  {
    match a
    case Statement(t) => s.(txns := s.txns[t := Advance(s, s.txns[t])])
    case CommitStep(t) =>
      s.(table := s.table[s.txns[t].id := Backup(s.txns[t].vm, false)], txns := s.txns[t := s.txns[t].(pc := Finished(true))])
    case RollBack(t) => s.(txns := s.txns[t := s.txns[t].(pc := Finished(false))])
    case Delete(id) => s.(table := s.table - {id})
    case SetStatus(id, deleted) => s.(table := s.table[id := s.table[id].(deleted := deleted)])
  }

  ghost predicate StepsAt(tr: seq<State>, i: nat)
    requires i + 1 < |tr|
  {
    exists a: Action :: Enabled(tr[i], a) && tr[i + 1] == Do(tr[i], a)
  }

  ghost predicate Run(tr: seq<State>) {
    && |tr| > 0
    && (forall t :: t in tr[0].txns ==> tr[0].txns[t].pc == Begun)
    && forall i: nat :: i + 1 < |tr| ==> StepsAt(tr, i)
  }

  /** Having counted under the lock, the creation still has room. */
  ghost predicate HasRoom(s: State, t: nat)
    requires t in s.txns
  {
    var x := s.txns[t];
    && (x.vm in s.vms && (x.pc == Counted || x.pc == Inserted) ==> |Live(s.table, x.vm)| < x.limit)
    && (x.pc == Inserted ==> x.vm in s.vms)
  }

  ghost predicate Exclusive(s: State) {
    forall t, u :: t in s.txns && u in s.txns && s.txns[t].vm == s.txns[u].vm && HoldsVm(s, t) && HoldsVm(s, u) ==> t == u
  }

  ghost predicate Inv(s: State) {
    Exclusive(s) && forall t :: t in s.txns ==> HasRoom(s, t)
  }

  lemma LiveInsert(table: Table, id: nat, owner: string, vm: string)
    requires id !in table
    ensures Live(table[id := Backup(owner, false)], vm) == if owner == vm then Live(table, vm) + {id} else Live(table, vm)
  {
  }

  lemma LiveRemove(before: Table, after: Table, id: nat, vm: string)
    requires id in before && (forall x :: x != id ==> (x in before <==> x in after) && (x in before ==> before[x] == after[x]))
    requires id in after ==> after[id].deleted
    ensures Live(after, vm) == if before[id].vm == vm && !before[id].deleted then Live(before, vm) - {id} else Live(before, vm)
  {
  }

  /** The step takes a counted backup of the VM away. */
  predicate Removes(s: State, a: Action, vm: string) {
    && (a.Delete? || (a.SetStatus? && a.deleted))
    && a.id in s.table && s.table[a.id].vm == vm && !s.table[a.id].deleted
  }

  /** How one step changes the count of a VM: a commit for that VM raises it by one, deleting a backup that is not yet
      deleted lowers it by one, and nothing else changes it. */
  lemma StepCounts(s: State, a: Action, vm: string)
    requires Enabled(s, a)
    ensures |Live(Do(s, a).table, vm)| ==
            |Live(s.table, vm)| + (if a.CommitStep? && s.txns[a.t].vm == vm then 1 else 0) - (if Removes(s, a, vm) then 1 else 0)
  {
    if a.CommitStep? {
      LiveInsert(s.table, s.txns[a.t].id, s.txns[a.t].vm, vm);
    } else if a.Delete? || (a.SetStatus? && a.deleted) {
      LiveRemove(s.table, Do(s, a).table, a.id, vm);
    } else {
      assert Live(Do(s, a).table, vm) == Live(s.table, vm);
    }
  }

  /** A statement refuses a creation exactly when the VM's count has reached the limit, or the VM does not exist. */
  lemma RefusedExactly(s: State, t: nat)
    requires Enabled(s, Statement(t)) && s.txns[t].pc != Inserted
    ensures var x := s.txns[t];
            Do(s, Statement(t)).txns[t].pc ==
            match x.pc
            case Begun => VmHeld
            case VmHeld => if |Live(s.table, x.vm)| >= x.limit then Finished(false) else Counted
            case _ => if x.vm in s.vms then Inserted else Finished(false)
  {
  }

  /** A step gives a VM row only to its own transaction, and only while nobody else has it. */
  lemma StepHolds(s: State, a: Action, t: nat)
    requires Enabled(s, a) && t in s.txns && HoldsVm(Do(s, a), t)
    ensures HoldsVm(s, t) || (a.Statement? && a.t == t && VmFree(s, t))
  {
  }

  lemma StepExclusive(s: State, a: Action)
    requires Exclusive(s) && Enabled(s, a)
    ensures Exclusive(Do(s, a))
  {
    var s' := Do(s, a);
    forall t, u | t in s'.txns && u in s'.txns && s'.txns[t].vm == s'.txns[u].vm && HoldsVm(s', t) && HoldsVm(s', u)
      ensures t == u
    {
      StepHolds(s, a, t);
      StepHolds(s, a, u);
    }
  }

  lemma StepHasRoom(s: State, a: Action, t: nat)
    requires Inv(s) && Enabled(s, a) && t in s.txns
    ensures HasRoom(Do(s, a), t)
  {
    StepCounts(s, a, s.txns[t].vm);
    assert HasRoom(s, t);
  }

  lemma StepInv(s: State, a: Action)
    requires Inv(s) && Enabled(s, a)
    ensures Inv(Do(s, a))
  {
    StepExclusive(s, a);
    forall t | t in s.txns
      ensures HasRoom(Do(s, a), t)
    {
      StepHasRoom(s, a, t);
    }
  }

  /** The limits of all creations for the VM are at most the bound. */
  ghost predicate LimitedBy(s: State, vm: string, bound: int) {
    forall t :: t in s.txns && s.txns[t].vm == vm ==> s.txns[t].limit <= bound
  }

  lemma StepWithin(s: State, a: Action, vm: string, bound: int)
    requires Inv(s) && Enabled(s, a) && LimitedBy(s, vm, bound) && |Live(s.table, vm)| <= bound
    ensures LimitedBy(Do(s, a), vm, bound) && |Live(Do(s, a).table, vm)| <= bound
  {
    StepCounts(s, a, vm);
    if a.CommitStep? {
      assert HasRoom(s, a.t);
    }
  }

  /** However many creations run at once, and whatever is deleted meanwhile, the VM never exceeds its limit. */
  lemma {:induction false} RunWithinQuota(tr: seq<State>, i: nat, vm: string, bound: int)
    requires Run(tr) && i < |tr| && LimitedBy(tr[0], vm, bound) && |Live(tr[0].table, vm)| <= bound
    ensures Inv(tr[i]) && LimitedBy(tr[i], vm, bound) && |Live(tr[i].table, vm)| <= bound
  {
    if i > 0 {
      RunWithinQuota(tr, i - 1, vm, bound);
      assert StepsAt(tr, i - 1);
      var a :| Enabled(tr[i - 1], a) && tr[i] == Do(tr[i - 1], a);
      StepInv(tr[i - 1], a);
      StepWithin(tr[i - 1], a, vm, bound);
    }
  }
}
