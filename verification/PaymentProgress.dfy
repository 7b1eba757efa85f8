/** Billing transactions cannot deadlock, and any finite set of them finishes. */
module PaymentProgress {
  import opened Base
  import opened PaymentRuns
  import opened PaymentInvariant

  /** The order in which every transaction takes its locks. */
  function Rank(l: Lock): nat {
    match l
    case Advisory(_) => 0
    case PaymentRow(_) => 1
    case CustomerRow(_) => 2
  }

  /** The place in that order of the lock a transaction waits for. */
  function WantedRank(cfg: Config, x: Txn): nat {
    match Wanted(cfg, x)
    case Some(l) => Rank(l)
    case None => 3
  }

  /** A transaction only waits for locks that come after all those it holds. */
  lemma WantedIsLater(cfg: Config, x: Txn, l: Lock, m: Lock)
    requires Shaped(x) && Holds(cfg, x, l) && Wanted(cfg, x) == Some(m)
    ensures Rank(l) < Rank(m)
  {
  }

  /** Along a wait the wanted lock moves up in the order. */
  lemma WaitsClimb(cfg: Config, s: State, t: nat, u: nat, v: nat)
    requires Inv(cfg, s) && t in s.txns && u in s.txns && v in s.txns
    requires Waits(cfg, s, t, u) && Waits(cfg, s, u, v)
    ensures WantedRank(cfg, s.txns[t]) < WantedRank(cfg, s.txns[u])
  {
    assert StableAt(cfg, s, u);
    WantedIsLater(cfg, s.txns[u], Wanted(cfg, s.txns[t]).value, Wanted(cfg, s.txns[u]).value);
  }

  ghost predicate WaitChain(cfg: Config, s: State, c: seq<nat>) {
    && (forall i :: 0 <= i < |c| ==> c[i] in s.txns)
    && (forall i, j :: 0 <= i && j == i + 1 && j < |c| ==> Waits(cfg, s, c[i], c[j]))
  }

  /** The wait-for relation has no cycle; indeed no chain of waits passes through more than four transactions. */
  lemma {:induction false} WaitChainsShort(cfg: Config, s: State, c: seq<nat>)
    requires Inv(cfg, s) && WaitChain(cfg, s, c) && |c| >= 2
    ensures |c| <= 4
    ensures c[0] != c[|c| - 1]
    ensures WantedRank(cfg, s.txns[c[0]]) + |c| - 2 <= WantedRank(cfg, s.txns[c[|c| - 2]])
  {
    var n := |c|;
    assert Waits(cfg, s, c[n - 2], c[n - 1]);
    if n > 2 {
      assert Waits(cfg, s, c[0], c[1]);
      WaitChainsShort(cfg, s, c[..n - 1]);
      assert Waits(cfg, s, c[n - 3], c[n - 2]);
      WaitsClimb(cfg, s, c[n - 3], c[n - 2], c[n - 1]);
      if c[0] == c[n - 1] {
        WaitsClimb(cfg, s, c[n - 2], c[0], c[1]);
        assert false;
      }
    }
  }

  /** No deadlock: while a claim, refund or posting is unfinished, one of them can execute a statement or commit. */
  lemma {:induction false} SomeoneRuns(cfg: Config, s: State, t: nat) returns (u: nat, a: Action)
    requires Inv(cfg, s) && t in s.txns && Live(s.txns[t]) && !s.txns[t].req.Create?
    ensures a != RollBack && Enabled(cfg, s, u, a) && !s.txns[u].req.Create?
    decreases 3 - WantedRank(cfg, s.txns[t])
  {
    assert StableAt(cfg, s, t);
    if s.txns[t].pc == Ready {
      u, a := t, CommitTx;
    } else if Free(cfg, s, t) {
      u, a := t, Statement;
    } else {
      var v :| v in s.txns && Waits(cfg, s, t, v);
      assert StableAt(cfg, s, v);
      if Wanted(cfg, s.txns[v]).Some? {
        WantedIsLater(cfg, s.txns[v], Wanted(cfg, s.txns[t]).value, Wanted(cfg, s.txns[v]).value);
      }
      u, a := SomeoneRuns(cfg, s, v);
    }
  }

  // ----- termination -----

  function StepsLeft(pc: Pc): nat {
    match pc
    case Begun => 9
    case Locked => 8
    case RowHeld => 7
    case Checked => 6
    case Marked => 5
    case Looked => 4
    case BalanceRead(_) => 3
    case BalanceSet => 2
    case Ready => 1
    case Finished(_) => 0
  }

  /** The statements that the transactions numbered below n may still execute. */
  function WorkLeft(txns: map<nat, Txn>, n: nat): nat {
    if n == 0 then 0 else WorkLeft(txns, n - 1) + (if n - 1 in txns then StepsLeft(txns[n - 1].pc) else 0)
  }

  lemma {:induction false} WorkUpdate(txns: map<nat, Txn>, n: nat, t: nat, x: Txn)
    requires t in txns
    ensures WorkLeft(txns[t := x], n) ==
            WorkLeft(txns, n) + if t < n then StepsLeft(x.pc) - StepsLeft(txns[t].pc) else 0
  {
    if n > 0 {
      WorkUpdate(txns, n - 1, t, x);
    }
  }

  function Numbered(txns: map<nat, Txn>, n: nat): set<nat> {
    set t | t in txns && t < n
  }

  lemma {:induction false} WorkBound(txns: map<nat, Txn>, n: nat)
    ensures WorkLeft(txns, n) <= 9 * |Numbered(txns, n)|
  {
    if n > 0 {
      WorkBound(txns, n - 1);
      assert Numbered(txns, n) == Numbered(txns, n - 1) + if n - 1 in txns then {n - 1} else {};
    }
  }

  /** A number above all transactions. */
  lemma {:induction false} Above(ts: set<nat>) returns (n: nat)
    ensures forall t :: t in ts ==> t < n
  {
    if ts == {} {
      n := 0;
    } else {
      var t :| t in ts;
      var m := Above(ts - {t});
      n := if t < m then m else t + 1;
      assert forall u :: u in ts ==> u == t || u in ts - {t};
    }
  }

  lemma StepWorks(cfg: Config, s: State, t: nat, a: Action, n: nat)
    requires Enabled(cfg, s, t, a) && t < n
    ensures WorkLeft(Do(cfg, s, t, a).txns, n) < WorkLeft(s.txns, n)
  {
    WorkUpdate(s.txns, n, t, Do(cfg, s, t, a).txns[t]);
  }

  lemma {:induction false} RunWorks(cfg: Config, tr: seq<State>, i: nat, n: nat)
    requires Run(cfg, tr) && i < |tr| && forall t :: t in tr[0].txns ==> t < n
    ensures WorkLeft(tr[i].txns, n) + i <= WorkLeft(tr[0].txns, n)
  {
    if i > 0 {
      RunWorks(cfg, tr, i - 1, n);
      RequestsFixed(cfg, tr, i - 1);
      var t, a := StepAt(cfg, tr, i - 1);
      assert t in Requests(tr[i - 1]);
      StepWorks(cfg, tr[i - 1], t, a, n);
    }
  }

  /** Every run ends within nine steps for each transaction, and a run that cannot be continued except by rolling back
      has finished every claim, refund and posting. */
  lemma RunsFinish(cfg: Config, tr: seq<State>)
    requires Run(cfg, tr)
    ensures |tr| <= 9 * |tr[0].txns| + 1
    ensures var s := tr[|tr| - 1];
            (forall u, a :: Enabled(cfg, s, u, a) ==> a == RollBack) ==>
            forall t :: t in s.txns && !s.txns[t].req.Create? ==> s.txns[t].pc.Finished?
  {
    var s, first := tr[|tr| - 1], tr[0].txns;
    var n := Above(first.Keys);
    RunWorks(cfg, tr, |tr| - 1, n);
    WorkBound(first, n);
    assert Numbered(first, n) == first.Keys && |first.Keys| == |first|;
    RunInv(cfg, tr, |tr| - 1);
    if t :| t in s.txns && !s.txns[t].req.Create? && Live(s.txns[t]) {
      var u, a := SomeoneRuns(cfg, s, t);
    }
  }
}
