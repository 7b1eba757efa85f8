/**
 Concurrent callers of the connection pool. GetInsecureConnection is two critical sections: a lookup under the read lock
 and, if that misses, a second lookup and dial under the write lock. GetConnection is up to four: the lookup, the test
 whether the connection it found was shut down, the deletion of the node's entry, and the re-check and dial. Other callers
 run in between.
 */
module NodePoolRuns {
  import opened NodePool

  datatype Kind = Secure | Insecure

  /** The next section of a caller: Found has a connection to test, Dead deletes the entry, Missed re-checks and dials. */
  datatype Pc = Begun | Found(conn: Conn) | Dead | Missed | Finished

  /** Secure calls GetConnection, Insecure GetInsecureConnection. */
  datatype Caller = Caller(kind: Kind, node: string, pc: Pc)

  datatype Returned = Returned(node: string, conn: Conn)

  /** The pool, the callers, and the connections handed out so far. */
  datatype State = State(conns: map<string, Conn>, open: set<Conn>, next: Conn, callers: map<nat, Caller>, log: seq<Returned>)

  datatype Action = Section(t: nat, fault: bool) | Remove(node: string) | CloseAll

  predicate Enabled(s: State, a: Action) {
    a.Section? ==> a.t in s.callers && s.callers[a.t].pc != Finished
  }

  function Move(s: State, t: nat, pc: Pc): State
    requires t in s.callers
  {
    s.(callers := s.callers[t := s.callers[t].(pc := pc)])
  }

  function Return(s: State, t: nat, c: Conn): State
    requires t in s.callers
  {
    Move(s, t, Finished).(log := s.log + [Returned(s.callers[t].node, c)])
  }

  /** One section of caller t. */
  function Advance(s: State, t: nat, fault: bool): State
    requires t in s.callers
  {
    var x := s.callers[t];
    var n := x.node;
    match x.pc
    case Begun =>
      if n !in s.conns then Move(s, t, Missed)
      else if x.kind == Secure then Move(s, t, Found(s.conns[n]))
      else Return(s, t, s.conns[n])
    case Found(c) => if c in s.open then Return(s, t, c) else Move(s, t, Dead)
    case Dead => Move(s.(conns := s.conns - {n}), t, Missed)
    case Missed =>
      if n in s.conns then
        // GetConnection closes what it found and returns it
        Return(if x.kind == Secure then s.(open := s.open - {s.conns[n]}) else s, t, s.conns[n])
      else if fault then Move(s, t, Finished)
      else Return(s.(conns := s.conns[n := s.next], open := s.open + {s.next}, next := s.next + 1), t, s.next)
    case Finished => s
  }

  function Do(s: State, a: Action): State
    requires Enabled(s, a)
  {
    match a
    case Section(t, fault) => Advance(s, t, fault)
    case Remove(n) =>
      if n in s.conns then s.(conns := s.conns - {n}, open := s.open - {s.conns[n]}) else s
    case CloseAll => s.(conns := map[], open := s.open - s.conns.Values)
  }

  ghost predicate Step(s: State, s': State) {
    exists a: Action :: Enabled(s, a) && s' == Do(s, a)
  }

  ghost predicate StepsAt(tr: seq<State>, i: nat)
    requires i + 1 < |tr|
  {
    Step(tr[i], tr[i + 1])
  }

  ghost predicate Run(tr: seq<State>) {
    && |tr| > 0
    && Owned(tr[0].conns, tr[0].open, tr[0].next)
    && (forall t :: t in tr[0].callers ==> tr[0].callers[t].pc == Begun)
    && forall i: nat :: i + 1 < |tr| ==> StepsAt(tr, i)
  }

  lemma StepAt(tr: seq<State>, i: nat) returns (a: Action)
    requires Run(tr) && i + 1 < |tr|
    ensures Enabled(tr[i], a) && tr[i + 1] == Do(tr[i], a)
  {
    assert StepsAt(tr, i);
    a :| Enabled(tr[i], a) && tr[i + 1] == Do(tr[i], a);
  }

  // ----- the steps that break the pool -----

  /** A GetConnection that re-checks or deletes and finds an entry for its node. */
  predicate Collides(s: State, a: Action)
    requires Enabled(s, a)
  {
    && a.Section?
    && var x := s.callers[a.t];
    && x.node in s.conns
    && (x.pc == Dead || (x.pc == Missed && x.kind == Secure))
  }

  lemma CollisionBreaks(s: State, a: Action)
    requires Enabled(s, a) && Owned(s.conns, s.open, s.next) && Collides(s, a)
    ensures !Owned(Do(s, a).conns, Do(s, a).open, Do(s, a).next)
  {
    var s', n := Do(s, a), s.callers[a.t].node;
    if s.callers[a.t].pc == Dead {
      assert s.conns[n] in s'.open;
      forall m | m in s'.conns
        ensures s'.conns[m] != s.conns[n]
      {
      }
      assert !Pooled(s'.conns, s.conns[n]);
    } else {
      assert n in s'.conns && s'.conns[n] !in s'.open;
    }
  }

  lemma OthersKeep(s: State, a: Action)
    requires Enabled(s, a) && Owned(s.conns, s.open, s.next) && !Collides(s, a)
    ensures Owned(Do(s, a).conns, Do(s, a).open, Do(s, a).next)
  {
    match a {
      case Section(t, fault) =>
        var x := s.callers[t];
        if x.pc == Missed && x.node !in s.conns {
          PoolWith(s.conns, s.open, s.next, x.node);
        } else if x.pc == Dead {
          assert s.conns - {x.node} == s.conns;
        }
      case Remove(n) =>
        if n in s.conns {
          PoolWithout(s.conns, s.open, s.next, n);
        }
      case CloseAll =>
        forall c | c in s.open
          ensures c in s.conns.Values
        {
          assert Pooled(s.conns, c);
        }
    }
  }

  /** From an exact pool a step keeps it exact if and only if it does not collide. */
  lemma StepOwnedExactly(s: State, a: Action)
    requires Enabled(s, a) && Owned(s.conns, s.open, s.next)
    ensures Owned(Do(s, a).conns, Do(s, a).open, Do(s, a).next) <==> !Collides(s, a)
  {
    if Collides(s, a) {
      CollisionBreaks(s, a);
    } else {
      OthersKeep(s, a);
    }
  }

  ghost predicate OwnedAt(tr: seq<State>, j: nat)
    requires j < |tr|
  {
    Owned(tr[j].conns, tr[j].open, tr[j].next)
  }

  ghost predicate CollidesAt(tr: seq<State>, j: nat)
    requires j + 1 < |tr|
  {
    exists a: Action :: Enabled(tr[j], a) && tr[j + 1] == Do(tr[j], a) && Collides(tr[j], a)
  }

  /** The pool was exact up to a point of a run if and only if no step before it collided. */
  lemma {:induction false} RunOwnedExactly(tr: seq<State>, i: nat)
    requires Run(tr) && i < |tr|
    ensures (forall j: nat :: j <= i ==> OwnedAt(tr, j)) <==> forall j: nat :: j < i ==> !CollidesAt(tr, j)
  {
    if i > 0 {
      RunOwnedExactly(tr, i - 1);
      if OwnedAt(tr, i - 1) {
        NextOwnedExactly(tr, i - 1);
      }
    }
  }

  lemma NextOwnedExactly(tr: seq<State>, j: nat)
    requires Run(tr) && j + 1 < |tr| && OwnedAt(tr, j)
    ensures OwnedAt(tr, j + 1) <==> !CollidesAt(tr, j)
  {
    var a := StepAt(tr, j);
    StepOwnedExactly(tr[j], a);
    if CollidesAt(tr, j) {
      var b: Action :| Enabled(tr[j], b) && tr[j + 1] == Do(tr[j], b) && Collides(tr[j], b);
      StepOwnedExactly(tr[j], b);
    }
  }

  // ----- callers that do not meet a GetConnection -----

  /** Two callers of one node, of which the first calls GetConnection. */
  predicate Meet(callers: map<nat, Caller>, t: nat, u: nat) {
    t in callers && u in callers && t != u && callers[t].kind == Secure && callers[u].node == callers[t].node
  }

  ghost predicate Lone(callers: map<nat, Caller>) {
    forall t, u :: !Meet(callers, t, u)
  }

  /** A lone GetConnection past its lookup finds at most the connection it looked up. */
  ghost predicate Tracks(s: State, x: Caller) {
    match x.pc
    case Found(c) => x.kind == Secure && (x.node in s.conns ==> s.conns[x.node] == c)
    case Dead => x.kind == Secure && x.node !in s.conns
    case Missed => x.kind == Secure ==> x.node !in s.conns
    case _ => true
  }

  ghost predicate PoolInv(s: State) {
    && Lone(s.callers)
    && Owned(s.conns, s.open, s.next)
    && forall t :: t in s.callers ==> Tracks(s, s.callers[t])
  }

  lemma StepOwned(s: State, a: Action)
    requires Enabled(s, a) && PoolInv(s)
    ensures Owned(Do(s, a).conns, Do(s, a).open, Do(s, a).next)
  {
    if a.Section? {
      assert Tracks(s, s.callers[a.t]);
    }
    StepOwnedExactly(s, a);
  }

  lemma StepTracks(s: State, a: Action, u: nat)
    requires Enabled(s, a) && PoolInv(s) && u in s.callers
    ensures Tracks(Do(s, a), Do(s, a).callers[u])
  {
    assert Tracks(s, s.callers[u]);
    if a.Section? {
      assert Tracks(s, s.callers[a.t]) && !Meet(s.callers, u, a.t);
    }
  }

  lemma SameCallers(s: State, a: Action)
    requires Enabled(s, a)
    ensures Do(s, a).callers.Keys == s.callers.Keys
    ensures forall t :: t in s.callers ==> Do(s, a).callers[t].kind == s.callers[t].kind && Do(s, a).callers[t].node == s.callers[t].node
  {
  }

  lemma StepPoolInv(s: State, a: Action)
    requires Enabled(s, a) && PoolInv(s)
    ensures PoolInv(Do(s, a))
  {
    StepOwned(s, a);
    SameCallers(s, a);
    forall t, u
      ensures !Meet(Do(s, a).callers, t, u)
    {
      assert !Meet(s.callers, t, u);
    }
    forall u | u in s.callers
      ensures Tracks(Do(s, a), Do(s, a).callers[u])
    {
      StepTracks(s, a, u);
    }
  }

  /** No leak and no sharing: in every interleaving of lone callers, removals and closings the open connections are exactly
      the pooled ones, one per node. */
  lemma {:induction false} RunOwned(tr: seq<State>, i: nat)
    requires Run(tr) && i < |tr| && Lone(tr[0].callers)
    ensures PoolInv(tr[i])
  {
    if i > 0 {
      RunOwned(tr, i - 1);
      var a := StepAt(tr, i - 1);
      StepPoolInv(tr[i - 1], a);
    }
  }

  /** Whatever is handed out at step i is open. */
  ghost predicate HandsOutOpen(tr: seq<State>, i: nat) {
    i + 1 < |tr| && |tr[i].log| < |tr[i + 1].log| ==> tr[i + 1].log[|tr[i].log|].conn in tr[i + 1].open
  }

  lemma RunHandsOutOpen(tr: seq<State>, i: nat)
    requires Run(tr) && Lone(tr[0].callers)
    ensures HandsOutOpen(tr, i)
  {
    if i + 1 < |tr| {
      RunOwned(tr, i);
      var a := StepAt(tr, i);
      if a.Section? {
        assert Tracks(tr[i], tr[i].callers[a.t]);
      }
    }
  }

  // ----- callers that do -----

  ghost function Last(tr: seq<State>): State
    requires |tr| > 0
  {
    tr[|tr| - 1]
  }

  lemma Extended(tr: seq<State>, a: Action) returns (tr': seq<State>)
    requires Run(tr) && Enabled(Last(tr), a)
    ensures Run(tr') && tr'[0] == tr[0] && |tr'| == |tr| + 1 && tr'[|tr| - 1] == Last(tr) && Last(tr') == Do(Last(tr), a)
  {
    tr' := tr + [Do(Last(tr), a)];
    forall i: nat | i + 1 < |tr'|
      ensures StepsAt(tr', i)
    {
      if i + 1 < |tr| {
        assert StepsAt(tr, i);
      } else {
        assert Step(Last(tr), Do(Last(tr), a));
      }
    }
  }

  ghost predicate Start(s: State) {
    Owned(s.conns, s.open, s.next) && forall t :: t in s.callers ==> s.callers[t].pc == Begun
  }

  /** Both have missed, after a removal if the node was pooled. */
  lemma BothMissed(s: State, t: nat, u: nat) returns (tr: seq<State>)
    requires Start(s) && Meet(s.callers, t, u)
    ensures Run(tr) && tr[0] == s && Last(tr).next == s.next && s.callers[t].node !in Last(tr).conns
    ensures Last(tr).callers == s.callers[t := s.callers[t].(pc := Missed)][u := s.callers[u].(pc := Missed)]
  {
    tr := [s];
    tr := Extended(tr, Remove(s.callers[t].node));
    tr := Extended(tr, Section(t, false));
    tr := Extended(tr, Section(u, false));
  }

  /** When a GetConnection meets another caller, it can close the connection the other one just pooled, and return it. */
  lemma MeetingCloses(s: State, t: nat, u: nat) returns (tr: seq<State>)
    requires Start(s) && Meet(s.callers, t, u)
    ensures Run(tr) && tr[0] == s && |tr| >= 2
    ensures !AllOpen(Last(tr).conns, Last(tr).open)
    ensures !HandsOutOpen(tr, |tr| - 2)
  {
    tr := BothMissed(s, t, u);
    tr := Extended(tr, Section(u, false));
    var n, c := s.callers[t].node, s.next;
    assert Last(tr).conns[n] == c && c in Last(tr).open;
    tr := Extended(tr, Section(t, false));
    assert Last(tr).conns[n] == c && c !in Last(tr).open;
  }

  /** The pool stays exact in every run of these callers if and only if no GetConnection meets another caller. */
  lemma OwnedExactly(s: State)
    requires Start(s)
    ensures Lone(s.callers) <==> forall tr :: Run(tr) && tr[0] == s ==> Owned(Last(tr).conns, Last(tr).open, Last(tr).next)
  {
    if Lone(s.callers) {
      forall tr | Run(tr) && tr[0] == s
        ensures Owned(Last(tr).conns, Last(tr).open, Last(tr).next)
      {
        RunOwned(tr, |tr| - 1);
      }
    } else {
      var t, u :| Meet(s.callers, t, u);
      var tr := MeetingCloses(s, t, u);
    }
  }

  /** Every connection handed out in every run of these callers is open if and only if no GetConnection meets another. */
  lemma OpenExactly(s: State)
    requires Start(s)
    ensures Lone(s.callers) <==> forall tr, i: nat :: Run(tr) && tr[0] == s ==> HandsOutOpen(tr, i)
  {
    if Lone(s.callers) {
      forall tr, i: nat | Run(tr) && tr[0] == s
        ensures HandsOutOpen(tr, i)
      {
        RunHandsOutOpen(tr, i);
      }
    } else {
      var t, u :| Meet(s.callers, t, u);
      var tr := MeetingCloses(s, t, u);
      assert !HandsOutOpen(tr, |tr| - 2);
    }
  }

  // ----- dropped connections -----

  /** The connection is open, and no removal or closing of the pool can reach it. */
  ghost predicate Leaked(s: State, c: Conn) {
    c in s.open && c < s.next && !Pooled(s.conns, c)
  }

  lemma StepLeaked(s: State, a: Action, c: Conn)
    requires Enabled(s, a) && Leaked(s, c)
    ensures Leaked(Do(s, a), c)
  {
    assert forall n :: n in s.conns ==> s.conns[n] != c;
    assert forall n :: n in Do(s, a).conns ==> n in s.conns || Do(s, a).conns[n] == s.next;
  }

  /** A leaked connection is never closed. */
  lemma {:induction false} LeakedForever(tr: seq<State>, i: nat, j: nat, c: Conn)
    requires Run(tr) && i <= j < |tr| && Leaked(tr[i], c)
    ensures Leaked(tr[j], c)
    decreases j
  {
    if i < j {
      LeakedForever(tr, i, j - 1, c);
      var a := StepAt(tr, j - 1);
      StepLeaked(tr[j - 1], a, c);
    }
  }

  /** A GetConnection that looked up a connection which is then removed deletes the entry of whoever pooled a new one in
      between: that live connection leaks. */
  lemma DeletionLeaks(s: State, t: nat, u: nat) returns (tr: seq<State>)
    requires Start(s) && Meet(s.callers, t, u) && s.callers[t].node in s.conns
    ensures Run(tr) && tr[0] == s && Leaked(Last(tr), s.next)
    ensures u in Last(tr).callers && Last(tr).callers[u].pc == Finished && Last(tr).log == s.log + [Returned(s.callers[t].node, s.next)]
  {
    var n := s.callers[t].node;
    tr := [s];
    tr := Extended(tr, Section(t, false));
    tr := Extended(tr, Remove(n));
    tr := Extended(tr, Section(u, false));
    tr := Extended(tr, Section(u, false));
    assert Last(tr).conns[n] == s.next && Last(tr).callers[t].pc == Found(s.conns[n]);
    tr := Extended(tr, Section(t, false));
    tr := Extended(tr, Section(t, false));
    assert !Pooled(Last(tr).conns, s.next);
  }

  // ----- racing callers of GetInsecureConnection -----

  predicate Drops(a: Action, n: string) {
    a.CloseAll? || a == Remove(n)
  }

  /** From point i to point j of the run no connection of the node is removed. */
  ghost predicate Undisturbed(tr: seq<State>, i: nat, j: nat, n: string)
    requires i <= j < |tr|
  {
    forall k: nat :: i <= k < j ==> KeepsAt(tr, k, n)
  }

  ghost predicate KeepsAt(tr: seq<State>, k: nat, n: string)
    requires k + 1 < |tr|
  {
    exists a: Action :: Enabled(tr[k], a) && tr[k + 1] == Do(tr[k], a) && !Drops(a, n)
  }

  predicate OnlyInsecure(s: State, n: string) {
    forall t | t in s.callers :: s.callers[t].node == n ==> s.callers[t].kind == Insecure && !s.callers[t].pc.Found? && s.callers[t].pc != Dead
  }

  /** What the node's callers were given since the log had the given length is what is pooled now. */
  ghost predicate Shared(s: State, from: nat, n: string) {
    forall k :: from <= k < |s.log| && s.log[k].node == n ==> n in s.conns && s.conns[n] == s.log[k].conn
  }

  lemma StepShared(s: State, a: Action, from: nat, n: string)
    requires Enabled(s, a) && !Drops(a, n) && OnlyInsecure(s, n) && Shared(s, from, n)
    ensures OnlyInsecure(Do(s, a), n) && Shared(Do(s, a), from, n)
  {
    if a.Section? {
      SectionShared(s, a.t, a.fault, from, n);
    }
  }

  lemma SectionShared(s: State, t: nat, fault: bool, from: nat, n: string)
    requires t in s.callers && OnlyInsecure(s, n) && Shared(s, from, n)
    ensures OnlyInsecure(Advance(s, t, fault), n) && Shared(Advance(s, t, fault), from, n)
  {
    var s' := Advance(s, t, fault);
    if s.callers[t].node == n {
      assert n in s.conns ==> s'.conns == s.conns;
      assert s'.log == s.log || (n in s'.conns && s'.log == s.log + [Returned(n, s'.conns[n])]);
    } else {
      assert n in s'.conns <==> n in s.conns;
      assert s'.log == s.log || exists c :: s'.log == s.log + [Returned(s.callers[t].node, c)];
    }
  }

  lemma {:induction false} SharedSince(tr: seq<State>, i: nat, j: nat, n: string)
    requires i <= j < |tr| && Undisturbed(tr, i, j, n) && OnlyInsecure(tr[i], n)
    ensures OnlyInsecure(tr[j], n) && Shared(tr[j], |tr[i].log|, n)
  {
    if i < j {
      SharedSince(tr, i, j - 1, n);
      assert KeepsAt(tr, j - 1, n);
      var a: Action :| Enabled(tr[j - 1], a) && tr[j] == Do(tr[j - 1], a) && !Drops(a, n);
      StepShared(tr[j - 1], a, |tr[i].log|, n);
    }
  }

  /** Callers for one node that race with no removal in between all get the same connection. */
  lemma RacersShare(tr: seq<State>, i: nat, j: nat, n: string, k: nat, l: nat)
    requires i <= j < |tr| && Undisturbed(tr, i, j, n) && OnlyInsecure(tr[i], n)
    requires |tr[i].log| <= k < |tr[j].log| && |tr[i].log| <= l < |tr[j].log|
    requires tr[j].log[k].node == n && tr[j].log[l].node == n
    ensures tr[j].log[k].conn == tr[j].log[l].conn
  {
    SharedSince(tr, i, j, n);
  }
}
