/**
 Leader election with a session-level advisory lock: each AdvisoryLockDB pins the pool connection that took the lock,
 and releases the lock on that same connection.
 */
module LeaderLock {
  import opened Base

  type Conn = nat

  /** The connection pool and the server's side of one advisory lock: the session that holds it, and how many times. */
  datatype Server = Server(idle: set<Conn>, holder: Option<Conn>, depth: nat)

  /** pg_try_advisory_lock: a session may take a lock again that it already holds. */
  function TryLock(s: Server, c: Conn): Option<Server> {
    if s.holder.None? || s.holder == Some(c) then Some(s.(holder := Some(c), depth := s.depth + 1)) else None
  }

  /** pg_advisory_unlock: unlocking a lock that the session does not hold does nothing but warn. */
  function Unlock(s: Server, c: Conn): Server {
    if s.holder != Some(c) || s.depth == 0 then s
    else s.(holder := if s.depth == 1 then None else Some(c), depth := s.depth - 1)
  }

  /** The server after instance's TryAdvisoryLock on an idle connection, and the connection it then pins, if any. */
  function Tried(s: Server, c: Conn, fault: bool): (Server, Option<Conn>)
    requires c in s.idle
  {
    var taken := TryLock(s, c);
    if fault || taken.None? then (s, None) else (taken.value.(idle := s.idle - {c}), Some(c))
  }

  /** The server after ReleaseAdvisoryLock of an instance that pins c; fault says that the unlock query failed. */
  function Released(s: Server, c: Conn, fault: bool): Server {
    (if fault then s else Unlock(s, c)).(idle := s.idle + {c})
  }

  class Pool {
    var server: Server

    constructor (server: Server)
      ensures this.server == server
    {
      this.server := server;
    }

    method Acquire(c: Conn)
      requires c in server.idle
      modifies this
      ensures server == old(server).(idle := old(server).idle - {c})
    {
      server := server.(idle := server.idle - {c});
    }

    method Release(c: Conn)
      modifies this
      ensures server == old(server).(idle := old(server).idle + {c})
    {
      server := server.(idle := server.idle + {c});
    }
  }

  class AdvisoryLockDB {
    const pool: Pool
    var conn: Option<Conn>

    constructor (pool: Pool)
      ensures this.pool == pool && conn == None
    {
      this.pool, conn := pool, None;
    }

    /** TryAdvisoryLock: c is the connection the pool hands out; a failed query returns it. */
    method TryAdvisoryLock(c: Conn, fault: bool) returns (acquired: bool)
      requires c in pool.server.idle
      modifies this, pool
      ensures pool.server == Tried(old(pool.server), c, fault).0
      ensures acquired == Tried(old(pool.server), c, fault).1.Some?
      ensures conn == if acquired then Some(c) else old(conn)
      ensures acquired <==> !fault && (old(pool.server).holder == None || old(pool.server).holder == Some(c))
      ensures acquired ==> pool.server == Server(old(pool.server).idle - {c}, Some(c), old(pool.server).depth + 1)
      ensures !acquired ==> pool.server == old(pool.server)
    {
      ghost var before := pool.server;
      pool.Acquire(c);
      if fault || TryLock(pool.server, c).None? {
        pool.Release(c);
        assert before.idle - {c} + {c} == before.idle;
        return false;
      }
      pool.server := TryLock(pool.server, c).value;
      conn := Some(c);
      return true;
    }

    /** ReleaseAdvisoryLock: the connection goes back to the pool even when the unlock query fails. */
    method ReleaseAdvisoryLock(fault: bool)
      modifies this, pool
      ensures pool.server == if old(conn).None? then old(pool.server) else Released(old(pool.server), old(conn).value, fault)
      ensures conn == None
      ensures old(conn).Some? ==> old(conn).value in pool.server.idle
      ensures fault ==> pool.server.holder == old(pool.server).holder && pool.server.depth == old(pool.server).depth
      ensures old(conn).Some? && !fault && old(pool.server).holder == old(conn) && old(pool.server).depth == 1 ==>
                pool.server.holder == None && pool.server.depth == 0
    {
      if conn.None? {
        return;
      }
      if !fault {
        pool.server := Unlock(pool.server, conn.value);
      }
      pool.Release(conn.value);
      conn := None;
    }
  }

  /** An attempt whose query fails acquires nothing and changes nothing. */
  lemma FaultedAttempt(s: Server, c: Conn)
    requires c in s.idle
    ensures Tried(s, c, true) == (s, None)
  {
  }

  // ----- many instances -----

  /** pins[d] is the connection that instance d holds on to. */
  datatype State = State(server: Server, pins: map<nat, Option<Conn>>)

  datatype Action = Try(d: nat, c: Conn, fault: bool) | Release(d: nat, fault: bool)

  predicate Enabled(s: State, a: Action) {
    a.d in s.pins && (a.Try? ==> a.c in s.server.idle)
  }

  function Do(s: State, a: Action): State
    requires Enabled(s, a)
  {
    match a
    case Try(d, c, fault) =>
      var (server, pin) := Tried(s.server, c, fault);
      State(server, if pin.Some? then s.pins[d := pin] else s.pins)
    case Release(d, fault) =>
      if s.pins[d].None? then s else State(Released(s.server, s.pins[d].value, fault), s.pins[d := None])
  }

  ghost predicate StepsAt(tr: seq<State>, i: nat)
    requires i + 1 < |tr|
  {
    exists a: Action :: Enabled(tr[i], a) && tr[i + 1] == Do(tr[i], a)
  }

  /** Any number of instances over one pool, whose queries may fail. */
  ghost predicate Run(tr: seq<State>) {
    && |tr| > 0
    && tr[0].server.holder == None && tr[0].server.depth == 0
    && (forall d :: d in tr[0].pins ==> tr[0].pins[d] == None)
    && forall i: nat :: i + 1 < |tr| ==> StepsAt(tr, i)
  }

  ghost predicate Pinned(s: State, c: Conn) {
    exists d :: d in s.pins && s.pins[d] == Some(c)
  }

  /** A pinned connection belongs to the session that holds the lock and to one instance; every connection of the pool is
      idle or pinned, not both. */
  ghost predicate Inv(conns: set<Conn>, s: State) {
    && (forall d :: d in s.pins && s.pins[d].Some? ==> s.server.holder == s.pins[d] && s.pins[d].value !in s.server.idle)
    && (forall d, e :: d in s.pins && e in s.pins && s.pins[d].Some? && s.pins[e].Some? ==> d == e)
    && (s.server.holder.None? <==> s.server.depth == 0)
    && (forall c :: c in conns <==> c in s.server.idle || Pinned(s, c))
  }

  /** The lock is held exactly while an instance leads, and once. */
  ghost predicate Tidy(s: State) {
    s.server.holder.Some? ==> s.server.depth == 1 && Pinned(s, s.server.holder.value)
  }

  lemma TryKeeps(conns: set<Conn>, s: State, a: Action)
    requires Inv(conns, s) && Enabled(s, a) && a.Try?
    ensures Inv(conns, Do(s, a)) && (Tidy(s) ==> Tidy(Do(s, a)))
  {
    var s' := Do(s, a);
    if s' != s {
      assert s'.pins[a.d] == Some(a.c);
      assert forall d :: d in s.pins ==> s.pins[d] == None;
      assert forall c :: Pinned(s', c) <==> c == a.c;
      assert forall c :: !Pinned(s, c);
    }
  }

  lemma ReleaseKeeps(conns: set<Conn>, s: State, a: Action)
    requires Inv(conns, s) && Enabled(s, a) && a.Release?
    ensures Inv(conns, Do(s, a)) && (Tidy(s) && (!a.fault || s.pins[a.d].None?) ==> Tidy(Do(s, a)))
  {
    var s' := Do(s, a);
    if s' != s {
      var c := s.pins[a.d].value;
      assert Pinned(s, c);
      assert forall d :: d in s'.pins ==> s'.pins[d] == None;
      assert forall x :: !Pinned(s', x);
      assert forall x :: Pinned(s, x) <==> x == c;
    }
  }

  /** Mutual exclusion, also across failed lock and unlock queries: at most one instance leads, its pinned connection is
      the session that holds the lock, and no pool connection is lost. */
  lemma {:induction false} RunExcludes(tr: seq<State>, i: nat)
    requires Run(tr) && i < |tr|
    ensures Inv(tr[0].server.idle, tr[i])
  {
    if i == 0 {
      assert forall c :: !Pinned(tr[0], c);
    } else {
      RunExcludes(tr, i - 1);
      assert StepsAt(tr, i - 1);
      var a: Action :| Enabled(tr[i - 1], a) && tr[i] == Do(tr[i - 1], a);
      if a.Try? {
        TryKeeps(tr[0].server.idle, tr[i - 1], a);
      } else {
        ReleaseKeeps(tr[0].server.idle, tr[i - 1], a);
      }
    }
  }

  /** As long as the lock is tidy, an attempt that reaches the server succeeds exactly when nobody leads. */
  lemma LeaderElected(conns: set<Conn>, s: State, c: Conn)
    requires Inv(conns, s) && Tidy(s) && c in s.server.idle
    ensures Tried(s.server, c, false).1 == Some(c) <==> forall d :: d in s.pins ==> s.pins[d] == None
  {
    if s.server.holder.Some? {
      assert Pinned(s, s.server.holder.value);
    }
  }

  // ----- failed unlocks -----

  /** At step j the unlock query of a leader pinned to c fails. */
  ghost predicate UnlockFails(tr: seq<State>, j: nat, c: Conn) {
    j + 1 < |tr| && exists d :: d in tr[j].pins && tr[j].pins[d] == Some(c) && tr[j + 1] == Do(tr[j], Release(d, true))
  }

  ghost predicate Failed(tr: seq<State>, j: nat) {
    exists c :: UnlockFails(tr, j, c)
  }

  /** The session of c holds the lock once more than its pins account for. */
  ghost predicate Stranded(s: State, c: Conn) {
    s.server.holder == Some(c) && s.server.depth >= if Pinned(s, c) then 2 else 1
  }

  lemma StrandedKept(conns: set<Conn>, s: State, a: Action, c: Conn)
    requires Inv(conns, s) && Enabled(s, a) && Stranded(s, c)
    ensures Stranded(Do(s, a), c)
  {
    var s' := Do(s, a);
    if s' != s {
      if a.Try? {
        assert a.c == c && s'.pins[a.d] == Some(c);
      } else {
        assert s.pins[a.d] == Some(c) && Pinned(s, c);
        assert forall x :: !Pinned(s', x);
      }
    }
  }

  /** A failed unlock of a leader strands its session for good. */
  lemma {:induction false} StrandedForever(tr: seq<State>, j: nat, i: nat, c: Conn)
    requires Run(tr) && j < i < |tr| && UnlockFails(tr, j, c)
    ensures Stranded(tr[i], c)
    decreases i
  {
    if i == j + 1 {
      RunExcludes(tr, j);
      RunExcludes(tr, i);
      var d :| d in tr[j].pins && tr[j].pins[d] == Some(c) && tr[i] == Do(tr[j], Release(d, true));
      assert c in tr[i].server.idle && !Pinned(tr[i], c);
    } else {
      StrandedForever(tr, j, i - 1, c);
      RunExcludes(tr, i - 1);
      assert StepsAt(tr, i - 1);
      var a: Action :| Enabled(tr[i - 1], a) && tr[i] == Do(tr[i - 1], a);
      StrandedKept(tr[0].server.idle, tr[i - 1], a, c);
    }
  }

  /** From then on, at every point of the run, an attempt on an idle connection succeeds if and only if the pool hands out
      that very connection. */
  lemma FailedUnlockStrands(tr: seq<State>, j: nat, i: nat, c: Conn, other: Conn)
    requires Run(tr) && j < i < |tr| && UnlockFails(tr, j, c) && other in tr[i].server.idle
    ensures Tried(tr[i].server, other, false).1.Some? <==> other == c
  {
    StrandedForever(tr, j, i, c);
  }

  /** Only a failed unlock of a leader makes a tidy lock untidy. */
  lemma TidyStep(tr: seq<State>, i: nat)
    requires Run(tr) && i + 1 < |tr| && Tidy(tr[i])
    ensures Tidy(tr[i + 1]) || Failed(tr, i)
  {
    RunExcludes(tr, i);
    assert StepsAt(tr, i);
    var a: Action :| Enabled(tr[i], a) && tr[i + 1] == Do(tr[i], a);
    if a.Try? {
      TryKeeps(tr[0].server.idle, tr[i], a);
    } else if a.fault && tr[i].pins[a.d].Some? {
      assert UnlockFails(tr, i, tr[i].pins[a.d].value);
    } else {
      ReleaseKeeps(tr[0].server.idle, tr[i], a);
    }
  }

  lemma {:induction false} TidyUntilFailure(tr: seq<State>, i: nat)
    requires Run(tr) && i < |tr| && forall j: nat :: j < i ==> !Failed(tr, j)
    ensures Tidy(tr[i])
  {
    if i > 0 {
      TidyUntilFailure(tr, i - 1);
      TidyStep(tr, i - 1);
    }
  }

  /** The lock is held exactly while an instance leads if and only if no unlock of a leader has failed so far. */
  lemma RunTidyExactly(tr: seq<State>, i: nat)
    requires Run(tr) && i < |tr|
    ensures Tidy(tr[i]) <==> forall j: nat :: j < i ==> !Failed(tr, j)
  {
    if j: nat :| j < i && Failed(tr, j) {
      var c :| UnlockFails(tr, j, c);
      StrandedForever(tr, j, i, c);
    } else {
      TidyUntilFailure(tr, i);
    }
  }
}
