/** The pool of gRPC connections to node agents: one connection per node, shared by all callers. */
module NodePool {
  import opened Base

  type Conn = nat

  /** No two nodes share a connection, and the next one dialled is new. */
  ghost predicate Distinct(conns: map<string, Conn>, open: set<Conn>, next: Conn) {
    && (forall n :: n in conns ==> conns[n] < next)
    && (forall c :: c in open ==> c < next)
    && (forall m, n :: m in conns && n in conns && conns[m] == conns[n] ==> m == n)
  }

  ghost predicate Pooled(conns: map<string, Conn>, c: Conn) {
    exists n :: n in conns && conns[n] == c
  }

  ghost predicate AllPooled(conns: map<string, Conn>, open: set<Conn>) {
    forall c :: c in open ==> Pooled(conns, c)
  }

  ghost predicate AllOpen(conns: map<string, Conn>, open: set<Conn>) {
    forall n :: n in conns ==> conns[n] in open
  }

  /** The connections that were created and not closed are exactly the pooled ones, one per node. */
  ghost predicate Owned(conns: map<string, Conn>, open: set<Conn>, next: Conn) {
    Distinct(conns, open, next) && AllPooled(conns, open) && AllOpen(conns, open)
  }

  lemma PoolWithout(conns: map<string, Conn>, open: set<Conn>, next: Conn, node: string)
    requires Distinct(conns, open, next) && node in conns
    ensures Distinct(conns - {node}, open - {conns[node]}, next)
    ensures AllPooled(conns, open) ==> AllPooled(conns - {node}, open - {conns[node]})
    ensures AllOpen(conns, open) ==> AllOpen(conns - {node}, open - {conns[node]})
  {
    forall c | Pooled(conns, c) && c != conns[node]
      ensures Pooled(conns - {node}, c)
    {
      var n :| n in conns && conns[n] == c;
      assert n in conns - {node};
    }
  }

  lemma PoolWith(conns: map<string, Conn>, open: set<Conn>, next: Conn, node: string)
    requires Distinct(conns, open, next) && node !in conns
    ensures Distinct(conns[node := next], open + {next}, next + 1)
    ensures AllPooled(conns, open) ==> AllPooled(conns[node := next], open + {next})
    ensures AllOpen(conns, open) ==> AllOpen(conns[node := next], open + {next})
  {
    var conns' := conns[node := next];
    assert conns'[node] == next;
    forall c | Pooled(conns, c)
      ensures Pooled(conns', c)
    {
      var n :| n in conns && conns[n] == c;
      assert n in conns' && conns'[n] == c;
    }
  }

  // ----- the client -----

  /** conns is the map of the source; open are the connections not in state Shutdown, next the one dialled next. */
  class NodeClient {
    var conns: map<string, Conn>
    var open: set<Conn>
    var next: Conn

    constructor ()
      ensures conns == map[] && open == {} && Valid() && Whole()
    {
      conns, open, next := map[], {}, 0;
    }

    ghost predicate Valid()
      reads this
    {
      Distinct(conns, open, next)
    }

    /** No open connection is out of the pool. */
    ghost predicate Whole()
      reads this
    {
      AllPooled(conns, open)
    }

    method Dial() returns (c: Conn)
      modifies this
      ensures c == old(next) && next == c + 1 && open == old(open) + {c} && conns == old(conns)
    {
      c, next, open := next, next + 1, open + {next};
    }

    /** The node's pooled connection is open. */
    ghost predicate Serves(node: string)
      reads this
    {
      node in conns && conns[node] in open
    }

    /** Nothing about other nodes changed. */
    twostate predicate OthersKept(node: string)
      reads this
    {
      && conns - {node} == old(conns) - {node}
      && forall n :: n != node ==> Serves(n) == old(Serves(n))
    }

    /** GetInsecureConnection; fault says that dialling fails. It does not look at the state of a pooled connection. */
    method GetInsecureConnection(node: string, fault: bool) returns (conn: Option<Conn>)
      requires Valid()
      modifies this
      ensures Valid() && OthersKept(node) && (old(Whole()) ==> Whole())
      ensures conn == None <==> node !in old(conns) && fault
      ensures conn.Some? ==> node in conns && conn.value == conns[node]
      ensures conn.Some? ==> (conn.value in open <==> old(Serves(node)) || node !in old(conns))
      ensures node in old(conns) || conn == None ==> conns == old(conns) && open == old(open)
    {
      if node in conns {
        return Some(conns[node]);
      }
      if fault {
        return None;
      }
      PoolWith(conns, open, next, node);
      var c := Dial();
      conns := conns[node := c];
      return Some(c);
    }

    /** RemoveConnection. */
    method RemoveConnection(node: string)
      requires Valid()
      modifies this
      ensures Valid() && OthersKept(node) && (old(Whole()) ==> Whole())
      ensures conns == old(conns) - {node}
      ensures open == if node in old(conns) then old(open) - {old(conns)[node]} else old(open)
    {
      if node in conns {
        PoolWithout(conns, open, next, node);
        open := open - {conns[node]};
        conns := conns - {node};
      } else {
        assert conns - {node} == conns;
      }
    }

    /** Close: the loop closes every pooled connection, so none is left open unless it was out of the pool. */
    method Close()
      requires Valid()
      modifies this
      ensures Valid() && conns == map[]
      ensures forall c :: c in open <==> c in old(open) && !Pooled(old(conns), c)
      ensures old(Whole()) ==> open == {}
    {
      var nodes := conns.Keys;
      while nodes != {}
        invariant conns == old(conns) && next == old(next)
        invariant nodes <= conns.Keys
        invariant forall c :: c in open <==> c in old(open) && forall n :: n in conns && n !in nodes ==> conns[n] != c
        decreases nodes
      {
        var n :| n in nodes;
        open := open - {conns[n]};
        nodes := nodes - {n};
      }
      conns := map[];
    }

    /** The write-locked part of GetConnection: a connection that another caller pooled is closed and returned. */
    method Recheck(node: string, fault: bool) returns (conn: Option<Conn>)
      requires Valid()
      modifies this
      ensures Valid() && OthersKept(node) && (old(Whole()) ==> Whole())
      ensures conn == None <==> node !in old(conns) && fault
      ensures conn.Some? ==> node in conns && conn.value == conns[node] && (conn.value in open <==> node !in old(conns))
      ensures conn == None ==> conns == old(conns) && open == old(open)
    {
      if node in conns {
        open := open - {conns[node]};
        return Some(conns[node]);
      }
      if fault {
        return None;
      }
      PoolWith(conns, open, next, node);
      var c := Dial();
      conns := conns[node := c];
      return Some(c);
    }

    /** Deletes the entry of a shut-down connection. */
    method DropDead(node: string)
      requires Valid() && !Serves(node)
      modifies this
      ensures Valid() && OthersKept(node) && (old(Whole()) ==> Whole())
      ensures conns == old(conns) - {node} && open == old(open)
    {
      if node in conns {
        PoolWithout(conns, open, next, node);
        assert open - {conns[node]} == open;
      } else {
        assert conns - {node} == conns;
      }
      conns := conns - {node};
    }

    /** GetConnection. A shut-down connection is dropped and replaced. raced says that before the write lock another
        caller pooled a connection for the node: the re-check then closes that connection and returns it. So the caller
        gets an open connection if and only if the lookup found one or nobody raced. */
    method GetConnection(node: string, raced: bool, fault: bool) returns (conn: Option<Conn>)
      requires Valid()
      modifies this
      ensures Valid() && OthersKept(node) && (old(Whole()) ==> Whole())
      ensures conn == None <==> !old(Serves(node)) && !raced && fault
      ensures conn.Some? ==> node in conns && conn.value == conns[node]
      ensures conn.Some? ==> (conn.value in open <==> old(Serves(node)) || !raced)
      ensures conn == None ==> conns == old(conns) - {node} && open == old(open)
    {
      if node in conns && conns[node] in open {
        return Some(conns[node]);
      }
      DropDead(node);
      if raced {
        var other := GetInsecureConnection(node, false);
      }
      conn := Recheck(node, fault);
    }
  }
}
