/** The sub-connections a balancer keeps, one per server address, reconciled with each new address list. */
module SubConnections {

  datatype Connectivity = Idle | Connecting | Ready | TransientFailure | Closed

  class SubConn {
    const address: string
    var state: Connectivity
    /** How often the shutdown channel was closed; a second close would panic. */
    var shutdowns: nat

    constructor (address: string)
      ensures this.address == address && state == Idle && shutdowns == 0
    {
      this.address := address;
      state := Idle;
      shutdowns := 0;
    }

    method Shutdown()
      modifies this
      ensures shutdowns == old(shutdowns) + 1 && state == old(state)
    {
      shutdowns := shutdowns + 1;
    }
  }

  class ClientConn {
    var subConns: map<string, SubConn>
    /** Every sub-connection ever made. */
    ghost var created: set<SubConn>

    ghost predicate InUse(c: SubConn)
      reads this
    {
      c.address in subConns && subConns[c.address] == c
    }

    /** Every sub-connection was shut down exactly once if it has left the map, and never while it is in it. */
    ghost predicate Valid()
      reads this, created
    {
      (forall a :: a in subConns ==> subConns[a] in created && subConns[a].address == a) &&
      (forall c :: c in created ==> c.shutdowns == if InUse(c) then 0 else 1)
    }

    constructor ()
      ensures Valid() && subConns == map[] && created == {}
    {
      subConns, created := map[], {};
    }

    /** Reconciles with the address list; `refused` are the addresses the transport cannot make a connection for. */
    method Connect(addrs: seq<string>, refused: set<string>) returns (ok: bool)
      requires Valid()
      modifies this, created
      ensures Valid() && old(created) <= created && fresh(created - old(created))
      ensures ok <==> forall a :: a in addrs && a !in old(subConns) ==> a !in refused
      ensures ok <==> subConns.Keys == set a | a in addrs
      ensures subConns.Keys <= set a | a in addrs
      ensures forall a :: a in old(subConns) && a in addrs ==> a in subConns && subConns[a] == old(subConns)[a]
      ensures forall a :: a in subConns && a !in old(subConns) ==> fresh(subConns[a]) && a in addrs
      ensures forall c :: c in old(created) ==> c.state == old(c.state)
    {
      CloseUnneeded(addrs);
      ok := OpenMissing(addrs, refused);
    }

    method CloseUnneeded(addrs: seq<string>)
      requires Valid()
      modifies this, created
      ensures Valid() && created == old(created)
      ensures subConns == map a | a in old(subConns) && a in addrs :: old(subConns)[a]
      ensures forall c :: c in created ==> c.state == old(c.state)
    {
      var todo := subConns.Keys;
      while todo != {}
        invariant Valid() && created == old(created) && todo <= old(subConns).Keys
        invariant subConns == map a | a in old(subConns) && (a in addrs || a in todo) :: old(subConns)[a]
        invariant forall c :: c in created ==> c.state == old(c.state)
      {
        var addr :| addr in todo;
        todo := todo - {addr};
        if addr !in addrs {
          var conn := subConns[addr];
          subConns := subConns - {addr};
          conn.Shutdown();
        }
      }
    }

    method OpenMissing(addrs: seq<string>, refused: set<string>) returns (ok: bool)
      requires Valid() && subConns.Keys <= set a | a in addrs
      modifies this
      ensures Valid() && old(created) <= created && fresh(created - old(created))
      ensures ok <==> forall a :: a in addrs && a !in old(subConns) ==> a !in refused
      ensures ok <==> subConns.Keys == set a | a in addrs
      ensures subConns.Keys <= set a | a in addrs
      ensures forall a :: a in old(subConns) ==> a in subConns && subConns[a] == old(subConns)[a]
      ensures forall a :: a in subConns && a !in old(subConns) ==> fresh(subConns[a])
    {
      for i := 0 to |addrs|
        invariant Valid() && old(created) <= created && fresh(created - old(created))
        invariant subConns.Keys == old(subConns).Keys + set a | a in addrs[..i]
        invariant forall a :: a in old(subConns) ==> subConns[a] == old(subConns)[a]
        invariant forall a :: a in subConns && a !in old(subConns) ==> fresh(subConns[a]) && a !in refused
      {
        var addr := addrs[i];
        assert forall a :: a in addrs[..i + 1] <==> a in addrs[..i] || a == addr;
        if addr !in subConns {
          if addr in refused {
            return false;
          }
          var conn := new SubConn(addr);
          subConns := subConns[addr := conn];
          created := created + {conn};
        }
      }
      assert addrs[..|addrs|] == addrs;
      return true;
    }

    /** A state report reaches whichever connection the address has now. */
    method Notify(address: string, state: Connectivity)
      requires Valid()
      modifies created`state
      ensures Valid()
      ensures address in subConns ==> subConns[address].state == state
      ensures forall c :: c in created && !(address in subConns && c == subConns[address]) ==> c.state == old(c.state)
    {
      if address in subConns {
        subConns[address].state := state;
      }
    }

    function State(address: string): Connectivity
      reads this, subConns.Values
    {
      if address in subConns then subConns[address].state else Idle
    }

    predicate IsReady(address: string)
      reads this, subConns.Values
      ensures IsReady(address) <==> address in subConns && subConns[address].state == Ready
    {
      State(address).Ready?
    }
  }

  /** Over any series of address lists, refused or not, no sub-connection is ever shut down twice or leaked. */
  method ConnectRounds(conn: ClientConn, rounds: seq<seq<string>>, refused: nat -> set<string>)
    requires conn.Valid()
    modifies conn, conn.created
    ensures conn.Valid() && old(conn.created) <= conn.created
    ensures forall c :: c in conn.created ==> c.shutdowns <= 1 && (c.shutdowns == 1 <==> !conn.InUse(c))
  {
    for i := 0 to |rounds|
      invariant conn.Valid() && old(conn.created) <= conn.created && fresh(conn.created - old(conn.created))
    {
      var ok := conn.Connect(rounds[i], refused(i));
    }
  }
}
