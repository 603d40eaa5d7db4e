/** The in-memory registry of open sockets per user. */
module Registry {

  datatype Socket = Socket(id: int)

  function Seen(sockets: seq<Socket>): set<Socket> {
    set s | s in sockets
  }

  lemma SeenSnoc(sockets: seq<Socket>, i: nat)
    requires i < |sockets|
    ensures Seen(sockets[..i + 1]) == Seen(sockets[..i]) + {sockets[i]}
  {
    assert sockets[..i + 1] == sockets[..i] + [sockets[i]];
  }

  /** One attempt per socket, in no particular order. */
  method SendAll(connections: set<Socket>, working: set<Socket>) returns (sent: nat, broken: seq<Socket>)
    ensures sent == |connections * working|
    ensures Seen(broken) == connections - working && |broken| == |connections - working|
  {
    broken := [];
    sent := 0;
    var done: set<Socket> := {};
    while done != connections
      invariant done <= connections
      invariant Seen(broken) == done - working && |broken| == |done - working|
      invariant sent == |done * working|
      decreases connections - done
    {
      assert connections - done != {};
      var socket :| socket in connections - done;
      if socket in working {
        assert (done + {socket}) * working == done * working + {socket};
        assert done + {socket} - working == done - working;
        sent := sent + 1;
      } else {
        assert (done + {socket}) * working == done * working;
        assert done + {socket} - working == done - working + {socket};
        broken := broken + [socket];
      }
      done := done + {socket};
    }
  }

  class ConnectionRegistry {
    var byUser: map<int, set<Socket>>

    /** No user is kept without a socket. */
    ghost predicate Valid()
      reads this
    {
      forall u :: u in byUser ==> byUser[u] != {}
    }

    function Sockets(user: int): set<Socket>
      reads this
    {
      if user in byUser then byUser[user] else {}
    }

    constructor ()
      ensures Valid() && byUser == map[]
    {
      byUser := map[];
    }

    predicate IsConnected(user: int)
      requires Valid()
      reads this
      ensures IsConnected(user) <==> Sockets(user) != {}
    {
      user in byUser
    }

    method Add(user: int, socket: Socket)
      requires Valid()
      modifies this
      ensures Valid() && forall u :: Sockets(u) == old(Sockets(u)) + if u == user then {socket} else {}
    {
      byUser := byUser[user := Sockets(user) + {socket}];
    }

    method Remove(user: int, socket: Socket)
      requires Valid()
      modifies this
      ensures Valid() && forall u :: Sockets(u) == old(Sockets(u)) - if u == user then {socket} else {}
    {
      if user !in byUser {
        return;
      }
      var rest := byUser[user] - {socket};
      if rest == {} {
        byUser := byUser - {user};
      } else {
        byUser := byUser[user := rest];
      }
    }

    /** The payload reaches exactly the working sockets of the user; the broken ones are forgotten. */
    method SendToUser(user: int, working: set<Socket>) returns (sent: nat, failed: nat)
      requires Valid()
      modifies this
      ensures Valid() && sent == |old(Sockets(user)) * working| && failed == |old(Sockets(user)) - working|
      ensures forall u :: Sockets(u) == if u == user then old(Sockets(u)) * working else old(Sockets(u))
    {
      var connections := Sockets(user);
      var broken: seq<Socket>;
      sent, broken := SendAll(connections, working);
      failed := |broken|;
      Forget(user, broken);
      assert connections - Seen(broken) == connections * working;
    }

    method Forget(user: int, broken: seq<Socket>)
      requires Valid()
      modifies this
      ensures Valid() && forall u :: Sockets(u) == old(Sockets(u)) - if u == user then Seen(broken) else {}
    {
      for i := 0 to |broken|
        invariant Valid()
        invariant Sockets(user) == old(Sockets(user)) - Seen(broken[..i])
        invariant forall u :: u != user ==> Sockets(u) == old(Sockets(u))
      {
        Remove(user, broken[i]);
        SeenSnoc(broken, i);
      }
      assert broken[..|broken|] == broken;
    }
  }
}
