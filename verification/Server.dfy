// cpp_server as objects: a Server with its map of connections, connections with
// their state and channel flag, the loops' queues and the kernel's epoll sets.
// Each method is proved against the operation of the transition system in
// module Reactor, whose runs are proved safe.
module Servers {
  import opened Common
  import opened Reactor

  // A connection and its channel; fd and loop never change.
  class Connection {
    const conid: ConnId
    const fd: nat
    const home: nat
    var state: ConnState
    var inEpoll: bool

    constructor (conid: ConnId, fd: nat, home: nat)
      ensures this.conid == conid && this.fd == fd && this.home == home && state == Connected && !inEpoll
    {
      this.conid, this.fd, this.home := conid, fd, home;
      state, inEpoll := Connected, false;
    }

    function View(): Conn
      reads this
    {
      Conn(fd, home, state, inEpoll)
    }
  }

  class Server {
    var connections: map<nat, Connection>
    var nextConnId: ConnId
    var loops: seq<Loop>
    var epolls: seq<map<nat, ConnId>>
    ghost var live: map<ConnId, Connection>
    ghost var open: set<nat>
    ghost var closeLog: seq<ConnId>

    ghost predicate Valid()
      reads this
    {
      && (forall c :: c in live ==> live[c].conid == c)
      && (forall fd :: fd in connections ==> Known(connections[fd]))
      && |epolls| == |loops| > 1
    }

    ghost function Conns(): map<ConnId, Conn>
      reads this, live.Values
    {
      map c | c in live :: live[c].View()
    }

    ghost function Filed(): map<nat, ConnId>
      reads this
    {
      map fd | fd in connections :: connections[fd].conid
    }

    ghost function View(): State
      reads this, live.Values
    {
      State(Conns(), Filed(), nextConnId, loops, epolls, open, closeLog)
    }

    // The object is the one known under its id.
    ghost predicate Known(conn: Connection)
      reads this
    {
      conn.conid in live && live[conn.conid] == conn
    }

    ghost predicate Holds(conn: Connection)
      reads this
    {
      Known(conn) && conn.home < |loops|
    }

    constructor (subLoops: nat)
      requires subLoops > 0
      ensures Valid() && View() == Init(subLoops)
    {
      connections, nextConnId := map[], 1;
      loops := seq(subLoops + 1, _ => EMPTY_LOOP);
      epolls := seq(subLoops + 1, _ => map[]);
      live, open, closeLog := map[], {}, [];
    }

    method QueueOneFunc(l: nat, t: Task)
      requires Valid() && l < |loops|
      modifies this`loops
      ensures Valid() && View() == Reactor.QueueOneFunc(old(View()), l, t)
    {
      loops := loops[l := loops[l].(toDoList := loops[l].toDoList + [t])];
    }

    method UpdateChannel(conn: Connection)
      requires Valid() && Holds(conn)
      modifies this`epolls, conn`inEpoll
      ensures Valid() && View() == Reactor.UpdateChannel(old(View()), conn.conid)
    {
      if !conn.inEpoll {
        // EPOLL_CTL_ADD
        if conn.fd !in epolls[conn.home] {
          var registered: map<nat, ConnId> := epolls[conn.home][conn.fd := conn.conid];
          epolls := epolls[conn.home := registered];
        } else {
          assert epolls[conn.home := epolls[conn.home]] == epolls;
        }
        conn.inEpoll := true;
      }
      assert Conns() == old(Conns())[conn.conid := conn.View()];
    }

    method DeleteChannel(conn: Connection)
      requires Valid() && Holds(conn)
      modifies this`epolls, conn`inEpoll
      ensures Valid() && View() == Reactor.DeleteChannel(old(View()), conn.conid)
    {
      if conn.inEpoll {
        epolls := epolls[conn.home := epolls[conn.home] - {conn.fd}];
      }
      conn.inEpoll := false;
      assert Conns() == old(Conns())[conn.conid := conn.View()];
    }

    method HandleCloseInLoop(conn: Connection)
      requires Valid() && Holds(conn)
      modifies this`connections, this`loops
      ensures Valid() && View() == Reactor.HandleCloseInLoop(old(View()), conn.conid)
    {
      if conn.fd in connections {
        connections := connections - {conn.fd};
      }
      assert Filed() == old(Filed()) - {conn.fd};
      assert old(View()).conns[conn.conid] == conn.View();
      QueueOneFunc(conn.home, Destructor(conn.conid));
    }

    // Connection::HandleClose on the thread of loop l.
    method HandleClose(l: nat, conn: Connection)
      requires Valid() && Holds(conn) && l < |loops|
      modifies this`connections, this`loops, this`closeLog, conn`state
      ensures Valid() && View() == Reactor.HandleClose(old(View()), l, conn.conid)
    {
      assert old(View()).conns[conn.conid] == conn.View();
      if conn.state != Closed {
        conn.state := Closed;
        closeLog := closeLog + [conn.conid];
        assert Conns() == old(Conns())[conn.conid := conn.View()];
        // runOneFunc: at once on the main thread, queued from any other
        if l == MAIN {
          HandleCloseInLoop(conn);
        } else {
          QueueOneFunc(MAIN, CloseInLoop(conn.conid));
        }
      }
    }

    // The error branch of WriteBlocking and WriteNonBlocking: nobody is told.
    method FailWrite(conn: Connection)
      requires Valid() && Holds(conn)
      modifies conn`state
      ensures Valid() && View() == Reactor.FailWrite(old(View()), conn.conid)
    {
      conn.state := Closed;
      assert Conns() == old(Conns())[conn.conid := conn.View()];
    }

    // make_shared<Connection> with the next id.
    method Create(fd: nat) returns (conn: Connection)
      requires Valid() && nextConnId !in live
      modifies this`nextConnId, this`live, this`open
      ensures Valid() && Holds(conn) && fresh(conn) && conn.conid == old(nextConnId) && conn.fd == fd
      ensures var s := old(View()); var c := old(nextConnId);
        View() == s.(conns := s.conns[c := Conn(fd, Home(s, fd), Connected, false)], nextConnId := c + 1,
            open := s.open + {fd})
    {
      conn := new Connection(nextConnId, fd, 1 + fd % (|loops| - 1));
      nextConnId := nextConnId + 1;
      live := live[conn.conid := conn];
      open := open + {fd};
      assert Conns() == old(Conns())[conn.conid := conn.View()];
    }

    method File(conn: Connection)
      requires Valid() && Holds(conn)
      modifies this`connections
      ensures Valid() && View() == old(View()).(connections := old(View()).connections[conn.fd := conn.conid])
    {
      connections := connections[conn.fd := conn];
      assert Filed() == old(Filed())[conn.fd := conn.conid];
    }

    method HandleNewConnection(fd: nat) returns (conn: Connection)
      requires Valid() && nextConnId !in live
      modifies this
      ensures Valid() && Holds(conn) && fresh(conn) && View() == Reactor.HandleNewConnection(old(View()), fd)
    {
      conn := Create(fd);
      UpdateChannel(conn);
      File(conn);
    }

    // One closure of a swapped batch.
    method RunFunc(t: Task, conn: Connection)
      requires Valid() && Holds(conn) && t.conn == conn.conid
      modifies this`connections, this`loops, this`epolls, conn`inEpoll
      ensures Valid() && View() == Reactor.RunFunc(old(View()), t)
    {
      match t
      case CloseInLoop(_) => HandleCloseInLoop(conn);
      case Destructor(_) => DeleteChannel(conn);
    }

    // DoToDoList: the swap under the lock.
    method Swap(l: nat)
      requires Valid() && l < |loops|
      modifies this`loops
      ensures Valid() && (Enabled(old(View()), Action.Swap(l)) ==> View() == Act(old(View()), Action.Swap(l)))
    {
      loops := loops[l := loops[l].(toDoList := [], batch := loops[l].toDoList, next := 0, phase := Tasks)];
    }
  }
}
