/** The connection manager from its start to its end. */
module ConnRuns {
  import opened Config
  import opened ConnSpec
  import opened ConnProtocol
  import ConnMgr

  /** The listening socket is opened, rounds are performed, and the list is given back. What was inserted into the
      buffer keeps the order of every connection; all list nodes have been released; and if the loop has quit, every
      accepted socket and the listening socket have been closed once each. */
  method StartToEnd(w: World, socket: Sock, inputs: seq<Input>) returns (m: ConnMgr.Manager)
    requires Monotone(w.clock)
    requires forall k :: 0 <= k < |inputs| ==> !inputs[k].events(0).hangup
    requires RunFits(w, Start(w, socket), inputs, socket)
    ensures m.s == Rounds(w, Start(w, socket), inputs) && m.log == m.s.log && m.quit == m.s.quit
    ensures forall x: Sock, j :: 0 <= j < |From(m.log, x)| ==> From(m.log, x)[j] == w.sent(x, j)
    ensures m.quit ==> multiset(m.closings) == multiset(m.s.accepted) + multiset{socket}
    ensures !m.quit ==> m.closings == m.s.closed
    ensures m.connections.nodes == [] && m.connections.freed == m.connections.obtained
  {
    m := new ConnMgr.Manager(w, socket);
    m.EventLoop(w, inputs);
    EveryRunIsGood(w, inputs, socket);
    assert m.quit ==> Socks(m.s.conns) == [socket];
    assert m.quit ==> m.s.conns[0].sock == Socks(m.s.conns)[0];
    m.FreeList();
  }
}
