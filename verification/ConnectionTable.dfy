/** The fixed connection table of src/event_loop.c on values: which slots are live, which
    descriptors they own, and how one slot change moves both. */
module ConnectionTable {
  import opened Counting
  import opened SendBuffer

  datatype ConnType = Free | TcpListen | TcpClient | UdpSip | UdpRtp

  datatype ConnState = Active | Closing | Failing

  datatype Conn = Conn(fd: int, ctype: ConnType, state: ConnState, createTime: int, lastActive: int, out: OutBuf)

  predicate Live(c: Conn) { !c.ctype.Free? }

  /** free_connection; the two timestamps stay. */
  function Freed(c: Conn): Conn {
    Conn(-1, Free, Active, c.createTime, c.lastActive, Empty())
  }

  /** alloc_connection zeroes the slot it hands out. */
  function Allocated(): Conn { Conn(-1, Free, Active, 0, 0, Empty()) }

  predicate Expired(c: Conn, now: int, timeout: int) {
    Live(c) && !c.ctype.TcpListen? && c.state.Active? && now - c.lastActive >= timeout
  }

  ghost function LiveFds(conns: seq<Conn>): set<int> {
    set i | 0 <= i < |conns| && Live(conns[i]) :: conns[i].fd
  }

  /** The descriptors of the slots that satisfy p, in slot order. */
  function FdsWhere(conns: seq<Conn>, p: Conn -> bool): seq<int> {
    if conns == [] then []
    else FdsWhere(conns[..|conns| - 1], p) + (if p(conns[|conns| - 1]) then [conns[|conns| - 1].fd] else [])
  }

  function ExpiredAt(now: int, timeout: int): Conn -> bool { (c: Conn) => Expired(c, now, timeout) }

  /** The table after a sweep has freed the slots below n that satisfy p. */
  function Swept(conns: seq<Conn>, p: Conn -> bool, n: nat): (r: seq<Conn>)
    ensures |r| == |conns|
    ensures forall i :: 0 <= i < |conns| ==> r[i] == if i < n && p(conns[i]) then Freed(conns[i]) else conns[i]
  {
    seq(|conns|, i requires 0 <= i < |conns| => if i < n && p(conns[i]) then Freed(conns[i]) else conns[i])
  }

  /** The clean-up frees just the active clients and UDP sockets that have not been used for
      the timeout or longer. */
  lemma IdleAreSwept(conns: seq<Conn>, now: int, timeout: int, i: nat)
    requires i < |conns|
    ensures var c, after := conns[i], Swept(conns, ExpiredAt(now, timeout), |conns|)[i];
            if (c.ctype.TcpClient? || c.ctype.UdpSip? || c.ctype.UdpRtp?) && c.state.Active?
               && c.lastActive + timeout <= now
            then after.ctype.Free? && after.fd == -1 && after.state.Active? && after.out == Empty()
            else after == c
  {
  }

  lemma SweepOne(conns: seq<Conn>, p: Conn -> bool, n: nat)
    requires n < |conns|
    ensures Swept(conns, p, n)[n] == conns[n]
    ensures Swept(conns, p, n + 1)
         == Swept(conns, p, n)[n := if p(conns[n]) then Freed(conns[n]) else conns[n]]
    ensures Count(conns[..n + 1], p) == Count(conns[..n], p) + (if p(conns[n]) then 1 else 0)
    ensures FdsWhere(conns[..n + 1], p) == FdsWhere(conns[..n], p) + (if p(conns[n]) then [conns[n].fd] else [])
  {
    CountPush(conns, n, p);
    assert conns[..n + 1][..n] == conns[..n];
  }

  lemma SweptIsFree(conns: seq<Conn>)
    ensures LiveFds(Swept(conns, Live, |conns|)) == {}
    ensures forall i :: 0 <= i < |conns| ==> Swept(conns, Live, |conns|)[i].ctype.Free?
  {
  }

  ghost predicate SlotsSound(conns: seq<Conn>) {
    && (forall i :: 0 <= i < |conns| ==> BufInv(conns[i].out))
    && (forall i :: 0 <= i < |conns| && Live(conns[i]) ==> conns[i].fd >= 0)
    && (forall i :: 0 <= i < |conns| && !Live(conns[i]) ==> conns[i].fd == -1 && conns[i].out.len == 0)
    && (forall i, j :: 0 <= i < j < |conns| && Live(conns[i]) && Live(conns[j]) ==> conns[i].fd != conns[j].fd)
  }

  /** The counter counts the live slots, live slots own distinct descriptors, and the
      open descriptors are theirs and the ones in the caller's hands. */
  ghost predicate TableInv(conns: seq<Conn>, active: int, open: set<int>, hand: set<int>) {
    && SlotsSound(conns)
    && active == Count(conns, Live)
    && open == LiveFds(conns) + hand
    && LiveFds(conns) !! hand
  }

  /** A live slot becomes free: the counter, the descriptor set and nothing else move. */
  lemma FreeOne(conns: seq<Conn>, i: nat, v: Conn)
    requires SlotsSound(conns) && i < |conns| && Live(conns[i])
    requires !Live(v) && v.fd == -1 && v.out == Empty()
    ensures SlotsSound(conns[i := v])
    ensures Count(conns[i := v], Live) == Count(conns, Live) - 1
    ensures conns[i].fd in LiveFds(conns) && LiveFds(conns[i := v]) == LiveFds(conns) - {conns[i].fd}
  {
    CountUpdate(conns, i, v, Live);
    var conns' := conns[i := v];
    forall j | 0 <= j < |conns| && j != i && Live(conns[j])
      ensures conns[j].fd != conns[i].fd && conns[j].fd in LiveFds(conns')
    {
      assert conns'[j] == conns[j];
    }
  }

  /** A free slot becomes live with a descriptor that no slot owns yet. */
  lemma OccupyOne(conns: seq<Conn>, i: nat, v: Conn)
    requires SlotsSound(conns) && i < |conns| && !Live(conns[i])
    requires Live(v) && v.fd >= 0 && v.fd !in LiveFds(conns) && BufInv(v.out)
    ensures SlotsSound(conns[i := v])
    ensures Count(conns[i := v], Live) == Count(conns, Live) + 1
    ensures LiveFds(conns[i := v]) == LiveFds(conns) + {v.fd}
  {
    CountUpdate(conns, i, v, Live);
    var conns' := conns[i := v];
    forall j | 0 <= j < |conns| && j != i && Live(conns[j])
      ensures conns[j].fd != v.fd && conns[j].fd in LiveFds(conns')
    {
      assert conns'[j] == conns[j];
    }
    assert Live(conns'[i]);
  }

  /** A change inside a slot that keeps its type and descriptor. */
  lemma TouchOne(conns: seq<Conn>, i: nat, v: Conn)
    requires SlotsSound(conns) && i < |conns|
    requires v.ctype == conns[i].ctype && v.fd == conns[i].fd && BufInv(v.out)
    requires !Live(v) ==> v.out.len == 0
    ensures SlotsSound(conns[i := v])
    ensures Count(conns[i := v], Live) == Count(conns, Live)
    ensures LiveFds(conns[i := v]) == LiveFds(conns)
  {
    CountUpdate(conns, i, v, Live);
    var conns' := conns[i := v];
    forall j | 0 <= j < |conns| && Live(conns[j])
      ensures Live(conns'[j]) && conns'[j].fd == conns[j].fd
    {
    }
    forall j | 0 <= j < |conns| && Live(conns'[j])
      ensures Live(conns[j]) && conns'[j].fd == conns[j].fd
    {
    }
  }

  /** Below capacity there is a free slot, so alloc_connection cannot fail. */
  lemma RoomBelowCapacity(conns: seq<Conn>, active: int, open: set<int>, hand: set<int>) returns (i: nat)
    requires TableInv(conns, active, open, hand) && active < |conns|
    ensures i < |conns| && conns[i].ctype.Free?
  {
    i := CountGap(conns, Live);
  }

  ghost predicate Owned(conns: seq<Conn>, p: Conn -> bool, fd: int) {
    exists i :: 0 <= i < |conns| && p(conns[i]) && conns[i].fd == fd
  }

  lemma OwnedSplit(conns: seq<Conn>, p: Conn -> bool, fd: int)
    requires conns != []
    ensures var n := |conns| - 1;
            Owned(conns, p, fd) <==> Owned(conns[..n], p, fd) || (p(conns[n]) && conns[n].fd == fd)
  {
    var n := |conns| - 1;
    if Owned(conns[..n], p, fd) {
      var i :| 0 <= i < n && p(conns[..n][i]) && conns[..n][i].fd == fd;
      assert p(conns[i]) && conns[i].fd == fd;
    }
    if Owned(conns, p, fd) {
      var i :| 0 <= i < |conns| && p(conns[i]) && conns[i].fd == fd;
      if i < n { assert p(conns[..n][i]) && conns[..n][i].fd == fd; }
    }
  }

  lemma {:induction false} FdsWhereFrom(conns: seq<Conn>, p: Conn -> bool)
    ensures forall fd :: fd in FdsWhere(conns, p) <==> Owned(conns, p, fd)
    ensures |FdsWhere(conns, p)| == Count(conns, p)
  {
    if conns != [] {
      var n := |conns| - 1;
      FdsWhereFrom(conns[..n], p);
      forall fd
        ensures fd in FdsWhere(conns, p) <==> Owned(conns, p, fd)
      {
        OwnedSplit(conns, p, fd);
      }
    }
  }

  /** Closing the live slots one by one closes every open descriptor exactly once. */
  lemma {:induction false} LiveFdsListedOnce(conns: seq<Conn>)
    requires SlotsSound(conns)
    ensures var r := FdsWhere(conns, Live);
            && (forall j, k :: 0 <= j < k < |r| ==> r[j] != r[k])
            && (forall fd :: fd in r <==> fd in LiveFds(conns))
  {
    FdsWhereFrom(conns, Live);
    assert forall fd :: Owned(conns, Live, fd) <==> fd in LiveFds(conns);
    if conns != [] {
      var n := |conns| - 1;
      LiveFdsListedOnce(conns[..n]);
      FdsWhereFrom(conns[..n], Live);
      if Live(conns[n]) {
        assert !Owned(conns[..n], Live, conns[n].fd);
        assert conns[n].fd !in FdsWhere(conns[..n], Live);
      }
    }
  }
}
