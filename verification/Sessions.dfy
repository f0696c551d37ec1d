/** The session table and its interplay with the blocklist across the poll loop. */
module Sessions {
  import opened Blocklist
  import opened Util

  const MAX_CLIENTS := 128
  const UNIX_LOCAL := "unix-local"
  const INET_ADDR_MAX := 15   // the longest dotted-decimal address

  datatype ClientType = UnknownClient | User | Admin

  datatype Session = Session(fd: int, kind: ClientType, active: bool, kick: bool, addr: string)

  const FREE: Session := Session(-1, UnknownClient, false, false, "")

  /** What one iteration of the poll loop may do to the table. */
  datatype Event =
    | InetAccept(kind: ClientType, fd: int, addr: string)
    | UnixAccept(fd: int)
    | Leave(i: nat)                 // QUIT, or the end of the connection
    | Kick(fd: int)
    | BlockIp(ip: string)
    | UnblockIp(ip: string)

  /** inet_ntop yields at most 15 characters, and only users and admins are accepted. */
  predicate Possible(e: Event) {
    match e
    case InetAccept(kind, fd, addr) => kind != UnknownClient && |addr| <= INET_ADDR_MAX && addr != UNIX_LOCAL
    case Leave(i) => i < MAX_CLIENTS
    case _ => true
  }

  // ----- The operations on values

  predicate HasAdmin(cs: seq<Session>) {
    exists i :: 0 <= i < |cs| && cs[i].active && cs[i].kind == Admin
  }

  /** The first inactive slot, or the number of slots. */
  function FirstFree(cs: seq<Session>): (i: nat)
    ensures i <= |cs|
    ensures i < |cs| ==> !cs[i].active
    ensures forall k :: 0 <= k < i ==> cs[k].active
    decreases |cs|
  {
    if cs == [] || !cs[0].active then 0 else 1 + FirstFree(cs[1..])
  }

  function WithClient(cs: seq<Session>, fd: int, kind: ClientType, addr: string): seq<Session> {
    var i := FirstFree(cs);
    if i < |cs| then cs[i := Session(fd, kind, true, false, Trunc(addr))] else cs
  }

  /** The first active user with this descriptor, or the number of slots. */
  function FindUser(cs: seq<Session>, fd: int): (i: nat)
    ensures i <= |cs|
    ensures i < |cs| ==> cs[i].active && cs[i].fd == fd && cs[i].kind == User
    decreases |cs|
  {
    if cs == [] || (cs[0].active && cs[0].fd == fd && cs[0].kind == User) then 0 else 1 + FindUser(cs[1..], fd)
  }

  function Kicked(c: Session): Session {
    c.(kick := true)
  }

  /** Marks every active user at this address. */
  function KickAddr(cs: seq<Session>, ip: string): (r: seq<Session>)
    ensures |r| == |cs|
  {
    seq(|cs|, i requires 0 <= i < |cs| =>
      if cs[i].active && cs[i].kind == User && cs[i].addr == ip then Kicked(cs[i]) else cs[i])
  }

  /** The end-of-iteration sweep. */
  function Swept(cs: seq<Session>): (r: seq<Session>)
    ensures |r| == |cs|
  {
    seq(|cs|, i requires 0 <= i < |cs| => if cs[i].active && cs[i].kick then FREE else cs[i])
  }

  function Apply(cs: seq<Session>, bl: seq<string>, e: Event): (seq<Session>, seq<string>) {
    match e
    case InetAccept(kind, fd, addr) =>
      if kind == User && addr in bl then (cs, bl)
      else if kind == Admin && HasAdmin(cs) then (cs, bl)
      else (WithClient(cs, fd, kind, addr), bl)
    case UnixAccept(fd) => (WithClient(cs, fd, User, UNIX_LOCAL), bl)
    case Leave(i) => (if i < |cs| && cs[i].active then cs[i := FREE] else cs, bl)
    case Kick(fd) =>
      var i := FindUser(cs, fd);
      (if i < |cs| then cs[i := Kicked(cs[i])] else cs, bl)
    case BlockIp(ip) =>
      var (bl', ok) := Added(bl, ip);
      (if ok then KickAddr(cs, ip) else cs, bl')
    case UnblockIp(ip) => (cs, Removed(bl, ip).0)
  }

  // ----- The code

  class Server {
    const clients: array<Session>
    const blocklist: List

    ghost predicate Valid()
      reads this, blocklist
    {
      clients.Length == MAX_CLIENTS && blocklist.Valid()
    }

    constructor ()
      ensures Valid() && fresh(clients) && fresh(blocklist) && fresh(blocklist.ips)
      ensures blocklist.Contents() == [] && clients[..] == seq(MAX_CLIENTS, i => FREE)
    {
      clients := new Session[MAX_CLIENTS](i => FREE);
      blocklist := new List();
    }

    method AddClient(fd: int, kind: ClientType, addr: string) returns (ok: bool)
      requires Valid()
      modifies clients
      ensures clients[..] == WithClient(old(clients[..]), fd, kind, addr)
      ensures ok == (FirstFree(old(clients[..])) < MAX_CLIENTS)
    {
      ghost var cs := clients[..];
      for i := 0 to MAX_CLIENTS
        invariant clients[..] == cs && FirstFree(cs) >= i
      {
        if !clients[i].active {
          clients[i] := Session(fd, kind, true, false, Trunc(addr));
          return true;
        }
        assert cs[i].active;
      }
      return false;
    }

    method AcceptInet(fd: int, kind: ClientType, addr: string, singleAdminOnly: bool)
      requires Valid() && singleAdminOnly == (kind == Admin)
      modifies clients
      ensures (clients[..], blocklist.Contents())
        == Apply(old(clients[..]), old(blocklist.Contents()), InetAccept(kind, fd, addr))
    {
      if kind == User {
        var blocked := blocklist.Contains(addr);
        if blocked {
          return;
        }
      }
      if singleAdminOnly {
        for i := 0 to MAX_CLIENTS
          invariant forall k :: 0 <= k < i ==> !(clients[k].active && clients[k].kind == Admin)
        {
          if clients[i].active && clients[i].kind == Admin {
            assert clients[..][i].active && clients[..][i].kind == Admin;
            return;
          }
        }
        assert !HasAdmin(clients[..]);
      }
      var ok := AddClient(fd, kind, addr);
    }

    method AcceptUnix(fd: int)
      requires Valid()
      modifies clients
      ensures (clients[..], blocklist.Contents()) == Apply(old(clients[..]), old(blocklist.Contents()), UnixAccept(fd))
    {
      var ok := AddClient(fd, User, UNIX_LOCAL);
    }

    method CloseClient(i: nat)
      requires Valid() && i < MAX_CLIENTS
      modifies clients
      ensures (clients[..], blocklist.Contents()) == Apply(old(clients[..]), old(blocklist.Contents()), Leave(i))
    {
      if clients[i].active {
        clients[i] := FREE;
      }
    }

    method KickCommand(fd: int)
      requires Valid()
      modifies clients
      ensures (clients[..], blocklist.Contents()) == Apply(old(clients[..]), old(blocklist.Contents()), Kick(fd))
    {
      ghost var cs := clients[..];
      for i := 0 to MAX_CLIENTS
        invariant clients[..] == cs && FindUser(cs, fd) == i + FindUser(cs[i..], fd)
      {
        assert cs[i..][0] == cs[i] && cs[i..][1..] == cs[i + 1..];
        if clients[i].active && clients[i].fd == fd && clients[i].kind == User {
          clients[i] := Kicked(clients[i]);
          return;
        }
      }
    }

    method BlockIpCommand(ip: string) returns (ok: bool)
      requires Valid()
      modifies clients, blocklist, blocklist.ips
      ensures Valid()
      ensures (clients[..], blocklist.Contents()) == Apply(old(clients[..]), old(blocklist.Contents()), BlockIp(ip))
      ensures ok == Added(old(blocklist.Contents()), ip).1
    {
      ok := blocklist.Add(ip);
      if !ok {
        return;
      }
      ghost var cs := clients[..];
      for i := 0 to MAX_CLIENTS
        invariant Valid() && blocklist.Contents() == Added(old(blocklist.Contents()), ip).0
        invariant forall k :: 0 <= k < i ==> clients[k] == KickAddr(cs, ip)[k]
        invariant forall k :: i <= k < MAX_CLIENTS ==> clients[k] == cs[k]
      {
        if clients[i].active && clients[i].kind == User && clients[i].addr == ip {
          clients[i] := Kicked(clients[i]);
        }
      }
      assert clients[..] == KickAddr(cs, ip);
    }

    method UnblockIpCommand(ip: string) returns (ok: bool)
      requires Valid()
      modifies blocklist, blocklist.ips
      ensures Valid()
      ensures (clients[..], blocklist.Contents()) == Apply(old(clients[..]), old(blocklist.Contents()), UnblockIp(ip))
    {
      ok := blocklist.Remove(ip);
    }

    method Sweep()
      requires Valid()
      modifies clients
      ensures clients[..] == Swept(old(clients[..])) && blocklist.Contents() == old(blocklist.Contents())
      ensures forall i :: 0 <= i < MAX_CLIENTS ==>
        clients[i] == if old(clients[i]).active && old(clients[i]).kick then FREE else old(clients[i])
    {
      ghost var cs := clients[..];
      for i := 0 to MAX_CLIENTS
        invariant forall k :: 0 <= k < i ==> clients[k] == Swept(cs)[k]
        invariant forall k :: i <= k < MAX_CLIENTS ==> clients[k] == cs[k]
      {
        if clients[i].active && clients[i].kick {
          clients[i] := FREE;
        }
      }
    }
  }

  // ----- The invariant

  predicate OneAdmin(cs: seq<Session>) {
    forall i, j :: 0 <= i < j < |cs| ==> !(cs[i].active && cs[i].kind == Admin && cs[j].active && cs[j].kind == Admin)
  }

  /** A user who came over INET from a blocked address. */
  predicate Unwanted(c: Session, bl: seq<string>) {
    c.active && c.kind == User && c.addr != UNIX_LOCAL && c.addr in bl
  }

  /** Holds throughout an iteration: unwanted users are at least marked for the sweep. */
  predicate DuringIteration(cs: seq<Session>, bl: seq<string>) {
    && OneAdmin(cs)
    && (forall i :: 0 <= i < |cs| && cs[i].active ==> |cs[i].addr| <= INET_ADDR_MAX)
    && (forall i :: 0 <= i < |cs| && Unwanted(cs[i], bl) ==> cs[i].kick)
    && |bl| <= MAX_BLOCKED_IPS
  }

  /** Holds at every head of the poll loop: at most one admin, and no INET user from a blocked address. */
  predicate AtLoopHead(cs: seq<Session>, bl: seq<string>) {
    DuringIteration(cs, bl) && forall i :: 0 <= i < |cs| ==> !Unwanted(cs[i], bl)
  }

  lemma AcceptKeeps(cs: seq<Session>, bl: seq<string>, fd: int, kind: ClientType, addr: string)
    requires DuringIteration(cs, bl) && |addr| <= INET_ADDR_MAX
    requires kind == User ==> addr == UNIX_LOCAL || addr !in bl
    requires kind == Admin ==> !HasAdmin(cs)
    ensures DuringIteration(WithClient(cs, fd, kind, addr), bl)
  {
    hide FirstFree;
  }

  lemma BlockKeeps(cs: seq<Session>, bl: seq<string>, ip: string)
    requires DuringIteration(cs, bl)
    ensures var r := Apply(cs, bl, BlockIp(ip)); DuringIteration(r.0, r.1)
  {
    var bl' := Added(bl, ip).0;
    assert forall x :: x in bl' ==> x in bl || x == Trunc(ip);
  }

  lemma EventKeeps(cs: seq<Session>, bl: seq<string>, e: Event)
    requires DuringIteration(cs, bl) && Possible(e)
    ensures var (cs', bl') := Apply(cs, bl, e); DuringIteration(cs', bl')
  {
    hide WithClient, FindUser, KickAddr, Added, Removed, HasAdmin;
    match e
    case InetAccept(kind, fd, addr) =>
      if !(kind == User && addr in bl) && !(kind == Admin && HasAdmin(cs)) {
        AcceptKeeps(cs, bl, fd, kind, addr);
      }
    case UnixAccept(fd) => AcceptKeeps(cs, bl, fd, User, UNIX_LOCAL);
    case UnblockIp(ip) => RemovalShrinks(bl, ip);
    case BlockIp(ip) => BlockKeeps(cs, bl, ip);
    case Leave(i) =>
    case Kick(fd) =>
  }

  lemma {:induction false} RemovalShrinks(l: seq<string>, ip: string)
    ensures var r := Removed(l, ip).0; |r| <= |l| && forall x :: x in r ==> x in l
    decreases |l|
  {
    if ip != "" && l != [] && l[0] != ip {
      RemovalShrinks(l[1..], ip);
    }
  }

  lemma SweepEstablishes(cs: seq<Session>, bl: seq<string>)
    requires DuringIteration(cs, bl)
    ensures AtLoopHead(Swept(cs), bl)
  {
  }

  /** The invariant breaks between the heads: exactly when an address is newly blocked while an
      INET user is connected from it. */
  lemma BlockBreaksLoopHead(cs: seq<Session>, bl: seq<string>, ip: string)
    requires AtLoopHead(cs, bl)
    ensures var r := Apply(cs, bl, BlockIp(ip));
      AtLoopHead(r.0, r.1) <==>
        ip == "" || ip in bl || |bl| == MAX_BLOCKED_IPS || ip == UNIX_LOCAL
        || forall i :: 0 <= i < |cs| ==> !(cs[i].active && cs[i].kind == User && cs[i].addr == ip)
  {
    var r := Apply(cs, bl, BlockIp(ip));
    BlockKeeps(cs, bl, ip);
    forall i | 0 <= i < |cs|
      ensures !Unwanted(cs[i], bl)
      ensures Unwanted(r.0[i], r.1) <==>
        r.1 != bl && cs[i].active && cs[i].kind == User && cs[i].addr == ip && ip != UNIX_LOCAL
    {
      StoredIsFound(cs[i], bl, ip);
    }
  }

  /** Users' addresses are short, so that truncation makes no difference to them. */
  lemma StoredIsFound(c: Session, bl: seq<string>, ip: string)
    requires c.active ==> |c.addr| <= INET_ADDR_MAX
    ensures c.active ==> (c.addr in Added(bl, ip).0 <==> c.addr in bl || (Added(bl, ip).0 != bl && c.addr == ip))
  {
    if Added(bl, ip).0 != bl {
      assert Added(bl, ip).0[|bl|] == Trunc(ip);
    }
  }

  function ApplyAll(cs: seq<Session>, bl: seq<string>, es: seq<Event>): (seq<Session>, seq<string>)
    decreases |es|
  {
    if es == [] then (cs, bl)
    else
      var (cs1, bl1) := Apply(cs, bl, es[0]);
      ApplyAll(cs1, bl1, es[1..])
  }

  lemma {:induction false} EventsKeep(cs: seq<Session>, bl: seq<string>, es: seq<Event>)
    requires DuringIteration(cs, bl) && forall k :: 0 <= k < |es| ==> Possible(es[k])
    ensures var (cs', bl') := ApplyAll(cs, bl, es); DuringIteration(cs', bl')
    decreases |es|
  {
    hide DuringIteration, Possible, Apply;
    if es != [] {
      EventKeeps(cs, bl, es[0]);
      var r := Apply(cs, bl, es[0]);
      EventsKeep(r.0, r.1, es[1..]);
    }
  }

  /** Iterations of the poll loop: the events of each, then the sweep. */
  function PollLoop(cs: seq<Session>, bl: seq<string>, iterations: seq<seq<Event>>): (seq<Session>, seq<string>)
    decreases |iterations|
  {
    if iterations == [] then (cs, bl)
    else
      var (cs1, bl1) := ApplyAll(cs, bl, iterations[0]);
      PollLoop(Swept(cs1), bl1, iterations[1..])
  }

  lemma {:induction false} PollLoopKeeps(cs: seq<Session>, bl: seq<string>, iterations: seq<seq<Event>>)
    requires AtLoopHead(cs, bl)
    requires forall k :: 0 <= k < |iterations| ==> forall e :: e in iterations[k] ==> Possible(e)
    ensures var (cs', bl') := PollLoop(cs, bl, iterations); AtLoopHead(cs', bl')
    decreases |iterations|
  {
    if iterations != [] {
      hide DuringIteration, ApplyAll, Possible;
      EventsKeep(cs, bl, iterations[0]);
      var r := ApplyAll(cs, bl, iterations[0]);
      SweepEstablishes(r.0, r.1);
      PollLoopKeeps(Swept(r.0), r.1, iterations[1..]);
    }
  }

  // ----- The blocklist over whole runs, as a set

  /** What an event does to the set of blocked addresses: at most 32 of them, none empty. */
  function Blocked(blocked: set<string>, e: Event): set<string> {
    match e
    case BlockIp(ip) => if ip != "" && |blocked| < MAX_BLOCKED_IPS then blocked + {ip} else blocked
    case UnblockIp(ip) => blocked - {ip}
    case _ => blocked
  }

  function BlockedAfter(blocked: set<string>, es: seq<Event>): set<string>
    decreases |es|
  {
    if es == [] then blocked else BlockedAfter(Blocked(blocked, es[0]), es[1..])
  }

  function BlockedAtHead(blocked: set<string>, iterations: seq<seq<Event>>): set<string>
    decreases |iterations|
  {
    if iterations == [] then blocked
    else BlockedAtHead(BlockedAfter(blocked, iterations[0]), iterations[1..])
  }

  /** Addresses as inet_ntop writes them are far shorter than the 63 characters kept. */
  predicate ShortAddress(e: Event) {
    e.BlockIp? ==> |e.ip| <= ADDR_MAX
  }

  /** The list is a duplicate-free array holding exactly the blocked addresses. */
  predicate Holds(bl: seq<string>, blocked: set<string>) {
    Distinct(bl) && |bl| <= MAX_BLOCKED_IPS && "" !in bl && AsSet(bl) == blocked
  }

  lemma ListedIsInSet(bl: seq<string>, ip: string)
    ensures ip in AsSet(bl) <==> ip in bl
  {
  }

  lemma BlockKeepsSet(bl: seq<string>, ip: string)
    requires Holds(bl, AsSet(bl)) && 0 < |ip| <= ADDR_MAX
    ensures Holds(Added(bl, ip).0, Blocked(AsSet(bl), BlockIp(ip)))
  {
    SizeOfSet(bl);
    AddIsInsert(bl, ip);
    hide Distinct, AsSet;
    ListedIsInSet(bl, ip);
  }

  lemma EventKeepsSet(cs: seq<Session>, bl: seq<string>, e: Event, blocked: set<string>)
    requires Holds(bl, blocked) && ShortAddress(e)
    ensures Holds(Apply(cs, bl, e).1, Blocked(blocked, e))
  {
    hide WithClient, FindUser, KickAddr, HasAdmin;
    match e
    case BlockIp(ip) =>
      if ip != "" {
        BlockKeepsSet(bl, ip);
      }
    case UnblockIp(ip) =>
      if ip != "" {
        hide Removed;
        RemoveIsDelete(bl, ip);
      }
    case _ =>
  }

  lemma {:induction false} EventsKeepSet(cs: seq<Session>, bl: seq<string>, es: seq<Event>, blocked: set<string>)
    requires Holds(bl, blocked) && forall k :: 0 <= k < |es| ==> ShortAddress(es[k])
    ensures Holds(ApplyAll(cs, bl, es).1, BlockedAfter(blocked, es))
    decreases |es|
  {
    hide Holds, ShortAddress, Apply, Blocked;
    if es != [] {
      EventKeepsSet(cs, bl, es[0], blocked);
      var r := Apply(cs, bl, es[0]);
      EventsKeepSet(r.0, r.1, es[1..], Blocked(blocked, es[0]));
    }
  }

  lemma {:induction false} PollLoopKeepsSet(cs: seq<Session>, bl: seq<string>, iterations: seq<seq<Event>>,
                                            blocked: set<string>)
    requires Holds(bl, blocked)
    requires forall k :: 0 <= k < |iterations| ==> forall e :: e in iterations[k] ==> ShortAddress(e)
    ensures Holds(PollLoop(cs, bl, iterations).1, BlockedAtHead(blocked, iterations))
    decreases |iterations|
  {
    hide Holds, ShortAddress, ApplyAll, BlockedAfter;
    if iterations != [] {
      EventsKeepSet(cs, bl, iterations[0], blocked);
      var r := ApplyAll(cs, bl, iterations[0]);
      PollLoopKeepsSet(Swept(r.0), r.1, iterations[1..], BlockedAfter(blocked, iterations[0]));
    }
  }

  /** At every head of the poll loop of a server, whatever its clients did before: at most one
      admin is connected, no INET user has a blocked address, and, if no address of 64 or more
      characters was ever blocked, the blocklist is duplicate-free and holds exactly the addresses
      blocked and not unblocked since, as far as there was room. */
  lemma LoopHeadInvariant(iterations: seq<seq<Event>>)
    requires forall k :: 0 <= k < |iterations| ==> forall e :: e in iterations[k] ==> Possible(e)
    ensures var (cs, bl) := PollLoop(seq(MAX_CLIENTS, i => FREE), [], iterations);
      && (forall i, j :: 0 <= i < j < |cs| ==> !(cs[i].active && cs[i].kind == Admin && cs[j].active && cs[j].kind == Admin))
      && (forall i :: 0 <= i < |cs| ==> !Unwanted(cs[i], bl))
      && |bl| <= MAX_BLOCKED_IPS
    ensures var (_, bl) := PollLoop(seq(MAX_CLIENTS, i => FREE), [], iterations);
      (forall k :: 0 <= k < |iterations| ==> forall e :: e in iterations[k] ==> ShortAddress(e)) ==>
      Distinct(bl) && AsSet(bl) == BlockedAtHead({}, iterations)
  {
    hide PollLoop, ShortAddress, BlockedAtHead;
    PollLoopKeeps(seq(MAX_CLIENTS, i => FREE), [], iterations);
    if forall k :: 0 <= k < |iterations| ==> forall e :: e in iterations[k] ==> ShortAddress(e) {
      PollLoopKeepsSet(seq(MAX_CLIENTS, i => FREE), [], iterations, {});
    }
  }
}
