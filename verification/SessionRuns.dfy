/** Who stays connected: what each session experiences over whole iterations of the poll loop. */
module SessionRuns {
  import opened Blocklist
  import opened Sessions

  predicate Accepts(e: Event) {
    e.InetAccept? || e.UnixAccept?
  }

  /** An iteration of the poll loop accepts connections before it reads commands. */
  predicate InOrder(es: seq<Event>) {
    forall a, b :: 0 <= a < b < |es| && Accepts(es[b]) ==> Accepts(es[a])
  }

  predicate NoAccepts(es: seq<Event>) {
    forall k :: 0 <= k < |es| ==> !Accepts(es[k])
  }

  /** An event that ends the session in slot `i`: it leaves; it is a user and the first with the
      descriptor to be kicked; or it is a user at an address that is blocked, or is already. */
  predicate Ends(cs: seq<Session>, bl: seq<string>, e: Event, i: nat)
    requires i < |cs|
  {
    cs[i].active &&
    match e
    case Leave(k) => k == i
    case Kick(fd) =>
      && cs[i].kind == User && cs[i].fd == fd
      && forall k :: 0 <= k < i ==> !(cs[k].active && cs[k].kind == User && cs[k].fd == fd)
    case BlockIp(ip) => cs[i].kind == User && cs[i].addr == ip && ip != "" && (ip in bl || |bl| < 32)
    case _ => false
  }

  /** Some event of the iteration ends the session in slot `i`, in the state it meets. */
  predicate EndedIn(cs: seq<Session>, bl: seq<string>, es: seq<Event>, i: nat)
    requires i < |cs|
    decreases |es|
  {
    es != [] &&
    (Ends(cs, bl, es[0], i)
     || (var (cs1, bl1) := ApplyAll(cs, bl, [es[0]]); i < |cs1| && EndedIn(cs1, bl1, es[1..], i)))
  }

  lemma {:induction false} FindsFirst(cs: seq<Session>, fd: int, i: nat)
    requires i < |cs| && cs[i].active && cs[i].kind == User && cs[i].fd == fd
    ensures FindUser(cs, fd) == i <==> forall k :: 0 <= k < i ==> !(cs[k].active && cs[k].kind == User && cs[k].fd == fd)
    decreases i
  {
    if i > 0 {
      if cs[0].active && cs[0].fd == fd && cs[0].kind == User {
        assert FindUser(cs, fd) == 0;
      } else {
        FindsFirst(cs[1..], fd, i - 1);
        assert forall k :: 0 <= k < i - 1 ==> cs[1..][k] == cs[k + 1];
        assert forall k :: 0 < k < i ==> cs[k] == cs[1..][k - 1];
      }
    }
  }

  lemma OneEvent(cs: seq<Session>, bl: seq<string>, e: Event)
    ensures ApplyAll(cs, bl, [e]) == Apply(cs, bl, e)
  {
    hide Apply;
    var r := Apply(cs, bl, e);
    assert ApplyAll(r.0, r.1, []) == r;
  }

  /** What one event does to a slot that is taken. */
  lemma EventOnSession(cs: seq<Session>, bl: seq<string>, e: Event, i: nat)
    requires i < |cs| && cs[i].active
    ensures var cs1 := Apply(cs, bl, e).0;
      && |cs1| == |cs|
      && (!Ends(cs, bl, e, i) ==> cs1[i] == cs[i])
      && (Ends(cs, bl, e, i) ==> !cs1[i].active || cs1[i].kick)
      && (cs[i].kick ==> !cs1[i].active || cs1[i].kick)
  {
    hide FindUser, FirstFree, Removed;
    if e.Kick? && cs[i].kind == User && cs[i].fd == e.fd {
      FindsFirst(cs, e.fd, i);
    }
  }

  lemma EventOnFreeSlot(cs: seq<Session>, bl: seq<string>, e: Event, i: nat)
    requires i < |cs| && !cs[i].active && !Accepts(e)
    ensures var cs1 := Apply(cs, bl, e).0; |cs1| == |cs| && !cs1[i].active
  {
    hide FirstFree, Removed, Added;
  }

  lemma {:induction false} GoneStaysGone(cs: seq<Session>, bl: seq<string>, es: seq<Event>, i: nat)
    requires i < |cs| && (!cs[i].active || cs[i].kick) && NoAccepts(es)
    ensures var cs' := ApplyAll(cs, bl, es).0; |cs'| == |cs| && (!cs'[i].active || cs'[i].kick)
    decreases |es|
  {
    hide Apply, Ends;
    if es != [] {
      if cs[i].active {
        EventOnSession(cs, bl, es[0], i);
      } else {
        EventOnFreeSlot(cs, bl, es[0], i);
      }
      var r := Apply(cs, bl, es[0]);
      GoneStaysGone(r.0, r.1, es[1..], i);
    }
  }

  lemma {:induction false} EventsOnSession(cs: seq<Session>, bl: seq<string>, es: seq<Event>, i: nat)
    requires i < |cs| && cs[i].active && !cs[i].kick && InOrder(es)
    ensures var cs' := ApplyAll(cs, bl, es).0;
      |cs'| == |cs| && if EndedIn(cs, bl, es, i) then !cs'[i].active || cs'[i].kick else cs'[i] == cs[i]
    decreases |es|
  {
    hide Apply, Ends;
    if es != [] {
      OneEvent(cs, bl, es[0]);
      EventOnSession(cs, bl, es[0], i);
      var r := Apply(cs, bl, es[0]);
      assert forall k :: 0 <= k < |es| - 1 ==> es[1..][k] == es[k + 1];
      if Ends(cs, bl, es[0], i) {
        EndsIsCommand(cs, bl, es[0], i);
        GoneStaysGone(r.0, r.1, es[1..], i);
      } else {
        EventsOnSession(r.0, r.1, es[1..], i);
      }
    }
  }

  lemma EndsIsCommand(cs: seq<Session>, bl: seq<string>, e: Event, i: nat)
    requires i < |cs| && Ends(cs, bl, e, i)
    ensures !Accepts(e)
  {
  }

  lemma OneIteration(cs: seq<Session>, bl: seq<string>, es: seq<Event>)
    ensures PollLoop(cs, bl, [es]) == (Swept(ApplyAll(cs, bl, es).0), ApplyAll(cs, bl, es).1)
  {
    hide ApplyAll, Swept;
    var r := ApplyAll(cs, bl, es);
    assert PollLoop(Swept(r.0), r.1, []) == (Swept(r.0), r.1);
  }

  /** A session at one head of the poll loop is in the same slot, unchanged, at the next head,
      unless an event of the iteration ends it; then the slot is free. */
  lemma SessionStaysOrEnds(cs: seq<Session>, bl: seq<string>, es: seq<Event>, i: nat)
    requires i < |cs| && cs[i].active && !cs[i].kick && InOrder(es)
    ensures var cs' := PollLoop(cs, bl, [es]).0;
      |cs'| == |cs| && if EndedIn(cs, bl, es, i) then !cs'[i].active else cs'[i] == cs[i]
  {
    hide ApplyAll, EndedIn, InOrder, PollLoop;
    EventsOnSession(cs, bl, es, i);
    OneIteration(cs, bl, es);
  }

  /** A slot that is free at one head is free at the next, unless a connection is accepted. */
  lemma FreeSlotStaysFree(cs: seq<Session>, bl: seq<string>, es: seq<Event>, i: nat)
    requires i < |cs| && !cs[i].active && NoAccepts(es)
    ensures var cs' := PollLoop(cs, bl, [es]).0; |cs'| == |cs| && !cs'[i].active
  {
    hide ApplyAll, NoAccepts, PollLoop;
    GoneStaysGone(cs, bl, es, i);
    OneIteration(cs, bl, es);
  }

  /** Some iteration ends the session in slot `i`, in the state it meets. */
  predicate EndedBy(cs: seq<Session>, bl: seq<string>, iterations: seq<seq<Event>>, i: nat)
    requires i < |cs|
    decreases |iterations|
  {
    iterations != [] &&
    (EndedIn(cs, bl, iterations[0], i)
     || (var (cs1, bl1) := PollLoop(cs, bl, [iterations[0]]); i < |cs1| && EndedBy(cs1, bl1, iterations[1..], i)))
  }

  /** Over any number of iterations: a session that no event ends is still there, unchanged. */
  lemma {:induction false} SessionStays(cs: seq<Session>, bl: seq<string>, iterations: seq<seq<Event>>, i: nat)
    requires i < |cs| && cs[i].active && !cs[i].kick && !EndedBy(cs, bl, iterations, i)
    requires forall k :: 0 <= k < |iterations| ==> InOrder(iterations[k])
    ensures var cs' := PollLoop(cs, bl, iterations).0; |cs'| == |cs| && cs'[i] == cs[i]
    decreases |iterations|
  {
    hide ApplyAll, EndedIn, InOrder, Swept;
    if iterations != [] {
      SessionStaysOrEnds(cs, bl, iterations[0], i);
      OneIteration(cs, bl, iterations[0]);
      var r := PollLoop(cs, bl, [iterations[0]]);
      SessionStays(r.0, r.1, iterations[1..], i);
    }
  }

  /** At the heads of the poll loop no session is marked. */
  lemma {:induction false} HeadsAreUnmarked(cs: seq<Session>, bl: seq<string>, iterations: seq<seq<Event>>)
    requires forall i :: 0 <= i < |cs| && cs[i].active ==> !cs[i].kick
    ensures var cs' := PollLoop(cs, bl, iterations).0; forall i :: 0 <= i < |cs'| && cs'[i].active ==> !cs'[i].kick
    decreases |iterations|
  {
    hide ApplyAll;
    if iterations != [] {
      var r := ApplyAll(cs, bl, iterations[0]);
      assert forall i :: 0 <= i < |r.0| ==> Swept(r.0)[i].active ==> !Swept(r.0)[i].kick;
      HeadsAreUnmarked(Swept(r.0), r.1, iterations[1..]);
      assert PollLoop(cs, bl, iterations) == PollLoop(Swept(r.0), r.1, iterations[1..]);
    }
  }

  /** A connection is turned away: a user from a blocked address, or an admin while there is one. */
  predicate TurnedAway(cs: seq<Session>, bl: seq<string>, e: Event) {
    e.InetAccept? &&
    ((e.kind == User && e.addr in bl)
     || (e.kind == Admin && exists k :: 0 <= k < |cs| && cs[k].active && cs[k].kind == Admin))
  }

  lemma {:induction false} FreeIsFirst(cs: seq<Session>, i: nat)
    requires i <= |cs| && (i < |cs| ==> !cs[i].active) && forall k :: 0 <= k < i ==> cs[k].active
    ensures FirstFree(cs) == i
    decreases |cs|
  {
    if i > 0 {
      FreeIsFirst(cs[1..], i - 1);
    }
  }

  /** A connection that is not turned away gets the first free slot `i`, with its descriptor, kind
      and address, unmarked; otherwise, or when all slots are taken, nothing changes. */
  lemma ArrivalGetsFirstFreeSlot(cs: seq<Session>, bl: seq<string>, e: Event, i: nat)
    requires Accepts(e) && Possible(e)
    requires i <= |cs| && (i < |cs| ==> !cs[i].active) && forall k :: 0 <= k < i ==> cs[k].active
    ensures var (cs', bl') := ApplyAll(cs, bl, [e]);
      && bl' == bl
      && cs' == if TurnedAway(cs, bl, e) || i == |cs| then cs
                else if e.UnixAccept? then cs[i := Session(e.fd, User, true, false, "unix-local")]
                else cs[i := Session(e.fd, e.kind, true, false, e.addr)]
  {
    OneEvent(cs, bl, e);
    FreeIsFirst(cs, i);
    hide ApplyAll, FirstFree;
  }
}
