/** The bounded list of blocked addresses. */
module Blocklist {
  import opened Util

  const MAX_BLOCKED_IPS := 32
  const ADDR_MAX := 63   // characters kept of an address

  /** An address as it is stored: snprintf into a buffer of 64 bytes. */
  function Trunc(ip: string): (s: string)
    ensures |s| <= ADDR_MAX && s <= ip
  {
    Clipped(ip, ADDR_MAX + 1)
  }

  /** The list without the first occurrence of `ip`. */
  function RemoveFirst(l: seq<string>, ip: string): seq<string>
    decreases |l|
  {
    if l == [] then [] else if l[0] == ip then l[1..] else [l[0]] + RemoveFirst(l[1..], ip)
  }

  /** The list and the return code (true for 0) of the three operations. */
  function Added(l: seq<string>, ip: string): (seq<string>, bool) {
    if ip == "" then (l, false)
    else if ip in l then (l, true)
    else if |l| < MAX_BLOCKED_IPS then (l + [Trunc(ip)], true)
    else (l, false)
  }

  function Removed(l: seq<string>, ip: string): (seq<string>, bool) {
    if ip == "" then (l, false) else (RemoveFirst(l, ip), ip in l)
  }

  lemma {:induction false} RemoveAt(l: seq<string>, ip: string, i: nat)
    requires i < |l| && l[i] == ip && ip !in l[..i]
    ensures RemoveFirst(l, ip) == l[..i] + l[i + 1..]
    decreases i
  {
    if i > 0 {
      assert l[0] in l[..i];
      assert l[1..][..i - 1] == l[..i][1..];
      RemoveAt(l[1..], ip, i - 1);
    }
  }

  lemma {:induction false} RemoveAbsent(l: seq<string>, ip: string)
    requires ip !in l
    ensures RemoveFirst(l, ip) == l
    decreases |l|
  {
    if l != [] {
      RemoveAbsent(l[1..], ip);
    }
  }

  class List {
    const ips: array<string>
    var count: nat

    ghost predicate Valid()
      reads this
    {
      ips.Length == MAX_BLOCKED_IPS && count <= MAX_BLOCKED_IPS
    }

    ghost function Contents(): seq<string>
      requires Valid()
      reads this, ips
    {
      ips[..count]
    }

    constructor ()
      ensures Valid() && Contents() == [] && fresh(ips)
    {
      ips := new string[MAX_BLOCKED_IPS](i => "");
      count := 0;
    }

    method Contains(ip: string) returns (found: bool)
      requires Valid()
      ensures found == (ip in Contents())
    {
      found := false;
      for i := 0 to count
        invariant !found && ip !in ips[..i]
      {
        if ips[i] == ip {
          return true;
        }
      }
    }

    method Add(ip: string) returns (ok: bool)
      requires Valid()
      modifies this, ips
      ensures Valid() && (Contents(), ok) == Added(old(Contents()), ip)
    {
      if ip == "" {
        return false;
      }
      var found := Contains(ip);
      if found {
        return true;
      }
      if count < MAX_BLOCKED_IPS {
        ips[count] := Trunc(ip);
        count := count + 1;
        assert ips[..count] == old(Contents()) + [Trunc(ip)];
        return true;
      }
      return false;
    }

    /** Shifts the entries behind position `i` forward. */
    method CloseGap(i: nat)
      requires Valid() && i < count
      modifies this`count, ips
      ensures Valid() && Contents() == old(Contents())[..i] + old(Contents())[i + 1..]
    {
      ghost var l := Contents();
      for j := i + 1 to count
        invariant count == |l| && ips[..i] == l[..i]
        invariant forall k :: i <= k < j - 1 ==> ips[k] == l[k + 1]
        invariant forall k :: j - 1 <= k < count ==> ips[k] == l[k]
      {
        ips[j - 1] := ips[j];
      }
      count := count - 1;
      assert ips[..count] == l[..i] + l[i + 1..];
    }

    method Remove(ip: string) returns (ok: bool)
      requires Valid()
      modifies this, ips
      ensures Valid() && (Contents(), ok) == Removed(old(Contents()), ip)
    {
      hide RemoveFirst;
      if ip == "" {
        return false;
      }
      ghost var l := Contents();
      for i := 0 to count
        invariant Valid() && Contents() == l && ip !in l[..i]
      {
        if ips[i] == ip {
          RemoveAt(l, ip, i);
          CloseGap(i);
          return true;
        }
      }
      RemoveAbsent(l, ip);
      assert l[..|l|] == l;
      return false;
    }
  }

  // ----- As a set

  function AsSet(l: seq<string>): set<string> {
    set x | x in l
  }

  /** For addresses of fewer than 64 characters the list is a duplicate-free set of at most 32. */
  lemma AddIsInsert(l: seq<string>, ip: string)
    requires Distinct(l) && |l| <= MAX_BLOCKED_IPS && 0 < |ip| <= ADDR_MAX
    ensures var (l', ok) := Added(l, ip);
      && Distinct(l') && |l'| <= MAX_BLOCKED_IPS
      && ok == (ip in l || |l| < MAX_BLOCKED_IPS)
      && AsSet(l') == if ok then AsSet(l) + {ip} else AsSet(l)
  {
  }

  lemma {:induction false} RemoveIsDelete(l: seq<string>, ip: string)
    requires Distinct(l) && ip != ""
    ensures var (l', ok) := Removed(l, ip);
      && Distinct(l') && |l'| <= |l|
      && ok == (ip in l)
      && (forall x :: x in l' <==> x in l && x != ip)
    decreases |l|
  {
    if l != [] && l[0] != ip {
      RemoveIsDelete(l[1..], ip);
      assert Distinct(l[1..]);
      var r := RemoveFirst(l[1..], ip);
      assert l == [l[0]] + l[1..];
      assert forall i :: 0 <= i < |r| ==> r[i] in r;
    } else if l != [] {
      assert l == [l[0]] + l[1..];
    }
  }

  lemma {:induction false} SizeOfSet(l: seq<string>)
    requires Distinct(l)
    ensures |AsSet(l)| == |l|
    decreases |l|
  {
    if l != [] {
      assert AsSet(l) == AsSet(l[1..]) + {l[0]};
      SizeOfSet(l[1..]);
    }
  }

  /** An address just accepted into the list is found in it if and only if it has fewer than 64 characters. */
  lemma BlockedIsFound(l: seq<string>, ip: string)
    requires ip != "" && ip !in l && |l| < MAX_BLOCKED_IPS
    ensures ip in Added(l, ip).0 <==> |ip| <= ADDR_MAX
  {
  }

  /** An addition keeps the list duplicate-free if and only if the address was already listed in
      full, the list was full, or its truncation was not in it; so adding an address of 64 or
      more characters twice stores it twice. */
  lemma AddKeepsDistinct(l: seq<string>, ip: string)
    requires Distinct(l) && ip != ""
    ensures Distinct(Added(l, ip).0) <==> ip in l || |l| >= MAX_BLOCKED_IPS || Trunc(ip) !in l
  {
    var l' := Added(l, ip).0;
    if ip !in l && |l| < MAX_BLOCKED_IPS && Trunc(ip) in l {
      var i :| 0 <= i < |l| && l[i] == Trunc(ip);
      assert l'[i] == l'[|l|];
    }
  }

  lemma LongAddressTwice(ip: string)
    requires |ip| > ADDR_MAX
    ensures var once := Added([], ip).0; Added(once, ip).0 == [Trunc(ip), Trunc(ip)]
  {
  }
}
