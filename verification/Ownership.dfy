/** Who owns an ip:port that several rows ask for: the group of the first claim. */
module Ownership {
  import opened Wrappers
  import opened Sorting

  /** A row's wish to scan one port of one address under its group. */
  datatype Claim = Claim(group: string, ip: int, port: int)

  ghost predicate Names(c: Claim, ip: int, port: int) {
    c.ip == ip && c.port == port
  }

  ghost function Owner(claims: seq<Claim>, ip: int, port: int): Option<string> {
    if claims == [] then None
    else
      var earlier := Owner(claims[..|claims| - 1], ip, port);
      if earlier.Some? then earlier
      else if Names(claims[|claims| - 1], ip, port) then Some(claims[|claims| - 1].group)
      else None
  }

  /** The ports of `ip` that `group` owns, in the order in which it claimed them. */
  ghost function PortsOf(claims: seq<Claim>, group: string, ip: int): seq<int> {
    if claims == [] then []
    else
      var earlier := claims[..|claims| - 1];
      var last := claims[|claims| - 1];
      if last.group == group && last.ip == ip && Owner(earlier, ip, last.port).None?
      then PortsOf(earlier, group, ip) + [last.port]
      else PortsOf(earlier, group, ip)
  }

  lemma PushOne(claims: seq<Claim>, c: Claim)
    ensures (claims + [c])[..|claims + [c]| - 1] == claims
  {
  }

  lemma PortsOfPush(claims: seq<Claim>, c: Claim, group: string, ip: int)
    ensures PortsOf(claims + [c], group, ip) == PortsOf(claims, group, ip) +
            if c.group == group && c.ip == ip && Owner(claims, ip, c.port).None? then [c.port] else []
  {
    PushOne(claims, c);
  }

  lemma OwnerOfPush(claims: seq<Claim>, c: Claim, ip: int, port: int)
    ensures Owner(claims + [c], ip, port) == if Owner(claims, ip, port).Some? then Owner(claims, ip, port)
                                             else if Names(c, ip, port) then Some(c.group) else None
  {
    PushOne(claims, c);
  }

  ghost predicate FirstAt(claims: seq<Claim>, ip: int, port: int, k: int) {
    && 0 <= k < |claims| && Names(claims[k], ip, port)
    && forall j :: 0 <= j < k ==> !Names(claims[j], ip, port)
  }

  /** The owner is the group of the first claim, and there is one as soon as anything claims. */
  lemma {:induction false} OwnerIsFirst(claims: seq<Claim>, ip: int, port: int)
    ensures Owner(claims, ip, port).None? <==> forall c <- claims :: !Names(c, ip, port)
    ensures Owner(claims, ip, port).Some? ==>
              exists k :: FirstAt(claims, ip, port, k) && Owner(claims, ip, port).value == claims[k].group
  {
    if claims != [] {
      var earlier := claims[..|claims| - 1];
      OwnerIsFirst(earlier, ip, port);
      assert claims == earlier + [claims[|claims| - 1]];
      if Owner(earlier, ip, port).Some? {
        var k :| FirstAt(earlier, ip, port, k) && Owner(earlier, ip, port).value == earlier[k].group;
        assert FirstAt(claims, ip, port, k);
        assert claims[k] in claims;
      } else if Names(claims[|claims| - 1], ip, port) {
        assert forall j :: 0 <= j < |earlier| ==> claims[j] == earlier[j] && earlier[j] in earlier;
        assert FirstAt(claims, ip, port, |claims| - 1);
      }
    }
  }

  /** Earlier claims go first. */
  lemma {:induction false} OwnerOfBoth(a: seq<Claim>, b: seq<Claim>, ip: int, port: int)
    ensures Owner(a + b, ip, port) == if Owner(a, ip, port).Some? then Owner(a, ip, port) else Owner(b, ip, port)
  {
    if b == [] {
      assert a + b == a;
    } else {
      OwnerOfBoth(a, b[..|b| - 1], ip, port);
      assert (a + b)[..|a + b| - 1] == a + b[..|b| - 1];
    }
  }

  lemma {:induction false} PortsOfOwner(claims: seq<Claim>, group: string, ip: int, port: int)
    ensures port in PortsOf(claims, group, ip) <==> Owner(claims, ip, port) == Some(group)
  {
    if claims != [] {
      PortsOfOwner(claims[..|claims| - 1], group, ip, port);
    }
  }

  lemma {:induction false} PortsOfDistinct(claims: seq<Claim>, group: string, ip: int)
    ensures Distinct(PortsOf(claims, group, ip))
  {
    if claims != [] {
      var earlier := claims[..|claims| - 1];
      PortsOfDistinct(earlier, group, ip);
      PortsOfOwner(earlier, group, ip, claims[|claims| - 1].port);
    }
  }

  // ----- dropping whole groups of claims -----

  ghost function Kept(claims: seq<Claim>, groups: set<string>): seq<Claim> {
    if claims == [] then []
    else
      var earlier := Kept(claims[..|claims| - 1], groups);
      if claims[|claims| - 1].group in groups then earlier + [claims[|claims| - 1]] else earlier
  }

  /** A kept group never loses an ip:port when other groups' claims are dropped. */
  lemma {:induction false} KeptOwner(claims: seq<Claim>, groups: set<string>, ip: int, port: int)
    ensures Owner(claims, ip, port).Some? && Owner(claims, ip, port).value in groups ==>
              Owner(Kept(claims, groups), ip, port) == Owner(claims, ip, port)
    ensures Owner(Kept(claims, groups), ip, port).Some? ==>
              && Owner(Kept(claims, groups), ip, port).value in groups
              && Owner(claims, ip, port).Some?
  {
    if claims != [] {
      var earlier, last := claims[..|claims| - 1], claims[|claims| - 1];
      KeptOwner(earlier, groups, ip, port);
      PushOne(Kept(earlier, groups), last);
    }
  }

  /** No ip:port is claimed under two groups. */
  ghost predicate NoRivals(claims: seq<Claim>) {
    forall c <- claims, d <- claims :: Names(c, d.ip, d.port) ==> c.group == d.group
  }

  lemma {:induction false} KeptPortsWithoutRivals(claims: seq<Claim>, groups: set<string>, group: string, ip: int)
    requires NoRivals(claims) && group in groups
    ensures PortsOf(Kept(claims, groups), group, ip) == PortsOf(claims, group, ip)
  {
    if claims != [] {
      var earlier, last := claims[..|claims| - 1], claims[|claims| - 1];
      assert forall c <- earlier :: c in claims;
      KeptPortsWithoutRivals(earlier, groups, group, ip);
      PushOne(Kept(earlier, groups), last);
      if last.group == group && last.ip == ip {
        KeptOwner(earlier, groups, ip, last.port);
        OwnerWithoutRivals(claims, earlier, last);
      }
    }
  }

  lemma OwnerWithoutRivals(claims: seq<Claim>, earlier: seq<Claim>, last: Claim)
    requires NoRivals(claims) && last in claims && forall c <- earlier :: c in claims
    ensures Owner(earlier, last.ip, last.port).Some? ==> Owner(earlier, last.ip, last.port).value == last.group
  {
    OwnerIsFirst(earlier, last.ip, last.port);
    if Owner(earlier, last.ip, last.port).Some? {
      var k :| FirstAt(earlier, last.ip, last.port, k) && Owner(earlier, last.ip, last.port).value == earlier[k].group;
      assert earlier[k] in earlier;
    }
  }
}
