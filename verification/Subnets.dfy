/**
 Subnet detection: CIDR blocks over 32-bit addresses, and the two dedup loops
 that merge address, route and sniffed subnets into one list.
 */
module Subnets {
  import opened Basics
  import opened Bits

  /** A CIDR after parsing: `u32` address, `u8` prefix. Only up to 32 does a prefix describe a block. */
  datatype Cidr = Cidr(ip: nat, prefix: nat)

  /** `u32::MAX << (32 - prefix)`, in 32 bits. */
  function Mask(prefix: nat): nat
    requires prefix <= 32
  {
    if prefix == 0 then 0 else Low(Shl(Ones(32), 32 - prefix), 32)
  }

  /** The addresses of a block agree on its leading `prefix` bits (section 3.1 of RFC 4632). */
  ghost predicate Member(c: Cidr, x: nat) {
    && c.prefix <= 32
    && forall i: nat :: 32 - c.prefix <= i < 32 ==> (Bit(x, i) <==> Bit(c.ip, i))
  }

  ghost predicate Disjoint(a: Cidr, b: Cidr) {
    forall x: nat :: !(Member(a, x) && Member(b, x))
  }

  predicate CidrContains(c: Cidr, ip: nat) {
    if c.prefix > 32 then false
    else And(ip, Mask(c.prefix)) == And(c.ip, Mask(c.prefix))
  }

  predicate CidrOverlaps(a: Cidr, b: Cidr) {
    CidrContains(a, b.ip) || CidrContains(b, a.ip)
  }

  function NormalizeCidr(c: Cidr): Option<Cidr> {
    if c.prefix > 32 then None else Some(Cidr(And(c.ip, Mask(c.prefix)), c.prefix))
  }

  // ----- Overlap -----

  lemma BitOfMask(p: nat, i: nat)
    requires p <= 32
    ensures Bit(Mask(p), i) <==> 32 - p <= i < 32
  {
    if p == 0 {
      BitOfZero(i);
    } else {
      BitOfLow(Shl(Ones(32), 32 - p), 32, i);
      BitOfShl(Ones(32), 32 - p, i);
      if i >= 32 - p { BitOfOnes(32, i - (32 - p)); }
    }
  }

  lemma BitOfMasked(x: nat, p: nat, i: nat)
    requires p <= 32
    ensures Bit(And(x, Mask(p)), i) <==> 32 - p <= i < 32 && Bit(x, i)
  {
    BitOfAnd(x, Mask(p), i);
    BitOfMask(p, i);
  }

  /** Comparing under the mask is comparing the leading bits. */
  lemma ContainsIsMember(c: Cidr, x: nat)
    ensures CidrContains(c, x) <==> Member(c, x)
  {
    if c.prefix <= 32 {
      forall i: nat
        ensures Bit(And(x, Mask(c.prefix)), i) <==> 32 - c.prefix <= i < 32 && Bit(x, i)
        ensures Bit(And(c.ip, Mask(c.prefix)), i) <==> 32 - c.prefix <= i < 32 && Bit(c.ip, i)
      {
        BitOfMasked(x, c.prefix, i);
        BitOfMasked(c.ip, c.prefix, i);
      }
      if Member(c, x) {
        Extensional(And(x, Mask(c.prefix)), And(c.ip, Mask(c.prefix)));
      }
    }
  }

  /** On blocks, the overlap test is exactly intersection of the address sets. */
  lemma OverlapIsIntersection(a: Cidr, b: Cidr)
    requires a.prefix <= 32 && b.prefix <= 32
    ensures CidrOverlaps(a, b) <==> exists x: nat :: Member(a, x) && Member(b, x)
  {
    ContainsIsMember(a, b.ip);
    ContainsIsMember(b, a.ip);
    if x: nat :| Member(a, x) && Member(b, x) {
      // the wider block holds the other's base address
      assert if a.prefix <= b.prefix then Member(a, b.ip) else Member(b, a.ip);
    }
    if CidrContains(a, b.ip) {
      assert Member(a, b.ip) && Member(b, b.ip);
    } else if CidrContains(b, a.ip) {
      assert Member(a, a.ip) && Member(b, a.ip);
    }
  }

  lemma OverlapOrDisjoint(a: Cidr, b: Cidr)
    requires a.prefix <= 32 && b.prefix <= 32
    ensures CidrOverlaps(a, b) <==> !Disjoint(a, b)
  {
    OverlapIsIntersection(a, b);
    hide CidrOverlaps, Member;
  }

  /** Outside blocks too, a negative answer is safe: nothing is shared. */
  lemma NoOverlapIsDisjoint(a: Cidr, b: Cidr)
    requires !CidrOverlaps(a, b)
    ensures Disjoint(a, b) && Disjoint(b, a)
  {
    if a.prefix <= 32 && b.prefix <= 32 {
      OverlapIsIntersection(a, b);
    }
  }

  /**
   A prefix above 32 names no address, and then the test answers by the other
   block alone: the equivalence above needs both prefixes checked.
   */
  lemma OverlapOfNonBlock(a: Cidr, b: Cidr)
    requires a.prefix > 32
    ensures Disjoint(a, b)
    ensures CidrOverlaps(a, b) <==> Member(b, a.ip)
  {
    ContainsIsMember(b, a.ip);
  }

  /** Normalizing keeps the address set and is idempotent. */
  lemma NormalizeKeepsMembers(c: Cidr)
    ensures NormalizeCidr(c) == None <==> c.prefix > 32
    ensures var n := NormalizeCidr(c);
            n.Some? ==> (forall x: nat :: Member(n.value, x) <==> Member(c, x)) && NormalizeCidr(n.value) == n
  {
    if c.prefix > 32 { return; }
    var ip' := And(c.ip, Mask(c.prefix));
    forall i: nat
      ensures Bit(ip', i) <==> 32 - c.prefix <= i < 32 && Bit(c.ip, i)
      ensures Bit(And(ip', Mask(c.prefix)), i) <==> Bit(ip', i)
    {
      BitOfMasked(c.ip, c.prefix, i);
      BitOfMasked(ip', c.prefix, i);
    }
    Extensional(And(ip', Mask(c.prefix)), ip');
  }

  /** The normal form is canonical: blocks of one prefix normalize alike exactly when they hold the same addresses. */
  lemma NormalFormIsCanonical(c: Cidr, d: Cidr)
    requires c.prefix == d.prefix <= 32
    ensures NormalizeCidr(c) == NormalizeCidr(d) <==> (forall x: nat :: Member(c, x) <==> Member(d, x))
  {
    NormalizeKeepsMembers(c);
    NormalizeKeepsMembers(d);
    if forall x: nat :: Member(c, x) <==> Member(d, x) {
      assert Member(c, c.ip);
      ContainsIsMember(d, c.ip);
    }
  }

  // ----- The merged list -----

  datatype Source = Addr | Route | Arp

  datatype Entry = Entry(iface: string, cidr: Cidr, source: Source)

  /** The gateway is already inside an address subnet of the same interface. */
  predicate GatewayCovered(addrs: seq<Entry>, iface: string, gateway: nat) {
    exists i :: 0 <= i < |addrs| && addrs[i].iface == iface && CidrContains(addrs[i].cidr, gateway)
  }

  predicate AlreadyKnown(subnets: seq<Entry>, cidr: Cidr) {
    exists i :: 0 <= i < |subnets| && CidrOverlaps(subnets[i].cidr, cidr)
  }

  /** Entries that came from sniffing share no address with any other entry. */
  ghost predicate ArpIsolated(subnets: seq<Entry>) {
    forall i, j :: 0 <= i < |subnets| && 0 <= j < |subnets| && i != j && subnets[i].source.Arp?
      ==> Disjoint(subnets[i].cidr, subnets[j].cidr)
  }

  /** The routes whose gateway no address subnet of the same interface covers, in order. */
  function NewRoutes(addrs: seq<Entry>, routes: seq<(Entry, nat)>): seq<Entry> {
    if routes == [] then [] else
      var rest := routes[..|routes| - 1];
      var (entry, gateway) := routes[|routes| - 1];
      NewRoutes(addrs, rest) + if GatewayCovered(addrs, entry.iface, gateway) then [] else [entry]
  }

  lemma {:induction false} NewRoutesOfJoin(addrs: seq<Entry>, a: seq<(Entry, nat)>, b: seq<(Entry, nat)>)
    ensures NewRoutes(addrs, a + b) == NewRoutes(addrs, a) + NewRoutes(addrs, b)
  {
    if b == [] {
      assert a + b == a;
    } else {
      assert (a + b)[..|a + b| - 1] == a + b[..|b| - 1];
      NewRoutesOfJoin(addrs, a, b[..|b| - 1]);
    }
  }

  /** A route is new exactly if no address subnet of its interface has its gateway as a member. */
  lemma RouteIsNew(addrs: seq<Entry>, entry: Entry, gateway: nat)
    ensures NewRoutes(addrs, [(entry, gateway)]) ==
            if exists a :: a in addrs && a.iface == entry.iface && Member(a.cidr, gateway) then [] else [entry]
  {
    var routes := [(entry, gateway)];
    assert routes[..0] == [] && NewRoutes(addrs, []) == [];
    forall a | a in addrs ensures CidrContains(a.cidr, gateway) <==> Member(a.cidr, gateway) {
      ContainsIsMember(a.cidr, gateway);
    }
    hide CidrContains, Member;
  }

  /** The first dedup loop. */
  method MergeRoutes(addrs: seq<Entry>, routes: seq<(Entry, nat)>) returns (subnets: seq<Entry>)
    ensures subnets == addrs + NewRoutes(addrs, routes)
  {
    subnets := addrs;
    for k := 0 to |routes|
      invariant subnets == addrs + NewRoutes(addrs, routes[..k])
    {
      var (entry, gateway) := routes[k];
      assert routes[..k + 1][..k] == routes[..k];
      if !GatewayCovered(addrs, entry.iface, gateway) {
        subnets := subnets + [entry];
      }
    }
    assert routes[..|routes|] == routes;
  }

  /** The sniffed subnets that overlap nothing known and nothing kept before them. */
  function Kept(known: seq<Entry>, sniffed: seq<(string, Cidr)>): seq<Entry> {
    if sniffed == [] then [] else
      var kept := Kept(known, sniffed[..|sniffed| - 1]);
      var (iface, cidr) := sniffed[|sniffed| - 1];
      kept + if AlreadyKnown(known + kept, cidr) then [] else [Entry(iface, cidr, Arp)]
  }

  /** What was kept counts as known for what comes after it. */
  lemma {:induction false} KeptOfJoin(known: seq<Entry>, a: seq<(string, Cidr)>, b: seq<(string, Cidr)>)
    ensures Kept(known, a + b) == Kept(known, a) + Kept(known + Kept(known, a), b)
  {
    hide AlreadyKnown;
    if b == [] {
      assert a + b == a;
    } else {
      var front := b[..|b| - 1];
      assert (a + b)[..|a + b| - 1] == a + front;
      KeptOfJoin(known, a, front);
      assert known + (Kept(known, a) + Kept(known + Kept(known, a), front))
          == known + Kept(known, a) + Kept(known + Kept(known, a), front);
    }
  }

  /** A sniffed block is kept exactly if it shares no address with a known block. */
  lemma BlockIsKept(known: seq<Entry>, iface: string, cidr: Cidr)
    requires cidr.prefix <= 32 && forall e :: e in known ==> e.cidr.prefix <= 32
    ensures Kept(known, [(iface, cidr)]) ==
            if forall e :: e in known ==> Disjoint(e.cidr, cidr) then [Entry(iface, cidr, Arp)] else []
  {
    hide Disjoint, CidrOverlaps;
    var sniffed := [(iface, cidr)];
    assert sniffed[..0] == [] && known + [] == known && Kept(known, []) == [];
    forall e | e in known ensures CidrOverlaps(e.cidr, cidr) <==> !Disjoint(e.cidr, cidr) {
      OverlapOrDisjoint(e.cidr, cidr);
    }
  }

  /** The second dedup loop, on top of a list that holds no sniffed subnet yet. */
  method MergeSniffed(known: seq<Entry>, sniffed: seq<(string, Cidr)>) returns (subnets: seq<Entry>)
    requires forall i :: 0 <= i < |known| ==> !known[i].source.Arp?
    requires forall i :: 0 <= i < |sniffed| ==> sniffed[i].1.prefix <= 32
    ensures ArpIsolated(subnets)
    ensures subnets == known + Kept(known, sniffed)
    ensures forall i :: |known| <= i < |subnets| ==>
              subnets[i].source.Arp? && (subnets[i].iface, subnets[i].cidr) in sniffed
    ensures forall k :: 0 <= k < |sniffed| ==> AlreadyKnown(subnets, sniffed[k].1)
  {
    hide ArpIsolated, AlreadyKnown;
    assert ArpIsolated(known) by { NoneSniffed(known); }
    subnets := known;
    for k := 0 to |sniffed|
      invariant subnets == known + Kept(known, sniffed[..k])
      invariant ArpIsolated(subnets)
      invariant forall c :: c in sniffed[..k] ==> AlreadyKnown(subnets, c.1)
      invariant forall i :: |known| <= i < |subnets| ==>
                  subnets[i].source.Arp? && (subnets[i].iface, subnets[i].cidr) in sniffed
    {
      var (iface, cidr) := sniffed[k];
      if !AlreadyKnown(subnets, cidr) {
        var e := Entry(iface, cidr, Arp);
        StaysIsolated(subnets, e);
        KnownGrows(subnets, e, sniffed[..k]);
        subnets := subnets + [e];
      }
      assert AlreadyKnown(subnets, cidr);
      assert sniffed[..k + 1] == sniffed[..k] + [sniffed[k]];
      assert sniffed[..k + 1][..k] == sniffed[..k];
    }
    assert sniffed[..|sniffed|] == sniffed;
  }

  /**
   The detected list: the address subnets, the uncovered routes, then sniffed
   subnets that overlap nothing already there. Whatever was sniffed is in the
   list or overlapped by it.
   */
  method AutoDetectSubnets(
      addrs: seq<Entry>, routes: seq<(Entry, nat)>, sniffed: seq<(string, Cidr)>)
    returns (subnets: seq<Entry>)
    requires forall i :: 0 <= i < |addrs| ==> addrs[i].source.Addr?
    requires forall i :: 0 <= i < |routes| ==> routes[i].0.source.Route?
    requires forall i :: 0 <= i < |sniffed| ==> sniffed[i].1.prefix <= 32
    ensures ArpIsolated(subnets)
    ensures var known := addrs + NewRoutes(addrs, routes); subnets == known + Kept(known, sniffed)
    ensures forall i :: |addrs + NewRoutes(addrs, routes)| <= i < |subnets| ==>
              subnets[i].source.Arp? && (subnets[i].iface, subnets[i].cidr) in sniffed
    ensures forall k :: 0 <= k < |sniffed| ==> AlreadyKnown(subnets, sniffed[k].1)
  {
    var known := MergeRoutes(addrs, routes);
    NewRoutesAreRoutes(addrs, routes);
    subnets := MergeSniffed(known, sniffed);
  }

  lemma {:induction false} NewRoutesAreRoutes(addrs: seq<Entry>, routes: seq<(Entry, nat)>)
    requires forall i :: 0 <= i < |routes| ==> routes[i].0.source.Route?
    ensures forall e :: e in NewRoutes(addrs, routes) ==> e.source.Route?
  {
    if routes != [] { NewRoutesAreRoutes(addrs, routes[..|routes| - 1]); }
  }

  lemma NoneSniffed(subnets: seq<Entry>)
    requires forall i :: 0 <= i < |subnets| ==> !subnets[i].source.Arp?
    ensures ArpIsolated(subnets)
  {
  }

  lemma KnownGrows(subnets: seq<Entry>, e: Entry, seen: seq<(string, Cidr)>)
    requires e.cidr.prefix <= 32
    requires forall c :: c in seen ==> AlreadyKnown(subnets, c.1)
    ensures forall c :: c in seen ==> AlreadyKnown(subnets + [e], c.1)
    ensures AlreadyKnown(subnets + [e], e.cidr)
  {
    forall c | c in seen ensures AlreadyKnown(subnets + [e], c.1) {
      var i :| 0 <= i < |subnets| && CidrOverlaps(subnets[i].cidr, c.1);
      assert (subnets + [e])[i] == subnets[i];
    }
    assert CidrOverlaps((subnets + [e])[|subnets|].cidr, e.cidr);
  }

  lemma StaysIsolated(subnets: seq<Entry>, e: Entry)
    requires ArpIsolated(subnets) && !AlreadyKnown(subnets, e.cidr)
    ensures ArpIsolated(subnets + [e])
  {
    forall i | 0 <= i < |subnets|
      ensures Disjoint(subnets[i].cidr, e.cidr) && Disjoint(e.cidr, subnets[i].cidr)
    {
      NoOverlapIsDisjoint(subnets[i].cidr, e.cidr);
    }
  }
}
