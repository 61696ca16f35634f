/** How the region scan classifies a subnet: by its route table, and by whether that table covers every instance of the
    VPC. Addresses are 32-bit numbers; a CIDR block is an address and a prefix length (section 3.1 of RFC 4632). */
module Routing {
  import opened Options

  datatype Ip = V4(bits: nat) | NotAnIp(text: string)

  /** The destination of a route as text: exactly "0.0.0.0/0", another parseable block, or text that does not parse. */
  datatype Block = Internet | Cidr(address: nat, length: nat) | Unparseable(text: string)

  datatype Route = Route(active: bool, destination: Option<Block>, instance: Option<string>, gateway: Option<string>)

  datatype Association = Association(main: bool, subnet: Option<string>)

  datatype Table = Table(id: string, associations: seq<Association>, routes: seq<Route>)

  datatype Class = Private | Public | Nat | Gateway | Occluded

  datatype Result = Routed(routing: Class) | BadCidr

  function Pow2(n: nat): (r: nat)
    ensures r > 0
  {
    if n == 0 then 1 else 2 * Pow2(n - 1)
  }

  /** The address has the block's prefix. */
  predicate Contains(b: Block, ip: Ip) {
    b.Cidr? && ip.V4? && b.length <= 32 &&
    ip.bits / Pow2(32 - b.length) == b.address / Pow2(32 - b.length)
  }

  predicate Reaches(blocks: set<Block>, ip: Ip) {
    exists b | b in blocks :: Contains(b, ip)
  }

  // The specification

  predicate IsMain(t: Table) {
    exists a | a in t.associations :: a.main
  }

  predicate IsFor(t: Table, subnet: string) {
    exists a | a in t.associations :: a.subnet == Some(subnet)
  }

  function LastMain(tables: seq<Table>): Option<Table> {
    if tables == [] then None
    else if IsMain(tables[|tables| - 1]) then Some(tables[|tables| - 1])
    else LastMain(tables[..|tables| - 1])
  }

  function LastFor(tables: seq<Table>, subnet: string): Option<Table> {
    if tables == [] then None
    else if IsFor(tables[|tables| - 1], subnet) then Some(tables[|tables| - 1])
    else LastFor(tables[..|tables| - 1], subnet)
  }

  /** The subnet's own table, else the main one. */
  function Chosen(tables: seq<Table>, subnet: string): Option<Table> {
    if LastFor(tables, subnet).Some? then LastFor(tables, subnet) else LastMain(tables)
  }

  predicate IsDefault(r: Route) {
    r.active && r.destination == Some(Internet)
  }

  predicate IsLocal(r: Route) {
    r.active && r.destination.Some? && r.destination.value != Internet
  }

  function LastDefault(routes: seq<Route>): Option<Route> {
    if routes == [] then None
    else if IsDefault(routes[|routes| - 1]) then Some(routes[|routes| - 1])
    else LastDefault(routes[..|routes| - 1])
  }

  function Blocks(routes: seq<Route>): set<Block> {
    set r | r in routes && IsLocal(r) :: r.destination.value
  }

  /** The instance addresses that some block contains. */
  function Covered(blocks: set<Block>, ips: seq<Ip>): set<Ip> {
    set ip | ip in ips && Reaches(blocks, ip)
  }

  function ClassOf(routes: seq<Route>, ips: seq<Ip>, gateways: seq<string>): Result {
    match LastDefault(routes)
    case None => Routed(Private)
    case Some(route) =>
      if exists b | b in Blocks(routes) :: b.Unparseable? then BadCidr
      else if |Covered(Blocks(routes), ips)| < |ips| then Routed(Occluded)
      else if route.instance.Some? then Routed(Nat)
      else if route.gateway.Some? then Routed(if route.gateway.value in gateways then Public else Gateway)
      else Routed(Occluded)
  }

  function SubnetRouting(subnet: string, tables: seq<Table>, ips: seq<Ip>, gateways: seq<string>): Result {
    match Chosen(tables, subnet)
    case None => Routed(Private)
    case Some(t) => ClassOf(t.routes, ips, gateways)
  }

  // What a block contains

  /** The number of addresses in a block, by prefix length. */
  const SIZES: seq<nat> := [
    4294967296, 2147483648, 1073741824, 536870912, 268435456, 134217728, 67108864, 33554432,
    16777216, 8388608, 4194304, 2097152, 1048576, 524288, 262144, 131072,
    65536, 32768, 16384, 8192, 4096, 2048, 1024, 512, 256, 128, 64, 32, 16, 8, 4, 2, 1]

  /** The address lies in the range of the block: from the block's address rounded down to a multiple of its size, as
      many addresses as its size. */
  predicate InRange(b: Block, ip: Ip) {
    b.Cidr? && ip.V4? && b.length < |SIZES| &&
    var first := b.address - b.address % SIZES[b.length];
    first <= ip.bits < first + SIZES[b.length]
  }

  lemma {:induction false} SizesArePowers(n: nat)
    requires n <= 32
    ensures Pow2(32 - n) == SIZES[n]
    decreases 32 - n
  {
    SizesHalve();
    hide SIZES;
    if n == 32 {
    } else {
      SizesArePowers(n + 1);
      assert Pow2(32 - n) == 2 * Pow2(32 - (n + 1));
    }
  }

  lemma SizesHalve()
    ensures |SIZES| == 33 && SIZES[32] == 1
    ensures forall n | 0 <= n < 32 :: SIZES[n] == 2 * SIZES[n + 1]
  {
  }

  lemma SameQuotient(x: nat, a: nat, size: nat)
    requires size > 0
    ensures x / size == a / size <==> a - a % size <= x < a - a % size + size
  {
    var first, q := a - a % size, a / size;
    assert a == q * size + a % size;
    assert first == q * size;
    if first <= x < first + size {
      assert x == q * size + (x - first);
      QuotientIs(x, q, x - first, size);
    } else {
      assert x == (x / size) * size + x % size;
    }
  }

  lemma QuotientIs(x: nat, q: nat, r: nat, size: nat)
    requires size > 0 && r < size && x == q * size + r
    ensures x / size == q
  {
    var d := x / size - q;
    assert x == (x / size) * size + x % size;
    assert d * size == r - x % size;
    assert d >= 1 ==> d * size >= size;
    assert d <= -1 ==> d * size <= -1 * size;
  }

  /** A block contains exactly the addresses in its range. */
  lemma ContainsExactly(b: Block, ip: Ip)
    ensures Contains(b, ip) <==> InRange(b, ip)
  {
    if b.Cidr? && ip.V4? && b.length <= 32 {
      SizesArePowers(b.length);
      SameQuotient(ip.bits, b.address, SIZES[b.length]);
    }
  }

  lemma ContainsSomewhere(blocks: set<Block>, ip: Ip)
    ensures Reaches(blocks, ip) <==> exists b | b in blocks :: InRange(b, ip)
  {
    if b :| b in blocks && Contains(b, ip) {
      ContainsExactly(b, ip);
    }
    if b :| b in blocks && InRange(b, ip) {
      ContainsExactly(b, ip);
    }
  }

  /** A block of length 0 contains every address, one of length 32 only its own, and a shorter prefix everything that a
      longer one does. */
  lemma PrefixesNest(a: nat, m: nat, n: nat, x: nat)
    requires a < 4294967296 && x < 4294967296 && m <= n <= 32
    ensures Contains(Cidr(a, 0), V4(x))
    ensures Contains(Cidr(a, 32), V4(x)) <==> x == a
    ensures Contains(Cidr(a, n), V4(x)) ==> Contains(Cidr(a, m), V4(x))
  {
    ContainsExactly(Cidr(a, 0), V4(x));
    ContainsExactly(Cidr(a, 32), V4(x));
    if Contains(Cidr(a, n), V4(x)) {
      ShorterContains(a, m, n, x);
    }
  }

  lemma {:induction false} ShorterContains(a: nat, m: nat, n: nat, x: nat)
    requires m <= n <= 32 && Contains(Cidr(a, n), V4(x))
    ensures Contains(Cidr(a, m), V4(x))
    decreases n - m
  {
    if m == n {
    } else {
      ShorterContains(a, m + 1, n, x);
      var half := Pow2(32 - (m + 1));
      assert Pow2(32 - m) == 2 * half;
      HalfQuotient(a, half);
      HalfQuotient(x, half);
    }
  }

  lemma HalfQuotient(a: nat, size: nat)
    requires size > 0
    ensures a / (2 * size) == (a / size) / 2
  {
    var q := a / size;
    assert a == q * size + a % size;
    var r := (q % 2) * size + a % size;
    assert q == 2 * (q / 2) + q % 2;
    assert a == (q / 2) * (2 * size) + r by {
      assert q * size == (2 * (q / 2)) * size + (q % 2) * size;
    }
    assert r < 2 * size by {
      if q % 2 == 0 {
        assert r == a % size;
      } else {
        assert r == size + a % size;
      }
    }
    QuotientIs(a, q / 2, r, 2 * size);
  }

  // The scan's loops

  method DetermineRouting(subnet: string, tables: seq<Table>, ips: seq<Ip>, gateways: seq<string>)
    returns (r: Result)
    ensures r == SubnetRouting(subnet, tables, ips, gateways)
  {
    var associated, main: Option<Table> := None, None;
    for i := 0 to |tables|
      invariant associated == LastFor(tables[..i], subnet) && main == LastMain(tables[..i])
    {
      var t := tables[i];
      ghost var associated0, main0 := associated, main;
      for j := 0 to |t.associations|
        invariant main == if exists a | a in t.associations[..j] :: a.main then Some(t) else main0
        invariant associated ==
                  if exists a | a in t.associations[..j] :: a.subnet == Some(subnet) then Some(t) else associated0
      {
        var a := t.associations[j];
        assert t.associations[..j + 1] == t.associations[..j] + [a];
        if a.main {
          main := Some(t);
        }
        if a.subnet.Some? && a.subnet.value == subnet {
          associated := Some(t);
        }
      }
      assert t.associations[..|t.associations|] == t.associations;
      assert tables[..i + 1][..i] == tables[..i];
    }
    assert tables[..|tables|] == tables;
    if associated.None? {
      associated := main;
    }
    if associated.None? {
      return Routed(Private);
    }
    r := ClassifyTable(associated.value.routes, ips, gateways);
  }

  method ClassifyTable(routes: seq<Route>, ips: seq<Ip>, gateways: seq<string>) returns (r: Result)
    ensures r == ClassOf(routes, ips, gateways)
  {
    var internetRoute: Option<Route> := None;
    var cidrs: seq<Block> := [];
    for i := 0 to |routes|
      invariant internetRoute == LastDefault(routes[..i])
      invariant forall b :: b in cidrs <==> b in Blocks(routes[..i])
    {
      var route := routes[i];
      assert routes[..i + 1] == routes[..i] + [route] && routes[..i + 1][..i] == routes[..i];
      if !route.active {
        continue;
      }
      if route.destination.None? {
        continue;
      }
      if route.destination.value == Internet {
        internetRoute := Some(route);
        continue;
      }
      cidrs := cidrs + [route.destination.value];
    }
    assert routes[..|routes|] == routes;
    if internetRoute.None? {
      return Routed(Private);
    }
    var bad, routeToIPs := Reach(cidrs, ips);
    if bad {
      return BadCidr;
    }
    forall ip | ip in ips
      ensures ip in routeToIPs <==> ip in Covered(Blocks(routes), ips)
    {
      ContainsSomewhere(Blocks(routes), ip);
    }
    assert routeToIPs == Covered(Blocks(routes), ips);
    if |routeToIPs| < |ips| {
      return Routed(Occluded);
    }
    if internetRoute.value.instance.Some? {
      return Routed(Nat);
    }
    if internetRoute.value.gateway.Some? {
      for i := 0 to |gateways|
        invariant internetRoute.value.gateway.value !in gateways[..i]
      {
        if internetRoute.value.gateway.value == gateways[i] {
          return Routed(Public);
        }
      }
      assert gateways[..|gateways|] == gateways;
      return Routed(Gateway);
    }
    return Routed(Occluded);
  }

  /** The addresses inside some block; stops at a block that does not parse. */
  method Reach(cidrs: seq<Block>, ips: seq<Ip>) returns (bad: bool, reached: set<Ip>)
    ensures bad <==> exists b | b in cidrs :: b.Unparseable?
    ensures !bad ==> forall ip :: ip in reached <==> ip in ips && exists b | b in cidrs :: InRange(b, ip)
  {
    bad, reached := false, {};
    for i := 0 to |cidrs|
      invariant forall b | b in cidrs[..i] :: !b.Unparseable?
      invariant reached == Covered((set b | b in cidrs[..i]), ips)
    {
      var cidr := cidrs[i];
      assert cidrs[..i + 1] == cidrs[..i] + [cidr];
      if cidr.Unparseable? {
        assert cidr in cidrs;
        return true, {};
      }
      ghost var before := reached;
      for j := 0 to |ips|
        invariant reached == before + set ip | ip in ips[..j] && Contains(cidr, ip)
      {
        assert ips[..j + 1] == ips[..j] + [ips[j]];
        if Contains(cidr, ips[j]) {
          reached := reached + {ips[j]};
        }
      }
      assert ips[..|ips|] == ips;
    }
    assert cidrs[..|cidrs|] == cidrs;
    forall ip
      ensures ip in reached <==> ip in ips && exists b | b in cidrs :: InRange(b, ip)
    {
      ContainsSomewhere((set b | b in cidrs), ip);
    }
  }

  // Occlusion

  ghost predicate Distinct(ips: seq<Ip>) {
    forall i, j | 0 <= i < j < |ips| :: ips[i] != ips[j]
  }

  lemma DistinctSnoc(front: seq<Ip>, last: Ip)
    ensures Distinct(front + [last]) <==> Distinct(front) && last !in front
  {
    var ips := front + [last];
    assert forall i | 0 <= i < |front| :: ips[i] == front[i];
    assert ips[|front|] == last;
  }

  lemma CoveredSnoc(blocks: set<Block>, front: seq<Ip>, last: Ip)
    ensures Covered(blocks, front + [last]) == Covered(blocks, front) + if Reaches(blocks, last) then {last} else {}
    ensures last in Covered(blocks, front) <==> last in front && Reaches(blocks, last)
  {
    hide Reaches;
  }

  lemma {:induction false} CoveredCount(blocks: set<Block>, ips: seq<Ip>)
    ensures |Covered(blocks, ips)| <= |ips|
    ensures |Covered(blocks, ips)| == |ips| <==> Distinct(ips) && forall ip | ip in ips :: Reaches(blocks, ip)
  {
    hide Reaches;
    if ips == [] {
      assert Covered(blocks, ips) == {};
    } else {
      var front, last := ips[..|ips| - 1], ips[|ips| - 1];
      CoveredCount(blocks, front);
      hide Distinct, Covered;
      assert ips == front + [last];
      DistinctSnoc(front, last);
      CoveredSnoc(blocks, front, last);
    }
  }

  /** The `d`-th route is the active default route, the last one if there are several. */
  ghost predicate DefaultAt(routes: seq<Route>, d: nat)
    requires d < |routes|
  {
    routes[d].active && routes[d].destination == Some(Internet) &&
    forall k | d < k < |routes| :: !(routes[k].active && routes[k].destination == Some(Internet))
  }

  lemma {:induction false} LastDefaultAt(routes: seq<Route>, d: nat)
    requires d < |routes| && DefaultAt(routes, d)
    ensures LastDefault(routes) == Some(routes[d])
  {
    if d == |routes| - 1 {
    } else {
      assert !IsDefault(routes[|routes| - 1]);
      LastDefaultAt(routes[..|routes| - 1], d);
    }
  }

  /** An address that the subnet's table can reach: it lies in the range of an active route's block. */
  ghost predicate Routable(routes: seq<Route>, ip: Ip) {
    exists r | r in routes :: r.active && r.destination.Some? && InRange(r.destination.value, ip)
  }

  lemma RoutableExactly(routes: seq<Route>, ip: Ip)
    ensures Reaches(Blocks(routes), ip) <==> Routable(routes, ip)
  {
    if b :| b in Blocks(routes) && Contains(b, ip) {
      ContainsExactly(b, ip);
      var r :| r in routes && IsLocal(r) && r.destination.value == b;
    }
    if r :| r in routes && r.active && r.destination.Some? && InRange(r.destination.value, ip) {
      ContainsExactly(r.destination.value, ip);
      assert r.destination.value in Blocks(routes);
    }
  }

  /** With a default route and parseable blocks, the occlusion test passes if and only if the instance addresses are
      distinct and each lies in the range of an active block; a subnet that fails it is occluded. */
  lemma OcclusionTest(routes: seq<Route>, d: nat, ips: seq<Ip>, gateways: seq<string>)
    requires d < |routes| && DefaultAt(routes, d)
    requires forall r | r in routes && r.active && r.destination.Some? :: !r.destination.value.Unparseable?
    ensures var reachable := Distinct(ips) && forall ip | ip in ips :: Routable(routes, ip);
            ClassOf(routes, ips, gateways) == Routed(
              if !reachable then Occluded
              else if routes[d].instance.Some? then Nat
              else if routes[d].gateway.None? then Occluded
              else if routes[d].gateway.value in gateways then Public
              else Gateway)
  {
    LastDefaultAt(routes, d);
    CoveredCount(Blocks(routes), ips);
    forall ip | ip in ips
      ensures Reaches(Blocks(routes), ip) <==> Routable(routes, ip)
    {
      RoutableExactly(routes, ip);
    }
    hide Reaches, Routable, Covered, Distinct;
  }

  /** An instance 10.1.2.3 behind a local route to 10.0.0.0/8 and a default route to an internet gateway is public. */
  lemma PublicSubnet()
    ensures ClassOf([Route(true, Some(Cidr(167772160, 8)), None, Some("local")),
                     Route(true, Some(Internet), None, Some("igw"))],
                    [V4(167838211)], ["igw"]) == Routed(Public)
  {
    var local, out := Route(true, Some(Cidr(167772160, 8)), None, Some("local")),
                      Route(true, Some(Internet), None, Some("igw"));
    var routes := [local, out];
    assert local in routes && InRange(Cidr(167772160, 8), V4(167838211));
    assert Routable(routes, V4(167838211));
    OcclusionTest(routes, 1, [V4(167838211)], ["igw"]);
  }

  lemma {:induction false} NoDefault(routes: seq<Route>)
    ensures LastDefault(routes).None? <==> forall r | r in routes :: !IsDefault(r)
  {
    if routes == [] {
    } else {
      var front, last := routes[..|routes| - 1], routes[|routes| - 1];
      NoDefault(front);
      assert routes == front + [last];
      assert last in routes;
    }
  }

  /** A table makes the subnet private exactly when it has no active default route, whatever else is wrong with it; and
      the scan fails exactly when there is a default route and some other active block does not parse. */
  lemma PrivateExactly(routes: seq<Route>, ips: seq<Ip>, gateways: seq<string>)
    ensures ClassOf(routes, ips, gateways) == Routed(Private) <==>
            forall r | r in routes :: !(r.active && r.destination == Some(Internet))
    ensures ClassOf(routes, ips, gateways) == BadCidr <==>
            (exists r | r in routes :: r.active && r.destination == Some(Internet)) &&
            exists r | r in routes :: r.active && r.destination.Some? && r.destination.value.Unparseable?
  {
    NoDefault(routes);
    if r :| r in routes && IsLocal(r) && r.destination.value.Unparseable? {
      assert r.destination.value in Blocks(routes);
    }
  }

  // More routes

  lemma {:induction false} LastDefaultConcat(a: seq<Route>, b: seq<Route>)
    ensures LastDefault(a + b) == if LastDefault(b).Some? then LastDefault(b) else LastDefault(a)
  {
    if b == [] {
      assert a + b == a;
    } else {
      LastDefaultConcat(a, b[..|b| - 1]);
      assert (a + b)[..|a + b| - 1] == a + b[..|b| - 1];
    }
  }

  /** Adding an active, well-formed, non-default route anywhere in the table never occludes a subnet: unless it was
      occluded before, its class does not change at all. */
  lemma AddingRouteNeverOccludes(a: seq<Route>, r: Route, b: seq<Route>, ips: seq<Ip>, gateways: seq<string>)
    requires r.active && r.destination.Some? && r.destination.value.Cidr?
    requires ClassOf(a + b, ips, gateways) != Routed(Occluded)
    ensures ClassOf(a + [r] + b, ips, gateways) == ClassOf(a + b, ips, gateways)
  {
    var before, after := a + b, a + [r] + b;
    LastDefaultConcat(a, b);
    LastDefaultConcat(a + [r], b);
    LastDefaultConcat(a, [r]);
    assert [r][..0] == [];
    assert forall x :: x in after <==> x in before || x == r;
    assert Blocks(after) == Blocks(before) + {r.destination.value};
    CoveredGrows(Blocks(before), Blocks(after), ips);
    CoveredCount(Blocks(before), ips);
    CoveredCount(Blocks(after), ips);
  }

  lemma CoveredGrows(blocks: set<Block>, more: set<Block>, ips: seq<Ip>)
    requires blocks <= more
    ensures |Covered(blocks, ips)| <= |Covered(more, ips)|
  {
    SubsetSize(Covered(blocks, ips), Covered(more, ips));
  }

  lemma {:induction false} SubsetSize(a: set<Ip>, b: set<Ip>)
    requires a <= b
    ensures |a| <= |b|
  {
    if a == {} {
    } else {
      var x :| x in a;
      SubsetSize(a - {x}, b - {x});
    }
  }

  // Order

  ghost predicate AtMostOne<T>(s: seq<T>, p: T -> bool) {
    forall i, j | 0 <= i < j < |s| :: !(p(s[i]) && p(s[j]))
  }

  ghost predicate AtMostOneMain(tables: seq<Table>) {
    AtMostOne(tables, t => IsMain(t))
  }

  ghost predicate AtMostOneFor(tables: seq<Table>, subnet: string) {
    AtMostOne(tables, t => IsFor(t, subnet))
  }

  ghost predicate AtMostOneDefault(routes: seq<Route>) {
    AtMostOne(routes, r => IsDefault(r))
  }

  lemma {:induction false} Occurs<T>(s: seq<T>, x: T) returns (i: nat)
    requires multiset(s)[x] >= 1
    ensures i < |s| && s[i] == x && multiset(s)[x] == multiset(s[..i] + s[i + 1..])[x] + 1
  {
    assert x in multiset(s);
    i :| 0 <= i < |s| && s[i] == x;
    assert s == s[..i] + [s[i]] + s[i + 1..];
  }

  lemma TwiceInSequence<T>(s: seq<T>, x: T) returns (i: nat, j: nat)
    requires multiset(s)[x] >= 2
    ensures i < j < |s| && s[i] == x && s[j] == x
  {
    i := Occurs(s, x);
    var rest := s[..i] + s[i + 1..];
    j := Occurs(rest, x);
    if j < i {
      i, j := j, i;
    } else {
      j := j + 1;
    }
  }

  lemma OccursTwice<T>(s: seq<T>, i: nat, j: nat)
    requires i < j < |s| && s[i] == s[j]
    ensures multiset(s)[s[i]] >= 2
  {
    assert s == s[..i] + [s[i]] + s[i + 1..j] + [s[j]] + s[j + 1..];
  }

  lemma AtMostOneInAnyOrder<T>(a: seq<T>, b: seq<T>, p: T -> bool)
    requires multiset(a) == multiset(b) && AtMostOne(a, p)
    ensures AtMostOne(b, p)
  {
    SameElements(a, b);
    forall i, j | 0 <= i < j < |b|
      ensures !(p(b[i]) && p(b[j]))
    {
      assert b[i] in b && b[j] in b;
      if b[i] == b[j] {
        OccursTwice(b, i, j);
        var k, l := TwiceInSequence(a, b[i]);
      } else {
        var k :| 0 <= k < |a| && a[k] == b[i];
        var l :| 0 <= l < |a| && a[l] == b[j];
        assert !(p(a[k]) && p(a[l])) by {
          if k < l {
          } else {
            assert l < k;
          }
        }
      }
    }
  }

  lemma {:induction false} LastMainExactly(tables: seq<Table>, t: Table)
    requires AtMostOneMain(tables)
    ensures LastMain(tables) == Some(t) <==> t in tables && IsMain(t)
  {
    if tables == [] {
    } else {
      LastMainExactly(tables[..|tables| - 1], t);
      assert tables == tables[..|tables| - 1] + [tables[|tables| - 1]];
    }
  }

  lemma {:induction false} LastForExactly(tables: seq<Table>, subnet: string, t: Table)
    requires AtMostOneFor(tables, subnet)
    ensures LastFor(tables, subnet) == Some(t) <==> t in tables && IsFor(t, subnet)
  {
    if tables == [] {
    } else {
      LastForExactly(tables[..|tables| - 1], subnet, t);
      assert tables == tables[..|tables| - 1] + [tables[|tables| - 1]];
    }
  }

  lemma {:induction false} LastDefaultExactly(routes: seq<Route>, r: Route)
    requires AtMostOneDefault(routes)
    ensures LastDefault(routes) == Some(r) <==> r in routes && IsDefault(r)
  {
    if routes == [] {
    } else {
      LastDefaultExactly(routes[..|routes| - 1], r);
      assert routes == routes[..|routes| - 1] + [routes[|routes| - 1]];
    }
  }

  /** With at most one main table and one for the subnet: the subnet's own table is chosen, and the main one exactly
      when the subnet has none. */
  lemma ChosenExactly(tables: seq<Table>, subnet: string, t: Table)
    requires AtMostOneMain(tables) && AtMostOneFor(tables, subnet)
    ensures Chosen(tables, subnet) == Some(t) <==>
            t in tables && (IsFor(t, subnet) || (IsMain(t) && forall u | u in tables :: !IsFor(u, subnet)))
  {
    LastMainExactly(tables, t);
    LastForExactly(tables, subnet, t);
    if LastFor(tables, subnet).Some? {
      LastForExactly(tables, subnet, LastFor(tables, subnet).value);
    } else {
      forall u | u in tables
        ensures !IsFor(u, subnet)
      {
        LastForExactly(tables, subnet, u);
      }
    }
  }

  predicate Associates(t: Table, subnet: string) {
    exists a | a in t.associations :: a.subnet == Some(subnet)
  }

  predicate AssociatesMain(t: Table) {
    exists a | a in t.associations :: a.main
  }

  /** The last table associated with the subnet is chosen; without one, the last main table; without either, none. */
  lemma ChosenIsLast(tables: seq<Table>, subnet: string, i: nat)
    requires i < |tables|
    ensures Associates(tables[i], subnet) && (forall k | i < k < |tables| :: !Associates(tables[k], subnet)) ==>
              Chosen(tables, subnet) == Some(tables[i])
    ensures (forall t | t in tables :: !Associates(t, subnet)) && AssociatesMain(tables[i])
            && (forall k | i < k < |tables| :: !AssociatesMain(tables[k])) ==>
              Chosen(tables, subnet) == Some(tables[i])
    ensures (forall t | t in tables :: !Associates(t, subnet) && !AssociatesMain(t)) ==> Chosen(tables, subnet) == None
  {
    if Associates(tables[i], subnet) && forall k | i < k < |tables| :: !Associates(tables[k], subnet) {
      LastForAt(tables, subnet, i);
    }
    if AssociatesMain(tables[i]) && forall k | i < k < |tables| :: !AssociatesMain(tables[k]) {
      LastMainAt(tables, i);
    }
    NoneFor(tables, subnet);
  }

  lemma {:induction false} LastForAt(tables: seq<Table>, subnet: string, i: nat)
    requires i < |tables| && Associates(tables[i], subnet)
    requires forall k | i < k < |tables| :: !Associates(tables[k], subnet)
    ensures LastFor(tables, subnet) == Some(tables[i])
  {
    if i == |tables| - 1 {
    } else {
      assert !Associates(tables[|tables| - 1], subnet);
      LastForAt(tables[..|tables| - 1], subnet, i);
    }
  }

  lemma {:induction false} LastMainAt(tables: seq<Table>, i: nat)
    requires i < |tables| && AssociatesMain(tables[i])
    requires forall k | i < k < |tables| :: !AssociatesMain(tables[k])
    ensures LastMain(tables) == Some(tables[i])
  {
    if i == |tables| - 1 {
    } else {
      assert !AssociatesMain(tables[|tables| - 1]);
      LastMainAt(tables[..|tables| - 1], i);
    }
  }

  lemma {:induction false} NoneFor(tables: seq<Table>, subnet: string)
    ensures (forall t | t in tables :: !Associates(t, subnet)) ==> LastFor(tables, subnet) == None
    ensures (forall t | t in tables :: !AssociatesMain(t)) ==> LastMain(tables) == None
  {
    if tables == [] {
    } else {
      NoneFor(tables[..|tables| - 1], subnet);
      assert tables[|tables| - 1] in tables;
    }
  }

  lemma SameElements<T>(a: seq<T>, b: seq<T>)
    requires multiset(a) == multiset(b)
    ensures |a| == |b| && forall x :: x in a <==> x in b
  {
    assert |a| == |multiset(a)| && |b| == |multiset(b)|;
    assert forall x :: x in a <==> x in multiset(a);
    assert forall x :: x in b <==> x in multiset(b);
  }

  /** With at most one main table and one table for the subnet, the order of the tables does not matter. */
  lemma TableOrderDoesNotMatter(tables: seq<Table>, tables': seq<Table>, subnet: string)
    requires multiset(tables) == multiset(tables')
    requires AtMostOneMain(tables) && AtMostOneFor(tables, subnet)
    ensures Chosen(tables, subnet) == Chosen(tables', subnet)
  {
    AtMostOneInAnyOrder(tables, tables', t => IsMain(t));
    AtMostOneInAnyOrder(tables, tables', t => IsFor(t, subnet));
    SameElements(tables, tables');
    if LastMain(tables).Some? {
      LastMainExactly(tables, LastMain(tables).value);
      LastMainExactly(tables', LastMain(tables).value);
    } else if LastMain(tables').Some? {
      LastMainExactly(tables, LastMain(tables').value);
      LastMainExactly(tables', LastMain(tables').value);
    }
    if LastFor(tables, subnet).Some? {
      LastForExactly(tables, subnet, LastFor(tables, subnet).value);
      LastForExactly(tables', subnet, LastFor(tables, subnet).value);
    } else if LastFor(tables', subnet).Some? {
      LastForExactly(tables, subnet, LastFor(tables', subnet).value);
      LastForExactly(tables', subnet, LastFor(tables', subnet).value);
    }
  }

  /** With at most one active default route, neither does the order of the routes, addresses or gateways. */
  lemma RouteOrderDoesNotMatter(
    routes: seq<Route>, routes': seq<Route>, ips: seq<Ip>, ips': seq<Ip>, gateways: seq<string>, gateways': seq<string>)
    requires multiset(routes) == multiset(routes') && AtMostOneDefault(routes)
    requires multiset(ips) == multiset(ips') && multiset(gateways) == multiset(gateways')
    ensures ClassOf(routes, ips, gateways) == ClassOf(routes', ips', gateways')
  {
    AtMostOneInAnyOrder(routes, routes', r => IsDefault(r));
    SameElements(routes, routes');
    SameElements(ips, ips');
    SameElements(gateways, gateways');
    if LastDefault(routes).Some? {
      LastDefaultExactly(routes, LastDefault(routes).value);
      LastDefaultExactly(routes', LastDefault(routes).value);
    } else if LastDefault(routes').Some? {
      LastDefaultExactly(routes, LastDefault(routes').value);
      LastDefaultExactly(routes', LastDefault(routes').value);
    }
    assert Blocks(routes) == Blocks(routes');
    assert Covered(Blocks(routes), ips) == Covered(Blocks(routes'), ips');
  }

  /** The class of a subnet does not depend on the order of tables, routes, addresses and gateways: reordering the
      routes of each table and then everything else leaves it as it was. */
  lemma OrderDoesNotMatter(
    subnet: string, tables: seq<Table>, reordered: seq<Table>, tables': seq<Table>,
    ips: seq<Ip>, ips': seq<Ip>, gateways: seq<string>, gateways': seq<string>)
    requires |reordered| == |tables| && multiset(reordered) == multiset(tables')
    requires forall i | 0 <= i < |tables| ::
               reordered[i] == tables[i].(routes := reordered[i].routes) &&
               multiset(reordered[i].routes) == multiset(tables[i].routes) &&
               AtMostOneDefault(tables[i].routes)
    requires multiset(ips) == multiset(ips') && multiset(gateways) == multiset(gateways')
    requires AtMostOneMain(tables) && AtMostOneFor(tables, subnet)
    ensures SubnetRouting(subnet, tables, ips, gateways) == SubnetRouting(subnet, tables', ips', gateways')
  {
    assert AtMostOneMain(reordered) && AtMostOneFor(reordered, subnet) by {
      assert forall i | 0 <= i < |tables| :: IsMain(reordered[i]) == IsMain(tables[i]);
      assert forall i | 0 <= i < |tables| :: IsFor(reordered[i], subnet) == IsFor(tables[i], subnet);
    }
    TableOrderDoesNotMatter(reordered, tables', subnet);
    var i := ChosenPosition(tables, reordered, subnet);
    if Chosen(tables, subnet).Some? {
      RouteOrderDoesNotMatter(tables[i].routes, reordered[i].routes, ips, ips', gateways, gateways');
    }
  }

  /** Tables with the same associations are chosen at the same place. */
  lemma ChosenPosition(tables: seq<Table>, reordered: seq<Table>, subnet: string) returns (i: nat)
    requires |reordered| == |tables|
    requires forall i | 0 <= i < |tables| :: reordered[i].associations == tables[i].associations
    ensures Chosen(tables, subnet).Some? <==> Chosen(reordered, subnet).Some?
    ensures Chosen(tables, subnet).Some? ==>
              i < |tables| && Chosen(tables, subnet) == Some(tables[i])
              && Chosen(reordered, subnet) == Some(reordered[i])
  {
    var f := LastForPosition(tables, reordered, subnet);
    var m := LastMainPosition(tables, reordered);
    i := if LastFor(tables, subnet).Some? then f else m;
  }

  lemma {:induction false} LastForPosition(tables: seq<Table>, reordered: seq<Table>, subnet: string) returns (i: nat)
    requires |reordered| == |tables|
    requires forall i | 0 <= i < |tables| :: reordered[i].associations == tables[i].associations
    ensures LastFor(tables, subnet).Some? <==> LastFor(reordered, subnet).Some?
    ensures LastFor(tables, subnet).Some? ==> i < |tables| && LastFor(tables, subnet) == Some(tables[i])
                                              && LastFor(reordered, subnet) == Some(reordered[i])
  {
    i := 0;
    if tables == [] {
    } else {
      i := |tables| - 1;
      assert IsFor(reordered[i], subnet) <==> IsFor(tables[i], subnet);
      if !IsFor(tables[i], subnet) {
        i := LastForPosition(tables[..i], reordered[..i], subnet);
      }
    }
  }

  lemma {:induction false} LastMainPosition(tables: seq<Table>, reordered: seq<Table>) returns (i: nat)
    requires |reordered| == |tables|
    requires forall i | 0 <= i < |tables| :: reordered[i].associations == tables[i].associations
    ensures LastMain(tables).Some? <==> LastMain(reordered).Some?
    ensures LastMain(tables).Some? ==> i < |tables| && LastMain(tables) == Some(tables[i])
                                       && LastMain(reordered) == Some(reordered[i])
  {
    i := 0;
    if tables == [] {
    } else {
      i := |tables| - 1;
      assert IsMain(reordered[i]) <==> IsMain(tables[i]);
      if !IsMain(tables[i]) {
        i := LastMainPosition(tables[..i], reordered[..i]);
      }
    }
  }
}
