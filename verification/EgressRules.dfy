/**
Which connections the egress section allows, by the meaning of a NetworkPolicy: a rule with
an empty list of peers or of ports does not restrict that side, and rules add up.
*/
module EgressRules {
  import opened Wrappers
  import opened Text
  import opened Egress

  // ----- connections and what allows them -----

  datatype PodInfo = PodInfo(namespace: string, labels: map<string, string>)

  type Word = n: nat | n < 0x1_0000_0000

  datatype Address = V4(number: Word) | V6(text: string)

  /** A connection to an address, which may be that of a Pod. */
  datatype Connection = Connection(ip: Address, pod: Option<PodInfo>, protocol: Protocol, port: int)

  function Pow2(n: nat): (r: nat)
    ensures r > 0
  {
    if n == 0 then 1 else 2 * Pow2(n - 1)
  }

  /** The blocks are of the fourth version; no address of the sixth is in any. */
  predicate InBlock(ip: Address, c: Cidr) {
    c.bits <= 32 && ip.V4?
    && ip.number / Pow2(32 - c.bits) == (((c.a * 256 + c.b) * 256 + c.c) * 256 + c.d) / Pow2(32 - c.bits)
  }

  predicate Selects(selector: map<string, string>, labels: map<string, string>) {
    forall k | k in selector :: k in labels && labels[k] == selector[k]
  }

  predicate PeerMatches(p: Peer, c: Connection) {
    match p
    case Block(cidr, except) => InBlock(c.ip, cidr) && forall x <- except :: !InBlock(c.ip, x)
    case Pods(ns, selector) =>
      && c.pod.Some? && c.pod.value.namespace == ns
      && (selector.Some? ==> Selects(selector.value, c.pod.value.labels))
  }

  predicate RuleAllows(r: Rule, c: Connection) {
    && (r.to == [] || exists p <- r.to :: PeerMatches(p, c))
    && (r.ports == [] || Port(c.protocol, c.port) in r.ports)
  }

  predicate Allows(rules: seq<Rule>, c: Connection) {
    exists r <- rules :: RuleAllows(r, c)
  }

  // ----- building the rules -----

  const EVERYWHERE: Peer :=
    Block(Cidr(0, 0, 0, 0, 0), [Cidr(10, 0, 0, 0, 8), Cidr(100, 64, 0, 0, 10), Cidr(169, 254, 0, 0, 16),
                                Cidr(172, 16, 0, 0, 12), Cidr(192, 168, 0, 0, 16)])

  const DNS: Rule := Rule([], [Port(UDP, 53), Port(TCP, 53)])

  const BASE: seq<Rule> := [DNS, Rule([EVERYWHERE], [])]

  predicate Usable(port: int) {
    1 <= port <= 65535
  }

  function PortsOf(ports: seq<int>): seq<Port> {
    if ports == [] then []
    else PortsOf(ports[..|ports| - 1])
         + if Usable(ports[|ports| - 1]) then [Port(TCP, ports[|ports| - 1])] else []
  }

  function Translated(e: Exception): Option<Rule> {
    var ns := TrimSpace(e.namespace);
    if ns == "" then None
    else Some(Rule([Pods(ns, if e.podSelector == map[] then None else Some(e.podSelector))], PortsOf(e.ports)))
  }

  method Translate(e: Exception) returns (r: Option<Rule>)
    ensures r == Translated(e)
  {
    var ns := TrimSpace(e.namespace);
    if ns == "" {
      return None;
    }
    var selector := None;
    if |e.podSelector| > 0 {
      selector := Some(e.podSelector);
    }
    var ports := [];
    for i := 0 to |e.ports|
      invariant ports == PortsOf(e.ports[..i])
    {
      assert e.ports[..i + 1][..i] == e.ports[..i];
      if e.ports[i] < 1 || e.ports[i] > 65535 {
        continue;
      }
      ports := ports + [Port(TCP, e.ports[i])];
    }
    assert e.ports[..|e.ports|] == e.ports;
    return Some(Rule([Pods(ns, selector)], ports));
  }

  ghost function Keys(es: seq<Exception>): (keys: seq<string>)
    ensures |keys| == |es| && forall i :: 0 <= i < |es| ==> keys[i] == Key(es[i])
  {
    seq(|es|, i requires 0 <= i < |es| => Key(es[i]))
  }

  ghost predicate Before(keys: seq<string>, n: nat, key: string)
    requires n <= |keys|
  {
    exists i :: 0 <= i < n && keys[i] == key
  }

  /** The rules for the first `n` exceptions, of which later ones with a known key are passed over. */
  ghost function Emitted(es: seq<Exception>, keys: seq<string>, n: nat): seq<Rule>
    requires n <= |es| == |keys|
  {
    if n == 0 then []
    else if Before(keys, n - 1, keys[n - 1]) || Translated(es[n - 1]).None? then Emitted(es, keys, n - 1)
    else Emitted(es, keys, n - 1) + [Translated(es[n - 1]).value]
  }

  /** The first `n` keys. */
  ghost function Seen(keys: seq<string>, n: nat): set<string>
    requires n <= |keys|
  {
    if n == 0 then {} else Seen(keys, n - 1) + {keys[n - 1]}
  }

  lemma {:induction false} SeenMeaning(keys: seq<string>, n: nat, key: string)
    requires n <= |keys|
    ensures key in Seen(keys, n) <==> Before(keys, n, key)
  {
    if n > 0 {
      SeenMeaning(keys, n - 1, key);
    }
  }

  ghost function Policy(es: seq<Exception>): seq<Rule> {
    BASE + Emitted(es, Keys(es), |es|)
  }

  /** The body of the loop over the exceptions. */
  method AppendOne(es: seq<Exception>, i: nat, seen0: set<string>, rules0: seq<Rule>, ghost base: seq<Rule>)
    returns (seen: set<string>, rules: seq<Rule>)
    requires i < |es| && seen0 == Seen(Keys(es), i) && rules0 == base + Emitted(es, Keys(es), i)
    ensures seen == Seen(Keys(es), i + 1) && rules == base + Emitted(es, Keys(es), i + 1)
  {
    var key := RuleKey(es[i]);
    ghost var keys := Keys(es);
    assert key == keys[i];
    SeenMeaning(keys, i, key);
    EmittedNext(es, keys, i, base);
    seen, rules := seen0 + {key}, rules0;
    if key !in seen0 {
      var rule := Translate(es[i]);
      if rule.Some? {
        rules := rules + [rule.value];
      }
    } else {
      assert seen == seen0;
    }
  }

  method AppendExceptions(es: seq<Exception>, base: seq<Rule>) returns (rules: seq<Rule>)
    ensures rules == base + Emitted(es, Keys(es), |es|)
  {
    rules := base;
    var seen: set<string> := {};
    for i := 0 to |es|
      invariant rules == base + Emitted(es, Keys(es), i)
      invariant seen == Seen(Keys(es), i)
    {
      seen, rules := AppendOne(es, i, seen, rules, base);
    }
  }

  lemma EmittedNext(es: seq<Exception>, keys: seq<string>, n: nat, base: seq<Rule>)
    requires n < |es| == |keys|
    ensures base + Emitted(es, keys, n + 1)
            == if Before(keys, n, keys[n]) || Translated(es[n]).None? then base + Emitted(es, keys, n)
               else base + Emitted(es, keys, n) + [Translated(es[n]).value]
  {
  }

  method BuildSharedEgressRules(es: seq<Exception>) returns (rules: seq<Rule>)
    ensures rules == Policy(es)
  {
    rules := AppendExceptions(es, BASE);
  }

  // ----- what is allowed, without keys, rules or lists -----

  predicate OnlyUnusable(ports: seq<int>) {
    forall p <- ports :: !Usable(p)
  }

  /** A configured exception lets the connection through. */
  predicate Grants(e: Exception, c: Connection) {
    && TrimSpace(e.namespace) != ""
    && c.pod.Some? && c.pod.value.namespace == TrimSpace(e.namespace)
    && (forall k | k in e.podSelector :: k in c.pod.value.labels && c.pod.value.labels[k] == e.podSelector[k])
    && ((forall p <- e.ports :: !(1 <= p <= 65535)) || (c.protocol == TCP && c.port in e.ports && 1 <= c.port <= 65535))
  }

  predicate IsDns(c: Connection) {
    c.port == 53 && (c.protocol == UDP || c.protocol == TCP)
  }

  /** Outside 10/8, 100.64/10, 169.254/16, 172.16/12 and 192.168/16, by the first two numbers. */
  predicate Public(ip: Address) {
    ip.V4? &&
    var a, b := ip.number / 0x100_0000, ip.number / 0x1_0000 % 256;
    && a != 10
    && !(a == 100 && 64 <= b < 128)
    && !(a == 169 && b == 254)
    && !(a == 172 && 16 <= b < 32)
    && !(a == 192 && b == 168)
  }

  // ----- proofs -----

  lemma {:induction false} PortsOfMeaning(ports: seq<int>, x: Port)
    ensures x in PortsOf(ports) <==> x.protocol == TCP && x.number in ports && Usable(x.number)
    ensures PortsOf(ports) == [] <==> OnlyUnusable(ports)
  {
    if ports != [] {
      var before, last := ports[..|ports| - 1], ports[|ports| - 1];
      PortsOfMeaning(before, x);
      assert ports == before + [last];
    }
  }

  lemma TranslatedGrants(e: Exception, c: Connection)
    ensures Translated(e).Some? && RuleAllows(Translated(e).value, c) <==> Grants(e, c)
  {
    PortsOfMeaning(e.ports, Port(c.protocol, c.port));
    if Translated(e).Some? {
      var p := Translated(e).value.to[0];
      assert p in Translated(e).value.to;
      assert PeerMatches(p, c) <==> exists q <- Translated(e).value.to :: PeerMatches(q, c);
    }
  }

  lemma SameMeaningSameGrants(e: Exception, f: Exception, c: Connection)
    requires SameMeaning(e, f)
    ensures Grants(e, c) <==> Grants(f, c)
  {
    forall p: int ensures p in e.ports <==> p in f.ports {
      assert p in multiset(e.ports) <==> p in multiset(f.ports);
    }
  }

  /** One of the first `n` exceptions grants the connection. */
  ghost predicate Granted(es: seq<Exception>, n: nat, c: Connection)
    requires n <= |es|
  {
    exists i :: 0 <= i < n && Grants(es[i], c)
  }

  lemma GrantedStep(es: seq<Exception>, n: nat, c: Connection)
    requires n < |es|
    ensures Granted(es, n + 1, c) <==> Granted(es, n, c) || Grants(es[n], c)
  {
  }

  lemma EmittedStep(es: seq<Exception>, keys: seq<string>, n: nat, c: Connection)
    requires n < |es| == |keys|
    ensures Allows(Emitted(es, keys, n + 1), c) <==>
            Allows(Emitted(es, keys, n), c) || (!Before(keys, n, keys[n]) && Grants(es[n], c))
  {
    TranslatedGrants(es[n], c);
    if Translated(es[n]).Some? {
      var r := Translated(es[n]).value;
      AllowsConcat(Emitted(es, keys, n), [r], c);
      assert Allows([r], c) <==> RuleAllows(r, c);
    }
  }

  lemma {:induction false} EmittedOnlyGrants(es: seq<Exception>, keys: seq<string>, n: nat, c: Connection)
    requires n <= |es| == |keys|
    ensures Allows(Emitted(es, keys, n), c) ==> Granted(es, n, c)
  {
    if n == 0 {
      assert Emitted(es, keys, 0) == [];
    } else {
      EmittedOnlyGrants(es, keys, n - 1, c);
      GrantedStep(es, n - 1, c);
      EmittedStep(es, keys, n - 1, c);
    }
  }

  ghost predicate KeysTell(es: seq<Exception>, keys: seq<string>) {
    |es| == |keys| && forall i, j :: 0 <= i < j < |es| && keys[i] == keys[j] ==> SameMeaning(es[i], es[j])
  }

  lemma {:induction false} EmittedGrantsAll(es: seq<Exception>, keys: seq<string>, n: nat, c: Connection)
    requires KeysTell(es, keys) && n <= |es|
    ensures Granted(es, n, c) ==> Allows(Emitted(es, keys, n), c)
  {
    if n > 0 {
      var last := n - 1;
      EmittedGrantsAll(es, keys, last, c);
      EmittedStep(es, keys, last, c);
      if Grants(es[last], c) && Before(keys, last, keys[last]) {
        var j :| 0 <= j < last && keys[j] == keys[last];
        SameMeaningSameGrants(es[j], es[last], c);
      }
    }
  }

  lemma SeparableKeysTell(es: seq<Exception>)
    requires forall e <- es :: Separable(e)
    ensures KeysTell(es, Keys(es))
  {
    forall i, j | 0 <= i < j < |es| && Keys(es)[i] == Keys(es)[j] ensures SameMeaning(es[i], es[j]) {
      KeysTellMeanings(es[i], es[j]);
    }
  }

  lemma Powers()
    ensures Pow2(32) == 0x1_0000_0000 && Pow2(24) == 0x100_0000 && Pow2(22) == 0x40_0000
    ensures Pow2(20) == 0x10_0000 && Pow2(16) == 0x1_0000
  {
    assert Pow2(8) == 256;
    assert Pow2(16) == 0x1_0000;
    assert Pow2(20) == 0x10_0000;
    assert Pow2(24) == 0x100_0000;
    assert Pow2(32) == 0x1_0000_0000;
  }

  /** The excluded blocks by the numbers that an address starts with. */
  lemma BlockNumbers(ip: Word)
    ensures InBlock(V4(ip), Cidr(0, 0, 0, 0, 0))
    ensures InBlock(V4(ip), Cidr(10, 0, 0, 0, 8)) <==> ip / 0x100_0000 == 10
    ensures InBlock(V4(ip), Cidr(100, 64, 0, 0, 10)) <==> ip / 0x40_0000 == 401
    ensures InBlock(V4(ip), Cidr(169, 254, 0, 0, 16)) <==> ip / 0x1_0000 == 169 * 256 + 254
    ensures InBlock(V4(ip), Cidr(172, 16, 0, 0, 12)) <==> ip / 0x10_0000 == 172 * 16 + 1
    ensures InBlock(V4(ip), Cidr(192, 168, 0, 0, 16)) <==> ip / 0x1_0000 == 192 * 256 + 168
  {
    Powers();
  }

  lemma PublicByNumbers(ip: Word)
    ensures Public(V4(ip)) <==>
            ip / 0x100_0000 != 10 && ip / 0x40_0000 != 401 && ip / 0x1_0000 != 169 * 256 + 254
            && ip / 0x10_0000 != 172 * 16 + 1 && ip / 0x1_0000 != 192 * 256 + 168
  {
  }

  lemma InNoneOf(ip: Address, blocks: seq<Cidr>)
    requires |blocks| == 5
    ensures (forall x <- blocks :: !InBlock(ip, x)) <==>
            !InBlock(ip, blocks[0]) && !InBlock(ip, blocks[1]) && !InBlock(ip, blocks[2]) && !InBlock(ip, blocks[3])
            && !InBlock(ip, blocks[4])
  {
  }

  lemma PublicIsOutsideBlocks(c: Connection)
    ensures PeerMatches(EVERYWHERE, c) <==> Public(c.ip)
  {
    InNoneOf(c.ip, EVERYWHERE.except);
    if c.ip.V4? {
      BlockNumbers(c.ip.number);
      PublicByNumbers(c.ip.number);
    }
  }

  lemma BaseAllows(c: Connection)
    ensures Allows(BASE, c) <==> IsDns(c) || Public(c.ip)
  {
    PublicIsOutsideBlocks(c);
    assert Allows(BASE, c) <==> RuleAllows(BASE[0], c) || RuleAllows(BASE[1], c);
    assert EVERYWHERE in BASE[1].to;
  }

  // ----- the main results -----

  /** Leaving out repeated keys never lets anything through that no exception grants, and loses nothing
      either if namespaces and labels contain no separators: the policy allows exactly name lookups,
      public addresses, and what some configured exception grants. */
  lemma PolicyMeaning(es: seq<Exception>, c: Connection)
    ensures Allows(Policy(es), c) ==> IsDns(c) || Public(c.ip) || Granted(es, |es|, c)
    ensures (forall e <- es :: Separable(e)) ==>
              (Allows(Policy(es), c) <==> IsDns(c) || Public(c.ip) || Granted(es, |es|, c))
  {
    BaseAllows(c);
    AllowsConcat(BASE, Emitted(es, Keys(es), |es|), c);
    EmittedOnlyGrants(es, Keys(es), |es|, c);
    if forall e <- es :: Separable(e) {
      SeparableKeysTell(es);
      EmittedGrantsAll(es, Keys(es), |es|, c);
    }
  }

  lemma AllowsConcat(a: seq<Rule>, b: seq<Rule>, c: Connection)
    ensures Allows(a + b, c) <==> Allows(a, c) || Allows(b, c)
  {
    if Allows(a, c) {
      var r :| r in a && RuleAllows(r, c);
      assert r in a + b;
    }
    if Allows(b, c) {
      var r :| r in b && RuleAllows(r, c);
      assert r in a + b;
    }
  }

  /** The reading of an exception that its description gives: no ports at all means every port, and
      otherwise the listed ones within 1 to 65535. */
  predicate GrantsAsDescribed(e: Exception, c: Connection) {
    && TrimSpace(e.namespace) != ""
    && c.pod.Some? && c.pod.value.namespace == TrimSpace(e.namespace)
    && (forall k | k in e.podSelector :: k in c.pod.value.labels && c.pod.value.labels[k] == e.podSelector[k])
    && (e.ports == [] || (c.protocol == TCP && c.port in e.ports && 1 <= c.port <= 65535))
  }

  /** The code follows that reading except where ports are listed and all of them are out of range:
      then the built rule has no ports and opens all of them. */
  lemma OutOfRangePortsOpenAll(e: Exception)
    ensures (forall c :: Grants(e, c) <==> GrantsAsDescribed(e, c)) <==>
            TrimSpace(e.namespace) == "" || e.ports == [] || exists p <- e.ports :: 1 <= p <= 65535
  {
    if TrimSpace(e.namespace) != "" && e.ports != [] && OnlyUnusable(e.ports) {
      var c := Connection(V4(0), Some(PodInfo(TrimSpace(e.namespace), e.podSelector)), UDP, 1);
      assert Grants(e, c) && !GrantsAsDescribed(e, c);
    }
  }

  /** With separators in label keys the key can make a grant disappear. */
  lemma CollisionLosesAGrant(ns: string, a: string, b: string, x: string)
    requires TrimSpace(ns) != ""
    ensures var e := Exception(ns, map[a + "=" + b := x], []);
            var f := Exception(ns, map[a := b + "=" + x], []);
            var c := Connection(V4(10 * 0x100_0000), Some(PodInfo(TrimSpace(ns), f.podSelector)), TCP, 80);
            Grants(f, c) && !Allows(Policy([e, f]), c)
  {
    var e := Exception(ns, map[a + "=" + b := x], []);
    var f := Exception(ns, map[a := b + "=" + x], []);
    var c := Connection(V4(10 * 0x100_0000), Some(PodInfo(TrimSpace(ns), f.podSelector)), TCP, 80);
    EqualsSignCollides(ns, a, b, x, []);
    assert a + "=" + b in e.podSelector;
    assert |a + "=" + b| > |a|;
    assert !Grants(e, c);
    RepeatedKeyIsPassedOver(e, f, c);
  }

  lemma RepeatedKeyIsPassedOver(e: Exception, f: Exception, c: Connection)
    requires Key(e) == Key(f) && !Grants(e, c) && !IsDns(c) && !Public(c.ip)
    ensures !Allows(Policy([e, f]), c)
  {
    var es := [e, f];
    var keys := Keys(es);
    assert keys[0] == keys[1];
    BaseAllows(c);
    AllowsConcat(BASE, Emitted(es, keys, 2), c);
    EmittedStep(es, keys, 1, c);
    EmittedStep(es, keys, 0, c);
  }
}
