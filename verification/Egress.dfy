/**
The egress section of the shared NetworkPolicy: the base rules, and the namespace exceptions
of the controller, of which repeated ones are left out.
*/
module Egress {
  import opened Wrappers
  import opened Sorting
  import opened Text

  /** A namespace exception as it is configured. */
  datatype Exception = Exception(namespace: string, podSelector: map<string, string>, ports: seq<int>)

  datatype Protocol = TCP | UDP | SCTP

  datatype Cidr = Cidr(a: nat, b: nat, c: nat, d: nat, bits: nat)

  /** Where a rule leads: an address block without some others, or Pods of one namespace. */
  datatype Peer =
    | Block(cidr: Cidr, except: seq<Cidr>)
    | Pods(namespace: string, podSelector: Option<map<string, string>>)

  datatype Port = Port(protocol: Protocol, number: int)

  datatype Rule = Rule(to: seq<Peer>, ports: seq<Port>)

  // ----- the key -----

  function Label(k: string, v: string): string {
    k + "=" + v
  }

  function Labels(ks: seq<string>, m: map<string, string>): (r: seq<string>)
    requires forall k <- ks :: k in m
    ensures |r| == |ks| && forall i :: 0 <= i < |r| ==> r[i] == Label(ks[i], m[ks[i]])
  {
    seq(|ks|, i requires 0 <= i < |ks| => Label(ks[i], m[ks[i]]))
  }

  function Numerals(ports: seq<int>): (r: seq<string>)
    ensures |r| == |ports| && forall i :: 0 <= i < |r| ==> r[i] == IntToString(ports[i])
  {
    seq(|ports|, i requires 0 <= i < |ports| => IntToString(ports[i]))
  }

  /** `ks` goes once through the keys of `m`. */
  ghost predicate Enumerates(ks: seq<string>, m: map<string, string>) {
    multiset(ks) == multiset(m.Keys)
  }

  lemma EnumeratedAreKeys(ks: seq<string>, m: map<string, string>)
    requires Enumerates(ks, m)
    ensures forall k :: k in ks <==> k in m
  {
    forall k ensures k in ks <==> k in m {
      assert k in multiset(ks) <==> k in multiset(m.Keys);
    }
  }

  function SortedText(parts: seq<string>): string {
    Join(StableSort(AtMost, parts), ',')
  }

  /** Some order in which the map can be gone through. */
  ghost function AnyOrder(keys: set<string>): (ks: seq<string>)
    ensures multiset(ks) == multiset(keys)
  {
    if keys == {} then []
    else
      var k :| k in keys;
      [k] + AnyOrder(keys - {k})
  }

  ghost function SelectorText(m: map<string, string>): string {
    var ks := AnyOrder(m.Keys);
    EnumeratedAreKeys(ks, m);
    SortedText(Labels(ks, m))
  }

  ghost function Key(e: Exception): string {
    TrimSpace(e.namespace) + "|" + SelectorText(e.podSelector) + "|" + SortedText(Numerals(e.ports))
  }

  lemma RemoveAt<T>(s: seq<T>, i: nat)
    requires i < |s|
    ensures multiset(s) == multiset(s[..i] + s[i + 1..]) + multiset{s[i]}
  {
    assert s == s[..i] + [s[i]] + s[i + 1..];
  }

  lemma SameElsewhere<T>(s: seq<T>, t: seq<T>) returns (i: nat)
    requires s != [] && multiset(s) == multiset(t)
    ensures i < |t| && t[i] == s[0] && multiset(s[1..]) == multiset(t[..i] + t[i + 1..])
  {
    var x := s[0];
    assert x in multiset(t);
    i :| 0 <= i < |t| && t[i] == x;
    RemoveAt(s, 0);
    RemoveAt(t, i);
    assert s[..0] + s[1..] == s[1..];
    assert multiset(s[1..]) == multiset(s) - multiset{x} == multiset(t) - multiset{x};
  }

  lemma {:induction false} LabelsKeepBag(ks: seq<string>, ls: seq<string>, m: map<string, string>)
    requires multiset(ks) == multiset(ls)
    requires (forall k <- ks :: k in m) && (forall k <- ls :: k in m)
    ensures multiset(Labels(ks, m)) == multiset(Labels(ls, m))
  {
    if ks == [] {
      assert |multiset(ls)| == 0;
    } else {
      var i := SameElsewhere(ks, ls);
      LabelsRemoveAt(ks, m, 0);
      LabelsRemoveAt(ls, m, i);
      assert ks[..0] + ks[1..] == ks[1..];
      LabelsKeepBag(ks[1..], ls[..i] + ls[i + 1..], m);
    }
  }

  lemma LabelsRemoveAt(ks: seq<string>, m: map<string, string>, i: nat)
    requires (forall k <- ks :: k in m) && i < |ks|
    ensures forall k <- ks[..i] + ks[i + 1..] :: k in m
    ensures multiset(Labels(ks, m)) == multiset(Labels(ks[..i] + ks[i + 1..], m)) + multiset{Label(ks[i], m[ks[i]])}
  {
    var all := Labels(ks, m);
    assert Labels(ks[..i] + ks[i + 1..], m) == all[..i] + all[i + 1..];
    RemoveAt(all, i);
  }

  /** Strings that come in another order are the same sequence once they are sorted. */
  lemma SortedTextsAgree(s: seq<string>, t: seq<string>)
    requires multiset(s) == multiset(t)
    ensures StableSort(AtMost, s) == StableSort(AtMost, t)
  {
    AtMostIsPreorder();
    forall x, y | AtMost(x, y) && AtMost(y, x) ensures x == y {
      AtMostAntisymmetric(x, y);
    }
    SortOfSameElements(AtMost, s, t);
  }

  /** The key does not depend on the order in which the map is gone through. */
  lemma TextInAnyOrder(m: map<string, string>, ks: seq<string>)
    requires Enumerates(ks, m)
    ensures (forall k <- ks :: k in m) && SortedText(Labels(ks, m)) == SelectorText(m)
  {
    var ls := AnyOrder(m.Keys);
    EnumeratedAreKeys(ks, m);
    EnumeratedAreKeys(ls, m);
    LabelsKeepBag(ks, ls, m);
    SortedTextsAgree(Labels(ks, m), Labels(ls, m));
  }

  method SortTexts(s: seq<string>) returns (r: seq<string>)
    ensures r == StableSort(AtMost, s)
  {
    var a := new string[|s|](i requires 0 <= i < |s| => s[i]);
    assert a[..] == s;
    SortInPlace(AtMost, a);
    r := a[..];
  }

  method RuleKey(e: Exception) returns (key: string)
    ensures key == Key(e)
  {
    var selectorLabels := [];
    var rest := e.podSelector.Keys;
    ghost var ks: seq<string> := [];
    while rest != {}
      invariant rest <= e.podSelector.Keys
      invariant multiset(ks) + multiset(rest) == multiset(e.podSelector.Keys)
      invariant forall k <- ks :: k in e.podSelector
      invariant selectorLabels == Labels(ks, e.podSelector)
      decreases rest
    {
      var k :| k in rest;
      selectorLabels := selectorLabels + [k + "=" + e.podSelector[k]];
      ks := ks + [k];
      rest := rest - {k};
    }
    TextInAnyOrder(e.podSelector, ks);
    selectorLabels := SortTexts(selectorLabels);
    var ports := [];
    for i := 0 to |e.ports|
      invariant ports == Numerals(e.ports[..i])
    {
      ports := ports + [IntToString(e.ports[i])];
    }
    assert e.ports[..|e.ports|] == e.ports;
    ports := SortTexts(ports);
    key := TrimSpace(e.namespace) + "|" + Join(selectorLabels, ',') + "|" + Join(ports, ',');
  }

  // ----- when the key tells exceptions apart -----

  /** The namespace has no bar, the label keys have no equals sign, and no label has a comma. */
  ghost predicate Separable(e: Exception) {
    && '|' !in e.namespace
    && forall k | k in e.podSelector :: '=' !in k && ',' !in k && ',' !in e.podSelector[k]
  }

  ghost predicate SameMeaning(e: Exception, f: Exception) {
    && TrimSpace(e.namespace) == TrimSpace(f.namespace)
    && e.podSelector == f.podSelector
    && multiset(e.ports) == multiset(f.ports)
  }

  lemma NumeralsHead(s: seq<int>)
    requires s != []
    ensures multiset(s) == multiset(s[1..]) + multiset{s[0]}
    ensures multiset(Numerals(s)) == multiset(Numerals(s[1..])) + multiset{IntToString(s[0])}
  {
    assert s == [s[0]] + s[1..];
    assert Numerals(s) == [IntToString(s[0])] + Numerals(s[1..]);
  }

  lemma {:induction false} NumeralsKeepBag(s: seq<int>, x: int)
    ensures multiset(Numerals(s))[IntToString(x)] == multiset(s)[x]
  {
    if s != [] {
      NumeralsKeepBag(s[1..], x);
      NumeralsHead(s);
      if IntToString(s[0]) == IntToString(x) {
        IntToStringInjective(s[0], x);
      }
    }
  }

  lemma NumeralsTellPorts(s: seq<int>, t: seq<int>)
    requires multiset(Numerals(s)) == multiset(Numerals(t))
    ensures multiset(s) == multiset(t)
  {
    forall x ensures multiset(s)[x] == multiset(t)[x] {
      NumeralsKeepBag(s, x);
      NumeralsKeepBag(t, x);
    }
  }

  lemma {:induction false} PortsKeepBag(s: seq<int>, t: seq<int>)
    requires multiset(s) == multiset(t)
    ensures multiset(Numerals(s)) == multiset(Numerals(t))
  {
    forall n ensures multiset(Numerals(s))[n] == multiset(Numerals(t))[n] {
      if n in Numerals(s) {
        var i :| 0 <= i < |s| && Numerals(s)[i] == n;
        NumeralsKeepBag(s, s[i]);
        NumeralsKeepBag(t, s[i]);
      } else if n in Numerals(t) {
        var i :| 0 <= i < |t| && Numerals(t)[i] == n;
        NumeralsKeepBag(s, t[i]);
        NumeralsKeepBag(t, t[i]);
      }
    }
  }

  /** Label texts of one selector occur in the other: so do the labels. */
  lemma LabelsTellSelector(ks: seq<string>, m: map<string, string>, ls: seq<string>, n: map<string, string>, k: string)
    requires Enumerates(ks, m) && Enumerates(ls, n)
    requires (forall x <- ks :: x in m) && (forall x <- ls :: x in n)
    requires multiset(Labels(ks, m)) == multiset(Labels(ls, n))
    requires (forall x | x in m :: '=' !in x) && (forall x | x in n :: '=' !in x)
    requires k in m
    ensures k in n && n[k] == m[k]
  {
    EnumeratedAreKeys(ks, m);
    var i :| 0 <= i < |ks| && ks[i] == k;
    var text := Labels(ks, m)[i];
    assert text in multiset(Labels(ls, n));
    var j :| 0 <= j < |ls| && Labels(ls, n)[j] == text;
    assert k + ['='] + m[k] == ls[j] + ['='] + n[ls[j]];
    SplitFirst(k, ls[j], m[k], n[ls[j]], '=');
  }

  lemma LabelsTellSelectors(ks: seq<string>, m: map<string, string>, ls: seq<string>, n: map<string, string>)
    requires Enumerates(ks, m) && Enumerates(ls, n)
    requires (forall x <- ks :: x in m) && (forall x <- ls :: x in n)
    requires multiset(Labels(ks, m)) == multiset(Labels(ls, n))
    requires (forall x | x in m :: '=' !in x) && (forall x | x in n :: '=' !in x)
    ensures m == n
  {
    forall k | k in m ensures k in n && n[k] == m[k] { LabelsTellSelector(ks, m, ls, n, k); }
    forall k | k in n ensures k in m { LabelsTellSelector(ls, n, ks, m, k); }
  }

  lemma {:induction false} NumeralIsPlain(n: int)
    ensures IntToString(n) != "" && ',' !in IntToString(n) && '|' !in IntToString(n)
  {
    var s := NatToString(if n < 0 then -n else n);
    assert ',' !in DIGITS && '|' !in DIGITS;
    assert forall c <- s :: c in DIGITS;
  }

  lemma SortedParts(s: seq<string>, t: seq<string>)
    requires forall x <- s + t :: x != "" && ',' !in x
    requires SortedText(s) == SortedText(t)
    ensures multiset(s) == multiset(t)
  {
    SortKeepsElements(AtMost, s);
    SortKeepsElements(AtMost, t);
    var p, q := StableSort(AtMost, s), StableSort(AtMost, t);
    forall x | x in p + q ensures x != "" && ',' !in x {
      assert x in multiset(p) || x in multiset(q);
      assert x in s + t;
    }
    JoinInjective(p, q, ',');
  }

  lemma PortsTextPlain(ports: seq<int>)
    ensures forall x <- Numerals(ports) :: x != "" && ',' !in x
    ensures '|' !in SortedText(Numerals(ports))
  {
    var p := StableSort(AtMost, Numerals(ports));
    forall x | x in Numerals(ports) ensures x != "" && ',' !in x && '|' !in x {
      var i :| 0 <= i < |ports| && x == IntToString(ports[i]);
      NumeralIsPlain(ports[i]);
    }
    SortKeepsElements(AtMost, Numerals(ports));
    forall x | x in p ensures '|' !in x {
      assert x in multiset(p);
      assert x in Numerals(ports);
    }
    JoinFree(p, ',', '|');
  }

  lemma NamespacePlain(ns: string)
    requires '|' !in ns
    ensures '|' !in TrimSpace(ns)
  {
    TrimLeftFree(ns, '|');
    TrimRightFree(TrimLeft(ns), '|');
  }

  lemma KeySplits(e: Exception, f: Exception)
    requires '|' !in e.namespace && '|' !in f.namespace && Key(e) == Key(f)
    ensures TrimSpace(e.namespace) == TrimSpace(f.namespace)
    ensures SelectorText(e.podSelector) == SelectorText(f.podSelector)
    ensures SortedText(Numerals(e.ports)) == SortedText(Numerals(f.ports))
  {
    NamespacePlain(e.namespace);
    NamespacePlain(f.namespace);
    PortsTextPlain(e.ports);
    PortsTextPlain(f.ports);
    ThreeParts(TrimSpace(e.namespace), SelectorText(e.podSelector), SortedText(Numerals(e.ports)),
               TrimSpace(f.namespace), SelectorText(f.podSelector), SortedText(Numerals(f.ports)));
  }

  lemma ThreeParts(a: string, p: string, x: string, b: string, q: string, y: string)
    requires '|' !in a && '|' !in b && '|' !in x && '|' !in y
    requires a + "|" + p + "|" + x == b + "|" + q + "|" + y
    ensures a == b && p == q && x == y
  {
    var bar := '|';
    assert a + [bar] + (p + [bar] + x) == a + "|" + p + "|" + x;
    assert b + [bar] + (q + [bar] + y) == b + "|" + q + "|" + y;
    SplitFirst(a, b, p + [bar] + x, q + [bar] + y, bar);
    SplitLast(p, q, x, y, bar);
  }

  lemma SelectorTextsTell(m: map<string, string>, n: map<string, string>)
    requires SelectorText(m) == SelectorText(n)
    requires (forall k | k in m :: '=' !in k && ',' !in k && ',' !in m[k])
    requires (forall k | k in n :: '=' !in k && ',' !in k && ',' !in n[k])
    ensures m == n
  {
    var ks, ls := AnyOrder(m.Keys), AnyOrder(n.Keys);
    EnumeratedAreKeys(ks, m);
    EnumeratedAreKeys(ls, n);
    LabelTextsPlain(ks, m);
    LabelTextsPlain(ls, n);
    SortedParts(Labels(ks, m), Labels(ls, n));
    LabelsTellSelectors(ks, m, ls, n);
  }

  lemma LabelTextsPlain(ks: seq<string>, m: map<string, string>)
    requires forall k <- ks :: k in m
    requires forall k | k in m :: ',' !in k && ',' !in m[k]
    ensures forall x <- Labels(ks, m) :: x != "" && ',' !in x
  {
  }

  /** Equal keys mean the same namespace, selector and ports, and the other way round. */
  lemma KeysTellMeanings(e: Exception, f: Exception)
    requires Separable(e) && Separable(f)
    ensures Key(e) == Key(f) <==> SameMeaning(e, f)
  {
    if Key(e) == Key(f) {
      KeySplits(e, f);
      SelectorTextsTell(e.podSelector, f.podSelector);
      PortsTextPlain(e.ports);
      PortsTextPlain(f.ports);
      SortedParts(Numerals(e.ports), Numerals(f.ports));
      NumeralsTellPorts(e.ports, f.ports);
    }
    if SameMeaning(e, f) {
      PortsKeepBag(e.ports, f.ports);
      SortedTextsAgree(Numerals(e.ports), Numerals(f.ports));
    }
  }

  lemma OneLabelText(k: string, v: string)
    ensures SelectorText(map[k := v]) == SortedText([Label(k, v)])
  {
    var m := map[k := v];
    assert m.Keys == {k};
    assert Enumerates([k], m);
    TextInAnyOrder(m, [k]);
    assert Labels([k], m) == [Label(k, v)];
  }

  /** With an equals sign in a label key different exceptions share a key. */
  lemma EqualsSignCollides(ns: string, a: string, b: string, c: string, ports: seq<int>)
    ensures var e := Exception(ns, map[a + "=" + b := c], ports);
            var f := Exception(ns, map[a := b + "=" + c], ports);
            Key(e) == Key(f) && !SameMeaning(e, f)
  {
    OneLabelText(a + "=" + b, c);
    OneLabelText(a, b + "=" + c);
    assert Label(a + "=" + b, c) == Label(a, b + "=" + c);
    var m, n := map[a + "=" + b := c], map[a := b + "=" + c];
    assert |a + "=" + b| > |a|;
    assert a in n && a !in m;
  }
}
