/** Strings: the order in which Go sorts them, decimal numbers, joining, and trimming. */
module Text {
  import opened Sorting

  // ----- order -----

  /** Lexicographic order, the order of strings.Compare. */
  predicate AtMost(a: string, b: string) {
    a == "" || (b != "" && (a[0] < b[0] || (a[0] == b[0] && AtMost(a[1..], b[1..]))))
  }

  lemma {:induction false} AtMostTotal(a: string, b: string)
    ensures AtMost(a, b) || AtMost(b, a)
  {
    if a != "" && b != "" && a[0] == b[0] {
      AtMostTotal(a[1..], b[1..]);
    }
  }

  lemma {:induction false} AtMostAntisymmetric(a: string, b: string)
    requires AtMost(a, b) && AtMost(b, a)
    ensures a == b
  {
    if a != "" {
      AtMostAntisymmetric(a[1..], b[1..]);
      assert a == [a[0]] + a[1..] && b == [b[0]] + b[1..];
    }
  }

  lemma {:induction false} AtMostTransitive(a: string, b: string, c: string)
    requires AtMost(a, b) && AtMost(b, c)
    ensures AtMost(a, c)
  {
    if a != "" && a[0] == b[0] == c[0] {
      AtMostTransitive(a[1..], b[1..], c[1..]);
    }
  }

  lemma {:induction false} AtMostReflexive(a: string)
    ensures AtMost(a, a)
  {
    AtMostTotal(a, a);
  }

  lemma AtMostIsPreorder()
    ensures TotalPreorder(AtMost)
  {
    forall a, b ensures AtMost(a, b) || AtMost(b, a) {
      AtMostTotal(a, b);
    }
    forall a, b, c | AtMost(a, b) && AtMost(b, c) ensures AtMost(a, c) {
      AtMostTransitive(a, b, c);
    }
  }

  /** A text comes before another exactly if it is a beginning of it or has the smaller character where they
      first differ. */
  lemma {:induction false} AtMostMeans(a: string, b: string)
    ensures AtMost(a, b) <==>
            a <= b || exists k :: 0 <= k < |a| && k < |b| && a[..k] == b[..k] && a[k] < b[k]
  {
    if a != "" && b != "" && a[0] == b[0] {
      AtMostMeans(a[1..], b[1..]);
      assert a == [a[0]] + a[1..] && b == [b[0]] + b[1..];
      assert a <= b <==> a[1..] <= b[1..];
      if k :| 0 <= k < |a[1..]| && k < |b[1..]| && a[1..][..k] == b[1..][..k] && a[1..][k] < b[1..][k] {
        assert a[..k + 1] == [a[0]] + a[1..][..k] && b[..k + 1] == [b[0]] + b[1..][..k];
        assert a[k + 1] < b[k + 1];
      }
      if k :| 0 <= k < |a| && k < |b| && a[..k] == b[..k] && a[k] < b[k] {
        assert a[1..][..k - 1] == a[..k][1..] && b[1..][..k - 1] == b[..k][1..];
        assert a[1..][k - 1] < b[1..][k - 1];
      }
    } else if a != "" && b != "" && a[0] < b[0] {
      assert a[..0] == b[..0];
    }
  }

  // ----- decimal numbers -----

  const DIGITS: string := "0123456789"

  function NatToString(n: nat): (s: string)
    ensures s != "" && forall c <- s :: c in DIGITS
    ensures |s| == 1 ==> n < 10 && s == [DIGITS[n]]
    ensures |s| > 1 ==> n >= 10
  {
    if n < 10 then [DIGITS[n]] else NatToString(n / 10) + [DIGITS[n % 10]]
  }

  function IntToString(n: int): string {
    if n < 0 then "-" + NatToString(-n) else NatToString(n)
  }

  /** The number that decimal digits stand for. */
  function ValueOf(s: string): nat
    requires forall i :: 0 <= i < |s| ==> '0' <= s[i] <= '9'
  {
    if s == "" then 0 else 10 * ValueOf(s[..|s| - 1]) + (s[|s| - 1] - '0') as nat
  }

  lemma {:induction false} NumeralStandsFor(n: nat)
    ensures forall i :: 0 <= i < |NatToString(n)| ==> '0' <= NatToString(n)[i] <= '9'
    ensures ValueOf(NatToString(n)) == n
  {
    assert forall i :: 0 <= i < 10 ==> DIGITS[i] == '0' + i as char;
    if n < 10 {
      assert ValueOf([DIGITS[n]][..0]) == 0;
    } else {
      NumeralStandsFor(n / 10);
      var s := NatToString(n);
      assert s[..|s| - 1] == NatToString(n / 10) && s[|s| - 1] == DIGITS[n % 10];
    }
  }

  lemma {:induction false} NatToStringInjective(m: nat, n: nat)
    requires NatToString(m) == NatToString(n)
    ensures m == n
  {
    if m < 10 || n < 10 {
      assert |NatToString(m)| == 1 && |NatToString(n)| == 1;
    } else {
      var s, t := NatToString(m / 10), NatToString(n / 10);
      assert NatToString(m)[..|NatToString(m)| - 1] == s && NatToString(n)[..|NatToString(n)| - 1] == t;
      assert NatToString(m)[|s|] == DIGITS[m % 10] && NatToString(n)[|t|] == DIGITS[n % 10];
      NatToStringInjective(m / 10, n / 10);
    }
  }

  lemma IntToStringInjective(m: int, n: int)
    requires IntToString(m) == IntToString(n)
    ensures m == n
  {
    var a, b := if m < 0 then -m else m, if n < 0 then -n else n;
    assert '-' !in DIGITS;
    if m < 0 {
      assert IntToString(m)[0] == '-' && IntToString(m)[1..] == NatToString(a);
    } else {
      assert NatToString(a)[0] in NatToString(a);
    }
    if n < 0 {
      assert IntToString(n)[0] == '-' && IntToString(n)[1..] == NatToString(b);
    } else {
      assert NatToString(b)[0] in NatToString(b);
    }
    NatToStringInjective(a, b);
  }

  // ----- joining -----

  function Join(parts: seq<string>, sep: char): string {
    if parts == [] then ""
    else if |parts| == 1 then parts[0]
    else parts[0] + [sep] + Join(parts[1..], sep)
  }

  /** Two texts free of `sep` that are followed by `sep` are equal if the whole texts are. */
  lemma {:induction false} SplitFirst(a: string, b: string, x: string, y: string, sep: char)
    requires sep !in a && sep !in b && a + [sep] + x == b + [sep] + y
    ensures a == b && x == y
  {
    if a == "" || b == "" {
      assert (a + [sep] + x)[0] == (b + [sep] + y)[0];
      assert x == (a + [sep] + x)[1..] && y == (b + [sep] + y)[1..];
    } else {
      assert (a + [sep] + x)[0] == a[0] && (b + [sep] + y)[0] == b[0];
      assert (a + [sep] + x)[1..] == a[1..] + [sep] + x;
      assert (b + [sep] + y)[1..] == b[1..] + [sep] + y;
      SplitFirst(a[1..], b[1..], x, y, sep);
      assert a == [a[0]] + a[1..] && b == [b[0]] + b[1..];
    }
  }

  /** The same from the other end: the two tails are free of `sep`. */
  lemma SplitLast(a: string, b: string, x: string, y: string, sep: char)
    requires sep !in x && sep !in y && a + [sep] + x == b + [sep] + y
    ensures a == b && x == y
  {
    var s := a + [sep] + x;
    assert s[|a|] == sep && s[|b|] == sep;
    assert forall i :: |a| < i < |s| ==> s[i] == x[i - |a| - 1];
    assert forall i :: |b| < i < |s| ==> s[i] == y[i - |b| - 1];
    assert |a| == |b|;
    assert a == s[..|a|] && x == s[|a| + 1..];
  }

  lemma JoinEmpty(p: seq<string>, sep: char)
    requires forall s <- p :: s != ""
    ensures Join(p, sep) == "" <==> p == []
  {
    if p != [] {
      assert p[0] in p;
    }
  }

  /** Joining parts that are not empty and free of the separator can be undone. */
  lemma {:induction false} JoinInjective(p: seq<string>, q: seq<string>, sep: char)
    requires forall s <- p + q :: s != "" && sep !in s
    requires Join(p, sep) == Join(q, sep)
    ensures p == q
  {
    if p == [] || q == [] {
      forall s | s in p ensures s != "" { assert s in p + q; }
      forall s | s in q ensures s != "" { assert s in p + q; }
      JoinEmpty(p, sep);
      JoinEmpty(q, sep);
    } else {
      assert p[0] in p + q && q[0] in p + q;
      forall s | s in p[1..] + q[1..] ensures s != "" && sep !in s { assert s in p + q; }
      assert sep in Join(p, sep) <==> |p| > 1;
      assert sep in Join(q, sep) <==> |q| > 1;
      if |p| > 1 && |q| > 1 {
        SplitFirst(p[0], q[0], Join(p[1..], sep), Join(q[1..], sep), sep);
        JoinInjective(p[1..], q[1..], sep);
        assert p == [p[0]] + p[1..] && q == [q[0]] + q[1..];
      }
    }
  }

  lemma {:induction false} JoinFree(p: seq<string>, sep: char, c: char)
    requires c != sep && forall s <- p :: c !in s
    ensures c !in Join(p, sep)
  {
    if |p| > 1 {
      JoinFree(p[1..], sep, c);
    }
  }

  // ----- trimming -----

  /** The characters of the Unicode property White_Space, which strings.TrimSpace removes. */
  predicate IsSpace(c: char) {
    var n := c as int;
    9 <= n <= 13 || n == 32 || n == 0x85 || n == 0xA0 || n == 0x1680 || 0x2000 <= n <= 0x200A
    || n == 0x2028 || n == 0x2029 || n == 0x202F || n == 0x205F || n == 0x3000
  }

  function TrimLeft(s: string): string {
    if s != "" && IsSpace(s[0]) then TrimLeft(s[1..]) else s
  }

  function TrimRight(s: string): string {
    if s != "" && IsSpace(s[|s| - 1]) then TrimRight(s[..|s| - 1]) else s
  }

  function TrimSpace(s: string): string {
    TrimRight(TrimLeft(s))
  }

  predicate AllSpaces(s: string) {
    forall c <- s :: IsSpace(c)
  }

  lemma {:induction false} TrimLeftCuts(s: string) returns (cut: string)
    ensures s == cut + TrimLeft(s) && AllSpaces(cut)
    ensures TrimLeft(s) != "" ==> !IsSpace(TrimLeft(s)[0])
  {
    cut := "";
    if s != "" && IsSpace(s[0]) {
      var rest := TrimLeftCuts(s[1..]);
      cut := [s[0]] + rest;
      assert s == [s[0]] + s[1..];
    }
  }

  lemma {:induction false} TrimRightCuts(s: string) returns (cut: string)
    ensures s == TrimRight(s) + cut && AllSpaces(cut)
    ensures TrimRight(s) != "" ==> !IsSpace(TrimRight(s)[|TrimRight(s)| - 1])
  {
    cut := "";
    if s != "" && IsSpace(s[|s| - 1]) {
      var rest := TrimRightCuts(s[..|s| - 1]);
      cut := rest + [s[|s| - 1]];
      assert s == s[..|s| - 1] + [s[|s| - 1]];
    }
  }

  /** Trimming cuts off spaces only, and all of them at both ends. */
  lemma TrimSpaceCuts(s: string) returns (before: string, after: string)
    ensures s == before + TrimSpace(s) + after && AllSpaces(before) && AllSpaces(after)
    ensures TrimSpace(s) != "" ==> !IsSpace(TrimSpace(s)[0]) && !IsSpace(TrimSpace(s)[|TrimSpace(s)| - 1])
  {
    before := TrimLeftCuts(s);
    after := TrimRightCuts(TrimLeft(s));
  }

  /** Among the characters of ASCII the space, the tab and the line breaks count. */
  lemma AsciiSpaces(c: char)
    requires c as int < 128
    ensures IsSpace(c) <==> c == ' ' || c == '\t' || c == '\n' || c == '\r' || c as int == 11 || c as int == 12
  {
  }

  lemma {:induction false} TrimLeftFree(s: string, c: char)
    requires c !in s
    ensures c !in TrimLeft(s)
  {
    if s != "" && IsSpace(s[0]) {
      TrimLeftFree(s[1..], c);
    }
  }

  lemma {:induction false} TrimRightFree(s: string, c: char)
    requires c !in s
    ensures c !in TrimRight(s)
  {
    if s != "" && IsSpace(s[|s| - 1]) {
      TrimRightFree(s[..|s| - 1], c);
    }
  }
}
