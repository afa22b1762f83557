/**
Resource names derived from user IDs. A host label in the sense of section 2.1 of RFC 1123
has letters, digits and hyphens, starts and ends with a letter or digit, and has at most
63 characters; Kubernetes wants the letters in lower case.
*/
module K8sName {

  predicate Plain(c: char) {
    'a' <= c <= 'z' || '0' <= c <= '9' || c == '-'
  }

  predicate AllPlain(s: string) {
    forall i :: 0 <= i < |s| ==> Plain(s[i])
  }

  /** `lower` maps every character to lower case; all that is assumed of it is that it leaves the
      characters a to z, digits and the hyphen alone. */
  ghost predicate KeepsPlain(lower: char -> char) {
    forall c :: Plain(c) ==> lower(c) == c
  }

  function Lowered(s: string, lower: char -> char): (r: string)
    ensures |r| == |s| && forall i :: 0 <= i < |s| ==> r[i] == lower(s[i])
  {
    seq(|s|, i requires 0 <= i < |s| => lower(s[i]))
  }

  function Hyphenated(s: string): (r: string)
    ensures |r| == |s| && forall i :: 0 <= i < |s| ==> r[i] == if s[i] == '_' then '-' else s[i]
  {
    seq(|s|, i requires 0 <= i < |s| => if s[i] == '_' then '-' else s[i])
  }

  /** The text from the first plain character on. */
  function SkipRun(s: string): (r: string)
    ensures |r| <= |s| && (r != "" ==> Plain(r[0]))
  {
    if s == "" || Plain(s[0]) then s else SkipRun(s[1..])
  }

  /** Every maximal run of characters that are not plain becomes one hyphen. */
  function ReplaceRuns(s: string): string
    decreases |s|
  {
    if s == "" then ""
    else if Plain(s[0]) then [s[0]] + ReplaceRuns(s[1..])
    else "-" + ReplaceRuns(SkipRun(s[1..]))
  }

  function TrimLeft(s: string): string {
    if s != "" && s[0] == '-' then TrimLeft(s[1..]) else s
  }

  function TrimRight(s: string): string {
    if s != "" && s[|s| - 1] == '-' then TrimRight(s[..|s| - 1]) else s
  }

  function Sanitize(name: string, lower: char -> char): string {
    var s := TrimRight(TrimLeft(ReplaceRuns(Hyphenated(Lowered(name, lower)))));
    if |s| > 63 then TrimRight(s[..63]) else s
  }

  /** Empty, or a host label in lower case. */
  predicate Shaped(s: string) {
    AllPlain(s) && |s| <= 63 && (s != "" ==> s[0] != '-' && s[|s| - 1] != '-')
  }

  // ----- the steps -----

  lemma {:induction false} RunsArePlain(s: string)
    ensures AllPlain(ReplaceRuns(s))
    decreases |s|
  {
    if s != "" {
      RunsArePlain(if Plain(s[0]) then s[1..] else SkipRun(s[1..]));
    }
  }

  lemma {:induction false} PlainHasNoRuns(s: string)
    requires AllPlain(s)
    ensures ReplaceRuns(s) == s
  {
    if s != "" {
      PlainHasNoRuns(s[1..]);
      assert s == [s[0]] + s[1..];
    }
  }

  /** Between plain characters a run of others becomes one hyphen; plain text stays as it is. */
  lemma {:induction false} RunBecomesHyphen(a: string, r: string, b: string)
    requires AllPlain(a) && r != "" && (forall i :: 0 <= i < |r| ==> !Plain(r[i])) && (b != "" ==> Plain(b[0]))
    ensures ReplaceRuns(a + r + b) == a + "-" + ReplaceRuns(b)
  {
    var s := a + r + b;
    if a == "" {
      assert s[0] == r[0] && s[1..] == r[1..] + b;
      SkipsRun(r[1..], b);
    } else {
      assert s[0] == a[0] && s[1..] == a[1..] + r + b;
      RunBecomesHyphen(a[1..], r, b);
      assert a == [a[0]] + a[1..];
    }
  }

  lemma {:induction false} SkipsRun(r: string, b: string)
    requires (forall i :: 0 <= i < |r| ==> !Plain(r[i])) && (b != "" ==> Plain(b[0]))
    ensures SkipRun(r + b) == b
  {
    if r == "" {
      assert r + b == b;
    } else {
      assert (r + b)[1..] == r[1..] + b;
      SkipsRun(r[1..], b);
    }
  }

  lemma {:induction false} TrimLeftTrims(s: string)
    requires AllPlain(s)
    ensures AllPlain(TrimLeft(s)) && (TrimLeft(s) != "" ==> TrimLeft(s)[0] != '-')
  {
    if s != "" && s[0] == '-' {
      TrimLeftTrims(s[1..]);
    }
  }

  lemma {:induction false} TrimRightTrims(s: string)
    requires AllPlain(s)
    ensures AllPlain(TrimRight(s)) && TrimRight(s) <= s
    ensures TrimRight(s) != "" ==> TrimRight(s)[|TrimRight(s)| - 1] != '-'
    ensures forall i :: 0 <= i < |s| && s[i] != '-' ==> i < |TrimRight(s)|
  {
    if s != "" && s[|s| - 1] == '-' {
      TrimRightTrims(s[..|s| - 1]);
    }
  }

  lemma StartsWithLetters(h: string)
    requires |h| >= 2 && h[0] == 'w' && h[1] == 's'
    ensures |ReplaceRuns(h)| >= 2 && ReplaceRuns(h)[0] == 'w' && ReplaceRuns(h)[1] == 's'
  {
    assert ReplaceRuns(h) == [h[0]] + ReplaceRuns(h[1..]);
    assert ReplaceRuns(h[1..]) == [h[1]] + ReplaceRuns(h[1..][1..]);
  }

  // ----- the result -----

  lemma SanitizeShapes(name: string, lower: char -> char)
    ensures Shaped(Sanitize(name, lower))
  {
    var s := ReplaceRuns(Hyphenated(Lowered(name, lower)));
    RunsArePlain(Hyphenated(Lowered(name, lower)));
    TrimLeftTrims(s);
    TrimRightTrims(TrimLeft(s));
    var t := TrimRight(TrimLeft(s));
    if |t| > 63 {
      TrimRightTrims(t[..63]);
    }
  }

  /** The names that are left alone are exactly the ones of the right shape. */
  lemma UnchangedIffShaped(name: string, lower: char -> char)
    requires KeepsPlain(lower)
    ensures Sanitize(name, lower) == name <==> Shaped(name)
  {
    if Shaped(name) {
      assert Lowered(name, lower) == name;
      assert Hyphenated(name) == name;
      PlainHasNoRuns(name);
    } else {
      SanitizeShapes(name, lower);
    }
  }

  lemma SanitizeIdempotent(name: string, lower: char -> char)
    requires KeepsPlain(lower)
    ensures Sanitize(Sanitize(name, lower), lower) == Sanitize(name, lower)
  {
    SanitizeShapes(name, lower);
    UnchangedIffShaped(Sanitize(name, lower), lower);
  }

  /** For every user ID, also an empty or an entirely invalid one, the name of the Workspace is a host
      label in lower case that starts with "ws". */
  lemma WorkspaceNameIsLabel(id: string, lower: char -> char)
    requires KeepsPlain(lower)
    ensures var r := Sanitize("ws-" + id, lower);
            && 2 <= |r| <= 63 && r[..2] == "ws" && r[|r| - 1] != '-'
            && forall i :: 0 <= i < |r| ==> 'a' <= r[i] <= 'z' || '0' <= r[i] <= '9' || r[i] == '-'
  {
    var h := Hyphenated(Lowered("ws-" + id, lower));
    assert Plain('w') && Plain('s');
    assert h[0] == 'w' && h[1] == 's';
    StartsWithLetters(h);
    var s := ReplaceRuns(h);
    RunsArePlain(h);
    TrimRightTrims(s);
    var t := TrimRight(s);
    if |t| > 63 {
      TrimRightTrims(t[..63]);
    }
    SanitizeShapes("ws-" + id, lower);
  }

  // ----- who shares a name -----

  /** The character at a position, where the text goes on with hyphens for ever. */
  function Padded(s: string, i: nat): char {
    if i < |s| then s[i] else '-'
  }

  /** The part of the name that the ID decides, before it is cut and trimmed. */
  function OwnPart(id: string, lower: char -> char): string {
    ReplaceRuns(Hyphenated(Lowered(id, lower)))
  }

  lemma {:induction false} TrimRightPads(s: string, i: nat)
    ensures Padded(TrimRight(s), i) == Padded(s, i)
  {
    if s != "" && s[|s| - 1] == '-' {
      TrimRightPads(s[..|s| - 1], i);
    }
  }

  lemma {:induction false} TrimRightEnds(s: string)
    ensures TrimRight(s) <= s && (TrimRight(s) != "" ==> TrimRight(s)[|TrimRight(s)| - 1] != '-')
  {
    if s != "" && s[|s| - 1] == '-' {
      TrimRightEnds(s[..|s| - 1]);
    }
  }

  lemma SameTrimIff(s: string, t: string)
    ensures TrimRight(s) == TrimRight(t) <==> forall i: nat :: Padded(s, i) == Padded(t, i)
  {
    var x, y := TrimRight(s), TrimRight(t);
    forall i: nat ensures Padded(x, i) == Padded(s, i) && Padded(y, i) == Padded(t, i) {
      TrimRightPads(s, i);
      TrimRightPads(t, i);
    }
    TrimRightEnds(s);
    TrimRightEnds(t);
    if forall i: nat :: Padded(s, i) == Padded(t, i) {
      assert |x| > |y| ==> Padded(x, |x| - 1) == Padded(y, |x| - 1);
      assert |y| > |x| ==> Padded(y, |y| - 1) == Padded(x, |y| - 1);
      forall i | 0 <= i < |x| ensures x[i] == y[i] {
        assert Padded(x, i) == Padded(y, i);
      }
      assert x == y;
    }
  }

  /** Trimming before the cut makes no difference to trimming after it. */
  lemma {:induction false} CutOnce(s: string)
    ensures var t := TrimRight(s);
            (if |t| > 63 then TrimRight(t[..63]) else t) == TrimRight(if |s| > 63 then s[..63] else s)
  {
    if |s| > 63 && s[|s| - 1] == '-' {
      var r := s[..|s| - 1];
      CutOnce(r);
      assert r[..63] == s[..63];
    } else if |s| <= 63 {
      TrimRightEnds(s);
    }
  }

  lemma PlainFirst(c: char, s: string)
    requires Plain(c)
    ensures ReplaceRuns([c] + s) == [c] + ReplaceRuns(s)
  {
    assert ([c] + s)[1..] == s;
  }

  lemma NameOfId(id: string, lower: char -> char)
    requires KeepsPlain(lower)
    ensures var s := "ws-" + OwnPart(id, lower);
            Sanitize("ws-" + id, lower) == TrimRight(if |s| > 63 then s[..63] else s)
  {
    var h := Hyphenated(Lowered("ws-" + id, lower));
    var rest := Hyphenated(Lowered(id, lower));
    assert Plain('w') && Plain('s') && Plain('-');
    assert h == ['w'] + (['s'] + (['-'] + rest));
    PlainFirst('w', ['s'] + (['-'] + rest));
    PlainFirst('s', ['-'] + rest);
    PlainFirst('-', rest);
    var s := "ws-" + OwnPart(id, lower);
    assert ReplaceRuns(h) == s by {
      assert ['w'] + (['s'] + (['-'] + ReplaceRuns(rest))) == s;
    }
    assert TrimLeft(s) == s;
    CutOnce(s);
  }

  /** Two users share a Workspace exactly when the parts that their IDs decide agree in the first 60 characters,
      where a missing character counts as a hyphen. */
  lemma ShareNameIff(a: string, b: string, lower: char -> char)
    requires KeepsPlain(lower)
    ensures Sanitize("ws-" + a, lower) == Sanitize("ws-" + b, lower)
            <==> forall i: nat :: i < 60 ==> Padded(OwnPart(a, lower), i) == Padded(OwnPart(b, lower), i)
  {
    NameOfId(a, lower);
    NameOfId(b, lower);
    var s, t := "ws-" + OwnPart(a, lower), "ws-" + OwnPart(b, lower);
    var x, y := if |s| > 63 then s[..63] else s, if |t| > 63 then t[..63] else t;
    SameTrimIff(x, y);
    if forall i: nat :: Padded(x, i) == Padded(y, i) {
      forall i: nat | i < 60 ensures Padded(OwnPart(a, lower), i) == Padded(OwnPart(b, lower), i) {
        assert Padded(x, i + 3) == Padded(y, i + 3);
      }
    }
    if forall i: nat :: i < 60 ==> Padded(OwnPart(a, lower), i) == Padded(OwnPart(b, lower), i) {
      forall i: nat ensures Padded(x, i) == Padded(y, i) {
        assert 3 <= i < 63 ==> Padded(OwnPart(a, lower), i - 3) == Padded(OwnPart(b, lower), i - 3);
      }
    }
  }

  /** So an underscore and a hyphen make no difference, in whatever text they stand. */
  lemma UnderscoreCollides(p: string, q: string, lower: char -> char)
    requires lower('_') == '_' && lower('-') == '-'
    ensures Sanitize("ws-" + p + "_" + q, lower) == Sanitize("ws-" + p + "-" + q, lower)
  {
    assert Hyphenated(Lowered("ws-" + p + "_" + q, lower)) == Hyphenated(Lowered("ws-" + p + "-" + q, lower));
  }
}
