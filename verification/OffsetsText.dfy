/** What an -offsets text means: it is read token by token, blanks around a number and blank tokens say nothing, and
    one bad token anywhere refuses the whole list. */
module OffsetsText {
  import opened Bytes
  import opened Offsets

  // ---- one token ----

  predicate CommaFree(s: string)
  {
    forall i :: 0 <= i < |s| ==> s[i] != ','
  }

  predicate AllBlank(s: string)
  {
    forall i :: 0 <= i < |s| ==> IsBlank(s[i])
  }

  /** Digits with blanks around them. */
  ghost predicate Spelled(tok: string, l: string, d: string, r: string)
  {
    tok == l + d + r && AllBlank(l) && AllBlank(r) && d != [] && AllDigits(d)
  }

  ghost predicate Spells(tok: string, v: nat)
  {
    exists l, d, r :: Spelled(tok, l, d, r) && Decimal(d) == v
  }

  lemma {:induction false} TrimLeftBlanks(l: string, s: string)
    requires AllBlank(l) && (s != [] ==> !IsBlank(s[0]))
    ensures TrimLeft(l + s) == s
  {
    if l == [] {
      assert l + s == s;
    } else {
      assert (l + s)[1..] == l[1..] + s;
      TrimLeftBlanks(l[1..], s);
    }
  }

  lemma {:induction false} TrimRightBlanks(s: string, r: string)
    requires AllBlank(r) && (s != [] ==> !IsBlank(s[|s| - 1]))
    ensures TrimRight(s + r) == s
  {
    if r == [] {
      assert s + r == s;
    } else {
      assert (s + r)[..|s + r| - 1] == s + r[..|r| - 1];
      TrimRightBlanks(s, r[..|r| - 1]);
    }
  }

  lemma {:induction false} TrimLeftCuts(s: string) returns (n: nat)
    ensures n <= |s| && AllBlank(s[..n]) && TrimLeft(s) == s[n..] && (n < |s| ==> !IsBlank(s[n]))
  {
    if s != [] && IsBlank(s[0]) {
      n := TrimLeftCuts(s[1..]);
      assert forall i :: 0 < i < n + 1 ==> s[i] == s[1..][i - 1];
      n := n + 1;
    } else {
      n := 0;
    }
  }

  lemma {:induction false} TrimRightCuts(s: string) returns (n: nat)
    ensures n <= |s| && AllBlank(s[n..]) && TrimRight(s) == s[..n] && (n > 0 ==> !IsBlank(s[n - 1]))
  {
    if s != [] && IsBlank(s[|s| - 1]) {
      n := TrimRightCuts(s[..|s| - 1]);
      assert s[..|s| - 1][..n] == s[..n] && s[n..] == s[..|s| - 1][n..] + [s[|s| - 1]];
    } else {
      n := |s|;
    }
  }

  /** A token with its blanks, whatever is between them. */
  lemma ReadAround(l: string, core: string, r: string)
    requires AllBlank(l) && AllBlank(r) && core != [] && !IsBlank(core[0]) && !IsBlank(core[|core| - 1])
    ensures ReadToken(l + core + r) == if AllDigits(core) && Decimal(core) < U64_SPAN then Number(Decimal(core))
                                       else Malformed
  {
    assert l + core + r == l + (core + r);
    TrimLeftBlanks(l, core + r);
    TrimRightBlanks(core, r);
  }

  lemma ReadBlank(tok: string)
    requires AllBlank(tok)
    ensures ReadToken(tok) == Empty
  {
    assert tok + [] == tok;
    TrimLeftBlanks(tok, []);
  }

  /** Every token is blank or a core with blanks around it. */
  lemma TokenShape(tok: string) returns (l: string, core: string, r: string)
    requires !AllBlank(tok)
    ensures tok == l + core + r && AllBlank(l) && AllBlank(r)
    ensures core != [] && !IsBlank(core[0]) && !IsBlank(core[|core| - 1])
  {
    var a := TrimLeftCuts(tok);
    assert forall i :: 0 <= i < a ==> tok[i] == tok[..a][i];
    var rest := tok[a..];
    var b := TrimRightCuts(rest);
    assert forall i :: b <= i < |rest| ==> rest[i] == rest[b..][i - b];
    l, core, r := tok[..a], rest[..b], rest[b..];
  }

  lemma SpelledRead(tok: string, l: string, d: string, r: string)
    requires Spelled(tok, l, d, r)
    ensures ReadToken(tok) == if Decimal(d) < U64_SPAN then Number(Decimal(d)) else Malformed
  {
    assert IsDigit(d[0]) && IsDigit(d[|d| - 1]);
    ReadAround(l, d, r);
  }

  lemma SpelledChars(tok: string, l: string, d: string, r: string)
    requires Spelled(tok, l, d, r)
    ensures forall i :: 0 <= i < |tok| ==>
              IsDigit(tok[i]) == (|l| <= i < |l| + |d|) && IsBlank(tok[i]) == !IsDigit(tok[i])
    ensures !AllBlank(tok)
  {
    forall i | 0 <= i < |tok|
      ensures IsDigit(tok[i]) == (|l| <= i < |l| + |d|) && IsBlank(tok[i]) == !IsDigit(tok[i])
    {
      assert tok[i] == if i < |l| then l[i] else if i < |l| + |d| then d[i - |l|] else r[i - |l| - |d|];
    }
    assert IsDigit(tok[|l|]);
  }

  /** A token stands for a number exactly if it is its digits, with blanks around them and nothing else. */
  lemma TokenMeaning(tok: string)
    ensures ReadToken(tok).Empty? <==> AllBlank(tok)
    ensures forall v: U64 :: ReadToken(tok) == Number(v) <==> Spells(tok, v)
  {
    forall l, d, r | Spelled(tok, l, d, r)
      ensures ReadToken(tok) == if Decimal(d) < U64_SPAN then Number(Decimal(d)) else Malformed
      ensures !AllBlank(tok)
    {
      SpelledRead(tok, l, d, r);
      SpelledChars(tok, l, d, r);
    }
    if AllBlank(tok) {
      ReadBlank(tok);
    } else {
      var l, core, r := TokenShape(tok);
      ReadAround(l, core, r);
      assert AllDigits(core) ==> Spelled(tok, l, core, r);
    }
  }

  /** Something that is neither a number nor blank: a character that is neither digit nor blank, a blank inside a
      number, or a number that does not fit in 64 bits. */
  ghost predicate Bad(tok: string)
  {
    || (exists i :: 0 <= i < |tok| && !IsDigit(tok[i]) && !IsBlank(tok[i]))
    || BlankInside(tok)
    || (exists v: nat :: Spells(tok, v) && v >= U64_SPAN)
  }

  ghost predicate BlankInside(tok: string)
  {
    exists i, j, k :: 0 <= i < j < k < |tok| && IsDigit(tok[i]) && IsBlank(tok[j]) && IsDigit(tok[k])
  }

  lemma SpelledTrimmed(tok: string, l: string, d: string, r: string)
    requires Spelled(tok, l, d, r)
    ensures TrimRight(TrimLeft(tok)) == d
  {
    assert IsDigit(d[0]) && IsDigit(d[|d| - 1]) && tok == l + (d + r);
    TrimLeftBlanks(l, d + r);
    TrimRightBlanks(d, r);
  }

  lemma SpelledIsGood(tok: string, l: string, d: string, r: string)
    requires Spelled(tok, l, d, r)
    ensures Bad(tok) <==> Decimal(d) >= U64_SPAN
    ensures Bad(tok) <==> ReadToken(tok) == Malformed
  {
    SpelledChars(tok, l, d, r);
    SpelledRead(tok, l, d, r);
    assert Spells(tok, Decimal(d));
    SpelledTrimmed(tok, l, d, r);
    forall a, e, b | Spelled(tok, a, e, b) ensures e == d {
      SpelledTrimmed(tok, a, e, b);
    }
  }

  lemma ShapeIsBad(tok: string, l: string, core: string, r: string)
    requires tok == l + core + r && AllBlank(l) && AllBlank(r) && !AllDigits(core)
    requires core != [] && !IsBlank(core[0]) && !IsBlank(core[|core| - 1])
    ensures Bad(tok)
  {
    var j :| 0 <= j < |core| && !IsDigit(core[j]);
    var i, k := |l|, |l| + |core| - 1;
    assert tok[i] == core[0] && tok[|l| + j] == core[j] && tok[k] == core[|core| - 1];
    if IsDigit(core[0]) && IsDigit(core[|core| - 1]) && IsBlank(core[j]) {
      assert BlankInside(tok);
    }
  }

  /** The parser's bad tokens are exactly these. */
  lemma MalformedIsBad(tok: string)
    ensures ReadToken(tok) == Malformed <==> Bad(tok)
  {
    forall l, d, r | Spelled(tok, l, d, r) ensures !AllBlank(tok) {
      SpelledChars(tok, l, d, r);
    }
    if AllBlank(tok) {
      ReadBlank(tok);
    } else {
      var l, core, r := TokenShape(tok);
      if AllDigits(core) {
        SpelledIsGood(tok, l, core, r);
      } else {
        ReadAround(l, core, r);
        ShapeIsBad(tok, l, core, r);
      }
    }
  }

  // ---- the whole text ----

  /** One list after the other, if both are good. */
  function Both(a: Option<seq<U64>>, b: Option<seq<U64>>): Option<seq<U64>>
  {
    if a.Some? && b.Some? then Some(a.value + b.value) else None
  }

  lemma FirstComma(a: string, b: string)
    requires CommaFree(a)
    ensures Comma(a) == |a| && Comma(a + "," + b) == |a|
  {
    var s := a + "," + b;
    assert s[|a|] == ',';
    assert forall i :: 0 <= i < |a| ==> s[i] == a[i];
  }

  lemma NumbersOfToken(tok: string)
    requires CommaFree(tok)
    ensures Numbers(tok) == if ReadToken(tok).Malformed? then None else Some(Pushed(ReadToken(tok)))
  {
    FirstComma(tok, "");
    assert tok[..|tok|] == tok;
  }

  lemma NumbersOfFirst(tok: string, rest: string)
    requires CommaFree(tok)
    ensures Numbers(tok + "," + rest) == Both(Numbers(tok), Numbers(rest))
  {
    var s := tok + "," + rest;
    FirstComma(tok, rest);
    NumbersOfToken(tok);
    assert s[..|tok|] == tok && s[|tok| + 1..] == rest;
  }

  lemma BothNothing(a: Option<seq<U64>>)
    ensures Both(a, Some([])) == a == Both(Some([]), a)
  {
    if a.Some? {
      assert a.value + [] == a.value == [] + a.value;
    }
  }

  lemma BothTwice(a: Option<seq<U64>>, b: Option<seq<U64>>, c: Option<seq<U64>>)
    ensures Both(Both(a, b), c) == Both(a, Both(b, c))
  {
    if a.Some? && b.Some? && c.Some? {
      assert (a.value + b.value) + c.value == a.value + (b.value + c.value);
    }
  }

  /** A list continues after a comma: nothing said before it can excuse what comes after, or the other way round. */
  lemma {:induction false} NumbersAppend(a: string, b: string)
    ensures Numbers(a + "," + b) == Both(Numbers(a), Numbers(b))
    decreases |a|
  {
    var n := Comma(a);
    var tok := a[..n];
    if n == |a| {
      assert tok == a;
      NumbersOfFirst(a, b);
    } else {
      var rest := a[n + 1..];
      assert a == tok + "," + rest && a + "," + b == tok + "," + (rest + "," + b);
      NumbersOfFirst(tok, rest);
      NumbersOfFirst(tok, rest + "," + b);
      NumbersAppend(rest, b);
      BothTwice(Numbers(tok), Numbers(rest), Numbers(b));
    }
  }

  function Commas(ts: seq<string>): string
    requires ts != []
  {
    if |ts| == 1 then ts[0] else ts[0] + "," + Commas(ts[1..])
  }

  /** Every text is a list of comma-free tokens. */
  lemma {:induction false} EveryTextIsAList(s: string) returns (ts: seq<string>)
    ensures ts != [] && Commas(ts) == s && forall t :: t in ts ==> CommaFree(t)
    decreases |s|
  {
    var n := Comma(s);
    if n == |s| {
      ts := [s];
    } else {
      var rest := EveryTextIsAList(s[n + 1..]);
      ts := [s[..n]] + rest;
      assert ts[1..] == rest && s == s[..n] + "," + s[n + 1..];
    }
  }

  /** The numbers the tokens stand for, in order; blank tokens stand for none. */
  ghost predicate Reads(ts: seq<string>, vs: seq<U64>)
  {
    if ts == [] then vs == []
    else if AllBlank(ts[0]) then Reads(ts[1..], vs)
    else vs != [] && Spells(ts[0], vs[0]) && Reads(ts[1..], vs[1..])
  }

  lemma FirstReads(t: string, rest: Option<seq<U64>>, vs: seq<U64>)
    requires CommaFree(t)
    ensures Both(Numbers(t), rest) == Some(vs) <==>
              if AllBlank(t) then rest == Some(vs) else vs != [] && Spells(t, vs[0]) && rest == Some(vs[1..])
  {
    NumbersOfToken(t);
    TokenMeaning(t);
    if rest.Some? {
      assert [] + rest.value == rest.value;
      if ReadToken(t).Number? {
        var v := ReadToken(t).value;
        assert Spells(t, v) && ([v] + rest.value)[1..] == rest.value;
        assert vs != [] ==> vs == [vs[0]] + vs[1..];
      }
    }
  }

  lemma {:induction false} NumbersMeaning(ts: seq<string>, vs: seq<U64>)
    requires ts != [] && forall t :: t in ts ==> CommaFree(t)
    ensures Numbers(Commas(ts)) == Some(vs) <==> Reads(ts, vs)
    decreases |ts|
  {
    assert ts[0] in ts;
    if |ts| == 1 {
      FirstReads(ts[0], Some([]), vs);
      BothNothing(Numbers(ts[0]));
    } else {
      var rest := ts[1..];
      NumbersAppend(ts[0], Commas(rest));
      FirstReads(ts[0], Numbers(Commas(rest)), vs);
      NumbersMeaning(rest, vs);
      if vs != [] {
        NumbersMeaning(rest, vs[1..]);
      }
    }
  }

  /** The parser's answer for any text: the list the tokens spell, if they all do and it is not empty. */
  lemma ParsedMeaning(ts: seq<string>, vs: seq<U64>)
    requires ts != [] && forall t :: t in ts ==> CommaFree(t)
    ensures Parsed(Commas(ts)) == Some(vs) <==> vs != [] && Reads(ts, vs)
  {
    NumbersMeaning(ts, vs);
  }

  lemma {:induction false} NumbersRefused(ts: seq<string>)
    requires ts != [] && forall t :: t in ts ==> CommaFree(t)
    ensures Numbers(Commas(ts)) == None <==> exists t :: t in ts && Bad(t)
    decreases |ts|
  {
    assert ts[0] in ts;
    MalformedIsBad(ts[0]);
    NumbersOfToken(ts[0]);
    if |ts| > 1 {
      NumbersAppend(ts[0], Commas(ts[1..]));
      NumbersRefused(ts[1..]);
      assert forall t :: t in ts <==> t == ts[0] || t in ts[1..];
    }
  }

  lemma FirstEmpty(t: string, rest: Option<seq<U64>>)
    requires CommaFree(t)
    ensures Both(Numbers(t), rest) == Some([]) <==> AllBlank(t) && rest == Some([])
  {
    TokenMeaning(t);
    NumbersOfToken(t);
    BothNothing(rest);
  }

  lemma {:induction false} NumbersEmpty(ts: seq<string>)
    requires ts != [] && forall t :: t in ts ==> CommaFree(t)
    ensures Numbers(Commas(ts)) == Some([]) <==> forall t :: t in ts ==> AllBlank(t)
    decreases |ts|
  {
    assert ts[0] in ts;
    if |ts| == 1 {
      BothNothing(Numbers(ts[0]));
      FirstEmpty(ts[0], Some([]));
    } else {
      NumbersAppend(ts[0], Commas(ts[1..]));
      FirstEmpty(ts[0], Numbers(Commas(ts[1..])));
      NumbersEmpty(ts[1..]);
      assert forall t :: t in ts <==> t == ts[0] || t in ts[1..];
    }
  }

  /** A text is refused if and only if some token is bad or all are blank. */
  lemma RefusedExactly(ts: seq<string>)
    requires ts != [] && forall t :: t in ts ==> CommaFree(t)
    ensures Parsed(Commas(ts)) == None <==> (exists t :: t in ts && Bad(t)) || (forall t :: t in ts ==> AllBlank(t))
  {
    NumbersRefused(ts);
    NumbersEmpty(ts);
  }

  // ---- one token among others ----

  /** One bad token, wherever it stands, refuses the whole list. */
  lemma BadTokenRefused(a: string, tok: string, b: string)
    requires CommaFree(tok) && Bad(tok)
    ensures Parsed(a + "," + tok + "," + b) == None
    ensures Parsed(tok + "," + b) == None && Parsed(a + "," + tok) == None && Parsed(tok) == None
  {
    MalformedIsBad(tok);
    NumbersOfToken(tok);
    NumbersAppend(tok, b);
    NumbersAppend(a, tok);
    NumbersAppend(a + "," + tok, b);
  }

  lemma ReadWithBlanks(l: string, tok: string, r: string)
    requires AllBlank(l) && AllBlank(r)
    ensures ReadToken(l + tok + r) == ReadToken(tok)
  {
    if AllBlank(tok) {
      ReadBlank(tok);
      ReadBlank(l + tok + r);
    } else {
      var a, core, b := TokenShape(tok);
      ReadAround(a, core, b);
      ReadAround(l + a, core, b + r);
      assert l + tok + r == (l + a) + core + (b + r);
    }
  }

  lemma SameNumbers(l: string, tok: string, r: string)
    requires AllBlank(l) && AllBlank(r) && CommaFree(tok)
    ensures Numbers(l + tok + r) == Numbers(tok) && CommaFree(l + tok + r)
  {
    ReadWithBlanks(l, tok, r);
    NumbersOfToken(l + tok + r);
    NumbersOfToken(tok);
  }

  /** Blanks around a token never change the answer, wherever it stands. */
  lemma BlanksIgnored(a: string, l: string, tok: string, r: string, b: string)
    requires AllBlank(l) && AllBlank(r) && CommaFree(tok)
    ensures Parsed(a + "," + (l + tok + r) + "," + b) == Parsed(a + "," + tok + "," + b)
    ensures Parsed((l + tok + r) + "," + b) == Parsed(tok + "," + b)
    ensures Parsed(a + "," + (l + tok + r)) == Parsed(a + "," + tok)
  {
    var wide := l + tok + r;
    SameNumbers(l, tok, r);
    NumbersAppend(a, wide);
    NumbersAppend(a, tok);
    NumbersAppend(wide, b);
    NumbersAppend(tok, b);
    NumbersAppend(a + "," + wide, b);
    NumbersAppend(a + "," + tok, b);
  }

  /** Nor do blank or empty tokens. */
  lemma BlankTokensIgnored(a: string, blank: string, b: string)
    requires AllBlank(blank)
    ensures Parsed(a + "," + blank + "," + b) == Parsed(a + "," + b)
    ensures Parsed(blank + "," + b) == Parsed(b) && Parsed(a + "," + blank) == Parsed(a)
  {
    ReadBlank(blank);
    NumbersOfToken(blank);
    NumbersAppend(blank, b);
    NumbersAppend(a, blank);
    NumbersAppend(a, b);
    NumbersAppend(a + "," + blank, b);
    BothNothing(Numbers(a));
    BothNothing(Numbers(b));
  }

  // ---- digits ----

  function Ten(n: nat): nat
  {
    if n == 0 then 1 else 10 * Ten(n - 1)
  }

  lemma Shift(x: nat, p: nat, y: nat)
    ensures x * (10 * p) + 10 * y == 10 * (x * p + y)
  {
  }

  /** Place value: what is in front counts for ten to the number of digits behind it. */
  lemma {:induction false} PlaceValue(a: string, b: string)
    requires AllDigits(a) && AllDigits(b)
    ensures AllDigits(a + b) && Decimal(a + b) == Decimal(a) * Ten(|b|) + Decimal(b)
  {
    if b == [] {
      assert a + b == a;
    } else {
      var front := b[..|b| - 1];
      PlaceValue(a, front);
      assert (a + b)[..|a + b| - 1] == a + front && Ten(|b|) == 10 * Ten(|front|);
      Shift(Decimal(a), Ten(|front|), Decimal(front));
    }
  }
}
