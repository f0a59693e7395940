/** The -offsets list: parsing it, validating it, and what its skips add up to. */
module Offsets {
  import opened Bytes
  import opened PinSpec

  // ---- the text ----

  predicate IsDigit(c: char)
  {
    '0' <= c <= '9'
  }

  predicate AllDigits(s: string)
  {
    forall i :: 0 <= i < |s| ==> IsDigit(s[i])
  }

  predicate IsBlank(c: char)
  {
    c == ' ' || c == '\t'
  }

  /** What strtoull makes of a string of digits, before its range check. */
  function Decimal(s: string): nat
    requires AllDigits(s)
  {
    if s == [] then 0 else 10 * Decimal(s[..|s| - 1]) + (s[|s| - 1] as nat - '0' as nat)
  }

  function TrimLeft(s: string): string
  {
    if s != [] && IsBlank(s[0]) then TrimLeft(s[1..]) else s
  }

  function TrimRight(s: string): string
  {
    if s != [] && IsBlank(s[|s| - 1]) then TrimRight(s[..|s| - 1]) else s
  }

  /** The index of the first comma, or the length. */
  function Comma(s: string): (n: nat)
    ensures n <= |s| && (n < |s| ==> s[n] == ',') && forall i :: 0 <= i < n ==> s[i] != ','
  {
    if s == [] || s[0] == ',' then 0 else 1 + Comma(s[1..])
  }

  /** One trimmed token: nothing, a number below 2^64, or malformed. */
  datatype Token = Empty | Number(value: U64) | Malformed

  function ReadToken(text: string): Token
  {
    var tok := TrimRight(TrimLeft(text));
    if tok == [] then Empty
    else if !AllDigits(tok) || Decimal(tok) >= U64_SPAN then Malformed
    else Number(Decimal(tok))
  }

  /** What has been pushed so far, in front of what the rest of the text holds. */
  function Joined(out: seq<U64>, rest: Option<seq<U64>>): Option<seq<U64>>
  {
    match rest case None => None case Some(vs) => Some(out + vs)
  }

  /** What a token adds to the list. */
  function Pushed(tok: Token): seq<U64>
  {
    if tok.Number? then [tok.value] else []
  }

  /** The numbers of a comma-separated list; empty tokens are skipped, a malformed one spoils it. */
  function Numbers(s: string): Option<seq<U64>>
    decreases |s|
  {
    var n := Comma(s);
    var tok := ReadToken(s[..n]);
    if tok.Malformed? then None
    else if n == |s| then Some(Pushed(tok))
    else Joined(Pushed(tok), Numbers(s[n + 1..]))
  }

  /** The list that was asked for, if it is well formed and not empty. */
  function Parsed(s: string): Option<seq<U64>>
  {
    var vs := Numbers(s);
    if vs == Some([]) then None else vs
  }

  method FindComma(s: string, pos: nat) returns (comma: nat)
    requires pos <= |s|
    ensures comma == pos + Comma(s[pos..])
  {
    comma := pos;
    while comma < |s| && s[comma] != ','
      invariant pos <= comma <= |s|
      invariant pos + Comma(s[pos..]) == comma + Comma(s[comma..])
    {
      assert s[comma..][1..] == s[comma + 1..];
      comma := comma + 1;
    }
  }

  /** The token at pos, pushed if it is a number, and where it ends. */
  method TakeToken(s: string, pos: nat, out: seq<U64>) returns (tok: Token, comma: nat, out': seq<U64>)
    requires pos <= |s|
    ensures pos <= comma <= |s|
    ensures Joined(out, Numbers(s[pos..])) == if tok.Malformed? then None
                                              else if comma == |s| then Some(out')
                                              else Joined(out', Numbers(s[comma + 1..]))
  {
    comma := FindComma(s, pos);
    tok := ReadToken(s[pos..comma]);
    NumbersStep(s, pos, comma, out);
    out' := if tok.Number? then out + [tok.value] else out;
  }

  /** parse_offsets: one token per turn; a malformed one refuses the whole list. */
  method ParseOffsets(s: string) returns (r: Option<seq<U64>>)
    ensures r == Parsed(s)
  {
    var out: seq<U64>, pos, more := [], 0, true;
    assert s[0..] == s;
    JoinedNothing(Numbers(s));
    while more
      invariant pos <= |s|
      invariant Numbers(s) == if more then Joined(out, Numbers(s[pos..])) else Some(out)
      decreases more, |s| - pos
    {
      var tok, comma;
      tok, comma, out := TakeToken(s, pos, out);
      if tok.Malformed? {
        return None;
      }
      if comma == |s| {
        more := false;
      } else {
        pos := comma + 1;
      }
    }
    r := if out == [] then None else Some(out);
  }

  lemma JoinedNothing(vs: Option<seq<U64>>)
    ensures Joined([], vs) == vs
  {
    assert vs.Some? ==> [] + vs.value == vs.value;
  }

  lemma JoinedTwice(out: seq<U64>, head: seq<U64>, rest: Option<seq<U64>>)
    ensures Joined(out, Joined(head, rest)) == Joined(out + head, rest)
  {
    if rest.Some? {
      assert out + (head + rest.value) == (out + head) + rest.value;
    }
  }

  /** The first token of a text, and the others. */
  lemma NumbersSplit(t: string, out: seq<U64>)
    ensures var n := Comma(t);
            var tok := ReadToken(t[..n]);
            Joined(out, Numbers(t)) == if tok.Malformed? then None
                                       else if n == |t| then Some(out + Pushed(tok))
                                       else Joined(out + Pushed(tok), Numbers(t[n + 1..]))
  {
    var n := Comma(t);
    if n < |t| {
      JoinedTwice(out, Pushed(ReadToken(t[..n])), Numbers(t[n + 1..]));
    }
  }

  lemma NumbersStep(s: string, pos: nat, comma: nat, out: seq<U64>)
    requires pos <= |s| && comma == pos + Comma(s[pos..])
    ensures var tok := ReadToken(s[pos..comma]);
            var out' := if tok.Number? then out + [tok.value] else out;
            Joined(out, Numbers(s[pos..]))
            == if tok.Malformed? then None
               else if comma == |s| then Some(out')
               else Joined(out', Numbers(s[comma + 1..]))
  {
    var t, n := s[pos..], comma - pos;
    NumbersSplit(t, out);
    assert t[..n] == s[pos..comma] && (comma < |s| ==> t[n + 1..] == s[comma + 1..]);
    var tok := ReadToken(s[pos..comma]);
    assert out + Pushed(tok) == if tok.Number? then out + [tok.value] else out;
  }

  // ---- round trip ----

  function Digits(v: nat): (s: string)
    ensures s != [] && AllDigits(s) && Decimal(s) == v
  {
    var low := ('0' as nat + v % 10) as char;
    if v < 10 then [low] else
    var s := Digits(v / 10) + [low];
    assert s[..|s| - 1] == Digits(v / 10);
    s
  }

  function Render(vs: seq<U64>): string
  {
    if vs == [] then "" else if |vs| == 1 then Digits(vs[0]) else Digits(vs[0]) + "," + Render(vs[1..])
  }

  lemma DigitsToken(v: U64)
    ensures ReadToken(Digits(v)) == Number(v)
  {
  }

  lemma {:induction false} CommaAfterDigits(s: string, rest: string)
    requires AllDigits(s)
    ensures Comma(s) == |s| && Comma(s + "," + rest) == |s|
  {
    if s == [] {
      assert s + "," + rest == "," + rest;
    } else {
      assert s[0] in s && AllDigits(s[1..]);
      CommaAfterDigits(s[1..], rest);
      assert (s + "," + rest)[1..] == s[1..] + "," + rest;
    }
  }

  lemma {:induction false} NumbersOfRender(vs: seq<U64>)
    ensures Numbers(Render(vs)) == Some(vs)
  {
    if vs == [] {
    } else {
      var d, rest := Digits(vs[0]), Render(vs[1..]);
      DigitsToken(vs[0]);
      CommaAfterDigits(d, rest);
      assert [vs[0]] + vs[1..] == vs;
      if |vs| == 1 {
        assert d[..|d|] == d && vs == [vs[0]];
      } else {
        NumbersOfRender(vs[1..]);
        var s := d + "," + rest;
        assert s[..|d|] == d && s[|d| + 1..] == rest;
      }
    }
  }

  /** Every non-empty list survives being written out and parsed; the empty list is refused. */
  lemma ParseRoundTrip(vs: seq<U64>)
    ensures Parsed(Render(vs)) == if vs == [] then None else Some(vs)
  {
    NumbersOfRender(vs);
  }

  // ---- validation ----

  /** validate_offsets. */
  method ValidateOffsets(k: Knobs) returns (ok: bool)
    ensures ok == OffsetsAccepted(k)
  {
    if k.useMarkers || k.initialSkip != 0 || k.interSkip != 0 {
      return false;
    }
    if k.offsets == [] {
      return true;
    }
    for i := 1 to |k.offsets|
      invariant forall j :: 0 < j < i ==>
                  k.offsets[j - 1] < k.offsets[j] && k.offsets[j] - k.offsets[j - 1] >= k.traceCount
    {
      if k.offsets[i] <= k.offsets[i - 1] || k.offsets[i] - k.offsets[i - 1] < k.traceCount {
        return false;
      }
    }
    ok := true;
  }

  /** Instruction x is in region i. */
  predicate InRegion(k: Knobs, i: nat, x: int)
    requires i < |k.offsets|
  {
    k.offsets[i] <= x < k.offsets[i] + k.traceCount
  }

  ghost predicate Increasing(k: Knobs)
  {
    forall i: nat, j: nat :: i < j < |k.offsets| ==> k.offsets[i] < k.offsets[j]
  }

  ghost predicate Disjoint(k: Knobs)
  {
    forall i: nat, j: nat, x: int :: i < j < |k.offsets| ==> !(InRegion(k, i, x) && InRegion(k, j, x))
  }

  /** With an accepted list every region ends before any later one starts. */
  lemma {:induction false} RegionsInOrder(k: Knobs, i: nat, j: nat)
    requires OffsetsAccepted(k) && i < j < |k.offsets|
    ensures k.offsets[i] < k.offsets[j] && k.offsets[i] + k.traceCount <= k.offsets[j]
    decreases j
  {
    if i < j - 1 {
      RegionsInOrder(k, i, j - 1);
    }
  }

  /** What is accepted: a list that is the only thing asked for, of regions in order, no instruction in two of them. */
  lemma AcceptedMeansDisjoint(k: Knobs)
    ensures OffsetsAccepted(k)
            <==> !k.useMarkers && k.initialSkip == 0 && k.interSkip == 0 && Increasing(k) && Disjoint(k)
  {
    if OffsetsAccepted(k) {
      forall i: nat, j: nat | i < j < |k.offsets|
        ensures k.offsets[i] < k.offsets[j] && k.offsets[i] + k.traceCount <= k.offsets[j]
      {
        RegionsInOrder(k, i, j);
      }
    }
    if Increasing(k) && Disjoint(k) {
      forall i | 0 < i < |k.offsets|
        ensures k.offsets[i - 1] < k.offsets[i] && k.offsets[i] - k.offsets[i - 1] >= k.traceCount
      {
        assert !(InRegion(k, i - 1, k.offsets[i]) && InRegion(k, i, k.offsets[i]));
      }
    }
  }

  // ---- the budgets telescope ----

  /** The skip before region i. */
  function Budget(k: Knobs, i: nat): int
    requires i < |k.offsets|
  {
    if i == 0 then k.offsets[0] else Gap(k, i)
  }

  function Budgets(k: Knobs, n: nat): int
    requires n <= |k.offsets|
  {
    if n == 0 then 0 else Budgets(k, n - 1) + Budget(k, n - 1)
  }

  /** Skips and windows before region i add up to exactly offsets[i], and no skip is negative. */
  lemma {:induction false} BudgetsTelescope(k: Knobs, i: nat)
    requires OffsetsAccepted(k) && i < |k.offsets|
    ensures Budgets(k, i + 1) + i * k.traceCount == k.offsets[i]
    ensures Budget(k, i) >= 0
  {
    if i > 0 {
      BudgetsTelescope(k, i - 1);
      assert i * k.traceCount == (i - 1) * k.traceCount + k.traceCount;
    } else {
      assert Budgets(k, 1) == Budgets(k, 0) + Budget(k, 0);
    }
  }

  // ---- one skip ----

  predicate Skipping(t: Thread)
  {
    t.phase == InitialSkip || t.phase == InterSkip
  }

  function SkipBlock(k: Knobs, t: Thread, icount: nat): Thread
  {
    if t.counter > icount then t.(counter := t.counter - icount) else StartSample(k, t)
  }

  function Total(ns: seq<nat>): nat
  {
    if ns == [] then 0 else Total(ns[..|ns| - 1]) + ns[|ns| - 1]
  }

  function SkipBlocks(k: Knobs, t: Thread, ns: seq<nat>): Thread
  {
    if ns == [] then t else
    var before := SkipBlocks(k, t, ns[..|ns| - 1]);
    if Skipping(before) then SkipBlock(k, before, ns[|ns| - 1]) else before
  }

  /** A skip of B instructions is still going after some blocks exactly while they total less than B; so it
      ends in the block where S < B <= S + n. */
  lemma {:induction false} SkipEndsInItsBlock(k: Knobs, t: Thread, ns: seq<nat>)
    requires Skipping(t) && t.counter >= 1
    ensures var s := SkipBlocks(k, t, ns);
            if Total(ns) < t.counter then s == t.(counter := t.counter - Total(ns))
            else s == StartSample(k, t)
  {
    if ns == [] {
    } else {
      SkipEndsInItsBlock(k, t, ns[..|ns| - 1]);
    }
  }
}
