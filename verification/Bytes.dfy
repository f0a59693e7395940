/** Bytes, machine words and the little-endian encoding every trace file uses. */
module Bytes {

  type Byte = b: nat | b < 256

  const U64_SPAN: nat := 0x1_0000_0000_0000_0000

  type U64 = w: nat | w < U64_SPAN

  /** Widths of the format's integer fields, in bytes. */
  const HALF: nat := 4
  const WORD: nat := 8

  datatype Option<+T> = None | Some(value: T)

  function Pow256(n: nat): nat
  {
    if n == 0 then 1 else 256 * Pow256(n - 1)
  }

  /** The low n bytes of v, least significant first. */
  function ToLe(n: nat, v: nat): (s: seq<Byte>)
    ensures |s| == n
  {
    if n == 0 then [] else [v % 256] + ToLe(n - 1, v / 256)
  }

  function FromLe(s: seq<Byte>): nat
  {
    if s == [] then 0 else s[0] + 256 * FromLe(s[1..])
  }

  lemma {:induction false} LeRoundTrip(n: nat, v: nat)
    requires v < Pow256(n)
    ensures FromLe(ToLe(n, v)) == v
  {
    if n == 0 {
    } else {
      LeRoundTrip(n - 1, v / 256);
    }
  }

  lemma {:induction false} LeBound(s: seq<Byte>)
    ensures FromLe(s) < Pow256(|s|)
  {
    if s == [] {
    } else {
      LeBound(s[1..]);
    }
  }

  lemma WordBounds()
    ensures Pow256(HALF) == 0x1_0000_0000 && Pow256(WORD) == U64_SPAN
  {
  }

  /** A 64-bit word read from eight bytes. */
  function ReadU64(s: seq<Byte>): (w: U64)
    requires |s| == WORD
  {
    LeBound(s);
    WordBounds();
    FromLe(s)
  }

  lemma WordRoundTrip(w: U64)
    ensures ReadU64(ToLe(WORD, w)) == w
  {
    WordBounds();
    LeRoundTrip(WORD, w);
  }

  function Min(a: nat, b: nat): nat
  {
    if a < b then a else b
  }

  /** The first n bytes of a zeroed buffer v was copied into. */
  function Fit(v: seq<Byte>, n: nat): (s: seq<Byte>)
    ensures |s| == n
  {
    seq(n, i requires 0 <= i < n => if i < |v| then v[i] else 0)
  }

  function Flatten<T>(ss: seq<seq<T>>): seq<T>
  {
    if ss == [] then [] else ss[0] + Flatten(ss[1..])
  }

  lemma {:induction false} FlattenAppend<T>(a: seq<seq<T>>, b: seq<seq<T>>)
    ensures Flatten(a + b) == Flatten(a) + Flatten(b)
  {
    if a == [] {
      assert a + b == b;
    } else {
      assert (a + b)[1..] == a[1..] + b;
      FlattenAppend(a[1..], b);
    }
  }

  lemma ConcatParts<T>(a: seq<T>, b: seq<T>, c: seq<T>)
    ensures (a + b) + c == a + (b + c)
    ensures (b + c)[|b|..] == c && (b + c)[..|b|] == b
  {
  }

  lemma FlattenSnoc<T>(a: seq<seq<T>>, s: seq<T>)
    ensures Flatten(a + [s]) == Flatten(a) + s
  {
    FlattenAppend(a, [s]);
    assert Flatten([s]) == s + Flatten([]);
  }

  /** memcpy into dst at pos. */
  method CopyInto<T>(dst: array<T>, pos: nat, data: seq<T>) returns (end: nat)
    requires pos + |data| <= dst.Length
    modifies dst
    ensures end == pos + |data|
    ensures dst[..end] == old(dst[..pos]) + data
  {
    forall i | 0 <= i < |data| {
      dst[pos + i] := data[i];
    }
    end := pos + |data|;
  }

  /** How many elements satisfy p. */
  function Count<T>(s: seq<T>, p: T -> bool): (n: nat)
    ensures n <= |s|
  {
    if s == [] then 0 else Count(s[..|s| - 1], p) + if p(s[|s| - 1]) then 1 else 0
  }

  lemma CountSnoc<T>(s: seq<T>, x: T, p: T -> bool)
    ensures Count(s + [x], p) == Count(s, p) + if p(x) then 1 else 0
  {
    assert (s + [x])[..|s|] == s;
  }

  lemma {:induction false} CountAppend<T>(a: seq<T>, b: seq<T>, p: T -> bool)
    ensures Count(a + b, p) == Count(a, p) + Count(b, p)
  {
    if b == [] {
      assert a + b == a;
    } else {
      var n := |b| - 1;
      assert (a + b)[..|a| + n] == a + b[..n];
      CountAppend(a, b[..n], p);
    }
  }

  lemma {:induction false} CountNone<T>(s: seq<T>, p: T -> bool)
    ensures Count(s, p) == 0 <==> forall x :: x in s ==> !p(x)
  {
    if s == [] {
    } else {
      var n := |s| - 1;
      CountNone(s[..n], p);
      assert s == s[..n] + [s[n]];
    }
  }
}
