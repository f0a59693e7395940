/** What -n and chunk-by-chunk conversion do to the converter's output. */
module ConvertLaws {
  import opened Bytes
  import opened ChampSim
  import opened Convert
  import opened RawFormat

  // ---- -n COUNT ----

  /** -n k stopped before a record whose memory operations are cut off or corrupt, so it writes the record
      that a full run, hitting the error, throws away. */
  predicate OutrunsTheError(decode: Decoder, arch: Byte, sc: Scanned, k: nat)
  {
    && 0 < k == |sc.frames| && Aborts(sc.stop)
    && Decidable(Base(decode, arch, sc.frames[k - 1].rec))
  }

  /** The first k records do not depend on what follows the k-th, except for a direction that needs it. */
  lemma DirectedPrefix(decode: Decoder, arch: Byte, rs: seq<RawRecord>, k: nat, i: nat)
    requires i < k <= |rs|
    requires i + 1 < k || Decidable(Base(decode, arch, rs[i]))
    ensures Directed(decode, arch, rs[..k], i) == Directed(decode, arch, rs, i)
  {
  }

  lemma RecordsPrefix(fs: seq<Frame>, k: nat)
    requires k <= |fs|
    ensures Records(fs[..k]) == Records(fs)[..k]
  {
  }

  /** -n k writes k records, or k - 1 when the k-th has no direction of its own. */
  lemma LimitLength(decode: Decoder, arch: Byte, sc: Scanned, k: nat)
    requires 0 < k <= |sc.frames|
    ensures var part := ConvertedFrom(decode, arch, Limited(sc, k)).out;
            |part| == if Decidable(Base(decode, arch, sc.frames[k - 1].rec)) then k else k - 1
  {
  }

  /** The output of -n k is a prefix of the full output, except exactly when it outruns an error; then it
      is the full output and one more record. */
  lemma LimitIsPrefix(decode: Decoder, arch: Byte, sc: Scanned, k: nat)
    requires k > 0
    ensures var part := ConvertedFrom(decode, arch, Limited(sc, k)).out;
            var full := ConvertedFrom(decode, arch, sc).out;
            && (part <= full <==> !OutrunsTheError(decode, arch, sc, k))
            && (OutrunsTheError(decode, arch, sc, k) ==> |part| == |full| + 1 && full <= part)
            && (k > |sc.frames| ==> part == full)
  {
    if k <= |sc.frames| {
      var rs := Records(sc.frames);
      RecordsPrefix(sc.frames, k);
      LimitLength(decode, arch, sc, k);
      var part := ConvertedFrom(decode, arch, Limited(sc, k)).out;
      var full := ConvertedFrom(decode, arch, sc).out;
      forall i | 0 <= i < Min(|part|, |full|) ensures part[i] == full[i] {
        DirectedPrefix(decode, arch, rs, k, i);
      }
    }
  }

  const NOTHING_DECODED: Decoder := (_, _) => DecodedRegs(false, 0, 0, [], [])

  lemma TruncatedOpStops(l: Layout, r: RawRecord)
    requires r.vcpu < 16 && r.privilege < 2 && 1 <= |r.insn| <= MAX_INSN_SIZE && 0 < |r.ops| <= MAX_MEM_OPS
    ensures Scan(l, RecordHead(r)) == Scanned([], TruncatedOp)
  {
    var n := |r.insn|;
    var h := EncodeHeader(r.vcpu, r.privilege, n, |r.ops|);
    var s := RecordHead(r);
    assert s[..4] == ToLe(HALF, h) && s[12 + n..] == [];
    HeaderWordRoundTrip(h);
    HeaderFields(r.vcpu, r.privilege, n, |r.ops|);
  }

  lemma ScanFirst(l: Layout, r: RawRecord, rest: seq<Byte>)
    requires ValidRecord(l, r)
    ensures Scan(l, Serialize(l, r) + rest)
            == Scanned([Frame(Serialize(l, r), r)] + Scan(l, rest).frames, Scan(l, rest).stop)
  {
    RecordRoundTrip(l, r, rest);
    var one := Serialize(l, r);
    assert (one + rest)[|one|..] == rest && (one + rest)[..|one|] == one;
  }

  const NO_FLAGS: Layout := Layout(false, false)
  const GOOD: RawRecord := RawRecord(0, 0, 0x1000, [0x90], [])
  const BAD: RawRecord := GOOD.(ops := [MemOp(0, 0, 8, 0, [])])

  /** One good record, then one cut off inside its first memory operation. */
  function CutOffFile(): seq<Byte>
  {
    FileHeader(0, 0, NO_FLAGS) + (Serialize(NO_FLAGS, GOOD) + RecordHead(BAD))
  }

  lemma CutOffScan()
    ensures ReadHeader(CutOffFile()) == Opened(3, 0, 0, NO_FLAGS)
    ensures Scan(NO_FLAGS, CutOffFile()[FILE_HEADER_SIZE..])
            == Scanned([Frame(Serialize(NO_FLAGS, GOOD), GOOD)], TruncatedOp)
  {
    var body := Serialize(NO_FLAGS, GOOD) + RecordHead(BAD);
    FileHeaderRoundTrip(0, 0, NO_FLAGS, body);
    assert CutOffFile()[FILE_HEADER_SIZE..] == body;
    ScanFirst(NO_FLAGS, GOOD, RecordHead(BAD));
    TruncatedOpStops(NO_FLAGS, BAD);
  }

  /** A file on which -n 1 writes one record and a full run none. */
  lemma LimitCanOutrunAnError()
    ensures exists x :: ConversionOf(NOTHING_DECODED, CutOffFile(), 1) == Converted([x], 1, false)
    ensures ConversionOf(NOTHING_DECODED, CutOffFile(), 0) == Converted([], 1, true)
  {
    CutOffScan();
    var sc := Scanned([Frame(Serialize(NO_FLAGS, GOOD), GOOD)], TruncatedOp);
    LimitIsPrefix(NOTHING_DECODED, 0, sc, 1);
    var c := ConvertedFrom(NOTHING_DECODED, 0, Limited(sc, 1));
    assert c.out == [c.out[0]];
  }

  // ---- chunk by chunk ----

  /** Each chunk read to its end, converted on its own, and the outputs concatenated. */
  function ChunkByChunk(decode: Decoder, arch: Byte, cs: seq<seq<RawRecord>>): seq<OutRecord>
  {
    if cs == [] then [] else Output(decode, arch, cs[0], End) + ChunkByChunk(decode, arch, cs[1..])
  }

  /** Record i of the whole capture is the last one of some chunk. */
  ghost predicate ChunkEnd(cs: seq<seq<RawRecord>>, i: nat)
  {
    exists j :: 0 <= j <= |cs| && |Flatten(cs[..j])| == i + 1
  }

  function Select<T>(s: seq<T>, keep: seq<bool>): seq<T>
    requires |keep| == |s|
  {
    if s == [] then [] else (if keep[0] then [s[0]] else []) + Select(s[1..], keep[1..])
  }

  /** The records a chunked conversion keeps, of the first n: all but those that end a chunk and are
      CONDITIONAL or OTHER. */
  ghost function Survivors(decode: Decoder, arch: Byte, cs: seq<seq<RawRecord>>, n: nat): (keep: seq<bool>)
    requires n <= |Flatten(cs)|
    ensures |keep| == n
  {
    var whole := Flatten(cs);
    seq(n, i requires 0 <= i < n => !ChunkEnd(cs, i) || Decidable(Base(decode, arch, whole[i])))
  }

  lemma TailAppend<T>(a: seq<T>, b: seq<T>)
    requires a != []
    ensures (a + b)[0] == a[0] && (a + b)[1..] == a[1..] + b
  {
  }

  lemma {:induction false} SelectAppend<T>(a: seq<T>, b: seq<T>, ka: seq<bool>, kb: seq<bool>)
    requires |ka| == |a| && |kb| == |b|
    ensures Select(a + b, ka + kb) == Select(a, ka) + Select(b, kb)
  {
    if a == [] {
      assert a + b == b && ka + kb == kb;
    } else {
      TailAppend(a, b);
      TailAppend(ka, kb);
      SelectAppend(a[1..], b, ka[1..], kb);
      ConcatParts(if ka[0] then [a[0]] else [], Select(a[1..], ka[1..]), Select(b, kb));
    }
  }

  lemma {:induction false} SelectAll<T>(s: seq<T>, keep: seq<bool>)
    requires |keep| == |s| && forall i :: 0 <= i < |keep| ==> keep[i]
    ensures Select(s, keep) == s
  {
    if s == [] {
    } else {
      SelectAll(s[1..], keep[1..]);
    }
  }

  /** All but perhaps the last. */
  lemma SelectButLast<T>(s: seq<T>, keep: seq<bool>)
    requires 0 < |keep| == |s| && forall i :: 0 <= i < |keep| - 1 ==> keep[i]
    ensures Select(s, keep) == if keep[|s| - 1] then s else s[..|s| - 1]
  {
  }

  lemma PrefixLengths(cs: seq<seq<RawRecord>>, j: nat)
    requires cs != [] && 0 < j <= |cs|
    ensures |Flatten(cs[..j])| == |cs[0]| + |Flatten(cs[1..][..j - 1])|
  {
    assert cs[..j][1..] == cs[1..][..j - 1];
  }

  /** Inside the first chunk, only its last record ends a chunk. */
  lemma ChunkEndHead(cs: seq<seq<RawRecord>>, i: nat)
    requires cs != [] && i < |cs[0]|
    ensures ChunkEnd(cs, i) <==> i + 1 == |cs[0]|
  {
    forall j | 0 <= j <= |cs| ensures |Flatten(cs[..j])| == i + 1 ==> i + 1 == |cs[0]| {
      if j > 0 {
        PrefixLengths(cs, j);
      }
    }
    PrefixLengths(cs, 1);
    assert |Flatten(cs[..1])| == |cs[0]|;
  }

  /** Past the first chunk, the ends are those of the other chunks. */
  lemma ChunkEndTail(cs: seq<seq<RawRecord>>, i: nat)
    requires cs != [] && i >= |cs[0]|
    ensures ChunkEnd(cs, i) <==> ChunkEnd(cs[1..], i - |cs[0]|)
  {
    var n, rest := |cs[0]|, cs[1..];
    if ChunkEnd(cs, i) {
      var j :| 0 <= j <= |cs| && |Flatten(cs[..j])| == i + 1;
      if j == 0 {
        assert false;
      }
      PrefixLengths(cs, j);
      assert |Flatten(rest[..j - 1])| == i - n + 1;
    }
    if ChunkEnd(rest, i - n) {
      var j :| 0 <= j <= |rest| && |Flatten(rest[..j])| == i - n + 1;
      PrefixLengths(cs, j + 1);
      assert |Flatten(cs[..j + 1])| == i + 1;
    }
  }

  /** A chunk followed by more records: the whole conversion is this chunk's records, directed by what
      follows, then the conversion of the rest. */
  lemma OutputSplits(decode: Decoder, arch: Byte, c: seq<RawRecord>, w: seq<RawRecord>)
    requires w != []
    ensures Output(decode, arch, c + w, End)
            == FirstDirected(decode, arch, c + w, |c|) + Output(decode, arch, w, End)
  {
    var all := c + w;
    assert all[|all| - 1] == w[|w| - 1];
    forall i | 0 <= i < |w| ensures Directed(decode, arch, all, |c| + i) == Directed(decode, arch, w, i) {
      assert all[|c| + i] == w[i];
      assert i + 1 < |w| ==> all[|c| + i + 1] == w[i + 1];
    }
  }

  /** On its own, the chunk gives the same records, less a last one whose direction only its successor
      could tell. */
  lemma OutputAlone(decode: Decoder, arch: Byte, c: seq<RawRecord>, w: seq<RawRecord>)
    ensures Output(decode, arch, c, End)
            == FirstDirected(decode, arch, c + w, |c|)[..Kept(decode, arch, c, End)]
  {
    forall i | 0 <= i < Kept(decode, arch, c, End)
      ensures Directed(decode, arch, c, i) == Directed(decode, arch, c + w, i)
    {
      assert (c + w)[..|c|] == c;
      DirectedPrefix(decode, arch, c + w, |c|, i);
    }
  }

  /** In the first chunk every record survives, except a last one without a direction of its own. */
  lemma HeadFlags(decode: Decoder, arch: Byte, cs: seq<seq<RawRecord>>)
    requires cs != []
    ensures |cs[0]| <= |Flatten(cs)|
    ensures forall i :: 0 <= i < |cs[0]| ==> Survivors(decode, arch, cs, |cs[0]|)[i]
                                             == (i + 1 < |cs[0]| || Decidable(Base(decode, arch, cs[0][i])))
  {
    var c := cs[0];
    forall i | 0 <= i < |c|
      ensures Survivors(decode, arch, cs, |c|)[i] == (i + 1 < |c| || Decidable(Base(decode, arch, c[i])))
    {
      ChunkEndHead(cs, i);
      assert Flatten(cs)[i] == c[i];
    }
  }

  /** The first chunk's share of the survivors. */
  lemma HeadSurvivors(decode: Decoder, arch: Byte, c: seq<RawRecord>, w: seq<RawRecord>, keep: seq<bool>)
    requires |keep| == |c|
    requires forall i :: 0 <= i < |c| ==> keep[i] == (i + 1 < |c| || Decidable(Base(decode, arch, c[i])))
    ensures Select(FirstDirected(decode, arch, c + w, |c|), keep) == Output(decode, arch, c, End)
  {
    OutputAlone(decode, arch, c, w);
    if c != [] {
      SelectButLast(FirstDirected(decode, arch, c + w, |c|), keep);
    }
  }

  lemma SurvivorsSplit(decode: Decoder, arch: Byte, cs: seq<seq<RawRecord>>, n: nat)
    requires cs != [] && n <= |Flatten(cs[1..])|
    ensures Survivors(decode, arch, cs, |cs[0]| + n)
            == Survivors(decode, arch, cs, |cs[0]|) + Survivors(decode, arch, cs[1..], n)
  {
    var c := |cs[0]|;
    forall i | 0 <= i < n
      ensures Survivors(decode, arch, cs, c + n)[c + i] == Survivors(decode, arch, cs[1..], n)[i]
    {
      ChunkEndTail(cs, c + i);
    }
  }

  /** Nothing follows the first chunk: the whole conversion drops its last record too. */
  lemma OnlyChunk(decode: Decoder, arch: Byte, cs: seq<seq<RawRecord>>)
    requires cs != [] && Flatten(cs[1..]) == []
    ensures var whole := Output(decode, arch, Flatten(cs), End);
            && whole == Output(decode, arch, cs[0], End)
            && Select(whole, Survivors(decode, arch, cs, |whole|)) == whole
  {
    var c := cs[0];
    assert c + [] == c;
    var n := Kept(decode, arch, c, End);
    forall i | 0 <= i < n ensures Survivors(decode, arch, cs, n)[i] {
      ChunkEndHead(cs, i);
    }
    SelectAll(Output(decode, arch, c, End), Survivors(decode, arch, cs, n));
  }

  lemma SelectParts<T>(whole: seq<T>, keep: seq<bool>, a: seq<T>, b: seq<T>, ka: seq<bool>, kb: seq<bool>)
    requires |ka| == |a| && |kb| == |b| && whole == a + b && keep == ka + kb
    ensures Select(whole, keep) == Select(a, ka) + Select(b, kb)
  {
    SelectAppend(a, b, ka, kb);
  }

  lemma FirstChunkSurvives(decode: Decoder, arch: Byte, cs: seq<seq<RawRecord>>)
    requires cs != []
    ensures |cs[0]| <= |Flatten(cs)|
    ensures Select(FirstDirected(decode, arch, cs[0] + Flatten(cs[1..]), |cs[0]|), Survivors(decode, arch, cs, |cs[0]|))
            == Output(decode, arch, cs[0], End)
  {
    HeadFlags(decode, arch, cs);
    HeadSurvivors(decode, arch, cs[0], Flatten(cs[1..]), Survivors(decode, arch, cs, |cs[0]|));
  }

  /** More records follow the first chunk. */
  lemma MoreChunks(decode: Decoder, arch: Byte, cs: seq<seq<RawRecord>>)
    requires cs != [] && Flatten(cs[1..]) != []
    ensures var tail := Output(decode, arch, Flatten(cs[1..]), End);
            var whole := Output(decode, arch, Flatten(cs), End);
            Select(whole, Survivors(decode, arch, cs, |whole|))
            == Output(decode, arch, cs[0], End) + Select(tail, Survivors(decode, arch, cs[1..], |tail|))
  {
    var c, w := cs[0], Flatten(cs[1..]);
    var head, tail := FirstDirected(decode, arch, c + w, |c|), Output(decode, arch, w, End);
    var kh, kt := Survivors(decode, arch, cs, |c|), Survivors(decode, arch, cs[1..], |tail|);
    var whole := Output(decode, arch, Flatten(cs), End);
    assert whole == head + tail by {
      OutputSplits(decode, arch, c, w);
    }
    var keep := Survivors(decode, arch, cs, |whole|);
    assert keep == kh + kt by {
      SurvivorsSplit(decode, arch, cs, |tail|);
    }
    assert Select(head, kh) == Output(decode, arch, c, End) by {
      FirstChunkSurvives(decode, arch, cs);
    }
    assert Select(whole, keep) == Select(head, kh) + Select(tail, kt) by {
      SelectParts(whole, keep, head, tail, kh, kt);
    }
  }

  /** Converting a capture chunk by chunk gives the conversion of the whole capture minus exactly the
      records that are last in their chunk and CONDITIONAL or OTHER. */
  lemma {:induction false} ChunkedConversion(decode: Decoder, arch: Byte, cs: seq<seq<RawRecord>>)
    ensures var whole := Output(decode, arch, Flatten(cs), End);
            ChunkByChunk(decode, arch, cs) == Select(whole, Survivors(decode, arch, cs, |whole|))
  {
    if cs == [] {
    } else {
      ChunkedConversion(decode, arch, cs[1..]);
      if Flatten(cs[1..]) == [] {
        OnlyChunk(decode, arch, cs);
      } else {
        MoreChunks(decode, arch, cs);
      }
    }
  }
}
