/** The executed stream read off the callbacks directly: which callback each record comes from, and which
    memory callbacks it carries. */
module CaptureStream {
  import opened Bytes
  import opened RawFormat
  import opened CaptureSpec

  // ---- where the instructions are ----

  /** The positions of the instruction callbacks, in order. */
  function Execs(es: seq<Event>): seq<nat>
  {
    if es == [] then [] else Execs(es[..|es| - 1]) + if es[|es| - 1].Exec? then [|es| - 1] else []
  }

  /** Where instruction i's memory callbacks end: at the next instruction, or at the end of the run. */
  function NextExec(es: seq<Event>, i: nat): nat
    requires i < |Execs(es)|
  {
    if i + 1 < |Execs(es)| then Execs(es)[i + 1] else |es|
  }

  /** ps are the positions of all instruction callbacks, and of nothing else, in order. */
  ghost predicate AllExecs(es: seq<Event>, ps: seq<nat>)
  {
    && (forall i :: 0 <= i < |ps| ==> ps[i] < |es| && es[ps[i]].Exec?)
    && (forall i, j :: 0 <= i < j < |ps| ==> ps[i] < ps[j])
    && (forall p :: 0 <= p < |es| && es[p].Exec? ==> p in ps)
  }

  lemma {:induction false} ExecsAreAll(es: seq<Event>)
    ensures AllExecs(es, Execs(es))
  {
    if es == [] {
    } else {
      var front := es[..|es| - 1];
      ExecsAreAll(front);
      AllExecsSnoc(front, es[|es| - 1], Execs(front));
      assert es == front + [es[|es| - 1]];
    }
  }

  lemma AllExecsSnoc(es: seq<Event>, e: Event, ps: seq<nat>)
    requires AllExecs(es, ps)
    ensures AllExecs(es + [e], ps + if e.Exec? then [|es|] else [])
  {
    var all, qs := es + [e], ps + if e.Exec? then [|es|] else [];
    forall i | 0 <= i < |qs| ensures qs[i] < |all| && all[qs[i]].Exec? {
      assert i < |ps| ==> qs[i] == ps[i];
    }
    forall p | 0 <= p < |all| && all[p].Exec? ensures p in qs {
      if p < |es| {
        assert all[p] == es[p] && p in ps;
      } else {
        assert qs[|ps|] == p;
      }
    }
  }

  /** Between one instruction and the next there are only memory callbacks. */
  lemma OnlyMemBetween(es: seq<Event>, i: nat, p: nat)
    requires i < |Execs(es)| && Execs(es)[i] < p < NextExec(es, i)
    ensures p < |es| && es[p].Mem?
  {
    ExecsAreAll(es);
    forall j | 0 <= j < |Execs(es)| ensures Execs(es)[j] != p {
      assert j <= i || i + 1 <= j;
    }
  }

  // ---- what a record says ----

  /** op is what the access leaves behind: its address, direction and width, the physical address if one was wanted
      and found, and the value if one was wanted, narrow enough and available. */
  ghost predicate Leaves(l: Layout, a: Access, op: MemOp)
  {
    && op.addr == a.vaddr
    && (op.flags % 2 == 1 <==> a.store)
    && op.size == (if a.shift < 8 then Pow2(a.shift) else 0)
    && (op.flags / 4 % 2 == 1 <==> l.hasPa && a.phys.Some?)
    && (op.flags / 8 % 2 == 1 <==> l.hasPa && a.phys.Some? && a.phys.value.io)
    && op.paddr == (if l.hasPa && a.phys.Some? then a.phys.value.addr else 0)
    && (op.flags / 2 % 2 == 1 <==> l.hasValues && op.size <= 16 && a.value.Some?)
    && (op.flags / 2 % 2 == 1 ==> |op.value| == op.size)
    && (op.flags / 2 % 2 == 1 ==>
          forall b :: 0 <= b < op.size ==> op.value[b] == if b < |a.value.value| then a.value.value[b] else 0)
    && (op.flags / 2 % 2 == 0 ==> op.value == [])
    && op.flags < 16
  }

  predicate KernelAddress(arch: Arch, vaddr: U64)
  {
    vaddr >= if arch == X86 then 0xFFFF_8000_0000_0000 else 0xFF00_0000_0000_0000
  }

  /** r is the record of the instruction callback at p, with the first seven of the memory callbacks before q. */
  ghost predicate RecordOf(cfg: Config, es: seq<Event>, p: nat, q: nat, r: RawRecord)
    requires p < q <= |es|
  {
    && es[p].Exec? && (forall m :: p < m < q ==> es[m].Mem?)
    && r.ip == es[p].vaddr && r.insn == es[p].insn && r.vcpu == cfg.vcpu
    && r.privilege == (if KernelAddress(cfg.arch, es[p].vaddr) then 1 else 0)
    && |r.ops| == Min(q - p - 1, 7)
    && forall k :: 0 <= k < |r.ops| ==> Leaves(cfg.layout, es[p + 1 + k].access, r.ops[k])
  }

  /** r is the record of the i-th instruction callback. */
  ghost predicate IsInstruction(cfg: Config, es: seq<Event>, i: nat, r: RawRecord)
  {
    && i < |Execs(es)| && Execs(es)[i] < NextExec(es, i) <= |es|
    && RecordOf(cfg, es, Execs(es)[i], NextExec(es, i), r)
  }

  lemma MakeOpLeaves(l: Layout, a: Access)
    ensures Leaves(l, a, MakeOp(l, a))
  {
  }

  lemma NextInside(es: seq<Event>, i: nat)
    requires i < |Execs(es)|
    ensures Execs(es)[i] < NextExec(es, i) <= |es|
  {
    ExecsAreAll(es);
  }

  /** A record that was complete before the last callback. */
  lemma OldRecord(cfg: Config, es: seq<Event>, e: Event, p: nat, q: nat, r: RawRecord)
    requires p < q <= |es| && RecordOf(cfg, es, p, q, r)
    ensures RecordOf(cfg, es + [e], p, q, r)
  {
    var all := es + [e];
    assert all[p] == es[p];
    forall k | 0 <= k < |r.ops| ensures Leaves(cfg.layout, all[p + 1 + k].access, r.ops[k]) {
      assert all[p + 1 + k] == es[p + 1 + k];
    }
    assert forall m :: p < m < q ==> all[m] == es[m];
  }

  lemma NewRecordOf(cfg: Config, es: seq<Event>, e: Event)
    requires e.Exec?
    ensures RecordOf(cfg, es + [e], |es|, |es| + 1, NewRecord(cfg, e.vaddr, e.insn))
  {
  }

  /** The newest record takes one more memory callback, if it has room. */
  lemma GrownRecord(cfg: Config, es: seq<Event>, a: Access, p: nat, r: RawRecord)
    requires p < |es| && RecordOf(cfg, es, p, |es|, r)
    ensures RecordOf(cfg, es + [Mem(a)], p, |es| + 1, AddOp(cfg.layout, r, a))
  {
    var all, r' := es + [Mem(a)], AddOp(cfg.layout, r, a);
    OldRecord(cfg, es, Mem(a), p, |es|, r);
    MakeOpLeaves(cfg.layout, a);
    forall m | p < m < |es| + 1 ensures all[m].Mem? {
      assert m < |es| ==> all[m] == es[m];
    }
    forall k | 0 <= k < |r'.ops| ensures Leaves(cfg.layout, all[p + 1 + k].access, r'.ops[k]) {
      if k < |r.ops| {
        assert r'.ops[k] == r.ops[k];
      } else {
        assert p + 1 + k == |es|;
      }
    }
  }

  lemma ExecsSnoc(es: seq<Event>, e: Event)
    ensures Execs(es + [e]) == Execs(es) + if e.Exec? then [|es|] else []
  {
    assert (es + [e])[..|es|] == es;
  }

  lemma ExecutedSnoc(cfg: Config, es: seq<Event>, e: Event)
    ensures Executed(cfg, es + [e]) == Observe(cfg, Executed(cfg, es), e)
  {
    assert (es + [e])[..|es|] == es;
  }

  ghost predicate AllInstructions(cfg: Config, es: seq<Event>, xs: seq<RawRecord>)
  {
    |xs| == |Execs(es)| && forall i :: 0 <= i < |xs| ==> IsInstruction(cfg, es, i, xs[i])
  }

  lemma InstructionsExec(cfg: Config, es: seq<Event>, e: Event, xs: seq<RawRecord>)
    requires e.Exec? && AllInstructions(cfg, es, xs)
    ensures AllInstructions(cfg, es + [e], xs + [NewRecord(cfg, e.vaddr, e.insn)])
  {
    var all, xs' := es + [e], xs + [NewRecord(cfg, e.vaddr, e.insn)];
    ExecsSnoc(es, e);
    forall i | 0 <= i < |xs'| ensures IsInstruction(cfg, all, i, xs'[i]) {
      NextInside(all, i);
      if i < |xs| {
        assert IsInstruction(cfg, es, i, xs[i]) && NextExec(all, i) == NextExec(es, i);
        OldRecord(cfg, es, e, Execs(es)[i], NextExec(es, i), xs[i]);
      } else {
        NewRecordOf(cfg, es, e);
      }
    }
  }

  lemma InstructionsMem(cfg: Config, es: seq<Event>, a: Access, xs: seq<RawRecord>)
    requires AllInstructions(cfg, es, xs) && xs != []
    ensures AllInstructions(cfg, es + [Mem(a)], xs[|xs| - 1 := AddOp(cfg.layout, Last(xs), a)])
  {
    var all, n := es + [Mem(a)], |xs| - 1;
    var xs' := xs[n := AddOp(cfg.layout, Last(xs), a)];
    ExecsSnoc(es, Mem(a));
    assert Execs(all) == Execs(es);
    forall i | 0 <= i < |xs'| ensures IsInstruction(cfg, all, i, xs'[i]) {
      InstructionMem(cfg, es, a, i, xs[i]);
    }
  }

  /** The access goes to the newest record. */
  lemma InstructionMem(cfg: Config, es: seq<Event>, a: Access, i: nat, r: RawRecord)
    requires IsInstruction(cfg, es, i, r)
    ensures IsInstruction(cfg, es + [Mem(a)], i, if i + 1 < |Execs(es)| then r else AddOp(cfg.layout, r, a))
  {
    ExecsSnoc(es, Mem(a));
    assert Execs(es + [Mem(a)]) == Execs(es);
    NextInside(es, i);
    if i + 1 < |Execs(es)| {
      OldRecord(cfg, es, Mem(a), Execs(es)[i], NextExec(es, i), r);
    } else {
      GrownRecord(cfg, es, a, Execs(es)[i], r);
    }
  }

  /** Record i of the executed stream is that of the i-th instruction callback: its address, bytes, vCPU and
      privilege, and exactly the first seven of the memory callbacks before the next instruction, each with its own
      address, direction, width, physical address and value. */
  lemma {:induction false} ExecutedIsTheRun(cfg: Config, es: seq<Event>)
    ensures AllInstructions(cfg, es, Executed(cfg, es))
  {
    if es == [] {
    } else {
      var front, e := es[..|es| - 1], es[|es| - 1];
      assert es == front + [e];
      ExecutedIsTheRun(cfg, front);
      ExecutedSnoc(cfg, front, e);
      match e
      case Exec(_, _, _) => InstructionsExec(cfg, front, e, Executed(cfg, front));
      case Mem(a) =>
        ExecsSnoc(front, e);
        if Executed(cfg, front) != [] {
          InstructionsMem(cfg, front, a, Executed(cfg, front));
        }
    }
  }

  /** The sampling clock, on the callbacks: with clock=user an instruction ticks exactly if its address is below the
      kernel's. */
  lemma ClockMeaning(cfg: Config, es: seq<Event>, i: nat)
    requires i < |Executed(cfg, es)|
    ensures i < |Execs(es)| && Execs(es)[i] < |es| && es[Execs(es)[i]].Exec?
    ensures Qualifies(cfg, Executed(cfg, es)[i])
            <==> (cfg.clockUser ==> !KernelAddress(cfg.arch, es[Execs(es)[i]].vaddr))
  {
    ExecutedIsTheRun(cfg, es);
    assert IsInstruction(cfg, es, i, Executed(cfg, es)[i]);
  }
}
