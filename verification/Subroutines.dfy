// The shadow call stack on the machine: every instruction, interrupt and run keeps it equal to
// its history definition, and jsr/rts restore it (src/arch/m68xx/reg.c, opfunc.c).

module Subroutines {
  import opened Words
  import opened CallHistory
  import opened Machine
  import opened Simulation
  import D = Device

  lemma PushWTracks(s: State, w: Word)
    requires Tracks(s)
    ensures Tracks(PushW(s, w))
  {
    PushWSim(Stack, s, w, s, w);
  }

  lemma JsrTracks(s: State, addr: int)
    requires Tracks(s)
    ensures Tracks(JsrAddr(s, addr))
  {
    JsrSim(Stack, s, addr, s, addr);
  }

  /** In every run the call stack is the live calls of the stack-pointer history. */
  lemma {:induction false} RunTracks(s: State, n: nat)
    requires Tracks(s)
    ensures Tracks(Steps(s, n))
    decreases n
  {
    hide *;
    if n == 0 {
      StepsZero(s);
    } else {
      StepsUnfold(s, n);
      StepTracks(s);
      RunTracks(Step(s), n - 1);
    }
  }

  lemma {:induction false} KeepPrefix(p: seq<Entry>, t: seq<Entry>, value: int)
    requires forall i | 0 <= i < |p| :: value <= p[i].sp
    ensures p <= Keep(p + t, value)
  {
    if |t| == 0 {
      KeepAll(p, value);
      assert p + t == p;
    } else {
      assert (p + t)[..|p + t| - 1] == p + t[..|t| - 1];
      KeepPrefix(p, t[..|t| - 1], value);
    }
  }

  /** While no stack-pointer value exceeds `bound`, the calls entered at or above it stay. */
  lemma {:induction false} LiveStays(h: seq<Event>, ext: seq<Event>, bound: int)
    requires forall i | 0 <= i < |ext| && ext[i].Moved? :: ext[i].value <= bound
    requires forall i | 0 <= i < |Live(h)| :: bound <= Live(h)[i].sp
    ensures Live(h) <= Live(h + ext)
  {
    if |ext| == 0 {
      assert h + ext == h;
    } else {
      var e := ext[|ext| - 1];
      var g := h + ext[..|ext| - 1];
      assert h + ext == g + [e];
      LiveStays(h, ext[..|ext| - 1], bound);
      match e
      case Called(entry) => LiveCall(g, entry);
      case Moved(value) =>
        LiveSetSp(g, value);
        var n := |Live(h)|;
        assert Live(g) == Live(h) + Live(g)[n..];
        KeepPrefix(Live(h), Live(g)[n..], value);
    }
  }

  lemma {:induction false} PopAbove(p: seq<Entry>, t: seq<Entry>, value: int)
    requires |p| > 0 ==> value <= p[|p| - 1].sp
    requires forall i | 0 <= i < |t| :: t[i].sp < value
    ensures PopWhile(p + t, value) == p
  {
    if |t| == 0 {
      assert p + t == p;
    } else {
      assert (p + t)[..|p + t| - 1] == p + t[..|t| - 1];
      PopAbove(p, t[..|t| - 1], value);
    }
  }

  /** `t` is reached from `s` by a body that never raises SP above `s.r.sp` and ends there. */
  ghost predicate Balanced(s: State, t: State)
  {
    && t.r.sp == s.r.sp && s.hist <= t.hist
    && forall i | |s.hist| <= i < |t.hist| && t.hist[i].Moved? :: t.hist[i].value <= s.r.sp
  }

  lemma BalancedStack(s: State, t: State)
    requires Tracks(s) && Tracks(t) && NeverFull(t.hist) && Balanced(s, t)
    ensures s.cs <= t.cs
  {
    hide NeverFull, Live, Ordered;
    var ext := t.hist[|s.hist|..];
    assert t.hist == s.hist + ext;
    NeverFullBefore(s.hist, ext);
    AboveSp(s.cs, s.r.sp);
    LiveStays(s.hist, ext, s.r.sp);
  }

  lemma AboveSp(cs: seq<Entry>, sp: Word)
    requires Ordered(cs, sp)
    ensures forall i | 0 <= i < |cs| :: sp <= cs[i].sp
  {
    forall i | 0 <= i < |cs| ensures sp <= cs[i].sp {
      assert cs[i].sp >= cs[|cs| - 1].sp;
    }
  }

  lemma {:induction false} NeverFullBefore(h: seq<Event>, ext: seq<Event>)
    requires NeverFull(h + ext)
    ensures NeverFull(h)
  {
    if |ext| == 0 {
      assert h + ext == h;
    } else {
      var e := ext[|ext| - 1];
      assert h + ext == (h + ext[..|ext| - 1]) + [e];
      NeverFullPrefix(h + ext[..|ext| - 1], e);
      NeverFullBefore(h, ext[..|ext| - 1]);
    }
  }

  /** The call stack just after jsr, when the pushes do not wrap. */
  lemma JsrStack(s: State, addr: int)
    requires Tracks(s) && s.r.sp >= 2
    ensures JsrAddr(s, addr).r.sp == s.r.sp - 2
    ensures JsrAddr(s, addr).cs == Push(s.cs, Entry(Mod32(addr), s.r.sp - 2))
  {
    PushNoWrap(s, Lo(s.r.pc));
    PushNoWrap(PushB(s, Lo(s.r.pc)), Hi(s.r.pc));
    hide PushB;
  }

  lemma PushNoWrap(s: State, v: Byte)
    requires s.r.sp >= 1
    ensures PushB(s, v).r.sp == s.r.sp - 1 && PushB(s, v).cs == s.cs && PushB(s, v).r.pc == s.r.pc
  {
    hide D.Put;
  }

  /** What rts does to PC and SP when the return address is still on the stack. */
  lemma RtsRegs(s: State, ret: Word)
    requires var hi := (s.r.sp + 1) % 0x1_0000;
      var lo := (s.r.sp + 2) % 0x1_0000;
      !IsDeviceReg(hi) && !IsDeviceReg(lo) && Cell(s, hi) == Hi(ret) && Cell(s, lo) == Lo(ret)
    ensures var u := RtsExec(s);
      u.r.pc == ret && u.r.sp == (s.r.sp + 2) % 0x1_0000
  {
    PopPlain(s);
    PopPlain(PopB(s).s);
    assert Join(Hi(ret), Lo(ret)) == ret;
    NextSp(s.r.sp);
    hide PopB, Cell;
  }

  lemma NextSp(sp: Word)
    ensures ((sp + 1) % 0x1_0000 + 1) % 0x1_0000 == (sp + 2) % 0x1_0000
  {
  }

  /** Pulling a byte that is not a device register reads the cell and changes no other. */
  lemma PopPlain(s: State)
    requires !IsDeviceReg((s.r.sp + 1) % 0x1_0000)
    ensures var g := PopB(s);
      && g.v == Cell(s, (s.r.sp + 1) % 0x1_0000)
      && g.s.r == s.r.(sp := (s.r.sp + 1) % 0x1_0000)
      && forall a: Word :: Cell(g.s, a) == Cell(s, a)
  {
  }

  /** The popping done by rts: first to SP + 1, then to the next value. */
  lemma RtsStack(s: State)
    ensures RtsExec(s).cs == AfterSetSp(PopWhile(s.cs, s.r.sp + 1), (s.r.sp + 1) % 0x1_0000, (s.r.sp + 1) % 0x1_0000 + 1)
  {
  }

  lemma {:induction false} PopAll(cs: seq<Entry>, value: int)
    requires value >= MEMSIZE
    ensures PopWhile(cs, value) == []
  {
    if |cs| > 0 {
      PopAll(cs[..|cs| - 1], value);
    }
  }

  /** A balanced body between jsr and rts restores PC and SP always, and the call stack exactly
      when SP was at least 2 (the pushes did not wrap) or there was nothing on it to lose. */
  lemma CallReturns(s: State, addr: int, t: State)
    requires Tracks(s) && Tracks(t) && NeverFull(t.hist)
    requires Balanced(JsrAddr(s, addr), t)
    requires var lo := s.r.sp;
      var hi := (lo - 1) % 0x1_0000;
      !IsDeviceReg(hi) && !IsDeviceReg(lo) && Cell(t, hi) == Hi(s.r.pc) && Cell(t, lo) == Lo(s.r.pc)
    ensures var u := RtsExec(t);
      && u.r.pc == s.r.pc && u.r.sp == s.r.sp
      && (u.cs == s.cs <==> s.r.sp >= 2 || s.cs == [])
  {
    JsrSp(s, addr);
    WrapSp(s.r.sp, t.r.sp);
    if s.r.sp >= 2 {
      ReturnedStack(s, addr, t);
    } else {
      WrappedStack(s, addr, t);
    }
    hide JsrAddr, RtsExec;
    RtsRegs(t, s.r.pc);
  }

  lemma WrapSp(sp: Word, down: Word)
    requires down == (sp - 2) % 0x1_0000
    ensures (down + 1) % 0x1_0000 == (sp - 1) % 0x1_0000 && (down + 2) % 0x1_0000 == sp
  {
    assert down == if sp >= 2 then sp - 2 else sp - 2 + MEMSIZE;
  }

  lemma JsrSp(s: State, addr: int)
    ensures JsrAddr(s, addr).r.sp == (s.r.sp - 2) % 0x1_0000
  {
    PushSp(s, Lo(s.r.pc));
    PushSp(PushB(s, Lo(s.r.pc)), Hi(s.r.pc));
    hide PushB, Hi, Lo, Push;
    TwoDown(s.r.sp);
  }

  lemma TwoDown(sp: Word)
    ensures (sp - 2) % 0x1_0000 == if sp >= 2 then sp - 2 else sp + 0xFFFE
  {
  }

  lemma PushSp(s: State, v: Byte)
    ensures PushB(s, v).r.sp == if s.r.sp == 0 then 0xFFFF else s.r.sp - 1
  {
    if s.r.sp == 0 {
      assert Minus1(0) == 0xFFFF_FFFF;
    } else {
      assert Minus1(s.r.sp) == s.r.sp - 1;
    }
    hide D.Put, Minus1, PopWhile;
  }

  lemma ReturnedStack(s: State, addr: int, t: State)
    requires Tracks(s) && Tracks(t) && NeverFull(t.hist) && s.r.sp >= 2
    requires Balanced(JsrAddr(s, addr), t)
    ensures RtsExec(t).cs == s.cs
  {
    BodyStack(s, addr, t);
    RtsStack(t);
    hide *;
    PopBody(s.cs, Entry(Mod32(addr), s.r.sp - 2), t.cs, s.r.sp);
  }

  lemma BodyStack(s: State, addr: int, t: State)
    requires Tracks(s) && Tracks(t) && NeverFull(t.hist) && s.r.sp >= 2
    requires Balanced(JsrAddr(s, addr), t)
    ensures s.cs + [Entry(Mod32(addr), s.r.sp - 2)] <= t.cs
    ensures t.r.sp == s.r.sp - 2
    ensures Ordered(s.cs, s.r.sp) && Ordered(t.cs, t.r.sp)
    ensures (t.r.sp + 1) % 0x1_0000 == t.r.sp + 1
  {
    JsrTracks(s, addr);
    JsrStack(s, addr);
    hide JsrAddr, NeverFull, AfterSetSp;
    BalancedStack(JsrAddr(s, addr), t);
    NotFullAtJsr(s, addr, t);
    SmallSp(s.r.sp, t.r.sp);
  }

  lemma SmallSp(sp: Word, down: Word)
    requires sp >= 2 && down == sp - 2
    ensures (down + 1) % 0x1_0000 == down + 1
  {
  }

  /** Popping to `sp - 1` and then `sp` removes the frame `e` and everything above it. */
  lemma PopBody(cs: seq<Entry>, e: Entry, top: seq<Entry>, sp: Word)
    requires sp >= 2 && e.sp == sp - 2
    requires Ordered(cs, sp) && Ordered(top, e.sp)
    requires cs + [e] <= top
    ensures AfterSetSp(PopWhile(top, sp - 1), sp - 1, sp) == cs
  {
    var tail := TailBelow(cs, e, top);
    PopAbove(cs, tail, sp - 1);
    hide PopWhile;
    PopAbove(cs, [], sp);
    assert cs + [] == cs;
  }

  lemma TailBelow(cs: seq<Entry>, e: Entry, top: seq<Entry>) returns (tail: seq<Entry>)
    requires Ordered(top, e.sp) && cs + [e] <= top
    ensures top == cs + tail
    ensures forall i | 0 <= i < |tail| :: tail[i].sp <= e.sp
  {
    tail := top[|cs|..];
    assert top[|cs|] == e by {
      assert (cs + [e])[|cs|] == e;
    }
    forall i | 0 <= i < |tail| ensures tail[i].sp <= e.sp {
      assert tail[i] == top[|cs| + i];
    }
  }

  lemma NotFullAtJsr(s: State, addr: int, t: State)
    requires Tracks(s) && NeverFull(t.hist) && s.r.sp >= 2
    requires JsrAddr(s, addr).hist <= t.hist
    ensures |s.cs| < MAXCALLSTACK
  {
    PushWTracks(s, s.r.pc);
    PushNoWrap(s, Lo(s.r.pc));
    PushNoWrap(PushB(s, Lo(s.r.pc)), Hi(s.r.pc));
    var w := PushW(s, s.r.pc);
    assert w.cs == s.cs;
    var e := Called(Entry(Mod32(addr), w.r.sp));
    hide PushW, PushB, NeverFull, Live;
    NotFullBefore(w.cs, w.r.sp, w.hist, e, t.hist);
  }

  lemma NotFullBefore(cs: seq<Entry>, sp: Word, h: seq<Event>, e: Event, later: seq<Event>)
    requires Agrees(cs, sp, h) && NeverFull(later) && h + [e] <= later && e.Called?
    ensures |cs| < MAXCALLSTACK
  {
    hide Ordered;
    assert later == (h + [e]) + later[|h| + 1..];
    NeverFullBefore(h + [e], later[|h| + 1..]);
    NeverFullPrefix(h, e);
    hide NeverFull, Live;
  }

  lemma WrappedStack(s: State, addr: int, t: State)
    requires s.r.sp < 2
    requires t.r.sp == (s.r.sp - 2) % 0x1_0000
    ensures RtsExec(t).cs == []
  {
    RtsStack(t);
    hide RtsExec;
    if s.r.sp == 1 {
      PopAll(t.cs, MEMSIZE);
      assert PopWhile([], 1) == [];
    } else {
      PopAll(PopWhile(t.cs, 0xFFFF), MEMSIZE);
    }
  }
}
