// Shadow call stack: src/base/callstac.c, and the popping rule of reg_setsp in src/arch/m68xx/reg.c.

/** The simulator keeps an array of subroutine entries beside the simulated stack. `Live` says
    which entries should be there, from the history of stack-pointer values alone. */
module CallHistory {
  import opened Words

  const MAXCALLSTACK := 256

  /** `sp` is the stack pointer when the subroutine was entered. */
  datatype Entry = Entry(addr: int, sp: Word)

  /** What happens to the stack pointer and the call stack: reg_setsp is called with an
      untruncated 32-bit value, or callstack_push records an entry. */
  datatype Event = Moved(value: int) | Called(entry: Entry)

  /** The loop of reg_setsp: drop entries from the top while the value exceeds theirs. */
  function PopWhile(cs: seq<Entry>, value: int): seq<Entry>
  {
    if |cs| > 0 && value > cs[|cs| - 1].sp then PopWhile(cs[..|cs| - 1], value) else cs
  }

  /** A push onto a full call stack is reported and dropped. */
  function Push(cs: seq<Entry>, e: Entry): seq<Entry>
  {
    if |cs| < MAXCALLSTACK then cs + [e] else cs
  }

  /** reg_setsp only looks at the call stack when the value rises above SP. */
  function AfterSetSp(cs: seq<Entry>, sp: Word, value: int): seq<Entry>
  {
    if value > sp then PopWhile(cs, value) else cs
  }

  /** Call `i` of the history is live: no later stack-pointer value exceeded its entry SP. */
  ghost predicate IsLive(h: seq<Event>, i: nat)
    requires i < |h|
  {
    && h[i].Called?
    && forall j | i < j < |h| && h[j].Moved? :: h[j].value <= h[i].entry.sp
  }

  ghost function LiveUpTo(h: seq<Event>, n: nat): seq<Entry>
    requires n <= |h|
  {
    if n == 0 then []
    else LiveUpTo(h, n - 1) + if IsLive(h, n - 1) then [h[n - 1].entry] else []
  }

  /** The live calls of a history, oldest first. */
  ghost function Live(h: seq<Event>): seq<Entry>
  {
    LiveUpTo(h, |h|)
  }

  /** No call was made while 256 calls were live. */
  ghost predicate NeverFull(h: seq<Event>)
  {
    forall i | 0 <= i < |h| && h[i].Called? :: |Live(h[..i])| < MAXCALLSTACK
  }

  /** Entry SPs never increase from bottom to top, and SP never exceeds the top one. */
  ghost predicate Ordered(cs: seq<Entry>, sp: Word)
  {
    && (forall i, j | 0 <= i < j < |cs| :: cs[i].sp >= cs[j].sp)
    && (|cs| > 0 ==> sp <= cs[|cs| - 1].sp)
  }

  ghost predicate Agrees(cs: seq<Entry>, sp: Word, h: seq<Event>)
  {
    Ordered(cs, sp) && (NeverFull(h) ==> cs == Live(h))
  }

  function Keep(cs: seq<Entry>, value: int): seq<Entry>
  {
    if |cs| == 0 then []
    else Keep(cs[..|cs| - 1], value) + if value <= cs[|cs| - 1].sp then [cs[|cs| - 1]] else []
  }

  lemma {:induction false} KeepAll(cs: seq<Entry>, value: int)
    requires forall i | 0 <= i < |cs| :: value <= cs[i].sp
    ensures Keep(cs, value) == cs
  {
    if |cs| > 0 {
      var n := |cs| - 1;
      KeepAll(cs[..n], value);
      KeepLast(cs, value);
      hide Keep;
      assert cs == cs[..n] + [cs[n]];
    }
  }

  lemma KeepLast(cs: seq<Entry>, value: int)
    requires |cs| > 0 && value <= cs[|cs| - 1].sp
    ensures Keep(cs, value) == Keep(cs[..|cs| - 1], value) + [cs[|cs| - 1]]
  {
  }

  lemma KeepAppend(cs: seq<Entry>, e: Entry, value: int)
    ensures Keep(cs + [e], value) == Keep(cs, value) + if value <= e.sp then [e] else []
  {
    assert (cs + [e])[..|cs|] == cs;
  }

  /** On an ordered stack popping from the top removes exactly the exceeded entries. */
  lemma {:induction false} PopIsKeep(cs: seq<Entry>, value: int)
    requires forall i, j | 0 <= i < j < |cs| :: cs[i].sp >= cs[j].sp
    ensures PopWhile(cs, value) == Keep(cs, value)
  {
    if |cs| > 0 {
      if value > cs[|cs| - 1].sp {
        PopIsKeep(cs[..|cs| - 1], value);
      } else {
        KeepAll(cs, value);
      }
    }
  }

  lemma {:induction false} PopPrefix(cs: seq<Entry>, value: int)
    ensures var r := PopWhile(cs, value);
      r <= cs && (|r| > 0 ==> value <= r[|r| - 1].sp)
  {
    if |cs| > 0 && value > cs[|cs| - 1].sp {
      PopPrefix(cs[..|cs| - 1], value);
    }
  }

  lemma {:induction false} LiveUpToSetSp(h: seq<Event>, value: int, n: nat)
    requires n <= |h|
    ensures LiveUpTo(h + [Moved(value)], n) == Keep(LiveUpTo(h, n), value)
  {
    if n > 0 {
      LiveUpToSetSp(h, value, n - 1);
      var g := h + [Moved(value)];
      assert IsLive(g, n - 1) <==> IsLive(h, n - 1) && value <= h[n - 1].entry.sp by {
        assert g[|h|] == Moved(value);
        assert forall j | 0 <= j < |h| :: g[j] == h[j];
      }
      var before := LiveUpTo(h, n - 1);
      assert LiveUpTo(h, n) == if IsLive(h, n - 1) then before + [h[n - 1].entry] else before;
      if IsLive(h, n - 1) {
        KeepAppend(before, h[n - 1].entry, value);
      }
    }
  }

  lemma {:induction false} LiveUpToCall(h: seq<Event>, e: Entry, n: nat)
    requires n <= |h|
    ensures LiveUpTo(h + [Called(e)], n) == LiveUpTo(h, n)
  {
    if n > 0 {
      LiveUpToCall(h, e, n - 1);
      var g := h + [Called(e)];
      assert forall j | 0 <= j < |h| :: g[j] == h[j];
      assert IsLive(g, n - 1) <==> IsLive(h, n - 1);
    }
  }

  /** A new stack-pointer value ends exactly the calls it exceeds. */
  lemma LiveSetSp(h: seq<Event>, value: int)
    ensures Live(h + [Moved(value)]) == Keep(Live(h), value)
  {
    LiveUpToSetSp(h, value, |h|);
  }

  lemma LiveCall(h: seq<Event>, e: Entry)
    ensures Live(h + [Called(e)]) == Live(h) + [e]
  {
    LiveUpToCall(h, e, |h|);
    assert IsLive(h + [Called(e)], |h|);
  }

  lemma NeverFullPrefix(h: seq<Event>, e: Event)
    ensures NeverFull(h + [e]) ==> NeverFull(h)
    ensures NeverFull(h + [e]) && e.Called? ==> |Live(h)| < MAXCALLSTACK
  {
    var g := h + [e];
    if NeverFull(g) {
      forall i | 0 <= i < |h| && h[i].Called? ensures |Live(h[..i])| < MAXCALLSTACK {
        assert g[i] == h[i] && g[..i] == h[..i];
      }
      assert g[|h|] == e && g[..|h|] == h;
    }
  }

  /** Setting SP, whatever the 32-bit value and even when it wraps, keeps the agreement. */
  lemma SetSpAgrees(cs: seq<Entry>, sp: Word, h: seq<Event>, value: int)
    requires Agrees(cs, sp, h)
    requires value >= 0
    ensures Agrees(AfterSetSp(cs, sp, value), value % 0x1_0000, h + [Moved(value)])
  {
    LiveSetSp(h, value);
    NeverFullPrefix(h, Moved(value));
    AfterIsKeep(cs, sp, value);
  }

  lemma AfterIsKeep(cs: seq<Entry>, sp: Word, value: int)
    requires Ordered(cs, sp)
    requires value >= 0
    ensures var r := AfterSetSp(cs, sp, value);
      r == Keep(cs, value) && Ordered(r, value % 0x1_0000)
  {
    Remainder(value);
    if value > sp {
      PopIsKeep(cs, value);
      PopOrdered(cs, value);
    } else {
      forall i | 0 <= i < |cs| ensures value <= cs[i].sp {
        assert cs[i].sp >= cs[|cs| - 1].sp;
      }
      KeepAll(cs, value);
    }
  }

  lemma PopOrdered(cs: seq<Entry>, value: int)
    requires forall i, j | 0 <= i < j < |cs| :: cs[i].sp >= cs[j].sp
    ensures var r := PopWhile(cs, value);
      && (forall i, j | 0 <= i < j < |r| :: r[i].sp >= r[j].sp)
      && (|r| > 0 ==> value <= r[|r| - 1].sp)
  {
    PopPrefix(cs, value);
    var r := PopWhile(cs, value);
    forall i, j | 0 <= i < j < |r| ensures r[i].sp >= r[j].sp {
      assert r[i] == cs[i] && r[j] == cs[j];
    }
  }

  lemma Remainder(value: int)
    requires value >= 0
    ensures value % 0x1_0000 <= value
  {
  }

  lemma CallAgrees(cs: seq<Entry>, sp: Word, h: seq<Event>, addr: int)
    requires Agrees(cs, sp, h)
    ensures Agrees(Push(cs, Entry(addr, sp)), sp, h + [Called(Entry(addr, sp))])
  {
    LiveCall(h, Entry(addr, sp));
    NeverFullPrefix(h, Called(Entry(addr, sp)));
  }

  /** The first call made while 256 calls are live is the first disagreement. */
  lemma OverflowDisagrees(cs: seq<Entry>, sp: Word, h: seq<Event>, addr: int)
    requires Agrees(cs, sp, h) && NeverFull(h)
    ensures Push(cs, Entry(addr, sp)) == Live(h + [Called(Entry(addr, sp))]) <==> |Live(h)| < MAXCALLSTACK
  {
    LiveCall(h, Entry(addr, sp));
  }

  /** The stack pointer and call stack that a sequence of operations leaves, where a call
      carries only its address, and the history it produces. */
  datatype Op = Move(value: int) | Enter(addr: int)

  datatype Shadow = Shadow(sp: Word, cs: seq<Entry>, h: seq<Event>)

  function Do(s: Shadow, op: Op): Shadow
    requires op.Move? ==> op.value >= 0
  {
    match op
    case Move(value) => Shadow(value % 0x1_0000, AfterSetSp(s.cs, s.sp, value), s.h + [Moved(value)])
    case Enter(addr) => Shadow(s.sp, Push(s.cs, Entry(addr, s.sp)), s.h + [Called(Entry(addr, s.sp))])
  }

  ghost predicate Proper(ops: seq<Op>)
  {
    forall i | 0 <= i < |ops| && ops[i].Move? :: ops[i].value >= 0
  }

  function DoAll(s: Shadow, ops: seq<Op>): Shadow
    requires Proper(ops)
  {
    if |ops| == 0 then s else Do(DoAll(s, ops[..|ops| - 1]), ops[|ops| - 1])
  }

  /** A call made with SP at 1: its second push sets SP to 0xFFFFFFFF, which ends every call, so
      after its return SP is back but the caller's own entry is gone. */
  lemma WrapLosesCalls()
    ensures var s := Shadow(1, [Entry(0x200, 5)], []);
      var inside := Do(Do(Do(s, Move(0)), Move(0xFFFF_FFFF)), Enter(0x300));
      var back := Do(Do(inside, Move(0x1_0000)), Move(1));
      back.sp == s.sp && back.cs == []
  {
    var s := Shadow(1, [Entry(0x200, 5)], []);
    var s1 := Do(s, Move(0));
    var s2 := Do(s1, Move(0xFFFF_FFFF));
    PopOne(Entry(0x200, 5), 0xFFFF_FFFF);
    assert s1.cs == s.cs && s2.sp == 0xFFFF && s2.cs == [];
    var s3 := Do(s2, Enter(0x300));
    assert s3.cs == [Entry(0x300, 0xFFFF)];
    PopOne(Entry(0x300, 0xFFFF), 0x1_0000);
    var s4 := Do(s3, Move(0x1_0000));
    assert s4.sp == 0 && s4.cs == [];
  }

  lemma PopOne(e: Entry, value: int)
    requires value > e.sp
    ensures PopWhile([e], value) == []
  {
    assert [e][..0] == [];
  }

  /** After any sequence of pushes and reg_setsp calls the call stack is its history definition. */
  lemma {:induction false} RunAgrees(sp: Word, ops: seq<Op>)
    requires Proper(ops)
    ensures var s := DoAll(Shadow(sp, [], []), ops); Agrees(s.cs, s.sp, s.h)
  {
    if |ops| > 0 {
      var s := DoAll(Shadow(sp, [], []), ops[..|ops| - 1]);
      RunAgrees(sp, ops[..|ops| - 1]);
      match ops[|ops| - 1]
      case Move(value) => SetSpAgrees(s.cs, s.sp, s.h, value);
      case Enter(addr) => CallAgrees(s.cs, s.sp, s.h, addr);
    }
  }
}

module CallStack {
  import opened Words
  import opened CallHistory

  class CallStack {
    const elements: array<Entry>
    var count: nat

    ghost predicate Valid()
      reads this
    {
      elements.Length == MAXCALLSTACK && count <= MAXCALLSTACK
    }

    ghost function View(): seq<Entry>
      requires Valid()
      reads this, elements
    {
      elements[..count]
    }

    constructor ()
      ensures Valid() && View() == [] && fresh(elements)
    {
      elements := new Entry[MAXCALLSTACK](_ => Entry(0, 0));
      count := 0;
    }

    method PushEntry(addr: int, sp: Word)
      requires Valid()
      modifies this, elements
      ensures Valid() && View() == Push(old(View()), Entry(addr, sp))
    {
      if count < MAXCALLSTACK {
        elements[count] := Entry(addr, sp);
        count := count + 1;
      }
    }

    method PopEntry() returns (addr: int)
      requires Valid()
      modifies this
      ensures Valid()
      ensures var cs := old(View());
        if |cs| > 0 then View() == cs[..|cs| - 1] && addr == cs[|cs| - 1].addr else View() == [] && addr == 0
    {
      if count > 0 {
        count := count - 1;
        addr := elements[count].addr;
      } else {
        addr := 0;
      }
    }

    method PeekStack() returns (sp: Word)
      requires Valid()
      ensures sp == if |View()| > 0 then View()[|View()| - 1].sp else 0
    {
      if count > 0 {
        sp := elements[count - 1].sp;
      } else {
        sp := 0;
      }
    }

    /** The popping loop of reg_setsp. */
    method PopReturned(value: int)
      requires Valid()
      modifies this
      ensures Valid() && View() == PopWhile(old(View()), value)
    {
      var top := PeekStack();
      while value > top && count > 0
        invariant Valid()
        invariant count > 0 ==> top == elements[count - 1].sp
        invariant PopWhile(View(), value) == PopWhile(old(View()), value)
        decreases count
      {
        var popped := PopEntry();
        top := PeekStack();
      }
    }
  }
}
