// The OCF handshake of the 6805 timer: tsr_getb and ocr_putb in src/arch/m6805/timer.c.

/** Over every history since the start, when the flag is remembered as read and when it is cleared. */
module CompareHandshake {
  import opened Words
  import opened PrescaledCompare

  /** An access to the low byte of OCR, either way. */
  predicate Touches(a: Action) { a.WriteLow? || a.ReadLow? }

  /** A match sets OCF, which was clear. */
  predicate Raises(s: Timer, a: Action)
  {
    a.Pass? && Matches(s, a.n) && !s.Ocf()
  }

  predicate Sees(s: Timer, a: Action) { a.ReadTsr? && s.Ocf() }

  lemma TickEffect(s: Timer, n: nat)
    ensures var e := Inc(s, n);
      && e.Ocf() == (s.Ocf() || Matches(s, n)) && e.tsrRead == (s.tsrRead && !(Matches(s, n) && !s.Ocf()))
  {
    hide Hi, Lo, NewTicks, Has, Set;
    SetOcf(s.iram[TSR]);
  }

  lemma ClearOcf(x: Byte)
    ensures !Has(Clear(x, OCF), OCF)
  {
  }

  /** How every action changes OCF and the flag that remembers its being read. */
  lemma ActionEffect(s: Timer, a: Action)
    requires a.Possible()
    ensures var e := Perform(s, a);
      && e.Ocf() == ((s.Ocf() && !(s.tsrRead && Touches(a))) || (a.Pass? && Matches(s, a.n)))
      && e.tsrRead == ((s.tsrRead && !Touches(a) && !Raises(s, a)) || Sees(s, a))
  {
    hide Inc, Matches, Has, Clear, Join;
    ClearOcf(s.iram[TSR]);
    if a.Pass? {
      TickEffect(s, a.n);
    }
  }

  /** Action `k` of the history reads the status while OCF is set. */
  predicate Seeing(acts: seq<Action>, k: nat)
    requires AllPossible(acts) && k < |acts|
  {
    Sees(PerformAll(Start, acts[..k]), acts[k])
  }

  /** Action `k` makes the timer forget that: it touches OCR, or sets OCF. */
  predicate Ending(acts: seq<Action>, k: nat)
    requires AllPossible(acts) && k < |acts|
  {
    Touches(acts[k]) || Raises(PerformAll(Start, acts[..k]), acts[k])
  }

  /** A status read saw OCF set, and since then OCR was not touched and OCF not set anew. */
  predicate Seen(acts: seq<Action>)
    requires AllPossible(acts)
  {
    exists j | 0 <= j < |acts| && Seeing(acts, j) :: forall k | j < k < |acts| :: !Ending(acts, k)
  }

  /** Nothing has happened yet that a status read would have to precede. */
  predicate Fresh(acts: seq<Action>)
    requires AllPossible(acts)
  {
    forall k | 0 <= k < |acts| :: !Ending(acts, k)
  }

  lemma SamePrefix(acts: seq<Action>, m: nat, k: nat)
    requires AllPossible(acts) && k < m <= |acts|
    ensures Seeing(acts[..m], k) == Seeing(acts, k) && Ending(acts[..m], k) == Ending(acts, k)
  {
    hide PerformAll, Sees, Raises, Touches;
    assert acts[..m][..k] == acts[..k] && acts[..m][k] == acts[k];
  }

  lemma SeenStep(acts: seq<Action>)
    requires AllPossible(acts) && |acts| > 0
    ensures var m := |acts| - 1;
      Seen(acts) <==> (Seen(acts[..m]) && !Ending(acts, m)) || Seeing(acts, m)
    ensures Fresh(acts) <==> Fresh(acts[..|acts| - 1]) && !Ending(acts, |acts| - 1)
  {
    hide Seeing, Ending;
    var m := |acts| - 1;
    forall k | 0 <= k < m ensures Seeing(acts[..m], k) == Seeing(acts, k) && Ending(acts[..m], k) == Ending(acts, k) {
      SamePrefix(acts, m, k);
    }
    if Seen(acts) && !Seeing(acts, m) {
      var j :| 0 <= j < |acts| && Seeing(acts, j) && forall k | j < k < |acts| :: !Ending(acts, k);
      assert Seeing(acts[..m], j);
    }
    if Seen(acts[..m]) && !Ending(acts, m) {
      var j :| 0 <= j < m && Seeing(acts[..m], j) && forall k | j < k < m :: !Ending(acts[..m], k);
      assert Seeing(acts, j);
    }
    if Fresh(acts) {
      assert forall k | 0 <= k < m :: !Ending(acts, k);
    }
  }

  /** The flag that remembers a read, and OCF with it, since the start; at first it is as if the
      status had been read. */
  lemma {:induction false} ReadMeaning(acts: seq<Action>)
    requires AllPossible(acts)
    ensures var e := PerformAll(Start, acts);
      && (e.tsrRead <==> Seen(acts) || Fresh(acts)) && (Seen(acts) ==> e.Ocf()) && (Fresh(acts) ==> !e.Ocf())
  {
    if |acts| > 0 {
      hide PerformAll, Perform, Has, Matches, Seen, Fresh;
      var m := |acts| - 1;
      ReadMeaning(acts[..m]);
      SeenStep(acts);
      LastEffect(acts);
    } else {
      NoFlag();
    }
  }

  lemma NoFlag()
    ensures !Start.Ocf() && Start.tsrRead
  {
  }

  lemma LastEffect(acts: seq<Action>)
    requires AllPossible(acts) && |acts| > 0
    ensures var m := |acts| - 1;
      var c := PerformAll(Start, acts[..m]);
      var e := PerformAll(Start, acts);
      && e.tsrRead == ((c.tsrRead && !Ending(acts, m)) || Seeing(acts, m))
      && (c.Ocf() && !(c.tsrRead && Touches(acts[m])) ==> e.Ocf())
      && (!c.Ocf() && !Raises(c, acts[m]) ==> !e.Ocf())
      && (Seeing(acts, m) ==> c.Ocf() && !Touches(acts[m]))
  {
    hide Perform, Has, Matches;
    ActionEffect(PerformAll(Start, acts[..|acts| - 1]), acts[|acts| - 1]);
  }

  /** OCF is cleared by a status read that saw it set and then an access to the low byte of OCR,
      with no other such access between, and by nothing else. */
  lemma FlagCleared(acts: seq<Action>, a: Action)
    requires AllPossible(acts) && a.Possible()
    ensures var e := PerformAll(Start, acts);
      e.Ocf() && !Perform(e, a).Ocf() <==> Seen(acts) && Touches(a)
  {
    hide Perform, PerformAll, Seen, Fresh, Has, Matches;
    ReadMeaning(acts);
    ActionEffect(PerformAll(Start, acts), a);
  }

  /** OCF is set by a match, and by nothing else. */
  lemma FlagSet(acts: seq<Action>, a: Action)
    requires AllPossible(acts) && a.Possible()
    ensures var e := PerformAll(Start, acts);
      !e.Ocf() && Perform(e, a).Ocf() <==> !e.Ocf() && a.Pass? && Matches(e, a.n)
  {
    hide Perform, PerformAll, Has, Matches;
    ActionEffect(PerformAll(Start, acts), a);
  }
}
