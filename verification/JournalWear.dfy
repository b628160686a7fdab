/** What a series of stores costs the chip, counted in the calls it received. */
module JournalWear {
  import opened BootState
  import opened Nor
  import opened Journal
  import opened JournalProofs

  lemma {:induction false} CountsAdd(a: seq<Op>, b: seq<Op>)
    ensures Programs(a + b) == Programs(a) + Programs(b)
    ensures Erases(a + b) == Erases(a) + Erases(b)
  {
    if b == [] {
      assert a + b == a;
    } else {
      assert (a + b)[..|a + b| - 1] == a + b[..|b| - 1];
      CountsAdd(a, b[..|b| - 1]);
    }
  }

  lemma DisciplineAdds(a: seq<Op>, b: seq<Op>)
    requires Disciplined(a) && Disciplined(b)
    ensures Disciplined(a + b)
  {}

  /** The next state of a series advances the log the ones before it wrote. */
  lemma SeriesAdvances(states: seq<State>, n: nat)
    requires EachAdvances(states) && n < |states|
    ensures Advances(CleanRun(states[..n]), states[n])
    ensures CleanRun(states[..n + 1]) == CleanStore(CleanRun(states[..n]), states[n])
    ensures CleanErases(states[..n + 1]) == CleanErases(states[..n]) + StoreErases(CleanRun(states[..n]))
  {
    hide CleanStore, StoreErases, Newest;
    var before, upTo := states[..n], states[..n + 1];
    assert upTo[..n] == before;
    WearBound(before);
    CleanRunUnfolds(upTo);
    if n == 0 {
      EmptyRunIsBlank();
      BlankLogNewest();
    } else {
      assert before[n - 1] == states[n - 1];
    }
  }

  /** Wear theorem on the chip: n stores, each of a newer state, on a chip whose
      log is blank cost n programs, each of a blank record, and 2*((n-1)/128)
      sector erases; the log ends with the last of them. */
  method StoreAll(nor: Flash, states: seq<State>)
    requires nor.Valid() && nor.powered && nor.faults == Reliable
    requires Cells(nor.mem) == BlankLog() && EachAdvances(states)
    modifies nor
    ensures nor.Valid() && nor.powered && old(nor.log) <= nor.log
    ensures var calls := nor.log[|old(nor.log)|..];
      && Disciplined(calls) && Programs(calls) == |states|
      && Erases(calls) == if states == [] then 0 else 2 * ((|states| - 1) / RECORDS_PER_SECTOR)
    ensures Newest(Cells(nor.mem)) == if states == [] then DEFAULT else states[|states| - 1].(found := true)
  {
    hide Cells, Newest, CleanStore, CleanRun, CleanErases, StoreErases, Advances, StoreEffect, Disciplined, Programs, Erases, Clean, EachAdvances;
    ghost var log := nor.log;
    assert log[|log|..] == [];
    NoCalls();
    assert states[..0] == [];
    EmptyRunIsBlank();
    BlankLogNewest();
    for n := 0 to |states|
      invariant nor.Valid() && nor.powered && log <= nor.log
      invariant Cells(nor.mem) == CleanRun(states[..n])
      invariant Disciplined(nor.log[|log|..]) && Programs(nor.log[|log|..]) == n
      invariant Erases(nor.log[|log|..]) == CleanErases(states[..n])
    {
      ghost var earlier := nor.log;
      SeriesAdvances(states, n);
      var status := Store(nor, states[n]);
      ghost var calls := nor.log[|earlier|..];
      assert nor.log[|log|..] == earlier[|log|..] + calls;
      CountsAdd(earlier[|log|..], calls);
      DisciplineAdds(earlier[|log|..], calls);
    }
    assert states[..|states|] == states;
    WearBound(states);
  }
}
