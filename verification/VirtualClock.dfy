/** The virtual clock of mysyscall/timing.c.

    A program under test sees time move in two ways: every read of a stopped clock advances it by one
    resolution, and the router orders jumps, from which the ticks already given out are taken off. */
module VirtualClock {
  import opened Options

  const S_TO_NS := 1_000_000_000

  datatype Timespec = Timespec(sec: int, nsec: int) {
    function Total(): int { sec * S_TO_NS + nsec }
  }

  const START_MONOTONIC := Timespec(10, 0)

  // ---- The clock in total nanoseconds

  /** The time now, the time of the last read, and the ticks since the last jump command. */
  datatype Reading = Reading(now: int, last: int, ticks: nat)

  function AfterRead(c: Reading, r: int): Reading {
    if c.now == c.last then Reading(c.now + r, c.now + r, c.ticks + 1) else Reading(c.now, c.now, c.ticks)
  }

  /** The increment a reader is told: one resolution if the clock stood still, else the time since the last read. */
  function Report(c: Reading, r: int): int {
    if c.now == c.last then r else c.now - c.last
  }

  function AfterJump(c: Reading, r: int, d: int): Reading {
    if r * c.ticks >= d then Reading(c.now, c.last, 0) else Reading(c.now + (d - r * c.ticks), c.last, 0)
  }

  // ---- The clock in its fields

  datatype Fields = Fields(curr: Timespec, prev: Timespec, ticks: nat) {
    function Abstract(): Reading { Reading(curr.Total(), prev.Total(), ticks) }

    /** Jumps add to both fields without a carry, so between two reads neither field falls. */
    ghost predicate Valid() { prev.sec <= curr.sec && prev.nsec <= curr.nsec }
  }

  /** One carry, and only when the nanoseconds reach a second. */
  function AddResolution(t: Timespec, r: Timespec): Timespec {
    if t.nsec + r.nsec >= S_TO_NS
    then Timespec(t.sec + 1 + r.sec, t.nsec + r.nsec - S_TO_NS)
    else Timespec(t.sec + r.sec, t.nsec + r.nsec)
  }

  function Difference(t: Timespec, u: Timespec): Timespec {
    if t.nsec < u.nsec
    then Timespec(t.sec - 1 - u.sec, t.nsec + S_TO_NS - u.nsec)
    else Timespec(t.sec - u.sec, t.nsec - u.nsec)
  }

  function ReadFields(f: Fields, r: Timespec): Fields {
    if f.curr == f.prev
    then Fields(AddResolution(f.curr, r), AddResolution(f.curr, r), f.ticks + 1)
    else f.(prev := f.curr)
  }

  function ReportFields(f: Fields, r: Timespec): Timespec {
    if f.curr == f.prev then r else Difference(f.curr, f.prev)
  }

  function JumpFields(f: Fields, r: Timespec, d: int): Fields {
    var left := d - r.Total() * f.ticks;
    if left <= 0 then f.(ticks := 0)
    else Fields(Timespec(f.curr.sec + left / S_TO_NS, f.curr.nsec + left % S_TO_NS), f.prev, 0)
  }

  ghost predicate GoodResolution(r: Timespec) {
    0 <= r.sec && 0 <= r.nsec < S_TO_NS && 0 < r.Total()
  }

  predicate Normal(t: Timespec) {
    0 <= t.nsec < S_TO_NS
  }

  /** The carry is right: the sum is normal, with the right total, so it is the only right answer. */
  lemma AddResolutionMeans(t: Timespec, r: Timespec)
    requires Normal(r)
    ensures AddResolution(t, r).Total() == t.Total() + r.Total()
    ensures Normal(t) ==> Normal(AddResolution(t, r))
    ensures 0 <= t.nsec ==> 0 <= AddResolution(t, r).nsec <= t.nsec + r.nsec
  {
  }

  lemma DifferenceMeans(t: Timespec, u: Timespec)
    ensures Difference(t, u).Total() == t.Total() - u.Total()
    ensures Normal(t) && Normal(u) ==> Normal(Difference(t, u))
  {
  }

  lemma NormalIsUnique(t: Timespec, u: Timespec)
    requires Normal(t) && Normal(u) && t.Total() == u.Total()
    ensures t == u
  {
  }

  lemma TotalMeans(t: Timespec)
    ensures Normal(t) <==> t.sec == t.Total() / S_TO_NS && t.nsec == t.Total() % S_TO_NS
  {
  }

  /** The fields do what the totals do, and stay valid. */
  lemma ReadRefines(f: Fields, r: Timespec)
    requires f.Valid() && GoodResolution(r)
    ensures ReadFields(f, r).Valid() && ReadFields(f, r).Abstract() == AfterRead(f.Abstract(), r.Total())
    ensures ReportFields(f, r).Total() == Report(f.Abstract(), r.Total())
  {
    AddResolutionMeans(f.curr, r);
    DifferenceMeans(f.curr, f.prev);
  }

  lemma JumpRefines(f: Fields, r: Timespec, d: int)
    requires f.Valid() && GoodResolution(r)
    ensures JumpFields(f, r, d).Valid() && JumpFields(f, r, d).Abstract() == AfterJump(f.Abstract(), r.Total(), d)
  {
  }

  class Clock {
    var curr: Timespec
    var prev: Timespec
    var resolutionIncrement: nat
    const resolution: Timespec

    function Now(): Fields
      reads this
    {
      Fields(curr, prev, resolutionIncrement)
    }

    ghost predicate Valid()
      reads this
    {
      GoodResolution(resolution) && Now().Valid()
    }

    ghost function Abstract(): Reading
      reads this
    {
      Now().Abstract()
    }

    constructor (resolution: Timespec)
      requires GoodResolution(resolution)
      ensures Valid() && this.resolution == resolution
      ensures Now() == Fields(Timespec(10, 0), Timespec(10, 0), 0)
    {
      this.resolution := resolution;
      curr := START_MONOTONIC;
      prev := START_MONOTONIC;
      resolutionIncrement := 0;
    }

    /** The source compares the fields; on valid clocks that is comparing the times. */
    predicate IsTimeStopped()
      requires Valid()
      reads this
      ensures IsTimeStopped() <==> curr.Total() == prev.Total()
    {
      prev.sec == curr.sec && prev.nsec == curr.nsec
    }

    method IncreaseResolution()
      requires Valid()
      modifies this`curr, this`resolutionIncrement
      ensures curr == AddResolution(old(curr), resolution)
      ensures curr.Total() == old(curr.Total()) + resolution.Total()
      ensures Normal(old(curr)) ==> Normal(curr)
      ensures resolutionIncrement == old(resolutionIncrement) + 1
      ensures curr.nsec < S_TO_NS <==> old(curr.nsec) + resolution.nsec < 2 * S_TO_NS
    {
      resolutionIncrement := resolutionIncrement + 1;
      curr := curr.(nsec := curr.nsec + resolution.nsec);
      if curr.nsec >= S_TO_NS {
        curr := curr.(sec := curr.sec + 1);
        curr := curr.(nsec := curr.nsec - S_TO_NS);
      }
      curr := curr.(sec := curr.sec + resolution.sec);
    }

    /** The time since the last read; the assertion of the source holds on any clock that did not go back. */
    method GetTimeIncrement() returns (increment: Timespec)
      requires prev.Total() <= curr.Total()
      ensures increment == Difference(curr, prev)
      ensures increment.Total() == curr.Total() - prev.Total()
    {
      if curr.nsec < prev.nsec {
        assert curr.sec > prev.sec;
        increment := Timespec(curr.sec - 1 - prev.sec, curr.nsec + S_TO_NS - prev.nsec);
      } else {
        increment := Timespec(curr.sec - prev.sec, curr.nsec - prev.nsec);
      }
    }

    method IncreaseTime(wanted: bool) returns (increment: Option<Timespec>)
      requires Valid()
      modifies this
      ensures Valid()
      ensures Now() == ReadFields(old(Now()), resolution)
      ensures increment == if wanted then Some(ReportFields(old(Now()), resolution)) else None
      ensures Abstract() == AfterRead(old(Abstract()), resolution.Total())
      ensures wanted ==> increment.value.Total() == Report(old(Abstract()), resolution.Total())
    {
      ReadRefines(Now(), resolution);
      increment := None;
      if IsTimeStopped() {
        IncreaseResolution();
        if wanted {
          increment := Some(resolution);
        }
      } else if wanted {
        var sinceLast := GetTimeIncrement();
        increment := Some(sinceLast);
      }
      prev := curr;
    }

    /** There is no carry: the nanoseconds stay below a second exactly if nothing is left of the jump, or what is left
        does not take them over. */
    method SetTimeIncrement(tvNsec: int)
      requires Valid()
      modifies this
      ensures Valid()
      ensures Now() == JumpFields(old(Now()), resolution, tvNsec)
      ensures Abstract() == AfterJump(old(Abstract()), resolution.Total(), tvNsec)
      ensures var ns := resolution.Total() * old(resolutionIncrement);
              old(curr.nsec) < S_TO_NS ==>
                (curr.nsec < S_TO_NS <==> tvNsec <= ns || old(curr.nsec) + (tvNsec - ns) % S_TO_NS < S_TO_NS)
    {
      JumpRefines(Now(), resolution, tvNsec);
      var ns := (resolution.sec * S_TO_NS + resolution.nsec) * resolutionIncrement;
      if ns < tvNsec {
        var left := tvNsec - ns;
        curr := curr.(sec := curr.sec + left / S_TO_NS);
        curr := curr.(nsec := curr.nsec + left % S_TO_NS);
      }
      resolutionIncrement := 0;
    }
  }

  /** Two jumps of just under a second from the start, or from any full second that no tick has passed, leave the clock
      with nearly two seconds of nanoseconds. */
  method TwoJumps(c: Clock)
    requires c.Valid() && c.curr.nsec == 0 && c.resolutionIncrement == 0
    modifies c
    ensures c.Valid() && c.curr.nsec == 1_999_999_998 >= S_TO_NS
  {
    c.SetTimeIncrement(S_TO_NS - 1);
    c.SetTimeIncrement(S_TO_NS - 1);
  }

  // ---- Runs

  datatype Event = Read | Jump(d: int)

  function Exec(r: int, start: Reading, events: seq<Event>): Reading {
    if events == [] then start
    else
      var before := Exec(r, start, events[..|events| - 1]);
      match events[|events| - 1]
      case Read => AfterRead(before, r)
      case Jump(d) => AfterJump(before, r, d)
  }

  // What the events alone say: whether the clock stands still, and how many ticks it gave since the last command.

  predicate Stopped(r: int, events: seq<Event>)
    decreases |events|, 0
  {
    if events == [] then true
    else
      var init := events[..|events| - 1];
      match events[|events| - 1]
      case Read => true
      case Jump(d) => Stopped(r, init) && d <= r * Ticks(r, init)
  }

  function Ticks(r: int, events: seq<Event>): nat
    decreases |events|, 1
  {
    if events == [] then 0
    else
      var init := events[..|events| - 1];
      match events[|events| - 1]
      case Read => Ticks(r, init) + if Stopped(r, init) then 1 else 0
      case Jump(_) => 0
  }

  function Max(a: int, b: int): int {
    if a >= b then a else b
  }

  /** The sum over the jump commands of the larger of the jump and the ticks since the previous command. */
  function Jumped(r: int, events: seq<Event>): int {
    if events == [] then 0
    else
      var init := events[..|events| - 1];
      Jumped(r, init) +
      match events[|events| - 1]
      case Read => 0
      case Jump(d) => Max(d, r * Ticks(r, init))
  }

  ghost function Fresh(start: int): Reading {
    Reading(start, start, 0)
  }

  lemma ReadAccount(c: Reading, r: int, base: int)
    requires c.now == base + r * c.ticks
    ensures AfterRead(c, r).now == base + r * AfterRead(c, r).ticks
  {
    assert r * (c.ticks + 1) == r * c.ticks + r;
  }

  lemma JumpAccount(c: Reading, r: int, d: int, base: int)
    requires c.now == base + r * c.ticks
    ensures AfterJump(c, r, d).now == base + Max(d, r * c.ticks)
    ensures AfterJump(c, r, d).now >= c.now
    ensures AfterJump(c, r, d).now == c.now <==> d <= r * c.ticks
  {
  }

  /** A jump is only late by what the ticks already gave out: total time is the start, plus the larger of jump and
      ticks for every command, plus the ticks since the last one.  Jumps may be negative. */
  lemma {:induction false} TimeAccounting(r: int, start: int, events: seq<Event>)
    requires r > 0
    ensures var c := Exec(r, Fresh(start), events);
            && c.now == start + Jumped(r, events) + r * Ticks(r, events)
            && c.ticks == Ticks(r, events)
            && c.last <= c.now
            && (c.now == c.last <==> Stopped(r, events))
  {
    if events != [] {
      var init := events[..|events| - 1];
      TimeAccounting(r, start, init);
      var c, base := Exec(r, Fresh(start), init), start + Jumped(r, init);
      match events[|events| - 1]
      case Read => ReadAccount(c, r, base);
      case Jump(d) =>
        JumpAccount(c, r, d, base);
        assert r * 0 == 0;
    }
  }

  lemma {:induction false} NeverBack(r: int, start: int, events: seq<Event>, i: nat)
    requires r > 0 && i <= |events|
    ensures Exec(r, Fresh(start), events[..i]).now <= Exec(r, Fresh(start), events).now
    ensures Exec(r, Fresh(start), events[..i]).last <= Exec(r, Fresh(start), events).last
  {
    if i == |events| {
      assert events[..i] == events;
    } else {
      var init := events[..|events| - 1];
      NeverBack(r, start, init, i);
      TimeAccounting(r, start, init);
      assert init[..i] == events[..i];
    }
  }

  /** Every read returns a strictly later time than every earlier read, whatever jumps come between. */
  lemma ReadsIncrease(r: int, start: int, events: seq<Event>, i: nat, j: nat)
    requires r > 0 && i < j < |events| && events[i] == Read && events[j] == Read
    ensures start < Exec(r, Fresh(start), events[..i + 1]).now < Exec(r, Fresh(start), events[..j + 1]).now
  {
    var upToI, beforeI := events[..i + 1], events[..i];
    var upToJ, beforeJ := events[..j + 1], events[..j];
    assert upToI[..|upToI| - 1] == beforeI && upToJ[..|upToJ| - 1] == beforeJ;
    TimeAccounting(r, start, beforeI);
    TimeAccounting(r, start, beforeJ);
    NeverBack(r, start, beforeI, 0);
    NeverBack(r, start, beforeJ, i + 1);
    assert beforeJ[..i + 1] == upToI;
    assert beforeI[..0] == [];
  }

  /** The increments reported to the readers, added up. */
  function Reported(r: int, start: Reading, events: seq<Event>): int {
    if events == [] then 0
    else
      var init := events[..|events| - 1];
      Reported(r, start, init) +
      match events[|events| - 1]
      case Read => Report(Exec(r, start, init), r)
      case Jump(_) => 0
  }

  /** They add up to the time of the last read: nothing is reported twice or lost. */
  lemma {:induction false} ReportsTelescope(r: int, start: int, events: seq<Event>)
    requires r > 0
    ensures Reported(r, Fresh(start), events) == Exec(r, Fresh(start), events).last - start
    ensures events != [] && events[|events| - 1] == Read ==>
              Reported(r, Fresh(start), events) == Jumped(r, events) + r * Ticks(r, events)
  {
    TimeAccounting(r, start, events);
    if events != [] {
      ReportsTelescope(r, start, events[..|events| - 1]);
    }
  }

  // ---- The fields over whole runs

  function FieldsExec(r: Timespec, events: seq<Event>): Fields {
    if events == [] then Fields(START_MONOTONIC, START_MONOTONIC, 0)
    else
      var before := FieldsExec(r, events[..|events| - 1]);
      match events[|events| - 1]
      case Read => ReadFields(before, r)
      case Jump(d) => JumpFields(before, r, d)
  }

  /** In every run the fields stand for the totals, and the nanoseconds are never negative. */
  lemma {:induction false} FieldsRefine(r: Timespec, events: seq<Event>)
    requires GoodResolution(r)
    ensures var f := FieldsExec(r, events);
            && f.Valid() && 0 <= f.prev.nsec <= f.curr.nsec
            && f.Abstract() == Exec(r.Total(), Fresh(START_MONOTONIC.Total()), events)
  {
    if events != [] {
      var init := events[..|events| - 1];
      var f := FieldsExec(r, init);
      FieldsRefine(r, init);
      match events[|events| - 1]
      case Read =>
        ReadRefines(f, r);
        AddResolutionMeans(f.curr, r);
      case Jump(d) => JumpRefines(f, r, d);
    }
  }

  /** The event is a jump whose rest, without a carry, takes the nanoseconds past a second. */
  predicate PassesSecond(f: Fields, r: Timespec, e: Event) {
    && e.Jump?
    && var left := e.d - r.Total() * f.ticks;
    left > 0 && f.curr.nsec + left % S_TO_NS >= S_TO_NS
  }

  lemma PassingBreaks(f: Fields, r: Timespec, d: int)
    requires Normal(f.curr)
    ensures Normal(JumpFields(f, r, d).curr) <==> !PassesSecond(f, r, Jump(d))
  {
  }

  /** Until a jump takes the nanoseconds past a second, seconds and nanoseconds are what they should be: quotient and
      remainder of the total. */
  lemma {:induction false} FieldsNormal(r: Timespec, events: seq<Event>)
    requires GoodResolution(r)
    requires forall i :: 0 <= i < |events| ==> !PassesSecond(FieldsExec(r, events[..i]), r, events[i])
    ensures var t, total := FieldsExec(r, events).curr, Exec(r.Total(), Fresh(START_MONOTONIC.Total()), events).now;
            Normal(t) && t.sec == total / S_TO_NS && t.nsec == total % S_TO_NS
  {
    FieldsRefine(r, events);
    if events != [] {
      var init := events[..|events| - 1];
      var f := FieldsExec(r, init);
      forall i | 0 <= i < |init| ensures init[..i] == events[..i] && init[i] == events[i] {}
      FieldsNormal(r, init);
      assert events[..|events| - 1] == init;
      assert !PassesSecond(f, r, events[|events| - 1]);
      FieldsRefine(r, init);
      AddResolutionMeans(f.curr, r);
    }
    TotalMeans(FieldsExec(r, events).curr);
  }
}
