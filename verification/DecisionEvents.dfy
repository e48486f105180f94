/**
  Decision events: each logical bar of each instrument triggers one decision, at the instant the
  bar first becomes visible, if that instant lies in the event window; and the events of an
  instant depend only on rows available by then.
*/
module DecisionEvents {
  import opened Sequences
  import opened Contracts
  import opened Selector
  import opened Engine

  lemma EventBeforeIsPreorder()
    ensures TotalPreorder(EventBefore)
  {
  }

  lemma {:induction false} InstantsMembers(opens: seq<int>, rows: seq<Bar>)
    ensures forall p :: p in Instants(opens, rows) <==> p.1 in opens && p.0 == FirstVisibility(rows, p.1)
  {
    if opens != [] { InstantsMembers(opens[1..], rows); }
  }

  lemma ScheduleMembers(rows: seq<Bar>)
    ensures forall p :: p in Schedule(rows) <==> p.1 in Opens(rows) && p.0 == FirstVisibility(rows, p.1)
  {
    var opens := Ascending(Opens(rows));
    AscendingLists(Opens(rows));
    InstantsMembers(opens, rows);
    SortMembers(InstantBefore, Instants(opens, rows));
  }

  lemma {:induction false} FindOpenFinds(bars: seq<Bar>, o: int)
    ensures match FindOpen(bars, o)
            case Some(b) => b in bars && b.open == o
            case None => forall b :: b in bars ==> b.open != o
  {
    if bars != [] { FindOpenFinds(bars[1..], o); }
  }

  /** The trigger of a scheduled decision is always visible at its decision instant. */
  lemma TriggerNeverMisses(rows: seq<Bar>, o: int)
    requires o in Opens(rows)
    ensures var found := FindOpen(Visible(rows, FirstVisibility(rows, o)), o);
            && found.Some? && found.value.open == o
            && found.value.effective == FirstVisibility(rows, o)
            && Current(rows, found.value, FirstVisibility(rows, o))
  {
    var t := FirstVisibility(rows, o);
    FirstIsLeast(rows, o);
    VisibleIsPointInTime(rows, t);
    FindOpenFinds(Visible(rows, t), o);
    var b :| b in rows && b.open == o && b.effective == t;
    var x :| x in Visible(rows, t) && x.open == b.open;
  }

  // ---- soundness and completeness of the event list ---------------------------------------

  /** `e` is the decision event of its trigger bar under the given rows and window. */
  ghost predicate IsEvent(e: Event, id: int, rows: seq<Bar>, from: int, to: int) {
    && e.instrument == id
    && from <= e.ts < to
    && e.trigger.open in Opens(rows)
    && e.ts == FirstVisibility(rows, e.trigger.open)
    && FindOpen(Visible(rows, e.ts), e.trigger.open) == Some(e.trigger)
  }

  lemma {:induction false} InstrumentEventsSound(id: int, rows: seq<Bar>, schedule: seq<(int, int)>, from: int, to: int)
    requires forall p :: p in schedule ==> p.1 in Opens(rows) && p.0 == FirstVisibility(rows, p.1)
    ensures forall e :: e in InstrumentEvents(id, rows, schedule, from, to) ==> IsEvent(e, id, rows, from, to)
  {
    if schedule != [] {
      InstrumentEventsSound(id, rows, schedule[1..], from, to);
      assert schedule[0] in schedule;
      FindOpenFinds(Visible(rows, schedule[0].0), schedule[0].1);
    }
  }

  lemma {:induction false} InstrumentEventsComplete(id: int, rows: seq<Bar>, schedule: seq<(int, int)>, from: int,
      to: int, e: Event)
    requires IsEvent(e, id, rows, from, to)
    requires (e.ts, e.trigger.open) in schedule
    ensures e in InstrumentEvents(id, rows, schedule, from, to)
  {
    if schedule[0] != (e.ts, e.trigger.open) {
      InstrumentEventsComplete(id, rows, schedule[1..], from, to, e);
    }
  }

  lemma {:induction false} RawEventsSound(instruments: seq<Instrument>, signal: map<int, seq<Bar>>, from: int,
      to: int, e: Event)
    ensures e in RawEvents(instruments, signal, from, to)
      <==> e.instrument in Ids(instruments) && IsEvent(e, e.instrument, RowsOf(signal, e.instrument), from, to)
  {
    if instruments != [] {
      var id := instruments[0].id;
      var rows := RowsOf(signal, id);
      RawEventsSound(instruments[1..], signal, from, to, e);
      ScheduleMembers(rows);
      InstrumentEventsSound(id, rows, Schedule(rows), from, to);
      if e.instrument == id && IsEvent(e, id, rows, from, to) {
        assert (e.ts, e.trigger.open) in Schedule(rows);
        InstrumentEventsComplete(id, rows, Schedule(rows), from, to, e);
      }
      assert forall i :: i in instruments <==> i == instruments[0] || i in instruments[1..];
    }
  }

  /** The event list holds exactly the decision events of the run. */
  lemma EventsAreTheSchedule(c: Config, e: Event)
    ensures e in Events(c)
      <==> && e.instrument in Ids(c.request.instruments)
           && IsEvent(e, e.instrument, RowsOf(c.data.signal, e.instrument), c.request.eventFrom, c.request.eventTo)
  {
    var r := c.request;
    RawEventsSound(r.instruments, c.data.signal, r.eventFrom, r.eventTo, e);
    SortMembers(EventBefore, RawEvents(r.instruments, c.data.signal, r.eventFrom, r.eventTo));
  }

  // ---- the schedule ----------------------------------------------------------------------

  /** The schedule lists each bar once with its first visibility, by visibility and then bar open. */
  lemma ScheduleListed(rows: seq<Bar>)
    ensures var s := Schedule(rows);
            && (forall p :: p in s <==> p.1 in Opens(rows) && p.0 == FirstVisibility(rows, p.1))
            && forall i, j :: 0 <= i < j < |s| ==> s[i].0 < s[j].0 || (s[i].0 == s[j].0 && s[i].1 < s[j].1)
  {
    var instants := Instants(Ascending(Opens(rows)), rows);
    ScheduleMembers(rows);
    AscendingLists(Opens(rows));
    InstantsDistinct(Ascending(Opens(rows)), rows);
    InstantBeforeIsPreorder();
    SortSorted(InstantBefore, instants);
    SortKeepsNoDup(InstantBefore, instants);
  }

  // ---- no event repeats ------------------------------------------------------------------

  lemma {:induction false} InstantsDistinct(opens: seq<int>, rows: seq<Bar>)
    requires Increasing(opens)
    ensures NoDup(Instants(opens, rows))
  {
    if opens != [] {
      InstantsDistinct(opens[1..], rows);
      InstantsMembers(opens[1..], rows);
      var rest := Instants(opens[1..], rows);
      forall j | 0 <= j < |rest| ensures rest[j] != (FirstVisibility(rows, opens[0]), opens[0]) {
        assert rest[j] in rest;
      }
    }
  }

  lemma {:induction false} InstrumentEventsDistinct(id: int, rows: seq<Bar>, schedule: seq<(int, int)>, from: int,
      to: int)
    requires NoDup(schedule)
    requires forall p :: p in schedule ==> p.1 in Opens(rows) && p.0 == FirstVisibility(rows, p.1)
    ensures NoDup(InstrumentEvents(id, rows, schedule, from, to))
    ensures forall e :: e in InstrumentEvents(id, rows, schedule, from, to) ==> (e.ts, e.trigger.open) in schedule
  {
    if schedule != [] {
      InstrumentEventsDistinct(id, rows, schedule[1..], from, to);
      FindOpenFinds(Visible(rows, schedule[0].0), schedule[0].1);
      var rest := InstrumentEvents(id, rows, schedule[1..], from, to);
      forall j | 0 <= j < |rest| ensures (rest[j].ts, rest[j].trigger.open) != schedule[0] {
        assert rest[j] in rest;
      }
    }
  }

  lemma {:induction false} RawEventsDistinct(instruments: seq<Instrument>, signal: map<int, seq<Bar>>, from: int,
      to: int)
    requires UniqueIds(instruments)
    ensures NoDup(RawEvents(instruments, signal, from, to))
  {
    if instruments != [] {
      var id := instruments[0].id;
      var rows := RowsOf(signal, id);
      RawEventsDistinct(instruments[1..], signal, from, to);
      AscendingLists(Opens(rows));
      InstantsDistinct(Ascending(Opens(rows)), rows);
      SortKeepsNoDup(InstantBefore, Instants(Ascending(Opens(rows)), rows));
      ScheduleMembers(rows);
      InstrumentEventsDistinct(id, rows, Schedule(rows), from, to);
      InstrumentEventsSound(id, rows, Schedule(rows), from, to);
      var mine := InstrumentEvents(id, rows, Schedule(rows), from, to);
      var rest := RawEvents(instruments[1..], signal, from, to);
      forall e | e in mine && e in rest ensures false {
        RawEventsSound(instruments[1..], signal, from, to, e);
      }
      forall i, j | 0 <= i < |mine| && 0 <= j < |rest| ensures mine[i] != rest[j] {
        assert mine[i] in mine && rest[j] in rest;
      }
    }
  }

  /** Every decision event is listed once. */
  lemma EventsDistinct(c: Config)
    requires UniqueIds(c.request.instruments)
    ensures NoDup(Events(c))
  {
    var r := c.request;
    RawEventsDistinct(r.instruments, c.data.signal, r.eventFrom, r.eventTo);
    SortKeepsNoDup(EventBefore, RawEvents(r.instruments, c.data.signal, r.eventFrom, r.eventTo));
  }

  // ---- events up to an instant depend only on rows available by then -----------------------

  function InstantIs(t: int): ((int, int)) -> bool { (p: (int, int)) => p.0 == t }

  function FirstIs(rows: seq<Bar>, t: int): int -> bool { (o: int) => FirstVisibility(rows, o) == t }

  lemma {:induction false} FilterInstants(opens: seq<int>, rows: seq<Bar>, t: int)
    ensures Filter(InstantIs(t), Instants(opens, rows)) == Instants(Filter(FirstIs(rows, t), opens), rows)
  {
    if opens != [] {
      var o := opens[0];
      FilterInstants(opens[1..], rows, t);
      FilterCons(InstantIs(t), (FirstVisibility(rows, o), o), Instants(opens[1..], rows));
      var rest := Filter(FirstIs(rows, t), opens[1..]);
      assert ([o] + rest)[1..] == rest;
    }
  }

  lemma {:induction false} SameInstants(opens: seq<int>, a: seq<Bar>, b: seq<Bar>)
    requires forall o :: o in opens ==> FirstVisibility(a, o) == FirstVisibility(b, o)
    ensures Instants(opens, a) == Instants(opens, b)
  {
    if opens != [] { SameInstants(opens[1..], a, b); }
  }

  function FirstOpens(rows: seq<Bar>, t: int): set<int> {
    set o | o in Opens(rows) && FirstVisibility(rows, o) == t
  }

  lemma ScheduleAt(rows: seq<Bar>, t: int)
    ensures Filter(InstantIs(t), Schedule(rows)) == Sort(InstantBefore, Instants(Ascending(FirstOpens(rows, t)), rows))
  {
    var opens := Ascending(Opens(rows));
    InstantBeforeIsPreorder();
    FilterSort(InstantBefore, InstantIs(t), Instants(opens, rows));
    FilterInstants(opens, rows, t);
    FilterAscending(FirstIs(rows, t), Opens(rows), FirstOpens(rows, t));
  }

  lemma FirstOpensAgree(a: seq<Bar>, b: seq<Bar>, t: int, horizon: int)
    requires Agree(a, b, horizon) && t <= horizon
    ensures FirstOpens(a, t) == FirstOpens(b, t)
    ensures forall o :: o in FirstOpens(a, t) ==> FirstVisibility(b, o) == t
  {
    forall o ensures o in FirstOpens(a, t) ==> o in FirstOpens(b, t) { FirstOpensOne(a, b, o, t, horizon); }
    forall o ensures o in FirstOpens(b, t) ==> o in FirstOpens(a, t) { FirstOpensOne(b, a, o, t, horizon); }
  }

  lemma FirstOpensOne(a: seq<Bar>, b: seq<Bar>, o: int, t: int, horizon: int)
    requires Agree(a, b, horizon) && t <= horizon
    ensures o in FirstOpens(a, t) ==> o in FirstOpens(b, t)
  {
    if o in FirstOpens(a, t) {
      AgreeEarlier(a, b, t, horizon);
      KnownOpens(a, o, t);
      KnownFirst(a, o, t);
      KnownOpens(b, o, t);
      KnownFirst(b, o, t);
    }
  }

  lemma ScheduleAgrees(a: seq<Bar>, b: seq<Bar>, t: int, horizon: int)
    requires Agree(a, b, horizon) && t <= horizon
    ensures Filter(InstantIs(t), Schedule(a)) == Filter(InstantIs(t), Schedule(b))
  {
    ScheduleAt(a, t);
    ScheduleAt(b, t);
    FirstOpensAgree(a, b, t, horizon);
    AscendingLists(FirstOpens(a, t));
    assert forall o :: o in Ascending(FirstOpens(a, t)) ==> FirstVisibility(a, o) == t == FirstVisibility(b, o);
    SameInstants(Ascending(FirstOpens(a, t)), a, b);
  }

  lemma {:induction false} FilterInstrumentEvents(id: int, rows: seq<Bar>, schedule: seq<(int, int)>, from: int,
      to: int, t: int)
    ensures Filter(EventAt(t), InstrumentEvents(id, rows, schedule, from, to))
         == InstrumentEvents(id, rows, Filter(InstantIs(t), schedule), from, to)
  {
    if schedule != [] {
      var (ts, o) := schedule[0];
      FilterInstrumentEvents(id, rows, schedule[1..], from, to, t);
      var rest := Filter(InstantIs(t), schedule[1..]);
      assert ([schedule[0]] + rest)[1..] == rest;
      var found := FindOpen(Visible(rows, ts), o);
      if found.Some? {
        FilterCons(EventAt(t), Event(ts, id, found.value), InstrumentEvents(id, rows, schedule[1..], from, to));
      }
    }
  }

  lemma {:induction false} SameInstrumentEvents(id: int, a: seq<Bar>, b: seq<Bar>, schedule: seq<(int, int)>,
      from: int, to: int, horizon: int)
    requires Agree(a, b, horizon)
    requires forall p :: p in schedule ==> p.0 <= horizon
    ensures InstrumentEvents(id, a, schedule, from, to) == InstrumentEvents(id, b, schedule, from, to)
  {
    if schedule != [] {
      assert schedule[0] in schedule;
      VisibleAgrees(a, b, schedule[0].0, horizon);
      SameInstrumentEvents(id, a, b, schedule[1..], from, to, horizon);
    }
  }

  lemma InstrumentEventsAgree(id: int, a: seq<Bar>, b: seq<Bar>, from: int, to: int, t: int, horizon: int)
    requires Agree(a, b, horizon) && t <= horizon
    ensures Filter(EventAt(t), InstrumentEvents(id, a, Schedule(a), from, to))
         == Filter(EventAt(t), InstrumentEvents(id, b, Schedule(b), from, to))
  {
    FilterInstrumentEvents(id, a, Schedule(a), from, to, t);
    FilterInstrumentEvents(id, b, Schedule(b), from, to, t);
    ScheduleAgrees(a, b, t, horizon);
    FilterMembers(InstantIs(t), Schedule(a));
    SameInstrumentEvents(id, a, b, Filter(InstantIs(t), Schedule(a)), from, to, horizon);
  }

  lemma {:induction false} RawEventsAgree(instruments: seq<Instrument>, a: map<int, seq<Bar>>,
      b: map<int, seq<Bar>>, from: int, to: int, t: int, horizon: int)
    requires forall id :: Agree(RowsOf(a, id), RowsOf(b, id), horizon)
    requires t <= horizon
    ensures Filter(EventAt(t), RawEvents(instruments, a, from, to))
         == Filter(EventAt(t), RawEvents(instruments, b, from, to))
  {
    if instruments != [] {
      var id := instruments[0].id;
      var p, q := RowsOf(a, id), RowsOf(b, id);
      RawEventsAgree(instruments[1..], a, b, from, to, t, horizon);
      InstrumentEventsAgree(id, p, q, from, to, t, horizon);
      FilterConcat(EventAt(t), InstrumentEvents(id, p, Schedule(p), from, to),
                   RawEvents(instruments[1..], a, from, to));
      FilterConcat(EventAt(t), InstrumentEvents(id, q, Schedule(q), from, to),
                   RawEvents(instruments[1..], b, from, to));
    }
  }

  /** The decision events of an instant are fixed by the rows available by then. */
  lemma EventsAgree(c: Config, d: Config, t: int, horizon: int)
    requires c.request == d.request
    requires forall id :: Agree(RowsOf(c.data.signal, id), RowsOf(d.data.signal, id), horizon)
    requires t <= horizon
    ensures EventsAt(Events(c), t) == EventsAt(Events(d), t)
  {
    var r := c.request;
    EventBeforeIsPreorder();
    FilterSort(EventBefore, EventAt(t), RawEvents(r.instruments, c.data.signal, r.eventFrom, r.eventTo));
    FilterSort(EventBefore, EventAt(t), RawEvents(r.instruments, d.data.signal, r.eventFrom, r.eventTo));
    RawEventsAgree(r.instruments, c.data.signal, d.data.signal, r.eventFrom, r.eventTo, t, horizon);
  }
}
