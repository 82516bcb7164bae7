/** Proctoring events: what each is worth, the in-memory counts that decide it, and the verdict over the stored rows. */
module Proctoring {
  import opened Text

  datatype EventType =
    | TabBlur | TabFocus | FullscreenExit | Paste | Copy | DevtoolsOpen | WindowResize | FaceFrame
    | FaceAbsent | MultipleFaces | SecondSpeaker | AnomalousSilence

  datatype Severity = Info | Warn | Critical

  datatype Thresholds = Thresholds(blurLimit: nat, fullscreenRequired: bool, pasteBlocked: bool, autoTerminate: bool)

  datatype Row = Row(kind: EventType, severity: Severity)

  const FLAG_ON_CRITICAL: nat := 1
  const FLAG_ON_WARNINGS: nat := 4
  const SUSPICIOUS_ON_WARNINGS: nat := 1

  predicate ClientReportable(kind: EventType) {
    kind !in {FaceAbsent, MultipleFaces, SecondSpeaker, AnomalousSilence}
  }

  function BaseSeverity(kind: EventType): Option<Severity> {
    match kind
    case SecondSpeaker | MultipleFaces => Some(Critical)
    case FaceAbsent | DevtoolsOpen => Some(Warn)
    case AnomalousSilence | TabFocus | WindowResize | Copy | FaceFrame => Some(Info)
    case TabBlur | FullscreenExit | Paste => None
  }

  function SeverityFor(kind: EventType, prior: nat, th: Thresholds): Severity {
    var occurrence := prior + 1;
    match BaseSeverity(kind)
    case Some(fixed) => fixed
    case None =>
      match kind
      case TabBlur =>
        if occurrence <= th.blurLimit then Info
        else if occurrence > th.blurLimit * 2 then Critical else Warn
      case FullscreenExit =>
        if !th.fullscreenRequired then Info
        else if occurrence == 1 then Warn else Critical
      case Paste => if th.pasteBlocked then Warn else Info
      case _ => Info
  }

  predicate ShouldTerminate(severity: Severity, th: Thresholds) {
    th.autoTerminate && severity == Critical
  }

  // ---------------------------------------------------------------------------
  // Stored rows and the counts held in memory
  // ---------------------------------------------------------------------------

  function CountOf(rows: seq<Row>, kind: EventType): nat {
    if rows == [] then 0
    else CountOf(rows[..|rows| - 1], kind) + if rows[|rows| - 1].kind == kind then 1 else 0
  }

  lemma CountOneMore(rows: seq<Row>, row: Row, kind: EventType)
    ensures CountOf(rows + [row], kind) == CountOf(rows, kind) + if row.kind == kind then 1 else 0
  {
    assert (rows + [row])[..|rows|] == rows;
  }

  function Get<K>(counts: map<K, nat>, key: K): nat {
    if key in counts then counts[key] else 0
  }

  /** The counts in memory are the stored ones, for every type a browser can report. */
  ghost predicate InStep(counts: map<EventType, nat>, rows: seq<Row>) {
    forall kind :: ClientReportable(kind) ==> Get(counts, kind) == CountOf(rows, kind)
  }

  /** The event rows of one interview. */
  class EventTable {
    var rows: seq<Row>

    constructor ()
      ensures rows == []
    {
      rows := [];
    }

    /** `SELECT event_type, count(*) ... GROUP BY event_type`. */
    method CountsByType() returns (counts: map<EventType, nat>)
      ensures forall kind :: Get(counts, kind) == CountOf(rows, kind)
      ensures forall kind :: kind in counts ==> counts[kind] > 0
    {
      counts := map[];
      for i := 0 to |rows|
        invariant forall kind :: Get(counts, kind) == CountOf(rows[..i], kind)
        invariant forall kind :: kind in counts ==> counts[kind] > 0
      {
        assert rows[..i + 1][..i] == rows[..i];
        counts := counts[rows[i].kind := Get(counts, rows[i].kind) + 1];
      }
      assert rows[..|rows|] == rows;
    }

    method Add(row: Row)
      modifies this
      ensures rows == old(rows) + [row]
    {
      rows := rows + [row];
    }
  }

  class SessionCounters {
    var counts: map<EventType, nat>

    constructor ()
      ensures counts == map[]
    {
      counts := map[];
    }

    method Bump(kind: EventType) returns (prior: nat)
      modifies this
      ensures prior == Get(old(counts), kind)
      ensures counts == old(counts)[kind := prior + 1]
    {
      prior := Get(counts, kind);
      counts := counts[kind := prior + 1];
    }

    method Prime(table: EventTable)
      modifies this
      ensures forall kind :: Get(counts, kind) == CountOf(table.rows, kind)
    {
      var stored := table.CountsByType();
      counts := stored;
    }

    /** One report: counted first, then stored; `fails` is a flush or commit that did not go through, after
        which the count is one ahead of the rows and the socket is closed. */
    method Record(table: EventTable, kind: EventType, th: Thresholds, fails: bool) returns (row: Row)
      requires ClientReportable(kind) && InStep(counts, table.rows)
      modifies this, table
      ensures row == Row(kind, SeverityFor(kind, CountOf(old(table.rows), kind), th))
      ensures table.rows == if fails then old(table.rows) else old(table.rows) + [row]
      ensures !fails ==> InStep(counts, table.rows)
    {
      var prior := Bump(kind);
      row := Row(kind, SeverityFor(kind, prior, th));
      if !fails {
        table.Add(row);
        forall other | ClientReportable(other)
          ensures Get(counts, other) == CountOf(table.rows, other)
        {
          CountOneMore(old(table.rows), row, other);
        }
      }
    }
  }

  // ---------------------------------------------------------------------------
  // Connections
  // ---------------------------------------------------------------------------

  /** One interview: its rows, the counts of the open socket if there is one, and whether it has ended. */
  datatype Sys = Sys(rows: seq<Row>, socket: Option<map<EventType, nat>>, ended: bool)

  datatype Event =
    | Connect
    | Disconnect
    | Report(kind: EventType, stored: bool)
    | Derive(row: Row)
    | End

  function Step(s: Sys, e: Event, th: Thresholds): Sys {
    match e
    case Connect => if s.ended || s.socket.Some? then s else s.(socket := Some(Primed(s.rows)))
    case Disconnect => s.(socket := None)
    case Report(kind, stored) =>
      if s.socket.None? || !ClientReportable(kind) then s
      else
        var prior := Get(s.socket.value, kind);
        var row := Row(kind, SeverityFor(kind, prior, th));
        // Terminating an interview that has ended raises, and the report's row is rolled back with it.
        if !stored || (s.ended && ShouldTerminate(row.severity, th)) then s.(socket := None)
        else
          var rows := s.rows + [row];
          if ShouldTerminate(row.severity, th) then Sys(rows, None, true)
          else s.(rows := rows, socket := Some(s.socket.value[kind := prior + 1]))
    case Derive(row) => if ClientReportable(row.kind) then s else s.(rows := s.rows + [row])
    case End => s.(ended := true)
  }

  /** The counts a new connection starts from. */
  function Primed(rows: seq<Row>): (counts: map<EventType, nat>)
    ensures forall kind :: Get(counts, kind) == CountOf(rows, kind)
  {
    if rows == [] then map[]
    else
      var front, kind := Primed(rows[..|rows| - 1]), rows[|rows| - 1].kind;
      front[kind := Get(front, kind) + 1]
  }

  function Run(s: Sys, events: seq<Event>, th: Thresholds): Sys {
    if events == [] then s else Step(Run(s, events[..|events| - 1], th), events[|events| - 1], th)
  }

  /** What a list of reports is worth when nothing ever disconnects: each graded by its own earlier occurrences. */
  function Graded(kinds: seq<EventType>, th: Thresholds): seq<Row> {
    if kinds == [] then []
    else
      var front, kind := Graded(kinds[..|kinds| - 1], th), kinds[|kinds| - 1];
      front + [Row(kind, SeverityFor(kind, Occurrences(kinds[..|kinds| - 1], kind), th))]
  }

  function Occurrences(kinds: seq<EventType>, kind: EventType): nat {
    if kinds == [] then 0
    else Occurrences(kinds[..|kinds| - 1], kind) + if kinds[|kinds| - 1] == kind then 1 else 0
  }

  function ClientRows(rows: seq<Row>): seq<Row> {
    if rows == [] then []
    else
      var front, last := ClientRows(rows[..|rows| - 1]), rows[|rows| - 1];
      if ClientReportable(last.kind) then front + [last] else front
  }

  function Kinds(rows: seq<Row>): seq<EventType> {
    seq(|rows|, i requires 0 <= i < |rows| => rows[i].kind)
  }

  ghost predicate Inv(s: Sys, th: Thresholds) {
    && (s.socket.Some? ==> InStep(s.socket.value, s.rows))
    && ClientRows(s.rows) == Graded(Kinds(ClientRows(s.rows)), th)
  }

  lemma ClientRowsOneMore(rows: seq<Row>, row: Row)
    ensures ClientRows(rows + [row]) == if ClientReportable(row.kind) then ClientRows(rows) + [row] else ClientRows(rows)
  {
    assert (rows + [row])[..|rows|] == rows;
  }

  lemma {:induction false} OccurrencesInRows(rows: seq<Row>, kind: EventType)
    requires ClientReportable(kind)
    ensures Occurrences(Kinds(ClientRows(rows)), kind) == CountOf(rows, kind)
  {
    if rows != [] {
      var front, last := rows[..|rows| - 1], rows[|rows| - 1];
      OccurrencesInRows(front, kind);
      if ClientReportable(last.kind) {
        assert Kinds(ClientRows(rows))[..|ClientRows(front)|] == Kinds(ClientRows(front));
      }
    }
  }

  lemma GradedOneMore(rows: seq<Row>, kind: EventType, th: Thresholds)
    requires ClientReportable(kind) && ClientRows(rows) == Graded(Kinds(ClientRows(rows)), th)
    ensures var more := ClientRows(rows + [Row(kind, SeverityFor(kind, CountOf(rows, kind), th))]);
      more == Graded(Kinds(more), th)
  {
    var row := Row(kind, SeverityFor(kind, CountOf(rows, kind), th));
    ClientRowsOneMore(rows, row);
    OccurrencesInRows(rows, kind);
    var kinds := Kinds(ClientRows(rows) + [row]);
    assert kinds[..|kinds| - 1] == Kinds(ClientRows(rows)) && kinds[|kinds| - 1] == kind;
  }

  lemma InStepAfter(counts: map<EventType, nat>, rows: seq<Row>, row: Row)
    requires InStep(counts, rows)
    ensures ClientReportable(row.kind) ==> InStep(counts[row.kind := Get(counts, row.kind) + 1], rows + [row])
    ensures !ClientReportable(row.kind) ==> InStep(counts, rows + [row])
  {
    forall kind
      ensures CountOf(rows + [row], kind) == CountOf(rows, kind) + if row.kind == kind then 1 else 0
    {
      CountOneMore(rows, row, kind);
    }
  }

  /** The row is lost with its socket, or stored, and then the socket that stays open has counted it. */
  lemma ReportOutcome(s: Sys, kind: EventType, th: Thresholds)
    requires s.socket.Some? && ClientReportable(kind) && InStep(s.socket.value, s.rows)
    ensures var row, s' := Row(kind, SeverityFor(kind, CountOf(s.rows, kind), th)), Step(s, Report(kind, true), th);
      || (s'.rows == s.rows && s'.socket.None?)
      || (s'.rows == s.rows + [row] &&
          (s'.socket.Some? ==> s'.socket.value == s.socket.value[kind := Get(s.socket.value, kind) + 1]))
  {
  }

  lemma ReportKeepsInv(s: Sys, kind: EventType, th: Thresholds)
    requires Inv(s, th) && s.socket.Some? && ClientReportable(kind)
    ensures Inv(Step(s, Report(kind, true), th), th)
  {
    hide Step, CountOf, ClientRows, Graded, Kinds, InStep, SeverityFor, Get;
    ReportOutcome(s, kind, th);
    InStepAfter(s.socket.value, s.rows, Row(kind, SeverityFor(kind, CountOf(s.rows, kind), th)));
    GradedOneMore(s.rows, kind, th);
  }

  lemma DeriveKeepsInv(s: Sys, row: Row, th: Thresholds)
    requires Inv(s, th) && !ClientReportable(row.kind)
    ensures Inv(Step(s, Derive(row), th), th)
  {
    ClientRowsOneMore(s.rows, row);
    if s.socket.Some? {
      InStepAfter(s.socket.value, s.rows, row);
    }
  }

  lemma StepKeepsInv(s: Sys, e: Event, th: Thresholds)
    requires Inv(s, th)
    ensures Inv(Step(s, e, th), th)
  {
    match e
    case Report(kind, stored) =>
      if s.socket.Some? && ClientReportable(kind) && stored {
        ReportKeepsInv(s, kind, th);
      }
    case Derive(row) =>
      if !ClientReportable(row.kind) {
        DeriveKeepsInv(s, row, th);
      }
    case _ =>
  }

  /** In every run the open socket's counts are the stored ones, and every reported row has the severity its own
      place among the stored rows gives it: where the run was cut by reconnects shows nowhere. */
  lemma {:induction false} RunsKeepInv(events: seq<Event>, th: Thresholds)
    ensures Inv(Run(Sys([], None, false), events, th), th)
  {
    if events != [] {
      RunsKeepInv(events[..|events| - 1], th);
      StepKeepsInv(Run(Sys([], None, false), events[..|events| - 1], th), events[|events| - 1], th);
    }
  }

  /** Two runs that stored the same reports in the same order gave them the same severities. */
  lemma ReconnectsDoNotReset(a: seq<Event>, b: seq<Event>, th: Thresholds)
    requires var first, second := Run(Sys([], None, false), a, th), Run(Sys([], None, false), b, th);
      Kinds(ClientRows(first.rows)) == Kinds(ClientRows(second.rows))
    ensures ClientRows(Run(Sys([], None, false), a, th).rows) == ClientRows(Run(Sys([], None, false), b, th).rows)
  {
    RunsKeepInv(a, th);
    RunsKeepInv(b, th);
  }

  lemma {:induction false} RunTogether(s: Sys, a: seq<Event>, b: seq<Event>, th: Thresholds)
    ensures Run(s, a + b, th) == Run(Run(s, a, th), b, th)
    decreases |b|
  {
    hide Step;
    if b == [] {
      assert a + b == a;
    } else {
      var front, last := b[..|b| - 1], b[|b| - 1];
      RunTogether(s, a, front, th);
      assert (a + b)[..|a + b| - 1] == a + front && (a + b)[|a + b| - 1] == last;
    }
  }

  /** These reports, all of which get through. */
  function ReportsOf(kinds: seq<EventType>): seq<Event> {
    seq(|kinds|, i requires 0 <= i < |kinds| => Report(kinds[i], true))
  }

  /** With termination off, a candidate who connects and reports has exactly those reports stored, in order, each graded by
      how often its type was stored before. */
  lemma {:induction false} UnbrokenRun(kinds: seq<EventType>, th: Thresholds)
    requires !th.autoTerminate
    requires forall i :: 0 <= i < |kinds| ==> kinds[i] !in {FaceAbsent, MultipleFaces, SecondSpeaker, AnomalousSilence}
    ensures var s := Run(Sys([], None, false), [Connect] + ReportsOf(kinds), th);
      s.rows == Graded(kinds, th) && s.socket.Some? && !s.ended
  {
    if kinds == [] {
      assert [Connect] + ReportsOf(kinds) == [Connect] && [Connect][..0] == [];
    } else {
      var n, all := |kinds| - 1, [Connect] + ReportsOf(kinds);
      var front := [Connect] + ReportsOf(kinds[..n]);
      UnbrokenRun(kinds[..n], th);
      assert all[..|all| - 1] == front && all[|all| - 1] == Report(kinds[n], true);
      RunsKeepInv(front, th);
      OccurrencesInGraded(kinds[..n], kinds[n], th);
    }
  }

  lemma {:induction false} OccurrencesInGraded(kinds: seq<EventType>, kind: EventType, th: Thresholds)
    ensures CountOf(Graded(kinds, th), kind) == Occurrences(kinds, kind)
  {
    if kinds != [] {
      var n := |kinds| - 1;
      OccurrencesInGraded(kinds[..n], kind, th);
      CountOneMore(Graded(kinds[..n], th), Row(kinds[n], SeverityFor(kinds[n], Occurrences(kinds[..n], kinds[n]), th)), kind);
    }
  }

  /** What only the server can know a client cannot report. */
  lemma ServerTypesAreNotReported(s: Sys, kind: EventType, stored: bool, th: Thresholds)
    requires kind in {FaceAbsent, MultipleFaces, SecondSpeaker, AnomalousSilence}
    ensures Step(s, Report(kind, stored), th) == s
  {
  }

  /** The rows the server derived, as they came. */
  function Derived(events: seq<Event>): seq<Row> {
    if events == [] then []
    else
      var front, last := Derived(events[..|events| - 1]), events[|events| - 1];
      if last.Derive? && !ClientReportable(last.row.kind) then front + [last.row] else front
  }

  /** What the server derives is stored whatever the socket does, in order, and nothing else passes for it. */
  lemma {:induction false} DerivedAreStored(events: seq<Event>, th: Thresholds)
    ensures DerivedRows(Run(Sys([], None, false), events, th).rows) == Derived(events)
  {
    if events != [] {
      var n := |events| - 1;
      DerivedAreStored(events[..n], th);
      StepDerives(Run(Sys([], None, false), events[..n], th), events[n], th);
    }
  }

  lemma StepDerives(s: Sys, e: Event, th: Thresholds)
    ensures DerivedRows(Step(s, e, th).rows) ==
      DerivedRows(s.rows) + if e.Derive? && !ClientReportable(e.row.kind) then [e.row] else []
  {
    var rows := Step(s, e, th).rows;
    if rows != s.rows {
      assert rows[..|rows| - 1] == s.rows;
    }
  }

  lemma EndsAndCloses(s: Sys, th: Thresholds)
    ensures Run(s, [End, Disconnect], th) == s.(ended := true, socket := None)
  {
    assert [End, Disconnect][..1] == [End] && [End][..0] == [];
    assert Run(s, [End], th) == Step(s, End, th);
  }

  /** However an interview ends, once its socket is closed no report is stored any more. */
  lemma NoReportsAfterEnd(before: seq<Event>, after: seq<Event>, th: Thresholds)
    ensures var s := Run(Sys([], None, false), before, th);
      var s' := Run(Sys([], None, false), before + [End, Disconnect] + after, th);
      s'.ended && s'.socket.None? && ClientRows(s'.rows) == ClientRows(s.rows)
  {
    var s0, s := Sys([], None, false), Run(Sys([], None, false), before, th);
    RunTogether(s0, before, [End, Disconnect], th);
    RunTogether(s0, before + [End, Disconnect], after, th);
    EndsAndCloses(s, th);
    hide Run, Step, ClientRows;
    NoReportsAfterTermination(Run(s, [End, Disconnect], th), after, th);
  }

  /** A report that does not fail is a breach exactly when termination is on and it is critical.  A breach ends the
      interview and closes the socket, and in an interview that has ended already its row is lost; any other report is
      stored and leaves the rest alone. */
  lemma WhenReportsEnd(events: seq<Event>, kind: EventType, th: Thresholds)
    requires Run(Sys([], None, false), events, th).socket.Some? && ClientReportable(kind)
    ensures var s := Run(Sys([], None, false), events, th);
      var s', severity := Step(s, Report(kind, true), th), SeverityFor(kind, CountOf(s.rows, kind), th);
      var breach := th.autoTerminate && severity == Critical;
      && s'.rows == (if s.ended && breach then s.rows else s.rows + [Row(kind, severity)])
      && (s'.ended <==> s.ended || breach)
      && (s'.socket.None? <==> breach)
  {
    RunsKeepInv(events, th);
  }

  /** Once ended with its socket closed, an interview takes no further report: every later connection is refused. */
  lemma {:induction false} NoReportsAfterTermination(s: Sys, events: seq<Event>, th: Thresholds)
    requires s.ended && s.socket.None?
    ensures var s' := Run(s, events, th);
      s'.ended && s'.socket.None? && ClientRows(s'.rows) == ClientRows(s.rows)
  {
    if events != [] {
      var before, e := Run(s, events[..|events| - 1], th), events[|events| - 1];
      NoReportsAfterTermination(s, events[..|events| - 1], th);
      if e.Derive? {
        ClientRowsOneMore(before.rows, e.row);
      }
    }
  }

  // ---------------------------------------------------------------------------
  // The verdict
  // ---------------------------------------------------------------------------

  datatype Verdict = NoData | Clean | Suspicious | Flagged

  /** The kind of verdict; the wording of its reasons is not modelled. */
  function Assess(byType: map<EventType, nat>, bySeverity: map<Severity, nat>, frames: nat): Verdict {
    var critical, warnings := Get(bySeverity, Critical), Get(bySeverity, Warn);
    if byType == map[] && frames == 0 then NoData
    else if critical >= FLAG_ON_CRITICAL || warnings >= FLAG_ON_WARNINGS then Flagged
    else if warnings >= SUSPICIOUS_ON_WARNINGS then Suspicious
    else Clean
  }

  function CountSeverity(rows: seq<Row>, severity: Severity): nat {
    if rows == [] then 0
    else CountSeverity(rows[..|rows| - 1], severity) + if rows[|rows| - 1].severity == severity then 1 else 0
  }

  /** The verdict the stored rows imply. */
  function VerdictOf(rows: seq<Row>): Verdict {
    if rows == [] then NoData
    else if CountSeverity(rows, Critical) >= 1 || CountSeverity(rows, Warn) >= 4 then Flagged
    else if CountSeverity(rows, Warn) >= 1 then Suspicious
    else Clean
  }

  function Badness(v: Verdict): nat {
    match v
    case NoData => 0
    case Clean => 1
    case Suspicious => 2
    case Flagged => 3
  }

  /** A further event never makes the verdict milder. */
  lemma MoreEventsNeverHelp(rows: seq<Row>, row: Row)
    ensures Badness(VerdictOf(rows)) <= Badness(VerdictOf(rows + [row]))
  {
    assert (rows + [row])[..|rows|] == rows;
  }

  lemma {:induction false} CountedIfPresent(rows: seq<Row>, i: nat)
    requires i < |rows|
    ensures CountSeverity(rows, rows[i].severity) >= 1
  {
    if i < |rows| - 1 {
      CountedIfPresent(rows[..|rows| - 1], i);
    }
  }

  /** One critical event flags an interview, whatever else happened in it; a second voice or a second face is one. */
  lemma OneCriticalFlags(rows: seq<Row>, i: nat, prior: nat, th: Thresholds)
    requires i < |rows|
    requires rows[i].severity == Critical ||
             (rows[i].kind in {SecondSpeaker, MultipleFaces} && rows[i].severity == SeverityFor(rows[i].kind, prior, th))
    ensures VerdictOf(rows) == Flagged
  {
    CountedIfPresent(rows, i);
  }

  lemma SeverityOneMore(rows: seq<Row>, row: Row, severity: Severity)
    ensures CountSeverity(rows + [row], severity) == CountSeverity(rows, severity) + if row.severity == severity then 1 else 0
  {
    assert (rows + [row])[..|rows|] == rows;
  }

  /** What one more event is worth, graded as its type is: a second voice or face flags; an absent face is a warning, the
      fourth of which flags; silence, and what is only kept for context, never make the verdict worse than clean. */
  lemma WhatAnEventIsWorth(rows: seq<Row>, row: Row, prior: nat, th: Thresholds)
    requires row.severity == SeverityFor(row.kind, prior, th)
    ensures row.kind in {SecondSpeaker, MultipleFaces} ==> VerdictOf(rows + [row]) == Flagged
    ensures row.kind == FaceAbsent ==>
      VerdictOf(rows + [row]) == if VerdictOf(rows) == Flagged || CountSeverity(rows, Warn) >= 3 then Flagged else Suspicious
    ensures row.kind in {AnomalousSilence, TabFocus, WindowResize, Copy, FaceFrame} ==>
      VerdictOf(rows + [row]) == if rows == [] then Clean else VerdictOf(rows)
  {
    SeverityOneMore(rows, row, Critical);
    SeverityOneMore(rows, row, Warn);
    assert rows == [] ==> CountSeverity(rows, Critical) == 0 && CountSeverity(rows, Warn) == 0;
    hide CountSeverity;
  }

  /** Warnings and criticals from so many blurs with a given limit. */
  function BlurWarnings(n: nat, limit: nat): nat {
    if n <= limit then 0 else if n <= 2 * limit then n - limit else limit
  }

  function BlurCriticals(n: nat, limit: nat): nat {
    if n <= 2 * limit then 0 else n - 2 * limit
  }

  function Warnings(kinds: seq<EventType>, th: Thresholds): nat {
    BlurWarnings(Occurrences(kinds, TabBlur), th.blurLimit) + Occurrences(kinds, DevtoolsOpen)
    + (if th.fullscreenRequired && Occurrences(kinds, FullscreenExit) > 0 then 1 else 0)
    + (if th.pasteBlocked then Occurrences(kinds, Paste) else 0)
  }

  function Criticals(kinds: seq<EventType>, th: Thresholds): nat {
    var exits := Occurrences(kinds, FullscreenExit);
    BlurCriticals(Occurrences(kinds, TabBlur), th.blurLimit) + if th.fullscreenRequired && exits > 1 then exits - 1 else 0
  }

  lemma OneMoreWarning(kinds: seq<EventType>, th: Thresholds)
    requires kinds != [] && ClientReportable(kinds[|kinds| - 1])
    ensures var front, kind := kinds[..|kinds| - 1], kinds[|kinds| - 1];
      Warnings(kinds, th) == Warnings(front, th) + if SeverityFor(kind, Occurrences(front, kind), th) == Warn then 1 else 0
  {
  }

  lemma {:induction false} WarningsFromCounts(kinds: seq<EventType>, th: Thresholds)
    requires forall i :: 0 <= i < |kinds| ==> ClientReportable(kinds[i])
    ensures CountSeverity(Graded(kinds, th), Warn) == Warnings(kinds, th)
  {
    if kinds != [] {
      WarningsFromCounts(kinds[..|kinds| - 1], th);
      CountSeverityOfGraded(kinds, th, Warn);
      OneMoreWarning(kinds, th);
    }
  }

  lemma {:induction false} CriticalsFromCounts(kinds: seq<EventType>, th: Thresholds)
    requires forall i :: 0 <= i < |kinds| ==> ClientReportable(kinds[i])
    ensures CountSeverity(Graded(kinds, th), Critical) == Criticals(kinds, th)
  {
    if kinds != [] {
      CriticalsFromCounts(kinds[..|kinds| - 1], th);
      CountSeverityOfGraded(kinds, th, Critical);
    }
  }

  lemma CountSeverityOfGraded(kinds: seq<EventType>, th: Thresholds, severity: Severity)
    requires kinds != []
    ensures var front, kind := kinds[..|kinds| - 1], kinds[|kinds| - 1];
      CountSeverity(Graded(kinds, th), severity)
      == CountSeverity(Graded(front, th), severity)
         + if SeverityFor(kind, Occurrences(front, kind), th) == severity then 1 else 0
  {
    var rows := Graded(kinds, th);
    assert rows[..|rows| - 1] == Graded(kinds[..|kinds| - 1], th);
  }

  /** The verdict on a list of reports depends only on how often each type was reported. */
  lemma VerdictFromCounts(kinds: seq<EventType>, th: Thresholds)
    requires kinds != [] && forall i :: 0 <= i < |kinds| ==> ClientReportable(kinds[i])
    ensures VerdictOf(Graded(kinds, th))
         == if Criticals(kinds, th) >= 1 || Warnings(kinds, th) >= 4 then Flagged
            else if Warnings(kinds, th) >= 1 then Suspicious else Clean
  {
    WarningsFromCounts(kinds, th);
    CriticalsFromCounts(kinds, th);
    GradedLength(kinds, th);
  }

  lemma {:induction false} GradedLength(kinds: seq<EventType>, th: Thresholds)
    ensures |Graded(kinds, th)| == |kinds|
  {
    if kinds != [] {
      GradedLength(kinds[..|kinds| - 1], th);
    }
  }

  lemma {:induction false} OccurrencesOfBlurs(kinds: seq<EventType>, kind: EventType)
    requires forall i :: 0 <= i < |kinds| ==> kinds[i] == TabBlur
    ensures Occurrences(kinds, kind) == if kind == TabBlur then |kinds| else 0
  {
    if kinds != [] {
      OccurrencesOfBlurs(kinds[..|kinds| - 1], kind);
    }
  }

  /** n blurs and nothing else: flagged past the smaller of 2L and L + 3, suspicious past L, otherwise clean. */
  lemma {:induction false} BlurVerdict(kinds: seq<EventType>, th: Thresholds)
    requires kinds != [] && forall i :: 0 <= i < |kinds| ==> kinds[i] == TabBlur
    ensures var n, limit := |kinds|, th.blurLimit;
      VerdictOf(Graded(kinds, th))
      == if n > 2 * limit || n > limit + 3 then Flagged else if n > limit then Suspicious else Clean
  {
    VerdictFromCounts(kinds, th);
    OccurrencesOfBlurs(kinds, TabBlur);
    OccurrencesOfBlurs(kinds, FullscreenExit);
    OccurrencesOfBlurs(kinds, DevtoolsOpen);
    OccurrencesOfBlurs(kinds, Paste);
  }

  /** The rows the server derived itself. */
  function DerivedRows(rows: seq<Row>): seq<Row> {
    if rows == [] then []
    else
      var front, last := DerivedRows(rows[..|rows| - 1]), rows[|rows| - 1];
      if ClientReportable(last.kind) then front else front + [last]
  }

  lemma {:induction false} CountsAdd(rows: seq<Row>, severity: Severity)
    ensures CountSeverity(rows, severity) == CountSeverity(ClientRows(rows), severity) + CountSeverity(DerivedRows(rows), severity)
  {
    if rows != [] {
      var front, last := rows[..|rows| - 1], rows[|rows| - 1];
      CountsAdd(front, severity);
      assert (ClientRows(front) + [last])[..|ClientRows(front)|] == ClientRows(front);
      assert (DerivedRows(front) + [last])[..|DerivedRows(front)|] == DerivedRows(front);
    }
  }

  lemma {:induction false} ClientRowsAreClients(rows: seq<Row>)
    ensures forall i :: 0 <= i < |ClientRows(rows)| ==> ClientReportable(ClientRows(rows)[i].kind)
  {
    if rows != [] {
      ClientRowsAreClients(rows[..|rows| - 1]);
    }
  }

  /** After any run whatever of connections, failures and derived rows, the verdict is decided by how often each type
      was reported and by what was derived, and by nothing else. */
  lemma RunVerdict(events: seq<Event>, th: Thresholds)
    ensures var rows := Run(Sys([], None, false), events, th).rows;
      var kinds, derived := Kinds(ClientRows(rows)), Derived(events);
      var critical, warnings := Criticals(kinds, th) + CountSeverity(derived, Critical), Warnings(kinds, th) + CountSeverity(derived, Warn);
      VerdictOf(rows) ==
        if |kinds| + |derived| == 0 then NoData
        else if critical >= 1 || warnings >= 4 then Flagged else if warnings >= 1 then Suspicious else Clean
  {
    hide Run, Warnings, Criticals, Graded, CountSeverity, Derived;
    var rows := Run(Sys([], None, false), events, th).rows;
    RunsKeepInv(events, th);
    DerivedAreStored(events, th);
    ClientRowsAreClients(rows);
    WarningsFromCounts(Kinds(ClientRows(rows)), th);
    CriticalsFromCounts(Kinds(ClientRows(rows)), th);
    CountsAdd(rows, Warn);
    CountsAdd(rows, Critical);
    LengthsAdd(rows);
  }

  lemma {:induction false} LengthsAdd(rows: seq<Row>)
    ensures |rows| == |ClientRows(rows)| + |DerivedRows(rows)|
  {
    if rows != [] {
      LengthsAdd(rows[..|rows| - 1]);
    }
  }

  lemma {:induction false} AllClients(rows: seq<Row>)
    requires forall i :: 0 <= i < |rows| ==> ClientReportable(rows[i].kind)
    ensures ClientRows(rows) == rows
  {
    if rows != [] {
      AllClients(rows[..|rows| - 1]);
    }
  }

  /** A run that stored n blurs and nothing else, however it was cut by reconnects: flagged past the smaller of 2L and
      L + 3, suspicious past L, otherwise clean. */
  lemma BlurRunVerdict(events: seq<Event>, th: Thresholds)
    requires var rows := Run(Sys([], None, false), events, th).rows;
      rows != [] && forall i :: 0 <= i < |rows| ==> rows[i].kind == TabBlur
    ensures var rows, limit := Run(Sys([], None, false), events, th).rows, th.blurLimit;
      VerdictOf(rows) == if |rows| > 2 * limit || |rows| > limit + 3 then Flagged else if |rows| > limit then Suspicious else Clean
  {
    hide Run, Graded;
    var rows := Run(Sys([], None, false), events, th).rows;
    RunsKeepInv(events, th);
    AllClients(rows);
    BlurVerdict(Kinds(rows), th);
  }

  // ---------------------------------------------------------------------------
  // Computing it from grouped rows
  // ---------------------------------------------------------------------------

  /** One row of `GROUP BY event_type, severity`. */
  datatype Group = Group(row: Row, count: nat)

  function CountIn(rows: seq<Row>, keys: set<Row>): nat {
    if rows == [] then 0
    else CountIn(rows[..|rows| - 1], keys) + if rows[|rows| - 1] in keys then 1 else 0
  }

  ghost predicate Covered(groups: seq<Group>, row: Row) {
    exists i :: 0 <= i < |groups| && groups[i].row == row
  }

  /** Each combination that occurs once, with how often it occurs. */
  ghost predicate IsGrouping(groups: seq<Group>, rows: seq<Row>) {
    && (forall i, j :: 0 <= i < j < |groups| ==> groups[i].row != groups[j].row)
    && (forall i :: 0 <= i < |groups| ==> groups[i].count == CountIn(rows, {groups[i].row}) && groups[i].count > 0)
    && (forall k :: 0 <= k < |rows| ==> Covered(groups, rows[k]))
  }

  /** The combinations of a type among the first groups. */
  function OfType(groups: seq<Group>, kind: EventType): set<Row> {
    set g | g in groups && g.row.kind == kind :: g.row
  }

  function OfSeverity(groups: seq<Group>, severity: Severity): set<Row> {
    set g | g in groups && g.row.severity == severity :: g.row
  }

  lemma {:induction false} CountInUnion(rows: seq<Row>, a: set<Row>, b: set<Row>)
    requires a !! b
    ensures CountIn(rows, a + b) == CountIn(rows, a) + CountIn(rows, b)
  {
    if rows != [] {
      CountInUnion(rows[..|rows| - 1], a, b);
    }
  }

  lemma {:induction false} CountInByType(rows: seq<Row>, groups: seq<Group>, kind: EventType, severity: Severity)
    requires forall k :: 0 <= k < |rows| ==> Covered(groups, rows[k])
    ensures CountIn(rows, OfType(groups, kind)) == CountOf(rows, kind)
    ensures CountIn(rows, OfSeverity(groups, severity)) == CountSeverity(rows, severity)
  {
    if rows != [] {
      var front := rows[..|rows| - 1];
      assert forall k :: 0 <= k < |front| ==> front[k] == rows[k];
      CountInByType(front, groups, kind, severity);
      assert Covered(groups, rows[|rows| - 1]);
      var i :| 0 <= i < |groups| && groups[i].row == rows[|rows| - 1];
      assert groups[i] in groups;
    }
  }

  /** One more group adds its count to its own type and its own severity. */
  lemma OneMoreGroup(groups: seq<Group>, i: nat, rows: seq<Row>, kind: EventType, severity: Severity)
    requires i < |groups| && IsGrouping(groups, rows)
    ensures CountIn(rows, OfType(groups[..i + 1], kind))
         == CountIn(rows, OfType(groups[..i], kind)) + if groups[i].row.kind == kind then groups[i].count else 0
    ensures CountIn(rows, OfSeverity(groups[..i + 1], severity))
         == CountIn(rows, OfSeverity(groups[..i], severity)) + if groups[i].row.severity == severity then groups[i].count else 0
  {
    var row, before, after := groups[i].row, groups[..i], groups[..i + 1];
    assert after == before + [groups[i]];
    assert row !in OfType(before, kind) && row !in OfSeverity(before, severity);
    if row.kind == kind {
      assert OfType(after, kind) == OfType(before, kind) + {row};
      CountInUnion(rows, OfType(before, kind), {row});
    } else {
      assert OfType(after, kind) == OfType(before, kind);
    }
    if row.severity == severity {
      assert OfSeverity(after, severity) == OfSeverity(before, severity) + {row};
      CountInUnion(rows, OfSeverity(before, severity), {row});
    } else {
      assert OfSeverity(after, severity) == OfSeverity(before, severity);
    }
  }

  lemma {:induction false} CountInEmpty(rows: seq<Row>)
    ensures CountIn(rows, {}) == 0
  {
    if rows != [] {
      CountInEmpty(rows[..|rows| - 1]);
    }
  }

  /** Group counts added up per type, and per severity. */
  function TypeTotal(groups: seq<Group>, kind: EventType): nat {
    if groups == [] then 0
    else
      var last := groups[|groups| - 1];
      TypeTotal(groups[..|groups| - 1], kind) + if last.row.kind == kind then last.count else 0
  }

  function SeverityTotal(groups: seq<Group>, severity: Severity): nat {
    if groups == [] then 0
    else
      var last := groups[|groups| - 1];
      SeverityTotal(groups[..|groups| - 1], severity) + if last.row.severity == severity then last.count else 0
  }

  lemma {:induction false} TotalsSoFar(groups: seq<Group>, n: nat, rows: seq<Row>, kind: EventType, severity: Severity)
    requires n <= |groups| && IsGrouping(groups, rows)
    ensures TypeTotal(groups[..n], kind) == CountIn(rows, OfType(groups[..n], kind))
    ensures SeverityTotal(groups[..n], severity) == CountIn(rows, OfSeverity(groups[..n], severity))
  {
    if n == 0 {
      assert OfType(groups[..0], kind) == {} && OfSeverity(groups[..0], severity) == {};
      CountInEmpty(rows);
    } else {
      TotalsSoFar(groups, n - 1, rows, kind, severity);
      OneMoreGroup(groups, n - 1, rows, kind, severity);
      assert groups[..n][..n - 1] == groups[..n - 1];
    }
  }

  /** Whatever order the groups come in, the totals are the counts over the rows. */
  lemma TotalsAreCounts(groups: seq<Group>, rows: seq<Row>, kind: EventType, severity: Severity)
    requires IsGrouping(groups, rows)
    ensures TypeTotal(groups, kind) == CountOf(rows, kind)
    ensures SeverityTotal(groups, severity) == CountSeverity(rows, severity)
  {
    assert groups[..|groups|] == groups;
    TotalsSoFar(groups, |groups|, rows, kind, severity);
    CountInByType(rows, groups, kind, severity);
  }

  method Tally(groups: seq<Group>) returns (byType: map<EventType, nat>, bySeverity: map<Severity, nat>)
    requires forall i :: 0 <= i < |groups| ==> groups[i].count > 0
    ensures forall kind :: Get(byType, kind) == TypeTotal(groups, kind)
    ensures forall kind :: kind in byType ==> byType[kind] > 0
    ensures forall severity :: Get(bySeverity, severity) == SeverityTotal(groups, severity)
  {
    byType, bySeverity := map[], map[];
    for i := 0 to |groups|
      invariant forall kind :: Get(byType, kind) == TypeTotal(groups[..i], kind)
      invariant forall kind :: kind in byType ==> byType[kind] > 0
      invariant forall severity :: Get(bySeverity, severity) == SeverityTotal(groups[..i], severity)
    {
      assert groups[..i + 1][..i] == groups[..i];
      var row, count := groups[i].row, groups[i].count;
      byType := byType[row.kind := Get(byType, row.kind) + count];
      bySeverity := bySeverity[row.severity := Get(bySeverity, row.severity) + count];
    }
    assert groups[..|groups|] == groups;
  }

  /** The assessment but for the wording of its reasons. */
  datatype Assessment = Assessment(kind: Verdict, counts: map<EventType, nat>, frames: nat)

  /** The assessment computed from the grouped counts is the one the rows imply. */
  method Compute(groups: seq<Group>, ghost rows: seq<Row>) returns (assessment: Assessment)
    requires IsGrouping(groups, rows)
    ensures assessment.kind == VerdictOf(rows)
    ensures forall kind :: kind in assessment.counts <==> CountOf(rows, kind) > 0
    ensures forall kind :: kind in assessment.counts ==> assessment.counts[kind] == CountOf(rows, kind)
    ensures assessment.frames == CountOf(rows, FaceFrame)
  {
    var byType, bySeverity := Tally(groups);
    var frames := Get(byType, FaceFrame);
    assessment := Assessment(Assess(byType, bySeverity, frames), byType, frames);
    TotalsAreCounts(groups, rows, FaceFrame, Critical);
    TotalsAreCounts(groups, rows, FaceFrame, Warn);
    forall kind
      ensures Get(byType, kind) == CountOf(rows, kind)
      ensures kind in byType ==> rows != []
    {
      TotalsAreCounts(groups, rows, kind, Info);
    }
    if rows != [] {
      assert CountOf(rows, rows[|rows| - 1].kind) > 0;
      assert Get(byType, rows[|rows| - 1].kind) > 0;
    }
  }
}
