/** The telemetry queue: recorders, one writer goroutine, and Close, interleaved one channel operation at a time. */
module Telemetry {

  const BUFFER_SIZE: nat := 1000

  datatype Entry = Entry(domain: string, verdict: string, score: int)

  /** Where the writer stands. Writing holds an entry taken from the channel and not yet inserted. */
  datatype Writer = Serving | Writing(entry: Entry, draining: bool) | Draining | Exited

  /** One insert that the writer has made; the database may refuse it, which is logged and not repeated. */
  datatype Insertion = Insertion(entry: Entry, stored: bool)

  /** accepted and mark record history: every entry that entered the channel, and how many had when done was closed. */
  datatype State = State(queue: seq<Entry>, writer: Writer, inserts: seq<Insertion>, done: bool, closed: bool,
                         accepted: seq<Entry>, mark: nat)

  datatype Step =
    | Record(entry: Entry)  // RecordAnalysis: never blocks
    | Receive               // the writer's select takes an entry
    | SeeDone               // or takes the closed done channel
    | DrainReceive
    | DrainEmpty
    | Insert(stored: bool)
    | SignalDone            // Close closes done
    | CloseReturns          // and finishes waiting

  function Opened(): State {
    State([], Serving, [], false, false, [], 0)
  }

  predicate Full(s: State) {
    |s.queue| >= BUFFER_SIZE
  }

  predicate Enabled(s: State, step: Step) {
    match step
    case Record(_) => true
    case Receive => s.writer.Serving? && s.queue != []
    case SeeDone => s.writer.Serving? && s.done
    case DrainReceive => s.writer.Draining? && s.queue != []
    case DrainEmpty => s.writer.Draining? && s.queue == []
    case Insert(_) => s.writer.Writing?
    case SignalDone => !s.done
    case CloseReturns => s.done && s.writer.Exited?
  }

  function Apply(s: State, step: Step): State
    requires Enabled(s, step)
  {
    match step
    case Record(entry) =>
      if Full(s) then s else s.(queue := s.queue + [entry], accepted := s.accepted + [entry])
    case Receive => s.(queue := s.queue[1..], writer := Writing(s.queue[0], false))
    case SeeDone => s.(writer := Draining)
    case DrainReceive => s.(queue := s.queue[1..], writer := Writing(s.queue[0], true))
    case DrainEmpty => s.(writer := Exited)
    case Insert(stored) =>
      s.(inserts := s.inserts + [Insertion(s.writer.entry, stored)],
         writer := if s.writer.draining then Draining else Serving)
    case SignalDone => s.(done := true, mark := |s.accepted|)
    case CloseReturns => s.(closed := true)
  }

  predicate Possible(s: State, steps: seq<Step>)
    decreases |steps|
  {
    |steps| == 0 || (Enabled(s, steps[0]) && Possible(Apply(s, steps[0]), steps[1..]))
  }

  function After(s: State, steps: seq<Step>): State
    requires Possible(s, steps)
    decreases |steps|
  {
    if |steps| == 0 then s else After(Apply(s, steps[0]), steps[1..])
  }

  /** What was handed to the database, in order. */
  function Written(inserts: seq<Insertion>): seq<Entry> {
    seq(|inserts|, i requires 0 <= i < |inserts| => inserts[i].entry)
  }

  /** What the table has gained. */
  function Table(inserts: seq<Insertion>): seq<Entry> {
    if |inserts| == 0 then []
    else
      var last := inserts[|inserts| - 1];
      Table(inserts[..|inserts| - 1]) + (if last.stored then [last.entry] else [])
  }

  function Refused(inserts: seq<Insertion>): nat {
    if |inserts| == 0 then 0
    else Refused(inserts[..|inserts| - 1]) + (if inserts[|inserts| - 1].stored then 0 else 1)
  }

  function Held(s: State): seq<Entry> {
    if s.writer.Writing? then [s.writer.entry] else []
  }

  ghost predicate Inv(s: State) {
    && s.accepted == Written(s.inserts) + Held(s) + s.queue
    && |s.queue| <= BUFFER_SIZE
    && (s.writer.Draining? || s.writer.Exited? || (s.writer.Writing? && s.writer.draining) ==> s.done)
    && (s.done ==> s.mark <= |s.accepted|)
    && (s.writer.Exited? ==> s.mark <= |s.inserts|)
    && (s.closed ==> s.writer.Exited?)
  }

  lemma StepKeepsInv(s: State, step: Step)
    requires Inv(s) && Enabled(s, step)
    ensures Inv(Apply(s, step))
  {
    var t := Apply(s, step);
    match step
    case Record(entry) =>
      if !Full(s) {
        assert Written(s.inserts) + Held(s) + s.queue + [entry] == Written(s.inserts) + Held(s) + (s.queue + [entry]);
      }
    case Receive => assert s.queue == [s.queue[0]] + s.queue[1..];
    case DrainReceive => assert s.queue == [s.queue[0]] + s.queue[1..];
    case DrainEmpty => assert s.accepted == Written(s.inserts);
    case Insert(_) => assert Written(t.inserts) == Written(s.inserts) + Held(s);
    case _ =>
  }

  lemma {:induction false} InvAlways(s: State, steps: seq<Step>)
    requires Inv(s) && Possible(s, steps)
    ensures Inv(After(s, steps))
    decreases |steps|
  {
    if |steps| > 0 {
      StepKeepsInv(s, steps[0]);
      InvAlways(Apply(s, steps[0]), steps[1..]);
    }
  }

  /** Conservation in every run: what was accepted is, in order, what was handed to the database, then the entry in the
      writer's hands, then the queue; nothing is handed over twice and nothing is lost on the way. */
  lemma AcceptedIsConserved(steps: seq<Step>)
    requires Possible(Opened(), steps)
    ensures var s := After(Opened(), steps);
      s.accepted == Written(s.inserts) + Held(s) + s.queue && |s.queue| <= 1000
  {
    InvAlways(Opened(), steps);
  }

  /** An entry is dropped only, and always, when a thousand entries are queued; any other is accepted last. */
  lemma DroppedOnlyWhenFull(steps: seq<Step>, entry: Entry)
    requires Possible(Opened(), steps)
    ensures var s, t := After(Opened(), steps), Apply(After(Opened(), steps), Record(entry));
      if |s.queue| == 1000 then t == s else t.accepted == s.accepted + [entry] && t.queue == s.queue + [entry]
  {
    InvAlways(Opened(), steps);
  }

  lemma {:induction false} HistoryGrows(s: State, steps: seq<Step>)
    requires Possible(s, steps)
    ensures s.accepted <= After(s, steps).accepted && s.inserts <= After(s, steps).inserts
    ensures s.done ==> After(s, steps).done && After(s, steps).mark == s.mark
    decreases |steps|
  {
    if |steps| > 0 {
      HistoryGrows(Apply(s, steps[0]), steps[1..]);
    }
  }

  /** When Close has returned, everything accepted before it signalled done has been handed to the database, in
      order. */
  lemma CloseFlushes(before: seq<Step>, between: seq<Step>)
    requires Possible(Opened(), before) && Enabled(After(Opened(), before), SignalDone)
    requires Possible(Apply(After(Opened(), before), SignalDone), between)
    requires After(Apply(After(Opened(), before), SignalDone), between).closed
    ensures After(Opened(), before).accepted <=
            Written(After(Apply(After(Opened(), before), SignalDone), between).inserts)
  {
    var s := After(Opened(), before);
    InvAlways(Opened(), before);
    StepKeepsInv(s, SignalDone);
    var t := Apply(s, SignalDone);
    InvAlways(t, between);
    HistoryGrows(t, between);
    var u := After(t, between);
    assert u.mark == |s.accepted| <= |u.inserts|;
    assert Written(u.inserts) <= u.accepted && s.accepted <= u.accepted;
    assert forall i :: 0 <= i < |s.accepted| ==> s.accepted[i] == u.accepted[i] == Written(u.inserts)[i];
  }

  predicate AllStored(inserts: seq<Insertion>) {
    forall i :: 0 <= i < |inserts| ==> inserts[i].stored
  }

  /** The table gains what was written less what the database refused, and all of it exactly when nothing was. */
  lemma {:induction false} TableIsWritten(inserts: seq<Insertion>)
    ensures |Table(inserts)| + Refused(inserts) == |inserts|
    ensures Refused(inserts) == 0 <==> AllStored(inserts)
    ensures Table(inserts) == Written(inserts) <==> AllStored(inserts)
  {
    if |inserts| > 0 {
      var init, last := inserts[..|inserts| - 1], inserts[|inserts| - 1];
      TableIsWritten(init);
      assert inserts == init + [last];
      assert Written(inserts) == Written(init) + [last.entry];
    }
  }

  /** When Close has returned and no insert was refused, everything accepted before it signalled done is a prefix of
      what the table has gained. */
  lemma CloseStores(before: seq<Step>, between: seq<Step>)
    requires Possible(Opened(), before) && Enabled(After(Opened(), before), SignalDone)
    requires Possible(Apply(After(Opened(), before), SignalDone), between)
    requires After(Apply(After(Opened(), before), SignalDone), between).closed
    requires AllStored(After(Apply(After(Opened(), before), SignalDone), between).inserts)
    ensures After(Opened(), before).accepted <=
            Table(After(Apply(After(Opened(), before), SignalDone), between).inserts)
  {
    CloseFlushes(before, between);
    TableIsWritten(After(Apply(After(Opened(), before), SignalDone), between).inserts);
  }

  // ---- Close comes to an end ----

  predicate WriterStep(step: Step) {
    step.Receive? || step.SeeDone? || step.DrainReceive? || step.DrainEmpty? || step.Insert?
  }

  /** What the writer still has to do. */
  function Work(s: State): nat {
    2 * |s.queue| +
    match s.writer
    case Serving => 2
    case Writing(_, draining) => if draining then 2 else 3
    case Draining => 1
    case Exited => 0
  }

  /** Until it has exited, a writer that has been told to stop can always move, and every move brings it nearer;
      only new entries put it back, by two each. */
  lemma WriterWindsDown(s: State, step: Step)
    requires Inv(s) && s.done && Enabled(s, step)
    ensures !s.writer.Exited? ==>
              Enabled(s, SeeDone) || Enabled(s, DrainReceive) || Enabled(s, DrainEmpty) || Enabled(s, Insert(true))
    ensures WriterStep(step) ==> Work(Apply(s, step)) < Work(s)
    ensures !WriterStep(step) ==> Work(Apply(s, step)) <= Work(s) + (if step.Record? && !Full(s) then 2 else 0)
  {
  }

  function Count(steps: seq<Step>, writer: bool): nat {
    if |steps| == 0 then 0
    else (if (if writer then WriterStep(steps[0]) else steps[0].Record?) then 1 else 0) + Count(steps[1..], writer)
  }

  /** After done, the writer makes at most Work + 2 * (records) moves, whatever happens around it. */
  lemma {:induction false} WriterMovesAreBounded(s: State, steps: seq<Step>)
    requires Inv(s) && s.done && Possible(s, steps)
    ensures Count(steps, true) + Work(After(s, steps)) <= Work(s) + 2 * Count(steps, false)
    decreases |steps|
  {
    if |steps| > 0 {
      StepKeepsInv(s, steps[0]);
      WriterWindsDown(s, steps[0]);
      WriterMovesAreBounded(Apply(s, steps[0]), steps[1..]);
    }
  }
}
