/**
 * One log file: the chain of appends to it, the counter kept of its size, and the
 * rollover to a single older generation.
 */
module LogRotation {
  import opened Basics

  const MAX_LOG_BYTES: nat := 5 * 1024 * 1024

  datatype Line = Line(id: nat, bytes: nat)

  /** The file when it exists, the ".1" beside it, and the generations that were written over. */
  datatype Disk = Disk(file: Option<seq<Line>>, rolled: seq<Line>, gone: seq<Line>)

  /** How the calls a write makes first turn out: reading the size, and renaming. */
  datatype Io = Io(statOk: bool, renameOk: bool)

  /** A write waits for the one before it, then for its append; size is what it will add its bytes to, if it knows. */
  datatype Phase = Waiting(after: nat) | Appending(size: Option<nat>) | Settled(ok: bool)

  datatype Task = Task(line: Line, phase: Phase)

  /** last is the file's entry in the map of appends in flight. */
  datatype Log = Log(disk: Disk, written: Option<nat>, tasks: seq<Task>, last: Option<nat>)

  function SizeOf(lines: seq<Line>): nat {
    if lines == [] then 0 else SizeOf(lines[..|lines| - 1]) + lines[|lines| - 1].bytes
  }

  function FileLines(d: Disk): seq<Line> { if d.file.Some? then d.file.value else [] }

  function FileSize(d: Disk): nat { SizeOf(FileLines(d)) }

  /** The counter, or the file's size the first time; None when it could not be read. */
  function Sized(s: Log, io: Io): Option<nat> {
    if s.written.Some? then s.written
    else if s.disk.file.None? then Some(0)
    else if io.statOk then Some(FileSize(s.disk)) else None
  }

  predicate RollsOver(s: Log, line: Line, io: Io) {
    Sized(s, io).Some? && Sized(s, io).value + line.bytes > MAX_LOG_BYTES
  }

  /** A rename of a file that is not there fails. */
  predicate Renames(s: Log, line: Line, io: Io) { RollsOver(s, line, io) && io.renameOk && s.disk.file.Some? }

  function DiskAfterRollover(s: Log, line: Line, io: Io): Disk {
    if Renames(s, line, io) then Disk(None, s.disk.file.value, s.disk.gone + s.disk.rolled) else s.disk
  }

  function SizeAppendedTo(s: Log, line: Line, io: Io): Option<nat> {
    if RollsOver(s, line, io) then (if Renames(s, line, io) then Some(0) else None) else Sized(s, io)
  }

  datatype Step =
    | Call(line: Line, io: Io)
    | Start(task: nat, io: Io)
    | Finish(task: nat, ok: bool)
    | Forget(task: nat)

  predicate Enabled(s: Log, step: Step) {
    match step
    case Call(_, _) => true
    case Start(i, _) =>
      i < |s.tasks| && s.tasks[i].phase.Waiting? && s.tasks[i].phase.after < |s.tasks| && s.tasks[s.tasks[i].phase.after].phase.Settled?
    case Finish(i, _) => i < |s.tasks| && s.tasks[i].phase.Appending?
    case Forget(i) => i < |s.tasks| && s.tasks[i].phase.Settled? && s.last == Some(i)
  }

  function Next(s: Log, step: Step): Log {
    if !Enabled(s, step) then s
    else match step
      case Call(line, io) =>
        if s.last.Some? then s.(tasks := s.tasks + [Task(line, Waiting(s.last.value))], last := Some(|s.tasks|))
        else
          s.(disk := DiskAfterRollover(s, line, io),
             tasks := s.tasks + [Task(line, Appending(SizeAppendedTo(s, line, io)))],
             last := Some(|s.tasks|))
      case Start(i, io) =>
        var line := s.tasks[i].line;
        s.(disk := DiskAfterRollover(s, line, io), tasks := s.tasks[i := Task(line, Appending(SizeAppendedTo(s, line, io)))])
      case Finish(i, ok) =>
        var task := s.tasks[i];
        var settled := s.(tasks := s.tasks[i := Task(task.line, Settled(ok))]);
        if !ok then settled
        else
          settled.(disk := s.disk.(file := Some(FileLines(s.disk) + [task.line])),
                   written := if task.phase.size.Some? then Some(task.phase.size.value + task.line.bytes) else s.written)
      case Forget(i) => s.(last := None)
  }

  function Exec(s: Log, run: seq<Step>): Log
    decreases |run|
  {
    if run == [] then s else Exec(Next(s, run[0]), run[1..])
  }

  function Opened(disk: Disk): Log { Log(disk, None, [], None) }

  // ---- One write at a time, in the order of the calls ----

  predicate Begun(t: Task) { !t.phase.Waiting? }

  /** A write that has begun has every earlier one behind it, and nothing is forgotten while it matters. */
  ghost predicate Chained(s: Log) {
    && (s.last.Some? ==> s.last.value == |s.tasks| - 1)
    && (s.last.None? ==> forall i :: 0 <= i < |s.tasks| ==> s.tasks[i].phase.Settled?)
    && (forall i :: 0 <= i < |s.tasks| && s.tasks[i].phase.Waiting? ==> s.tasks[i].phase.after == i - 1 && i > 0)
    && (forall i, j :: 0 <= i < j < |s.tasks| && Begun(s.tasks[j]) ==> s.tasks[i].phase.Settled?)
  }

  ghost predicate Appends(s: Log, i: nat) { i < |s.tasks| && s.tasks[i].phase.Appending? }

  /** The step puts a write on its way, which is the only time a file is renamed. */
  ghost predicate Begins(s: Log, step: Step) {
    Enabled(s, step) && (step.Start? || (step.Call? && s.last.None?))
  }

  lemma StepStaysChained(s: Log, step: Step)
    requires Chained(s)
    ensures Chained(Next(s, step))
  {
    hide DiskAfterRollover, SizeAppendedTo, FileLines;
  }

  /** At most one append is out at a time, and no write begins, and so nothing is renamed, under one. */
  lemma OneAppendAtATime(s: Log, step: Step, i: nat, j: nat)
    requires Chained(s)
    ensures Appends(s, i) && Appends(s, j) ==> i == j
    ensures Begins(s, step) ==> !Appends(s, i)
  {
  }

  lemma {:induction false} ChainedAlways(s: Log, run: seq<Step>)
    requires Chained(s)
    ensures Chained(Exec(s, run))
    decreases |run|
  {
    if run != [] {
      StepStaysChained(s, run[0]);
      ChainedAlways(Next(s, run[0]), run[1..]);
    }
  }

  // ---- Nothing is lost on the way ----

  /** The lines that were appended, in the order they were logged. */
  function Landed(tasks: seq<Task>): seq<Line> {
    if tasks == [] then []
    else
      var t := tasks[|tasks| - 1];
      Landed(tasks[..|tasks| - 1]) + if t.phase.Settled? && t.phase.ok then [t.line] else []
  }

  /** Every generation there has been, oldest first. */
  function Everything(d: Disk): seq<Line> { d.gone + d.rolled + FileLines(d) }

  ghost predicate Conserved(start: Disk, s: Log) { Everything(s.disk) == Everything(start) + Landed(s.tasks) }

  lemma {:induction false} LandedAtTheEnd(tasks: seq<Task>, i: nat, t: Task)
    requires i < |tasks| && !tasks[i].phase.Settled? && forall j :: i < j < |tasks| ==> !tasks[j].phase.Settled?
    ensures Landed(tasks[i := t]) == Landed(tasks) + if t.phase.Settled? && t.phase.ok then [t.line] else []
  {
    var front := tasks[..|tasks| - 1];
    if i == |tasks| - 1 {
      assert tasks[i := t][..i] == front;
    } else {
      assert tasks[i := t][..|tasks| - 1] == front[i := t];
      LandedAtTheEnd(front, i, t);
    }
  }

  lemma LaterTasksWait(s: Log, i: nat)
    requires Chained(s) && i < |s.tasks| && !s.tasks[i].phase.Settled?
    ensures forall j :: i < j < |s.tasks| ==> !s.tasks[j].phase.Settled?
  {
  }

  lemma RolloverConserves(s: Log, line: Line, io: Io)
    ensures Everything(DiskAfterRollover(s, line, io)) == Everything(s.disk)
  {
  }

  lemma AppendAdds(d: Disk, line: Line)
    ensures Everything(d.(file := Some(FileLines(d) + [line]))) == Everything(d) + [line]
  {
  }

  lemma StepConserves(start: Disk, s: Log, step: Step)
    requires Chained(s) && Conserved(start, s)
    ensures Conserved(start, Next(s, step))
  {
    hide Everything, DiskAfterRollover, SizeAppendedTo;
    var t := Next(s, step);
    if Enabled(s, step) {
      match step
      case Call(line, io) =>
        assert t.tasks[..|s.tasks|] == s.tasks;
        RolloverConserves(s, line, io);
      case Start(i, io) =>
        LaterTasksWait(s, i);
        LandedAtTheEnd(s.tasks, i, t.tasks[i]);
        RolloverConserves(s, s.tasks[i].line, io);
      case Finish(i, ok) =>
        LaterTasksWait(s, i);
        LandedAtTheEnd(s.tasks, i, t.tasks[i]);
        AppendAdds(s.disk, s.tasks[i].line);
      case Forget(_) =>
    }
  }

  /**
   * Whatever fails and however often it rolls over, the generations written over, the
   * ".1" and the file hold what was there at first and then every line that was
   * appended, in the order they were logged.
   */
  lemma {:induction false} EveryLineIsSomewhere(start: Disk, s: Log, run: seq<Step>)
    requires Chained(s) && Conserved(start, s)
    ensures Conserved(start, Exec(s, run))
    decreases |run|
  {
    if run != [] {
      StepStaysChained(s, run[0]);
      StepConserves(start, s, run[0]);
      EveryLineIsSomewhere(start, Next(s, run[0]), run[1..]);
    }
  }

  lemma LinesAreConserved(start: Disk, run: seq<Step>)
    ensures Everything(Exec(Opened(start), run).disk) == Everything(start) + Landed(Exec(Opened(start), run).tasks)
  {
    EveryLineIsSomewhere(start, Opened(start), run);
  }

  // ---- Nothing is stranded ----

  function Work(tasks: seq<Task>): nat {
    if tasks == [] then 0
    else
      var t := tasks[|tasks| - 1];
      Work(tasks[..|tasks| - 1]) + (if t.phase.Waiting? then 2 else if t.phase.Appending? then 1 else 0)
  }

  /** While a line has not been dealt with, some write can go on, whatever failed before it. */
  lemma SomethingCanMove(s: Log, i: nat)
    requires Chained(s) && i < |s.tasks| && !s.tasks[i].phase.Settled?
    ensures exists k: nat :: k <= i && (Enabled(s, Start(k, Io(true, true))) || Enabled(s, Finish(k, true)))
  {
    var k: nat := i;
    while k > 0 && !s.tasks[k - 1].phase.Settled?
      invariant k <= i && !s.tasks[k].phase.Settled?
    {
      k := k - 1;
    }
    assert Enabled(s, Start(k, Io(true, true))) || Enabled(s, Finish(k, true));
  }

  lemma {:induction false} WorkOfOne(tasks: seq<Task>, i: nat, t: Task)
    requires i < |tasks|
    requires (tasks[i].phase.Waiting? && t.phase.Appending?) || (tasks[i].phase.Appending? && t.phase.Settled?)
    ensures Work(tasks[i := t]) == Work(tasks) - 1
  {
    var front := tasks[..|tasks| - 1];
    if i == |tasks| - 1 {
      assert tasks[i := t][..i] == front;
    } else {
      assert tasks[i := t][..|tasks| - 1] == front[i := t];
      WorkOfOne(front, i, t);
    }
  }

  /** And each such move, failed or not, brings the queue nearer its end. */
  lemma MovesUseUpWork(s: Log, step: Step)
    requires Enabled(s, step) && (step.Start? || step.Finish?)
    ensures Work(Next(s, step).tasks) == Work(s.tasks) - 1
  {
    WorkOfOne(s.tasks, step.task, Next(s, step).tasks[step.task]);
  }

  lemma {:induction false} NoWorkMeansSettled(tasks: seq<Task>)
    ensures Work(tasks) == 0 <==> forall i :: 0 <= i < |tasks| ==> tasks[i].phase.Settled?
  {
    if tasks != [] { NoWorkMeansSettled(tasks[..|tasks| - 1]); }
  }

  /** Writes going on and appends being answered, one after another and in whatever way. */
  ghost predicate GoesOn(s: Log, run: seq<Step>)
    decreases |run|
  {
    run == [] || ((run[0].Start? || run[0].Finish?) && Enabled(s, run[0]) && GoesOn(Next(s, run[0]), run[1..]))
  }

  /** No write can go on and no append is out. */
  ghost predicate AtRest(s: Log) {
    forall step: Step :: step.Start? || step.Finish? ==> !Enabled(s, step)
  }

  ghost predicate AllSettled(s: Log) { forall i :: 0 <= i < |s.tasks| ==> s.tasks[i].phase.Settled? }

  lemma {:induction false} EveryMoveCounts(s: Log, run: seq<Step>)
    requires GoesOn(s, run)
    ensures Work(Exec(s, run).tasks) == Work(s.tasks) - |run|
    ensures |Exec(s, run).tasks| == |s.tasks|
    decreases |run|
  {
    if run != [] {
      MovesUseUpWork(s, run[0]);
      EveryMoveCounts(Next(s, run[0]), run[1..]);
    }
  }

  lemma AtRestIffSettled(s: Log)
    requires Chained(s)
    ensures AtRest(s) <==> AllSettled(s)
  {
    if i :| 0 <= i < |s.tasks| && !s.tasks[i].phase.Settled? {
      SomethingCanMove(s, i);
    }
  }

  /**
   * However the writes already called go on, and whatever fails: they can be at it for
   * exactly as many moves as there is work, and they stop only with every line dealt with.
   */
  lemma EveryLineIsDealtWith(s: Log, run: seq<Step>)
    requires Chained(s) && GoesOn(s, run)
    ensures |run| <= Work(s.tasks)
    ensures AtRest(Exec(s, run)) <==> |run| == Work(s.tasks)
    ensures AtRest(Exec(s, run)) <==> AllSettled(Exec(s, run))
  {
    ChainedAlways(s, run);
    EveryMoveCounts(s, run);
    AtRestIffSettled(Exec(s, run));
    NoWorkMeansSettled(Exec(s, run).tasks);
  }

  // ---- The counter and the cap ----

  /** Nothing fails, and no line is larger than the cap. */
  predicate GoesWell(step: Step) {
    match step
    case Call(line, io) => io.statOk && io.renameOk && line.bytes <= MAX_LOG_BYTES
    case Start(_, io) => io.statOk && io.renameOk
    case Finish(_, ok) => ok
    case Forget(_) => true
  }

  ghost predicate Counted(s: Log) {
    && (forall i :: 0 <= i < |s.tasks| ==> s.tasks[i].line.bytes <= MAX_LOG_BYTES)
    && (s.tasks == [] ==> s.written.None?)
    && (s.tasks != [] ==> FileSize(s.disk) <= MAX_LOG_BYTES)
    && (forall i: nat :: Appends(s, i) ==>
          s.tasks[i].phase.size == Some(FileSize(s.disk)) && FileSize(s.disk) + s.tasks[i].line.bytes <= MAX_LOG_BYTES)
    && ((forall i: nat :: !Appends(s, i)) && s.tasks != [] ==> s.written == Some(FileSize(s.disk)))
  }

  lemma BeginningIsCounted(s: Log, line: Line, io: Io)
    requires Counted(s) && (forall i: nat :: !Appends(s, i)) && io.statOk && io.renameOk && line.bytes <= MAX_LOG_BYTES
    ensures var d := DiskAfterRollover(s, line, io);
      SizeAppendedTo(s, line, io) == Some(FileSize(d)) && FileSize(d) + line.bytes <= MAX_LOG_BYTES
  {
  }

  lemma BeginStepIsCounted(s: Log, step: Step)
    requires Chained(s) && Counted(s) && GoesWell(step) && Begins(s, step)
    ensures Counted(Next(s, step))
  {
    var t := Next(s, step);
    assert forall i: nat :: !Appends(s, i);
    var line := LineOf(s, step);
    var i := if step.Call? then |s.tasks| else step.task;
    BeginningIsCounted(s, line, step.io);
    assert t.tasks[i] == Task(line, Appending(SizeAppendedTo(s, line, step.io))) && t.disk == DiskAfterRollover(s, line, step.io);
    hide SizeAppendedTo, DiskAfterRollover, FileSize, Chained;
    assert Appends(t, i);
    forall k: nat ensures Appends(t, k) ==> k == i {
      if k < |s.tasks| && k != i { assert !Appends(s, k) && t.tasks[k] == s.tasks[k]; }
    }
  }

  lemma FinishStepIsCounted(s: Log, step: Step)
    requires Chained(s) && Counted(s) && GoesWell(step) && Enabled(s, step) && step.Finish?
    ensures Counted(Next(s, step))
  {
    var t := Next(s, step);
    var line := s.tasks[step.task].line;
    assert Appends(s, step.task);
    AppendGrows(s.disk, line);
    forall i: nat ensures !Appends(t, i) {
      OneAppendAtATime(s, step, i, step.task);
      if i != step.task && i < |s.tasks| { assert t.tasks[i] == s.tasks[i]; }
    }
    hide FileSize, FileLines, Chained;
  }

  lemma AppendGrows(d: Disk, line: Line)
    ensures FileSize(d.(file := Some(FileLines(d) + [line]))) == FileSize(d) + line.bytes
  {
    assert (FileLines(d) + [line])[..|FileLines(d)|] == FileLines(d);
  }

  lemma StepIsCounted(s: Log, step: Step)
    requires Chained(s) && Counted(s) && GoesWell(step)
    ensures Counted(Next(s, step))
  {
    if Begins(s, step) {
      BeginStepIsCounted(s, step);
    } else if Enabled(s, step) && step.Finish? {
      FinishStepIsCounted(s, step);
    } else if Enabled(s, step) {
      hide FileSize, Chained;
      forall i: nat ensures Appends(Next(s, step), i) == Appends(s, i) {}
    }
  }

  lemma {:induction false} CountedAlways(s: Log, run: seq<Step>)
    requires Chained(s) && Counted(s) && forall i :: 0 <= i < |run| ==> GoesWell(run[i])
    ensures Chained(Exec(s, run)) && Counted(Exec(s, run))
    decreases |run|
  {
    if run != [] {
      StepStaysChained(s, run[0]);
      StepIsCounted(s, run[0]);
      CountedAlways(Next(s, run[0]), run[1..]);
    }
  }

  /**
   * While nothing fails and every line fits, the file is never larger than the cap once
   * anything has been logged, and the counter is its size whenever no append is out.
   */
  lemma TheCapHolds(start: Disk, run: seq<Step>)
    requires forall i :: 0 <= i < |run| ==> GoesWell(run[i])
    ensures
      var s := Exec(Opened(start), run);
      s.tasks != [] ==>
        && FileSize(s.disk) <= MAX_LOG_BYTES
        && ((forall i: nat :: !Appends(s, i)) ==> s.written == Some(FileSize(s.disk)))
  {
    CountedAlways(Opened(start), run);
  }

  // ---- When a file is rolled over ----

  function LineOf(s: Log, step: Step): Line
    requires step.Call? || (step.Start? && step.task < |s.tasks|)
  {
    if step.Call? then step.line else s.tasks[step.task].line
  }

  /** The size a write goes by, the counter before the file, and the line are together more than 5 MiB. */
  predicate DoesNotFit(s: Log, line: Line, io: Io) {
    if s.written.Some? then s.written.value + line.bytes > 5_242_880
    else if s.disk.file.None? then line.bytes > 5_242_880
    else io.statOk && SizeOf(s.disk.file.value) + line.bytes > 5_242_880
  }

  /**
   * The file becomes the ".1", over the one there was, exactly when a write begins whose line does not fit and the
   * rename goes through; at every other step both older generations stay, and the file loses nothing.
   */
  lemma RolledOverIff(s: Log, step: Step)
    ensures
      var d, e := s.disk, Next(s, step).disk;
      if Begins(s, step) && DoesNotFit(s, LineOf(s, step), step.io) && step.io.renameOk && d.file.Some?
      then e == Disk(None, d.file.value, d.gone + d.rolled)
      else
        && e.rolled == d.rolled && e.gone == d.gone
        && e.file == if step.Finish? && Enabled(s, step) && step.ok then Some(FileLines(d) + [s.tasks[step.task].line]) else d.file
  {
  }

  /** While nothing fails, it is the file's own size that decides: a line that fits is never rolled over. */
  lemma WhatFitsStays(start: Disk, run: seq<Step>, step: Step)
    requires (forall i :: 0 <= i < |run| ==> GoesWell(run[i])) && GoesWell(step)
    requires Begins(Exec(Opened(start), run), step)
    ensures
      var s := Exec(Opened(start), run);
      var d := s.disk;
      Next(s, step).disk ==
        if d.file.Some? && SizeOf(d.file.value) + LineOf(s, step).bytes > 5_242_880
        then Disk(None, d.file.value, d.gone + d.rolled) else d
  {
    var s := Exec(Opened(start), run);
    CountedAlways(Opened(start), run);
    RolledOverIff(s, step);
    forall i: nat ensures !Appends(s, i) { OneAppendAtATime(s, step, i, i); }
    hide Exec, Next, SizeOf;
  }

  // ---- What a failure costs ----

  ghost predicate Idle(s: Log) { forall i: nat :: !Appends(s, i) }

  /** The counter, where there is one, is the size of the file. */
  ghost predicate Truthful(s: Log) { Idle(s) && s.written.Some? ==> s.written.value == FileSize(s.disk) }

  /**
   * An append that leaves the counter behind: it fails after the file was renamed out of
   * its way, or lands after its write had lost track of the size.
   */
  predicate Miscounts(s: Log, step: Step) {
    && Enabled(s, step) && step.Finish? && s.written.Some?
    && if step.ok then s.tasks[step.task].phase.size.None? else s.disk.file.None?
  }

  /** A line is never empty: it has its newline at least. */
  ghost predicate NoEmptyLines(s: Log) { forall i :: 0 <= i < |s.tasks| ==> s.tasks[i].line.bytes > 0 }

  predicate CallsNoEmptyLine(step: Step) { step.Call? ==> step.line.bytes > 0 }

  /** The counter is right, and so is the size any append under way will add to. */
  ghost predicate Telling(s: Log) {
    && (s.written.Some? ==> s.written.value > 0)
    && (Idle(s) && s.written.Some? ==> s.disk.file.Some? && s.written.value == FileSize(s.disk))
    && (forall i: nat :: Appends(s, i) ==>
          && (s.tasks[i].phase.size.Some? ==> s.tasks[i].phase.size.value == FileSize(s.disk))
          && (s.written.Some? ==>
                if s.disk.file.Some? then s.written.value == FileSize(s.disk) else s.tasks[i].phase.size == Some(0)))
  }

  lemma BeginningIsTelling(s: Log, line: Line, io: Io)
    requires Telling(s) && Idle(s)
    ensures
      var d, size := DiskAfterRollover(s, line, io), SizeAppendedTo(s, line, io);
      && (size.Some? ==> size.value == FileSize(d))
      && (s.written.Some? ==> if d.file.Some? then s.written.value == FileSize(d) else size == Some(0))
  {
  }

  lemma BeginStepIsTelling(s: Log, step: Step)
    requires Chained(s) && Telling(s) && Begins(s, step)
    ensures Telling(Next(s, step)) && !Idle(Next(s, step))
  {
    var t := Next(s, step);
    assert Idle(s);
    var line := LineOf(s, step);
    var i := if step.Call? then |s.tasks| else step.task;
    BeginningIsTelling(s, line, step.io);
    assert t.tasks[i] == Task(line, Appending(SizeAppendedTo(s, line, step.io))) && t.disk == DiskAfterRollover(s, line, step.io);
    hide SizeAppendedTo, DiskAfterRollover, FileSize, Chained;
    assert Appends(t, i);
    forall k: nat ensures Appends(t, k) ==> k == i {
      if k < |s.tasks| && k != i { assert !Appends(s, k) && t.tasks[k] == s.tasks[k]; }
    }
  }

  lemma FinishStepIsTelling(s: Log, step: Step)
    requires Chained(s) && Telling(s) && NoEmptyLines(s) && Enabled(s, step) && step.Finish?
    ensures Idle(Next(s, step))
    ensures if Miscounts(s, step) then !Truthful(Next(s, step)) else Telling(Next(s, step))
  {
    var t := Next(s, step);
    var line := s.tasks[step.task].line;
    assert Appends(s, step.task);
    AppendGrows(s.disk, line);
    forall i: nat ensures !Appends(t, i) {
      OneAppendAtATime(s, step, i, step.task);
      if i != step.task && i < |s.tasks| { assert t.tasks[i] == s.tasks[i]; }
    }
    assert s.disk.file.None? ==> FileSize(s.disk) == 0;
    hide FileSize, FileLines, Chained;
  }

  lemma StepIsTelling(s: Log, step: Step)
    requires Chained(s) && Telling(s) && NoEmptyLines(s)
    ensures if Miscounts(s, step) then !Truthful(Next(s, step)) else Telling(Next(s, step))
  {
    if Begins(s, step) {
      BeginStepIsTelling(s, step);
    } else if Enabled(s, step) && step.Finish? {
      FinishStepIsTelling(s, step);
    } else if Enabled(s, step) {
      hide FileSize, Chained;
      forall i: nat ensures Appends(Next(s, step), i) == Appends(s, i) {}
    }
  }

  lemma LinesStayNonEmpty(s: Log, step: Step)
    requires NoEmptyLines(s) && CallsNoEmptyLine(step)
    ensures NoEmptyLines(Next(s, step))
  {
    hide DiskAfterRollover, SizeAppendedTo, FileLines;
  }

  ghost predicate AlwaysTruthful(s: Log, run: seq<Step>)
    decreases |run|
  {
    Truthful(s) && (run == [] || AlwaysTruthful(Next(s, run[0]), run[1..]))
  }

  ghost predicate NeverMiscounts(s: Log, run: seq<Step>)
    decreases |run|
  {
    run == [] || (!Miscounts(s, run[0]) && NeverMiscounts(Next(s, run[0]), run[1..]))
  }

  lemma {:induction false} TellingRun(s: Log, run: seq<Step>)
    requires Chained(s) && Telling(s) && NoEmptyLines(s)
    requires forall i :: 0 <= i < |run| ==> CallsNoEmptyLine(run[i])
    ensures AlwaysTruthful(s, run) <==> NeverMiscounts(s, run)
    decreases |run|
  {
    if run != [] {
      StepStaysChained(s, run[0]);
      StepIsTelling(s, run[0]);
      LinesStayNonEmpty(s, run[0]);
      assert Truthful(s);
      if Miscounts(s, run[0]) {
        assert !AlwaysTruthful(Next(s, run[0]), run[1..]);
      } else {
        TellingRun(Next(s, run[0]), run[1..]);
      }
    }
  }

  /**
   * Through a whole run, whatever fails and rolls over, the counter is the file's size
   * whenever nothing is being appended, if and only if no append of the run miscounts.
   */
  lemma TheCounterIsRightIff(start: Disk, run: seq<Step>)
    requires forall i :: 0 <= i < |run| ==> CallsNoEmptyLine(run[i])
    ensures AlwaysTruthful(Opened(start), run) <==> NeverMiscounts(Opened(start), run)
  {
    TellingRun(Opened(start), run);
  }

  /** One write from the call to the end of it, on a file nobody else is writing to. */
  ghost function Alone(s: Log, line: Line, io: Io, ok: bool): Log {
    Next(Next(Next(s, Call(line, io)), Finish(|s.tasks|, ok)), Forget(|s.tasks|))
  }

  /**
   * One write on an idle file whose counter is right leaves it right, unless the line did
   * not fit and just one of its rename and its append went through.
   */
  lemma OneWriteCountsRightIff(s: Log, line: Line, io: Io, ok: bool)
    requires Chained(s) && s.last.None? && s.written == Some(FileSize(s.disk)) && FileSize(s.disk) > 0 && line.bytes > 0
    ensures
      var t := Alone(s, line, io, ok);
      t.written == Some(FileSize(t.disk)) <==> !(RollsOver(s, line, io) && Renames(s, line, io) != ok)
    ensures
      Miscounts(Next(s, Call(line, io)), Finish(|s.tasks|, ok)) <==> RollsOver(s, line, io) && Renames(s, line, io) != ok
  {
    var u := Next(s, Call(line, io));
    AppendGrows(u.disk, line);
    assert s.disk.file.Some?;
    assert u.disk.file.None? ==> FileSize(u.disk) == 0;
    hide FileSize, FileLines, Chained;
  }

  /**
   * So when a file at the cap rolls over and the append behind the rename fails, the
   * counter still says the cap: the next line finds no file to rename and is appended
   * uncounted, and the one after it rolls that single line over the generation that was
   * to be kept.
   */
  lemma AFailedAppendDropsAGeneration(s: Log, failed: Line, next: Line, last: Line, io: Io)
    requires Chained(s) && s.last.None? && s.written.Some? && s.disk.file.Some? && io.renameOk
    requires s.written.value + failed.bytes > MAX_LOG_BYTES && failed.bytes <= next.bytes && failed.bytes <= last.bytes
    ensures Miscounts(Next(s, Call(failed, io)), Finish(|s.tasks|, false))
    ensures
      var t := Next(Alone(Alone(s, failed, io, false), next, io, true), Call(last, io));
      && t.disk.rolled == [next] && t.disk.gone == s.disk.gone + s.disk.rolled + s.disk.file.value
      && t.written == s.written
  {
  }

  /** What the answer to an append changes, and what it does not. */
  lemma AnswerOfAnAppend(s: Log, i: nat, ok: bool)
    requires Enabled(s, Finish(i, ok))
    ensures
      var t := Next(s, Finish(i, ok));
      && Everything(t.disk) == Everything(s.disk) + (if ok then [s.tasks[i].line] else [])
      && (s.tasks[i].phase.size == Some(FileSize(s.disk)) && ok ==> t.written == Some(FileSize(t.disk)))
  {
    hide Everything, FileSize, FileLines;
    var line := s.tasks[i].line;
    AppendAdds(s.disk, line);
    AppendGrows(s.disk, line);
    assert Next(s, Finish(i, ok)).disk == if ok then s.disk.(file := Some(FileLines(s.disk) + [line])) else s.disk;
  }

  // ---- The module's own state ----

  class LogFile {
    var disk: Disk
    var written: Option<nat>
    var tasks: seq<Task>
    var last: Option<nat>

    function View(): Log
      reads this
    {
      Log(disk, written, tasks, last)
    }

    constructor (disk: Disk)
      ensures View() == Opened(disk)
    {
      this.disk, written, tasks, last := disk, None, [], None;
    }

    /** The write itself, up to its append: sizing, and renaming when the line would not fit. */
    method Write(i: nat, io: Io)
      requires i < |tasks|
      modifies `disk, `tasks
      ensures disk == DiskAfterRollover(old(View()), old(tasks)[i].line, io)
      ensures tasks == old(tasks)[i := Task(old(tasks)[i].line, Appending(SizeAppendedTo(old(View()), old(tasks)[i].line, io)))]
    {
      var bytes := tasks[i].line.bytes;
      var size: Option<nat>;
      if written.Some? {
        size := written;
      } else if disk.file.None? {
        size := Some(0);
      } else if io.statOk {
        size := Some(FileSize(disk));
      } else {
        size := None;
      }
      if size.Some? && size.value + bytes > MAX_LOG_BYTES {
        if io.renameOk && disk.file.Some? {
          disk := Disk(None, disk.file.value, disk.gone + disk.rolled);
          size := Some(0);
        } else {
          size := None;
        }
      }
      tasks := tasks[i := Task(tasks[i].line, Appending(size))];
    }

    /** appendRotating: at once when the file is idle, else behind the last write. */
    method AppendRotating(line: Line, io: Io)
      modifies this
      ensures View() == Next(old(View()), Call(line, io))
    {
      var previous := last;
      last := Some(|tasks|);
      if previous.Some? {
        tasks := tasks + [Task(line, Waiting(previous.value))];
      } else {
        tasks := tasks + [Task(line, Waiting(|tasks|))];
        Write(|tasks| - 1, io);
        assert tasks == old(tasks) + [tasks[|old(tasks)|]];
      }
    }

    /** The write before this one has settled, either way. */
    method PreviousSettled(i: nat, io: Io)
      requires Enabled(View(), Start(i, io))
      modifies this
      ensures View() == Next(old(View()), Start(i, io))
    {
      Write(i, io);
    }

    /** appendFile's callback: the bytes are credited once they are on disk. */
    method AppendAnswered(i: nat, ok: bool)
      requires Enabled(View(), Finish(i, ok))
      modifies this
      ensures View() == Next(old(View()), Finish(i, ok))
      ensures Everything(disk) == old(Everything(disk)) + if ok then [old(tasks)[i].line] else []
      ensures disk.rolled == old(disk).rolled && disk.gone == old(disk).gone && last == old(last)
      ensures written != old(written) ==> ok && old(tasks)[i].phase.size.Some?
      ensures ok && old(tasks)[i].phase.size == Some(FileSize(old(disk))) ==> written == Some(FileSize(disk))
      ensures |tasks| == |old(tasks)| && tasks[i].phase == Settled(ok)
      ensures forall k :: 0 <= k < |tasks| && k != i ==> tasks[k] == old(tasks)[k]
    {
      AnswerOfAnAppend(View(), i, ok);
      hide Everything, FileSize, FileLines;
      var task := tasks[i];
      if ok {
        if task.phase.size.Some? { written := Some(task.phase.size.value + task.line.bytes); }
        disk := disk.(file := Some(FileLines(disk) + [task.line]));
      }
      tasks := tasks[i := Task(task.line, Settled(ok))];
    }

    /** The entry goes only if it is still this write's. */
    method ForgetSettled(i: nat)
      requires i < |tasks| && tasks[i].phase.Settled?
      modifies `last
      ensures View() == Next(old(View()), Forget(i))
    {
      if last == Some(i) { last := None; }
    }
  }
}
