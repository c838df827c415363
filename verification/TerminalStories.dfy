/**
  A display terminal field by field: what each field holds after any run is told from the
  operations alone, without the terminal.
 */
module TerminalStories {
  import opened Wrappers
  import opened TerminalOutput

  /** A patch is taken unless it replaces the output and the emulator refuses. */
  predicate IsTaken(op: Op) {
    op.DoPatch? && (op.patch.output == Undefined || op.after != None)
  }

  function ContentOn(was: Bytes, op: Op): Bytes {
    match op
    case DoWrite(screen) => screen.content
    case DoPatch(patch, _, _, after) =>
      if patch.output != Undefined && after != None then after.value.content else was
    case _ => was
  }

  /** The text on the screen: that of the last write, or of the last output that a patch replaced. */
  function ContentAfter(was: Bytes, ops: seq<Op>): Bytes {
    if ops == [] then was else ContentOn(ContentAfter(was, ops[..|ops| - 1]), ops[|ops| - 1])
  }

  ghost predicate WasCreated(t: Terminal, ops: seq<Op>) {
    t.legacyCreated || exists i :: 0 <= i < |ops| && ops[i].DoInitialize?
  }

  ghost predicate WasExited(t: Terminal, ops: seq<Op>) {
    t.legacyExited || exists i :: 0 <= i < |ops| && ops[i].DoFinish?
  }

  function Captioned(was: Command, caption: string): Command {
    match was
    case Reported(_) => was
    case _ => LegacyCaption(caption)
  }

  function CommandOn(was: Command, created: bool, op: Op): Command {
    match op
    case DoLabel(caption) => Captioned(was, caption)
    case DoInitialize(caption, _, _) => if created then was else Captioned(was, caption)
    case DoPatch(patch, _, _, _) =>
      if !IsTaken(op) then was
      else
        (match patch.command
         case Undefined => was
         case Null => Reported(None)
         case Value(text) => Reported(Some(text)))
    case _ => was
  }

  /** The command line: the last one a patch reports, and until then the last caption. */
  ghost function CommandAfter(t: Terminal, ops: seq<Op>): Command {
    if ops == [] then t.command
    else
      var before := ops[..|ops| - 1];
      CommandOn(CommandAfter(t, before), WasCreated(t, before), ops[|ops| - 1])
  }

  function DirectoryOn(was: Option<string>, created: bool, op: Op): Option<string> {
    match op
    case DoInitialize(_, cwd, _) => if created then was else cwd
    case DoPatch(patch, _, _, _) =>
      if !IsTaken(op) then was
      else
        (match patch.cwd
         case Undefined => was
         case Null => None
         case Value(path) => Some(path))
    case _ => was
  }

  /** The working directory: that of the first initialization or of the last patch that names one. */
  ghost function DirectoryAfter(t: Terminal, ops: seq<Op>): Option<string> {
    if ops == [] then t.workingDir
    else
      var before := ops[..|ops| - 1];
      DirectoryOn(DirectoryAfter(t, before), WasCreated(t, before), ops[|ops| - 1])
  }

  function LimitOn(was: Option<nat>, created: bool, op: Op): Option<nat> {
    match op
    case DoInitialize(_, _, limit) => if created then was else limit
    case _ => was
  }

  /** The limit: that of the first initialization. */
  ghost function LimitAfter(t: Terminal, ops: seq<Op>): Option<nat> {
    if ops == [] then t.limit
    else
      var before := ops[..|ops| - 1];
      LimitOn(LimitAfter(t, before), WasCreated(t, before), ops[|ops| - 1])
  }

  function Ending(t: Terminal): Option<(int, Status)> {
    if t.output.Some? then Some((t.output.value.endedAt, t.output.value.status)) else None
  }

  function EndingOn(was: Option<(int, Status)>, exited: bool, op: Op): Option<(int, Status)> {
    match op
    case DoFinish(status, now, _) => if exited || was != None then was else Some((now, status))
    case DoPatch(patch, now, _, _) =>
      if !IsTaken(op) then was
      else
        (match patch.exitStatus
         case Undefined => was
         case Null => None
         case Value(status) => Some((if was == None then now else was.value.0, status)))
    case _ => was
  }

  /** When the process ended and how: by the first exit, or by a patch, which may also take it back. */
  ghost function EndingAfter(t: Terminal, ops: seq<Op>): Option<(int, Status)> {
    if ops == [] then Ending(t)
    else
      var before := ops[..|ops| - 1];
      EndingOn(EndingAfter(t, before), WasExited(t, before), ops[|ops| - 1])
  }

  function LinesOn(was: nat, ended: bool, op: Op): nat {
    match op
    case DoWrite(screen) => screen.lines
    case DoFinish(_, _, shrunk) => if ended then was else shrunk
    case DoPatch(patch, _, shrunk, after) =>
      if !IsTaken(op) then was
      else if patch.exitStatus.Value? then shrunk
      else if patch.output != Undefined then after.value.lines
      else was
    case _ => was
  }

  /** The number of lines: that of the screen, or of the shrunk one once an end is recorded. */
  ghost function LinesAfter(t: Terminal, ops: seq<Op>): nat {
    if ops == [] then t.screen.lines
    else
      var before := ops[..|ops| - 1];
      LinesOn(LinesAfter(t, before), WasExited(t, before) || EndingAfter(t, before) != None, ops[|ops| - 1])
  }

  ghost predicate Tells(t: Terminal, ops: seq<Op>, end: Terminal) {
    && end.processBacked == t.processBacked
    && end.screen.content == ContentAfter(t.screen.content, ops)
    && end.screen.lines == LinesAfter(t, ops)
    && end.command == CommandAfter(t, ops)
    && end.workingDir == DirectoryAfter(t, ops)
    && end.limit == LimitAfter(t, ops)
    && end.legacyCreated == WasCreated(t, ops)
    && end.legacyExited == WasExited(t, ops)
    && Ending(end) == EndingAfter(t, ops)
  }

  lemma CreatedOn(t: Terminal, ops: seq<Op>, op: Op)
    ensures WasCreated(t, ops + [op]) <==> WasCreated(t, ops) || op.DoInitialize?
    ensures WasExited(t, ops + [op]) <==> WasExited(t, ops) || op.DoFinish?
  {
    var all := ops + [op];
    assert all[|ops|] == op;
    if i :| 0 <= i < |ops| && ops[i].DoInitialize? {
      assert all[i].DoInitialize?;
    }
    if i :| 0 <= i < |ops| && ops[i].DoFinish? {
      assert all[i].DoFinish?;
    }
  }

  lemma ScreenNext(end: Terminal, op: Op)
    requires !end.processBacked
    ensures Next(end, op).screen.content == ContentOn(end.screen.content, op)
    ensures Next(end, op).screen.lines == LinesOn(end.screen.lines, end.legacyExited || Ending(end) != None, op)
  {
  }

  lemma CommandNext(end: Terminal, op: Op)
    requires !end.processBacked
    ensures Next(end, op).command == CommandOn(end.command, end.legacyCreated, op)
  {
  }

  lemma DirectoryNext(end: Terminal, op: Op)
    requires !end.processBacked
    ensures Next(end, op).workingDir == DirectoryOn(end.workingDir, end.legacyCreated, op)
  {
  }

  lemma LimitNext(end: Terminal, op: Op)
    requires !end.processBacked
    ensures Next(end, op).limit == LimitOn(end.limit, end.legacyCreated, op)
  {
  }

  lemma EndingNext(end: Terminal, op: Op)
    requires !end.processBacked
    ensures Ending(Next(end, op)) == EndingOn(Ending(end), end.legacyExited, op)
  {
  }

  lemma FlagsNext(end: Terminal, op: Op)
    requires !end.processBacked
    ensures Next(end, op).legacyCreated == (end.legacyCreated || op.DoInitialize?)
    ensures Next(end, op).legacyExited == (end.legacyExited || op.DoFinish?) && !Next(end, op).processBacked
  {
  }

  lemma TellsOn(t: Terminal, ops: seq<Op>, op: Op, end: Terminal, next: Terminal)
    requires !t.processBacked && Tells(t, ops, end) && next == Next(end, op)
    ensures Tells(t, ops + [op], next)
  {
    var all := ops + [op];
    assert all[..|all| - 1] == ops && all[|all| - 1] == op;
    CreatedOn(t, ops, op);
    ScreenNext(end, op);
    CommandNext(end, op);
    DirectoryNext(end, op);
    LimitNext(end, op);
    EndingNext(end, op);
    FlagsNext(end, op);
  }

  /** After every run each field of a display terminal is as its own story has it. */
  lemma {:induction false} EveryFieldHasItsStory(t: Terminal, ops: seq<Op>)
    requires !t.processBacked
    ensures Tells(t, ops, Run(t, ops))
  {
    if ops == [] {
    } else {
      var before, op := ops[..|ops| - 1], ops[|ops| - 1];
      assert ops == before + [op];
      EveryFieldHasItsStory(t, before);
      TellsOn(t, before, op, Run(t, before), Run(t, ops));
    }
  }

  /** A patch is refused exactly on a process's own terminal or if the emulator refuses, and then changes nothing. */
  lemma PatchRefusedExactlyWhen(t: Terminal, patch: Patch, now: int, shrunk: nat, after: Option<Screen>)
    ensures var (t', ok) := ApplyPatch(t, patch, now, shrunk, after);
            && (ok <==> !t.processBacked && IsTaken(DoPatch(patch, now, shrunk, after)))
            && (!ok ==> t' == t)
  {
  }
}
