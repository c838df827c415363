/**
  The display path of an agent-provided terminal (crates/acp_thread/src/terminal.rs).
  The emulator is not part of this model: each operation is given the screen it
  leaves behind, as UTF-8 content and a line count.
 */
module TerminalOutput {
  import opened Wrappers
  import opened Utf8

  type Bytes = seq<byte>

  const NEWLINE: byte := 0x0A

  // ---------------------------------------------------------------------------
  // Truncation
  // ---------------------------------------------------------------------------

  /** The last character boundary at or before `i`. */
  function Floor(s: Bytes, i: nat): (r: nat)
    requires i <= |s|
    ensures r <= i && IsBoundary(s, r)
    ensures forall j: nat | r < j <= i :: !IsBoundary(s, j)
  {
    if IsBoundary(s, i) then i else Floor(s, i - 1)
  }

  /** `rfind('\n')` before position `n`. */
  function LastNewline(s: Bytes, n: nat): (r: Option<nat>)
    requires n <= |s|
    ensures r.Some? ==> r.value < n && s[r.value] == NEWLINE && forall j | r.value < j < n :: s[j] != NEWLINE
    ensures r.None? ==> forall j | 0 <= j < n :: s[j] != NEWLINE
  {
    if n == 0 then None else if s[n - 1] == NEWLINE then Some(n - 1) else LastNewline(s, n - 1)
  }

  /** Where the content is cut under a limit. */
  function Cut(s: Bytes, limit: Option<nat>): (r: nat)
    ensures r <= |s|
  {
    if limit.None? || |s| <= limit.value then |s|
    else
      var end := Floor(s, limit.value);
      var newline := LastNewline(s, end);
      if newline.Some? then newline.value else end
  }

  function Truncated(s: Bytes, limit: Option<nat>): Bytes {
    s[..Cut(s, limit)]
  }

  /** `truncated_output`, stepping back to a boundary. */
  method TruncateOutput(s: Bytes, limit: Option<nat>) returns (content: Bytes, originalLength: nat)
    ensures content == Truncated(s, limit) && originalLength == |s|
  {
    content, originalLength := s, |s|;
    if limit.Some? && |s| > limit.value {
      var end: nat := limit.value;
      while !IsBoundary(s, end)
        invariant end <= limit.value && Floor(s, end) == Floor(s, limit.value)
        decreases end
      {
        end := end - 1;
      }
      var newline := LastNewline(s, end);
      end := if newline.Some? then newline.value else end;
      content := s[..end];
    } else {
      assert s[..|s|] == s;
    }
  }

  predicate HasNewlineBelow(s: Bytes, n: nat)
    requires n <= |s|
  {
    exists i | 0 <= i < n :: s[i] == NEWLINE
  }

  /**
    The kept text is a prefix within the limit that ends on a character boundary: before the last
    line break below the last boundary within the limit, or on that boundary if there is no such break.
   */
  lemma TruncationIsWellFormed(s: Bytes, limit: nat)
    ensures var r := Truncated(s, Some(limit));
            && r <= s && |r| <= limit && IsBoundary(s, |r|)
            && (ValidUtf8(s) ==> ValidUtf8(r))
            && (|s| <= limit ==> r == s)
            && (|s| > limit ==>
                  var end := Floor(s, limit);
                  if HasNewlineBelow(s, end) then
                    |r| < end && s[|r|] == NEWLINE && forall n | |r| < n < end :: s[n] != NEWLINE
                  else |r| == end)
  {
    var r := Truncated(s, Some(limit));
    if ValidUtf8(s) {
      BoundarySplits(s, |r|);
    }
  }

  /** No longer prefix within the limit ends just before a line break. */
  ghost predicate KeepsEveryWholeLine(s: Bytes, limit: nat, cut: nat)
    requires limit < |s|
  {
    forall n | cut < n <= limit :: s[n] != NEWLINE
  }

  /** A line whose break stands right at the last boundary that fits is dropped if a break lies below; no other is. */
  lemma WholeLinesKeptExactlyWhen(s: Bytes, limit: nat)
    requires limit < |s|
    ensures KeepsEveryWholeLine(s, limit, |Truncated(s, Some(limit))|) <==>
            s[Floor(s, limit)] != NEWLINE || !HasNewlineBelow(s, Floor(s, limit))
  {
    var end, cut := Floor(s, limit), |Truncated(s, Some(limit))|;
    TruncationIsWellFormed(s, limit);
    forall n | end < n <= limit ensures s[n] != NEWLINE {
      assert !IsBoundary(s, n);
    }
    if HasNewlineBelow(s, end) {
      assert cut < end <= limit;
    }
  }

  /** A larger limit only lengthens the kept text. */
  lemma TruncationGrows(s: Bytes, a: nat, b: nat)
    requires a <= b
    ensures Truncated(s, Some(a)) <= Truncated(s, Some(b)) <= Truncated(s, None)
  {
    assert Cut(s, Some(a)) <= Cut(s, Some(b));
  }

  // ---------------------------------------------------------------------------
  // Display operations
  // ---------------------------------------------------------------------------

  datatype Maybe<T> = Undefined | Null | Value(value: T)

  datatype Screen = Screen(content: Bytes, lines: nat)

  datatype Status = Status(exitCode: Option<int>, signal: Option<string>)

  datatype Output = Output(endedAt: int, status: Status, content: Bytes, originalLength: nat, lines: nat)

  datatype Command = UnknownCommand | LegacyCaption(text: string) | Reported(reported: Option<string>)

  datatype Terminal = Terminal(
    processBacked: bool,
    screen: Screen,
    limit: Option<nat>,
    output: Option<Output>,
    command: Command,
    workingDir: Option<string>,
    legacyCreated: bool,
    legacyExited: bool)

  datatype Patch = Patch(command: Maybe<string>, cwd: Maybe<string>, output: Maybe<Bytes>, exitStatus: Maybe<Status>)

  function ToOption<T>(m: Maybe<T>): Option<T> {
    if m.Value? then Some(m.value) else None
  }

  function CommandText(c: Command): Option<string> {
    match c
    case LegacyCaption(text) => Some(text)
    case Reported(text) => text
    case UnknownCommand => None
  }

  function CacheOutput(t: Terminal, status: Status, endedAt: int): Terminal {
    var content := t.screen.content;
    t.(output := Some(Output(endedAt, status, Truncated(content, t.limit), |content|, t.screen.lines)))
  }

  function Refresh(t: Terminal): Terminal {
    if t.output.Some? then CacheOutput(t, t.output.value.status, t.output.value.endedAt) else t
  }

  /** `write_display_output` and `append_display_bytes`: the screen changes, then the cache follows. */
  function Write(t: Terminal, screen: Screen): Terminal {
    if t.processBacked then t else Refresh(t.(screen := screen))
  }

  function UpdateLabel(t: Terminal, caption: string): Terminal {
    if t.processBacked || t.command.Reported? || CommandText(t.command) == Some(caption) then t
    else t.(command := LegacyCaption(caption))
  }

  function InitializeLegacy(t: Terminal, command: string, cwd: Option<string>, limit: Option<nat>): Terminal {
    if t.processBacked then t
    else if t.legacyCreated then t
    else
      var labelled := UpdateLabel(t.(legacyCreated := true), command).(workingDir := cwd);
      if labelled.limit != limit then Refresh(labelled.(limit := limit)) else labelled
  }

  /** Shrinking keeps the text but may change the number of lines. */
  function FinishDisplay(t: Terminal, status: Status, now: int, shrunk: nat): Terminal {
    if t.processBacked then t
    else if t.legacyExited || t.output.Some? then t.(legacyExited := true)
    else CacheOutput(t.(legacyExited := true, screen := t.screen.(lines := shrunk)), status, now)
  }

  /** `after` is the screen once the emulator replaced its output; a refusal changes nothing. */
  function ApplyPatch(t: Terminal, patch: Patch, now: int, shrunk: nat, after: Option<Screen>): (Terminal, bool) {
    if t.processBacked || (!patch.output.Undefined? && after.None?) then (t, false)
    else
      var screen := if patch.output.Undefined? then t.screen else after.value;
      var patched := t.(
        screen := screen,
        command := if patch.command.Undefined? then t.command else Reported(ToOption(patch.command)),
        workingDir := if patch.cwd.Undefined? then t.workingDir else ToOption(patch.cwd));
      match patch.exitStatus
      case Undefined => (if patch.output.Undefined? then patched else Refresh(patched), true)
      case Null => (patched.(output := None), true)
      case Value(status) =>
        var endedAt := if patched.output.Some? then patched.output.value.endedAt else now;
        (CacheOutput(patched.(screen := screen.(lines := shrunk)), status, endedAt), true)
  }

  datatype Op =
    | DoWrite(screen: Screen)
    | DoLabel(caption: string)
    | DoInitialize(command: string, cwd: Option<string>, limit: Option<nat>)
    | DoFinish(status: Status, now: int, shrunk: nat)
    | DoPatch(patch: Patch, now: int, shrunk: nat, after: Option<Screen>)

  function Next(t: Terminal, op: Op): Terminal {
    match op
    case DoWrite(screen) => Write(t, screen)
    case DoLabel(caption) => UpdateLabel(t, caption)
    case DoInitialize(command, cwd, limit) => InitializeLegacy(t, command, cwd, limit)
    case DoFinish(status, now, shrunk) => FinishDisplay(t, status, now, shrunk)
    case DoPatch(patch, now, shrunk, after) => ApplyPatch(t, patch, now, shrunk, after).0
  }

  function Run(t: Terminal, ops: seq<Op>): Terminal {
    if ops == [] then t else Next(Run(t, ops[..|ops| - 1]), ops[|ops| - 1])
  }

  /** A cached output is what truncating the live content now would give. */
  predicate Fresh(t: Terminal) {
    t.output.Some? ==>
      && t.output.value.content == Truncated(t.screen.content, t.limit)
      && t.output.value.originalLength == |t.screen.content|
      && t.output.value.lines == t.screen.lines
  }

  lemma PatchKeepsFresh(t: Terminal, patch: Patch, now: int, shrunk: nat, after: Option<Screen>)
    requires Fresh(t)
    ensures Fresh(ApplyPatch(t, patch, now, shrunk, after).0)
  {
  }

  lemma StepKeepsFresh(t: Terminal, op: Op)
    requires Fresh(t)
    ensures Fresh(Next(t, op))
  {
    match op
    case DoWrite(screen) =>
    case DoLabel(_) =>
    case DoInitialize(command, cwd, limit) =>
    case DoFinish(_, _, _) =>
    case DoPatch(patch, now, shrunk, after) => PatchKeepsFresh(t, patch, now, shrunk, after);
  }

  /** In every run of display operations the cache agrees with the live content under the current limit. */
  lemma {:induction false} CacheStaysFresh(t: Terminal, ops: seq<Op>)
    requires Fresh(t)
    ensures Fresh(Run(t, ops))
  {
    if ops != [] {
      CacheStaysFresh(t, ops[..|ops| - 1]);
      StepKeepsFresh(Run(t, ops[..|ops| - 1]), ops[|ops| - 1]);
    }
  }

  predicate Clears(op: Op) {
    op.DoPatch? && op.patch.exitStatus.Null?
  }

  predicate Restates(op: Op) {
    op.DoPatch? && op.patch.exitStatus.Value? && (op.patch.output.Undefined? || op.after.Some?)
  }

  /** The last exit status that a patch of `ops` reports, or the one before. */
  function LastStatus(ops: seq<Op>, status: Status): Status {
    if ops == [] then status
    else if Restates(ops[|ops| - 1]) then ops[|ops| - 1].patch.exitStatus.value
    else LastStatus(ops[..|ops| - 1], status)
  }

  lemma StepKeepsEnding(t: Terminal, op: Op)
    requires t.output.Some? && !t.processBacked && !Clears(op)
    ensures var t' := Next(t, op);
            && !t'.processBacked && t'.output.Some?
            && t'.output.value.endedAt == t.output.value.endedAt
            && t'.output.value.status == if Restates(op) then op.patch.exitStatus.value else t.output.value.status
  {
  }

  /** Once cached, an output keeps its end time, and its status until a patch restates it, unless a patch clears it. */
  lemma {:induction false} RefreshKeepsEnding(t: Terminal, ops: seq<Op>)
    requires t.output.Some? && !t.processBacked
    requires forall i | 0 <= i < |ops| :: !Clears(ops[i])
    ensures var t' := Run(t, ops);
            && !t'.processBacked && t'.output.Some?
            && t'.output.value.endedAt == t.output.value.endedAt
            && t'.output.value.status == LastStatus(ops, t.output.value.status)
  {
    if ops != [] {
      RefreshKeepsEnding(t, ops[..|ops| - 1]);
      StepKeepsEnding(Run(t, ops[..|ops| - 1]), ops[|ops| - 1]);
    }
  }

  /** A client-owned terminal is left alone by every display operation. */
  lemma {:induction false} ProcessTerminalUntouched(t: Terminal, ops: seq<Op>)
    requires t.processBacked
    ensures Run(t, ops) == t
  {
    if ops != [] {
      ProcessTerminalUntouched(t, ops[..|ops| - 1]);
    }
  }

  /** The terminal as the mutable object it is. */
  class DisplayTerminal {
    const processBacked: bool
    var screen: Screen
    var outputByteLimit: Option<nat>
    var output: Option<Output>
    var command: Command
    var workingDir: Option<string>
    var legacyCreated: bool
    var legacyExited: bool

    ghost function Model(): Terminal
      reads this
    {
      Terminal(processBacked, screen, outputByteLimit, output, command, workingDir, legacyCreated, legacyExited)
    }

    ghost predicate Valid()
      reads this
    {
      Fresh(Model())
    }

    constructor (caption: Option<string>, cwd: Option<string>, limit: Option<nat>, screen: Screen)
      ensures Valid()
      ensures var command := if caption.Some? then LegacyCaption(caption.value) else UnknownCommand;
              Model() == Terminal(false, screen, limit, None, command, cwd, false, false)
    {
      processBacked := false;
      this.screen, outputByteLimit, output := screen, limit, None;
      command := if caption.Some? then LegacyCaption(caption.value) else UnknownCommand;
      workingDir, legacyCreated, legacyExited := cwd, false, false;
    }

    method Cache(status: Status, endedAt: int)
      modifies this`output
      ensures Model() == CacheOutput(old(Model()), status, endedAt) && Valid()
    {
      var content, originalLength := TruncateOutput(screen.content, outputByteLimit);
      output := Some(Output(endedAt, status, content, originalLength, screen.lines));
    }

    method RefreshOutput()
      modifies this`output
      ensures Model() == Refresh(old(Model())) && Valid()
    {
      if output.Some? {
        Cache(output.value.status, output.value.endedAt);
      }
    }

    method WriteOutput(after: Screen)
      requires Valid()
      modifies this
      ensures Model() == Write(old(Model()), after) && Valid()
    {
      if processBacked {
        return;
      }
      screen := after;
      RefreshOutput();
    }

    method UpdateCommandLabel(caption: string)
      requires Valid()
      modifies this`command
      ensures Model() == UpdateLabel(old(Model()), caption) && Valid()
    {
      if processBacked || command.Reported? || CommandText(command) == Some(caption) {
        return;
      }
      command := LegacyCaption(caption);
    }

    method InitializeLegacyDisplay(caption: string, cwd: Option<string>, limit: Option<nat>)
      requires Valid()
      modifies this
      ensures Model() == InitializeLegacy(old(Model()), caption, cwd, limit) && Valid()
    {
      if processBacked || legacyCreated {
        return;
      }
      legacyCreated := true;
      UpdateCommandLabel(caption);
      workingDir := cwd;
      if outputByteLimit != limit {
        outputByteLimit := limit;
        RefreshOutput();
      }
    }

    method Finish(status: Status, now: int, shrunk: nat)
      requires Valid()
      modifies this
      ensures Model() == FinishDisplay(old(Model()), status, now, shrunk) && Valid()
    {
      if processBacked {
        return;
      }
      var exited := legacyExited;
      legacyExited := true;
      if exited || output.Some? {
        return;
      }
      screen := screen.(lines := shrunk);
      Cache(status, now);
    }

    method Apply(patch: Patch, now: int, shrunk: nat, after: Option<Screen>) returns (ok: bool)
      requires Valid()
      modifies this
      ensures (Model(), ok) == ApplyPatch(old(Model()), patch, now, shrunk, after) && Valid()
    {
      if processBacked {
        return false;
      }
      if !patch.output.Undefined? {
        if after.None? {
          return false;
        }
        screen := after.value;
      }
      if !patch.command.Undefined? {
        command := Reported(ToOption(patch.command));
      }
      if !patch.cwd.Undefined? {
        workingDir := ToOption(patch.cwd);
      }
      match patch.exitStatus {
        case Undefined =>
          if !patch.output.Undefined? {
            RefreshOutput();
          }
        case Null =>
          output := None;
        case Value(status) =>
          var endedAt := if output.Some? then output.value.endedAt else now;
          screen := screen.(lines := shrunk);
          Cache(status, endedAt);
      }
      return true;
    }
  }
}
