/** The runtime log file and its one backup: appended to line by line, rotated when full. Every file
    operation may fail, and a write may stop anywhere in the line. */
module RotatingLog {
  import opened Options

  /** Where a call fails, if it does; the operations behind that point are not reached. A file that is
      reopened can fail to be created, or fail to get its permissions after it has been created. The last
      two are about `open` only: its directory, and the size of the file once it is open. */
  datatype Fault =
    | NoFault | FlushFails | RemoveFails | RenameFails | CreateFails | PermissionsFail | WriteStops(written: nat)
    | DirectoryFails | MetadataFails

  /** The two files on disk, whether the writer holds the active one open, and its own count of bytes. */
  datatype Log = Log(active: Option<string>, backup: Option<string>, isOpen: bool, current: nat)

  function Contents(file: Option<string>): string {
    if file.Some? then file.value else ""
  }

  /** All that can still be read, oldest first. */
  function Retained(log: Log): string {
    Contents(log.backup) + Contents(log.active)
  }

  /** `rotate_paths`: the backup is removed, and the active file takes its name if there is one. */
  function RotatedPaths(log: Log): Log {
    log.(active := None, backup := log.active)
  }

  /** `rotate`; the boolean says whether it succeeded. */
  function Rotated(log: Log, fault: Fault): (Log, bool) {
    if fault.FlushFails? && log.isOpen then (log, false)
    else
      var closed := log.(isOpen := false);
      if fault.RemoveFails? then (closed, false)
      else if fault.RenameFails? then (closed.(backup := None), false)
      else if fault.CreateFails? then (RotatedPaths(closed), false)
      else if fault.PermissionsFail? then (RotatedPaths(closed).(active := Some("")), false)
      else (RotatedPaths(log).(active := Some(""), isOpen := true, current := 0), true)
  }

  predicate IsFull(log: Log, line: string, max: nat) {
    log.current > 0 && log.current + |line| + 1 > max
  }

  /** The log that a line is written to: rotated if it was full. */
  function Prepared(log: Log, line: string, fault: Fault, max: nat): (Log, bool) {
    var rotated := if IsFull(log, line, max) then Rotated(log, fault) else (log, true);
    (rotated.0, rotated.1 && rotated.0.isOpen)
  }

  /** What of the line reaches the file. */
  function Appended(log: Log, line: string, fault: Fault, max: nat): string {
    var text := line + "\n";
    if !Prepared(log, line, fault, max).1 then ""
    else if fault.WriteStops? && fault.written < |text| then text[..fault.written]
    else text
  }

  /** `write_line`. A write that stops, or whose flush fails, is not counted. */
  function Written(log: Log, line: string, fault: Fault, max: nat): (Log, bool) {
    var (ready, ok) := Prepared(log, line, fault, max);
    if !ok then (ready, false)
    else
      var longer := ready.(active := Some(Contents(ready.active) + Appended(log, line, fault, max)));
      if fault.WriteStops? then (longer, false) else (longer.(current := ready.current + |line| + 1), true)
  }

  // ---------- the count of bytes ----------

  /** While the file is open the writer counts no byte that is not there. */
  predicate Inv(log: Log) {
    log.isOpen ==> log.active.Some? && log.current <= |log.active.value|
  }

  predicate IsExact(log: Log) {
    log.isOpen ==> log.active.Some? && log.current == |log.active.value|
  }

  lemma WrittenKeepsInv(log: Log, line: string, fault: Fault, max: nat)
    requires Inv(log)
    ensures Inv(Written(log, line, fault, max).0)
  {
  }

  /** The count stays exact if and only if no write stops after a part of the line. */
  lemma CountStaysExactIff(log: Log, line: string, fault: Fault, max: nat)
    requires IsExact(log)
    ensures IsExact(Written(log, line, fault, max).0) <==>
            !(fault.WriteStops? && Appended(log, line, fault, max) != "")
  {
  }

  /** What is counted stays within the limit, or is one line that is longer than the limit. */
  lemma CountStaysBounded(log: Log, line: string, fault: Fault, max: nat, longest: nat)
    requires max <= longest && |line| + 1 <= longest && (log.isOpen ==> log.current <= longest)
    ensures var (after, ok) := Written(log, line, fault, max);
      (after.isOpen ==> after.current <= longest) && (ok ==> after.current <= max || after.current == |line| + 1)
  {
  }

  // ---------- what one call keeps ----------

  /** A call that succeeds puts its whole line last, and loses at most the old backup. */
  lemma SuccessAppends(log: Log, line: string, fault: Fault, max: nat)
    requires Inv(log)
    ensures var (after, ok) := Written(log, line, fault, max);
      && (ok ==> Appended(log, line, fault, max) == line + "\n")
      && (ok && !IsFull(log, line, max) ==>
            after.backup == log.backup && after.active == Some(log.active.value + line + "\n"))
      && (ok && IsFull(log, line, max) ==> after.backup == log.active && after.active == Some(line + "\n"))
  {
    assert "" + (line + "\n") == line + "\n";
    assert log.active.Some? ==> log.active.value + (line + "\n") == log.active.value + line + "\n";
  }

  /** A line is written if and only if the write does not stop and either the file is open and has room for
      the line, or it has not and no step of the rotation fails. A rotated file has that line alone. */
  lemma WrittenIff(log: Log, line: string, fault: Fault, max: nat)
    requires Inv(log)
    ensures var (after, ok) := Written(log, line, fault, max);
      var hasRoom := log.current == 0 || log.current + |line| + 1 <= max;
      && (ok <==> !fault.WriteStops? && if hasRoom then log.isOpen else
            !fault.RemoveFails? && !fault.RenameFails? && !fault.CreateFails? && !fault.PermissionsFail?
            && (fault.FlushFails? ==> !log.isOpen))
      && (ok ==>
            && after.isOpen
            && after.backup == (if hasRoom then log.backup else log.active)
            && after.active == Some((if hasRoom then log.active.value else "") + (line + "\n"))
            && after.current == (if hasRoom then log.current else 0) + |line| + 1)
  {
    assert "" + (line + "\n") == line + "\n";
  }

  /** A rotation that gets as far as removing the backup, when nothing can be read but the backup. */
  predicate LosesTheLog(log: Log, line: string, fault: Fault, max: nat) {
    Contents(log.active) == "" && IsFull(log, line, max) && !fault.RemoveFails?
  }

  /** What the call drops of what could be read: nothing, or what was in the backup. */
  function Dropped(log: Log, line: string, fault: Fault, max: nat): nat {
    if IsFull(log, line, max) && !fault.RemoveFails? && !(fault.FlushFails? && log.isOpen)
    then |Contents(log.backup)|
    else 0
  }

  lemma Regrouped(backup: string, active: string, added: string)
    ensures backup + (active + added) == (backup + active)[0..] + added
    ensures "" + (active + added) == (backup + active)[|backup|..] + added
    ensures active + added == (backup + active)[|backup|..] + added
  {
    assert (backup + active)[|backup|..] == active;
  }

  lemma CallKeepsTheRest(log: Log, line: string, fault: Fault, max: nat)
    requires Inv(log)
    ensures Retained(Written(log, line, fault, max).0) ==
            Retained(log)[Dropped(log, line, fault, max)..] + Appended(log, line, fault, max)
  {
    var added := Appended(log, line, fault, max);
    Regrouped(Contents(log.backup), Contents(log.active), added);
    assert added == "" ==> Contents(log.active) + added == Contents(log.active);
    assert "" + added == added;
  }

  /** Whatever fails, a call drops the oldest part of what could be read and puts what it writes behind
      the rest. If anything could be read, it drops all of it if and only if it loses the log. */
  lemma OneCallKeeps(log: Log, line: string, fault: Fault, max: nat)
    requires Inv(log)
    ensures var dropped := Dropped(log, line, fault, max);
      && dropped <= |Retained(log)|
      && Retained(Written(log, line, fault, max).0) == Retained(log)[dropped..] + Appended(log, line, fault, max)
      && (Retained(log) != "" ==> (dropped == |Retained(log)| <==> LosesTheLog(log, line, fault, max)))
  {
    CallKeepsTheRest(log, line, fault, max);
  }

  // ---------- whole runs ----------

  datatype Call = Call(line: string, fault: Fault)

  ghost predicate IsRun(states: seq<Log>, calls: seq<Call>, max: nat) {
    && |states| == |calls| + 1 && Inv(states[0])
    && forall n :: 0 <= n < |calls| ==> states[n + 1] == Written(states[n], calls[n].line, calls[n].fault, max).0
  }

  lemma {:induction false} RunKeepsInv(states: seq<Log>, calls: seq<Call>, max: nat, n: nat)
    requires IsRun(states, calls, max) && n < |states|
    ensures Inv(states[n])
  {
    if n > 0 {
      RunKeepsInv(states, calls, max, n - 1);
      WrittenKeepsInv(states[n - 1], calls[n - 1].line, calls[n - 1].fault, max);
    }
  }

  /** What the calls of a run wrote, one after the other. */
  function PiecesOf(states: seq<Log>, calls: seq<Call>, max: nat): (pieces: seq<string>)
    requires |states| == |calls| + 1
    ensures |pieces| == |calls|
    ensures forall n :: 0 <= n < |calls| ==> pieces[n] == Appended(states[n], calls[n].line, calls[n].fault, max)
  {
    seq(|calls|, n requires 0 <= n < |calls| => Appended(states[n], calls[n].line, calls[n].fault, max))
  }

  function Joined(pieces: seq<string>, n: nat): string
    requires n <= |pieces|
  {
    if n == 0 then "" else Joined(pieces, n - 1) + pieces[n - 1]
  }

  ghost predicate IsEndOf(end: string, all: string) {
    exists k :: 0 <= k <= |all| && end == all[k..]
  }

  /** Something of the front goes, something comes behind. */
  ghost predicate MovesOn(before: string, after: string, piece: string) {
    exists k :: 0 <= k <= |before| && after == before[k..] + piece
  }

  lemma SlicedTwice(all: string, k: nat, l: nat, piece: string)
    requires k + l <= |all|
    ensures all[k..][l..] + piece == (all + piece)[k + l..]
  {
    assert all[k..][l..] == all[k + l..];
  }

  lemma EndMovesOn(before: string, all: string, after: string, piece: string)
    requires IsEndOf(before, all) && MovesOn(before, after, piece)
    ensures IsEndOf(after, all + piece)
  {
    var k :| 0 <= k <= |all| && before == all[k..];
    var l :| 0 <= l <= |before| && after == before[l..] + piece;
    SlicedTwice(all, k, l, piece);
  }

  lemma {:induction false} EndsOfAll(texts: seq<string>, pieces: seq<string>, n: nat)
    requires n <= |pieces| < |texts|
    requires forall m :: 0 <= m < n ==> MovesOn(texts[m], texts[m + 1], pieces[m])
    ensures IsEndOf(texts[n], texts[0] + Joined(pieces, n))
  {
    if n == 0 {
      assert texts[0] == (texts[0] + "")[0..];
    } else {
      EndsOfAll(texts, pieces, n - 1);
      EndMovesOn(texts[n - 1], texts[0] + Joined(pieces, n - 1), texts[n], pieces[n - 1]);
      assert texts[0] + Joined(pieces, n - 1) + pieces[n - 1] == texts[0] + Joined(pieces, n);
    }
  }

  lemma CallMovesOn(states: seq<Log>, calls: seq<Call>, max: nat, m: nat)
    requires IsRun(states, calls, max) && m < |calls|
    ensures MovesOn(Retained(states[m]), Retained(states[m + 1]), PiecesOf(states, calls, max)[m])
  {
    RunKeepsInv(states, calls, max, m);
    OneCallKeeps(states[m], calls[m].line, calls[m].fault, max);
  }

  /** In every run, whatever fails: what can be read is the end of what could be read at first, followed
      by everything written since. Nothing is reordered, repeated or dropped from the middle. */
  lemma RetainedIsTheEnd(states: seq<Log>, calls: seq<Call>, max: nat, n: nat)
    requires IsRun(states, calls, max) && n < |states|
    ensures IsEndOf(Retained(states[n]), Retained(states[0]) + Joined(PiecesOf(states, calls, max), n))
  {
    var texts := seq(|states|, m requires 0 <= m < |states| => Retained(states[m]));
    forall m | 0 <= m < n ensures MovesOn(texts[m], texts[m + 1], PiecesOf(states, calls, max)[m]) {
      CallMovesOn(states, calls, max, m);
    }
    EndsOfAll(texts, PiecesOf(states, calls, max), n);
  }

  /** The active file exists, and no byte is counted that is not in it. */
  predicate IsUnharmed(log: Log) {
    log.active.Some? && log.current <= |log.active.value|
  }

  predicate ReopeningFails(fault: Fault) {
    fault.CreateFails? || fault.PermissionsFail?
  }

  /** Only a rotation whose reopening fails leads to the loss of the log. */
  lemma UnharmedUnlessReopeningFails(log: Log, line: string, fault: Fault, max: nat)
    requires IsUnharmed(log) && !(IsFull(log, line, max) && ReopeningFails(fault))
    ensures IsUnharmed(Written(log, line, fault, max).0) && !LosesTheLog(log, line, fault, max)
  {
  }

  /** In a run without such a failure no call ever drops all that could be read. */
  lemma {:induction false} NeverLostWithoutFailedReopening(states: seq<Log>, calls: seq<Call>, max: nat, n: nat)
    requires IsRun(states, calls, max) && IsUnharmed(states[0]) && n < |states|
    requires forall m :: 0 <= m < |calls| ==> !ReopeningFails(calls[m].fault)
    ensures IsUnharmed(states[n])
    ensures n < |calls| ==> !LosesTheLog(states[n], calls[n].line, calls[n].fault, max)
  {
    if n > 0 {
      NeverLostWithoutFailedReopening(states, calls, max, n - 1);
      UnharmedUnlessReopeningFails(states[n - 1], calls[n - 1].line, calls[n - 1].fault, max);
    }
    if n < |calls| {
      UnharmedUnlessReopeningFails(states[n], calls[n].line, calls[n].fault, max);
    }
  }

  /** After such a failure, before or after the file was created, the next line that rotates again and is
      written is the only one left. */
  lemma FailedReopeningLosesTheLog(fault: Fault)
    requires ReopeningFails(fault)
    ensures
      var log := Log(Some("first\n"), None, true, 6);
      var closed := Written(log, "second", fault, 10).0;
      && IsExact(log) && Retained(closed) == "first\n" && (closed.active.Some? <==> fault.PermissionsFail?)
      && LosesTheLog(closed, "second", NoFault, 10)
      && Retained(Written(closed, "second", NoFault, 10).0) == "second\n"
  {
    assert "first\n" + "" == "first\n" && "" + "second\n" == "second\n" && "second" + "\n" == "second\n";
  }

  // ---------- opening ----------

  /** `open`: a file that is full already is rotated away, but one whose size cannot be told counts as
      empty. What is counted then is read from the open file itself. */
  function Opened(active: Option<string>, backup: Option<string>, sizeKnown: bool, fault: Fault, max: nat)
    : (Log, bool)
  {
    var size := if sizeKnown then |Contents(active)| else 0;
    var found := Log(active, backup, false, size);
    if fault.DirectoryFails? then (found, false)
    else if size >= max && fault.RemoveFails? then (found, false)
    else if size >= max && fault.RenameFails? then (found.(backup := None), false)
    else
      var ready := if size >= max then RotatedPaths(found) else found;
      if fault.CreateFails? then (ready, false)
      else
        var created := ready.(active := Some(Contents(ready.active)), current := |Contents(ready.active)|);
        if fault.PermissionsFail? || fault.MetadataFails? then (created, false) else (created.(isOpen := true), true)
  }

  /** The file is opened if and only if nothing that opening it takes fails; a full one is the backup then. */
  lemma OpenedIff(active: Option<string>, backup: Option<string>, sizeKnown: bool, fault: Fault, max: nat)
    ensures var (log, ok) := Opened(active, backup, sizeKnown, fault, max);
      var isFull := max == 0 || (sizeKnown && |Contents(active)| >= max);
      && (ok <==> log.isOpen) && (ok <==>
            && !fault.DirectoryFails? && !fault.CreateFails? && !fault.PermissionsFail? && !fault.MetadataFails?
            && !(isFull && (fault.RemoveFails? || fault.RenameFails?)))
      && (ok ==>
            && log.backup == (if isFull then active else backup)
            && log.active == Some(if isFull then "" else Contents(active)))
      && (fault.RemoveFails? && isFull ==> log.active == active && log.backup == backup)
      && (fault.RenameFails? && isFull ==> log.active == active && log.backup.None?)
  {
  }

  /** Opening too drops only the oldest part, and never all of it if the limit is positive. The file is
      open beyond its limit if and only if it was there already and its size could not be told. */
  lemma OpeningKeeps(active: Option<string>, backup: Option<string>, sizeKnown: bool, fault: Fault, max: nat)
    returns (dropped: nat)
    ensures var before, after := Contents(backup) + Contents(active), Opened(active, backup, sizeKnown, fault, max).0;
      && dropped <= |before| && Retained(after) == before[dropped..]
      && (max > 0 && before != "" ==> dropped < |before|)
      && IsExact(after)
      && (after.isOpen && max > 0 ==> (after.current >= max <==> !sizeKnown && |Contents(active)| >= max))
  {
    var before, after := Contents(backup) + Contents(active), Opened(active, backup, sizeKnown, fault, max).0;
    dropped := if Retained(after) == before then 0 else |Contents(backup)|;
    assert before[|Contents(backup)|..] == Contents(active) && before[0..] == before;
    assert Contents(active) + "" == Contents(active) && "" + Contents(active) == Contents(active);
  }

  // ---------- the file object ----------

  /** An object that is not open after the constructor stands for the error that `open` returns. */
  class RotatingLogFile {
    var active: Option<string>
    var backup: Option<string>
    var isOpen: bool
    var currentBytes: nat
    const maxFileBytes: nat

    function View(): Log
      reads this
    {
      Log(active, backup, isOpen, currentBytes)
    }

    constructor (active: Option<string>, backup: Option<string>, maxFileBytes: nat, sizeKnown: bool, fault: Fault)
      ensures (View(), isOpen) == Opened(active, backup, sizeKnown, fault, maxFileBytes)
      ensures Inv(View()) && IsExact(View()) && this.maxFileBytes == maxFileBytes
    {
      this.maxFileBytes, isOpen := maxFileBytes, false;
      this.active, this.backup, currentBytes := active, backup, if sizeKnown then |Contents(active)| else 0;
      new;
      if fault.DirectoryFails? {
        return;
      }
      if currentBytes >= maxFileBytes {
        if fault.RemoveFails? {
          return;
        }
        this.backup := None;
        if fault.RenameFails? {
          return;
        }
        this.active, this.backup := None, this.active;
      }
      if fault.CreateFails? {
        return;
      }
      this.active := Some(Contents(this.active));
      currentBytes := |this.active.value|;
      if fault.PermissionsFail? || fault.MetadataFails? {
        return;
      }
      isOpen := true;
    }

    method Rotate(fault: Fault) returns (ok: bool)
      modifies this
      ensures (View(), ok) == Rotated(old(View()), fault)
    {
      if isOpen && fault.FlushFails? {
        return false;
      }
      isOpen := false;
      if fault.RemoveFails? {
        return false;
      }
      backup := None;
      if fault.RenameFails? {
        return false;
      }
      active, backup := None, active;
      if fault.CreateFails? {
        return false;
      }
      active := Some("");
      if fault.PermissionsFail? {
        return false;
      }
      isOpen, currentBytes := true, 0;
      ok := true;
    }

    method WriteLine(line: string, fault: Fault) returns (ok: bool)
      requires Inv(View())
      modifies this
      ensures Inv(View())
      ensures (View(), ok) == Written(old(View()), line, fault, maxFileBytes)
    {
      WrittenKeepsInv(View(), line, fault, maxFileBytes);
      var lineBytes := |line| + 1;
      if currentBytes > 0 && currentBytes + lineBytes > maxFileBytes {
        var rotated := Rotate(fault);
        if !rotated {
          return false;
        }
      }
      if !isOpen {
        return false;
      }
      var text := line + "\n";
      if fault.WriteStops? {
        active := Some(Contents(active) + if fault.written < |text| then text[..fault.written] else text);
        return false;
      }
      active := Some(Contents(active) + text);
      currentBytes := currentBytes + lineBytes;
      ok := true;
    }
  }
}
