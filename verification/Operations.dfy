/**
What operators see of the daemon: the alert flag, the mails, and the state file. Files may fail to be
written or removed at any time.
*/
module Operations {
  import opened Models

  type Time = int

  /** The state file. */
  datatype StateFile = StateFile(
    lastSuccess: Option<Time>, lastHalt: Option<Time>, lastHaltReason: Option<string>, runCount: nat)

  datatype Mail = Alert(reason: string) | Resolved

  /** The alert flag, the mails sent so far, and the state file. */
  datatype Board = Board(flag: bool, mails: seq<Mail>, record: StateFile)

  datatype Ending = Applied | Halted(reason: string) | Crashed(reason: string)

  /** How a cycle ended, when, and which file operations failed on the way. */
  datatype CycleEnd = CycleEnd(
    ending: Ending, dry: bool, at: Time, flagFails: bool, stateFails: bool, secondFlagFails: bool)

  // ---- the effect of one cycle ----

  /** The flag is best effort; the mail goes out on every failing cycle. */
  function Raised(b: Board, reason: string, flagFails: bool): Board {
    b.(flag := b.flag || !flagFails, mails := b.mails + [Alert(reason)])
  }

  /** A mail about the end of an alert goes out only when a flag was really removed. */
  function Cleared(b: Board, flagFails: bool): Board {
    if !b.flag || flagFails then b else b.(flag := false, mails := b.mails + [Resolved])
  }

  function Success(r: StateFile, at: Time): StateFile {
    r.(lastSuccess := Some(at), runCount := r.runCount + 1)
  }

  function Halt(r: StateFile, at: Time, reason: string): StateFile {
    r.(lastHalt := Some(at), lastHaltReason := Some(reason), runCount := r.runCount + 1)
  }

  const STATE_FAILED := "crashed: state file"

  /** A state file that cannot be written turns the cycle into a crash. */
  function After(b: Board, e: CycleEnd): Board {
    match e.ending
    case Applied =>
      if e.dry then b
      else if e.stateFails then Raised(b, STATE_FAILED, e.flagFails)
      else Cleared(b.(record := Success(b.record, e.at)), e.flagFails)
    case Halted(reason) =>
      var b1 := Raised(b, reason, e.flagFails);
      if e.dry then b1
      else if e.stateFails then Raised(b1, STATE_FAILED, e.secondFlagFails)
      else b1.(record := Halt(b.record, e.at, reason))
    case Crashed(reason) => Raised(b, reason, e.flagFails)
  }

  function AfterAll(b: Board, es: seq<CycleEnd>): Board {
    if es == [] then b else After(AfterAll(b, es[..|es| - 1]), es[|es| - 1])
  }

  // ---- the files, updated in place ----

  class Files {
    var flag: bool
    var mails: seq<Mail>
    var record: StateFile

    constructor (b: Board)
      ensures View() == b
    {
      flag, mails, record := b.flag, b.mails, b.record;
    }

    function View(): Board reads this {
      Board(flag, mails, record)
    }

    method Raise(reason: string, fails: bool)
      modifies this`flag, this`mails
      ensures View() == Raised(old(View()), reason, fails)
    {
      if !fails {
        flag := true;
      }
      mails := mails + [Alert(reason)];
    }

    method Clear(fails: bool)
      modifies this`flag, this`mails
      ensures View() == Cleared(old(View()), fails)
    {
      if !flag {
        return;
      }
      if fails {
        return;
      }
      flag := false;
      mails := mails + [Resolved];
    }

    method WriteSuccess(at: Time, fails: bool) returns (ok: bool)
      modifies this`record
      ensures ok == !fails
      ensures View() == old(View()).(record := if fails then old(record) else Success(old(record), at))
    {
      if fails {
        return false;
      }
      var current := record;
      record := StateFile(Some(at), current.lastHalt, current.lastHaltReason, current.runCount + 1);
      ok := true;
    }

    method WriteHalt(at: Time, reason: string, fails: bool) returns (ok: bool)
      modifies this`record
      ensures ok == !fails
      ensures View() == old(View()).(record := if fails then old(record) else Halt(old(record), at, reason))
    {
      if fails {
        return false;
      }
      var current := record;
      record := StateFile(current.lastSuccess, Some(at), Some(reason), current.runCount + 1);
      ok := true;
    }

    /** The end of a cycle, in the order the orchestrator and the crash handler touch the files. */
    method EndCycle(e: CycleEnd)
      modifies this
      ensures View() == After(old(View()), e)
    {
      match e.ending
      case Applied =>
        if !e.dry {
          var ok := WriteSuccess(e.at, e.stateFails);
          if ok {
            Clear(e.flagFails);
          } else {
            Raise(STATE_FAILED, e.flagFails);
          }
        }
      case Halted(reason) =>
        Raise(reason, e.flagFails);
        if !e.dry {
          var ok := WriteHalt(e.at, reason, e.stateFails);
          if !ok {
            Raise(STATE_FAILED, e.secondFlagFails);
          }
        }
      case Crashed(reason) =>
        Raise(reason, e.flagFails);
    }
  }

  // ---- whole histories ----

  ghost predicate FilesWork(es: seq<CycleEnd>) {
    forall i :: 0 <= i < |es| ==> !es[i].flagFails && !es[i].stateFails && !es[i].secondFlagFails
  }

  /** A failure, or a live apply: the cycles that settle the flag. */
  predicate Settles(e: CycleEnd) {
    !e.ending.Applied? || !e.dry
  }

  /** The latest cycle that settles the flag was a failure; before any, the flag is as it was found. */
  function Alarmed(es: seq<CycleEnd>, flag: bool): bool {
    if es == [] then flag
    else if Settles(es[|es| - 1]) then !es[|es| - 1].ending.Applied?
    else Alarmed(es[..|es| - 1], flag)
  }

  /** A live cycle that ran to its end. */
  predicate Completes(e: CycleEnd) {
    !e.dry && !e.ending.Crashed?
  }

  function Completed(es: seq<CycleEnd>): nat {
    if es == [] then 0 else Completed(es[..|es| - 1]) + if Completes(es[|es| - 1]) then 1 else 0
  }

  /** The time of the latest live apply, and of the latest live halt. */
  function LatestSuccess(es: seq<CycleEnd>, t: Option<Time>): Option<Time> {
    if es == [] then t
    else
      var e := es[|es| - 1];
      if e.ending.Applied? && !e.dry then Some(e.at) else LatestSuccess(es[..|es| - 1], t)
  }

  function LatestHalt(es: seq<CycleEnd>, t: Option<Time>): Option<Time> {
    if es == [] then t
    else
      var e := es[|es| - 1];
      if e.ending.Halted? && !e.dry then Some(e.at) else LatestHalt(es[..|es| - 1], t)
  }

  /** With working files the board is exact: the flag, the run counter and both times say what happened. */
  lemma {:induction false} BoardIsExact(b: Board, es: seq<CycleEnd>)
    requires FilesWork(es)
    ensures var after := AfterAll(b, es);
      && after.flag == Alarmed(es, b.flag)
      && after.record.runCount == b.record.runCount + Completed(es)
      && after.record.lastSuccess == LatestSuccess(es, b.record.lastSuccess)
      && after.record.lastHalt == LatestHalt(es, b.record.lastHalt)
  {
    if es != [] {
      BoardIsExact(b, es[..|es| - 1]);
    }
  }

  /** A mail about the end of an alert is never the answer to another one. */
  ghost predicate Alternates(mails: seq<Mail>) {
    forall i :: 0 <= i < |mails| - 1 ==> !(mails[i].Resolved? && mails[i + 1].Resolved?)
  }

  /** While the flag is up, the last mail was an alert, if there was any. */
  ghost predicate FlagIsAnnounced(b: Board) {
    b.flag && b.mails != [] ==> b.mails[|b.mails| - 1].Alert?
  }

  lemma CycleKeepsAnnounced(b: Board, e: CycleEnd)
    requires Alternates(b.mails) && FlagIsAnnounced(b)
    ensures Alternates(After(b, e).mails) && FlagIsAnnounced(After(b, e))
  {
  }

  lemma {:induction false} MailsAlternate(b: Board, es: seq<CycleEnd>)
    requires b.mails == []
    ensures var after := AfterAll(b, es); Alternates(after.mails) && FlagIsAnnounced(after)
  {
    if es != [] {
      MailsAlternate(b, es[..|es| - 1]);
      CycleKeepsAnnounced(AfterAll(b, es[..|es| - 1]), es[|es| - 1]);
    }
  }

  /** Whatever file operations fail, between two mails about the end of an alert there is an alert. */
  lemma AlertBetweenResolved(b: Board, es: seq<CycleEnd>, i: nat, j: nat)
    requires b.mails == [] && i < j < |AfterAll(b, es).mails|
    requires AfterAll(b, es).mails[i].Resolved? && AfterAll(b, es).mails[j].Resolved?
    ensures exists m :: i < m < j && AfterAll(b, es).mails[m].Alert?
  {
    MailsAlternate(b, es);
    var mails := AfterAll(b, es).mails;
    assert mails[i + 1].Alert?;
  }
}
