/**
 * The diagnostics log of the type checker (TypeErrors.kt): an append-only
 * list of messages with a source line and a severity. `Report` decides the
 * overall verdict of a check: it passes exactly when no entry is an ERROR,
 * so a run that produced only WARNINGs still passes.
 */
module Diagnostics {
  import opened Wrappers

  datatype Severity = WARNING | ERROR

  datatype TypeError = TypeError(msg: string, line: int, severity: Severity)

  /** The verdict `Report` computes: no entry of the log is an ERROR. */
  predicate NoErrors(log: seq<TypeError>)
  {
    forall i :: 0 <= i < |log| ==> log[i].severity != ERROR
  }

  /** Appending one entry fails the verdict exactly when that entry is an ERROR. */
  lemma AppendVerdict(log: seq<TypeError>, e: TypeError)
    ensures NoErrors(log + [e]) <==> NoErrors(log) && e.severity == WARNING
  {
    if NoErrors(log + [e]) {
      assert (log + [e])[|log|] == e;
      forall i | 0 <= i < |log| ensures log[i].severity != ERROR {
        assert (log + [e])[i] == log[i];
      }
    }
  }

  /** A log made of WARNINGs only passes, whatever it holds. */
  lemma WarningsOnlyPass(log: seq<TypeError>)
    requires forall e :: e in log ==> e.severity == WARNING
    ensures NoErrors(log)
  {
  }

  class TypeErrorLogger {
    /**
     * The number of lines of the standard library that is prepended to
     * every program before parsing; reported lines are shifted back by it.
     * The source computes it from the line count of StdLib.smol plus two.
     */
    const stdOffset: int

    /** The collected diagnostics, oldest first. */
    var errors: seq<TypeError>

    constructor (stdLibLineCount: nat)
      ensures stdOffset == stdLibLineCount + 2
      ensures errors == []
    {
      stdOffset := stdLibLineCount + 2;
      errors := [];
    }

    /**
     * Passes when no collected entry is an ERROR. `silent` only decided
     * whether the entries were printed; printing is not modelled, and the
     * verdict does not depend on it.
     */
    method Report(silent: bool) returns (ret: bool)
      ensures ret == NoErrors(errors)
    {
      ret := true;
      for i := 0 to |errors|
        invariant ret == NoErrors(errors[..i])
      {
        if errors[i].severity == ERROR {
          ret := false;
        }
        assert errors[..i + 1] == errors[..i] + [errors[i]];
        AppendVerdict(errors[..i], errors[i]);
      }
      assert errors[..|errors|] == errors;
    }

    /**
     * Appends one entry. `startLine` is the start line of the parser
     * context the message is about, None when there is no context; the
     * severity is ERROR unless the caller says otherwise.
     */
    method Log(msg: string, startLine: Option<int>, severity: Severity := ERROR)
      modifies this
      ensures errors == old(errors) + [TypeError(msg, (if startLine.Some? then startLine.value else 0) - stdOffset, severity)]
    {
      var line := if startLine.Some? then startLine.value else 0;
      errors := errors + [TypeError(msg, line - stdOffset, severity)];
    }
  }
}
