/**
 * The compiler's fault values (stella/exc.py).
 *
 * A raised fault is a `Fault`: the exception class and its message. The
 * `StellaException` class is the raised object itself, whose debug
 * information is attached later, in place, by the code emitter.
 */
module Exc {
  import opened Wrappers

  /** The exception classes of the compiler, and the host's KeyError,
      which some table lookups of the compiler raise instead. */
  datatype FaultKind = StellaError | UnsupportedOpcode | TypingError | UnimplementedError | KeyError

  /** Whether a fault of this kind is a StellaException (the emitter annotates only those). */
  predicate IsStella(k: FaultKind) {
    k != KeyError
  }

  datatype Fault = Fault(kind: FaultKind, message: string)

  /** The message of Python's KeyError for a missing string key (or `None`). */
  function KeyMessage(key: Option<string>): string {
    match key
    case Some(k) => "'" + k + "'"
    case None => "None"
  }

  /** `StellaException.__str__`: the message, followed by " at <debuginfo>"
      when debug information has been attached. */
  function Render(message: string, debuginfo: Option<string>): (s: string)
    ensures |s| >= |message| && s[..|message|] == message
    ensures debuginfo.None? <==> |s| == |message|
    ensures debuginfo.Some? ==> s[|message|..] == " at " + debuginfo.value
  {
    match debuginfo
    case Some(d) => message + " at " + d
    case None => message
  }

  /** The rendering loses nothing: for a fixed message, the rendered text
      determines the attached debug information. */
  lemma RenderDeterminesDebugInfo(message: string, d1: Option<string>, d2: Option<string>)
    requires Render(message, d1) == Render(message, d2)
    ensures d1 == d2
  {
    if d1.Some? && d2.Some? {
      var s := Render(message, d1);
      assert " at " + d1.value == s[|message|..] == " at " + d2.value;
      assert d1.value == (" at " + d1.value)[4..];
      assert d2.value == (" at " + d2.value)[4..];
    }
  }

  class StellaException {
    const fault: Fault
    var debuginfo: Option<string>

    /** Raising a StellaException, TypingError or UnimplementedError with a
        message. An UnsupportedOpcode is only made by `Unsupported`. */
    constructor (fault: Fault)
      requires IsStella(fault.kind) && fault.kind != UnsupportedOpcode
      ensures this.fault == fault && debuginfo == None
    {
      this.fault := fault;
      debuginfo := None;
    }

    /** `UnsupportedOpcode(op, debuginfo)`: the message is the opcode's name
        and the debug information is attached at construction. */
    constructor Unsupported(opname: string, debuginfo: string)
      ensures fault == Fault(UnsupportedOpcode, opname)
      ensures this.debuginfo == Some(debuginfo)
    {
      fault := Fault(UnsupportedOpcode, opname);
      this.debuginfo := None;
      new;
      AddDebug(debuginfo);
    }

    /** `addDebug`: records the debug information, replacing any earlier one. */
    method AddDebug(d: string)
      modifies this
      ensures debuginfo == Some(d)
    {
      debuginfo := Some(d);
    }

    function Str(): (s: string)
      reads this
      ensures s == Render(fault.message, debuginfo)
    {
      Render(fault.message, debuginfo)
    }
  }
}
