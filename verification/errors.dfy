/**
 * The compiler's global error flag (`Errors`): every reporter prints a
 * message and raises the flag, `clear` lowers it and `wasThereAnError`
 * reads it. The printed messages are not modelled; the report kinds are.
 */
module Errors {

  /** One of the error reporters of `Errors`. */
  datatype Report =
    | AccessedUndefinedVariable(name: string)
    | ModifiedUndefinedVariable(variable: string)
    | SyntaxError(position: int, code: string)
    | InvalidUseOfElseIfStatement(line: int)
    | InvalidUseOfElseStatement(elseLine: int)
    | UseOfElseIfAfterElse(elseIfLine: int)

  /** The static state of `Errors`: the flag and, for the proofs, the reports raised since the last clear. */
  datatype ErrorState = ErrorState(flag: bool, reports: seq<Report>)

  /** State right after `Errors.clear()`. */
  function Cleared(): (e: ErrorState)
    ensures !WasThereAnError(e) && e.reports == []
  {
    ErrorState(false, [])
  }

  predicate WasThereAnError(e: ErrorState)
  {
    e.flag
  }

  /** `e'` still holds every report of `e`, and its flag if it was raised. */
  predicate Keeps(e: ErrorState, e': ErrorState)
  {
    e.reports <= e'.reports && (WasThereAnError(e) ==> WasThereAnError(e'))
  }

  lemma KeepsTransitive(a: ErrorState, b: ErrorState, c: ErrorState)
    requires Keeps(a, b) && Keeps(b, c)
    ensures Keeps(a, c)
  {
  }

  /** Any reporter: raises the flag and remembers the report. */
  function Raise(e: ErrorState, r: Report): (e': ErrorState)
    ensures WasThereAnError(e')
    ensures e'.reports == e.reports + [r]
  {
    ErrorState(true, e.reports + [r])
  }

  /** What the rest of the compiler can do to the flag. */
  datatype Event = Clear | Emit(r: Report) | Query

  function Apply(e: ErrorState, ev: Event): ErrorState
  {
    match ev
    case Clear => Cleared()
    case Emit(r) => Raise(e, r)
    case Query => e
  }

  function Run(e: ErrorState, evs: seq<Event>): ErrorState
    decreases |evs|
  {
    if evs == [] then e else Run(Apply(e, evs[0]), evs[1..])
  }

  /** A state whose flag is raised exactly when a report has been recorded. */
  predicate Consistent(e: ErrorState)
  {
    e.flag <==> e.reports != []
  }

  /** The flag is raised exactly when a report was recorded since the last clear. */
  lemma {:induction false} RunKeepsConsistency(e: ErrorState, evs: seq<Event>)
    requires Consistent(e)
    ensures Consistent(Run(e, evs))
    decreases |evs|
  {
    if evs != [] {
      RunKeepsConsistency(Apply(e, evs[0]), evs[1..]);
    }
  }

  /** Without a `clear`, a raised flag stays raised. */
  lemma {:induction false} FlagIsSticky(e: ErrorState, evs: seq<Event>)
    requires WasThereAnError(e)
    requires forall i :: 0 <= i < |evs| ==> !evs[i].Clear?
    ensures WasThereAnError(Run(e, evs))
    ensures e.reports <= Run(e, evs).reports
    decreases |evs|
  {
    if evs != [] {
      FlagIsSticky(Apply(e, evs[0]), evs[1..]);
    }
  }

  /** After a `clear`, the flag is raised exactly when some event after it is a report. */
  lemma FlagAfterClear(evs: seq<Event>)
    requires forall i :: 0 <= i < |evs| ==> !evs[i].Clear?
    ensures WasThereAnError(Run(Cleared(), evs)) <==> exists i :: 0 <= i < |evs| && evs[i].Emit?
  {
    FlagAfterClearFrom(Cleared(), evs);
  }

  lemma {:induction false} FlagAfterClearFrom(e: ErrorState, evs: seq<Event>)
    requires forall i :: 0 <= i < |evs| ==> !evs[i].Clear?
    ensures WasThereAnError(Run(e, evs)) <==> (WasThereAnError(e) || exists i :: 0 <= i < |evs| && evs[i].Emit?)
    decreases |evs|
  {
    if evs != [] {
      FlagAfterClearFrom(Apply(e, evs[0]), evs[1..]);
      if exists i :: 0 <= i < |evs[1..]| && evs[1..][i].Emit? {
        var i :| 0 <= i < |evs[1..]| && evs[1..][i].Emit?;
        assert evs[i + 1].Emit?;
      }
      if exists i :: 0 <= i < |evs| && evs[i].Emit? {
        var i :| 0 <= i < |evs| && evs[i].Emit?;
        if i > 0 {
          assert evs[1..][i - 1].Emit?;
        }
      }
    }
  }
}
