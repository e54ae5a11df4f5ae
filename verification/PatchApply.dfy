/** Patch application: unique matches, sequenced splices, charged work. */
module PatchApply {
  import opened Prelude
  import opened PatchTypes
  import opened PatchMatcher

  // ---------------------------------------------------------------- what a run of hunks means

  /** Where a pattern-free hunk inserts: the header's position, carried by the shift and clamped. */
  function InsertionPoint(lines: Lines, hunk: Hunk, shift: int): (at: nat)
    ensures at <= LineCount(lines) <= |lines|
  {
    var wanted := hunk.insertAt + shift;
    if wanted < 0 then 0 else if wanted > LineCount(lines) then LineCount(lines) else wanted
  }

  ghost predicate Located(lines: Lines, hunk: Hunk, shift: int, at: nat) {
    && at + |hunk.oldPat| <= |lines|
    && if hunk.oldPat == [] then at == InsertionPoint(lines, hunk, shift) else OccursOnlyAt(lines, hunk.oldPat, at)
  }

  ghost predicate SplicesAt(lines: Lines, hunk: Hunk, shift: int, at: nat, after: Option<Lines>) {
    Located(lines, hunk, shift, at) && SpliceAt(lines, hunk, at) == after
  }

  ghost predicate Steps(lines: Lines, hunk: Hunk, shift: int, after: Option<Lines>) {
    exists at: nat :: SplicesAt(lines, hunk, shift, at, after)
  }

  /** The contents reached hunk by hunk. The shift is the net line-count change so far. */
  ghost predicate IsTrace(start: Lines, hunks: seq<Hunk>, trace: seq<Lines>) {
    && 0 < |trace| <= |hunks| + 1
    && trace[0] == start
    && forall i :: 0 <= i < |trace| - 1 ==> StepAt(start, hunks, trace, i)
  }

  /** The i-th hunk takes the i-th content to the next. */
  ghost predicate StepAt(start: Lines, hunks: seq<Hunk>, trace: seq<Lines>, i: nat)
    requires i < |trace| - 1 && i < |hunks|
  {
    Steps(trace[i], hunks[i], LineCount(trace[i]) - LineCount(start), Some(trace[i + 1]))
  }

  ghost function Charged(trace: seq<Lines>, hunks: seq<Hunk>, n: nat): nat
    requires n <= |trace| && n <= |hunks|
  {
    if n == 0 then 0 else Charged(trace, hunks, n - 1) + ScanCost(trace[n - 1], hunks[n - 1].oldPat)
  }

  ghost predicate FailsFor(lines: Lines, hunk: Hunk, shift: int, reason: HaltReason) {
    match reason
    case NoMatch => hunk.oldPat != [] && forall j :: !OccursAt(lines, hunk.oldPat, j)
    case AmbiguousMatch =>
      hunk.oldPat != [] && exists i, j :: i != j && OccursAt(lines, hunk.oldPat, i) && OccursAt(lines, hunk.oldPat, j)
    case EofMismatch => Steps(lines, hunk, shift, None)
    case MalformedPayload => false
  }

  /** The trace accounts for the outcome: every hunk before the last content of it took effect. */
  ghost predicate Explains(start: Lines, hunks: seq<Hunk>, maxWork: nat, trace: seq<Lines>, result: ApplyResult) {
    && IsTrace(start, hunks, trace)
    && var n := |trace| - 1;
       && Charged(trace, hunks, n) <= maxWork
       && match result {
            case Applied(content, applied, work) =>
              n == |hunks| == applied && content == FromLines(trace[n]) && work == Charged(trace, hunks, n)
            case Limit(limit, observed, ceiling) =>
              && n < |hunks| && limit == WorkLimit
              && observed == Charged(trace, hunks, n + 1) > maxWork == ceiling
            case Halt(reason, index) =>
              && n < |hunks| && index == Some(n)
              && Charged(trace, hunks, n + 1) <= maxWork
              && FailsFor(trace[n], hunks[n], LineCount(trace[n]) - LineCount(start), reason)
            case Noop(_, _) => false
          }
  }

  /** The outcome of applying the hunks to the content: the one some trace accounts for. */
  ghost predicate Outcome(content: string, hunks: seq<Hunk>, maxWork: nat, result: ApplyResult) {
    exists trace :: Explains(ToLines(content), hunks, maxWork, trace, result)
  }

  // ---------------------------------------------------------------- at most one outcome

  lemma StepsUnique(lines: Lines, hunk: Hunk, shift: int, a: Option<Lines>, b: Option<Lines>)
    requires Steps(lines, hunk, shift, a) && Steps(lines, hunk, shift, b)
    ensures a == b
  {
  }

  lemma FailureUnique(lines: Lines, hunk: Hunk, shift: int, r: HaltReason, q: HaltReason)
    requires FailsFor(lines, hunk, shift, r) && FailsFor(lines, hunk, shift, q)
    ensures r == q
  {
  }

  lemma FailureStops(lines: Lines, hunk: Hunk, shift: int, r: HaltReason, after: Lines)
    requires FailsFor(lines, hunk, shift, r)
    ensures !Steps(lines, hunk, shift, Some(after))
  {
    if r == EofMismatch {
      var at: nat :| SplicesAt(lines, hunk, shift, at, None);
      forall other: nat | Located(lines, hunk, shift, other) ensures other == at {}
    }
    forall at: nat ensures !SplicesAt(lines, hunk, shift, at, Some(after)) {}
  }

  lemma {:induction false} TracesAgree(start: Lines, hunks: seq<Hunk>, s: seq<Lines>, t: seq<Lines>, n: nat)
    requires IsTrace(start, hunks, s) && IsTrace(start, hunks, t)
    requires n < |s| && n < |t|
    ensures s[n] == t[n]
    ensures Charged(s, hunks, n) == Charged(t, hunks, n)
    ensures n < |hunks| ==> Charged(s, hunks, n + 1) == Charged(t, hunks, n + 1)
  {
    if n > 0 {
      TracesAgree(start, hunks, s, t, n - 1);
      assert StepAt(start, hunks, s, n - 1) && StepAt(start, hunks, t, n - 1);
      StepsUnique(s[n - 1], hunks[n - 1], LineCount(s[n - 1]) - LineCount(start), Some(s[n]), Some(t[n]));
    }
  }

  lemma {:induction false} ChargedMonotone(trace: seq<Lines>, hunks: seq<Hunk>, m: nat, n: nat)
    requires m <= n <= |trace| && n <= |hunks|
    ensures Charged(trace, hunks, m) <= Charged(trace, hunks, n)
  {
    if m < n { ChargedMonotone(trace, hunks, m, n - 1); }
  }

  /** The last content of the trace has no successor within the ceiling. */
  lemma StopsThere(start: Lines, hunks: seq<Hunk>, maxWork: nat, trace: seq<Lines>, result: ApplyResult, after: Lines)
    requires Explains(start, hunks, maxWork, trace, result) && |trace| <= |hunks|
    ensures var n := |trace| - 1;
            || Charged(trace, hunks, n + 1) > maxWork
            || !Steps(trace[n], hunks[n], LineCount(trace[n]) - LineCount(start), Some(after))
  {
    var n := |trace| - 1;
    if result.Halt? {
      FailureStops(trace[n], hunks[n], LineCount(trace[n]) - LineCount(start), result.reason, after);
    }
  }

  lemma NoLongerTrace(start: Lines, hunks: seq<Hunk>, maxWork: nat, s: seq<Lines>, t: seq<Lines>,
                      p: ApplyResult, q: ApplyResult)
    requires Explains(start, hunks, maxWork, s, p) && Explains(start, hunks, maxWork, t, q)
    ensures |t| <= |s|
  {
    if |s| < |t| {
      hide FailsFor, Steps, Charged;
      var n := |s| - 1;
      ChargedMonotone(t, hunks, n + 1, |t| - 1);
      StopsThere(start, hunks, maxWork, s, p, t[n + 1]);
      assert StepAt(start, hunks, t, n);
      TracesAgree(start, hunks, s, t, n);
    }
  }

  /** Content, hunks and ceiling leave room for one outcome only. */
  lemma OutcomeUnique(start: Lines, hunks: seq<Hunk>, maxWork: nat, s: seq<Lines>, t: seq<Lines>,
                      p: ApplyResult, q: ApplyResult)
    requires Explains(start, hunks, maxWork, s, p) && Explains(start, hunks, maxWork, t, q)
    ensures s == t && p == q
  {
    NoLongerTrace(start, hunks, maxWork, s, t, p, q);
    NoLongerTrace(start, hunks, maxWork, t, s, q, p);
    forall n | 0 <= n < |s| ensures s[n] == t[n] {
      TracesAgree(start, hunks, s, t, n);
    }
    var n := |s| - 1;
    TracesAgree(start, hunks, s, t, n);
    if p.Halt? && q.Halt? {
      FailureUnique(s[n], hunks[n], LineCount(s[n]) - LineCount(start), p.reason, q.reason);
    }
  }

  // ---------------------------------------------------------------- the applier

  lemma TraceExtends(start: Lines, hunks: seq<Hunk>, trace: seq<Lines>, next: Lines)
    requires IsTrace(start, hunks, trace) && |trace| <= |hunks|
    requires Steps(trace[|trace| - 1], hunks[|trace| - 1], LineCount(trace[|trace| - 1]) - LineCount(start), Some(next))
    ensures IsTrace(start, hunks, trace + [next])
    ensures Charged(trace + [next], hunks, |trace|) == Charged(trace, hunks, |trace|)
  {
    forall i: nat | i < |trace| ensures StepAt(start, hunks, trace + [next], i) {
      StepKept(start, hunks, trace, next, i);
    }
    hide StepAt, Charged;
    ChargedPrefix(trace, next, hunks, |trace|);
  }

  lemma StepKept(start: Lines, hunks: seq<Hunk>, trace: seq<Lines>, next: Lines, i: nat)
    requires IsTrace(start, hunks, trace) && i < |trace| <= |hunks|
    requires Steps(trace[|trace| - 1], hunks[|trace| - 1], LineCount(trace[|trace| - 1]) - LineCount(start), Some(next))
    ensures StepAt(start, hunks, trace + [next], i)
  {
    hide Steps, LineCount;
    if i < |trace| - 1 { assert StepAt(start, hunks, trace, i); }
  }

  lemma {:induction false} ChargedPrefix(trace: seq<Lines>, next: Lines, hunks: seq<Hunk>, n: nat)
    requires n <= |trace| && n <= |hunks|
    ensures Charged(trace + [next], hunks, n) == Charged(trace, hunks, n)
  {
    if n > 0 { ChargedPrefix(trace, next, hunks, n - 1); }
  }

  /** Finds where a hunk applies; a failed search names its reason. */
  method Locate(lines: Lines, hunk: Hunk, shift: int)
    returns (at: Option<nat>, reason: HaltReason, ghost compared: nat)
    ensures at.Some? ==> Located(lines, hunk, shift, at.value)
    ensures at.None? ==> reason != EofMismatch && FailsFor(lines, hunk, shift, reason)
    ensures compared <= ScanCost(lines, hunk.oldPat)
  {
    reason, compared := NoMatch, 0;
    if |hunk.oldPat| == 0 {
      at := Some(InsertionPoint(lines, hunk, shift));
    } else {
      var found: Occurrences;
      found, compared := Scan(lines, hunk.oldPat);
      CountDecides(lines, hunk.oldPat);
      if found.count == 0 {
        at := None;
      } else if found.count > 1 {
        at, reason := None, AmbiguousMatch;
      } else {
        at := Some(found.first);
      }
    }
  }

  /** Applies the hunks in order, refusing a scan before running it once the ceiling would be passed. */
  method ApplyHunks(content: string, hunks: seq<Hunk>, maxWork: nat)
    returns (result: ApplyResult, ghost trace: seq<Lines>, ghost compared: nat)
    ensures Explains(ToLines(content), hunks, maxWork, trace, result)
    ensures Outcome(content, hunks, maxWork, result)
    ensures compared <= maxWork
    ensures result.Applied? ==> compared <= result.work
  {
    var work, shift := 0, 0;
    var lines := ToLines(content);
    ghost var start := lines;
    trace, compared := [lines], 0;
    hide Steps, SpliceAt, LineCount, ScanCost, ToLines, FromLines;
    for index := 0 to |hunks|
      invariant IsTrace(start, hunks, trace) && |trace| == index + 1 && trace[index] == lines
      invariant shift == LineCount(lines) - LineCount(start)
      invariant compared <= work == Charged(trace, hunks, index) <= maxWork
    {
      var hunk := hunks[index];
      var cost := ScanCost(lines, hunk.oldPat);
      if work + cost > maxWork {
        return Limit(WorkLimit, work + cost, maxWork), trace, compared;
      }
      work := work + cost;
      var at, reason;
      ghost var looked: nat;
      at, reason, looked := Locate(lines, hunk, shift);
      compared := compared + looked;
      if at.None? {
        return Halt(reason, Some(index)), trace, compared;
      }
      var spliced := SpliceAt(lines, hunk, at.value);
      SpliceSteps(lines, hunk, shift, at.value);
      if spliced.None? {
        return Halt(EofMismatch, Some(index)), trace, compared;
      }
      shift := shift + LineCount(spliced.value) - LineCount(lines);
      TraceExtends(start, hunks, trace, spliced.value);
      lines, trace := spliced.value, trace + [spliced.value];
    }
    result := Applied(FromLines(lines), |hunks|, work);
  }

  lemma SpliceSteps(lines: Lines, hunk: Hunk, shift: int, at: nat)
    requires Located(lines, hunk, shift, at)
    ensures Steps(lines, hunk, shift, SpliceAt(lines, hunk, at))
  {
    assert SplicesAt(lines, hunk, shift, at, SpliceAt(lines, hunk, at));
  }

  // ---------------------------------------------------------------- payloads

  ghost predicate WellFormed(raw: RawHunk) {
    forall line :: line in raw.lines ==> KnownPrefix(line)
  }

  ghost predicate ReducesTo(raw: RawHunk, hunk: Hunk) {
    && hunk.oldPat == Bodies(raw.lines, OldSide)
    && hunk.newRep == Bodies(raw.lines, NewSide)
    && (hunk.oldNoEol <==> Marked(raw.lines, OldSide))
    && (hunk.newNoEol <==> Marked(raw.lines, NewSide))
    && hunk.insertAt == raw.oldStart - 1
  }

  ghost predicate AllReduceTo(raws: seq<RawHunk>, hunks: seq<Hunk>) {
    |raws| == |hunks| && forall i :: 0 <= i < |raws| ==> ReducesTo(raws[i], hunks[i])
  }

  /** What applying a payload yields; `parsed` is None when the parser or the header check refuses it. */
  ghost predicate PayloadOutcome(content: string, payload: Option<string>, parsed: Option<seq<RawHunk>>,
                                 maxHunks: nat, maxWork: nat, result: ApplyResult) {
    if payload.None? then result == Noop(content, ProseOnly)
    else if parsed.None? || (exists raw :: raw in parsed.value && !WellFormed(raw)) then
      result == Halt(MalformedPayload, None)
    else if parsed.value == [] then result == Noop(content, HeaderOnly)
    else if |parsed.value| > maxHunks then result == Limit(HunkLimit, |parsed.value|, maxHunks)
    else exists hunks :: AllReduceTo(parsed.value, hunks) && Outcome(content, hunks, maxWork, result)
  }

  method ApplyPatchPayload(parse: string -> Option<seq<RawHunk>>, content: string, payload: Option<string>,
                           maxHunks: nat, maxWork: nat) returns (result: ApplyResult)
    ensures PayloadOutcome(content, payload, if payload.Some? then parse(payload.value) else None,
                           maxHunks, maxWork, result)
  {
    if payload.None? { return Noop(content, ProseOnly); }
    var parsed := parse(payload.value);
    if parsed.None? { return Halt(MalformedPayload, None); }
    hide Explains, Outcome, Bodies, Marked, KnownPrefix;
    var raws := parsed.value;
    var hunks: seq<Hunk> := [];
    for i := 0 to |raws|
      invariant AllReduceTo(raws[..i], hunks)
      invariant forall k :: 0 <= k < i ==> WellFormed(raws[k])
    {
      var hunk := ReduceHunk(raws[i]);
      if hunk.None? {
        assert raws[i] in raws && !WellFormed(raws[i]);
        return Halt(MalformedPayload, None);
      }
      hunks := hunks + [hunk.value];
    }
    assert raws[..|raws|] == raws;
    if |hunks| == 0 { return Noop(content, HeaderOnly); }
    if |hunks| > maxHunks { return Limit(HunkLimit, |hunks|, maxHunks); }
    ghost var trace, compared;
    result, trace, compared := ApplyHunks(content, hunks, maxWork);
    assert AllReduceTo(raws, hunks) && Outcome(content, hunks, maxWork, result);
  }

  // ---------------------------------------------------------------- laws

  /** The same hunks but for the line numbers of those that carry a pattern. */
  ghost predicate Renumbered(a: seq<Hunk>, b: seq<Hunk>) {
    && |a| == |b|
    && forall i :: 0 <= i < |a| ==> a[i] == if a[i].oldPat == [] then b[i] else b[i].(insertAt := a[i].insertAt)
  }

  lemma {:induction false} ChargedRenumbered(trace: seq<Lines>, a: seq<Hunk>, b: seq<Hunk>, n: nat)
    requires Renumbered(a, b) && n <= |trace| && n <= |a|
    ensures Charged(trace, a, n) == Charged(trace, b, n)
  {
    if n > 0 { ChargedRenumbered(trace, a, b, n - 1); }
  }

  lemma StepsRenumbered(lines: Lines, a: Hunk, b: Hunk, shift: int, after: Option<Lines>)
    requires a == if a.oldPat == [] then b else b.(insertAt := a.insertAt)
    requires Steps(lines, a, shift, after)
    ensures Steps(lines, b, shift, after)
  {
    var at: nat :| SplicesAt(lines, a, shift, at, after);
    assert SplicesAt(lines, b, shift, at, after);
  }

  /** Header numbers decide nothing for a hunk that has a pattern. */
  lemma HeaderNumbersAreAdvisory(start: Lines, a: seq<Hunk>, b: seq<Hunk>, maxWork: nat, trace: seq<Lines>, result: ApplyResult)
    requires Renumbered(a, b) && Explains(start, a, maxWork, trace, result)
    ensures Explains(start, b, maxWork, trace, result)
  {
    var n := |trace| - 1;
    forall i | 0 <= i < n ensures StepAt(start, b, trace, i) {
      assert StepAt(start, a, trace, i);
      StepsRenumbered(trace[i], a[i], b[i], LineCount(trace[i]) - LineCount(start), Some(trace[i + 1]));
    }
    ChargedRenumbered(trace, a, b, n);
    if n < |a| {
      ChargedRenumbered(trace, a, b, n + 1);
      if result.Halt? && result.reason == EofMismatch {
        StepsRenumbered(trace[n], a[n], b[n], LineCount(trace[n]) - LineCount(start), None);
      }
    }
  }

  /** Spliced at `at`, away from the end of the content and before line `p` of the original. */
  ghost predicate SplicedBefore(lines: Lines, hunk: Hunk, shift: int, after: Lines, p: nat, at: nat) {
    && SplicesAt(lines, hunk, shift, at, Some(after)) && NoMarkers(hunk)
    && at + |hunk.oldPat| < |lines|
    && at + |hunk.oldPat| <= p + shift
  }

  ghost predicate AllSplicedBefore(start: Lines, hunks: seq<Hunk>, trace: seq<Lines>, p: nat, ats: seq<nat>) {
    && |trace| == |ats| + 1 <= |hunks| + 1
    && forall i :: 0 <= i < |ats| ==>
         SplicedBefore(trace[i], hunks[i], LineCount(trace[i]) - LineCount(start), trace[i + 1], p, ats[i])
  }

  /** Carried by the shift, a header position still names the same place: what followed it follows it now. */
  lemma {:induction false} ShiftKeepsThePlace(start: Lines, hunks: seq<Hunk>, trace: seq<Lines>, p: nat, ats: seq<nat>)
    requires p <= |start| && |trace| > 0 && trace[0] == start
    requires AllSplicedBefore(start, hunks, trace, p, ats)
    ensures var last := trace[|ats|];
            var carried := p + LineCount(last) - LineCount(start);
            0 <= carried <= |last| && last[carried..] == start[p..]
  {
    if |ats| > 0 {
      var n := |ats| - 1;
      assert SplicedBefore(trace[n], hunks[n], LineCount(trace[n]) - LineCount(start), trace[n + 1], p, ats[n]);
      ShiftKeepsThePlace(start, hunks, trace[..n + 1], p, ats[..n]);
      var lines, hunk := trace[n], hunks[n];
      InnerSplice(lines, hunk, ats[n]);
      TailKept(lines, hunk, ats[n], p + LineCount(lines) - LineCount(start));
    }
  }

  lemma TailKept(lines: Lines, hunk: Hunk, at: nat, p: nat)
    requires NoMarkers(hunk) && at + |hunk.oldPat| <= p <= |lines|
    ensures var after := SpliceAt(lines, hunk, at).value;
            var moved := p + |hunk.newRep| - |hunk.oldPat|;
            0 <= moved <= |after| && after[moved..] == lines[p..]
  {
    var end := at + |hunk.oldPat|;
    var front := lines[..at] + hunk.newRep;
    var after := SpliceAt(lines, hunk, at).value;
    var moved := p + |hunk.newRep| - |hunk.oldPat|;
    assert after == front + lines[end..];
    assert moved == |front| + (p - end);
    assert after[moved..] == lines[end..][p - end..];
    assert lines[end..][p - end..] == lines[p..];
  }

  /**
   * A hunk without a pattern, headed for a place of the original content, is put there: whatever the
   * hunks before it did above, what followed the place in the original follows the inserted lines.
   */
  lemma InsertionKeepsThePlace(start: Lines, hunks: seq<Hunk>, trace: seq<Lines>, ats: seq<nat>, hunk: Hunk)
    requires 0 <= hunk.insertAt <= LineCount(start) && |trace| > 0 && trace[0] == start
    requires AllSplicedBefore(start, hunks, trace, hunk.insertAt, ats) && hunk.oldPat == [] && NoMarkers(hunk)
    ensures var last := trace[|ats|];
            var at := InsertionPoint(last, hunk, LineCount(last) - LineCount(start));
            SpliceAt(last, hunk, at) == Some(last[..at] + hunk.newRep + start[hunk.insertAt..])
  {
    ShiftKeepsThePlace(start, hunks, trace, hunk.insertAt, ats);
    hide AllSplicedBefore;
  }

  /** Past either end of the content it goes to that end, a final newline kept. */
  lemma InsertionStaysInside(lines: Lines, hunk: Hunk, shift: int)
    requires hunk.oldPat == [] && NoMarkers(hunk)
    ensures var at := InsertionPoint(lines, hunk, shift);
            && (hunk.insertAt + shift <= 0 ==> SpliceAt(lines, hunk, at) == Some(hunk.newRep + lines))
            && (hunk.insertAt + shift >= LineCount(lines) && lines != [] ==>
                  SpliceAt(lines, hunk, at) == Some(if lines[|lines| - 1] == "" then lines[..|lines| - 1] + hunk.newRep + [""]
                                                    else lines + hunk.newRep))
  {
    var at := InsertionPoint(lines, hunk, shift);
    assert [] + hunk.newRep + lines == hunk.newRep + lines;
    if lines != [] {
      var n := LineCount(lines);
      assert lines[n..] == if lines[|lines| - 1] == "" then [""] else [];
      assert lines[..n] == if lines[|lines| - 1] == "" then lines[..|lines| - 1] else lines;
      assert lines + hunk.newRep + [] == lines + hunk.newRep;
    }
  }
}
