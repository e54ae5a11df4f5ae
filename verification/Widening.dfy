/** The context-widening search: it predicts the applier, and when full context is enough. */
module Widening {
  import opened Prelude
  import opened PatchTypes
  import opened PatchMatcher
  import opened PatchApply

  /** One trial of a payload: whether every pattern was unique in turn, the charge, the final lines. */
  datatype TrialRun = TrialRun(clear: bool, cost: nat, lines: Lines)

  /** Hunks without a pattern are passed over, and not spliced. */
  function Trial(lines: Lines, hunks: seq<Hunk>): TrialRun
    decreases |hunks|
  {
    if hunks == [] then TrialRun(true, 0, lines)
    else
      var hunk := hunks[0];
      if hunk.oldPat == [] then Trial(lines, hunks[1..])
      else
        var cost := ScanCost(lines, hunk.oldPat);
        var found := Matches(lines, hunk.oldPat);
        CountDecides(lines, hunk.oldPat);
        if |found| != 1 then TrialRun(false, cost, lines)
        else
          var spliced := SpliceAt(lines, hunk, found[0]);
          if spliced.None? then TrialRun(false, cost, lines)
          else
            var rest := Trial(spliced.value, hunks[1..]);
            rest.(cost := cost + rest.cost)
  }

  /** The charge of all trials from one context up to, but not including, another. */
  function Spent(lines: Lines, diff: nat -> seq<Hunk>, from: nat, below: nat): nat
    decreases below - from
  {
    if below <= from then 0 else Spent(lines, diff, from, below - 1) + Trial(lines, diff(below - 1)).cost
  }

  function FullContext(before: string, after: string): nat {
    var b, a := LineCount(ToLines(before)), LineCount(ToLines(after));
    if b > a then b else a
  }

  function Min(a: nat, b: nat): nat {
    if a < b then a else b
  }

  /** How one trial ends under a ceiling on the total charge. */
  method RunTrial(start: Lines, hunks: seq<Hunk>, workBefore: nat, ceilingWork: nat)
    returns (work: nat, cutOff: bool, ambiguous: bool)
    requires workBefore <= ceilingWork
    ensures cutOff <==> workBefore + Trial(start, hunks).cost > ceilingWork
    ensures !cutOff ==> work == workBefore + Trial(start, hunks).cost && (ambiguous <==> !Trial(start, hunks).clear)
  {
    work, cutOff, ambiguous := workBefore, false, false;
    var lines := start;
    hide SpliceAt, ScanCost, Matches;
    for i := 0 to |hunks|
      invariant work <= ceilingWork
      invariant Trial(start, hunks).cost == work - workBefore + Trial(lines, hunks[i..]).cost
      invariant Trial(start, hunks).clear == Trial(lines, hunks[i..]).clear
    {
      var hunk := hunks[i];
      assert hunks[i..][0] == hunk && hunks[i..][1..] == hunks[i + 1..];
      if |hunk.oldPat| == 0 { continue; }
      work := work + ScanCost(lines, hunk.oldPat);
      if work > ceilingWork { return work, true, false; }
      var found;
      ghost var compared;
      found, compared := Scan(lines, hunk.oldPat);
      CountDecides(lines, hunk.oldPat);
      if found.count != 1 { return work, false, true; }
      var spliced := SpliceAt(lines, hunk, found.first);
      if spliced.None? { return work, false, true; }
      lines := spliced.value;
    }
  }

  /** The search went past a context: its trial stayed within the ceiling and was not clear. */
  ghost predicate Passed(lines: Lines, diff: nat -> seq<Hunk>, first: nat, ceilingWork: nat, context: nat) {
    !Trial(lines, diff(context)).clear && Spent(lines, diff, first, context + 1) <= ceilingWork
  }

  ghost predicate Settled(lines: Lines, diff: nat -> seq<Hunk>, first: nat, ceilingWork: nat, context: nat) {
    Trial(lines, diff(context)).clear && Spent(lines, diff, first, context + 1) <= ceilingWork
  }

  lemma SpentStep(lines: Lines, diff: nat -> seq<Hunk>, first: nat, context: nat)
    requires first <= context
    ensures Spent(lines, diff, first, first) == 0
    ensures Spent(lines, diff, first, context + 1) == Spent(lines, diff, first, context) + Trial(lines, diff(context)).cost
  {
  }

  lemma Verdict(lines: Lines, diff: nat -> seq<Hunk>, first: nat, ceilingWork: nat, context: nat)
    ensures Settled(lines, diff, first, ceilingWork, context) <==>
            Trial(lines, diff(context)).clear && Spent(lines, diff, first, context + 1) <= ceilingWork
    ensures Passed(lines, diff, first, ceilingWork, context) <==>
            !Trial(lines, diff(context)).clear && Spent(lines, diff, first, context + 1) <= ceilingWork
  {
  }

  /** The context the search ends on, and why. */
  ghost predicate SearchEnds(lines: Lines, diff: nat -> seq<Hunk>, first: nat, full: nat, ceilingWork: nat,
                             context: nat, exhausted: bool) {
    && first <= context <= full
    && (forall c :: first <= c < context ==> Passed(lines, diff, first, ceilingWork, c))
    && (!exhausted <==> Settled(lines, diff, first, ceilingWork, context))
    && (exhausted && context < full ==> Spent(lines, diff, first, context + 1) > ceilingWork)
  }

  ghost predicate PassedAll(lines: Lines, diff: nat -> seq<Hunk>, first: nat, ceilingWork: nat, context: nat) {
    forall c :: first <= c < context ==> Passed(lines, diff, first, ceilingWork, c)
  }

  lemma NonePassed(lines: Lines, diff: nat -> seq<Hunk>, first: nat, ceilingWork: nat)
    ensures PassedAll(lines, diff, first, ceilingWork, first)
  {
  }

  lemma PassedOneMore(lines: Lines, diff: nat -> seq<Hunk>, first: nat, ceilingWork: nat, context: nat)
    requires PassedAll(lines, diff, first, ceilingWork, context) && Passed(lines, diff, first, ceilingWork, context)
    ensures PassedAll(lines, diff, first, ceilingWork, context + 1)
  {
  }

  lemma Ends(lines: Lines, diff: nat -> seq<Hunk>, first: nat, full: nat, ceilingWork: nat, context: nat)
    requires first <= context <= full && PassedAll(lines, diff, first, ceilingWork, context)
    ensures Settled(lines, diff, first, ceilingWork, context) ==>
              SearchEnds(lines, diff, first, full, ceilingWork, context, false)
    ensures !Settled(lines, diff, first, ceilingWork, context)
              && (context == full || Spent(lines, diff, first, context + 1) > ceilingWork) ==>
              SearchEnds(lines, diff, first, full, ceilingWork, context, true)
  {
  }

  /** Widens by exactly one line of context until a trial is clear, the ceiling is passed, or the whole file is context. */
  method WidenContext(diff: nat -> seq<Hunk>, before: string, after: string, startContext: nat, ceilingWork: nat)
    returns (context: nat, hunks: seq<Hunk>, exhausted: bool)
    ensures hunks == diff(context)
    ensures SearchEnds(ToLines(before), diff, Min(startContext, FullContext(before, after)), FullContext(before, after),
                       ceilingWork, context, exhausted)
  {
    var lines := ToLines(before);
    var fullContext := FullContext(before, after);
    ghost var first := Min(startContext, fullContext);
    var work := 0;
    context := Min(startContext, fullContext);
    hide Trial, ToLines, FullContext, Spent, Passed, Settled, SearchEnds, PassedAll;
    NonePassed(lines, diff, first, ceilingWork);
    SpentStep(lines, diff, first, first);
    while true
      invariant first <= context <= fullContext
      invariant work == Spent(lines, diff, first, context) <= ceilingWork
      invariant PassedAll(lines, diff, first, ceilingWork, context)
      decreases fullContext - context
    {
      hunks := diff(context);
      SpentStep(lines, diff, first, context);
      Verdict(lines, diff, first, ceilingWork, context);
      Ends(lines, diff, first, fullContext, ceilingWork, context);
      var cutOff, ambiguous;
      work, cutOff, ambiguous := RunTrial(lines, hunks, work, ceilingWork);
      if cutOff { return context, hunks, true; }
      if !ambiguous { return context, hunks, false; }
      if context == fullContext { return context, hunks, true; }
      PassedOneMore(lines, diff, first, ceilingWork, context);
      context := context + 1;
    }
  }

  // ---------------------------------------------------------------- the trial predicts the applier

  ghost predicate AllPatterned(hunks: seq<Hunk>) {
    forall h :: h in hunks ==> h.oldPat != []
  }

  /** A pattern-free hunk that changes nothing wherever it lands. */
  ghost predicate Inert(hunk: Hunk) {
    hunk.oldPat == [] && hunk.newRep == [] && NoMarkers(hunk)
  }

  lemma InertSteps(lines: Lines, hunk: Hunk, shift: int)
    requires Inert(hunk)
    ensures Steps(lines, hunk, shift, Some(lines))
    ensures ScanCost(lines, hunk.oldPat) == 0
  {
    var at := InsertionPoint(lines, hunk, shift);
    assert lines == lines[..at] + [] + lines[at..];
    SpliceSteps(lines, hunk, shift, at);
  }

  /** The applier's trace continues a trace `done` through the rest of a clear trial. */
  lemma {:induction false} TrialTrace(start: Lines, hunks: seq<Hunk>, done: seq<Lines>) returns (trace: seq<Lines>)
    requires IsTrace(start, hunks, done)
    requires var rest := hunks[|done| - 1..];
             && (forall h :: h in rest ==> h.oldPat != [] || Inert(h))
             && Trial(done[|done| - 1], rest).clear
    ensures IsTrace(start, hunks, trace) && |trace| == |hunks| + 1
    ensures var rest := Trial(done[|done| - 1], hunks[|done| - 1..]);
            && trace[|hunks|] == rest.lines
            && Charged(trace, hunks, |hunks|) == Charged(done, hunks, |done| - 1) + rest.cost
    decreases |hunks| - |done|
  {
    hide Steps, SpliceAt, ScanCost, LineCount, IsTrace, Charged, Matches, Trial, StepAt;
    TraceBounds(start, hunks, done);
    var n := |done| - 1;
    var lines := done[n];
    if n == |hunks| {
      NoTrial(lines, hunks[n..]);
      trace := done;
    } else {
      var hunk := hunks[n];
      assert hunks[n..][0] == hunk && hunks[n..][1..] == hunks[n + 1..];
      var next := StepOfTrial(lines, hunks[n..], LineCount(lines) - LineCount(start));
      TraceExtends(start, hunks, done, next);
      ChargedStep(done, next, hunks);
      trace := TrialTrace(start, hunks, done + [next]);
    }
  }

  lemma TraceBounds(start: Lines, hunks: seq<Hunk>, trace: seq<Lines>)
    requires IsTrace(start, hunks, trace)
    ensures 0 < |trace| <= |hunks| + 1
  {
    hide StepAt;
  }

  lemma NoTrial(lines: Lines, rest: seq<Hunk>)
    requires rest == []
    ensures Trial(lines, rest) == TrialRun(true, 0, lines)
  {
  }

  lemma ChargedStep(done: seq<Lines>, next: Lines, hunks: seq<Hunk>)
    requires 0 < |done| <= |hunks|
    ensures Charged(done + [next], hunks, |done|) ==
            Charged(done, hunks, |done| - 1) + ScanCost(done[|done| - 1], hunks[|done| - 1].oldPat)
  {
    ChargedPrefix(done, next, hunks, |done|);
  }

  /** The first step of a clear trial is a step of the applier. */
  lemma StepOfTrial(lines: Lines, rest: seq<Hunk>, shift: int) returns (next: Lines)
    requires rest != [] && (rest[0].oldPat != [] || Inert(rest[0]))
    requires Trial(lines, rest).clear
    ensures Steps(lines, rest[0], shift, Some(next))
    ensures Trial(next, rest[1..]).clear && Trial(next, rest[1..]).lines == Trial(lines, rest).lines
    ensures Trial(lines, rest).cost == ScanCost(lines, rest[0].oldPat) + Trial(next, rest[1..]).cost
  {
    var hunk := rest[0];
    if hunk.oldPat == [] {
      next := lines;
      InertSteps(lines, hunk, shift);
    } else {
      CountDecides(lines, hunk.oldPat);
      var at := Matches(lines, hunk.oldPat)[0];
      next := SpliceAt(lines, hunk, at).value;
      SpliceSteps(lines, hunk, shift, at);
    }
  }

  /** A clear trial within the applier's ceiling is an application: nothing halts and the lines are the trial's. */
  lemma TrialPredicts(start: Lines, hunks: seq<Hunk>, maxWork: nat) returns (trace: seq<Lines>)
    requires forall h :: h in hunks ==> h.oldPat != [] || Inert(h)
    requires Trial(start, hunks).clear && Trial(start, hunks).cost <= maxWork
    ensures Explains(start, hunks, maxWork, trace,
                     Applied(FromLines(Trial(start, hunks).lines), |hunks|, Trial(start, hunks).cost))
  {
    assert hunks[0..] == hunks;
    trace := TrialTrace(start, hunks, [start]);
  }

  /** What the search settles on is what the applier does, whatever trace the applier takes. */
  lemma WideningPredictsApplier(diff: nat -> seq<Hunk>, before: string, from: nat, context: nat, ceilingWork: nat,
                                maxWork: nat, trace: seq<Lines>, result: ApplyResult)
    requires var lines := ToLines(before);
             Trial(lines, diff(context)).clear && from <= context && Spent(lines, diff, from, context + 1) <= ceilingWork
    requires ceilingWork <= maxWork && AllPatterned(diff(context))
    requires Explains(ToLines(before), diff(context), maxWork, trace, result)
    ensures var trial := Trial(ToLines(before), diff(context));
            result == Applied(FromLines(trial.lines), |diff(context)|, trial.cost)
  {
    var lines, hunks := ToLines(before), diff(context);
    assert Trial(lines, hunks).cost <= Spent(lines, diff, from, context + 1);
    var predicted := TrialPredicts(lines, hunks, maxWork);
    OutcomeUnique(lines, hunks, maxWork, trace, predicted, result,
                  Applied(FromLines(Trial(lines, hunks).lines), |hunks|, Trial(lines, hunks).cost));
  }

  /** The same through the payload: the hunks the search settled on, written out and parsed back, apply cleanly. */
  lemma WideningPredictsPayload(diff: nat -> seq<Hunk>, before: string, from: nat, context: nat, ceilingWork: nat,
                                payload: string, raws: seq<RawHunk>, maxHunks: nat, maxWork: nat, result: ApplyResult)
    requires from <= context && Settled(ToLines(before), diff, from, ceilingWork, context)
    requires ceilingWork <= maxWork && AllPatterned(diff(context))
    requires AllReduceTo(raws, diff(context)) && forall raw :: raw in raws ==> WellFormed(raw)
    requires |raws| <= maxHunks
    requires PayloadOutcome(before, Some(payload), Some(raws), maxHunks, maxWork, result)
    ensures var trial := Trial(ToLines(before), diff(context));
            result == if raws == [] then Noop(before, HeaderOnly)
                      else Applied(FromLines(trial.lines), |raws|, trial.cost)
  {
    if raws != [] {
      hide Explains, Trial, ToLines, FromLines, Bodies, Marked, Spent;
      var hunks :| AllReduceTo(raws, hunks) && Outcome(before, hunks, maxWork, result);
      var trace :| Explains(ToLines(before), hunks, maxWork, trace, result);
      assert hunks == diff(context);
      Verdict(ToLines(before), diff, from, ceilingWork, context);
      WideningPredictsApplier(diff, before, from, context, ceilingWork, maxWork, trace, result);
    }
  }

  // ---------------------------------------------------------------- exactly when the trial mirrors the applier

  /** How many elements a hunk adds wherever it takes effect, unless it drops the final newline. */
  function Growth(hunk: Hunk): int {
    |hunk.newRep| - |hunk.oldPat| + if hunk.oldNoEol && !hunk.newNoEol then 1 else 0
  }

  /** Only such a hunk adds one element more or less depending on where the content ends. */
  predicate DropsNewline(hunk: Hunk) {
    hunk.newNoEol && !hunk.oldNoEol
  }

  /** What the pattern-free hunks insert. */
  ghost function Inserted(hunks: seq<Hunk>): nat {
    if hunks == [] then 0
    else (if hunks[0].oldPat == [] then Growth(hunks[0]) else 0) + Inserted(hunks[1..])
  }

  ghost function Balance(hunks: seq<Hunk>): int {
    if hunks == [] then 0 else Growth(hunks[0]) + Balance(hunks[1..])
  }

  lemma {:induction false} TrialLength(lines: Lines, hunks: seq<Hunk>)
    requires Trial(lines, hunks).clear && forall h :: h in hunks ==> !DropsNewline(h)
    ensures |Trial(lines, hunks).lines| == |lines| + Balance(hunks) - Inserted(hunks)
    decreases |hunks|
  {
    if hunks != [] {
      var hunk := hunks[0];
      if hunk.oldPat == [] {
        TrialLength(lines, hunks[1..]);
      } else {
        CountDecides(lines, hunk.oldPat);
        assert hunk in hunks;
        TrialLength(SpliceAt(lines, hunk, Matches(lines, hunk.oldPat)[0]).value, hunks[1..]);
      }
    }
  }

  lemma {:induction false} TraceLength(start: Lines, hunks: seq<Hunk>, trace: seq<Lines>, n: nat)
    requires IsTrace(start, hunks, trace) && n < |trace| && forall h :: h in hunks ==> !DropsNewline(h)
    ensures |trace[n]| == |start| + Balance(hunks[..n])
  {
    if n > 0 {
      TraceLength(start, hunks, trace, n - 1);
      BalanceStep(hunks, n - 1);
      assert StepAt(start, hunks, trace, n - 1);
      StepLength(trace[n - 1], hunks[n - 1], LineCount(trace[n - 1]) - LineCount(start), trace[n]);
    }
  }

  lemma StepLength(lines: Lines, hunk: Hunk, shift: int, after: Lines)
    requires Steps(lines, hunk, shift, Some(after)) && !DropsNewline(hunk)
    ensures |after| == |lines| + Growth(hunk)
  {
  }

  lemma {:induction false} BalanceStep(hunks: seq<Hunk>, n: nat)
    requires n < |hunks|
    ensures Balance(hunks[..n + 1]) == Balance(hunks[..n]) + Growth(hunks[n])
  {
    if n > 0 {
      assert hunks[..n + 1][1..] == hunks[1..][..n] && hunks[..n][1..] == hunks[1..][..n - 1];
      BalanceStep(hunks[1..], n - 1);
    } else {
      assert hunks[..1][1..] == [];
    }
  }

  /** A pattern-free hunk that inserts nothing. */
  predicate Idle(hunk: Hunk) {
    hunk.oldPat == [] && Growth(hunk) == 0
  }

  lemma {:induction false} NothingInserted(hunks: seq<Hunk>)
    ensures Inserted(hunks) == 0 <==> forall h :: h in hunks ==> h.oldPat != [] || Idle(h)
  {
    if hunks != [] {
      NothingInserted(hunks[1..]);
      assert forall h :: h in hunks <==> h == hunks[0] || h in hunks[1..];
    }
  }

  /** An idle step leaves the content as it is, and a patterned one is the trial's own. */
  lemma StepMirrors(lines: Lines, rest: seq<Hunk>, shift: int, next: Lines)
    requires rest != [] && Trial(lines, rest).clear && (rest[0].oldPat != [] || Idle(rest[0])) && !DropsNewline(rest[0])
    requires Steps(lines, rest[0], shift, Some(next))
    ensures Trial(next, rest[1..]).clear && Trial(next, rest[1..]).lines == Trial(lines, rest).lines
  {
    var hunk := rest[0];
    var at: nat :| SplicesAt(lines, hunk, shift, at, Some(next));
    if hunk.oldPat == [] {
      assert next == lines[..at] + [] + lines[at..] == lines;
    } else {
      CountDecides(lines, hunk.oldPat);
    }
  }

  /** Where no pattern-free hunk inserts anything, a full run of the applier ends where the trial does. */
  lemma {:induction false} IdleMirrors(start: Lines, hunks: seq<Hunk>, trace: seq<Lines>, n: nat)
    requires IsTrace(start, hunks, trace) && |trace| == |hunks| + 1 && n <= |hunks|
    requires forall h :: h in hunks ==> !DropsNewline(h) && (h.oldPat != [] || Idle(h))
    requires Trial(trace[n], hunks[n..]).clear
    ensures trace[|hunks|] == Trial(trace[n], hunks[n..]).lines
    decreases |hunks| - n
  {
    hide Steps, Trial, LineCount, DropsNewline, Idle;
    if n < |hunks| {
      assert StepAt(start, hunks, trace, n);
      assert hunks[n..][0] == hunks[n] && hunks[n] in hunks && hunks[n..][1..] == hunks[n + 1..];
      StepMirrors(trace[n], hunks[n..], LineCount(trace[n]) - LineCount(start), trace[n + 1]);
      IdleMirrors(start, hunks, trace, n + 1);
    } else {
      NoTrial(trace[n], hunks[n..]);
    }
  }

  /**
   * A run of the applier that reaches the last hunk ends with the lines of the clear trial exactly
   * when no pattern-free hunk inserts anything, because the search skips such hunks without splicing
   * them. Hunks may carry end-of-file markers, except that none drops the final newline.
   */
  lemma TrialMirrorsIff(start: Lines, hunks: seq<Hunk>, trace: seq<Lines>)
    requires IsTrace(start, hunks, trace) && |trace| == |hunks| + 1 && Trial(start, hunks).clear
    requires forall h :: h in hunks ==> !DropsNewline(h)
    ensures trace[|hunks|] == Trial(start, hunks).lines <==> forall h :: h in hunks ==> h.oldPat != [] || Idle(h)
  {
    NothingInserted(hunks);
    if forall h :: h in hunks ==> h.oldPat != [] || Idle(h) {
      assert hunks[0..] == hunks;
      IdleMirrors(start, hunks, trace, 0);
    }
    if trace[|hunks|] == Trial(start, hunks).lines {
      TraceLength(start, hunks, trace, |hunks|);
      TrialLength(start, hunks);
      assert hunks[..|hunks|] == hunks;
    }
  }

  /** Without any marker such a run exists exactly when no pattern-free hunk inserts anything. */
  lemma MirrorExistsIff(start: Lines, hunks: seq<Hunk>)
    requires Trial(start, hunks).clear && forall h :: h in hunks ==> NoMarkers(h)
    ensures (exists trace :: IsTrace(start, hunks, trace) && |trace| == |hunks| + 1
                             && trace[|hunks|] == Trial(start, hunks).lines)
            <==> forall h :: h in hunks ==> h.oldPat != [] || Inert(h)
  {
    assert forall h :: h in hunks ==> !DropsNewline(h) && (Idle(h) <==> Inert(h));
    if forall h :: h in hunks ==> h.oldPat != [] || Inert(h) {
      assert hunks[0..] == hunks;
      var trace := TrialTrace(start, hunks, [start]);
    }
    if trace :| IsTrace(start, hunks, trace) && |trace| == |hunks| + 1 && trace[|hunks|] == Trial(start, hunks).lines {
      TrialMirrorsIff(start, hunks, trace);
    }
  }

  /**
   * A hunk that drops the final newline can swallow an inserted blank line: here the run inserts
   * one, the trial does not, and both end alike.
   */
  lemma DroppedNewlineHidesInsertion()
    ensures var insert, drop := Hunk([], [""], false, false, 1), Hunk(["a", ""], ["b"], false, true, 0);
            var start: Lines := ["a", ""];
            && IsTrace(start, [insert, drop], [start, ["a", "", ""], ["b"]]) && !Idle(insert)
            && Trial(start, [insert, drop]).clear && Trial(start, [insert, drop]).lines == ["b"]
  {
    var insert, drop := Hunk([], [""], false, false, 1), Hunk(["a", ""], ["b"], false, true, 0);
    var start: Lines := ["a", ""];
    var longer: Lines := ["a", "", ""];
    assert start[..1] + insert.newRep + start[1..] == longer;
    assert Located(start, insert, 0, 1);
    SpliceSteps(start, insert, 0, 1);
    OnlyAtTop(longer);
    OnlyAtTop(start);
    assert longer[..0] + drop.newRep == ["b"] && start[..0] + drop.newRep == ["b"];
    SpliceSteps(longer, drop, 1, 0);
    assert StepAt(start, [insert, drop], [start, longer, ["b"]], 0) && StepAt(start, [insert, drop], [start, longer, ["b"]], 1);
    LoneTrial(start, drop, 0);
    hide SpliceAt, Matches;
    assert [insert, drop][1..] == [drop];
  }

  lemma OnlyAtTop(lines: Lines)
    requires lines == ["a", ""] || lines == ["a", "", ""]
    ensures OccursOnlyAt(lines, ["a", ""], 0)
  {
    var pattern: Lines := ["a", ""];
    assert lines[0..0 + |pattern|] == pattern;
    forall j | OccursAt(lines, pattern, j) ensures j == 0 {
      assert lines[j..j + |pattern|][0] == lines[j];
    }
  }

  /** A single hunk whose pattern occurs once is clear when it can be spliced there. */
  lemma LoneTrial(lines: Lines, hunk: Hunk, at: nat)
    requires hunk.oldPat != [] && OccursOnlyAt(lines, hunk.oldPat, at)
    ensures SpliceAt(lines, hunk, at).Some? ==>
              Trial(lines, [hunk]).clear && Trial(lines, [hunk]).lines == SpliceAt(lines, hunk, at).value
  {
    CountDecides(lines, hunk.oldPat);
    assert [hunk][1..] == [];
  }

  // ---------------------------------------------------------------- full context

  /** The lines of a content, without the empty element that stands for a final newline. */
  function FileLines(lines: Lines): Lines {
    lines[..LineCount(lines)]
  }

  /**
   * A pattern of the whole file occurs once unless the file is nothing but newlines: then it also
   * occurs one line down, so full context does not end the search after all.
   */
  lemma WholeFileUniqueIff(content: string)
    requires content != ""
    ensures OccursOnlyAt(ToLines(content), FileLines(ToLines(content)), 0)
            <==> !OnlyNewlines(content)
  {
    var lines := ToLines(content);
    var file := FileLines(lines);
    BlankIffNewlines(content);
    LineCountMeans(content);
    if AllBlank(lines) {
      assert lines[|lines| - 1] in lines;
      assert OccursAt(lines, file, 1) by {
        forall i | 0 <= i < |file| ensures lines[1..1 + |file|][i] == file[i] {
          assert lines[i] in lines && lines[i + 1] in lines;
        }
      }
    } else {
      assert OccursAt(lines, file, 0);
      if OccursAt(lines, file, 1) {
        OneDownMeansBlank(lines, |lines|);
      }
      forall j | OccursAt(lines, file, j) ensures j == 0 {}
    }
  }

  lemma {:induction false} OneDownMeansBlank(lines: Lines, n: nat)
    requires |lines| > 0 && lines[|lines| - 1] == "" && OccursAt(lines, lines[..|lines| - 1], 1)
    requires n <= |lines|
    ensures forall i :: |lines| - n <= i < |lines| ==> lines[i] == ""
  {
    if n > 1 {
      OneDownMeansBlank(lines, n - 1);
      var i := |lines| - n;
      assert lines[1..1 + |lines| - 1][i] == lines[..|lines| - 1][i];
    }
  }

  ghost predicate AllBlank(lines: Lines) {
    forall line :: line in lines ==> line == ""
  }

  ghost predicate OnlyNewlines(content: string) {
    forall c :: c in content ==> c == '\n'
  }

  lemma {:induction false} BlankIffNewlines(content: string)
    ensures AllBlank(ToLines(content)) <==> OnlyNewlines(content)
  {
    if content != "" {
      BlankIffNewlines(content[1..]);
      var lines, rest := ToLines(content), ToLines(content[1..]);
      assert forall c :: c in content <==> c == content[0] || c in content[1..];
      if content[0] == '\n' {
        assert forall line :: line in lines <==> line == "" || line in rest;
        assert AllBlank(lines) <==> AllBlank(rest);
        assert OnlyNewlines(content) <==> OnlyNewlines(content[1..]);
      } else {
        assert lines[0] in lines && lines[0] != "" && content[0] in content;
      }
    }
  }

  lemma {:induction false} SpentGrows(lines: Lines, diff: nat -> seq<Hunk>, first: nat, m: nat, n: nat)
    requires m <= n
    ensures Spent(lines, diff, first, m) <= Spent(lines, diff, first, n)
    decreases n
  {
    if m < n { SpentGrows(lines, diff, first, m, n - 1); }
  }

  /** The one hunk of a full-context diff: its pattern is the whole file and it can be spliced there. */
  ghost predicate WholeFileHunk(before: string, hunk: Hunk) {
    && before != "" && hunk.oldPat == FileLines(ToLines(before)) && SpliceAt(ToLines(before), hunk, 0).Some?
  }

  lemma WholeFileTrial(before: string, hunk: Hunk)
    requires WholeFileHunk(before, hunk)
    ensures Trial(ToLines(before), [hunk]).clear <==> !OnlyNewlines(before)
  {
    var lines := ToLines(before);
    LineCountMeans(before);
    WholeFileUniqueIff(before);
    CountDecides(lines, hunk.oldPat);
    assert [hunk][1..] == [];
    assert OccursAt(lines, hunk.oldPat, 0);
    hide ToLines, OnlyNewlines;
  }

  /**
   * With a ceiling that covers every trial, the search is exhausted exactly when the file is nothing
   * but newlines and no smaller context was clear; the ceiling has no part in it.
   */
  lemma ExhaustedIff(diff: nat -> seq<Hunk>, before: string, first: nat, full: nat, ceilingWork: nat,
                     hunk: Hunk, context: nat, exhausted: bool)
    requires SearchEnds(ToLines(before), diff, first, full, ceilingWork, context, exhausted)
    requires diff(full) == [hunk] && WholeFileHunk(before, hunk)
    requires Spent(ToLines(before), diff, first, full + 1) <= ceilingWork
    ensures exhausted <==> OnlyNewlines(before) && forall c :: first <= c < full ==> !Trial(ToLines(before), diff(c)).clear
    ensures !OnlyNewlines(before) ==> !exhausted
    ensures first == full ==> (exhausted <==> OnlyNewlines(before))
    ensures exhausted ==> context == full
  {
    hide Trial, Spent, ToLines, OnlyNewlines, WholeFileHunk, Passed, Settled;
    var lines := ToLines(before);
    WholeFileTrial(before, hunk);
    SpentGrows(lines, diff, first, context + 1, full + 1);
    Verdict(lines, diff, first, ceilingWork, context);
    if exhausted {
      forall c | first <= c < full ensures !Trial(lines, diff(c)).clear {
        assert Passed(lines, diff, first, ceilingWork, c);
        Verdict(lines, diff, first, ceilingWork, c);
      }
    }
  }

  /**
   * A file of two newlines and a third line to append, searched from three lines of context: the
   * search is exhausted at full context although its ceiling was never reached.
   */
  lemma NewlinesExhaustTheSearch(diff: nat -> seq<Hunk>, ceilingWork: nat, context: nat, exhausted: bool)
    requires diff(3) == [Hunk(["", ""], ["", "", "x"], false, false, 0)] && ceilingWork >= 6
    requires SearchEnds(ToLines("\n\n"), diff, Min(3, FullContext("\n\n", "\n\nx\n")), FullContext("\n\n", "\n\nx\n"),
                        ceilingWork, context, exhausted)
    ensures exhausted && context == 3 && Spent(ToLines("\n\n"), diff, 3, context + 1) <= ceilingWork
  {
    hide Trial, ToLines, Spent, FullContext, SearchEnds;
    var hunk := Hunk(["", ""], ["", "", "x"], false, false, 0);
    TwoNewlines();
    SixCharged(hunk);
    SpentStep(ToLines("\n\n"), diff, 3, 3);
    ExhaustedIff(diff, "\n\n", 3, 3, ceilingWork, hunk, context, exhausted);
  }

  lemma TwoNewlines()
    ensures ToLines("\n\n") == ["", "", ""] && FullContext("\n\n", "\n\nx\n") == 3
    ensures WholeFileHunk("\n\n", Hunk(["", ""], ["", "", "x"], false, false, 0)) && OnlyNewlines("\n\n")
  {
    assert "\n\n"[1..] == "\n" && "\n"[1..] == "";
    assert ToLines("\n") == ["", ""] && ToLines("\n\n") == ["", "", ""];
    assert "x\n"[1..] == "\n" && "\nx\n"[1..] == "x\n" && "\n\nx\n"[1..] == "\nx\n";
    assert |ToLines("x\n")| == 2 && ToLines("x\n")[1] == "";
    assert |ToLines("\nx\n")| == 3 && ToLines("\nx\n")[2] == "";
    assert |ToLines("\n\nx\n")| == 4 && ToLines("\n\nx\n")[3] == "";
  }

  lemma SixCharged(hunk: Hunk)
    requires hunk.oldPat == ["", ""]
    ensures Trial(["", "", ""], [hunk]).cost <= 6
  {
    TrialCost(["", "", ""], hunk);
    var blank: Lines := [""];
    assert hunk.oldPat[1..] == blank && blank[1..] == [];
    assert Weight(blank) == 1 && Weight(hunk.oldPat) == 2;
  }

  lemma TrialCost(lines: Lines, hunk: Hunk)
    ensures Trial(lines, [hunk]).cost <= ScanCost(lines, hunk.oldPat)
  {
    CountDecides(lines, hunk.oldPat);
    assert [hunk][1..] == [];
  }
}
