/** Patches as they are written: what each kind of hunk line contributes, and that a printed change applies as it reads. */
module PatchPrint {
  import opened Prelude
  import opened PatchTypes
  import opened PatchMatcher
  import opened PatchApply

  /** The lines of a text, each behind one prefix character. */
  function Lined(prefix: char, text: Lines): Lines {
    if text == [] then [] else Lined(prefix, text[..|text| - 1]) + [[prefix] + text[|text| - 1]]
  }

  lemma LinedStep(prefix: char, text: Lines)
    requires text != []
    ensures Lined(prefix, text) == Lined(prefix, text[..|text| - 1]) + [[prefix] + text[|text| - 1]]
  {
  }

  /** A change: unchanged lines around removed and added ones. */
  datatype Change = Change(above: Lines, removed: Lines, added: Lines, below: Lines) {
    function Before(): Lines { above + removed + below }

    function After(): Lines { above + added + below }
  }

  /** The change written as the lines of one hunk. */
  function Print(c: Change): Lines {
    Lined(' ', c.above) + Lined('-', c.removed) + Lined('+', c.added) + Lined(' ', c.below)
  }

  // ---------------------------------------------------------------- one more line

  /** A line with a space in front, or an empty one, adds its body to both sides. */
  lemma ContextLine(start: int, lines: Lines, body: string, bare: bool, h: Hunk, longer: Hunk)
    requires ReducesTo(RawHunk(start, lines), h)
    requires ReducesTo(RawHunk(start, lines + [if bare && body == "" then "" else " " + body]), longer)
    ensures longer == h.(oldPat := h.oldPat + [body], newRep := h.newRep + [body])
  {
    var line := if bare && body == "" then "" else " " + body;
    PartsStep(lines, line);
    MarkedStep(lines, line, OldSide);
    MarkedStep(lines, line, NewSide);
    hide Marked;
  }

  /** A removed line adds to the pattern only, an added one to the replacement only. */
  lemma ChangedLine(start: int, lines: Lines, body: string, h: Hunk, shorter: Hunk, longer: Hunk)
    requires ReducesTo(RawHunk(start, lines), h)
    requires ReducesTo(RawHunk(start, lines + ["-" + body]), shorter)
    requires ReducesTo(RawHunk(start, lines + ["+" + body]), longer)
    ensures shorter == h.(oldPat := h.oldPat + [body])
    ensures longer == h.(newRep := h.newRep + [body])
  {
    PartsStep(lines, "-" + body);
    PartsStep(lines, "+" + body);
    forall wanted ensures Marked(lines + ["-" + body], wanted) <==> Marked(lines, wanted)
                  ensures Marked(lines + ["+" + body], wanted) <==> Marked(lines, wanted)
    {
      MarkedStep(lines, "-" + body, wanted);
      MarkedStep(lines, "+" + body, wanted);
    }
    hide Marked;
  }

  /** An end-of-file marker qualifies the line above it: a removed line the old side, an added one the new, an unchanged one both. */
  lemma MarkerLine(start: int, lines: Lines, body: string, marker: string, prefix: char, h: Hunk, marked: Hunk)
    requires prefix in "-+ " && marker != "" && marker[0] == '\\'
    requires ReducesTo(RawHunk(start, lines + [[prefix] + body]), h)
    requires ReducesTo(RawHunk(start, lines + [[prefix] + body] + [marker]), marked)
    ensures marked == h.(oldNoEol := h.oldNoEol || prefix != '+', newNoEol := h.newNoEol || prefix != '-')
  {
    var one := lines + [[prefix] + body];
    PartsStep(lines, [prefix] + body);
    PartsStep(one, marker);
    MarkedStep(one, marker, OldSide);
    MarkedStep(one, marker, NewSide);
    hide Marked;
  }

  /** Markers before the first line qualify nothing. */
  lemma LeadingMarker(start: int, marker: string, h: Hunk)
    requires marker != "" && marker[0] == '\\' && ReducesTo(RawHunk(start, [marker]), h)
    ensures h == Hunk([], [], false, false, start - 1)
  {
    NothingReduced();
    assert [] + [marker] == [marker];
    PartsStep([], marker);
    MarkedStep([], marker, OldSide);
    MarkedStep([], marker, NewSide);
    hide Marked;
  }

  // ---------------------------------------------------------------- a whole change

  lemma {:induction false} LinedParts(front: Lines, prefix: char, text: Lines)
    requires prefix in "-+ "
    ensures Bodies(front + Lined(prefix, text), OldSide) == Bodies(front, OldSide) + if prefix != '+' then text else []
    ensures Bodies(front + Lined(prefix, text), NewSide) == Bodies(front, NewSide) + if prefix != '-' then text else []
    ensures forall wanted :: Marked(front + Lined(prefix, text), wanted) <==> Marked(front, wanted)
    ensures forall line :: line in Lined(prefix, text) ==> KnownPrefix(line)
    decreases |text|
  {
    if text == [] {
      assert front + Lined(prefix, []) == front;
    } else {
      hide *;
      var n := |text| - 1;
      var shorter, line := front + Lined(prefix, text[..n]), [prefix] + text[n];
      LinedParts(front, prefix, text[..n]);
      LinedStep(prefix, text);
      assert front + Lined(prefix, text) == shorter + [line];
      OneLined(shorter, prefix, text[n]);
      assert text == text[..n] + [text[n]];
    }
  }

  lemma OneLined(lines: Lines, prefix: char, body: string)
    requires prefix in "-+ "
    ensures Bodies(lines + [[prefix] + body], OldSide) == Bodies(lines, OldSide) + if prefix != '+' then [body] else []
    ensures Bodies(lines + [[prefix] + body], NewSide) == Bodies(lines, NewSide) + if prefix != '-' then [body] else []
    ensures forall wanted :: Marked(lines + [[prefix] + body], wanted) <==> Marked(lines, wanted)
    ensures KnownPrefix([prefix] + body)
  {
    var line := [prefix] + body;
    PartsStep(lines, line);
    forall wanted ensures Marked(lines + [line], wanted) <==> Marked(lines, wanted) { MarkedStep(lines, line, wanted); }
    hide Marked, Bodies;
  }

  /** A printed change reduces to its two texts, with no end-of-file marker. */
  lemma PrintReduces(start: int, c: Change)
    ensures WellFormed(RawHunk(start, Print(c)))
    ensures ReducesTo(RawHunk(start, Print(c)), Hunk(c.Before(), c.After(), false, false, start - 1))
  {
    hide Marked, Bodies, Lined, KnownPrefix;
    var a := Lined(' ', c.above);
    var b := a + Lined('-', c.removed);
    var d := b + Lined('+', c.added);
    NothingReduced();
    assert [] + a == a;
    LinedParts([], ' ', c.above);
    LinedParts(a, '-', c.removed);
    LinedParts(b, '+', c.added);
    LinedParts(d, ' ', c.below);
    assert Print(c) == d + Lined(' ', c.below);
    assert [] + c.above == c.above;
  }

  /** Printing and reducing give the change's texts back. */
  method ReducePrinted(start: int, c: Change) returns (hunk: Option<Hunk>)
    ensures hunk == Some(Hunk(c.above + c.removed + c.below, c.above + c.added + c.below, false, false, start - 1))
  {
    PrintReduces(start, c);
    hunk := ReduceHunk(RawHunk(start, Print(c)));
  }

  // ---------------------------------------------------------------- it applies as it reads

  /** The hunks a parsed payload of one hunk reduces to. */
  lemma OneHunk(raw: RawHunk, hunk: Hunk, hunks: seq<Hunk>)
    requires ReducesTo(raw, hunk) && AllReduceTo([raw], hunks)
    ensures hunks == [hunk]
  {
    assert ReducesTo([raw][0], hunks[0]);
    hide Marked, Bodies;
  }

  /** Where a single located hunk can be spliced, applying it is that splice. */
  lemma LoneHunk(lines: Lines, hunk: Hunk, at: nat, maxWork: nat, trace: seq<Lines>, result: ApplyResult)
    requires Located(lines, hunk, 0, at) && SpliceAt(lines, hunk, at).Some? && ScanCost(lines, hunk.oldPat) <= maxWork
    requires Explains(lines, [hunk], maxWork, trace, result)
    ensures result == Applied(FromLines(SpliceAt(lines, hunk, at).value), 1, ScanCost(lines, hunk.oldPat))
  {
    var after := SpliceAt(lines, hunk, at).value;
    var predicted := [lines, after];
    SpliceSteps(lines, hunk, 0, at);
    hide SpliceAt, Located, Steps, ScanCost, LineCount, FromLines;
    assert StepAt(lines, [hunk], predicted, 0);
    assert Charged(predicted, [hunk], 1) == Charged(predicted, [hunk], 0) + ScanCost(lines, hunk.oldPat);
    OutcomeUnique(lines, [hunk], maxWork, trace, predicted, result, Applied(FromLines(after), 1, ScanCost(lines, hunk.oldPat)));
  }

  lemma LonePayload(content: string, payload: string, raw: RawHunk, hunk: Hunk, at: nat, maxHunks: nat, maxWork: nat, result: ApplyResult)
    requires WellFormed(raw) && ReducesTo(raw, hunk) && maxHunks >= 1
    requires Located(ToLines(content), hunk, 0, at) && SpliceAt(ToLines(content), hunk, at).Some?
    requires ScanCost(ToLines(content), hunk.oldPat) <= maxWork
    requires PayloadOutcome(content, Some(payload), Some([raw]), maxHunks, maxWork, result)
    ensures result == Applied(FromLines(SpliceAt(ToLines(content), hunk, at).value), 1, ScanCost(ToLines(content), hunk.oldPat))
  {
    hide ToLines, FromLines, SpliceAt, ScanCost, Explains, ReducesTo, WellFormed, Located;
    assert forall r :: r in [raw] ==> WellFormed(r);
    var hunks :| AllReduceTo([raw], hunks) && Outcome(content, hunks, maxWork, result);
    OneHunk(raw, hunk, hunks);
    var trace :| Explains(ToLines(content), hunks, maxWork, trace, result);
    LoneHunk(ToLines(content), hunk, at, maxWork, trace, result);
  }

  ghost predicate IsText(lines: Lines) {
    |lines| > 0 && forall line :: line in lines ==> '\n' !in line
  }

  /**
   * A payload of one printed change, whose old text occurs once in the content, replaces that text
   * by the new one and leaves everything around it.
   */
  lemma PrintedChangeApplies(head: Lines, c: Change, tail: Lines, start: int, payload: string, maxHunks: nat, maxWork: nat, result: ApplyResult)
    requires IsText(head + c.Before() + tail) && c.Before() != []
    requires OccursOnlyAt(head + c.Before() + tail, c.Before(), |head|)
    requires maxHunks >= 1 && ScanCost(head + c.Before() + tail, c.Before()) <= maxWork
    requires PayloadOutcome(FromLines(head + c.Before() + tail), Some(payload), Some([RawHunk(start, Print(c))]), maxHunks, maxWork, result)
    ensures result.Applied? && result.content == FromLines(head + c.After() + tail)
  {
    var lines, hunk := head + c.Before() + tail, Hunk(c.Before(), c.After(), false, false, start - 1);
    ToFromLines(lines);
    PrintReduces(start, c);
    assert lines[..|head|] == head && lines[|head| + |c.Before()|..] == tail;
    hide ToLines, FromLines, ReducesTo, WellFormed, Print, ScanCost, OccursOnlyAt;
    LonePayload(FromLines(lines), payload, RawHunk(start, Print(c)), hunk, |head|, maxHunks, maxWork, result);
  }

  lemma BareChange(removed: Lines, added: Lines)
    ensures var c := Change([], removed, added, []);
            Print(c) == Lined('-', removed) + Lined('+', added) && c.Before() == removed && c.After() == added
  {
    assert Lined(' ', []) == [];
    hide Lined;
    assert [] + Lined('-', removed) + Lined('+', added) + [] == Lined('-', removed) + Lined('+', added);
  }

  /** The plainest case: a hunk that removes `old` and adds `new` takes the one text to the other. */
  lemma OldBecomesNew(old_: Lines, new_: Lines, start: int, payload: string, maxHunks: nat, maxWork: nat, result: ApplyResult)
    requires IsText(old_) && maxHunks >= 1 && ScanCost(old_, old_) <= maxWork
    requires PayloadOutcome(FromLines(old_), Some(payload), Some([RawHunk(start, Lined('-', old_) + Lined('+', new_))]), maxHunks, maxWork, result)
    ensures result.Applied? && result.content == FromLines(new_)
  {
    hide *;
    var raw, hunk := RawHunk(start, Lined('-', old_) + Lined('+', new_)), Hunk(old_, new_, false, false, start - 1);
    BareReduces(start, old_, new_);
    WholeSpliced(old_, new_, start);
    Rejoined(old_);
    LonePayload(FromLines(old_), payload, raw, hunk, 0, maxHunks, maxWork, result);
  }

  lemma Rejoined(lines: Lines)
    requires IsText(lines)
    ensures ToLines(FromLines(lines)) == lines
  {
    ToFromLines(lines);
  }

  lemma BareReduces(start: int, removed: Lines, added: Lines)
    ensures WellFormed(RawHunk(start, Lined('-', removed) + Lined('+', added)))
    ensures ReducesTo(RawHunk(start, Lined('-', removed) + Lined('+', added)), Hunk(removed, added, false, false, start - 1))
  {
    BareChange(removed, added);
    PrintReduces(start, Change([], removed, added, []));
    hide *;
  }

  /** A pattern that is the whole content occurs once, and splicing it leaves the replacement. */
  lemma WholeSpliced(old_: Lines, new_: Lines, start: int)
    requires IsText(old_)
    ensures var hunk := Hunk(old_, new_, false, false, start - 1);
            Located(old_, hunk, 0, 0) && SpliceAt(old_, hunk, 0) == Some(new_)
  {
    assert old_[0..|old_|] == old_;
    assert old_[..0] + new_ + old_[|old_|..] == new_;
  }

  lemma Inserted(lines: Lines, n: nat, added: Lines)
    requires n <= LineCount(lines)
    ensures var raw, hunk := RawHunk(n + 1, Lined('+', added)), Hunk([], added, false, false, n);
            && WellFormed(raw) && ReducesTo(raw, hunk) && ScanCost(lines, hunk.oldPat) == 0
            && Located(lines, hunk, 0, n) && SpliceAt(lines, hunk, n) == Some(lines[..n] + added + lines[n..])
  {
    BareReduces(n + 1, [], added);
    assert Lined('-', []) == [] && [] + Lined('+', added) == Lined('+', added);
    hide Lined, WellFormed, ReducesTo;
  }

  /** A hunk without a pattern, headed for the place after line `n`, puts its lines there. */
  lemma InsertionApplies(lines: Lines, n: nat, added: Lines, payload: string, maxHunks: nat, maxWork: nat, result: ApplyResult)
    requires IsText(lines) && n <= LineCount(lines) && maxHunks >= 1
    requires PayloadOutcome(FromLines(lines), Some(payload), Some([RawHunk(n + 1, Lined('+', added))]), maxHunks, maxWork, result)
    ensures result.Applied? && result.content == FromLines(lines[..n] + added + lines[n..])
  {
    var hunk := Hunk([], added, false, false, n);
    hide *;
    Inserted(lines, n, added);
    Rejoined(lines);
    LonePayload(FromLines(lines), payload, RawHunk(n + 1, Lined('+', added)), hunk, n, maxHunks, maxWork, result);
  }

  /** At the end of the file the markers decide the final newline: they say which side lacks it. */
  lemma MarkersSetFinalNewline(head: Lines, old_: Lines, new_: Lines, oldNoEol: bool, newNoEol: bool, trailing: bool)
    ensures var lines := head + old_ + if trailing then [""] else [];
            var after := SpliceAt(lines, Hunk(old_, new_, oldNoEol, newNoEol, 0), |head|);
            && (oldNoEol && !trailing ==> after == Some(head + new_ + if newNoEol then [] else [""]))
            && (oldNoEol && trailing ==> after == None)
            && (!oldNoEol && newNoEol ==> after == Some(head + new_))
            && (!oldNoEol && !newNoEol ==> after == Some(head + new_ + if trailing then [""] else []))
  {
    var lines := head + old_ + if trailing then [""] else [];
    assert lines[..|head|] == head && lines[|head| + |old_|..] == if trailing then [""] else [];
  }
}
