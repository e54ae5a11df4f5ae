/** Lines, hunks and the matching primitives shared by the applier and the widening search. */
module PatchMatcher {
  import opened Prelude

  type Lines = seq<string>

  // ---------------------------------------------------------------- lines

  /** Splits at every newline; the final element is empty exactly when the content ends in one. */
  function ToLines(content: string): (lines: Lines)
    ensures |lines| > 0
    ensures forall line :: line in lines ==> '\n' !in line
  {
    if content == "" then [""]
    else
      var rest := ToLines(content[1..]);
      if content[0] == '\n' then [""] + rest else [[content[0]] + rest[0]] + rest[1..]
  }

  function FromLines(lines: Lines): string {
    if |lines| == 0 then ""
    else if |lines| == 1 then lines[0]
    else lines[0] + "\n" + FromLines(lines[1..])
  }

  function LineCount(lines: Lines): nat {
    if |lines| > 0 && lines[|lines| - 1] == "" then |lines| - 1 else |lines|
  }

  lemma {:induction false} FromToLines(content: string)
    ensures FromLines(ToLines(content)) == content
  {
    if content != "" {
      var rest := ToLines(content[1..]);
      FromToLines(content[1..]);
      if content[0] == '\n' {
        assert ToLines(content)[1..] == rest;
        assert FromLines(ToLines(content)) == "" + "\n" + content[1..];
      } else {
        var head := [content[0]] + rest[0];
        assert ToLines(content) == [head] + rest[1..];
        if |rest| > 1 {
          assert ([head] + rest[1..])[1..] == rest[1..];
          assert FromLines(ToLines(content)) == [content[0]] + (rest[0] + "\n" + FromLines(rest[1..]));
        }
        assert FromLines(ToLines(content)) == [content[0]] + FromLines(rest);
      }
      assert content == [content[0]] + content[1..];
    }
  }

  /** A line without newline in front of more content is the first line of the whole. */
  lemma {:induction false} SplitFirst(line: string, rest: string)
    requires '\n' !in line
    ensures ToLines(line) == [line]
    ensures ToLines(line + "\n" + rest) == [line] + ToLines(rest)
  {
    var whole := line + "\n" + rest;
    if line == "" {
      assert whole == ['\n'] + rest;
      assert whole[1..] == rest;
    } else {
      SplitFirst(line[1..], rest);
      assert whole[1..] == line[1..] + "\n" + rest;
      assert line == [line[0]] + line[1..];
      assert ([line[1..]] + ToLines(rest))[1..] == ToLines(rest);
    }
  }

  lemma {:induction false} ToFromLines(lines: Lines)
    requires |lines| > 0 && forall line :: line in lines ==> '\n' !in line
    ensures ToLines(FromLines(lines)) == lines
  {
    SplitFirst(lines[0], "");
    if |lines| > 1 {
      ToFromLines(lines[1..]);
      SplitFirst(lines[0], FromLines(lines[1..]));
      assert lines == [lines[0]] + lines[1..];
    }
  }

  function Newlines(content: string): nat {
    if content == "" then 0 else (if content[0] == '\n' then 1 else 0) + Newlines(content[1..])
  }

  /** The line count is the number of newline-terminated lines plus an unterminated last one. */
  lemma {:induction false} LineCountMeans(content: string)
    ensures |ToLines(content)| == Newlines(content) + 1
    ensures LineCount(ToLines(content)) ==
            Newlines(content) + if content != "" && content[|content| - 1] != '\n' then 1 else 0
  {
    if content != "" {
      LineCountMeans(content[1..]);
      var lines, rest := ToLines(content), ToLines(content[1..]);
      if |rest| > 1 {
        assert lines[|lines| - 1] == rest[|rest| - 1];
      }
      if |content| > 1 {
        assert content[1..][|content[1..]| - 1] == content[|content| - 1];
      }
    }
  }

  // ---------------------------------------------------------------- hunks

  /** Pattern, replacement, end-of-file flags, and the position a pattern-free hunk inserts at. */
  datatype Hunk = Hunk(oldPat: Lines, newRep: Lines, oldNoEol: bool, newNoEol: bool, insertAt: int)

  datatype RawHunk = RawHunk(oldStart: int, lines: Lines)

  datatype Side = NoSide | OldSide | NewSide | BothSides {
    predicate Covers(wanted: Side) { this != NoSide && (this == wanted || this == BothSides) }
  }

  predicate IsMarker(line: string) {
    line != "" && line[0] == '\\'
  }

  /** The side a hunk line contributes to; a marker and an unknown prefix contribute to none. */
  function SideOf(line: string): Side {
    if line == "" || line[0] == ' ' then BothSides
    else if line[0] == '-' then OldSide
    else if line[0] == '+' then NewSide
    else NoSide
  }

  predicate KnownPrefix(line: string) {
    IsMarker(line) || SideOf(line) != NoSide
  }

  function BodyOf(line: string): string {
    if line == "" then "" else line[1..]
  }

  function Bodies(lines: Lines, wanted: Side): Lines {
    if lines == [] then []
    else
      var last := lines[|lines| - 1];
      Bodies(lines[..|lines| - 1], wanted) + if SideOf(last).Covers(wanted) then [BodyOf(last)] else []
  }

  /** The side of the last line that is not a marker. */
  function LastSide(lines: Lines): Side {
    if lines == [] then NoSide
    else if IsMarker(lines[|lines| - 1]) then LastSide(lines[..|lines| - 1])
    else SideOf(lines[|lines| - 1])
  }

  /** Some marker qualifies a line of the wanted side. */
  ghost predicate Marked(lines: Lines, wanted: Side) {
    exists i :: 0 <= i < |lines| && IsMarker(lines[i]) && LastSide(lines[..i]).Covers(wanted)
  }

  lemma MarkedStep(lines: Lines, line: string, wanted: Side)
    ensures Marked(lines + [line], wanted) <==> Marked(lines, wanted) || (IsMarker(line) && LastSide(lines).Covers(wanted))
  {
    var longer := lines + [line];
    forall i | 0 <= i <= |lines| ensures longer[..i] == lines[..i] {}
    assert lines[..|lines|] == lines;
    if IsMarker(line) && LastSide(lines).Covers(wanted) {
      assert IsMarker(longer[|lines|]) && LastSide(longer[..|lines|]).Covers(wanted);
    }
    if i :| 0 <= i < |lines| && IsMarker(lines[i]) && LastSide(lines[..i]).Covers(wanted) {
      assert IsMarker(longer[i]) && LastSide(longer[..i]).Covers(wanted);
    }
  }

  lemma PartsStep(lines: Lines, line: string)
    ensures forall wanted :: Bodies(lines + [line], wanted) ==
                             Bodies(lines, wanted) + if SideOf(line).Covers(wanted) then [BodyOf(line)] else []
    ensures LastSide(lines + [line]) == if IsMarker(line) then LastSide(lines) else SideOf(line)
  {
    assert (lines + [line])[..|lines|] == lines;
  }

  lemma NothingReduced()
    ensures Bodies([], OldSide) == [] && Bodies([], NewSide) == [] && LastSide([]) == NoSide
    ensures !Marked([], OldSide) && !Marked([], NewSide)
  {
  }

  /** Reduces a raw hunk; a line with no recognised prefix makes the payload malformed. */
  method ReduceHunk(raw: RawHunk) returns (hunk: Option<Hunk>)
    ensures hunk.Some? <==> forall line :: line in raw.lines ==> KnownPrefix(line)
    ensures hunk.Some? ==>
              && hunk.value.oldPat == Bodies(raw.lines, OldSide)
              && hunk.value.newRep == Bodies(raw.lines, NewSide)
              && (hunk.value.oldNoEol <==> Marked(raw.lines, OldSide))
              && (hunk.value.newNoEol <==> Marked(raw.lines, NewSide))
              && hunk.value.insertAt == raw.oldStart - 1
  {
    var oldPat: Lines, newRep: Lines := [], [];
    var oldNoEol, newNoEol := false, false;
    var side := NoSide;
    hide Marked, Bodies, LastSide, BodyOf;
    NothingReduced();
    for i := 0 to |raw.lines|
      invariant forall k :: 0 <= k < i ==> KnownPrefix(raw.lines[k])
      invariant oldPat == Bodies(raw.lines[..i], OldSide) && newRep == Bodies(raw.lines[..i], NewSide)
      invariant oldNoEol <==> Marked(raw.lines[..i], OldSide)
      invariant newNoEol <==> Marked(raw.lines[..i], NewSide)
      invariant side == LastSide(raw.lines[..i])
    {
      var line := raw.lines[i];
      assert raw.lines[..i + 1] == raw.lines[..i] + [line];
      MarkedStep(raw.lines[..i], line, OldSide);
      MarkedStep(raw.lines[..i], line, NewSide);
      PartsStep(raw.lines[..i], line);
      if IsMarker(line) {
        if side.Covers(OldSide) { oldNoEol := true; }
        if side.Covers(NewSide) { newNoEol := true; }
        continue;
      }
      side := SideOf(line);
      match side {
        case BothSides => oldPat, newRep := oldPat + [BodyOf(line)], newRep + [BodyOf(line)];
        case OldSide => oldPat := oldPat + [BodyOf(line)];
        case NewSide => newRep := newRep + [BodyOf(line)];
        case NoSide =>
          assert line in raw.lines && !KnownPrefix(line);
          return None;
      }
    }
    assert raw.lines[..|raw.lines|] == raw.lines;
    return Some(Hunk(oldPat, newRep, oldNoEol, newNoEol, raw.oldStart - 1));
  }

  // ---------------------------------------------------------------- matching

  ghost predicate OccursAt(lines: Lines, pattern: Lines, i: int) {
    0 <= i && i + |pattern| <= |lines| && lines[i..i + |pattern|] == pattern
  }

  /** The positions, from `i` on, at which the pattern occurs, ascending. */
  function MatchesFrom(lines: Lines, pattern: Lines, i: nat): (positions: seq<nat>)
    ensures forall j :: j in positions ==> i <= j
    decreases |lines| - i
  {
    if i + |pattern| > |lines| then []
    else (if lines[i..i + |pattern|] == pattern then [i] else []) + MatchesFrom(lines, pattern, i + 1)
  }

  function Matches(lines: Lines, pattern: Lines): seq<nat> {
    MatchesFrom(lines, pattern, 0)
  }

  lemma {:induction false} MatchesFromAre(lines: Lines, pattern: Lines, i: nat)
    ensures forall j :: j in MatchesFrom(lines, pattern, i) <==> j >= i && OccursAt(lines, pattern, j)
    ensures Distinct(MatchesFrom(lines, pattern, i))
    decreases |lines| - i
  {
    if i + |pattern| <= |lines| {
      MatchesFromAre(lines, pattern, i + 1);
      forall j
        ensures j in MatchesFrom(lines, pattern, i) <==> j >= i && OccursAt(lines, pattern, j)
      {
        assert j in MatchesFrom(lines, pattern, i) <==>
               j in MatchesFrom(lines, pattern, i + 1) || (j == i && OccursAt(lines, pattern, i));
      }
      var rest := MatchesFrom(lines, pattern, i + 1);
      if MatchesFrom(lines, pattern, i) != rest {
        assert MatchesFrom(lines, pattern, i)[1..] == rest;
        assert i !in rest;
      }
    }
  }

  ghost predicate OccursOnlyAt(lines: Lines, pattern: Lines, at: nat) {
    && OccursAt(lines, pattern, at)
    && forall j :: OccursAt(lines, pattern, j) ==> j == at
  }

  /** The match count decides uniqueness: none, exactly one, or two different places. */
  lemma CountDecides(lines: Lines, pattern: Lines)
    ensures |Matches(lines, pattern)| == 0 <==> forall j :: !OccursAt(lines, pattern, j)
    ensures |Matches(lines, pattern)| == 1 <==> exists at: nat :: OccursOnlyAt(lines, pattern, at)
    ensures |Matches(lines, pattern)| == 1 ==> OccursOnlyAt(lines, pattern, Matches(lines, pattern)[0])
    ensures |Matches(lines, pattern)| > 1 <==>
            exists i, j :: i != j && OccursAt(lines, pattern, i) && OccursAt(lines, pattern, j)
  {
    var found := Matches(lines, pattern);
    MatchesFromAre(lines, pattern, 0);
    if |found| > 0 {
      assert found[0] in found;
      if |found| > 1 {
        assert found[1] in found && found[0] != found[1];
      } else {
        assert found == [found[0]];
        assert OccursOnlyAt(lines, pattern, found[0]);
      }
    }
  }

  // ---------------------------------------------------------------- the work charge

  function Weight(pattern: Lines): nat {
    if pattern == [] then 0 else |pattern[0]| + 1 + Weight(pattern[1..])
  }

  function ScanCost(lines: Lines, pattern: Lines): nat {
    |lines| * Weight(pattern)
  }

  /** Characters a left-to-right comparison of two strings looks at. */
  ghost function CharsCompared(a: string, b: string): (n: nat)
    ensures n <= |b|
  {
    if a == "" || b == "" then 0
    else 1 + if a[0] == b[0] then CharsCompared(a[1..], b[1..]) else 0
  }

  lemma {:induction false} WeightSplit(pattern: Lines, j: nat)
    requires j < |pattern|
    ensures Weight(pattern[..j + 1]) == Weight(pattern[..j]) + |pattern[j]| + 1
  {
    if j == 0 {
      assert pattern[..1] == [pattern[0]];
      assert pattern[..1][1..] == [];
    } else {
      assert pattern[..j + 1][1..] == pattern[1..][..j];
      assert pattern[..j][1..] == pattern[1..][..j - 1];
      WeightSplit(pattern[1..], j - 1);
    }
  }

  lemma {:induction false} WeightPrefix(pattern: Lines, j: nat)
    requires j <= |pattern|
    ensures Weight(pattern[..j]) <= Weight(pattern)
    decreases |pattern| - j
  {
    if j == |pattern| {
      assert pattern[..j] == pattern;
    } else {
      WeightPrefix(pattern, j + 1);
      WeightSplit(pattern, j);
    }
  }

  /** `first` and `second` are -1 when there is no such match. */
  datatype Occurrences = Occurrences(count: nat, first: int, second: int)

  ghost function OccurrencesOf(positions: seq<nat>): Occurrences {
    Occurrences(|positions|,
                if |positions| > 0 then positions[0] else -1,
                if |positions| > 1 then positions[1] else -1)
  }

  /** Compares the pattern at one position, line by line, stopping at the first difference. */
  method MatchesAt(lines: Lines, pattern: Lines, i: nat) returns (matches: bool, ghost compared: nat)
    requires i + |pattern| <= |lines|
    ensures matches <==> OccursAt(lines, pattern, i)
    ensures compared <= Weight(pattern)
  {
    compared := 0;
    for j := 0 to |pattern|
      invariant lines[i..i + j] == pattern[..j]
      invariant compared <= Weight(pattern[..j])
    {
      WeightSplit(pattern, j);
      WeightPrefix(pattern, j + 1);
      compared := compared + CharsCompared(lines[i + j], pattern[j]) + 1;
      if lines[i + j] != pattern[j] {
        assert lines[i..i + |pattern|][j] == lines[i + j];
        return false, compared;
      }
    }
    assert pattern[..|pattern|] == pattern;
    return true, compared;
  }

  /** The complete scan. What it compares never exceeds what is charged for it. */
  method Scan(lines: Lines, pattern: Lines) returns (found: Occurrences, ghost compared: nat)
    ensures found == OccurrencesOf(Matches(lines, pattern))
    ensures compared <= ScanCost(lines, pattern)
  {
    var count, first, second := 0, -1, -1;
    ghost var seen: seq<nat> := [];
    compared := 0;
    var k := |pattern|;
    var i := 0;
    while i + k <= |lines|
      invariant i <= |lines| + 1 && (k > 0 ==> i <= |lines|)
      invariant Matches(lines, pattern) == seen + MatchesFrom(lines, pattern, i)
      invariant Occurrences(count, first, second) == OccurrencesOf(seen)
      invariant compared <= i * Weight(pattern)
    {
      var matches: bool;
      ghost var cost: nat;
      matches, cost := MatchesAt(lines, pattern, i);
      compared := compared + cost;
      assert compared <= (i + 1) * Weight(pattern);
      if matches {
        count := count + 1;
        if first == -1 { first := i; } else if second == -1 { second := i; }
        assert Matches(lines, pattern) == (seen + [i]) + MatchesFrom(lines, pattern, i + 1);
        seen := seen + [i];
      }
      i := i + 1;
    }
    assert seen + [] == seen;
    found := Occurrences(count, first, second);
    WithinCharge(i, lines, pattern);
  }

  lemma WithinCharge(i: nat, lines: Lines, pattern: Lines)
    requires i <= |lines| || pattern == []
    ensures i * Weight(pattern) <= ScanCost(lines, pattern)
  {
    if i <= |lines| {
      assert (|lines| - i) * Weight(pattern) >= 0;
    }
  }

  // ---------------------------------------------------------------- splicing

  /** Replaces the pattern at `at`, reconciling the trailing-newline state; None on an EOF mismatch. */
  function SpliceAt(lines: Lines, hunk: Hunk, at: nat): Option<Lines>
    requires at + |hunk.oldPat| <= |lines|
  {
    var end := at + |hunk.oldPat|;
    var atEnd := end == |lines|;
    var head := lines[..at];
    if hunk.oldNoEol then
      if !atEnd then None else Some(head + hunk.newRep + if hunk.newNoEol then [] else [""])
    else if hunk.newNoEol then
      if atEnd || (end == |lines| - 1 && lines[end] == "") then Some(head + hunk.newRep) else None
    else
      Some(head + hunk.newRep + lines[end..])
  }

  predicate NoMarkers(hunk: Hunk) {
    !hunk.oldNoEol && !hunk.newNoEol
  }

  /** Away from the end of the content a splice moves the line count by the hunk's own balance. */
  lemma InnerSplice(lines: Lines, hunk: Hunk, at: nat)
    requires at + |hunk.oldPat| < |lines| && NoMarkers(hunk)
    ensures SpliceAt(lines, hunk, at).Some?
    ensures LineCount(SpliceAt(lines, hunk, at).value) == LineCount(lines) + |hunk.newRep| - |hunk.oldPat|
  {
  }

  /** A hunk that only adds or only drops the final newline moves no line number. */
  lemma NewlineOnlySplice(lines: Lines, hunk: Hunk, at: nat)
    requires at + |hunk.oldPat| <= |lines| && SpliceAt(lines, hunk, at).Some?
    requires |hunk.oldPat| == |hunk.newRep| > 0 && hunk.oldNoEol != hunk.newNoEol
    requires hunk.newRep[|hunk.newRep| - 1] != "" && lines[at + |hunk.oldPat| - 1] != ""
    requires hunk.newNoEol ==> lines[|lines| - 1] == ""
    ensures LineCount(SpliceAt(lines, hunk, at).value) == LineCount(lines)
    ensures |SpliceAt(lines, hunk, at).value| == |lines| + if hunk.newNoEol then -1 else 1
  {
  }
}
