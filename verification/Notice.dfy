/** The engine's supersede notice: put into a root's content when it is re-rooted, and looked through when diffing. */
module Notice {
  import opened Prelude
  import opened PatchMatcher
  import F = Fence

  const RECORD_CARD_LABEL := "Record card (JSON): "

  const PREFIX := "This event supersedes "

  predicate IsHex(c: char) {
    '0' <= c <= '9' || 'a' <= c <= 'f'
  }

  /** `This event supersedes <64 hex digits> (<anything on one line>).` */
  predicate IsNotice(line: string) {
    && |line| >= |PREFIX| + 68
    && line[..|PREFIX|] == PREFIX
    && (forall c :: c in line[|PREFIX|..|PREFIX| + 64] ==> IsHex(c))
    && line[|PREFIX| + 64..|PREFIX| + 66] == " ("
    && line[|line| - 2..] == ")."
    && forall c :: c in line ==> !F.IsLineTerminator(c)
  }

  predicate IsCard(line: string) {
    var text := F.SkipSpace(line);
    |text| >= |RECORD_CARD_LABEL| && text[..|RECORD_CARD_LABEL|] == RECORD_CARD_LABEL
  }

  const HEX := "0123456789abcdef"

  /** The supersede sentence about an id, with a summary. */
  function NoticeOf(id: string, summary: string): string {
    "This event supersedes " + id + " (" + summary + ")."
  }

  /** Notices are exactly the sentences about an id of 64 lowercase hex digits, with any summary on one line. */
  lemma NoticeMeans(line: string)
    ensures IsNotice(line) <==>
            exists id, summary :: line == NoticeOf(id, summary) && |id| == 64 && (forall c :: c in id ==> c in HEX)
                                  && forall c :: c in summary ==> !F.IsLineTerminator(c)
  {
    forall c ensures IsHex(c) <==> c in HEX { HexDigits(c); }
    hide HEX, IsHex;
    if IsNotice(line) { NoticeSplits(line); }
    if id, summary :| line == NoticeOf(id, summary) && |id| == 64 && (forall c :: c in id ==> c in HEX)
                      && forall c :: c in summary ==> !F.IsLineTerminator(c)
    {
      NoticeJoins(line, id, summary);
    }
  }

  lemma HexDigits(c: char)
    ensures IsHex(c) <==> c in HEX
  {
    assert HEX == ['0', '1', '2', '3', '4', '5', '6', '7', '8', '9', 'a', 'b', 'c', 'd', 'e', 'f'];
  }

  lemma NoticeSplits(line: string)
    requires IsNotice(line)
    ensures exists id, summary :: line == NoticeOf(id, summary) && |id| == 64 && (forall c :: c in id ==> IsHex(c))
                                  && forall c :: c in summary ==> !F.IsLineTerminator(c)
  {
    hide IsHex, F.IsLineTerminator;
    var n := |PREFIX|;
    var id, summary := line[n..n + 64], line[n + 66..|line| - 2];
    assert line == line[..n] + id + line[n + 64..n + 66] + summary + line[|line| - 2..];
    assert line == NoticeOf(id, summary);
  }

  lemma NoticeJoins(line: string, id: string, summary: string)
    requires line == NoticeOf(id, summary) && |id| == 64 && (forall c :: c in id ==> IsHex(c))
    requires forall c :: c in summary ==> !F.IsLineTerminator(c)
    ensures IsNotice(line)
  {
    var n := |PREFIX|;
    assert line == PREFIX + id + " (" + summary + ").";
    assert line[..n] == PREFIX && line[n..n + 64] == id && line[n + 64..n + 66] == " (" && line[|line| - 2..] == ").";
    forall c | c in line ensures !F.IsLineTerminator(c) {
      assert c in PREFIX || c in id || c in " (" || c in summary || c in ").";
    }
  }

  /** A record card is a line that starts with the label, blanks aside. */
  lemma CardMeans(line: string)
    ensures IsCard(line) <==>
            exists blanks, rest :: line == blanks + RECORD_CARD_LABEL + rest && forall c :: c in blanks ==> F.IsSpace(c)
  {
    var front := F.LeadingBlanks(line);
    var text := F.SkipSpace(line);
    if IsCard(line) {
      assert text == RECORD_CARD_LABEL + text[|RECORD_CARD_LABEL|..];
      assert line == front + RECORD_CARD_LABEL + text[|RECORD_CARD_LABEL|..];
    }
    if blanks, rest :| line == blanks + RECORD_CARD_LABEL + rest && forall c :: c in blanks ==> F.IsSpace(c) {
      assert line == blanks + (RECORD_CARD_LABEL + rest);
      F.SkipsBlanks(blanks, RECORD_CARD_LABEL + rest);
    }
  }

  // ---------------------------------------------------------------- what the two operations compute

  /** The first record card line, or the number of lines. */
  function CardIndex(lines: Lines): (i: nat)
    ensures i <= |lines| && (i < |lines| ==> IsCard(lines[i]))
  {
    if lines == [] || IsCard(lines[0]) then 0 else 1 + CardIndex(lines[1..])
  }

  /** The first notice line, or the number of lines. */
  function NoticeIndex(lines: Lines): (i: nat)
    ensures i <= |lines| && (i < |lines| ==> IsNotice(lines[i]))
    ensures forall k :: 0 <= k < i ==> !IsNotice(lines[k])
  {
    if lines == [] || IsNotice(lines[0]) then 0 else 1 + NoticeIndex(lines[1..])
  }

  function TrimEnd(lines: Lines): (r: Lines)
    ensures r <= lines && (r != [] ==> r[|r| - 1] != "")
  {
    if lines != [] && lines[|lines| - 1] == "" then TrimEnd(lines[..|lines| - 1]) else lines
  }

  function TrimStart(lines: Lines): Lines {
    if lines != [] && lines[0] == "" then TrimStart(lines[1..]) else lines
  }

  /** The lines after inserting a sentence: before the record card, with blank lines around it, or at the end. */
  function Inserted(lines: Lines, sentence: string): Lines {
    var card := CardIndex(lines);
    if card == |lines| then lines + ["", sentence]
    else TrimEnd(lines[..card]) + ["", sentence, ""] + lines[card..]
  }

  function Insert(content: string, sentence: string): string {
    FromLines(Inserted(ToLines(content), sentence))
  }

  datatype Split = Split(body: string, notice: Option<string>)

  function Strip(content: string): Split {
    var lines := ToLines(content);
    var at := NoticeIndex(lines);
    if at == |lines| then Split(content, None)
    else
      var before, after := TrimEnd(lines[..at]), TrimStart(lines[at + 1..]);
      Split(FromLines(if after == [] then before else before + [""] + after), Some(lines[at]))
  }

  method InsertSupersedesLine(content: string, sentence: string) returns (r: string)
    ensures r == Insert(content, sentence)
  {
    var lines := ToLines(content);
    hide ToLines, FromLines, IsCard;
    var card := 0;
    while card < |lines| && !IsCard(lines[card])
      invariant card <= |lines| && CardIndex(lines) == card + CardIndex(lines[card..])
    {
      card := card + 1;
    }
    if card == |lines| { return FromLines(lines + ["", sentence]); }
    var before := lines[..card];
    while |before| > 0 && before[|before| - 1] == ""
      invariant TrimEnd(before) == TrimEnd(lines[..card])
    {
      before := before[..|before| - 1];
    }
    r := FromLines(before + ["", sentence, ""] + lines[card..]);
  }

  method StripSupersedesNotice(content: string) returns (r: Split)
    ensures r == Strip(content)
  {
    var lines := ToLines(content);
    hide ToLines, FromLines, IsNotice;
    var index := 0;
    while index < |lines| && !IsNotice(lines[index])
      invariant index <= |lines| && NoticeIndex(lines) == index + NoticeIndex(lines[index..])
    {
      index := index + 1;
    }
    if index == |lines| { return Split(content, None); }
    var before, after := lines[..index], lines[index + 1..];
    while |before| > 0 && before[|before| - 1] == ""
      invariant TrimEnd(before) == TrimEnd(lines[..index])
    {
      before := before[..|before| - 1];
    }
    while |after| > 0 && after[0] == ""
      invariant TrimStart(after) == TrimStart(lines[index + 1..])
    {
      after := after[1..];
    }
    r := Split(FromLines(if after == [] then before else before + [""] + after), Some(lines[index]));
  }

  // ---------------------------------------------------------------- the two are inverse, and when exactly

  lemma NoBreaks(line: string)
    requires IsNotice(line)
    ensures '\n' !in line && line != ""
  {
  }

  /** The first notice of a text is found behind lines that are none. */
  lemma {:induction false} FirstNotice(before: Lines, sentence: string, after: Lines)
    requires IsNotice(sentence) && forall line :: line in before ==> !IsNotice(line)
    ensures NoticeIndex(before + [sentence] + after) == |before|
  {
    hide IsNotice;
    if before == [] {
      assert ([sentence] + after)[0] == sentence;
      assert before + [sentence] + after == [sentence] + after;
    } else {
      FirstNotice(before[1..], sentence, after);
      assert (before + [sentence] + after)[1..] == before[1..] + [sentence] + after;
      assert (before + [sentence] + after)[0] == before[0];
    }
  }

  /** Where the inserted sentence ends up. */
  function Front(lines: Lines): Lines {
    var card := CardIndex(lines);
    (if card == |lines| then lines else TrimEnd(lines[..card])) + [""]
  }

  function Back(lines: Lines): Lines {
    var card := CardIndex(lines);
    if card == |lines| then [] else [""] + lines[card..]
  }

  lemma InsertedSplits(lines: Lines, sentence: string)
    ensures Inserted(lines, sentence) == Front(lines) + [sentence] + Back(lines)
    ensures forall line :: line in Front(lines) ==> line in lines || line == ""
    ensures forall line :: line in Back(lines) ==> line in lines || line == ""
  {
    hide IsCard;
  }

  /** Stripping finds the inserted notice: it is the first one when the content carries none of its own. */
  lemma NoticeSurvives(content: string, sentence: string)
    requires IsNotice(sentence) && Strip(content).notice.None?
    ensures Strip(Insert(content, sentence)).notice == Some(sentence)
    ensures ToLines(Insert(content, sentence)) == Front(ToLines(content)) + [sentence] + Back(ToLines(content))
    ensures NoticeIndex(ToLines(Insert(content, sentence))) == |Front(ToLines(content))|
  {
    var lines := ToLines(content);
    NoBreaks(sentence);
    InsertedSplits(lines, sentence);
    ToFromLines(Inserted(lines, sentence));
    forall line | line in Front(lines) ensures !IsNotice(line) {
      if line in lines {
        var k :| 0 <= k < |lines| && lines[k] == line;
      }
    }
    FirstNotice(Front(lines), sentence, Back(lines));
  }

  /** The content is laid out so that a notice comes out without trace: one blank line before the card, or no blank end. */
  predicate Tidy(content: string) {
    var lines := ToLines(content);
    var card := CardIndex(lines);
    if card == |lines| then content == "" || lines[|lines| - 1] != ""
    else card > 0 && lines[card - 1] == "" && (card > 1 ==> lines[card - 2] != "")
  }

  lemma {:induction false} TrimEndBlank(lines: Lines)
    ensures TrimEnd(lines + [""]) == TrimEnd(lines)
    ensures TrimEnd(TrimEnd(lines)) == TrimEnd(lines)
    ensures TrimEnd(lines) == lines <==> lines == [] || lines[|lines| - 1] != ""
  {
    assert (lines + [""])[..|lines|] == lines;
  }

  lemma CardIsNotBlank(line: string)
    requires IsCard(line)
    ensures line != ""
  {
  }

  lemma {:induction false} JoinedLines(a: Lines, b: Lines)
    requires a != [] && b != []
    requires forall line :: line in a + b ==> '\n' !in line
    ensures FromLines(a) == FromLines(b) <==> a == b
  {
    assert forall line :: line in a ==> line in a + b;
    assert forall line :: line in b ==> line in a + b;
    ToFromLines(a);
    ToFromLines(b);
  }

  /** What remains after putting a notice in and taking it out again. */
  function Remaining(lines: Lines): Lines {
    var card := CardIndex(lines);
    if card == |lines| then TrimEnd(lines) else TrimEnd(lines[..card]) + [""] + lines[card..]
  }

  lemma BodyRemains(content: string, sentence: string)
    requires IsNotice(sentence) && Strip(content).notice.None?
    ensures Strip(Insert(content, sentence)).body == FromLines(Remaining(ToLines(content)))
  {
    var lines := ToLines(content);
    NoticeSurvives(content, sentence);
    hide IsNotice, IsCard, ToLines, FromLines, NoticeIndex, Front, Back, TrimEnd, TrimStart, Remaining, CardIndex;
    var front, back := Front(lines), Back(lines);
    var whole := front + [sentence] + back;
    assert whole[..|front|] == front && whole[|front| + 1..] == back;
    EndsTrim(lines);
  }

  /** What trimming leaves in front of and behind the notice. */
  lemma EndsTrim(lines: Lines)
    ensures var before, after := TrimEnd(Front(lines)), TrimStart(Back(lines));
            Remaining(lines) == if after == [] then before else before + [""] + after
  {
    var card := CardIndex(lines);
    hide IsCard;
    if card == |lines| {
      TrimEndBlank(lines);
    } else {
      TrimEndBlank(TrimEnd(lines[..card]));
      TrimEndBlank(lines[..card]);
      CardIsNotBlank(lines[card]);
      var back := Back(lines);
      assert back[0] == "" && back[1..] == lines[card..];
      assert TrimStart(lines[card..]) == lines[card..];
    }
  }

  /** A notice can be inserted and stripped without changing the body exactly when the content is tidy. */
  lemma NoticeRoundTripIff(content: string, sentence: string)
    requires IsNotice(sentence) && Strip(content).notice.None?
    ensures Strip(Insert(content, sentence)).body == content <==> Tidy(content)
  {
    var lines := ToLines(content);
    var card := CardIndex(lines);
    var remaining := Remaining(lines);
    BodyRemains(content, sentence);
    FromToLines(content);
    if card == |lines| {
      TrimEndBlank(lines);
      if remaining == [] {
        AllBlankContent(lines);
      } else {
        JoinedLines(remaining, lines);
      }
    } else {
      forall line | line in remaining + lines ensures '\n' !in line {
        if line in TrimEnd(lines[..card]) { assert line in lines; }
      }
      JoinedLines(remaining, lines);
      OneBlank(lines, card);
    }
  }

  lemma {:induction false} AllBlankContent(lines: Lines)
    requires lines != [] && TrimEnd(lines) == []
    ensures lines[|lines| - 1] == ""
    ensures FromLines(lines) == "" <==> lines == [""]
  {
    if |lines| > 1 {
      assert |FromLines(lines)| >= 1;
    }
  }

  lemma OneBlank(lines: Lines, card: nat)
    requires card < |lines|
    ensures TrimEnd(lines[..card]) + [""] + lines[card..] == lines <==>
            card > 0 && lines[card - 1] == "" && (card > 1 ==> lines[card - 2] != "")
  {
    var front := lines[..card];
    assert front + lines[card..] == lines;
    if TrimEnd(front) + [""] + lines[card..] == lines {
      assert TrimEnd(front) + [""] == front by {
        assert |TrimEnd(front)| + 1 == card;
        assert (TrimEnd(front) + [""] + lines[card..])[..card] == TrimEnd(front) + [""];
      }
    }
    if card > 0 && lines[card - 1] == "" {
      assert front == front[..card - 1] + [""];
      TrimEndBlank(front[..card - 1]);
    }
  }
}
