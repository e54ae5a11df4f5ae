/** The fence around a patch payload: choosing its length, printing it, and finding it again (section 4.5 of CommonMark). */
module Fence {
  import opened Prelude
  import opened PatchMatcher

  // ---------------------------------------------------------------- character runs

  /** How often `c` repeats at the start. */
  function RunLength(s: string, c: char): (n: nat)
    ensures n <= |s|
  {
    if s == "" || s[0] != c then 0 else 1 + RunLength(s[1..], c)
  }

  function Repeated(c: char, n: nat): (s: string)
    ensures |s| == n && forall i :: 0 <= i < n ==> s[i] == c
  {
    if n == 0 then "" else [c] + Repeated(c, n - 1)
  }

  ghost predicate HasRun(s: string, n: nat) {
    exists i :: 0 <= i <= |s| && RunLength(s[i..], '`') >= n
  }

  ghost predicate AllTicks(s: string, from: nat, to: nat) {
    from <= to <= |s| && forall k :: from <= k < to ==> s[k] == '`'
  }

  /** No run starting before `to` is longer than `n`. */
  ghost predicate RunsWithin(s: string, to: nat, n: nat) {
    to <= |s| && forall k :: 0 <= k < to ==> RunLength(s[k..], '`') <= n
  }

  lemma {:induction false} RunFrom(s: string, from: nat, to: nat)
    requires AllTicks(s, from, to)
    ensures RunLength(s[from..], '`') >= to - from
    decreases |s| - from
  {
    if from < to {
      assert s[from..][1..] == s[from + 1..];
      RunFrom(s, from + 1, to);
    }
  }

  lemma {:induction false} RunStops(s: string, from: nat, at: nat)
    requires from <= at < |s| && s[at] != '`'
    ensures RunLength(s[from..], '`') <= at - from
    decreases |s| - from
  {
    if from < at {
      assert s[from..][1..] == s[from + 1..];
      RunStops(s, from + 1, at);
    }
  }

  lemma RunEnds(s: string, from: nat, at: nat, n: nat)
    requires from <= at < |s| && s[at] != '`' && at - from <= n && RunsWithin(s, from, n)
    ensures RunsWithin(s, at + 1, n) && AllTicks(s, at + 1, at + 1)
  {
    forall k | from <= k <= at ensures RunLength(s[k..], '`') <= n {
      RunStops(s, k, at);
    }
  }

  lemma NoLongerRun(s: string, from: nat, n: nat)
    requires RunsWithin(s, from, n) && |s| - from <= n
    ensures !HasRun(s, n + 1)
  {
  }

  lemma ShorterRun(s: string, m: nat, n: nat)
    requires m <= n && !HasRun(s, m)
    ensures !HasRun(s, n)
  {
  }

  /** The longest run of backticks anywhere in the payload. */
  method LongestBacktickRun(payload: string) returns (longest: nat)
    ensures HasRun(payload, longest) && !HasRun(payload, longest + 1)
  {
    longest := 0;
    var current := 0;
    NoneYet(payload);
    hide HasRun, RunsWithin, AllTicks, RunLength;
    for i := 0 to |payload|
      invariant HasRun(payload, longest)
      invariant current <= longest && current <= i
      invariant AllTicks(payload, i - current, i)
      invariant RunsWithin(payload, i - current, longest)
    {
      if payload[i] == '`' {
        OneMoreTick(payload, i - current, i);
        current := current + 1;
        if current > longest {
          RunFrom(payload, i + 1 - current, i + 1);
          LongerFound(payload, i + 1 - current, longest, current);
          longest := current;
        }
      } else {
        RunEnds(payload, i - current, i, longest);
        current := 0;
      }
    }
    NoLongerRun(payload, |payload| - current, longest);
  }

  lemma OneMoreTick(s: string, from: nat, at: nat)
    requires AllTicks(s, from, at) && at < |s| && s[at] == '`'
    ensures AllTicks(s, from, at + 1)
  {
  }

  lemma NoneYet(s: string)
    ensures RunsWithin(s, 0, 0) && HasRun(s, 0) && AllTicks(s, 0, 0)
  {
    assert RunLength(s[0..], '`') >= 0;
  }

  lemma LongerFound(s: string, from: nat, longest: nat, current: nat)
    requires from <= |s| && RunLength(s[from..], '`') >= current && longest <= current
    ensures HasRun(s, current)
    ensures RunsWithin(s, from, longest) ==> RunsWithin(s, from, current)
  {
  }

  // ---------------------------------------------------------------- fence lines

  /** Characters a JavaScript `\s` matches. */
  predicate IsSpace(c: char) {
    || '\t' <= c <= '\r' || c == ' ' || c == '\U{00A0}' || c == '\U{1680}'
    || '\U{2000}' <= c <= '\U{200A}' || c == '\U{2028}' || c == '\U{2029}'
    || c == '\U{202F}' || c == '\U{205F}' || c == '\U{3000}' || c == '\U{FEFF}'
  }

  /** Characters a JavaScript `.` does not match. */
  predicate IsLineTerminator(c: char) {
    c == '\n' || c == '\r' || c == '\U{2028}' || c == '\U{2029}'
  }

  datatype Opener = Opener(fenceChar: char, length: nat, info: string)

  /** At most three spaces, at least three fence characters, and an info string on the same line. */
  function OpenerOf(line: string): (opener: Option<Opener>)
    ensures opener.Some? ==> opener.value.length >= 3 && opener.value.fenceChar in "`~"
  {
    var indent := RunLength(line, ' ');
    var rest := line[indent..];
    if indent > 3 || rest == "" || rest[0] !in "`~" then None
    else
      var length := RunLength(rest, rest[0]);
      var info := rest[length..];
      if length < 3 || (exists c :: c in info && IsLineTerminator(c)) || (rest[0] == '`' && '`' in info) then None
      else Some(Opener(rest[0], length, info))
  }

  /** At most three spaces, at least the opener's length of its character, and nothing but white space after. */
  predicate IsCloser(line: string, opener: Opener) {
    var indent := RunLength(line, ' ');
    var rest := line[indent..];
    var length := RunLength(rest, opener.fenceChar);
    indent <= 3 && length >= opener.length && forall c :: c in rest[length..] ==> IsSpace(c)
  }

  datatype Block = Block(fenceChar: char, info: string, payload: string, closed: bool)

  function PayloadOf(body: Lines): string {
    if body == [] then "" else FromLines(body) + "\n"
  }

  /** The first closing line at or after `i`, or the number of lines. */
  function CloserFrom(lines: Lines, i: nat, opener: Opener): (j: nat)
    requires i <= |lines|
    ensures i <= j <= |lines|
    ensures forall k :: i <= k < j ==> !IsCloser(lines[k], opener)
    ensures j < |lines| ==> IsCloser(lines[j], opener)
    decreases |lines| - i
  {
    if i == |lines| || IsCloser(lines[i], opener) then i else CloserFrom(lines, i + 1, opener)
  }

  /** The fenced blocks opened at or after line `i`; what a block encloses opens nothing. */
  function BlocksFrom(lines: Lines, i: nat): seq<Block>
    requires i <= |lines|
    decreases |lines| - i
  {
    if i == |lines| then []
    else
      var opener := OpenerOf(lines[i]);
      if opener.None? then BlocksFrom(lines, i + 1)
      else
        var j := CloserFrom(lines, i + 1, opener.value);
        var block := Block(opener.value.fenceChar, opener.value.info, PayloadOf(lines[i + 1..j]), j < |lines|);
        [block] + if j < |lines| then BlocksFrom(lines, j + 1) else []
  }

  lemma BlockFound(lines: Lines, i: nat, j: nat, opener: Opener, block: Block, blocks: seq<Block>)
    requires i < |lines| && OpenerOf(lines[i]) == Some(opener) && j == CloserFrom(lines, i + 1, opener)
    requires block == Block(opener.fenceChar, opener.info, PayloadOf(lines[i + 1..j]), j < |lines|)
    ensures blocks + BlocksFrom(lines, i) ==
            (blocks + [block]) + BlocksFrom(lines, if j < |lines| then j + 1 else |lines|)
  {
    hide OpenerOf, IsCloser, PayloadOf, CloserFrom;
  }

  method FindFencedBlocks(content: string) returns (blocks: seq<Block>)
    ensures blocks == BlocksFrom(ToLines(content), 0)
  {
    var lines := ToLines(content);
    blocks := [];
    var i := 0;
    hide OpenerOf, ToLines, PayloadOf, IsCloser;
    while i < |lines|
      invariant 0 <= i <= |lines|
      invariant BlocksFrom(lines, 0) == blocks + BlocksFrom(lines, i)
    {
      var open := OpenerOf(lines[i]);
      if open.None? {
        i := i + 1;
        continue;
      }
      var body: Lines := [];
      var closed := false;
      var j := i + 1;
      while j < |lines|
        invariant i + 1 <= j <= |lines|
        invariant body == lines[i + 1..j] && !closed
        invariant CloserFrom(lines, i + 1, open.value) == CloserFrom(lines, j, open.value)
      {
        if IsCloser(lines[j], open.value) {
          closed := true;
          break;
        }
        body := body + [lines[j]];
        j := j + 1;
      }
      var block := Block(open.value.fenceChar, open.value.info, PayloadOf(body), closed);
      BlockFound(lines, i, j, open.value, block, blocks);
      blocks := blocks + [block];
      i := if j < |lines| then j + 1 else |lines|;
    }
    assert blocks + [] == blocks;
  }

  // ---------------------------------------------------------------- the payload of an event

  function Lower(s: string): string {
    if s == "" then ""
    else [if 'A' <= s[0] <= 'Z' then s[0] + 32 as char else s[0]] + Lower(s[1..])
  }

  function SkipSpace(s: string): string {
    if s != "" && IsSpace(s[0]) then SkipSpace(s[1..]) else s
  }

  function Word(s: string): string {
    if s == "" || IsSpace(s[0]) then "" else [s[0]] + Word(s[1..])
  }

  predicate IsPayloadInfo(info: string) {
    var first := Lower(Word(SkipSpace(info)));
    first == "diff" || first == "patch"
  }

  predicate IsPayloadBlock(block: Block) {
    block.fenceChar == '`' && IsPayloadInfo(block.info)
  }

  function FirstPayload(blocks: seq<Block>): (payload: Option<string>)
    ensures payload.Some? <==> exists b :: b in blocks && IsPayloadBlock(b)
    ensures payload.Some? ==>
              exists i :: 0 <= i < |blocks| && IsPayloadBlock(blocks[i]) && blocks[i].payload == payload.value
                          && forall j :: 0 <= j < i ==> !IsPayloadBlock(blocks[j])
  {
    if blocks == [] then None
    else if IsPayloadBlock(blocks[0]) then assert blocks[0] in blocks; Some(blocks[0].payload)
    else
      var rest := FirstPayload(blocks[1..]);
      assert forall b :: b in blocks <==> b == blocks[0] || b in blocks[1..];
      assert forall i :: 0 <= i < |blocks[1..]| ==> blocks[1..][i] == blocks[i + 1];
      assert rest.Some? ==>
               exists i :: 0 <= i < |blocks| && IsPayloadBlock(blocks[i]) && blocks[i].payload == rest.value
                           && forall j :: 0 <= j < i ==> !IsPayloadBlock(blocks[j]) by {
        if rest.Some? {
          var i :| 0 <= i < |blocks[1..]| && IsPayloadBlock(blocks[1..][i]) && blocks[1..][i].payload == rest.value
                   && forall j :: 0 <= j < i ==> !IsPayloadBlock(blocks[1..][j]);
          assert IsPayloadBlock(blocks[i + 1]);
          forall j | 0 <= j < i + 1 ensures !IsPayloadBlock(blocks[j]) { if j > 0 { assert blocks[1..][j - 1] == blocks[j]; } }
        }
      }
      rest
  }

  /** The payload of the first backtick-fenced block whose info string marks it as a patch. */
  function FindPatchPayload(content: string): Option<string> {
    FirstPayload(BlocksFrom(ToLines(content), 0))
  }

  // ---------------------------------------------------------------- how fence lines and payload marks are written

  lemma {:induction false} RunThen(c: char, n: nat, rest: string)
    requires rest == "" || rest[0] != c
    ensures RunLength(Repeated(c, n) + rest, c) == n
    ensures (Repeated(c, n) + rest)[n..] == rest
  {
    if n == 0 {
      assert Repeated(c, 0) + rest == rest;
    } else {
      RunThen(c, n - 1, rest);
      assert (Repeated(c, n) + rest)[1..] == Repeated(c, n - 1) + rest;
    }
  }

  lemma {:induction false} RunSplits(s: string, c: char)
    ensures var n := RunLength(s, c);
            s == Repeated(c, n) + s[n..] && (s[n..] == "" || s[n..][0] != c)
  {
    if s != "" && s[0] == c { RunSplits(s[1..], c); }
  }

  ghost predicate OneLine(s: string) {
    forall c :: c in s ==> !IsLineTerminator(c)
  }

  ghost predicate Blank(s: string) {
    forall c :: c in s ==> IsSpace(c)
  }

  /** A line that opens a block: indented by at most three spaces, three or more of one fence character, and the rest its info. */
  ghost predicate OpensWith(line: string, indent: nat, opener: Opener) {
    && indent <= 3 && opener.length >= 3 && opener.fenceChar in "`~"
    && line == Repeated(' ', indent) + (Repeated(opener.fenceChar, opener.length) + opener.info)
    && (opener.info == "" || opener.info[0] != opener.fenceChar) && OneLine(opener.info)
    && (opener.fenceChar == '`' ==> '`' !in opener.info)
  }

  /** A line opens a block exactly when it is written so. */
  lemma OpenerMeans(line: string, opener: Opener)
    ensures OpenerOf(line) == Some(opener) <==> exists indent :: OpensWith(line, indent, opener)
  {
    RunSplits(line, ' ');
    var indent := RunLength(line, ' ');
    var rest := line[indent..];
    if OpenerOf(line) == Some(opener) {
      RunSplits(rest, rest[0]);
      hide IsLineTerminator;
      assert OpensWith(line, indent, opener);
    }
    if n :| OpensWith(line, n, opener) {
      var text := Repeated(opener.fenceChar, opener.length) + opener.info;
      assert text[0] == opener.fenceChar;
      RunThen(' ', n, text);
      RunThen(opener.fenceChar, opener.length, opener.info);
    }
  }

  /** A line that closes a block: at most three spaces, the fence character as often as in the opener or more, and blanks. */
  ghost predicate ClosesWith(line: string, indent: nat, length: nat, blanks: string, opener: Opener) {
    && indent <= 3 && length >= opener.length && Blank(blanks)
    && line == Repeated(' ', indent) + (Repeated(opener.fenceChar, length) + blanks)
  }

  /** A line closes a block exactly when it is written so. */
  lemma CloserMeans(line: string, opener: Opener)
    requires opener.length >= 3 && opener.fenceChar in "`~"
    ensures IsCloser(line, opener) <==> exists indent, length, blanks :: ClosesWith(line, indent, length, blanks, opener)
  {
    RunSplits(line, ' ');
    var indent := RunLength(line, ' ');
    var rest := line[indent..];
    RunSplits(rest, opener.fenceChar);
    var length := RunLength(rest, opener.fenceChar);
    if IsCloser(line, opener) {
      assert ClosesWith(line, indent, length, rest[length..], opener);
    }
    if m, n, blanks :| ClosesWith(line, m, n, blanks, opener) {
      assert blanks != "" ==> blanks[0] in blanks;
      assert !IsSpace('`') && !IsSpace('~');
      var text := Repeated(opener.fenceChar, n) + blanks;
      assert text[0] == opener.fenceChar;
      RunThen(' ', m, text);
      RunThen(opener.fenceChar, n, blanks);
    }
  }

  lemma {:induction false} LeadingBlanks(line: string) returns (blanks: string)
    ensures line == blanks + SkipSpace(line) && Blank(blanks)
  {
    blanks := "";
    if line != "" && IsSpace(line[0]) {
      var more := LeadingBlanks(line[1..]);
      blanks := [line[0]] + more;
      hide IsSpace;
    }
  }

  lemma {:induction false} SkipsBlanks(blanks: string, text: string)
    requires Blank(blanks) && text != "" && !IsSpace(text[0])
    ensures SkipSpace(blanks + text) == text
  {
    hide IsSpace;
    if blanks == "" {
      assert blanks + text == text;
    } else {
      assert (blanks + text)[1..] == blanks[1..] + text;
      SkipsBlanks(blanks[1..], text);
    }
  }

  lemma {:induction false} WordSplits(s: string)
    ensures var w := Word(s);
            w <= s && (forall c :: c in w ==> !IsSpace(c)) && (|w| < |s| ==> IsSpace(s[|w|]))
  {
    hide IsSpace;
    if s != "" && !IsSpace(s[0]) {
      WordSplits(s[1..]);
      assert s == [s[0]] + s[1..];
    }
  }

  lemma {:induction false} WordThen(w: string, rest: string)
    requires (forall c :: c in w ==> !IsSpace(c)) && (rest == "" || IsSpace(rest[0]))
    ensures Word(w + rest) == w
  {
    hide IsSpace;
    if w == "" {
      assert w + rest == rest;
    } else {
      assert w[0] in w && (w + rest)[1..] == w[1..] + rest;
      WordThen(w[1..], rest);
    }
  }

  /** `w` is the lowercase word `target`, in capitals or not. */
  ghost predicate Reads(w: string, target: string) {
    |w| == |target| && forall i :: 0 <= i < |w| ==> w[i] == target[i] || w[i] as int == target[i] as int - 32
  }

  lemma {:induction false} LowerAt(s: string)
    ensures |Lower(s)| == |s|
    ensures forall i :: 0 <= i < |s| ==> Lower(s)[i] == if 'A' <= s[i] <= 'Z' then s[i] + 32 as char else s[i]
  {
    if s != "" {
      LowerAt(s[1..]);
      forall i | 0 < i < |s| ensures s[1..][i - 1] == s[i] && Lower(s)[i] == Lower(s[1..])[i - 1] {}
    }
  }

  lemma LowerReads(w: string, target: string)
    requires forall c :: c in target ==> 'a' <= c <= 'z'
    ensures Lower(w) == target <==> Reads(w, target)
  {
    LowerAt(w);
    if Reads(w, target) {
      forall i | 0 <= i < |w| ensures Lower(w)[i] == target[i] { assert target[i] in target; }
    }
    if Lower(w) == target {
      forall i | 0 <= i < |w| ensures w[i] == target[i] || w[i] as int == target[i] as int - 32 { assert target[i] == Lower(w)[i]; }
    }
  }

  /** The info string of a payload, blanks aside, starts with the word `diff` or `patch`, in capitals or not. */
  ghost predicate Marks(info: string) {
    exists blanks, w, rest ::
      info == blanks + (w + rest) && Blank(blanks) && (Reads(w, "diff") || Reads(w, "patch")) && (rest == "" || IsSpace(rest[0]))
  }

  lemma InfoMeans(info: string)
    ensures IsPayloadInfo(info) <==> Marks(info)
  {
    if IsPayloadInfo(info) { InfoIsMarked(info); }
    if blanks, w, rest :| info == blanks + (w + rest) && Blank(blanks) && (Reads(w, "diff") || Reads(w, "patch"))
                          && (rest == "" || IsSpace(rest[0]))
    {
      MarkedIsInfo(blanks, w, rest);
    }
  }

  lemma InfoIsMarked(info: string)
    requires IsPayloadInfo(info)
    ensures Marks(info)
  {
    var text := SkipSpace(info);
    var word := Word(text);
    LowerReads(word, "diff");
    LowerReads(word, "patch");
    var front := LeadingBlanks(info);
    WordSplits(text);
    hide IsSpace, Blank, Reads;
    assert text == word + text[|word|..];
    assert info == front + (word + text[|word|..]);
  }

  lemma MarkedIsInfo(blanks: string, w: string, rest: string)
    requires Blank(blanks) && (Reads(w, "diff") || Reads(w, "patch")) && (rest == "" || IsSpace(rest[0]))
    ensures IsPayloadInfo(blanks + (w + rest))
  {
    NoBlanksIn(w);
    LowerReads(w, "diff");
    LowerReads(w, "patch");
    hide IsSpace, Blank, Reads;
    assert w[0] in w && (w + rest)[0] == w[0];
    SkipsBlanks(blanks, w + rest);
    WordThen(w, rest);
  }

  lemma NoBlanksIn(w: string)
    requires Reads(w, "diff") || Reads(w, "patch")
    ensures w != "" && forall c :: c in w ==> !IsSpace(c)
  {
    var target := if Reads(w, "diff") then "diff" else "patch";
    assert forall c :: c in target ==> 'a' <= c <= 'z';
    forall c | c in w ensures !IsSpace(c) {
      var i :| 0 <= i < |w| && w[i] == c;
      assert target[i] in target;
    }
  }

  /** The i-th block is the first that is fenced by backticks and marked; a block of tildes is not one. */
  ghost predicate CarriesAt(blocks: seq<Block>, i: int) {
    && 0 <= i < |blocks| && blocks[i].fenceChar == '`' && Marks(blocks[i].info)
    && forall j :: 0 <= j < i ==> blocks[j].fenceChar != '`' || !Marks(blocks[j].info)
  }

  ghost predicate FirstIs(blocks: seq<Block>, payload: string) {
    exists i :: CarriesAt(blocks, i) && blocks[i].payload == payload
  }

  /** The payload of a content is that of the first such block. */
  lemma PayloadMeans(content: string, payload: string)
    ensures FindPatchPayload(content) == Some(payload) <==> FirstIs(BlocksFrom(ToLines(content), 0), payload)
  {
    hide BlocksFrom, ToLines, FirstIs, FirstPayload;
    FirstCarries(BlocksFrom(ToLines(content), 0), payload);
  }

  lemma FirstCarries(blocks: seq<Block>, payload: string)
    ensures FirstPayload(blocks) == Some(payload) <==> FirstIs(blocks, payload)
  {
    forall k | 0 <= k < |blocks| ensures IsPayloadBlock(blocks[k]) <==> blocks[k].fenceChar == '`' && Marks(blocks[k].info) {
      InfoMeans(blocks[k].info);
    }
    hide Marks, IsPayloadBlock, FirstPayload;
    assert forall i :: CarriesAt(blocks, i) ==> blocks[i] in blocks && IsPayloadBlock(blocks[i]);
    if FirstPayload(blocks).Some? {
      var k :| 0 <= k < |blocks| && IsPayloadBlock(blocks[k]) && blocks[k].payload == FirstPayload(blocks).value
               && forall j :: 0 <= j < k ==> !IsPayloadBlock(blocks[j]);
      assert CarriesAt(blocks, k);
      forall i | CarriesAt(blocks, i) ensures i == k {}
    }
  }

  /** The shortest fence of at least three backticks that is longer than every run of the payload. */
  ghost predicate Encloses(payload: string, length: nat) {
    length >= 3 && !HasRun(payload, length) && (length > 3 ==> HasRun(payload, length - 1))
  }

  /** The fence is longer than every backtick run of the payload. */
  method FencePatchPayload(payload: string, info: string) returns (content: string, ghost length: nat)
    ensures Encloses(payload, length) && content == Fenced(payload, info, length)
    ensures exists n :: Encloses(payload, n) && content == Fenced(payload, info, n)
  {
    var longest := LongestBacktickRun(payload);
    length := if longest + 1 > 3 then longest + 1 else 3;
    ShorterRun(payload, longest + 1, length);
    var fence := Repeated('`', if longest + 1 > 3 then longest + 1 else 3);
    content := fence + info + "\n" + payload + fence + "\n";
  }

  function Fenced(payload: string, info: string, length: nat): string {
    Repeated('`', length) + info + "\n" + payload + Repeated('`', length) + "\n"
  }

  // ---------------------------------------------------------------- round trip

  /** Joining two texts with a newline joins their lines. */
  lemma {:induction false} JoinLines(a: string, b: string)
    ensures ToLines(a + "\n" + b) == ToLines(a) + ToLines(b)
  {
    var whole := a + "\n" + b;
    if a == "" {
      assert whole == ['\n'] + b && whole[1..] == b;
    } else {
      JoinLines(a[1..], b);
      assert whole[0] == a[0] && whole[1..] == a[1..] + "\n" + b;
      PrependChar(a[0], ToLines(a[1..]), ToLines(b));
      FirstChar(a);
      FirstChar(whole);
    }
  }

  /** The lines after one more character in front. */
  function Prepended(c: char, lines: Lines): Lines
    requires |lines| > 0
  {
    if c == '\n' then [""] + lines else [[c] + lines[0]] + lines[1..]
  }

  lemma FirstChar(s: string)
    requires s != ""
    ensures ToLines(s) == Prepended(s[0], ToLines(s[1..]))
  {
  }

  lemma PrependChar(c: char, a: Lines, b: Lines)
    requires |a| > 0
    ensures Prepended(c, a + b) == Prepended(c, a) + b
  {
    assert (a + b)[1..] == a[1..] + b;
    assert (a + b)[0] == a[0];
  }

  lemma {:induction false} FirstLineRun(content: string)
    ensures RunLength(ToLines(content)[0], '`') <= RunLength(content, '`')
  {
    if content != "" && content[0] == '`' {
      FirstLineRun(content[1..]);
      assert ToLines(content)[0][1..] == ToLines(content[1..])[0];
    }
  }

  /** No line of a payload holds a longer run than the payload. */
  lemma {:induction false} LineRuns(content: string, n: nat, line: string, k: nat)
    requires n > 0 && !HasRun(content, n) && line in ToLines(content) && k <= |line|
    ensures RunLength(line[k..], '`') < n
  {
    assert content[0..] == content && line[0..] == line;
    FirstLineRun(content);
    if content != "" {
      var tail := content[1..];
      forall i | 0 <= i <= |tail| ensures RunLength(tail[i..], '`') < n {
        assert tail[i..] == content[i + 1..];
      }
      var lines, rest := ToLines(content), ToLines(tail);
      if content[0] == '\n' {
        if line != "" { LineRuns(tail, n, line, k); }
      } else if line in rest[1..] {
        LineRuns(tail, n, line, k);
      } else if k > 0 {
        assert line[k..] == rest[0][k - 1..];
        LineRuns(tail, n, rest[0], k - 1);
      }
    }
  }

  lemma FenceOpens(length: nat, info: string)
    requires length >= 3 && '`' !in info && forall c :: c in info ==> !IsLineTerminator(c)
    ensures OpenerOf(Repeated('`', length) + info) == Some(Opener('`', length, info))
  {
    var line := Repeated('`', length) + info;
    RunThen('`', length, info);
    assert line[0] == '`' && line[0..] == line;
  }

  lemma FenceCloses(length: nat, info: string)
    requires length >= 3
    ensures IsCloser(Repeated('`', length), Opener('`', length, info))
  {
    var line := Repeated('`', length);
    RunThen('`', length, "");
    assert line + "" == line && line[0..] == line;
  }

  lemma BodyStaysOpen(payload: string, length: nat, info: string, line: string)
    requires length >= 3 && !HasRun(payload, length) && line in ToLines(payload)
    ensures !IsCloser(line, Opener('`', length, info))
  {
    LineRuns(payload, length, line, RunLength(line, ' '));
  }

  /** Empty, or ending in a newline. */
  predicate Terminated(payload: string) {
    payload == "" || payload[|payload| - 1] == '\n'
  }

  lemma FencedText(payload: string, info: string, length: nat)
    ensures var fence := Repeated('`', length);
            Fenced(payload, info, length) == (fence + info) + "\n" + (payload + fence + "\n")
  {
  }

  /** The lines of the fenced text: opener, body, closer, and the element for the final newline. */
  lemma FencedLines(payload: string, info: string, length: nat) returns (body: Lines)
    requires Terminated(payload) && forall c :: c in info ==> !IsLineTerminator(c)
    ensures var fence := Repeated('`', length);
            ToLines(Fenced(payload, info, length)) == [fence + info] + (body + [fence, ""])
    ensures PayloadOf(body) == payload && forall line :: line in body ==> line in ToLines(payload)
  {
    var fence := Repeated('`', length);
    hide Fenced;
    FencedText(payload, info, length);
    assert '\n' !in fence && '\n' !in info && '\n' !in fence + info;
    SplitFirst(fence, "");
    assert ToLines("") == [""];
    if payload == "" {
      body := [];
      SplitFirst(fence + info, fence + "\n");
      assert fence + "\n" + "" == fence + "\n";
      assert payload + fence + "\n" == fence + "\n";
      assert [] + [fence, ""] == [fence, ""];
    } else {
      var text := payload[..|payload| - 1];
      body := ToLines(text);
      assert payload == text + "\n" && payload == text + "\n" + "";
      JoinLines(text, "");
      FromToLines(text);
      assert fence + "\n" + "" == fence + "\n";
      JoinLines(text, fence + "\n");
      var inner := text + "\n" + (fence + "\n");
      SplitFirst(fence + info, inner);
      assert payload + fence + "\n" == inner;
    }
  }

  lemma CloserAt(lines: Lines, i: nat, opener: Opener, j: nat)
    requires i <= j < |lines| && IsCloser(lines[j], opener)
    requires forall k :: i <= k < j ==> !IsCloser(lines[k], opener)
    ensures CloserFrom(lines, i, opener) == j
  {
  }

  lemma NoOpenerInBlank()
    ensures OpenerOf("") == None
  {
  }

  /** A fence longer than every run inside encloses exactly one block, closed, with the payload intact. */
  lemma FencedIsOneBlock(payload: string, info: string, length: nat)
    requires length >= 3 && !HasRun(payload, length) && Terminated(payload)
    requires '`' !in info && forall c :: c in info ==> !IsLineTerminator(c)
    ensures BlocksFrom(ToLines(Fenced(payload, info, length)), 0) == [Block('`', info, payload, true)]
  {
    var fence, opener := Repeated('`', length), Opener('`', length, info);
    var body := FencedLines(payload, info, length);
    var lines := ToLines(Fenced(payload, info, length));
    FenceOpens(length, info);
    FenceCloses(length, info);
    var j := |body| + 1;
    assert lines[0] == fence + info && lines[j] == fence && lines[j + 1] == "" && |lines| == j + 2;
    forall k | 1 <= k < j ensures !IsCloser(lines[k], opener) {
      assert lines[k] == body[k - 1];
      BodyStaysOpen(payload, length, info, lines[k]);
    }
    CloserAt(lines, 1, opener, j);
    assert lines[1..j] == body;
    NoOpenerInBlank();
    assert BlocksFrom(lines, j + 1) == [];
  }

  lemma {:induction false} PayloadsTerminated(lines: Lines, i: nat, b: Block)
    requires i <= |lines| && b in BlocksFrom(lines, i)
    ensures Terminated(b.payload)
    decreases |lines| - i
  {
    hide OpenerOf, IsCloser, FromLines;
    var opener := OpenerOf(lines[i]);
    if opener.None? {
      PayloadsTerminated(lines, i + 1, b);
    } else {
      var j := CloserFrom(lines, i + 1, opener.value);
      if j < |lines| && b in BlocksFrom(lines, j + 1) { PayloadsTerminated(lines, j + 1, b); }
    }
  }

  /** Fencing and finding give the payload back exactly when it is empty or newline-terminated. */
  lemma FenceRoundTripIff(payload: string, info: string, length: nat)
    requires length >= 3 && !HasRun(payload, length)
    requires IsPayloadInfo(info) && '`' !in info && forall c :: c in info ==> !IsLineTerminator(c)
    ensures FindPatchPayload(Fenced(payload, info, length)) == Some(payload) <==> Terminated(payload)
  {
    var blocks := BlocksFrom(ToLines(Fenced(payload, info, length)), 0);
    if Terminated(payload) {
      FencedIsOneBlock(payload, info, length);
      assert IsPayloadBlock(blocks[0]);
    }
    if FindPatchPayload(Fenced(payload, info, length)) == Some(payload) {
      var i :| 0 <= i < |blocks| && IsPayloadBlock(blocks[i]) && blocks[i].payload == payload;
      PayloadsTerminated(ToLines(Fenced(payload, info, length)), 0, blocks[i]);
    }
  }

  /** The info string the producer writes. */
  lemma DiffIsPayloadInfo()
    ensures IsPayloadInfo("diff")
  {
    assert "diff"[1..] == "iff" && "iff"[1..] == "ff" && "ff"[1..] == "f";
    assert Word("diff") == "diff" && Lower("diff") == "diff";
  }
}
