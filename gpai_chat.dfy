/**
 * GPAIChat: a terminal-style chat about the site's author. Six canned
 * commands answer with fixed texts; typed input is trimmed and lower-cased
 * and resolved by exact key, then by a loose match, then by a "not
 * recognized" message. Answers are revealed five characters per tick and
 * shown through a small markdown-like renderer.
 */
module GPAIChat {
  import opened Wrappers
  import opened JsString
  import Seqs

  // ---------------------------------------------------------------------
  // Mini-markdown renderer
  // ---------------------------------------------------------------------

  /** The marker of a skill-level line. */
  const BAR: string := "████"

  /** What `renderContent` makes of one line. */
  datatype Block =
    | Heading1(text: string)
    | Heading2(text: string)
    | Bullet(text: string)
    | LabelLine(caption: string, value: string)
    | CodeTag(text: string)
    | SkillBar(skill: string, bar: string)
    | Spacer
    | Paragraph(text: string)

  /** No two stars stand side by side in `s`. */
  predicate NoDoubleStar(s: string)
  {
    forall i :: 0 <= i < |s| - 1 ==> !(s[i] == '*' && s[i + 1] == '*')
  }

  predicate NotStar(ch: char)
  {
    ch != '*'
  }

  /** The global replace of `**` by nothing: every double star removed, scanning left to right. */
  function StripStars(s: string): (r: string)
    ensures |r| <= |s|
    ensures NoDoubleStar(r)
    ensures |s| > 0 && s[0] != '*' ==> |r| > 0 && r[0] == s[0]
    decreases |s|
  {
    if |s| == 0 then ""
    else if StartsWith(s, "**") then StripStars(s[2..])
    else [s[0]] + StripStars(s[1..])
  }

  /** Stripping removes stars only, two at a time: every other character stays, in order. */
  lemma {:induction false} StripStarsKeeps(s: string)
    ensures Seqs.Filter(NotStar, StripStars(s)) == Seqs.Filter(NotStar, s)
    decreases |s|
  {
    if |s| == 0 {
    } else if StartsWith(s, "**") {
      StripStarsKeeps(s[2..]);
      DropPair(s);
    } else {
      StripStarsKeeps(s[1..]);
      Seqs.FilterCons(NotStar, s[0], StripStars(s[1..]));
    }
  }

  /** The stars go in pairs: stripping shortens a text by an even number of characters. */
  lemma {:induction false} StripStarsEven(s: string)
    ensures (|s| - |StripStars(s)|) % 2 == 0
    decreases |s|
  {
    if |s| > 0 {
      var k := if StartsWith(s, "**") then 2 else 1;
      StripStarsEven(s[k..]);
      var d := |s[k..]| - |StripStars(s[k..])|;
      assert |s| - |StripStars(s)| == (if k == 2 then d + 2 else d);
    }
  }

  /** A leading double star does not count among the characters that are not stars. */
  lemma DropPair(s: string)
    requires StartsWith(s, "**")
    ensures Seqs.Filter(NotStar, s) == Seqs.Filter(NotStar, s[2..])
  {
    assert s[0] == s[..2][0] && s[1] == s[..2][1];
    assert s[1..][1..] == s[2..];
  }

  /** A text without a double star is left as it is. */
  lemma {:induction false} StripStarsFixed(s: string)
    requires NoDoubleStar(s)
    ensures StripStars(s) == s
    decreases |s|
  {
    if |s| > 0 {
      assert !StartsWith(s, "**") by {
        if |s| >= 2 {
          assert s[..2][0] == s[0] && s[..2][1] == s[1];
        }
      }
      assert NoDoubleStar(s[1..]) by {
        forall i | 0 <= i < |s[1..]| - 1 ensures !(s[1..][i] == '*' && s[1..][i + 1] == '*') {
          assert s[1..][i] == s[i + 1] && s[1..][i + 1] == s[i + 2];
        }
      }
      StripStarsFixed(s[1..]);
      assert [s[0]] + s[1..] == s;
    }
  }

  /**
   * `line.split(':**')[0]` and `[1]` for a line holding the separator: the
   * text before its first occurrence, and the text from there up to the next
   * occurrence or the end.
   */
  function SplitLabel(line: string): (r: (string, string))
    requires Includes(line, ":**")
    ensures StartsWith(line, r.0 + ":**" + r.1)
    ensures forall k :: 0 <= k < |r.0| ==> !OccursAt(line, ":**", k)
    ensures !Includes(r.1, ":**")
    ensures |r.0| + 3 + |r.1| == |line| || OccursAt(line, ":**", |r.0| + 3 + |r.1|)
  {
    var i := IndexOf(line, ":**").value;
    var rest := line[i + 3..];
    var j := match IndexOf(rest, ":**") case Some(j) => j case None => |rest|;
    assert line[..i + 3 + j] == line[..i] + ":**" + rest[..j];
    PieceFree(rest, j);
    assert j < |rest| ==> line[i + 3 + j..i + 6 + j] == rest[j..j + 3];
    (line[..i], rest[..j])
  }

  /** The text before the first separator of `rest` holds no separator. */
  lemma PieceFree(rest: string, j: nat)
    requires j <= |rest|
    requires forall k :: 0 <= k < j ==> !OccursAt(rest, ":**", k)
    ensures !Includes(rest[..j], ":**")
  {
    if Includes(rest[..j], ":**") {
      var k := IndexOf(rest[..j], ":**").value;
      assert rest[..j][k..k + 3] == rest[k..k + 3];
      assert OccursAt(rest, ":**", k);
    }
  }

  /** The line starts with one of the markers tested before the skill bar. */
  predicate HasMarker(line: string)
  {
    || StartsWith(line, "# ") || StartsWith(line, "## ")
    || StartsWith(line, "• ") || StartsWith(line, "- ")
    || (StartsWith(line, "**") && Includes(line, ":**"))
    || StartsWith(line, "`")
  }

  lemma NotAllSpace(line: string, k: nat)
    requires k < |line| && !IsSpace(line[k])
    ensures !AllSpace(line)
  {
  }

  /** Each marker fixes the first character, so the markers exclude each other and blank lines. */
  lemma MarkerHeads(line: string)
    ensures StartsWith(line, "# ") ==> line[0] == '#' && line[1] == ' '
    ensures StartsWith(line, "## ") ==> line[0] == '#' && line[1] == '#'
    ensures StartsWith(line, "• ") ==> line[0] == '•'
    ensures StartsWith(line, "- ") ==> line[0] == '-'
    ensures StartsWith(line, "**") ==> line[0] == '*'
    ensures StartsWith(line, "`") ==> line[0] == '`'
    ensures HasMarker(line) ==> !AllSpace(line)
  {
    if |line| >= 2 {
      assert line[..2][0] == line[0] && line[..2][1] == line[1];
    }
    if |line| >= 3 {
      assert line[..3][0] == line[0] && line[..3][1] == line[1];
    }
    if |line| >= 1 {
      assert line[..1][0] == line[0];
    }
  }

  /** The eight rules of `renderContent`, in the order they are tried. */
  datatype Rule = H1Rule | H2Rule | BulletRule | LabelRule | CodeRule | BarRule | BlankRule | TextRule

  /** The first rule whose test the line passes. */
  function RuleFor(line: string): Rule
  {
    if StartsWith(line, "# ") then H1Rule
    else if StartsWith(line, "## ") then H2Rule
    else if StartsWith(line, "• ") || StartsWith(line, "- ") then BulletRule
    else if StartsWith(line, "**") && Includes(line, ":**") then LabelRule
    else if StartsWith(line, "`Tech:") || StartsWith(line, "`") then CodeRule
    else if Includes(line, BAR) then BarRule
    else if Trim(line) == "" then BlankRule
    else TextRule
  }

  function KindOf(b: Block): Rule
  {
    match b
    case Heading1(_) => H1Rule
    case Heading2(_) => H2Rule
    case Bullet(_) => BulletRule
    case LabelLine(_, _) => LabelRule
    case CodeTag(_) => CodeRule
    case SkillBar(_, _) => BarRule
    case Spacer => BlankRule
    case Paragraph(_) => TextRule
  }

  predicate NotBacktick(ch: char)
  {
    ch != '`'
  }

  /**
   * A tag line with its backticks removed: exactly the other characters, in
   * order, one fewer for every backtick.
   */
  function TagText(line: string): (t: string)
    ensures '`' !in t && Seqs.SubsequenceOf(t, line)
    ensures |t| == |line| - multiset(line)['`']
    ensures '`' in line ==> |t| < |line|
  {
    Seqs.FilterIsSubsequence(NotBacktick, line);
    Seqs.FilterOutValue(NotBacktick, '`', line);
    Seqs.Filter(NotBacktick, line)
  }

  /**
   * `renderContent` for one line: the block of the first rule that matches.
   * Headings and bullets drop their marker, a label line loses its double
   * stars, a tag its backticks, and a paragraph keeps the line as it is.
   */
  function ClassifyLine(line: string): (b: Block)
    ensures KindOf(b) == RuleFor(line)
    ensures b.Heading1? ==> line == "# " + b.text
    ensures b.Heading2? ==> line == "## " + b.text
    ensures b.Bullet? ==> line == "• " + b.text || line == "- " + b.text
    ensures b.LabelLine? ==> Includes(line, ":**") && NoDoubleStar(b.caption) && NoDoubleStar(b.value)
    ensures b.LabelLine? ==> b.caption == StripStars(SplitLabel(line).0) && b.value == StripStars(SplitLabel(line).1)
    ensures b.CodeTag? ==> b.text == TagText(line) && |b.text| < |line|
    ensures b.SkillBar? ==> b == SkillBarOf(line)
    ensures b.Paragraph? ==> b.text == line
  {
    match RuleFor(line)
    case H1Rule => Heading1(AfterMarker(line, "# "))
    case H2Rule => Heading2(AfterMarker(line, "## "))
    case BulletRule => Bullet(AfterMarker(line, if StartsWith(line, "• ") then "• " else "- "))
    case LabelRule => LabelOf(line)
    case CodeRule =>
      assert line[0] in line && line[0] == '`';
      CodeTag(TagText(line))
    case BarRule => SkillBarOf(line)
    case BlankRule => Spacer
    case TextRule => Paragraph(line)
  }

  /** The rest of a line after its marker. */
  function AfterMarker(line: string, marker: string): (t: string)
    requires StartsWith(line, marker)
    ensures line == marker + t
  {
    line[|marker|..]
  }

  /** A label line: caption and value split at the separator, each with its double stars removed. */
  function LabelOf(line: string): (b: Block)
    requires Includes(line, ":**")
    ensures b.LabelLine? && NoDoubleStar(b.caption) && NoDoubleStar(b.value)
    ensures b.caption == StripStars(SplitLabel(line).0) && b.value == StripStars(SplitLabel(line).1)
  {
    var (caption, value) := SplitLabel(line);
    LabelLine(StripStars(caption), StripStars(value))
  }

  /**
   * A skill-bar line: its first white-space-separated word, and the rest
   * joined by single spaces. The skill is the longest start of the line
   * without white space.
   */
  function SkillBarOf(line: string): (b: Block)
    ensures b.SkillBar? && NoSpace(b.skill)
    ensures StartsWith(line, b.skill) && (|b.skill| < |line| ==> IsSpace(line[|b.skill|]))
  {
    var parts := Words(line);
    assert parts[0] == line[..FirstWhere(line, IsSpace)];
    SkillBar(parts[0], Join(parts[1..], " "))
  }

  /** A line with one of the markers falls under the first marker it starts with. */
  lemma MarkerRules(line: string)
    ensures RuleFor(line) == H1Rule <==> StartsWith(line, "# ")
    ensures RuleFor(line) == H2Rule <==> StartsWith(line, "## ")
    ensures RuleFor(line) == BulletRule <==> StartsWith(line, "• ") || StartsWith(line, "- ")
    ensures RuleFor(line) == LabelRule <==> StartsWith(line, "**") && Includes(line, ":**")
    ensures RuleFor(line) == CodeRule <==> StartsWith(line, "`")
  {
    MarkerHeads(line);
  }

  /** A line with no marker is a skill bar if it holds the bar, else blank if all white space, else a paragraph. */
  lemma UnmarkedRules(line: string)
    ensures RuleFor(line) == BarRule <==> Includes(line, BAR) && !HasMarker(line)
    ensures RuleFor(line) == BlankRule <==> AllSpace(line)
    ensures RuleFor(line) == TextRule <==> !HasMarker(line) && !Includes(line, BAR) && !AllSpace(line)
  {
    MarkerHeads(line);
    TrimEmptyIff(line);
    if Includes(line, BAR) {
      BarNotBlank(line);
    }
  }

  lemma BarNotBlank(line: string)
    requires Includes(line, BAR)
    ensures !AllSpace(line)
  {
    var k := IndexOf(line, BAR).value;
    assert line[k] == line[k..k + 4][0];
    NotAllSpace(line, k);
  }

  /** `renderContent`: one block per line of the content. */
  function RenderContent(content: string): seq<Block>
  {
    var lines := Lines(content);
    seq(|lines|, i requires 0 <= i < |lines| => ClassifyLine(lines[i]))
  }

  lemma NewlinesAround(head: string, tail: string)
    ensures multiset(head + "\n" + tail)['\n'] == multiset(head)['\n'] + 1 + multiset(tail)['\n']
  {
    assert head + "\n" + tail == head + ("\n" + tail);
  }

  lemma NoNewlineBefore(s: string, i: nat)
    requires i <= |s| && forall k :: 0 <= k < i ==> s[k] != '\n'
    ensures multiset(s[..i])['\n'] == 0
  {
    assert forall k :: 0 <= k < i ==> s[..i][k] == s[k];
  }

  /** The first line feed, and none before it, accounts for one line feed of the text. */
  lemma FirstNewline(s: string, i: nat)
    requires i < |s| && s[i] == '\n' && forall k :: 0 <= k < i ==> s[k] != '\n'
    ensures multiset(s)['\n'] == 1 + multiset(s[i + 1..])['\n']
  {
    NoNewlineBefore(s, i);
    assert s == s[..i] + "\n" + s[i + 1..];
    NewlinesAround(s[..i], s[i + 1..]);
  }

  lemma {:induction false} LinesCount(s: string)
    ensures |Lines(s)| == 1 + multiset(s)['\n']
    decreases |s|
  {
    var i := Seqs.FirstIndex(s, '\n');
    if i < |s| {
      LinesCount(s[i + 1..]);
      FirstNewline(s, i);
    } else {
      NoNewlineBefore(s, i);
      assert s[..i] == s;
    }
  }

  /** The renderer emits exactly one element per line: one more than the number of line feeds. */
  lemma BlockPerLine(content: string)
    ensures |RenderContent(content)| == 1 + multiset(content)['\n']
  {
    LinesCount(content);
  }

  // ---------------------------------------------------------------------
  // Inline bold
  // ---------------------------------------------------------------------

  /** A match of the bold pattern: two stars, at least one character other than a star, two stars. */
  predicate IsBold(p: string)
  {
    |p| >= 5 && p[0] == '*' && p[1] == '*' && p[|p| - 2] == '*' && p[|p| - 1] == '*' &&
    forall k :: 2 <= k < |p| - 2 ==> p[k] != '*'
  }

  /** No piece of `p` matches the bold pattern. */
  predicate NoBold(p: string)
  {
    forall i, e :: 0 <= i <= e <= |p| ==> !IsBold(p[i..e])
  }

  /** The position of the first star in `s` at or after `i`, or `|s|`. */
  function NextStar(s: string, i: nat): (j: nat)
    requires i <= |s|
    ensures i <= j <= |s|
    ensures forall k :: i <= k < j ==> s[k] != '*'
    ensures j < |s| ==> s[j] == '*'
    decreases |s| - i
  {
    if i == |s| || s[i] == '*' then i else NextStar(s, i + 1)
  }

  /** The end of the match of the bold pattern that starts at `i`, if one does. */
  function MatchEnd(s: string, i: nat): (r: Option<nat>)
    requires i <= |s|
    ensures r.Some? ==> i < r.value <= |s| && IsBold(s[i..r.value])
    ensures r.None? ==> forall e :: i <= e <= |s| ==> !IsBold(s[i..e])
  {
    if i + 2 <= |s| && s[i] == '*' && s[i + 1] == '*' then
      var j := NextStar(s, i + 2);
      if j > i + 2 && j + 2 <= |s| && s[j + 1] == '*' then Some(j + 2) else None
    else None
  }

  /** The leftmost position at or after `i` where a match of the bold pattern starts. */
  function NextBold(s: string, i: nat): (r: Option<nat>)
    requires i <= |s|
    ensures r.Some? ==> i <= r.value < |s| && MatchEnd(s, r.value).Some?
    ensures forall k :: i <= k <= |s| && (r.None? || k < r.value) ==> MatchEnd(s, k).None?
    decreases |s| - i
  {
    if MatchEnd(s, i).Some? then Some(i)
    else if i == |s| then None
    else NextBold(s, i + 1)
  }

  /**
   * `text.split` on the bold pattern with its capturing group: the text
   * before the first match, the match, and so on, ending with the text after
   * the last match.
   */
  function SplitBold(text: string): (parts: seq<string>)
    ensures |parts| % 2 == 1
    decreases |text|
  {
    match NextBold(text, 0)
    case None => [text]
    case Some(a) =>
      var b := MatchEnd(text, a).value;
      [text[..a], text[a..b]] + SplitBold(text[b..])
  }

  /** The pieces are the matches, at odd positions, and the text between them, which holds no match. */
  lemma {:induction false} SplitBoldShape(text: string)
    ensures forall k :: 0 <= k < |SplitBold(text)| && k % 2 == 1 ==> IsBold(SplitBold(text)[k])
    ensures forall k :: 0 <= k < |SplitBold(text)| && k % 2 == 0 ==> NoBold(SplitBold(text)[k])
    decreases |text|
  {
    match NextBold(text, 0)
    case None =>
      NoMatchNoBold(text, |text|);
      assert text[..|text|] == text;
    case Some(a) =>
      var b := MatchEnd(text, a).value;
      NoMatchNoBold(text, a);
      SplitBoldShape(text[b..]);
      var rest := SplitBold(text[b..]);
      var parts := SplitBold(text);
      assert parts == [text[..a], text[a..b]] + rest;
      forall k | 2 <= k < |parts| ensures parts[k] == rest[k - 2] && (k % 2 == (k - 2) % 2) {
      }
  }

  /** With no match starting before `a`, the first `a` characters hold no match. */
  lemma NoMatchNoBold(s: string, a: nat)
    requires a <= |s|
    requires forall k :: 0 <= k < a ==> MatchEnd(s, k).None?
    ensures NoBold(s[..a])
  {
    forall i, e | 0 <= i <= e <= a ensures !IsBold(s[..a][i..e]) {
      assert s[..a][i..e] == s[i..e];
      if i < a {
        assert MatchEnd(s, i).None?;
        assert !IsBold(s[i..e]);
      }
    }
  }

  lemma JoinPair(x: string, y: string, rest: seq<string>)
    ensures Concat([x, y] + rest) == x + y + Concat(rest)
  {
    ConcatPair(x, y, rest);
  }

  /** Splitting loses nothing: the pieces put back together give the text. */
  lemma {:induction false} SplitBoldJoin(text: string)
    ensures Concat(SplitBold(text)) == text
    decreases |text|
  {
    match NextBold(text, 0)
    case None =>
    case Some(a) =>
      var b := MatchEnd(text, a).value;
      SplitBoldJoin(text[b..]);
      JoinPair(text[..a], text[a..b], SplitBold(text[b..]));
      assert text == text[..a] + text[a..b] + text[b..];
  }

  /** A piece of rendered text: shown as it is, or bold. */
  datatype Segment = Plain(text: string) | Bold(text: string)

  /** `part.slice(2, -2)`: the piece without its first two and last two characters. */
  function Inner(part: string): string
  {
    if |part| >= 4 then part[2..|part| - 2] else ""
  }

  /** `renderInlineStyles` as written: every piece that starts and ends with two stars is shown bold without them. */
  function InlineStylesAsWritten(text: string): seq<Segment>
  {
    var parts := SplitBold(text);
    seq(|parts|, k requires 0 <= k < |parts| =>
      if StartsWith(parts[k], "**") && EndsWith(parts[k], "**") then Bold(Inner(parts[k])) else Plain(parts[k]))
  }

  /** The pieces of a split styled by position: the matches bold without their stars, the rest as they are. */
  function Styled(parts: seq<string>): seq<Segment>
  {
    seq(|parts|, k requires 0 <= k < |parts| => if k % 2 == 1 then Bold(Inner(parts[k])) else Plain(parts[k]))
  }

  /** `renderInlineStyles` as intended: only the matches of the bold pattern are shown bold. */
  function InlineStyles(text: string): seq<Segment>
  {
    Styled(SplitBold(text))
  }

  /** The characters a segment list puts on screen. */
  function Shown(segments: seq<Segment>): string
    decreases |segments|
  {
    if |segments| == 0 then "" else segments[0].text + Shown(segments[1..])
  }

  /** The markup a segment list stands for: bold segments get their two stars back on each side. */
  function Markup(segments: seq<Segment>): string
    decreases |segments|
  {
    if |segments| == 0 then ""
    else (match segments[0] case Plain(t) => t case Bold(t) => "**" + t + "**") + Markup(segments[1..])
  }

  lemma BoldInner(p: string)
    requires IsBold(p)
    ensures "**" + Inner(p) + "**" == p
  {
    assert p == p[..2] + p[2..|p| - 2] + p[|p| - 2..];
  }

  lemma StyledDrop2(parts: seq<string>)
    requires |parts| >= 2
    ensures Styled(parts) == [Plain(parts[0]), Bold(Inner(parts[1]))] + Styled(parts[2..])
  {
    var r := [Plain(parts[0]), Bold(Inner(parts[1]))] + Styled(parts[2..]);
    forall k | 2 <= k < |parts| ensures Styled(parts)[k] == r[k] {
      assert k % 2 == (k - 2) % 2;
    }
  }

  lemma MarkupPair(x: string, y: string, rest: seq<Segment>)
    ensures Markup([Plain(x), Bold(y)] + rest) == x + ("**" + y + "**") + Markup(rest)
  {
    var segs := [Plain(x), Bold(y)] + rest;
    assert segs[1..] == [Bold(y)] + rest;
    assert ([Bold(y)] + rest)[1..] == rest;
  }

  lemma OddTail(parts: seq<string>)
    requires |parts| >= 2
    requires forall k :: 0 <= k < |parts| && k % 2 == 1 ==> IsBold(parts[k])
    ensures forall k :: 0 <= k < |parts| - 2 && k % 2 == 1 ==> IsBold(parts[2..][k])
  {
    forall k | 0 <= k < |parts| - 2 && k % 2 == 1 ensures IsBold(parts[2..][k]) {
      assert parts[2..][k] == parts[k + 2] && (k + 2) % 2 == 1;
    }
  }

  /** Styling the pieces by position and writing the stars back gives the pieces joined up. */
  lemma {:induction false} MarkupOfStyled(parts: seq<string>)
    requires |parts| % 2 == 1
    requires forall k :: 0 <= k < |parts| && k % 2 == 1 ==> IsBold(parts[k])
    ensures Markup(Styled(parts)) == Concat(parts)
    decreases |parts|
  {
    if |parts| == 1 {
      assert Styled(parts) == [Plain(parts[0])];
    } else {
      var rest := parts[2..];
      OddTail(parts);
      MarkupOfStyled(rest);
      StyledDrop2(parts);
      MarkupPair(parts[0], Inner(parts[1]), Styled(rest));
      BoldInner(parts[1]);
      assert parts == [parts[0], parts[1]] + rest;
      JoinPair(parts[0], parts[1], rest);
    }
  }

  /** Rendering keeps the text: writing the stars back around the bold segments gives the input. */
  lemma InlineStylesRoundTrip(text: string)
    ensures Markup(InlineStyles(text)) == text
  {
    SplitBoldShape(text);
    MarkupOfStyled(SplitBold(text));
    SplitBoldJoin(text);
  }

  /** On the matches the code as written does what is intended; the two can differ only on the text between them. */
  lemma AsWrittenOnMatches(text: string)
    ensures |InlineStylesAsWritten(text)| == |InlineStyles(text)|
    ensures forall k :: 0 <= k < |InlineStyles(text)| && k % 2 == 1 ==> InlineStylesAsWritten(text)[k] == InlineStyles(text)[k]
  {
    SplitBoldShape(text);
  }

  /** A line `**` is not a match, yet the code as written shows it as an empty bold piece: its text disappears. */
  lemma LoneStarsVanish()
    ensures InlineStylesAsWritten("**") == [Bold("")]
    ensures Shown(InlineStylesAsWritten("**")) == ""
    ensures Shown(InlineStyles("**")) == "**"
  {
    assert MatchEnd("**", 0).None?;
    assert NextBold("**", 0).None?;
    assert SplitBold("**") == ["**"];
  }

  // ---------------------------------------------------------------------
  // Commands
  // ---------------------------------------------------------------------

  /** A suggestion card: its label (`title` here) and the command it sends. */
  datatype Prompt = Prompt(title: string, command: string)

  const PROMPTS: seq<Prompt> := [
    Prompt("About Me", "whoami"),
    Prompt("Experience", "cat experience.md"),
    Prompt("Projects", "ls ~/projects"),
    Prompt("Skills", "grep -r \"skills\""),
    Prompt("Education", "cat education.txt"),
    Prompt("Contact", "curl contact.json")
  ]

  /** The keys of the response table, in declaration order. */
  const COMMANDS: seq<string> := ["whoami", "cat experience.md", "ls ~/projects", "grep -r \"skills\"", "cat education.txt", "curl contact.json"]

  /** The answer to a prompt whose command has no entry. */
  const NOT_FOUND: string := "Command not found. Try another prompt."

  /** What follows the command in the "not recognized" answer. */
  const TRY_LIST: string := "' not recognized.\n\nTry: whoami, cat experience.md, ls ~/projects, grep -r \"skills\", cat education.txt, or curl contact.json"

  /** The answer to typed input that matches nothing, naming the input. */
  function NotRecognized(command: string): string
  {
    "Command '" + command + TRY_LIST
  }

  /** `input.trim().toLowerCase()`: the command typed input stands for. */
  function Command(input: string): string
  {
    ToLower(Trim(input))
  }

  lemma LowerKeepsSpace(ch: char)
    ensures IsSpace(LowerChar(ch)) <==> IsSpace(ch)
  {
  }

  lemma TrimmedIsTrim(s: string)
    requires |s| > 0 ==> !IsSpace(s[0]) && !IsSpace(s[|s| - 1])
    ensures Trim(s) == s
  {
    var a, b :| 0 <= a <= b <= |s| && Trim(s) == s[a..b] && AllSpace(s[..a]) && AllSpace(s[b..]);
    if |s| > 0 {
      if a > 0 { assert s[..a][0] == s[0]; }
      if b < |s| { assert s[b..][|s| - 1 - b] == s[|s| - 1]; }
    }
    assert s[0..|s|] == s;
  }

  lemma LowerTwice(s: string)
    ensures ToLower(ToLower(s)) == ToLower(s)
  {
    assert forall i :: 0 <= i < |s| ==> LowerChar(LowerChar(s[i])) == LowerChar(s[i]);
  }

  /**
   * A command has no white space at either end and no capital letter, and
   * normalising it again changes nothing.
   */
  lemma CommandNormal(input: string)
    ensures var c := Command(input);
      (|c| > 0 ==> !IsSpace(c[0]) && !IsSpace(c[|c| - 1])) &&
      NoCapital(c) &&
      Command(c) == c
  {
    var t := Trim(input);
    var c := ToLower(t);
    if |c| > 0 {
      LowerKeepsSpace(t[0]);
      LowerKeepsSpace(t[|t| - 1]);
    }
    TrimmedIsTrim(c);
    LowerTwice(t);
  }

  /** `RESPONSES[key]` read as an own property: the text of the entry with that key, if there is one. */
  function Lookup(keys: seq<string>, texts: seq<string>, key: string): (r: Option<string>)
    requires |keys| == |texts|
    ensures r.Some? <==> key in keys
    ensures r.Some? ==> exists i :: 0 <= i < |keys| && keys[i] == key && texts[i] == r.value
  {
    var i := Seqs.FirstIndex(keys, key);
    if i < |keys| then Some(texts[i]) else None
  }

  /** The loose match: the key contains the command, or the command contains the key's first word. */
  predicate LooseMatch(key: string, command: string)
  {
    Includes(key, command) || Includes(command, FirstWord(key))
  }

  /** `Object.keys(RESPONSES).find(...)`: the position of the first key that matches loosely, or `|keys|`. */
  function FirstLoose(keys: seq<string>, command: string): (i: nat)
    ensures i <= |keys|
    ensures forall j :: 0 <= j < i ==> !LooseMatch(keys[j], command)
    ensures i < |keys| ==> LooseMatch(keys[i], command)
    decreases |keys|
  {
    if |keys| == 0 || LooseMatch(keys[0], command) then 0 else 1 + FirstLoose(keys[1..], command)
  }

  /** The fallback of `handleSubmit`: the text of the first loosely matching key, or the "not recognized" answer. */
  function LooseReply(keys: seq<string>, texts: seq<string>, command: string): string
    requires |keys| == |texts|
  {
    var i := FirstLoose(keys, command);
    if i < |keys| && keys[i] != "" then Lookup(keys, texts, keys[i]).value else NotRecognized(command)
  }

  /**
   * `handleSubmit`'s answer to a command: the entry with that key if its text
   * is not empty, otherwise the loose fallback.
   */
  function Resolve(keys: seq<string>, texts: seq<string>, command: string): (r: string)
    requires |keys| == |texts|
  {
    match Lookup(keys, texts, command)
    case Some(t) => if t != "" then t else LooseReply(keys, texts, command)
    case None => LooseReply(keys, texts, command)
  }

  /** An answer is either one of the texts or the "not recognized" message for the command. */
  lemma ResolveRange(keys: seq<string>, texts: seq<string>, command: string)
    requires |keys| == |texts|
    ensures Resolve(keys, texts, command) in texts || Resolve(keys, texts, command) == NotRecognized(command)
  {
    var i := FirstLoose(keys, command);
    if i < |keys| && keys[i] != "" {
      assert keys[i] in keys;
    }
  }

  /** An exact key with a non-empty text wins, even where an earlier key would match loosely. */
  lemma ResolveExact(keys: seq<string>, texts: seq<string>, k: nat)
    requires |keys| == |texts| && k < |keys| && texts[k] != ""
    requires forall j :: 0 <= j < k ==> keys[j] != keys[k]
    ensures Resolve(keys, texts, keys[k]) == texts[k]
  {
  }

  /**
   * A command that is not a key gets the text of the first key that matches
   * it loosely, or the "not recognized" answer when none does.
   */
  lemma ResolveFallback(keys: seq<string>, texts: seq<string>, command: string)
    requires |keys| == |texts| && command !in keys
    requires forall a, b :: 0 <= a < b < |keys| ==> keys[a] != keys[b]
    requires forall j :: 0 <= j < |keys| ==> keys[j] != ""
    ensures (forall j :: 0 <= j < |keys| ==> !LooseMatch(keys[j], command)) ==>
      Resolve(keys, texts, command) == NotRecognized(command)
    ensures forall j :: (0 <= j < |keys| && LooseMatch(keys[j], command) &&
      forall m :: 0 <= m < j ==> !LooseMatch(keys[m], command)) ==>
      Resolve(keys, texts, command) == texts[j]
  {
    var i := FirstLoose(keys, command);
    if i < |keys| {
      var k := Seqs.FirstIndex(keys, keys[i]);
      assert k == i;
    }
  }

  /** The command table's shape: six distinct non-empty keys, one suggestion card per key, in the same order. */
  lemma TableShape()
    ensures |COMMANDS| == |PROMPTS| == 6
    ensures forall a, b :: 0 <= a < b < |COMMANDS| ==> COMMANDS[a] != COMMANDS[b]
    ensures forall j :: 0 <= j < |COMMANDS| ==> COMMANDS[j] != ""
    ensures forall j :: 0 <= j < |PROMPTS| ==> PROMPTS[j].command == COMMANDS[j]
  {
  }

  /** One non-empty answer per key, as the response table holds. */
  predicate Answers(texts: seq<string>)
  {
    |texts| == |COMMANDS| && forall j :: 0 <= j < |texts| ==> texts[j] != ""
  }

  /** `RESPONSES[prompt.command] || 'Command not found...'`: the answer to a suggestion card. */
  function PromptReply(keys: seq<string>, texts: seq<string>, command: string): string
    requires |keys| == |texts|
  {
    match Lookup(keys, texts, command)
    case Some(t) => if t != "" then t else NOT_FOUND
    case None => NOT_FOUND
  }

  /** Every suggestion card is answered with the text of its own command; "Command not found" never shows. */
  lemma PromptsAnswered(texts: seq<string>, j: nat)
    requires Answers(texts) && j < |PROMPTS|
    ensures PromptReply(COMMANDS, texts, PROMPTS[j].command) == texts[j]
    ensures Resolve(COMMANDS, texts, PROMPTS[j].command) == texts[j]
  {
    TableShape();
    ResolveExact(COMMANDS, texts, j);
    assert Seqs.FirstIndex(COMMANDS, COMMANDS[j]) == j;
  }

  // ---------------------------------------------------------------------
  // The property read as written
  // ---------------------------------------------------------------------

  /** The members every object literal inherits from `Object.prototype`. */
  const OBJECT_PROTOTYPE: seq<string> := [
    "constructor", "__defineGetter__", "__defineSetter__", "hasOwnProperty", "__lookupGetter__",
    "__lookupSetter__", "isPrototypeOf", "propertyIsEnumerable", "toString", "valueOf",
    "__proto__", "toLocaleString"
  ]

  /** What the read `RESPONSES[key]` yields: an own text, an inherited member (a function or an object), or `undefined`. */
  datatype Property = Own(text: string) | Inherited(name: string) | Undefined

  function ReadProperty(keys: seq<string>, texts: seq<string>, key: string): (p: Property)
    requires |keys| == |texts|
    ensures p.Inherited? <==> key !in keys && key in OBJECT_PROTOTYPE
  {
    match Lookup(keys, texts, key)
    case Some(t) => Own(t)
    case None => if key in OBJECT_PROTOTYPE then Inherited(key) else Undefined
  }

  /** What `handleSubmit` goes on to type: a string, or an inherited member that is not one. */
  datatype Reply = Text(text: string) | NotText(member: string)

  /** `handleSubmit`'s lookup as written: an inherited member is truthy, so it is taken as the answer. */
  function ResolveAsWritten(keys: seq<string>, texts: seq<string>, command: string): Reply
    requires |keys| == |texts|
  {
    match ReadProperty(keys, texts, command)
    case Own(t) => Text(if t != "" then t else LooseReply(keys, texts, command))
    case Inherited(name) => NotText(name)
    case Undefined => Text(LooseReply(keys, texts, command))
  }

  /** Away from the inherited names the lookup as written and the own-key lookup agree. */
  lemma AsWrittenAgrees(keys: seq<string>, texts: seq<string>, command: string)
    requires |keys| == |texts|
    requires command in keys || command !in OBJECT_PROTOTYPE
    ensures ResolveAsWritten(keys, texts, command) == Text(Resolve(keys, texts, command))
  {
  }

  /** Every inherited name other than `constructor` and `__proto__` has a capital letter. */
  lemma CapitalNames()
    ensures forall k :: 0 <= k < |OBJECT_PROTOTYPE| && OBJECT_PROTOTYPE[k] != "constructor" && OBJECT_PROTOTYPE[k] != "__proto__" ==>
      !NoCapital(OBJECT_PROTOTYPE[k])
  {
    assert OBJECT_PROTOTYPE[1][8] == 'G' && OBJECT_PROTOTYPE[2][8] == 'S' && OBJECT_PROTOTYPE[3][3] == 'O';
    assert OBJECT_PROTOTYPE[4][8] == 'G' && OBJECT_PROTOTYPE[5][8] == 'S' && OBJECT_PROTOTYPE[6][2] == 'P';
    assert OBJECT_PROTOTYPE[7][8] == 'I' && OBJECT_PROTOTYPE[8][2] == 'S' && OBJECT_PROTOTYPE[9][5] == 'O';
    assert OBJECT_PROTOTYPE[11][2] == 'L';
  }

  /** Of the inherited names, only two have no capital letter, so only they survive the lower-casing. */
  lemma ReachableInherited(input: string)
    ensures Command(input) in OBJECT_PROTOTYPE ==> Command(input) == "constructor" || Command(input) == "__proto__"
  {
    CommandNormal(input);
    CapitalNames();
    var c := Command(input);
    assert NoCapital(c);
  }

  /**
   * A key does not match a command loosely when a character of the command
   * sits too early in the key (or is missing from it), and a character of the
   * key's first word is missing from the command.
   */
  lemma NoLooseMatch(key: string, command: string, i: nat, w: nat)
    requires i < |command| && forall j :: 0 <= j < |key| && key[j] == command[i] ==> j < i
    requires w < |key| && forall j :: 0 <= j <= w ==> key[j] != ' '
    requires forall j :: 0 <= j < |command| ==> command[j] != key[w]
    ensures !LooseMatch(key, command)
  {
    NotIncluded(key, command, i);
    WordChar(key, w);
    NotIncluded(command, FirstWord(key), w);
  }

  // One lemma per key: stated together, the six facts about literal strings
  // are far more work for the solver than apart.

  lemma WhoamiMissesConstructor()
    ensures !LooseMatch(COMMANDS[0], "constructor")
  {
    var key := COMMANDS[0];
    assert key == "whoami";
    NoLooseMatch(key, "constructor", 0, 0);
  }

  lemma ExperienceMissesConstructor()
    ensures !LooseMatch(COMMANDS[1], "constructor")
  {
    var key := COMMANDS[1];
    assert key == "cat experience.md";
    NoLooseMatch(key, "constructor", 6, 1);
  }

  lemma ProjectsMissesConstructor()
    ensures !LooseMatch(COMMANDS[2], "constructor")
  {
    var key := COMMANDS[2];
    assert key == "ls ~/projects";
    NoLooseMatch(key, "constructor", 6, 0);
  }

  lemma SkillsMissesConstructor()
    ensures !LooseMatch(COMMANDS[3], "constructor")
  {
    var key := COMMANDS[3];
    assert key == "grep -r \"skills\"";
    NoLooseMatch(key, "constructor", 0, 0);
  }

  lemma EducationMissesConstructor()
    ensures !LooseMatch(COMMANDS[4], "constructor")
  {
    var key := COMMANDS[4];
    assert key == "cat education.txt";
    NoLooseMatch(key, "constructor", 5, 1);
  }

  lemma ContactMissesConstructor()
    ensures !LooseMatch(COMMANDS[5], "constructor")
  {
    var key := COMMANDS[5];
    assert key == "curl contact.json";
    NoLooseMatch(key, "constructor", 10, 3);
  }

  /** The command `constructor` is not a key, and no key matches it loosely. */
  lemma ConstructorNotKey(input: string)
    requires Command(input) == "constructor"
    ensures Command(input) !in COMMANDS
  {
  }

  lemma ConstructorUnknown(input: string)
    requires Command(input) == "constructor"
    ensures FirstLoose(COMMANDS, Command(input)) == |COMMANDS|
  {
    WhoamiMissesConstructor();
    ExperienceMissesConstructor();
    ProjectsMissesConstructor();
    SkillsMissesConstructor();
    EducationMissesConstructor();
    ContactMissesConstructor();
  }

  /** Input already trimmed and in lower case is its own command; `constructor` is one. */
  lemma NormalInputKept(input: string)
    requires NoCapital(input)
    requires |input| > 0 ==> !IsSpace(input[0]) && !IsSpace(input[|input| - 1])
    ensures Command(input) == input
  {
    TrimmedIsTrim(input);
    LowerFixed(input);
  }

  /**
   * Typing `constructor` (in any case, with any surrounding space) reads the
   * inherited constructor function: the code as written goes on to type
   * something that is not a string.
   */
  lemma ConstructorIsNotAString(input: string, texts: seq<string>)
    requires Answers(texts) && Command(input) == "constructor"
    ensures ResolveAsWritten(COMMANDS, texts, Command(input)) == NotText("constructor")
  {
  }

  /** The own-key lookup answers the same input with "not recognized". */
  lemma ConstructorNotRecognized(input: string, texts: seq<string>)
    requires Answers(texts) && Command(input) == "constructor"
    ensures Resolve(COMMANDS, texts, Command(input)) == NotRecognized(Command(input))
  {
    ConstructorNotKey(input);
    ConstructorUnknown(input);
    assert Lookup(COMMANDS, texts, Command(input)) == None;
    assert LooseReply(COMMANDS, texts, Command(input)) == NotRecognized(Command(input));
  }

  // ---------------------------------------------------------------------
  // The conversation
  // ---------------------------------------------------------------------

  datatype Role = User | Assistant

  /** One entry of the conversation; `isTyping` marks the answer still being revealed. */
  datatype Message = Message(role: Role, content: string, isTyping: bool)

  /** How many characters each tick of the typing interval reveals. */
  const CHARS_PER_TICK: nat := 5

  /** `response.slice(0, k)`: the first `k` characters, or all of them. */
  function Revealed(response: string, k: nat): (r: string)
    ensures |r| == if k < |response| then k else |response|
    ensures r == response[..|r|]
  {
    if k < |response| then response[..k] else response
  }

  /** More ticks never show less: what is shown grows as a prefix of the response. */
  lemma RevealedGrows(response: string, k: nat, m: nat)
    requires k <= m
    ensures Revealed(response, k) == Revealed(response, m)[..|Revealed(response, k)|]
  {
  }

  /**
   * The number of ticks the typing interval runs for a response of `n`
   * characters: it fires at least once, and stops at the first tick whose
   * count reaches `n`.
   */
  function TypingTicks(n: nat): (t: nat)
    ensures t >= 1 && CHARS_PER_TICK * t >= n
    ensures forall k :: 1 <= k < t ==> CHARS_PER_TICK * k < n
    decreases n
  {
    if n <= CHARS_PER_TICK then 1 else 1 + TypingTicks(n - CHARS_PER_TICK)
  }

  /**
   * The chat screen's state: the conversation, the text field and the
   * typing flag, with the answer texts it was built with.
   */
  class Chat {
    /** The answer to each key of `COMMANDS`, at the same position. */
    const texts: seq<string>
    var messages: seq<Message>
    var input: string
    var typing: bool

    /** Mounting: no messages, an empty field, not typing. */
    constructor (texts: seq<string>)
      requires Answers(texts)
      ensures this.texts == texts
      ensures messages == [] && input == "" && !typing
    {
      this.texts := texts;
      messages, input, typing := [], "", false;
    }

    /** The text field's change handler. */
    method Edit(value: string)
      modifies this
      ensures input == value && messages == old(messages) && typing == old(typing)
    {
      input := value;
    }

    /**
     * Submitting the field. Blank input, or input while an answer is being
     * typed, is ignored. Otherwise the field is cleared, the command is
     * echoed as the user's message, and the answer to type is returned.
     */
    method Submit() returns (reply: Option<string>)
      requires Answers(texts)
      modifies this
      ensures AllSpace(old(input)) || old(typing) ==>
        reply == None && messages == old(messages) && input == old(input) && typing == old(typing)
      ensures !AllSpace(old(input)) && !old(typing) ==>
        var command := Command(old(input));
        && input == ""
        && messages == old(messages) + [Message(User, "$ " + command, false)]
        && reply == Some(Resolve(COMMANDS, texts, command))
        && typing == old(typing)
    {
      TrimEmptyIff(input);
      if Trim(input) == "" || typing {
        return None;
      }
      var command := ToLower(Trim(input));
      input := "";
      messages := messages + [Message(User, "$ " + command, false)];
      reply := Some(Resolve(COMMANDS, texts, command));
    }

    /**
     * Clicking a suggestion card: ignored while typing; otherwise the
     * card's command is echoed and its answer returned.
     */
    method PromptClick(prompt: Prompt) returns (reply: Option<string>)
      requires Answers(texts)
      modifies this
      ensures old(typing) ==> reply == None && messages == old(messages)
      ensures !old(typing) ==>
        && messages == old(messages) + [Message(User, "$ " + prompt.command, false)]
        && reply == Some(PromptReply(COMMANDS, texts, prompt.command))
      ensures input == old(input) && typing == old(typing)
    {
      if typing {
        return None;
      }
      messages := messages + [Message(User, "$ " + prompt.command, false)];
      reply := Some(PromptReply(COMMANDS, texts, prompt.command));
    }

    /**
     * Typing an answer: an empty assistant message is appended and then,
     * tick by tick, shows the first 5, 10, ... characters of the response,
     * until the whole response is shown and typing ends. `ticks` is how
     * often the interval fired.
     */
    method TypeResponse(response: string) returns (ticks: nat)
      modifies this
      ensures messages == old(messages) + [Message(Assistant, response, false)]
      ensures !typing && input == old(input)
      ensures ticks == TypingTicks(|response|)
    {
      typing := true;
      messages := messages + [Message(Assistant, "", true)];
      var current := 0;
      ticks := 0;
      var finished := false;
      while !finished
        invariant current == CHARS_PER_TICK * ticks
        invariant !finished ==> ticks == 0 || current < |response|
        invariant !finished ==> typing && messages == old(messages) + [Message(Assistant, Revealed(response, current), true)]
        invariant finished ==> !typing && messages == old(messages) + [Message(Assistant, response, false)]
        invariant finished ==> ticks == TypingTicks(|response|)
        invariant input == old(input)
        decreases if finished then 0 else |response| + CHARS_PER_TICK - current
      {
        current := current + CHARS_PER_TICK;
        ticks := ticks + 1;
        var last := messages[|messages| - 1];
        if last.role == Assistant {
          messages := messages[..|messages| - 1] + [last.(content := Revealed(response, current))];
        }
        if current >= |response| {
          TicksAt(|response|, ticks);
          last := messages[|messages| - 1];
          messages := messages[..|messages| - 1] + [last.(isTyping := false, content := response)];
          typing := false;
          finished := true;
        }
      }
    }
  }

  /** The tick count is the first one whose character count reaches `n`. */
  lemma TicksAt(n: nat, t: nat)
    requires t >= 1 && CHARS_PER_TICK * t >= n
    requires t == 1 || CHARS_PER_TICK * (t - 1) < n
    ensures t == TypingTicks(n)
  {
  }
}
