/** Replies laid out as the prompt asks (main.py:18-45): one numbered question,
    its four options a) to d) on lines of their own, and the correct-answer
    marker on the last line. Such a reply gives exactly the record it spells
    out; the prompt's own example (main.py:32-42) is one of them. */
module Format {
  import opened Wrappers
  import opened Text
  import opened Marker
  import Segmenter
  import OptionBlock
  import opened Quiz

  /** A character that may begin a line of question text: not whitespace (so
      no indented option line), not a digit (so no new numbered item) and not
      the label 'a'. */
  predicate Plain(c: char) {
    !IsSpace(c) && !IsDigit(c) && c != 'a'
  }

  /** Every newline of x is followed, inside x, by a character that may begin
      a line of question text. */
  predicate QuestionLines(x: string) {
    forall j :: 0 <= j < |x| && x[j] == '\n' ==> j + 1 < |x| && Plain(x[j + 1])
  }

  /** Every newline of x is followed, inside x, by a character other than a digit. */
  predicate Unnumbered(x: string) {
    forall j :: 0 <= j < |x| && x[j] == '\n' ==> j + 1 < |x| && !IsDigit(x[j + 1])
  }

  /** The line of option k with text t, newline first. */
  function OptionLine(k: nat, t: string): (r: string)
    requires k < 4
  {
    "\n   " + [OptionBlock.Label(k)] + ") " + t
  }

  /** The last line: the marker of the correct answer x. */
  function MarkerLine(x: Letter): (r: string) {
    "\n   ***" + [x] + "***"
  }

  /** The reply for question q numbered 1, options o, correct answer x. */
  function Reply(q: string, o: Choices, x: Letter): (r: string) {
    "1. " + q + OptionLine(0, o.a) + OptionLine(1, o.b) + OptionLine(2, o.c) + OptionLine(3, o.d)
    + MarkerLine(x)
  }

  /** A question text the layout allows: trimmed and not empty, no line of it
      after the first taken for an item or an option, and no '*'. */
  predicate QuestionOk(q: string) {
    |q| > 0 && Trimmed(q) && QuestionLines(q) && '*' !in q
  }

  /** An option text the layout allows: trimmed and not empty, one line, no '*'. */
  predicate OptionOk(t: string) {
    |t| > 0 && Trimmed(t) && '\n' !in t && '*' !in t
  }

  /** A single line of question text satisfies QuestionLines. */
  lemma QuestionLinesOne(l: string)
    requires '\n' !in l
    ensures QuestionLines(l)
  {
    forall j | 0 <= j < |l| ensures l[j] != '\n' {
      assert l[j] in l;
    }
  }

  /** A question text with one more line that begins with a plain character. */
  lemma QuestionLinesSnoc(x: string, l: string)
    requires QuestionLines(x) && '\n' !in l && |l| > 0 && Plain(l[0])
    ensures QuestionLines(x + "\n" + l)
  {
    var y := x + "\n" + l;
    forall j | 0 <= j < |y| && y[j] == '\n' ensures j + 1 < |y| && Plain(y[j + 1]) {
      if j < |x| {
        assert y[j] == x[j];
        if j + 1 < |x| {
          assert y[j + 1] == x[j + 1];
        }
      }
    }
  }

  /** Unnumbered holds of a join when it holds of both parts. */
  lemma UnnumberedAppend(x: string, y: string)
    requires Unnumbered(x) && Unnumbered(y)
    ensures Unnumbered(x + y)
  {
    var z := x + y;
    forall j | 0 <= j < |z| && z[j] == '\n' ensures j + 1 < |z| && !IsDigit(z[j + 1]) {
      if j < |x| {
        assert z[j] == x[j] && z[j + 1] == x[j + 1];
      } else {
        assert z[j] == y[j - |x|];
      }
    }
  }

  /** The lines of an option and of the marker begin with whitespace. */
  lemma IndentedUnnumbered(x: string, y: string)
    requires |x| > 1 && x[0] == '\n' && x[1] == ' ' && '\n' !in x[1..] && '\n' !in y
    ensures Unnumbered(x + y)
  {
    var z := x + y;
    forall j | 0 < j < |z| ensures z[j] != '\n' {
      if j < |x| {
        assert z[j] == x[1..][j - 1] && x[1..][j - 1] in x[1..];
      } else {
        assert z[j] == y[j - |x|] && y[j - |x|] in y;
      }
    }
  }

  /** No line of a reply in the layout after the first begins with a digit. */
  lemma ReplyUnnumbered(q: string, o: Choices, x: Letter)
    requires QuestionOk(q) && OptionOk(o.a) && OptionOk(o.b) && OptionOk(o.c) && OptionOk(o.d)
    ensures Unnumbered(Reply(q, o, x))
  {
    assert Unnumbered("1. ");
    UnnumberedAppend("1. ", q);
    var s := "1. " + q;
    IndentedUnnumbered("\n   " + [OptionBlock.Label(0)] + ") ", o.a);
    UnnumberedAppend(s, OptionLine(0, o.a));
    s := s + OptionLine(0, o.a);
    IndentedUnnumbered("\n   " + [OptionBlock.Label(1)] + ") ", o.b);
    UnnumberedAppend(s, OptionLine(1, o.b));
    s := s + OptionLine(1, o.b);
    IndentedUnnumbered("\n   " + [OptionBlock.Label(2)] + ") ", o.c);
    UnnumberedAppend(s, OptionLine(2, o.c));
    s := s + OptionLine(2, o.c);
    IndentedUnnumbered("\n   " + [OptionBlock.Label(3)] + ") ", o.d);
    UnnumberedAppend(s, OptionLine(3, o.d));
    s := s + OptionLine(3, o.d);
    IndentedUnnumbered("\n   ***" + [x], "***");
    UnnumberedAppend(s, MarkerLine(x));
  }

  /** A reply in which no line after the first begins with a digit and whose
      first line is numbered is one item. */
  lemma UnnumberedSingleItem(s: string)
    requires Segmenter.HeadEnd(s, 0).Some? && Unnumbered(s)
    ensures Segmenter.Segments(s) == [s]
  {
    forall q | Segmenter.HeadEnd(s, 0).value <= q < |s| ensures !Segmenter.Boundary(s, q) {
      if s[q] == '\n' {
        Segmenter.NoBoundaryBeforeText(s, q);
      }
    }
    Segmenter.SingleItem(s);
  }

  /** A reply in the layout is a single item. */
  lemma ReplySegments(q: string, o: Choices, x: Letter)
    requires QuestionOk(q) && OptionOk(o.a) && OptionOk(o.b) && OptionOk(o.c) && OptionOk(o.d)
    ensures Segmenter.Segments(Reply(q, o, x)) == [Reply(q, o, x)]
  {
    var s := Reply(q, o, x);
    assert s[0] == '1' && s[1] == '.' && s[2] == ' ';
    assert DigitRunEnd(s, 1) == 1;
    ReplyUnnumbered(q, o, x);
    UnnumberedSingleItem(s);
  }

  /** The line of option k with text t stands in s from position n on. */
  predicate LineAt(s: string, n: nat, k: nat, t: string)
    requires k < 4
  {
    n + 7 + |t| <= |s| && s[n..n + 7 + |t|] == OptionLine(k, t)
  }

  /** The step of the option pattern for an option line at n: the newline,
      three spaces, the label, ')', one space and the option text t. */
  lemma StageOfLine(s: string, n: nat, k: nat, t: string)
    requires k < 4 && OptionOk(t) && LineAt(s, n, k, t)
    ensures OptionBlock.StageAt(s, OptionBlock.Cut(n, n + 4, n + 7), k)
    ensures !IsSpace(s[n + 7])
    ensures s[n + 7..n + 7 + |t|] == t
  {
    var l := OptionLine(k, t);
    assert s[n] == l[0] == '\n';
    assert s[n + 1] == l[1] == ' ' && s[n + 2] == l[2] == ' ' && s[n + 3] == l[3] == ' ';
    assert s[n + 4] == l[4] == OptionBlock.Label(k);
    assert s[n + 5] == l[5] == ')' && s[n + 6] == l[6] == ' ';
    assert s[n + 7] == l[7] == t[0];
    assert s[n + 7..n + 7 + |t|] == l[7..] == t;
  }

  /** The pattern from label d on matches an option line that ends at a newline. */
  lemma LastLine(s: string, n: nat, t: string, e: nat)
    requires OptionOk(t) && LineAt(s, n, 3, t) && e == n + 7 + |t| && e < |s| && s[e] == '\n'
    ensures OptionBlock.Rest(s, n, 3) == Some(OptionBlock.Tail([OptionBlock.Cut(n, n + 4, n + 7)], e))
  {
    StageOfLine(s, n, 3, t);
    OptionBlock.RestLastIs(s, OptionBlock.Cut(n, n + 4, n + 7), e);
  }

  /** The pattern from label a, b or c on matches an option line followed by
      the match r of the rest of the pattern. */
  lemma StepLine(s: string, n: nat, k: nat, t: string, y: nat, r: OptionBlock.Tail)
    requires k < 3 && OptionOk(t) && LineAt(s, n, k, t) && y == n + 7 + |t|
    requires |r.cuts| > 0 && OptionBlock.Rest(s, y, k + 1) == Some(r)
    ensures OptionBlock.Rest(s, n, k)
            == Some(OptionBlock.Tail([OptionBlock.Cut(n, n + 4, n + 7)] + r.cuts, r.end))
  {
    StageOfLine(s, n, k, t);
    assert r.cuts[0].nl == y;
    assert '\n' !in s[n + 7..y];
    OptionBlock.RestStepIs(s, OptionBlock.Cut(n, n + 4, n + 7), k, r);
  }

  /** The option block of four option lines from n on: their steps, and the
      end of option d's line. */
  function BlockFrom(n: nat, o: Choices): (b: OptionBlock.Tail)
    ensures |b.cuts| == 4
  {
    var n1 := n + 7 + |o.a|;
    var n2 := n1 + 7 + |o.b|;
    var n3 := n2 + 7 + |o.c|;
    OptionBlock.Tail([OptionBlock.Cut(n, n + 4, n + 7), OptionBlock.Cut(n1, n1 + 4, n1 + 7),
                      OptionBlock.Cut(n2, n2 + 4, n2 + 7), OptionBlock.Cut(n3, n3 + 4, n3 + 7)],
                     n3 + 7 + |o.d|)
  }

  /** The four option lines stand in s from n on, and a newline follows them. */
  predicate LinesAt(s: string, n: nat, o: Choices) {
    var b := BlockFrom(n, o);
    LineAt(s, b.cuts[0].nl, 0, o.a) && LineAt(s, b.cuts[1].nl, 1, o.b)
    && LineAt(s, b.cuts[2].nl, 2, o.c) && LineAt(s, b.cuts[3].nl, 3, o.d)
    && b.end < |s| && s[b.end] == '\n'
  }

  /** The pattern from label c on matches the lines of options c and d. */
  lemma LinesRestC(s: string, n: nat, o: Choices)
    requires OptionOk(o.c) && OptionOk(o.d) && LinesAt(s, n, o)
    ensures var b := BlockFrom(n, o);
            OptionBlock.Rest(s, b.cuts[2].nl, 2) == Some(OptionBlock.Tail(b.cuts[2..], b.end))
  {
    var b := BlockFrom(n, o);
    LastLine(s, b.cuts[3].nl, o.d, b.end);
    var r := OptionBlock.Tail([b.cuts[3]], b.end);
    StepLine(s, b.cuts[2].nl, 2, o.c, b.cuts[3].nl, r);
    assert [b.cuts[2]] + r.cuts == b.cuts[2..];
  }

  /** The pattern from label b on matches the line of option b followed by
      the match from label c on. */
  lemma LinesRestB(s: string, n: nat, o: Choices)
    requires var b := BlockFrom(n, o);
             OptionOk(o.b) && LineAt(s, b.cuts[1].nl, 1, o.b)
             && OptionBlock.Rest(s, b.cuts[2].nl, 2) == Some(OptionBlock.Tail(b.cuts[2..], b.end))
    ensures var b := BlockFrom(n, o);
            OptionBlock.Rest(s, b.cuts[1].nl, 1) == Some(OptionBlock.Tail(b.cuts[1..], b.end))
  {
    var b := BlockFrom(n, o);
    var r := OptionBlock.Tail(b.cuts[2..], b.end);
    StepLine(s, b.cuts[1].nl, 1, o.b, b.cuts[2].nl, r);
    assert [b.cuts[1]] + r.cuts == b.cuts[1..];
  }

  /** The pattern matches the four option lines from their first newline. */
  lemma LinesRest(s: string, n: nat, o: Choices)
    requires OptionOk(o.a) && OptionOk(o.b) && OptionOk(o.c) && OptionOk(o.d) && LinesAt(s, n, o)
    ensures OptionBlock.Rest(s, n, 0) == Some(BlockFrom(n, o))
  {
    var b := BlockFrom(n, o);
    LinesRestC(s, n, o);
    LinesRestB(s, n, o);
    var r := OptionBlock.Tail(b.cuts[1..], b.end);
    StepLine(s, n, 0, o.a, b.cuts[1].nl, r);
    assert [b.cuts[0]] + r.cuts == b.cuts;
  }

  /** A piece y that follows x at the head of s stands in s right after x. */
  lemma PieceAt(s: string, x: string, y: string)
    requires x + y <= s
    ensures s[|x|..|x| + |y|] == y
  {
    assert s[..|x| + |y|] == x + y;
  }

  /** The option lines of a reply stand where the layout puts them. */
  lemma ReplyLines(q: string, o: Choices, x: Letter)
    ensures LinesAt(Reply(q, o, x), 3 + |q|, o)
  {
    var s := Reply(q, o, x);
    var u0 := "1. " + q;
    var u1 := u0 + OptionLine(0, o.a);
    var u2 := u1 + OptionLine(1, o.b);
    var u3 := u2 + OptionLine(2, o.c);
    var u4 := u3 + OptionLine(3, o.d);
    assert s == u4 + MarkerLine(x);
    PieceAt(s, u0, OptionLine(0, o.a));
    PieceAt(s, u1, OptionLine(1, o.b));
    PieceAt(s, u2, OptionLine(2, o.c));
    PieceAt(s, u3, OptionLine(3, o.d));
    assert s[|u4|] == '\n';
  }

  /** The pattern matches from no position of the numbered question line and
      the question text: each newline there is followed by a plain character. */
  lemma QuestionNoRest(s: string, q: string)
    requires QuestionLines(q) && "1. " + q <= s
    ensures forall p :: 0 <= p < 3 + |q| ==> OptionBlock.Rest(s, p, 0).None?
  {
    var u := "1. " + q;
    forall p | 0 <= p < 3 + |q| ensures OptionBlock.Rest(s, p, 0).None? {
      assert s[p] == u[p];
      if s[p] == '\n' {
        assert q[p - 3] == '\n';
        assert s[p + 1] == u[p + 1] == q[p - 2];
        OptionBlock.NoRestAtLine(s, p, 0);
      }
    }
  }

  /** The option block of a reply is the one its layout spells out. */
  lemma ReplyOptions(q: string, o: Choices, x: Letter)
    requires QuestionOk(q) && OptionOk(o.a) && OptionOk(o.b) && OptionOk(o.c) && OptionOk(o.d)
    ensures OptionBlock.FindOptions(Reply(q, o, x)) == Some(BlockFrom(3 + |q|, o))
  {
    var s := Reply(q, o, x);
    ReplyLines(q, o, x);
    LinesRest(s, 3 + |q|, o);
    assert "1. " + q <= s;
    QuestionNoRest(s, q);
    OptionBlock.FindOptionsAt(s, 3 + |q|);
  }

  /** The captured text of option i of a match whose step i is the option
      line of t, trimmed, is t. */
  lemma TextOf(s: string, b: OptionBlock.Tail, i: nat, t: string)
    requires OptionBlock.MatchesFrom(s, b, 0) && i < 4 && OptionOk(t)
    requires LineAt(s, b.cuts[i].nl, i, t) && b.cuts[i].text == b.cuts[i].nl + 7
    requires (if i < 3 then b.cuts[i + 1].nl else b.end) == b.cuts[i].text + |t|
    ensures Trim(OptionBlock.OptionText(s, b, i)) == t
  {
    StageOfLine(s, b.cuts[i].nl, i, t);
    TrimTrimmed(t);
  }

  /** The options captured from four option lines are their texts. */
  lemma LinesCaptured(s: string, n: nat, o: Choices)
    requires OptionOk(o.a) && OptionOk(o.b) && OptionOk(o.c) && OptionOk(o.d)
    requires LinesAt(s, n, o) && OptionBlock.MatchesFrom(s, BlockFrom(n, o), 0)
    ensures Captured(s, BlockFrom(n, o)) == o
  {
    var b := BlockFrom(n, o);
    TextOf(s, b, 0, o.a);
    TextOf(s, b, 1, o.b);
    TextOf(s, b, 2, o.c);
    TextOf(s, b, 3, o.d);
  }

  /** The captured options of a reply are its option texts. */
  lemma ReplyCaptured(q: string, o: Choices, x: Letter)
    requires QuestionOk(q) && OptionOk(o.a) && OptionOk(o.b) && OptionOk(o.c) && OptionOk(o.d)
    ensures OptionBlock.FindOptions(Reply(q, o, x)) == Some(BlockFrom(3 + |q|, o))
    ensures Captured(Reply(q, o, x), BlockFrom(3 + |q|, o)) == o
  {
    ReplyOptions(q, o, x);
    ReplyLines(q, o, x);
    LinesCaptured(Reply(q, o, x), 3 + |q|, o);
  }

  /** The question line "1. q" with its number taken off and trimmed is q. */
  lemma FirstQuestion(q: string)
    requires |q| > 0 && Trimmed(q)
    ensures StripOrdinal(Trim("1. " + q), 0) == q
  {
    var u := "1. " + q;
    TrimTrimmed(u);
    assert Decimal(1) == "1";
    assert u == Decimal(0 + 1) + "." + (" " + q);
    StripOrdinalOwnNumber(" " + q, 0);
    TrimLeadingSpace(q);
  }

  /** A space before a trimmed text is trimmed off. */
  lemma TrimLeadingSpace(q: string)
    requires |q| > 0 && Trimmed(q)
    ensures Trim(" " + q) == q
  {
    TrimIs(" " + q, 1, |q| + 1);
    assert (" " + q)[1..|q| + 1] == q;
  }

  /** The question of a reply, with its number taken off and trimmed, is q. */
  lemma ReplyQuestion(q: string, o: Choices, x: Letter)
    requires QuestionOk(q)
    ensures StripOrdinal(Trim(Reply(q, o, x)[..3 + |q|]), 0) == q
  {
    var s := Reply(q, o, x);
    assert "1. " + q <= s;
    assert s[..3 + |q|] == "1. " + q;
    FirstQuestion(q);
  }

  /** The marker line holds the first marker of a reply. */
  lemma ReplyMarker(q: string, o: Choices, x: Letter)
    requires QuestionOk(q) && OptionOk(o.a) && OptionOk(o.b) && OptionOk(o.c) && OptionOk(o.d)
    ensures FindMarker(Reply(q, o, x)) == Some(x)
  {
    var s := Reply(q, o, x);
    var u := "1. " + q + OptionLine(0, o.a) + OptionLine(1, o.b) + OptionLine(2, o.c) + OptionLine(3, o.d);
    var p := |u| + 4;
    assert s == u + MarkerLine(x);
    assert '*' !in u;
    assert s[..p] == u + "\n   ";
    assert s[p..] == "***" + [x] + "***";
    forall j | 0 <= j < p ensures !MarkerAt(s, j) {
      assert s[j] == s[..p][j];
    }
    FindMarkerAt(s, p);
  }

  /** Cleaning leaves the options of a reply as they are. */
  lemma OptionsStayClean(o: Choices)
    requires OptionOk(o.a) && OptionOk(o.b) && OptionOk(o.c) && OptionOk(o.d)
    ensures Clean(o) == o
  {
    NoStarNoMarker(o.a);
    NoStarNoMarker(o.b);
    NoStarNoMarker(o.c);
    NoStarNoMarker(o.d);
    CleanUnmarked(o.a);
    CleanUnmarked(o.b);
    CleanUnmarked(o.c);
    CleanUnmarked(o.d);
  }

  /** A reply in the layout gives exactly one record: id 1, its question, its
      options and its correct answer (main.py:60-110). */
  lemma ReplyParses(q: string, o: Choices, x: Letter)
    requires QuestionOk(q) && OptionOk(o.a) && OptionOk(o.b) && OptionOk(o.c) && OptionOk(o.d)
    ensures ParseQuiz(Reply(q, o, x)) == [Record(1, q, o, Some(x))]
  {
    var s := Reply(q, o, x);
    ReplySegments(q, o, x);
    ReplyCaptured(q, o, x);
    ReplyQuestion(q, o, x);
    ReplyMarker(q, o, x);
    OptionsStayClean(o);
    assert ParseSegment(s, 0) == Some(Record(1, q, o, Some(x)));
    assert Attempt([s])(0) == Some(Record(1, q, o, Some(x)));
    assert ParseQuiz(s) == Collect(Attempt([s]), 1);
  }

  /** The first line of the example's question. */
  const PromptTitle: string := "What is the " + "output of the " + "following " + "JavaScript code?"

  /** The question of the prompt's example (main.py:32-37), code block included. */
  const PromptQuestion: string :=
    PromptTitle + "\n" + "```javascript"
    + "\n" + "let x = 10;" + "\n" + "let y = 20;" + "\n" + "console.log(y, x);" + "\n" + "```"

  /** The options of the prompt's example (main.py:38-41). */
  const PromptOptions: Choices := Choices("10, 20", "20, 10", "20, 20", "10, 10")

  /** The prompt's example reply (main.py:32-42): the numbered question, the
      four indented options and the marker of option b. */
  const PromptReply: string := Reply(PromptQuestion, PromptOptions, 'b')

  /** The example's question up to the opening of its code block. */
  lemma PromptQuestionHead()
    ensures QuestionLines(PromptTitle + "\n" + "```javascript" + "\n" + "let x = 10;")
    ensures '*' !in PromptTitle + "\n" + "```javascript" + "\n" + "let x = 10;"
  {
    var l := PromptTitle;
    assert '\n' !in l && '*' !in l;
    QuestionLinesOne(l);
    QuestionLinesSnoc(l, "```javascript");
    QuestionLinesSnoc(l + "\n" + "```javascript", "let x = 10;");
  }

  /** Each line of the example's question after the first begins with a
      plain character, and the question holds no '*'. */
  lemma PromptQuestionLines()
    ensures QuestionLines(PromptQuestion) && '*' !in PromptQuestion
  {
    var x := PromptTitle + "\n" + "```javascript" + "\n" + "let x = 10;";
    PromptQuestionHead();
    QuestionLinesSnoc(x, "let y = 20;");
    x := x + "\n" + "let y = 20;";
    QuestionLinesSnoc(x, "console.log(y, x);");
    x := x + "\n" + "console.log(y, x);";
    QuestionLinesSnoc(x, "```");
    assert '*' !in "console.log(y, x);";
  }

  /** The question of the example fits the layout. */
  lemma PromptQuestionOk()
    ensures QuestionOk(PromptQuestion)
  {
    PromptQuestionLines();
    assert PromptQuestion[0] == 'W';
    assert PromptQuestion[|PromptQuestion| - 1] == '`';
  }

  /** The prompt's example gives one record: id 1, the question with its code
      block, options "10, 20", "20, 10", "20, 20", "10, 10", correct answer b. */
  lemma PromptExample()
    ensures ParseQuiz(PromptReply) == [Record(1, PromptQuestion, PromptOptions, Some('b'))]
  {
    PromptQuestionOk();
    assert OptionOk(PromptOptions.a) && OptionOk(PromptOptions.b);
    assert OptionOk(PromptOptions.c) && OptionOk(PromptOptions.d);
    ReplyParses(PromptQuestion, PromptOptions, 'b');
  }
}
