/** The story parser on concrete replies. */
module StoryExamples {
  import opened Utf16
  import opened Types
  import opened Lists
  import opened GeminiService

  /** A well-formed reply, "标题：Hello\nBody text\n---\n故事里的小道理：\n1. First\n2. Second":
      title line, body, divider, label and two numbered morals. */
  const Reply: Str := TitleLabel + Units("Hello") + [LF] + Units("Body text") + [LF] + Divider + [LF]
                      + MoralLabel + [LF] + Units("1. First") + [LF] + Units("2. Second")

  lemma ReplyTitleLine()
    ensures TitleLineAt(Reply, 0) && LineEnd(Reply, 3) == 8
    ensures Reply[3..8] == Units("Hello")
  {
    assert Reply[..3] == TitleLabel;
    assert Reply[3..8] == Units("Hello");
    UnitsOfOneLine("Hello");
    LineEndAt(Reply, 3, 8);
  }

  lemma HelloIsTrimmed()
    ensures Trim(Units("Hello")) == Units("Hello")
  {
    assert Units("Hello") + [] == Units("Hello");
    TrimPadded(Units("Hello"), []);
  }

  lemma ReplyTitle()
    ensures StoryTitle(Reply) == Units("Hello")
  {
    ReplyTitleLine();
    TitleOfFirstTitleLine(Reply, 0);
    HelloIsTrimmed();
  }

  lemma ReplyLabel()
    ensures IndexOf(Reply, MoralLabel) == 23
  {
    assert Reply[23..31] == MoralLabel;
    var before := TitleLabel + Units("Hello") + [LF] + Units("Body text") + [LF] + Divider + [LF];
    assert Reply[..23] == before;
    var c := '故';
    UnitsExclude("标题：", c);
    UnitsExclude("Hello", c);
    UnitsExclude("Body text", c);
    UnitsExclude("---", c);
    IndexOfAt(Reply, MoralLabel, 23);
  }

  /** What lies between the title line and the label. */
  const Between: Str := Units("Body text") + [LF] + Divider + [LF]

  lemma ReplyBetween()
    ensures Reply[9..23] == Between
  {
  }

  lemma BetweenWithoutDivider()
    ensures Trim(RemoveFirst(Between, Divider)) == Units("Body text")
  {
    UnitsExclude("Body text", '-');
    assert Between[10..13] == Divider;
    IndexOfAt(Between, Divider, 10);
    var kept := RemoveFirst(Between, Divider);
    assert kept == Units("Body text") + [LF, LF];
    TrimPadded(Units("Body text"), [LF, LF]);
  }

  lemma ReplyContent()
    ensures StoryContent(Reply) == Units("Body text")
  {
    ReplyTitleLine();
    ReplyLabel();
    ContentBetweenTitleAndMoralLabel(Reply, 0);
    ReplyBetween();
    BetweenWithoutDivider();
  }

  /** The moral section: the label line and two numbered lines. */
  const NumberedPart: Str := Units("1. First") + [LF] + Units("2. Second")
  const MoralSection: Str := MoralLabel + [LF] + NumberedPart

  lemma MoralSectionFirstCut()
    ensures Split(MoralSection, LF) == [MoralLabel] + Split(NumberedPart, LF)
  {
    UnitsExclude("故事里的小道理：", '\n');
    assert MoralSection[..8] == MoralLabel;
    assert MoralSection[9..] == NumberedPart;
    SplitAt(MoralSection, LF, 8);
  }

  lemma NumberedPartLines()
    ensures Split(NumberedPart, LF) == [Units("1. First"), Units("2. Second")]
  {
    UnitsExclude("1. First", '\n');
    assert NumberedPart[..8] == Units("1. First");
    assert NumberedPart[9..] == Units("2. Second");
    SplitAt(NumberedPart, LF, 8);
    UnitsExclude("2. Second", '\n');
    SplitNone(Units("2. Second"), LF);
  }

  lemma MoralSectionLines()
    ensures Split(MoralSection, LF) == [MoralLabel, Units("1. First"), Units("2. Second")]
  {
    MoralSectionFirstCut();
    NumberedPartLines();
  }

  lemma MoralSectionNumberedLines()
    ensures NumberedLines(MoralSection) == [Units("1. First"), Units("2. Second")]
  {
    MoralSectionLines();
    var lines := [MoralLabel, Units("1. First"), Units("2. Second")];
    assert !IsNumbered(MoralLabel) by {
      assert LeadingDigits(MoralLabel) == 0;
    }
    assert IsNumbered(Units("1. First")) && IsNumbered(Units("2. Second"));
    assert Filter(lines[2..], IsNumbered) == [Units("2. Second")];
    assert Filter(lines[1..], IsNumbered) == [Units("1. First"), Units("2. Second")];
  }

  /** "N. text" loses its number, its dot and the space after them. */
  lemma StripOneNumber(line: Str, digit: CodeUnit, text: Str)
    requires IsDigit(digit) && text != [] && !IsSpace(text[0]) && !IsSpace(text[|text| - 1])
    requires line == [digit, Dot, 0x20] + text
    ensures StripNumbering(line) == text
  {
    OneDigitNumber(line, digit, text);
    TrimStartOneSpace(text);
    assert text + [] == text;
    TrimPadded(text, []);
  }

  lemma OneDigitNumber(line: Str, digit: CodeUnit, text: Str)
    requires IsDigit(digit) && line == [digit, Dot, 0x20] + text
    ensures IsNumbered(line) && AfterNumber(line) == [0x20] + text
  {
    assert LeadingDigits(line) == 1 by {
      assert line[1..][0] == Dot;
    }
  }

  lemma TrimStartOneSpace(text: Str)
    requires text != [] && !IsSpace(text[0])
    ensures TrimStart([0x20] + text) == text
  {
    assert ([0x20] + text)[1..] == text;
  }

  lemma FirstItem()
    ensures StripNumbering(Units("1. First")) == Units("First")
  {
    UnitsAppend("1. ", "First");
    assert Units("1. ") == [0x31, Dot, 0x20];
    StripOneNumber(Units("1. First"), 0x31, Units("First"));
  }

  lemma SecondItem()
    ensures StripNumbering(Units("2. Second")) == Units("Second")
  {
    UnitsAppend("2. ", "Second");
    assert Units("2. ") == [0x32, Dot, 0x20];
    StripOneNumber(Units("2. Second"), 0x32, Units("Second"));
  }

  lemma ItemsOfTwo(lines: seq<Str>)
    requires |lines| == 2
    ensures MoralItems(lines) == [StripNumbering(lines[0]), StripNumbering(lines[1])]
  {
    MapOfTwo(lines, StripNumbering);
  }

  lemma MoralSectionItems()
    ensures MoralItems(NumberedLines(MoralSection)) == [Units("First"), Units("Second")]
  {
    MoralSectionNumberedLines();
    ItemsOfTwo([Units("1. First"), Units("2. Second")]);
    FirstItem();
    SecondItem();
  }

  lemma ReplyMoral()
    ensures StoryMoral(Reply) == [Units("First"), Units("Second")]
  {
    ReplyLabel();
    assert Reply[23..] == MoralLabel + [LF] + Units("1. First") + [LF] + Units("2. Second");
    assert Reply[23..] == MoralSection;
    MoralSectionItems();
  }

  lemma TitleLinePiece()
    ensures Units("标题：Hello\n") == TitleLabel + Units("Hello") + [LF]
  {
    assert "标题：Hello\n" == "标题：" + "Hello" + "\n";
    UnitsAppend("标题：" + "Hello", "\n");
    UnitsAppend("标题：", "Hello");
  }

  lemma BodyPiece()
    ensures Units("Body text\n---\n") == Units("Body text") + [LF] + Divider + [LF]
  {
    assert "Body text\n---\n" == "Body text" + "\n" + "---" + "\n";
    UnitsAppend("Body text" + "\n" + "---", "\n");
    UnitsAppend("Body text" + "\n", "---");
    UnitsAppend("Body text", "\n");
  }

  lemma LabelPiece()
    ensures Units("故事里的小道理：\n") == MoralLabel + [LF]
  {
    assert "故事里的小道理：\n" == "故事里的小道理：" + "\n";
    UnitsAppend("故事里的小道理：", "\n");
  }

  lemma MoralsPiece()
    ensures Units("1. First\n2. Second") == Units("1. First") + [LF] + Units("2. Second")
  {
    assert "1. First\n2. Second" == "1. First" + "\n" + "2. Second";
    UnitsAppend("1. First" + "\n", "2. Second");
    UnitsAppend("1. First", "\n");
  }

  lemma LiteralPieces()
    ensures Units("标题：Hello\nBody text\n---\n故事里的小道理：\n1. First\n2. Second")
      == Units("标题：Hello\n") + Units("Body text\n---\n") + Units("故事里的小道理：\n") + Units("1. First\n2. Second")
  {
    var title, body, heading, morals := "标题：Hello\n", "Body text\n---\n", "故事里的小道理：\n", "1. First\n2. Second";
    assert title + body + heading + morals == "标题：Hello\nBody text\n---\n故事里的小道理：\n1. First\n2. Second";
    UnitsAppend(title + body + heading, morals);
    UnitsAppend(title + body, heading);
    UnitsAppend(title, body);
  }

  /** `Reply` is the code units of the literal reply. */
  lemma ReplyIsLiteral()
    ensures Units("标题：Hello\nBody text\n---\n故事里的小道理：\n1. First\n2. Second") == Reply
  {
    LiteralPieces();
    TitleLinePiece();
    BodyPiece();
    LabelPiece();
    MoralsPiece();
  }

  lemma ParseWellFormedReply()
    ensures ParseStory(Units("标题：Hello\nBody text\n---\n故事里的小道理：\n1. First\n2. Second"))
      == StoryData(Units("Hello"), Units("Body text"), [Units("First"), Units("Second")])
  {
    ReplyIsLiteral();
    ReplyTitle();
    ReplyContent();
    ReplyMoral();
  }

  /** A number with nothing after it gives an empty item, which is kept. */
  lemma BareNumberGivesEmptyItem()
    ensures StripNumbering(Units("1.")) == []
  {
    assert LeadingDigits(Units("1.")) == 1;
  }
}
