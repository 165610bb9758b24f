/**
 * A README with one paragraph and one doctest block, converted line by line:
 * the paragraph is commented out and carries the block's `def` line in front
 * of it, the fence lines become the docstring quotes around the doctest.
 */
module ReadmeExample {
  import opened Text
  import opened ReadmeTests

  /** A README line: its text and the newline `readlines()` keeps. */
  function Line(t: string): (line: string)
    ensures |line| == |t| + 1 && line[..|t|] == t && line[|t|] == '\n'
  {
    t + "\n"
  }

  const Readme: seq<string> := [Line("Intro"), Line(PythonFence), Line(">>> 1 + 1"), Line("2"), Line(Fence)]

  const TestFile: seq<string> :=
    ["def test_line_1():  # Intro\n", "    \"\"\"\n", "    >>> 1 + 1\n", "    2\n", "    \"\"\"\n"]

  const Doc: seq<ReadmeLine> :=
    [ReadmeLine(TextLine, Readme[0]), ReadmeLine(PythonFenceLine, Readme[1]),
     ReadmeLine(PromptLine, Readme[2]), ReadmeLine(TextLine, Readme[3]), ReadmeLine(FenceLine, Readme[4])]

  /** A line of text that neither starts nor ends with whitespace strips to
      itself once its newline is gone. */
  lemma StripLine(t: string)
    requires t != [] && !IsSpace(t[0]) && !IsSpace(t[|t| - 1])
    ensures Strip(Line(t)) == t
  {
    assert AllSpace("\n");
    StripPadded([], t, "\n");
    assert [] + t + "\n" == Line(t);
  }

  lemma LineKind(j: nat)
    requires j < |Readme|
    ensures Doc[j] == ReadmeLine(KindOf(Readme[j]), Readme[j])
  {
    if j == 0 {
      StripLine("Intro");
    } else if j == 1 {
      StripLine(PythonFence);
    } else if j == 2 {
      StripLine(">>> 1 + 1");
    } else if j == 3 {
      StripLine("2");
    } else {
      StripLine(Fence);
    }
  }

  /** The sample's lines are a paragraph, a python fence, a prompt, an
      output line and a closing fence. */
  lemma Kinds()
    ensures Annotate(Readme) == Doc
  {
    forall j | 0 <= j < |Readme|
      ensures Doc[j] == ReadmeLine(KindOf(Readme[j]), Readme[j])
    {
      LineKind(j);
    }
    AnnotateEntries(Readme, Doc);
  }

  lemma AfterLine0()
    ensures ModeAfter(Doc[..1]) == Outside
    ensures Render(Doc[..1]) == [CommentMark + Readme[0]]
  {
    RenderSnoc([], Doc[0]);
    assert [] + [Doc[0]] == Doc[..1];
  }

  lemma AfterLine1()
    ensures ModeAfter(Doc[..2]) == FirstLine
    ensures Render(Doc[..2]) == [CommentMark + Readme[0], DefLine(1)]
  {
    AfterLine0();
    RenderSnoc(Doc[..1], Doc[1]);
    assert Doc[..1] + [Doc[1]] == Doc[..2];
  }

  /** The header, less its newline, lands in front of the commented
      paragraph line. */
  lemma HeaderMoved()
    ensures DropLast(DefLine(1)) + "  " + (CommentMark + Readme[0]) == TestFile[0]
  {
    assert DefLine(1) == "def test_line_1():\n";
  }

  lemma Indented()
    ensures Indent + Readme[2] == TestFile[2]
    ensures Indent + Readme[3] == TestFile[3]
  {
  }

  lemma AfterLine2()
    ensures ModeAfter(Doc[..3]) == Doctest
    ensures Render(Doc[..3]) == TestFile[..3]
  {
    AfterLine1();
    RenderSnoc(Doc[..2], Doc[2]);
    assert Doc[..2] + [Doc[2]] == Doc[..3];
    HeaderMoved();
    Indented();
  }

  lemma AfterLine3()
    ensures ModeAfter(Doc[..4]) == Doctest
    ensures Render(Doc[..4]) == TestFile[..4]
  {
    AfterLine2();
    RenderSnoc(Doc[..3], Doc[3]);
    assert Doc[..3] + [Doc[3]] == Doc[..4];
    Indented();
  }

  lemma AfterLine4()
    ensures Render(Doc) == TestFile
  {
    AfterLine3();
    RenderSnoc(Doc[..4], Doc[4]);
    assert Doc[..4] + [Doc[4]] == Doc;
  }

  /** The whole conversion of the sample README. */
  lemma Converts()
    ensures Converted(Readme) == TestFile
  {
    Kinds();
    AfterLine4();
  }
}
