/**
 * `parse_from_readme`: turns the README's lines into the lines of a pytest
 * file. Every ```python block becomes a test function named after the
 * line of its opening fence; a block whose first line is a `>>>` prompt
 * becomes a function whose docstring holds the doctest; all prose is
 * commented out. Reading README.md and writing the test file are left to
 * the caller: the method maps the lines `readlines()` returns to the list
 * that `writelines()` is given.
 */
module Conftest {
  import opened Text
  import opened ReadmeTests

  // Each branch of the loop body is one case of `Step`.

  lemma OpenStep(out: seq<string>, before: Mode, line: ReadmeLine)
    requires before == Outside && line.kind == PythonFenceLine
    ensures Step(out, before, line) == (out + ["\n"])[|out| := DefLine(|out|)]
    ensures NextMode(before, line.kind) == FirstLine
  {
  }

  lemma CloseStep(out: seq<string>, before: Mode, line: ReadmeLine)
    requires before == FirstLine ==> 1 <= |out|
    requires !(before == Outside && line.kind == PythonFenceLine) && line.kind == FenceLine
    ensures Step(out, before, line) ==
              if before == Doctest then (out + ["\n"])[|out| := Docstring] else out + ["\n"]
    ensures NextMode(before, line.kind) == Outside
  {
  }

  lemma CancelStep(out: seq<string>, before: Mode, line: ReadmeLine)
    requires 1 <= |out|
    requires before == FirstLine && line.kind == BlankLine
    ensures Step(out, before, line) == (out + ["\n"])[|out| - 1 := "\n"]
    ensures NextMode(before, line.kind) == Outside
  {
  }

  lemma DoctestStep(out: seq<string>, before: Mode, line: ReadmeLine)
    requires 1 <= |out|
    requires before == FirstLine && line.kind == PromptLine
    ensures var c := out + ["\n"];
            var k := PyIndex(|c|, |out| - 2);
            Step(out, before, line) ==
            c[k := DropLast(c[|out| - 1]) + "  " + c[k]][|out| - 1 := Docstring][|out| := Indent + line.text]
    ensures NextMode(before, line.kind) == Doctest
  {
  }

  lemma BodyStep(out: seq<string>, before: Mode, line: ReadmeLine)
    requires before == FirstLine ==> 1 <= |out|
    requires before != Outside || line.kind != PythonFenceLine
    requires line.kind != FenceLine
    requires before == FirstLine ==> line.kind != BlankLine && line.kind != PromptLine
    ensures before == FirstLine ==> NextMode(before, line.kind) == Test
    ensures before != FirstLine ==> NextMode(before, line.kind) == before
    ensures var after := NextMode(before, line.kind);
            Step(out, before, line) ==
            (out + ["\n"])[|out| := if after == Doctest || after == Test then Indent + line.text else CommentMark + line.text]
  {
  }

  method ParseFromReadme(lines: seq<string>) returns (output: seq<string>)
    ensures output == Converted(lines)
    ensures |output| == |lines|
    ensures forall j :: 0 <= j < |lines| ==> output[j] == Entry(Annotate(lines), j)
  {
    ghost var doc := Annotate(lines);
    output := [];
    var mode := Outside;
    for i := 0 to |lines|
      invariant output == Render(doc[..i])
      invariant mode == ModeAfter(doc[..i])
    {
      var line := lines[i];
      ghost var before, done, read := output, doc[..i], doc[i];
      ghost var mode0 := mode;
      RenderSnoc(done, read);
      assert doc[..i + 1] == done + [read];
      assert read == ReadmeLine(KindOf(line), line);
      KindOfCases(line);
      output := output + ["\n"];

      if mode == Outside && Strip(line) == PythonFence {
        mode := FirstLine;
        output := output[i := DefLine(i)];
        OpenStep(before, mode0, read);
        continue;
      }

      if Strip(line) == Fence {
        if mode == Doctest {
          output := output[i := Docstring];
        }
        mode := Outside;
        CloseStep(before, mode0, read);
        continue;
      }

      if mode == FirstLine {
        FirstLineFollowsOpen(doc, i);
        if Strip(line) == [] {
          mode := Outside;
          output := output[i - 1 := "\n"];
          CancelStep(before, mode0, read);
          continue;
        }

        if StartsWith(Strip(line), Prompt) {
          mode := Doctest;
          // Python's output[i - 2]: the entry just above the fence, or, for a
          // fence on the first line, index -1, the entry of this very line
          var k := PyIndex(|output|, i - 2);
          output := output[k := DropLast(output[i - 1]) + "  " + output[k]];
          output := output[i - 1 := Docstring];
        } else {
          mode := Test;
        }
      }

      if mode == Doctest || mode == Test {
        output := output[i := Indent + line];
      } else {
        output := output[i := CommentMark + line];
      }
      if mode0 == FirstLine && read.kind == PromptLine {
        DoctestStep(before, mode0, read);
      } else {
        BodyStep(before, mode0, read);
      }
    }
    assert doc[..|lines|] == doc;
    forall j | 0 <= j < |lines|
      ensures output[j] == Entry(doc, j)
    {
      EntryAt(doc, j);
    }
  }
}
