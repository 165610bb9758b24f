# README-to-pytest converter

The test suite of this repository runs the Python examples in its README
through `parse_from_readme` in `tests/conftest.py`. That function reads
README.md line by line and writes `tests/test_readme.py`, which has exactly
one line for every README line:

- a line whose stripped text is exactly "```python", read outside a block,
  opens a block and becomes `def test_line_<i>():` (i is the zero-based
  line number);
- a line whose stripped text is exactly "```" closes any block. It becomes
  the closing `"""` of a docstring when it ends a doctest, and an empty
  line otherwise;
- the first line of a block decides what kind of block it is:
  - a blank first line cancels the block, and the header is blanked too;
  - a first line starting with `>>>` makes the block a doctest. The fence
    line becomes the opening `"""` and the header moves up one line, in
    front of the line above the fence. Any other first line makes an
    ordinary test body;
- every other line is indented by four spaces inside a block and commented
  out with `# ` outside one.

The model has four modules.

- `Text` (text.dfy) covers the Python string operations the converter
  uses. These are `str.strip()` with Python's full whitespace set,
  `startswith`, the slice `s[:-1]`, `"%s" % i` for a line number, and
  Python's negative list indices.
- `ReadmeTests` (readme_tests.dfy) is the specification, with two
  independent definitions of the output. `Render` folds `Step`, the loop
  body on values, over the README lines. `Entry` states directly what entry
  j ends up as: what line j writes, possibly rewritten by line j + 1 and
  then by line j + 2. `EntryAt` proves the two agree, and lemmas state the
  final entry for each kind of line. Each README line is annotated with its
  `LineKind`: what its stripped text is, as the loop's tests on
  `line.strip()` see it. `KindOfCases` proves the kind is exactly those
  tests.
- `Conftest` (conftest.dfy) is the loop itself, as an imperative method.
  It appends to `output`, overwrites entries i, i - 1 and i - 2 in place, and
  updates `mode`. It is proved to return `Converted(lines)`, and so every
  entry is `Entry(Annotate(lines), j)`.
- `ReadmeExample` (example.dfy) is a README with a paragraph followed by a
  doctest block, converted in full.

Python's `output[i - 2]` is modelled with its negative-index meaning. A
block opened on the README's first line and followed by a `>>>` line looks
back at index -1, which is the prompt line's own entry. That entry is then
overwritten, so the test function's header is lost (`DoctestOnSecondLine`).

## Model

| member | source | states |
|---|---|---|
| Conftest.ParseFromReadme | tests/conftest.py:14-48 | returns one entry per README line, equal to `Converted(lines)`; entry j is `Entry(Annotate(lines), j)`, the final value the declarative specification gives it |
| ReadmeTests.EntryAt | tests/conftest.py:16-48 | the loop run over all the lines leaves at every index j exactly `Entry(doc, j)`: what line j writes, as rewritten by lines j + 1 and j + 2 |
| ReadmeTests.StepKeeps | tests/conftest.py:17-48 | one iteration leaves every entry more than two above its own unchanged |
| ReadmeTests.StepEntries | tests/conftest.py:17-48 | one iteration appends the entry `WrittenFor` gives, and rewrites the entry above as `RewriteAbove` and the one two above as `RewriteTwoAbove` say |
| ReadmeTests.PrefixStable | tests/conftest.py:16-48 | entries more than two lines above the end never change again, however many lines follow |
| ReadmeTests.WrittenAgrees | tests/conftest.py:17-48 | the branch a line takes and what it writes at its own index depend only on the lines up to it, not on any line after it |
| ReadmeTests.EntryAgrees | tests/conftest.py:17-48 | the final value of an entry depends only on the README up to two lines below it |
| ReadmeTests.RenderKeeps | tests/conftest.py:17-48 | reading one more line leaves every entry more than two above the new one as it was |
| ReadmeTests.KindOfCases | tests/conftest.py:19-36 | a line's kind is a python fence, a fence, blank or a prompt line exactly when its stripped text equals "```python", equals "```", is empty, or starts with ">>>" |
| ReadmeTests.ClassifyCases | tests/conftest.py:19-43 | the branches partition the lines: open only outside a block, close on any fence, the first-line branches exactly in mode first_line on a non-fence; a fence always leaves mode None, and an emitted line keeps a mode that is not first_line |
| ReadmeTests.FirstLineFollowsOpen | tests/conftest.py:19-34 | the mode is first_line exactly after a line that opened a block |
| ReadmeTests.LookBackFollowsOpen | tests/conftest.py:30-43 | a line that cancels, starts a doctest or starts a test comes right after an opening fence, so `i - 1` is the fence's own entry |
| ReadmeTests.OpenNotFollowedByOpen | tests/conftest.py:19-22 | the line after an opening fence never opens another block |
| ReadmeTests.NoLookBackAfter | tests/conftest.py:30-41 | a line after one that did not open a block never rewrites an earlier entry |
| ReadmeTests.SettledEntry | tests/conftest.py:36-40 | what a non-opening line writes is final, except that a doctest opened right below puts that block's header minus its newline, and two spaces, in front of it |
| ReadmeTests.OpenedBlock | tests/conftest.py:19-22 | a "```python" line read in mode None takes the open branch, sets mode first_line, and its entry is `def test_line_<j>():` unless the next line cancels the block or starts a doctest |
| ReadmeTests.FenceInsideBlock | tests/conftest.py:19-46 | a "```python" line inside a test or doctest block is an ordinary body line, written indented, and the mode is unchanged |
| ReadmeTests.ClosedBlock | tests/conftest.py:24-28 | a "```" line always closes, sets mode None, writes the docstring quotes after a doctest and an empty line otherwise, and keeps that unless a doctest two lines below prefixes the next header |
| ReadmeTests.CancelledBlock | tests/conftest.py:30-34 | a cancelling line follows an opening fence, is blank after stripping, sets mode None, blanks the header's entry, and leaves its own entry empty (up to a later doctest's header) |
| ReadmeTests.DoctestBlock | tests/conftest.py:36-41 | a `>>>` first line sets mode doctest; the entry above the fence gets the header minus its newline and two spaces in front, the fence entry becomes the docstring quotes, and the line is indented |
| ReadmeTests.DoctestPromptEntry | tests/conftest.py:36-46 | the prompt line's entry is final: the line indented by four spaces |
| ReadmeTests.DoctestFenceEntry | tests/conftest.py:41 | the fence line of a doctest block ends as the opening docstring quotes |
| ReadmeTests.DoctestOnSecondLine | tests/conftest.py:38-41 | with a doctest block opened on line 0, index -1 is the prompt line's own entry: the fence entry becomes the docstring quotes, the prompt line is indented, and neither entry holds the header |
| ReadmeTests.EmittedLine | tests/conftest.py:30-48 | at the emit step the mode is never first_line; the line is written with four spaces inside a block and `# ` outside, and that is final unless a doctest two lines below prefixes its header |
| ReadmeTests.DefLineInjective | tests/conftest.py:21 | blocks opened on different lines get different test function names |
| Text.StripSpec | tests/conftest.py:19 | `strip()` gives the empty string exactly for all-whitespace text, and otherwise text that starts and ends with non-whitespace |
| Text.StripPadded | tests/conftest.py:19 | `strip()` removes exactly the surrounding whitespace: whitespace, then t, then whitespace strips to t |
| Text.DropLast | tests/conftest.py:39 | `s[:-1]` is s without its last character, and empty for the empty string |
| Text.PyIndex | tests/conftest.py:38 | a negative list index counts from the end, a non-negative one is itself, and both land inside the list |
| Text.DecimalString | tests/conftest.py:21 | `"%s" % i` is a non-empty string of decimal digits with no leading zero |
| Text.DecimalRoundTrip | tests/conftest.py:21 | reading the digits back gives the line number |
| ReadmeExample.Kinds | tests/conftest.py:19-36 | the sample README's lines are, in order, prose, a python fence, a `>>>` prompt, prose and a closing fence |
| ReadmeExample.Converts | tests/conftest.py:16-48 | a README with a paragraph and then a doctest block becomes the commented paragraph carrying `def test_line_1():`, the docstring quotes, the indented doctest and the closing quotes |

## Left out

- Opening README.md and tests/test_readme.py (tests/conftest.py:9-13), `writelines` (line 50) and the call at import time (line 53). The method takes the list `readlines()` returns and gives back the list that `writelines` would write.
- Splitting the file into lines and decoding it as UTF-8. The lines are given as strings, each keeping its newline.
- Step: a block's first line is never the README's first line, because its fence comes before it. So the `IndexError` Python would raise for `output[i - 2]` at i = 0 cannot happen, and `Step` requires it away.
- src/sam.rs, src/trie.rs and src/tokenizer.rs wrap types of the general_sam crate. Automaton construction, `goto`/`feed`, the DFS/BFS walks, trie insertion and tokenization all run in that crate, whose code is not part of this model.
- The callbacks into Python under the GIL, the `Arc` sharing and the self-referencing tokenizer struct in those files are left out for the same reason.
- src/utils.rs holds a char/byte alphabet tag check that panics on a mismatch. src/lib.rs and general_sam/__init__.py only register and re-export the classes.
- tests/test_general_sam.py and tests/test_greedy_tokenizer.py check the crate's behaviour, not code in this repository.
