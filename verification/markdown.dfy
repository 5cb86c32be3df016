/** `toHtml` of app/api/publish/route.ts: a line-by-line converter from a small
    Markdown subset (`# ` and `## ` headings, `- ` list items, paragraphs) to an
    HTML fragment.  The converter keeps one flag, `inList`, and appends chunks
    to a list; `Convert`, built from `Classify` and `RenderLines`, is the
    specification it is proved against. */
module Markdown {
  import opened Text
  import opened Escape

  /** One entry of `htmlChunks`.  The text of an element is already escaped. */
  datatype Chunk =
    | OpenList
    | CloseList
    | Heading1(text: string)
    | Heading2(text: string)
    | Item(text: string)
    | Para(text: string)
  {
    predicate IsElement() {
      !OpenList? && !CloseList?
    }
  }

  /** The string pushed for a chunk. */
  function ChunkHtml(c: Chunk): string
  {
    match c
    case OpenList => "<ul>"
    case CloseList => "</ul>"
    case Heading1(t) => "<h1>" + t + "</h1>"
    case Heading2(t) => "<h2>" + t + "</h2>"
    case Item(t) => "<li>" + t + "</li>"
    case Para(t) => "<p>" + t + "</p>"
  }

  /** The strings pushed for a run of chunks. */
  function Html(cs: seq<Chunk>): (r: seq<string>)
    ensures |r| == |cs|
  {
    if cs == [] then [] else [ChunkHtml(cs[0])] + Html(cs[1..])
  }

  /** `htmlChunks.join("")`. */
  function Serialize(cs: seq<Chunk>): string
  {
    Concat(Html(cs))
  }

  /** The element a trimmed, non-blank line becomes: `# x` a level-one
      heading, `## x` a level-two heading, `- x` a list item (each with its
      marker dropped and the rest trimmed), anything else a paragraph holding
      the whole line.  Its text is escaped, and it is a list item exactly when
      the line starts with `- `. */
  function LineElement(line: string): (r: Chunk)
    ensures r.IsElement() && Escaped(r.text)
    ensures r.Item? <==> StartsWith(line, "- ")
  {
    assert StartsWith(line, "- ") ==> line[0] == '-';
    assert StartsWith(line, "# ") || StartsWith(line, "## ") ==> line[0] == '#';
    if StartsWith(line, "# ") then Heading1(EscapeHtml(Trim(line[2..])))
    else if StartsWith(line, "## ") then Heading2(EscapeHtml(Trim(line[3..])))
    else if StartsWith(line, "- ") then Item(EscapeHtml(Trim(line[2..])))
    else Para(EscapeHtml(line))
  }

  /** A heading or a paragraph: an element that is not a list item. */
  type Block = c: Chunk | c.Heading1? || c.Heading2? || c.Para? witness Para([])

  /** A line of the content as the converter sees it once trimmed: blank, a
      list line (trimmed form starts with `- `) carrying its item's text, or
      any other line carrying its heading or paragraph. */
  datatype Line = BlankLine | ListLine(text: string) | OtherLine(block: Block)

  function Classify(raw: string): (l: Line)
    ensures l.ListLine? ==> Escaped(l.text)
    ensures l.OtherLine? ==> Escaped(l.block.text)
  {
    var line := Trim(raw);
    if line == [] then BlankLine
    else if StartsWith(line, "- ") then ListLine(LineElement(line).text)
    else OtherLine(LineElement(line))
  }

  /** The classification of every line, in order. */
  function ClassifyAll(lines: seq<string>): (ls: seq<Line>)
    ensures |ls| == |lines|
  {
    if lines == [] then [] else [Classify(lines[0])] + ClassifyAll(lines[1..])
  }

  lemma {:induction false} ClassifyAllAt(lines: seq<string>, k: nat)
    requires k < |lines|
    ensures ClassifyAll(lines)[k] == Classify(lines[k])
  {
    if k > 0 {
      ClassifyAllAt(lines[1..], k - 1);
    }
  }

  /** A line is classified blank exactly when it is white space only. */
  lemma ClassifyBlank(raw: string)
    ensures Classify(raw).BlankLine? <==> Blank(raw)
  {
    TrimEmpty(raw);
  }

  /** What `closeListIfNeeded` pushes. */
  function Closing(inList: bool): seq<Chunk>
  {
    if inList then [CloseList] else []
  }

  /** What one line contributes, and the new `inList`: a blank line only
      closes an open list; a list line opens a list unless one is open, then
      adds its item; any other line closes an open list, then adds its
      element. */
  function Step(l: Line, inList: bool): (seq<Chunk>, bool)
  {
    match l
    case BlankLine => (Closing(inList), false)
    case ListLine(text) => ((if inList then [] else [OpenList]) + [Item(text)], true)
    case OtherLine(block) => (Closing(inList) + [block], false)
  }

  /** The chunks produced for the classified lines `ls`, starting with the
      given `inList`, including the final `closeListIfNeeded`. */
  function RenderLines(ls: seq<Line>, inList: bool): seq<Chunk>
    decreases |ls|
  {
    if ls == [] then Closing(inList)
    else
      var st := Step(ls[0], inList);
      st.0 + RenderLines(ls[1..], st.1)
  }

  /** The chunks `toHtml` produces for `content`. */
  function Convert(content: string): seq<Chunk>
  {
    RenderLines(ClassifyAll(Split(content)), false)
  }

  /** `closeListIfNeeded`: push `</ul>` when a list is open, and clear the flag. */
  method CloseListIfNeeded(htmlChunks: seq<string>, inList: bool)
    returns (chunks: seq<string>, open: bool)
    ensures chunks == htmlChunks + Html(Closing(inList))
    ensures !open
  {
    chunks, open := htmlChunks, inList;
    if open {
      chunks := chunks + ["</ul>"];
      open := false;
    }
  }

  /** One turn of the loop of `toHtml`: push the HTML for the raw line
      `raw` after the chunks so far, updating `inList`. */
  method EmitLine(htmlChunks: seq<string>, inList: bool, raw: string)
    returns (chunks: seq<string>, open: bool)
    ensures chunks == htmlChunks + Html(Step(Classify(raw), inList).0)
    ensures open == Step(Classify(raw), inList).1
  {
    StepLine(raw, inList);
    chunks, open := htmlChunks, inList;
    var line := Trim(raw);
    if line == [] {
      chunks, open := CloseListIfNeeded(chunks, open);
    } else if StartsWith(line, "# ") {
      chunks, open := CloseListIfNeeded(chunks, open);
      chunks := chunks + ["<h1>" + EscapeHtml(Trim(line[2..])) + "</h1>"];
      Regroup(htmlChunks, Html(Closing(inList)), "<h1>" + EscapeHtml(Trim(line[2..])) + "</h1>");
    } else if StartsWith(line, "## ") {
      chunks, open := CloseListIfNeeded(chunks, open);
      chunks := chunks + ["<h2>" + EscapeHtml(Trim(line[3..])) + "</h2>"];
      Regroup(htmlChunks, Html(Closing(inList)), "<h2>" + EscapeHtml(Trim(line[3..])) + "</h2>");
    } else if StartsWith(line, "- ") {
      if !open {
        chunks := chunks + ["<ul>"];
        open := true;
      }
      chunks := chunks + ["<li>" + EscapeHtml(Trim(line[2..])) + "</li>"];
      Regroup(htmlChunks, if inList then [] else ["<ul>"], "<li>" + EscapeHtml(Trim(line[2..])) + "</li>");
    } else {
      chunks, open := CloseListIfNeeded(chunks, open);
      chunks := chunks + ["<p>" + EscapeHtml(line) + "</p>"];
      Regroup(htmlChunks, Html(Closing(inList)), "<p>" + EscapeHtml(line) + "</p>");
    }
  }

  /** `toHtml(content)`: the concatenation of the chunks `Convert` describes. */
  method ToHtml(content: string) returns (html: string)
    ensures html == Serialize(Convert(content))
  {
    var lines := Split(content);
    ghost var kinds := ClassifyAll(lines);
    var htmlChunks: seq<string> := [];
    var inList := false;
    for i := 0 to |lines|
      invariant Html(RenderLines(kinds, false)) == htmlChunks + Html(RenderLines(kinds[i..], inList))
    {
      ghost var was := inList;
      ghost var before := htmlChunks;
      htmlChunks, inList := EmitLine(htmlChunks, inList, lines[i]);
      ClassifyAllAt(lines, i);
      Advance(kinds, i, before, htmlChunks, was, inList);
    }
    htmlChunks, inList := CloseListIfNeeded(htmlChunks, inList);
    html := Concat(htmlChunks);
  }

  lemma Regroup(before: seq<string>, pushed: seq<string>, last: string)
    ensures (before + pushed) + [last] == before + (pushed + [last])
  {
  }

  /** One turn of the loop in `ToHtml` keeps its invariant. */
  lemma Advance(kinds: seq<Line>, i: nat, before: seq<string>, chunks: seq<string>, was: bool, open: bool)
    requires i < |kinds|
    requires Html(RenderLines(kinds, false)) == before + Html(RenderLines(kinds[i..], was))
    requires chunks == before + Html(Step(kinds[i], was).0) && open == Step(kinds[i], was).1
    ensures Html(RenderLines(kinds, false)) == chunks + Html(RenderLines(kinds[i + 1..], open))
  {
    var step := Step(kinds[i], was);
    var rest := RenderLines(kinds[i + 1..], open);
    assert kinds[i..][0] == kinds[i] && kinds[i..][1..] == kinds[i + 1..];
    assert RenderLines(kinds[i..], was) == step.0 + rest;
    HtmlAppend(step.0, rest);
    AppendAssoc(before, Html(step.0), Html(rest));
  }

  lemma AppendAssoc<T>(a: seq<T>, b: seq<T>, c: seq<T>)
    ensures a + (b + c) == (a + b) + c
  {
  }

  /** The chunks one line contributes, written as the strings `toHtml`
      pushes for it, branch by branch. */
  lemma StepLine(raw: string, inList: bool)
    ensures var line := Trim(raw);
            var st := Step(Classify(raw), inList);
            && st.1 == (line != [] && StartsWith(line, "- "))
            && Html(st.0) ==
               if line == [] then Html(Closing(inList))
               else if StartsWith(line, "# ") then Html(Closing(inList)) + ["<h1>" + EscapeHtml(Trim(line[2..])) + "</h1>"]
               else if StartsWith(line, "## ") then Html(Closing(inList)) + ["<h2>" + EscapeHtml(Trim(line[3..])) + "</h2>"]
               else if StartsWith(line, "- ") then (if inList then [] else ["<ul>"]) + ["<li>" + EscapeHtml(Trim(line[2..])) + "</li>"]
               else Html(Closing(inList)) + ["<p>" + EscapeHtml(line) + "</p>"]
  {
    var line := Trim(raw);
    if line != [] {
      var e := LineElement(line);
      if StartsWith(line, "- ") {
        HtmlAppend(if inList then [] else [OpenList], [Item(e.text)]);
      } else {
        HtmlAppend(Closing(inList), [e]);
      }
    }
  }

  lemma {:induction false} HtmlAppend(a: seq<Chunk>, b: seq<Chunk>)
    ensures Html(a + b) == Html(a) + Html(b)
  {
    if a == [] {
      assert a + b == b;
    } else {
      assert (a + b)[0] == a[0] && (a + b)[1..] == a[1..] + b;
      HtmlAppend(a[1..], b);
    }
  }

  // ---------------------------------------------------------------------
  // Blank input

  /** Blank lines only close a list that is already open. */
  lemma {:induction false} RenderAllBlank(ls: seq<Line>, inList: bool)
    requires forall k :: 0 <= k < |ls| ==> ls[k].BlankLine?
    ensures RenderLines(ls, inList) == Closing(inList)
  {
    if ls != [] {
      RenderAllBlank(ls[1..], false);
    }
  }

  /** The elements carried by the non-blank lines, in order. */
  function Carried(ls: seq<Line>): (r: seq<Chunk>)
    ensures |r| <= |ls|
  {
    if ls == [] then []
    else
      match ls[0]
      case BlankLine => Carried(ls[1..])
      case ListLine(text) => [Item(text)] + Carried(ls[1..])
      case OtherLine(block) => [block] + Carried(ls[1..])
  }

  // ---------------------------------------------------------------------
  // One element per non-blank line

  /** The element chunks of `cs` (headings, items, paragraphs), in order. */
  function Elements(cs: seq<Chunk>): (r: seq<Chunk>)
    ensures |r| <= |cs|
  {
    if cs == [] then []
    else (if cs[0].IsElement() then [cs[0]] else []) + Elements(cs[1..])
  }

  lemma {:induction false} ElementsAppend(a: seq<Chunk>, b: seq<Chunk>)
    ensures Elements(a + b) == Elements(a) + Elements(b)
  {
    if a == [] {
      assert a + b == b;
    } else {
      assert (a + b)[0] == a[0] && (a + b)[1..] == a[1..] + b;
      ElementsAppend(a[1..], b);
    }
  }

  /** The element chunks emitted are exactly the elements of the non-blank
      lines, in order: `<ul>` and `</ul>` are the only chunks added. */
  lemma {:induction false} RenderElements(ls: seq<Line>, inList: bool)
    ensures Elements(RenderLines(ls, inList)) == Carried(ls)
  {
    assert Elements([CloseList]) == [] + Elements([]);
    assert Elements([OpenList]) == [] + Elements([]);
    if ls != [] {
      var st := Step(ls[0], inList);
      RenderElements(ls[1..], st.1);
      ElementsAppend(st.0, RenderLines(ls[1..], st.1));
      match ls[0]
      case BlankLine =>
      case ListLine(text) =>
        assert [Item(text)][1..] == [];
        ElementsAppend(if inList then [] else [OpenList], [Item(text)]);
      case OtherLine(b) =>
        assert [b][1..] == [];
        ElementsAppend(Closing(inList), [b]);
    }
  }

  /** The trimmed non-blank lines of `lines`, in order. */
  function NonBlankLines(lines: seq<string>): (r: seq<string>)
    ensures |r| <= |lines|
  {
    if lines == [] then []
    else
      var line := Trim(lines[0]);
      (if line == [] then [] else [line]) + NonBlankLines(lines[1..])
  }

  /** Each non-blank line carries the element of its trimmed text. */
  lemma {:induction false} CarriedLines(lines: seq<string>)
    ensures |Carried(ClassifyAll(lines))| == |NonBlankLines(lines)|
    ensures forall k :: 0 <= k < |NonBlankLines(lines)| ==>
              Carried(ClassifyAll(lines))[k] == LineElement(NonBlankLines(lines)[k])
  {
    if lines != [] {
      var rest := ClassifyAll(lines[1..]);
      assert ClassifyAll(lines) == [Classify(lines[0])] + rest;
      CarriedCons(Classify(lines[0]), rest);
      ClassifyCarried(lines[0]);
      CarriedLines(lines[1..]);
    }
  }

  lemma CarriedCons(l: Line, ls: seq<Line>)
    ensures Carried([l] + ls) == Carried([l]) + Carried(ls)
  {
    assert ([l] + ls)[0] == l && ([l] + ls)[1..] == ls;
    assert [l][1..] == [];
  }

  /** A line carries the element of its trimmed text, unless it is blank. */
  lemma ClassifyCarried(raw: string)
    ensures Carried([Classify(raw)]) == if Trim(raw) == [] then [] else [LineElement(Trim(raw))]
  {
    assert [Classify(raw)][1..] == [];
  }

  /** Every non-blank line yields exactly one element chunk, in input order:
      the k-th heading, item or paragraph emitted is the element of the k-th
      non-blank line. */
  lemma OneElementPerLine(content: string)
    ensures |Elements(Convert(content))| == |NonBlankLines(Split(content))|
    ensures forall k :: 0 <= k < |NonBlankLines(Split(content))| ==>
              Elements(Convert(content))[k] == LineElement(NonBlankLines(Split(content))[k])
  {
    RenderElements(ClassifyAll(Split(content)), false);
    CarriedLines(Split(content));
  }

  /** Every heading, item and paragraph in the output carries escaped text. */
  lemma ToHtmlEscaped(content: string)
    ensures forall k :: 0 <= k < |Elements(Convert(content))| ==>
              var e := Elements(Convert(content))[k]; e.IsElement() && Escaped(e.text)
  {
    OneElementPerLine(content);
  }

  /** Classified lines are all blank exactly when the lines are. */
  lemma {:induction false} ClassifyAllBlank(lines: seq<string>)
    ensures (forall k :: 0 <= k < |lines| ==> ClassifyAll(lines)[k].BlankLine?) <==> AllBlank(lines)
  {
    var ls := ClassifyAll(lines);
    if AllBlank(lines) {
      forall k | 0 <= k < |lines| ensures ls[k].BlankLine? {
        ClassifyAllAt(lines, k);
        ClassifyBlank(lines[k]);
      }
    } else {
      var k :| 0 <= k < |lines| && !Blank(lines[k]);
      ClassifyAllAt(lines, k);
      ClassifyBlank(lines[k]);
    }
  }

  lemma {:induction false} CarriedEmpty(ls: seq<Line>)
    ensures Carried(ls) == [] <==> forall k :: 0 <= k < |ls| ==> ls[k].BlankLine?
  {
    if ls != [] {
      CarriedEmpty(ls[1..]);
      if ls[0].BlankLine? {
        assert (forall k :: 0 <= k < |ls| ==> ls[k].BlankLine?) <==>
               (forall k :: 0 <= k < |ls[1..]| ==> ls[1..][k].BlankLine?) by {
          if forall k :: 0 <= k < |ls[1..]| ==> ls[1..][k].BlankLine? {
            forall k | 0 <= k < |ls| ensures ls[k].BlankLine? {
              if k > 0 { assert ls[k] == ls[1..][k - 1]; }
            }
          }
        }
      }
    }
  }

  lemma {:induction false} SerializeEmpty(cs: seq<Chunk>)
    ensures Serialize(cs) == [] <==> cs == []
  {
    if cs != [] {
      assert Html(cs)[0] == ChunkHtml(cs[0]);
      assert ChunkHtml(cs[0]) != [];
    }
  }

  /** `toHtml` returns the empty string exactly when the content is white
      space only (the empty content included). */
  lemma ToHtmlEmptyIffBlank(content: string)
    ensures Serialize(Convert(content)) == [] <==> Blank(content)
  {
    var ls := ClassifyAll(Split(content));
    SerializeEmpty(Convert(content));
    ClassifyAllBlank(Split(content));
    BlankLines(content);
    if forall k :: 0 <= k < |ls| ==> ls[k].BlankLine? {
      RenderAllBlank(ls, false);
    } else {
      CarriedEmpty(ls);
      RenderElements(ls, false);
      assert Convert(content) != [] by {
        assert Elements([]) == [];
      }
      var k :| 0 <= k < |ls| && !ls[k].BlankLine?;
      ClassifyAllAt(Split(content), k);
      ClassifyBlank(Split(content)[k]);
    }
  }

  // ---------------------------------------------------------------------
  // List structure

  /** The chunk sequence is well nested, starting with a list open exactly
      when `open` holds: `<ul>` and `</ul>` alternate and never nest, every
      `<ul>` is followed by an item, items appear only inside a list, headings
      and paragraphs only outside one, and the sequence ends with no list
      open. */
  predicate WellNested(cs: seq<Chunk>, open: bool)
    decreases |cs|
  {
    if cs == [] then !open
    else match cs[0]
      case OpenList => !open && |cs| > 1 && cs[1].Item? && WellNested(cs[1..], true)
      case CloseList => open && WellNested(cs[1..], false)
      case Item(_) => open && WellNested(cs[1..], true)
      case _ => !open && WellNested(cs[1..], false)
  }

  /** Whatever the lines, the chunks are well nested: lists never nest and
      the final `closeListIfNeeded` leaves no list open. */
  lemma {:induction false} RenderWellNested(ls: seq<Line>, inList: bool)
    ensures WellNested(RenderLines(ls, inList), inList)
    decreases |ls|
  {
    if ls == [] {
      if inList { assert [CloseList][1..] == []; }
    } else {
      var st := Step(ls[0], inList);
      var rest := RenderLines(ls[1..], st.1);
      RenderWellNested(ls[1..], st.1);
      match ls[0]
      case BlankLine =>
        if inList {
          assert RenderLines(ls, inList) == [CloseList] + rest;
          assert ([CloseList] + rest)[1..] == rest;
        } else {
          assert RenderLines(ls, inList) == rest;
        }
      case ListLine(text) =>
        var e := Item(text);
        assert ([e] + rest)[1..] == rest;
        if !inList {
          assert ([OpenList] + [e] + rest)[1..] == [e] + rest;
        } else {
          assert [] + [e] + rest == [e] + rest;
        }
      case OtherLine(e) =>
        assert ([e] + rest)[1..] == rest;
        if inList {
          assert ([CloseList] + [e] + rest)[1..] == [e] + rest;
        } else {
          assert [] + [e] + rest == [e] + rest;
        }
    }
  }

  /** The converter's output for any content is well nested. */
  lemma ToHtmlWellNested(content: string)
    ensures WellNested(Convert(content), false)
  {
    RenderWellNested(ClassifyAll(Split(content)), false);
  }

  /** Number of list lines at the front of `ls`. */
  function ListRun(ls: seq<Line>): (n: nat)
    ensures n <= |ls|
    ensures forall k :: 0 <= k < n ==> ls[k].ListLine?
    ensures n == |ls| || !ls[n].ListLine?
  {
    if ls != [] && ls[0].ListLine? then 1 + ListRun(ls[1..]) else 0
  }

  /** The items of a run of list lines. */
  function Items(run: seq<Line>): (r: seq<Chunk>)
    requires forall k :: 0 <= k < |run| ==> run[k].ListLine?
    ensures |r| == |run|
  {
    if run == [] then [] else [Item(run[0].text)] + Items(run[1..])
  }

  /** Reference definition of the output, block by block: blank lines vanish;
      a maximal run of list lines becomes one `<ul>` holding one item per line
      in order and then `</ul>`; any other line becomes its element. */
  function RenderBlocks(ls: seq<Line>): seq<Chunk>
    decreases |ls|
  {
    if ls == [] then []
    else if ls[0].BlankLine? then RenderBlocks(ls[1..])
    else if ls[0].ListLine? then
      var n := ListRun(ls);
      [OpenList] + Items(ls[..n]) + [CloseList] + RenderBlocks(ls[n..])
    else [ls[0].block] + RenderBlocks(ls[1..])
  }

  /** An open list is closed by a line that is not a list line, or by the end. */
  lemma CloseBeforeNonList(rest: seq<Line>)
    requires rest == [] || !rest[0].ListLine?
    ensures RenderLines(rest, true) == [CloseList] + RenderLines(rest, false)
  {
  }

  /** Inside an open list, a run of `n` list lines yields its `n` items, then
      the list is closed before whatever follows. */
  lemma {:induction false} RenderInsideList(ls: seq<Line>, n: nat)
    requires n <= |ls|
    requires forall k :: 0 <= k < n ==> ls[k].ListLine?
    requires n == |ls| || !ls[n].ListLine?
    ensures RenderLines(ls, true) == Items(ls[..n]) + [CloseList] + RenderLines(ls[n..], false)
  {
    if n == 0 {
      assert ls[..0] == [] && ls[0..] == ls;
      CloseBeforeNonList(ls);
    } else {
      var tail := ls[1..];
      assert forall k :: 0 <= k < n - 1 ==> tail[k] == ls[k + 1];
      RenderInsideList(tail, n - 1);
      assert RenderLines(ls, true) == [Item(ls[0].text)] + RenderLines(tail, true);
      assert ls[..n][0] == ls[0] && ls[..n][1..] == tail[..n - 1];
      assert Items(ls[..n]) == [Item(ls[0].text)] + Items(tail[..n - 1]);
      assert tail[n - 1..] == ls[n..];
      var first, items, after := [Item(ls[0].text)], Items(tail[..n - 1]), RenderLines(ls[n..], false);
      AppendAssoc(first, items + [CloseList], after);
      AppendAssoc(first, items, [CloseList]);
    }
  }

  /** A maximal run of list lines becomes exactly one `<ul>` … `</ul>` holding
      one item per line, in input order; a blank line or any other line ends
      the run. */
  lemma ListRunIsOneList(run: seq<Line>, rest: seq<Line>)
    requires run != [] && forall k :: 0 <= k < |run| ==> run[k].ListLine?
    requires rest == [] || !rest[0].ListLine?
    ensures RenderLines(run + rest, false) == [OpenList] + Items(run) + [CloseList] + RenderLines(rest, false)
  {
    var ls := run + rest;
    assert ls[0] == run[0];
    RenderInsideList(ls, |run|);
    assert RenderLines(ls, false) == [OpenList] + RenderLines(ls, true);
    assert ls[..|run|] == run && ls[|run|..] == rest;
  }

  /** The converter agrees with the block-by-block reference definition. */
  lemma {:induction false} RenderIsBlocks(ls: seq<Line>)
    ensures RenderLines(ls, false) == RenderBlocks(ls)
    decreases |ls|
  {
    if ls != [] {
      if ls[0].BlankLine? {
        RenderIsBlocks(ls[1..]);
      } else if ls[0].ListLine? {
        var n := ListRun(ls);
        RenderInsideList(ls, n);
        assert RenderLines(ls, false) == [OpenList] + RenderLines(ls, true);
        RenderIsBlocks(ls[n..]);
      } else {
        RenderIsBlocks(ls[1..]);
      }
    }
  }
}
