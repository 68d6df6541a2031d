/** The shader pipeline (src/renderer/shader.rs): a combined source text is split into
    its vertex and fragment stages by `#stage` directive lines, each stage is compiled,
    the compile statuses are checked vertex first, and a program is linked.

    The graphics driver is not modelled: its compile verdicts and the program name it
    hands out are a `Driver` input, and the driver calls a loader makes are returned as
    a trace of `GlCall`s. */
module Shaders {
  import opened Results

  /** The parser's marker for the stage that content lines currently belong to. */
  datatype ShaderStage = Undefined | Vertex | Fragment

  const VertexDirective: string := "#stage vertex"
  const FragmentDirective: string := "#stage fragment"

  /** The text of the parse error (`{{stage}}` in the format string prints as `{stage}`). */
  const NoStageMessage: string :=
    "No shader stage defined. Please add \"#stage {stage}\" to the top of your file."

  datatype ShaderError =
    | ParseError(message: string)
      /** `CString::new` refused a stage text holding a NUL character. */
    | NulInSource
      /** A failed compile; only the driver's log is carried, not the stage. */
    | CompileError(log: string)
      /** Reading the file failed (missing, unreadable, or not UTF-8). */
    | IoError(reason: string)

  // ---------------------------------------------------------------------------
  // Lines: `str::split("\n")` and its inverse

  /** The position of the first newline. */
  function FirstNewline(s: string): (i: nat)
    requires '\n' in s
    ensures i < |s| && s[i] == '\n' && '\n' !in s[..i]
  {
    if s[0] == '\n' then 0 else assert s == [s[0]] + s[1..]; 1 + FirstNewline(s[1..])
  }

  /** The pieces of `s` between newline characters: `""` gives `[""]`, and a trailing
      newline gives a trailing empty piece. */
  function SplitLines(s: string): (lines: seq<string>)
    ensures |lines| >= 1
    decreases |s|
  {
    if '\n' !in s then [s]
    else
      var i := FirstNewline(s);
      [s[..i]] + SplitLines(s[i + 1..])
  }

  /** The pieces put back together with a newline between each two. */
  function JoinLines(lines: seq<string>): string
  {
    if |lines| == 0 then ""
    else if |lines| == 1 then lines[0]
    else lines[0] + "\n" + JoinLines(lines[1..])
  }

  predicate NoNewlines(lines: seq<string>)
  {
    forall i :: 0 <= i < |lines| ==> '\n' !in lines[i]
  }

  /** Splitting loses nothing: the pieces hold no newline and join back to `s`. */
  lemma {:induction false} SplitThenJoin(s: string)
    ensures NoNewlines(SplitLines(s)) && JoinLines(SplitLines(s)) == s
    decreases |s|
  {
    if '\n' in s {
      var i := FirstNewline(s);
      var rest := SplitLines(s[i + 1..]);
      SplitThenJoin(s[i + 1..]);
      var lines := [s[..i]] + rest;
      assert lines[1..] == rest;
      forall k | 0 <= k < |lines| ensures '\n' !in lines[k] {
        if k > 0 { assert lines[k] == rest[k - 1]; }
      }
      assert s == s[..i] + "\n" + s[i + 1..];
    }
  }

  /** A newline with none before it is where the first piece ends. */
  lemma SplitAt(s: string, j: nat)
    requires j < |s| && s[j] == '\n' && '\n' !in s[..j]
    ensures SplitLines(s) == [s[..j]] + SplitLines(s[j + 1..])
  {
    assert FirstNewline(s) == j;
  }

  /** A newline-free text before a newline comes off as the first piece. */
  lemma SplitAfterPlainHead(x: string, y: string)
    requires '\n' !in x
    ensures SplitLines(x + "\n" + y) == [x] + SplitLines(y)
  {
    var s := x + "\n" + y;
    assert s[|x|] == '\n' && s[..|x|] == x && s[|x| + 1..] == y;
    SplitAt(s, |x|);
  }

  /** When the text before a newline holds one itself, its first piece comes off first. */
  lemma SplitAfterBrokenHead(x: string, y: string)
    requires '\n' in x
    ensures var i := FirstNewline(x);
      SplitLines(x + "\n" + y) == [x[..i]] + SplitLines(x[i + 1..] + "\n" + y)
  {
    var s := x + "\n" + y;
    var i := FirstNewline(x);
    assert s[..i] == x[..i] && s[i] == '\n';
    assert s[i + 1..] == x[i + 1..] + "\n" + y;
    SplitAt(s, i);
  }

  /** Splitting around a newline splits each side. */
  lemma {:induction false} SplitAround(x: string, y: string)
    ensures SplitLines(x + "\n" + y) == SplitLines(x) + SplitLines(y)
    decreases |x|
  {
    if '\n' !in x {
      SplitAfterPlainHead(x, y);
      assert SplitLines(x) == [x];
    } else {
      var i := FirstNewline(x);
      var head, rest := [x[..i]], SplitLines(x[i + 1..]);
      calc {
        SplitLines(x + "\n" + y);
        { SplitAfterBrokenHead(x, y); }
        head + SplitLines(x[i + 1..] + "\n" + y);
        { SplitAround(x[i + 1..], y); }
        head + (rest + SplitLines(y));
        (head + rest) + SplitLines(y);
        SplitLines(x) + SplitLines(y);
      }
    }
  }

  /** Joining newline-free pieces and splitting again gives the pieces back. */
  lemma {:induction false} JoinThenSplit(lines: seq<string>)
    requires |lines| >= 1 && NoNewlines(lines)
    ensures SplitLines(JoinLines(lines)) == lines
  {
    if |lines| > 1 {
      JoinThenSplit(lines[1..]);
      SplitAround(lines[0], JoinLines(lines[1..]));
      assert [lines[0]] + lines[1..] == lines;
    }
  }

  // ---------------------------------------------------------------------------
  // Substrings: `str::contains`

  /** `str::contains`: `p` occurs somewhere in `s`. */
  predicate Contains(s: string, p: string)
  {
    exists i | 0 <= i <= |s| - |p| :: OccursAt(s, p, i)
  }

  /** `p` occurs in `s` starting at position `i`. */
  predicate OccursAt(s: string, p: string, i: int)
  {
    0 <= i <= |s| - |p| && s[i..i + |p|] == p
  }

  // ---------------------------------------------------------------------------
  // The stage parser

  /** The marker after a line: a line containing the vertex directive wins over one
      containing the fragment directive; any other line leaves the marker. */
  function NextStage(stage: ShaderStage, line: string): ShaderStage
  {
    if Contains(line, VertexDirective) then Vertex
    else if Contains(line, FragmentDirective) then Fragment
    else stage
  }

  /** A line that is emitted into a stage: non-empty and no directive. */
  predicate IsContent(line: string)
  {
    line != "" && !Contains(line, VertexDirective) && !Contains(line, FragmentDirective)
  }

  /** The parser's loop from the given state over the remaining lines. */
  function ParseFrom(lines: seq<string>, stage: ShaderStage, vertexSource: string, fragmentSource: string)
    : Result<(string, string), ShaderError>
    decreases |lines|
  {
    if |lines| == 0 then Ok((vertexSource, fragmentSource))
    else
      var line := lines[0];
      if line == "" then ParseFrom(lines[1..], stage, vertexSource, fragmentSource)
      else if Contains(line, VertexDirective) then ParseFrom(lines[1..], Vertex, vertexSource, fragmentSource)
      else if Contains(line, FragmentDirective) then ParseFrom(lines[1..], Fragment, vertexSource, fragmentSource)
      else match stage
        case Undefined => Err(ParseError(NoStageMessage))
        case Vertex => ParseFrom(lines[1..], stage, vertexSource + "\n" + line, fragmentSource)
        case Fragment => ParseFrom(lines[1..], stage, vertexSource, fragmentSource + "\n" + line)
  }

  /** `parse`: split on newlines, start with no stage and two empty texts. */
  function Parse(source: string): Result<(string, string), ShaderError>
  {
    ParseFrom(SplitLines(source), Undefined, "", "")
  }

  /** `parse` as the source runs it: a loop over the lines updating the marker and the
      two texts. */
  method ParseSource(source: string) returns (r: Result<(string, string), ShaderError>)
    ensures r == Parse(source)
  {
    var lines := SplitLines(source);
    var vertexSource, fragmentSource := "", "";
    var stage := Undefined;
    for i := 0 to |lines|
      invariant ParseFrom(lines[i..], stage, vertexSource, fragmentSource) == Parse(source)
    {
      var line := lines[i];
      assert lines[i..][0] == line && lines[i..][1..] == lines[i + 1..];
      if line == "" {
        continue;
      }
      if Contains(line, VertexDirective) {
        stage := Vertex;
        continue;
      }
      if Contains(line, FragmentDirective) {
        stage := Fragment;
        continue;
      }
      match stage
      case Undefined =>
        return Err(ParseError(NoStageMessage));
      case Vertex =>
        vertexSource := vertexSource + "\n" + line;
      case Fragment =>
        fragmentSource := fragmentSource + "\n" + line;
    }
    return Ok((vertexSource, fragmentSource));
  }

  /** The content lines that fall to stage `target`, in order, when the marker starts
      at `stage`: the latest directive before a line decides its stage. */
  function StageLines(stage: ShaderStage, lines: seq<string>, target: ShaderStage): seq<string>
    decreases |lines|
  {
    if |lines| == 0 then []
    else
      (if IsContent(lines[0]) && stage == target then [lines[0]] else [])
      + StageLines(NextStage(stage, lines[0]), lines[1..], target)
  }

  /** Each line preceded by a newline, concatenated. */
  function Prefixed(lines: seq<string>): string
  {
    if |lines| == 0 then "" else "\n" + lines[0] + Prefixed(lines[1..])
  }

  /** The reference result for the lines from marker `stage` with texts `v` and `f`: the
      no-stage error when some content line comes while no stage is set, and otherwise
      each text followed by its stage's lines, each preceded by a newline, in order. */
  function Attributed(lines: seq<string>, stage: ShaderStage, v: string, f: string)
    : Result<(string, string), ShaderError>
  {
    if StageLines(stage, lines, Undefined) != [] then Err(ParseError(NoStageMessage))
    else Ok((v + Prefixed(StageLines(stage, lines, Vertex)), f + Prefixed(StageLines(stage, lines, Fragment))))
  }

  /** An empty or directive line changes neither text, only (perhaps) the marker. */
  lemma SkipStep(lines: seq<string>, stage: ShaderStage, v: string, f: string)
    requires |lines| > 0 && !IsContent(lines[0])
    ensures ParseFrom(lines, stage, v, f) == ParseFrom(lines[1..], NextStage(stage, lines[0]), v, f)
    ensures Attributed(lines, stage, v, f) == Attributed(lines[1..], NextStage(stage, lines[0]), v, f)
  {
    var next := NextStage(stage, lines[0]);
    if lines[0] == "" {
      assert !Contains(lines[0], VertexDirective) && !Contains(lines[0], FragmentDirective);
    }
    forall target | true
      ensures StageLines(stage, lines, target) == StageLines(next, lines[1..], target)
    {
      assert StageLines(stage, lines, target) == [] + StageLines(next, lines[1..], target);
    }
  }

  /** A content line before any directive is the no-stage error, on both sides. */
  lemma UndefinedStep(lines: seq<string>, v: string, f: string)
    requires |lines| > 0 && IsContent(lines[0])
    ensures ParseFrom(lines, Undefined, v, f) == Err(ParseError(NoStageMessage))
    ensures Attributed(lines, Undefined, v, f) == Err(ParseError(NoStageMessage))
  {
    assert StageLines(Undefined, lines, Undefined)[0] == lines[0];
  }

  /** A content line under the vertex stage is appended to the vertex text, on both sides. */
  lemma VertexStep(lines: seq<string>, v: string, f: string)
    requires |lines| > 0 && IsContent(lines[0])
    ensures ParseFrom(lines, Vertex, v, f) == ParseFrom(lines[1..], Vertex, v + "\n" + lines[0], f)
    ensures Attributed(lines, Vertex, v, f) == Attributed(lines[1..], Vertex, v + "\n" + lines[0], f)
  {
    var line, rest := lines[0], lines[1..];
    var vl := StageLines(Vertex, rest, Vertex);
    var ol, ul := StageLines(Vertex, rest, Fragment), StageLines(Vertex, rest, Undefined);
    assert StageLines(Vertex, lines, Vertex) == [line] + vl;
    assert StageLines(Vertex, lines, Fragment) == [] + ol;
    assert StageLines(Vertex, lines, Undefined) == [] + ul;
    assert [] + ol == ol && [] + ul == ul;
    assert Prefixed([line] + vl) == "\n" + line + Prefixed(vl) by {
      assert ([line] + vl)[0] == line && ([line] + vl)[1..] == vl;
    }
    assert (v + "\n" + line) + Prefixed(vl) == v + Prefixed([line] + vl);
  }

  /** A content line under the fragment stage is appended to the fragment text, on both sides. */
  lemma FragmentStep(lines: seq<string>, v: string, f: string)
    requires |lines| > 0 && IsContent(lines[0])
    ensures ParseFrom(lines, Fragment, v, f) == ParseFrom(lines[1..], Fragment, v, f + "\n" + lines[0])
    ensures Attributed(lines, Fragment, v, f) == Attributed(lines[1..], Fragment, v, f + "\n" + lines[0])
  {
    var line, rest := lines[0], lines[1..];
    var fl := StageLines(Fragment, rest, Fragment);
    var ol, ul := StageLines(Fragment, rest, Vertex), StageLines(Fragment, rest, Undefined);
    assert StageLines(Fragment, lines, Fragment) == [line] + fl;
    assert StageLines(Fragment, lines, Vertex) == [] + ol;
    assert StageLines(Fragment, lines, Undefined) == [] + ul;
    assert [] + ol == ol && [] + ul == ul;
    assert Prefixed([line] + fl) == "\n" + line + Prefixed(fl) by {
      assert ([line] + fl)[0] == line && ([line] + fl)[1..] == fl;
    }
    assert (f + "\n" + line) + Prefixed(fl) == f + Prefixed([line] + fl);
  }

  /** What the parser computes, from any marker and texts: exactly the reference result. */
  lemma {:induction false} ParseFromMeaning(lines: seq<string>, stage: ShaderStage, v: string, f: string)
    ensures ParseFrom(lines, stage, v, f) == Attributed(lines, stage, v, f)
    decreases |lines|
  {
    if |lines| == 0 {
      assert v + "" == v && f + "" == f;
    } else if !IsContent(lines[0]) {
      SkipStep(lines, stage, v, f);
      ParseFromMeaning(lines[1..], NextStage(stage, lines[0]), v, f);
    } else {
      match stage
      case Undefined =>
        UndefinedStep(lines, v, f);
      case Vertex =>
        VertexStep(lines, v, f);
        ParseFromMeaning(lines[1..], Vertex, v + "\n" + lines[0], f);
      case Fragment =>
        FragmentStep(lines, v, f);
        ParseFromMeaning(lines[1..], Fragment, v, f + "\n" + lines[0]);
    }
  }

  /** `parse` in terms of the lines of the source. */
  lemma ParseMeaning(source: string)
    ensures var lines := SplitLines(source);
      Parse(source)
        == if StageLines(Undefined, lines, Undefined) != [] then Err(ParseError(NoStageMessage))
           else Ok((Prefixed(StageLines(Undefined, lines, Vertex)), Prefixed(StageLines(Undefined, lines, Fragment))))
  {
    var lines := SplitLines(source);
    ParseFromMeaning(lines, Undefined, "", "");
    assert "" + Prefixed(StageLines(Undefined, lines, Vertex)) == Prefixed(StageLines(Undefined, lines, Vertex));
    assert "" + Prefixed(StageLines(Undefined, lines, Fragment)) == Prefixed(StageLines(Undefined, lines, Fragment));
  }

  /** Every line a stage receives is a content line of the input. */
  lemma {:induction false} StageLinesAreContent(stage: ShaderStage, lines: seq<string>, target: ShaderStage)
    ensures forall i :: 0 <= i < |StageLines(stage, lines, target)| ==>
      IsContent(StageLines(stage, lines, target)[i]) && StageLines(stage, lines, target)[i] in lines
    decreases |lines|
  {
    if |lines| > 0 {
      StageLinesAreContent(NextStage(stage, lines[0]), lines[1..], target);
      var head := if IsContent(lines[0]) && stage == target then [lines[0]] else [];
      var tail := StageLines(NextStage(stage, lines[0]), lines[1..], target);
      forall i | 0 <= i < |head + tail|
        ensures IsContent((head + tail)[i]) && (head + tail)[i] in lines
      {
        if i >= |head| {
          assert (head + tail)[i] == tail[i - |head|];
          assert tail[i - |head|] in lines[1..];
        }
      }
    }
  }

  /** A run of content lines under a set stage is appended to that stage's text. */
  lemma {:induction false} ParseContentRun(run: seq<string>, rest: seq<string>, stage: ShaderStage, v: string, f: string)
    requires stage != Undefined
    requires forall i :: 0 <= i < |run| ==> IsContent(run[i])
    ensures ParseFrom(run + rest, stage, v, f)
         == if stage == Vertex then ParseFrom(rest, stage, v + Prefixed(run), f)
            else ParseFrom(rest, stage, v, f + Prefixed(run))
    decreases |run|
  {
    if |run| == 0 {
      assert run + rest == rest;
      assert v + "" == v && f + "" == f;
    } else {
      assert (run + rest)[0] == run[0] && (run + rest)[1..] == run[1..] + rest;
      if stage == Vertex {
        ParseContentRun(run[1..], rest, stage, v + "\n" + run[0], f);
        assert v + "\n" + run[0] + Prefixed(run[1..]) == v + Prefixed(run);
      } else {
        ParseContentRun(run[1..], rest, stage, v, f + "\n" + run[0]);
        assert f + "\n" + run[0] + Prefixed(run[1..]) == f + Prefixed(run);
      }
    }
  }

  lemma Associative(a: string, b: string, c: string)
    ensures (a + b) + c == a + (b + c)
  {
  }

  lemma PrefixedCons(head: string, run: seq<string>)
    requires |run| > 0
    ensures head + Prefixed(run) == head + "\n" + (run[0] + Prefixed(run[1..]))
  {
    var p := Prefixed(run[1..]);
    assert Prefixed(run) == ("\n" + run[0]) + p;
    Associative("\n", run[0], p);
    Associative(head, "\n", run[0] + p);
  }

  /** A newline-free head before a newline comes off as the first piece. */
  lemma SplitHead(head: string, tail: string, pieces: seq<string>)
    requires '\n' !in head && SplitLines(tail) == pieces
    ensures SplitLines(head + "\n" + tail) == [head] + pieces
  {
    SplitAround(head, tail);
    assert SplitLines(head) == [head];
  }

  lemma SplitPrefixedStep(head: string, run: seq<string>)
    requires '\n' !in head && |run| > 0
    requires SplitLines(head + "\n" + (run[0] + Prefixed(run[1..]))) == [head] + run
    ensures SplitLines(head + Prefixed(run)) == [head] + run
  {
    PrefixedCons(head, run);
  }

  /** A newline-free head followed by newline-prefixed lines splits into the head and
      those lines. */
  lemma {:induction false} SplitPrefixed(head: string, run: seq<string>)
    requires '\n' !in head && NoNewlines(run)
    ensures SplitLines(head + Prefixed(run)) == [head] + run
    decreases |run|
  {
    if |run| == 0 {
      assert head + Prefixed(run) == head;
      assert SplitLines(head) == [head];
    } else {
      assert NoNewlines(run[1..]) by {
        forall i | 0 <= i < |run[1..]| ensures '\n' !in run[1..][i] {
          assert run[1..][i] == run[i + 1];
        }
      }
      SplitPrefixed(run[0], run[1..]);
      assert [run[0]] + run[1..] == run;
      SplitHead(head, run[0] + Prefixed(run[1..]), run);
      SplitPrefixedStep(head, run);
    }
  }

  /** A text contains itself. */
  lemma ContainsSelf(p: string)
    ensures Contains(p, p)
  {
    assert p[0..|p|] == p;
    assert OccursAt(p, p, 0);
  }

  /** The fragment directive has no window equal to the vertex directive. */
  lemma NoVertexInFragment()
    ensures !Contains(FragmentDirective, VertexDirective)
  {
    var s, p := FragmentDirective, VertexDirective;
    assert |s| == 15 && |p| == 13 && p[0] == '#' && p[7] == 'v';
    forall i | 0 <= i <= |s| - |p| ensures !OccursAt(s, p, i) {
      var window := s[i..i + |p|];
      if i == 0 {
        assert window[7] == s[7] == 'f';
      } else {
        assert window[0] == s[i] != '#';
      }
    }
  }

  /** Each directive line switches to its own stage: each directive contains itself and
      not the other. */
  lemma DirectivesAreDistinct()
    ensures Contains(VertexDirective, VertexDirective) && !Contains(VertexDirective, FragmentDirective)
    ensures !Contains(FragmentDirective, VertexDirective) && Contains(FragmentDirective, FragmentDirective)
    ensures '\n' !in VertexDirective && '\n' !in FragmentDirective
  {
    ContainsSelf(VertexDirective);
    ContainsSelf(FragmentDirective);
    NoVertexInFragment();
  }

  /** Two newline-free heads, each followed by its newline-prefixed run, joined by a
      newline, split into the first head and run and then the second. */
  lemma SplitTwoRuns(a: string, vl: seq<string>, b: string, fl: seq<string>)
    requires '\n' !in a && '\n' !in b && NoNewlines(vl) && NoNewlines(fl)
    ensures SplitLines(a + Prefixed(vl) + "\n" + b + Prefixed(fl)) == [a] + vl + [b] + fl
  {
    var first, second := a + Prefixed(vl), b + Prefixed(fl);
    calc {
      SplitLines(a + Prefixed(vl) + "\n" + b + Prefixed(fl));
      { Associative(first + "\n", b, Prefixed(fl)); }
      SplitLines(first + "\n" + second);
      { SplitAround(first, second); }
      SplitLines(first) + SplitLines(second);
      { SplitPrefixed(a, vl); SplitPrefixed(b, fl); }
      ([a] + vl) + ([b] + fl);
      [a] + vl + [b] + fl;
    }
  }

  /** The lines of a re-serialised pair of texts. */
  lemma SerialisedLines(vl: seq<string>, fl: seq<string>)
    requires NoNewlines(vl) && NoNewlines(fl)
    ensures SplitLines(VertexDirective + Prefixed(vl) + "\n" + FragmentDirective + Prefixed(fl))
         == [VertexDirective] + vl + [FragmentDirective] + fl
  {
    DirectivesAreDistinct();
    SplitTwoRuns(VertexDirective, vl, FragmentDirective, fl);
  }

  /** A vertex directive line sets the marker to the vertex stage. */
  lemma ParseVertexDirective(rest: seq<string>, stage: ShaderStage, v: string, f: string)
    ensures ParseFrom([VertexDirective] + rest, stage, v, f) == ParseFrom(rest, Vertex, v, f)
  {
    DirectivesAreDistinct();
    var lines := [VertexDirective] + rest;
    assert lines[0] == VertexDirective && lines[1..] == rest;
  }

  /** A fragment directive line sets the marker to the fragment stage. */
  lemma ParseFragmentDirective(rest: seq<string>, stage: ShaderStage, v: string, f: string)
    ensures ParseFrom([FragmentDirective] + rest, stage, v, f) == ParseFrom(rest, Fragment, v, f)
  {
    DirectivesAreDistinct();
    var lines := [FragmentDirective] + rest;
    assert lines[0] == FragmentDirective && lines[1..] == rest;
  }

  /** Parsing the lines of a re-serialised pair of content runs gives the two texts. */
  lemma ParseSerialised(vl: seq<string>, fl: seq<string>)
    requires forall i :: 0 <= i < |vl| ==> IsContent(vl[i])
    requires forall i :: 0 <= i < |fl| ==> IsContent(fl[i])
    ensures ParseFrom([VertexDirective] + vl + [FragmentDirective] + fl, Undefined, "", "")
         == Ok((Prefixed(vl), Prefixed(fl)))
  {
    var rest := [FragmentDirective] + fl;
    var v := Prefixed(vl);
    calc {
      ParseFrom([VertexDirective] + vl + [FragmentDirective] + fl, Undefined, "", "");
      { assert [VertexDirective] + vl + [FragmentDirective] + fl == [VertexDirective] + (vl + rest); }
      ParseFrom([VertexDirective] + (vl + rest), Undefined, "", "");
      { ParseVertexDirective(vl + rest, Undefined, "", ""); }
      ParseFrom(vl + rest, Vertex, "", "");
      { ParseContentRun(vl, rest, Vertex, "", ""); assert "" + v == v; }
      ParseFrom(rest, Vertex, v, "");
      { ParseFragmentDirective(fl, Vertex, v, ""); }
      ParseFrom(fl, Fragment, v, "");
      { assert fl + [] == fl; ParseContentRun(fl, [], Fragment, v, ""); }
      ParseFrom([], Fragment, v, "" + Prefixed(fl));
      { assert "" + Prefixed(fl) == Prefixed(fl); }
      Ok((v, Prefixed(fl)));
    }
  }

  /** Re-serialising the two texts under a vertex and a fragment directive and parsing
      again gives the same two texts. */
  lemma RoundTrip(source: string)
    requires Parse(source).Ok?
    ensures var (v, f) := Parse(source).value;
      Parse(VertexDirective + v + "\n" + FragmentDirective + f) == Ok((v, f))
  {
    var lines := SplitLines(source);
    ParseMeaning(source);
    SplitThenJoin(source);
    var vl := StageLines(Undefined, lines, Vertex);
    var fl := StageLines(Undefined, lines, Fragment);
    StageLinesAreContent(Undefined, lines, Vertex);
    StageLinesAreContent(Undefined, lines, Fragment);
    assert NoNewlines(vl) by {
      forall i | 0 <= i < |vl| ensures '\n' !in vl[i] {
        var j :| 0 <= j < |lines| && lines[j] == vl[i];
      }
    }
    assert NoNewlines(fl) by {
      forall i | 0 <= i < |fl| ensures '\n' !in fl[i] {
        var j :| 0 <= j < |lines| && lines[j] == fl[i];
      }
    }
    SerialisedLines(vl, fl);
    ParseSerialised(vl, fl);
  }

  /** Only exactly-empty lines are skipped: a blank or carriage-return line before any
      directive is content, and fails; empty input, or only newlines, gives two empty texts. */
  lemma EmptyAndBlankLines()
    ensures Parse("") == Ok(("", "")) && Parse("\n\n") == Ok(("", ""))
    ensures Parse(" ") == Err(ParseError(NoStageMessage))
    ensures Parse("\r") == Err(ParseError(NoStageMessage))
  {
    assert SplitLines("\n\n") == ["", "", ""] by {
      assert "\n\n"[1..] == "\n";
      assert "\n"[1..] == "";
    }
  }

  // ---------------------------------------------------------------------------
  // Compiling and linking

  datatype ShaderKind = VertexShader | FragmentShader

  /** What the driver reports for a compiled shader object. */
  datatype CompileStatus = Compiled | Failed(log: string)

  /** The driver's side of a load: the two compile verdicts and the program name. */
  datatype Driver = Driver(vertexStatus: CompileStatus, fragmentStatus: CompileStatus, program: nat)

  /** The driver calls a load makes, in order. */
  datatype GlCall =
    | CreateShader(kind: ShaderKind)
    | ShaderSource(kind: ShaderKind, text: string)
    | CompileShader(kind: ShaderKind)
    | GetCompileStatus(kind: ShaderKind)
    | GetInfoLog(kind: ShaderKind)
    | CreateProgram
    | AttachShader(kind: ShaderKind)
    | LinkProgram
    | DeleteShader(kind: ShaderKind)
    | UseProgram(program: nat)

  /** A result together with the driver calls made to reach it. */
  datatype Traced<+T> = Traced(result: Result<T, ShaderError>, calls: seq<GlCall>)

  /** `Shader`: the linked program's name; immutable once made. */
  datatype Shader = Shader(id: nat) {
    /** `program()`: the linked program's name. */
    function Program(): (program: nat)
      ensures program == id
    {
      id
    }

    /** `bind_unchecked`: make this program current. */
    function Bind(): (call: GlCall)
      ensures call.UseProgram? && call.program == Program()
    {
      UseProgram(id)
    }
  }

  /** `check` for one shader object: query its status, and fetch its log if it failed. */
  function Check(kind: ShaderKind, status: CompileStatus): Traced<()>
  {
    if status.Compiled? then Traced(Ok(()), [GetCompileStatus(kind)])
    else Traced(Err(CompileError(status.log)), [GetCompileStatus(kind), GetInfoLog(kind)])
  }

  /** `check_for_errors`: vertex first, failing fast. */
  function CheckForErrors(vertexStatus: CompileStatus, fragmentStatus: CompileStatus): (r: Traced<()>)
    ensures r.result.Ok? <==> vertexStatus.Compiled? && fragmentStatus.Compiled?
    ensures vertexStatus.Failed? ==> r.result == Err(CompileError(vertexStatus.log))
    ensures vertexStatus.Compiled? && fragmentStatus.Failed? ==> r.result == Err(CompileError(fragmentStatus.log))
    ensures |r.calls| > 0 && r.calls[0] == GetCompileStatus(VertexShader)
    ensures GetCompileStatus(FragmentShader) in r.calls <==> vertexStatus.Compiled?
  {
    var vertex := Check(VertexShader, vertexStatus);
    if vertex.result.Err? then vertex
    else
      var fragment := Check(FragmentShader, fragmentStatus);
      Traced(fragment.result, vertex.calls + fragment.calls)
  }

  predicate HasNul(s: string)
  {
    '\0' in s
  }

  /** The calls that make the program once both stages compiled: link, then release
      the two shader objects. */
  const LinkSteps: seq<GlCall> :=
    [CreateProgram, AttachShader(VertexShader), AttachShader(FragmentShader), LinkProgram,
     DeleteShader(VertexShader), DeleteShader(FragmentShader)]

  /** `from_string_unchecked`. */
  function FromStringUnchecked(source: string, driver: Driver): (r: Traced<Shader>)
    ensures Parse(source).Err? ==> r == Traced(Err(Parse(source).error), [])
    ensures CreateShader(VertexShader) in r.calls <==> Parse(source).Ok?
    ensures r.result.Ok? <==>
      Parse(source).Ok? && !HasNul(Parse(source).value.0) && !HasNul(Parse(source).value.1) &&
      driver.vertexStatus.Compiled? && driver.fragmentStatus.Compiled?
    ensures r.result.Ok? ==>
      r.result.value == Shader(driver.program) &&
      |r.calls| >= |LinkSteps| && r.calls[|r.calls| - |LinkSteps|..] == LinkSteps
    ensures CreateProgram in r.calls <==> r.result.Ok?
    ensures DeleteShader(VertexShader) in r.calls <==> r.result.Ok?
    ensures Parse(source).Ok? && driver.vertexStatus.Failed? && driver.fragmentStatus.Failed? &&
            !HasNul(Parse(source).value.0) && !HasNul(Parse(source).value.1)
            ==> r.result == Err(CompileError(driver.vertexStatus.log))
  {
    match Parse(source)
    case Err(e) => Traced(Err(e), [])
    case Ok((vertexSource, fragmentSource)) =>
      var created := [CreateShader(VertexShader), CreateShader(FragmentShader)];
      if HasNul(vertexSource) || HasNul(fragmentSource) then Traced(Err(NulInSource), created)
      else
        var compiled := created + [ShaderSource(VertexShader, vertexSource), ShaderSource(FragmentShader, fragmentSource),
                                   CompileShader(VertexShader), CompileShader(FragmentShader)];
        var checked := CheckForErrors(driver.vertexStatus, driver.fragmentStatus);
        if checked.result.Err? then Traced(Err(checked.result.error), compiled + checked.calls)
        else
          var calls := compiled + checked.calls + LinkSteps;
          assert calls[|calls| - |LinkSteps|..] == LinkSteps;
          Traced(Ok(Shader(driver.program)), calls)
  }

  /** `from_file_unchecked`: a failed read is reported before anything is parsed. */
  function FromFileUnchecked(read: Result<string, string>, driver: Driver): (r: Traced<Shader>)
    ensures read.Err? ==> r == Traced(Err(IoError(read.error)), [])
    ensures read.Ok? ==> r == FromStringUnchecked(read.value, driver)
  {
    match read
    case Err(reason) => Traced(Err(IoError(reason)), [])
    case Ok(source) => FromStringUnchecked(source, driver)
  }

  /** A successful load yields the driver's program, and binding it makes that program
      current. */
  lemma LoadedProgram(source: string, driver: Driver)
    requires FromStringUnchecked(source, driver).result.Ok?
    ensures FromStringUnchecked(source, driver).result.value.Program() == driver.program
    ensures FromStringUnchecked(source, driver).result.value.Bind() == UseProgram(driver.program)
  {
  }
}
