/** The line-streaming stripper `LiteralStripper` and the brace matching that uses it.
    Block comments are not treated, as in the source. */
module LiteralStripping {
  import opened Text

  /** Where the scan stands.  `Comment` exists only within a line. */
  datatype State = Code | Str | Raw(hashes: nat) | Comment

  datatype Output = Output(lines: seq<string>, state: State)

  /** Length of the character literal matched at the front of `t`, or 0. */
  function CharLiteral(t: string): (n: nat)
    ensures n <= |t|
  {
    if |t| >= 3 && t[0] == '\'' && t[1] != '\'' && t[1] != '\\' && t[2] == '\'' then 3
    else if |t| >= 4 && t[0] == '\'' && t[1] == '\\' && t[2] != '\n' && t[3] == '\'' then 4
    else 0
  }

  predicate OpensRaw(t: string) {
    "r" <= t && var h := HashRun(t[1..]); 1 + h < |t| && t[1 + h] == '"'
  }

  function Close(hashes: nat): (s: string)
    ensures |s| == hashes + 1 && '\n' !in s
  {
    "\"" + Hashes(hashes)
  }

  /** What one turn of the stripper's loop does: it stops with the line, or
      consumes `n` characters and appends `out`. */
  datatype Step = Stop(state: State) | Move(n: nat, out: string, state: State)

  function FeedStep(line: string, s: State): (m: Step)
    requires line != "" && !s.Comment?
    ensures !m.state.Comment? && (m.Move? ==> 0 < m.n <= |line|)
  {
    match s
    case Raw(h) =>
      (match Find(line, Close(h))
       case None => Stop(s)
       case Some(k) => Move(k + h + 1, "", Code))
    case Str =>
      if line[0] == '\\' then Move(if |line| == 1 then 1 else 2, "", Str)
      else Move(1, "", if line[0] == '"' then Code else Str)
    case Code =>
      if "//" <= line then Stop(Code)
      else if OpensRaw(line) then var h := HashRun(line[1..]); Move(h + 2, "", Raw(h))
      else if line[0] == '"' then Move(1, "", Str)
      else if CharLiteral(line) > 0 then Move(CharLiteral(line), "", Code)
      else Move(1, [line[0]], Code)
  }

  /** Stripped text of one line and the state carried to the next. */
  function FeedLine(line: string, s: State): (r: (string, State))
    requires !s.Comment?
    ensures !r.1.Comment?
    decreases |line|
  {
    if line == "" then ("", s)
    else
      match FeedStep(line, s)
      case Stop(s') => ("", s')
      case Move(n, out, s') => var r := FeedLine(line[n..], s'); (out + r.0, r.1)
  }

  function FeedAll(lines: seq<string>, s: State): (r: Output)
    requires !s.Comment?
    ensures |r.lines| == |lines| && !r.state.Comment?
  {
    if lines == [] then Output([], s)
    else
      var f := FeedLine(lines[0], s);
      var r := FeedAll(lines[1..], f.1);
      Output([f.0] + r.lines, r.state)
  }

  // ----- one pass over the whole text

  function NewLine(r: Output): Output { Output([""] + r.lines, r.state) }

  function Prefix(s: string, r: Output): Output
    requires r.lines != []
  {
    Output([s + r.lines[0]] + r.lines[1..], r.state)
  }

  /** One move of the whole-text automaton over characters.  A newline is a
      character like any other: it ends the output line, ends a comment, and may
      be the character that a backslash escapes. */
  datatype Turn = Turn(n: nat, out: string, newline: bool, state: State)

  function WholeStep(t: string, s: State): (m: Turn)
    requires t != ""
    ensures 0 < m.n <= |t|
  {
    if t[0] == '\n' then Turn(1, "", true, if s.Comment? then Code else s)
    else
      match s
      case Comment => Turn(1, "", false, Comment)
      case Raw(h) => if Close(h) <= t then Turn(h + 1, "", false, Code) else Turn(1, "", false, s)
      case Str =>
        if t[0] == '\\' && |t| > 1 then Turn(2, "", t[1] == '\n', Str)
        else Turn(1, "", false, if t[0] == '"' then Code else Str)
      case Code =>
        var n := CharLiteral(t);
        if "//" <= t then Turn(2, "", false, Comment)
        else if OpensRaw(t) then var h := HashRun(t[1..]); Turn(h + 2, "", false, Raw(h))
        else if t[0] == '"' then Turn(1, "", false, Str)
        else if n > 0 && '\n' !in t[..n] then Turn(n, "", false, Code)
        else Turn(1, [t[0]], false, Code)
  }

  function Whole(t: string, s: State): (r: Output)
    ensures r.lines != [] && !r.state.Comment?
    decreases |t|
  {
    if t == "" then Output([""], if s.Comment? then Code else s)
    else
      var m := WholeStep(t, s);
      var r := Whole(t[m.n..], m.state);
      if m.newline then NewLine(r) else Prefix(m.out, r)
  }

  /** The text after a line: nothing, or a newline and more. */
  predicate EndsLine(rest: string) { rest == "" || rest[0] == '\n' }

  lemma PrefixTwice(a: string, b: string, r: Output)
    requires r.lines != []
    ensures Prefix(a, Prefix(b, r)) == Prefix(a + b, r)
  {
    assert a + (b + r.lines[0]) == a + b + r.lines[0];
  }

  lemma PrefixNothing(r: Output)
    requires r.lines != []
    ensures Prefix("", r) == r
  {
    assert "" + r.lines[0] == r.lines[0];
  }

  /** A silent move within the line. */
  lemma WholeMoves(line: string, rest: string, s: State, n: nat)
    requires 0 < n <= |line|
    ensures var m := WholeStep(line + rest, s);
            m == Turn(n, "", false, m.state) ==> Whole(line + rest, s) == Whole(line[n..] + rest, m.state)
  {
    var t := line + rest;
    assert t[n..] == line[n..] + rest;
    PrefixNothing(Whole(t[n..], WholeStep(t, s).state));
  }

  lemma {:induction false} WholeSkipsComment(line: string, rest: string)
    requires '\n' !in line && EndsLine(rest)
    ensures Whole(line + rest, Comment) == Whole(rest, Code)
  {
    if line == "" {
      assert line + rest == rest;
    } else {
      WholeMoves(line, rest, Comment, 1);
      WholeSkipsComment(line[1..], rest);
    }
  }

  /** A raw string's closing marker lies within one line. */
  lemma MarkerWithinLine(line: string, rest: string, marker: string)
    requires EndsLine(rest) && '\n' !in marker
    ensures marker <= line + rest <==> marker <= line
  {
    assert rest != "" ==> (line + rest)[|line|] == '\n';
  }

  lemma RawTurn(line: string, rest: string, h: nat)
    requires line != "" && '\n' !in line && EndsLine(rest)
    ensures WholeStep(line + rest, Raw(h)) ==
            if Close(h) <= line then Turn(h + 1, "", false, Code) else Turn(1, "", false, Raw(h))
  {
    MarkerWithinLine(line, rest, Close(h));
  }

  /** The whole pass runs through `k` characters of a raw string that do not
      start its closing marker. */
  lemma {:induction false} WholeSkipsRaw(line: string, rest: string, h: nat, k: nat)
    requires k <= |line| && '\n' !in line && EndsLine(rest)
    requires forall i :: 0 <= i < k ==> !(Close(h) <= line[i..])
    ensures Whole(line + rest, Raw(h)) == Whole(line[k..] + rest, Raw(h))
  {
    assert line[0..] == line;
    if k > 0 {
      RawTurn(line, rest, h);
      WholeMoves(line, rest, Raw(h), 1);
      hide Whole, WholeStep, Close;
      forall i | 0 <= i < k - 1 ensures !(Close(h) <= line[1..][i..]) {
        assert line[1..][i..] == line[i + 1..];
      }
      WholeSkipsRaw(line[1..], rest, h, k - 1);
      assert line[1..][k - 1..] == line[k..];
    }
  }

  lemma {:induction false} HashRunWithinLine(line: string, rest: string)
    requires EndsLine(rest)
    ensures HashRun(line + rest) == HashRun(line)
  {
    if line == "" {
      assert line + rest == rest;
    } else {
      assert (line + rest)[1..] == line[1..] + rest;
      HashRunWithinLine(line[1..], rest);
    }
  }

  lemma RawWithinLine(line: string, rest: string)
    requires line != "" && EndsLine(rest)
    ensures OpensRaw(line + rest) <==> OpensRaw(line)
    ensures HashRun((line + rest)[1..]) == HashRun(line[1..])
  {
    HashRunWithinLine(line[1..], rest);
    assert (line + rest)[1..] == line[1..] + rest;
  }

  lemma CharWithinLine(line: string, rest: string)
    requires line != "" && '\n' !in line && EndsLine(rest)
    ensures CharLiteral(line) > 0 ==> CharLiteral(line + rest) == CharLiteral(line) && '\n' !in (line + rest)[..CharLiteral(line)]
    ensures CharLiteral(line) == 0 && CharLiteral(line + rest) > 0 ==> '\n' in (line + rest)[..CharLiteral(line + rest)]
  {
    var t := line + rest;
    var n := CharLiteral(t);
    if n > |line| {
      assert t[..n][|line|] == '\n';
    } else if CharLiteral(line) > 0 {
      assert t[..CharLiteral(line)] == line[..CharLiteral(line)];
    }
  }

  /** Within code, the automaton and the stripper take the same turn. */
  lemma SameTurnInCode(line: string, rest: string)
    requires line != "" && '\n' !in line && EndsLine(rest)
    ensures var m := WholeStep(line + rest, Code);
            match FeedStep(line, Code)
            case Stop(_) => |line| >= 2 && m == Turn(2, "", false, Comment)
            case Move(n, out, s) => m == Turn(n, out, false, s)
  {
    MarkerWithinLine(line, rest, "//");
    RawWithinLine(line, rest);
    CharWithinLine(line, rest);
    hide OpensRaw, CharLiteral, HashRun;
  }

  /** One line of the whole pass is one call of the stripper. */
  lemma {:induction false} WholeOfLine(line: string, rest: string, s: State)
    requires '\n' !in line && EndsLine(rest) && !s.Comment?
    ensures var f := FeedLine(line, s);
            Whole(line + rest, s) == Prefix(f.0, Whole(rest, f.1))
    decreases |line|, 2
  {
    if line == "" {
      assert line + rest == rest;
      PrefixNothing(Whole(rest, s));
    } else {
      hide FeedLine, Whole;
      match s
      case Raw(h) => WholeOfRawLine(line, rest, h);
      case Str => WholeOfStrLine(line, rest);
      case Code => WholeOfCodeLine(line, rest);
    }
  }

  lemma {:induction false} WholeOfRawLine(line: string, rest: string, h: nat)
    requires line != "" && '\n' !in line && EndsLine(rest)
    ensures var f := FeedLine(line, Raw(h));
            Whole(line + rest, Raw(h)) == Prefix(f.0, Whole(rest, f.1))
    decreases |line|, 1
  {
    RawLineTurn(line, rest, h);
    hide Whole, FeedStep;
    match FeedStep(line, Raw(h))
    case Stop(s) => PrefixNothing(Whole(rest, s));
    case Move(n, out, s) => ContinueLine(line, rest, Raw(h), n);
  }

  lemma RawLineTurn(line: string, rest: string, h: nat)
    requires line != "" && '\n' !in line && EndsLine(rest)
    ensures var m := FeedStep(line, Raw(h));
            && (m.Stop? ==> m.state == Raw(h) && Whole(line + rest, Raw(h)) == Whole(rest, Raw(h)))
            && (m.Move? ==> m.out == "" && m.state == Code
                            && Whole(line + rest, Raw(h)) == Whole(line[m.n..] + rest, Code))
  {
    hide Whole, WholeStep, Close, Find;
    var f := Find(line, Close(h));
    if f.None? {
      WholeSkipsRaw(line, rest, h, |line|);
      assert line[|line|..] + rest == rest;
    } else {
      var t := line[f.value..];
      WholeSkipsRaw(line, rest, h, f.value);
      RawTurn(t, rest, h);
      WholeMoves(t, rest, Raw(h), h + 1);
      assert t[h + 1..] == line[f.value + h + 1..];
    }
  }

  lemma {:induction false} WholeOfStrLine(line: string, rest: string)
    requires line != "" && '\n' !in line && EndsLine(rest)
    ensures var f := FeedLine(line, Str);
            Whole(line + rest, Str) == Prefix(f.0, Whole(rest, f.1))
    decreases |line|, 1
  {
    if line == "\\" {
      EscapedLineEnd(rest);
      assert line[1..] == "";
      PrefixNothing(Whole(rest, Str));
    } else {
      ContinueLine(line, rest, Str, FeedStep(line, Str).n);
      WholeMoves(line, rest, Str, FeedStep(line, Str).n);
    }
  }

  /** A backslash at the end of a line escapes the newline, which still ends
      the output line. */
  lemma EscapedLineEnd(rest: string)
    requires EndsLine(rest)
    ensures Whole("\\" + rest, Str) == Whole(rest, Str)
  {
    var t := "\\" + rest;
    PrefixNothing(Whole(rest, Str));
    assert t[1..] == rest;
    assert rest != "" ==> t[2..] == rest[1..];
  }

  /** The induction hypothesis for the part of the line after a silent move. */
  lemma {:induction false} ContinueLine(line: string, rest: string, s: State, n: nat)
    requires '\n' !in line && EndsLine(rest) && !s.Comment?
    requires line != "" && FeedStep(line, s) == Move(n, "", FeedStep(line, s).state)
    ensures var f := FeedLine(line, s);
            Whole(line[n..] + rest, FeedStep(line, s).state) == Prefix(f.0, Whole(rest, f.1))
    decreases |line|, 0
  {
    hide FeedStep;
    WholeOfLine(line[n..], rest, FeedStep(line, s).state);
    var r := FeedLine(line[n..], FeedStep(line, s).state);
    assert "" + r.0 == r.0;
  }

  lemma {:induction false} WholeOfCodeLine(line: string, rest: string)
    requires line != "" && '\n' !in line && EndsLine(rest)
    ensures var f := FeedLine(line, Code);
            Whole(line + rest, Code) == Prefix(f.0, Whole(rest, f.1))
    decreases |line|, 0
  {
    var t := line + rest;
    SameTurnInCode(line, rest);
    hide FeedStep, WholeStep;
    match FeedStep(line, Code)
    case Stop(s) =>
      WholeMoves(line, rest, Code, 2);
      WholeSkipsComment(line[2..], rest);
      PrefixNothing(Whole(rest, Code));
    case Move(n, out, s) =>
      assert t[n..] == line[n..] + rest;
      WholeOfLine(line[n..], rest, s);
      var r := FeedLine(line[n..], s);
      PrefixTwice(out, r.0, Whole(rest, r.1));
  }

  // ----- the stream of lines is the whole text

  function Join(lines: seq<string>): string
    requires lines != []
  {
    if |lines| == 1 then lines[0] else lines[0] + ("\n" + Join(lines[1..]))
  }

  predicate SingleLines(lines: seq<string>) {
    forall k :: 0 <= k < |lines| ==> '\n' !in lines[k]
  }

  /** `text.split("\n")`. */
  function Split(text: string): (lines: seq<string>)
    ensures lines != []
    ensures SingleLines(lines) && Join(lines) == text
    decreases |text|
  {
    var n := LineLength(text);
    if n == |text| then [text]
    else
      var rest := Split(text[n + 1..]);
      assert text == text[..n] + ("\n" + text[n + 1..]);
      assert ([text[..n]] + rest)[1..] == rest;
      [text[..n]] + rest
  }

  /** Feeding the lines one by one, carrying the state, gives the same stripped
      lines and the same final state as the one pass over the joined text. */
  lemma {:induction false} StreamingIsWhole(lines: seq<string>, s: State)
    requires lines != [] && !s.Comment? && SingleLines(lines)
    ensures Whole(Join(lines), s) == FeedAll(lines, s)
  {
    var f := FeedLine(lines[0], s);
    if |lines| == 1 {
      assert lines[0] + "" == lines[0] && f.0 + "" == f.0 && lines[1..] == [];
      WholeOfLine(lines[0], "", s);
    } else {
      var rest := "\n" + Join(lines[1..]);
      WholeOfLine(lines[0], rest, s);
      StreamingIsWhole(lines[1..], f.1);
      assert rest[1..] == Join(lines[1..]);
      assert f.0 + "" == f.0;
    }
  }

  lemma StreamingFrom(lines: seq<string>, j: nat)
    requires j < |lines| && SingleLines(lines)
    ensures Whole(Join(lines[j..]), Code) == FeedAll(lines[j..], Code)
  {
    StreamingIsWhole(lines[j..], Code);
  }

  lemma StreamingOfText(text: string)
    ensures FeedAll(Split(text), Code) == Whole(text, Code)
  {
    StreamingIsWhole(Split(text), Code);
  }

  // ----- the class

  class LiteralStripper {
    var inString: bool
    var rawHashes: Option<nat>

    /** `raw_hashes` is set only while a string is open. */
    predicate Valid()
      reads this
    {
      rawHashes.Some? ==> inString
    }

    function Current(): (s: State)
      reads this
      ensures !s.Comment?
    {
      if !inString then Code else if rawHashes.None? then Str else Raw(rawHashes.value)
    }

    constructor ()
      ensures Valid() && Current() == Code
    {
      inString, rawHashes := false, None;
    }

    method Feed(line: string) returns (out: string)
      requires Valid()
      modifies this
      ensures Valid()
      ensures (out, Current()) == FeedLine(line, old(Current()))
    {
      hide FeedLine, FeedStep, Resume;
      out := "";
      var i, n := 0, |line|;
      ghost var s0 := Current();
      ResumeStart(line, s0);
      while i < n
        invariant Valid() && n == |line|
        invariant FeedLine(line, s0) == Resume(line, i, out, Current())
      {
        ResumeStep(line, i, out, Current());
        ghost var m := FeedStep(line[i..], Current());
        if inString {
          var stop, i' := StringTurn(line, i);
          if stop {
            return out;
          }
          ResumePast(line, i + m.n, i', out, m.state);
          i := i';
        } else {
          var stop, i', more := CodeTurn(line, i);
          if stop {
            return out;
          }
          i, out := i', out + more;
        }
      }
      ResumeDone(line, i, out, Current());
    }

    /** One turn of the loop inside a string. */
    method StringTurn(line: string, i: nat) returns (stop: bool, i': nat)
      requires Valid() && inString && i < |line|
      modifies this
      ensures Valid()
      ensures var m := FeedStep(line[i..], old(Current()));
              && Current() == m.state && (stop <==> m.Stop?)
              && (m.Move? ==> m.out == "" && (i' == i + m.n || i' > i + m.n == |line|))
    {
      hide Find, HashRun, CharLiteral;
      stop, i' := false, i + 1;
      if rawHashes.Some? {
        var close := Close(rawHashes.value);
        var idx := Find(line[i..], close);
        if idx.None? {
          return true, i;
        }
        i' := i + idx.value + |close|;
        inString, rawHashes := false, None;
      } else if line[i] == '\\' {
        i' := i + 2;
      } else if line[i] == '"' {
        inString := false;
      }
    }

    /** One turn of the loop outside strings. */
    method CodeTurn(line: string, i: nat) returns (stop: bool, i': nat, more: string)
      requires Valid() && !inString && i < |line|
      modifies this
      ensures Valid()
      ensures var m := FeedStep(line[i..], Code);
              Current() == m.state && (stop <==> m.Stop?) && (m.Move? ==> i' == i + m.n && more == m.out)
    {
      hide Find, HashRun, CharLiteral;
      stop, i', more := false, i + 1, "";
      if "//" <= line[i..] {
        stop := true;
      } else if OpensRaw(line[i..]) {
        assert line[i..][1..] == line[i + 1..];
        var h := HashRun(line[i + 1..]);
        inString, rawHashes := true, Some(h);
        i' := i + 1 + h + 1;
      } else if line[i] == '"' {
        inString, rawHashes := true, None;
      } else if CharLiteral(line[i..]) > 0 {
        i' := i + CharLiteral(line[i..]);
      } else {
        more := [line[i]];
      }
    }
  }

  /** What the rest of a line gives after `out` has been produced. */
  function Resume(line: string, i: nat, out: string, s: State): (string, State)
    requires !s.Comment?
  {
    var f := FeedLine(if i <= |line| then line[i..] else "", s);
    (out + f.0, f.1)
  }

  lemma ResumeDone(line: string, i: nat, out: string, s: State)
    requires !s.Comment? && i >= |line|
    ensures Resume(line, i, out, s) == (out, s)
  {
    assert out + "" == out;
  }

  lemma ResumeStart(line: string, s: State)
    requires !s.Comment?
    ensures FeedLine(line, s) == Resume(line, 0, "", s)
  {
    hide FeedLine;
    assert line[0..] == line && "" + FeedLine(line, s).0 == FeedLine(line, s).0;
  }

  /** Past the end of the line nothing is left, however far past. */
  lemma ResumePast(line: string, i: nat, j: nat, out: string, s: State)
    requires !s.Comment? && (i == j || j > i == |line|)
    ensures Resume(line, j, out, s) == Resume(line, i, out, s)
  {
    hide FeedLine;
    assert i == |line| ==> line[i..] == "";
  }

  lemma ResumeStep(line: string, i: nat, out: string, s: State)
    requires !s.Comment? && i < |line|
    ensures var m := FeedStep(line[i..], s);
            Resume(line, i, out, s) == if m.Stop? then (out, m.state) else Resume(line, i + m.n, out + m.out, m.state)
    ensures out + "" == out
  {
    hide FeedStep;
    assert out + "" == out;
    var m := FeedStep(line[i..], s);
    if m.Move? {
      assert line[i..][m.n..] == line[i + m.n..];
      var r := FeedLine(line[i + m.n..], m.state);
      assert out + (m.out + r.0) == out + m.out + r.0;
    }
  }

  // ----- brace matching of a test body

  function Depth(s: string): int {
    if s == "" then 0
    else (if s[0] == '{' then 1 else if s[0] == '}' then -1 else 0) + Depth(s[1..])
  }

  function TotalDepth(lines: seq<string>): int {
    if lines == [] then 0 else TotalDepth(lines[..|lines| - 1]) + Depth(lines[|lines| - 1])
  }

  predicate HasOpen(s: string) { '{' in s }

  predicate Opened(lines: seq<string>) { exists k :: 0 <= k < |lines| && HasOpen(lines[k]) }

  /** A brace has been opened in these stripped lines and all are closed again. */
  predicate BodyClosed(lines: seq<string>) { Opened(lines) && TotalDepth(lines) <= 0 }

  lemma OneMoreLine(lines: seq<string>, k: nat)
    requires k < |lines|
    ensures Opened(lines[..k + 1]) <==> Opened(lines[..k]) || HasOpen(lines[k])
    ensures TotalDepth(lines[..k + 1]) == TotalDepth(lines[..k]) + Depth(lines[k])
    ensures BodyClosed(lines[..k + 1]) <==>
            (Opened(lines[..k]) || HasOpen(lines[k])) && TotalDepth(lines[..k]) + Depth(lines[k]) <= 0
  {
    var seen := lines[..k + 1];
    assert seen[..k] == lines[..k] && seen[k] == lines[k];
    assert forall i :: 0 <= i < k ==> lines[..k][i] == seen[i];
  }

  method CountBraces(stripped: string, depth: int, begun: bool) returns (depth': int, begun': bool)
    ensures depth' == depth + Depth(stripped)
    ensures begun' <==> begun || HasOpen(stripped)
  {
    depth', begun' := depth, begun;
    assert stripped[0..] == stripped;
    for i := 0 to |stripped|
      invariant depth + Depth(stripped) == depth' + Depth(stripped[i..])
      invariant begun' <==> begun || '{' in stripped[..i]
    {
      assert stripped[i..][1..] == stripped[i + 1..];
      if stripped[i] == '{' {
        depth', begun' := depth' + 1, true;
      } else if stripped[i] == '}' {
        depth' := depth' - 1;
      }
    }
  }

  lemma {:induction false} FeedAllAppend(lines: seq<string>, line: string, s: State)
    requires !s.Comment?
    ensures var r := FeedAll(lines, s); var f := FeedLine(line, r.state);
            FeedAll(lines + [line], s) == Output(r.lines + [f.0], f.1)
  {
    if lines == [] {
      assert lines + [line] == [line];
    } else {
      assert (lines + [line])[1..] == lines[1..] + [line];
      FeedAllAppend(lines[1..], line, FeedLine(lines[0], s).1);
    }
  }

  lemma {:induction false} FeedAllPrefix(lines: seq<string>, k: nat, s: State)
    requires k <= |lines| && !s.Comment?
    ensures FeedAll(lines[..k], s).lines == FeedAll(lines, s).lines[..k]
  {
    if k > 0 {
      assert lines[..k][1..] == lines[1..][..k - 1];
      FeedAllPrefix(lines[1..], k - 1, FeedLine(lines[0], s).1);
    }
  }

  lemma StreamStep(lines: seq<string>, k: nat)
    requires k < |lines|
    ensures var s := FeedAll(lines[..k], Code).state; var f := FeedLine(lines[k], s);
            f.0 == FeedAll(lines, Code).lines[k] && f.1 == FeedAll(lines[..k + 1], Code).state
  {
    hide *;
    var front := lines[..k];
    var r := FeedAll(front, Code);
    assert lines[..k + 1] == front + [lines[k]];
    FeedAllAppend(front, lines[k], Code);
    FeedAllPrefix(lines, k + 1, Code);
    LastOfPrefix(r.lines, FeedLine(lines[k], r.state).0, FeedAll(lines, Code).lines);
  }

  lemma LastOfPrefix(a: seq<string>, x: string, b: seq<string>)
    requires |a| < |b| && b[..|a| + 1] == a + [x]
    ensures b[|a|] == x
  {
    assert b[|a|] == b[..|a| + 1][|a|];
  }

  /** The body is not closed after any of the first `n` stripped lines. */
  ghost predicate OpenThrough(stripped: seq<string>, n: nat)
    requires n <= |stripped|
  {
    forall k :: 0 < k <= n ==> !BodyClosed(stripped[..k])
  }

  lemma StillOpen(stripped: seq<string>, n: nat)
    requires n < |stripped| && OpenThrough(stripped, n) && !BodyClosed(stripped[..n + 1])
    ensures OpenThrough(stripped, n + 1)
  {
    hide BodyClosed;
  }

  /** What the matching loop knows after `n` lines. */
  ghost predicate Matching(lines: seq<string>, n: nat, s: State, depth: int, begun: bool) {
    && n <= |lines|
    && s == FeedAll(lines[..n], Code).state
    && var stripped := FeedAll(lines, Code).lines;
       depth == TotalDepth(stripped[..n]) && (begun <==> Opened(stripped[..n])) && OpenThrough(stripped, n)
  }

  lemma MatchingStarts(lines: seq<string>)
    ensures Matching(lines, 0, Code, 0, false)
  {
  }

  lemma MatchingStep(lines: seq<string>, n: nat, s: State, depth: int, begun: bool)
    requires Matching(lines, n, s, depth, begun) && n < |lines| && !s.Comment?
    ensures OpenThrough(FeedAll(lines, Code).lines, n)
    ensures var f := FeedLine(lines[n], s);
            var depth', begun' := depth + Depth(f.0), begun || HasOpen(f.0);
            && ((begun' && depth' <= 0) <==> BodyClosed(FeedAll(lines, Code).lines[..n + 1]))
            && (!(begun' && depth' <= 0) ==> Matching(lines, n + 1, f.1, depth', begun'))
  {
    hide FeedLine, FeedAll, Opened, TotalDepth, Depth, BodyClosed;
    var stripped := FeedAll(lines, Code).lines;
    StreamStep(lines, n);
    OneMoreLine(stripped, n);
    if !BodyClosed(stripped[..n + 1]) {
      StillOpen(stripped, n);
    }
    hide OpenThrough;
  }

  method MatchStream(lines: seq<string>) returns (n: nat)
    ensures n <= |lines| && OpenThrough(FeedAll(lines, Code).lines, n)
    ensures n < |lines| ==> BodyClosed(FeedAll(lines, Code).lines[..n + 1])
  {
    hide *;
    var depth, begun := 0, false;
    var stripper := new LiteralStripper();
    n := 0;
    MatchingStarts(lines);
    while n < |lines|
      invariant n <= |lines| && stripper.Valid() && fresh(stripper)
      invariant Matching(lines, n, stripper.Current(), depth, begun)
    {
      MatchingStep(lines, n, stripper.Current(), depth, begun);
      var out := stripper.Feed(lines[n]);
      depth, begun := CountBraces(out, depth, begun);
      if begun && depth <= 0 {
        return;
      }
      n := n + 1;
    }
    MatchingEnds(lines, n, stripper.Current(), depth, begun);
  }

  /** The last line of the body that starts at line `j`: the first line at which
      the braces of the stripped whole text have opened and balanced. */
  method MatchBody(lines: seq<string>, j: nat) returns (k: nat)
    requires j < |lines| && SingleLines(lines)
    ensures j <= k <= |lines|
    ensures var stripped := Whole(Join(lines[j..]), Code).lines;
            && |stripped| == |lines| - j
            && OpenThrough(stripped, k - j)
            && (k < |lines| ==> BodyClosed(stripped[..k - j + 1]))
  {
    hide *;
    var n := MatchStream(lines[j..]);
    StreamingFrom(lines, j);
    k := j + n;
  }

  lemma MatchingEnds(lines: seq<string>, n: nat, s: State, depth: int, begun: bool)
    requires Matching(lines, n, s, depth, begun)
    ensures n <= |lines| && OpenThrough(FeedAll(lines, Code).lines, n)
  {
  }
}
