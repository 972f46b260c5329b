/** The length-preserving blanking lexer `rust_code_only`. */
module RustBlanking {
  import opened Text

  // ----- the openings the scanner recognises at the front of a text

  predicate OpensLine(t: string) { "//" <= t }

  predicate OpensBlock(t: string) { "/*" <= t }

  /** Length of a raw-string prefix `br`, `cr` or `r`, or 0. */
  function RawPrefix(t: string): nat {
    if "br" <= t || "cr" <= t then 2 else if "r" <= t then 1 else 0
  }

  predicate OpensRaw(t: string) {
    var p := RawPrefix(t);
    p > 0 && var h := HashRun(t[p..]); p + h < |t| && t[p + h] == '"'
  }

  predicate OpensString(t: string) { "\"" <= t || "b\"" <= t || "c\"" <= t }

  predicate OpensChar(t: string) {
    || "b'" <= t
    || (|t| > 2 && t[0] == '\'' && (t[1] == '\\' || t[2] == '\''))
  }

  predicate Opens(t: string) {
    OpensLine(t) || OpensBlock(t) || OpensRaw(t) || OpensString(t) || OpensChar(t)
  }

  // ----- how far each token reaches

  /** Characters consumed after an opening quote.  A backslash that ends the
      text consumes one character too many, as the source does. */
  function QuotedLength(t: string, d: char): (n: nat)
    ensures n <= |t| + 1
  {
    if t == "" then 0
    else if t[0] == '\\' then if |t| == 1 then 2 else 2 + QuotedLength(t[2..], d)
    else if t[0] == d then 1
    else 1 + QuotedLength(t[1..], d)
  }

  /** Characters consumed inside a block comment nested `depth` deep. */
  function BlockLength(t: string, depth: nat): (n: nat)
    ensures n <= |t|
  {
    if t == "" || depth == 0 then 0
    else if "/*" <= t then 2 + BlockLength(t[2..], depth + 1)
    else if "*/" <= t then 2 + BlockLength(t[2..], depth - 1)
    else 1 + BlockLength(t[1..], depth)
  }

  function RawLength(t: string): (n: nat)
    requires OpensRaw(t)
    ensures 0 < n <= |t|
  {
    var p := RawPrefix(t);
    var h := HashRun(t[p..]);
    var marker := "\"" + Hashes(h);
    match Find(t[p + h + 1..], marker)
    case None => |t|
    case Some(k) => p + h + 1 + k + |marker|
  }

  /** Offset of the opening quote of a string, byte string or character literal. */
  function QuoteOffset(t: string): (q: nat)
    requires OpensString(t) || OpensChar(t)
    ensures q < |t|
  {
    if t[0] == '"' || t[0] == '\'' then 0 else 1
  }

  function QuotedTokenLength(t: string): (n: nat)
    requires OpensString(t) || OpensChar(t)
    ensures 0 < n <= |t| + 1
  {
    var q := QuoteOffset(t);
    q + 1 + QuotedLength(t[q + 1..], t[q])
  }

  function TokenLength(t: string): (n: nat)
    requires Opens(t)
    ensures 0 < n <= |t| + 1
  {
    if OpensLine(t) then LineLength(t)
    else if OpensBlock(t) then 2 + BlockLength(t[2..], 1)
    else if OpensRaw(t) then RawLength(t)
    else QuotedTokenLength(t)
  }

  // ----- the specification of the whole pass

  function Spaces(t: string): (r: string)
    ensures |r| == |t|
    ensures forall k :: 0 <= k < |t| ==> r[k] == if t[k] == '\n' then '\n' else ' '
  {
    seq(|t|, k requires 0 <= k < |t| => if t[k] == '\n' then '\n' else ' ')
  }

  function Prepend(s: string, r: Option<string>): Option<string> {
    if r.None? then None else Some(s + r.value)
  }

  /** The blanked text, or `None` where the source fails with an index error. */
  function Blank(t: string): (r: Option<string>)
    decreases |t|
  {
    if t == "" then Some("")
    else if !Opens(t) then Prepend([t[0]], Blank(t[1..]))
    else
      var n := TokenLength(t);
      if n > |t| then None else Prepend(Spaces(t[..n]), Blank(t[n..]))
  }

  lemma PrependTwice(a: string, b: string, r: Option<string>)
    ensures Prepend(a, Prepend(b, r)) == Prepend(a + b, r)
  {
    if r.Some? {
      assert a + (b + r.value) == a + b + r.value;
    }
  }

  // ----- the imperative pass over a character list

  method QuotedEnd(source: string, quoteIndex: nat, delimiter: char) returns (end: nat)
    requires quoteIndex < |source|
    ensures end == quoteIndex + 1 + QuotedLength(source[quoteIndex + 1..], delimiter)
  {
    end := quoteIndex + 1;
    while end < |source|
      invariant end <= |source| + 1
      invariant end <= |source| ==>
        quoteIndex + 1 + QuotedLength(source[quoteIndex + 1..], delimiter)
        == end + QuotedLength(source[end..], delimiter)
      invariant end > |source| ==>
        quoteIndex + 1 + QuotedLength(source[quoteIndex + 1..], delimiter) == end
    {
      if source[end] == '\\' {
        if end + 2 <= |source| {
          assert source[end..][2..] == source[end + 2..];
        }
        end := end + 2;
      } else if source[end] == delimiter {
        return end + 1;
      } else {
        assert source[end..][1..] == source[end + 1..];
        end := end + 1;
      }
    }
  }

  lemma BlockClose(u: string, depth: nat)
    requires depth > 0
    ensures BlockLength("*/" + u, depth) == 2 + BlockLength(u, depth - 1)
  {
    var t := "*/" + u;
    assert t[2..] == u && t[0] == '*' && "*/" <= t;
  }

  lemma BlockOpen(u: string, depth: nat)
    requires depth > 0
    ensures BlockLength("/*" + u, depth) == 2 + BlockLength(u, depth + 1)
  {
    var t := "/*" + u;
    assert t[2..] == u && "/*" <= t;
  }

  lemma BlockChar(c: char, u: string, depth: nat)
    requires depth > 0 && !("/*" <= [c] + u) && !("*/" <= [c] + u)
    ensures BlockLength([c] + u, depth) == 1 + BlockLength(u, depth)
  {
    assert ([c] + u)[1..] == u;
  }

  lemma NothingLeft(rest: string, depth: nat)
    requires rest == "" || depth == 0
    ensures BlockLength(rest, depth) == 0
  {
  }

  /** One step of the block-comment scan, in positions of the whole source. */
  lemma BlockStep(source: string, end: nat, depth: nat)
    requires end < |source| && depth > 0
    ensures var t := source[end..];
            BlockLength(t, depth) ==
            if "/*" <= t then 2 + BlockLength(source[end + 2..], depth + 1)
            else if "*/" <= t then 2 + BlockLength(source[end + 2..], depth - 1)
            else 1 + BlockLength(source[end + 1..], depth)
  {
    var t := source[end..];
    assert t[1..] == source[end + 1..];
    if |t| >= 2 {
      assert t[2..] == source[end + 2..];
    }
  }

  method BlockEnd(source: string, index: nat) returns (end: nat)
    requires index + 2 <= |source|
    ensures end == index + 2 + BlockLength(source[index + 2..], 1)
  {
    hide BlockLength;
    var depth := 1;
    end := index + 2;
    while end < |source| && depth > 0
      invariant end <= |source| && depth >= 0
      invariant index + 2 + BlockLength(source[index + 2..], 1) == end + BlockLength(source[end..], depth)
    {
      BlockStep(source, end, depth);
      if "/*" <= source[end..] {
        depth, end := depth + 1, end + 2;
      } else if "*/" <= source[end..] {
        depth, end := depth - 1, end + 2;
      } else {
        end := end + 1;
      }
    }
    NothingLeft(source[end..], depth);
  }

  method TokenEnd(source: string, index: nat) returns (end: nat)
    requires index < |source| && Opens(source[index..])
    ensures end == index + TokenLength(source[index..])
  {
    var t := source[index..];
    if OpensLine(t) {
      end := index + LineLength(t);
    } else if OpensBlock(t) {
      assert t[2..] == source[index + 2..];
      end := BlockEnd(source, index);
    } else if OpensRaw(t) {
      end := index + RawLength(t);
    } else {
      var q := QuoteOffset(t);
      assert t[q + 1..] == source[index + q + 1..];
      end := QuotedEnd(source, index + q, source[index + q]);
    }
  }

  /** Overwrites `code[index..end]` with spaces, keeping newlines. */
  method BlankRange(code: array<char>, index: nat, end: nat)
    requires index <= end <= code.Length
    modifies code
    ensures code[..] == old(code[..index] + Spaces(code[index..end]) + code[end..])
  {
    for offset := index to end
      invariant forall k :: index <= k < offset ==> code[k] == old(if code[k] == '\n' then '\n' else ' ')
      invariant forall k :: 0 <= k < index || offset <= k < code.Length ==> code[k] == old(code[k])
    {
      if code[offset] != '\n' {
        code[offset] := ' ';
      }
    }
  }

  lemma PrependNothing(r: Option<string>)
    ensures Prepend("", r) == r
  {
    if r.Some? {
      assert "" + r.value == r.value;
    }
  }

  lemma CodeStep(s: string, i: nat, done: string)
    requires i < |s| && !Opens(s[i..])
    ensures Prepend(done, Blank(s[i..])) == Prepend(done + [s[i]], Blank(s[i + 1..]))
  {
    assert s[i..][1..] == s[i + 1..];
    PrependTwice(done, [s[i]], Blank(s[i + 1..]));
  }

  lemma TokenStep(s: string, i: nat, e: nat, done: string)
    requires i < |s| && Opens(s[i..]) && e == i + TokenLength(s[i..]) <= |s|
    ensures Prepend(done, Blank(s[i..])) == Prepend(done + Spaces(s[i..e]), Blank(s[e..]))
  {
    var t := s[i..];
    assert t[..e - i] == s[i..e] && t[e - i..] == s[e..];
    PrependTwice(done, Spaces(s[i..e]), Blank(s[e..]));
  }

  lemma TokenOverrun(s: string, i: nat, done: string)
    requires i < |s| && Opens(s[i..]) && i + TokenLength(s[i..]) > |s|
    ensures Prepend(done, Blank(s[i..])) == None
  {
    hide Opens, TokenLength;
  }

  lemma ScanEnds(s: string, done: string)
    ensures s[|s|..] == "" && Prepend(done, Blank(s[|s|..])) == Some(done)
  {
    assert done + "" == done;
  }

  method RustCodeOnly(source: string) returns (r: Option<string>)
    ensures r == Blank(source)
  {
    hide *;
    var code := new char[|source|](k requires 0 <= k < |source| => source[k]);
    var index := 0;
    ghost var done := "";
    PrependNothing(Blank(source));
    assert source[0..] == source && code[..] == done + source[index..];
    while index < |source|
      invariant index <= |source| && |done| == index
      invariant code[..] == done + source[index..]
      invariant Blank(source) == Prepend(done, Blank(source[index..]))
    {
      if !Opens(source[index..]) {
        CodeStep(source, index, done);
        done := done + [source[index]];
        index := index + 1;
      } else {
        var end := TokenEnd(source, index);
        if end > |source| {
          TokenOverrun(source, index, done);
          return None;
        }
        TokenStep(source, index, end, done);
        assert code[index..end] == source[index..end] && code[end..] == source[end..];
        BlankRange(code, index, end);
        done := done + Spaces(source[index..end]);
        index := end;
      }
    }
    ScanEnds(source, done);
    assert done + source[index..] == done;
    return Some(code[..]);
  }

  // ----- what the output keeps

  /** A position of the output that is neither a space nor a newline is an
      unchanged character at which no token opens. */
  lemma {:induction false} KeptIsCode(t: string, p: nat)
    requires Blank(t).Some? && p < |t|
    ensures |Blank(t).value| == |t|
    ensures var o := Blank(t).value;
            && (o[p] == t[p] || (o[p] == ' ' && t[p] != '\n'))
            && (o[p] != ' ' && o[p] != '\n' ==> !Opens(t[p..]))
    decreases |t|
  {
    hide Opens, TokenLength;
    var n := if Opens(t) then TokenLength(t) else 1;
    BlankLength(t[n..]);
    assert t[0..] == t;
    if p >= n {
      assert t[n..][p - n..] == t[p..];
      KeptIsCode(t[n..], p - n);
    }
  }

  lemma {:induction false} BlankLength(t: string)
    ensures Blank(t).Some? ==> |Blank(t).value| == |t|
    decreases |t|
  {
    if t != "" {
      if !Opens(t) {
        BlankLength(t[1..]);
      } else if TokenLength(t) <= |t| {
        BlankLength(t[TokenLength(t)..]);
      }
    }
  }

  /** Length, newlines and every character that is not blanked are kept. */
  lemma BlankKeepsShape(t: string)
    requires Blank(t).Some?
    ensures |Blank(t).value| == |t|
    ensures forall k :: 0 <= k < |t| ==>
              && (Blank(t).value[k] == '\n' <==> t[k] == '\n')
              && (Blank(t).value[k] == t[k] || Blank(t).value[k] == ' ')
  {
    BlankLength(t);
    forall k | 0 <= k < |t|
      ensures Blank(t).value[k] == t[k] || (Blank(t).value[k] == ' ' && t[k] != '\n')
    {
      KeptIsCode(t, k);
    }
  }

  lemma NoQuoteInOutput(t: string)
    requires Blank(t).Some?
    ensures forall k :: 0 <= k < |Blank(t).value| ==> Blank(t).value[k] != '"'
  {
    BlankLength(t);
    forall k | 0 <= k < |t| ensures Blank(t).value[k] != '"' {
      KeptIsCode(t, k);
    }
  }

  /** No opening of any kind survives in the output: no double quote, no line or
      block comment, no raw string and no character literal. */
  lemma NothingOpensInOutput(t: string, p: nat)
    requires Blank(t).Some? && p < |t|
    ensures |Blank(t).value| == |t|
    ensures Blank(t).value[p] != '"'
    ensures !Opens(Blank(t).value[p..])
  {
    hide *;
    BlankLength(t);
    var o := Blank(t).value;
    KeptIsCode(t, p);
    NoQuoteInOutput(t);
    var u := o[p..];
    if u[0] == ' ' || u[0] == '\n' {
      SpaceOpensNothing(u);
    } else {
      forall k | p <= k < |t| ensures o[k] == t[k] || o[k] == ' ' {
        KeptIsCode(t, k);
      }
      OpensOfKept(u, t[p..]);
    }
  }

  lemma SpaceOpensNothing(u: string)
    requires u != "" && (u[0] == ' ' || u[0] == '\n')
    ensures !Opens(u)
  {
  }

  /** A text without double quotes opens something only if the text it was
      blanked from does. */
  lemma OpensOfKept(o: string, t: string)
    requires |o| == |t| > 0
    requires forall k :: 0 <= k < |t| ==> o[k] != '"' && (o[k] == t[k] || o[k] == ' ')
    ensures Opens(o) ==> Opens(t)
  {
    assert !OpensRaw(o);
  }

  lemma {:induction false} BlankOfPlainCode(t: string)
    requires forall p :: 0 <= p < |t| ==> !Opens(t[p..])
    ensures Blank(t) == Some(t)
  {
    if t != "" {
      assert t[0..] == t;
      forall p | 0 <= p < |t| - 1 ensures !Opens(t[1..][p..]) {
        assert t[1..][p..] == t[p + 1..];
      }
      BlankOfPlainCode(t[1..]);
      assert [t[0]] + t[1..] == t;
    }
  }

  /** Blanking twice is blanking once. */
  lemma BlankIsIdempotent(t: string)
    requires Blank(t).Some?
    ensures Blank(Blank(t).value) == Blank(t)
  {
    var o := Blank(t).value;
    BlankLength(t);
    forall p | 0 <= p < |o| ensures !Opens(o[p..]) {
      NothingOpensInOutput(t, p);
    }
    BlankOfPlainCode(o);
  }

  // ----- exactly when the source fails

  function TrailingBackslashes(t: string): (n: nat)
    ensures n <= |t|
  {
    if t == "" || t[|t| - 1] != '\\' then 0 else 1 + TrailingBackslashes(t[..|t| - 1])
  }

  /** `t[k]` is a delimiter that is not escaped: an even run of backslashes precedes it. */
  predicate Closes(t: string, d: char, k: nat) {
    k < |t| && t[k] == d && TrailingBackslashes(t[..k]) % 2 == 0
  }

  ghost predicate Unclosed(t: string, d: char) {
    forall k :: 0 <= k < |t| ==> !Closes(t, d, k)
  }

  lemma {:induction false} TrailingBackslashesOfConcat(a: string, b: string)
    ensures TrailingBackslashes(b) < |b| ==> TrailingBackslashes(a + b) == TrailingBackslashes(b)
    ensures TrailingBackslashes(b) == |b| ==> TrailingBackslashes(a + b) == |b| + TrailingBackslashes(a)
    decreases |b|
  {
    if b == "" {
      assert a + b == a;
    } else {
      assert (a + b)[..|a + b| - 1] == a + b[..|b| - 1];
      TrailingBackslashesOfConcat(a, b[..|b| - 1]);
    }
  }

  /** Dropping a whole escape, or one ordinary character, keeps which later
      delimiters close the literal. */
  lemma ParityOfTail(t: string, n: nat)
    requires 0 < n <= |t|
    requires (n == 1 && t[0] != '\\') || (n == 2 && t[0] == '\\')
    ensures TrailingBackslashes(t) % 2 == TrailingBackslashes(t[n..]) % 2
  {
    hide TrailingBackslashes;
    assert t == t[..n] + t[n..];
    TrailingBackslashesOfConcat(t[..n], t[n..]);
    EvenHead(t[..n]);
  }

  lemma EvenHead(h: string)
    requires (|h| == 1 && h[0] != '\\') || (|h| == 2 && h[0] == '\\')
    ensures TrailingBackslashes(h) % 2 == 0
    ensures TrailingBackslashes(h) < |h| || TrailingBackslashes(h) == 2
  {
    if |h| == 2 {
      assert h[..1][..0] == "" && h[..1][0] == '\\';
      assert TrailingBackslashes(h[..1]) == 1;
    }
  }

  lemma ClosesInTail(t: string, d: char, n: nat)
    requires d != '\\' && 0 < n <= |t|
    requires (n == 1 && t[0] != '\\') || (n == 2 && t[0] == '\\')
    ensures forall k :: n <= k < |t| ==> (Closes(t, d, k) <==> Closes(t[n..], d, k - n))
  {
    forall k | n <= k < |t| ensures Closes(t, d, k) <==> Closes(t[n..], d, k - n) {
      ParityOfTail(t[..k], n);
      assert t[..k][n..] == t[n..][..k - n];
    }
  }

  /** The quoted scan stops just after the first unescaped delimiter.  Without
      one it stops at the end of the text, or one past it when an odd run of
      backslashes ends the text. */
  lemma {:induction false} QuotedLengthIsFirstClose(t: string, d: char)
    requires d != '\\'
    ensures var n := QuotedLength(t, d);
            if Unclosed(t, d) then n == |t| + TrailingBackslashes(t) % 2
            else 0 < n <= |t| && Closes(t, d, n - 1) && forall k :: 0 <= k < n - 1 ==> !Closes(t, d, k)
    decreases |t|
  {
    if t == "" {
    } else if t == "\\" {
      assert t[..0] == "" && TrailingBackslashes(t) == 1;
    } else if t[0] == d {
      assert t[..0] == "" && Closes(t, d, 0);
    } else {
      var n := if t[0] == '\\' then 2 else 1;
      NoCloseInHead(t, d, n);
      ParityOfTail(t, n);
      ClosesInTail(t, d, n);
      QuotedLengthIsFirstClose(t[n..], d);
      hide Closes, TrailingBackslashes;
      FirstCloseOfTail(t, d, n, QuotedLength(t[n..], d));
    }
  }

  lemma NoCloseInHead(t: string, d: char, n: nat)
    requires d != '\\' && 0 < n <= |t| && t[0] != d
    requires n == 1 || (n == 2 && t[0] == '\\')
    ensures forall k :: 0 <= k < n ==> !Closes(t, d, k)
  {
    if n == 2 {
      assert t[..1] == ['\\'] && ['\\'][..0] == "" && TrailingBackslashes(t[..1]) == 1;
    }
  }

  /** Moves the first closing delimiter from the tail `t[n..]` to `t`. */
  lemma FirstCloseOfTail(t: string, d: char, n: nat, m: nat)
    requires n <= |t|
    requires forall k :: 0 <= k < n ==> !Closes(t, d, k)
    requires forall k :: n <= k < |t| ==> (Closes(t, d, k) <==> Closes(t[n..], d, k - n))
    ensures Unclosed(t, d) <==> Unclosed(t[n..], d)
    ensures 0 < m <= |t| - n && Closes(t[n..], d, m - 1) && (forall k :: 0 <= k < m - 1 ==> !Closes(t[n..], d, k)) ==>
              Closes(t, d, n + m - 1) && forall k :: 0 <= k < n + m - 1 ==> !Closes(t, d, k)
  {
    hide Closes;
    assert forall k :: 0 <= k < |t| - n ==> (Closes(t[n..], d, k) <==> Closes(t, d, k + n));
  }

  /** The scan of `t` stops at offset `p`, at the start of a token or of a code character. */
  ghost predicate Visits(t: string, p: nat)
    decreases |t|
  {
    p == 0 || (t != "" && var n := FirstLength(t); n <= p && n <= |t| && Visits(t[n..], p - n))
  }

  /** How far the scan moves from the front of `t`. */
  function FirstLength(t: string): (n: nat)
    requires t != ""
    ensures 0 < n <= |t| + 1
  {
    if Opens(t) then TokenLength(t) else 1
  }

  lemma VisitsFront(t: string)
    requires t != ""
    ensures Visits(t, 0)
    ensures FirstLength(t) > |t| <==> OpensDanglingEscape(t)
    ensures FirstLength(t) > |t| ==> Blank(t).None?
  {
    if Opens(t) {
      DanglingEscapeOverruns(t);
    }
  }

  lemma VisitsTail(t: string, p: nat)
    requires t != "" && p <= |t| && FirstLength(t) <= |t|
    ensures FirstLength(t) <= p ==> (Visits(t, p) <==> Visits(t[FirstLength(t)..], p - FirstLength(t)))
    ensures 0 < p < FirstLength(t) ==> !Visits(t, p)
  {
  }

  lemma BlankFailsInTail(t: string)
    requires t != "" && FirstLength(t) <= |t|
    ensures Blank(t).None? <==> Blank(t[FirstLength(t)..]).None?
  {
  }

  /** A string or character literal opens at the front of `u`, is never closed,
      and its last backslash has nothing left to escape. */
  ghost predicate OpensDanglingEscape(u: string) {
    && (OpensString(u) || OpensChar(u)) && !OpensLine(u) && !OpensBlock(u) && !OpensRaw(u)
    && var q := QuoteOffset(u);
       Unclosed(u[q + 1..], u[q]) && TrailingBackslashes(u[q + 1..]) % 2 == 1
  }

  lemma DanglingEscapeOverruns(u: string)
    requires Opens(u)
    ensures TokenLength(u) > |u| <==> OpensDanglingEscape(u)
  {
    if !OpensLine(u) && !OpensBlock(u) && !OpensRaw(u) {
      var q := QuoteOffset(u);
      assert u[q] != '\\';
      QuotedLengthIsFirstClose(u[q + 1..], u[q]);
    }
  }

  lemma EmptyNeverFails()
    ensures Blank("").Some?
  {
  }

  /** Where the scan of a failing text meets the literal left open. */
  lemma {:induction false} FailingPosition(t: string) returns (p: nat)
    requires t != "" && Blank(t).None?
    ensures p < |t| && Visits(t, p) && OpensDanglingEscape(t[p..])
    decreases |t|
  {
    hide *;
    assert t[0..] == t;
    VisitsFront(t);
    if OpensDanglingEscape(t) {
      p := 0;
    } else {
      var n := FirstLength(t);
      BlankFailsInTail(t);
      EmptyNeverFails();
      var q := FailingPosition(t[n..]);
      p := n + q;
      VisitsTail(t, p);
      assert t[n..][q..] == t[p..];
    }
  }

  lemma {:induction false} DanglingEscapeFails(t: string, p: nat)
    requires p < |t| && Visits(t, p) && OpensDanglingEscape(t[p..])
    ensures Blank(t).None?
    decreases |t|
  {
    hide *;
    assert t[0..] == t;
    VisitsFront(t);
    var n := FirstLength(t);
    if p > 0 && n <= |t| {
      VisitsTail(t, p);
      BlankFailsInTail(t);
      assert t[n..][p - n..] == t[p..];
      DanglingEscapeFails(t[n..], p - n);
    }
  }

  /** The source fails exactly when the scan reaches a literal left open by a
      final backslash. */
  lemma BlankFailsExactlyOnDanglingEscape(t: string)
    ensures Blank(t).None? <==> exists p :: 0 <= p < |t| && Visits(t, p) && OpensDanglingEscape(t[p..])
  {
    hide *;
    EmptyNeverFails();
    if Blank(t).None? {
      var p := FailingPosition(t);
    }
    if p :| 0 <= p < |t| && Visits(t, p) && OpensDanglingEscape(t[p..]) {
      DanglingEscapeFails(t, p);
    }
  }

  /** A lone quote followed by a backslash is such a text. */
  lemma LoneBackslashFails()
    ensures Blank("\"\\").None?
  {
    var u := "\"\\";
    assert u[1..] == "\\";
    assert QuotedLength("\\", '"') == 2;
    assert QuotedTokenLength(u) == 3;
  }

  // ----- every lexically valid token stream is blanked token by token

  /** Contents of a quoted literal: an ordinary character or an escaped one. */
  datatype Letter = Plain(c: char) | Escaped(c: char)

  /** Contents of a block comment, which nests. */
  datatype Piece = Char(c: char) | Nested(pieces: seq<Piece>)

  datatype Item =
    | Code(c: char)
    | LineComment(body: string)
    | BlockComment(pieces: seq<Piece>)
    | RawString(prefix: string, hashes: nat, body: string)
    | Quoted(prefix: string, delimiter: char, letters: seq<Letter>)

  function LettersText(letters: seq<Letter>): string {
    if letters == [] then ""
    else (match letters[0] case Plain(c) => [c] case Escaped(c) => ['\\', c]) + LettersText(letters[1..])
  }

  function PiecesText(pieces: seq<Piece>): string {
    if pieces == [] then ""
    else
      (match pieces[0] case Char(c) => [c] case Nested(inner) => "/*" + PiecesText(inner) + "*/")
      + PiecesText(pieces[1..])
  }

  function ItemText(item: Item): string {
    match item
    case Code(c) => [c]
    case LineComment(body) => "//" + body
    case BlockComment(pieces) => "/*" + PiecesText(pieces) + "*/"
    case RawString(prefix, hashes, body) => prefix + Hashes(hashes) + "\"" + body + "\"" + Hashes(hashes)
    case Quoted(prefix, d, letters) => prefix + [d] + LettersText(letters) + [d]
  }

  function ItemsText(items: seq<Item>): string {
    if items == [] then "" else ItemText(items[0]) + ItemsText(items[1..])
  }

  /** Comment characters never form a comment marker with what follows them. */
  predicate PiecesOk(pieces: seq<Piece>, rest: string) {
    pieces == [] ||
    (var after := PiecesText(pieces[1..]) + rest;
     && PiecesOk(pieces[1..], rest)
     && match pieces[0]
        case Char(c) => !("/*" <= [c] + after) && !("*/" <= [c] + after)
        case Nested(inner) => PiecesOk(inner, "*/"))
  }

  predicate LettersOk(letters: seq<Letter>, d: char) {
    forall k :: 0 <= k < |letters| && letters[k].Plain? ==> letters[k].c != '\\' && letters[k].c != d
  }

  /** `item` may stand in front of the text `rest`. */
  ghost predicate ItemOk(item: Item, rest: string) {
    match item
    case Code(c) => !Opens([c] + rest)
    case LineComment(body) => '\n' !in body && (rest == "" || rest[0] == '\n')
    case BlockComment(pieces) => PiecesOk(pieces, "*/")
    case RawString(prefix, hashes, body) =>
      && prefix in {"r", "br", "cr"}
      && var marker := "\"" + Hashes(hashes);
         forall k :: 0 <= k < |body| ==> !(marker <= (body + marker)[k..])
    case Quoted(prefix, d, letters) =>
      && LettersOk(letters, d)
      && ((d == '"' && prefix in {"", "b", "c"}) || (d == '\'' && prefix == "b")
          || (d == '\'' && prefix == "" && letters != [] && (letters[0].Escaped? || |letters| == 1)))
  }

  ghost predicate ItemsOk(items: seq<Item>) {
    items == [] || (ItemOk(items[0], ItemsText(items[1..])) && ItemsOk(items[1..]))
  }

  function ItemsBlanked(items: seq<Item>): string {
    if items == [] then ""
    else (if items[0].Code? then ItemText(items[0]) else Spaces(ItemText(items[0]))) + ItemsBlanked(items[1..])
  }

  lemma {:induction false} LettersLength(letters: seq<Letter>, d: char, rest: string)
    requires d != '\\' && LettersOk(letters, d)
    ensures QuotedLength(LettersText(letters) + [d] + rest, d) == |LettersText(letters)| + 1
  {
    var t := LettersText(letters) + [d] + rest;
    if letters == [] {
      assert t == [d] + rest;
    } else {
      LettersLength(letters[1..], d, rest);
      var u := LettersText(letters[1..]) + [d] + rest;
      match letters[0]
      case Plain(c) =>
        assert t == [c] + u && t[1..] == u;
      case Escaped(c) =>
        assert t == ['\\', c] + u && t[2..] == u;
    }
  }

  /** Scanning the pieces of a comment returns to the depth it started from. */
  lemma {:induction false} PiecesLength(pieces: seq<Piece>, rest: string, depth: nat)
    requires PiecesOk(pieces, rest) && depth > 0
    ensures BlockLength(PiecesText(pieces) + rest, depth) == |PiecesText(pieces)| + BlockLength(rest, depth)
    decreases pieces
  {
    hide BlockLength;
    var t := PiecesText(pieces) + rest;
    if pieces == [] {
      assert t == rest;
    } else {
      var u := PiecesText(pieces[1..]) + rest;
      PiecesLength(pieces[1..], rest, depth);
      match pieces[0]
      case Char(c) =>
        assert t == [c] + u;
        BlockChar(c, u, depth);
      case Nested(inner) =>
        var body := PiecesText(inner);
        assert t == "/*" + (body + ("*/" + u));
        PiecesOkInContext(inner, u);
        PiecesLength(inner, "*/" + u, depth + 1);
        NestedLength(body, u, depth);
    }
  }

  lemma NestedLength(body: string, u: string, depth: nat)
    requires depth > 0 && BlockLength(body + ("*/" + u), depth + 1) == |body| + BlockLength("*/" + u, depth + 1)
    ensures BlockLength("/*" + (body + ("*/" + u)), depth) == |body| + 4 + BlockLength(u, depth)
  {
    hide *;
    BlockOpen(body + ("*/" + u), depth);
    BlockClose(u, depth + 1);
  }

  lemma {:induction false} PiecesOkInContext(pieces: seq<Piece>, more: string)
    requires PiecesOk(pieces, "*/")
    ensures PiecesOk(pieces, "*/" + more)
  {
    if pieces != [] {
      PiecesOkInContext(pieces[1..], more);
      if pieces[0].Char? {
        var after := PiecesText(pieces[1..]) + "*/";
        var after' := PiecesText(pieces[1..]) + ("*/" + more);
        assert after' == after + more && |after| >= 2;
        assert ([pieces[0].c] + after')[..2] == ([pieces[0].c] + after)[..2];
      }
    }
  }

  lemma RawOpening(prefix: string, hashes: nat, after: string)
    requires prefix in {"r", "br", "cr"}
    ensures var t := prefix + Hashes(hashes) + "\"" + after;
            && OpensRaw(t) && !OpensLine(t) && !OpensBlock(t)
            && RawPrefix(t) == |prefix| && HashRun(t[|prefix|..]) == hashes
            && t[|prefix| + hashes + 1..] == after
  {
    var t := prefix + Hashes(hashes) + "\"" + after;
    assert prefix <= t && t[0] == prefix[0];
    HashRunOf(hashes, "\"" + after);
    assert t[|prefix|..] == Hashes(hashes) + ("\"" + after);
  }

  lemma FindAtMarker(body: string, marker: string, rest: string)
    requires forall k :: 0 <= k < |body| ==> !(marker <= (body + marker)[k..])
    ensures Find(body + marker + rest, marker) == Some(|body|)
  {
    var u := body + marker + rest;
    forall k | 0 <= k < |body| ensures !(marker <= u[k..]) {
      assert u[k..][..|marker|] == (body + marker)[k..][..|marker|];
    }
    assert u[|body|..] == marker + rest;
  }

  lemma RawItemLength(prefix: string, hashes: nat, body: string, rest: string)
    requires ItemOk(RawString(prefix, hashes, body), rest)
    ensures var t := ItemText(RawString(prefix, hashes, body)) + rest;
            OpensRaw(t) && RawLength(t) == |t| - |rest| && !OpensLine(t) && !OpensBlock(t)
  {
    var marker := "\"" + Hashes(hashes);
    var t := prefix + Hashes(hashes) + "\"" + (body + marker + rest);
    assert ItemText(RawString(prefix, hashes, body)) + rest == t;
    hide *;
    FindAtMarker(body, marker, rest);
    RawOpening(prefix, hashes, body + marker + rest);
    RawLengthIs(t, |prefix|, hashes, body + marker + rest, |body|);
  }

  lemma RawLengthIs(t: string, p: nat, h: nat, after: string, k: nat)
    requires OpensRaw(t) && RawPrefix(t) == p && HashRun(t[p..]) == h && t[p + h + 1..] == after
    requires Find(after, "\"" + Hashes(h)) == Some(k)
    ensures RawLength(t) == p + h + 1 + k + 1 + h
  {
  }

  lemma QuotedItemLength(prefix: string, d: char, letters: seq<Letter>, rest: string)
    requires ItemOk(Quoted(prefix, d, letters), rest)
    ensures var t := ItemText(Quoted(prefix, d, letters)) + rest;
            && (OpensString(t) || OpensChar(t)) && QuotedTokenLength(t) == |t| - |rest|
            && !OpensLine(t) && !OpensBlock(t) && !OpensRaw(t)
  {
    var t := ItemText(Quoted(prefix, d, letters)) + rest;
    var body := LettersText(letters);
    assert t == prefix + [d] + (body + [d] + rest);
    LettersLength(letters, d, rest);
    if d == '\'' && prefix == "" {
      assert letters[0].Plain? ==> letters[1..] == [] && body == [letters[0].c];
      assert (body + [d] + rest)[0] == '\\' || (|body| == 1 && (body + [d] + rest)[1] == d);
    }
    hide LettersText, LettersOk, QuotedLength;
    QuotedOpening(prefix, d, body + [d] + rest);
  }

  lemma QuotedOpening(prefix: string, d: char, after: string)
    requires (d == '"' && prefix in {"", "b", "c"}) || (d == '\'' && prefix in {"", "b"})
    requires d == '\'' && prefix == "" ==> |after| > 1 && (after[0] == '\\' || after[1] == d)
    ensures var t := prefix + [d] + after;
            && (OpensString(t) || OpensChar(t)) && QuotedTokenLength(t) == |prefix| + 1 + QuotedLength(after, d)
            && !OpensLine(t) && !OpensBlock(t) && !OpensRaw(t)
  {
    hide QuotedLength, HashRun;
    var t := prefix + [d] + after;
    assert t[|prefix| + 1..] == after && t[|prefix|] == d;
  }

  lemma LineItemLength(body: string, rest: string)
    requires ItemOk(LineComment(body), rest)
    ensures LineLength(ItemText(LineComment(body)) + rest) == 2 + |body|
  {
    var t := "//" + body + rest;
    var n := LineLength(t);
    assert rest != "" ==> t[2 + |body|] == '\n';
    assert forall k :: 0 <= k < 2 + |body| ==> t[k] == ("//" + body)[k];
  }

  lemma BlockItemLength(pieces: seq<Piece>, rest: string)
    requires PiecesOk(pieces, "*/")
    ensures var t := ItemText(BlockComment(pieces)) + rest;
            OpensBlock(t) && !OpensLine(t) && 2 + BlockLength(t[2..], 1) == |t| - |rest|
  {
    var t := ItemText(BlockComment(pieces)) + rest;
    hide BlockLength, PiecesText, PiecesOk;
    assert t == "/*" + (PiecesText(pieces) + ("*/" + rest)) && t[1] == '*';
    PiecesOkInContext(pieces, rest);
    PiecesLength(pieces, "*/" + rest, 1);
    BlockClose(rest, 1);
    NothingLeft(rest, 0);
  }

  /** Each item is recognised as one token of exactly its own length. */
  lemma ItemLength(item: Item, rest: string)
    requires ItemOk(item, rest) && !item.Code?
    ensures Opens(ItemText(item) + rest)
    ensures TokenLength(ItemText(item) + rest) == |ItemText(item)|
  {
    hide OpensRaw, OpensBlock, OpensString, OpensChar, BlockLength, RawLength, QuotedTokenLength, LineLength;
    match item
    case Code(_) =>
    case LineComment(body) => LineItemLength(body, rest);
    case BlockComment(pieces) => BlockItemLength(pieces, rest);
    case RawString(prefix, hashes, body) => RawItemLength(prefix, hashes, body, rest);
    case Quoted(prefix, d, letters) => QuotedItemLength(prefix, d, letters, rest);
  }

  /** Blanking a valid token stream keeps its code characters and blanks every
      comment and literal, whole and nothing else. */
  lemma {:induction false} BlankOfItems(items: seq<Item>)
    requires ItemsOk(items)
    ensures Blank(ItemsText(items)) == Some(ItemsBlanked(items))
  {
    if items != [] {
      hide Opens, TokenLength;
      BlankOfItems(items[1..]);
      var item, rest := items[0], ItemsText(items[1..]);
      var t := ItemText(item) + rest;
      var n := |ItemText(item)|;
      assert t[..n] == ItemText(item) && t[n..] == rest;
      if item.Code? {
        assert [t[0]] == ItemText(item);
      } else {
        ItemLength(item, rest);
      }
    }
  }
}
