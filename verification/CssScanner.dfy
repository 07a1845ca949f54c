/**
 The line scanner of `fix_css.py` (`analyze_css`): it splits a stylesheet into
 lines and flags those after which the file may be cut.
 */
module CssScanner {

  type Quote = c: char | c == '"' || c == '\'' witness '"'

  datatype Mode = Outside | InComment | InString(quote: Quote) | Escaped(quote: Quote)

  datatype Scan = Scan(depth: nat, mode: Mode)

  const Start := Scan(0, Outside)

  datatype Line = Line(text: string, safe: bool)

  predicate Starts(s: string, a: char, b: char) {
    |s| >= 2 && s[0] == a && s[1] == b
  }

  /** How many characters the scanner takes at once: comment delimiters go together. */
  function TokenLength(s: string, st: Scan): (n: nat)
    requires s != []
    ensures 1 <= n <= |s|
  {
    if (st.mode.InComment? && Starts(s, '*', '/')) || (st.mode.Outside? && Starts(s, '/', '*')) then 2 else 1
  }

  function AfterToken(s: string, st: Scan): Scan
    requires s != []
  {
    match st.mode
    case Escaped(q) => st.(mode := InString(q))
    case InComment => if Starts(s, '*', '/') then st.(mode := Outside) else st
    case InString(q) => if s[0] == '\\' then st.(mode := Escaped(q)) else if s[0] == q then st.(mode := Outside) else st
    case Outside =>
      if Starts(s, '/', '*') then st.(mode := InComment)
      else if s[0] == '"' || s[0] == '\'' then st.(mode := InString(s[0]))
      else if s[0] == '{' then st.(depth := st.depth + 1)
      else if s[0] == '}' then st.(depth := if st.depth == 0 then 0 else st.depth - 1)
      else st
  }

  /** The scanner's state after all of `s`. */
  function After(s: string, st: Scan): Scan
    decreases |s|
  {
    if s == [] then st else After(s[TokenLength(s, st)..], AfterToken(s, st))
  }

  /** The text up to and including the first newline, or all of it. */
  function FirstLine(s: string): (l: string)
    ensures l <= s
    ensures s != [] ==> l != []
  {
    if s == [] then [] else if s[0] == '\n' then [s[0]] else [s[0]] + FirstLine(s[1..])
  }

  /** The lines of `s` read from `st`; a line is safe when the scanner ends it at depth 0 outside comment and string. */
  function Analyze(s: string, st: Scan): seq<Line>
    decreases |s|
  {
    if s == [] then []
    else
      var l := FirstLine(s);
      [Line(l, After(l, st) == Start)] + Analyze(s[|l|..], After(l, st))
  }

  function TextOf(lines: seq<Line>): string {
    if lines == [] then [] else lines[0].text + TextOf(lines[1..])
  }

  // ---- The scanner as written ----

  /** Mid-line: `current` is the part of the line already read, `st` the state there. */
  function AnalyzeRest(current: string, s: string, st: Scan): seq<Line> {
    if current + s == [] then []
    else
      var l := FirstLine(s);
      [Line(current + l, After(l, st) == Start)] + Analyze(s[|l|..], After(l, st))
  }

  /** A token without a newline stays within the line. */
  lemma FirstLineAfterToken(s: string, st: Scan)
    requires s != [] && s[0] != '\n'
    ensures var n := TokenLength(s, st); FirstLine(s) == s[..n] + FirstLine(s[n..])
  {
    hide After, Analyze, AnalyzeRest, AfterToken, FirstLine;
    FirstLineCons(s);
    if TokenLength(s, st) == 2 {
      FirstLineCons(s[1..]);
      TwoTaken(s, FirstLine(s[2..]));
    } else {
      assert s[..1] == [s[0]];
    }
  }

  lemma FirstLineCons(s: string)
    requires s != ""
    ensures FirstLine(s) == if s[0] == '\n' then [s[0]] else [s[0]] + FirstLine(s[1..])
  {
  }

  lemma TwoTaken(s: string, rest: string)
    requires |s| >= 2
    ensures s[1..][0] == s[1] && s[1..][1..] == s[2..]
    ensures [s[0]] + ([s[1]] + rest) == s[..2] + rest
  {
  }

  /** The end of the line hides nothing the scanner looks ahead for. */
  lemma LineLookahead(s: string, st: Scan)
    requires s != []
    ensures FirstLine(s) != []
    ensures TokenLength(FirstLine(s), st) == TokenLength(s, st)
    ensures AfterToken(FirstLine(s), st) == AfterToken(s, st)
  {
    hide After, Analyze, AnalyzeRest;
    var l := FirstLine(s);
    assert l[0] == s[0];
    if s[0] != '\n' && |s| >= 2 {
      assert l == [s[0]] + FirstLine(s[1..]) && FirstLine(s[1..])[0] == s[1];
    }
  }

  /** Reading one token without a newline continues the line. */
  lemma TokenContinues(current: string, s: string, st: Scan)
    requires s != [] && s[0] != '\n'
    ensures var n := TokenLength(s, st);
      AnalyzeRest(current, s, st) == AnalyzeRest(current + s[..n], s[n..], AfterToken(s, st))
  {
    hide After, Analyze, AnalyzeRest, FirstLine, AfterToken;
    var n, l := TokenLength(s, st), FirstLine(s[TokenLength(s, st)..]);
    FirstLineAfterToken(s, st);
    LineAfterToken(s, st);
    RestReads(current, s, st);
    RestReads(current + s[..n], s[n..], AfterToken(s, st));
    Reassociated(current, s, n, l);
  }

  /** Mid-line, the line ends where the first line of the rest does. */
  lemma RestReads(current: string, s: string, st: Scan)
    requires |current| + |s| > 0
    ensures var l := FirstLine(s);
      AnalyzeRest(current, s, st) == [Line(current + l, After(l, st) == Start)] + Analyze(s[|l|..], After(l, st))
  {
    hide After, Analyze, FirstLine;
    assert current + s != [];
  }

  lemma Reassociated(current: string, s: string, n: nat, l: string)
    requires n <= |s| && |l| <= |s| - n
    ensures current + s[..n] + l == current + (s[..n] + l)
    ensures s[n..][|l|..] == s[|s[..n] + l|..]
  {
  }

  lemma LineAfterToken(s: string, st: Scan)
    requires s != [] && s[0] != '\n'
    ensures var n := TokenLength(s, st); After(FirstLine(s), st) == After(FirstLine(s[n..]), AfterToken(s, st))
  {
    FirstLineAfterToken(s, st);
    LineLookahead(s, st);
    hide FirstLine, Analyze;
    var n, l := TokenLength(s, st), FirstLine(s);
    assert After(l, st) == After(l[n..], AfterToken(l, st));
    hide After, TokenLength, AfterToken;
    assert l[n..] == FirstLine(s[n..]);
  }

  /** A newline ends the line. */
  lemma NewlineEnds(current: string, s: string, st: Scan)
    requires s != [] && s[0] == '\n'
    ensures AnalyzeRest(current, s, st)
         == [Line(current + ['\n'], AfterToken(s, st) == Start)] + AnalyzeRest("", s[1..], AfterToken(s, st))
  {
    assert FirstLine(s) == ['\n'];
    assert After(['\n'], st) == After([], AfterToken(['\n'], st)) == AfterToken(s, st);
    var rest := s[1..];
    assert "" + rest == rest && forall l: string :: "" + l == l;
  }

  lemma RestStarts(s: string, st: Scan)
    ensures AnalyzeRest("", s, st) == Analyze(s, st)
  {
    assert "" + s == s && "" + FirstLine(s) == FirstLine(s);
  }

  lemma RestEnds(current: string, st: Scan)
    ensures AnalyzeRest(current, "", st) == if current == "" then [] else [Line(current, st == Start)]
  {
    assert current + "" == current && After("", st) == st;
  }

  function StateOf(depth: nat, inComment: bool, inString: string, escaped: bool): Scan
    requires inString != "" ==> inString[0] == '"' || inString[0] == '\''
  {
    Scan(depth, if inComment then InComment
                else if inString == "" then Outside
                else if escaped then Escaped(inString[0])
                else InString(inString[0]))
  }

  /** The scanner; `inString` is empty where the source has `None`. */
  method AnalyzeCss(content: string) returns (lines: seq<Line>)
    ensures lines == Analyze(content, Start)
  {
    hide After, FirstLine, Analyze, AnalyzeRest;
    var depth, inComment, escaped: bool := 0, false, false;
    var inString := "";
    var current := "";
    lines := [];
    var i, n := 0, |content|;
    assert content[0..] == content;
    RestStarts(content, Start);
    while i < n
      invariant i <= n && depth >= 0
      invariant |inString| <= 1 && (inString != "" ==> inString[0] == '"' || inString[0] == '\'')
      invariant (inComment ==> inString == "") && (escaped ==> inString != "")
      invariant lines + AnalyzeRest(current, content[i..], StateOf(depth, inComment, inString, escaped)) == Analyze(content, Start)
    {
      var c := content[i];
      ghost var s, st := content[i..], StateOf(depth, inComment, inString, escaped);
      assert s[0] == c && s[1..] == content[i + 1..] && s[..1] == [c];
      if i + 1 < n {
        assert s[1] == content[i + 1] && s[2..] == content[i + 2..] && s[..2] == [c, content[i + 1]];
      }
      if c == '\n' {
        NewlineEnds(current, s, st);
        assert lines + AnalyzeRest(current, s, st)
            == lines + [Line(current + [c], AfterToken(s, st) == Start)] + AnalyzeRest("", s[1..], AfterToken(s, st));
      } else {
        TokenContinues(current, s, st);
      }
      if escaped {
        escaped := false;
        current := current + [c];
        if c == '\n' {
          lines, current := lines + [Line(current, false)], "";
        }
        i := i + 1;
        continue;
      }
      if inComment {
        if c == '*' && i + 1 < n && content[i + 1] == '/' {
          inComment := false;
          current := current + "*/";
          i := i + 2;
        } else {
          current := current + [c];
          if c == '\n' {
            lines, current := lines + [Line(current, false)], "";
          }
          i := i + 1;
        }
        continue;
      }
      if inString != "" {
        if c == '\\' {
          escaped := true;
          current := current + [c];
        } else if c == inString[0] {
          current := current + [c];
          inString := "";
        } else {
          current := current + [c];
          if c == '\n' {
            lines, current := lines + [Line(current, false)], "";
          }
        }
        i := i + 1;
        continue;
      }
      if c == '/' && i + 1 < n && content[i + 1] == '*' {
        inComment := true;
        current := current + "/*";
        i := i + 2;
      } else if c == '"' || c == '\'' {
        inString := [c];
        current := current + [c];
        i := i + 1;
      } else if c == '{' {
        depth := depth + 1;
        current := current + [c];
        i := i + 1;
      } else if c == '}' {
        depth := if depth - 1 > 0 then depth - 1 else 0;
        current := current + [c];
        i := i + 1;
      } else {
        current := current + [c];
        if c == '\n' {
          var isSafe := depth == 0 && !inComment && inString == "";
          lines, current := lines + [Line(current, isSafe)], "";
        }
        i := i + 1;
      }
    }
    assert content[n..] == "";
    RestEnds(current, StateOf(depth, inComment, inString, escaped));
    if current != "" {
      var isSafe := depth == 0 && !inComment && inString == "";
      lines := lines + [Line(current, isSafe)];
    }
  }

  // ---- What the scanner promises ----

  ghost predicate IsLine(l: string) {
    l != "" && '\n' !in l[..|l| - 1]
  }

  predicate Ended(s: string) {
    s == "" || s[|s| - 1] == '\n'
  }

  /** The pieces between newlines, each with its newline; only the last may lack it. */
  ghost predicate IsNewlineSplit(lines: seq<Line>) {
    forall k | 0 <= k < |lines| :: IsLine(lines[k].text) && (k + 1 < |lines| ==> Ended(lines[k].text))
  }

  lemma {:induction false} FirstLineShape(s: string)
    requires s != ""
    ensures IsLine(FirstLine(s))
    ensures Ended(FirstLine(s)) || FirstLine(s) == s
  {
    if s[0] != '\n' && |s| > 1 {
      FirstLineShape(s[1..]);
      var m := FirstLine(s[1..]);
      assert FirstLine(s) == [s[0]] + m;
      assert ([s[0]] + m)[..|m|] == [s[0]] + m[..|m| - 1];
    }
  }

  lemma {:induction false} FirstLineOf(l: string, rest: string)
    requires IsLine(l) && (Ended(l) || rest == "")
    ensures FirstLine(l + rest) == l
  {
    if |l| > 1 {
      assert l[0] == l[..|l| - 1][0] && l[0] != '\n';
      assert l[1..][..|l| - 2] == l[..|l| - 1][1..];
      FirstLineOf(l[1..], rest);
      assert (l + rest)[1..] == l[1..] + rest;
    } else if rest == "" {
      assert l + rest == l && l[1..] == "";
    }
  }

  /** Reading a line, then the rest. */
  lemma LineThenRest(l: string, rest: string, st: Scan)
    requires IsLine(l) && (Ended(l) || rest == "")
    ensures Analyze(l + rest, st) == [Line(l, After(l, st) == Start)] + Analyze(rest, After(l, st))
  {
    FirstLineOf(l, rest);
    hide After, FirstLine, IsLine;
    assert (l + rest)[|l|..] == rest;
  }

  lemma FirstLineThenRest(s: string, st: Scan) returns (l: string, rest: string)
    requires s != ""
    ensures s == l + rest && IsLine(l) && (Ended(l) || rest == "")
    ensures Analyze(s, st) == [Line(l, After(l, st) == Start)] + Analyze(rest, After(l, st))
  {
    l, rest := FirstLine(s), s[|FirstLine(s)|..];
    FirstLineShape(s);
  }

  /** Nothing is lost, and the lines are exactly the newline split. */
  lemma {:induction false} Lossless(s: string, st: Scan)
    ensures TextOf(Analyze(s, st)) == s
    ensures IsNewlineSplit(Analyze(s, st))
    decreases |s|
  {
    if s != "" {
      var l := FirstLine(s);
      FirstLineShape(s);
      Lossless(s[|l|..], After(l, st));
      if |l| == |s| {
        assert s[|l|..] == "";
      }
    }
  }

  /** After a newline the scanner holds nothing back, so scanning resumes where it stopped. */
  lemma {:induction false} AfterConcat(a: string, b: string, st: Scan)
    requires Ended(a)
    ensures After(a + b, st) == After(b, After(a, st))
    decreases |a|
  {
    if a == "" {
      assert a + b == b;
    } else {
      var n := TokenLength(a, st);
      TokenConcat(a, b, st);
      AfterConcat(a[n..], b, AfterToken(a, st));
      assert After(a, st) == After(a[n..], AfterToken(a, st));
      assert After(a + b, st) == After((a + b)[n..], AfterToken(a, st));
    }
  }

  /** A token is the same whatever follows the newline that ends the text. */
  lemma TokenConcat(a: string, b: string, st: Scan)
    requires a != "" && Ended(a)
    ensures TokenLength(a + b, st) == TokenLength(a, st) && AfterToken(a + b, st) == AfterToken(a, st)
    ensures var n := TokenLength(a, st); (a + b)[n..] == a[n..] + b && Ended(a[n..])
  {
    hide After, FirstLine, Analyze;
    assert |a| == 1 ==> a[0] == '\n';
  }

  /**
   Cutting the lines anywhere cuts the text: the front alone scans to the front
   lines, and the rest scans to the other lines from the state in between.
   */
  lemma {:induction false} CutAnywhere(s: string, st: Scan, n: nat) returns (a: string, b: string)
    requires n <= |Analyze(s, st)|
    ensures s == a + b
    ensures a == TextOf(Analyze(s, st)[..n])
    ensures Analyze(a, st) == Analyze(s, st)[..n]
    ensures Analyze(b, After(a, st)) == Analyze(s, st)[n..]
    ensures n < |Analyze(s, st)| ==> Ended(a) && b != ""
    ensures n == |Analyze(s, st)| ==> b == ""
    decreases |s|
  {
    hide After, Analyze, IsLine, FirstLine;
    var lines := Analyze(s, st);
    if n == 0 {
      NothingRead(s, st);
      a, b := "", s;
      assert lines[..0] == [] && lines[0..] == lines;
    } else {
      NothingRead("", st);
      var l, rest := FirstLineThenRest(s, st);
      a, b := CutAnywhere(rest, After(l, st), n - 1);
      JoinLine(l, a, st);
      assert lines[..n] == [lines[0]] + Analyze(rest, After(l, st))[..n - 1];
      assert Ended(l) && Ended(a) ==> Ended(l + a);
      a := l + a;
    }
  }

  lemma NothingRead(s: string, st: Scan)
    ensures After("", st) == st
    ensures s == "" <==> Analyze(s, st) == []
    ensures TextOf([]) == "" && Analyze("", st) == []
  {
  }

  lemma JoinLine(l: string, a: string, st: Scan)
    requires IsLine(l) && (Ended(l) || a == "")
    ensures Analyze(l + a, st) == [Line(l, After(l, st) == Start)] + Analyze(a, After(l, st))
    ensures After(l + a, st) == After(a, After(l, st))
  {
    LineThenRest(l, a, st);
    if Ended(l) {
      AfterConcat(l, a, st);
    } else {
      assert l + a == l && After(a, After(l, st)) == After(l, st);
    }
  }

  /** A line is safe exactly when the scanner, run on everything up to its end, is back in its initial state. */
  lemma {:induction false} SafeMeaning(s: string, st: Scan, k: nat)
    requires k < |Analyze(s, st)|
    ensures var lines := Analyze(s, st);
      lines[k].safe <==> After(TextOf(lines[..k + 1]), st) == Start
    decreases |s|
  {
    var lines, l := Analyze(s, st), FirstLine(s);
    assert lines[..k + 1][1..] == lines[1..][..k];
    if k == 0 {
      assert TextOf(lines[..1]) == l + "" == l;
    } else {
      FirstLineShape(s);
      assert s[|l|..] != "";
      SafeMeaning(s[|l|..], After(l, st), k - 1);
      AfterConcat(l, TextOf(lines[1..][..k]), st);
    }
  }

  /** A final newline changes no flag. */
  lemma {:induction false} NewlineKeepsSafety(l: string, st: Scan)
    ensures After(l + "\n", st) == Start <==> After(l, st) == Start
    decreases |l|
  {
    if l == "" {
      assert l + "\n" == "\n" && "\n"[1..] == "";
      assert After("\n", st) == After("", AfterToken("\n", st)) == AfterToken("\n", st);
      assert After(l, st) == st;
    } else {
      StepBeforeNewline(l, st);
      NewlineKeepsSafety(l[TokenLength(l, st)..], AfterToken(l, st));
    }
  }

  /** A newline after the text does not change how its first token is read. */
  lemma StepBeforeNewline(l: string, st: Scan)
    requires l != ""
    ensures After(l, st) == After(l[TokenLength(l, st)..], AfterToken(l, st))
    ensures After(l + "\n", st) == After(l[TokenLength(l, st)..] + "\n", AfterToken(l, st))
  {
    var n := TokenLength(l, st);
    assert TokenLength(l + "\n", st) == n && AfterToken(l + "\n", st) == AfterToken(l, st);
    assert (l + "\n")[n..] == l[n..] + "\n";
  }

  function Terminated(s: string): string {
    if Ended(s) then s else s + "\n"
  }

  /** Adding the missing final newline changes the last line's text and nothing else. */
  lemma {:induction false} TerminatedLines(s: string, st: Scan)
    ensures var lines, more := Analyze(s, st), Analyze(Terminated(s), st);
      && |more| == |lines|
      && (forall k | 0 <= k < |lines| :: more[k].safe == lines[k].safe)
      && (forall k | 0 <= k < |lines| :: more[k].text == if k + 1 < |lines| then lines[k].text else Terminated(lines[k].text))
    decreases |s|
  {
    hide After, Analyze, IsLine, FirstLine;
    if s == "" {
      NothingRead(s, st);
    } else {
      var l, rest := FirstLineThenRest(s, st);
      if rest == "" {
        assert s == l;
        TerminatedLine(l, st);
      } else {
        LineThenRest(l, Terminated(rest), st);
        TerminatedLines(rest, After(l, st));
        assert Terminated(s) == l + Terminated(rest);
        NothingRead(rest, After(l, st));
      }
    }
  }

  lemma TerminatedLine(l: string, st: Scan)
    requires IsLine(l)
    ensures Analyze(l, st) == [Line(l, After(l, st) == Start)]
    ensures Analyze(Terminated(l), st) == [Line(Terminated(l), After(l, st) == Start)]
  {
    NewlineKeepsSafety(l, st);
    LineThenRest(l, "", st);
    LineThenRest(Terminated(l), "", st);
    hide After, IsLine;
    assert l + "" == l && Terminated(l) + "" == Terminated(l);
  }
}
