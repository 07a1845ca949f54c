/**
 What a safe line means for a stylesheet, said without the scanner: the text up
 to it is a run of whole comments (section 4.3.2 of CSS Syntax Module Level 3),
 whole quoted strings, braces and other characters, with every block closed.
 */
module CssTokens {
  import opened CssScanner

  datatype Item = Raw(c: char) | Escape(c: char)

  datatype Token = Comment(body: string) | Text(quote: Quote, items: seq<Item>) | Open | Close | Plain(c: char)

  function PrintItems(items: seq<Item>): string {
    if items == [] then "" else (if items[0].Raw? then [items[0].c] else ['\\', items[0].c]) + PrintItems(items[1..])
  }

  function PrintToken(t: Token): string {
    match t
    case Comment(body) => "/*" + body + "*/"
    case Text(q, items) => [q] + PrintItems(items) + [q]
    case Open => "{"
    case Close => "}"
    case Plain(c) => [c]
  }

  function Print(ts: seq<Token>): string {
    if ts == [] then "" else PrintToken(ts[0]) + Print(ts[1..])
  }

  predicate NoClose(body: string) {
    forall i | 0 <= i < |body| - 1 :: !(body[i] == '*' && body[i + 1] == '/')
  }

  predicate GoodItems(items: seq<Item>, q: char) {
    forall i | 0 <= i < |items| :: items[i].Raw? ==> items[i].c != q && items[i].c != '\\'
  }

  predicate GoodToken(t: Token) {
    match t
    case Comment(body) => NoClose(body)
    case Text(q, items) => GoodItems(items, q)
    case Plain(c) => c !in "\"'{}"
    case _ => true
  }

  /** Every token is good, and no stray slash forms a comment opener with a stray star. */
  predicate WellFormed(ts: seq<Token>) {
    && (forall i | 0 <= i < |ts| :: GoodToken(ts[i]))
    && (forall i | 0 <= i < |ts| - 1 :: !(ts[i] == Plain('/') && ts[i + 1] == Plain('*')))
  }

  /** Open blocks after the tokens; a stray closing brace is ignored. */
  function Depth(ts: seq<Token>, d: nat): nat {
    if ts == [] then d
    else Depth(ts[1..], match ts[0] case Open => d + 1 case Close => if d == 0 then 0 else d - 1 case _ => d)
  }

  // ---- Scanning printed tokens ----

  lemma {:induction false} ScanComment(body: string, rest: string, d: nat)
    requires NoClose(body)
    ensures After(body + "*/" + rest, Scan(d, InComment)) == After(rest, Scan(d, Outside))
  {
    var s, st := body + "*/" + rest, Scan(d, InComment);
    if body == "" {
      assert s[2..] == rest;
    } else {
      assert s[1] == if |body| > 1 then body[1] else '*';
      assert s[1..] == body[1..] + "*/" + rest;
      assert NoClose(body[1..]);
      ScanComment(body[1..], rest, d);
    }
  }

  lemma StepRaw(c: char, tail: string, q: Quote, d: nat)
    requires c != q && c != '\\'
    ensures After([c] + tail, Scan(d, InString(q))) == After(tail, Scan(d, InString(q)))
  {
    assert ([c] + tail)[1..] == tail;
  }

  lemma StepEscape(c: char, tail: string, q: Quote, d: nat)
    ensures After(['\\', c] + tail, Scan(d, InString(q))) == After(tail, Scan(d, InString(q)))
  {
    var m := [c] + tail;
    assert (['\\', c] + tail)[1..] == m && m[1..] == tail;
    assert After(m, Scan(d, Escaped(q))) == After(tail, Scan(d, InString(q)));
  }

  lemma StepQuote(tail: string, q: Quote, d: nat)
    ensures After([q] + tail, Scan(d, InString(q))) == After(tail, Scan(d, Outside))
    ensures After([q] + tail, Scan(d, Outside)) == After(tail, Scan(d, InString(q)))
  {
    assert ([q] + tail)[1..] == tail;
  }

  lemma {:induction false} ScanText(items: seq<Item>, q: Quote, rest: string, d: nat)
    requires GoodItems(items, q)
    ensures After(PrintItems(items) + [q] + rest, Scan(d, InString(q))) == After(rest, Scan(d, Outside))
    decreases |items|
  {
    hide After;
    var s := PrintItems(items) + [q] + rest;
    if items == [] {
      assert s == [q] + rest;
      StepQuote(rest, q, d);
    } else {
      var tail := PrintItems(items[1..]) + [q] + rest;
      ScanText(items[1..], q, rest, d);
      var c := items[0].c;
      if items[0].Raw? {
        assert s == [c] + tail;
        StepRaw(c, tail, q, d);
      } else {
        assert s == ['\\', c] + tail;
        StepEscape(c, tail, q, d);
      }
    }
  }

  lemma FirstPrinted(ts: seq<Token>)
    requires WellFormed(ts) && ts != []
    ensures Print(ts) != ""
    ensures Print(ts)[0] == '*' ==> ts[0] == Plain('*')
  {
  }

  lemma ScanPlain(c: char, rest: string, d: nat)
    requires c !in "\"'"
    requires c == '/' && rest != "" ==> rest[0] != '*'
    ensures After([c] + rest, Scan(d, Outside))
         == After(rest, Scan(if c == '{' then d + 1 else if c == '}' && d > 0 then d - 1 else d, Outside))
  {
    var s := [c] + rest;
    assert s[1..] == rest && !Starts(s, '/', '*');
  }

  lemma OpenComment(rest: string, d: nat)
    ensures After("/*" + rest, Scan(d, Outside)) == After(rest, Scan(d, InComment))
  {
    assert ("/*" + rest)[2..] == rest;
  }

  lemma ScanToken(t: Token, rest: string, d: nat)
    requires GoodToken(t)
    requires t == Plain('/') && rest != "" ==> rest[0] != '*'
    ensures After(PrintToken(t) + rest, Scan(d, Outside)) == After(rest, Scan(Depth([t], d), Outside))
  {
    hide After, NoClose, GoodItems, PrintItems;
    assert [t][1..] == [];
    match t
    case Comment(body) =>
      CommentText(body, rest);
      OpenComment(body + "*/" + rest, d);
      ScanComment(body, rest, d);
    case Text(q, items) =>
      QuotedText(q, PrintItems(items), rest);
      StepQuote(PrintItems(items) + [q] + rest, q, d);
      ScanText(items, q, rest, d);
    case Open => ScanPlain('{', rest, d);
    case Close => ScanPlain('}', rest, d);
    case Plain(c) => ScanPlain(c, rest, d);
  }

  lemma CommentText(body: string, rest: string)
    ensures "/*" + body + "*/" + rest == "/*" + (body + "*/" + rest)
  {
  }

  lemma QuotedText(q: char, text: string, rest: string)
    ensures [q] + text + [q] + rest == [q] + (text + [q] + rest)
  {
  }

  /** Whole tokens leave the scanner outside, at the depth the braces give. */
  lemma {:induction false} ScanTokens(ts: seq<Token>, d: nat)
    requires WellFormed(ts)
    ensures After(Print(ts), Scan(d, Outside)) == Scan(Depth(ts, d), Outside)
    decreases |ts|
  {
    hide After;
    if ts == [] {
      NothingRead("", Scan(d, Outside));
    } else {
      if |ts| > 1 {
        FirstPrinted(ts[1..]);
      }
      ScanToken(ts[0], Print(ts[1..]), d);
      ScanTokens(ts[1..], Depth([ts[0]], d));
    }
  }

  // ---- Finding the tokens again ----

  lemma {:induction false} FindComment(s: string, d: nat) returns (body: string, rest: string)
    requires After(s, Scan(d, InComment)).mode == Outside
    ensures s == body + "*/" + rest && NoClose(body)
    ensures After(rest, Scan(d, Outside)) == After(s, Scan(d, InComment))
    decreases |s|
  {
    StepComment(s, d);
    hide After;
    if Starts(s, '*', '/') {
      body, rest := "", s[2..];
      assert s == "*/" + rest;
    } else {
      var tail;
      tail, rest := FindComment(s[1..], d);
      body := [s[0]] + tail;
      CommentCons(s, tail, rest);
    }
  }

  lemma StepComment(s: string, d: nat)
    requires After(s, Scan(d, InComment)).mode == Outside
    ensures s != ""
    ensures After(s, Scan(d, InComment)) ==
      if Starts(s, '*', '/') then After(s[2..], Scan(d, Outside)) else After(s[1..], Scan(d, InComment))
  {
  }

  lemma CommentCons(s: string, tail: string, rest: string)
    requires s != "" && !Starts(s, '*', '/') && s[1..] == tail + "*/" + rest && NoClose(tail)
    ensures s == [s[0]] + tail + "*/" + rest && NoClose([s[0]] + tail)
  {
    assert s == [s[0]] + (tail + "*/" + rest);
    assert |tail| > 0 ==> s[1] == tail[0];
    assert forall i | 0 < i < |tail| :: ([s[0]] + tail)[i] == tail[i - 1];
  }

  lemma {:induction false} FindText(s: string, q: Quote, d: nat) returns (items: seq<Item>, rest: string)
    requires After(s, Scan(d, InString(q))).mode == Outside
    ensures s == PrintItems(items) + [q] + rest && GoodItems(items, q)
    ensures After(rest, Scan(d, Outside)) == After(s, Scan(d, InString(q)))
    decreases |s|
  {
    hide After, PrintItems, GoodItems;
    OpenText(s, q, d);
    var tail;
    if s[0] == '\\' {
      assert s == ['\\', s[1]] + s[2..];
      StepEscape(s[1], s[2..], q, d);
      tail, rest := FindText(s[2..], q, d);
      items := [Escape(s[1])] + tail;
      ItemsCons(Escape(s[1]), tail, q);
    } else if s[0] == q {
      items, rest := [], s[1..];
      NoItems(q);
      assert s == [q] + rest;
      StepQuote(rest, q, d);
    } else {
      assert s == [s[0]] + s[1..];
      StepRaw(s[0], s[1..], q, d);
      tail, rest := FindText(s[1..], q, d);
      items := [Raw(s[0])] + tail;
      ItemsCons(Raw(s[0]), tail, q);
    }
  }

  lemma OpenText(s: string, q: Quote, d: nat)
    requires After(s, Scan(d, InString(q))).mode == Outside
    ensures s != "" && (s[0] == '\\' ==> |s| >= 2)
  {
    if s == "" || s == "\\" {
      UnclosedText(s, q, d);
    }
  }

  lemma NoItems(q: Quote)
    ensures PrintItems([]) == "" && GoodItems([], q)
  {
  }

  lemma ItemsCons(item: Item, items: seq<Item>, q: Quote)
    ensures PrintItems([item] + items) == (if item.Raw? then [item.c] else ['\\', item.c]) + PrintItems(items)
    ensures GoodItems(items, q) && (item.Raw? ==> item.c != q && item.c != '\\') ==> GoodItems([item] + items, q)
  {
    assert ([item] + items)[1..] == items;
  }

  lemma UnclosedText(s: string, q: Quote, d: nat)
    requires s == "" || s == "\\"
    ensures After(s, Scan(d, InString(q))).mode != Outside
  {
    if s != "" {
      assert After(s[1..], Scan(d, Escaped(q))) == Scan(d, Escaped(q));
    }
  }

  lemma FindToken(s: string, d: nat) returns (t: Token, rest: string)
    requires s != "" && After(s, Scan(d, Outside)).mode == Outside
    ensures s == PrintToken(t) + rest && GoodToken(t)
    ensures t == Plain('/') && rest != "" ==> rest[0] != '*'
    ensures After(rest, Scan(Depth([t], d), Outside)) == After(s, Scan(d, Outside))
    ensures |rest| < |s|
  {
    hide After, PrintItems, GoodItems, NoClose;
    if Starts(s, '/', '*') {
      assert s == "/*" + s[2..];
      OpenComment(s[2..], d);
      var body;
      body, rest := FindComment(s[2..], d);
      t := Comment(body);
      CommentText(body, rest);
      OneDeep(t, d);
    } else if s[0] == '"' || s[0] == '\'' {
      assert s == [s[0]] + s[1..];
      StepQuote(s[1..], s[0], d);
      var items;
      items, rest := FindText(s[1..], s[0], d);
      t := Text(s[0], items);
      QuotedText(s[0], PrintItems(items), rest);
      OneDeep(t, d);
    } else {
      t, rest := FindPlain(s, d);
    }
  }

  lemma OneDeep(t: Token, d: nat)
    ensures Depth([t], d) == if t == Open then d + 1 else if t == Close && d > 0 then d - 1 else d
  {
    assert [t][1..] == [];
  }

  lemma FindPlain(s: string, d: nat) returns (t: Token, rest: string)
    requires s != "" && !Starts(s, '/', '*') && s[0] != '"' && s[0] != '\''
    ensures s == PrintToken(t) + rest && GoodToken(t) && |rest| < |s|
    ensures t == Plain('/') && rest != "" ==> rest[0] != '*'
    ensures After(rest, Scan(Depth([t], d), Outside)) == After(s, Scan(d, Outside))
  {
    hide After;
    rest := s[1..];
    assert s == [s[0]] + rest;
    ScanPlain(s[0], rest, d);
    t := if s[0] == '{' then Open else if s[0] == '}' then Close else Plain(s[0]);
    OneDeep(t, d);
  }

  lemma {:induction false} FindTokens(s: string, d: nat) returns (ts: seq<Token>)
    requires After(s, Scan(d, Outside)).mode == Outside
    ensures WellFormed(ts) && Print(ts) == s
    decreases |s|
  {
    hide After;
    if s == "" {
      ts := [];
    } else {
      var t, rest := FindToken(s, d);
      var tail := FindTokens(rest, Depth([t], d));
      ts := [t] + tail;
      if tail != [] {
        FirstPrinted(tail);
        assert tail[0] == Plain('*') ==> Print(tail)[0] == '*';
      }
    }
  }

  ghost predicate Closed(s: string) {
    exists ts :: WellFormed(ts) && Print(ts) == s && Depth(ts, 0) == 0
  }

  /** The scanner is back in its initial state exactly after text made of whole tokens with all blocks closed. */
  lemma StartMeansClosed(s: string)
    ensures After(s, Start) == Start <==> Closed(s)
  {
    hide After, Print, WellFormed, Depth;
    if After(s, Start) == Start {
      var ts := FindTokens(s, 0);
      ScanTokens(ts, 0);
    }
    if Closed(s) {
      var ts :| WellFormed(ts) && Print(ts) == s && Depth(ts, 0) == 0;
      ScanTokens(ts, 0);
    }
  }

  /** A line of a stylesheet is flagged safe exactly when everything up to its end is closed. */
  lemma SafeMeansClosed(content: string, k: nat)
    requires k < |Analyze(content, Start)|
    ensures var lines := Analyze(content, Start);
      lines[k].safe <==> Closed(TextOf(lines[..k + 1]))
  {
    SafeMeaning(content, Start, k);
    StartMeansClosed(TextOf(Analyze(content, Start)[..k + 1]));
  }
}
