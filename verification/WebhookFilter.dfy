/**
 The webhook filter language of `webhook-validation.ts`: `||` over `&&` over
 single comparisons, split at delimiters outside `{{ }}`. The truth of a single
 comparison under a payload is the parameter `atom`.
 */
module WebhookFilter {

  const OR := " || "
  const AND := " && "

  /** `Diverges`: the recursion repeats its own argument and ends in a stack overflow. */
  datatype Verdict = Valid | Invalid | Diverges

  predicate IsSpace(c: char) {
    || '\t' <= c <= '\r' || c == ' ' || c == '\U{00A0}' || c == '\U{1680}' || '\U{2000}' <= c <= '\U{200A}'
    || c in ['\U{2028}', '\U{2029}', '\U{202F}', '\U{205F}', '\U{3000}', '\U{FEFF}']
  }

  function TrimStart(s: string): (r: string)
    ensures |r| <= |s|
  {
    if s != [] && IsSpace(s[0]) then TrimStart(s[1..]) else s
  }

  function TrimEnd(s: string): (r: string)
    ensures |r| <= |s|
  {
    if s != [] && IsSpace(s[|s| - 1]) then TrimEnd(s[..|s| - 1]) else s
  }

  function Trim(s: string): (r: string)
    ensures |r| <= |s|
  {
    TrimEnd(TrimStart(s))
  }

  predicate Trimmed(s: string) {
    s != [] && !IsSpace(s[0]) && !IsSpace(s[|s| - 1])
  }

  predicate Includes(s: string, sub: string) {
    exists i :: 0 <= i <= |s| && sub <= s[i..]
  }

  predicate Pair(s: string, c: char) {
    |s| >= 2 && s[0] == c && s[1] == c
  }

  // ---- Splitting at the top level ----

  /** The parts still to come after `current`, reading `s` at brace depth `depth`. */
  function SplitFrom(s: string, delim: string, depth: int, current: string): seq<string>
    requires delim != []
    decreases |s|
  {
    if s == [] then if current == [] then [] else [current]
    else if Pair(s, '{') then SplitFrom(s[2..], delim, depth + 1, current + "{{")
    else if Pair(s, '}') then SplitFrom(s[2..], delim, depth - 1, current + "}}")
    else if depth == 0 && delim <= s then [current] + SplitFrom(s[|delim|..], delim, 0, "")
    else SplitFrom(s[1..], delim, depth, current + [s[0]])
  }

  function Split(s: string, delim: string): seq<string>
    requires delim != []
  {
    SplitFrom(s, delim, 0, "")
  }

  method SplitTopLevel(str: string, delimiter: string) returns (parts: seq<string>)
    requires delimiter != []
    ensures parts == Split(str, delimiter)
  {
    parts := [];
    var depth, current, i := 0, "", 0;
    while i < |str|
      invariant i <= |str|
      invariant parts + SplitFrom(str[i..], delimiter, depth, current) == Split(str, delimiter)
    {
      ghost var rest := str[i..];
      if str[i] == '{' && i + 1 < |str| && str[i + 1] == '{' {
        assert rest[2..] == str[i + 2..];
        depth := depth + 1;
        current := current + "{{";
        i := i + 2;
      } else if str[i] == '}' && i + 1 < |str| && str[i + 1] == '}' {
        assert rest[2..] == str[i + 2..];
        depth := depth - 1;
        current := current + "}}";
        i := i + 2;
      } else if depth == 0 && i + |delimiter| <= |str| && str[i..i + |delimiter|] == delimiter {
        assert rest[..|delimiter|] == delimiter;
        assert rest[|delimiter|..] == str[i + |delimiter|..];
        assert !Pair(rest, '{') && !Pair(rest, '}');
        parts := parts + [current];
        current := "";
        i := i + |delimiter|;
      } else {
        assert delimiter <= rest ==> rest[..|delimiter|] == str[i..i + |delimiter|];
        assert rest[1..] == str[i + 1..];
        current := current + [str[i]];
        i := i + 1;
      }
    }
    if current != [] {
      parts := parts + [current];
    }
  }

  function Join(parts: seq<string>, delim: string): string {
    if parts == [] then "" else if |parts| == 1 then parts[0] else parts[0] + delim + Join(parts[1..], delim)
  }

  /** A split either returns its input whole or only strictly shorter parts. */
  lemma {:induction false} SplitShrinks(s: string, delim: string, depth: int, current: string)
    requires delim != [] && current + s != []
    ensures var parts := SplitFrom(s, delim, depth, current);
      parts == [current + s] || forall p :: p in parts ==> |p| < |current + s|
    decreases |s|
  {
    if s == [] {
      assert current + s == current;
    } else if Pair(s, '{') {
      assert current + "{{" + s[2..] == current + s;
      SplitShrinks(s[2..], delim, depth + 1, current + "{{");
    } else if Pair(s, '}') {
      assert current + "}}" + s[2..] == current + s;
      SplitShrinks(s[2..], delim, depth - 1, current + "}}");
    } else if depth == 0 && delim <= s {
      if s[|delim|..] != [] {
        SplitShrinks(s[|delim|..], delim, 0, "");
      }
    } else {
      assert current + [s[0]] + s[1..] == current + s;
      SplitShrinks(s[1..], delim, depth, current + [s[0]]);
    }
  }

  lemma SplitCases(t: string, delim: string)
    requires delim != [] && t != ""
    ensures Split(t, delim) == [t] || forall p :: p in Split(t, delim) ==> |p| < |t|
  {
    assert "" + t == t;
    SplitShrinks(t, delim, 0, "");
  }

  /** Where the first delimiter outside braces starts in `s`, read at brace depth `depth`. */
  function TopAt(s: string, delim: string, depth: int): (at: int)
    requires delim != []
    ensures -1 <= at <= |s|
    ensures at >= 0 ==> delim <= s[at..]
    decreases |s|
  {
    if s == [] then -1
    else if Pair(s, '{') || Pair(s, '}') then
      var at := TopAt(s[2..], delim, if Pair(s, '{') then depth + 1 else depth - 1);
      if at < 0 then -1 else (assert s[2..][at..] == s[at + 2..]; at + 2)
    else if depth == 0 && delim <= s then (assert s[0..] == s; 0)
    else
      var at := TopAt(s[1..], delim, depth);
      if at < 0 then -1 else (assert s[1..][at..] == s[at + 1..]; at + 1)
  }

  predicate AtTop(s: string, delim: string)
    requires delim != []
  {
    TopAt(s, delim, 0) >= 0
  }

  /** `current` and `s` cut at a delimiter at `at` in `s`, or left whole when `at` is negative. */
  function CutAt(current: string, s: string, delim: string, at: int): seq<string>
    requires delim != [] && at <= |s| && (at >= 0 ==> delim <= s[at..])
  {
    if at < 0 then (if current + s == [] then [] else [current + s])
    else
      assert |delim| <= |s[at..]|;
      [current + s[..at]] + Split(s[at + |delim|..], delim)
  }

  lemma CutLater(current: string, s: string, n: nat, delim: string, at: int)
    requires delim != [] && n <= |s| && at <= |s[n..]| && (at >= 0 ==> delim <= s[n..][at..])
    ensures at >= 0 ==> s[n..][at..] == s[at + n..]
    ensures CutAt(current + s[..n], s[n..], delim, at) == CutAt(current, s, delim, if at < 0 then -1 else at + n)
  {
    hide Split;
    assert current + s[..n] + s[n..] == current + s;
    if at >= 0 {
      assert current + s[..n] + s[n..][..at] == current + s[..at + n];
      assert s[n..][at..] == s[at + n..] && s[n..][at + |delim|..] == s[at + n + |delim|..];
    }
  }

  /** A split cuts at the first delimiter outside braces, and nowhere if there is none. */
  lemma {:induction false} SplitAtFirst(s: string, delim: string, depth: int, current: string)
    requires delim != []
    ensures SplitFrom(s, delim, depth, current) == CutAt(current, s, delim, TopAt(s, delim, depth))
    decreases |s|
  {
    if s == [] {
      assert current + s == current;
    } else if Pair(s, '{') || Pair(s, '}') {
      var d := if Pair(s, '{') then depth + 1 else depth - 1;
      assert s[..2] == (if Pair(s, '{') then "{{" else "}}");
      assert SplitFrom(s, delim, depth, current) == SplitFrom(s[2..], delim, d, current + s[..2]);
      SplitAtFirst(s[2..], delim, d, current + s[..2]);
      CutLater(current, s, 2, delim, TopAt(s[2..], delim, d));
    } else if depth == 0 && delim <= s {
      assert s[..0] == "" && s[0..] == s && current + "" == current;
    } else {
      assert s[..1] == [s[0]];
      SplitAtFirst(s[1..], delim, depth, current + s[..1]);
      CutLater(current, s, 1, delim, TopAt(s[1..], delim, depth));
    }
  }

  /** A text splits into itself exactly when no delimiter lies outside braces. */
  lemma UnsplitExact(s: string, delim: string)
    requires delim != [] && s != []
    ensures Split(s, delim) == [s] <==> !AtTop(s, delim)
  {
    SplitAtFirst(s, delim, 0, "");
    hide SplitFrom, TopAt;
    assert "" + s == s;
    var at := TopAt(s, delim, 0);
    if at >= 0 {
      assert |delim| <= |s[at..]|;
      assert Split(s, delim)[0] == s[..at] != s;
    }
  }

  /** Joining the parts restores any text that does not end like the delimiter. */
  lemma {:induction false} JoinSplit(s: string, delim: string, depth: int, current: string)
    requires delim != [] && (s != [] ==> s[|s| - 1] != delim[|delim| - 1])
    ensures Join(SplitFrom(s, delim, depth, current), delim) == current + s
    ensures current + s != [] ==> SplitFrom(s, delim, depth, current) != []
    decreases |s|
  {
    hide *;
    SplitAtFirst(s, delim, depth, current);
    var at := TopAt(s, delim, depth);
    if at < 0 {
      JoinWhole(current, s, delim, at);
    } else {
      AroundDelimiter(s, at, delim);
      var rest := s[at + |delim|..];
      JoinSplit(rest, delim, 0, "");
      NothingBefore(rest, delim);
      JoinHead(current, s, at, delim);
    }
  }

  lemma JoinWhole(current: string, s: string, delim: string, at: int)
    requires delim != [] && at < 0
    ensures Join(CutAt(current, s, delim, at), delim) == current + s
    ensures current + s != [] ==> CutAt(current, s, delim, at) != []
  {
  }

  lemma NothingBefore(s: string, delim: string)
    requires delim != []
    ensures "" + s == s && Split(s, delim) == SplitFrom(s, delim, 0, "")
  {
  }

  lemma JoinHead(current: string, s: string, at: nat, delim: string)
    requires delim != [] && at <= |s| && delim <= s[at..]
    requires at + |delim| < |s| && s == s[..at] + delim + s[at + |delim|..]
    requires var rest := s[at + |delim|..]; Split(rest, delim) != [] && Join(Split(rest, delim), delim) == rest
    ensures Join(CutAt(current, s, delim, at), delim) == current + s
    ensures CutAt(current, s, delim, at) != []
  {
    hide Split, Join;
    var head, rest := current + s[..at], s[at + |delim|..];
    JoinCons(head, Split(rest, delim), delim);
    Regroup(current, s[..at], delim, rest);
  }

  lemma JoinCons(head: string, parts: seq<string>, delim: string)
    requires parts != []
    ensures Join([head] + parts, delim) == head + delim + Join(parts, delim)
  {
    assert ([head] + parts)[1..] == parts;
  }

  lemma Regroup(a: string, b: string, c: string, d: string)
    ensures a + b + c + d == a + (b + c + d)
  {
  }

  lemma AroundDelimiter(s: string, at: nat, delim: string)
    requires delim != [] && at <= |s| && delim <= s[at..] && (s != [] ==> s[|s| - 1] != delim[|delim| - 1])
    ensures at + |delim| < |s| && s == s[..at] + delim + s[at + |delim|..]
  {
    var tail := s[at..];
    assert |delim| <= |tail| && tail[..|delim|] == delim;
    assert s[at + |delim| - 1] == tail[|delim| - 1] == delim[|delim| - 1];
    assert at + |delim| < |s|;
    assert tail == delim + s[at + |delim|..];
  }

  lemma SplitRestores(s: string, delim: string)
    requires Trimmed(s) && delim in {OR, AND}
    ensures Join(Split(s, delim), delim) == s
  {
    JoinSplit(s, delim, 0, "");
  }

  // ---- Evaluation ----

  function Evaluate(filter: string, atom: string -> bool): Verdict
    decreases |filter|, 1, 0
  {
    var t := Trim(filter);
    if t == "" then Valid
    else if Includes(t, OR) then
      (SplitCases(t, OR);
       var parts := Split(t, OR);
       if parts == [t] then Diverges else EvaluateAny(parts, |t|, atom))
    else if Includes(t, AND) then
      (SplitCases(t, AND);
       var parts := Split(t, AND);
       if parts == [t] then Diverges else EvaluateAll(parts, |t|, atom))
    else if atom(t) then Valid else Invalid
  }

  /** Left to right, stopping at the first valid part. */
  function EvaluateAny(parts: seq<string>, bound: nat, atom: string -> bool): Verdict
    requires forall p :: p in parts ==> |p| < bound
    decreases bound, 0, |parts|
  {
    if parts == [] then Invalid
    else
      assert parts[0] in parts;
      var v := Evaluate(Trim(parts[0]), atom);
      if v.Invalid? then EvaluateAny(parts[1..], bound, atom) else v
  }

  /** Left to right, stopping at the first part that is not valid. */
  function EvaluateAll(parts: seq<string>, bound: nat, atom: string -> bool): Verdict
    requires forall p :: p in parts ==> |p| < bound
    decreases bound, 0, |parts|
  {
    if parts == [] then Valid
    else
      assert parts[0] in parts;
      var v := Evaluate(Trim(parts[0]), atom);
      if v.Valid? then EvaluateAll(parts[1..], bound, atom) else v
  }

  /** The recursion as written, cut off after `fuel` nested calls; running out reads as `Diverges`. */
  function Recurse(fuel: nat, filter: string, atom: string -> bool): Verdict
    decreases fuel, 1, 0
  {
    var t := Trim(filter);
    if fuel == 0 then Diverges
    else if t == "" then Valid
    else if Includes(t, OR) then RecurseAny(fuel - 1, Split(t, OR), atom)
    else if Includes(t, AND) then RecurseAll(fuel - 1, Split(t, AND), atom)
    else if atom(t) then Valid else Invalid
  }

  function RecurseAny(fuel: nat, parts: seq<string>, atom: string -> bool): Verdict
    decreases fuel, 2, |parts|
  {
    if parts == [] then Invalid
    else
      var v := Recurse(fuel, Trim(parts[0]), atom);
      if v.Invalid? then RecurseAny(fuel, parts[1..], atom) else v
  }

  function RecurseAll(fuel: nat, parts: seq<string>, atom: string -> bool): Verdict
    decreases fuel, 2, |parts|
  {
    if parts == [] then Valid
    else
      var v := Recurse(fuel, Trim(parts[0]), atom);
      if v.Valid? then RecurseAll(fuel, parts[1..], atom) else v
  }

  /**
   Termination: with more fuel than characters the recursion as written gives
   `Evaluate`; with less it gives `Evaluate` or runs out. So it never returns
   exactly when `Evaluate` says `Diverges`.
   */
  lemma {:induction false} RecursionMeetsEvaluate(fuel: nat, filter: string, atom: string -> bool)
    ensures Recurse(fuel, filter, atom) == Evaluate(filter, atom) || Recurse(fuel, filter, atom) == Diverges
    ensures fuel > |filter| ==> Recurse(fuel, filter, atom) == Evaluate(filter, atom)
    decreases fuel, 1, 0
  {
    hide Split, Includes, Trim;
    var t := Trim(filter);
    TrimFixpoint(filter);
    if fuel > 0 && t != "" && (Includes(t, OR) || Includes(t, AND)) {
      var delim := if Includes(t, OR) then OR else AND;
      var parts := Split(t, delim);
      SplitCases(t, delim);
      if parts == [t] {
        NoProgress(fuel, t, atom);
      } else {
        AnyMeets(fuel - 1, parts, |t|, atom);
        AllMeets(fuel - 1, parts, |t|, atom);
      }
    }
  }

  lemma {:induction false} AnyMeets(fuel: nat, parts: seq<string>, bound: nat, atom: string -> bool)
    requires forall p :: p in parts ==> |p| < bound
    ensures RecurseAny(fuel, parts, atom) == EvaluateAny(parts, bound, atom) || RecurseAny(fuel, parts, atom) == Diverges
    ensures fuel >= bound ==> RecurseAny(fuel, parts, atom) == EvaluateAny(parts, bound, atom)
    decreases fuel, 2, |parts|
  {
    if parts != [] {
      assert parts[0] in parts;
      RecursionMeetsEvaluate(fuel, Trim(parts[0]), atom);
      AnyMeets(fuel, parts[1..], bound, atom);
    }
  }

  lemma {:induction false} AllMeets(fuel: nat, parts: seq<string>, bound: nat, atom: string -> bool)
    requires forall p :: p in parts ==> |p| < bound
    ensures RecurseAll(fuel, parts, atom) == EvaluateAll(parts, bound, atom) || RecurseAll(fuel, parts, atom) == Diverges
    ensures fuel >= bound ==> RecurseAll(fuel, parts, atom) == EvaluateAll(parts, bound, atom)
    decreases fuel, 2, |parts|
  {
    if parts != [] {
      assert parts[0] in parts;
      RecursionMeetsEvaluate(fuel, Trim(parts[0]), atom);
      AllMeets(fuel, parts[1..], bound, atom);
    }
  }

  lemma {:induction false} TrimFixpoint(s: string)
    ensures Trim(Trim(s)) == Trim(s)
    ensures Trim(s) != "" ==> Trimmed(Trim(s))
  {
    TrimStartProps(s);
    TrimEndProps(TrimStart(s));
  }

  lemma {:induction false} TrimStartProps(s: string)
    ensures TrimStart(s) == "" || !IsSpace(TrimStart(s)[0])
  {
    if s != [] && IsSpace(s[0]) {
      TrimStartProps(s[1..]);
    }
  }

  lemma {:induction false} TrimEndProps(s: string)
    ensures TrimEnd(s) <= s
    ensures TrimEnd(s) == "" || !IsSpace(TrimEnd(s)[|TrimEnd(s)| - 1])
  {
    if s != [] && IsSpace(s[|s| - 1]) {
      TrimEndProps(s[..|s| - 1]);
    }
  }

  /** An unsplittable filter that holds a delimiter uses up any fuel. */
  lemma {:induction false} NoProgress(fuel: nat, t: string, atom: string -> bool)
    requires Trim(t) == t && t != ""
    requires (Includes(t, OR) && Split(t, OR) == [t]) || (!Includes(t, OR) && Includes(t, AND) && Split(t, AND) == [t])
    ensures Recurse(fuel, t, atom) == Diverges
  {
    if fuel > 0 {
      NoProgress(fuel - 1, t, atom);
    }
  }

  // ---- Termination ----

  /** Read at brace depth `depth`, every delimiter in `s` starts outside braces. */
  predicate DelimitersOutsideBraces(s: string, depth: int)
    decreases |s|
  {
    if s == [] then true
    else if Pair(s, '{') then DelimitersOutsideBraces(s[2..], depth + 1)
    else if Pair(s, '}') then DelimitersOutsideBraces(s[2..], depth - 1)
    else (OR <= s || AND <= s ==> depth == 0) && DelimitersOutsideBraces(s[1..], depth)
  }

  lemma {:induction false} OutsidePrefix(a: string, b: string, depth: int)
    requires DelimitersOutsideBraces(a + b, depth)
    ensures DelimitersOutsideBraces(a, depth)
    decreases |a|
  {
    var s := a + b;
    if |a| > 1 {
      assert Pair(s, '{') <==> Pair(a, '{');
      assert Pair(s, '}') <==> Pair(a, '}');
      assert s[1..] == a[1..] + b && s[2..] == a[2..] + b;
      if Pair(a, '{') {
        OutsidePrefix(a[2..], b, depth + 1);
      } else if Pair(a, '}') {
        OutsidePrefix(a[2..], b, depth - 1);
      } else {
        OutsidePrefix(a[1..], b, depth);
        assert OR <= a ==> OR <= s;
        assert AND <= a ==> AND <= s;
      }
    }
  }

  lemma {:induction false} OutsideTrim(s: string)
    requires DelimitersOutsideBraces(s, 0)
    ensures DelimitersOutsideBraces(Trim(s), 0)
    decreases |s|
  {
    if s != [] && IsSpace(s[0]) {
      assert !Pair(s, '{') && !Pair(s, '}');
      OutsideTrim(s[1..]);
    } else {
      TrimEndProps(s);
      assert s == TrimEnd(s) + s[|TrimEnd(s)|..];
      OutsidePrefix(TrimEnd(s), s[|TrimEnd(s)|..], 0);
    }
  }

  lemma OutsideAfterDelimiter(delim: string, s: string)
    requires (delim == OR || delim == AND) && delim <= s && DelimitersOutsideBraces(s, 0)
    ensures DelimitersOutsideBraces(s[4..], 0)
  {
    assert s[0] == delim[0] && s[1] == delim[1] && s[2] == delim[2] && s[3] == delim[3];
    assert s[1..][1..] == s[2..] && s[2..][1..] == s[3..] && s[3..][1..] == s[4..];
    assert DelimitersOutsideBraces(s[1..], 0);
    assert DelimitersOutsideBraces(s[2..], 0);
    assert DelimitersOutsideBraces(s[3..], 0);
  }

  /** From the first cut on, the text still holds its delimiters outside braces. */
  lemma {:induction false} OutsideFromTop(s: string, delim: string, depth: int)
    requires delim != [] && DelimitersOutsideBraces(s, depth) && TopAt(s, delim, depth) >= 0
    ensures DelimitersOutsideBraces(s[TopAt(s, delim, depth)..], 0)
    decreases |s|
  {
    if Pair(s, '{') || Pair(s, '}') {
      var d := if Pair(s, '{') then depth + 1 else depth - 1;
      OutsideFromTop(s[2..], delim, d);
      SliceFrom(s, 2, TopAt(s[2..], delim, d));
    } else if depth == 0 && delim <= s {
      assert s[0..] == s;
    } else {
      OutsideFromTop(s[1..], delim, depth);
      SliceFrom(s, 1, TopAt(s[1..], delim, depth));
    }
  }

  lemma SliceFrom(s: string, i: nat, j: nat)
    requires i + j <= |s|
    ensures s[i..][j..] == s[i + j..]
  {
  }

  lemma SliceWithin(s: string, i: nat, n: nat)
    requires i + n <= |s|
    ensures s[i..][..n] == s[i..i + n]
  {
  }

  lemma {:induction false} OutsideParts(s: string, delim: string)
    requires (delim == OR || delim == AND) && DelimitersOutsideBraces(s, 0)
    ensures forall p :: p in Split(s, delim) ==> DelimitersOutsideBraces(p, 0)
    decreases |s|
  {
    hide Split, TopAt, SplitFrom, DelimitersOutsideBraces;
    FirstPart(s, delim);
    var at := TopAt(s, delim, 0);
    if at >= 0 {
      assert s[..at] + s[at..] == s;
      OutsidePrefix(s[..at], s[at..], 0);
      OutsideFromTop(s, delim, 0);
      OutsideAfterDelimiter(delim, s[at..]);
      SliceFrom(s, at, 4);
      OutsideParts(s[at + 4..], delim);
    }
  }

  /** A delimiter outside braces, at `i`, is found. */
  lemma {:induction false} OutsideIncludesTop(s: string, i: nat, delim: string, depth: int)
    requires (delim == OR || delim == AND) && DelimitersOutsideBraces(s, depth) && i <= |s| && delim <= s[i..]
    ensures TopAt(s, delim, depth) >= 0
    decreases |s|
  {
    assert s[i] == s[i..][0] == ' ';
    if Pair(s, '{') || Pair(s, '}') {
      SliceFrom(s, 2, i - 2);
      OutsideIncludesTop(s[2..], i - 2, delim, if Pair(s, '{') then depth + 1 else depth - 1);
    } else if i > 0 && !(depth == 0 && delim <= s) {
      SliceFrom(s, 1, i - 1);
      OutsideIncludesTop(s[1..], i - 1, delim, depth);
    } else if i == 0 {
      assert s[0..] == s;
    }
  }

  /** A filter whose delimiters all lie outside braces is evaluated to an answer. */
  lemma {:induction false} Terminates(filter: string, atom: string -> bool)
    requires DelimitersOutsideBraces(filter, 0)
    ensures Evaluate(filter, atom) != Diverges
    decreases |filter|, 1, 0
  {
    var t := Trim(filter);
    OutsideTrim(filter);
    hide Trim, Split, TopAt, DelimitersOutsideBraces;
    if t != "" && (Includes(t, OR) || Includes(t, AND)) {
      var delim := if Includes(t, OR) then OR else AND;
      var i :| 0 <= i <= |t| && delim <= t[i..];
      OutsideIncludesTop(t, i, delim, 0);
      OutsideParts(t, delim);
      UnsplitExact(t, delim);
      SplitCases(t, delim);
      PartsTerminate(Split(t, delim), |t|, atom);
    }
  }

  lemma {:induction false} PartsTerminate(parts: seq<string>, bound: nat, atom: string -> bool)
    requires forall p :: p in parts ==> |p| < bound && DelimitersOutsideBraces(p, 0)
    ensures EvaluateAny(parts, bound, atom) != Diverges && EvaluateAll(parts, bound, atom) != Diverges
    decreases bound, 0, |parts|
  {
    if parts != [] {
      assert parts[0] in parts;
      OutsideTrim(parts[0]);
      Terminates(Trim(parts[0]), atom);
      PartsTerminate(parts[1..], bound, atom);
    }
  }

  // ---- Every filter, exactly ----

  /** Cut before a delimiter, or before a space, nothing new lies outside braces. */
  lemma {:induction false} PrefixNotTop(a: string, b: string, delim: string, depth: int)
    requires delim != [] && (b == "" || (b[0] != '{' && b[0] != '}'))
    requires TopAt(a + b, delim, depth) < 0 || TopAt(a + b, delim, depth) >= |a|
    ensures TopAt(a, delim, depth) < 0
    decreases |a|
  {
    var s := a + b;
    if a != [] {
      assert Pair(s, '{') <==> Pair(a, '{');
      assert Pair(s, '}') <==> Pair(a, '}');
      if Pair(a, '{') || Pair(a, '}') {
        assert s[2..] == a[2..] + b;
        PrefixNotTop(a[2..], b, delim, if Pair(a, '{') then depth + 1 else depth - 1);
      } else {
        assert delim <= a ==> delim <= s;
        assert s[1..] == a[1..] + b;
        PrefixNotTop(a[1..], b, delim, depth);
      }
    }
  }

  lemma {:induction false} TrimNotTop(s: string, delim: string)
    requires delim != [] && !AtTop(s, delim)
    ensures !AtTop(Trim(s), delim)
    decreases |s|
  {
    if s != [] && IsSpace(s[0]) {
      assert !Pair(s, '{') && !Pair(s, '}');
      TrimNotTop(s[1..], delim);
    } else {
      TrimEndProps(s);
      TrimEndCut(s);
      var e := TrimEnd(s);
      assert s == e + s[|e|..];
      PrefixNotTop(e, s[|e|..], delim, 0);
    }
  }

  lemma {:induction false} TrimEndCut(s: string)
    ensures TrimEnd(s) <= s
    ensures |TrimEnd(s)| < |s| ==> IsSpace(s[|TrimEnd(s)|])
  {
    if s != [] && IsSpace(s[|s| - 1]) {
      TrimEndCut(s[..|s| - 1]);
    }
  }

  lemma IncludesWithin(s: string, i: nat, j: nat, sub: string)
    requires i <= j <= |s| && Includes(s[i..j], sub)
    ensures Includes(s, sub)
  {
    var k :| 0 <= k <= j - i && sub <= s[i..j][k..];
    assert s[i..j][k..] == s[i + k..j] && s[i + k..j] <= s[i + k..];
    assert sub <= s[i + k..];
  }

  lemma {:induction false} TrimStartCut(s: string) returns (i: nat)
    ensures i <= |s| && TrimStart(s) == s[i..]
  {
    if s != [] && IsSpace(s[0]) {
      var k := TrimStartCut(s[1..]);
      i := k + 1;
    } else {
      i := 0;
    }
  }

  lemma TrimIncludes(s: string, sub: string)
    requires Includes(Trim(s), sub)
    ensures Includes(s, sub)
  {
    var i := TrimStartCut(s);
    TrimEndCut(s[i..]);
    var e := Trim(s);
    assert e == s[i..][..|e|];
    SliceWithin(s, i, |e|);
    IncludesWithin(s, i, i + |e|, sub);
  }

  /** Each part, trimmed, has no delimiter outside braces, and includes nothing the text does not. */
  lemma {:induction false} PartsNotTop(s: string, delim: string, sub: string)
    requires delim == OR || delim == AND
    ensures forall p :: p in Split(s, delim) ==>
      !AtTop(Trim(p), delim) && Trim(Trim(p)) == Trim(p) && (Includes(Trim(p), sub) ==> Includes(s, sub))
    decreases |s|
  {
    hide Trim, AtTop, Includes, SplitFrom, TopAt, Split, CutAt;
    var at := TopAt(s, delim, 0);
    FirstPart(s, delim);
    if at < 0 {
      assert s + "" == s;
      PartNotTop(s, s, "", delim, sub);
    } else {
      var head, tail, rest := s[..at], s[at..], s[at + 4..];
      assert s == head + tail;
      PartNotTop(s, head, tail, delim, sub);
      PartsNotTop(rest, delim, sub);
      if Includes(rest, sub) {
        assert rest == s[at + 4..|s|];
        IncludesWithin(s, at + 4, |s|, sub);
      }
    }
  }

  lemma FirstPart(s: string, delim: string)
    requires delim == OR || delim == AND
    ensures var at := TopAt(s, delim, 0);
      if at < 0 then Split(s, delim) == if s == "" then [] else [s]
      else at + 4 <= |s| && s[at] == ' ' && Split(s, delim) == [s[..at]] + Split(s[at + 4..], delim)
  {
    SplitAtFirst(s, delim, 0, "");
    assert Split(s, delim) == CutAt("", s, delim, TopAt(s, delim, 0));
    hide SplitFrom, TopAt, Split;
    var at := TopAt(s, delim, 0);
    assert "" + s == s;
    if at >= 0 {
      assert |delim| <= |s[at..]| && s[at] == s[at..][0] == delim[0];
      assert "" + s[..at] == s[..at];
    }
  }

  lemma PartNotTop(s: string, head: string, tail: string, delim: string, sub: string)
    requires delim != [] && s == head + tail && (tail == "" || tail[0] == ' ')
    requires TopAt(s, delim, 0) < 0 || TopAt(s, delim, 0) >= |head|
    ensures !AtTop(Trim(head), delim) && Trim(Trim(head)) == Trim(head)
    ensures Includes(Trim(head), sub) ==> Includes(s, sub)
  {
    PrefixNotTop(head, tail, delim, 0);
    TrimNotTop(head, delim);
    TrimFixpoint(head);
    if Includes(Trim(head), sub) {
      TrimIncludes(head, sub);
      assert head == s[0..|head|];
      IncludesWithin(s, 0, |head|, sub);
    }
  }

  // ---- The two levels of a filter ----

  function TrimAll(parts: seq<string>): seq<string> {
    if parts == [] then [] else [Trim(parts[0])] + TrimAll(parts[1..])
  }

  /** The disjuncts of a trimmed filter. */
  function Disjuncts(t: string): seq<string> {
    if AtTop(t, OR) then TrimAll(Split(t, OR)) else [t]
  }

  /** The conjuncts of a disjunct; one that still holds an OR is not taken apart. */
  function Conjuncts(p: string): seq<string> {
    if !Includes(p, OR) && AtTop(p, AND) then TrimAll(Split(p, AND)) else [p]
  }

  /** A piece that can neither be split nor be compared. */
  predicate Stuck(q: string) {
    Includes(q, OR) || Includes(q, AND)
  }

  predicate Holds(q: string, atom: string -> bool) {
    q == "" || (!Stuck(q) && atom(q))
  }

  predicate Fails(q: string, atom: string -> bool) {
    q != "" && !Stuck(q) && !atom(q)
  }

  /** The first conjunct that does not hold, or the number of conjuncts. */
  function FirstBad(qs: seq<string>, atom: string -> bool): (k: nat)
    ensures k <= |qs|
    ensures forall j | 0 <= j < k :: Holds(qs[j], atom)
    ensures k < |qs| ==> !Holds(qs[k], atom)
  {
    if qs == [] || !Holds(qs[0], atom) then 0 else 1 + FirstBad(qs[1..], atom)
  }

  function ConjunctionOf(qs: seq<string>, atom: string -> bool): Verdict {
    var k := FirstBad(qs, atom);
    if k == |qs| then Valid else if Stuck(qs[k]) then Diverges else Invalid
  }

  lemma EvaluatePiece(q: string, atom: string -> bool)
    requires Trim(q) == q && !AtTop(q, OR) && (Includes(q, OR) || !AtTop(q, AND))
    ensures Evaluate(q, atom) == ConjunctionOf([q], atom)
  {
    hide Trim, AtTop, Split, Includes;
    if q != "" {
      UnsplitExact(q, OR);
      UnsplitExact(q, AND);
    }
    assert [q][1..] == [];
    EmptyHasNone(OR);
    EmptyHasNone(AND);
  }

  lemma EmptyHasNone(delim: string)
    requires delim != []
    ensures !Includes("", delim)
  {
  }

  lemma {:induction false} EvaluatePieces(parts: seq<string>, bound: nat, atom: string -> bool)
    requires forall p :: p in parts ==> |p| < bound
    requires forall p :: p in parts ==> Trim(Trim(p)) == Trim(p) && !Includes(Trim(p), OR) && !AtTop(Trim(p), AND)
    ensures EvaluateAll(parts, bound, atom) == ConjunctionOf(TrimAll(parts), atom)
    decreases |parts|
  {
    hide Trim, AtTop, Includes;
    if parts != [] {
      var q, rest := Trim(parts[0]), TrimAll(parts[1..]);
      assert parts[0] in parts;
      NotIncludedNotTop(q, OR);
      EvaluatePiece(q, atom);
      EvaluatePieces(parts[1..], bound, atom);
      ConjunctionCons(q, rest, atom);
    }
  }

  lemma NotIncludedNotTop(s: string, delim: string)
    requires delim != [] && !Includes(s, delim)
    ensures !AtTop(s, delim)
  {
    if AtTop(s, delim) {
      TopIncludes(s, delim);
    }
  }

  lemma ConjunctionCons(q: string, rest: seq<string>, atom: string -> bool)
    ensures ConjunctionOf([q] + rest, atom)
         == if ConjunctionOf([q], atom) == Valid then ConjunctionOf(rest, atom) else ConjunctionOf([q], atom)
  {
    hide Includes;
    assert ([q] + rest)[1..] == rest && [q][1..] == [];
    assert FirstBad([q], atom) == if Holds(q, atom) then 1 else 0;
    assert FirstBad([q] + rest, atom) == if Holds(q, atom) then 1 + FirstBad(rest, atom) else 0;
  }

  lemma EvaluateDisjunct(p: string, atom: string -> bool)
    requires Trim(p) == p && !AtTop(p, OR)
    ensures Evaluate(p, atom) == ConjunctionOf(Conjuncts(p), atom)
  {
    hide Trim, AtTop, Includes, Split, FirstBad, ConjunctionOf;
    if !Includes(p, OR) && AtTop(p, AND) {
      TopIncludes(p, AND);
      EmptyHasNone(AND);
      UnsplitExact(p, AND);
      SplitCases(p, AND);
      PartsNotTop(p, AND, OR);
      EvaluatePieces(Split(p, AND), |p|, atom);
    } else {
      EvaluatePiece(p, atom);
    }
  }

  lemma TopIncludes(s: string, delim: string)
    requires delim != [] && AtTop(s, delim)
    ensures Includes(s, delim)
  {
    hide TopAt;
    assert delim <= s[TopAt(s, delim, 0)..];
  }

  /** The first disjunct that is not invalid, or the number of disjuncts. */
  function FirstOpen(ps: seq<string>, atom: string -> bool): (i: nat)
    ensures i <= |ps|
  {
    if ps == [] || ConjunctionOf(Conjuncts(ps[0]), atom) != Invalid then 0 else 1 + FirstOpen(ps[1..], atom)
  }

  lemma {:induction false} FirstOpenMeans(ps: seq<string>, atom: string -> bool)
    ensures var i := FirstOpen(ps, atom);
      && (forall j | 0 <= j < i :: ConjunctionOf(Conjuncts(ps[j]), atom) == Invalid)
      && (i < |ps| ==> ConjunctionOf(Conjuncts(ps[i]), atom) != Invalid)
  {
    hide ConjunctionOf, Conjuncts;
    if ps != [] && ConjunctionOf(Conjuncts(ps[0]), atom) == Invalid {
      FirstOpenMeans(ps[1..], atom);
      assert forall j | 0 < j < |ps| :: ps[j] == ps[1..][j - 1];
    }
  }

  function DisjunctionOf(ps: seq<string>, atom: string -> bool): Verdict {
    var i := FirstOpen(ps, atom);
    if i == |ps| then Invalid else ConjunctionOf(Conjuncts(ps[i]), atom)
  }

  lemma {:induction false} EvaluateDisjuncts(parts: seq<string>, bound: nat, atom: string -> bool)
    requires forall p :: p in parts ==> |p| < bound
    requires forall p :: p in parts ==> Trim(Trim(p)) == Trim(p) && !AtTop(Trim(p), OR)
    ensures EvaluateAny(parts, bound, atom) == DisjunctionOf(TrimAll(parts), atom)
    decreases |parts|
  {
    hide Trim, AtTop, Conjuncts, ConjunctionOf, DisjunctionOf, Evaluate;
    if parts != [] {
      var p, rest := Trim(parts[0]), TrimAll(parts[1..]);
      assert parts[0] in parts;
      EvaluateDisjunct(p, atom);
      EvaluateDisjuncts(parts[1..], bound, atom);
      DisjunctionCons(p, rest, atom);
    } else {
      NoDisjuncts(atom);
    }
  }

  lemma DisjunctionCons(p: string, rest: seq<string>, atom: string -> bool)
    ensures DisjunctionOf([p] + rest, atom)
         == var v := ConjunctionOf(Conjuncts(p), atom); if v == Invalid then DisjunctionOf(rest, atom) else v
  {
    hide Conjuncts, ConjunctionOf;
    assert ([p] + rest)[1..] == rest;
    if ConjunctionOf(Conjuncts(p), atom) == Invalid && FirstOpen(rest, atom) < |rest| {
      assert ([p] + rest)[1 + FirstOpen(rest, atom)] == rest[FirstOpen(rest, atom)];
    }
  }

  lemma NoDisjuncts(atom: string -> bool)
    ensures DisjunctionOf([], atom) == Invalid
  {
  }

  /**
   Every filter, whatever its braces: the recursion never goes deeper than two
   splits unless it goes on for ever, and its outcome is that of the first
   disjunct that is not invalid.
   */
  lemma EvaluateIsTwoLevels(filter: string, atom: string -> bool)
    ensures Evaluate(filter, atom) == DisjunctionOf(Disjuncts(Trim(filter)), atom)
  {
    hide Trim, AtTop, Includes, Split, Conjuncts, ConjunctionOf;
    var t := Trim(filter);
    TrimFixpoint(filter);
    assert Evaluate(filter, atom) == Evaluate(t, atom);
    if AtTop(t, OR) {
      TopIncludes(t, OR);
      EmptyHasNone(OR);
      UnsplitExact(t, OR);
      SplitCases(t, OR);
      PartsNotTop(t, OR, OR);
      EvaluateDisjuncts(Split(t, OR), |t|, atom);
    } else {
      EvaluateDisjunct(t, atom);
      assert [t][1..] == [];
    }
  }

  /** In disjunct `i` evaluation comes to conjunct `k`, having found all before it to hold. */
  predicate Reaches(ps: seq<string>, i: nat, k: nat, atom: string -> bool) {
    && i < |ps| && k < |Conjuncts(ps[i])|
    && (forall j | 0 <= j < k :: Holds(Conjuncts(ps[i])[j], atom))
    && (forall h | 0 <= h < i :: Refuted(Conjuncts(ps[h]), atom))
  }

  /** Some conjunct fails, after only conjuncts that hold. */
  predicate Refuted(qs: seq<string>, atom: string -> bool) {
    exists k :: 0 <= k < |qs| && Fails(qs[k], atom) && forall j | 0 <= j < k :: Holds(qs[j], atom)
  }

  lemma RefutedMeans(qs: seq<string>, atom: string -> bool)
    ensures Refuted(qs, atom) <==> ConjunctionOf(qs, atom) == Invalid
  {
    hide Includes;
    EmptyHasNone(OR);
    EmptyHasNone(AND);
    var b := FirstBad(qs, atom);
    if Refuted(qs, atom) {
      var k :| 0 <= k < |qs| && Fails(qs[k], atom) && forall j | 0 <= j < k :: Holds(qs[j], atom);
      assert !Holds(qs[k], atom);
      assert b == k;
    }
    if b < |qs| && !Stuck(qs[b]) {
      assert Fails(qs[b], atom);
    }
  }

  /**
   Exactly when a filter never returns: evaluation, left to right, comes to a
   piece that holds a delimiter only inside braces. Reading the filter and the
   comparisons to the left of that piece decides it.
   */
  lemma DivergesExactly(filter: string, atom: string -> bool)
    ensures var ps := Disjuncts(Trim(filter));
      Evaluate(filter, atom) == Diverges
      <==> exists i: nat, k: nat :: Reaches(ps, i, k, atom) && Stuck(Conjuncts(ps[i])[k])
  {
    var ps := Disjuncts(Trim(filter));
    EvaluateIsTwoLevels(filter, atom);
    hide Trim, Disjuncts, Conjuncts, Includes, Evaluate;
    forall h | 0 <= h < |ps| ensures Refuted(Conjuncts(ps[h]), atom) <==> ConjunctionOf(Conjuncts(ps[h]), atom) == Invalid {
      RefutedMeans(Conjuncts(ps[h]), atom);
    }
    hide Refuted;
    FirstOpenMeans(ps, atom);
    hide FirstOpen;
    var i := FirstOpen(ps, atom);
    if i < |ps| && ConjunctionOf(Conjuncts(ps[i]), atom) == Diverges {
      assert Reaches(ps, i, FirstBad(Conjuncts(ps[i]), atom), atom);
    }
    if m: nat, k: nat :| Reaches(ps, m, k, atom) && Stuck(Conjuncts(ps[m])[k]) {
      StuckDiverges(Conjuncts(ps[m]), k, atom);
      assert i == m;
    }
  }

  lemma StuckDiverges(qs: seq<string>, k: nat, atom: string -> bool)
    requires k < |qs| && Stuck(qs[k]) && forall j | 0 <= j < k :: Holds(qs[j], atom)
    ensures ConjunctionOf(qs, atom) == Diverges
  {
    EmptyHasNone(OR);
    EmptyHasNone(AND);
    hide Includes;
    assert !Holds(qs[k], atom);
    assert FirstBad(qs, atom) == k;
  }

  /** Without a delimiter outside braces: an answer exactly when there is no delimiter at all. */
  lemma UnsplitTerminatesExactly(filter: string, atom: string -> bool)
    requires !AtTop(Trim(filter), OR) && !AtTop(Trim(filter), AND)
    ensures Evaluate(filter, atom) != Diverges <==> !Includes(Trim(filter), OR) && !Includes(Trim(filter), AND)
  {
    hide Trim, AtTop, Includes;
    var t := Trim(filter);
    EvaluateIsTwoLevels(filter, atom);
    assert [t][1..] == [];
    EmptyHasNone(OR);
    EmptyHasNone(AND);
  }

  /** A filter whose every OR, or whose every AND when it has no OR, lies inside braces diverges whatever the payload. */
  lemma HiddenDelimiterDiverges(filter: string, atom: string -> bool)
    requires var t := Trim(filter);
      || (Includes(t, OR) && !AtTop(t, OR))
      || (!Includes(t, OR) && Includes(t, AND) && !AtTop(t, AND))
    ensures Evaluate(filter, atom) == Diverges
  {
    var t := Trim(filter);
    TrimFixpoint(filter);
    hide Trim, AtTop, Includes;
    EmptyHasNone(OR);
    EmptyHasNone(AND);
    UnsplitExact(t, OR);
    UnsplitExact(t, AND);
  }

  predicate Plain(s: string) {
    forall i | 0 <= i < |s| :: s[i] !in "{}|&"
  }

  /** A comparison on a field whose name holds a delimiter diverges, whatever stands around it and in the payload. */
  lemma BracedDelimiterDiverges(before: string, field: string, after: string, atom: string -> bool)
    requires Plain(before) && Plain(after) && '{' !in field && '}' !in field
    requires var f := before + "{{" + field + "}}" + after; Trim(f) == f && (Includes(f, OR) || Includes(f, AND))
    ensures Evaluate(before + "{{" + field + "}}" + after, atom) == Diverges
  {
    var f := before + "{{" + field + "}}" + after;
    BracedNotTop(before, field, after, OR);
    BracedNotTop(before, field, after, AND);
    HiddenDelimiterDiverges(f, atom);
  }

  lemma BracedNotTop(before: string, field: string, after: string, delim: string)
    requires Plain(before) && Plain(after) && '{' !in field && '}' !in field && delim in {OR, AND}
    ensures !AtTop(before + "{{" + field + "}}" + after, delim)
  {
    hide Plain;
    PlainEnd(after, delim);
    AfterInside(field, after, delim);
    var inner := "{{" + (field + ("}}" + after));
    hide TopAt;
    PlainNotTop(before, inner, delim);
    assert before + "{{" + field + "}}" + after == before + inner;
  }

  lemma PlainEnd(after: string, delim: string)
    requires Plain(after) && delim in {OR, AND}
    ensures TopAt(after, delim, 0) < 0
  {
    assert after + "" == after;
    PlainNotTop(after, "", delim);
  }

  lemma AfterInside(field: string, after: string, delim: string)
    requires '{' !in field && '}' !in field && delim in {OR, AND} && TopAt(after, delim, 0) < 0
    ensures TopAt("{{" + (field + ("}}" + after)), delim, 0) < 0
  {
    var tail := "}}" + after;
    assert tail[2..] == after;
    InsideNotTop(field, tail, delim);
    assert ("{{" + (field + tail))[2..] == field + tail;
  }

  lemma {:induction false} PlainNotTop(s: string, rest: string, delim: string)
    requires Plain(s) && delim in {OR, AND} && (rest == "" || Pair(rest, '{')) && TopAt(rest, delim, 0) < 0
    ensures TopAt(s + rest, delim, 0) < 0
  {
    if s == "" {
      assert s + rest == rest;
    } else {
      var all := s + rest;
      assert all[1..] == s[1..] + rest;
      assert all[0] == s[0] && (|s| > 1 ==> all[1] == s[1]) && (|s| == 1 && rest != "" ==> all[1] == '{');
      PlainNotTop(s[1..], rest, delim);
    }
  }

  lemma {:induction false} InsideNotTop(field: string, tail: string, delim: string)
    requires '{' !in field && '}' !in field && delim != [] && Pair(tail, '}') && TopAt(tail[2..], delim, 0) < 0
    ensures TopAt(field + tail, delim, 1) < 0
  {
    if field == "" {
      assert field + tail == tail;
    } else {
      var all := field + tail;
      assert all[0] == field[0] && all[1..] == field[1..] + tail;
      InsideNotTop(field[1..], tail, delim);
    }
  }

  // ---- Meaning of OR-of-ANDs ----

  /** The change of brace depth over `s`. */
  function Braces(s: string): int
    decreases |s|
  {
    if s == [] then 0
    else if Pair(s, '{') then Braces(s[2..]) + 1
    else if Pair(s, '}') then Braces(s[2..]) - 1
    else Braces(s[1..])
  }

  predicate Pairless(s: string, c: char) {
    forall i :: 0 <= i < |s| - 1 ==> !(s[i] == c && s[i + 1] == c)
  }

  /** A single comparison that can be written in a filter: trimmed, braces balanced, no `||` or `&&`. */
  predicate IsAtom(a: string) {
    Trimmed(a) && Braces(a) == 0 && Pairless(a, '|') && Pairless(a, '&')
  }

  /** Text without the delimiter's start inside is read through unsplit. */
  lemma {:induction false} ScanAtom(a: string, rest: string, delim: string, depth: int, current: string)
    requires delim != [] && (rest == "" || rest[0] == ' ')
    requires forall i :: 0 <= i < |a| ==> !(delim <= (a + rest)[i..])
    ensures SplitFrom(a + rest, delim, depth, current) == SplitFrom(rest, delim, depth + Braces(a), current + a)
    decreases |a|
  {
    var s := a + rest;
    if a == [] {
      assert s == rest && current + a == current;
    } else {
      assert s[0..] == s;
      assert Pair(s, '{') <==> Pair(a, '{');
      assert Pair(s, '}') <==> Pair(a, '}');
      var n := if Pair(a, '{') || Pair(a, '}') then 2 else 1;
      assert s[n..] == a[n..] + rest;
      forall i | 0 <= i < |a[n..]| ensures !(delim <= (a[n..] + rest)[i..]) {
        assert (a[n..] + rest)[i..] == s[n + i..];
      }
      assert current + a[..n] + a[n..] == current + a;
      var d := if Pair(a, '{') then 1 else if Pair(a, '}') then -1 else 0;
      assert a[..n] == if d == 1 then "{{" else if d == -1 then "}}" else [a[0]];
      ScanAtom(a[n..], rest, delim, depth + d, current + a[..n]);
    }
  }

  lemma DelimiterAt(s: string, i: nat, c: char)
    requires i <= |s|
    ensures [' ', c, c, ' '] <= s[i..] ==> i + 3 < |s| && s[i + 1] == c && s[i + 2] == c
  {
    var delim := [' ', c, c, ' '];
    if delim <= s[i..] {
      assert s[i..][1] == delim[1] && s[i..][2] == delim[2];
    }
  }

  /** With one of the two delimiters after it, text without that pair is read through. */
  lemma NoDelimiterInside(a: string, rest: string, c: char)
    requires c in {'|', '&'} && Pairless(a, c) && (rest == "" || rest[0] == ' ')
    ensures forall i :: 0 <= i < |a| ==> !([' ', c, c, ' '] <= (a + rest)[i..])
  {
    var s, delim := a + rest, [' ', c, c, ' '];
    forall i | 0 <= i < |a| ensures !(delim <= s[i..]) {
      DelimiterAt(s, i, c);
    }
  }

  /** Text that can stand as a part: not empty, braces balanced, free of the delimiter's pair. */
  predicate IsPart(p: string, c: char) {
    p != [] && Braces(p) == 0 && Pairless(p, c)
  }

  /** Splitting undoes joining. */
  lemma {:induction false} SplitJoin(parts: seq<string>, c: char)
    requires c in {'|', '&'} && forall p :: p in parts ==> IsPart(p, c)
    ensures Split(Join(parts, [' ', c, c, ' ']), [' ', c, c, ' ']) == parts
  {
    var delim := [' ', c, c, ' '];
    if |parts| == 1 {
      assert parts[0] in parts;
      SplitOne(parts[0], c);
    } else if |parts| > 1 {
      var p, rest := parts[0], Join(parts[1..], delim);
      assert p in parts;
      SplitHead(p, rest, c);
      hide Split, IsPart;
      SplitJoin(parts[1..], c);
      assert parts == [p] + parts[1..];
    }
  }

  lemma SplitOne(p: string, c: char)
    requires c in {'|', '&'} && IsPart(p, c)
    ensures Split(p, [' ', c, c, ' ']) == [p]
  {
    assert p + "" == p && "" + p == p;
    NoDelimiterInside(p, "", c);
    ScanAtom(p, "", [' ', c, c, ' '], 0, "");
  }

  lemma SplitHead(p: string, rest: string, c: char)
    requires c in {'|', '&'} && IsPart(p, c)
    ensures var delim := [' ', c, c, ' ']; Split(p + delim + rest, delim) == [p] + Split(rest, delim)
  {
    var delim := [' ', c, c, ' '];
    assert "" + p == p && p + delim + rest == p + (delim + rest);
    NoDelimiterInside(p, delim + rest, c);
    ScanAtom(p, delim + rest, delim, 0, "");
    SplitNext(p, rest, delim);
  }

  lemma SplitNext(current: string, rest: string, delim: string)
    requires delim == OR || delim == AND
    ensures SplitFrom(delim + rest, delim, 0, current) == [current] + Split(rest, delim)
  {
    assert delim <= delim + rest && (delim + rest)[4..] == rest;
  }

  /** What joining with one delimiter keeps: ends, brace balance, and absence of the other pair. */
  lemma {:induction false} JoinKeeps(parts: seq<string>, c: char, other: char)
    requires c in {'|', '&'} && other in {'|', '&'} && c != other
    requires parts != [] && forall p :: p in parts ==> Trimmed(p) && Braces(p) == 0 && Pairless(p, other)
    ensures var s := Join(parts, [' ', c, c, ' ']);
      Trimmed(s) && Braces(s) == 0 && Pairless(s, other)
  {
    assert parts[0] in parts;
    if |parts| > 1 {
      JoinKeeps(parts[1..], c, other);
      JoinTwoKeeps(parts[0], Join(parts[1..], [' ', c, c, ' ']), c, other);
    }
  }

  lemma JoinTwoKeeps(p: string, rest: string, c: char, other: char)
    requires c in {'|', '&'} && other in {'|', '&'} && c != other
    requires Trimmed(p) && Braces(p) == 0 && Pairless(p, other)
    requires Trimmed(rest) && Braces(rest) == 0 && Pairless(rest, other)
    ensures var s := p + [' ', c, c, ' '] + rest;
      Trimmed(s) && Braces(s) == 0 && Pairless(s, other)
  {
    var delim := [' ', c, c, ' '];
    var s := p + delim + rest;
    assert s == p + (delim + rest);
    BracesConcat(p, delim + rest);
    BracesPlain(delim, rest);
    assert s[0] == p[0] && s[|s| - 1] == rest[|rest| - 1];
    forall i | 0 <= i < |s| - 1 ensures !(s[i] == other && s[i + 1] == other) {
      if i >= |p| + 4 {
        assert s[i] == rest[i - |p| - 4] && s[i + 1] == rest[i - |p| - 3];
      } else if |p| <= i {
        assert s[i] == delim[i - |p|];
      } else if i == |p| - 1 {
        assert s[i + 1] == delim[0];
      }
    }
  }

  lemma {:induction false} BracesPlain(a: string, b: string)
    requires '{' !in a && '}' !in a
    ensures Braces(a + b) == Braces(b)
  {
    if a == [] {
      assert a + b == b;
    } else {
      assert (a + b)[1..] == a[1..] + b && (a + b)[0] in a;
      BracesPlain(a[1..], b);
    }
  }

  lemma {:induction false} BracesConcat(a: string, b: string)
    requires b == "" || b[0] == ' '
    ensures Braces(a + b) == Braces(a) + Braces(b)
    decreases |a|
  {
    var s := a + b;
    if a == [] {
      assert s == b;
    } else {
      assert Pair(s, '{') <==> Pair(a, '{');
      assert Pair(s, '}') <==> Pair(a, '}');
      var n := if Pair(a, '{') || Pair(a, '}') then 2 else 1;
      assert s[n..] == a[n..] + b;
      BracesConcat(a[n..], b);
    }
  }

  lemma PairlessExcludes(s: string, c: char)
    requires Pairless(s, c)
    ensures !Includes(s, [' ', c, c, ' '])
  {
    forall i | 0 <= i <= |s| ensures !([' ', c, c, ' '] <= s[i..]) {
      DelimiterAt(s, i, c);
    }
  }

  lemma JoinIncludes(parts: seq<string>, delim: string)
    requires |parts| > 1
    ensures Includes(Join(parts, delim), delim)
  {
    var s, n := Join(parts, delim), |parts[0]|;
    assert s[n..] == delim + Join(parts[1..], delim);
  }

  lemma TrimTrimmed(s: string)
    requires Trimmed(s)
    ensures Trim(s) == s
  {
  }

  // A filter in disjunctive normal form, and its text.

  predicate IsDnf(dnf: seq<seq<string>>) {
    dnf != [] && forall conj :: conj in dnf ==> conj != [] && forall a :: a in conj ==> IsAtom(a)
  }

  function PrintAll(dnf: seq<seq<string>>): (r: seq<string>)
    ensures |r| == |dnf| && forall i :: 0 <= i < |dnf| ==> r[i] == Join(dnf[i], " && ")
  {
    if dnf == [] then [] else [Join(dnf[0], " && ")] + PrintAll(dnf[1..])
  }

  function Print(dnf: seq<seq<string>>): string {
    Join(PrintAll(dnf), " || ")
  }

  ghost predicate AllTrue(conj: seq<string>, atom: string -> bool) {
    forall a :: a in conj ==> atom(a)
  }

  lemma EvaluateAtom(a: string, atom: string -> bool)
    requires IsAtom(a)
    ensures Evaluate(a, atom) == if atom(a) then Valid else Invalid
  {
    TrimTrimmed(a);
    PairlessExcludes(a, '|');
    PairlessExcludes(a, '&');
    assert OR == [' ', '|', '|', ' '] && AND == [' ', '&', '&', ' '];
  }

  lemma {:induction false} EvaluateAtoms(conj: seq<string>, bound: nat, atom: string -> bool)
    requires forall a :: a in conj ==> IsAtom(a) && |a| < bound
    ensures EvaluateAll(conj, bound, atom) == if AllTrue(conj, atom) then Valid else Invalid
  {
    if conj != [] {
      TrimTrimmed(conj[0]);
      EvaluateAtom(conj[0], atom);
      EvaluateAtoms(conj[1..], bound, atom);
      assert forall a :: a in conj <==> a == conj[0] || a in conj[1..];
    }
  }

  lemma EvaluateConjunct(conj: seq<string>, atom: string -> bool)
    requires conj != [] && forall a :: a in conj ==> IsAtom(a)
    ensures Evaluate(Join(conj, AND), atom) == if AllTrue(conj, atom) then Valid else Invalid
    ensures Trimmed(Join(conj, AND)) && IsPart(Join(conj, AND), '|')
  {
    assert OR == [' ', '|', '|', ' '] && AND == [' ', '&', '&', ' '];
    var s := Join(conj, AND);
    JoinKeeps(conj, '&', '|');
    TrimTrimmed(s);
    PairlessExcludes(s, '|');
    SplitJoin(conj, '&');
    if |conj| == 1 {
      assert conj == [s];
      EvaluateAtom(s, atom);
      assert forall a :: a in conj <==> a == s;
    } else {
      JoinIncludes(conj, AND);
      SplitCases(s, AND);
      EvaluateAtoms(conj, |s|, atom);
    }
  }

  ghost predicate SomeTrue(dnf: seq<seq<string>>, atom: string -> bool) {
    exists i :: 0 <= i < |dnf| && AllTrue(dnf[i], atom)
  }

  lemma SomeTrueHead(dnf: seq<seq<string>>, atom: string -> bool)
    requires dnf != []
    ensures SomeTrue(dnf, atom) <==> AllTrue(dnf[0], atom) || SomeTrue(dnf[1..], atom)
  {
    if SomeTrue(dnf[1..], atom) {
      var i :| 0 <= i < |dnf[1..]| && AllTrue(dnf[1..][i], atom);
      assert AllTrue(dnf[i + 1], atom);
    }
    if i :| 0 <= i < |dnf| && AllTrue(dnf[i], atom) && i > 0 {
      assert AllTrue(dnf[1..][i - 1], atom);
    }
  }

  lemma {:induction false} EvaluateConjuncts(dnf: seq<seq<string>>, parts: seq<string>, bound: nat, atom: string -> bool)
    requires |parts| == |dnf| && forall p :: p in parts ==> |p| < bound
    requires forall i :: 0 <= i < |dnf| ==> Evaluate(Trim(parts[i]), atom) == if AllTrue(dnf[i], atom) then Valid else Invalid
    ensures EvaluateAny(parts, bound, atom) == if SomeTrue(dnf, atom) then Valid else Invalid
  {
    if dnf != [] {
      SomeTrueHead(dnf, atom);
      EvaluateConjuncts(dnf[1..], parts[1..], bound, atom);
    }
  }

  /** A printed OR-of-ANDs is valid exactly when some disjunct has all its atoms true; it never diverges. */
  lemma FilterMeaning(dnf: seq<seq<string>>, atom: string -> bool)
    requires IsDnf(dnf)
    ensures Evaluate(Print(dnf), atom) == if SomeTrue(dnf, atom) then Valid else Invalid
  {
    assert OR == [' ', '|', '|', ' '];
    var parts, s := PrintAll(dnf), Print(dnf);
    forall i | 0 <= i < |dnf|
      ensures Trimmed(parts[i]) && IsPart(parts[i], '|')
      ensures Trim(parts[i]) == parts[i] && Evaluate(parts[i], atom) == if AllTrue(dnf[i], atom) then Valid else Invalid
    {
      assert dnf[i] in dnf;
      EvaluateConjunct(dnf[i], atom);
      TrimTrimmed(parts[i]);
    }
    if |dnf| == 1 {
      SomeTrueHead(dnf, atom);
    } else {
      JoinIncludes(parts, OR);
      SplitJoin(parts, '|');
      JoinTrimmed(parts, OR);
      TrimTrimmed(s);
      SplitCases(s, OR);
      EvaluateConjuncts(dnf, parts, |s|, atom);
    }
  }

  lemma {:induction false} JoinTrimmed(parts: seq<string>, delim: string)
    requires parts != [] && forall p :: p in parts ==> Trimmed(p)
    ensures Trimmed(Join(parts, delim))
  {
    if |parts| > 1 {
      JoinTrimmed(parts[1..], delim);
      var s, rest := Join(parts, delim), Join(parts[1..], delim);
      assert parts[0] in parts && s[0] == parts[0][0] && s[|s| - 1] == rest[|rest| - 1];
    }
  }
}
