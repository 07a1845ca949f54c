/**
 The stylesheet splitter of `fix_css.py`: cutting the scanned lines into part
 files (`split_into_chunks`) and joining part files again
 (`get_concatenated_content`).
 */
module CssSplitter {
  import opened CssScanner

  const CHUNK_LINES := 600

  // ---- Chunks ----

  /** The length of the first chunk, known to be at least `n`. */
  function FirstCut(lines: seq<Line>, n: nat): (cut: nat)
    requires 1 <= n <= |lines|
    ensures n <= cut <= |lines|
    ensures cut < |lines| ==> CHUNK_LINES <= cut && lines[cut - 1].safe
    ensures forall k | n - 1 <= k < cut - 1 :: CHUNK_LINES <= k + 1 ==> !lines[k].safe
    decreases |lines| - n
  {
    if n == |lines| || (CHUNK_LINES <= n && lines[n - 1].safe) then n else FirstCut(lines, n + 1)
  }

  function Chunks(lines: seq<Line>): seq<seq<Line>> {
    if lines == [] then [] else [lines[..FirstCut(lines, 1)]] + Chunks(lines[FirstCut(lines, 1)..])
  }

  function Texts(lines: seq<Line>): (texts: seq<string>) {
    seq(|lines|, i requires 0 <= i < |lines| => lines[i].text)
  }

  function ChunkTexts(chunks: seq<seq<Line>>): seq<seq<string>> {
    seq(|chunks|, i requires 0 <= i < |chunks| => Texts(chunks[i]))
  }

  ghost predicate Uncut(lines: seq<Line>) {
    forall k | 0 <= k < |lines| :: 600 <= k + 1 ==> !lines[k].safe
  }

  /** A chunk other than the last ends at its first safe line from the 600th on; the last has none before its end. */
  ghost predicate WellCut(chunk: seq<Line>, last: bool) {
    && chunk != []
    && (forall k | 0 <= k < |chunk| - 1 :: 600 <= k + 1 ==> !chunk[k].safe)
    && (!last ==> 600 <= |chunk| && chunk[|chunk| - 1].safe)
  }

  /** A well-cut front is the first chunk. */
  lemma NextChunk(chunk: seq<Line>, rest: seq<Line>)
    requires WellCut(chunk, rest == [])
    ensures Chunks(chunk + rest) == [chunk] + Chunks(rest)
  {
    hide FirstCut;
    var lines, n := chunk + rest, |chunk|;
    assert lines[n - 1] == chunk[n - 1];
    var cut := FirstCut(lines, 1);
    if cut < n {
      assert false;
    }
    if n < cut {
      assert false;
    }
    assert lines[..n] == chunk && lines[n..] == rest;
  }

  method SplitIntoChunks(lines: seq<Line>) returns (chunks: seq<seq<string>>)
    ensures chunks == ChunkTexts(Chunks(lines))
  {
    hide Chunks, ChunkTexts, Texts;
    chunks := [];
    var currentChunk: seq<string> := [];
    ghost var done: seq<seq<Line>>, current: seq<Line> := [], [];
    TextsGrow([], [], Line("", false));
    for i := 0 to |lines|
      invariant |current| <= i && current == lines[i - |current|..i] && Uncut(current)
      invariant currentChunk == Texts(current) && |currentChunk| == |current|
      invariant chunks == ChunkTexts(done)
      invariant Chunks(lines) == done + Chunks(lines[i - |current|..])
    {
      TextsGrow(done, current, lines[i]);
      currentChunk := currentChunk + [lines[i].text];
      ghost var chunk := current + [lines[i]];
      if |currentChunk| >= 600 && lines[i].safe {
        NextChunk(chunk, lines[i + 1..]);
        assert lines[i - |current|..] == chunk + lines[i + 1..];
        assert done + ([chunk] + Chunks(lines[i + 1..])) == done + [chunk] + Chunks(lines[i + 1..]);
        TextsGrow(done, chunk, lines[i]);
        chunks := chunks + [currentChunk];
        currentChunk := [];
        done, current := done + [chunk], [];
      } else {
        current := chunk;
      }
    }
    assert lines[|lines| - |current|..] == current;
    LastChunk(done, current);
    if currentChunk != [] {
      chunks := chunks + [currentChunk];
    }
  }

  lemma TextsGrow(done: seq<seq<Line>>, chunk: seq<Line>, line: Line)
    ensures Texts(chunk + [line]) == Texts(chunk) + [line.text]
    ensures ChunkTexts(done + [chunk]) == ChunkTexts(done) + [Texts(chunk)]
    ensures Texts([]) == [] && ChunkTexts([]) == []
    ensures |Texts(chunk)| == |chunk|
  {
  }

  lemma LastChunk(done: seq<seq<Line>>, current: seq<Line>)
    requires Uncut(current)
    ensures ChunkTexts(done + Chunks(current))
         == if current == [] then ChunkTexts(done) else ChunkTexts(done) + [Texts(current)]
  {
    if current == [] {
      assert done + Chunks(current) == done;
    } else {
      NextChunk(current, []);
      assert current + [] == current && Chunks([]) == [];
    }
  }

  function Flatten(chunks: seq<seq<Line>>): seq<Line> {
    if chunks == [] then [] else chunks[0] + Flatten(chunks[1..])
  }

  lemma FirstChunk(lines: seq<Line>)
    requires lines != []
    ensures var n := FirstCut(lines, 1); WellCut(lines[..n], n == |lines|) && lines[..n] + lines[n..] == lines
  {
    hide FirstCut;
    CutFront(lines, FirstCut(lines, 1));
  }

  lemma CutFront(lines: seq<Line>, n: nat)
    requires 0 < n <= |lines|
    requires n < |lines| ==> CHUNK_LINES <= n && lines[n - 1].safe
    requires forall k | 0 <= k < n - 1 :: CHUNK_LINES <= k + 1 ==> !lines[k].safe
    ensures WellCut(lines[..n], n == |lines|) && lines[..n] + lines[n..] == lines
  {
    var chunk := lines[..n];
    assert forall k | 0 <= k < n :: chunk[k] == lines[k];
  }

  /** Every line lands in one chunk, in order, and every chunk is well cut. */
  lemma {:induction false} ChunkLaw(lines: seq<Line>)
    ensures Flatten(Chunks(lines)) == lines
    ensures forall i | 0 <= i < |Chunks(lines)| :: WellCut(Chunks(lines)[i], i + 1 == |Chunks(lines)|)
  {
    if lines != [] {
      var n := FirstCut(lines, 1);
      FirstChunk(lines);
      ChunkLaw(lines[n..]);
      var chunks, tail := Chunks(lines), Chunks(lines[n..]);
      assert chunks == [lines[..n]] + tail;
      assert tail == [] <==> n == |lines|;
      hide WellCut, FirstCut, Chunks;
      assert Flatten(chunks) == lines[..n] + Flatten(tail) by {
        assert chunks[1..] == tail;
      }
      hide Flatten;
    }
  }

  /** Where the cuts fall depends on the flags alone. */
  lemma {:induction false} SameFlagsSameCuts(a: seq<Line>, b: seq<Line>)
    requires |a| == |b| && forall k | 0 <= k < |a| :: a[k].safe == b[k].safe
    ensures |Chunks(a)| == |Chunks(b)|
    ensures forall i | 0 <= i < |Chunks(a)| :: |Chunks(a)[i]| == |Chunks(b)[i]|
  {
    if a != [] {
      var n := FirstCut(a, 1);
      assert FirstCut(b, 1) == n;
      SameFlagsSameCuts(a[n..], b[n..]);
      assert Chunks(a) == [a[..n]] + Chunks(a[n..]) && Chunks(b) == [b[..n]] + Chunks(b[n..]);
    }
  }

  // ---- Part files ----

  /** The contents written to the part files. */
  function Written(chunks: seq<seq<Line>>): seq<string> {
    if chunks == [] then [] else [TextOf(chunks[0])] + Written(chunks[1..])
  }

  function Parts(content: string): seq<string> {
    Written(Chunks(Analyze(content, Start)))
  }

  function Joined(parts: seq<string>): string {
    if parts == [] then "" else Terminated(parts[0]) + Joined(parts[1..])
  }

  lemma JoinedCons(part: string, parts: seq<string>)
    ensures Joined([part] + parts) == Terminated(part) + Joined(parts)
  {
    assert ([part] + parts)[1..] == parts;
  }

  method GetConcatenatedContent(parts: seq<string>) returns (joined: string)
    ensures joined == Joined(parts)
  {
    hide Joined;
    joined := "";
    assert parts[0..] == parts;
    NothingJoined();
    for i := 0 to |parts|
      invariant joined + Joined(parts[i..]) == Joined(parts)
    {
      var part := parts[i];
      assert parts[i..] == [part] + parts[i + 1..];
      JoinedCons(part, parts[i + 1..]);
      ghost var was := joined;
      joined := joined + part;
      if part != "" && part[|part| - 1] != '\n' {
        joined := joined + "\n";
      }
      assert joined == was + Terminated(part);
    }
    assert parts[|parts|..] == [];
  }

  lemma NothingJoined()
    ensures Joined([]) == ""
  {
  }

  /** The first part file, and a stylesheet scanning like the remaining lines. */
  lemma Peel(s: string) returns (part: string, rest: string)
    requires s != ""
    ensures s == part + rest && part != ""
    ensures var lines := Analyze(s, Start);
      && lines != []
      && Chunks(lines) == [Analyze(part, Start)] + Chunks(Analyze(rest, Start))
      && TextOf(Analyze(part, Start)) == part
    ensures rest != "" ==> Ended(part)
  {
    hide After, Analyze, FirstCut;
    var lines := Analyze(s, Start);
    NothingRead(s, Start);
    NothingRead("", Start);
    var n := FirstCut(lines, 1);
    part, rest := CutAnywhere(s, Start, n);
    Lossless(part, Start);
    if n < |lines| {
      SafeMeaning(s, Start, n - 1);
      assert After(part, Start) == Start;
    }
    NothingRead(part, Start);
  }

  /** Each part file, scanned on its own, shows the same lines with the same flags as in the whole stylesheet. */
  lemma {:induction false} PartsStandAlone(s: string)
    ensures var chunks := Chunks(Analyze(s, Start));
      forall i | 0 <= i < |chunks| :: Analyze(TextOf(chunks[i]), Start) == chunks[i]
    decreases |s|
  {
    if s != "" {
      var part, rest := Peel(s);
      PartsStandAlone(rest);
    }
  }

  lemma PeelParts(s: string) returns (part: string, rest: string)
    requires s != ""
    ensures s == part + rest && part != "" && (rest != "" ==> Ended(part))
    ensures Parts(s) == [part] + Parts(rest)
  {
    part, rest := Peel(s);
    var a, b := Analyze(part, Start), Chunks(Analyze(rest, Start));
    hide Analyze, Chunks, Ended;
    assert ([a] + b)[1..] == b;
  }

  /** Joining what was written gives the stylesheet back, with its final newline added when it had none. */
  lemma {:induction false} JoinParts(s: string)
    ensures Joined(Parts(s)) == Terminated(s)
    decreases |s|
  {
    if s != "" {
      var part, rest := PeelParts(s);
      JoinParts(rest);
      hide Parts, Joined, Terminated;
      JoinedCons(part, Parts(rest));
      TerminatedConcat(part, rest);
    }
  }

  lemma TerminatedConcat(part: string, rest: string)
    requires rest != "" ==> Ended(part)
    ensures Terminated(part) + Terminated(rest) == Terminated(part + rest)
  {
    if rest == "" {
      assert part + rest == part;
    } else {
      assert (part + rest)[|part + rest| - 1] == rest[|rest| - 1];
    }
  }

  lemma {:induction false} JoinedIsTerminated(parts: seq<string>)
    ensures Ended(Joined(parts))
  {
    if parts != [] {
      JoinedIsTerminated(parts[1..]);
    }
  }

  /** Running the splitter on its own output rewrites the same part files, whatever part files it started from. */
  lemma ResplitIsStable(parts: seq<string>)
    ensures Parts(Joined(Parts(Joined(parts)))) == Parts(Joined(parts))
  {
    JoinedIsTerminated(parts);
    JoinParts(Joined(parts));
  }

  /** Re-splitting the joined parts cuts at the same lines with the same flags. */
  lemma SameBoundaries(s: string)
    ensures var lines, again := Analyze(s, Start), Analyze(Joined(Parts(s)), Start);
      && |again| == |lines|
      && (forall k | 0 <= k < |lines| :: again[k].safe == lines[k].safe)
      && |Chunks(again)| == |Chunks(lines)|
      && (forall i | 0 <= i < |Chunks(lines)| :: |Chunks(again)[i]| == |Chunks(lines)[i]|)
  {
    JoinParts(s);
    TerminatedLines(s, Start);
    SameFlagsSameCuts(Analyze(s, Start), Analyze(Terminated(s), Start));
  }
}
