/** Line framing of a byte stream that arrives in arbitrary reads. */
module LineFraming {
  import opened Outcomes

  type Byte = b: nat | b < 256 witness 0

  const NEWLINE: Byte := 10

  // ----- Splitting a whole stream -----

  function Concat<T>(chunks: seq<seq<T>>): seq<T> {
    if chunks == [] then [] else Concat(chunks[..|chunks| - 1]) + chunks[|chunks| - 1]
  }

  /** The pieces between newlines; the last one is what follows the last newline. */
  function Segments(s: seq<Byte>): (pieces: seq<seq<Byte>>)
    ensures pieces != []
  {
    if s == [] then [[]]
    else
      var before, b := Segments(s[..|s| - 1]), s[|s| - 1];
      if b == NEWLINE then before + [[]]
      else before[..|before| - 1] + [before[|before| - 1] + [b]]
  }

  function Join(pieces: seq<seq<Byte>>): seq<Byte>
    requires pieces != []
  {
    if |pieces| == 1 then pieces[0] else Join(pieces[..|pieces| - 1]) + [NEWLINE] + pieces[|pieces| - 1]
  }

  /** The pieces cut the stream at every newline and nowhere else. */
  lemma SegmentsAreTheSplit(s: seq<Byte>)
    ensures Join(Segments(s)) == s
    ensures forall piece <- Segments(s) :: NEWLINE !in piece
  {
    JoinOfSegments(s);
    SegmentsHoldNoNewline(s);
  }

  lemma {:induction false} SegmentsHoldNoNewline(s: seq<Byte>)
    ensures forall piece <- Segments(s) :: NEWLINE !in piece
  {
    if s != [] {
      var before := Segments(s[..|s| - 1]);
      SegmentsHoldNoNewline(s[..|s| - 1]);
      assert before[|before| - 1] in before;
      assert forall piece <- before[..|before| - 1] :: piece in before;
    }
  }

  lemma {:induction false} JoinOfSegments(s: seq<Byte>)
    ensures Join(Segments(s)) == s
  {
    if s != [] {
      var rest, b := s[..|s| - 1], s[|s| - 1];
      JoinOfSegments(rest);
      JoinOfAppend(Segments(rest), b);
    }
  }

  function Append(pieces: seq<seq<Byte>>, b: Byte): seq<seq<Byte>>
    requires pieces != []
  {
    if b == NEWLINE then pieces + [[]] else pieces[..|pieces| - 1] + [pieces[|pieces| - 1] + [b]]
  }

  lemma JoinOfAppend(pieces: seq<seq<Byte>>, b: Byte)
    requires pieces != []
    ensures Join(Append(pieces, b)) == Join(pieces) + [b]
  {
    var last := |pieces| - 1;
    if b == NEWLINE {
      assert Append(pieces, b)[..last + 1] == pieces;
    } else {
      assert Append(pieces, b)[..last] == pieces[..last];
    }
  }

  lemma SegmentsStep(s: seq<Byte>, b: Byte)
    ensures Segments(s + [b]) == Append(Segments(s), b)
  {
    assert (s + [b])[..|s|] == s;
  }

  lemma {:induction false} SegmentsOfTail(s: seq<Byte>, piece: seq<Byte>)
    requires NEWLINE !in piece
    ensures Segments(s + [NEWLINE] + piece) == Segments(s) + [piece]
  {
    if piece == [] {
      assert s + [NEWLINE] + piece == s + [NEWLINE];
      SegmentsStep(s, NEWLINE);
    } else {
      var rest, b := piece[..|piece| - 1], piece[|piece| - 1];
      assert s + [NEWLINE] + piece == s + [NEWLINE] + rest + [b] && rest + [b] == piece;
      SegmentsOfTail(s, rest);
      SegmentsStep(s + [NEWLINE] + rest, b);
      assert (Segments(s) + [rest])[..|Segments(s)|] == Segments(s);
    }
  }

  lemma {:induction false} SegmentsOfPiece(piece: seq<Byte>)
    requires NEWLINE !in piece
    ensures Segments(piece) == [piece]
  {
    if piece != [] {
      SegmentsOfPiece(piece[..|piece| - 1]);
      assert piece[..|piece| - 1] + [piece[|piece| - 1]] == piece;
    }
  }

  /** They are the only such cut: joining pieces without newlines and splitting again
      gives them back. */
  lemma {:induction false} SplitOfJoin(pieces: seq<seq<Byte>>)
    requires pieces != [] && forall piece <- pieces :: NEWLINE !in piece
    ensures Segments(Join(pieces)) == pieces
  {
    var last := |pieces| - 1;
    if last == 0 {
      SegmentsOfPiece(pieces[0]);
    } else {
      SplitOfJoin(pieces[..last]);
      SegmentsOfTail(Join(pieces[..last]), pieces[last]);
      assert pieces[..last] + [pieces[last]] == pieces;
    }
  }

  /** The lines of a stream: an unfinished last line counts if it is not empty. */
  function Lines(s: seq<Byte>): seq<seq<Byte>> {
    var pieces := Segments(s);
    if pieces[|pieces| - 1] == [] then pieces[..|pieces| - 1] else pieces
  }

  /** A stream of lines, each with its newline. */
  function Terminated(lines: seq<seq<Byte>>): seq<Byte> {
    if lines == [] then [] else Terminated(lines[..|lines| - 1]) + lines[|lines| - 1] + [10]
  }

  lemma {:induction false} TerminatedIsJoined(lines: seq<seq<Byte>>, tail: seq<Byte>)
    ensures Terminated(lines) + tail == Join(lines + [tail])
  {
    if lines != [] {
      var rest, last := lines[..|lines| - 1], lines[|lines| - 1];
      TerminatedIsJoined(rest, last);
      assert (lines + [tail])[..|lines|] == lines && rest + [last] == lines;
    }
  }

  /** What was written as lines is read as those lines; bytes after the last newline are one
      more line. */
  lemma LinesOfTerminated(lines: seq<seq<Byte>>, tail: seq<Byte>)
    requires (forall line <- lines :: 10 !in line) && 10 !in tail
    ensures Lines(Terminated(lines) + tail) == if tail == [] then lines else lines + [tail]
  {
    TerminatedIsJoined(lines, tail);
    assert forall piece <- lines + [tail] :: piece in lines || piece == tail;
    SplitOfJoin(lines + [tail]);
    assert (lines + [tail])[..|lines|] == lines;
  }

  /** Every stream was written so. */
  lemma EveryStreamIsTerminated(s: seq<Byte>)
    ensures exists lines: seq<seq<Byte>>, tail: seq<Byte> ::
              (forall line <- lines :: 10 !in line) && 10 !in tail && s == Terminated(lines) + tail
  {
    var pieces := Segments(s);
    var lines, tail := pieces[..|pieces| - 1], pieces[|pieces| - 1];
    SegmentsAreTheSplit(s);
    TerminatedIsJoined(lines, tail);
    assert lines + [tail] == pieces && tail in pieces;
  }

  function Cut(line: seq<Byte>, maximum: nat): seq<Byte> {
    if |line| <= maximum then line else line[..maximum]
  }

  // ----- What each reader makes of the lines -----

  const OVERSIZED := "line exceeds the limit"

  function Fitting(lines: seq<seq<Byte>>, maximum: nat): seq<seq<Byte>> {
    if lines == [] then []
    else
      var last := lines[|lines| - 1];
      Fitting(lines[..|lines| - 1], maximum) + (if |last| <= maximum then [last] else [])
  }

  function FirstProblem(lines: seq<seq<Byte>>, problem: seq<Byte> -> Option<string>): Option<string> {
    if lines == [] then None
    else
      var earlier := FirstProblem(lines[..|lines| - 1], problem);
      if earlier.Some? then earlier else problem(lines[|lines| - 1])
  }

  predicate IsWhitespace(b: Byte) {
    b == 9 || b == 10 || b == 12 || b == 13 || b == 32
  }

  predicate Blank(line: seq<Byte>, maximum: nat) {
    |line| <= maximum && forall b <- line :: IsWhitespace(b)
  }

  function NonBlank(lines: seq<seq<Byte>>, maximum: nat): seq<seq<Byte>> {
    if lines == [] then []
    else
      var last := lines[|lines| - 1];
      NonBlank(lines[..|lines| - 1], maximum) + (if Blank(last, maximum) then [] else [last])
  }

  /** The sandbox reader's complaint about one line. */
  function SandboxProblem(maximum: nat, problem: seq<Byte> -> Option<string>): seq<Byte> -> Option<string> {
    line => if maximum < |line| then Some(OVERSIZED) else problem(line)
  }

  lemma StepLines(s: seq<Byte>, b: Byte)
    ensures var pieces, after := Segments(s), Segments(s + [b]);
            var last := |pieces| - 1;
            if b == NEWLINE
            then after[|after| - 1] == [] && after[..|after| - 1] == pieces
            else after[|after| - 1] == pieces[last] + [b] && after[..|after| - 1] == pieces[..last]
    ensures Segments(s) == Closed(s) + [Current(s)]
  {
    SegmentsStep(s, b);
  }

  /** The finished pieces and the unfinished one. */
  function Closed(s: seq<Byte>): seq<seq<Byte>> {
    Segments(s)[..|Segments(s)| - 1]
  }

  function Current(s: seq<Byte>): seq<Byte> {
    Segments(s)[|Segments(s)| - 1]
  }

  lemma FeedNewline(s: seq<Byte>)
    ensures Closed(s + [NEWLINE]) == Closed(s) + [Current(s)] && Current(s + [NEWLINE]) == []
  {
    StepLines(s, NEWLINE);
  }

  lemma FeedByte(s: seq<Byte>, b: Byte)
    requires b != NEWLINE
    ensures Closed(s + [b]) == Closed(s) && Current(s + [b]) == Current(s) + [b]
  {
    StepLines(s, b);
  }

  lemma LastLine(s: seq<Byte>)
    ensures Lines(s) == if Current(s) == [] then Closed(s) else Closed(s) + [Current(s)]
  {
  }

  lemma Grow(lines: seq<seq<Byte>>, line: seq<Byte>, maximum: nat, problem: seq<Byte> -> Option<string>)
    ensures Fitting(lines + [line], maximum) == Fitting(lines, maximum) + (if |line| <= maximum then [line] else [])
    ensures NonBlank(lines + [line], maximum) == NonBlank(lines, maximum)
        + (if Blank(line, maximum) then [] else [line])
    ensures FirstProblem(lines + [line], problem) ==
            if FirstProblem(lines, problem).Some? then FirstProblem(lines, problem) else problem(line)
  {
    assert (lines + [line])[..|lines|] == lines;
  }

  /** A line is kept or not by itself: it is blank if it is within the limit and holds
      nothing but tabs, line feeds, form feeds, carriage returns and spaces. */
  lemma SelectionOfOne(line: seq<Byte>, maximum: nat)
    ensures Fitting([line], maximum) == if |line| <= maximum then [line] else []
    ensures NonBlank([line], maximum) ==
            if |line| > maximum || exists x <- line :: x != 9 && x != 10 && x != 12 && x != 13 && x != 32
            then [line] else []
  {
    Grow([], line, maximum, _ => None);
    assert [] + [line] == [line];
  }

  /** The lines within the limit are kept in order. */
  lemma {:induction false} FittingIsByLine(a: seq<seq<Byte>>, b: seq<seq<Byte>>, maximum: nat)
    ensures Fitting(a + b, maximum) == Fitting(a, maximum) + Fitting(b, maximum)
    decreases |b|
  {
    if b == [] {
      assert a + b == a;
    } else {
      var rest := b[..|b| - 1];
      FittingIsByLine(a, rest, maximum);
      assert (a + b)[..|a + b| - 1] == a + rest;
    }
  }

  /** So are the lines that are not blank. */
  lemma {:induction false} NonBlankIsByLine(a: seq<seq<Byte>>, b: seq<seq<Byte>>, maximum: nat)
    ensures NonBlank(a + b, maximum) == NonBlank(a, maximum) + NonBlank(b, maximum)
    decreases |b|
  {
    if b == [] {
      assert a + b == a;
    } else {
      var rest := b[..|b| - 1];
      NonBlankIsByLine(a, rest, maximum);
      assert (a + b)[..|a + b| - 1] == a + rest;
    }
  }

  /** The complaint is that of the first line that has one, if any has. */
  lemma {:induction false} FirstProblemIsFirst(lines: seq<seq<Byte>>, problem: seq<Byte> -> Option<string>)
    returns (i: nat)
    ensures i <= |lines| && forall j | 0 <= j < i :: problem(lines[j]).None?
    ensures i < |lines| ==> problem(lines[i]).Some?
    ensures FirstProblem(lines, problem) == if i < |lines| then problem(lines[i]) else None
  {
    if lines == [] {
      return 0;
    }
    var rest := lines[..|lines| - 1];
    i := FirstProblemIsFirst(rest, problem);
    if i == |rest| && problem(lines[i]).None? {
      i := |lines|;
    }
  }

  predicate AnyLong(lines: seq<seq<Byte>>, maximum: nat) {
    exists line <- lines :: maximum < |line|
  }

  // ----- The host reader -----

  class HostReader {
    const maximum: nat
    const problem: seq<Byte> -> Option<string>
    var line: seq<Byte>
    var discarding: bool
    var lines: nat
    var captured: seq<seq<Byte>>
    var malformed: Option<string>
    ghost var seen: seq<Byte>

    ghost predicate Valid()
      reads this
    {
      && line == Cut(Current(seen), maximum) && (discarding <==> maximum < |Current(seen)|)
      && lines == |Closed(seen)| && captured == Fitting(Closed(seen), maximum)
      && malformed == (if discarding || AnyLong(Closed(seen), maximum) then Some(OVERSIZED)
          else FirstProblem(Closed(seen), problem))
    }

    constructor (maximum: nat, problem: seq<Byte> -> Option<string>)
      ensures Valid() && seen == [] && this.maximum == maximum && this.problem == problem
    {
      this.maximum, this.problem := maximum, problem;
      line, discarding, lines, captured, malformed, seen := [], false, 0, [], None, [];
    }

    method CaptureLine()
      modifies `captured, `malformed
      ensures captured == old(captured) + [line]
      ensures malformed == if old(malformed).Some? then old(malformed) else problem(line)
    {
      captured := captured + [line];
      if malformed.None? {
        malformed := problem(line);
      }
    }

    method Feed(b: Byte)
      requires Valid()
      modifies this
      ensures Valid() && seen == old(seen) + [b]
    {
      hide Segments, Closed, Current, Fitting, FirstProblem;
      ghost var current := Current(seen);
      if b == NEWLINE {
        FeedNewline(seen);
        Grow(Closed(seen), current, maximum, problem);
        lines := lines + 1;
        if !discarding {
          CaptureLine();
        }
        line, discarding := [], false;
      } else {
        FeedByte(seen, b);
        if |line| < maximum {
          line := line + [b];
        } else if !discarding {
          malformed := Some(OVERSIZED);
          discarding := true;
        }
      }
      seen := seen + [b];
    }

    /** The end of the stream: a last line without a newline still counts. */
    method Finish()
      requires Valid()
      modifies this
      ensures lines == |Lines(seen)| && captured == Fitting(Lines(seen), maximum)
      ensures malformed == HostMalformed(Lines(seen), maximum, problem) && seen == old(seen)
    {
      LastLine(seen);
      Grow(Closed(seen), Current(seen), maximum, problem);
      if line != [] || discarding {
        lines := lines + 1;
        if !discarding {
          CaptureLine();
        }
      }
    }
  }

  function HostMalformed(lines: seq<seq<Byte>>, maximum: nat, problem: seq<Byte> -> Option<string>): Option<string> {
    if AnyLong(lines, maximum) then Some(OVERSIZED) else FirstProblem(lines, problem)
  }

  // ----- The sandbox reader -----

  class SandboxReader {
    const maximum: nat
    const problem: seq<Byte> -> Option<string>
    var pending: seq<Byte>
    var oversized: bool
    var lines: nat
    var parsed: seq<seq<Byte>>
    var malformed: Option<string>
    ghost var seen: seq<Byte>

    ghost predicate Valid()
      reads this
    {
      && pending == Cut(Current(seen), maximum) && (oversized <==> maximum < |Current(seen)|)
      && lines == |NonBlank(Closed(seen), maximum)|
      && parsed == Fitting(NonBlank(Closed(seen), maximum), maximum)
      && malformed == FirstProblem(NonBlank(Closed(seen), maximum), SandboxProblem(maximum, problem))
    }

    constructor (maximum: nat, problem: seq<Byte> -> Option<string>)
      ensures Valid() && seen == [] && this.maximum == maximum && this.problem == problem
    {
      this.maximum, this.problem := maximum, problem;
      pending, oversized, lines, parsed, malformed, seen := [], false, 0, [], None, [];
    }

    /** `record_activity_line`. */
    method RecordLine()
      requires Valid()
      modifies `lines, `parsed, `malformed
      ensures var finished := Closed(seen) + [Current(seen)];
              && lines == |NonBlank(finished, maximum)|
              && parsed == Fitting(NonBlank(finished, maximum), maximum)
              && malformed == FirstProblem(NonBlank(finished, maximum), SandboxProblem(maximum, problem))
    {
      hide Segments, Closed, Current, Fitting, NonBlank, FirstProblem;
      ghost var current := Current(seen);
      Grow(Closed(seen), current, maximum, SandboxProblem(maximum, problem));
      Grow(NonBlank(Closed(seen), maximum), current, maximum, SandboxProblem(maximum, problem));
      if !oversized && forall b <- pending :: IsWhitespace(b) {
        assert NonBlank(Closed(seen), maximum) + [] == NonBlank(Closed(seen), maximum);
        return;
      }
      lines := lines + 1;
      if oversized {
        if malformed.None? {
          malformed := Some(OVERSIZED);
        }
        return;
      }
      parsed := parsed + [pending];
      if malformed.None? {
        malformed := problem(pending);
      }
    }

    method Feed(b: Byte)
      requires Valid()
      modifies this
      ensures Valid() && seen == old(seen) + [b]
    {
      hide Segments, Closed, Current, Fitting, NonBlank, FirstProblem;
      if b == NEWLINE {
        FeedNewline(seen);
        RecordLine();
        pending, oversized := [], false;
      } else {
        FeedByte(seen, b);
        if |pending| < maximum {
          pending := pending + [b];
        } else {
          oversized := true;
        }
      }
      seen := seen + [b];
    }

    method Finish()
      requires Valid()
      modifies this
      ensures lines == |NonBlank(Lines(seen), maximum)| && seen == old(seen)
      ensures parsed == Fitting(NonBlank(Lines(seen), maximum), maximum)
      ensures malformed == FirstProblem(NonBlank(Lines(seen), maximum), SandboxProblem(maximum, problem))
    {
      LastLine(seen);
      if pending != [] || oversized {
        RecordLine();
      }
    }
  }

  /** The host reader has no complaint exactly if every line is within the limit and none has
      a problem; and a line beyond the limit takes precedence over problems. */
  lemma HostIsContentExactlyWhen(lines: seq<seq<Byte>>, maximum: nat, problem: seq<Byte> -> Option<string>)
    ensures HostMalformed(lines, maximum, problem).None?
            <==> forall line <- lines :: |line| <= maximum && problem(line).None?
    ensures (exists line <- lines :: maximum < |line|) ==>
              HostMalformed(lines, maximum, problem) == Some(OVERSIZED)
  {
    var i := FirstProblemIsFirst(lines, problem);
  }

  /** A line within the limit that is blank or has no problem. */
  predicate Acceptable(line: seq<Byte>, maximum: nat, problem: seq<Byte> -> Option<string>) {
    && |line| <= maximum
    && (problem(line).None? || forall x <- line :: x == 9 || x == 10 || x == 12 || x == 13 || x == 32)
  }

  lemma AcceptableExactlyWhen(line: seq<Byte>, maximum: nat, problem: seq<Byte> -> Option<string>)
    ensures Acceptable(line, maximum, problem)
            <==> Blank(line, maximum) || SandboxProblem(maximum, problem)(line).None?
  {
  }

  /** The sandbox reader has none exactly if every line is acceptable. */
  lemma {:induction false} SandboxIsContentExactlyWhen(
    lines: seq<seq<Byte>>, maximum: nat, problem: seq<Byte> -> Option<string>)
    ensures FirstProblem(NonBlank(lines, maximum), SandboxProblem(maximum, problem)).None?
            <==> forall line <- lines :: Acceptable(line, maximum, problem)
  {
    if lines != [] {
      hide Acceptable, Blank, SandboxProblem, FirstProblem;
      var rest, last := lines[..|lines| - 1], lines[|lines| - 1];
      SandboxIsContentExactlyWhen(rest, maximum, problem);
      AcceptableExactlyWhen(last, maximum, problem);
      Grow(NonBlank(rest, maximum), last, maximum, SandboxProblem(maximum, problem));
      assert NonBlank(rest, maximum) + [] == NonBlank(rest, maximum);
      assert forall line :: line in lines <==> line in rest || line == last;
    }
  }

  // ----- Independence of the reads -----

  lemma ConcatStep(chunks: seq<seq<Byte>>, i: nat)
    requires i < |chunks|
    ensures Concat(chunks[..i + 1]) == Concat(chunks[..i]) + chunks[i]
  {
    assert chunks[..i + 1][..i] == chunks[..i];
  }

  /** The whole stream is its reads one after the other. */
  lemma {:induction false} ConcatIsTheStream(a: seq<seq<Byte>>, b: seq<seq<Byte>>, chunk: seq<Byte>)
    ensures Concat([chunk]) == chunk && Concat(a + b) == Concat(a) + Concat(b)
    decreases |b|
  {
    if b == [] {
      assert a + b == a;
    } else {
      ConcatIsTheStream(a, b[..|b| - 1], chunk);
      assert (a + b)[..|a + b| - 1] == a + b[..|b| - 1];
    }
  }

  /** `read_stdout`: whatever the reads were, the count, the captured lines and the
      complaint are those of the whole stream. */
  method ReadStdout(chunks: seq<seq<Byte>>, maximum: nat, problem: seq<Byte> -> Option<string>)
    returns (lines: nat, captured: seq<seq<Byte>>, malformed: Option<string>)
    ensures lines == |Lines(Concat(chunks))|
    ensures captured == Fitting(Lines(Concat(chunks)), maximum)
    ensures malformed == HostMalformed(Lines(Concat(chunks)), maximum, problem)
  {
    hide HostReader.Valid, Lines, Fitting, FirstProblem, HostMalformed;
    var reader := new HostReader(maximum, problem);
    for i := 0 to |chunks|
      invariant reader.Valid() && reader.seen == Concat(chunks[..i])
    {
      for j := 0 to |chunks[i]|
        invariant reader.Valid() && reader.seen == Concat(chunks[..i]) + chunks[i][..j]
      {
        reader.Feed(chunks[i][j]);
        assert chunks[i][..j + 1] == chunks[i][..j] + [chunks[i][j]];
      }
      assert chunks[i][..|chunks[i]|] == chunks[i];
      ConcatStep(chunks, i);
    }
    assert chunks[..|chunks|] == chunks;
    reader.Finish();
    return reader.lines, reader.captured, reader.malformed;
  }

  /** `capture_json_activity`: the same lines, blank ones skipped and the first complaint
      kept. */
  method CaptureJsonActivity(chunks: seq<seq<Byte>>, maximum: nat, problem: seq<Byte> -> Option<string>)
    returns (lines: nat, parsed: seq<seq<Byte>>, malformed: Option<string>)
    ensures lines == |NonBlank(Lines(Concat(chunks)), maximum)|
    ensures parsed == Fitting(NonBlank(Lines(Concat(chunks)), maximum), maximum)
    ensures malformed == FirstProblem(NonBlank(Lines(Concat(chunks)), maximum), SandboxProblem(maximum, problem))
  {
    hide SandboxReader.Valid, Lines, Fitting, NonBlank, FirstProblem, SandboxProblem;
    var reader := new SandboxReader(maximum, problem);
    for i := 0 to |chunks|
      invariant reader.Valid() && reader.seen == Concat(chunks[..i])
    {
      for j := 0 to |chunks[i]|
        invariant reader.Valid() && reader.seen == Concat(chunks[..i]) + chunks[i][..j]
      {
        reader.Feed(chunks[i][j]);
        assert chunks[i][..j + 1] == chunks[i][..j] + [chunks[i][j]];
      }
      assert chunks[i][..|chunks[i]|] == chunks[i];
      ConcatStep(chunks, i);
    }
    assert chunks[..|chunks|] == chunks;
    reader.Finish();
    return reader.lines, reader.parsed, reader.malformed;
  }
}
