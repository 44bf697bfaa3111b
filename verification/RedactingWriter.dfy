/** Line assembly of a step's output: arbitrary chunks come in, scrubbed lines go out. */
module RedactingOutput {
  import opened Options

  type Bytes = seq<int>

  const NEWLINE := 10

  const MAX_LINE_BYTES := 1024 * 1024

  datatype Failure = OutputLimit | LogDelivery

  /** The scrubber, and the log sink. Whether the sink takes a line may depend on all it got before. */
  datatype Target = Target(scrub: Bytes -> Bytes, connected: bool, accepts: (seq<Bytes>, Bytes) -> bool)

  /** `offered` is every line handed to the sink, in order; only the last may have been refused. */
  datatype State = State(buffer: Bytes, err: Option<Failure>, offered: seq<Bytes>)

  function Split(text: Bytes): (lines: seq<Bytes>)
    ensures lines != []
  {
    if text == [] then [[]]
    else
      var lines := Split(text[1..]);
      if text[0] == NEWLINE then [[]] + lines else [[text[0]] + lines[0]] + lines[1..]
  }

  function TrimNewline(text: Bytes): Bytes {
    if text != [] && text[|text| - 1] == NEWLINE then text[..|text| - 1] else text
  }

  /** The log lines one line of output turns into. */
  function Rendered(t: Target, line: Bytes): seq<Bytes> {
    Split(TrimNewline(t.scrub(line)))
  }

  function Offer(t: Target, s: State, lines: seq<Bytes>): State
    decreases |lines|
  {
    if lines == [] || s.err.Some? then s
    else
      var more := s.(offered := s.offered + [lines[0]]);
      if t.accepts(s.offered, lines[0]) then Offer(t, more, lines[1..])
      else more.(err := Some(LogDelivery))
  }

  /** Deliver the buffered line. A refused line stays in the buffer. */
  function Deliver(t: Target, s: State): State {
    var after := if t.connected then Offer(t, s, Rendered(t, s.buffer)) else s;
    if after.err.Some? then after else after.(buffer := [])
  }

  /** One more byte of output. */
  function Feed(t: Target, s: State, b: int): State {
    if s.err.Some? then s
    else if |s.buffer| + 1 > MAX_LINE_BYTES then State([], Some(OutputLimit), s.offered)
    else
      var more := s.(buffer := s.buffer + [b]);
      if b == NEWLINE then Deliver(t, more) else more
  }

  function FeedAll(t: Target, s: State, data: Bytes): State
    decreases |data|
  {
    if data == [] then s else FeedAll(t, Feed(t, s, data[0]), data[1..])
  }

  /** The end of the output: what is left is a line of its own. */
  function Finish(t: Target, s: State): State {
    if s.err.Some? || s.buffer == [] then s else Deliver(t, s)
  }

  lemma {:induction false} FedInTurn(t: Target, s: State, a: Bytes, b: Bytes)
    ensures FeedAll(t, s, a + b) == FeedAll(t, FeedAll(t, s, a), b)
    decreases |a|
  {
    if a == [] {
      assert a + b == b;
    } else {
      assert (a + b)[1..] == a[1..] + b;
      FedInTurn(t, Feed(t, s, a[0]), a[1..], b);
    }
  }

  /** After the first error nothing happens any more. */
  lemma {:induction false} ErrorIsFinal(t: Target, s: State, data: Bytes)
    requires s.err.Some?
    ensures FeedAll(t, s, data) == s && Finish(t, s) == s
  {
    if data != [] {
      ErrorIsFinal(t, s, data[1..]);
    }
  }

  function Joined(chunks: seq<Bytes>): Bytes {
    if chunks == [] then [] else chunks[0] + Joined(chunks[1..])
  }

  function FeedChunks(t: Target, s: State, chunks: seq<Bytes>): State
    decreases |chunks|
  {
    if chunks == [] then s else FeedChunks(t, FeedAll(t, s, chunks[0]), chunks[1..])
  }

  /** Lines, error and buffer do not depend on how the output was cut into chunks. */
  lemma {:induction false} ChunkingDoesNotMatter(t: Target, s: State, chunks: seq<Bytes>)
    ensures FeedChunks(t, s, chunks) == FeedAll(t, s, Joined(chunks))
    decreases |chunks|
  {
    if chunks != [] {
      ChunkingDoesNotMatter(t, FeedAll(t, s, chunks[0]), chunks[1..]);
      FedInTurn(t, s, chunks[0], Joined(chunks[1..]));
    }
  }

  /** A stretch of output without a newline before its end is buffered as a whole, or overflows. */
  lemma {:induction false} FeedStretch(t: Target, s: State, data: Bytes)
    requires data != [] && s.err.None? && |s.buffer| <= MAX_LINE_BYTES
    requires forall k | 0 <= k < |data| - 1 :: data[k] != NEWLINE
    ensures FeedAll(t, s, data) ==
            if |s.buffer| + |data| > MAX_LINE_BYTES then State([], Some(OutputLimit), s.offered)
            else if data[|data| - 1] == NEWLINE then Deliver(t, s.(buffer := s.buffer + data))
            else s.(buffer := s.buffer + data)
    decreases |data|
  {
    var rest, next := data[1..], Feed(t, s, data[0]);
    if |s.buffer| + 1 > MAX_LINE_BYTES {
      ErrorIsFinal(t, next, rest);
    } else if rest == [] {
      assert data == [data[0]];
      assert FeedAll(t, next, rest) == next;
    } else {
      FeedStretch(t, next, rest);
      assert s.buffer + data == next.buffer + rest;
    }
  }

  /** What the writer does with the next stretch, seen from the start of the chunk. */
  lemma NextStretch(t: Target, start: State, data: Bytes, done: nat, next: nat)
    requires done < next <= |data|
    requires forall k | done <= k < next - 1 :: data[k] != NEWLINE
    requires var s := FeedAll(t, start, data[..done]); s.err.None? && |s.buffer| <= MAX_LINE_BYTES
    ensures var s, stretch := FeedAll(t, start, data[..done]), data[done..next];
            FeedAll(t, start, data[..next]) ==
              if |s.buffer| + |stretch| > MAX_LINE_BYTES then State([], Some(OutputLimit), s.offered)
              else if stretch[|stretch| - 1] == NEWLINE then Deliver(t, s.(buffer := s.buffer + stretch))
              else s.(buffer := s.buffer + stretch)
    ensures FeedAll(t, start, data[..next]).err.Some? ==>
              FeedAll(t, start, data) == FeedAll(t, start, data[..next])
  {
    var s, stretch := FeedAll(t, start, data[..done]), data[done..next];
    FeedStretch(t, s, stretch);
    assert data[..next] == data[..done] + stretch;
    FedInTurn(t, start, data[..done], stretch);
    var after := FeedAll(t, start, data[..next]);
    if after.err.Some? {
      assert data == data[..next] + data[next..];
      FedInTurn(t, start, data[..next], data[next..]);
      ErrorIsFinal(t, after, data[next..]);
    }
  }

  function FirstNewline(data: Bytes): (i: nat)
    ensures i <= |data|
  {
    if data == [] || data[0] == NEWLINE then 0 else 1 + FirstNewline(data[1..])
  }

  lemma {:induction false} FirstNewlineIs(data: Bytes)
    ensures var i := FirstNewline(data);
            && (i < |data| ==> data[i] == NEWLINE)
            && forall k | 0 <= k < i :: data[k] != NEWLINE
  {
    if data != [] && data[0] != NEWLINE {
      FirstNewlineIs(data[1..]);
      assert forall k | 1 <= k < |data| :: data[k] == data[1..][k - 1];
    }
  }

  predicate HasLine(data: Bytes) {
    FirstNewline(data) < |data|
  }

  /** The first line with its newline, and what follows it. */
  function FirstLine(data: Bytes): Bytes
    requires HasLine(data)
  {
    data[..FirstNewline(data) + 1]
  }

  function AfterLine(data: Bytes): (rest: Bytes)
    requires HasLine(data)
    ensures |rest| < |data|
  {
    data[FirstNewline(data) + 1..]
  }

  /** The reference: cut the whole output into lines first, then check and render each of them. */
  function Reference(t: Target, s: State, data: Bytes): State
    decreases |data|
  {
    if !HasLine(data) then
      if |data| > MAX_LINE_BYTES then State([], Some(OutputLimit), s.offered)
      else s.(buffer := data)
    else if |FirstLine(data)| > MAX_LINE_BYTES then State([], Some(OutputLimit), s.offered)
    else
      var after := Deliver(t, s.(buffer := FirstLine(data)));
      if after.err.Some? then after else Reference(t, after, AfterLine(data))
  }

  lemma {:induction false} MeetsReference(t: Target, s: State, data: Bytes)
    requires s.err.None? && s.buffer == []
    ensures FeedAll(t, s, data) == Reference(t, s, data)
    decreases |data|
  {
    FirstNewlineIs(data);
    hide FirstNewline, Feed, Rendered;
    if !HasLine(data) {
      if data != [] {
        FeedStretch(t, s, data);
        assert s.buffer + data == data;
      }
    } else {
      var line, rest := FirstLine(data), AfterLine(data);
      FeedStretch(t, s, line);
      assert s.buffer + line == line && data == line + rest;
      FedInTurn(t, s, line, rest);
      var after := FeedAll(t, s, line);
      if after.err.Some? {
        ErrorIsFinal(t, after, rest);
      } else {
        MeetsReference(t, after, rest);
      }
    }
  }

  /** The complete lines of the output. */
  function Lines(data: Bytes): seq<Bytes>
    decreases |data|
  {
    if HasLine(data) then [FirstLine(data)] + Lines(AfterLine(data)) else []
  }

  /** What follows the last newline. */
  function Residue(data: Bytes): Bytes
    decreases |data|
  {
    if HasLine(data) then Residue(AfterLine(data)) else data
  }

  /** Lines and residue make up the output, and only the end of a line is a newline. */
  lemma {:induction false} LinesMakeUpTheOutput(data: Bytes)
    ensures Joined(Lines(data)) + Residue(data) == data && NEWLINE !in Residue(data)
    ensures forall line | line in Lines(data) :: IsLine(line)
    decreases |data|
  {
    FirstNewlineIs(data);
    if HasLine(data) {
      FirstIsLine(data);
      hide FirstNewline, HasLine, FirstLine, AfterLine, IsLine;
      var line, rest := FirstLine(data), AfterLine(data);
      LinesMakeUpTheOutput(rest);
      JoinedWith(line, Lines(rest));
      Regrouped(line, Joined(Lines(rest)), Residue(rest));
    }
  }

  lemma Regrouped(a: Bytes, b: Bytes, c: Bytes)
    ensures a + b + c == a + (b + c)
  {
  }

  lemma FirstIsLine(data: Bytes)
    requires HasLine(data)
    ensures IsLine(FirstLine(data)) && data == FirstLine(data) + AfterLine(data)
  {
    FirstNewlineIs(data);
    hide FirstNewline;
    var i := FirstNewline(data);
    assert data[..i + 1][..i] == data[..i];
  }

  predicate IsLine(line: Bytes) {
    line != [] && line[|line| - 1] == NEWLINE && NEWLINE !in line[..|line| - 1]
  }

  lemma JoinedWith(line: Bytes, lines: seq<Bytes>)
    ensures Joined([line] + lines) == line + Joined(lines)
  {
    assert ([line] + lines)[1..] == lines;
  }

  /** The lines before the first one over the limit. */
  function BeforeTooLong(lines: seq<Bytes>): seq<Bytes> {
    if lines == [] || |lines[0]| > MAX_LINE_BYTES then [] else [lines[0]] + BeforeTooLong(lines[1..])
  }

  function RenderedAll(t: Target, lines: seq<Bytes>): seq<Bytes> {
    if lines == [] || !t.connected then [] else Rendered(t, lines[0]) + RenderedAll(t, lines[1..])
  }

  /** `after` is offered the renderings of the lines before the first one over the limit, and unless
      the sink refuses one, all of them. */
  predicate OffersShortLines(t: Target, offered: seq<Bytes>, lines: seq<Bytes>, residue: Bytes, after: State) {
    var expected := offered + RenderedAll(t, BeforeTooLong(lines));
    && after.offered <= expected
    && (after.err != Some(LogDelivery) ==> after.offered == expected)
    && (after.err == None ==>
          BeforeTooLong(lines) == lines && after.buffer == residue && |residue| <= MAX_LINE_BYTES)
    && (after.err == Some(OutputLimit) ==> BeforeTooLong(lines) != lines || |residue| > MAX_LINE_BYTES)
  }

  /** Nothing of a line over the limit, or of what follows it, is ever offered. */
  lemma {:induction false} OnlyShortLinesAreOffered(t: Target, s: State, data: Bytes)
    requires s.err.None? && s.buffer == []
    ensures OffersShortLines(t, s.offered, Lines(data), Residue(data), FeedAll(t, s, data))
    decreases |data|
  {
    hide FirstNewline;
    MeetsReference(t, s, data);
    hide FeedAll, Feed, Rendered, FirstNewline;
    if HasLine(data) && |FirstLine(data)| <= MAX_LINE_BYTES {
      var line, rest := FirstLine(data), AfterLine(data);
      var after := Deliver(t, s.(buffer := line));
      DeliveryOffers(t, s.(buffer := line));
      hide Deliver, OffersShortLines;
      if after.err.None? {
        MeetsReference(t, after, rest);
        OnlyShortLinesAreOffered(t, after, rest);
      }
      OneLineEarlier(t, s.offered, line, Lines(rest), Residue(rest), after, FeedAll(t, s, data));
    }
  }

  lemma OneLineEarlier(t: Target, offered: seq<Bytes>, line: Bytes, lines: seq<Bytes>, residue: Bytes,
                       middle: State, after: State)
    requires |line| <= MAX_LINE_BYTES
    requires var expected := offered + if t.connected then Rendered(t, line) else [];
             if middle.err.None?
             then middle.offered == expected && OffersShortLines(t, middle.offered, lines, residue, after)
             else after == middle && middle.offered <= expected && middle.err == Some(LogDelivery)
    ensures OffersShortLines(t, offered, [line] + lines, residue, after)
  {
    hide Rendered;
    var later := BeforeTooLong(lines);
    var now := if t.connected then Rendered(t, line) else [];
    assert ([line] + lines)[1..] == lines && ([line] + later)[1..] == later;
    assert RenderedAll(t, [line] + later) == now + RenderedAll(t, later);
    assert offered + (now + RenderedAll(t, later)) == offered + now + RenderedAll(t, later);
  }

  /** Delivering a line offers its renderings up to the first refusal. */
  lemma DeliveryOffers(t: Target, s: State)
    requires s.err.None?
    ensures var after := Deliver(t, s);
            var expected := s.offered + if t.connected then Rendered(t, s.buffer) else [];
            && after.offered <= expected
            && after.err in {None, Some(LogDelivery)}
            && (after.err == None ==> after.offered == expected && after.buffer == [])
  {
    RefusedLineIsTheLast(t, s, Rendered(t, s.buffer));
  }

  /** The end of the output offers what follows the last newline. */
  lemma ResidueIsOfferedLast(t: Target, s: State)
    requires s.err.None? && s.buffer != []
    ensures var after := Finish(t, s);
            var expected := s.offered + if t.connected then Rendered(t, s.buffer) else [];
            && after.offered <= expected
            && (after.err != Some(LogDelivery) ==> after.offered == expected && after.err == None)
  {
    DeliveryOffers(t, s);
  }

  /** The output of a step's attempts, each ended by a flush. */
  function FeedAttempts(t: Target, s: State, outputs: seq<Bytes>): State
    decreases |outputs|
  {
    if outputs == [] then s else FeedAttempts(t, Finish(t, FeedAll(t, s, outputs[0])), outputs[1..])
  }

  /** Once the sink refuses a line it gets no other. */
  lemma {:induction false} RefusedLineIsTheLast(t: Target, s: State, lines: seq<Bytes>)
    requires s.err.None?
    ensures var after := Offer(t, s, lines);
            && s.offered <= after.offered
            && (after.err.None? ==> after.offered == s.offered + lines)
            && (after.err.Some? ==>
                  && after.err == Some(LogDelivery) && |after.offered| > |s.offered|
                  && after.offered <= s.offered + lines
                  && var last := |after.offered| - 1;
                     !t.accepts(after.offered[..last], after.offered[last]))
    decreases |lines|
  {
    if lines != [] {
      var more := s.(offered := s.offered + [lines[0]]);
      assert more.offered[..|s.offered|] == s.offered;
      assert more.offered + lines[1..] == s.offered + lines;
      if t.accepts(s.offered, lines[0]) {
        RefusedLineIsTheLast(t, more, lines[1..]);
      }
    } else {
      assert s.offered + lines == s.offered;
    }
  }

  /** The sink took every line it was offered, except the last if delivery failed. */
  predicate Honest(t: Target, s: State) {
    && (forall k | 0 <= k < |s.offered| - 1 :: t.accepts(s.offered[..k], s.offered[k]))
    && (s.offered != [] ==>
          (t.accepts(s.offered[..|s.offered| - 1], s.offered[|s.offered| - 1]) <==> s.err != Some(LogDelivery)))
    && (s.offered == [] ==> s.err != Some(LogDelivery))
  }

  lemma {:induction false} OnlyTheLastIsRefused(t: Target, s: State, data: Bytes)
    requires Honest(t, s)
    ensures Honest(t, FeedAll(t, s, data)) && Honest(t, Finish(t, FeedAll(t, s, data)))
    decreases |data|
  {
    hide Honest, Rendered;
    if data == [] {
      if s.err.None? { DeliveryIsHonest(t, s); }
    } else {
      var more := s.(buffer := s.buffer + [data[0]]);
      SameOffers(t, s, more);
      if s.err.None? {
        SameOffers(t, s, State([], Some(OutputLimit), s.offered));
        DeliveryIsHonest(t, more);
      }
      OnlyTheLastIsRefused(t, Feed(t, s, data[0]), data[1..]);
    }
  }

  /** Over any attempts of a step only the very last line can have been refused. */
  lemma {:induction false} AttemptsAreHonest(t: Target, s: State, outputs: seq<Bytes>)
    requires Honest(t, s)
    ensures Honest(t, FeedAttempts(t, s, outputs))
    decreases |outputs|
  {
    if outputs != [] {
      OnlyTheLastIsRefused(t, s, outputs[0]);
      AttemptsAreHonest(t, Finish(t, FeedAll(t, s, outputs[0])), outputs[1..]);
    }
  }

  lemma SameOffers(t: Target, s: State, u: State)
    requires Honest(t, s) && u.offered == s.offered
    requires u.err == s.err || (s.err.None? && u.err != Some(LogDelivery))
    ensures Honest(t, u)
  {
  }

  lemma DeliveryIsHonest(t: Target, s: State)
    requires Honest(t, s) && s.err.None?
    ensures Honest(t, Deliver(t, s))
  {
    hide Honest, Rendered;
    OfferIsHonest(t, s, Rendered(t, s.buffer));
    var after := if t.connected then Offer(t, s, Rendered(t, s.buffer)) else s;
    SameOffers(t, after, Deliver(t, s));
  }

  lemma {:induction false} OfferIsHonest(t: Target, s: State, lines: seq<Bytes>)
    requires Honest(t, s) && s.err.None?
    ensures Honest(t, Offer(t, s, lines))
    decreases |lines|
  {
    if lines != [] {
      var more := s.(offered := s.offered + [lines[0]]);
      assert more.offered[..|s.offered|] == s.offered;
      assert forall k | 0 <= k < |s.offered| :: more.offered[..k] == s.offered[..k];
      if t.accepts(s.offered, lines[0]) {
        OfferIsHonest(t, more, lines[1..]);
      }
    }
  }

  class RedactingWriter {
    const target: Target
    var buffer: Bytes
    var err: Option<Failure>
    var offered: seq<Bytes>

    constructor (target: Target)
      ensures this.target == target && Now() == State([], None, []) && Valid()
    {
      this.target := target;
      buffer, err, offered := [], None, [];
    }

    predicate Valid()
      reads this
    {
      |buffer| <= MAX_LINE_BYTES
    }

    function Now(): State
      reads this
    {
      State(buffer, err, offered)
    }

    method Write(data: Bytes) returns (written: nat, failure: Option<Failure>)
      requires Valid()
      modifies this
      ensures Valid() && Now() == FeedAll(target, old(Now()), data)
      ensures failure == err && written <= |data|
      ensures failure == None ==> written == |data|
      ensures old(err).Some? ==> written == 0
      // What was taken before an overflow is complete lines, all delivered.
      ensures old(err).None? && failure == Some(OutputLimit) ==>
                var taken := FeedAll(target, old(Now()), data[..written]);
                taken.err.None? && taken.offered == offered
      ensures old(err).None? && failure == Some(LogDelivery) ==>
                FeedAll(target, old(Now()), data[..written]) == Now()
    {
      if err.Some? {
        ErrorIsFinal(target, Now(), data);
        return 0, err;
      }
      assert FeedAll(target, Now(), data[..0]) == Now();
      hide FeedAll, Feed, Deliver;
      written := 0;
      ghost var start := Now();
      while written < |data|
        invariant Valid() && err.None? && written <= |data|
        invariant Now() == FeedAll(target, start, data[..written])
      {
        var newline := FirstNewline(data[written..]);
        FirstNewlineIs(data[written..]);
        var length := if newline < |data| - written then newline + 1 else newline;
        var next := written + length;
        assert forall k | written <= k < next - 1 :: data[k] == data[written..][k - written];
        NextStretch(target, start, data, written, next);
        if |buffer| + length > MAX_LINE_BYTES {
          buffer, err := [], Some(OutputLimit);
          return written, err;
        }
        buffer := buffer + data[written..next];
        written := next;
        if newline < length {
          var refused := WriteLines();
          if refused {
            return written, err;
          }
          buffer := [];
        }
      }
      assert data[..|data|] == data;
      return written, None;
    }

    /** `flush`. */
    method Flush() returns (failure: Option<Failure>)
      requires Valid()
      modifies this
      ensures Valid() && Now() == Finish(target, old(Now())) && failure == err
    {
      if err.Some? || |buffer| == 0 {
        return err;
      }
      var refused := WriteLines();
      if !refused {
        buffer := [];
      }
      return err;
    }

    /** `write`: hand the rendered lines of the buffer to the sink. */
    method WriteLines() returns (refused: bool)
      requires err.None?
      modifies this`err, this`offered
      ensures err == if refused then Some(LogDelivery) else None
      ensures (if err.Some? then Now() else Now().(buffer := [])) == Deliver(target, old(Now()))
    {
      if !target.connected {
        return false;
      }
      var lines := Rendered(target, buffer);
      ghost var start := Now();
      for i := 0 to |lines|
        invariant err.None?
        invariant Offer(target, start, lines) == Offer(target, Now(), lines[i..])
      {
        if !target.accepts(offered, lines[i]) {
          offered, err := offered + [lines[i]], Some(LogDelivery);
          return true;
        }
        offered := offered + [lines[i]];
      }
      return false;
    }
  }
}
