/** A claim's output on its way to the server: a redacting writer for each step in front of the one
    log sender of the claim. */
module LogPipeline {
  import opened Options
  import opened RedactingOutput
  import LogDelivery
  import Utf8

  const FRESH := State([], None, [])

  function Cleaned(lines: seq<Bytes>): Bytes {
    if lines == [] then [] else Cleaned(lines[..|lines| - 1]) + Utf8.Clean(lines[|lines| - 1])
  }

  lemma CleanedGrows(lines: seq<Bytes>, k: nat)
    requires k < |lines|
    ensures Cleaned(lines[..k + 1]) == Cleaned(lines[..k]) + Utf8.Clean(lines[k])
  {
    assert lines[..k + 1][..k] == lines[..k];
  }

  /** A beginning of a line's events spells a beginning of the line. */
  lemma WrittenText(before: seq<LogDelivery.LogEvent>, after: seq<LogDelivery.LogEvent>, n: nat, line: Bytes)
    requires Utf8.Valid(line) && before <= after <= before + LogDelivery.Pieces(n, line)
    ensures LogDelivery.Text(before) <= LogDelivery.Text(after) <= LogDelivery.Text(before) + line
    ensures after == before + LogDelivery.Pieces(n, line) ==>
              LogDelivery.Text(after) == LogDelivery.Text(before) + line
  {
    hide LogDelivery.Pieces, LogDelivery.Text;
    var pieces := LogDelivery.Pieces(n, line);
    SpelledPieces(n, line);
    TextOfBeginning(before, after);
    TextOfBeginning(after, before + pieces);
    LogDelivery.TextJoins(before, pieces);
  }

  lemma SpelledPieces(n: nat, line: Bytes)
    requires Utf8.Valid(line)
    ensures LogDelivery.Text(LogDelivery.Pieces(n, line)) == line
  {
    LogDelivery.PiecesSpell(n, line);
  }

  lemma TextOfBeginning(a: seq<LogDelivery.LogEvent>, b: seq<LogDelivery.LogEvent>)
    requires a <= b
    ensures LogDelivery.Text(a) <= LogDelivery.Text(b)
  {
    hide LogDelivery.Text;
    assert b == a + b[|a|..];
    LogDelivery.TextJoins(a, b[|a|..]);
  }

  /** One line, written by a sender that has room for an event. */
  method WriteLine(line: Bytes, sender: LogDelivery.LogSender) returns (err: Option<LogDelivery.Failure>)
    requires sender.Valid() && |sender.events| < LogDelivery.MAX_EVENTS
    modifies sender
    ensures sender.Valid() && old(sender.sent) <= sender.sent && sender.SentDecodable()
    ensures |sender.events| <= LogDelivery.MAX_EVENTS
    ensures var before := LogDelivery.Text(old(sender.All()));
            if err == None
            then |sender.events| < LogDelivery.MAX_EVENTS
                 && LogDelivery.Text(sender.All()) == before + Utf8.Clean(line)
            else before <= LogDelivery.Text(sender.All()) <= before + Utf8.Clean(line)
  {
    hide Utf8.Clean, LogDelivery.Decodable, LogDelivery.LogSender.Valid, LogDelivery.Text, LogDelivery.FitsBatch, LogDelivery.Pieces;
    ghost var events, n := sender.All(), sender.next;
    err := sender.Write(line);
    WrittenText(events, sender.All(), n, Utf8.Clean(line));
  }

  /** Hand everything a step's writer offers to the claim's sender, for a target whose verdicts are
      the sender's own. The writer stops at the first failure, so the sender, which starts the step
      with room for an event, never sees a write after a failed one. */
  method ReplayStep(t: Target, outputs: seq<Bytes>, sender: LogDelivery.LogSender) returns (agreed: bool)
    requires sender.Valid() && |sender.events| < LogDelivery.MAX_EVENTS
    modifies sender
    ensures sender.Valid() && old(sender.sent) <= sender.sent && sender.SentDecodable()
    ensures |sender.events| <= LogDelivery.MAX_EVENTS
    ensures agreed ==>
              var final := FeedAttempts(t, FRESH, outputs);
              var before := LogDelivery.Text(old(sender.All()));
              if final.err == Some(RedactingOutput.LogDelivery)
              then before <= LogDelivery.Text(sender.All()) <= before + Cleaned(final.offered)
              else |sender.events| < LogDelivery.MAX_EVENTS
                   && LogDelivery.Text(sender.All()) == before + Cleaned(final.offered)
  {
    assert Cleaned([]) == [];
    hide FeedAttempts, Utf8.Clean, LogDelivery.Decodable, LogDelivery.LogSender.Valid, LogDelivery.Text, Cleaned, Honest;
    var final := FeedAttempts(t, FRESH, outputs);
    assert Honest(t, final) by { FreshIsHonest(t); AttemptsAreHonest(t, FRESH, outputs); }
    var lines := final.offered;
    VerdictAt(t, final, 0);
    ghost var before := LogDelivery.Text(sender.All());
    for k := 0 to |lines|
      invariant sender.Valid() && old(sender.sent) <= sender.sent && sender.SentDecodable()
      invariant |sender.events| < LogDelivery.MAX_EVENTS
      invariant LogDelivery.Text(sender.All()) == before + Cleaned(lines[..k])
      invariant k == |lines| ==> final.err != Some(RedactingOutput.LogDelivery)
    {
      CleanedGrows(lines, k);
      Regrouped(before, Cleaned(lines[..k]), Utf8.Clean(lines[k]));
      VerdictAt(t, final, k);
      var err := WriteLine(lines[k], sender);
      if (err == None) != t.accepts(lines[..k], lines[k]) {
        return false;
      }
      if err != None {
        assert lines[..k + 1] == lines;
        LongerText(before, Cleaned(lines[..k]), Utf8.Clean(lines[k]), LogDelivery.Text(sender.All()));
        return true;
      }
    }
    assert lines[..|lines|] == lines;
    return true;
  }

  lemma FreshIsHonest(t: Target)
    ensures Honest(t, FRESH)
  {
  }

  /** Only the last line of a failed delivery was refused. */
  lemma VerdictAt(t: Target, s: State, k: nat)
    requires Honest(t, s)
    ensures k < |s.offered| ==>
              (t.accepts(s.offered[..k], s.offered[k]) <==>
               !(k == |s.offered| - 1 && s.err == Some(RedactingOutput.LogDelivery)))
    ensures s.offered == [] ==> s.err != Some(RedactingOutput.LogDelivery)
  {
  }

  lemma LongerText(before: Bytes, done: Bytes, line: Bytes, text: Bytes)
    requires before + done <= text <= before + done + line
    ensures before <= text <= before + (done + line)
  {
    Regrouped(before, done, line);
    assert before <= before + done;
  }

  datatype StepOutput = StepOutput(target: Target, outputs: seq<Bytes>)
  {
    function Final(): State {
      FeedAttempts(target, FRESH, outputs)
    }
  }

  /** The cleaned lines that the steps offer, in order. */
  function Spelled(steps: seq<StepOutput>): Bytes {
    if steps == [] then [] else Spelled(steps[..|steps| - 1]) + Cleaned(steps[|steps| - 1].Final().offered)
  }

  lemma SpelledGrows(steps: seq<StepOutput>, k: nat)
    requires k < |steps|
    ensures Spelled(steps[..k + 1]) == Spelled(steps[..k]) + Cleaned(steps[k].Final().offered)
  {
    assert steps[..k + 1][..k] == steps[..k];
  }

  /** All steps of a claim share its sender, and the first step whose log fails is the last of those
      that `ran`. The server can decode every batch, the final one included, and the events spell the
      output of the steps, up to where delivery failed. */
  method ReplayClaim(steps: seq<StepOutput>, sender: LogDelivery.LogSender) returns (agreed: bool, ran: nat)
    requires sender.Valid() && |sender.events| < LogDelivery.MAX_EVENTS
    modifies sender
    ensures sender.Valid() && old(sender.sent) <= sender.sent && sender.SentDecodable()
    ensures ran <= |steps| && forall i | 0 <= i < ran - 1 :: steps[i].Final().err == None
    ensures agreed && ran < |steps| ==> ran > 0 && steps[ran - 1].Final().err.Some?
    ensures agreed ==>
              var before, now := LogDelivery.Text(old(sender.All())), LogDelivery.Text(sender.All());
              if ran > 0 && steps[ran - 1].Final().err == Some(RedactingOutput.LogDelivery)
              then before + Spelled(steps[..ran - 1]) <= now <= before + Spelled(steps[..ran])
              else now == before + Spelled(steps[..ran])
  {
    hide LogDelivery.Decodable, LogDelivery.LogSender.Valid, LogDelivery.Text, Cleaned, StepOutput.Final;
    agreed, ran := true, 0;
    var running := true;
    ghost var before := LogDelivery.Text(sender.All());
    assert before + Spelled(steps[..0]) == before;
    while ran < |steps| && running
      invariant sender.Valid() && old(sender.sent) <= sender.sent && sender.SentDecodable()
      invariant |sender.events| <= LogDelivery.MAX_EVENTS
      invariant ran <= |steps| && forall i | 0 <= i < ran - 1 :: steps[i].Final().err == None
      invariant running ==>
                  agreed && |sender.events| < LogDelivery.MAX_EVENTS && (ran > 0 ==> steps[ran - 1].Final().err == None)
      invariant agreed && !running ==> ran > 0 && steps[ran - 1].Final().err.Some?
      invariant agreed ==>
                  if ran > 0 && steps[ran - 1].Final().err == Some(RedactingOutput.LogDelivery)
                  then before + Spelled(steps[..ran - 1]) <= LogDelivery.Text(sender.All()) <= before + Spelled(steps[..ran])
                  else LogDelivery.Text(sender.All()) == before + Spelled(steps[..ran])
    {
      var step := steps[ran];
      SpelledGrows(steps, ran);
      Regrouped(before, Spelled(steps[..ran]), Cleaned(step.Final().offered));
      FinalIs(step);
      agreed := ReplayStep(step.target, step.outputs, sender);
      running := agreed && step.Final().err.None?;
      ran := ran + 1;
    }
    var err := sender.Flush();
  }

  lemma FinalIs(step: StepOutput)
    ensures step.Final() == FeedAttempts(step.target, FRESH, step.outputs)
  {
  }
}
