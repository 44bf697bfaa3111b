/** The agent's side of log delivery: lines are cut into numbered events, events are sent in
    batches the server's decoder accepts. */
module LogDelivery {
  import opened Options
  import opened Utf8

  const MAX_LINE_BYTES := 16 * 1024

  const MAX_EVENTS := 100

  const MAX_BATCH_BYTES := 256 * 1024

  datatype LogEvent = LogEvent(sequence: nat, line: Bytes)

  datatype Failure = UploadFailed | BatchTooLarge

  function Digits(n: nat): nat {
    if n < 10 then 1 else 1 + Digits(n / 10)
  }

  /** `{"sequence":N,"line":"..."}` */
  function EventLength(e: LogEvent): nat {
    23 + Digits(e.sequence) + EscapedLength(e.line)
  }

  /** The events with a comma between them. */
  function EventsLength(events: seq<LogEvent>): nat {
    if events == [] then 0
    else
      EventsLength(events[..|events| - 1]) + (if |events| > 1 then 1 else 0)
      + EventLength(events[|events| - 1])
  }

  lemma EventsLengthGrows(events: seq<LogEvent>, e: LogEvent)
    ensures EventsLength(events + [e]) ==
            EventsLength(events) + (if events == [] then 0 else 1) + EventLength(e)
  {
    assert (events + [e])[..|events|] == events;
  }

  /** What the server's `DecodeLogBatch` checks. `envelope` is the encoded length of the rest. */
  predicate Decodable(events: seq<LogEvent>, envelope: nat) {
    && envelope + EventsLength(events) <= MAX_BATCH_BYTES
    && |events| <= MAX_EVENTS
    && forall e | e in events :: |e.line| <= MAX_LINE_BYTES
  }

  predicate Numbered(events: seq<LogEvent>) {
    forall i | 0 <= i < |events| :: events[i].sequence == i + 1
  }

  function Text(events: seq<LogEvent>): Bytes {
    if events == [] then [] else Text(events[..|events| - 1]) + events[|events| - 1].line
  }

  lemma TextGrows(events: seq<LogEvent>, e: LogEvent)
    ensures Text(events + [e]) == Text(events) + e.line
  {
    assert (events + [e])[..|events|] == events;
  }

  /** The last position at or before `k` where a code point starts. */
  function StartAtMost(line: Bytes, k: nat): (j: nat)
    requires k < |line|
    ensures j <= k && (j == 0 || RuneStart(line[j]))
    ensures forall m | j < m <= k :: !RuneStart(line[m])
  {
    if k == 0 || RuneStart(line[k]) then k else StartAtMost(line, k - 1)
  }

  /** Where a line is cut: at the limit, or before the code point that crosses it. */
  function CutLength(line: Bytes): nat {
    if |line| <= MAX_LINE_BYTES then |line| else StartAtMost(line, MAX_LINE_BYTES)
  }

  /** A cut damages no code point, and leaves at most three bytes of the limit unused. */
  lemma CutIsSafe(line: Bytes)
    requires Utf8.Valid(line)
    ensures CutLength(line) <= |line| && CutLength(line) <= MAX_LINE_BYTES
    ensures Utf8.Valid(line[..CutLength(line)]) && Utf8.Valid(line[CutLength(line)..])
    ensures CutLength(line) == |line| || CutLength(line) > MAX_LINE_BYTES - 4
  {
    if |line| > MAX_LINE_BYTES {
      var start := StartNearby(line, MAX_LINE_BYTES);
      assert start <= CutLength(line);
    }
    CutAtRuneStart(line, CutLength(line));
  }

  /** The events a line becomes, numbered from `n`. */
  function Pieces(n: nat, line: Bytes): seq<LogEvent>
    requires Utf8.Valid(line)
    decreases |line|
  {
    CutIsSafe(line);
    var cut := CutLength(line);
    [LogEvent(n, line[..cut])] + if cut == |line| then [] else Pieces(n + 1, line[cut..])
  }

  lemma PiecesUnfold(n: nat, line: Bytes)
    requires Utf8.Valid(line)
    ensures var cut := CutLength(line);
            && cut <= |line| && Utf8.Valid(line[cut..])
            && Pieces(n, line) == [LogEvent(n, line[..cut])] + if cut == |line| then [] else Pieces(n + 1, line[cut..])
  {
    CutIsSafe(line);
  }

  lemma {:induction false} PiecesSpell(n: nat, line: Bytes)
    requires Utf8.Valid(line)
    ensures Text(Pieces(n, line)) == line
    ensures forall i | 0 <= i < |Pieces(n, line)| ::
              var e := Pieces(n, line)[i];
              e.sequence == n + i && Utf8.Valid(e.line) && |e.line| <= MAX_LINE_BYTES
    decreases |line|
  {
    hide Text, Utf8.Valid, CutLength;
    CutIsSafe(line);
    var cut := CutLength(line);
    var first := LogEvent(n, line[..cut]);
    LoneText(first);
    if cut != |line| {
      PiecesSpell(n + 1, line[cut..]);
      TextJoins([first], Pieces(n + 1, line[cut..]));
      assert line == line[..cut] + line[cut..];
    } else {
      assert Pieces(n, line) == [first] && line[..cut] == line;
    }
  }

  lemma LoneText(e: LogEvent)
    ensures Text([e]) == e.line
  {
    assert [] + [e] == [e];
    TextGrows([], e);
  }

  lemma {:induction false} TextJoins(a: seq<LogEvent>, b: seq<LogEvent>)
    ensures Text(a + b) == Text(a) + Text(b)
    decreases |b|
  {
    if b == [] {
      assert a + b == a;
    } else {
      hide Text;
      var init, last := b[..|b| - 1], b[|b| - 1];
      assert b == init + [last] && a + b == a + init + [last];
      TextJoins(a, init);
      TextGrows(a + init, last);
      TextGrows(init, last);
    }
  }

  /** The event still fits the bytes of the pending batch. */
  predicate FitsBatch(pending: seq<LogEvent>, e: LogEvent, envelope: nat) {
    envelope + EventsLength(pending + [e]) <= MAX_BATCH_BYTES
  }

  /** The pending state from which writing `e` sends only what the server can decode. */
  predicate Sendable(pending: seq<LogEvent>, e: LogEvent, envelope: nat) {
    |pending| < MAX_EVENTS || (|pending| == MAX_EVENTS && !FitsBatch(pending, e, envelope))
  }

  lemma EventLengthBound(e: LogEvent)
    requires |e.line| <= MAX_LINE_BYTES
    ensures EventsLength([e]) == EventLength(e) <= 23 + Digits(e.sequence) + 6 * MAX_LINE_BYTES
  {
    SixBytesSuffice(e.line);
    EventsLengthGrows([], e);
    assert [] + [e] == [e];
  }

  class LogSender {
    const envelope: nat
    /** Whether the upload with this number is acknowledged. */
    const network: nat -> bool
    var next: nat
    var events: seq<LogEvent>
    /** What the server has acknowledged. */
    ghost var acknowledged: seq<LogEvent>
    /** Every batch that was put on the wire. */
    var sent: seq<seq<LogEvent>>

    constructor (envelope: nat, network: nat -> bool)
      ensures Valid() && this.envelope == envelope && this.network == network
      ensures next == 1 && events == [] && acknowledged == [] && sent == []
    {
      this.envelope, this.network, next, events := envelope, network, 1, [];
      acknowledged, sent := [], [];
    }

    ghost function All(): seq<LogEvent>
      reads this
    {
      acknowledged + events
    }

    ghost predicate Valid()
      reads this
    {
      && Numbered(All()) && next == |All()| + 1
      && (forall e | e in All() :: Utf8.Valid(e.line) && |e.line| <= MAX_LINE_BYTES)
      && (events != [] ==> envelope + EventsLength(events) <= MAX_BATCH_BYTES)
    }

    /** Events are never lost, renumbered or reordered, and leave only when acknowledged. */
    twostate predicate Kept()
      reads this
    {
      && old(acknowledged) <= acknowledged && old(All()) <= All() && old(sent) <= sent
      && ((forall k | |old(sent)| <= k < |sent| :: !network(k)) ==> acknowledged == old(acknowledged))
    }

    /** The server can decode every batch sent since. */
    twostate predicate SentDecodable()
      reads this
    {
      forall i | |old(sent)| <= i < |sent| :: Decodable(sent[i], envelope)
    }

    /** Upload all pending events. Without a reply they stay pending. */
    method FlushLocked() returns (err: Option<Failure>)
      requires Valid()
      modifies this`events, this`acknowledged, this`sent
      ensures Valid() && Kept() && All() == old(All())
      ensures sent == old(sent) + if old(events) == [] then [] else [old(events)]
      ensures err == if old(events) == [] || network(|old(sent)|) then None else Some(UploadFailed)
      ensures if err == None then events == [] && acknowledged == All() else events == old(events)
    {
      if |events| == 0 {
        return None;
      }
      var delivered := network(|sent|);
      sent := sent + [events];
      if !delivered {
        return Some(UploadFailed);
      }
      acknowledged, events := acknowledged + events, [];
      return None;
    }

    /** The longest piece of at most the limit that ends between code points. */
    method PieceLength(line: Bytes) returns (length: nat)
      requires Utf8.Valid(line)
      ensures length == CutLength(line) <= |line| && length <= MAX_LINE_BYTES
      ensures Utf8.Valid(line[..length]) && Utf8.Valid(line[length..])
      ensures length == |line| || length > MAX_LINE_BYTES - 4
    {
      CutIsSafe(line);
      length := if |line| <= MAX_LINE_BYTES then |line| else MAX_LINE_BYTES;
      if length < |line| {
        while !RuneStart(line[length])
          invariant length <= MAX_LINE_BYTES && CutLength(line) == StartAtMost(line, length)
          decreases length
        {
          assert length > 0 by { assert CutLength(line) <= length; }
          length := length - 1;
        }
      }
    }

    /** Add one event, sending what is pending when it would not fit. */
    method Append(piece: Bytes) returns (err: Option<Failure>)
      requires Valid() && Utf8.Valid(piece) && |piece| <= MAX_LINE_BYTES
      modifies this`next, this`events, this`acknowledged, this`sent
      ensures Valid() && Kept()
      ensures var e := LogEvent(old(next), piece);
              && All() == old(All()) + (if err == None then [e] else [])
              && (if FitsBatch(old(events), e, envelope)
                  then err == None && events == old(events) + [e] && sent == old(sent)
                  else (err == None ==> events == [e])
                       && sent == old(sent) + if old(events) == [] then [] else [old(events)])
      ensures err == Some(UploadFailed) ==> events == old(events)
      ensures err == Some(BatchTooLarge) ==>
                events == [] && envelope + 23 + Digits(next) + 6 * MAX_LINE_BYTES > MAX_BATCH_BYTES
    {
      hide EventsLength, EventLength, Utf8.Valid;
      ghost var before := All();
      var event := LogEvent(next, piece);
      EventLengthBound(event);
      var batch := events + [event];
      if envelope + EventsLength(batch) > MAX_BATCH_BYTES {
        err := FlushLocked();
        if err != None {
          return;
        }
        batch := [event];
        if envelope + EventsLength(batch) > MAX_BATCH_BYTES {
          return Some(BatchTooLarge);
        }
      }
      events := batch;
      next := next + 1;
      assert All() == before + [event];
      return None;
    }

    /** One round of the loop: add an event, and send a batch that is full. */
    method WritePiece(piece: Bytes) returns (err: Option<Failure>)
      requires Valid() && Utf8.Valid(piece) && |piece| <= MAX_LINE_BYTES
      modifies this
      ensures Valid() && Kept()
      ensures var e := LogEvent(old(next), piece);
              && (All() == old(All()) + [e] || (err != None && All() == old(All())))
              && (FitsBatch(old(events), e, envelope) ==> All() == old(All()) + [e])
              && (SentDecodable() <==> Sendable(old(events), e, envelope))
      ensures err == None ==> |events| < MAX_EVENTS && next == old(next) + 1
      ensures |old(events)| < MAX_EVENTS ==> |events| <= MAX_EVENTS
      ensures err == Some(BatchTooLarge) ==>
                envelope + 23 + Digits(next) + 6 * MAX_LINE_BYTES > MAX_BATCH_BYTES
    {
      hide Utf8.Valid, EventsLength, FitsBatch, Decodable;
      PendingIsDecodable();
      err := Append(piece);
      PendingIsDecodable();
      if err == None && |events| >= MAX_EVENTS {
        err := FlushLocked();
      }
      assert |sent| <= |old(sent)| + 1;
      assert |sent| > |old(sent)| ==>
               (Decodable(sent[|old(sent)|], envelope) <==> |sent[|old(sent)|]| <= MAX_EVENTS);
    }

    lemma PendingIsDecodable()
      requires Valid()
      ensures events != [] ==> (Decodable(events, envelope) <==> |events| <= MAX_EVENTS)
    {
      forall e | e in events
        ensures |e.line| <= MAX_LINE_BYTES
      {
        assert e in All();
      }
    }

    /** Cut a line into events. */
    method Write(line: Bytes) returns (err: Option<Failure>)
      requires Valid()
      modifies this
      ensures Valid() && Kept() && Utf8.Valid(Clean(line))
      // The cleaned line becomes its pieces, or on failure a beginning of them.
      ensures var pieces := Pieces(old(next), Clean(line));
              && All() <= old(All()) + pieces
              && (err == None ==> All() == old(All()) + pieces)
              && (FitsBatch(old(events), pieces[0], envelope) ==> |All()| > |old(All())|)
              && (SentDecodable() <==> Sendable(old(events), pieces[0], envelope))
      ensures err == None ==> |events| < MAX_EVENTS
      ensures |old(events)| < MAX_EVENTS ==> |events| <= MAX_EVENTS
      ensures err == Some(BatchTooLarge) ==>
                envelope + 23 + Digits(next) + 6 * MAX_LINE_BYTES > MAX_BATCH_BYTES
    {
      hide Utf8.Valid, Clean, Decodable, FitsBatch, Valid, Pieces, CutLength;
      var rest := Clean(line);
      CleanIsValid(line);
      ghost var pieces, first := Pieces(next, rest), true;
      while true
        invariant Utf8.Valid(rest) && Valid() && Kept()
        invariant All() + Pieces(next, rest) == old(All()) + pieces
        invariant first ==> Pieces(next, rest) == pieces && events == old(events) && sent == old(sent)
                            && next == old(next) && All() == old(All())
        invariant !first ==> |events| < MAX_EVENTS && |All()| > |old(All())|
                             && (SentDecodable() <==> Sendable(old(events), pieces[0], envelope))
        decreases |rest|
      {
        PiecesUnfold(next, rest);
        var length := PieceLength(rest);
        ghost var before, event, later := All(), Pieces(next, rest)[..1], Pieces(next, rest)[1..];
        assert before + Pieces(next, rest) == before + event + later;
        err := WritePiece(rest[..length]);
        if err != None {
          return;
        }
        first := false;
        rest := rest[length..];
        if rest == [] {
          return None;
        }
      }
    }

    /** Upload what is left. */
    method Flush() returns (err: Option<Failure>)
      requires Valid()
      modifies this`events, this`acknowledged, this`sent
      ensures Valid() && Kept() && All() == old(All())
      ensures err == None ==> events == [] && acknowledged == All()
      ensures SentDecodable() <==> |old(events)| <= MAX_EVENTS
    {
      PendingIsDecodable();
      err := FlushLocked();
      assert |sent| > |old(sent)| ==> sent[|old(sent)|] == old(events);
    }
  }

  function EmptyLines(n: nat): (events: seq<LogEvent>)
    ensures |events| == n
  {
    if n == 0 then [] else EmptyLines(n - 1) + [LogEvent(n, [])]
  }

  lemma {:induction false} EmptyLinesAreShort(n: nat)
    requires n <= MAX_EVENTS + 1
    ensures EventsLength(EmptyLines(n)) <= 27 * n && Numbered(EmptyLines(n))
    ensures forall e | e in EmptyLines(n) :: Utf8.Valid(e.line) && |e.line| <= MAX_LINE_BYTES
  {
    if n > 0 {
      EmptyLinesAreShort(n - 1);
      EventsLengthGrows(EmptyLines(n - 1), LogEvent(n, []));
      ThreeDigits(n);
      hide Digits, EventsLength;
    }
  }

  lemma ThreeDigits(n: nat)
    requires n < 1000
    ensures Digits(n) <= 3
  {
    assert n / 10 < 100 && n / 10 / 10 < 10;
    assert Digits(n / 10 / 10) == 1;
    assert Digits(n / 10) <= 2;
  }

  lemma EmptyPiece()
    ensures Clean([]) == [] && Utf8.Valid([]) && forall n :: Pieces(n, []) == [LogEvent(n, [])]
  {
  }

  lemma OneMoreEmptyLine(i: nat, envelope: nat)
    requires i <= MAX_EVENTS && envelope <= 1000
    ensures EmptyLines(i + 1) == EmptyLines(i) + [LogEvent(i + 1, [])]
    ensures FitsBatch(EmptyLines(i), LogEvent(i + 1, []), envelope)
  {
    EmptyLinesAreShort(i + 1);
  }

  /** What the event limit rests on is that nothing is written after a failed write. Without a reply
      from the server a hundred empty lines stay pending, and the next one is sent along with them. */
  method WriteAfterFailureOverflows(envelope: nat) returns (sender: LogSender)
    requires envelope <= 1000
    ensures fresh(sender) && sender.Valid() && sender.All() == EmptyLines(MAX_EVENTS + 1)
    ensures exists batch :: batch in sender.sent && !Decodable(batch, envelope)
  {
    hide Decodable, EventsLength, Pieces, Clean, FitsBatch, EmptyLines, Utf8.Valid, Digits;
    var silent: nat -> bool := _ => false;
    sender := new LogSender(envelope, silent);
    EmptyPiece();
    for i := 0 to MAX_EVENTS + 1
      invariant fresh(sender) && sender.Valid() && sender.envelope == envelope
      invariant forall k: nat :: !sender.network(k)
      invariant sender.acknowledged == [] && sender.events == EmptyLines(i) && sender.next == i + 1
      invariant i == MAX_EVENTS + 1 ==> exists batch :: batch in sender.sent && !Decodable(batch, envelope)
    {
      OneMoreEmptyLine(i, envelope);
      ghost var before := sender.sent;
      var err := sender.Write([]);
      assert sender.acknowledged == [];
      assert sender.events == sender.All();
      if i == MAX_EVENTS {
        ghost var k :| |before| <= k < |sender.sent| && !Decodable(sender.sent[k], envelope);
        assert sender.sent[k] in sender.sent;
      }
    }
  }
}
