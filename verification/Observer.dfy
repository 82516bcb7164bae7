/** Pipeline frames to transcript turns.

  The observer is called once per pipeline hop, so one frame arrives several times.  It
  remembers only the highest frame id it has accepted; the set of all ids seen is the
  reference it has to agree with.
*/
module Observer {
  import opened Text

  datatype Kind = Transcription(text: string) | TtsText(text: string) | BotStopped | OtherFrame
  datatype Hop = Hop(id: Option<nat>, kind: Kind, now: int)

  datatype Speaker = Candidate | Interviewer
  datatype Turn = Turn(ordinal: int, speaker: Speaker, content: string, started: int, ended: int, question: int)

  /** The observer's fields; `turns` are the events it has published. */
  datatype Obs = Obs(
    t0: int,
    ordinal: int,
    parts: seq<string>,
    botStarted: Option<int>,
    question: int,
    lastId: int,
    turns: seq<Turn>)

  function Max(a: int, b: int): int {
    if a < b then b else a
  }

  function Offset(o: Obs, now: int): int {
    Max(0, now - o.t0)
  }

  function Emitted(o: Obs, speaker: Speaker, content: string, started: int, ended: int): Obs {
    var text := Strip(content);
    if text == "" then o else
      o.(turns := o.turns + [Turn(o.ordinal, speaker, text, started, Max(ended, started), o.question)],
         ordinal := o.ordinal + 1)
  }

  function Flushed(o: Obs, now: int): Obs {
    if o.parts == [] then o else
      var started := if o.botStarted.Some? then o.botStarted.value else Offset(o, now);
      var o' := Emitted(o.(parts := [], botStarted := None), Interviewer, Concat(o.parts), started, Offset(o, now));
      o'.(question := o'.question + 1)
  }

  /** One accepted frame. */
  function Handled(o: Obs, hop: Hop): Obs {
    match hop.kind
    case Transcription(text) => Emitted(o, Candidate, text, Offset(o, hop.now), Offset(o, hop.now))
    case TtsText(text) =>
      o.(parts := o.parts + [text],
         botStarted := if o.botStarted.None? then Some(Offset(o, hop.now)) else o.botStarted)
    case BotStopped => Flushed(o, hop.now)
    case OtherFrame => o
  }

  predicate FirstSight(lastId: int, hop: Hop) {
    hop.id.None? || lastId < hop.id.value
  }

  function Pushed(o: Obs, hop: Hop): Obs {
    if !FirstSight(o.lastId, hop) then o
    else Handled(if hop.id.Some? then o.(lastId := hop.id.value) else o, hop)
  }

  class TranscriptObserver {
    const t0: int
    var ordinal: int
    var botParts: seq<string>
    var botStarted: Option<int>
    var questionOrdinal: int
    var lastFrameId: int
    var published: seq<Turn>

    ghost function View(): Obs
      reads this
    {
      Obs(t0, ordinal, botParts, botStarted, questionOrdinal, lastFrameId, published)
    }

    constructor (startOrdinal: int, startedAt: int)
      ensures View() == Obs(startedAt, startOrdinal, [], None, 0, -1, [])
    {
      t0, ordinal, botParts, botStarted := startedAt, startOrdinal, [], None;
      questionOrdinal, lastFrameId, published := 0, -1, [];
    }

    method Emit(speaker: Speaker, content: string, started: int, ended: int)
      modifies this`ordinal, this`published
      ensures View() == Emitted(old(View()), speaker, content, started, ended)
    {
      var text := Strip(content);
      if text == "" {
        return;
      }
      published := published + [Turn(ordinal, speaker, text, started, Max(ended, started), questionOrdinal)];
      ordinal := ordinal + 1;
    }

    method FirstSighting(hop: Hop) returns (first: bool)
      modifies this`lastFrameId
      ensures first <==> FirstSight(old(lastFrameId), hop)
      ensures lastFrameId == if first && hop.id.Some? then hop.id.value else old(lastFrameId)
    {
      if hop.id.None? {
        return true;
      }
      if hop.id.value <= lastFrameId {
        return false;
      }
      lastFrameId := hop.id.value;
      return true;
    }

    method OnPushFrame(hop: Hop)
      modifies this
      ensures View() == Pushed(old(View()), hop)
    {
      var first := FirstSighting(hop);
      if !first {
        return;
      }
      var now := Max(0, hop.now - t0);
      match hop.kind
      case Transcription(text) =>
        Emit(Candidate, text, now, now);
      case TtsText(text) =>
        if botStarted.None? {
          botStarted := Some(now);
        }
        botParts := botParts + [text];
      case BotStopped =>
        FlushBotTurn(hop.now);
      case OtherFrame =>
    }

    method FlushBotTurn(now: int)
      modifies this
      ensures View() == Flushed(old(View()), now)
    {
      if botParts == [] {
        return;
      }
      var content := Concat(botParts);
      var started := if botStarted.Some? then botStarted.value else Max(0, now - t0);
      botParts, botStarted := [], None;
      ghost var cleared := View();
      Emit(Interviewer, content, started, Max(0, now - t0));
      assert View() == Emitted(cleared, Interviewer, content, started, Max(0, now - t0));
      questionOrdinal := questionOrdinal + 1;
    }
  }

  // ---------------------------------------------------------------------------
  // The watermark and the seen-set
  // ---------------------------------------------------------------------------

  /** What the watermark lets through. */
  function Accepted(hops: seq<Hop>, lastId: int): seq<Hop> {
    if hops == [] then []
    else if !FirstSight(lastId, hops[0]) then Accepted(hops[1..], lastId)
    else [hops[0]] + Accepted(hops[1..], if hops[0].id.Some? then hops[0].id.value else lastId)
  }

  /** What remembering every id lets through. */
  function FirstPushes(hops: seq<Hop>, seen: set<nat>): seq<Hop> {
    if hops == [] then []
    else if hops[0].id.None? then [hops[0]] + FirstPushes(hops[1..], seen)
    else if hops[0].id.value in seen then FirstPushes(hops[1..], seen)
    else [hops[0]] + FirstPushes(hops[1..], seen + {hops[0].id.value})
  }

  predicate Increasing(hops: seq<Hop>, above: int) {
    hops == [] ||
    if hops[0].id.None? then Increasing(hops[1..], above)
    else above < hops[0].id.value && Increasing(hops[1..], hops[0].id.value)
  }

  lemma {:induction false} AcceptedIncrease(hops: seq<Hop>, lastId: int)
    ensures Increasing(Accepted(hops, lastId), lastId)
  {
    if hops != [] {
      AcceptedIncrease(hops[1..], if FirstSight(lastId, hops[0]) && hops[0].id.Some? then hops[0].id.value else lastId);
    }
  }

  lemma {:induction false} WatermarkMatches(hops: seq<Hop>, lastId: int, seen: set<nat>)
    requires forall x :: x in seen ==> x <= lastId
    requires Increasing(FirstPushes(hops, seen), lastId)
    ensures Accepted(hops, lastId) == FirstPushes(hops, seen)
  {
    if hops != [] {
      var h := hops[0];
      if h.id.None? || h.id.value in seen {
        WatermarkMatches(hops[1..], lastId, seen);
      } else {
        WatermarkMatches(hops[1..], h.id.value, seen + {h.id.value});
      }
    }
  }

  /** The watermark is the seen-set exactly when frames are first pushed in id order. */
  lemma WatermarkIsSeenSet(hops: seq<Hop>)
    ensures Accepted(hops, -1) == FirstPushes(hops, {}) <==> Increasing(FirstPushes(hops, {}), -1)
  {
    AcceptedIncrease(hops, -1);
    if Increasing(FirstPushes(hops, {}), -1) {
      WatermarkMatches(hops, -1, {});
    }
  }

  // ---------------------------------------------------------------------------
  // The transcript of a whole session
  // ---------------------------------------------------------------------------

  function Observed(o: Obs, hops: seq<Hop>): Obs
    decreases |hops|
  {
    if hops == [] then o else Observed(Pushed(o, hops[0]), hops[1..])
  }

  datatype Line = Line(speaker: Speaker, content: string, question: int, started: int, ended: int)

  function LinesOf(turns: seq<Turn>): seq<Line> {
    seq(|turns|, i requires 0 <= i < |turns| =>
      Line(turns[i].speaker, turns[i].content, turns[i].question, turns[i].started, turns[i].ended))
  }

  function LineOf(speaker: Speaker, content: string, question: int, started: int, ended: int): seq<Line> {
    if Strip(content) == "" then [] else [Line(speaker, Strip(content), question, started, ended)]
  }

  /** A fragment of the bot's and when it came. */
  datatype Said = Said(text: string, at: int)

  function Texts(said: seq<Said>): seq<string> {
    seq(|said|, i requires 0 <= i < |said| => said[i].text)
  }

  /** Time since the session began; a frame stamped before that counts as its beginning. */
  function Elapsed(t0: int, now: int): int {
    if now < t0 then 0 else now - t0
  }

  /** A reply: from its first fragment to the stop, unless that is stamped before the fragment. */
  function ReplyLine(said: seq<Said>, question: int, stopped: int): seq<Line> {
    if said == [] then []
    else LineOf(Interviewer, Concat(Texts(said)), question, said[0].at, if stopped < said[0].at then said[0].at else stopped)
  }

  /** The bot's fragments, grouped by the stop that ends each reply; the last group is the final flush. */
  function Replies(hops: seq<Hop>, pending: seq<string>): seq<seq<string>> {
    if hops == [] then [pending]
    else match hops[0].kind
      case TtsText(text) => Replies(hops[1..], pending + [text])
      case BotStopped => [pending] + Replies(hops[1..], [])
      case _ => Replies(hops[1..], pending)
  }

  function Fragments(hops: seq<Hop>): seq<string> {
    if hops == [] then []
    else if hops[0].kind.TtsText? then [hops[0].kind.text] + Fragments(hops[1..])
    else Fragments(hops[1..])
  }

  lemma FlattenCons<T>(first: seq<T>, rest: seq<seq<T>>)
    ensures Flatten([first] + rest) == first + Flatten(rest)
  {
    assert ([first] + rest)[1..] == rest;
  }

  /** Every fragment is in exactly one reply, and in order. */
  lemma {:induction false} RepliesKeepFragments(hops: seq<Hop>, pending: seq<string>)
    ensures Flatten(Replies(hops, pending)) == pending + Fragments(hops)
  {
    if hops == [] {
      FlattenCons(pending, []);
    } else {
      var rest := hops[1..];
      match hops[0].kind
      case TtsText(text) =>
        RepliesKeepFragments(rest, pending + [text]);
        assert pending + ([text] + Fragments(rest)) == (pending + [text]) + Fragments(rest);
      case BotStopped =>
        RepliesKeepFragments(rest, []);
        FlattenCons(pending, Replies(rest, []));
        assert [] + Fragments(rest) == Fragments(rest);
      case Transcription(_) =>
        RepliesKeepFragments(rest, pending);
      case OtherFrame =>
        RepliesKeepFragments(rest, pending);
    }
  }

  /** What a reader should see: each utterance when it comes, each reply from its first fragment to its stop; what is still
      pending at the end is flushed at `last`. */
  function Transcript(hops: seq<Hop>, pending: seq<Said>, question: int, t0: int, last: int): seq<Line> {
    if hops == [] then ReplyLine(pending, question, Elapsed(t0, last))
    else
      var at := Elapsed(t0, hops[0].now);
      match hops[0].kind
      case Transcription(text) => LineOf(Candidate, text, question, at, at) + Transcript(hops[1..], pending, question, t0, last)
      case TtsText(text) => Transcript(hops[1..], pending + [Said(text, at)], question, t0, last)
      case BotStopped =>
        ReplyLine(pending, question, at) +
        Transcript(hops[1..], [], if pending == [] then question else question + 1, t0, last)
      case OtherFrame => Transcript(hops[1..], pending, question, t0, last)
  }

  /** The observer holds these fragments, the first of which set its start. */
  ghost predicate Holds(o: Obs, pending: seq<Said>) {
    o.parts == Texts(pending) && o.botStarted == if pending == [] then None else Some(pending[0].at)
  }

  function SaidBy(lines: seq<Line>, speaker: Speaker): seq<string> {
    if lines == [] then []
    else (if lines[0].speaker == speaker then [lines[0].content] else []) + SaidBy(lines[1..], speaker)
  }

  /** The trimmed texts that are not blank. */
  function Trimmed(texts: seq<string>): seq<string> {
    if texts == [] then []
    else (if Strip(texts[0]) == "" then [] else [Strip(texts[0])]) + Trimmed(texts[1..])
  }

  function ConcatEach(groups: seq<seq<string>>): seq<string> {
    seq(|groups|, i requires 0 <= i < |groups| => Concat(groups[i]))
  }

  lemma {:induction false} SaidByAppend(a: seq<Line>, b: seq<Line>, speaker: Speaker)
    ensures SaidBy(a + b, speaker) == SaidBy(a, speaker) + SaidBy(b, speaker)
  {
    if a == [] {
      assert a + b == b;
    } else {
      assert (a + b)[1..] == a[1..] + b;
      SaidByAppend(a[1..], b, speaker);
    }
  }

  lemma TrimmedCons(text: string, rest: seq<string>)
    ensures Trimmed([text] + rest) == (if Strip(text) == "" then [] else [Strip(text)]) + Trimmed(rest)
  {
    assert ([text] + rest)[1..] == rest;
  }

  lemma SaidByReply(said: seq<Said>, question: int, stopped: int)
    ensures SaidBy(ReplyLine(said, question, stopped), Interviewer)
         == if Strip(Concat(Texts(said))) == "" then [] else [Strip(Concat(Texts(said)))]
  {
    var lines := ReplyLine(said, question, stopped);
    assert lines != [] ==> lines[1..] == [];
    if said == [] {
      StripOfWord("");
    }
  }

  lemma ReplyTrimmed(said: seq<Said>, rest: seq<seq<string>>, question: int, stopped: int)
    ensures Trimmed(ConcatEach([Texts(said)] + rest))
         == SaidBy(ReplyLine(said, question, stopped), Interviewer) + Trimmed(ConcatEach(rest))
  {
    hide Trimmed, SaidBy, ReplyLine, Concat, Strip, Texts;
    assert ConcatEach([Texts(said)] + rest) == [Concat(Texts(said))] + ConcatEach(rest);
    TrimmedCons(Concat(Texts(said)), ConcatEach(rest));
    SaidByReply(said, question, stopped);
  }

  lemma NotSaidByCandidate(content: string, question: int, at: int)
    ensures SaidBy(LineOf(Candidate, content, question, at, at), Interviewer) == []
  {
    var lines := LineOf(Candidate, content, question, at, at);
    assert lines != [] ==> lines[1..] == [];
  }

  /** The interviewer's lines are the replies, trimmed; blank ones leave no line. */
  lemma {:induction false} InterviewerLinesAreReplies(hops: seq<Hop>, pending: seq<Said>, question: int, t0: int, last: int)
    ensures SaidBy(Transcript(hops, pending, question, t0, last), Interviewer) == Trimmed(ConcatEach(Replies(hops, Texts(pending))))
  {
    hide Trimmed, SaidBy, ReplyLine, LineOf, Concat, Strip;
    if hops == [] {
      ReplyTrimmed(pending, [], question, Elapsed(t0, last));
      assert [Texts(pending)] + [] == [Texts(pending)];
      NothingTrimmed();
    } else {
      var at, rest := Elapsed(t0, hops[0].now), hops[1..];
      match hops[0].kind
      case Transcription(text) =>
        InterviewerLinesAreReplies(rest, pending, question, t0, last);
        SaidByAppend(LineOf(Candidate, text, question, at, at), Transcript(rest, pending, question, t0, last), Interviewer);
        NotSaidByCandidate(text, question, at);
      case TtsText(text) =>
        InterviewerLinesAreReplies(rest, pending + [Said(text, at)], question, t0, last);
        assert Texts(pending + [Said(text, at)]) == Texts(pending) + [text];
      case BotStopped =>
        var question' := if pending == [] then question else question + 1;
        InterviewerLinesAreReplies(rest, [], question', t0, last);
        assert Texts([]) == [];
        SaidByAppend(ReplyLine(pending, question, at), Transcript(rest, [], question', t0, last), Interviewer);
        ReplyTrimmed(pending, Replies(rest, []), question, at);
      case OtherFrame =>
        InterviewerLinesAreReplies(rest, pending, question, t0, last);
    }
  }

  lemma NothingTrimmed()
    ensures Trimmed(ConcatEach([])) == []
  {
  }

  lemma LinesOfEmitted(o: Obs, speaker: Speaker, content: string, started: int, ended: int)
    ensures LinesOf(Emitted(o, speaker, content, started, ended).turns)
         == LinesOf(o.turns) + LineOf(speaker, content, o.question, started, Max(ended, started))
  {
  }

  lemma LinesOfFlushed(o: Obs, pending: seq<Said>, now: int)
    requires Holds(o, pending)
    ensures LinesOf(Flushed(o, now).turns) == LinesOf(o.turns) + ReplyLine(pending, o.question, Elapsed(o.t0, now))
  {
    if pending != [] {
      LinesOfEmitted(o.(parts := [], botStarted := None), Interviewer, Concat(o.parts), pending[0].at, Offset(o, now));
    }
  }

  lemma SpokenLines(o: Obs, pending: seq<Said>, hop: Hop, rest: seq<Hop>, last: int)
    requires hop.kind.Transcription? && Holds(o, pending)
    ensures Holds(Handled(o, hop), pending)
    ensures LinesOf(Handled(o, hop).turns) + Transcript(rest, pending, Handled(o, hop).question, o.t0, last)
         == LinesOf(o.turns) + Transcript([hop] + rest, pending, o.question, o.t0, last)
  {
    var now := Offset(o, hop.now);
    var line := LineOf(Candidate, hop.kind.text, o.question, now, now);
    LinesOfEmitted(o, Candidate, hop.kind.text, now, now);
    assert ([hop] + rest)[1..] == rest;
    hide LineOf, LinesOf, Emitted;
    SeqAssoc(LinesOf(o.turns), line, Transcript(rest, pending, o.question, o.t0, last));
  }

  lemma FlushedFields(o: Obs, now: int)
    ensures Flushed(o, now).parts == [] && Flushed(o, now).t0 == o.t0 && (o.parts == [] ==> Flushed(o, now) == o)
    ensures o.parts != [] ==> Flushed(o, now).botStarted == None
    ensures Flushed(o, now).question == if o.parts == [] then o.question else o.question + 1
  {
  }

  lemma TranscriptAtStop(hop: Hop, rest: seq<Hop>, pending: seq<Said>, question: int, t0: int, last: int)
    requires hop.kind.BotStopped?
    ensures Transcript([hop] + rest, pending, question, t0, last)
         == ReplyLine(pending, question, Elapsed(t0, hop.now))
          + Transcript(rest, [], if pending == [] then question else question + 1, t0, last)
  {
    assert ([hop] + rest)[1..] == rest;
  }

  lemma StoppedLines(o: Obs, pending: seq<Said>, hop: Hop, rest: seq<Hop>, last: int)
    requires hop.kind.BotStopped? && Holds(o, pending)
    ensures Holds(Handled(o, hop), [])
    ensures LinesOf(Handled(o, hop).turns) + Transcript(rest, [], Handled(o, hop).question, o.t0, last)
         == LinesOf(o.turns) + Transcript([hop] + rest, pending, o.question, o.t0, last)
  {
    var question := if pending == [] then o.question else o.question + 1;
    var line, todo := ReplyLine(pending, o.question, Elapsed(o.t0, hop.now)), Transcript(rest, [], question, o.t0, last);
    FlushedFields(o, hop.now);
    LinesOfFlushed(o, pending, hop.now);
    TranscriptAtStop(hop, rest, pending, o.question, o.t0, last);
    SeqAssoc(LinesOf(o.turns), line, todo);
  }

  lemma SeqAssoc<T>(a: seq<T>, b: seq<T>, c: seq<T>)
    ensures a + b + c == a + (b + c)
  {
  }

  /** What is pending after one more frame. */
  function PendingAfter(pending: seq<Said>, hop: Hop, t0: int): seq<Said> {
    match hop.kind
    case TtsText(text) => pending + [Said(text, Elapsed(t0, hop.now))]
    case BotStopped => []
    case _ => pending
  }

  /** One accepted frame moves its line from the transcript still to come to the turns published. */
  lemma HandledLines(o: Obs, pending: seq<Said>, hop: Hop, rest: seq<Hop>, last: int)
    requires Holds(o, pending)
    ensures Holds(Handled(o, hop), PendingAfter(pending, hop, o.t0)) && Handled(o, hop).t0 == o.t0
    ensures LinesOf(Handled(o, hop).turns) + Transcript(rest, PendingAfter(pending, hop, o.t0), Handled(o, hop).question, o.t0, last)
         == LinesOf(o.turns) + Transcript([hop] + rest, pending, o.question, o.t0, last)
  {
    match hop.kind
    case Transcription(_) =>
      SpokenLines(o, pending, hop, rest, last);
    case BotStopped =>
      StoppedLines(o, pending, hop, rest, last);
      FlushedFields(o, hop.now);
    case _ =>
      assert ([hop] + rest)[1..] == rest;
  }

  /** Running the hops and flushing at the end writes exactly the transcript of the accepted frames. */
  lemma {:induction false} SessionTranscript(o: Obs, pending: seq<Said>, hops: seq<Hop>, now: int)
    requires Holds(o, pending)
    ensures Flushed(Observed(o, hops), now).parts == []
    ensures LinesOf(Flushed(Observed(o, hops), now).turns)
         == LinesOf(o.turns) + Transcript(Accepted(hops, o.lastId), pending, o.question, o.t0, now)
    decreases |hops|
  {
    if hops == [] {
      LinesOfFlushed(o, pending, now);
      FlushedFields(o, now);
    } else if FirstSight(o.lastId, hops[0]) {
      var o1 := if hops[0].id.Some? then o.(lastId := hops[0].id.value) else o;
      HandledKeepsId(o1, hops[0]);
      HandledLines(o1, pending, hops[0], Accepted(hops[1..], o1.lastId), now);
      hide Handled, Transcript, Flushed, Holds;
      SessionTranscript(Pushed(o, hops[0]), PendingAfter(pending, hops[0], o.t0), hops[1..], now);
    } else {
      SessionTranscript(Pushed(o, hops[0]), pending, hops[1..], now);
    }
  }

  lemma HandledKeepsId(o: Obs, hop: Hop)
    ensures Handled(o, hop).lastId == o.lastId
  {
  }

  /** What was not accepted left no trace. */
  lemma {:induction false} OnlyAcceptedCount(o: Obs, hops: seq<Hop>)
    ensures Observed(o, hops) == Observed(o, Accepted(hops, o.lastId))
    decreases |hops|
  {
    if hops != [] {
      OnlyAcceptedCount(Pushed(o, hops[0]), hops[1..]);
      if FirstSight(o.lastId, hops[0]) {
        HandledKeepsId(if hops[0].id.Some? then o.(lastId := hops[0].id.value) else o, hops[0]);
        assert Accepted(hops, o.lastId)[1..] == Accepted(hops[1..], Pushed(o, hops[0]).lastId);
      }
    }
  }

  /** Frames first pushed in id order: however often they are pushed again, the session is the same, ordinals and
      offsets included, and reads as the transcript of the first pushes. */
  lemma RepushesChangeNothing(o: Obs, pending: seq<Said>, hops: seq<Hop>, others: seq<Hop>, now: int)
    requires o.lastId == -1 && Holds(o, pending)
    requires FirstPushes(hops, {}) == FirstPushes(others, {}) && Increasing(FirstPushes(hops, {}), -1)
    ensures Observed(o, hops) == Observed(o, others)
    ensures Flushed(Observed(o, hops), now) == Flushed(Observed(o, others), now)
    ensures LinesOf(Flushed(Observed(o, hops), now).turns)
         == LinesOf(o.turns) + Transcript(FirstPushes(hops, {}), pending, o.question, o.t0, now)
  {
    hide Observed, Flushed, Transcript, LinesOf, Holds;
    WatermarkIsSeenSet(hops);
    WatermarkIsSeenSet(others);
    OnlyAcceptedCount(o, hops);
    OnlyAcceptedCount(o, others);
    SessionTranscript(o, pending, hops, now);
  }

  /** Nothing the bot said is lost: up to trimming, its lines are its fragments cut into replies. */
  lemma BotSpeechConserved(o: Obs, hops: seq<Hop>, now: int)
    requires o.turns == [] && o.parts == [] && o.botStarted == None
    ensures var accepted := Accepted(hops, o.lastId);
      && SaidBy(LinesOf(Flushed(Observed(o, hops), now).turns), Interviewer) == Trimmed(ConcatEach(Replies(accepted, [])))
      && Flatten(Replies(accepted, [])) == Fragments(accepted)
  {
    var accepted := Accepted(hops, o.lastId);
    assert Texts([]) == [];
    SessionTranscript(o, [], hops, now);
    InterviewerLinesAreReplies(accepted, [], o.question, o.t0, now);
    RepliesKeepFragments(accepted, []);
    assert LinesOf(o.turns) == [];
    hide Observed, Flushed, Transcript, LinesOf, SaidBy, Trimmed, ConcatEach, Replies, Flatten;
    assert LinesOf(o.turns) + Transcript(accepted, [], o.question, o.t0, now) == Transcript(accepted, [], o.question, o.t0, now);
  }

  // ---------------------------------------------------------------------------
  // Numbering and offsets
  // ---------------------------------------------------------------------------

  /** Ordinals run on without a gap from `start`. */
  ghost predicate Numbered(turns: seq<Turn>, start: int) {
    forall i :: 0 <= i < |turns| ==> turns[i].ordinal == start + i
  }

  /** Turns end in the order they are published and none ends before it starts. */
  ghost predicate Timed(turns: seq<Turn>, latest: int) {
    && (forall i :: 0 <= i < |turns| ==> 0 <= turns[i].started <= turns[i].ended <= latest)
    && (forall i, j :: 0 <= i < j < |turns| ==> turns[i].ended <= turns[j].ended)
  }

  ghost predicate Ordered(o: Obs, start: int, now: int) {
    && o.ordinal == start + |o.turns| && Numbered(o.turns, start)
    && Timed(o.turns, Offset(o, now))
    && (o.botStarted.Some? ==> 0 <= o.botStarted.value <= Offset(o, now))
  }

  lemma EmittedKeepsOrder(o: Obs, speaker: Speaker, content: string, started: int, start: int, now: int)
    requires Ordered(o, start, now) && 0 <= started <= Offset(o, now)
    ensures Ordered(Emitted(o, speaker, content, started, Offset(o, now)), start, now)
  {
  }

  lemma LaterKeepsOrder(o: Obs, start: int, before: int, now: int)
    requires Ordered(o, start, before) && before <= now
    ensures Ordered(o, start, now)
  {
  }

  lemma FlushedKeepsOrder(o: Obs, start: int, now: int)
    requires Ordered(o, start, now)
    ensures Ordered(Flushed(o, now), start, now)
  {
    hide Emitted, Concat;
    if o.parts != [] {
      var started := if o.botStarted.Some? then o.botStarted.value else Offset(o, now);
      EmittedKeepsOrder(o.(parts := [], botStarted := None), Interviewer, Concat(o.parts), started, start, now);
    }
  }

  lemma HandledKeepsOrder(o: Obs, hop: Hop, start: int)
    requires Ordered(o, start, hop.now)
    ensures Ordered(Handled(o, hop), start, hop.now)
  {
    match hop.kind
    case Transcription(text) =>
      EmittedKeepsOrder(o, Candidate, text, Offset(o, hop.now), start, hop.now);
    case BotStopped =>
      FlushedKeepsOrder(o, start, hop.now);
    case _ =>
  }

  lemma PushedKeepsOrder(o: Obs, hop: Hop, start: int, before: int)
    requires Ordered(o, start, before) && before <= hop.now
    ensures Ordered(Pushed(o, hop), start, hop.now)
  {
    LaterKeepsOrder(o, start, before, hop.now);
    HandledKeepsOrder(if hop.id.Some? then o.(lastId := hop.id.value) else o, hop, start);
  }

  ghost predicate ClockRuns(hops: seq<Hop>, from: int) {
    hops == [] || (from <= hops[0].now && ClockRuns(hops[1..], hops[0].now))
  }

  function LastNow(hops: seq<Hop>, from: int): int {
    if hops == [] then from else LastNow(hops[1..], hops[0].now)
  }

  lemma {:induction false} SessionOrdered(o: Obs, hops: seq<Hop>, start: int, from: int)
    requires Ordered(o, start, from) && ClockRuns(hops, from)
    ensures Ordered(Observed(o, hops), start, LastNow(hops, from))
    decreases |hops|
  {
    if hops != [] {
      PushedKeepsOrder(o, hops[0], start, from);
      SessionOrdered(Pushed(o, hops[0]), hops[1..], start, hops[0].now);
    }
  }

  /** From a fresh observer to the final flush: consecutive ordinals, ordered offsets. */
  lemma TurnsConsecutiveAndTimed(startOrdinal: int, startedAt: int, hops: seq<Hop>, now: int)
    requires ClockRuns(hops, startedAt) && LastNow(hops, startedAt) <= now
    ensures var final := Flushed(Observed(Obs(startedAt, startOrdinal, [], None, 0, -1, []), hops), now);
      && Numbered(final.turns, startOrdinal)
      && final.ordinal == startOrdinal + |final.turns|
      && Timed(final.turns, Offset(final, now))
  {
    var o := Obs(startedAt, startOrdinal, [], None, 0, -1, []);
    SessionOrdered(o, hops, startOrdinal, startedAt);
    LaterKeepsOrder(Observed(o, hops), startOrdinal, LastNow(hops, startedAt), now);
    FlushedKeepsOrder(Observed(o, hops), startOrdinal, now);
  }
}
