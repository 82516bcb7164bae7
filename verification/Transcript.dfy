/** Transcript rows: the live upsert, the offline correction pass, and the evidence scores rest on.

  The tokeniser behind a word count and the whitespace-and-case folding behind a quote match
  are parameters (`wc`, `norm`); a decoded word list is an arbitrary sequence.
*/
module Transcript {
  import opened Text

  datatype Speaker = CANDIDATE | INTERVIEWER
  datatype Turn = Turn(speaker: Speaker, content: string, started: int, ended: int, question: Option<int>, isFinal: bool)

  /** The rows of one interview, by ordinal. */
  type Rows = map<int, Turn>

  datatype Word = Word(text: string, start: int, end: int)

  function Min(a: int, b: int): int {
    if a < b then a else b
  }

  function Max(a: int, b: int): int {
    if a < b then b else a
  }

  // ---------------------------------------------------------------------------
  // The live upsert
  // ---------------------------------------------------------------------------

  /** INSERT ... ON CONFLICT DO UPDATE WHERE NOT is_final.  An update that would end a turn before it
      starts violates the table's constraint, and the handler's transaction is rolled back. */
  function Recorded(rows: Rows, ordinal: int, live: Turn): Rows {
    var ended := Max(live.ended, live.started);
    if ordinal !in rows then rows[ordinal := live.(ended := ended, isFinal := false)]
    else
      var row := rows[ordinal];
      if row.isFinal || ended < row.started then rows
      else rows[ordinal := row.(content := live.content, ended := ended, question := live.question)]
  }

  // ---------------------------------------------------------------------------
  // The correction pass
  // ---------------------------------------------------------------------------

  function Overlap(w: Word, start: int, end: int): int {
    Min(w.end, end) - Max(w.start, start)
  }

  function Duration(w: Word): int {
    Max(w.end - w.start, 1)
  }

  /** At least half of the word lies in the window. */
  predicate Within(w: Word, start: int, end: int) {
    2 * Overlap(w, start, end) >= Duration(w)
  }

  function WordsWithin(words: seq<Word>, start: int, end: int): seq<Word> {
    if words == [] then []
    else if Within(words[0], start, end) then [words[0]] + WordsWithin(words[1..], start, end)
    else WordsWithin(words[1..], start, end)
  }

  /** `" ".join(...)`. */
  function Joined(words: seq<Word>): string {
    if words == [] then ""
    else if |words| == 1 then words[0].text
    else words[0].text + " " + Joined(words[1..])
  }

  function Correction(turn: Turn, words: seq<Word>, wc: string -> nat): Option<string> {
    if turn.speaker != CANDIDATE || turn.isFinal || turn.ended <= turn.started then None
    else
      var matched := WordsWithin(words, turn.started, turn.ended);
      var corrected := Strip(Joined(matched));
      var live := wc(turn.content);
      if matched == [] then None
      else if live != 0 && 2 * wc(corrected) < live then None
      else if corrected != "" && corrected != turn.content then Some(corrected)
      else None
  }

  /** A corrected turn is final, and so is a candidate turn the pass agreed with. */
  function Settled(turn: Turn, correction: Option<string>): Turn {
    var turn' := if correction.Some? then turn.(content := correction.value, isFinal := true) else turn;
    if turn'.speaker == CANDIDATE then turn'.(isFinal := true) else turn'
  }

  function Reconciled(turn: Turn, words: seq<Word>, wc: string -> nat): Turn {
    Settled(turn, Correction(turn, words, wc))
  }

  /** Whether the pass gets as far as writing anything. */
  predicate Completes(rows: Rows, hasRecording: bool, words: seq<Word>) {
    hasRecording && rows != map[] && words != []
  }

  function Passed(rows: Rows, hasRecording: bool, words: seq<Word>, wc: string -> nat): Rows {
    if !Completes(rows, hasRecording, words) then rows
    else map o | o in rows :: Reconciled(rows[o], words, wc)
  }

  datatype Listed = Listed(ordinal: int, turn: Turn)

  /** SELECT ... ORDER BY ordinal. */
  ghost predicate Lists(turns: seq<Listed>, rows: Rows) {
    && (forall i, j :: 0 <= i < j < |turns| ==> turns[i].ordinal < turns[j].ordinal)
    && (forall i :: 0 <= i < |turns| ==> turns[i].ordinal in rows && rows[turns[i].ordinal] == turns[i].turn)
    && (forall o :: o in rows ==> exists i :: 0 <= i < |turns| && turns[i].ordinal == o)
  }

  function Lookup(corrections: map<int, string>, o: int): Option<string> {
    if o in corrections then Some(corrections[o]) else None
  }

  class TranscriptTable {
    var rows: Rows

    constructor ()
      ensures rows == map[]
    {
      rows := map[];
    }

    method RecordTurn(ordinal: int, live: Turn)
      modifies this
      ensures rows == Recorded(old(rows), ordinal, live)
    {
      var ended := if live.ended < live.started then live.started else live.ended;
      if ordinal !in rows {
        rows := rows[ordinal := Turn(live.speaker, live.content, live.started, ended, live.question, false)];
      } else if !rows[ordinal].isFinal {
        var updated := rows[ordinal].(content := live.content, ended := ended, question := live.question);
        if updated.started <= updated.ended {
          rows := rows[ordinal := updated];
        }
      }
    }

    static method MatchWords(words: seq<Word>, start: int, end: int) returns (inside: seq<Word>)
      ensures inside == WordsWithin(words, start, end)
      ensures forall w :: w in inside <==> w in words && Within(w, start, end)
    {
      WordsWithinAreAttributed(words, start, end);
      inside := [];
      for i := 0 to |words|
        invariant WordsWithin(words, start, end) == inside + WordsWithin(words[i..], start, end)
      {
        assert words[i..][0] == words[i] && words[i..][1..] == words[i + 1..];
        var overlap := Overlap(words[i], start, end);
        if 2 * overlap >= Duration(words[i]) {
          assert inside + ([words[i]] + WordsWithin(words[i + 1..], start, end))
              == (inside + [words[i]]) + WordsWithin(words[i + 1..], start, end);
          inside := inside + [words[i]];
        }
      }
    }

    /** Corrected text per ordinal, for the turns that get one. */
    static method Reconcile(turns: seq<Listed>, words: seq<Word>, wc: string -> nat) returns (corrections: map<int, string>)
      requires forall i, j :: 0 <= i < j < |turns| ==> turns[i].ordinal != turns[j].ordinal
      ensures forall i :: 0 <= i < |turns| ==> Correction(turns[i].turn, words, wc) == Lookup(corrections, turns[i].ordinal)
    {
      corrections := map[];
      for i := 0 to |turns|
        invariant forall o :: o in corrections ==> exists k :: 0 <= k < i && turns[k].ordinal == o
        invariant forall k :: 0 <= k < i ==> Correction(turns[k].turn, words, wc) == Lookup(corrections, turns[k].ordinal)
      {
        var turn := turns[i].turn;
        if turn.speaker != CANDIDATE || turn.isFinal || turn.ended <= turn.started {
          continue;
        }
        var matched := MatchWords(words, turn.started, turn.ended);
        if matched == [] {
          continue;
        }
        var corrected, live := Strip(Joined(matched)), wc(turn.content);
        if live != 0 && 2 * wc(corrected) < live {
          continue;
        }
        if corrected != "" && corrected != turn.content {
          corrections := corrections[turns[i].ordinal := corrected];
        }
      }
    }

    /** `turns` is what the SELECT returned. */
    method Apply(turns: seq<Listed>, hasRecording: bool, words: seq<Word>, wc: string -> nat)
      requires Lists(turns, rows)
      modifies this
      ensures rows == Passed(old(rows), hasRecording, words, wc)
    {
      assert turns == [] <==> rows == map[] by {
        if turns == [] {
          assert forall o :: o !in rows;
        } else {
          assert turns[0].ordinal in rows;
        }
      }
      if !hasRecording || turns == [] || words == [] {
        return;
      }
      var corrections := Reconcile(turns, words, wc);
      forall o | o in rows
        ensures Correction(rows[o], words, wc) == Lookup(corrections, o)
      {
        var i :| 0 <= i < |turns| && turns[i].ordinal == o;
      }
      rows := map o | o in rows :: Settled(rows[o], Lookup(corrections, o));
    }
  }

  // ---------------------------------------------------------------------------
  // What the pass keeps
  // ---------------------------------------------------------------------------

  /** Interviewer text and every timing survive the pass; only candidate text may change. */
  lemma PassKeeps(rows: Rows, hasRecording: bool, words: seq<Word>, wc: string -> nat, o: int)
    requires o in rows
    ensures var rows' := Passed(rows, hasRecording, words, wc);
      && rows'.Keys == rows.Keys
      && rows'[o].(content := "", isFinal := false) == rows[o].(content := "", isFinal := false)
      && (rows[o].speaker == INTERVIEWER || rows[o].isFinal ==> rows'[o] == rows[o])
  {
  }

  /** What a pass writes: nothing without a recording or a word; otherwise every candidate turn that was not final becomes
      final, and reads as the words of its window if there are any, they are not blank, and they are at least half as many
      as it had. */
  lemma PassWrites(rows: Rows, hasRecording: bool, words: seq<Word>, wc: string -> nat, o: int)
    requires o in rows
    ensures var row, row' := rows[o], Passed(rows, hasRecording, words, wc)[o];
      var heard := WordsWithin(words, row.started, row.ended);
      var text := Strip(Joined(heard));
      row' ==
        if !hasRecording || words == [] || row.speaker == INTERVIEWER || row.isFinal then row
        else if row.started < row.ended && heard != [] && text != "" && 2 * wc(text) >= wc(row.content)
        then row.(content := text, isFinal := true)
        else row.(isFinal := true)
  {
  }

  lemma {:induction false} WithinSnoc(words: seq<Word>, w: Word, start: int, end: int)
    ensures WordsWithin(words + [w], start, end) == WordsWithin(words, start, end) + if Within(w, start, end) then [w] else []
  {
    hide Within;
    if words == [] {
      assert [] + [w] == [w];
    } else {
      assert (words + [w])[1..] == words[1..] + [w];
      WithinSnoc(words[1..], w, start, end);
    }
  }

  /** Where the words at least half inside the window are. */
  function InsideAt(words: seq<Word>, start: int, end: int, n: nat): (ks: seq<nat>)
    requires n <= |words|
    ensures forall i :: i in ks <==> 0 <= i < n && 2 * Overlap(words[i], start, end) >= Duration(words[i])
    ensures forall a :: 0 <= a < |ks| ==> ks[a] < n
    ensures forall a, b :: 0 <= a < b < |ks| ==> ks[a] < ks[b]
  {
    if n == 0 then []
    else
      var front := InsideAt(words, start, end, n - 1);
      if 2 * Overlap(words[n - 1], start, end) >= Duration(words[n - 1]) then front + [n - 1] else front
  }

  /** A turn's words are those at least half inside its window, in spoken order. */
  lemma {:induction false} WordsInOrder(words: seq<Word>, start: int, end: int, n: nat)
    requires n <= |words|
    ensures var ks, heard := InsideAt(words, start, end, n), WordsWithin(words[..n], start, end);
      |heard| == |ks| && forall a :: 0 <= a < |ks| ==> heard[a] == words[ks[a]]
  {
    hide Overlap, Duration;
    if n > 0 {
      WordsInOrder(words, start, end, n - 1);
      WithinSnoc(words[..n - 1], words[n - 1], start, end);
      assert words[..n - 1] + [words[n - 1]] == words[..n];
    }
  }

  /** Joined with one space, however they are grouped. */
  lemma {:induction false} JoinedTogether(a: seq<Word>, b: seq<Word>)
    requires a != [] && b != []
    ensures Joined(a + b) == Joined(a) + " " + Joined(b)
    ensures |a| == 1 ==> Joined(a) == a[0].text
  {
    assert (a + b)[1..] == a[1..] + b;
    if |a| > 1 {
      JoinedTogether(a[1..], b);
      assert a[0].text + " " + (Joined(a[1..]) + " " + Joined(b)) == a[0].text + " " + Joined(a[1..]) + " " + Joined(b);
    }
  }

  /** Of two windows that meet, one at least gets each word spoken within both, unless it takes no time: such a word goes
      to no window at all. */
  lemma NoWordIsLost(w: Word, start: int, middle: int, end: int)
    requires start <= middle <= end && start <= w.start && w.end <= end
    ensures Within(w, start, middle) || Within(w, middle, end) <==> w.start < w.end
  {
  }

  /** A completed pass is the last word on every candidate turn: another one, over any words, changes nothing. */
  lemma PassIsIdempotent(rows: Rows, words: seq<Word>, hasRecording: bool, others: seq<Word>, wc: string -> nat)
    requires Completes(rows, true, words)
    ensures var once := Passed(rows, true, words, wc);
      && Passed(once, hasRecording, others, wc) == once
      && forall o :: o in once && once[o].speaker == CANDIDATE ==> once[o].isFinal
  {
    var once := Passed(rows, true, words, wc);
    forall o | o in once
      ensures Reconciled(once[o], others, wc) == once[o]
    {
    }
  }

  /** Two turns that do not overlap share a word only by halving it exactly. */
  lemma SharedWordIsHalved(w: Word, s1: int, e1: int, s2: int, e2: int)
    requires e1 <= s2 && Within(w, s1, e1) && Within(w, s2, e2)
    ensures 2 * Overlap(w, s1, e1) == Duration(w) == 2 * Overlap(w, s2, e2)
  {
  }

  ghost predicate DisjointWindows(rows: Rows) {
    forall i, j :: i in rows && j in rows && i != j ==> rows[i].ended <= rows[j].started || rows[j].ended <= rows[i].started
  }

  ghost predicate Attributed(rows: Rows, o: int, w: Word) {
    o in rows && rows[o].started < rows[o].ended && Within(w, rows[o].started, rows[o].ended)
  }

  /** Over disjoint turns a word goes to two at most, and to two only in exact halves. */
  lemma WordGoesToTwoTurnsAtMost(rows: Rows, w: Word, a: int, b: int, c: int)
    requires DisjointWindows(rows) && a != b
    requires Attributed(rows, a, w) && Attributed(rows, b, w)
    ensures 2 * Overlap(w, rows[a].started, rows[a].ended) == Duration(w) == 2 * Overlap(w, rows[b].started, rows[b].ended)
    ensures c != a && c != b ==> !Attributed(rows, c, w)
  {
    OrderedShare(rows, w, a, b);
    if c != a && c != b && Attributed(rows, c, w) {
      OrderedShare(rows, w, a, c);
      OrderedShare(rows, w, b, c);
    }
  }

  lemma OrderedShare(rows: Rows, w: Word, a: int, b: int)
    requires DisjointWindows(rows) && a != b && Attributed(rows, a, w) && Attributed(rows, b, w)
    ensures 2 * Overlap(w, rows[a].started, rows[a].ended) == Duration(w) == 2 * Overlap(w, rows[b].started, rows[b].ended)
    ensures rows[a].ended <= rows[b].started ==> rows[a].started <= w.start && w.end <= rows[b].ended
    ensures rows[b].ended <= rows[a].started ==> rows[b].started <= w.start && w.end <= rows[a].ended
  {
    if rows[a].ended <= rows[b].started {
      SharedWordIsHalved(w, rows[a].started, rows[a].ended, rows[b].started, rows[b].ended);
    } else {
      SharedWordIsHalved(w, rows[b].started, rows[b].ended, rows[a].started, rows[a].ended);
    }
  }

  /** What a turn's corrected text is made of: the words attributed to it, in spoken order. */
  lemma {:induction false} WordsWithinAreAttributed(words: seq<Word>, start: int, end: int)
    ensures forall w :: w in WordsWithin(words, start, end) <==> w in words && Within(w, start, end)
  {
    if words != [] {
      WordsWithinAreAttributed(words[1..], start, end);
      assert words == [words[0]] + words[1..];
    }
  }

  // ---------------------------------------------------------------------------
  // Later writes
  // ---------------------------------------------------------------------------

  datatype Write =
    | Replay(ordinal: int, live: Turn)
    | Pass(hasRecording: bool, words: seq<Word>)

  function Written(rows: Rows, w: Write, wc: string -> nat): Rows {
    match w
    case Replay(ordinal, live) => Recorded(rows, ordinal, live)
    case Pass(hasRecording, words) => Passed(rows, hasRecording, words, wc)
  }

  function AfterWrites(rows: Rows, writes: seq<Write>, wc: string -> nat): Rows
    decreases |writes|
  {
    if writes == [] then rows else AfterWrites(Written(rows, writes[0], wc), writes[1..], wc)
  }

  /** A final turn is fixed, whatever is replayed and however often the pass is run again. */
  lemma {:induction false} FinalIsFixed(rows: Rows, writes: seq<Write>, wc: string -> nat, o: int)
    requires o in rows && rows[o].isFinal
    ensures o in AfterWrites(rows, writes, wc) && AfterWrites(rows, writes, wc)[o] == rows[o]
    decreases |writes|
  {
    if writes != [] {
      FinalIsFixed(Written(rows, writes[0], wc), writes[1..], wc, o);
    }
  }

  // ---------------------------------------------------------------------------
  // What the table holds
  // ---------------------------------------------------------------------------

  predicate Replays(w: Write, o: int) {
    w.Replay? && w.ordinal == o
  }

  /** A replay's end, never before its own start. */
  function EndOf(w: Write): int
    requires w.Replay?
  {
    if w.live.ended < w.live.started then w.live.started else w.live.ended
  }

  ghost predicate FirstReplay(writes: seq<Write>, i: nat, o: int) {
    i < |writes| && Replays(writes[i], o) && forall k :: 0 <= k < i ==> !Replays(writes[k], o)
  }

  /** The last replay of the turn that would not end it before `start`. */
  ghost predicate LastReplay(writes: seq<Write>, i: nat, o: int, start: int) {
    && i < |writes| && Replays(writes[i], o) && start <= EndOf(writes[i])
    && forall k :: i < k < |writes| && Replays(writes[k], o) ==> EndOf(writes[k]) < start
  }

  lemma {:induction false} OneMoreWrite(rows: Rows, writes: seq<Write>, w: Write, wc: string -> nat)
    ensures AfterWrites(rows, writes + [w], wc) == Written(AfterWrites(rows, writes, wc), w, wc)
    decreases |writes|
  {
    if writes == [] {
      assert [] + [w] == [w] && [w][1..] == [];
    } else {
      assert (writes + [w])[1..] == writes[1..] + [w];
      OneMoreWrite(Written(rows, writes[0], wc), writes[1..], w, wc);
    }
  }

  /** What one write does to one turn. */
  lemma WrittenAt(rows: Rows, w: Write, wc: string -> nat, o: int)
    ensures o in Written(rows, w, wc) <==> o in rows || Replays(w, o)
    ensures o !in rows && Replays(w, o) ==>
      Written(rows, w, wc)[o] == Turn(w.live.speaker, w.live.content, w.live.started, EndOf(w), w.live.question, false)
    ensures o in rows ==>
      var before, after := rows[o], Written(rows, w, wc)[o];
      && after.speaker == before.speaker && after.started == before.started
      && (Replays(w, o) && !before.isFinal && before.started <= EndOf(w) ==>
            after == Turn(before.speaker, w.live.content, before.started, EndOf(w), w.live.question, false))
      && (!(Replays(w, o) && !before.isFinal && before.started <= EndOf(w)) && !after.isFinal ==> after == before)
      && (before.isFinal ==> after == before)
  {
  }

  lemma FirstReplayGrows(writes: seq<Write>, w: Write, i: nat, o: int)
    requires i < |writes|
    ensures FirstReplay(writes + [w], i, o) <==> FirstReplay(writes, i, o)
  {
    assert forall k :: 0 <= k < |writes| ==> (writes + [w])[k] == writes[k];
  }

  /** Whatever is replayed and however often the pass runs, the table has a row for exactly the turns that were replayed,
      each with the speaker and the start of its first replay. */
  lemma {:induction false} RowsAreTheReplayed(writes: seq<Write>, wc: string -> nat, o: int)
    ensures o in AfterWrites(map[], writes, wc) <==> exists i :: 0 <= i < |writes| && Replays(writes[i], o)
    ensures o in AfterWrites(map[], writes, wc) ==>
      exists i: nat :: FirstReplay(writes, i, o) &&
        AfterWrites(map[], writes, wc)[o].speaker == writes[i].live.speaker &&
        AfterWrites(map[], writes, wc)[o].started == writes[i].live.started
    decreases |writes|
  {
    hide Written;
    if writes != [] {
      var m := |writes| - 1;
      var front, w := writes[..m], writes[m];
      assert writes == front + [w];
      RowsAreTheReplayed(front, wc, o);
      OneMoreWrite(map[], front, w, wc);
      WrittenAt(AfterWrites(map[], front, wc), w, wc, o);
      if o in AfterWrites(map[], front, wc) {
        var i: nat :| FirstReplay(front, i, o) &&
          AfterWrites(map[], front, wc)[o].speaker == front[i].live.speaker &&
          AfterWrites(map[], front, wc)[o].started == front[i].live.started;
        FirstReplayGrows(front, w, i, o);
        assert writes[i] == front[i];
      } else if Replays(w, o) {
        assert forall k :: 0 <= k < m ==> writes[k] == front[k];
        assert FirstReplay(writes, m, o);
      } else {
        assert forall k :: 0 <= k < m ==> writes[k] == front[k];
      }
    }
  }

  /** A turn that is not final yet reads as the last of its replays that would not have ended it before it starts. */
  lemma {:induction false} LiveRowIsItsLastReplay(writes: seq<Write>, wc: string -> nat, o: int)
    requires o in AfterWrites(map[], writes, wc) && !AfterWrites(map[], writes, wc)[o].isFinal
    ensures var row := AfterWrites(map[], writes, wc)[o];
      exists i: nat :: LastReplay(writes, i, o, row.started) &&
        row == Turn(row.speaker, writes[i].live.content, row.started, EndOf(writes[i]), writes[i].live.question, false)
    decreases |writes|
  {
    hide Written;
    var m := |writes| - 1;
    var front, w := writes[..m], writes[m];
    assert writes == front + [w];
    var before, row := AfterWrites(map[], front, wc), AfterWrites(map[], writes, wc)[o];
    OneMoreWrite(map[], front, w, wc);
    WrittenAt(before, w, wc, o);
    if Replays(w, o) && row.started <= EndOf(w) {
      assert LastReplay(writes, m, o, row.started);
    } else {
      LiveRowIsItsLastReplay(front, wc, o);
      var i: nat :| LastReplay(front, i, o, row.started) &&
        row == Turn(row.speaker, front[i].live.content, row.started, EndOf(front[i]), front[i].live.question, false);
      assert writes[i] == front[i];
      assert forall k :: i < k < m ==> writes[k] == front[k];
      assert LastReplay(writes, i, o, row.started);
    }
  }

  // ---------------------------------------------------------------------------
  // Evidence
  // ---------------------------------------------------------------------------

  const MIN_QUOTE_CHARS: nat := 12

  datatype Evidence = Evidence(quote: string, ordinal: int, offset: int)
  datatype Graded = Graded(score: Option<int>, evidence: seq<Evidence>)

  predicate OccursAt(hay: string, needle: string, i: nat) {
    i + |needle| <= |hay| && hay[i..i + |needle|] == needle
  }

  predicate Contains(hay: string, needle: string) {
    exists i :: 0 <= i <= |hay| && OccursAt(hay, needle, i)
  }

  predicate Quotes(t: Listed, quote: string, norm: string -> string) {
    t.turn.speaker == CANDIDATE && Contains(norm(t.turn.content), norm(quote))
  }

  /** True of the rows: a long enough quote, found in the cited candidate turn, at its offset. */
  ghost predicate Supported(rows: Rows, e: Evidence, norm: string -> string) {
    && |e.quote| >= MIN_QUOTE_CHARS
    && e.ordinal in rows
    && rows[e.ordinal].started == e.offset
    && Quotes(Listed(e.ordinal, rows[e.ordinal]), e.quote, norm)
  }

  /** The first candidate turn, in order, that contains the quote. */
  ghost predicate FirstSource(turns: seq<Listed>, i: nat, quote: string, norm: string -> string) {
    i < |turns| && Quotes(turns[i], quote, norm) && forall k :: 0 <= k < i ==> !Quotes(turns[k], quote, norm)
  }

  ghost predicate Verifiable(turns: seq<Listed>, citation: string, norm: string -> string) {
    |Strip(citation)| >= MIN_QUOTE_CHARS && exists i :: 0 <= i < |turns| && Quotes(turns[i], Strip(citation), norm)
  }

  /** The evidence a citation turns into: its own quote, where it is first found. */
  ghost predicate Locates(turns: seq<Listed>, citation: string, e: Evidence, norm: string -> string) {
    && e.quote == Strip(citation) && |e.quote| >= MIN_QUOTE_CHARS
    && exists i: nat :: FirstSource(turns, i, e.quote, norm) && e.ordinal == turns[i].ordinal && e.offset == turns[i].turn.started
  }

  /** A quote can be found exactly where a candidate turn's folded text is the folded quote with something before and after. */
  lemma QuotesAreCutOut(t: Listed, quote: string, norm: string -> string, before: string, after: string)
    ensures t.turn.speaker == CANDIDATE && norm(t.turn.content) == before + norm(quote) + after ==> Quotes(t, quote, norm)
    ensures Quotes(t, quote, norm) ==>
      t.turn.speaker == CANDIDATE &&
      exists i :: 0 <= i <= |norm(t.turn.content)| - |norm(quote)| &&
        norm(t.turn.content) == norm(t.turn.content)[..i] + norm(quote) + norm(t.turn.content)[i + |norm(quote)|..]
  {
    var hay, needle := norm(t.turn.content), norm(quote);
    if hay == before + needle + after {
      assert OccursAt(hay, needle, |before|);
    }
    if Quotes(t, quote, norm) {
      var i :| 0 <= i <= |hay| && OccursAt(hay, needle, i);
      assert hay == hay[..i] + needle + hay[i + |needle|..];
    }
  }

  method FindQuote(turns: seq<Listed>, quote: string, norm: string -> string) returns (found: Option<nat>)
    ensures match found
      case Some(i) => FirstSource(turns, i, quote, norm)
      case None => forall i :: 0 <= i < |turns| ==> !Quotes(turns[i], quote, norm)
  {
    var needle := norm(quote);
    for i := 0 to |turns|
      invariant forall k :: 0 <= k < i ==> !Quotes(turns[k], quote, norm)
    {
      if turns[i].turn.speaker == CANDIDATE && Contains(norm(turns[i].turn.content), needle) {
        return Some(i);
      }
    }
    return None;
  }

  /** The evidence is exactly the citations that can be found, each where it is first found, in order. */
  ghost predicate IsEvidenceFor(verified: seq<Evidence>, citations: seq<string>, turns: seq<Listed>, norm: string -> string)
    decreases |citations|
  {
    if citations == [] then verified == []
    else
      var front, last, k := citations[..|citations| - 1], citations[|citations| - 1], |verified| - 1;
      if Verifiable(turns, last, norm)
      then verified != [] && Locates(turns, last, verified[k], norm) && IsEvidenceFor(verified[..k], front, turns, norm)
      else IsEvidenceFor(verified, front, turns, norm)
  }

  method VerifyEvidence(citations: seq<string>, turns: seq<Listed>, norm: string -> string) returns (verified: seq<Evidence>)
    ensures IsEvidenceFor(verified, citations, turns, norm)
  {
    verified := [];
    for i := 0 to |citations|
      invariant IsEvidenceFor(verified, citations[..i], turns, norm)
    {
      assert citations[..i + 1][..i] == citations[..i];
      var quote := Strip(citations[i]);
      if |quote| < MIN_QUOTE_CHARS {
        continue;
      }
      var found := FindQuote(turns, quote, norm);
      if found.Some? {
        var source := turns[found.value];
        assert FirstSource(turns, found.value, quote, norm);
        assert (verified + [Evidence(quote, source.ordinal, source.turn.started)])[..|verified|] == verified;
        verified := verified + [Evidence(quote, source.ordinal, source.turn.started)];
      }
    }
    assert citations[..|citations|] == citations;
  }

  /** Nothing is kept exactly when nothing can be found, and all that is kept is true of the rows. */
  lemma {:induction false} EvidenceIsSupported(verified: seq<Evidence>, citations: seq<string>, turns: seq<Listed>, rows: Rows,
                                               norm: string -> string)
    requires Lists(turns, rows) && IsEvidenceFor(verified, citations, turns, norm)
    ensures verified == [] <==> forall c :: c in citations ==> !Verifiable(turns, c, norm)
    ensures forall e :: e in verified ==> Supported(rows, e, norm)
    decreases |citations|
  {
    if citations != [] {
      var front, last, k := citations[..|citations| - 1], citations[|citations| - 1], |verified| - 1;
      assert citations == front + [last];
      if Verifiable(turns, last, norm) {
        EvidenceIsSupported(verified[..k], front, turns, rows, norm);
        LocatedIsSupported(turns, rows, last, verified[k], norm);
        assert last in citations && verified == verified[..k] + [verified[k]];
      } else {
        EvidenceIsSupported(verified, front, turns, rows, norm);
      }
    }
  }

  /** A number the model could not support is discarded; whatever evidence is kept is true of the rows. */
  method ScoreCriterion(score: Option<int>, citations: seq<string>, turns: seq<Listed>, ghost rows: Rows, norm: string -> string)
      returns (graded: Graded)
    requires Lists(turns, rows)
    ensures if score.Some? && (forall c :: c in citations ==> !Verifiable(turns, c, norm)) then graded == Graded(None, [])
            else graded.score == score && IsEvidenceFor(graded.evidence, citations, turns, norm)
    ensures graded.score.Some? ==> graded.evidence != []
    ensures forall e :: e in graded.evidence ==>
      Supported(rows, e, norm) && rows[e.ordinal].speaker == CANDIDATE && rows[e.ordinal].started == e.offset
  {
    var evidence := VerifyEvidence(citations, turns, norm);
    EvidenceIsSupported(evidence, citations, turns, rows, norm);
    if score.Some? && evidence == [] {
      return Graded(None, []);
    }
    return Graded(score, evidence);
  }

  lemma LocatedIsSupported(turns: seq<Listed>, rows: Rows, citation: string, e: Evidence, norm: string -> string)
    requires Lists(turns, rows) && Locates(turns, citation, e, norm)
    ensures Supported(rows, e, norm)
  {
  }

  /** Scored after a completed pass, a citation stays true through every later replay and pass. */
  lemma EvidenceStaysTrue(before: Rows, words: seq<Word>, wc: string -> nat, e: Evidence, norm: string -> string,
                          writes: seq<Write>)
    requires Completes(before, true, words) && Supported(Passed(before, true, words, wc), e, norm)
    ensures var now, later := Passed(before, true, words, wc), AfterWrites(Passed(before, true, words, wc), writes, wc);
      Supported(later, e, norm) && later[e.ordinal] == now[e.ordinal]
  {
    PassIsIdempotent(before, words, true, words, wc);
    FinalIsFixed(Passed(before, true, words, wc), writes, wc, e.ordinal);
  }

  /** What a live session can send: `_emit` drops blank text and trims the rest. */
  predicate Sendable(w: Write) {
    w.Replay? ==> w.live.content != "" && Strip(w.live.content) == w.live.content && w.live.started <= w.live.ended
  }

  ghost predicate AllSendable(writes: seq<Write>) {
    forall i :: 0 <= i < |writes| ==> Sendable(writes[i])
  }

  /** What is needed of the folding: two characters fold to at most two, a quote long enough to count to more. */
  ghost predicate Folds(norm: string -> string) {
    |norm("ok")| <= 2 && forall quote :: |Strip(quote)| >= MIN_QUOTE_CHARS ==> |norm(Strip(quote))| > 2
  }

  /** A live replay that gives the cited turn's ordinal another text: one write, and the quote is gone. */
  lemma ReplayTakesEvidence(rows: Rows, e: Evidence, norm: string -> string, wc: string -> nat) returns (writes: seq<Write>)
    requires Folds(norm) && Supported(rows, e, norm) && Strip(e.quote) == e.quote
    requires !rows[e.ordinal].isFinal && rows[e.ordinal].started <= rows[e.ordinal].ended
    ensures AllSendable(writes) && !Supported(AfterWrites(rows, writes, wc), e, norm)
  {
    var other := Replay(e.ordinal, rows[e.ordinal].(content := "ok"));
    var rows' := Written(rows, other, wc);
    writes := [other];
    assert writes[1..] == [];
    assert AfterWrites(rows, writes, wc) == AfterWrites(rows', [], wc) == rows';
    assert rows'[e.ordinal].content == "ok";
    assert SkipLeft("ok", 0) == 0 && SkipRight("ok", 0, 2) == 2;
    assert |norm(Strip(e.quote))| > 2;
    assert !Contains(norm("ok"), norm(e.quote));
  }

  /** Before that it is safe from everything a live session can send exactly if the cited turn is already final:
      otherwise one replay can take it away. */
  lemma EvidenceSafeIffFinal(rows: Rows, e: Evidence, norm: string -> string, wc: string -> nat)
    requires Folds(norm) && Supported(rows, e, norm) && Strip(e.quote) == e.quote
    requires rows[e.ordinal].started <= rows[e.ordinal].ended
    ensures (forall writes :: AllSendable(writes) ==> Supported(AfterWrites(rows, writes, wc), e, norm))
       <==> rows[e.ordinal].isFinal
  {
    if rows[e.ordinal].isFinal {
      forall writes
        ensures Supported(AfterWrites(rows, writes, wc), e, norm)
      {
        FinalIsFixed(rows, writes, wc, e.ordinal);
      }
    } else {
      var writes := ReplayTakesEvidence(rows, e, norm, wc);
    }
  }
}
