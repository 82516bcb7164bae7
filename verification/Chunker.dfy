/** Resume text to chunks: split where too long, merge where too short, number, and cap.

  How a section's body falls into entries is a parameter (`entries`).
*/
module Chunker {
  import opened Text

  /** `sep.join(parts)`. */
  function Join(parts: seq<string>, sep: string): string {
    if parts == [] then ""
    else if |parts| == 1 then parts[0]
    else parts[0] + sep + Join(parts[1..], sep)
  }

  function JoinEach(groups: seq<seq<string>>, sep: string): seq<string> {
    seq(|groups|, i requires 0 <= i < |groups| => Join(groups[i], sep))
  }

  /** A line with one more character in front. */
  function Prefixed(c: char, lines: seq<string>): seq<string>
    requires lines != []
  {
    [[c] + lines[0]] + lines[1..]
  }

  /** `text.split("\n")`. */
  function Lines(text: string): (lines: seq<string>)
    ensures lines != []
  {
    if text == "" then [""]
    else if text[0] == '\n' then [""] + Lines(text[1..])
    else Prefixed(text[0], Lines(text[1..]))
  }

  lemma JoinPrefixed(c: char, lines: seq<string>, sep: string)
    requires lines != []
    ensures Join(Prefixed(c, lines), sep) == [c] + Join(lines, sep)
  {
    if |lines| > 1 {
      assert Prefixed(c, lines)[1..] == lines[1..];
      assert ([c] + lines[0]) + sep + Join(lines[1..], sep) == [c] + (lines[0] + sep + Join(lines[1..], sep));
    }
  }

  lemma {:induction false} JoinLines(text: string)
    ensures Join(Lines(text), "\n") == text
    ensures forall k :: 0 <= k < |Lines(text)| ==> '\n' !in Lines(text)[k]
  {
    if text != "" {
      var rest := Lines(text[1..]);
      JoinLines(text[1..]);
      if text[0] == '\n' {
        assert ([""] + rest)[1..] == rest;
      } else {
        JoinPrefixed(text[0], rest, "\n");
      }
    }
  }

  lemma {:induction false} JoinSnoc(parts: seq<string>, last: string, sep: string)
    requires parts != []
    ensures Join(parts + [last], sep) == Join(parts, sep) + sep + last
  {
    if |parts| > 1 {
      assert (parts + [last])[1..] == parts[1..] + [last];
      JoinSnoc(parts[1..], last, sep);
      assert parts[0] + sep + (Join(parts[1..], sep) + sep + last) == parts[0] + sep + Join(parts[1..], sep) + sep + last;
    } else {
      assert parts + [last] == [parts[0], last];
      assert [parts[0], last][1..] == [last];
    }
  }

  lemma {:induction false} JoinAppend(a: seq<string>, b: seq<string>, sep: string)
    requires a != [] && b != []
    ensures Join(a + b, sep) == Join(a, sep) + sep + Join(b, sep)
  {
    if |a| == 1 {
      assert a + b == [a[0]] + b;
      assert ([a[0]] + b)[1..] == b;
    } else {
      assert (a + b)[1..] == a[1..] + b;
      JoinAppend(a[1..], b, sep);
      assert a[0] + sep + (Join(a[1..], sep) + sep + Join(b, sep)) == a[0] + sep + Join(a[1..], sep) + sep + Join(b, sep);
    }
  }

  /** Joining the joined groups is joining what was grouped. */
  lemma {:induction false} JoinGroups(groups: seq<seq<string>>, sep: string)
    requires forall i :: 0 <= i < |groups| ==> groups[i] != []
    ensures Join(JoinEach(groups, sep), sep) == Join(Flatten(groups), sep)
  {
    if |groups| == 1 {
      assert Flatten(groups) == groups[0] + Flatten(groups[1..]);
      assert groups[0] + [] == groups[0];
    } else if |groups| > 1 {
      JoinGroups(groups[1..], sep);
      assert JoinEach(groups, sep)[1..] == JoinEach(groups[1..], sep);
      assert Flatten(groups[1..]) != [] by {
        assert Flatten(groups[1..]) == groups[1..][0] + Flatten(groups[1..][1..]);
      }
      JoinAppend(groups[0], Flatten(groups[1..]), sep);
    }
  }

  // ---------------------------------------------------------------------------
  // Greedy grouping, which both splitting and merging are
  // ---------------------------------------------------------------------------

  /** Whether an item may join a group. */
  type Fits = (seq<string>, string) -> bool

  /** The last group with one more item in it. */
  function Grown(groups: seq<seq<string>>, item: string): seq<seq<string>>
    requires groups != []
  {
    groups[..|groups| - 1] + [groups[|groups| - 1] + [item]]
  }

  function Placed(groups: seq<seq<string>>, item: string, fits: Fits): seq<seq<string>> {
    if groups != [] && fits(groups[|groups| - 1], item) then Grown(groups, item) else groups + [[item]]
  }

  /** Each item joins the last group when it fits there, and starts a new one when it does not. */
  function Grouped(items: seq<string>, fits: Fits): seq<seq<string>> {
    if items == [] then [] else Placed(Grouped(items[..|items| - 1], fits), items[|items| - 1], fits)
  }

  function Front(group: seq<string>): seq<string>
    requires group != []
  {
    group[..|group| - 1]
  }

  /** A group grew only while the next item fitted. */
  ghost predicate GrewByFitting(group: seq<string>, fits: Fits) {
    group != [] && forall k :: 1 <= k < |group| ==> fits(group[..k], group[k])
  }

  /** And every new group began because its first item did not fit the group before. */
  ghost predicate GreedilyGrouped(groups: seq<seq<string>>, fits: Fits) {
    var n := |groups| - 1;
    groups == [] ||
    (GreedilyGrouped(groups[..n], fits) && GrewByFitting(groups[n], fits) && (n > 0 ==> !fits(groups[n - 1], groups[n][0])))
  }

  lemma {:induction false} GreedyAt(groups: seq<seq<string>>, i: nat, fits: Fits)
    requires i < |groups| && GreedilyGrouped(groups, fits)
    ensures GrewByFitting(groups[i], fits)
    ensures i > 0 ==> !fits(groups[i - 1], groups[i][0])
  {
    if i < |groups| - 1 {
      GreedyAt(groups[..|groups| - 1], i, fits);
    }
  }

  lemma GrownKeepsItems(groups: seq<seq<string>>, item: string)
    requires groups != []
    ensures Flatten(Grown(groups, item)) == Flatten(groups) + [item]
  {
    var front, last := groups[..|groups| - 1], groups[|groups| - 1];
    assert front + [last] == groups;
    FlattenSnoc(front, last);
    FlattenSnoc(front, last + [item]);
    assert Flatten(front) + (last + [item]) == Flatten(front) + last + [item];
  }

  lemma GrewOnce(group: seq<string>, item: string, fits: Fits)
    requires GrewByFitting(group, fits) && fits(group, item)
    ensures GrewByFitting(group + [item], fits) && (group + [item])[0] == group[0]
  {
    var grown := group + [item];
    forall k | 1 <= k < |grown|
      ensures fits(grown[..k], grown[k])
    {
      if k < |group| {
        assert grown[..k] == group[..k];
      } else {
        assert grown[..k] == group;
      }
    }
  }

  lemma GrownIsGreedy(groups: seq<seq<string>>, item: string, fits: Fits)
    requires GreedilyGrouped(groups, fits) && groups != [] && fits(groups[|groups| - 1], item)
    ensures GreedilyGrouped(Grown(groups, item), fits)
  {
    var grown, n := Grown(groups, item), |groups| - 1;
    GrewOnce(groups[n], item, fits);
    assert grown[..n] == groups[..n] && grown[n] == groups[n] + [item];
    hide GrewByFitting;
  }

  lemma AppendedIsGreedy(groups: seq<seq<string>>, item: string, fits: Fits)
    requires GreedilyGrouped(groups, fits) && (groups != [] ==> !fits(groups[|groups| - 1], item))
    ensures GreedilyGrouped(groups + [[item]], fits)
  {
    var more, n := groups + [[item]], |groups|;
    assert more[..n] == groups && more[n] == [item];
    assert GrewByFitting(more[n], fits);
    if n > 0 {
      assert more[n - 1] == groups[n - 1] && !fits(more[n - 1], more[n][0]);
    }
  }

  lemma {:induction false} GroupingKeepsItems(items: seq<string>, fits: Fits)
    ensures Flatten(Grouped(items, fits)) == items
    ensures GreedilyGrouped(Grouped(items, fits), fits)
  {
    if items != [] {
      var front, item := items[..|items| - 1], items[|items| - 1];
      var groups := Grouped(front, fits);
      GroupingKeepsItems(front, fits);
      assert front + [item] == items;
      if groups != [] && fits(groups[|groups| - 1], item) {
        GrownKeepsItems(groups, item);
        GrownIsGreedy(groups, item, fits);
      } else {
        FlattenSnoc(groups, [item]);
        AppendedIsGreedy(groups, item, fits);
      }
    }
  }

  lemma {:induction false} FlattenMember(groups: seq<seq<string>>, i: nat, item: string)
    requires i < |groups| && item in groups[i]
    ensures item in Flatten(groups)
  {
    if i > 0 {
      FlattenMember(groups[1..], i - 1, item);
    }
  }

  // ---------------------------------------------------------------------------
  // Splitting a span that is too long
  // ---------------------------------------------------------------------------

  /** The lines of a part with the newline that rejoins each. */
  function Size(lines: seq<string>): nat {
    if lines == [] then 0 else Size(lines[..|lines| - 1]) + |lines[|lines| - 1]| + 1
  }

  function RoomFor(limit: int): Fits {
    (part, line) => Size(part) + |line| + 1 <= limit
  }

  function SplitOversized(text: string, limit: int): seq<string> {
    if |text| <= limit then [text] else JoinEach(Grouped(Lines(text), RoomFor(limit)), "\n")
  }

  lemma {:induction false} SizeOfJoin(lines: seq<string>)
    requires lines != []
    ensures |Join(lines, "\n")| + 1 == Size(lines)
  {
    var front := lines[..|lines| - 1];
    if front != [] {
      SizeOfJoin(front);
      JoinSnoc(front, lines[|lines| - 1], "\n");
      assert front + [lines[|lines| - 1]] == lines;
    }
  }

  /** A part within the limit, or one whole line of the text. */
  ghost predicate FitsOrOneLine(part: string, text: string, limit: int) {
    |part| <= limit || part in Lines(text)
  }

  /** A group of lines that were put together has room for one more newline, or is one line. */
  lemma GroupFits(text: string, limit: int, i: nat)
    requires i < |Grouped(Lines(text), RoomFor(limit))|
    ensures var group := Grouped(Lines(text), RoomFor(limit))[i];
      group != [] && (|Join(group, "\n")| < limit || Join(group, "\n") in Lines(text))
  {
    var groups := Grouped(Lines(text), RoomFor(limit));
    GroupingKeepsItems(Lines(text), RoomFor(limit));
    GreedyAt(groups, i, RoomFor(limit));
    hide Grouped, Lines, GreedilyGrouped;
    if |groups[i]| == 1 {
      FlattenMember(groups, i, groups[i][0]);
    } else {
      var n := |groups[i]| - 1;
      assert RoomFor(limit)(groups[i][..n], groups[i][n]);
      SizeOfJoin(groups[i]);
    }
  }

  lemma SplitFits(text: string, limit: int)
    requires |text| > limit
    ensures forall part :: part in SplitOversized(text, limit) ==> |part| < limit || part in Lines(text)
  {
    var groups := Grouped(Lines(text), RoomFor(limit));
    forall i | 0 <= i < |groups|
      ensures |Join(groups[i], "\n")| < limit || Join(groups[i], "\n") in Lines(text)
    {
      GroupFits(text, limit, i);
    }
    hide Grouped, Lines, Join;
  }

  lemma SplitRejoins(text: string, limit: int)
    requires |text| > limit
    ensures Join(SplitOversized(text, limit), "\n") == text
  {
    var groups := Grouped(Lines(text), RoomFor(limit));
    GroupingKeepsItems(Lines(text), RoomFor(limit));
    forall i | 0 <= i < |groups|
      ensures groups[i] != []
    {
      GroupFits(text, limit, i);
    }
    JoinLines(text);
    JoinGroups(groups, "\n");
  }

  /** Nothing is lost in the split, and no line is cut: a part over the limit is one line on its own, and a text within it
      is not split at all. */
  lemma SplitRoundTrip(text: string, limit: int)
    ensures Join(SplitOversized(text, limit), "\n") == text
    ensures forall part :: part in SplitOversized(text, limit) ==> FitsOrOneLine(part, text, limit)
    ensures |text| <= limit ==> SplitOversized(text, limit) == [text]
    ensures |text| > limit ==> forall part :: part in SplitOversized(text, limit) ==> |part| < limit || part in Lines(text)
  {
    if |text| > limit {
      SplitFits(text, limit);
      SplitRejoins(text, limit);
      hide SplitOversized, Lines, Join;
    }
  }

  lemma {:induction false} FirstLine(line: string, rest: string)
    requires '\n' !in line && (rest == "" || rest[0] == '\n')
    ensures Lines(line + rest)[0] == line
  {
    if line == "" {
      assert line + rest == rest;
    } else {
      assert (line + rest)[1..] == line[1..] + rest;
      FirstLine(line[1..], rest);
    }
  }

  lemma FirstLineOfPart(part: seq<string>)
    requires part != [] && '\n' !in part[0]
    ensures Lines(Join(part, "\n"))[0] == part[0]
  {
    var rest := if |part| == 1 then "" else "\n" + Join(part[1..], "\n");
    assert Join(part, "\n") == part[0] + rest;
    FirstLine(part[0], rest);
  }

  /** No part could have taken the first line of the part after it. */
  lemma SplitIsGreedy(text: string, limit: int, i: nat)
    requires |text| > limit && i + 1 < |SplitOversized(text, limit)|
    ensures |SplitOversized(text, limit)[i]| + 1 + |Lines(SplitOversized(text, limit)[i + 1])[0]| + 1 > limit
  {
    var groups, j := Grouped(Lines(text), RoomFor(limit)), i + 1;
    GroupingKeepsItems(Lines(text), RoomFor(limit));
    GreedyAt(groups, i, RoomFor(limit));
    GreedyAt(groups, j, RoomFor(limit));
    SizeOfJoin(groups[i]);
    assert '\n' !in groups[j][0] by {
      JoinLines(text);
      FlattenMember(groups, j, groups[j][0]);
    }
    FirstLineOfPart(groups[j]);
  }

  lemma GroupOneMore(lines: seq<string>, i: nat, fits: Fits)
    requires i < |lines|
    ensures Grouped(lines[..i + 1], fits) == Placed(Grouped(lines[..i], fits), lines[i], fits)
  {
    assert lines[..i + 1][..i] == lines[..i];
  }

  lemma JoinOneMore(closed: seq<seq<string>>, part: seq<string>, sep: string)
    ensures JoinEach(closed + [part], sep) == JoinEach(closed, sep) + [Join(part, sep)]
  {
  }

  lemma SizeOneMore(part: seq<string>, line: string)
    ensures Size(part + [line]) == Size(part) + |line| + 1
  {
    assert (part + [line])[..|part|] == part;
  }

  method Split(text: string, limit: int) returns (parts: seq<string>)
    ensures parts == SplitOversized(text, limit)
  {
    if |text| <= limit {
      return [text];
    }
    var lines, room := Lines(text), RoomFor(limit);
    var current: seq<string>, size := [], 0;
    ghost var closed: seq<seq<string>> := [];
    parts := [];
    for i := 0 to |lines|
      invariant size == Size(current)
      invariant parts == JoinEach(closed, "\n")
      invariant if i == 0 then closed == [] && current == [] else current != [] && Grouped(lines[..i], room) == closed + [current]
    {
      GroupOneMore(lines, i, room);
      if current != [] && size + |lines[i]| + 1 > limit {
        JoinOneMore(closed, current, "\n");
        closed := closed + [current];
        parts := parts + [Join(current, "\n")];
        current, size := [], 0;
      }
      SizeOneMore(current, lines[i]);
      current := current + [lines[i]];
      size := size + |lines[i]| + 1;
    }
    assert lines[..|lines|] == lines;
    JoinOneMore(closed, current, "\n");
    if current != [] {
      parts := parts + [Join(current, "\n")];
    }
  }

  // ---------------------------------------------------------------------------
  // Merging spans that are too short
  // ---------------------------------------------------------------------------

  const GAP := "\n\n"

  function Folds(limit: int, floor: int): Fits {
    (group, span) => |span| < floor && |Join(group, GAP)| + |span| + 2 <= limit
  }

  function MergeSmall(spans: seq<string>, limit: int, floor: int): seq<string> {
    JoinEach(Grouped(spans, Folds(limit, floor)), GAP)
  }

  /** Merged only within the limit and only where undersized, and left undersized only where it would not have fitted into
      its predecessor. */
  ghost predicate WellMerged(groups: seq<seq<string>>, i: nat, limit: int, floor: int)
    requires i < |groups|
  {
    && groups[i] != []
    && (|groups[i]| == 1 || |Join(groups[i], GAP)| <= limit)
    && (forall k :: 1 <= k < |groups[i]| ==> |groups[i][k]| < floor)
    && (i > 0 ==> |groups[i][0]| >= floor || |Join(groups[i - 1], GAP)| + |groups[i][0]| + 2 > limit)
  }

  lemma FoldedFit(group: seq<string>, limit: int, floor: int)
    requires GrewByFitting(group, Folds(limit, floor))
    ensures |group| == 1 || |Join(group, GAP)| <= limit
    ensures forall k :: 1 <= k < |group| ==> |group[k]| < floor
  {
    hide Join;
    forall k | 1 <= k < |group|
      ensures |group[k]| < floor && |Join(group[..k], GAP)| + |group[k]| + 2 <= limit
    {
      assert Folds(limit, floor)(group[..k], group[k]);
    }
    if |group| > 1 {
      var n := |group| - 1;
      assert group[..n] + [group[n]] == group;
      JoinSnoc(group[..n], group[n], GAP);
    }
  }

  lemma GreedyIsWellMerged(groups: seq<seq<string>>, i: nat, limit: int, floor: int)
    requires i < |groups| && GreedilyGrouped(groups, Folds(limit, floor))
    ensures WellMerged(groups, i, limit, floor)
  {
    hide Join, GreedilyGrouped;
    GreedyAt(groups, i, Folds(limit, floor));
    FoldedFit(groups[i], limit, floor);
    hide GrewByFitting;
  }

  /** All spans survive, in order, and every group of them is well merged. */
  lemma MergeKeepsSpans(spans: seq<string>, limit: int, floor: int)
    ensures var groups := Grouped(spans, Folds(limit, floor));
      Flatten(groups) == spans && forall i :: 0 <= i < |groups| ==> WellMerged(groups, i, limit, floor)
  {
    var groups := Grouped(spans, Folds(limit, floor));
    GroupingKeepsItems(spans, Folds(limit, floor));
    forall i | 0 <= i < |groups|
      ensures WellMerged(groups, i, limit, floor)
    {
      GreedyIsWellMerged(groups, i, limit, floor);
    }
  }

  /** The merged spans after one more span. */
  function Folded(merged: seq<string>, span: string, limit: int, floor: int): seq<string> {
    var n := |merged| - 1;
    if merged != [] && |span| < floor && |merged[n]| + |span| + 2 <= limit
    then merged[n := merged[n] + GAP + span]
    else merged + [span]
  }

  lemma LastIsNotEmpty(items: seq<string>, fits: Fits)
    requires Grouped(items, fits) != []
    ensures Grouped(items, fits)[|Grouped(items, fits)| - 1] != []
  {
  }

  lemma MergeOneMore(spans: seq<string>, i: nat, limit: int, floor: int)
    requires i < |spans|
    ensures MergeSmall(spans[..i + 1], limit, floor) == Folded(MergeSmall(spans[..i], limit, floor), spans[i], limit, floor)
  {
    var groups, folds := Grouped(spans[..i], Folds(limit, floor)), Folds(limit, floor);
    assert spans[..i + 1][..i] == spans[..i];
    assert Grouped(spans[..i + 1], folds) == Placed(groups, spans[i], folds);
    if groups != [] {
      LastIsNotEmpty(spans[..i], folds);
      JoinSnoc(groups[|groups| - 1], spans[i], GAP);
    }
  }

  method Merge(spans: seq<string>, limit: int, floor: int) returns (merged: seq<string>)
    ensures merged == MergeSmall(spans, limit, floor)
  {
    merged := [];
    for i := 0 to |spans|
      invariant merged == MergeSmall(spans[..i], limit, floor)
    {
      var span := spans[i];
      MergeOneMore(spans, i, limit, floor);
      if merged != [] && |span| < floor && |merged[|merged| - 1]| + |span| + 2 <= limit {
        merged := merged[|merged| - 1 := merged[|merged| - 1] + GAP + span];
      } else {
        merged := merged + [span];
      }
    }
    assert spans[..|spans|] == spans;
  }

  // ---------------------------------------------------------------------------
  // Sections
  // ---------------------------------------------------------------------------

  datatype Section = Section(name: string, body: string)
  datatype Chunk = Chunk(ordinal: nat, section: string, content: string)

  /** The spans of one section, each within the size rules. */
  function Sized(spans: seq<string>, limit: int): seq<string> {
    if spans == [] then [] else Sized(spans[..|spans| - 1], limit) + SplitOversized(spans[|spans| - 1], limit)
  }

  /** A line of one of a section's entries. */
  ghost predicate LineOf(part: string, entries: seq<string>) {
    exists i :: 0 <= i < |entries| && part in Lines(entries[i])
  }

  lemma {:induction false} SizedFit(entries: seq<string>, limit: int, part: string)
    requires part in Sized(entries, limit)
    ensures |part| <= limit || LineOf(part, entries)
  {
    var front, last := entries[..|entries| - 1], entries[|entries| - 1];
    if part in SplitOversized(last, limit) {
      SplitRoundTrip(last, limit);
      assert FitsOrOneLine(part, last, limit);
    } else {
      SizedFit(front, limit, part);
      if LineOf(part, front) {
        var i :| 0 <= i < |front| && part in Lines(front[i]);
        assert front[i] == entries[i];
      }
    }
  }

  /** After splitting and merging, a span over the limit is a single whole line of the resume. */
  lemma SpansFit(entries: seq<string>, limit: int, floor: int, span: string)
    requires span in MergeSmall(Sized(entries, limit), limit, floor)
    ensures |span| <= limit || LineOf(span, entries)
  {
    hide Grouped, GreedilyGrouped, Sized, LineOf;
    var sized := Sized(entries, limit);
    var groups := Grouped(sized, Folds(limit, floor));
    GroupingKeepsItems(sized, Folds(limit, floor));
    var i :| 0 <= i < |groups| && JoinEach(groups, GAP)[i] == span;
    GreedyIsWellMerged(groups, i, limit, floor);
    if |groups[i]| == 1 {
      FlattenMember(groups, i, groups[i][0]);
      SizedFit(entries, limit, span);
    }
  }

  /** Each entry falls into parts that rejoin to it, and the parts come in order. */
  lemma {:induction false} SizedRejoins(entries: seq<string>, limit: int) returns (parts: seq<seq<string>>)
    ensures |parts| == |entries| && Flatten(parts) == Sized(entries, limit)
    ensures forall i :: 0 <= i < |entries| ==> Join(parts[i], "\n") == entries[i]
  {
    if entries == [] {
      parts := [];
    } else {
      var n := |entries| - 1;
      var front := SizedRejoins(entries[..n], limit);
      parts := front + [SplitOversized(entries[n], limit)];
      FlattenSnoc(front, SplitOversized(entries[n], limit));
      SplitRoundTrip(entries[n], limit);
    }
  }

  function SectionSpans(section: Section, entries: string -> seq<string>, limit: int, floor: int): seq<string> {
    if Strip(section.body) == "" then [] else MergeSmall(Sized(entries(section.body), limit), limit, floor)
  }

  /** The text of a section is all there: the spans ungroup, at blank lines, into parts, and the parts rejoin, at line ends,
      into the section's entries; a blank section has no spans. */
  lemma SectionTextSurvives(section: Section, entries: string -> seq<string>, limit: int, floor: int)
      returns (groups: seq<seq<string>>, parts: seq<seq<string>>)
    ensures Strip(section.body) == "" ==> SectionSpans(section, entries, limit, floor) == []
    ensures Strip(section.body) != "" ==>
      && SectionSpans(section, entries, limit, floor) == JoinEach(groups, "\n\n")
      && Flatten(groups) == Flatten(parts)
      && |parts| == |entries(section.body)|
      && forall i :: 0 <= i < |parts| ==> Join(parts[i], "\n") == entries(section.body)[i]
  {
    groups, parts := [], [];
    if Strip(section.body) != "" {
      var sized := Sized(entries(section.body), limit);
      groups := Grouped(sized, Folds(limit, floor));
      MergeKeepsSpans(sized, limit, floor);
      parts := SizedRejoins(entries(section.body), limit);
    }
  }

  function SectionChunks(section: Section, spans: seq<string>, ordinal: nat): seq<Chunk> {
    seq(|spans|, i requires 0 <= i < |spans| => Chunk(ordinal + i, section.name, "[" + section.name + "] " + spans[i]))
  }

  /** Every chunk the sections give, before the cap. */
  function Uncapped(sections: seq<Section>, entries: string -> seq<string>, limit: int, floor: int): seq<Chunk> {
    if sections == [] then []
    else
      var front, last := Uncapped(sections[..|sections| - 1], entries, limit, floor), sections[|sections| - 1];
      front + SectionChunks(last, SectionSpans(last, entries, limit, floor), |front|)
  }

  function Capped(chunks: seq<Chunk>, cap: int): seq<Chunk> {
    if cap <= 0 then [] else if |chunks| <= cap then chunks else chunks[..cap]
  }

  /** Ordinals are 0, 1, 2, ... with no gap, with or without the cap. */
  lemma {:induction false} OrdinalsAreConsecutive(sections: seq<Section>, entries: string -> seq<string>, limit: int, floor: int)
    ensures forall k :: 0 <= k < |Uncapped(sections, entries, limit, floor)| ==> Uncapped(sections, entries, limit, floor)[k].ordinal == k
  {
    if sections != [] {
      OrdinalsAreConsecutive(sections[..|sections| - 1], entries, limit, floor);
    }
  }

  /** More sections only add chunks after the ones already there. */
  lemma {:induction false} EarlierSectionsComeFirst(sections: seq<Section>, n: nat, entries: string -> seq<string>, limit: int, floor: int)
    requires n <= |sections|
    ensures Uncapped(sections[..n], entries, limit, floor) <= Uncapped(sections, entries, limit, floor)
  {
    if n == |sections| {
      assert sections[..n] == sections;
    } else {
      var front := sections[..|sections| - 1];
      EarlierSectionsComeFirst(front, n, entries, limit, floor);
      assert front[..n] == sections[..n];
    }
  }

  /** What the cap keeps of an overflowing start of the run is what it keeps of the whole run. */
  lemma CapOfPrefix(more: seq<Chunk>, all: seq<Chunk>, cap: int)
    requires more <= all && Capped(more, cap) != more
    ensures Capped(more, cap) == Capped(all, cap)
  {
    if cap > 0 {
      assert more[..cap] == all[..cap];
    }
  }

  /** The cap keeps the first chunks, as many as it allows. */
  lemma CapKeepsTheFirst(chunks: seq<Chunk>, cap: int)
    ensures Capped(chunks, cap) <= chunks
    ensures |Capped(chunks, cap)| == if cap < 0 then 0 else if cap < |chunks| then cap else |chunks|
  {
  }

  lemma OneMoreSection(sections: seq<Section>, i: nat, entries: string -> seq<string>, limit: int, floor: int)
    requires i < |sections|
    ensures var chunks := Uncapped(sections[..i], entries, limit, floor);
      Uncapped(sections[..i + 1], entries, limit, floor)
      == chunks + SectionChunks(sections[i], SectionSpans(sections[i], entries, limit, floor), |chunks|)
  {
    var upTo := sections[..i + 1];
    assert upTo[..i] == sections[..i] && upTo[i] == sections[i];
  }

  lemma SectionChunkAt(section: Section, spans: seq<string>, ordinal: nat, j: nat)
    requires j < |spans|
    ensures |SectionChunks(section, spans, ordinal)| == |spans|
    ensures SectionChunks(section, spans, ordinal)[j] == Chunk(ordinal + j, section.name, "[" + section.name + "] " + spans[j])
  {
  }

  lemma MiddleOf(before: seq<Chunk>, own: seq<Chunk>, all: seq<Chunk>, j: nat)
    requires before + own <= all && j < |own|
    ensures |before| + j < |all| && all[|before| + j] == own[j]
  {
    assert (before + own)[|before| + j] == own[j];
  }

  /** Every span of every section has its chunk, in order, with its section's name and its whole text. */
  lemma EverySpanHasItsChunk(sections: seq<Section>, i: nat, j: nat, entries: string -> seq<string>, limit: int, floor: int)
    requires i < |sections| && j < |SectionSpans(sections[i], entries, limit, floor)|
    ensures var all, before := Uncapped(sections, entries, limit, floor), |Uncapped(sections[..i], entries, limit, floor)|;
      var name, span := sections[i].name, SectionSpans(sections[i], entries, limit, floor)[j];
      before + j < |all| && all[before + j] == Chunk(before + j, name, "[" + name + "] " + span)
  {
    hide Uncapped, SectionSpans, SectionChunks;
    var before, spans := Uncapped(sections[..i], entries, limit, floor), SectionSpans(sections[i], entries, limit, floor);
    OneMoreSection(sections, i, entries, limit, floor);
    EarlierSectionsComeFirst(sections, i + 1, entries, limit, floor);
    SectionChunkAt(sections[i], spans, |before|, j);
    MiddleOf(before, SectionChunks(sections[i], spans, |before|), Uncapped(sections, entries, limit, floor), j);
  }

  /** And there are no other chunks. */
  lemma {:induction false} EveryChunkHasItsSpan(sections: seq<Section>, k: nat, entries: string -> seq<string>, limit: int, floor: int)
      returns (i: nat, j: nat)
    requires k < |Uncapped(sections, entries, limit, floor)|
    ensures i < |sections| && j < |SectionSpans(sections[i], entries, limit, floor)|
    ensures k == |Uncapped(sections[..i], entries, limit, floor)| + j
  {
    var n := |sections| - 1;
    var front := Uncapped(sections[..n], entries, limit, floor);
    if k < |front| {
      i, j := EveryChunkHasItsSpan(sections[..n], k, entries, limit, floor);
      assert sections[..n][..i] == sections[..i];
    } else {
      i, j := n, k - |front|;
    }
  }

  method SizeSpans(spans: seq<string>, limit: int) returns (sized: seq<string>)
    ensures sized == Sized(spans, limit)
  {
    sized := [];
    for i := 0 to |spans|
      invariant sized == Sized(spans[..i], limit)
    {
      assert spans[..i + 1][..i] == spans[..i];
      var parts := Split(spans[i], limit);
      sized := sized + parts;
    }
    assert spans[..|spans|] == spans;
  }

  method SpansOf(section: Section, entries: string -> seq<string>, limit: int, floor: int) returns (spans: seq<string>)
    ensures spans == SectionSpans(section, entries, limit, floor)
  {
    if Strip(section.body) == "" {
      return [];
    }
    var sized := SizeSpans(entries(section.body), limit);
    spans := Merge(sized, limit, floor);
  }

  /** One section's chunks; `full` when the cap was met with a span still to come. */
  method AddSection(section: Section, spans: seq<string>, chunks: seq<Chunk>, cap: int) returns (more: seq<Chunk>, full: bool)
    requires |chunks| <= cap || chunks == []
    ensures more == Capped(chunks + SectionChunks(section, spans, |chunks|), cap)
    ensures full <==> more != chunks + SectionChunks(section, spans, |chunks|)
  {
    more, full := chunks, false;
    ghost var all := chunks + SectionChunks(section, spans, |chunks|);
    for k := 0 to |spans|
      invariant more == all[..|chunks| + k]
      invariant |more| <= cap || more == []
    {
      if |more| >= cap {
        return more, true;
      }
      var chunk := Chunk(|more|, section.name, "[" + section.name + "] " + spans[k]);
      assert chunk == all[|chunks| + k];
      more := more + [chunk];
    }
  }

  /** The cap keeps exactly the first chunks of the uncapped run. */
  method ChunkSections(sections: seq<Section>, entries: string -> seq<string>, limit: int, floor: int, cap: int)
      returns (chunks: seq<Chunk>)
    ensures chunks == Capped(Uncapped(sections, entries, limit, floor), cap)
  {
    chunks := [];
    for i := 0 to |sections|
      invariant chunks == Uncapped(sections[..i], entries, limit, floor)
      invariant |chunks| <= cap || chunks == []
    {
      OneMoreSection(sections, i, entries, limit, floor);
      var spans := SpansOf(sections[i], entries, limit, floor);
      var full;
      chunks, full := AddSection(sections[i], spans, chunks, cap);
      if full {
        EarlierSectionsComeFirst(sections, i + 1, entries, limit, floor);
        CapOfPrefix(Uncapped(sections[..i + 1], entries, limit, floor), Uncapped(sections, entries, limit, floor), cap);
        return;
      }
    }
    assert sections[..|sections|] == sections;
  }
}
