/**
 * `split_text` of Bale_Bot.py and telegram_bot.py: text over the limit is cut
 * at single spaces into chunks; every chunk but the last is closed with a
 * blank line and the end marker, and every chunk after the first is opened
 * with the start marker and a blank line.
 *
 * The loop is specified by `Groups`, which says which words end up in which
 * chunk; the chunk strings are then a function of the groups.
 */
module WordChunker {
  import opened Text
  import opened Wrappers

  /** The blank line between a marker and the text. */
  const Gap: string := "\n\n"

  /** The exception telegram_bot.py raises when it reaches its missing start marker. */
  const MissingStart: string := "'TelegramBot' object has no attribute 'continuation_start'"

  /**
   * What `current_chunk` holds once a group's words have been added: the first
   * buffer starts empty and gains `" " + word` per word; every later buffer is
   * seeded with `start + "\n\n" + word` and gains `" " + word` after that.
   */
  function Body(group: seq<string>, first: bool, start: string): string {
    if first then (if group == [] then [] else " " + Join(group, ' '))
    else start + Gap + Join(group, ' ')
  }

  /** Adding a word to a buffer appends one space and the word. */
  lemma BodySnoc(group: seq<string>, w: string, first: bool, start: string)
    requires first || group != []
    ensures Body(group + [w], first, start) == Body(group, first, start) + " " + w
  {
    if group == [] {
      assert group + [w] == [w];
    } else {
      JoinSnoc(group, w, ' ');
    }
  }

  /** The groups of a split so far: at least the first one; every later one holds a word. */
  predicate Shaped(gs: seq<seq<string>>) {
    |gs| >= 1 && forall j :: 1 <= j < |gs| ==> gs[j] != []
  }

  /** The open buffer (`current_chunk`) of a grouping. */
  function Open(gs: seq<seq<string>>, start: string): string
    requires |gs| >= 1
  {
    Body(gs[|gs| - 1], |gs| == 1, start)
  }

  /** Does the word `w` fail to fit behind the open buffer? (the test at line 38) */
  predicate Overflows(gs: seq<seq<string>>, w: string, maxLength: int, start: string)
    requires |gs| >= 1
  {
    |Open(gs, start)| + |w| + 1 > maxLength
  }

  /** One iteration of the word loop: open a new group, or grow the open one. */
  function Step(gs: seq<seq<string>>, w: string, maxLength: int, start: string): (gs': seq<seq<string>>)
    requires Shaped(gs)
    ensures Shaped(gs')
  {
    if Overflows(gs, w, maxLength, start) then gs + [[w]]
    else gs[..|gs| - 1] + [gs[|gs| - 1] + [w]]
  }

  /** The words grouped chunk by chunk, as the loop forms them. */
  function Groups(words: seq<string>, maxLength: int, start: string): (gs: seq<seq<string>>)
    ensures Shaped(gs)
  {
    if words == [] then [[]]
    else Step(Groups(words[..|words| - 1], maxLength, start), words[|words| - 1], maxLength, start)
  }

  lemma GroupsStep(words: seq<string>, i: nat, maxLength: int, start: string)
    requires i < |words|
    ensures Groups(words[..i + 1], maxLength, start) ==
            Step(Groups(words[..i], maxLength, start), words[i], maxLength, start)
  {
    assert words[..i + 1][..i] == words[..i];
  }

  /** The closed chunks: every group but the last, stripped, with the end marker. */
  function Closed(gs: seq<seq<string>>, start: string, end: string): (cs: seq<string>)
    requires |gs| >= 1
    ensures |cs| == |gs| - 1
  {
    seq(|gs| - 1, j requires 0 <= j < |gs| - 1 => Strip(Body(gs[j], j == 0, start)) + Gap + end)
  }

  /** All chunks: the closed ones, then the open buffer stripped, when it is not empty. */
  function Chunks(gs: seq<seq<string>>, start: string, end: string): seq<string>
    requires |gs| >= 1
  {
    Closed(gs, start, end) + (if Open(gs, start) != [] then [Strip(Open(gs, start))] else [])
  }

  /** Bale_Bot.py `split_text`, as a function of its inputs. */
  function SplitText(text: string, maxLength: int, start: string, end: string): seq<string> {
    if |text| <= maxLength then [text]
    else Chunks(Groups(Split(text, ' '), maxLength, start), start, end)
  }

  /** The words of all groups, in order. */
  function Flatten(gs: seq<seq<string>>): seq<string> {
    if gs == [] then [] else Flatten(gs[..|gs| - 1]) + gs[|gs| - 1]
  }

  lemma FlattenSnoc(gs: seq<seq<string>>, g: seq<string>)
    ensures Flatten(gs + [g]) == Flatten(gs) + g
  {
    assert (gs + [g])[..|gs|] == gs;
  }

  /** What one step does to the closed chunks and to the open buffer. */
  lemma StepEffect(gs: seq<seq<string>>, w: string, maxLength: int, start: string, end: string)
    requires Shaped(gs)
    ensures var gs' := Step(gs, w, maxLength, start);
            if Overflows(gs, w, maxLength, start) then
              Closed(gs', start, end) == Closed(gs, start, end) + [Strip(Open(gs, start)) + Gap + end] &&
              Open(gs', start) == start + Gap + w
            else
              Closed(gs', start, end) == Closed(gs, start, end) &&
              Open(gs', start) == Open(gs, start) + " " + w
  {
    var gs' := Step(gs, w, maxLength, start);
    var l, r := Closed(gs', start, end), Closed(gs, start, end);
    if Overflows(gs, w, maxLength, start) {
      forall j | 0 <= j < |r| ensures l[j] == r[j] {
        assert gs'[j] == gs[j];
      }
      assert l == r + [l[|r|]];
      assert Join([w], ' ') == w;
    } else {
      forall j | 0 <= j < |r| ensures l[j] == r[j] {
        assert gs'[j] == gs[j];
      }
      BodySnoc(gs[|gs| - 1], w, |gs| == 1, start);
    }
  }

  /**
   * `split_text` itself. `start` is `None` for telegram_bot.py, whose
   * `continuation_start` is never assigned: reaching line 41 raises there.
   */
  method SplitChunks(text: string, maxLength: int, start: Option<string>, end: string)
    returns (r: Result<seq<string>>)
    ensures |text| <= maxLength ==> r == Ok([text])
    ensures start.Some? ==> r == Ok(SplitText(text, maxLength, start.value, end))
    ensures start.None? ==> (r.Ok? <==> |text| <= maxLength)
    ensures r.Err? ==> r.message == MissingStart
  {
    if |text| <= maxLength {
      return Ok([text]);
    }
    var s := if start.Some? then start.value else [];
    var words := Split(text, ' ');
    OverLimitSplits(text, maxLength, s);
    var chunks: seq<string> := [];
    var current: string := [];
    var i := 0;
    while i < |words|
      invariant 0 <= i <= |words|
      invariant chunks == Closed(Groups(words[..i], maxLength, s), s, end)
      invariant current == Open(Groups(words[..i], maxLength, s), s)
      invariant start.None? ==> |Groups(words[..i], maxLength, s)| == 1
    {
      var word := words[i];
      GroupsStep(words, i, maxLength, s);
      StepEffect(Groups(words[..i], maxLength, s), word, maxLength, s, end);
      if |current| + |word| + 1 > maxLength {
        if start.None? {
          return Err(MissingStart);
        }
        chunks := chunks + [Strip(current) + Gap + end];
        current := s + Gap + word;
      } else {
        current := current + " " + word;
      }
      i := i + 1;
    }
    assert words[..i] == words;
    if current != [] {
      chunks := chunks + [Strip(current)];
    }
    return Ok(chunks);
  }

  lemma StepFlatten(gs: seq<seq<string>>, w: string, maxLength: int, start: string)
    requires Shaped(gs)
    ensures Flatten(Step(gs, w, maxLength, start)) == Flatten(gs) + [w]
  {
    var last := |gs| - 1;
    if Overflows(gs, w, maxLength, start) {
      FlattenSnoc(gs, [w]);
    } else {
      assert gs == gs[..last] + [gs[last]];
      FlattenSnoc(gs[..last], gs[last]);
      FlattenSnoc(gs[..last], gs[last] + [w]);
    }
  }

  /** Every word lands in exactly one group, in input order: nothing is lost, cut or repeated. */
  lemma {:induction false} GroupsFlatten(words: seq<string>, maxLength: int, start: string)
    ensures Flatten(Groups(words, maxLength, start)) == words
    decreases |words|
  {
    if words != [] {
      var n := |words| - 1;
      assert words[..n] + [words[n]] == words;
      GroupsFlatten(words[..n], maxLength, start);
      StepFlatten(Groups(words[..n], maxLength, start), words[n], maxLength, start);
    }
  }

  /** Every body is within the limit unless it is a later group seeded with one word. */
  predicate WithinLimit(gs: seq<seq<string>>, maxLength: int, start: string) {
    forall j :: 0 <= j < |gs| ==>
      |Body(gs[j], j == 0, start)| <= maxLength || (j > 0 && |gs[j]| == 1)
  }

  lemma StepWithinLimit(gs: seq<seq<string>>, w: string, maxLength: int, start: string)
    requires Shaped(gs) && WithinLimit(gs, maxLength, start)
    ensures WithinLimit(Step(gs, w, maxLength, start), maxLength, start)
  {
    var gs' := Step(gs, w, maxLength, start);
    var last := |gs| - 1;
    if !Overflows(gs, w, maxLength, start) {
      BodySnoc(gs[last], w, last == 0, start);
    }
    forall j | 0 <= j < |gs'|
      ensures |Body(gs'[j], j == 0, start)| <= maxLength || (j > 0 && |gs'[j]| == 1)
    {
      if j < last || (j == last && Overflows(gs, w, maxLength, start)) {
        assert gs'[j] == gs[j];
      }
    }
  }

  /**
   * A buffer only grows while it stays within `maxLength`; the only bodies that
   * exceed it are the ones seeded with a single word (marker plus that word).
   */
  lemma {:induction false} GroupsWithinLimit(words: seq<string>, maxLength: int, start: string)
    requires maxLength >= 0
    ensures WithinLimit(Groups(words, maxLength, start), maxLength, start)
    decreases |words|
  {
    if words == [] {
      assert Body([], true, start) == [];
    } else {
      var n := |words| - 1;
      GroupsWithinLimit(words[..n], maxLength, start);
      StepWithinLimit(Groups(words[..n], maxLength, start), words[n], maxLength, start);
    }
  }

  /** Each closed group was closed because the next group's first word did not fit behind it. */
  predicate Greedy(gs: seq<seq<string>>, maxLength: int, start: string)
    requires Shaped(gs)
  {
    forall j :: 0 <= j < |gs| - 1 ==> |Body(gs[j], j == 0, start)| + 1 + |gs[j + 1][0]| > maxLength
  }

  lemma StepGreedy(gs: seq<seq<string>>, w: string, maxLength: int, start: string)
    requires Shaped(gs) && Greedy(gs, maxLength, start)
    ensures Greedy(Step(gs, w, maxLength, start), maxLength, start)
  {
    var gs' := Step(gs, w, maxLength, start);
    var last := |gs| - 1;
    forall j | 0 <= j < |gs'| - 1
      ensures |Body(gs'[j], j == 0, start)| + 1 + |gs'[j + 1][0]| > maxLength
    {
      assert gs'[j] == gs[j];
      if j + 1 < last {
        assert gs'[j + 1] == gs[j + 1];
      } else if j + 1 == last {
        assert gs'[j + 1][0] == gs[j + 1][0];
      }
    }
  }

  /** The split is greedy: no group could have taken the next group's first word. */
  lemma {:induction false} GroupsGreedy(words: seq<string>, maxLength: int, start: string)
    ensures Greedy(Groups(words, maxLength, start), maxLength, start)
    decreases |words|
  {
    if words != [] {
      var n := |words| - 1;
      GroupsGreedy(words[..n], maxLength, start);
      StepGreedy(Groups(words[..n], maxLength, start), words[n], maxLength, start);
    }
  }

  /** When the very first word does not fit, the first group stays empty for good. */
  lemma {:induction false} FirstWordOverflows(words: seq<string>, maxLength: int, start: string)
    requires words != [] && |words[0]| + 1 > maxLength
    ensures var gs := Groups(words, maxLength, start); |gs| >= 2 && gs[0] == []
    decreases |words|
  {
    var n := |words| - 1;
    if n == 0 {
      assert Groups(words[..0], maxLength, start) == [[]];
    } else {
      assert words[..n][0] == words[0];
      FirstWordOverflows(words[..n], maxLength, start);
    }
  }

  /** Without a split the whole text is one buffer, which then fits the limit. */
  lemma SingleGroupFits(words: seq<string>, maxLength: int, start: string)
    requires maxLength >= 0
    ensures |Groups(words, maxLength, start)| == 1 ==> |Body(words, true, start)| <= maxLength
  {
    var gs := Groups(words, maxLength, start);
    if |gs| == 1 {
      GroupsFlatten(words, maxLength, start);
      GroupsWithinLimit(words, maxLength, start);
      assert gs[..0] == [];
      assert gs[0] == words;
    }
  }

  /** Text over the limit always reaches the split branch at least once. */
  lemma OverLimitSplits(text: string, maxLength: int, start: string)
    requires |text| > maxLength
    ensures |Groups(Split(text, ' '), maxLength, start)| >= 2
  {
    var words := Split(text, ' ');
    JoinSplit(text, ' ');
    assert Body(words, true, start) == " " + text;
    if maxLength < 0 {
      FirstWordOverflows(words, maxLength, start);
    } else {
      SingleGroupFits(words, maxLength, start);
    }
  }

  /** With at least one split there is one chunk per group: closed ones carry the end marker, the last does not. */
  lemma ChunksShape(gs: seq<seq<string>>, start: string, end: string)
    requires Shaped(gs) && |gs| >= 2
    ensures |Chunks(gs, start, end)| == |gs|
    ensures forall j :: 0 <= j < |gs| - 1 ==>
              Chunks(gs, start, end)[j] == Strip(Body(gs[j], j == 0, start)) + Gap + end
    ensures Chunks(gs, start, end)[|gs| - 1] == Strip(Body(gs[|gs| - 1], false, start))
  {
    assert Open(gs, start) == start + Gap + Join(gs[|gs| - 1], ' ');
    assert Open(gs, start) != [];
  }

  /** Text over the limit is cut into the chunks of its word groups, of which there are at least two. */
  lemma OverLimitChunks(text: string, maxLength: int, start: string, end: string)
    requires |text| > maxLength
    ensures var gs := Groups(Split(text, ' '), maxLength, start);
            |gs| >= 2 && SplitText(text, maxLength, start, end) == Chunks(gs, start, end)
  {
    OverLimitSplits(text, maxLength, start);
  }

  /** Every closed chunk ends with the blank line and the end marker. */
  lemma ClosedChunksEndWithMarker(gs: seq<seq<string>>, start: string, end: string)
    requires Shaped(gs) && |gs| >= 2
    ensures forall j :: 0 <= j < |gs| - 1 ==> EndsWith(Chunks(gs, start, end)[j], Gap + end)
  {
    var cs := Chunks(gs, start, end);
    var closed := Closed(gs, start, end);
    assert cs[..|closed|] == closed;
    forall j | 0 <= j < |gs| - 1 ensures EndsWith(cs[j], Gap + end) {
      assert cs[j] == closed[j];
      EndsWithAppend(Strip(Body(gs[j], j == 0, start)), Gap + end);
    }
  }

  /**
   * With a start marker whose ends are not whitespace (the Bale marker), every
   * chunk after the first is that marker, then the group's words behind a blank
   * line (right-trimmed), then the end marker unless it is the last chunk.
   */
  lemma LaterChunksOpenWithMarker(gs: seq<seq<string>>, start: string, end: string)
    requires Shaped(gs) && |gs| >= 2
    requires start != [] && !IsSpace(start[0]) && !IsSpace(start[|start| - 1])
    ensures forall j :: 1 <= j < |gs| - 1 ==>
              Chunks(gs, start, end)[j] == start + TrimRight(Gap + Join(gs[j], ' ')) + Gap + end
    ensures Chunks(gs, start, end)[|gs| - 1] == start + TrimRight(Gap + Join(gs[|gs| - 1], ' '))
  {
    ChunksShape(gs, start, end);
    forall j | 1 <= j < |gs|
      ensures Strip(Body(gs[j], false, start)) == start + TrimRight(Gap + Join(gs[j], ' '))
    {
      assert Body(gs[j], false, start) == start + (Gap + Join(gs[j], ' '));
      StripAfterWord(start, Gap + Join(gs[j], ' '));
    }
  }

  /** A first word too long for the limit leaves the first chunk with only the end marker. */
  lemma FirstWordTooLong(text: string, maxLength: int, start: string, end: string)
    requires |text| > maxLength
    requires |Split(text, ' ')[0]| + 1 > maxLength
    ensures SplitText(text, maxLength, start, end)[0] == Gap + end
  {
    var words := Split(text, ' ');
    var gs := Groups(words, maxLength, start);
    OverLimitChunks(text, maxLength, start, end);
    FirstWordOverflows(words, maxLength, start);
    ChunksShape(gs, start, end);
    assert Body(gs[0], true, start) == [];
    assert Strip([]) == [];
  }

  /**
   * The limit holds up to the markers: a chunk's text (before the end marker)
   * exceeds `maxLength` only when it holds a single word.
   */
  lemma ChunkLengths(words: seq<string>, maxLength: int, start: string, end: string)
    requires maxLength >= 0
    requires |Groups(words, maxLength, start)| >= 2
    ensures var gs := Groups(words, maxLength, start);
            var cs := Chunks(gs, start, end);
            (forall j :: 0 <= j < |gs| - 1 ==> |cs[j]| <= maxLength + |Gap + end| || |gs[j]| == 1) &&
            (|cs[|gs| - 1]| <= maxLength || |gs[|gs| - 1]| == 1)
  {
    var gs := Groups(words, maxLength, start);
    ChunksShape(gs, start, end);
    GroupsWithinLimit(words, maxLength, start);
  }

  /** `split_text` always returns at least one chunk, so `chunks[0]` exists. */
  lemma SplitTextNonEmpty(text: string, maxLength: int, start: string, end: string)
    ensures |SplitText(text, maxLength, start, end)| >= 1
  {
    if |text| > maxLength {
      OverLimitChunks(text, maxLength, start, end);
      ChunksShape(Groups(Split(text, ' '), maxLength, start), start, end);
    }
  }
}
