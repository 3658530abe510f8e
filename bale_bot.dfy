/**
 * The Bale adapter of Bale_Bot.py: `send_text_message` (one retry after a
 * flood error), `send_photo_with_caption` (file checks, caption split at
 * 1024, restart of the whole call after a flood error), `run` (split at 950,
 * one send per chunk, a one-second pause after each) and
 * `send_batch_messages`.
 */
module BaleBot {
  import opened Text
  import opened Wrappers
  import opened Channel
  import RetryTime
  import WordChunker

  /** `MAX_MESSAGE_LENGTH`: `run` splits text at this length. */
  const MaxMessageLength: nat := 950

  /** The length `send_photo_with_caption` splits its caption at. */
  const CaptionLength: nat := 1024

  /** `continuation_start` and `continuation_end`. */
  datatype Markers = Markers(start: string, end: string)

  /** `split_text` of the Bale bot, which always has both markers. */
  function BaleSplit(m: Markers, text: string, maxLength: nat): (r: seq<string>)
    ensures |r| >= 1
    ensures |text| <= maxLength ==> r == [text]
  {
    WordChunker.SplitTextNonEmpty(text, maxLength, m.start, m.end);
    WordChunker.SplitText(text, maxLength, m.start, m.end)
  }

  method SplitText(m: Markers, text: string, maxLength: nat) returns (chunks: seq<string>)
    ensures chunks == BaleSplit(m, text, maxLength)
  {
    var r := WordChunker.SplitChunks(text, maxLength, Some(m.start), m.end);
    chunks := r.value;
  }

  /**
   * `send_text_message`: on a flood error, sleep the parsed time and send once
   * more, letting a second failure escape; any other error is printed.
   */
  function SendTextSpec(w: World, text: string): (r: (World, Status))
    ensures |r.0.script| <= |w.script|
    ensures r.1.Raised? ==> |r.0.script| < |w.script|
  {
    var (w1, o) := Send(w, Message(text));
    if IsFlood(o) then
      var (w2, o2) := Send(Sleep(w1, RetryTime.BaleRetryTime(o.message)), Message(text));
      (w2, if o2.Ok? then Done else Raised(o2.message))
    else (w1, Done)
  }

  /** `for chunk in chunks[1:]: await self.send_text_message(bot, chunk)`, stopping at an escaping error. */
  function SendTextsSpec(w: World, chunks: seq<string>): (r: (World, Status))
    ensures |r.0.script| <= |w.script|
    ensures r.1.Raised? ==> |r.0.script| < |w.script|
    decreases |chunks|
  {
    if chunks == [] then (w, Done)
    else
      var (w1, s) := SendTextSpec(w, chunks[0]);
      if s.Raised? then (w1, s) else SendTextsSpec(w1, chunks[1..])
  }

  method SendTexts(w0: World, chunks: seq<string>) returns (w: World, s: Status)
    ensures (w, s) == SendTextsSpec(w0, chunks)
  {
    w := w0;
    var i := 0;
    while i < |chunks|
      invariant 0 <= i <= |chunks|
      invariant SendTextsSpec(w, chunks[i..]) == SendTextsSpec(w0, chunks)
    {
      assert chunks[i..][1..] == chunks[i + 1..];
      var w1, s1 := SendTextSpec(w, chunks[i]).0, SendTextSpec(w, chunks[i]).1;
      if s1.Raised? {
        return w1, s1;
      }
      w := w1;
      i := i + 1;
    }
    return w, Done;
  }

  /** The extensions `send_photo_with_caption` accepts, compared with the lower-cased path. */
  const Extensions: seq<string> := [".jpg", ".jpeg", ".png", ".gif"]

  predicate ValidExtension(path: string) {
    exists k :: 0 <= k < |Extensions| && EndsWith(Lower(path), Extensions[k])
  }

  /**
   * The three checks that make `send_photo_with_caption` return early, and the
   * `open` whose failure its `except` catches (not a flood error, so nothing is
   * sent either way).
   */
  predicate PhotoUsable(files: Files, path: string) {
    Exists(files, path) && Readable(files, path) && ValidExtension(path) && Openable(files, path)
  }

  /**
   * `send_photo_with_caption`. Everything runs inside one `try`: a flood
   * error, from the photo or from a text chunk whose retry failed too, makes
   * it sleep and start the whole call over; any other error is printed. It
   * never raises.
   */
  function SendPhotoSpec(m: Markers, files: Files, w: World, text: string, path: string): (r: World)
    ensures |r.script| <= |w.script|
    decreases |w.script|
  {
    if !PhotoUsable(files, path) then w
    else
      var chunks := BaleSplit(m, text, CaptionLength);
      var (w1, o) := Send(w, Photo(path, chunks[0]));
      if o.Err? then
        if Contains(o.message, FloodMarker)
        then SendPhotoSpec(m, files, Sleep(w1, RetryTime.BaleRetryTime(o.message)), text, path)
        else w1
      else
        var (w2, s) := SendTextsSpec(w1, chunks[1..]);
        if s.Raised? && Contains(s.message, FloodMarker)
        then SendPhotoSpec(m, files, Sleep(w2, RetryTime.BaleRetryTime(s.message)), text, path)
        else w2
  }

  method SendPhotoWithCaption(m: Markers, files: Files, w0: World, text: string, path: string) returns (w: World)
    ensures w == SendPhotoSpec(m, files, w0, text, path)
    decreases |w0.script|
  {
    if !(Exists(files, path) && Readable(files, path) && ValidExtension(path)) {
      return w0;
    }
    var chunks := SplitText(m, text, CaptionLength);
    if !Openable(files, path) {
      return w0;
    }
    var w1, o := Send(w0, Photo(path, chunks[0])).0, Send(w0, Photo(path, chunks[0])).1;
    var error: Option<string> := None;
    if o.Err? {
      error := Some(o.message);
      w := w1;
    } else {
      var s;
      w, s := SendTexts(w1, chunks[1..]);
      if s.Raised? {
        error := Some(s.message);
      }
    }
    if error.Some? && Contains(error.value, FloodMarker) {
      var retryAfter := RetryTime.BaleRetryTime(error.value);
      w := SendPhotoWithCaption(m, files, Sleep(w, retryAfter), text, path);
    }
  }

  /** `if photo_path:` — `None` and the empty path both mean no photo. */
  predicate HasPhoto(photo: Option<string>) {
    photo.Some? && photo.value != []
  }

  /**
   * The chunk loop of `run`: each chunk goes with the photo (which never
   * raises) or as text, then a one-second pause; an escaping text error ends
   * the loop, caught by `run`.
   */
  function RunChunksSpec(m: Markers, files: Files, w: World, chunks: seq<string>, photo: Option<string>): World
    decreases |chunks|
  {
    if chunks == [] then w
    else if HasPhoto(photo) then
      RunChunksSpec(m, files, Sleep(SendPhotoSpec(m, files, w, chunks[0], photo.value), 1), chunks[1..], photo)
    else
      var (w1, s) := SendTextSpec(w, chunks[0]);
      if s.Raised? then w1 else RunChunksSpec(m, files, Sleep(w1, 1), chunks[1..], photo)
  }

  /** `run`: split at 950, then the chunk loop; it never raises. */
  function RunSpec(m: Markers, files: Files, w: World, text: string, photo: Option<string>): World {
    RunChunksSpec(m, files, w, BaleSplit(m, text, MaxMessageLength), photo)
  }

  method Run(m: Markers, files: Files, w0: World, text: string, photo: Option<string>) returns (w: World)
    ensures w == RunSpec(m, files, w0, text, photo)
  {
    var chunks := SplitText(m, text, MaxMessageLength);
    w := w0;
    var i := 0;
    while i < |chunks|
      invariant 0 <= i <= |chunks|
      invariant RunChunksSpec(m, files, w, chunks[i..], photo) == RunSpec(m, files, w0, text, photo)
    {
      assert chunks[i..][1..] == chunks[i + 1..];
      if HasPhoto(photo) {
        w := SendPhotoWithCaption(m, files, w, chunks[i], photo.value);
      } else {
        var s;
        w, s := SendTextSpec(w, chunks[i]).0, SendTextSpec(w, chunks[i]).1;
        if s.Raised? {
          return;
        }
      }
      w := Sleep(w, 1);
      i := i + 1;
    }
  }

  /** One entry of `messages`: its `"text"` (default `""`) and its `"photo"`. */
  datatype Item = Item(text: string, photo: Option<string>)

  /** Every message in order: `run`, then the pause of `delay` seconds. */
  function DeliverAll(m: Markers, files: Files, w: World, items: seq<Item>, delay: nat): World
    decreases |items|
  {
    if items == [] then w
    else DeliverAll(m, files, Sleep(RunSpec(m, files, w, items[0].text, items[0].photo), delay), items[1..], delay)
  }

  /** The error `range(0, n, 0)` raises. */
  const ZeroStep: string := "range() arg 3 must not be zero"

  /**
   * `send_batch_messages` with the batching taken away: a zero batch size
   * raises, a negative one sends nothing, and any other one delivers every
   * message once, in order.
   */
  function BatchSpec(m: Markers, files: Files, w: World, items: seq<Item>, batchSize: int, delay: nat): (World, Status) {
    if batchSize == 0 then (w, Raised(ZeroStep))
    else if batchSize < 0 then (w, Done)
    else (DeliverAll(m, files, w, items, delay), Done)
  }

  /** `send_batch_messages`: slices of `batchSize` messages, each message of a slice in turn. */
  method SendBatchMessages(m: Markers, files: Files, w0: World, items: seq<Item>, batchSize: int, delay: nat)
    returns (w: World, s: Status)
    ensures (w, s) == BatchSpec(m, files, w0, items, batchSize, delay)
  {
    w := w0;
    if batchSize == 0 {
      return w, Raised(ZeroStep);
    }
    if batchSize < 0 {
      return w, Done;
    }
    var i := 0;
    while i < |items|
      invariant 0 <= i <= |items|
      invariant DeliverAll(m, files, w, items[i..], delay) == DeliverAll(m, files, w0, items, delay)
    {
      var hi := if i + batchSize <= |items| then i + batchSize else |items|;
      BatchSliceStep(m, files, w, items, i, hi, delay);
      w := SendBatch(m, files, w, items[i..hi], delay);
      i := hi;
    }
    assert items[i..] == [];
    return w, Done;
  }

  /** The inner loop of `send_batch_messages`: every message of one slice in turn. */
  method SendBatch(m: Markers, files: Files, w0: World, batch: seq<Item>, delay: nat) returns (w: World)
    ensures w == DeliverAll(m, files, w0, batch, delay)
  {
    w := w0;
    var j := 0;
    while j < |batch|
      invariant 0 <= j <= |batch|
      invariant DeliverAll(m, files, w, batch[j..], delay) == DeliverAll(m, files, w0, batch, delay)
    {
      assert batch[j..][1..] == batch[j + 1..];
      w := Run(m, files, w, batch[j].text, batch[j].photo);
      w := Sleep(w, delay);
      j := j + 1;
    }
  }

  /** Delivering one slice and then the rest is delivering everything from the slice on. */
  lemma BatchSliceStep(m: Markers, files: Files, w: World, items: seq<Item>, i: nat, hi: nat, delay: nat)
    requires i <= hi <= |items|
    ensures DeliverAll(m, files, DeliverAll(m, files, w, items[i..hi], delay), items[hi..], delay)
         == DeliverAll(m, files, w, items[i..], delay)
  {
    DeliverAllAppend(m, files, w, items[i..hi], items[hi..], delay);
    assert items[i..hi] + items[hi..] == items[i..];
  }

  lemma {:induction false} DeliverAllAppend(m: Markers, files: Files, w: World, a: seq<Item>, b: seq<Item>, delay: nat)
    ensures DeliverAll(m, files, w, a + b, delay) == DeliverAll(m, files, DeliverAll(m, files, w, a, delay), b, delay)
    decreases |a|
  {
    if a == [] {
      assert a + b == b;
    } else {
      assert (a + b)[1..] == a[1..] + b;
      DeliverAllAppend(m, files, Sleep(RunSpec(m, files, w, a[0].text, a[0].photo), delay), a[1..], b, delay);
    }
  }

  /** The events of one `send_text_message` call. */
  lemma SendTextEvents(w: World, text: string)
    ensures var o1 := NextOutcome(w.script);
            var o2 := NextOutcome(Advance(w.script));
            LogExtends(w, SendTextSpec(w, text).0) &&
            NewEvents(w, SendTextSpec(w, text).0) ==
              if IsFlood(o1)
              then [Attempt(Message(text), o1), Wait(RetryTime.BaleRetryTime(o1.message)), Attempt(Message(text), o2)]
              else [Attempt(Message(text), o1)]
  {
  }

  /**
   * `send_text_message` attempts the identical message at most twice: a
   * second time, after sleeping the parsed time, only when the first error is
   * a flood error. It raises only when that second attempt fails too, and the
   * message is delivered exactly when one of the attempts succeeds.
   */
  lemma SendTextAtMostTwice(w: World, text: string)
    ensures LogExtends(w, SendTextSpec(w, text).0)
    ensures Attempts(NewEvents(w, SendTextSpec(w, text).0)) ==
              if IsFlood(NextOutcome(w.script)) then [Message(text), Message(text)] else [Message(text)]
    ensures SendTextSpec(w, text).1.Raised? <==> IsFlood(NextOutcome(w.script)) && NextOutcome(Advance(w.script)).Err?
    ensures Delivered(NewEvents(w, SendTextSpec(w, text).0)) ==
              if NextOutcome(w.script).Ok? || (IsFlood(NextOutcome(w.script)) && NextOutcome(Advance(w.script)).Ok?)
              then [Message(text)] else []
  {
    SendTextEvents(w, text);
    var o1 := NextOutcome(w.script);
    var o2 := NextOutcome(Advance(w.script));
    var ev := NewEvents(w, SendTextSpec(w, text).0);
    if IsFlood(o1) {
      assert ev[1..][1..][1..] == [];
      assert Attempts(ev[1..][1..]) == [Message(text)];
      assert Delivered(ev[1..][1..]) == if o2.Ok? then [Message(text)] else [];
      assert Attempts(ev[1..]) == [Message(text)];
      assert Delivered(ev[1..]) == Delivered(ev[1..][1..]);
    } else {
      assert ev[1..] == [];
    }
  }

  /** One accepted text: a single successful attempt, and the script stays all-Ok. */
  lemma TextOk(w: World, text: string)
    requires AllOk(w.script)
    ensures var r := SendTextSpec(w, text);
            r.1 == Done && AllOk(r.0.script) && LogExtends(w, r.0) &&
            Delivered(NewEvents(w, r.0)) == [Message(text)]
  {
    var r := SendTextSpec(w, text);
    assert NewEvents(w, r.0) == [Attempt(Message(text), Outcome.Ok)];
    SingleAttempt(Message(text), Outcome.Ok);
  }

  /** With a platform that accepts everything, every chunk goes out once, in order. */
  lemma {:induction false} SendTextsOk(w: World, chunks: seq<string>)
    requires AllOk(w.script)
    ensures var r := SendTextsSpec(w, chunks);
            r.1 == Done && AllOk(r.0.script) && LogExtends(w, r.0) &&
            Delivered(NewEvents(w, r.0)) == Messages(chunks)
    decreases |chunks|
  {
    var r := SendTextsSpec(w, chunks);
    if chunks == [] {
      assert NewEvents(w, r.0) == [];
    } else {
      var w1 := SendTextSpec(w, chunks[0]).0;
      TextOk(w, chunks[0]);
      assert r == SendTextsSpec(w1, chunks[1..]);
      SendTextsOk(w1, chunks[1..]);
      NewEventsChain(w, w1, r.0);
      DeliveredAppend(NewEvents(w, w1), NewEvents(w1, r.0));
      MessagesCons(chunks, 0);
    }
  }

  /** What one accepted photo call delivers: the photo with the first caption chunk, then the rest as texts. */
  function PhotoDelivery(m: Markers, path: string, text: string): seq<Request> {
    var d := BaleSplit(m, text, CaptionLength);
    [Photo(path, d[0])] + Messages(d[1..])
  }

  /** With a usable photo and a platform that accepts everything, the photo call delivers `PhotoDelivery`. */
  lemma PhotoOk(m: Markers, files: Files, w: World, text: string, path: string)
    requires PhotoUsable(files, path) && AllOk(w.script)
    ensures var w' := SendPhotoSpec(m, files, w, text, path);
            AllOk(w'.script) && LogExtends(w, w') &&
            Delivered(NewEvents(w, w')) == PhotoDelivery(m, path, text)
  {
    var d := BaleSplit(m, text, CaptionLength);
    var w1 := Send(w, Photo(path, d[0])).0;
    assert NewEvents(w, w1) == [Attempt(Photo(path, d[0]), Outcome.Ok)];
    SendTextsOk(w1, d[1..]);
    var w2 := SendTextsSpec(w1, d[1..]).0;
    assert SendPhotoSpec(m, files, w, text, path) == w2;
    NewEventsChain(w, w1, w2);
    DeliveredAppend(NewEvents(w, w1), NewEvents(w1, w2));
  }

  /**
   * A flood error on the photo restarts the whole call after the parsed
   * sleep: the refused attempt and the sleep come first, then everything is
   * delivered as if nothing had happened.
   */
  lemma PhotoRetriesAfterFlood(m: Markers, files: Files, w: World, text: string, path: string, msg: string)
    requires PhotoUsable(files, path)
    requires |w.script| >= 1 && w.script[0] == Outcome.Err(msg) && Contains(msg, FloodMarker) && AllOk(w.script[1..])
    ensures var w' := SendPhotoSpec(m, files, w, text, path);
            var d := BaleSplit(m, text, CaptionLength);
            LogExtends(w, w') && |NewEvents(w, w')| >= 2 &&
            NewEvents(w, w')[..2] == [Attempt(Photo(path, d[0]), Outcome.Err(msg)), Wait(RetryTime.BaleRetryTime(msg))] &&
            Delivered(NewEvents(w, w')) == PhotoDelivery(m, path, text)
  {
    var d := BaleSplit(m, text, CaptionLength);
    var head := [Attempt(Photo(path, d[0]), Outcome.Err(msg)), Wait(RetryTime.BaleRetryTime(msg))];
    var w1 := World(w.script[1..], w.log + head);
    assert Send(w, Photo(path, d[0])) == (World(w.script[1..], w.log + [head[0]]), Outcome.Err(msg));
    assert w.log + [head[0]] + [head[1]] == w.log + head;
    assert SendPhotoSpec(m, files, w, text, path) == SendPhotoSpec(m, files, w1, text, path);
    PhotoOk(m, files, w1, text, path);
    var w' := SendPhotoSpec(m, files, w1, text, path);
    NewEventsChain(w, w1, w');
    assert NewEvents(w, w1) == head;
    DeliveredAppend(head, NewEvents(w1, w'));
    assert head[1..][1..] == [];
  }

  /** The log of `run` without a photo, when every message is accepted: each chunk, then a one-second pause. */
  function TextRunLog(chunks: seq<string>): seq<Event> {
    if chunks == [] then [] else [Attempt(Message(chunks[0]), Outcome.Ok), Wait(1)] + TextRunLog(chunks[1..])
  }

  lemma {:induction false} RunChunksTextOk(m: Markers, files: Files, w: World, chunks: seq<string>, photo: Option<string>)
    requires !HasPhoto(photo) && AllOk(w.script)
    ensures var w' := RunChunksSpec(m, files, w, chunks, photo);
            LogExtends(w, w') && NewEvents(w, w') == TextRunLog(chunks)
    decreases |chunks|
  {
    var w' := RunChunksSpec(m, files, w, chunks, photo);
    if chunks == [] {
      assert NewEvents(w, w') == [];
    } else {
      var w1 := Sleep(SendTextSpec(w, chunks[0]).0, 1);
      assert NewEvents(w, w1) == [Attempt(Message(chunks[0]), Outcome.Ok), Wait(1)];
      RunChunksTextOk(m, files, w1, chunks[1..], photo);
      NewEventsChain(w, w1, w');
    }
  }

  /** `run` without a photo sends the 950-character chunks in order, pausing one second after each. */
  lemma RunTextOk(m: Markers, files: Files, w: World, text: string, photo: Option<string>)
    requires !HasPhoto(photo) && AllOk(w.script)
    ensures var w' := RunSpec(m, files, w, text, photo);
            LogExtends(w, w') && NewEvents(w, w') == TextRunLog(BaleSplit(m, text, MaxMessageLength))
  {
    RunChunksTextOk(m, files, w, BaleSplit(m, text, MaxMessageLength), photo);
  }

  /** Everything the chunk loop delivers with a usable photo: the photo call once per chunk. */
  function PhotoRuns(m: Markers, path: string, chunks: seq<string>): seq<Request> {
    if chunks == [] then [] else PhotoDelivery(m, path, chunks[0]) + PhotoRuns(m, path, chunks[1..])
  }

  /** How many of the requests carry the photo. */
  function PhotoCount(reqs: seq<Request>): nat {
    if reqs == [] then 0 else (if reqs[0].Photo? then 1 else 0) + PhotoCount(reqs[1..])
  }

  lemma {:induction false} PhotoCountAppend(a: seq<Request>, b: seq<Request>)
    ensures PhotoCount(a + b) == PhotoCount(a) + PhotoCount(b)
    decreases |a|
  {
    if a == [] {
      assert a + b == b;
    } else {
      assert (a + b)[1..] == a[1..] + b;
      PhotoCountAppend(a[1..], b);
    }
  }

  lemma {:induction false} MessagesHaveNoPhoto(chunks: seq<string>)
    ensures PhotoCount(Messages(chunks)) == 0
    decreases |chunks|
  {
    if chunks != [] {
      assert Messages(chunks)[1..] == Messages(chunks[1..]);
      MessagesHaveNoPhoto(chunks[1..]);
    }
  }

  lemma {:induction false} PhotoRunsCount(m: Markers, path: string, chunks: seq<string>)
    ensures PhotoCount(PhotoRuns(m, path, chunks)) == |chunks|
    decreases |chunks|
  {
    if chunks != [] {
      var d := BaleSplit(m, chunks[0], CaptionLength);
      PhotoRunsCount(m, path, chunks[1..]);
      MessagesHaveNoPhoto(d[1..]);
      PhotoCountAppend([Photo(path, d[0])], Messages(d[1..]));
      PhotoCountAppend(PhotoDelivery(m, path, chunks[0]), PhotoRuns(m, path, chunks[1..]));
    }
  }

  /** One chunk of the photo loop when everything is accepted: the photo call, then the one-second pause. */
  lemma PhotoChunkOk(m: Markers, files: Files, w: World, chunk: string, path: string)
    requires PhotoUsable(files, path) && AllOk(w.script)
    ensures var w2 := Sleep(SendPhotoSpec(m, files, w, chunk, path), 1);
            AllOk(w2.script) && LogExtends(w, w2) &&
            Delivered(NewEvents(w, w2)) == PhotoDelivery(m, path, chunk)
  {
    var w1 := SendPhotoSpec(m, files, w, chunk, path);
    PhotoOk(m, files, w, chunk, path);
    var w2 := Sleep(w1, 1);
    assert NewEvents(w, w2) == NewEvents(w, w1) + [Wait(1)];
    DeliveredWait(NewEvents(w, w1), 1);
  }

  lemma {:induction false} RunChunksPhotoOk(m: Markers, files: Files, w: World, chunks: seq<string>, photo: Option<string>)
    requires HasPhoto(photo) && PhotoUsable(files, photo.value) && AllOk(w.script)
    ensures var w' := RunChunksSpec(m, files, w, chunks, photo);
            LogExtends(w, w') && Delivered(NewEvents(w, w')) == PhotoRuns(m, photo.value, chunks)
    decreases |chunks|
  {
    var w' := RunChunksSpec(m, files, w, chunks, photo);
    if chunks == [] {
      assert NewEvents(w, w') == [];
    } else {
      var w2 := Sleep(SendPhotoSpec(m, files, w, chunks[0], photo.value), 1);
      PhotoChunkOk(m, files, w, chunks[0], photo.value);
      assert w' == RunChunksSpec(m, files, w2, chunks[1..], photo);
      RunChunksPhotoOk(m, files, w2, chunks[1..], photo);
      NewEventsChain(w, w2, w');
      DeliveredAppend(NewEvents(w, w2), NewEvents(w2, w'));
    }
  }

  /**
   * `run` with a photo hands every 950-character chunk to
   * `send_photo_with_caption`, so the photo goes out once per chunk, each time
   * captioned with that chunk's own first 1024-split piece.
   */
  lemma RunSendsPhotoPerChunk(m: Markers, files: Files, w: World, text: string, photo: Option<string>)
    requires HasPhoto(photo) && PhotoUsable(files, photo.value) && AllOk(w.script)
    ensures var w' := RunSpec(m, files, w, text, photo);
            var chunks := BaleSplit(m, text, MaxMessageLength);
            LogExtends(w, w') &&
            Delivered(NewEvents(w, w')) == PhotoRuns(m, photo.value, chunks) &&
            PhotoCount(Delivered(NewEvents(w, w'))) == |chunks|
  {
    var chunks := BaleSplit(m, text, MaxMessageLength);
    RunChunksPhotoOk(m, files, w, chunks, photo);
    PhotoRunsCount(m, photo.value, chunks);
  }

  /** A photo that fails the checks makes `run` send nothing: only the one-second pauses remain. */
  lemma {:induction false} RunChunksUnusablePhoto(m: Markers, files: Files, w: World, chunks: seq<string>, photo: Option<string>)
    requires HasPhoto(photo) && !PhotoUsable(files, photo.value)
    ensures var w' := RunChunksSpec(m, files, w, chunks, photo);
            w'.script == w.script && LogExtends(w, w') && NewEvents(w, w') == seq(|chunks|, k => Wait(1))
    decreases |chunks|
  {
    var w' := RunChunksSpec(m, files, w, chunks, photo);
    if chunks == [] {
      assert NewEvents(w, w') == [];
    } else {
      var w1 := Sleep(w, 1);
      RunChunksUnusablePhoto(m, files, w1, chunks[1..], photo);
      NewEventsChain(w, w1, w');
      assert NewEvents(w, w1) == [Wait(1)];
      assert [Wait(1)] + seq(|chunks| - 1, k => Wait(1)) == seq(|chunks|, k => Wait(1));
    }
  }

  /** The path checks are case-insensitive in the extension: `photo.JPG` passes like `photo.jpg`. */
  lemma ExtensionExamples()
    ensures ValidExtension("photo.JPG")
    ensures ValidExtension("a.gif")
  {
    assert EndsWith(Lower("photo.JPG"), Extensions[0]) by {
      assert Lower("photo.JPG") == "photo.jpg";
    }
    assert EndsWith(Lower("a.gif"), Extensions[3]) by {
      assert Lower("a.gif") == "a.gif";
    }
  }

  /** An extension outside the list is refused. */
  /**
   * A path that exists and is readable but that `open` refuses (a directory
   * named `x.jpg`) sends nothing and consumes no outcome.
   */
  lemma UnopenablePhotoSendsNothing(m: Markers, w: World, text: string)
    ensures SendPhotoSpec(m, Files({"x.jpg"}, {"x.jpg"}, {}), w, text, "x.jpg") == w
  {
    assert !Openable(Files({"x.jpg"}, {"x.jpg"}, {}), "x.jpg");
  }

  lemma ExtensionRefused()
    ensures !ValidExtension("photo.bmp")
  {
    var p := "photo.bmp";
    assert Lower(p) == p;
    assert p[|p| - 4..] == ".bmp" && p[|p| - 5..] == "o.bmp";
  }
}
