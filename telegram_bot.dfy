/**
 * The Telegram adapter: `send_message` and `send_message_with_images` of
 * telegram_bot.py and of telegram_bot-backup.py. The two files differ only
 * in how text is split and in the limit for text without a photo, so one
 * model takes that difference as a configuration.
 */
module TelegramBot {
  import opened Text
  import opened Wrappers
  import opened Channel
  import opened FloodControl
  import WordChunker
  import FixedChunker

  /** `MAX_CAPTION_LENGTH`: every photo caption split uses it. */
  const CaptionLimit: nat := 1024

  /** telegram_bot.py's `MAX_MESSAGE_LENGTH` for text sent without a photo. */
  const MessageLimit: nat := 4000

  /**
   * The splitter: at word boundaries with continuation markers (telegram_bot.py,
   * where the start marker is never assigned: `None`), or in fixed slices
   * (telegram_bot-backup.py).
   */
  datatype Splitter = Words(start: Option<string>, end: string) | Fixed

  datatype Config = Config(splitter: Splitter, textLimit: nat)

  /** telegram_bot.py as written; `end` is the marker `continuation_notation or` its default yields. */
  function Current(end: string): Config {
    Config(Words(None, end), MessageLimit)
  }

  /** telegram_bot.py with its start marker assigned, as its split evidently intends. */
  function Corrected(start: string, end: string): Config {
    Config(Words(Some(start), end), MessageLimit)
  }

  /** telegram_bot-backup.py: fixed slices, and text-only sends split at the caption limit too. */
  const Backup: Config := Config(Fixed, CaptionLimit)

  predicate ValidConfig(cfg: Config) {
    cfg.textLimit > 0
  }

  /** `self.split_text(text, maxLength)`; the error is the exception it raises. */
  function SplitFor(cfg: Config, text: string, maxLength: nat): (r: Result<seq<string>>)
    requires maxLength > 0
    ensures r.Ok? ==> |r.value| >= 1
    ensures |text| <= maxLength ==> r == Result.Ok([text])
  {
    match cfg.splitter
    case Words(start, end) =>
      if |text| <= maxLength then Result.Ok([text])
      else if start.None? then Result.Err(WordChunker.MissingStart)
      else
        WordChunker.OverLimitChunks(text, maxLength, start.value, end);
        WordChunker.ChunksShape(WordChunker.Groups(Split(text, ' '), maxLength, start.value), start.value, end);
        Result.Ok(WordChunker.SplitText(text, maxLength, start.value, end))
    case Fixed => Result.Ok(FixedChunker.FixedSplit(text, maxLength))
  }

  method SplitText(cfg: Config, text: string, maxLength: nat) returns (r: Result<seq<string>>)
    requires maxLength > 0
    ensures r == SplitFor(cfg, text, maxLength)
  {
    match cfg.splitter
    case Words(start, end) =>
      r := WordChunker.SplitChunks(text, maxLength, start, end);
    case Fixed =>
      r := Result.Ok(FixedChunker.FixedSplit(text, maxLength));
  }

  /** `if photo_path:` — `None` and the empty path both mean no photo. */
  predicate HasPhoto(photo: Option<string>) {
    photo.Some? && photo.value != []
  }

  /** The photo, then the remaining chunks as messages; what escapes is returned as the status. */
  function PhotoThenRest(w: World, image: string, chunks: seq<string>): (World, Status)
    requires |chunks| >= 1
  {
    var (w1, s) := SafeSendSpec(w, Photo(image, chunks[0]));
    if s.Raised? then (w1, s) else SendAllSpec(w1, chunks[1..])
  }

  method SendPhotoThenRest(w0: World, image: string, chunks: seq<string>) returns (w: World, s: Status)
    requires |chunks| >= 1
    ensures (w, s) == PhotoThenRest(w0, image, chunks)
  {
    w, s := SafeSend(w0, Photo(image, chunks[0]));
    if s.Done? {
      w, s := SendAll(w, chunks[1..]);
    }
  }

  /**
   * `send_message`: every exception (from the split, the `open`, or a send)
   * is caught and printed, so the call always returns; only the world changes.
   * `openable` is the set of paths `open(path, 'rb')` succeeds on.
   */
  function SendMessageSpec(cfg: Config, openable: set<string>, w: World, text: string, photo: Option<string>): World
    requires ValidConfig(cfg)
  {
    if HasPhoto(photo) then
      match SplitFor(cfg, text, CaptionLimit)
      case Err(_) => w
      case Ok(chunks) =>
        if photo.value !in openable then w else PhotoThenRest(w, photo.value, chunks).0
    else
      match SplitFor(cfg, text, cfg.textLimit)
      case Err(_) => w
      case Ok(chunks) => SendAllSpec(w, chunks).0
  }

  method SendMessage(cfg: Config, openable: set<string>, w0: World, text: string, photo: Option<string>)
    returns (w: World)
    requires ValidConfig(cfg)
    ensures w == SendMessageSpec(cfg, openable, w0, text, photo)
  {
    w := w0;
    if HasPhoto(photo) {
      var chunks := SplitText(cfg, text, CaptionLimit);
      if chunks.Err? || photo.value !in openable {
        return;
      }
      var s;
      w, s := SendPhotoThenRest(w, photo.value, chunks.value);
    } else {
      var chunks := SplitText(cfg, text, cfg.textLimit);
      if chunks.Err? {
        return;
      }
      var s;
      w, s := SendAll(w, chunks.value);
    }
  }

  /** The text of the exception `open` raises for a path it cannot open. */
  function OpenFailure(path: string): string {
    "[Errno 2] No such file or directory: '" + path + "'"
  }

  /** One image inside the `try`: split, photo, remaining chunks; `true` when all of it went through. */
  function ImageSpec(cfg: Config, w: World, text: string, image: string): (World, bool) {
    match SplitFor(cfg, text, CaptionLimit)
    case Err(_) => (w, false)
    case Ok(chunks) =>
      var (w1, s) := PhotoThenRest(w, image, chunks);
      (w1, s.Done?)
  }

  /** The image loop: `text` is cleared after an image only when that image succeeded. */
  function ImagesSpec(cfg: Config, openable: set<string>, w: World, text: string, images: seq<string>): (World, Status)
    decreases |images|
  {
    if images == [] then (w, Done)
    else if images[0] !in openable then (w, Raised(OpenFailure(images[0])))
    else
      var (w1, ok) := ImageSpec(cfg, w, text, images[0]);
      ImagesSpec(cfg, openable, w1, if ok then [] else text, images[1..])
  }

  /** `send_message_with_images`; the status says whether an `open` error escaped. */
  function SendWithImagesSpec(cfg: Config, openable: set<string>, w: World, text: string, images: seq<string>): (World, Status)
    requires ValidConfig(cfg)
  {
    if images == [] then (SendMessageSpec(cfg, openable, w, text, None), Done)
    else ImagesSpec(cfg, openable, w, text, images)
  }

  method SendMessageWithImages(cfg: Config, openable: set<string>, w0: World, text0: string, images: seq<string>)
    returns (w: World, s: Status)
    requires ValidConfig(cfg)
    ensures (w, s) == SendWithImagesSpec(cfg, openable, w0, text0, images)
  {
    if images == [] {
      w := SendMessage(cfg, openable, w0, text0, None);
      return w, Done;
    }
    w := w0;
    var text := text0;
    var i := 0;
    while i < |images|
      invariant 0 <= i <= |images|
      invariant ImagesSpec(cfg, openable, w, text, images[i..]) == ImagesSpec(cfg, openable, w0, text0, images)
    {
      assert images[i..][1..] == images[i + 1..];
      var image := images[i];
      if image !in openable {
        return w, Raised(OpenFailure(image));
      }
      var chunks := SplitText(cfg, text, CaptionLimit);
      if chunks.Ok? {
        var s1;
        w, s1 := SendPhotoThenRest(w, image, chunks.value);
        if s1.Done? {
          text := [];
        }
      }
      i := i + 1;
    }
    return w, Done;
  }

  /** With a platform that accepts everything: the photo with the first chunk, then the other chunks in order. */
  lemma PhotoThenRestOk(w: World, image: string, chunks: seq<string>)
    requires |chunks| >= 1 && AllOk(w.script)
    ensures PhotoThenRest(w, image, chunks).1 == Done
    ensures AllOk(PhotoThenRest(w, image, chunks).0.script)
    ensures LogExtends(w, PhotoThenRest(w, image, chunks).0)
    ensures Delivered(NewEvents(w, PhotoThenRest(w, image, chunks).0)) ==
              [Photo(image, chunks[0])] + Messages(chunks[1..])
  {
    SafeSendFirstTry(w, Photo(image, chunks[0]));
    var w1 := SafeSendSpec(w, Photo(image, chunks[0])).0;
    SendAllOk(w1, chunks[1..]);
    var w2 := SendAllSpec(w1, chunks[1..]).0;
    NewEventsChain(w, w1, w2);
    assert NewEvents(w, w1) == [Attempt(Photo(image, chunks[0]), Outcome.Ok)];
    DeliveredAppend(NewEvents(w, w1), NewEvents(w1, w2));
  }

  /**
   * telegram_bot.py as written sends nothing at all for text over the limit
   * that applies (1024 with a photo, 4000 without): the split raises on the
   * missing start marker, and `send_message` swallows the error.
   */
  lemma CurrentDropsLongText(end: string, openable: set<string>, w: World, text: string, photo: Option<string>)
    requires |text| > (if HasPhoto(photo) then CaptionLimit else MessageLimit)
    ensures SendMessageSpec(Current(end), openable, w, text, photo) == w
  {
    assert SplitFor(Current(end), text, if HasPhoto(photo) then CaptionLimit else MessageLimit).Err?;
  }

  /**
   * With the start marker assigned, the same long text goes out as the
   * word-split chunks, at least two of them, in order.
   */
  lemma CorrectedSendsLongText(start: string, end: string, openable: set<string>, w: World, text: string)
    requires |text| > MessageLimit && AllOk(w.script)
    ensures var w' := SendMessageSpec(Corrected(start, end), openable, w, text, None);
            LogExtends(w, w') &&
            Delivered(NewEvents(w, w')) == Messages(WordChunker.SplitText(text, MessageLimit, start, end)) &&
            |WordChunker.SplitText(text, MessageLimit, start, end)| >= 2
  {
    var chunks := WordChunker.SplitText(text, MessageLimit, start, end);
    assert SplitFor(Corrected(start, end), text, MessageLimit) == Result.Ok(chunks);
    SendAllOk(w, chunks);
    WordChunker.OverLimitChunks(text, MessageLimit, start, end);
    WordChunker.ChunksShape(WordChunker.Groups(Split(text, ' '), MessageLimit, start), start, end);
  }

  /** The text a request carries: a message's text or a photo's caption. */
  function Payload(r: Request): string {
    match r
    case Message(t) => t
    case Photo(_, c) => c
  }

  /** The texts of the requests, written one after the other. */
  function Texts(reqs: seq<Request>): string {
    if reqs == [] then [] else Payload(reqs[0]) + Texts(reqs[1..])
  }

  lemma {:induction false} TextsMessages(chunks: seq<string>)
    ensures Texts(Messages(chunks)) == FixedChunker.Concat(chunks)
    decreases |chunks|
  {
    if chunks != [] {
      assert Messages(chunks)[1..] == Messages(chunks[1..]);
      TextsMessages(chunks[1..]);
    }
  }

  /**
   * telegram_bot-backup.py loses and repeats nothing: with a platform that
   * accepts everything and an openable photo (or none), the texts delivered,
   * in order, spell out exactly the original text.
   */
  lemma BackupDeliversWholeText(openable: set<string>, w: World, text: string, photo: Option<string>)
    requires AllOk(w.script)
    requires HasPhoto(photo) ==> photo.value in openable
    ensures var w' := SendMessageSpec(Backup, openable, w, text, photo);
            LogExtends(w, w') && Texts(Delivered(NewEvents(w, w'))) == text
  {
    var chunks := FixedChunker.FixedSplit(text, CaptionLimit);
    FixedChunker.FixedSplitConcat(text, CaptionLimit);
    if HasPhoto(photo) {
      PhotoThenRestOk(w, photo.value, chunks);
      TextsMessages(chunks[1..]);
      var reqs := [Photo(photo.value, chunks[0])] + Messages(chunks[1..]);
      assert reqs[1..] == Messages(chunks[1..]);
      assert Texts(reqs) == chunks[0] + FixedChunker.Concat(chunks[1..]);
    } else {
      SendAllOk(w, chunks);
      TextsMessages(chunks);
    }
  }

  /** The first image `open` fails on, if any. */
  function FirstUnopenable(images: seq<string>, openable: set<string>): (r: Option<string>)
    ensures r.None? <==> forall k :: 0 <= k < |images| ==> images[k] in openable
    ensures r.Some? ==> r.value in images && r.value !in openable
  {
    if images == [] then None
    else if images[0] !in openable then Some(images[0])
    else FirstUnopenable(images[1..], openable)
  }

  /**
   * `open(image)` sits outside the `try`: the image loop raises exactly when
   * some image cannot be opened, with the error of the first such image,
   * whatever the platform answers.
   */
  lemma {:induction false} ImagesRaiseOnOpen(cfg: Config, openable: set<string>, w: World, text: string, images: seq<string>)
    ensures ImagesSpec(cfg, openable, w, text, images).1 ==
              match FirstUnopenable(images, openable)
              case None => Done
              case Some(p) => Raised(OpenFailure(p))
    decreases |images|
  {
    if images != [] && images[0] in openable {
      var r := ImageSpec(cfg, w, text, images[0]);
      ImagesRaiseOnOpen(cfg, openable, r.0, if r.1 then [] else text, images[1..]);
    }
  }

  /** Photos of the images with an empty caption, in order. */
  function CaptionOnly(images: seq<string>): (r: seq<Request>)
    ensures |r| == |images|
  {
    seq(|images|, k requires 0 <= k < |images| => Photo(images[k], []))
  }

  /**
   * Once the text has been cleared, every further image goes out as a photo
   * with an empty caption.
   */
  lemma {:induction false} ImagesAfterClear(cfg: Config, openable: set<string>, w: World, images: seq<string>)
    requires AllOk(w.script)
    requires forall k :: 0 <= k < |images| ==> images[k] in openable
    ensures var r := ImagesSpec(cfg, openable, w, [], images);
            r.1 == Done && AllOk(r.0.script) && LogExtends(w, r.0) &&
            Delivered(NewEvents(w, r.0)) == CaptionOnly(images)
    decreases |images|
  {
    var r := ImagesSpec(cfg, openable, w, [], images);
    if images == [] {
      assert NewEvents(w, r.0) == [];
    } else {
      assert SplitFor(cfg, [], CaptionLimit) == Result.Ok([[]]);
      PhotoThenRestOk(w, images[0], [[]]);
      var w1 := PhotoThenRest(w, images[0], [[]]).0;
      assert Messages([[]][1..]) == [];
      ImagesAfterClear(cfg, openable, w1, images[1..]);
      NewEventsChain(w, w1, r.0);
      DeliveredAppend(NewEvents(w, w1), NewEvents(w1, r.0));
      assert CaptionOnly(images) == [Photo(images[0], [])] + CaptionOnly(images[1..]);
    }
  }

  /**
   * With a platform that accepts everything, the full text goes with the
   * first image only (caption, then the rest as messages); every later image
   * is sent with an empty caption.
   */
  lemma ImagesAllOk(cfg: Config, openable: set<string>, w: World, text: string, images: seq<string>)
    requires AllOk(w.script) && images != []
    requires forall k :: 0 <= k < |images| ==> images[k] in openable
    requires SplitFor(cfg, text, CaptionLimit).Ok?
    ensures var chunks := SplitFor(cfg, text, CaptionLimit).value;
            var r := ImagesSpec(cfg, openable, w, text, images);
            r.1 == Done && LogExtends(w, r.0) &&
            Delivered(NewEvents(w, r.0)) ==
              [Photo(images[0], chunks[0])] + Messages(chunks[1..]) + CaptionOnly(images[1..])
  {
    var chunks := SplitFor(cfg, text, CaptionLimit).value;
    var r := ImagesSpec(cfg, openable, w, text, images);
    PhotoThenRestOk(w, images[0], chunks);
    var w1 := PhotoThenRest(w, images[0], chunks).0;
    ImagesAfterClear(cfg, openable, w1, images[1..]);
    NewEventsChain(w, w1, r.0);
    DeliveredAppend(NewEvents(w, w1), NewEvents(w1, r.0));
  }

  /**
   * The text is cleared only after success: when the first photo is refused
   * with an error other than flood control, the next image still carries the
   * full text.
   */
  lemma FailedImageKeepsText(cfg: Config, openable: set<string>, w: World, text: string, images: seq<string>, m: string)
    requires |images| >= 2
    requires forall k :: 0 <= k < |images| ==> images[k] in openable
    requires SplitFor(cfg, text, CaptionLimit).Ok?
    requires |w.script| >= 1 && w.script[0] == Outcome.Err(m) && !Contains(m, FloodMarker) && AllOk(w.script[1..])
    ensures var chunks := SplitFor(cfg, text, CaptionLimit).value;
            var r := ImagesSpec(cfg, openable, w, text, images);
            r.1 == Done && LogExtends(w, r.0) &&
            Delivered(NewEvents(w, r.0)) ==
              [Photo(images[1], chunks[0])] + Messages(chunks[1..]) + CaptionOnly(images[2..])
  {
    var chunks := SplitFor(cfg, text, CaptionLimit).value;
    var req := Photo(images[0], chunks[0]);
    var w1 := World(w.script[1..], w.log + [Attempt(req, Outcome.Err(m))]);
    assert SafeSendSpec(w, req) == (w1, Raised(m));
    assert ImageSpec(cfg, w, text, images[0]) == (w1, false);
    var r := ImagesSpec(cfg, openable, w, text, images);
    assert r == ImagesSpec(cfg, openable, w1, text, images[1..]);
    ImagesAllOk(cfg, openable, w1, text, images[1..]);
    NewEventsChain(w, w1, r.0);
    DeliveredAppend(NewEvents(w, w1), NewEvents(w1, r.0));
    assert NewEvents(w, w1) == [Attempt(req, Outcome.Err(m))];
  }

  /**
   * telegram_bot.py as written: a text over the caption limit is never sent
   * with any image, because the split raises for every image and the text is
   * therefore never cleared; only the open errors remain.
   */
  lemma {:induction false} CurrentImagesDropLongText(end: string, openable: set<string>, w: World, text: string, images: seq<string>)
    requires |text| > CaptionLimit
    ensures ImagesSpec(Current(end), openable, w, text, images).0 == w
    decreases |images|
  {
    if images != [] && images[0] in openable {
      assert ImageSpec(Current(end), w, text, images[0]) == (w, false);
      CurrentImagesDropLongText(end, openable, w, text, images[1..]);
    }
  }
}
