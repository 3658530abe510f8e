/**
 * `main` of main.py: extract the sections of a document, send every section
 * to Telegram with `send_message_with_images`, then to Bale with `run`, one
 * call per usable image. Each platform is its own scripted world; a failed
 * constructor (missing credentials) skips that platform, and an error that
 * escapes the Telegram loop ends it without touching the Bale loop.
 */
module Delivery {
  import opened Wrappers
  import opened Channel
  import opened Docx
  import ExtractContent
  import TelegramBot
  import BaleBot

  /** The Telegram loop: `send_message_with_images` per section, in order, until an error escapes. */
  function TelegramSpec(cfg: TelegramBot.Config, openable: set<string>, w: World, sections: seq<Section>): (World, Status)
    requires TelegramBot.ValidConfig(cfg)
    decreases |sections|
  {
    if sections == [] then (w, Done)
    else
      var (w1, s) := TelegramBot.SendWithImagesSpec(cfg, openable, w, sections[0].text, sections[0].images);
      if s.Raised? then (w1, s) else TelegramSpec(cfg, openable, w1, sections[1..])
  }

  method TelegramLoop(cfg: TelegramBot.Config, openable: set<string>, w0: World, sections: seq<Section>)
    returns (w: World, s: Status)
    requires TelegramBot.ValidConfig(cfg)
    ensures (w, s) == TelegramSpec(cfg, openable, w0, sections)
  {
    w := w0;
    var i := 0;
    while i < |sections|
      invariant 0 <= i <= |sections|
      invariant TelegramSpec(cfg, openable, w, sections[i..]) == TelegramSpec(cfg, openable, w0, sections)
    {
      assert sections[i..][1..] == sections[i + 1..];
      w, s := TelegramBot.SendMessageWithImages(cfg, openable, w, sections[i].text, sections[i].images);
      if s.Raised? {
        return;
      }
      i := i + 1;
    }
    return w, Done;
  }

  /** The two checks `main` makes before handing an image to Bale: it exists and it is readable. */
  predicate Usable(files: Files, path: string) {
    Exists(files, path) && Readable(files, path)
  }

  /** The image loop of one section: an unusable image is skipped and keeps the text; a `run` clears it. */
  function BaleImagesSpec(m: BaleBot.Markers, files: Files, w: World, text: string, images: seq<string>): World
    decreases |images|
  {
    if images == [] then w
    else if !Usable(files, images[0]) then BaleImagesSpec(m, files, w, text, images[1..])
    else BaleImagesSpec(m, files, BaleBot.RunSpec(m, files, w, text, Some(images[0])), [], images[1..])
  }

  method BaleImages(m: BaleBot.Markers, files: Files, w0: World, text0: string, images: seq<string>) returns (w: World)
    ensures w == BaleImagesSpec(m, files, w0, text0, images)
  {
    w := w0;
    var text := text0;
    var i := 0;
    while i < |images|
      invariant 0 <= i <= |images|
      invariant BaleImagesSpec(m, files, w, text, images[i..]) == BaleImagesSpec(m, files, w0, text0, images)
    {
      assert images[i..][1..] == images[i + 1..];
      var image := images[i];
      if !Exists(files, image) {
        i := i + 1;
        continue;
      }
      if !Readable(files, image) {
        i := i + 1;
        continue;
      }
      w := BaleBot.Run(m, files, w, text, Some(image));
      text := [];
      i := i + 1;
    }
  }

  /** One section for Bale: the image loop, or a single text-only `run` when it has no images. */
  function BaleSectionSpec(m: BaleBot.Markers, files: Files, w: World, section: Section): World {
    if section.images == [] then BaleBot.RunSpec(m, files, w, section.text, None)
    else BaleImagesSpec(m, files, w, section.text, section.images)
  }

  /** The Bale loop over all sections; `run` never raises, so it always reaches the end. */
  function BaleSpec(m: BaleBot.Markers, files: Files, w: World, sections: seq<Section>): World
    decreases |sections|
  {
    if sections == [] then w else BaleSpec(m, files, BaleSectionSpec(m, files, w, sections[0]), sections[1..])
  }

  method BaleLoop(m: BaleBot.Markers, files: Files, w0: World, sections: seq<Section>) returns (w: World)
    ensures w == BaleSpec(m, files, w0, sections)
  {
    w := w0;
    var i := 0;
    while i < |sections|
      invariant 0 <= i <= |sections|
      invariant BaleSpec(m, files, w, sections[i..]) == BaleSpec(m, files, w0, sections)
    {
      assert sections[i..][1..] == sections[i + 1..];
      var text := sections[i].text;
      var images := sections[i].images;
      if images != [] {
        w := BaleImages(m, files, w, text, images);
      } else {
        w := BaleBot.Run(m, files, w, text, None);
      }
      i := i + 1;
    }
  }

  /**
   * `main`. `document` is `None` when the parser cannot load the file;
   * `telegramSet` and `baleSet` say whether each constructor found its
   * credentials. Both bots see the same file system: Telegram's `open` succeeds
   * on `files.openable`. The result is the Telegram world and the Bale world.
   */
  function MainSpec(document: Option<seq<Paragraph>>, cfg: TelegramBot.Config,
                    telegramSet: bool, tg: World, m: BaleBot.Markers, files: Files, baleSet: bool, bale: World): (World, World)
    requires TelegramBot.ValidConfig(cfg)
  {
    if document.None? then (tg, bale)
    else
      var sections := ExtractContent.Extract(document.value);
      (if telegramSet then TelegramSpec(cfg, files.openable, tg, sections).0 else tg,
       if baleSet then BaleSpec(m, files, bale, sections) else bale)
  }

  method Deliver(document: Option<seq<Paragraph>>, cfg: TelegramBot.Config,
                 telegramSet: bool, tg0: World, m: BaleBot.Markers, files: Files, baleSet: bool, bale0: World)
    returns (tg: World, bale: World)
    requires TelegramBot.ValidConfig(cfg)
    ensures (tg, bale) == MainSpec(document, cfg, telegramSet, tg0, m, files, baleSet, bale0)
  {
    tg, bale := tg0, bale0;
    if document.None? {
      return;
    }
    var sections := ExtractContent.ExtractHeadingsContentWithImages(document.value);
    if telegramSet {
      var s;
      tg, s := TelegramLoop(cfg, files.openable, tg, sections);
    }
    if baleSet {
      bale := BaleLoop(m, files, bale, sections);
    }
  }

  /** The images that pass both checks, in their original order. */
  function UsableImages(files: Files, images: seq<string>): (r: seq<string>)
    ensures |r| <= |images|
    ensures forall k :: 0 <= k < |r| ==> Usable(files, r[k]) && r[k] in images
    ensures forall k :: 0 <= k < |images| && Usable(files, images[k]) ==> images[k] in r
    decreases |images|
  {
    if images == [] then []
    else
      var rest := UsableImages(files, images[1..]);
      assert forall k :: 1 <= k < |images| ==> images[k] == images[1..][k - 1];
      if Usable(files, images[0]) then [images[0]] + rest else rest
  }

  /** The `run` calls for the usable images: the section text with the first one, `""` with every later one. */
  function Captioned(text: string, photos: seq<string>): seq<BaleBot.Item>
    decreases |photos|
  {
    if photos == [] then [] else [BaleBot.Item(text, Some(photos[0]))] + Captioned([], photos[1..])
  }

  /** The `run` calls `main` makes for one section. */
  function Plan(files: Files, section: Section): seq<BaleBot.Item> {
    if section.images == [] then [BaleBot.Item(section.text, None)]
    else Captioned(section.text, UsableImages(files, section.images))
  }

  /** The `run` calls for all sections, in order. */
  function Plans(files: Files, sections: seq<Section>): seq<BaleBot.Item>
    decreases |sections|
  {
    if sections == [] then [] else Plan(files, sections[0]) + Plans(files, sections[1..])
  }

  /** `run` for each call in turn. */
  function RunAll(m: BaleBot.Markers, files: Files, w: World, calls: seq<BaleBot.Item>): World
    decreases |calls|
  {
    if calls == [] then w
    else RunAll(m, files, BaleBot.RunSpec(m, files, w, calls[0].text, calls[0].photo), calls[1..])
  }

  lemma {:induction false} RunAllAppend(m: BaleBot.Markers, files: Files, w: World, a: seq<BaleBot.Item>, b: seq<BaleBot.Item>)
    ensures RunAll(m, files, w, a + b) == RunAll(m, files, RunAll(m, files, w, a), b)
    decreases |a|
  {
    if a == [] {
      assert a + b == b;
    } else {
      assert (a + b)[0] == a[0] && (a + b)[1..] == a[1..] + b;
      RunAllAppend(m, files, BaleBot.RunSpec(m, files, w, a[0].text, a[0].photo), a[1..], b);
    }
  }

  /**
   * The full text goes with the first usable image only, and every later
   * usable image gets `""`, whatever unusable images come before.
   */
  lemma {:induction false} CaptionedShape(text: string, photos: seq<string>)
    ensures |Captioned(text, photos)| == |photos|
    ensures forall k :: 0 <= k < |photos| ==>
              Captioned(text, photos)[k] == BaleBot.Item(if k == 0 then text else [], Some(photos[k]))
    decreases |photos|
  {
    if photos != [] {
      var c, rest := Captioned(text, photos), Captioned([], photos[1..]);
      CaptionedShape([], photos[1..]);
      assert c == [BaleBot.Item(text, Some(photos[0]))] + rest;
      forall k | 0 <= k < |photos| ensures c[k] == BaleBot.Item(if k == 0 then text else [], Some(photos[k])) {
        if k > 0 {
          assert c[k] == rest[k - 1];
          assert photos[1..][k - 1] == photos[k];
        }
      }
    }
  }

  /** The image loop makes exactly the planned `run` calls. */
  lemma {:induction false} BaleImagesFollowPlan(m: BaleBot.Markers, files: Files, w: World, text: string, images: seq<string>)
    ensures BaleImagesSpec(m, files, w, text, images) == RunAll(m, files, w, Captioned(text, UsableImages(files, images)))
    decreases |images|
  {
    if images != [] {
      if !Usable(files, images[0]) {
        BaleImagesFollowPlan(m, files, w, text, images[1..]);
      } else {
        var w1 := BaleBot.RunSpec(m, files, w, text, Some(images[0]));
        BaleImagesFollowPlan(m, files, w1, [], images[1..]);
        var u := UsableImages(files, images);
        assert u == [images[0]] + UsableImages(files, images[1..]);
        assert u[0] == images[0] && u[1..] == UsableImages(files, images[1..]);
        var c := Captioned(text, u);
        assert c[0] == BaleBot.Item(text, Some(images[0])) && c[1..] == Captioned([], u[1..]);
      }
    }
  }

  /** One section for Bale makes exactly its planned `run` calls. */
  lemma BaleSectionFollowsPlan(m: BaleBot.Markers, files: Files, w: World, section: Section)
    ensures BaleSectionSpec(m, files, w, section) == RunAll(m, files, w, Plan(files, section))
  {
    if section.images == [] {
      var call := BaleBot.Item(section.text, None);
      assert [call][1..] == [];
      assert RunAll(m, files, w, [call]) == RunAll(m, files, BaleBot.RunSpec(m, files, w, section.text, None), []);
    } else {
      BaleImagesFollowPlan(m, files, w, section.text, section.images);
    }
  }

  /** The Bale loop makes the planned calls of every section, section after section. */
  lemma {:induction false} BaleFollowsPlans(m: BaleBot.Markers, files: Files, w: World, sections: seq<Section>)
    ensures BaleSpec(m, files, w, sections) == RunAll(m, files, w, Plans(files, sections))
    decreases |sections|
  {
    if sections != [] {
      var w1 := BaleSectionSpec(m, files, w, sections[0]);
      BaleSectionFollowsPlan(m, files, w, sections[0]);
      BaleFollowsPlans(m, files, w1, sections[1..]);
      RunAllAppend(m, files, w, Plan(files, sections[0]), Plans(files, sections[1..]));
    }
  }

  /**
   * What one section asks of Bale: a section without images is one text-only
   * `run` with its full text; otherwise one `run` per usable image, in order,
   * the first with the full text and the others with `""`, and nothing for
   * an image that is missing or unreadable.
   */
  lemma PlanShape(files: Files, section: Section)
    ensures section.images == [] ==> Plan(files, section) == [BaleBot.Item(section.text, None)]
    ensures section.images != [] ==>
              var u := UsableImages(files, section.images);
              |Plan(files, section)| == |u| &&
              forall k :: 0 <= k < |u| ==>
                Plan(files, section)[k] == BaleBot.Item(if k == 0 then section.text else [], Some(u[k]))
  {
    if section.images != [] {
      CaptionedShape(section.text, UsableImages(files, section.images));
    }
  }

  /** A missing first image is skipped without clearing the text: the next image carries it. */
  lemma SkippedImageKeepsText(text: string)
    ensures Plan(Files({"b.jpg"}, {"b.jpg"}, {"b.jpg"}), Section(text, ["a.jpg", "b.jpg"])) == [BaleBot.Item(text, Some("b.jpg"))]
  {
    var files := Files({"b.jpg"}, {"b.jpg"}, {"b.jpg"});
    var images := ["a.jpg", "b.jpg"];
    assert "a.jpg" != "b.jpg" by {
      assert "a.jpg"[0] != "b.jpg"[0];
    }
    assert !Usable(files, images[0]) && Usable(files, images[1]);
    assert images[1..] == ["b.jpg"] && images[1..][1..] == [];
    assert UsableImages(files, images) == ["b.jpg"];
    assert ["b.jpg"][1..] == [];
  }

  /** A section that cannot reach Telegram: one of its images cannot be opened. */
  predicate Blocked(openable: set<string>, section: Section) {
    section.images != [] && TelegramBot.FirstUnopenable(section.images, openable).Some?
  }

  /** `send_message_with_images` raises for a section exactly when the section is blocked. */
  lemma SectionRaises(cfg: TelegramBot.Config, openable: set<string>, w: World, section: Section)
    requires TelegramBot.ValidConfig(cfg)
    ensures TelegramBot.SendWithImagesSpec(cfg, openable, w, section.text, section.images).1.Raised?
            <==> Blocked(openable, section)
  {
    if section.images != [] {
      TelegramBot.ImagesRaiseOnOpen(cfg, openable, w, section.text, section.images);
    }
  }

  /** The Telegram loop fails exactly when some section is blocked. */
  lemma {:induction false} TelegramRaises(cfg: TelegramBot.Config, openable: set<string>, w: World, sections: seq<Section>)
    requires TelegramBot.ValidConfig(cfg)
    ensures TelegramSpec(cfg, openable, w, sections).1.Raised? <==>
            exists i :: 0 <= i < |sections| && Blocked(openable, sections[i])
    decreases |sections|
  {
    if sections != [] {
      var r := TelegramBot.SendWithImagesSpec(cfg, openable, w, sections[0].text, sections[0].images);
      SectionRaises(cfg, openable, w, sections[0]);
      TelegramRaises(cfg, openable, r.0, sections[1..]);
      if exists i :: 1 <= i < |sections| && Blocked(openable, sections[i]) {
        var i :| 1 <= i < |sections| && Blocked(openable, sections[i]);
        assert sections[1..][i - 1] == sections[i];
      }
      if exists i :: 0 <= i < |sections[1..]| && Blocked(openable, sections[1..][i]) {
        var i :| 0 <= i < |sections[1..]| && Blocked(openable, sections[1..][i]);
        assert sections[1..][i] == sections[i + 1];
      }
    }
  }

  /** Once a blocked section is reached, no later section goes to Telegram. */
  lemma {:induction false} TelegramStopsAtBlocked(cfg: TelegramBot.Config, openable: set<string>, w: World,
                                                  sections: seq<Section>, i: nat)
    requires TelegramBot.ValidConfig(cfg)
    requires i < |sections| && Blocked(openable, sections[i])
    ensures TelegramSpec(cfg, openable, w, sections) == TelegramSpec(cfg, openable, w, sections[..i + 1])
    decreases i
  {
    var r := TelegramBot.SendWithImagesSpec(cfg, openable, w, sections[0].text, sections[0].images);
    var pre := sections[..i + 1];
    assert pre[0] == sections[0];
    if i == 0 {
      SectionRaises(cfg, openable, w, sections[0]);
    } else if !r.1.Raised? {
      TelegramStopsAtBlocked(cfg, openable, r.0, sections[1..], i - 1);
      assert pre[1..] == sections[1..][..i];
    }
  }

  /**
   * `main`: an extraction failure sends nothing to either platform; otherwise
   * Bale receives the planned calls of every section whatever happened on
   * Telegram, and Telegram receives the sections in order up to the first
   * blocked one.
   */
  lemma MainDelivers(document: Option<seq<Paragraph>>, cfg: TelegramBot.Config,
                     telegramSet: bool, tg: World, m: BaleBot.Markers, files: Files, baleSet: bool, bale: World)
    requires TelegramBot.ValidConfig(cfg)
    ensures document.None? ==> MainSpec(document, cfg, telegramSet, tg, m, files, baleSet, bale) == (tg, bale)
    ensures document.Some? && baleSet ==>
              MainSpec(document, cfg, telegramSet, tg, m, files, baleSet, bale).1 ==
              RunAll(m, files, bale, Plans(files, ExtractContent.Extract(document.value)))
    ensures !baleSet ==> MainSpec(document, cfg, telegramSet, tg, m, files, baleSet, bale).1 == bale
    ensures !telegramSet ==> MainSpec(document, cfg, telegramSet, tg, m, files, baleSet, bale).0 == tg
  {
    if document.Some? {
      BaleFollowsPlans(m, files, bale, ExtractContent.Extract(document.value));
    }
  }
}
