/**
 * The document as the two section extractors see it. python-docx is left
 * out: a paragraph is its style name, its text and the content types of the
 * images embedded in its runs, in order.
 */
module Docx {
  import opened Text
  import opened Wrappers

  /**
   * A paragraph's style name: `Heading(n)` is the built-in style named
   * `"Heading n"`, `Other` any other name (`"Normal"`, `"Title"`, ...).
   * A document is read into this form with every name `"Heading n"` mapped to
   * `Heading(n)`, so an `Other` whose name has that form stands for no paragraph.
   */
  datatype Style = Heading(level: nat) | Other(name: string)

  datatype Paragraph = Paragraph(style: Style, text: string, imageTypes: seq<string>)

  /** One `{"text": ..., "images": [...]}` record of `extracted_data`. */
  datatype Section = Section(text: string, images: seq<string>)

  /** `custom_heading_text`, used for a blank Heading 4. */
  const Fallback: string := "خبر!"

  /** `os.path.join("extracted_images", "image_")`: what every generated image path starts with. */
  const ImagePrefix: string := "extracted_images/image_"

  /** `content_type.split("/")[-1]`, e.g. `jpeg` for `image/jpeg`. */
  function Extension(contentType: string): (r: string)
    ensures '/' !in r
  {
    var parts := Split(contentType, '/');
    parts[|parts| - 1]
  }

  /** `os.path.join(images_output_dir, f"image_{n}.{ext}")`. */
  function ImagePath(n: nat, contentType: string): string {
    ImagePrefix + Decimal(n) + "." + Extension(contentType)
  }

  /** The counter an image path was generated with: the digits after the prefix. */
  function Number(path: string): nat {
    if StartsWith(path, ImagePrefix) then Value(LeadingDigits(path[|ImagePrefix|..])) else 0
  }

  /** The counter can be read back from a generated path. */
  lemma NumberOfImagePath(n: nat, contentType: string)
    ensures StartsWith(ImagePath(n, contentType), ImagePrefix)
    ensures Number(ImagePath(n, contentType)) == n
  {
    var p := ImagePath(n, contentType);
    var rest := "." + Extension(contentType);
    assert p == ImagePrefix + (Decimal(n) + rest);
    assert p[|ImagePrefix|..] == Decimal(n) + rest;
    LeadingDigitsBefore(Decimal(n), rest);
  }

  /** Paths generated with different counters differ, whatever the content types. */
  lemma ImagePathsDistinct(m: nat, n: nat, c1: string, c2: string)
    requires m != n
    ensures ImagePath(m, c1) != ImagePath(n, c2)
  {
    NumberOfImagePath(m, c1);
    NumberOfImagePath(n, c2);
  }

  /** The paths for images numbered from `from` on, in order. */
  function Paths(from: nat, types: seq<string>): (r: seq<string>)
    ensures |r| == |types|
  {
    if types == [] then [] else Paths(from, types[..|types| - 1]) + [ImagePath(from + |types| - 1, types[|types| - 1])]
  }

  /** The `k`-th path carries counter `from + k` and the `k`-th content type. */
  lemma {:induction false} PathsAt(from: nat, types: seq<string>, k: nat)
    requires k < |types|
    ensures Paths(from, types)[k] == ImagePath(from + k, types[k])
    decreases |types|
  {
    if k < |types| - 1 {
      PathsAt(from, types[..|types| - 1], k);
    }
  }

  lemma {:induction false} PathsAppend(from: nat, a: seq<string>, b: seq<string>)
    ensures Paths(from, a + b) == Paths(from, a) + Paths(from + |a|, b)
    decreases |b|
  {
    if b == [] {
      assert a + b == a;
    } else {
      var init := b[..|b| - 1];
      assert (a + b)[..|a + b| - 1] == a + init;
      PathsAppend(from, a, init);
      ConcatAssoc(Paths(from, a), Paths(from + |a|, init), [ImagePath(from + |a| + |b| - 1, b[|b| - 1])]);
    }
  }

  /** `images + Paths(counter, a) + Paths(counter + |a|, b)` regrouped as one run of paths. */
  lemma PathsRegroup(images: seq<string>, counter: nat, a: seq<string>, b: seq<string>, ab: seq<string>)
    requires ab == a + b
    ensures images + Paths(counter, a) + Paths(counter + |a|, b) == images + Paths(counter, ab)
  {
    PathsAppend(counter, a, b);
    ConcatAssoc(images, Paths(counter, a), Paths(counter + |a|, b));
  }

  /** The run and blip loops: each image gets the next counter value, in order. */
  method SaveImages(images0: seq<string>, counter0: nat, types: seq<string>) returns (images: seq<string>, counter: nat)
    ensures images == images0 + Paths(counter0, types)
    ensures counter == counter0 + |types|
  {
    images, counter := images0, counter0;
    var j := 0;
    while j < |types|
      invariant 0 <= j <= |types|
      invariant images == images0 + Paths(counter0, types[..j])
      invariant counter == counter0 + j
    {
      assert types[..j + 1] == types[..j] + [types[j]];
      images := images + [ImagePath(counter, types[j])];
      counter := counter + 1;
      j := j + 1;
    }
    assert types[..j] == types;
  }

  /** A section's opening line: the stripped Heading 4 text, or the fallback when it is blank. */
  function HeadText(text: string): (r: string)
    ensures r != [] && !IsSpace(r[0]) && !IsSpace(r[|r| - 1])
  {
    if Strip(text) != [] then Strip(text) else Fallback
  }

  /** What a body paragraph adds to the section text: a new line and its stripped text, if any. */
  function Line(p: Paragraph): (r: string)
    ensures r == [] || !IsSpace(r[|r| - 1])
  {
    if Strip(p.text) != [] then "\n" + Strip(p.text) else []
  }

  /** The lines of several body paragraphs, in order. */
  function Lines(ps: seq<Paragraph>): string {
    if ps == [] then [] else Lines(ps[..|ps| - 1]) + Line(ps[|ps| - 1])
  }

  /** The lines end in a non-space character (or are empty). */
  lemma {:induction false} LinesEnd(ps: seq<Paragraph>)
    ensures Lines(ps) == [] || !IsSpace(Lines(ps)[|Lines(ps)| - 1])
    decreases |ps|
  {
    if ps != [] {
      var a, b := Lines(ps[..|ps| - 1]), Line(ps[|ps| - 1]);
      LinesEnd(ps[..|ps| - 1]);
      if b == [] {
        assert a + b == a;
      } else {
        assert (a + b)[|a + b| - 1] == b[|b| - 1];
      }
    }
  }

  /** The image content types of several paragraphs, in order. */
  function Types(ps: seq<Paragraph>): seq<string> {
    if ps == [] then [] else Types(ps[..|ps| - 1]) + ps[|ps| - 1].imageTypes
  }

  lemma LinesSnoc(ps: seq<Paragraph>, p: Paragraph)
    ensures Lines(ps + [p]) == Lines(ps) + Line(p)
    ensures Types(ps + [p]) == Types(ps) + p.imageTypes
  {
    assert (ps + [p])[..|ps|] == ps;
  }

  /** A section's collected text never needs stripping: both of its ends are already non-space. */
  lemma ContentStripped(heading: string, body: seq<Paragraph>)
    ensures Strip(HeadText(heading) + Lines(body)) == HeadText(heading) + Lines(body)
  {
    var h, b := HeadText(heading), Lines(body);
    LinesEnd(body);
    assert h != [] && !IsSpace(h[0]) && !IsSpace(h[|h| - 1]);
    assert b == [] || !IsSpace(b[|b| - 1]);
    StripFixedConcat(h, b);
  }

  /** The image lists of all sections, in order. */
  function AllImages(sections: seq<Section>): seq<string> {
    if sections == [] then [] else AllImages(sections[..|sections| - 1]) + sections[|sections| - 1].images
  }

  lemma AllImagesSnoc(sections: seq<Section>, s: Section)
    ensures AllImages(sections + [s]) == AllImages(sections) + s.images
  {
    assert (sections + [s])[..|sections|] == sections;
  }

  /** The images are numbered 0, 1, 2, ... in order of appearance. */
  predicate Numbered(images: seq<string>) {
    forall k :: 0 <= k < |images| ==> StartsWith(images[k], ImagePrefix) && Number(images[k]) == k
  }

  /** The `k`-th path starts with the prefix and carries counter `from + k`. */
  lemma PathNumber(from: nat, types: seq<string>, k: nat)
    requires k < |types|
    ensures StartsWith(Paths(from, types)[k], ImagePrefix)
    ensures Number(Paths(from, types)[k]) == from + k
  {
    PathsAt(from, types, k);
    NumberOfImagePath(from + k, types[k]);
  }

  /** Appending the paths numbered on from the count keeps the numbering. */
  lemma NumberedAppend(images: seq<string>, types: seq<string>)
    requires Numbered(images)
    ensures Numbered(images + Paths(|images|, types))
  {
    var paths := Paths(|images|, types);
    var all := images + paths;
    forall k | 0 <= k < |all| ensures StartsWith(all[k], ImagePrefix) && Number(all[k]) == k {
      if k < |images| {
        assert all[k] == images[k];
      } else {
        assert all[k] == paths[k - |images|];
        PathNumber(|images|, types, k - |images|);
      }
    }
  }

  /** Numbered images are pairwise distinct. */
  lemma NumberedDistinct(images: seq<string>)
    requires Numbered(images)
    ensures forall i, j :: 0 <= i < j < |images| ==> images[i] != images[j]
  {
  }

  /** A section is pending when `collecting and (current_content or current_images)`: closing it emits a record. */
  predicate Pending(collecting: bool, content: Option<string>, images: seq<string>) {
    collecting && ((content.Some? && content.value != []) || images != [])
  }

  /** The number of Heading 4 paragraphs: one section each. */
  function Heading4Count(ps: seq<Paragraph>): nat {
    if ps == [] then 0 else Heading4Count(ps[..|ps| - 1]) + (if ps[|ps| - 1].style == Heading(4) then 1 else 0)
  }
}
