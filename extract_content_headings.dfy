/**
 * `DocxParser.extract_headings_content_with_images` of
 * extract_content_headings.py: the same one pass over the paragraphs, without
 * Heading 1 prefixes. A Heading 4 opens a section (closing the open one); a
 * Heading 1, 2 or 3 closes the open section and stops collecting; any other
 * paragraph inside a section adds its text and its images. The end of the
 * document closes the open section. A record's text is the section's text
 * stripped, with no heading in front of it.
 */
module ExtractHeadings {
  import opened Text
  import opened Wrappers
  import opened Docx

  /** The loop's variables: `extracted_data`, `current_content`, `current_images`, `collecting`, `image_counter`. */
  datatype State = State(sections: seq<Section>, content: Option<string>, images: seq<string>,
                         collecting: bool, counter: nat)

  const Init: State := State([], None, [], false, 0)

  /** While collecting there is always non-empty text; otherwise nothing is held. */
  predicate Inv(s: State) {
    (s.collecting ==> s.content.Some? && s.content.value != []) &&
    (!s.collecting ==> s.content.None? && s.images == [])
  }

  /** `para.style.name in ['Heading 1', 'Heading 2', 'Heading 3']`. */
  predicate Stops(style: Style) {
    style == Heading(1) || style == Heading(2) || style == Heading(3)
  }

  /** `current_content.strip() if current_content else custom_heading_text`. */
  function Emitted(content: Option<string>): string {
    if content.Some? && content.value != [] then Strip(content.value) else Fallback
  }

  /** The records after closing the open section, if there is one. */
  function Close(sections: seq<Section>, collecting: bool, content: Option<string>, images: seq<string>): seq<Section> {
    if Pending(collecting, content, images) then sections + [Section(Emitted(content), images)] else sections
  }

  /** One iteration of the paragraph loop. */
  function Step(s: State, p: Paragraph): (r: State)
    requires Inv(s)
    ensures Inv(r)
  {
    if p.style == Heading(4) then
      State(Close(s.sections, s.collecting, s.content, s.images), Some(HeadText(p.text)), [], true, s.counter)
    else if Stops(p.style) then
      State(Close(s.sections, s.collecting, s.content, s.images), None, [], false, s.counter)
    else if s.collecting then
      State(s.sections, Some(s.content.value + Line(p)), s.images + Paths(s.counter, p.imageTypes),
            true, s.counter + |p.imageTypes|)
    else s
  }

  /** Inside a section, a paragraph that neither opens nor stops one adds its line and its images. */
  lemma StepBody(s: State, p: Paragraph)
    requires Inv(s) && s.collecting && p.style != Heading(4) && !Stops(p.style)
    ensures Step(s, p) == State(s.sections, Some(s.content.value + Line(p)),
                                s.images + Paths(s.counter, p.imageTypes), true, s.counter + |p.imageTypes|)
  {
  }

  /** The state after the given paragraphs. */
  function Run(s: State, ps: seq<Paragraph>): (r: State)
    requires Inv(s)
    ensures Inv(r)
  {
    if ps == [] then s else Step(Run(s, ps[..|ps| - 1]), ps[|ps| - 1])
  }

  lemma RunStep(s: State, ps: seq<Paragraph>, i: nat)
    requires Inv(s) && i < |ps|
    ensures Run(s, ps[..i + 1]) == Step(Run(s, ps[..i]), ps[i])
  {
    assert ps[..i + 1][..i] == ps[..i];
  }

  /** The end of the document closes the open section. */
  function Finish(s: State): seq<Section> {
    Close(s.sections, s.collecting, s.content, s.images)
  }

  /** The records returned for a document. */
  function Extract(ps: seq<Paragraph>): seq<Section> {
    Finish(Run(Init, ps))
  }

  method ExtractHeadingsContentWithImages(paragraphs: seq<Paragraph>) returns (extracted: seq<Section>)
    ensures extracted == Extract(paragraphs)
  {
    extracted := [];
    var content: Option<string> := None;
    var images: seq<string> := [];
    var collecting := false;
    var counter: nat := 0;
    var i := 0;
    while i < |paragraphs|
      invariant 0 <= i <= |paragraphs|
      invariant State(extracted, content, images, collecting, counter) == Run(Init, paragraphs[..i])
    {
      ghost var before := State(extracted, content, images, collecting, counter);
      RunStep(Init, paragraphs, i);
      var para := paragraphs[i];
      if para.style == Heading(4) {
        extracted := Close(extracted, collecting, content, images);
        content := Some(HeadText(para.text));
        images := [];
        collecting := true;
      } else if para.style == Heading(1) || para.style == Heading(2) || para.style == Heading(3) {
        extracted := Close(extracted, collecting, content, images);
        collecting := false;
        content := None;
        images := [];
      } else if collecting {
        StepBody(before, para);
        if Strip(para.text) != [] {
          assert "\n" + Strip(para.text) == Line(para);
          content := Some(content.value + ("\n" + Strip(para.text)));
        } else {
          assert content.value + Line(para) == content.value;
        }
        images, counter := SaveImages(images, counter, para.imageTypes);
        assert State(extracted, content, images, collecting, counter) == Step(before, para);
      }
      i := i + 1;
    }
    assert paragraphs[..i] == paragraphs;
    extracted := Close(extracted, collecting, content, images);
  }

  /** Sections emitted so far, counting the open one. */
  function Opened(s: State): nat {
    |s.sections| + (if s.collecting then 1 else 0)
  }

  /** A step only appends records, and it opens one exactly at a Heading 4. */
  lemma StepSections(s: State, p: Paragraph)
    requires Inv(s)
    ensures |s.sections| <= |Step(s, p).sections| && Step(s, p).sections[..|s.sections|] == s.sections
    ensures Opened(Step(s, p)) == Opened(s) + (if p.style == Heading(4) then 1 else 0)
  {
  }

  lemma {:induction false} RunAppend(s: State, a: seq<Paragraph>, b: seq<Paragraph>)
    requires Inv(s)
    ensures Run(s, a + b) == Run(Run(s, a), b)
    decreases |b|
  {
    if b == [] {
      assert a + b == a;
    } else {
      assert (a + b)[..|a + b| - 1] == a + b[..|b| - 1];
      RunAppend(s, a, b[..|b| - 1]);
    }
  }

  /** Records once emitted stay in place, and every Heading 4 adds one. */
  lemma {:induction false} RunSections(s: State, ps: seq<Paragraph>)
    requires Inv(s)
    ensures |s.sections| <= |Run(s, ps).sections| && Run(s, ps).sections[..|s.sections|] == s.sections
    ensures Opened(Run(s, ps)) == Opened(s) + Heading4Count(ps)
    decreases |ps|
  {
    if ps != [] {
      var r := Run(s, ps[..|ps| - 1]);
      RunSections(s, ps[..|ps| - 1]);
      StepSections(r, ps[|ps| - 1]);
      assert Step(r, ps[|ps| - 1]).sections[..|r.sections|][..|s.sections|] == s.sections;
    }
  }

  /** One record per Heading 4 paragraph: a section never holds empty text, so none is dropped. */
  lemma ExtractCount(ps: seq<Paragraph>)
    ensures |Extract(ps)| == Heading4Count(ps)
  {
    RunSections(Init, ps);
  }

  /** Neither a Heading 4 nor a Heading 1, 2 or 3. */
  predicate NoBoundary(ps: seq<Paragraph>) {
    forall k :: 0 <= k < |ps| ==> ps[k].style != Heading(4) && !Stops(ps[k].style)
  }

  /** Outside a section, paragraphs that are not boundaries change nothing, whatever their style or images. */
  lemma {:induction false} IgnoredOutside(s: State, ps: seq<Paragraph>)
    requires Inv(s) && !s.collecting && NoBoundary(ps)
    ensures Run(s, ps) == s
    decreases |ps|
  {
    if ps != [] {
      IgnoredOutside(s, ps[..|ps| - 1]);
    }
  }

  /** The state after body paragraphs `mid` were collected into the section open in `s`. */
  function Collected(s: State, mid: seq<Paragraph>): State
    requires s.content.Some?
  {
    State(s.sections, Some(s.content.value + Lines(mid)), s.images + Paths(s.counter, Types(mid)),
          true, s.counter + |Types(mid)|)
  }

  lemma CollectStep(s: State, mid: seq<Paragraph>)
    requires Inv(s) && s.collecting && mid != []
    requires mid[|mid| - 1].style != Heading(4) && !Stops(mid[|mid| - 1].style)
    ensures Step(Collected(s, mid[..|mid| - 1]), mid[|mid| - 1]) == Collected(s, mid)
  {
    var init, p := mid[..|mid| - 1], mid[|mid| - 1];
    ConcatAssoc(s.content.value, Lines(init), Line(p));
    PathsRegroup(s.images, s.counter, Types(init), p.imageTypes, Types(mid));
  }

  /**
   * Inside a section, paragraphs that are not boundaries (a Heading 5 or a
   * Title included) add their lines and their images, numbered on from the counter.
   */
  lemma {:induction false} CollectBody(s: State, mid: seq<Paragraph>)
    requires Inv(s) && s.collecting && NoBoundary(mid)
    ensures Run(s, mid) == Collected(s, mid)
    decreases |mid|
  {
    if mid == [] {
      assert s.content.value + Lines(mid) == s.content.value;
      assert s.images + Paths(s.counter, Types(mid)) == s.images;
    } else {
      var init := mid[..|mid| - 1];
      assert NoBoundary(init) by {
        forall k | 0 <= k < |init| ensures init[k].style != Heading(4) && !Stops(init[k].style) {
          assert init[k] == mid[k];
        }
      }
      CollectBody(s, init);
      CollectStep(s, mid);
      assert Run(s, mid) == Step(Run(s, init), mid[|mid| - 1]);
    }
  }

  /** Closing at the end of the document keeps the records emitted before. */
  lemma FinishKeeps(s: State)
    ensures |s.sections| <= |Finish(s)| && Finish(s)[..|s.sections|] == s.sections
  {
  }

  /** A boundary emits the open section as the next record. */
  lemma BoundaryCloses(s: State, p: Paragraph)
    requires Inv(s) && s.collecting && (p.style == Heading(4) || Stops(p.style))
    ensures Step(s, p).sections == s.sections + [Section(Emitted(s.content), s.images)]
  {
  }

  /** Records already emitted survive the rest of the document and its end. */
  lemma {:induction false} EmittedSurvive(s: State, rest: seq<Paragraph>)
    requires Inv(s)
    ensures |s.sections| <= |Finish(Run(s, rest))|
    ensures Finish(Run(s, rest))[..|s.sections|] == s.sections
  {
    var f := Run(s, rest);
    RunSections(s, rest);
    FinishKeeps(f);
    assert Finish(f)[..|f.sections|][..|s.sections|] == s.sections;
  }

  /**
   * The section open in `s` is emitted, as the next record, by the boundary that
   * `rest` starts with (or by the end of the document), whatever follows.
   */
  lemma ClosedRecord(s: State, rest: seq<Paragraph>)
    requires Inv(s) && s.collecting
    requires rest == [] || rest[0].style == Heading(4) || Stops(rest[0].style)
    ensures |s.sections| < |Finish(Run(s, rest))|
    ensures Finish(Run(s, rest))[|s.sections|] == Section(Emitted(s.content), s.images)
  {
    if rest != [] {
      var s3 := Step(s, rest[0]);
      BoundaryCloses(s, rest[0]);
      assert Run(s, rest) == Run(s3, rest[1..]) by {
        RunAppend(s, [rest[0]], rest[1..]);
        assert [rest[0]] + rest[1..] == rest;
      }
      EmittedSurvive(s3, rest[1..]);
      var out := Finish(Run(s3, rest[1..]));
      assert out[..|s3.sections|][|s.sections|] == out[|s.sections|];
    } else {
      assert Run(s, rest) == s;
      assert Pending(s.collecting, s.content, s.images);
      assert Finish(s) == s.sections + [Section(Emitted(s.content), s.images)];
    }
  }

  /** Opening a section at a Heading 4: the open section holds the heading text and no images. */
  lemma OpenSection(pre: seq<Paragraph>, h4: Paragraph)
    requires h4.style == Heading(4)
    ensures var s := Run(Init, pre);
            Run(Init, pre + [h4]) ==
            State(Close(s.sections, s.collecting, s.content, s.images), Some(HeadText(h4.text)), [], true, s.counter)
    ensures |Run(Init, pre + [h4]).sections| == Heading4Count(pre)
  {
    RunSections(Init, pre);
    RunAppend(Init, pre, [h4]);
  }

  /**
   * The record of one section: the `k`-th Heading 4 yields record `k`, whose
   * text is the heading text followed by the body lines, with nothing in
   * front, and whose images are those of its body.
   */
  lemma SectionRecord(pre: seq<Paragraph>, h4: Paragraph, mid: seq<Paragraph>, rest: seq<Paragraph>)
    requires h4.style == Heading(4) && NoBoundary(mid)
    requires rest == [] || rest[0].style == Heading(4) || Stops(rest[0].style)
    ensures Heading4Count(pre) < |Extract(pre + [h4] + mid + rest)|
    ensures Extract(pre + [h4] + mid + rest)[Heading4Count(pre)] ==
            Section(HeadText(h4.text) + Lines(mid), Paths(Run(Init, pre).counter, Types(mid)))
  {
    OpenSection(pre, h4);
    var s1 := Run(Init, pre + [h4]);
    RunAppend(Init, pre + [h4], mid);
    CollectBody(s1, mid);
    var s2 := Run(Init, pre + [h4] + mid);
    RunAppend(Init, pre + [h4] + mid, rest);
    ClosedRecord(s2, rest);
    ContentStripped(h4.text, mid);
  }

  /** The generated paths held so far are numbered 0, 1, ... in order, and the counter is their number. */
  predicate Counted(s: State) {
    Numbered(AllImages(s.sections) + s.images) && |AllImages(s.sections) + s.images| == s.counter
  }

  /** Closing moves the open section's images, unchanged, behind those already emitted. */
  lemma CloseImages(s: State)
    requires Inv(s)
    ensures AllImages(Close(s.sections, s.collecting, s.content, s.images)) == AllImages(s.sections) + s.images
  {
    if s.collecting {
      AllImagesSnoc(s.sections, Section(Emitted(s.content), s.images));
    } else {
      assert AllImages(s.sections) + s.images == AllImages(s.sections);
    }
  }

  lemma StepCounted(s: State, p: Paragraph)
    requires Inv(s) && Counted(s)
    ensures Counted(Step(s, p))
  {
    var all, r := AllImages(s.sections) + s.images, Step(s, p);
    if p.style == Heading(4) || Stops(p.style) {
      CloseImages(s);
      assert AllImages(r.sections) + r.images == all;
    } else if s.collecting {
      NumberedAppend(all, p.imageTypes);
      ConcatAssoc(AllImages(s.sections), s.images, Paths(s.counter, p.imageTypes));
      assert AllImages(r.sections) + r.images == all + Paths(s.counter, p.imageTypes);
    }
  }

  lemma {:induction false} RunCounted(s: State, ps: seq<Paragraph>)
    requires Inv(s) && Counted(s)
    ensures Counted(Run(s, ps))
    decreases |ps|
  {
    if ps != [] {
      RunCounted(s, ps[..|ps| - 1]);
      StepCounted(Run(s, ps[..|ps| - 1]), ps[|ps| - 1]);
    }
  }

  /** Across all records, the image paths are numbered 0, 1, ... in order, so no two coincide. */
  lemma ImagesNumbered(ps: seq<Paragraph>)
    ensures Numbered(AllImages(Extract(ps)))
    ensures forall i, j :: 0 <= i < j < |AllImages(Extract(ps))| ==> AllImages(Extract(ps))[i] != AllImages(Extract(ps))[j]
  {
    assert AllImages(Init.sections) + Init.images == [];
    RunCounted(Init, ps);
    CloseImages(Run(Init, ps));
    NumberedDistinct(AllImages(Extract(ps)));
  }

  /** After a Heading 4 "T": an open section holding "T". */
  lemma SubheadingRun1()
    ensures Run(Init, [Paragraph(Heading(4), "T", [])]) == State([], Some("T"), [], true, 0)
  {
    assert [Paragraph(Heading(4), "T", [])][..0] == [];
    StripFixed("T");
  }

  /** Then a Heading 2 "Sub": the section is emitted as it stands and collecting stops. */
  lemma SubheadingRun2()
    ensures Run(Init, [Paragraph(Heading(4), "T", []), Paragraph(Heading(2), "Sub", [])])
      == State([Section("T", [])], None, [], false, 0)
  {
    var ps := [Paragraph(Heading(4), "T", []), Paragraph(Heading(2), "Sub", [])];
    assert ps[..1] == [ps[0]];
    SubheadingRun1();
    StripFixed("T");
  }

  /** Then a Normal "x": outside a section, it is ignored. */
  lemma SubheadingRun()
    ensures Run(Init, [Paragraph(Heading(4), "T", []), Paragraph(Heading(2), "Sub", []), Paragraph(Other("Normal"), "x", [])])
      == State([Section("T", [])], None, [], false, 0)
  {
    var ps := [Paragraph(Heading(4), "T", []), Paragraph(Heading(2), "Sub", []), Paragraph(Other("Normal"), "x", [])];
    assert ps[..2] == [ps[0], ps[1]];
    SubheadingRun2();
  }

  /** A Heading 2 inside a section ends it: the text after it belongs to no record. */
  lemma SubheadingStops()
    ensures Extract([Paragraph(Heading(4), "T", []), Paragraph(Heading(2), "Sub", []), Paragraph(Other("Normal"), "x", [])])
      == [Section("T", [])]
  {
    SubheadingRun();
  }
}
