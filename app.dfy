/** The presentation page (src/App.tsx): the scroll-progress-to-section
    counter, the table of panels and the geometry of the horizontal strip,
    and the light/dark theme with its two sliding overlays. */
module App {
  import opened Decimal

  /** `totalOriginalSections`: the number of panels of the page. */
  const TotalOriginalSections: nat := 13

  /** Every panel is one viewport wide (width 100, in vw). */
  const PanelWidth: nat := 100

  const SectionImages: seq<string> := ["/blue.jpg", "/rose.jpg"]

  function Min(a: int, b: int): int {
    if a < b then a else b
  }

  // ---------------------------------------------------------------------
  // Section index

  /** The index before the clamp: progress divided by the width of one of
      `total` equal slots, floored, plus one. */
  function Slot(progress: real, total: nat): (slot: int)
    requires total >= 1
    ensures (slot - 1) as real <= progress * total as real < slot as real
  {
    var sectionWidth := 1.0 / total as real;
    assert progress / sectionWidth == progress * total as real;
    (progress / sectionWidth).Floor + 1
  }

  /** The 1-based section shown by the readout for a progress sample: the
      slot number, clamped to the last section. */
  function SectionIndex(progress: real, total: nat): (index: int)
    requires total >= 1
    ensures index <= total
    ensures 0.0 <= progress ==> 1 <= index
    ensures index == total || (index - 1) as real <= progress * total as real < index as real
    ensures index == total <==> progress * total as real >= (total - 1) as real
  {
    Min(Slot(progress, total), total)
  }

  /** Progress 0 shows the first section and progress 1 the last one; without
      the clamp, progress 1 would give one past the last section. */
  lemma SectionIndexEndpoints(total: nat)
    requires total >= 1
    ensures SectionIndex(0.0, total) == 1
    ensures SectionIndex(1.0, total) == total
    ensures Slot(1.0, total) == total + 1
  {
  }

  /** The section index never goes down as the page scrolls further. */
  lemma SectionIndexMonotone(p: real, q: real, total: nat)
    requires total >= 1
    requires p <= q
    ensures SectionIndex(p, total) <= SectionIndex(q, total)
  {
    var n := total as real;
    assert p * n <= q * n by {
      ScaleMonotone(p, q, n);
    }
    var i, j := Slot(p, total), Slot(q, total);
    assert (i - 1) as real < j as real;
    assert i <= j;
  }

  lemma ScaleMonotone(p: real, q: real, n: real)
    requires p <= q && 0.0 <= n
    ensures p * n <= q * n
  {
    var d := q - p;
    assert q * n == p * n + d * n;
    assert d * n >= 0.0;
  }

  /** Section k is shown exactly on the k-th slot [(k-1)/N, k/N) of progress,
      the last section also on its right end; a sample on a slot boundary goes
      to the higher section. */
  lemma SectionIndexSlot(progress: real, total: nat, k: int)
    requires total >= 1
    requires 0.0 <= progress <= 1.0
    requires 1 <= k <= total
    ensures SectionIndex(progress, total) == k <==>
      ((k - 1) as real / total as real <= progress &&
       (progress < k as real / total as real || k == total))
  {
    var n := total as real;
    var x := progress * n;
    assert (k - 1) as real / n <= progress <==> (k - 1) as real <= x by {
      DivideBoundBelow((k - 1) as real, n, progress);
    }
    assert progress < k as real / n <==> x < k as real by {
      DivideBoundBelow(k as real, n, progress);
    }
    var i := SectionIndex(progress, total);
    if (k - 1) as real <= x && (x < k as real || k == total) {
      if k < total {
        assert i < total;
        assert i - 1 < k && k - 1 < i;
      }
    }
  }

  lemma DivideBoundBelow(a: real, n: real, p: real)
    requires n > 0.0
    ensures a / n <= p <==> a <= p * n
  {
    assert a / n * n == a;
    if a / n <= p {
      assert (p - a / n) * n >= 0.0;
    } else {
      assert (a / n - p) * n > 0.0;
    }
  }

  /** Three sample positions: the top, the middle and just before the end of
      the page. */
  lemma SectionIndexSamples()
    ensures SectionIndex(0.0, TotalOriginalSections) == 1
    ensures SectionIndex(0.5, TotalOriginalSections) == 7
    ensures SectionIndex(0.9999, TotalOriginalSections) == 13
  {
    assert 0.5 * 13.0 == 6.5;
    assert Slot(0.5, 13) == 7;
  }

  // ---------------------------------------------------------------------
  // The section table

  /** What a panel renders: the hero, or a subsection with its title, the
      number it shows, whether its image sits at the bottom, and the image. */
  datatype Panel =
    | Hero
    | SubSection(title: string, sectionNumber: int, isBottom: bool, imageUrl: string)

  datatype Section = Section(id: int, panel: Panel, width: int)

  /** The subsection built for position `index` of the `Array.from` call. */
  function SubSectionEntry(index: nat): Section {
    Section(index + 2,
            SubSection("Subsection " + ToDecimal(index + 1), index + 2, index % 2 == 0,
                       SectionImages[index % |SectionImages|]),
            PanelWidth)
  }

  /** `sections`: the hero followed by `total - 1` subsections (an
      `Array.from` length below zero gives no entries). */
  function Sections(total: nat): (sections: seq<Section>)
    ensures |sections| == if total >= 1 then total else 1
    ensures sections[0] == Section(1, Hero, PanelWidth)
    ensures forall i :: 0 <= i < |sections| ==> sections[i].id == i + 1 && sections[i].width == PanelWidth
    ensures forall i :: 1 <= i < |sections| ==> sections[i].panel.SubSection?
  {
    [Section(1, Hero, PanelWidth)] +
    seq(if total >= 1 then total - 1 else 0, index requires index >= 0 => SubSectionEntry(index))
  }

  /** Every subsection shows its own id, places its image at the bottom for
      ids 2, 4, 6, ... and at the top otherwise, and uses the blue and rose
      images in turn, starting with blue. */
  lemma SubSectionLayout(total: nat, i: nat)
    requires 1 <= i < total
    ensures var s := Sections(total)[i];
      && s.panel.sectionNumber == s.id
      && s.panel.isBottom == ((s.id - 2) % 2 == 0)
      && s.panel.imageUrl == (if s.id % 2 == 0 then "/blue.jpg" else "/rose.jpg")
      && s.panel.title == "Subsection " + ToDecimal(s.id - 1)
  {
    assert Sections(total)[i] == SubSectionEntry(i - 1);
  }

  // ---------------------------------------------------------------------
  // Strip geometry

  /** `sections.reduce((acc, section) => acc + section.width, acc)`. */
  function ReduceWidths(sections: seq<Section>, acc: int): int {
    if sections == [] then acc else ReduceWidths(sections[1..], acc + sections[0].width)
  }

  function TotalWidth(sections: seq<Section>): int {
    ReduceWidths(sections, 0)
  }

  lemma {:induction false} ReduceUniform(sections: seq<Section>, acc: int, w: int)
    requires forall i :: 0 <= i < |sections| ==> sections[i].width == w
    ensures ReduceWidths(sections, acc) == acc + w * |sections|
  {
    if sections != [] {
      ReduceUniform(sections[1..], acc + w, w);
    }
  }

  /** The strip of N panels is N viewports wide. */
  lemma TotalWidthOfSections(total: nat)
    requires total >= 1
    ensures TotalWidth(Sections(total)) == PanelWidth * total
    ensures TotalWidth(Sections(TotalOriginalSections)) == 1300
  {
    ReduceUniform(Sections(total), 0, PanelWidth);
    ReduceUniform(Sections(TotalOriginalSections), 0, PanelWidth);
  }

  /** A horizontal extent in vw units: where it starts and how wide it is. */
  datatype Band = Band(left: int, width: int)

  predicate Covers(outer: Band, inner: Band) {
    outer.left <= inner.left && inner.left + inner.width <= outer.left + outer.width
  }

  predicate Disjoint(a: Band, b: Band) {
    a.left + a.width <= b.left || b.left + b.width <= a.left
  }

  /** Panel i of the flex row (panels neither shrink nor wrap) starts where
      the panels before it end. */
  function PanelBand(sections: seq<Section>, i: nat): Band
    requires i < |sections|
  {
    Band(TotalWidth(sections[..i]), sections[i].width)
  }

  /** The translation endpoints handed to `useTransform` for progress 0 and
      1: `0vw` and `-(totalWidth - 100)vw`. */
  datatype StripRange = StripRange(atStart: int, atEnd: int)

  function StripTranslation(totalWidth: int): StripRange {
    StripRange(0, -(totalWidth - 100))
  }

  /** At the top of the page the strip is not moved; at the bottom it is moved
      left by 1200vw, so the last panel's right edge meets the viewport's right
      edge (100vw) and that panel exactly fills the viewport. */
  lemma StripTranslationEnds(total: nat)
    requires total >= 1
    ensures var sections := Sections(total);
      var range := StripTranslation(TotalWidth(sections));
      && range.atStart == 0
      && range.atEnd + TotalWidth(sections) == 100
      && range.atEnd + PanelBand(sections, total - 1).left == 0
    ensures StripTranslation(TotalWidth(Sections(TotalOriginalSections))) == StripRange(0, -1200)
  {
    var sections := Sections(total);
    TotalWidthOfSections(total);
    ReduceUniform(sections[..total - 1], 0, PanelWidth);
  }

  /** The dark sheet laid over the strip: `left: 100vw`,
      `width: (totalOriginalSections - 1) * 100vw`. */
  function StripOverlay(total: int): Band {
    Band(100, (total - 1) * 100)
  }

  /** The strip overlay starts where the hero ends and ends where the strip
      ends: it covers every subsection panel and does not touch the hero. */
  lemma StripOverlayCoversSubSections(total: nat, i: nat)
    requires 1 <= total
    requires i < total
    ensures var sections := Sections(total);
      && StripOverlay(total).left == sections[0].width
      && StripOverlay(total).left + StripOverlay(total).width == TotalWidth(sections)
      && (i >= 1 ==> Covers(StripOverlay(total), PanelBand(sections, i)))
      && (i == 0 ==> Disjoint(StripOverlay(total), PanelBand(sections, i)))
  {
    var sections := Sections(total);
    TotalWidthOfSections(total);
    ReduceUniform(sections[..i], 0, PanelWidth);
  }

  /** The index does not follow the geometry even though every panel has the
      same width: it splits progress into N slots, while the strip crosses only
      N - 1 panel widths. Were the strip moved in proportion to progress, at
      p = 12/13 the readout would already show 13 while the strip's left edge
      (about 1107.7vw) is still short of panel 13 (which starts at 1200vw); at
      p = 0.05 it would show 1 while the viewport's left edge is at 60vw, so
      most of the viewport shows panel 2. */
  lemma IndexAheadOfStrip()
    ensures var sections := Sections(TotalOriginalSections);
      var range := StripTranslation(TotalWidth(sections));
      var travel := (range.atStart - range.atEnd) as real;
      && travel == 1200.0
      && SectionIndex(12.0 / 13.0, TotalOriginalSections) == 13
      && (12.0 / 13.0) * travel < PanelBand(sections, 12).left as real
      && SectionIndex(0.05, TotalOriginalSections) == 1
      && 0.05 * travel > PanelBand(sections, 1).left as real - 50.0
  {
    var sections := Sections(TotalOriginalSections);
    TotalWidthOfSections(TotalOriginalSections);
    ReduceUniform(sections[..12], 0, PanelWidth);
    ReduceUniform(sections[..1], 0, PanelWidth);
    assert (12.0 / 13.0) * 13.0 == 12.0;
    assert Slot(12.0 / 13.0, 13) == 13;
  }

  // ---------------------------------------------------------------------
  // Theme

  datatype Theme = Light | Dark

  /** The updater handed to `setBackground` by the toggle. */
  function Toggled(prev: Theme): (next: Theme)
    ensures next != prev
  {
    if prev == Light then Dark else Light
  }

  lemma {:induction false} ToggleTwice(t: Theme)
    ensures Toggled(Toggled(t)) == t
  {
  }

  /** What an overlay animates to: a vertical offset, a duration in seconds
      and a cubic-bezier easing. */
  datatype Animation = Animation(y: string, duration: real, ease: seq<real>)

  /** The overlay inside the hero's right half (its `animate`/`transition`
      props). */
  function HeroOverlayAnimation(background: Theme): Animation {
    Animation(if background == Dark then "-100%" else "0%", 0.6, [0.25, 0.1, 0.25, 1.0])
  }

  /** The overlay over panels 2..N; the source writes its props out again
      rather than sharing them with the hero's. */
  function StripOverlayAnimation(background: Theme): Animation {
    Animation(if background == Dark then "-100%" else "0%", 0.6, [0.25, 0.1, 0.25, 1.0])
  }

  /** Both overlays always slide to the same place with the same timing, so
      they move as one sheet; in the dark theme they are slid up out of view,
      in the light theme they rest at 0%, and every toggle moves them. */
  lemma OverlaysInLockstep(background: Theme)
    ensures HeroOverlayAnimation(background) == StripOverlayAnimation(background)
    ensures HeroOverlayAnimation(background).y == (if background == Dark then "-100%" else "0%")
    ensures HeroOverlayAnimation(Toggled(background)).y != HeroOverlayAnimation(background).y
    ensures HeroOverlayAnimation(Toggled(Toggled(background))) == HeroOverlayAnimation(background)
  {
  }

  // ---------------------------------------------------------------------
  // Component state

  /** The state the App component keeps: `currentSection` and `background`. */
  class AppState {
    var currentSection: int
    var background: Theme

    ghost predicate Valid()
      reads this
    {
      1 <= currentSection <= TotalOriginalSections
    }

    constructor ()
      ensures Valid()
      ensures currentSection == 1 && background == Light
    {
      currentSection := 1;
      background := Light;
    }

    /** The scroll listener, called with each progress sample in [0, 1]. */
    method OnScrollChange(value: real)
      requires Valid()
      requires 0.0 <= value <= 1.0
      modifies this
      ensures Valid()
      ensures currentSection == SectionIndex(value, TotalOriginalSections)
      ensures background == old(background)
    {
      var sectionWidth := 1.0 / TotalOriginalSections as real;
      var sectionIndex := Min((value / sectionWidth).Floor + 1, TotalOriginalSections);
      currentSection := sectionIndex;
    }

    /** `onToggleBackground`. */
    method ToggleBackground()
      requires Valid()
      modifies this
      ensures Valid()
      ensures background == Toggled(old(background))
      ensures currentSection == old(currentSection)
    {
      background := Toggled(background);
    }
  }
}
