# Scroll-driven presentation page: a Dafny model

The page is a horizontal strip of 13 panels, each one viewport wide. Vertical
scrolling moves the strip sideways. A navigation bar shows the current section
as a two-character readout ("01" .. "13"). A button switches the page between a
light and a dark theme by sliding two black overlays up or down together.

This project models the small amount of logic inside that page:

- `decimal.dfy`, module `Decimal`. This models the two JavaScript built-ins the
  readout uses: `String(n)` for an integer 0 ≤ n < 10^21, and
  `String.prototype.padStart`. A decimal parser is included too. It is the
  partner against which the round trips are proved.
- `app.dfy`, module `App`. This models src/App.tsx:
  - the section index derived from a scroll-progress sample, with its clamp;
  - the `sections` table built by `Array.from`;
  - the `totalWidth` reduce and the translation endpoints handed to the strip;
  - the band covered by the strip overlay;
  - the theme toggle and the animation targets of both overlays;
  - the component state `currentSection`/`background`. This is a class, and
    the scroll listener and the toggle are its methods.
- `navbar.dfy`, module `Navbar`. This models src/Navbar.tsx:
  - the `padStart(2, "0")` labels;
  - the default for `totalOriginalSections`;
  - the two "previous value" refs. These are a class whose effects are
    methods. React's recorded effect dependency is kept beside each ref.
  - a mount followed by re-renders, which shows that every render reads the
    values committed by the render before it.

A scroll-progress sample is an exact `real`. The source divides by `1/13`.
The model keeps that division in exact arithmetic, where it equals
multiplying by 13.

## Model

| member | source | states |
|---|---|---|
| `Decimal.ToDecimal` | src/Navbar.tsx:113 | `String(n)` for integers 0 ≤ n < 10^21: digits only, exactly `NumDigits(n)` of them, and the first digit is '0' only for n = 0 |
| `Decimal.NumDigits` | src/Navbar.tsx:113 | the digit count k is the unique k ≥ 1 with 10^(k-1) ≤ n < 10^k (for k > 1) |
| `Decimal.ParseToDecimal` | src/Navbar.tsx:113 | reading `String(n)` back as a decimal gives n |
| `Decimal.ToDecimalInjective` | src/Navbar.tsx:113 | different numbers have different decimal forms |
| `Decimal.ParseIgnoresLeadingZero` | src/Navbar.tsx:113 | a leading '0' does not change the value read |
| `Decimal.PadStart` | src/Navbar.tsx:113 | `padStart`: the length is max(|s|, target) when the pad is non-empty; s is unchanged when the pad is empty |
| `Decimal.PadStartParts` | src/Navbar.tsx:113 | the padded string ends with s, and everything in front of s cycles through the pad characters |
| `App.Slot` | src/App.tsx:120-122 | `floor(p / (1/N)) + 1` is the k with k-1 ≤ p·N < k |
| `App.SectionIndex` | src/App.tsx:120-124 | the index is at most N, at least 1 for p ≥ 0, and equals N exactly when p·N ≥ N-1; otherwise it is the slot containing p·N |
| `App.SectionIndexEndpoints` | src/App.tsx:121-124 | p = 0 gives 1 and p = 1 gives N; without the `Math.min` clamp, p = 1 would give N+1 |
| `App.SectionIndexMonotone` | src/App.tsx:120-123 | the index never decreases as progress grows |
| `App.SectionIndexSlot` | src/App.tsx:120-124 | for p in [0,1], section k is shown iff (k-1)/N ≤ p and either p < k/N or k = N; boundaries go to the higher section |
| `App.SectionIndexSamples` | src/App.tsx:120-124 | with N = 13: p = 0 gives 1, p = 0.5 gives 7, p = 0.9999 gives 13 |
| `App.Sections` | src/App.tsx:86-104 | the table has N entries (one when N < 1) with ids 1..N in display order and every width 100; the first entry is the hero, the others are subsections |
| `App.SubSectionLayout` | src/App.tsx:92-99 | a subsection's `sectionNumber` is its id; `isBottom` is (id-2) % 2 = 0; the image is "/blue.jpg" for even ids and "/rose.jpg" for odd ids; the title is "Subsection " followed by id-1 |
| `App.ReduceUniform` | src/App.tsx:111 | the reduce over panels of equal width w, started at acc, is acc + w·count |
| `App.TotalWidthOfSections` | src/App.tsx:111 | `totalWidth` is 100·N, which is 1300 for the page |
| `App.StripTranslationEnds` | src/App.tsx:111-116 | the strip moves from 0vw to -(totalWidth-100)vw, which is -1200vw for the page; at the end the strip's right edge meets the viewport's right edge and the last panel starts at 0 |
| `App.StripOverlayCoversSubSections` | src/App.tsx:173-174 | the overlay starts at the hero's width and ends at `totalWidth`; it covers every panel 2..N and does not overlap the hero |
| `App.SubSectionEntry` | src/App.tsx:92-103 | no contract of its own; its entries are described by `App.Sections` and `App.SubSectionLayout` |
| `App.ReduceWidths` | src/App.tsx:111 | no contract of its own (the `reduce` callback folded from the left); see `App.ReduceUniform` |
| `App.TotalWidth` | src/App.tsx:111 | no contract of its own (`reduce` started at 0); see `App.TotalWidthOfSections` |
| `App.PanelBand` | src/App.tsx:152-160 | no contract of its own (a flex-row panel starts where the panels before it end); see `App.StripOverlayCoversSubSections` |
| `App.StripTranslation` | src/App.tsx:112-116 | no contract of its own; see `App.StripTranslationEnds` |
| `App.StripOverlay` | src/App.tsx:173-174 | no contract of its own; see `App.StripOverlayCoversSubSections` |
| `App.IndexAheadOfStrip` | src/App.tsx:111-124 | for N = 13 with the strip moved in proportion to progress: p = 12/13 already shows 13 while the strip is short of panel 13, and p = 0.05 shows 1 while panel 2 fills most of the viewport |
| `App.HeroOverlayAnimation` | src/App.tsx:43-48 | no contract of its own; see `App.OverlaysInLockstep` |
| `App.StripOverlayAnimation` | src/App.tsx:181-187 | no contract of its own; see `App.OverlaysInLockstep` |
| `App.Toggled` | src/App.tsx:136-137 | the toggle updater always changes the theme |
| `App.ToggleTwice` | src/App.tsx:136-137 | toggling twice returns the original theme |
| `App.OverlaysInLockstep` | src/App.tsx:181-186 | the hero overlay (lines 43-48) and the strip overlay have the same target, duration and easing for every theme; dark gives "-100%", light gives "0%", and every toggle moves the target |
| `App.AppState.constructor` | src/App.tsx:79-80 | `currentSection` starts at 1 and `background` at light |
| `App.AppState.OnScrollChange` | src/App.tsx:119-126 | the listener stores the section index of the sample, keeps it in 1..13 and leaves the theme alone |
| `App.AppState.ToggleBackground` | src/App.tsx:136-137 | the toggle flips the theme and leaves `currentSection` alone |
| `Navbar.Label` | src/Navbar.tsx:113-119 | no contract of its own (`String(n).padStart(2, "0")`); see `Navbar.LabelOneDigit`, `Navbar.LabelManyDigits` and `Navbar.LabelRoundTrip` |
| `Navbar.LabelOneDigit` | src/Navbar.tsx:113 | for 0 ≤ n ≤ 9 the label is "0" followed by the digit, two characters long |
| `Navbar.LabelManyDigits` | src/Navbar.tsx:113 | for n ≥ 10 the label is the plain decimal form; the length is always max(2, digits(n)) |
| `Navbar.LabelRoundTrip` | src/Navbar.tsx:113 | reading the label back as a decimal gives n |
| `Navbar.LabelInjective` | src/Navbar.tsx:113 | different numbers have different labels |
| `Navbar.TotalOrDefault` | src/Navbar.tsx:11 | an omitted `totalOriginalSections` is 5; a given one is used as it is |
| `Navbar.Trackers.constructor` | src/Navbar.tsx:12-13 | both refs start at the first render's prop values |
| `Navbar.Trackers.Render` | src/Navbar.tsx:23-24 | a render shows the labels of its props, and as "previous" the labels of what the refs hold |
| `Navbar.Trackers.SectionEffect` | src/Navbar.tsx:15-17 | after the section effect, the section ref holds the current section; the total ref cannot be touched (frame) |
| `Navbar.Trackers.TotalEffect` | src/Navbar.tsx:19-21 | after the total effect, the total ref holds the current total; the section ref cannot be touched (frame) |
| `Navbar.Trackers.Commit` | src/Navbar.tsx:15-21 | after the effects run, each ref equals its current prop |
| `Navbar.RenderSequence` | src/Navbar.tsx:12-24 | over any sequence of renders, render k shows history[k] and, as previous, history[k-1]; the first render shows its own values as previous |
| `Navbar.PageReadout` | src/Navbar.tsx:118-119 | with the page's total of 13 the total label is "13", and every section 1..13 is labelled with two characters, starting with '0' for 1..9 |

## Left out

- Scroll measurement by `useScroll` (src/App.tsx:106-109) is library code. Progress arrives as a parameter. `App.AppState.OnScrollChange` requires it to lie in [0, 1], because the progress source clamps it there.
- `useTransform` interpolation is library code. Only the two endpoints the page hands over are modelled (0vw and -(totalWidth-100)vw). Linearity between them is not modelled.
- The hero's parallax offsets `x1`/`x2` (src/App.tsx:19-20) are decorative library interpolations and are left out.
- The time-based animation of the overlays is library code. This covers easing, springs, and reversal when a toggle interrupts a running slide. Only the target, duration and easing passed in are modelled.
- IEEE-754 rounding of `1 / 13` and `value / sectionWidth` is not modelled. Arithmetic is exact over `real`.
- The CSS strings are not modelled. Lengths are plain numbers in vw (`"100vw"`, `` `${...}vw` ``, `"-1200vw"`).
- The container height `13 * 100vh` (src/App.tsx:143) is not modelled. It is also CSS.
- Markup, class names, inline styles and the `Component` closures of the table are not modelled. A panel is the data it receives: a title, a number, the placement flag and the image.
- `FullscreenButton` (src/Navbar.tsx:26-48) has no behaviour and is left out.
- `AnimatedClock` and `SmartNumber` are not part of this model. They live in src/components/AnimatedClock. The model stops at the four strings handed to `SmartNumber`.
- React's lifecycle is not modelled: subscribing and unsubscribing the listener, and effect scheduling. Instead, the listener, the render, and the effects of a commit are methods called in order.
- `Decimal.ToDecimal` matches `String(n)` only for safe integers 0 ≤ n < 10^21. JavaScript numbers are doubles: from 10^21 on `String` uses exponent notation (`"1e+21"`), and above 2^53 not every integer can be represented. Negative and fractional numbers are not modelled either. The page only formats section numbers 1..13 and the totals 13 and 5.
- `App.OverlaysInLockstep`: the source writes the two overlays' props out twice. The model keeps two functions and proves that they agree. This is not a single shared animation state.

## Notes on the source

- Index and geometry are decoupled. The section index treats the scroll range as N equal slots whatever the panel widths. The strip offset uses the widths. Even with every width at 100 the two differ, because the index uses N slots while the strip crosses N-1 widths. `App.IndexAheadOfStrip` shows two positions where they differ.
- The table is built for a general N, but the page fixes N = 13, so every property is also stated for 13. The strip overlay's width `(N-1)*100` comes from N, not from the table. `App.StripOverlayCoversSubSections` shows that the two match.
