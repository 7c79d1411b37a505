/** The overlay navigation bar (src/Navbar.tsx): the two-character section
    and total readouts, and the refs that remember what the previous render
    committed so the readout can animate from the old value to the new one. */
module Navbar {
  import opened Decimal

  datatype Option<T> = None | Some(value: T)

  /** `String(n).padStart(2, "0")`. */
  function Label(n: nat): string {
    PadStart(ToDecimal(n), 2, "0")
  }

  /** One-digit values get a leading zero: the label is "0" and the digit. */
  lemma LabelOneDigit(n: nat)
    requires n <= 9
    ensures Label(n) == ['0', DigitChar(n)]
    ensures |Label(n)| == 2
  {
    assert ToDecimal(n) == [DigitChar(n)];
  }

  /** From 10 on the label is the plain decimal form; in general its length is
      the larger of 2 and the number of digits. */
  lemma LabelManyDigits(n: nat)
    ensures n >= 10 ==> Label(n) == ToDecimal(n)
    ensures |Label(n)| == Max(2, NumDigits(n))
  {
    if n >= 10 {
      assert NumDigits(n) >= 2;
    }
  }

  /** Reading a label back as a decimal number gives the number it shows. */
  lemma LabelRoundTrip(n: nat)
    ensures AllDigits(Label(n))
    ensures ParseDecimal(Label(n)) == n
  {
    ParseToDecimal(n);
    if n <= 9 {
      LabelOneDigit(n);
      assert Label(n) == ['0'] + ToDecimal(n);
      ParseIgnoresLeadingZero(ToDecimal(n));
    } else {
      LabelManyDigits(n);
    }
  }

  /** Different numbers get different labels. */
  lemma LabelInjective(m: nat, n: nat)
    requires Label(m) == Label(n)
    ensures m == n
  {
    LabelRoundTrip(m);
    LabelRoundTrip(n);
  }

  /** The props of the bar; `totalOriginalSections` may be left out. */
  datatype NavbarProps = NavbarProps(currentSection: nat, totalOriginalSections: Option<nat>)

  /** The default value of the `totalOriginalSections` prop. */
  function TotalOrDefault(total: Option<nat>): (t: nat)
    ensures total.None? ==> t == 5
    ensures total.Some? ==> t == total.value
  {
    match total
    case None => 5
    case Some(t) => t
  }

  /** The four strings handed to the two digit widgets. */
  datatype Readout = Readout(section: string, previousSection: string,
                             total: string, previousTotal: string)

  /** The refs `previousSectionRef` and `previousTotalRef`, together with the
      dependency value each effect saw when it last ran (None before the first
      commit), which decides whether the effect runs again. */
  class Trackers {
    var previousSectionRef: nat
    var previousTotalRef: nat
    var sectionDep: Option<nat>
    var totalDep: Option<nat>

    /** Once an effect has run, its ref holds the dependency value it ran with. */
    ghost predicate Valid()
      reads this
    {
      && (sectionDep.Some? ==> previousSectionRef == sectionDep.value)
      && (totalDep.Some? ==> previousTotalRef == totalDep.value)
    }

    /** The first render: `useRef` seeds both refs with the first props. */
    constructor (first: NavbarProps)
      ensures Valid()
      ensures previousSectionRef == first.currentSection
      ensures previousTotalRef == TotalOrDefault(first.totalOriginalSections)
      ensures sectionDep == None && totalDep == None
    {
      previousSectionRef := first.currentSection;
      previousTotalRef := TotalOrDefault(first.totalOriginalSections);
      sectionDep := None;
      totalDep := None;
    }

    /** The body of a render: the labels of the props and of what the refs
      hold, read before this render's effects run. */
    method Render(props: NavbarProps) returns (r: Readout)
      ensures r.section == Label(props.currentSection)
      ensures r.previousSection == Label(previousSectionRef)
      ensures r.total == Label(TotalOrDefault(props.totalOriginalSections))
      ensures r.previousTotal == Label(previousTotalRef)
    {
      var total := TotalOrDefault(props.totalOriginalSections);
      var previousSection := previousSectionRef;
      var previousTotal := previousTotalRef;
      r := Readout(Label(props.currentSection), Label(previousSection),
                   Label(total), Label(previousTotal));
    }

    /** The effect on `[currentSection]`: it runs on the first commit and
      whenever the section differs from the one it last ran with. It touches
      only the section ref. */
    method SectionEffect(currentSection: nat)
      requires Valid()
      modifies this`previousSectionRef, this`sectionDep
      ensures Valid()
      ensures previousSectionRef == currentSection
      ensures sectionDep == Some(currentSection)
    {
      if sectionDep != Some(currentSection) {
        previousSectionRef := currentSection;
        sectionDep := Some(currentSection);
      }
    }

    /** The effect on `[totalOriginalSections]`; it touches only the total ref. */
    method TotalEffect(total: nat)
      requires Valid()
      modifies this`previousTotalRef, this`totalDep
      ensures Valid()
      ensures previousTotalRef == total
      ensures totalDep == Some(total)
    {
      if totalDep != Some(total) {
        previousTotalRef := total;
        totalDep := Some(total);
      }
    }

    /** The commit after a render: both effects in declaration order. */
    method Commit(props: NavbarProps)
      requires Valid()
      modifies this
      ensures Valid()
      ensures previousSectionRef == props.currentSection
      ensures previousTotalRef == TotalOrDefault(props.totalOriginalSections)
    {
      SectionEffect(props.currentSection);
      TotalEffect(TotalOrDefault(props.totalOriginalSections));
    }
  }

  /** Mounts the bar with the first props and re-renders it with each later
      one, committing after every render. Each render's "previous" labels are
      those of the values committed by the render before it; the first render
      shows its own values as the previous ones. */
  method RenderSequence(history: seq<NavbarProps>) returns (readouts: seq<Readout>)
    requires |history| >= 1
    ensures |readouts| == |history|
    ensures readouts[0].previousSection == readouts[0].section
    ensures readouts[0].previousTotal == readouts[0].total
    ensures forall k :: 0 <= k < |history| ==>
      && readouts[k].section == Label(history[k].currentSection)
      && readouts[k].total == Label(TotalOrDefault(history[k].totalOriginalSections))
    ensures forall k :: 1 <= k < |history| ==>
      && readouts[k].previousSection == Label(history[k - 1].currentSection)
      && readouts[k].previousTotal == Label(TotalOrDefault(history[k - 1].totalOriginalSections))
  {
    var bar := new Trackers(history[0]);
    var first := bar.Render(history[0]);
    bar.Commit(history[0]);
    readouts := [first];
    var k := 1;
    while k < |history|
      invariant 1 <= k <= |history|
      invariant bar.Valid()
      invariant |readouts| == k
      invariant readouts[0] == first
      invariant bar.previousSectionRef == history[k - 1].currentSection
      invariant bar.previousTotalRef == TotalOrDefault(history[k - 1].totalOriginalSections)
      invariant forall j :: 0 <= j < k ==>
        && readouts[j].section == Label(history[j].currentSection)
        && readouts[j].total == Label(TotalOrDefault(history[j].totalOriginalSections))
      invariant forall j :: 1 <= j < k ==>
        && readouts[j].previousSection == Label(history[j - 1].currentSection)
        && readouts[j].previousTotal == Label(TotalOrDefault(history[j - 1].totalOriginalSections))
    {
      var r := bar.Render(history[k]);
      bar.Commit(history[k]);
      readouts := readouts + [r];
      k := k + 1;
    }
  }

  /** Rendered by the page, the bar always gets 13 as the total, so its total
      readout is "13" and its section readout one of "01" .. "13". */
  lemma PageReadout(section: nat)
    requires 1 <= section <= 13
    ensures Label(TotalOrDefault(Some(13))) == "13"
    ensures |Label(section)| == 2
    ensures Label(section)[0] == (if section <= 9 then '0' else '1')
  {
    var one := ToDecimal(1);
    assert one == [DigitChar(1)] && DigitChar(1) == '1';
    assert ToDecimal(13) == one + [DigitChar(3)] && DigitChar(3) == '3';
    LabelManyDigits(13);
    if section <= 9 {
      LabelOneDigit(section);
    } else {
      LabelManyDigits(section);
      assert section / 10 == 1;
      assert ToDecimal(section) == one + [DigitChar(section % 10)];
    }
  }
}
