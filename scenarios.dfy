/**
 * The repository's tests testIncrementAndReturnToZero and
 * testIncrementNegativeAddingZero, with the strings a
 * euro currency formatter gives: -99 shown as "-€99.00" becomes -100.01,
 * "-€100.01". The first goes through the source's own reading; the second
 * is a decrease whose string grows by one character, which the source
 * misreads.
 */
module Scenarios {
  import opened Wrappers
  import opened Text
  import opened Diff
  import opened Settle

  const OldString: string := "-€99.00"
  const NewString: string := "-€100.01"

  /** The labels showing the old string, with nothing pending, as setupForInitial leaves them. */
  function Start(): (d: Display)
    ensures Consistent(d) && d.pending == [] && Shows(d.labels, OldString)
    ensures StartingIndex(d.labels) == 2
  {
    var d := Display(Fresh(0, OldString), [], |OldString|, [], {});
    assert IsDigitText(d.labels[2].text);
    assert !IsDigitText(d.labels[0].text) && !IsDigitText(d.labels[1].text);
    d
  }

  /**
   * As written, the label the loop finds at index 3 (the first "9") is
   * compared with the old character one place to its right, ".", so it does
   * not roll, and it goes on showing "9" where the new string has "0".
   */
  lemma AsWrittenKeepsStaleDigit(duration: real)
    ensures StepSafe(Start(), OldString, NewString)
    ensures var e := Stepped(Start(), OldString, NewString, false, duration);
      && |Settled(e).labels| == |NewString|
      && Settled(e).labels[3].text == "9"
      && NewString[3] == '0'
  {
    assert NewString[3] == '0';
    var d, os, ns := Start(), OldString, NewString;
    assert StepSafe(d, os, ns);
    assert AsWrittenShift(|ns| - |os|, false) == -1;
    assert Prepared(d, os, ns)[3].text == "9" by {
      PreparedAt(d, os, ns, 3);
    }
    assert !IsDigitText(OldChar(os, 3, -1)) by {
      assert OldChar(os, 3, -1) == ".";
    }
    SettledKeepsText(d, os, ns, false, duration, -1, 3);
  }

  /** The two strings share a layout around the first digit, index 2, with one character inserted there. */
  lemma StringsShareLayout()
    ensures SameLayout(OldString, NewString, 2)
  {
    var os, ns := OldString, NewString;
    forall j | 3 <= j < |ns|
      ensures Matches(OldChar(os, j, 1), CharAt(ns, j))
    {
      assert OldChar(os, j, 1) == [os[j - 1]] && CharAt(ns, j) == [ns[j]];
    }
  }

  /** The indexes that hold an inserted label or a right-aligned digit that differs. */
  lemma DiffersAt(j: int)
    ensures Differs(OldString, NewString, 2, j) <==> j in {2, 3, 4, 7}
  {
    var os, ns := OldString, NewString;
    if 3 <= j < |ns| {
      assert OldChar(os, j, 1) == [os[j - 1]] && CharAt(ns, j) == [ns[j]];
    }
  }

  /**
   * Reading the right-aligned old character instead, the same update leaves
   * the labels reading "-€100.01" and highlights the inserted "1", the two
   * rolled zeros and the rolled last digit.
   */
  lemma AlignedShowsNewString(lv: Option<PinnedView>, format: real -> Option<string>, duration: real)
    requires format(-99.0) == Some(OldString) && format(-100.01) == Some(NewString)
    ensures Safe(Start(), format, Some(-99.0), Some(-100.01))
    ensures var e := Updated(Start(), lv, format, Some(-99.0), Some(-100.01), duration);
      && Join(Texts(Settled(e).labels)) == NewString
      && e.changed == {2, 3, 4, 7}
  {
    StringsShareLayout();
    AlignedUpdateSettles(Start(), lv, format, -99.0, -100.01, OldString, NewString, duration);
    var e := Updated(Start(), lv, format, Some(-99.0), Some(-100.01), duration);
    ChangedIndexes(e.changed);
  }

  /** The set of indexes that differ, written out. */
  lemma ChangedIndexes(changed: set<int>)
    requires forall j :: j in changed <==> Differs(OldString, NewString, 2, j)
    ensures changed == {2, 3, 4, 7}
  {
    forall j
      ensures j in changed <==> j in {2, 3, 4, 7}
    {
      DiffersAt(j);
    }
  }

  const Zero: string := "€0.00"
  const Thousand: string := "€1,000.32"

  /** The labels setupForInitial leaves for 0, with nothing pending. */
  function ZeroShown(): (d: Display)
    ensures Consistent(d) && d.pending == [] && Shows(d.labels, Zero)
    ensures StartingIndex(d.labels) == 1
  {
    var d := Display(Fresh(0, Zero), [], |Zero|, [], {});
    assert IsDigitText(d.labels[1].text) && !IsDigitText(d.labels[0].text);
    d
  }

  /** "€0.00" and "€1,000.32" share a layout around index 1, in both directions. */
  lemma ZeroThousandLayout()
    ensures SameLayout(Zero, Thousand, 1)
    ensures SameLayout(Thousand, Zero, 1)
  {
    forall j | 5 <= j < |Thousand|
      ensures Matches(OldChar(Zero, j, 4), CharAt(Thousand, j))
    {
      assert OldChar(Zero, j, 4) == [Zero[j - 4]] && CharAt(Thousand, j) == [Thousand[j]];
    }
    forall j | 1 <= j < |Zero|
      ensures Matches(OldChar(Thousand, j, -4), CharAt(Zero, j))
    {
      assert OldChar(Thousand, j, -4) == [Thousand[j + 4]] && CharAt(Zero, j) == [Zero[j]];
    }
  }

  /**
   * 0 to 1000.32 and back, each update run to the end of its rolls, as the
   * source reads the old characters: the labels read "€1,000.32", then
   * "€0.00" again.
   */
  lemma ThousandAndBack(duration: real)
    ensures StepSafe(ZeroShown(), Zero, Thousand)
    ensures var up := Settled(Stepped(ZeroShown(), Zero, Thousand, true, duration));
      && Join(Texts(up.labels)) == Thousand
      && StepSafe(up, Thousand, Zero)
      && Join(Texts(Settled(Stepped(up, Thousand, Zero, false, duration)).labels)) == Zero
  {
    ZeroThousandLayout();
    AsWrittenSettles(ZeroShown(), Zero, Thousand, true, duration);
    var up := Settled(Stepped(ZeroShown(), Zero, Thousand, true, duration));
    ThousandDigitsFrom1(up.labels);
    AsWrittenSettles(up, Thousand, Zero, false, duration);
  }

  /** Labels showing "€1,000.32" have their first digit at index 1. */
  lemma ThousandDigitsFrom1(cs: seq<Cell>)
    requires Shows(cs, Thousand)
    ensures StartingIndex(cs) == 1
  {
    assert cs[0].text == "€" && cs[1].text == "1";
  }
}
