/**
 * MonetaryCounterView itself: the view's arranged labels and pinned views,
 * its settings, and the methods that change them step by step as the Swift
 * class does. Each state-changing method is proved against the functions of
 * Diff and Fit, whose properties Settle and Fit prove.
 */
module CounterView {
  import opened Wrappers
  import opened Text
  import opened Rolls
  import opened Diff
  import opened Fit
  import opened Settle

  class MonetaryCounterView {
    /** numberFormatter.string(from:) for the configured currency. */
    const format: real -> Option<string>
    /** The width of a text in the label font at a point size. */
    const measure: Measure

    var number: Option<real>
    var duration: real
    /** The point size of `font`. */
    var font: int
    /** The point size the labels are drawn in. */
    var labelFont: int
    var frameWidth: int
    var leftView: Option<PinnedView>

    /** The labels of the stack view, in order. */
    var labels: seq<Cell>
    /** The arranged views after the labels that are not labels. */
    var pinned: seq<PinnedView>
    /** The identity the next label created will get. */
    var nextId: nat
    /** The text writes scheduled with asyncAfter that have not run yet. */
    var pending: seq<Write>
    /** The indexes the last incremental update marked for highlighting. */
    var changed: set<int>

    function Snapshot(): Display
      reads this
    {
      Display(labels, pinned, nextId, pending, changed)
    }

    ghost predicate Valid()
      reads this
    {
      Consistent(Snapshot()) && Vanishing(measure)
    }

    /** The frame width less the width of the left view. */
    function AvailableWidth(): int
      reads this
    {
      frameWidth - (if leftView.Some? then leftView.value.width else 0)
    }

    /** init(frame:) and commonInit: no number, the system font, no labels, a 0.4 s roll. */
    constructor (format: real -> Option<string>, measure: Measure, systemFontSize: int, frameWidth: int)
      requires Vanishing(measure)
      ensures Valid()
      ensures this.format == format && this.measure == measure && this.frameWidth == frameWidth
      ensures number == None && duration == 0.4 && leftView == None
      ensures font == systemFontSize && labelFont == systemFontSize
      ensures Snapshot() == Display([], [], 0, [], {})
    {
      this.format := format;
      this.measure := measure;
      this.frameWidth := frameWidth;
      number := None;
      duration := 0.4;
      leftView := None;
      font := systemFontSize;
      labelFont := systemFontSize;
      labels := [];
      pinned := [];
      nextId := 0;
      pending := [];
      changed := {};
    }

    /**
     * updateForText (run when `text` or `attributedText` is about to be set):
     * removes every arranged view but the left view.
     */
    method UpdateForText()
      modifies this`labels, this`pinned
      ensures Snapshot() == Cleared(old(Snapshot()), leftView)
    {
      var kept: seq<PinnedView> := [];
      for j := 0 to |pinned|
        invariant kept == Keep(pinned[..j], leftView)
      {
        assert pinned[..j + 1][..j] == pinned[..j];
        if Some(pinned[j]) == leftView {
          kept := kept + [pinned[j]];
        }
      }
      assert pinned[..|pinned|] == pinned;
      labels := [];
      pinned := kept;
    }

    /**
     * setupForInitial: one new label per character of the formatted number,
     * the old labels removed, the new ones inserted in order at the front.
     */
    method SetupForInitial()
      modifies this`labels, this`pinned, this`nextId
      ensures Snapshot() == Initialised(old(Snapshot()), leftView, format, number)
    {
      if number.None? {
        return;
      }
      var numberString := format(number.value);
      if numberString.None? {
        return;
      }
      var s := numberString.value;
      var components: seq<Cell> := [];
      for j := 0 to |s|
        invariant |components| == j && nextId == old(nextId) + j
        invariant forall m :: 0 <= m < j ==> components[m] == Cell(old(nextId) + m, [s[m]])
        invariant labels == old(labels) && pinned == old(pinned)
      {
        components := components + [Cell(nextId, [s[j]])];
        nextId := nextId + 1;
      }
      assert components == Fresh(old(nextId), s);
      UpdateForText();
      ghost var kept := pinned;
      assert kept == Keep(old(pinned), leftView);
      for j := |components| downto 0
        invariant labels == components[j..]
        invariant pinned == kept && nextId == old(nextId) + |s|
      {
        labels := [components[j]] + labels;
      }
    }

    /** The firstIndex of a label whose text parses as an integer, or 0 if there is none. */
    method StartingIndexOf() returns (k: nat)
      ensures k == StartingIndex(labels)
    {
      var i := 0;
      while i < |labels| && !IsDigitText(labels[i].text)
        invariant i <= |labels|
        invariant forall j :: 0 <= j < i ==> !IsDigitText(labels[j].text)
      {
        i := i + 1;
      }
      k := if i < |labels| then i else 0;
    }

    /** generateLabelComponent followed by insertArrangedSubview(_:at: k): a fresh empty label at k. */
    method InsertLabel(k: nat)
      requires k <= |labels|
      modifies this`labels, this`nextId
      ensures labels == old(labels)[..k] + [Cell(old(nextId), "")] + old(labels)[k..]
      ensures nextId == old(nextId) + 1
    {
      labels := labels[..k] + [Cell(nextId, "")] + labels[k..];
      nextId := nextId + 1;
    }

    /** removeFromSuperview on the arranged view at k. */
    method RemoveLabel(k: nat)
      requires k < |labels|
      modifies this`labels
      ensures labels == old(labels)[..k] + old(labels)[k + 1..]
    {
      labels := labels[..k] + labels[k + 1..];
    }

    /**
     * adjustLabelsForDiff: inserts `diff` fresh labels at the starting index,
     * one at a time, or removes `-diff` labels there. The source traps when
     * the removal runs past the arranged views; the precondition also keeps
     * it off the pinned views.
     */
    method AdjustLabelsForDiff(diff: int)
      requires diff < 0 ==> StartingIndex(labels) - diff <= |labels|
      modifies this`labels, this`nextId
      ensures labels == Adjusted(old(labels), StartingIndex(old(labels)), diff, old(nextId))
      ensures nextId == old(nextId) + Max(diff, 0)
    {
      var startingIndex := StartingIndexOf();
      ghost var cs, id0 := labels, nextId;
      if diff > 0 {
        for t := 0 to diff
          invariant labels == Inserted(cs, startingIndex, t, id0)
          invariant nextId == id0 + t
        {
          InsertLabel(startingIndex);
        }
        InsertedIsAdjusted(cs, startingIndex, diff, id0);
      } else {
        for t := 0 to Abs(diff)
          invariant labels == Removed(cs, startingIndex, t)
          invariant nextId == id0
        {
          RemoveLabel(startingIndex);
        }
        RemovedIsAdjusted(cs, startingIndex, Abs(diff), id0);
      }
    }

    /**
     * The per-index loop of update(with:): the label at each index of the new
     * string is filled in when empty, rolled when old and new characters are
     * both digits, and left alone otherwise; a pinned view at an index is
     * only marked. The old character is read `shift` places to the left of
     * the index (`UpdateDigits` passes the source's shift).
     */
    method RollLabels(ns: string, os: string, shift: int, isIncrease: bool)
      requires |ns| <= |labels| + |pinned|
      modifies this`labels, this`pending, this`changed
      ensures var p := Walk(old(labels), |ns|, ns, os, shift, isIncrease, duration);
        labels == p.cells && changed == p.changed && pending == old(pending) + p.writes
    {
      var dur := duration;
      ghost var c := labels;
      ghost var before := pending;
      ghost var p := Pass(c, {}, []);
      var changedIndexes: set<int> := {};
      for i := 0 to |ns|
        invariant p == Walk(c, i, ns, os, shift, isIncrease, dur)
        invariant labels == p.cells && changedIndexes == p.changed && pending == before + p.writes
      {
        ghost var r := Visit(p, i, ns, os, shift, isIncrease, dur);
        var marked := VisitLabel(p, i, ns, os, shift, isIncrease, dur, before);
        if marked {
          changedIndexes := changedIndexes + {i};
        }
        assert Walk(c, i + 1, ns, os, shift, isIncrease, dur) == Visit(Walk(c, i, ns, os, shift, isIncrease, dur), i, ns, os, shift, isIncrease, dur);
        p := r;
      }
      changed := changedIndexes;
    }

    /**
     * One pass of the roll loop at index i: a missing label only marks the
     * index, an empty one takes the new character, and a digit label rolls
     * from the old digit to the new one. `marked` says whether the index is
     * highlighted.
     */
    method VisitLabel(ghost p: Pass, i: nat, ns: string, os: string, shift: int, isIncrease: bool, dur: real,
                      ghost before: seq<Write>) returns (marked: bool)
      requires labels == p.cells && pending == before + p.writes
      modifies this`labels, this`pending
      ensures var r := Visit(p, i, ns, os, shift, isIncrease, dur);
        labels == r.cells && pending == before + r.writes && r.changed == p.changed + (if marked then {i} else {})
    {
      var newChar := CharAt(ns, i);
      if |labels| <= i {
        return true;
      }
      if labels[i].text == "" {
        labels := labels[i := Cell(labels[i].id, newChar)];
        return true;
      }
      var cell := labels[i];
      var oldChar := OldChar(os, i, shift);
      var oldInt, newInt := ParseDigit(oldChar), ParseDigit(newChar);
      ghost var ws := RollWrites(cell, oldChar, newChar, isIncrease, dur);
      marked := false;
      if oldInt.Some? && newInt.Some? {
        var steps;
        if isIncrease {
          marked, steps := AnimateUp(dur, oldInt.value, newInt.value);
        } else {
          marked, steps := AnimateDown(dur, oldInt.value, newInt.value);
        }
        assert steps == Roll(isIncrease, dur, oldInt.value, newInt.value);
        assert ws == WritesFor(cell.id, steps);
        assert before + p.writes + ws == before + (p.writes + ws);
        pending := pending + WritesFor(cell.id, steps);
      } else {
        assert ws == [];
      }
    }

    /**
     * update(with: oldNumber), run after `number` changed: a rebuild for a
     * first number or a change of sign, a clear for no number, otherwise the
     * labels adjusted for the length difference and rolled index by index,
     * reading the old character where the source's trimmed old string puts it.
     */
    method Update(oldNumber: Option<real>)
      requires Safe(Snapshot(), format, oldNumber, number)
      modifies this`labels, this`pinned, this`nextId, this`pending, this`changed
      ensures Snapshot() == AsWrittenUpdated(old(Snapshot()), leftView, format, oldNumber, number, duration)
    {
      var newNumber := number;
      if oldNumber.None? {
        UpdatedRebuilds(Snapshot(), leftView, format, oldNumber, newNumber, duration);
        SetupForInitial();
        return;
      }
      if newNumber.None? {
        UpdatedClears(Snapshot(), leftView, format, oldNumber.value, duration);
        UpdateForText();
        return;
      }
      if IsNegative(oldNumber.value) != IsNegative(newNumber.value) {
        UpdatedRebuilds(Snapshot(), leftView, format, oldNumber, newNumber, duration);
        SetupForInitial();
        return;
      }
      var oldNumberString, newNumberString := format(oldNumber.value), format(newNumber.value);
      if oldNumberString.None? || newNumberString.None? {
        UpdatedUnformatted(Snapshot(), leftView, format, oldNumber.value, newNumber.value, duration);
        return;
      }
      var os, ns := oldNumberString.value, newNumberString.value;
      var isIncrease := newNumber.value > oldNumber.value;
      AsWrittenUpdatedSteps(Snapshot(), leftView, format, oldNumber.value, newNumber.value, os, ns, duration);
      UpdateDigits(os, ns, isIncrease);
    }

    /**
     * The incremental part of update(with:): labels inserted or removed for
     * the length difference, then every index rolled from the old character
     * the source reads there to the new one: on an increase the untrimmed old
     * string at i - diff, otherwise the old string trimmed by abs(diff) at i
     * (`Diff.AsWrittenOldChar` states both readings).
     */
    method UpdateDigits(os: string, ns: string, isIncrease: bool)
      requires StepSafe(Snapshot(), os, ns)
      modifies this`labels, this`nextId, this`pending, this`changed
      ensures Snapshot() == Stepped(old(Snapshot()), os, ns, isIncrease, duration)
    {
      ghost var d := Snapshot();
      var diff := |ns| - |os|;
      if diff != 0 {
        AdjustLabelsForDiff(diff);
      }
      assert labels == Prepared(d, os, ns);
      var shift: int := if isIncrease then diff else -(Abs(diff) as int);
      assert shift == AsWrittenShift(diff, isIncrease);
      RollLabels(ns, os, shift, isIncrease);
      ghost var p := Walk(Prepared(d, os, ns), |ns|, ns, os, shift, isIncrease, duration);
      assert labels == p.cells && pinned == d.pinned && nextId == d.nextId + Max(diff, 0);
      assert pending == d.pending + p.writes && changed == p.changed;
    }

    /** updateMaxPreferredFont: shrinks the label font one point at a time until the labels fit. */
    method UpdateMaxPreferredFont()
      requires Vanishing(measure)
      modifies this`labelFont
      ensures labelFont == BestFit(measure, labels, font, AvailableWidth())
    {
      var currentFont := font;
      labelFont := currentFont;
      var contentSizeWidth := TotalWidth(measure, labels, currentFont);
      var availableWidth := frameWidth;
      if leftView.Some? {
        availableWidth := availableWidth - leftView.value.width;
      }
      while contentSizeWidth > availableWidth && availableWidth > 0
        invariant contentSizeWidth == TotalWidth(measure, labels, currentFont)
        invariant BestFit(measure, labels, currentFont, availableWidth) == BestFit(measure, labels, font, availableWidth)
        decreases if currentFont > 0 then currentFont else 0
      {
        if currentFont <= 0 {
          TotalWidthVanishes(measure, labels, currentFont);
        }
        currentFont := currentFont - 1;
        contentSizeWidth := TotalWidth(measure, labels, currentFont);
      }
      labelFont := currentFont;
    }

    /** The `number` setter: update(with: oldValue), then updateMaxPreferredFont. */
    method SetNumber(n: Option<real>)
      requires Valid() && Safe(Snapshot(), format, number, n)
      modifies this`number, this`labels, this`pinned, this`nextId, this`pending, this`changed, this`labelFont
      ensures Valid() && number == n
      ensures Snapshot() == AsWrittenUpdated(old(Snapshot()), leftView, format, old(number), n, duration)
      ensures labelFont == BestFit(measure, labels, font, AvailableWidth())
    {
      var oldValue := number;
      number := n;
      Update(oldValue);
      AsWrittenUpdatedConsistent(old(Snapshot()), leftView, format, oldValue, n, duration);
      UpdateMaxPreferredFont();
    }

    /**
     * The `text` and `attributedText` setters: updateForText removes the
     * labels, and `number` keeps its value.
     */
    method SetText()
      requires Valid()
      modifies this`labels, this`pinned
      ensures Valid() && number == old(number)
      ensures Snapshot() == Cleared(old(Snapshot()), leftView)
    {
      UpdateForText();
      ClearedConsistent(old(Snapshot()), leftView);
    }

    /**
     * The text setters as evidently intended: with the labels gone the
     * number is forgotten too, so whatever number is set next is a first
     * one and rebuilds the labels.
     */
    method SetTextForgettingNumber()
      requires Valid()
      modifies this`number, this`labels, this`pinned
      ensures Valid() && number == None
      ensures Snapshot() == Cleared(old(Snapshot()), leftView)
      ensures forall n :: Safe(Snapshot(), format, number, n)
    {
      UpdateForText();
      ClearedConsistent(old(Snapshot()), leftView);
      number := None;
    }

    /** The `leftView` setter and updateForLeftView. */
    method SetLeftView(v: Option<PinnedView>)
      requires Valid()
      modifies this`leftView, this`pinned
      ensures Valid() && leftView == v
      ensures pinned == Repinned(old(pinned), old(leftView), v)
    {
      var oldValue := leftView;
      leftView := v;
      if v.Some? {
        pinned := Without(pinned, v.value) + [v.value];
      } else if oldValue.Some? {
        pinned := Without(pinned, oldValue.value);
      }
    }

    /** The `font` setter: every label takes the new font. */
    method SetFont(size: int)
      requires Valid()
      modifies this`font, this`labelFont
      ensures Valid() && font == size && labelFont == size
    {
      font := size;
      labelFont := size;
    }

    /** Runs every scheduled text write, in the order scheduled. */
    method RunPending()
      requires Valid()
      modifies this`labels, this`pending
      ensures Valid()
      ensures Snapshot() == Settled(old(Snapshot()))
    {
      ghost var cs := labels;
      var ws := pending;
      for t := 0 to |ws|
        invariant labels == ApplyWrites(cs, ws[..t])
        invariant pending == ws
      {
        assert ws[..t + 1][..t] == ws[..t];
        labels := Retext(labels, ws[t].target, ws[t].text);
      }
      assert ws[..|ws|] == ws;
      SettledConsistent(old(Snapshot()));
      pending := [];
    }
  }
}
