/**
 * The diff engine of MonetaryCounterView.update(with:), as functions over the
 * view's state. The labels of the stack view are cells with an identity (the
 * label object a scheduled closure captures) and a text ("" is a label
 * without text); arrangedSubviews is the labels followed by the pinned,
 * non-label views (the left view). A roll's asyncAfter closures become
 * explicit writes that target a label by identity and run later, in order.
 */
module Diff {
  import opened Wrappers
  import opened Text
  import opened Rolls

  /** A digit label: its identity and its text. */
  datatype Cell = Cell(id: nat, text: string)

  /** An arranged view that is not a label, such as the left view, with its width. */
  datatype PinnedView = PinnedView(id: nat, width: int)

  /** A scheduled text change of one label, `delay` after the update that made it. */
  datatype Write = Write(delay: real, target: nat, text: string)

  /**
   * The mutable part of the view: the labels, the pinned views after them,
   * the next fresh label identity, the writes still to run, and the indexes
   * the last incremental update marked as changed (those it highlights).
   */
  datatype Display = Display(labels: seq<Cell>, pinned: seq<PinnedView>, nextId: nat,
                             pending: seq<Write>, changed: set<int>)

  /** State of the per-index loop of update(with:): cells, changed indexes, scheduled writes. */
  datatype Pass = Pass(cells: seq<Cell>, changed: set<int>, writes: seq<Write>)

  function Texts(cs: seq<Cell>): (ts: seq<string>)
    ensures |ts| == |cs| && forall j :: 0 <= j < |cs| ==> ts[j] == cs[j].text
  {
    seq(|cs|, j requires 0 <= j < |cs| => cs[j].text)
  }

  /** The labels show s, one character per label. */
  predicate Shows(cs: seq<Cell>, s: string)
  {
    |cs| == |s| && forall j :: 0 <= j < |s| ==> cs[j].text == [s[j]]
  }

  /** Labels that show s read back as s when their texts are joined. */
  lemma ShowsJoined(cs: seq<Cell>, s: string)
    requires Shows(cs, s)
    ensures Texts(cs) == Chars(s)
    ensures Join(Texts(cs)) == s
  {
    JoinChars(s);
  }

  predicate DistinctIds(cs: seq<Cell>)
  {
    forall i, j :: 0 <= i < j < |cs| ==> cs[i].id != cs[j].id
  }

  /**
   * Label identities are distinct and below the next fresh one; texts hold at
   * most one character; every pending write aims at an identity already
   * handed out, so none can land on a label made later.
   */
  predicate Consistent(d: Display)
  {
    && DistinctIds(d.labels)
    && (forall j :: 0 <= j < |d.labels| ==> d.labels[j].id < d.nextId && |d.labels[j].text| <= 1)
    && (forall w :: w in d.pending ==> |w.text| <= 1 && w.target < d.nextId)
  }

  predicate IsDigitText(t: string)
  {
    ParseDigit(t).Some?
  }

  predicate IsNegative(x: real)
  {
    x < 0.0
  }

  /** Index of the first label whose text parses as an integer. */
  function FirstDigit(cs: seq<Cell>): (r: Option<nat>)
    ensures r.Some? ==> r.value < |cs| && IsDigitText(cs[r.value].text)
    ensures r.Some? ==> forall j :: 0 <= j < r.value ==> !IsDigitText(cs[j].text)
    ensures r.None? ==> forall j :: 0 <= j < |cs| ==> !IsDigitText(cs[j].text)
  {
    if cs == [] then None
    else if IsDigitText(cs[0].text) then Some(0)
    else match FirstDigit(cs[1..])
      case Some(k) => Some(k + 1)
      case None =>
        assert forall j :: 1 <= j < |cs| ==> cs[j] == cs[1..][j - 1];
        None
  }

  /** `startingIndex` of adjustLabelsForDiff: the first digit-bearing label, or 0 if none. */
  function StartingIndex(cs: seq<Cell>): (k: nat)
    ensures || (k < |cs| && IsDigitText(cs[k].text) && forall j :: 0 <= j < k ==> !IsDigitText(cs[j].text))
            || (k == 0 && forall j :: 0 <= j < |cs| ==> !IsDigitText(cs[j].text))
  {
    match FirstDigit(cs)
    case Some(k) => k
    case None => 0
  }

  /**
   * The labels after adjustLabelsForDiff: for a positive diff, `diff` fresh
   * empty labels inserted one at a time at k (so the last one made comes
   * first); for a negative diff, `-diff` labels removed from k.
   */
  function Adjusted(cs: seq<Cell>, k: nat, diff: int, firstId: nat): (r: seq<Cell>)
    requires k <= |cs|
    requires diff < 0 ==> k - diff <= |cs|
    ensures |r| == |cs| + diff
    ensures forall j {:trigger r[j]} :: 0 <= j < k ==> r[j] == cs[j]
    ensures forall j {:trigger r[j]} :: k <= j < k + diff ==> r[j] == Cell(firstId + k + diff - 1 - j, "")
    ensures forall j {:trigger r[j]} :: k + Max(diff, 0) <= j < |r| ==> r[j] == cs[j - diff]
  {
    seq(|cs| + diff, j requires 0 <= j < |cs| + diff =>
      if j < k then cs[j] else if j < k + diff then Cell(firstId + k + diff - 1 - j, "") else cs[j - diff])
  }

  /** One more insertion puts the next fresh label at k, in front of the earlier ones. */
  lemma AdjustedInsert(cs: seq<Cell>, k: nat, t: nat, firstId: nat)
    requires k <= |cs|
    ensures var a := Adjusted(cs, k, t, firstId);
      Adjusted(cs, k, t + 1, firstId) == a[..k] + [Cell(firstId + t, "")] + a[k..]
  {
    var a, b := Adjusted(cs, k, t, firstId), Adjusted(cs, k, t + 1, firstId);
    var e := a[..k] + [Cell(firstId + t, "")] + a[k..];
    assert |b| == |e|;
    forall j | 0 <= j < |b|
      ensures b[j] == e[j]
    {
      if j < k {
        assert e[j] == a[j];
      } else if j == k {
        assert e[j] == Cell(firstId + t, "");
      } else {
        assert e[j] == a[j - 1];
      }
    }
  }

  /** One more removal drops the label at k. */
  lemma AdjustedRemove(cs: seq<Cell>, k: nat, t: int, firstId: nat)
    requires 0 <= t && k + t < |cs|
    ensures var a := Adjusted(cs, k, -t, firstId);
      Adjusted(cs, k, -t - 1, firstId) == a[..k] + a[k + 1..]
  {
    var a, b := Adjusted(cs, k, -t, firstId), Adjusted(cs, k, -t - 1, firstId);
    var e := a[..k] + a[k + 1..];
    assert |b| == |e|;
    forall j | 0 <= j < |b|
      ensures b[j] == e[j]
    {
      if j < k {
        assert e[j] == a[j];
      } else {
        assert e[j] == a[j + 1];
      }
    }
  }

  /** The insertion loop read literally: t times, a fresh empty label inserted at k. */
  function Inserted(cs: seq<Cell>, k: nat, t: nat, firstId: nat): (r: seq<Cell>)
    requires k <= |cs|
    ensures |r| == |cs| + t
  {
    if t == 0 then cs
    else
      var a := Inserted(cs, k, t - 1, firstId);
      a[..k] + [Cell(firstId + t - 1, "")] + a[k..]
  }

  /** Inserting one label at a time gives the closed form of adjustLabelsForDiff. */
  lemma {:induction false} InsertedIsAdjusted(cs: seq<Cell>, k: nat, t: nat, firstId: nat)
    requires k <= |cs|
    ensures Inserted(cs, k, t, firstId) == Adjusted(cs, k, t, firstId)
  {
    if t > 0 {
      InsertedIsAdjusted(cs, k, t - 1, firstId);
      AdjustedInsert(cs, k, t - 1, firstId);
    }
  }

  /** The removal loop read literally: t times, the label at k removed. */
  function Removed(cs: seq<Cell>, k: nat, t: nat): (r: seq<Cell>)
    requires k + t <= |cs|
    ensures |r| == |cs| - t
  {
    if t == 0 then cs
    else
      var a := Removed(cs, k, t - 1);
      a[..k] + a[k + 1..]
  }

  /** Removing one label at a time gives the closed form of adjustLabelsForDiff. */
  lemma {:induction false} RemovedIsAdjusted(cs: seq<Cell>, k: nat, t: nat, firstId: nat)
    requires k + t <= |cs|
    ensures Removed(cs, k, t) == Adjusted(cs, k, -(t as int), firstId)
  {
    if t > 0 {
      RemovedIsAdjusted(cs, k, t - 1, firstId);
      AdjustedRemove(cs, k, t - 1, firstId);
    }
  }

  /** The writes a label's roll schedules: one per step, showing that step's digit. */
  function WritesFor(id: nat, steps: seq<Step>): (ws: seq<Write>)
    ensures |ws| == |steps|
    ensures forall k :: 0 <= k < |steps| ==> ws[k] == Write(steps[k].delay, id, DigitText(steps[k].digit))
  {
    seq(|steps|, k requires 0 <= k < |steps| => Write(steps[k].delay, id, DigitText(steps[k].digit)))
  }

  /** What a label whose text is not empty ends on through its roll, if it rolls. */
  function RollTarget(cell: string, oldChar: string, newChar: string): Option<string>
  {
    if cell == "" then None
    else match ParseDigit(oldChar)
      case None => None
      case Some(o) =>
        match ParseDigit(newChar)
        case None => None
        case Some(n) => if o != n then Some(newChar) else None
  }

  /** The steps animateUp (increase) or animateDown plans for one label. */
  function Roll(inc: bool, duration: real, o: Digit, n: Digit): seq<Step>
  {
    if inc then RollUp(duration, o, n) else RollDown(duration, o, n)
  }

  /** The writes one label with text schedules: a roll when old and new characters are both digits, nothing otherwise. */
  function RollWrites(cell: Cell, oldChar: string, newChar: string, inc: bool, duration: real): seq<Write>
  {
    if cell.text == "" then []
    else match ParseDigit(oldChar)
      case None => []
      case Some(o) =>
        match ParseDigit(newChar)
        case None => []
        case Some(n) => WritesFor(cell.id, Roll(inc, duration, o, n))
  }

  /** A label's roll writes leave it on its roll target, touch no other label, and hold one character each. */
  lemma RollWritesLast(cell: Cell, oldChar: string, newChar: string, inc: bool, duration: real)
    ensures var ws := RollWrites(cell, oldChar, newChar, inc, duration);
      && (forall w :: w in ws ==> |w.text| == 1 && w.target == cell.id)
      && (forall id :: LastWriteTo(ws, id) == if id == cell.id then RollTarget(cell.text, oldChar, newChar) else None)
  {
    if cell.text != "" && ParseDigit(oldChar).Some? && ParseDigit(newChar).Some? {
      var o, n := ParseDigit(oldChar).value, ParseDigit(newChar).value;
      RollUpReachesTarget(duration, o, n);
      RollDownReachesTarget(duration, o, n);
      DigitRoundTrip(n, newChar);
      LastWriteOfStepsAll(cell.id, Roll(inc, duration, o, n));
    }
  }

  /** A roll's writes leave its label on the digit of its last step, and touch no other label. */
  lemma {:induction false} LastWriteOfSteps(target: nat, steps: seq<Step>, id: nat)
    ensures LastWriteTo(WritesFor(target, steps), id) ==
      if id == target && steps != [] then Some(DigitText(steps[|steps| - 1].digit)) else None
    decreases |steps|
  {
    if steps != [] {
      assert WritesFor(target, steps)[..|steps| - 1] == WritesFor(target, steps[..|steps| - 1]);
      LastWriteOfSteps(target, steps[..|steps| - 1], id);
    }
  }

  lemma LastWriteOfStepsAll(target: nat, steps: seq<Step>)
    ensures forall id :: LastWriteTo(WritesFor(target, steps), id) ==
                         if id == target && steps != [] then Some(DigitText(steps[|steps| - 1].digit)) else None
  {
    forall id {
      LastWriteOfSteps(target, steps, id);
    }
  }

  /** The old character compared at index i: the one `shift` places to its left in the old string. */
  function OldChar(os: string, i: int, shift: int): string
  {
    CharAt(os, i - shift)
  }

  /**
   * One iteration of the loop of update(with:) at index i, reading the old
   * character `shift` places to the left in the full old string. A pinned
   * view at i is not a label: it is only marked changed. An empty label takes
   * the new character at once and is marked changed. A label with text rolls
   * when both characters are digits, and is marked changed when its roll has
   * steps, that is when the digits differ.
   */
  function Visit(p: Pass, i: nat, ns: string, os: string, shift: int, inc: bool, duration: real): (r: Pass)
    ensures |r.cells| == |p.cells|
    ensures forall j :: 0 <= j < |p.cells| ==> r.cells[j].id == p.cells[j].id
    ensures forall j :: 0 <= j < |p.cells| && j != i ==> r.cells[j] == p.cells[j]
    ensures i < |p.cells| ==> r.cells[i].text == if p.cells[i].text == "" then CharAt(ns, i) else p.cells[i].text
  {
    var newChar := CharAt(ns, i);
    if |p.cells| <= i then Pass(p.cells, p.changed + {i}, p.writes)
    else if p.cells[i].text == "" then
      Pass(p.cells[i := Cell(p.cells[i].id, newChar)], p.changed + {i}, p.writes)
    else
      var cell := p.cells[i];
      var oldChar := OldChar(os, i, shift);
      Pass(p.cells, if RollTarget(cell.text, oldChar, newChar).Some? then p.changed + {i} else p.changed,
           p.writes + RollWrites(cell, oldChar, newChar, inc, duration))
  }

  /** The loop after its first n iterations, started on cells c. */
  function Walk(c: seq<Cell>, n: nat, ns: string, os: string, shift: int, inc: bool, duration: real): (r: Pass)
    ensures |r.cells| == |c|
    ensures forall j :: 0 <= j < |c| ==> r.cells[j].id == c[j].id
    ensures forall j :: 0 <= j < |c| ==> r.cells[j].text == if j < n && c[j].text == "" then CharAt(ns, j) else c[j].text
  {
    if n == 0 then Pass(c, {}, [])
    else Visit(Walk(c, n - 1, ns, os, shift, inc, duration), n - 1, ns, os, shift, inc, duration)
  }

  /** Runs one write: the label with that identity, if it is still there, shows the text. */
  function Retext(cs: seq<Cell>, id: nat, t: string): (r: seq<Cell>)
    ensures |r| == |cs|
    ensures forall j :: 0 <= j < |cs| ==> r[j] == if cs[j].id == id then Cell(id, t) else cs[j]
  {
    seq(|cs|, j requires 0 <= j < |cs| => if cs[j].id == id then Cell(id, t) else cs[j])
  }

  /** Runs the writes in order. */
  function ApplyWrites(cs: seq<Cell>, ws: seq<Write>): (r: seq<Cell>)
    ensures |r| == |cs|
    ensures forall j :: 0 <= j < |cs| ==> r[j].id == cs[j].id
    decreases |ws|
  {
    if ws == [] then cs
    else Retext(ApplyWrites(cs, ws[..|ws| - 1]), ws[|ws| - 1].target, ws[|ws| - 1].text)
  }

  /** The text of the last write aimed at a label, if any. */
  function LastWriteTo(ws: seq<Write>, id: nat): Option<string>
    decreases |ws|
  {
    if ws == [] then None
    else if ws[|ws| - 1].target == id then Some(ws[|ws| - 1].text)
    else LastWriteTo(ws[..|ws| - 1], id)
  }


  /**
   * What the label at an index shows once the loop and all of its writes
   * have run: an empty label shows the new character; a label that rolls
   * shows the new digit; any other keeps its text.
   */
  function SettledText(cell: string, oldChar: string, newChar: string): string
  {
    if cell == "" then newChar
    else match RollTarget(cell, oldChar, newChar)
      case Some(t) => t
      case None => cell
  }

  /**
   * The old character the source reads at index i is `os[i - shift]`: when
   * increasing it reads `os[i - diff]`; when decreasing it first drops
   * `|diff|` leading characters and reads index i, that is `os[i + |diff|]`.
   */
  function AsWrittenShift(diff: int, inc: bool): int
  {
    if inc then diff else -(Abs(diff) as int)
  }

  /** The source reads the old character that right-aligns with the new one exactly when increasing or not growing. */
  lemma AsWrittenShiftAligned(diff: int, inc: bool)
    ensures AsWrittenShift(diff, inc) == diff <==> inc || diff <= 0
  {
  }

  /**
   * The old character the source reads at index i is the one `OldChar`
   * gives at its shift: `oldNumberString[i - diff]` on an increase, and
   * otherwise index i of the string trimmed by `substring(fromIndex: abs(diff))`.
   */
  lemma AsWrittenOldChar(os: string, diff: int, inc: bool, i: nat)
    ensures inc ==> OldChar(os, i, AsWrittenShift(diff, inc)) == CharAt(os, i - diff)
    ensures !inc ==> OldChar(os, i, AsWrittenShift(diff, inc)) == CharAt(SubstringFrom(os, Abs(diff)), i)
  {
    TrimmedCharAt(os, Abs(diff), i);
  }

  /** Keeps the pinned views equal to the left view (the filter `$0 != leftView` removes the rest), in order. */
  function Keep(ps: seq<PinnedView>, lv: Option<PinnedView>): (r: seq<PinnedView>)
    ensures forall v :: v in r <==> v in ps && lv == Some(v)
  {
    if ps == [] then []
    else
      assert forall v :: v in ps <==> v in ps[..|ps| - 1] || v == ps[|ps| - 1];
      Keep(ps[..|ps| - 1], lv) + (if lv == Some(ps[|ps| - 1]) then [ps[|ps| - 1]] else [])
  }

  /** Removes a view from the pinned views, keeping the order of the rest. */
  function Without(ps: seq<PinnedView>, v: PinnedView): (r: seq<PinnedView>)
    ensures forall u :: u in r <==> u in ps && u != v
  {
    if ps == [] then []
    else
      assert forall u :: u in ps <==> u in ps[..|ps| - 1] || u == ps[|ps| - 1];
      Without(ps[..|ps| - 1], v) + (if ps[|ps| - 1] == v then [] else [ps[|ps| - 1]])
  }

  /**
   * updateForLeftView: a new left view is added as the last arranged view
   * (moved there if it was already arranged); clearing the left view removes
   * the old one. A replaced left view stays arranged.
   */
  function Repinned(ps: seq<PinnedView>, oldView: Option<PinnedView>, v: Option<PinnedView>): (r: seq<PinnedView>)
    ensures v.Some? ==> |r| > 0 && r[|r| - 1] == v.value && forall u :: u in r <==> u in ps || u == v.value
    ensures v.None? ==> forall u :: u in r <==> u in ps && oldView != Some(u)
  {
    if v.Some? then Without(ps, v.value) + [v.value]
    else if oldView.Some? then Without(ps, oldView.value)
    else ps
  }

  /** One fresh label per character of s, in order, with consecutive fresh identities. */
  function Fresh(firstId: nat, s: string): (cs: seq<Cell>)
    ensures Shows(cs, s)
    ensures forall j :: 0 <= j < |cs| ==> cs[j].id == firstId + j
  {
    seq(|s|, j requires 0 <= j < |s| => Cell(firstId + j, [s[j]]))
  }

  /** Every label removed; only the left view stays pinned. */
  function Cleared(d: Display, lv: Option<PinnedView>): Display
  {
    d.(labels := [], pinned := Keep(d.pinned, lv))
  }

  /** The labels rebuilt for string s. */
  function Rebuilt(d: Display, lv: Option<PinnedView>, s: string): Display
  {
    Display(Fresh(d.nextId, s), Keep(d.pinned, lv), d.nextId + |s|, d.pending, d.changed)
  }

  /** setupForInitial: rebuild for the formatted number; no number or no string leaves the state alone. */
  function Initialised(d: Display, lv: Option<PinnedView>, format: real -> Option<string>, number: Option<real>): Display
  {
    if number.None? then d
    else match format(number.value)
      case Some(s) => Rebuilt(d, lv, s)
      case None => d
  }

  /** What the incremental path needs to stay in range: the removal loop and the per-index loop. */
  predicate StepSafe(d: Display, os: string, ns: string)
  {
    var diff := |ns| - |os|;
    && (diff < 0 ==> StartingIndex(d.labels) - diff <= |d.labels|)
    && |ns| <= |d.labels| + diff + |d.pinned|
  }

  /** The labels the per-index loop starts on: adjusted for the length difference when there is one. */
  function Prepared(d: Display, os: string, ns: string): (c: seq<Cell>)
    requires StepSafe(d, os, ns)
    ensures |c| == |d.labels| + |ns| - |os|
  {
    var diff := |ns| - |os|;
    if diff != 0 then Adjusted(d.labels, StartingIndex(d.labels), diff, d.nextId) else d.labels
  }

  /** The label the per-index loop finds at index j: an old one, shifted past the insertion or removal, or a fresh empty one. */
  lemma PreparedAt(d: Display, os: string, ns: string, j: int)
    requires StepSafe(d, os, ns) && 0 <= j < |d.labels| + |ns| - |os|
    ensures var k, diff := StartingIndex(d.labels), |ns| - |os|;
      Prepared(d, os, ns)[j] ==
        if j < k then d.labels[j] else if j < k + diff then Cell(d.nextId + k + diff - 1 - j, "") else d.labels[j - diff]
  {
  }

  /** The incremental path with the old character read `shift` places to the left. */
  function SteppedWith(d: Display, os: string, ns: string, inc: bool, duration: real, shift: int): Display
    requires StepSafe(d, os, ns)
  {
    var diff := |ns| - |os|;
    var p := Walk(Prepared(d, os, ns), |ns|, ns, os, shift, inc, duration);
    Display(p.cells, d.pinned, d.nextId + Max(diff, 0), d.pending + p.writes, p.changed)
  }

  /**
   * The incremental path as the source writes it: when the number does not
   * increase, the old character is read |diff| places to the right, which is
   * the right-aligned one only when the string does not grow.
   */
  function Stepped(d: Display, os: string, ns: string, inc: bool, duration: real): Display
    requires StepSafe(d, os, ns)
  {
    SteppedWith(d, os, ns, inc, duration, AsWrittenShift(|ns| - |os|, inc))
  }

  /** The source's reading agrees with the right-aligned one except for a decrease whose string grows. */
  lemma SteppedAligned(d: Display, os: string, ns: string, inc: bool, duration: real)
    requires StepSafe(d, os, ns)
    requires inc || |ns| <= |os|
    ensures Stepped(d, os, ns, inc, duration) == SteppedWith(d, os, ns, inc, duration, |ns| - |os|)
  {
    var diff := |ns| - |os|;
    assert AsWrittenShift(diff, inc) == diff by {
      AsWrittenShiftAligned(diff, inc);
    }
  }

  /** The branch update(with:) takes. */
  datatype Path = Rebuild | Clear | Unchanged | Incremental(os: string, ns: string, inc: bool)

  /**
   * update(with: oldNumber)'s choice of branch: a rebuild for a first number
   * or a change of sign, a clear for no number, nothing when either number
   * has no string, otherwise the incremental path from the old string to the
   * new one, rolling up when the number grew.
   */
  function PathOf(format: real -> Option<string>, oldNumber: Option<real>, newNumber: Option<real>): Path
  {
    if oldNumber.None? then Rebuild
    else if newNumber.None? then Clear
    else if IsNegative(oldNumber.value) != IsNegative(newNumber.value) then Rebuild
    else if format(oldNumber.value).None? || format(newNumber.value).None? then Unchanged
    else Incremental(format(oldNumber.value).value, format(newNumber.value).value, newNumber.value > oldNumber.value)
  }

  /** The update's index accesses stay in range (the source traps otherwise). */
  predicate Safe(d: Display, format: real -> Option<string>, oldNumber: Option<real>, newNumber: Option<real>)
  {
    var p := PathOf(format, oldNumber, newNumber);
    p.Incremental? ==> StepSafe(d, p.os, p.ns)
  }

  /** The state after update(with:) takes branch p. */
  function Along(d: Display, lv: Option<PinnedView>, format: real -> Option<string>, newNumber: Option<real>,
                 p: Path, duration: real): Display
    requires p.Incremental? ==> StepSafe(d, p.os, p.ns)
  {
    match p
    case Rebuild => Initialised(d, lv, format, newNumber)
    case Clear => Cleared(d, lv)
    case Unchanged => d
    case Incremental(os, ns, inc) => SteppedWith(d, os, ns, inc, duration, |ns| - |os|)
  }


  /**
   * update(with: oldNumber) after `number` became newNumber, corrected: the
   * incremental path reads, at every index, the old character right-aligned
   * with the new one. `AsWrittenUpdated` is the source's reading, which
   * differs for a decrease whose string grows.
   */
  function Updated(d: Display, lv: Option<PinnedView>, format: real -> Option<string>,
                   oldNumber: Option<real>, newNumber: Option<real>, duration: real): Display
    requires Safe(d, format, oldNumber, newNumber)
  {
    Along(d, lv, format, newNumber, PathOf(format, oldNumber, newNumber), duration)
  }

  /** The first number, or a change of sign, rebuilds the labels. */
  lemma UpdatedRebuilds(d: Display, lv: Option<PinnedView>, format: real -> Option<string>,
                        oldNumber: Option<real>, newNumber: Option<real>, duration: real)
    requires oldNumber.None? || (newNumber.Some? && IsNegative(oldNumber.value) != IsNegative(newNumber.value))
    ensures Safe(d, format, oldNumber, newNumber)
    ensures Updated(d, lv, format, oldNumber, newNumber, duration) == Initialised(d, lv, format, newNumber)
  {
  }

  /** Starting from a number, no number clears the labels. */
  lemma UpdatedClears(d: Display, lv: Option<PinnedView>, format: real -> Option<string>,
                      oldNumber: real, duration: real)
    ensures Safe(d, format, Some(oldNumber), None)
    ensures Updated(d, lv, format, Some(oldNumber), None, duration) == Cleared(d, lv)
  {
  }

  /** Two numbers of one sign, one of which formats to no string, leave the state alone. */
  lemma UpdatedUnformatted(d: Display, lv: Option<PinnedView>, format: real -> Option<string>,
                           oldNumber: real, newNumber: real, duration: real)
    requires IsNegative(oldNumber) == IsNegative(newNumber)
    requires format(oldNumber).None? || format(newNumber).None?
    ensures Safe(d, format, Some(oldNumber), Some(newNumber))
    ensures Updated(d, lv, format, Some(oldNumber), Some(newNumber), duration) == d
  {
  }

  /** With both numbers of one sign and both formatted, the update is the incremental path. */
  lemma UpdatedSteps(d: Display, lv: Option<PinnedView>, format: real -> Option<string>,
                     oldNumber: real, newNumber: real, os: string, ns: string, duration: real)
    requires IsNegative(oldNumber) == IsNegative(newNumber)
    requires format(oldNumber) == Some(os) && format(newNumber) == Some(ns)
    requires Safe(d, format, Some(oldNumber), Some(newNumber))
    ensures StepSafe(d, os, ns)
    ensures Updated(d, lv, format, Some(oldNumber), Some(newNumber), duration)
         == SteppedWith(d, os, ns, newNumber > oldNumber, duration, |ns| - |os|)
  {
    var inc := newNumber > oldNumber;
    assert PathOf(format, Some(oldNumber), Some(newNumber)) == Incremental(os, ns, inc);
    AlongSteps(d, lv, format, Some(newNumber), os, ns, inc, duration);
  }

  /** On the incremental path, the update is the right-aligned step on the path's two strings. */
  lemma AlongSteps(d: Display, lv: Option<PinnedView>, format: real -> Option<string>, newNumber: Option<real>,
                   os: string, ns: string, inc: bool, duration: real)
    requires StepSafe(d, os, ns)
    ensures Along(d, lv, format, newNumber, Incremental(os, ns, inc), duration) == SteppedWith(d, os, ns, inc, duration, |ns| - |os|)
  {
  }

  /**
   * update(with: oldNumber) as the source is written: the branches of
   * `Updated`, except that the incremental path reads the old character
   * where the source does (`Stepped`).
   */
  function AsWrittenUpdated(d: Display, lv: Option<PinnedView>, format: real -> Option<string>,
                            oldNumber: Option<real>, newNumber: Option<real>, duration: real): Display
    requires Safe(d, format, oldNumber, newNumber)
  {
    var p := PathOf(format, oldNumber, newNumber);
    if p.Incremental? then Stepped(d, p.os, p.ns, p.inc, duration)
    else Updated(d, lv, format, oldNumber, newNumber, duration)
  }

  /** With both numbers of one sign and both formatted, the program's update is its own incremental path. */
  lemma AsWrittenUpdatedSteps(d: Display, lv: Option<PinnedView>, format: real -> Option<string>,
                              oldNumber: real, newNumber: real, os: string, ns: string, duration: real)
    requires IsNegative(oldNumber) == IsNegative(newNumber)
    requires format(oldNumber) == Some(os) && format(newNumber) == Some(ns)
    requires Safe(d, format, Some(oldNumber), Some(newNumber))
    ensures StepSafe(d, os, ns)
    ensures AsWrittenUpdated(d, lv, format, Some(oldNumber), Some(newNumber), duration)
         == Stepped(d, os, ns, newNumber > oldNumber, duration)
  {
    assert PathOf(format, Some(oldNumber), Some(newNumber)) == Incremental(os, ns, newNumber > oldNumber);
  }

  /**
   * On an increase, or a decrease whose string does not grow, the program's
   * update is the corrected one; the other paths are shared by definition.
   */
  lemma AsWrittenUpdatedAgrees(d: Display, lv: Option<PinnedView>, format: real -> Option<string>,
                               oldNumber: real, newNumber: real, os: string, ns: string, duration: real)
    requires IsNegative(oldNumber) == IsNegative(newNumber)
    requires format(oldNumber) == Some(os) && format(newNumber) == Some(ns)
    requires Safe(d, format, Some(oldNumber), Some(newNumber))
    requires newNumber > oldNumber || |ns| <= |os|
    ensures AsWrittenUpdated(d, lv, format, Some(oldNumber), Some(newNumber), duration)
         == Updated(d, lv, format, Some(oldNumber), Some(newNumber), duration)
  {
    AsWrittenUpdatedSteps(d, lv, format, oldNumber, newNumber, os, ns, duration);
    UpdatedSteps(d, lv, format, oldNumber, newNumber, os, ns, duration);
    SteppedAligned(d, os, ns, newNumber > oldNumber, duration);
  }

  /**
   * Once `text` is set, updateForText has removed every label but `number`
   * is still set. A later number of the same sign takes the incremental path
   * on no labels: when the old string is longer than the views left, either
   * the removal loop or the per-index loop indexes past the arranged views.
   */
  lemma ClearedUnsafe(d: Display, lv: Option<PinnedView>, format: real -> Option<string>,
                      oldNumber: real, newNumber: real, os: string, ns: string)
    requires IsNegative(oldNumber) == IsNegative(newNumber)
    requires format(oldNumber) == Some(os) && format(newNumber) == Some(ns)
    requires |Keep(d.pinned, lv)| < |os|
    ensures Cleared(d, lv).labels == []
    ensures !Safe(Cleared(d, lv), format, Some(oldNumber), Some(newNumber))
  {
    assert PathOf(format, Some(oldNumber), Some(newNumber)) == Incremental(os, ns, newNumber > oldNumber);
  }

  /** The state once every pending write has run. */
  function Settled(d: Display): Display
  {
    d.(labels := ApplyWrites(d.labels, d.pending), pending := [])
  }
}
