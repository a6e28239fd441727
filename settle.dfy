/**
 * What an update leaves on screen once every scheduled roll step has run,
 * and the invariants the update paths keep.
 */
module Settle {
  import opened Wrappers
  import opened Text
  import opened Rolls
  import opened Diff

  /** After running writes, a label shows the last write aimed at it, or its own text when there is none. */
  lemma {:induction false} ApplyWritesAt(cs: seq<Cell>, ws: seq<Write>, j: nat)
    requires j < |cs|
    ensures var last := LastWriteTo(ws, cs[j].id);
      ApplyWrites(cs, ws)[j].text == if last.Some? then last.value else cs[j].text
    decreases |ws|
  {
    if ws != [] {
      ApplyWritesAt(cs, ws[..|ws| - 1], j);
    }
  }

  /** The last write to a label among two batches comes from the later batch when it has one. */
  lemma {:induction false} LastWriteAppend(a: seq<Write>, b: seq<Write>, id: nat)
    ensures LastWriteTo(a + b, id) == if LastWriteTo(b, id).Some? then LastWriteTo(b, id) else LastWriteTo(a, id)
    decreases |b|
  {
    if b == [] {
      assert a + b == a;
    } else {
      assert (a + b)[..|a + b| - 1] == a + b[..|b| - 1];
      LastWriteAppend(a, b[..|b| - 1], id);
    }
  }

  /** One iteration adds only the writes of the label it visits. */
  lemma VisitWrites(q: Pass, i: nat, ns: string, os: string, shift: int, inc: bool, duration: real, id: nat)
    ensures LastWriteTo(Visit(q, i, ns, os, shift, inc, duration).writes, id) ==
      if i < |q.cells| && q.cells[i].text != "" && id == q.cells[i].id
         && RollTarget(q.cells[i].text, OldChar(os, i, shift), CharAt(ns, i)).Some?
      then RollTarget(q.cells[i].text, OldChar(os, i, shift), CharAt(ns, i))
      else LastWriteTo(q.writes, id)
  {
    if i < |q.cells| && q.cells[i].text != "" {
      var ws := RollWrites(q.cells[i], OldChar(os, i, shift), CharAt(ns, i), inc, duration);
      RollWritesLast(q.cells[i], OldChar(os, i, shift), CharAt(ns, i), inc, duration);
      LastWriteAppend(q.writes, ws, id);
    }
  }

  /**
   * After n iterations of the update loop, the last write aimed at the label
   * at index j is its roll's target when j is below n, and there is none
   * otherwise.
   */
  lemma {:induction false} WalkWrites(c: seq<Cell>, n: nat, ns: string, os: string, shift: int, inc: bool, duration: real, j: nat)
    requires DistinctIds(c) && j < |c|
    ensures LastWriteTo(Walk(c, n, ns, os, shift, inc, duration).writes, c[j].id) ==
      if j < n then RollTarget(c[j].text, OldChar(os, j, shift), CharAt(ns, j)) else None
    decreases n
  {
    if n > 0 {
      var i := n - 1;
      var q := Walk(c, i, ns, os, shift, inc, duration);
      assert Walk(c, i + 1, ns, os, shift, inc, duration) == Visit(Walk(c, i, ns, os, shift, inc, duration), i, ns, os, shift, inc, duration);
      WalkWrites(c, i, ns, os, shift, inc, duration, j);
      VisitWrites(q, i, ns, os, shift, inc, duration, c[j].id);
      if i < |c| {
        assert q.cells[i] == c[i];
      }
    }
  }

  /** One iteration marks at most the index it visits: a pinned view, an empty label, or a label that rolls. */
  lemma VisitChanged(q: Pass, i: nat, ns: string, os: string, shift: int, inc: bool, duration: real, j: int)
    ensures j in Visit(q, i, ns, os, shift, inc, duration).changed <==>
      j in q.changed ||
      (j == i && (|q.cells| <= i || q.cells[i].text == "" ||
                  RollTarget(q.cells[i].text, OldChar(os, i, shift), CharAt(ns, i)).Some?))
  {
  }

  /**
   * After n iterations, index j is marked changed exactly when j is below n
   * and is a pinned view, an empty label, or a label whose digit rolls.
   */
  lemma {:induction false} WalkChanged(c: seq<Cell>, n: nat, ns: string, os: string, shift: int, inc: bool, duration: real, j: int)
    ensures j in Walk(c, n, ns, os, shift, inc, duration).changed <==>
      0 <= j < n && (|c| <= j || c[j].text == "" || RollTarget(c[j].text, OldChar(os, j, shift), CharAt(ns, j)).Some?)
    decreases n
  {
    if n > 0 {
      var i := n - 1;
      var q := Walk(c, i, ns, os, shift, inc, duration);
      assert Walk(c, i + 1, ns, os, shift, inc, duration) == Visit(Walk(c, i, ns, os, shift, inc, duration), i, ns, os, shift, inc, duration);
      WalkChanged(c, i, ns, os, shift, inc, duration, j);
      VisitChanged(q, i, ns, os, shift, inc, duration, j);
      if i < |c| {
        assert q.cells[i] == c[i];
      }
    } else {
      assert Walk(c, n, ns, os, shift, inc, duration).changed == {};
    }
  }

  /** The labels once the loop over ns and every write it scheduled have run. */
  function Rolled(c: seq<Cell>, ns: string, os: string, shift: int, inc: bool, duration: real): seq<Cell>
  {
    var p := Walk(c, |ns|, ns, os, shift, inc, duration);
    ApplyWrites(p.cells, p.writes)
  }

  /** The label at index j once the loop over ns and every write it scheduled have run. */
  lemma SettledAt(c: seq<Cell>, ns: string, os: string, shift: int, inc: bool, duration: real, j: nat)
    requires DistinctIds(c) && j < |c|
    ensures j < |ns| ==> Rolled(c, ns, os, shift, inc, duration)[j].text == SettledText(c[j].text, OldChar(os, j, shift), CharAt(ns, j))
    ensures |ns| <= j ==> Rolled(c, ns, os, shift, inc, duration)[j].text == c[j].text
  {
    var p := Walk(c, |ns|, ns, os, shift, inc, duration);
    WalkWrites(c, |ns|, ns, os, shift, inc, duration, j);
    ApplyWritesAt(p.cells, p.writes, j);
  }

  /** Every write the loop schedules holds one character and aims at one of the cells it started on. */
  lemma {:induction false} WalkWriteTexts(c: seq<Cell>, n: nat, ns: string, os: string, shift: int, inc: bool, duration: real, bound: nat)
    requires forall j :: 0 <= j < |c| ==> c[j].id < bound
    ensures forall w :: w in Walk(c, n, ns, os, shift, inc, duration).writes ==> |w.text| == 1 && w.target < bound
    decreases n
  {
    if n > 0 {
      var i := n - 1;
      var q := Walk(c, i, ns, os, shift, inc, duration);
      WalkWriteTexts(c, i, ns, os, shift, inc, duration, bound);
      var r := Visit(q, i, ns, os, shift, inc, duration);
      assert Walk(c, n, ns, os, shift, inc, duration) == r by {
        assert Walk(c, i + 1, ns, os, shift, inc, duration) == Visit(Walk(c, i, ns, os, shift, inc, duration), i, ns, os, shift, inc, duration);
      }
      if i < |q.cells| && q.cells[i].text != "" {
        RollWritesLast(q.cells[i], OldChar(os, i, shift), CharAt(ns, i), inc, duration);
      }
    }
  }

  /** The labels made by adjustLabelsForDiff keep identities distinct, fresh ones above all old ones. */
  lemma AdjustedConsistent(d: Display, diff: int)
    requires Consistent(d)
    requires diff < 0 ==> StartingIndex(d.labels) - diff <= |d.labels|
    ensures var c := Adjusted(d.labels, StartingIndex(d.labels), diff, d.nextId);
      && DistinctIds(c)
      && (forall j :: 0 <= j < |c| ==> c[j].id < d.nextId + Max(diff, 0) && |c[j].text| <= 1)
  {
    var k := StartingIndex(d.labels);
    var c := Adjusted(d.labels, k, diff, d.nextId);
    forall j | 0 <= j < |c|
      ensures c[j].id < d.nextId + Max(diff, 0) && |c[j].text| <= 1
      ensures k <= j < k + diff ==> d.nextId <= c[j].id
    {
      if j < k {
        assert c[j] == d.labels[j];
      } else if k + Max(diff, 0) <= j {
        assert c[j] == d.labels[j - diff];
      }
    }
    forall i, j | 0 <= i < j < |c|
      ensures c[i].id != c[j].id
    {
      if j < k {
        assert c[i] == d.labels[i] && c[j] == d.labels[j];
      } else if k + Max(diff, 0) <= j {
        assert c[j] == d.labels[j - diff];
        if i < k {
          assert c[i] == d.labels[i];
        } else if k + Max(diff, 0) <= i {
          assert c[i] == d.labels[i - diff];
        }
      }
    }
  }

  /** The prepared cells of a consistent state have distinct identities below the new next identity. */
  lemma PreparedConsistent(d: Display, os: string, ns: string)
    requires Consistent(d) && StepSafe(d, os, ns)
    ensures var c := Prepared(d, os, ns);
      && DistinctIds(c)
      && (forall j :: 0 <= j < |c| ==> c[j].id < d.nextId + Max(|ns| - |os|, 0) && |c[j].text| <= 1)
  {
    if |ns| != |os| {
      AdjustedConsistent(d, |ns| - |os|);
    }
  }

  /** The prepared cells of a consistent state have distinct identities. */
  lemma PreparedDistinct(d: Display, os: string, ns: string)
    requires Consistent(d) && StepSafe(d, os, ns)
    ensures DistinctIds(Prepared(d, os, ns))
  {
    PreparedConsistent(d, os, ns);
  }

  /** The incremental path keeps label identities distinct and texts at most one character long, whatever old character it reads. */
  lemma SteppedConsistent(d: Display, os: string, ns: string, inc: bool, duration: real, shift: int)
    requires Consistent(d) && StepSafe(d, os, ns)
    ensures Consistent(SteppedWith(d, os, ns, inc, duration, shift))
  {
    PreparedConsistent(d, os, ns);
    var c := Prepared(d, os, ns);
    var p := Walk(c, |ns|, ns, os, shift, inc, duration);
    WalkWriteTexts(c, |ns|, ns, os, shift, inc, duration, d.nextId + Max(|ns| - |os|, 0));
    var e := SteppedWith(d, os, ns, inc, duration, shift);
    assert e.labels == p.cells && e.pending == d.pending + p.writes && e.nextId == d.nextId + Max(|ns| - |os|, 0);
    forall j | 0 <= j < |p.cells|
      ensures p.cells[j].id == c[j].id && |p.cells[j].text| <= 1
    {
    }
    assert DistinctIds(p.cells);
    forall w | w in e.pending
      ensures |w.text| <= 1 && w.target < e.nextId
    {
      if w !in d.pending {
        assert w in p.writes;
      }
    }
  }

  /** Rebuilding gives fresh, distinct identities below the new next one, one character per label. */
  lemma RebuiltConsistent(d: Display, lv: Option<PinnedView>, s: string)
    requires Consistent(d)
    ensures Consistent(Rebuilt(d, lv, s))
  {
    var e := Rebuilt(d, lv, s);
    assert forall j :: 0 <= j < |e.labels| ==> e.labels[j].id == d.nextId + j;
  }

  /** setupForInitial keeps label identities distinct and texts at most one character long. */
  lemma InitialisedConsistent(d: Display, lv: Option<PinnedView>, format: real -> Option<string>, number: Option<real>)
    requires Consistent(d)
    ensures Consistent(Initialised(d, lv, format, number))
  {
    if number.Some? && format(number.value).Some? {
      RebuiltConsistent(d, lv, format(number.value).value);
    }
  }

  /** Writes of at most one character leave every label with at most one character. */
  lemma {:induction false} ApplyWritesShort(cs: seq<Cell>, ws: seq<Write>)
    requires forall j :: 0 <= j < |cs| ==> |cs[j].text| <= 1
    requires forall w :: w in ws ==> |w.text| <= 1
    ensures forall j :: 0 <= j < |cs| ==> |ApplyWrites(cs, ws)[j].text| <= 1
    decreases |ws|
  {
    if ws != [] {
      var init := ws[..|ws| - 1];
      assert forall w :: w in init ==> w in ws;
      ApplyWritesShort(cs, init);
      assert ws[|ws| - 1] in ws;
    }
  }

  /** Running the pending writes keeps label identities distinct and texts at most one character long. */
  lemma SettledConsistent(d: Display)
    requires Consistent(d)
    ensures Consistent(Settled(d))
  {
    ApplyWritesShort(d.labels, d.pending);
    var r := Settled(d).labels;
    assert forall j :: 0 <= j < |r| ==> r[j].id == d.labels[j].id;
  }

  /** Clearing keeps a consistent display consistent. */
  lemma ClearedConsistent(d: Display, lv: Option<PinnedView>)
    requires Consistent(d)
    ensures Consistent(Cleared(d, lv))
  {
  }

  /** The rebuild branch keeps a consistent display consistent. */
  lemma RebuildConsistent(d: Display, lv: Option<PinnedView>, format: real -> Option<string>,
                          newNumber: Option<real>, p: Path, duration: real)
    requires Consistent(d) && p.Rebuild?
    ensures Consistent(Along(d, lv, format, newNumber, p, duration))
  {
    InitialisedConsistent(d, lv, format, newNumber);
  }

  /** The clearing branch keeps a consistent display consistent. */
  lemma ClearConsistent(d: Display, lv: Option<PinnedView>, format: real -> Option<string>,
                        newNumber: Option<real>, p: Path, duration: real)
    requires Consistent(d) && p.Clear?
    ensures Consistent(Along(d, lv, format, newNumber, p, duration))
  {
    ClearedConsistent(d, lv);
  }

  /** The incremental branch is consistent when the right-aligned step it takes is. */
  lemma IncrementalConsistent(d: Display, lv: Option<PinnedView>, format: real -> Option<string>,
                              newNumber: Option<real>, p: Path, duration: real)
    requires p.Incremental? && StepSafe(d, p.os, p.ns)
    requires Consistent(SteppedWith(d, p.os, p.ns, p.inc, duration, |p.ns| - |p.os|))
    ensures Consistent(Along(d, lv, format, newNumber, p, duration))
  {
  }

  /** Every branch of the update keeps label identities distinct and texts at most one character long. */
  lemma AlongConsistent(d: Display, lv: Option<PinnedView>, format: real -> Option<string>,
                        newNumber: Option<real>, p: Path, duration: real)
    requires Consistent(d) && (p.Incremental? ==> StepSafe(d, p.os, p.ns))
    ensures Consistent(Along(d, lv, format, newNumber, p, duration))
  {
    if p.Rebuild? {
      RebuildConsistent(d, lv, format, newNumber, p, duration);
    } else if p.Clear? {
      ClearConsistent(d, lv, format, newNumber, p, duration);
    } else if p.Incremental? {
      assert Consistent(SteppedWith(d, p.os, p.ns, p.inc, duration, |p.ns| - |p.os|)) by {
        SteppedConsistent(d, p.os, p.ns, p.inc, duration, |p.ns| - |p.os|);
      }
      IncrementalConsistent(d, lv, format, newNumber, p, duration);
    } else {
      assert p == Unchanged;
    }
  }

  /** Every update path keeps label identities distinct and texts at most one character long. */
  lemma UpdatedConsistent(d: Display, lv: Option<PinnedView>, format: real -> Option<string>,
                          oldNumber: Option<real>, newNumber: Option<real>, duration: real)
    requires Consistent(d) && Safe(d, format, oldNumber, newNumber)
    ensures Consistent(Updated(d, lv, format, oldNumber, newNumber, duration))
  {
    AlongConsistent(d, lv, format, newNumber, PathOf(format, oldNumber, newNumber), duration);
  }

  /** The program's update path keeps a consistent display consistent too. */
  lemma AsWrittenUpdatedConsistent(d: Display, lv: Option<PinnedView>, format: real -> Option<string>,
                                   oldNumber: Option<real>, newNumber: Option<real>, duration: real)
    requires Consistent(d) && Safe(d, format, oldNumber, newNumber)
    ensures Consistent(AsWrittenUpdated(d, lv, format, oldNumber, newNumber, duration))
  {
    var p := PathOf(format, oldNumber, newNumber);
    if p.Incremental? {
      SteppedConsistent(d, p.os, p.ns, p.inc, duration, AsWrittenShift(|p.ns| - |p.os|, p.inc));
    } else {
      UpdatedConsistent(d, lv, format, oldNumber, newNumber, duration);
    }
  }

  /** A character of the old string and the new one that sit at the same place of the shared layout. */
  predicate Matches(a: string, b: string)
  {
    (IsDigitText(a) && IsDigitText(b)) || a == b
  }

  /**
   * Old and new strings share a layout: the same prefix before the first
   * digit k, and right-aligned characters after the k..k+diff insertion that
   * are equal or both digits.
   */
  predicate SameLayout(os: string, ns: string, k: nat)
  {
    var diff := |ns| - |os|;
    && k <= |ns| && k <= |os|
    && (forall j :: 0 <= j < k ==> os[j] == ns[j])
    && (forall j :: k + Max(diff, 0) <= j < |ns| ==> Matches(OldChar(os, j, diff), CharAt(ns, j)))
  }

  /**
   * Index j of the new string holds a label inserted at the first digit k,
   * or a character whose right-aligned old character differs from it.
   */
  predicate Differs(os: string, ns: string, k: nat, j: int)
  {
    var diff := |ns| - |os|;
    k <= j < |ns| && (j < k + diff || OldChar(os, j, diff) != CharAt(ns, j))
  }

  /** Strings that share a layout around the first digit keep the incremental path in range. */
  lemma LayoutSafe(d: Display, os: string, ns: string)
    requires Shows(d.labels, os)
    requires SameLayout(os, ns, StartingIndex(d.labels))
    ensures StepSafe(d, os, ns)
  {
  }

  /** A label showing the old character settles on the new one when the two match, and rolls exactly when they differ. */
  lemma SettledOnMatch(oldChar: string, newChar: string)
    requires Matches(oldChar, newChar)
    ensures SettledText(oldChar, oldChar, newChar) == newChar
    ensures RollTarget(oldChar, oldChar, newChar).Some? <==> oldChar != newChar
  {
    if IsDigitText(oldChar) && IsDigitText(newChar) {
      DigitRoundTrip(ParseDigit(oldChar).value, oldChar);
      DigitRoundTrip(ParseDigit(newChar).value, newChar);
    }
  }

  /** A label already showing a character that is not a digit keeps it and does not roll. */
  lemma SettledOnText(t: string, oldChar: string)
    requires t != "" && !IsDigitText(t)
    ensures SettledText(t, oldChar, t) == t
    ensures RollTarget(t, oldChar, t).None?
  {
  }

  /**
   * At each index, the label the loop finds there settles on the new
   * character, and is marked changed exactly when it was inserted or its
   * right-aligned old character differs from the new one.
   */
  lemma AlignedAt(d: Display, os: string, ns: string, j: nat)
    requires Shows(d.labels, os)
    requires SameLayout(os, ns, StartingIndex(d.labels))
    requires j < |ns|
    ensures StepSafe(d, os, ns)
    ensures var c, diff, k := Prepared(d, os, ns), |ns| - |os|, StartingIndex(d.labels);
      && j < |c|
      && SettledText(c[j].text, OldChar(os, j, diff), CharAt(ns, j)) == [ns[j]]
      && ((c[j].text == "" || RollTarget(c[j].text, OldChar(os, j, diff), CharAt(ns, j)).Some?) <==>
          Differs(os, ns, k, j))
  {
    var diff, k := |ns| - |os|, StartingIndex(d.labels);
    assert StepSafe(d, os, ns) by {
      LayoutSafe(d, os, ns);
    }
    var c := Prepared(d, os, ns);
    PreparedAt(d, os, ns, j);
    var oldChar, newChar := OldChar(os, j, diff), CharAt(ns, j);
    if j < k {
      assert c[j] == d.labels[j];
      assert c[j].text == newChar;
      SettledOnText(newChar, oldChar);
    } else if k + Max(diff, 0) <= j {
      assert c[j] == d.labels[j - diff];
      assert c[j].text == oldChar;
      SettledOnMatch(oldChar, newChar);
    }
  }

  /** The loop's changed set, once the marking of each visited label is known in terms of an insertion point k. */
  lemma MarkedChanged(c: seq<Cell>, ns: string, os: string, inc: bool, duration: real, k: nat, j: int)
    requires |c| == |ns|
    requires 0 <= j < |ns| ==>
      ((c[j].text == "" || RollTarget(c[j].text, OldChar(os, j, |ns| - |os|), CharAt(ns, j)).Some?) <==>
       Differs(os, ns, k, j))
    ensures j in Walk(c, |ns|, ns, os, |ns| - |os|, inc, duration).changed <==> Differs(os, ns, k, j)
  {
    WalkChanged(c, |ns|, ns, os, |ns| - |os|, inc, duration, j);
  }

  /** Index j is marked changed exactly when a label was inserted there or its right-aligned digit changes. */
  lemma AlignedChangedAt(d: Display, os: string, ns: string, inc: bool, duration: real, j: int)
    requires Shows(d.labels, os)
    requires SameLayout(os, ns, StartingIndex(d.labels))
    ensures StepSafe(d, os, ns)
    ensures j in Walk(Prepared(d, os, ns), |ns|, ns, os, |ns| - |os|, inc, duration).changed <==>
      Differs(os, ns, StartingIndex(d.labels), j)
  {
    assert StepSafe(d, os, ns) by {
      LayoutSafe(d, os, ns);
    }
    if 0 <= j < |ns| {
      AlignedAt(d, os, ns, j);
    }
    MarkedChanged(Prepared(d, os, ns), ns, os, inc, duration, StartingIndex(d.labels), j);
  }

  /** A label within the new string settles on whatever text its case gives. */
  lemma SettledWhere(c: seq<Cell>, ns: string, os: string, shift: int, inc: bool, duration: real, j: nat, t: string)
    requires DistinctIds(c) && j < |c| && j < |ns|
    requires SettledText(c[j].text, OldChar(os, j, shift), CharAt(ns, j)) == t
    ensures Rolled(c, ns, os, shift, inc, duration)[j].text == t
  {
    SettledAt(c, ns, os, shift, inc, duration, j);
  }

  /** Once the rolls finish, the label at index j shows the j-th new character. */
  lemma AlignedSettledAt(d: Display, os: string, ns: string, inc: bool, duration: real, j: nat)
    requires Consistent(d)
    requires Shows(d.labels, os)
    requires SameLayout(os, ns, StartingIndex(d.labels))
    requires j < |ns|
    ensures StepSafe(d, os, ns)
    ensures Rolled(Prepared(d, os, ns), ns, os, |ns| - |os|, inc, duration)[j].text == [ns[j]]
  {
    var c, shift := Prepared(d, os, ns), |ns| - |os|;
    assert StepSafe(d, os, ns) && j < |c| && SettledText(c[j].text, OldChar(os, j, shift), CharAt(ns, j)) == [ns[j]] by {
      AlignedAt(d, os, ns, j);
    }
    assert DistinctIds(c) by {
      PreparedDistinct(d, os, ns);
    }
    SettledWhere(c, ns, os, shift, inc, duration, j, [ns[j]]);
  }



  /** Once the rolls finish, the labels show the new string. */
  lemma AlignedShows(d: Display, os: string, ns: string, inc: bool, duration: real)
    requires Consistent(d)
    requires Shows(d.labels, os)
    requires SameLayout(os, ns, StartingIndex(d.labels))
    ensures StepSafe(d, os, ns)
    ensures var p := Walk(Prepared(d, os, ns), |ns|, ns, os, |ns| - |os|, inc, duration);
      Shows(ApplyWrites(p.cells, p.writes), ns)
  {
    assert StepSafe(d, os, ns) by {
      LayoutSafe(d, os, ns);
    }
    var p := Walk(Prepared(d, os, ns), |ns|, ns, os, |ns| - |os|, inc, duration);
    var r := ApplyWrites(p.cells, p.writes);
    forall j | 0 <= j < |ns|
      ensures r[j].text == [ns[j]]
    {
      AlignedSettledAt(d, os, ns, inc, duration, j);
    }
  }

  /** The loop marks changed exactly the inserted labels and the digits that differ. */
  lemma AlignedChanged(d: Display, os: string, ns: string, inc: bool, duration: real)
    requires Shows(d.labels, os)
    requires SameLayout(os, ns, StartingIndex(d.labels))
    ensures StepSafe(d, os, ns)
    ensures forall j :: j in Walk(Prepared(d, os, ns), |ns|, ns, os, |ns| - |os|, inc, duration).changed <==>
      Differs(os, ns, StartingIndex(d.labels), j)
  {
    assert StepSafe(d, os, ns) by {
      LayoutSafe(d, os, ns);
    }
    forall j: int
      ensures j in Walk(Prepared(d, os, ns), |ns|, ns, os, |ns| - |os|, inc, duration).changed <==>
        Differs(os, ns, StartingIndex(d.labels), j)
    {
      AlignedChangedAt(d, os, ns, inc, duration, j);
    }
  }

  /**
   * Reading the right-aligned old character, an update between strings that
   * share a layout, started from labels showing the old string with nothing
   * pending, leaves the labels showing the new string once its rolls finish;
   * it marks changed exactly the inserted labels and the digits that differ.
   */
  lemma AlignedSettles(d: Display, os: string, ns: string, inc: bool, duration: real)
    requires Consistent(d) && d.pending == []
    requires Shows(d.labels, os)
    requires SameLayout(os, ns, StartingIndex(d.labels))
    ensures StepSafe(d, os, ns)
    ensures var e := SteppedWith(d, os, ns, inc, duration, |ns| - |os|);
      && Shows(Settled(e).labels, ns)
      && Join(Texts(Settled(e).labels)) == ns
      && forall j :: j in e.changed <==> Differs(os, ns, StartingIndex(d.labels), j)
  {
    assert StepSafe(d, os, ns) by {
      LayoutSafe(d, os, ns);
    }
    var p := Walk(Prepared(d, os, ns), |ns|, ns, os, |ns| - |os|, inc, duration);
    var e := SteppedWith(d, os, ns, inc, duration, |ns| - |os|);
    assert e.labels == p.cells && e.pending == p.writes && e.changed == p.changed by {
      assert [] + p.writes == p.writes;
    }
    assert Shows(Settled(e).labels, ns) by {
      AlignedShows(d, os, ns, inc, duration);
    }
    ShowsJoined(Settled(e).labels, ns);
    AlignedChanged(d, os, ns, inc, duration);
  }

  /**
   * An update between two numbers of one sign whose strings share a layout,
   * started from labels showing the old string with nothing pending, ends
   * with the labels reading the new string, and highlights exactly the
   * inserted labels and the digits that differ.
   */
  lemma AlignedUpdateSettles(d: Display, lv: Option<PinnedView>, format: real -> Option<string>,
                      oldNumber: real, newNumber: real, os: string, ns: string, duration: real)
    requires IsNegative(oldNumber) == IsNegative(newNumber)
    requires format(oldNumber) == Some(os) && format(newNumber) == Some(ns)
    requires Consistent(d) && d.pending == []
    requires Shows(d.labels, os)
    requires SameLayout(os, ns, StartingIndex(d.labels))
    ensures Safe(d, format, Some(oldNumber), Some(newNumber))
    ensures var e := Updated(d, lv, format, Some(oldNumber), Some(newNumber), duration);
      && Join(Texts(Settled(e).labels)) == ns
      && forall j :: j in e.changed <==> Differs(os, ns, StartingIndex(d.labels), j)
  {
    var inc := newNumber > oldNumber;
    assert PathOf(format, Some(oldNumber), Some(newNumber)) == Incremental(os, ns, inc);
    assert StepSafe(d, os, ns) by {
      AlignedSettles(d, os, ns, inc, duration);
    }
    var e := Updated(d, lv, format, Some(oldNumber), Some(newNumber), duration);
    assert e == SteppedWith(d, os, ns, inc, duration, |ns| - |os|) by {
      UpdatedSteps(d, lv, format, oldNumber, newNumber, os, ns, duration);
    }
    AlignedSettles(d, os, ns, inc, duration);
  }

  /**
   * The program's own update, on an increase or a decrease whose string does
   * not grow, ends the same way: the new string once the rolls finish, with
   * the same highlighted indexes.
   */
  lemma AsWrittenUpdateSettles(d: Display, lv: Option<PinnedView>, format: real -> Option<string>,
                               oldNumber: real, newNumber: real, os: string, ns: string, duration: real)
    requires IsNegative(oldNumber) == IsNegative(newNumber)
    requires format(oldNumber) == Some(os) && format(newNumber) == Some(ns)
    requires newNumber > oldNumber || |ns| <= |os|
    requires Consistent(d) && d.pending == []
    requires Shows(d.labels, os)
    requires SameLayout(os, ns, StartingIndex(d.labels))
    ensures Safe(d, format, Some(oldNumber), Some(newNumber))
    ensures var e := AsWrittenUpdated(d, lv, format, Some(oldNumber), Some(newNumber), duration);
      && Join(Texts(Settled(e).labels)) == ns
      && forall j :: j in e.changed <==> Differs(os, ns, StartingIndex(d.labels), j)
  {
    AlignedUpdateSettles(d, lv, format, oldNumber, newNumber, os, ns, duration);
    AsWrittenUpdatedAgrees(d, lv, format, oldNumber, newNumber, os, ns, duration);
  }

  /**
   * The source's own reading settles on the new string whenever the number
   * grows or its string does not: the labels read the new string, nothing
   * is left pending, and the display stays consistent for the next update.
   */
  lemma AsWrittenSettles(d: Display, os: string, ns: string, inc: bool, duration: real)
    requires inc || |ns| <= |os|
    requires Consistent(d) && d.pending == []
    requires Shows(d.labels, os)
    requires SameLayout(os, ns, StartingIndex(d.labels))
    ensures StepSafe(d, os, ns)
    ensures var r := Settled(Stepped(d, os, ns, inc, duration));
      Shows(r.labels, ns) && Join(Texts(r.labels)) == ns && Consistent(r) && r.pending == []
  {
    assert StepSafe(d, os, ns) by {
      LayoutSafe(d, os, ns);
    }
    var e := Stepped(d, os, ns, inc, duration);
    assert e == SteppedWith(d, os, ns, inc, duration, |ns| - |os|) by {
      SteppedAligned(d, os, ns, inc, duration);
    }
    var r := Settled(e);
    assert Shows(r.labels, ns) by {
      AlignedSettles(d, os, ns, inc, duration);
    }
    ShowsJoined(r.labels, ns);
    assert Consistent(e) by {
      SteppedConsistent(d, os, ns, inc, duration, AsWrittenShift(|ns| - |os|, inc));
    }
    SettledConsistent(e);
  }

  /**
   * A label with text whose old character, read `shift` places to the left,
   * is not a digit does not roll: once the writes have run it still shows
   * its text, whatever the new character is.
   */
  lemma SettledKeepsText(d: Display, os: string, ns: string, inc: bool, duration: real, shift: int, j: nat)
    requires Consistent(d) && d.pending == [] && StepSafe(d, os, ns)
    requires j < |ns| && j < |Prepared(d, os, ns)|
    requires Prepared(d, os, ns)[j].text != "" && !IsDigitText(OldChar(os, j, shift))
    ensures var e := SteppedWith(d, os, ns, inc, duration, shift);
      j < |Settled(e).labels| && Settled(e).labels[j].text == Prepared(d, os, ns)[j].text
  {
    var c := Prepared(d, os, ns);
    assert DistinctIds(c) by {
      PreparedConsistent(d, os, ns);
    }
    var p := Walk(c, |ns|, ns, os, shift, inc, duration);
    var e := SteppedWith(d, os, ns, inc, duration, shift);
    assert e.labels == p.cells && e.pending == p.writes by {
      assert [] + p.writes == p.writes;
    }
    assert SettledText(c[j].text, OldChar(os, j, shift), CharAt(ns, j)) == c[j].text;
    assert ApplyWrites(p.cells, p.writes)[j].text == SettledText(c[j].text, OldChar(os, j, shift), CharAt(ns, j)) by {
      SettledAt(c, ns, os, shift, inc, duration, j);
    }
  }

  /** A label whose old and new characters agree schedules nothing and does not roll. */
  lemma RollWritesSame(cell: Cell, t: string, inc: bool, duration: real)
    ensures RollWrites(cell, t, t, inc, duration) == []
    ensures RollTarget(cell.text, t, t).None?
  {
    if cell.text != "" && ParseDigit(t).Some? {
      var o := ParseDigit(t).value;
      assert UpCount(o, o) == 0 && DownCount(o, o) == 0;
    }
  }

  /**
   * Labels with text at every index below n: what the labels of an update
   * to a string of length n are, before or after its rolls have run.
   */
  predicate HasText(cs: seq<Cell>, n: nat)
  {
    n <= |cs| && forall j :: 0 <= j < n ==> cs[j].text != ""
  }

  /** Visiting a label with text, when old and new strings agree, changes nothing. */
  lemma VisitQuiet(q: Pass, i: nat, s: string, inc: bool, duration: real)
    requires i < |q.cells| && i < |s| && q.cells[i].text != ""
    ensures var p := Visit(q, i, s, s, 0, inc, duration);
      p.cells == q.cells && p.changed == q.changed && p.writes == q.writes
  {
    RollWritesSame(q.cells[i], CharAt(s, i), inc, duration);
    assert OldChar(s, i, 0) == CharAt(s, i);
    assert q.writes + [] == q.writes;
  }

  /**
   * The loop from a number string to itself, over labels with text, keeps
   * the labels, schedules nothing and marks nothing, whatever digits the
   * labels still show.
   */
  lemma {:induction false} QuietWalk(c: seq<Cell>, n: nat, s: string, inc: bool, duration: real)
    requires n <= |s| && HasText(c, n)
    ensures var p := Walk(c, n, s, s, 0, inc, duration);
      p.cells == c && p.changed == {} && p.writes == []
  {
    if n > 0 {
      var i := n - 1;
      QuietWalk(c, i, s, inc, duration);
      var q := Walk(c, i, s, s, 0, inc, duration);
      assert q.cells[i] == c[i];
      VisitQuiet(q, i, s, inc, duration);
      assert Walk(c, i + 1, s, s, 0, inc, duration) == Visit(Walk(c, i, s, s, 0, inc, duration), i, s, s, 0, inc, duration);
    }
  }

  /**
   * The incremental path between equal strings, over labels with text at
   * every index of the string, keeps the labels and pending writes and
   * clears the marks.
   */
  lemma QuietStep(d: Display, s: string, inc: bool, duration: real)
    requires HasText(d.labels, |s|)
    ensures StepSafe(d, s, s)
    ensures SteppedWith(d, s, s, inc, duration, 0) == d.(changed := {})
  {
    assert StepSafe(d, s, s);
    assert Prepared(d, s, s) == d.labels;
    QuietWalk(d.labels, |s|, s, inc, duration);
    var e := SteppedWith(d, s, s, inc, duration, 0);
    assert d.pending + [] == d.pending;
    assert e.labels == d.labels && e.pinned == d.pinned && e.nextId == d.nextId;
    assert e.pending == d.pending && e.changed == {};
  }

  /**
   * Setting the number to a value that formats as the last one (the same
   * number, say), over labels with text at every index of the string, changes
   * no label, schedules nothing and clears the changed marks, whether or not
   * the rolls of the last update have run.
   */
  lemma SameStringQuiet(d: Display, lv: Option<PinnedView>, format: real -> Option<string>,
                        oldNumber: real, newNumber: real, duration: real)
    requires IsNegative(oldNumber) == IsNegative(newNumber)
    requires format(oldNumber).Some? && format(oldNumber) == format(newNumber)
    requires HasText(d.labels, |format(oldNumber).value|)
    ensures Safe(d, format, Some(oldNumber), Some(newNumber))
    ensures AsWrittenUpdated(d, lv, format, Some(oldNumber), Some(newNumber), duration) == d.(changed := {})
  {
    var s := format(oldNumber).value;
    var inc := newNumber > oldNumber;
    QuietStep(d, s, inc, duration);
    assert AsWrittenShift(0, inc) == 0;
    assert AsWrittenUpdated(d, lv, format, Some(oldNumber), Some(newNumber), duration) == SteppedWith(d, s, s, inc, duration, 0);
  }

  /** The incremental path leaves text on every label it visits, when there is a label at each index. */
  lemma SteppedHasText(d: Display, os: string, ns: string, inc: bool, duration: real, shift: int)
    requires StepSafe(d, os, ns) && |ns| <= |Prepared(d, os, ns)|
    ensures HasText(SteppedWith(d, os, ns, inc, duration, shift).labels, |ns|)
  {
    var c := Prepared(d, os, ns);
    var p := Walk(c, |ns|, ns, os, shift, inc, duration);
    forall j | 0 <= j < |ns|
      ensures p.cells[j].text != ""
    {
      assert CharAt(ns, j) == [ns[j]];
    }
  }

  /**
   * Setting the same number twice in a row: the second incremental update,
   * run before the rolls of the first, leaves the labels, the other views and
   * the pending writes as the first left them, and marks nothing.
   */
  lemma RepeatedNumberQuiet(d: Display, lv: Option<PinnedView>, format: real -> Option<string>,
                            oldNumber: real, newNumber: real, os: string, ns: string, duration: real)
    requires IsNegative(oldNumber) == IsNegative(newNumber)
    requires format(oldNumber) == Some(os) && format(newNumber) == Some(ns)
    requires Safe(d, format, Some(oldNumber), Some(newNumber))
    requires |ns| <= |Prepared(d, os, ns)|
    ensures var e := AsWrittenUpdated(d, lv, format, Some(oldNumber), Some(newNumber), duration);
      && Safe(e, format, Some(newNumber), Some(newNumber))
      && AsWrittenUpdated(e, lv, format, Some(newNumber), Some(newNumber), duration) == e.(changed := {})
  {
    var inc := newNumber > oldNumber;
    AsWrittenUpdatedSteps(d, lv, format, oldNumber, newNumber, os, ns, duration);
    var e := AsWrittenUpdated(d, lv, format, Some(oldNumber), Some(newNumber), duration);
    assert HasText(e.labels, |ns|) by {
      assert e == SteppedWith(d, os, ns, inc, duration, AsWrittenShift(|ns| - |os|, inc));
      SteppedHasText(d, os, ns, inc, duration, AsWrittenShift(|ns| - |os|, inc));
    }
    SameStringQuiet(e, lv, format, newNumber, newNumber, duration);
  }

  /** Setting the number to nil removes every label, keeps only the left view, and schedules nothing new. */
  lemma NilClears(d: Display, lv: Option<PinnedView>, format: real -> Option<string>,
                  oldNumber: real, duration: real)
    ensures Safe(d, format, Some(oldNumber), None)
    ensures var e := AsWrittenUpdated(d, lv, format, Some(oldNumber), None, duration);
      && e.labels == []
      && (forall v :: v in e.pinned <==> v in d.pinned && lv == Some(v))
      && e.pending == d.pending && e.nextId == d.nextId
  {
  }

  /**
   * A first number, or a change of sign, rebuilds the labels from scratch:
   * they show the new string, one fresh label per character, and only the
   * left view stays pinned.
   */
  lemma RebuildShowsNew(d: Display, lv: Option<PinnedView>, format: real -> Option<string>,
                        oldNumber: Option<real>, newNumber: real, duration: real)
    requires oldNumber.None? || IsNegative(oldNumber.value) != IsNegative(newNumber)
    requires format(newNumber).Some?
    ensures Safe(d, format, oldNumber, Some(newNumber))
    ensures var e := AsWrittenUpdated(d, lv, format, oldNumber, Some(newNumber), duration);
      && Shows(e.labels, format(newNumber).value)
      && Join(Texts(e.labels)) == format(newNumber).value
      && (forall j :: 0 <= j < |e.labels| ==> d.nextId <= e.labels[j].id < e.nextId)
      && (forall v :: v in e.pinned <==> v in d.pinned && lv == Some(v))
  {
    ShowsJoined(AsWrittenUpdated(d, lv, format, oldNumber, Some(newNumber), duration).labels, format(newNumber).value);
  }

  /** Writes aimed below a bound leave labels whose identities are at or above it untouched. */
  lemma {:induction false} ApplyBelow(cs: seq<Cell>, ws: seq<Write>, bound: nat)
    requires forall j :: 0 <= j < |cs| ==> bound <= cs[j].id
    requires forall w :: w in ws ==> w.target < bound
    ensures ApplyWrites(cs, ws) == cs
    decreases |ws|
  {
    if ws != [] {
      var init := ws[..|ws| - 1];
      assert forall w :: w in init ==> w in ws;
      ApplyBelow(cs, init, bound);
      assert ws[|ws| - 1] in ws;
    }
  }

  /**
   * A rebuild settles on the new string whatever is still pending: the
   * writes left over from earlier rolls aim at labels that are gone, and do
   * nothing to the fresh ones.
   */
  lemma RebuildSettles(d: Display, lv: Option<PinnedView>, format: real -> Option<string>,
                       oldNumber: Option<real>, newNumber: real, duration: real)
    requires Consistent(d)
    requires oldNumber.None? || IsNegative(oldNumber.value) != IsNegative(newNumber)
    requires format(newNumber).Some?
    ensures Safe(d, format, oldNumber, Some(newNumber))
    ensures var r := Settled(AsWrittenUpdated(d, lv, format, oldNumber, Some(newNumber), duration));
      && Shows(r.labels, format(newNumber).value)
      && Join(Texts(r.labels)) == format(newNumber).value
      && Consistent(r) && r.pending == []
  {
    var s := format(newNumber).value;
    var e := AsWrittenUpdated(d, lv, format, oldNumber, Some(newNumber), duration);
    assert e == Rebuilt(d, lv, s);
    ApplyBelow(e.labels, e.pending, d.nextId);
    ShowsJoined(e.labels, s);
    assert Consistent(Settled(e)) by {
      RebuiltConsistent(d, lv, s);
      SettledConsistent(e);
    }
  }

  /** A number or a string the formatter cannot produce leaves the state alone. */
  lemma UnformattedKeeps(d: Display, lv: Option<PinnedView>, format: real -> Option<string>,
                         oldNumber: Option<real>, newNumber: real, duration: real)
    requires format(newNumber).None? || (oldNumber.Some? && format(oldNumber.value).None?)
    requires oldNumber.Some? ==> IsNegative(oldNumber.value) == IsNegative(newNumber)
    ensures Safe(d, format, oldNumber, Some(newNumber))
    ensures AsWrittenUpdated(d, lv, format, oldNumber, Some(newNumber), duration) == d
  {
  }
}
