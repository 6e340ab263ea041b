/**
 * The main screen (`ContentView`): committing a check record once its type,
 * title and clip are present, the Confirm gate of the entry sheet, deleting
 * history rows, and the "how long ago" phrase of the header. `Date()` is the
 * `now` parameter; dates are seconds as `real`.
 */
module Content {
  import opened Foundation
  import opened Records
  import opened Camera

  const FewSeconds := "a few seconds"
  const AMinute := "a minute"
  const Hour := "hour"
  const Hours := "hours"

  /** The only phrases the header ever shows. */
  predicate IsPhrase(s: string)
  {
    s == FewSeconds || s == AMinute || s == Hour || s == Hours
  }

  /** The phrase for an elapsed time as `calculateTimePhrase` writes it (the exact second 1 falls through to "hour"). */
  function TimePhrase(timeSince: real): (phrase: string)
    ensures IsPhrase(phrase)
  {
    if timeSince < 1.0 then FewSeconds
    else if timeSince > 1.0 && timeSince < 60.0 then AMinute
    else if timeSince < 3600.0 then Hour
    else Hours
  }

  /** `calculateTimePhrase(lastTime:)`, with the current date passed in. */
  function CalculateTimePhrase(now: real, lastTime: real): (phrase: string)
    ensures IsPhrase(phrase)
  {
    TimePhrase(now - lastTime)
  }

  /** Which phrase each elapsed time gets, each case in both directions. */
  lemma TimePhraseCases(timeSince: real)
    ensures TimePhrase(timeSince) == FewSeconds <==> timeSince < 1.0
    ensures TimePhrase(timeSince) == AMinute <==> 1.0 < timeSince < 60.0
    ensures TimePhrase(timeSince) == Hour <==> timeSince == 1.0 || 60.0 <= timeSince < 3600.0
    ensures TimePhrase(timeSince) == Hours <==> 3600.0 <= timeSince
  {
  }

  /** Position of a phrase on the scale from most recent to oldest. */
  function PhraseRank(phrase: string): (rank: nat)
    ensures rank < 4
  {
    if phrase == FewSeconds then 0
    else if phrase == AMinute then 1
    else if phrase == Hour then 2
    else 3
  }

  /** As written, the phrase is not monotone: one second reads older than a second and a half. */
  lemma TimePhraseNotMonotone()
    ensures TimePhrase(1.0) == Hour && TimePhrase(1.5) == AMinute
    ensures PhraseRank(TimePhrase(1.0)) > PhraseRank(TimePhrase(1.5))
  {
  }

  /** The classification with the boundary at one second closed: `timeSince >= 1` reads "a minute". */
  function TimePhraseIntended(timeSince: real): (phrase: string)
    ensures IsPhrase(phrase)
    ensures timeSince != 1.0 ==> phrase == TimePhrase(timeSince)
  {
    if timeSince < 1.0 then FewSeconds
    else if timeSince < 60.0 then AMinute
    else if timeSince < 3600.0 then Hour
    else Hours
  }

  /** The intended phrase never reads more recent for a longer elapsed time. */
  lemma TimePhraseIntendedMonotone(earlier: real, later: real)
    requires earlier <= later
    ensures PhraseRank(TimePhraseIntended(earlier)) <= PhraseRank(TimePhraseIntended(later))
  {
  }

  /**
   * The header line "You have double-checked your <type> <phrase> ago.": its
   * type and phrase, read from `items.last` only when there are items. The
   * phrase is `calculateTimePhrase` as written, 1 s quirk included.
   */
  function Header(items: seq<Item>, now: real): (r: Option<(string, string)>)
    ensures r.Some? <==> |items| > 0
    ensures r.Some? ==> r.value.0 == items[|items| - 1].kind && IsPhrase(r.value.1)
    ensures r.Some? ==> r.value.1 == CalculateTimePhrase(now, items[|items| - 1].timestamp)
  {
    if |items| == 0 then None
    else
      var last := items[|items| - 1];
      Some((last.kind, CalculateTimePhrase(now, last.timestamp)))
  }

  /** Right after a commit, the header names the new record's type, "a few seconds" ago, and it heads the list. */
  lemma HeaderAfterCommit(items: seq<Item>, item: Item)
    ensures Header(items + [item], item.timestamp) == Some((item.kind, FewSeconds))
    ensures Reversed(items + [item])[0] == item
  {
  }

  /** The positions an `IndexSet` holds. */
  function Positions(offsets: seq<int>): set<int>
  {
    set i | i in offsets
  }

  /**
   * The k-th offset of an `IndexSet`, taken in increasing order, sits `k`
   * places earlier in the list left by deleting the offsets before it.
   */
  lemma AscendingDeleteInOrder<T>(s: seq<T>, offsets: seq<int>, k: int)
    requires IsIndexSet(offsets, |s|) && 0 <= k < |offsets|
    ensures 0 <= offsets[k] - k < |Without(s, Positions(offsets[..k]))|
    ensures Without(s, Positions(offsets[..k + 1])) ==
      RemoveAt(Without(s, Positions(offsets[..k])), offsets[k] - k)
  {
    PositionsCount(offsets, k, |s|);
    PositionsBelow(offsets, k, |s|);
    PositionsExtend(offsets, k);
    AscendingDeleteStep(s, Positions(offsets[..k]), offsets[k]);
  }

  /** The offsets before the k-th are positions below it. */
  lemma PositionsBelow(offsets: seq<int>, k: int, n: int)
    requires IsIndexSet(offsets, n) && 0 <= k < |offsets|
    ensures forall i :: i in Positions(offsets[..k]) ==> 0 <= i < offsets[k]
  {
    forall i | i in Positions(offsets[..k]) ensures 0 <= i < offsets[k] {
      var j :| 0 <= j < k && offsets[..k][j] == i;
      assert offsets[j] < offsets[k];
    }
  }

  /** Taking one more offset adds exactly that position. */
  lemma PositionsExtend(offsets: seq<int>, k: int)
    requires 0 <= k < |offsets|
    ensures Positions(offsets[..k + 1]) == Positions(offsets[..k]) + {offsets[k]}
  {
    assert offsets[..k + 1] == offsets[..k] + [offsets[k]];
  }

  /** A prefix of `k` offsets of an `IndexSet` holds `k` distinct positions. */
  lemma {:induction false} PositionsCount(offsets: seq<int>, k: int, n: int)
    requires IsIndexSet(offsets, n) && 0 <= k <= |offsets|
    ensures |Positions(offsets[..k])| == k
  {
    if k > 0 {
      PositionsCount(offsets, k - 1, n);
      var before := offsets[..k - 1];
      assert offsets[..k] == before + [offsets[k - 1]];
      assert Positions(offsets[..k]) == Positions(before) + {offsets[k - 1]};
      assert offsets[k - 1] !in Positions(before) by {
        forall j | 0 <= j < k - 1 ensures before[j] != offsets[k - 1] {
          assert before[j] == offsets[j] < offsets[k - 1];
        }
      }
    }
  }

  /**
   * The k-th displayed row, rows taken in increasing order, faces a record
   * below every record already deleted, so it is still at its first place.
   */
  lemma DescendingDeleteInOrder<T>(s: seq<T>, offsets: seq<int>, k: int)
    requires IsIndexSet(offsets, |s|) && 0 <= k < |offsets|
    ensures 0 <= |s| - 1 - offsets[k] < |Without(s, Mirror(Positions(offsets[..k]), 0, |s|))|
    ensures Without(s, Mirror(Positions(offsets[..k + 1]), 0, |s|)) ==
      RemoveAt(Without(s, Mirror(Positions(offsets[..k]), 0, |s|)), |s| - 1 - offsets[k])
  {
    var n := |s|;
    var position := n - 1 - offsets[k];
    var done := Mirror(Positions(offsets[..k]), 0, n);
    PositionsBelow(offsets, k, n);
    forall i | i in done ensures position < i {
      assert Facing(0, n, i) in Positions(offsets[..k]);
    }
    DescendingDeleteStep(s, done, position);
    PositionsExtend(offsets, k);
    assert Facing(0, n, position) == offsets[k];
    assert Mirror(Positions(offsets[..k + 1]), 0, n) == done + {position};
  }

  /** The condition under which `addItemAction` commits. */
  predicate CanCommit(kind: string, title: string, clip: Option<Url>)
  {
    kind != "" && title != "" && clip.Some?
  }

  class ContentView {
    var kind: string          // @State type
    var title: string         // @State title
    var presentSheet: bool    // @State presentSheet
    const camera: CameraModel
    const context: ModelContext

    constructor (camera: CameraModel, context: ModelContext)
      ensures this.camera == camera && this.context == context
      ensures kind == "" && title == "" && !presentSheet
    {
      this.camera := camera;
      this.context := context;
      kind := "";
      title := "";
      presentSheet := false;
    }

    /** The "DOUBLE CHECK" button opens the entry sheet. */
    method DoubleCheck()
      modifies this`presentSheet
      ensures presentSheet
    {
      presentSheet := true;
    }

    /**
     * The Confirm button closes the sheet only when both title and type are
     * filled; the clip is not checked here (`addItemAction` checks it when the
     * sheet is dismissed).
     */
    method Confirm()
      modifies this`presentSheet
      ensures title != "" && kind != "" ==> !presentSheet
      ensures title == "" || kind == "" ==> presentSheet == old(presentSheet)
    {
      if title == "" || kind == "" {
      } else {
        presentSheet := false;
      }
    }

    /**
     * Confirm pressed on the open sheet: when it closes the sheet, the dismissal
     * runs `addItemAction`. A confirm without a clip closes the sheet but inserts
     * nothing; a confirm with a missing title or type keeps the sheet open.
     */
    method ConfirmOnSheet(now: real)
      requires presentSheet && camera.Valid()
      modifies this`presentSheet, this`kind, this`title, camera`videoURL, context
      ensures camera.Valid()
      ensures presentSheet <==> old(title) == "" || old(kind) == ""
      ensures old(title) != "" && old(kind) != "" && old(camera.videoURL) == None ==>
        context.items == old(context.items) && kind == old(kind) && title == old(title)
      ensures CanCommit(old(kind), old(title), old(camera.videoURL)) ==>
        context.items == old(context.items) +
          [Item(old(kind), old(title), old(camera.videoURL).value.absoluteString, now)] &&
        kind == "" && title == "" && camera.videoURL == None
      ensures old(title) == "" || old(kind) == "" ==>
        context.items == old(context.items) && kind == old(kind) && title == old(title) &&
        camera.videoURL == old(camera.videoURL)
    {
      Confirm();
      if !presentSheet {
        AddItemAction(now);
      }
    }

    /**
     * `addItemAction()`, run when the sheet is dismissed: without a type, a title
     * and a clip nothing happens; otherwise exactly one record with them is
     * inserted (stamped `now`) and all three inputs are cleared.
     */
    method AddItemAction(now: real)
      requires camera.Valid()
      modifies this`kind, this`title, camera`videoURL, context
      ensures camera.Valid()
      ensures presentSheet == old(presentSheet)
      ensures !CanCommit(old(kind), old(title), old(camera.videoURL)) ==>
        kind == old(kind) && title == old(title) &&
        camera.videoURL == old(camera.videoURL) && context.items == old(context.items)
      ensures CanCommit(old(kind), old(title), old(camera.videoURL)) ==>
        context.items == old(context.items) +
          [Item(old(kind), old(title), old(camera.videoURL).value.absoluteString, now)] &&
        kind == "" && title == "" && camera.videoURL == None
    {
      if kind == "" || title == "" || camera.videoURL == None {
        return;
      } else {
        AddItem(kind, title, camera.videoURL.value.absoluteString, now);
        title := "";
        kind := "";
        camera.videoURL := None;
      }
    }

    /** `addItem(type:title:videoURL:)`: inserts one record stamped `now`. */
    method AddItem(kind: string, title: string, videoURL: string, now: real)
      modifies context
      ensures context.items == old(context.items) + [Item(kind, title, videoURL, now)]
    {
      var newItem := Item(kind, title, videoURL, now);
      context.Insert(newItem);
    }

    /**
     * `deleteItems(offsets:)` as written: the offsets come from the rows, which
     * show the records newest first, but index the records in query order.
     * Deletion is by record, so the k-th record deleted (in increasing offset
     * order) is found k places earlier in the live list.
     */
    method DeleteItems(offsets: seq<int>)
      requires IsIndexSet(offsets, |context.items|)
      modifies context
      ensures context.items == Without(old(context.items), Positions(offsets))
    {
      ghost var snapshot := context.items;
      KeptNone(snapshot, {}, 0);
      assert Positions(offsets[..0]) == {};
      var k := 0;
      while k < |offsets|
        invariant 0 <= k <= |offsets|
        invariant context.items == Without(snapshot, Positions(offsets[..k]))
      {
        AscendingDeleteInOrder(snapshot, offsets, k);
        context.Delete(offsets[k] - k);
        k := k + 1;
      }
      assert offsets[..k] == offsets;
    }

    /**
     * Deleting the displayed rows at `offsets`: the record shown in row `r` is
     * the one at `|items| - 1 - r`. Rows are taken in increasing order, so the
     * records go in decreasing order and positions below stay put.
     */
    method DeleteDisplayedRows(offsets: seq<int>)
      requires IsIndexSet(offsets, |context.items|)
      modifies context
      ensures Reversed(context.items) == Without(Reversed(old(context.items)), Positions(offsets))
    {
      ghost var snapshot := context.items;
      var n := |context.items|;
      KeptNone(snapshot, {}, 0);
      assert Mirror(Positions(offsets[..0]), 0, n) == {};
      var k := 0;
      while k < |offsets|
        invariant 0 <= k <= |offsets|
        invariant context.items == Without(snapshot, Mirror(Positions(offsets[..k]), 0, n))
      {
        DescendingDeleteInOrder(snapshot, offsets, k);
        context.Delete(n - 1 - offsets[k]);
        k := k + 1;
      }
      assert offsets[..k] == offsets;
      WithoutMirror(snapshot, Positions(offsets));
    }
  }

  /** As written, swiping away the newest row (row 0) of two deletes the older record instead. */
  lemma DeleteItemsRemovesWrongRecord(older: Item, newer: Item)
    requires older != newer
    ensures Without([older, newer], Positions([0])) == [newer]
    ensures Reversed([older, newer])[0] == newer
    ensures Without(Reversed([older, newer]), Positions([0])) == [older]
  {
    var doomed := Positions([0]);
    assert doomed == {0};
    assert [older, newer] == [older] + [newer];
    KeptConcat([older], [newer], doomed, 0);
    assert Kept([older], doomed, 0) == [];
    assert Kept([newer], doomed, 1) == [newer];
    var r := Reversed([older, newer]);
    assert r == [newer] + [older];
    KeptConcat([newer], [older], doomed, 0);
    assert Kept([newer], doomed, 0) == [];
    assert Kept([older], doomed, 1) == [older];
  }
}
