/** `src/export/emDraft.js`: the export manager's draft. A snapshot of the
  * step, the list and the chunk index is kept in local storage together
  * with the selection it was made from; it may be restored only while the
  * selection is the same. Saves are debounced by a 200 ms timer. The
  * export settings saved alongside and the toasts are not modelled. */
module EmDraft {
  import opened Common
  import opened EmState
  import opened EmChunkNav
  import opened ExportManager

  const SAVE_DELAY_MS: nat := 200

  /** A parsed draft. A field is `None` when the stored object lacks it. */
  datatype DraftRecord = DraftRecord(
    step: Option<int>,
    managerItems: Option<seq<MItem>>,
    currentChunkIndex: Option<int>,
    selectedOrder: Option<seq<string>>)

  /** What local storage holds under the draft key: nothing (or the empty
    * string), text that `JSON.parse` rejects, or a parsed value (`None`
    * when it is `null` or not an object). */
  datatype Stored = NoDraft | Unparseable | Parsed(value: Option<DraftRecord>)

  /** The draft that `saveExportManagerDraft` writes. The JSON text is taken
    * to parse back to the same record. */
  function Snapshot(step: int, items: seq<MItem>, chunkIndex: int, selectedOrder: seq<string>): (d: DraftRecord)
    ensures d.selectedOrder == Some(selectedOrder) && d.managerItems == Some(items)
    ensures d.step == Some(step) && d.currentChunkIndex == Some(chunkIndex)
  {
    DraftRecord(Some(step), Some(items), Some(chunkIndex), Some(selectedOrder))
  }

  // ---------------------------------------------------------------------
  // `checkDraftValidity`

  /** A draft may be restored when it has a selection and a list, and its
    * selection is the live one. */
  predicate DraftValid(d: Option<DraftRecord>, current: seq<string>)
  {
    d.Some? && d.value.selectedOrder.Some? && d.value.managerItems.Some?
    && d.value.selectedOrder.value == current
  }

  /** The comparison loop: the lengths first, then position by position. */
  method CheckDraftValidity(d: Option<DraftRecord>, current: seq<string>) returns (valid: bool)
    ensures valid == DraftValid(d, current)
    ensures valid <==>
      d.Some? && d.value.selectedOrder.Some? && d.value.managerItems.Some?
      && |d.value.selectedOrder.value| == |current|
      && forall i :: 0 <= i < |current| ==> current[i] == d.value.selectedOrder.value[i]
  {
    if d.None? || d.value.selectedOrder.None? || d.value.managerItems.None? {
      return false;
    }
    var saved := d.value.selectedOrder.value;
    if |saved| != |current| {
      return false;
    }
    for i := 0 to |current|
      invariant saved[..i] == current[..i]
    {
      if current[i] != saved[i] {
        return false;
      }
      assert saved[..i + 1] == saved[..i] + [saved[i]];
      assert current[..i + 1] == current[..i] + [current[i]];
    }
    assert saved == saved[..|saved|];
    assert current == current[..|current|];
    return true;
  }

  // ---------------------------------------------------------------------
  // `restoreExportManagerDraft`

  /** `x || fallback` on a number: an absent field or 0 gives the fallback. */
  function OrDefault(x: Option<int>, fallback: int): (r: int)
    ensures x.Some? && x.value != 0 ==> r == x.value
    ensures x.None? || x.value == 0 ==> r == fallback
  {
    if x.Some? && x.value != 0 then x.value else fallback
  }

  function RestoredStep(d: DraftRecord): int { OrDefault(d.step, 1) }

  function RestoredItems(d: DraftRecord): seq<MItem>
  {
    if d.managerItems.Some? then d.managerItems.value else []
  }

  function RestoredChunkIndex(d: DraftRecord): int { OrDefault(d.currentChunkIndex, 0) }

  /** Restore goes ahead only for a stored draft that parses and is valid. */
  predicate RestoreApplies(stored: Stored, current: seq<string>)
  {
    stored.Parsed? && DraftValid(stored.value, current)
  }

  /** A draft saved from a state whose step is set and whose list is
    * numbered gives back that state when the selection has not changed
    * since: the step, the list once renumbered, and the chunk index. */
  lemma SaveRestoreRoundTrip(step: int, items: seq<MItem>, chunkIndex: int, selectedOrder: seq<string>)
    requires step != 0 && items == Renumbered(items)
    ensures var d := Snapshot(step, items, chunkIndex, selectedOrder);
      RestoreApplies(Parsed(Some(d)), selectedOrder)
      && RestoredStep(d) == step
      && Renumbered(RestoredItems(d)) == items
      && RestoredChunkIndex(d) == chunkIndex
  {
    RenumberedIdempotent(items);
  }

  /** A fresh snapshot is valid for exactly the selection it was taken
    * with. */
  lemma SnapshotIsValid(step: int, items: seq<MItem>, chunkIndex: int, selectedOrder: seq<string>, other: seq<string>)
    ensures DraftValid(Some(Snapshot(step, items, chunkIndex, selectedOrder)), other) <==> other == selectedOrder
  {
  }

  // ---------------------------------------------------------------------
  // Storage, the debounce timer and the restore button

  /** The redraw that ends a restore: `renderStep1`, or the chunk buttons
    * of `renderStep2`/`renderStep3`, by the restored step. */
  method RenderRestoredStep(em: Em)
    modifies em
    ensures em.managerItems == old(em.managerItems) && em.step == old(em.step)
    ensures em.isJumping == old(em.isJumping)
    ensures em.step == 1 ==> em.renderStart == 0 && em.Window()
    ensures 1 <= em.step <= 3 ==>
      em.currentChunkIndex == ClampChunkIndex(old(em.currentChunkIndex), |ChunkInfos(em.managerItems)|)
    ensures em.step !in {1, 2, 3} ==> em.currentChunkIndex == old(em.currentChunkIndex)
    ensures em.step != 1 ==>
      em.renderStart == old(em.renderStart) && em.renderOffset == old(em.renderOffset) && em.shown == old(em.shown)
  {
    if em.step == 1 {
      RenderStep1(em);
      ChunkInfosCounts(em.managerItems);
    } else if em.step == 2 || em.step == 3 {
      var chunks := RenderChunkNavigation(em);
    }
  }

  /** The draft key in local storage, the pending save timer and the
    * restore button's visibility. Timers are named by the ids handed out
    * in order; `pending` holds those scheduled and not yet run or
    * cancelled. */
  class Drafts {
    var stored: Stored
    var saveTimer: Option<nat>
    var pending: set<nat>
    var nextTimer: nat
    var restoreVisible: bool

    /** At most one save is pending, and it is the latest one scheduled. */
    predicate Valid()
      reads this
    {
      (forall t :: t in pending ==> t < nextTimer)
      && (pending == {} || (saveTimer.Some? && pending == {saveTimer.value}))
    }

    /** The page loads with whatever storage holds and sets the button. */
    constructor (stored0: Stored, current: seq<string>)
      ensures stored == stored0 && saveTimer == None && pending == {} && Valid()
      ensures restoreVisible <==> RestoreApplies(stored0, current)
    {
      stored := stored0;
      saveTimer := None;
      pending := {};
      nextTimer := 0;
      var visible := false;
      if stored0.Parsed? {
        visible := CheckDraftValidity(stored0.value, current);
      }
      restoreVisible := visible;
    }

    /** `updateRestoreDraftButtonVisibility`: shown iff the stored draft
      * parses and is valid. */
    method UpdateRestoreButton(current: seq<string>)
      modifies this
      ensures restoreVisible <==> RestoreApplies(stored, current)
      ensures stored == old(stored) && saveTimer == old(saveTimer)
      ensures pending == old(pending) && nextTimer == old(nextTimer)
    {
      var visible := false;
      if stored.Parsed? {
        visible := CheckDraftValidity(stored.value, current);
      }
      restoreVisible := visible;
    }

    /** `saveExportManagerDraft`: write the snapshot; the button then shows. */
    method Save(em: Em, current: seq<string>)
      modifies this
      ensures stored == Parsed(Some(Snapshot(em.step, em.managerItems, em.currentChunkIndex, current)))
      ensures restoreVisible
      ensures saveTimer == old(saveTimer) && pending == old(pending) && nextTimer == old(nextTimer)
    {
      stored := Parsed(Some(Snapshot(em.step, em.managerItems, em.currentChunkIndex, current)));
      SnapshotIsValid(em.step, em.managerItems, em.currentChunkIndex, current, current);
      UpdateRestoreButton(current);
    }

    /** `debouncedSaveDraft`: cancel the pending save and schedule a new
      * one `SAVE_DELAY_MS` from now, so one save stays pending. */
    method DebouncedSave()
      requires Valid()
      modifies this
      ensures Valid()
      ensures pending == {old(nextTimer)} && saveTimer == Some(old(nextTimer))
      ensures stored == old(stored) && restoreVisible == old(restoreVisible)
    {
      if saveTimer.Some? {
        pending := pending - {saveTimer.value};
      }
      saveTimer := Some(nextTimer);
      pending := pending + {nextTimer};
      nextTimer := nextTimer + 1;
    }

    /** The timer `t` runs out: only a pending one does, and it saves. */
    method TimerFires(t: nat, em: Em, current: seq<string>)
      requires Valid() && t in pending
      modifies this
      ensures Valid() && pending == {}
      ensures stored == Parsed(Some(Snapshot(em.step, em.managerItems, em.currentChunkIndex, current)))
      ensures restoreVisible
    {
      pending := pending - {t};
      Save(em, current);
    }

    /** `restoreExportManagerDraft`: nothing happens unless a stored draft
      * parses and is valid; otherwise the step, the list and the chunk
      * index are taken from it (with their defaults) and the list is
      * renumbered. Step 1 is drawn again from the top; steps 2 and 3 redraw
      * the chunk buttons, which clamps the chunk index, and leave the
      * viewer window alone; any other step draws nothing.
      * `openExportManager(true)` leaves the state as it is. */
    method Restore(em: Em, current: seq<string>)
      modifies em
      ensures !RestoreApplies(stored, current) ==> unchanged(em)
      ensures RestoreApplies(stored, current) ==>
        var d := stored.value.value;
        em.step == RestoredStep(d)
        && em.managerItems == Renumbered(RestoredItems(d))
        && (em.step == 1 ==> em.renderStart == 0 && em.Window())
        && (1 <= em.step <= 3 ==>
              em.currentChunkIndex == ClampChunkIndex(RestoredChunkIndex(d), |ChunkInfos(em.managerItems)|))
        && (em.step !in {1, 2, 3} ==> em.currentChunkIndex == RestoredChunkIndex(d))
        && (em.step != 1 ==>
              em.renderStart == old(em.renderStart) && em.renderOffset == old(em.renderOffset)
              && em.shown == old(em.shown))
      ensures em.isJumping == old(em.isJumping)
    {
      if !stored.Parsed? {
        return;
      }
      var valid := CheckDraftValidity(stored.value, current);
      if !valid {
        return;
      }
      var d := stored.value.value;
      em.step := RestoredStep(d);
      em.managerItems := RestoredItems(d);
      em.currentChunkIndex := RestoredChunkIndex(d);
      UpdateManagerIndices(em);
      RenderRestoredStep(em);
    }
  }
}
