/**
 * Inversion of a sequence field changeset: the main pass (`invert`), which turns
 * every input mark into the marks that undo it, and the amendment pass
 * (`amendInvert`), which attaches node changes to move sources once the cross-field
 * manager has learnt them.
 */
module SequenceFieldInvert {
  import opened Wrappers
  import opened SequenceFieldFormat
  import opened CrossField

  /** The assertion failures that abort an inversion. */
  datatype InvertError =
    | UndefinedRevision       // "Unable to revert to undefined revision", "Revision must be defined"
    | ReattachWithoutDetach   // an active reattach without a detach event
    | ChangesOnMultipleCells  // a mark with changes that targets more than one cell
    | ModifyLengthNotOne      // a modify mark whose length is not one

  /** Recovers the `count` nodes that `revision` detached at `index`. */
  type NodeReviver<N> = (RevisionTag, int, nat) -> seq<N>

  /** Inverts a nested node change found at the given input index. */
  type NodeChangeInverter<!C> = (C, int) -> C

  /** `invertNodeChange`: the inverse of an optional node change. */
  function InvertNodeChange<C>(change: Option<C>, index: int, inverter: NodeChangeInverter<C>): (r: Option<C>)
    ensures r.Some? <==> change.Some?
    ensures change.Some? ==> r.value == inverter(change.value, index)
  {
    match change
    case None => None
    case Some(c) => Some(inverter(c, index))
  }

  /**
   * `invertModifyOrSkip`: a Modify carrying the inverted change (on the detached
   * cell when `detachEvent` is given), or a count-only mark when there is no change.
   */
  function InvertModifyOrSkip<C, N>(length: nat, changes: Option<C>, index: int,
                                    inverter: NodeChangeInverter<C>,
                                    detachEvent: Option<ChangeAtomId>): (r: Result<Mark<C, N>, InvertError>)
    ensures r.Err? <==> changes.Some? && length != 1
    ensures r.Err? ==> r.error == ModifyLengthNotOne
    ensures r.Ok? ==> (r.value.Modify? <==> changes.Some?)
    ensures r.Ok? && changes.Some? ==> r.value.change == inverter(changes.value, index) && r.value.cellId == detachEvent
    ensures r.Ok? ==> GetInputLength(r.value) == if detachEvent.None? then length else 0
  {
    if changes.Some? then
      if length != 1 then Err(ModifyLengthNotOne)
      else Ok(Modify(inverter(changes.value, index), detachEvent))
    else
      Ok(NoOp(if detachEvent.None? then length else 0))
  }

  /**
   * What inverting one mark yields: the inverse marks (or the assertion that
   * aborted), and the entry it stores in the cross-field manager, if any. The
   * caller performs that store before looking at the next mark, which is the
   * order in which the source stores it.
   */
  datatype Step<C, N> = Step(out: Result<seq<Mark<C, N>>, InvertError>, registered: Option<Entry<C>>)

  function Abort<C, N>(error: InvertError): Step<C, N> {
    Step(Err(error), None)
  }

  function Emit<C, N>(marks: seq<Mark<C, N>>): Step<C, N> {
    Step(Ok(marks), None)
  }

  function ModifyOrSkipStep<C, N>(r: Result<Mark<C, N>, InvertError>): Step<C, N> {
    match r
    case Ok(m) => Emit([m])
    case Err(e) => Abort(e)
  }

  /** The revision under which a move mark is correlated: its own, else the changeset's. */
  function MoveKey<C, N>(mark: Mark<C, N>, revision: Option<RevisionTag>): Option<RevisionTag>
    requires mark.Insert? || mark.Delete? || mark.Revive? || mark.MoveOut? || mark.ReturnFrom?
             || mark.MoveIn? || mark.ReturnTo?
  {
    OrElse(mark.revision, revision)
  }

  /** `invertMark`: the marks that undo `mark`, found at `inputIndex` of the input context. */
  function InvertMark<C, N>(mark: Mark<C, N>, inputIndex: int, revision: Option<RevisionTag>,
                            reviver: NodeReviver<N>, invertChild: NodeChangeInverter<C>,
                            entries: seq<Entry<C>>): (r: Step<C, N>)
    ensures r.registered.Some? ==> IsMoveSource(mark) && r.registered.value.target == Destination
    ensures r.out.Err? && r.out.error == UndefinedRevision ==> revision.None?
    decreases if mark.Revive? then 1 else 0
  {
    match mark
    case NoOp(_) => Emit([mark])
    case Insert(content, id, rev, changes, transientDetach) =>
      if transientDetach.Some? then
        if revision.None? then Abort(UndefinedRevision)
        else
          var r := revision.value;
          Emit([Revive(|content|, reviver(r, inputIndex, |content|),
                       Some(ChangeAtomId(Some(transientDetach.value.revision.GetOr(r)), transientDetach.value.localId)),
                       Some(rev.GetOr(r)), None, InvertNodeChange(changes, inputIndex, invertChild),
                       Some(ChangeAtomId(Some(rev.GetOr(r)), id)), false)])
      else
        Emit([Delete(|content|, id, None, InvertNodeChange(changes, inputIndex, invertChild), None)])
    case Delete(count, id, rev, changes, cellId) =>
      if revision.None? then Abort(UndefinedRevision)
      else if cellId.None? then
        var r := revision.value;
        Emit([Revive(count, reviver(r, inputIndex, count), Some(ChangeAtomId(Some(rev.GetOr(r)), id)),
                     Some(rev.GetOr(r)), None, InvertNodeChange(changes, inputIndex, invertChild), None, false)])
      else
        // The source leaves modifications to the removed nodes unpreserved here.
        Emit([])
    case Revive(count, _, cellId, _, rev, changes, transientDetach, conflicted) =>
      if !conflicted then
        if cellId.None? then Abort(ReattachWithoutDetach)
        else if transientDetach.Some? then
          if revision.None? then Abort(UndefinedRevision)
          else
            var r := revision.value;
            Emit([Revive(count, reviver(r, inputIndex, count),
                         Some(ChangeAtomId(Some(transientDetach.value.revision.GetOr(r)), transientDetach.value.localId)),
                         Some(rev.GetOr(r)), None, InvertNodeChange(changes, inputIndex, invertChild),
                         Some(ChangeAtomId(Some(rev.GetOr(r)), cellId.value.localId)), false)])
        else
          Emit([Delete(count, cellId.value.localId, None, InvertNodeChange(changes, inputIndex, invertChild), None)])
      else if transientDetach.Some? then
        InvertMark(Delete(count, transientDetach.value.localId, OrElse(transientDetach.value.revision, revision),
                          changes, None),
                   inputIndex, revision, reviver, invertChild, entries)
      else
        ModifyOrSkipStep(InvertModifyOrSkip(count, changes, inputIndex, invertChild, cellId))
    case Modify(change, cellId) =>
      if cellId.None? then Emit([Modify(invertChild(change, inputIndex), None)])
      else
        // The source leaves modifications to the removed nodes unpreserved here.
        Emit([])
    case MoveOut(_, _, _, _, _) => InvertMoveSource(mark, inputIndex, revision, invertChild)
    case ReturnFrom(_, _, _, _, _, _) => InvertMoveSource(mark, inputIndex, revision, invertChild)
    case MoveIn(count, id, _, isSrcConflicted) =>
      if isSrcConflicted then Emit([])
      else Emit(ApplyMovedChanges(ReturnFrom(count, id, None, None, None, false), revision, entries))
    case ReturnTo(count, id, _, cellId, isSrcConflicted, conflicted) =>
      if isSrcConflicted then
        if cellId.None? then Emit([NoOp(count)]) else Emit([])
      else if cellId.None? then
        // The nodes were already attached, so the mark did not affect them.
        Emit([NoOp(count)])
      else if conflicted then
        // The nodes were not attached and could not be attached.
        Emit([])
      else Emit(ApplyMovedChanges(ReturnFrom(count, id, None, None, None, false), revision, entries))
  }

  /** The MoveOut / ReturnFrom branch of `invertMark`. */
  function InvertMoveSource<C, N>(mark: Mark<C, N>, inputIndex: int, revision: Option<RevisionTag>,
                                  invertChild: NodeChangeInverter<C>): Step<C, N>
    requires IsMoveSource(mark)
  {
    if AreInputCellsEmpty(mark) then Emit([])
    else if mark.ReturnFrom? && mark.isDstConflicted then
      // The destination was conflicted, so the mark had no effect on the nodes.
      ModifyOrSkipStep(InvertModifyOrSkip(mark.count, mark.changes, inputIndex, invertChild, None))
    else if mark.changes.Some? && mark.count != 1 then Abort(ChangesOnMultipleCells)
    else
      var key := MoveKey(mark, revision);
      var registered :=
        if mark.changes.Some? then
          Some(Entry(Destination, key, mark.id, mark.count, invertChild(mark.changes.value, inputIndex)))
        else None;
      // The entry is stored before the missing revision is reported.
      if key.None? then Step(Err(UndefinedRevision), registered)
      else Step(Ok([ReturnTo(mark.count, mark.id, None, Some(ChangeAtomId(key, mark.id)), false, false)]), registered)
  }

  /* ---------------------------------------------------------------------------
   * applyMovedChanges
   * ------------------------------------------------------------------------- */

  /** Move-source marks with consecutive ids starting at `id` whose counts add up to `count`. */
  ghost predicate Tiles<C, N>(pieces: seq<Mark<C, N>>, id: int, count: int)
    decreases |pieces|
  {
    if pieces == [] then count == 0
    else
      IsMoveSource(pieces[0]) && pieces[0].id == id && pieces[0].count <= count
      && Tiles(pieces[1..], id + pieces[0].count, count - pieces[0].count)
  }

  /**
   * `p` is a part of the move-source `mark`, apart from its node change and range:
   * same kind, same revision, and a cell id advanced by as many cells as its id.
   */
  ghost predicate PieceOf<C, N>(p: Mark<C, N>, mark: Mark<C, N>)
    requires IsMoveSource(mark)
  {
    IsMoveSource(p) && p.MoveOut? == mark.MoveOut? && p.revision == mark.revision
    && p.cellId == OffsetCell(mark.cellId, p.id - mark.id)
    && (mark.ReturnFrom? ==> p.isDstConflicted == mark.isDstConflicted)
  }

  /**
   * The node change on piece `p` is the value of the entry that covers all of its
   * cells, or its original change when no entry touches any of its cells.
   */
  ghost predicate CarriesStoredChange<C, N>(p: Mark<C, N>, original: Option<C>, key: Option<RevisionTag>,
                                            entries: seq<Entry<C>>)
    requires IsMoveSource(p)
  {
    match Lookup(entries, Destination, key, p.id, p.count)
    case None => p.changes == original
    case Some(e) => e.start <= p.id && p.id + p.count <= e.End() && p.changes == Some(e.value)
  }

  /**
   * One step of `applyMovedChanges`: the first piece of the mark and, when the
   * mark had to be split, the remainder still to be processed.
   */
  function NextPiece<C, N>(mark: Mark<C, N>, revision: Option<RevisionTag>,
                           entries: seq<Entry<C>>): (r: (Mark<C, N>, Option<Mark<C, N>>))
    requires IsMoveSource(mark)
    ensures r.1.None? ==> IsMoveSource(r.0) && r.0.id == mark.id && r.0.count == mark.count
    ensures r.1.Some? ==> IsMoveSource(r.0) && r.0.id == mark.id && 0 < r.0.count < mark.count
                          && r.1.value == Restrict(mark, r.0.count, mark.count - r.0.count)
  {
    var entry := Lookup(entries, Destination, MoveKey(mark, revision), mark.id, mark.count);
    if entry.None? then (mark, None)
    else if entry.value.start > mark.id then
      // The entry does not apply to the first cell in the mark.
      var split := SplitMark(mark, entry.value.start - mark.id);
      (split.0, Some(split.1))
    else if entry.value.start + entry.value.length < mark.id + mark.count then
      // The entry applies to the first cell in the mark, but not to all of them.
      var split := SplitMark(mark, entry.value.start + entry.value.length - mark.id);
      (WithNodeChange(split.0, Some(entry.value.value)), Some(split.1))
    else
      // The entry applies to all cells in the mark.
      (WithNodeChange(mark, Some(entry.value.value)), None)
  }

  /**
   * `applyMovedChanges`: splits a move-source mark along the ranges of the
   * destination entries stored for it, attaching each entry's value to the piece
   * it covers.
   */
  function ApplyMovedChanges<C, N>(mark: Mark<C, N>, revision: Option<RevisionTag>,
                                   entries: seq<Entry<C>>): (r: seq<Mark<C, N>>)
    requires IsMoveSource(mark)
    ensures |r| >= 1
    ensures Tiles(r, mark.id, mark.count)
    decreases mark.count
  {
    var step := NextPiece(mark, revision, entries);
    if step.1.None? then [step.0]
    else
      var rest := ApplyMovedChanges(step.1.value, revision, entries);
      TilesCons(step.0, rest, mark.id, mark.count);
      [step.0] + rest
  }

  /** A piece at the start of a range, followed by pieces tiling the rest, tiles the range. */
  lemma TilesCons<C, N>(head: Mark<C, N>, rest: seq<Mark<C, N>>, id: int, count: int)
    requires IsMoveSource(head) && head.id == id && head.count <= count
    requires Tiles(rest, id + head.count, count - head.count)
    ensures Tiles([head] + rest, id, count)
  {
    assert ([head] + rest)[1..] == rest;
  }

  /** `p` is a part of `mark` carrying the node change stored for its cells under `key`. */
  ghost predicate GoodPiece<C, N>(p: Mark<C, N>, mark: Mark<C, N>, key: Option<RevisionTag>,
                                  entries: seq<Entry<C>>)
    requires IsMoveSource(mark)
  {
    PieceOf(p, mark) && CarriesStoredChange(p, mark.changes, key, entries)
  }

  /** Pieces of the remainder of a split mark are pieces of the whole mark. */
  lemma LiftPieces<C, N>(mark: Mark<C, N>, k: nat, remainder: Mark<C, N>, rest: seq<Mark<C, N>>,
                         key: Option<RevisionTag>, entries: seq<Entry<C>>)
    requires IsMoveSource(mark) && 0 < k < mark.count
    requires remainder == Restrict(mark, k, mark.count - k)
    requires forall p :: p in rest ==> GoodPiece(p, remainder, key, entries)
    ensures forall p :: p in rest ==> GoodPiece(p, mark, key, entries)
  {
    forall p | p in rest
      ensures GoodPiece(p, mark, key, entries)
    {
      assert OffsetCell(OffsetCell(mark.cellId, k), p.id - (mark.id + k)) == OffsetCell(mark.cellId, p.id - mark.id);
    }
  }

  /** The cells before the first overlapping entry are touched by no entry. */
  lemma UntouchedHead<C, N>(mark: Mark<C, N>, key: Option<RevisionTag>, entries: seq<Entry<C>>, m1: Mark<C, N>)
    requires IsMoveSource(mark)
    requires Lookup(entries, Destination, key, mark.id, mark.count).Some?
    requires mark.id < Lookup(entries, Destination, key, mark.id, mark.count).value.start
    requires m1 == Restrict(mark, 0, Lookup(entries, Destination, key, mark.id, mark.count).value.start - mark.id)
    ensures GoodPiece(m1, mark, key, entries)
  {
    forall x | x in entries && HasKey(x, Destination, key) && Overlaps(x, m1.id, m1.count)
      ensures false
    {
      assert Overlaps(x, mark.id, mark.count);
    }
  }

  /** The cells from the start of the mark to the end of the first entry carry that entry's value. */
  lemma CoveredHead<C, N>(mark: Mark<C, N>, key: Option<RevisionTag>, entries: seq<Entry<C>>, p: Mark<C, N>)
    requires IsMoveSource(mark)
    requires Lookup(entries, Destination, key, mark.id, mark.count).Some?
    requires Lookup(entries, Destination, key, mark.id, mark.count).value.start <= mark.id
    requires Lookup(entries, Destination, key, mark.id, mark.count).value.End() < mark.id + mark.count
    requires var e := Lookup(entries, Destination, key, mark.id, mark.count).value;
             p == WithNodeChange(Restrict(mark, 0, e.End() - mark.id), Some(e.value))
    ensures GoodPiece(p, mark, key, entries)
  {
    var e := Lookup(entries, Destination, key, mark.id, mark.count).value;
    var m1 := Restrict(mark, 0, e.End() - mark.id);
    LookupNarrow(entries, Destination, key, mark.id, mark.count, m1.id, m1.count);
  }

  /** A mark that no entry touches, or that one entry covers, is one good piece. */
  lemma WholePiece<C, N>(mark: Mark<C, N>, key: Option<RevisionTag>, entries: seq<Entry<C>>)
    requires IsMoveSource(mark)
    ensures Lookup(entries, Destination, key, mark.id, mark.count).None? ==> GoodPiece(mark, mark, key, entries)
    ensures var e := Lookup(entries, Destination, key, mark.id, mark.count);
            e.Some? && e.value.start <= mark.id && mark.id + mark.count <= e.value.End() ==>
              GoodPiece(WithNodeChange(mark, Some(e.value.value)), mark, key, entries)
  {
    assert OffsetCell(mark.cellId, 0) == mark.cellId;
  }

  /** First piece when no entry is stored for the mark: the mark itself. */
  lemma NextPieceNothingStored<C, N>(mark: Mark<C, N>, revision: Option<RevisionTag>, entries: seq<Entry<C>>)
    requires IsMoveSource(mark)
    requires Lookup(entries, Destination, MoveKey(mark, revision), mark.id, mark.count).None?
    ensures GoodPiece(NextPiece(mark, revision, entries).0, mark, MoveKey(mark, revision), entries)
  {
    assert NextPiece(mark, revision, entries).0 == mark;
    WholePiece(mark, MoveKey(mark, revision), entries);
  }

  /** First piece when the first entry starts after the mark's first cell: the cells before it. */
  lemma NextPieceBeforeEntry<C, N>(mark: Mark<C, N>, revision: Option<RevisionTag>, entries: seq<Entry<C>>)
    requires IsMoveSource(mark)
    requires var e := Lookup(entries, Destination, MoveKey(mark, revision), mark.id, mark.count);
             e.Some? && e.value.start > mark.id
    ensures GoodPiece(NextPiece(mark, revision, entries).0, mark, MoveKey(mark, revision), entries)
  {
    UntouchedHead(mark, MoveKey(mark, revision), entries, NextPiece(mark, revision, entries).0);
  }

  /** First piece when the first entry covers the first cell but ends inside the mark. */
  lemma NextPieceInsideEntry<C, N>(mark: Mark<C, N>, revision: Option<RevisionTag>, entries: seq<Entry<C>>)
    requires IsMoveSource(mark)
    requires var e := Lookup(entries, Destination, MoveKey(mark, revision), mark.id, mark.count);
             e.Some? && e.value.start <= mark.id && e.value.End() < mark.id + mark.count
    ensures GoodPiece(NextPiece(mark, revision, entries).0, mark, MoveKey(mark, revision), entries)
  {
    CoveredHead(mark, MoveKey(mark, revision), entries, NextPiece(mark, revision, entries).0);
  }

  /** First piece when the first entry covers the whole mark: the mark with the stored change. */
  lemma NextPieceCoveredByEntry<C, N>(mark: Mark<C, N>, revision: Option<RevisionTag>, entries: seq<Entry<C>>)
    requires IsMoveSource(mark)
    requires var e := Lookup(entries, Destination, MoveKey(mark, revision), mark.id, mark.count);
             e.Some? && e.value.start <= mark.id && mark.id + mark.count <= e.value.End()
    ensures GoodPiece(NextPiece(mark, revision, entries).0, mark, MoveKey(mark, revision), entries)
  {
    var e := Lookup(entries, Destination, MoveKey(mark, revision), mark.id, mark.count).value;
    assert NextPiece(mark, revision, entries).0 == WithNodeChange(mark, Some(e.value));
    WholePiece(mark, MoveKey(mark, revision), entries);
  }

  /** The first piece `applyMovedChanges` cuts is a good piece of the mark. */
  lemma NextPieceGood<C, N>(mark: Mark<C, N>, revision: Option<RevisionTag>, entries: seq<Entry<C>>)
    requires IsMoveSource(mark)
    ensures GoodPiece(NextPiece(mark, revision, entries).0, mark, MoveKey(mark, revision), entries)
  {
    var entry := Lookup(entries, Destination, MoveKey(mark, revision), mark.id, mark.count);
    if entry.None? {
      NextPieceNothingStored(mark, revision, entries);
    } else if entry.value.start > mark.id {
      NextPieceBeforeEntry(mark, revision, entries);
    } else if entry.value.End() < mark.id + mark.count {
      NextPieceInsideEntry(mark, revision, entries);
    } else {
      NextPieceCoveredByEntry(mark, revision, entries);
    }
  }

  lemma ConsPieces<C, N>(head: Mark<C, N>, rest: seq<Mark<C, N>>, mark: Mark<C, N>,
                         key: Option<RevisionTag>, entries: seq<Entry<C>>)
    requires IsMoveSource(mark)
    requires GoodPiece(head, mark, key, entries)
    requires forall p :: p in rest ==> GoodPiece(p, mark, key, entries)
    ensures forall p :: p in [head] + rest ==> GoodPiece(p, mark, key, entries)
  {
  }

  /**
   * Every piece `applyMovedChanges` yields is a part of the mark and carries
   * exactly the node change stored for its cells.
   */
  lemma {:induction false} ApplyMovedChangesPieces<C, N>(mark: Mark<C, N>, revision: Option<RevisionTag>,
                                                         entries: seq<Entry<C>>)
    requires IsMoveSource(mark)
    ensures forall p :: p in ApplyMovedChanges(mark, revision, entries) ==>
              GoodPiece(p, mark, MoveKey(mark, revision), entries)
    decreases mark.count
  {
    var key := MoveKey(mark, revision);
    var step := NextPiece(mark, revision, entries);
    NextPieceGood(mark, revision, entries);
    if step.1.Some? {
      var k := step.0.count;
      var rest := ApplyMovedChanges(step.1.value, revision, entries);
      ApplyMovedChangesPieces(step.1.value, revision, entries);
      assert MoveKey(step.1.value, revision) == key;
      LiftPieces(mark, k, step.1.value, rest, key, entries);
      ConsPieces(step.0, rest, mark, key, entries);
    }
  }

  /** Applying the moved changes again to any piece leaves it as it is. */
  lemma ApplyMovedChangesStable<C, N>(mark: Mark<C, N>, revision: Option<RevisionTag>,
                                      entries: seq<Entry<C>>, p: Mark<C, N>)
    requires IsMoveSource(mark)
    requires p in ApplyMovedChanges(mark, revision, entries)
    ensures IsMoveSource(p) && ApplyMovedChanges(p, revision, entries) == [p]
  {
    ApplyMovedChangesPieces(mark, revision, entries);
    assert MoveKey(p, revision) == MoveKey(mark, revision);
  }

  /* ---------------------------------------------------------------------------
   * Properties of a single mark's inversion
   * ------------------------------------------------------------------------- */

  /**
   * The marks `invertMark` inverts without an assertion failure: a revision is
   * needed to revive what a delete removed and to name the cells a move source
   * vacated, an active reattach must name its cells, and a node change may only
   * travel with a single cell.
   */
  ghost predicate Invertible<C, N>(mark: Mark<C, N>, revision: Option<RevisionTag>) {
    match mark
    case NoOp(_) => true
    case Insert(_, _, _, _, transientDetach) => transientDetach.Some? ==> revision.Some?
    case Delete(_, _, _, _, _) => revision.Some?
    case Revive(count, _, cellId, _, _, changes, transientDetach, conflicted) =>
      if !conflicted then cellId.Some? && (transientDetach.Some? ==> revision.Some?)
      else if transientDetach.Some? then revision.Some?
      else changes.Some? ==> count == 1
    case Modify(_, _) => true
    case MoveOut(count, _, rev, changes, cellId) =>
      cellId.None? ==> (changes.Some? ==> count == 1) && OrElse(rev, revision).Some?
    case ReturnFrom(count, _, rev, changes, cellId, isDstConflicted) =>
      cellId.None? ==> (changes.Some? ==> count == 1) && (isDstConflicted || OrElse(rev, revision).Some?)
    case MoveIn(_, _, _, _) => true
    case ReturnTo(_, _, _, _, _, _) => true
  }

  /** `invertMark` fails exactly on the marks that are not invertible. */
  lemma InvertMarkSucceeds<C, N>(mark: Mark<C, N>, inputIndex: int, revision: Option<RevisionTag>,
                                 reviver: NodeReviver<N>, invertChild: NodeChangeInverter<C>, entries: seq<Entry<C>>)
    ensures InvertMark(mark, inputIndex, revision, reviver, invertChild, entries).out.Ok? <==> Invertible(mark, revision)
  {
  }

  /**
   * Only a move source with filled cells, a node change and a single cell stores
   * an entry: the inverted change, at the destination side of the move's key.
   */
  lemma InvertMarkRegistration<C, N>(mark: Mark<C, N>, inputIndex: int, revision: Option<RevisionTag>,
                                     reviver: NodeReviver<N>, invertChild: NodeChangeInverter<C>,
                                     entries: seq<Entry<C>>)
    ensures var step := InvertMark(mark, inputIndex, revision, reviver, invertChild, entries);
            step.registered.Some? <==>
              IsMoveSource(mark) && mark.cellId.None? && !(mark.ReturnFrom? && mark.isDstConflicted)
              && mark.changes.Some? && mark.count == 1
    ensures var step := InvertMark(mark, inputIndex, revision, reviver, invertChild, entries);
            step.registered.Some? ==>
              step.registered.value
              == Entry(Destination, MoveKey(mark, revision), mark.id, 1, invertChild(mark.changes.value, inputIndex))
  {
  }

  /** Only the inversion of a move destination reads the manager. */
  lemma InvertMarkReadsOnlyForDestinations<C, N>(mark: Mark<C, N>, inputIndex: int, revision: Option<RevisionTag>,
                                                 reviver: NodeReviver<N>, invertChild: NodeChangeInverter<C>,
                                                 entries1: seq<Entry<C>>, entries2: seq<Entry<C>>)
    requires !mark.MoveIn? && !mark.ReturnTo?
    ensures InvertMark(mark, inputIndex, revision, reviver, invertChild, entries1)
            == InvertMark(mark, inputIndex, revision, reviver, invertChild, entries2)
  {
  }

  /**
   * A move source that moved its nodes is undone by a return of the same cells,
   * which names the vacated cells by the move's revision and id.
   */
  lemma InvertMoveSourceReturns<C, N>(mark: Mark<C, N>, inputIndex: int, revision: Option<RevisionTag>,
                                      reviver: NodeReviver<N>, invertChild: NodeChangeInverter<C>,
                                      entries: seq<Entry<C>>)
    requires IsMoveSource(mark) && mark.cellId.None? && !(mark.ReturnFrom? && mark.isDstConflicted)
    requires Invertible(mark, revision)
    ensures InvertMark(mark, inputIndex, revision, reviver, invertChild, entries).out
            == Ok([ReturnTo(mark.count, mark.id, None, Some(ChangeAtomId(MoveKey(mark, revision), mark.id)), false, false)])
  {
  }

  /** A delete of cells that are already empty inverts to nothing, once the revision is defined. */
  lemma InvertDetachedDelete<C, N>(mark: Mark<C, N>, inputIndex: int, revision: Option<RevisionTag>,
                                   reviver: NodeReviver<N>, invertChild: NodeChangeInverter<C>,
                                   entries: seq<Entry<C>>)
    requires mark.Delete? && mark.cellId.Some?
    ensures var step := InvertMark(mark, inputIndex, revision, reviver, invertChild, entries);
            step.registered.None? && step.out == (if revision.None? then Err(UndefinedRevision) else Ok([]))
  {
  }

  /** A modify of an empty cell inverts to nothing. */
  lemma InvertDetachedModify<C, N>(mark: Mark<C, N>, inputIndex: int, revision: Option<RevisionTag>,
                                   reviver: NodeReviver<N>, invertChild: NodeChangeInverter<C>,
                                   entries: seq<Entry<C>>)
    requires mark.Modify? && mark.cellId.Some?
    ensures var step := InvertMark(mark, inputIndex, revision, reviver, invertChild, entries);
            step.registered.None? && step.out == Ok([])
  {
  }

  /**
   * An active revive whose nodes were removed again in the same changeset is
   * undone by reviving them into the cell of that removal, recording the revived
   * cell as the place they are transiently detached from again.
   */
  lemma InvertTransientRevive<C, N>(mark: Mark<C, N>, inputIndex: int, revision: Option<RevisionTag>,
                                    reviver: NodeReviver<N>, invertChild: NodeChangeInverter<C>,
                                    entries: seq<Entry<C>>)
    requires mark.Revive? && !mark.reattachConflicted && mark.cellId.Some? && mark.transientDetach.Some?
    ensures var step := InvertMark(mark, inputIndex, revision, reviver, invertChild, entries);
            var detach := mark.transientDetach.value;
            step.registered.None? && (revision.None? <==> step.out == Err(UndefinedRevision))
            && (revision.Some? ==>
                  var r := revision.value;
                  step.out == Ok([Revive(mark.count, reviver(r, inputIndex, mark.count),
                                         Some(ChangeAtomId(Some(detach.revision.GetOr(r)), detach.localId)),
                                         Some(mark.revision.GetOr(r)), None,
                                         InvertNodeChange(mark.changes, inputIndex, invertChild),
                                         Some(ChangeAtomId(Some(mark.revision.GetOr(r)), mark.cellId.value.localId)),
                                         false)]))
  {
  }

  /**
   * A conflicted revive without a transient detach had no effect on the nodes: it
   * inverts to a modify of its (still empty) cell or a skip, as `invertModifyOrSkip` gives.
   */
  lemma InvertConflictedRevive<C, N>(mark: Mark<C, N>, inputIndex: int, revision: Option<RevisionTag>,
                                     reviver: NodeReviver<N>, invertChild: NodeChangeInverter<C>,
                                     entries: seq<Entry<C>>)
    requires mark.Revive? && mark.reattachConflicted && mark.transientDetach.None?
    ensures var step := InvertMark(mark, inputIndex, revision, reviver, invertChild, entries);
            var inverse := InvertModifyOrSkip(mark.count, mark.changes, inputIndex, invertChild, mark.cellId);
            step.registered.None?
            && step.out == (if inverse.Ok? then Ok([inverse.value]) else Err(inverse.error))
  {
  }

  /** A move source whose input cells are empty moved nothing, and inverts to nothing. */
  lemma InvertEmptyMoveSource<C, N>(mark: Mark<C, N>, inputIndex: int, revision: Option<RevisionTag>,
                                    reviver: NodeReviver<N>, invertChild: NodeChangeInverter<C>,
                                    entries: seq<Entry<C>>)
    requires IsMoveSource(mark) && AreInputCellsEmpty(mark)
    ensures var step := InvertMark(mark, inputIndex, revision, reviver, invertChild, entries);
            step.registered.None? && step.out == Ok([])
  {
  }

  /**
   * A return whose destination was conflicted left the nodes in place: it inverts
   * to a modify of the filled cell or a skip, and stores nothing.
   */
  lemma InvertDestinationConflictedReturn<C, N>(mark: Mark<C, N>, inputIndex: int, revision: Option<RevisionTag>,
                                                reviver: NodeReviver<N>, invertChild: NodeChangeInverter<C>,
                                                entries: seq<Entry<C>>)
    requires mark.ReturnFrom? && mark.isDstConflicted && !AreInputCellsEmpty(mark)
    ensures var step := InvertMark(mark, inputIndex, revision, reviver, invertChild, entries);
            var inverse := InvertModifyOrSkip(mark.count, mark.changes, inputIndex, invertChild, None);
            step.registered.None?
            && step.out == (if inverse.Ok? then Ok([inverse.value]) else Err(inverse.error))
  {
  }

  /**
   * An insert whose nodes were removed again in the same changeset is undone by
   * reviving them into the cell that removal left, recording the insert's own cell
   * as the place they are transiently detached from again.
   */
  lemma InvertTransientInsert<C, N>(mark: Mark<C, N>, inputIndex: int, revision: Option<RevisionTag>,
                                    reviver: NodeReviver<N>, invertChild: NodeChangeInverter<C>,
                                    entries: seq<Entry<C>>)
    requires mark.Insert? && mark.transientDetach.Some?
    ensures var step := InvertMark(mark, inputIndex, revision, reviver, invertChild, entries);
            step.registered.None? && (revision.None? <==> step.out == Err(UndefinedRevision))
    ensures var step := InvertMark(mark, inputIndex, revision, reviver, invertChild, entries);
            var detach := mark.transientDetach.value;
            revision.Some? ==>
              var r := revision.value;
              step.out.Ok? && |step.out.value| == 1
              && var inverse := step.out.value[0];
                 inverse.Revive? && inverse.count == |mark.content|
                 && inverse.content == reviver(r, inputIndex, |mark.content|)
                 && inverse.cellId == Some(ChangeAtomId(Some(detach.revision.GetOr(r)), detach.localId))
                 && inverse.inverseOf == Some(mark.revision.GetOr(r))
                 && inverse.transientDetach == Some(ChangeAtomId(Some(mark.revision.GetOr(r)), mark.id))
                 && inverse.changes == InvertNodeChange(mark.changes, inputIndex, invertChild)
                 && !inverse.reattachConflicted
  {
  }

  /**
   * A conflicted revive whose nodes were transiently detached is inverted as the
   * delete that detached them, under that detach's revision (or the changeset's):
   * its nodes are revived into the cell that detach left.
   */
  lemma InvertConflictedTransientRevive<C, N>(mark: Mark<C, N>, inputIndex: int, revision: Option<RevisionTag>,
                                              reviver: NodeReviver<N>, invertChild: NodeChangeInverter<C>,
                                              entries: seq<Entry<C>>)
    requires mark.Revive? && mark.reattachConflicted && mark.transientDetach.Some?
    ensures var detach := mark.transientDetach.value;
            InvertMark(mark, inputIndex, revision, reviver, invertChild, entries)
            == InvertMark(Delete(mark.count, detach.localId, OrElse(detach.revision, revision), mark.changes, None),
                          inputIndex, revision, reviver, invertChild, entries)
    ensures var step := InvertMark(mark, inputIndex, revision, reviver, invertChild, entries);
            var detach := mark.transientDetach.value;
            step.registered.None? && (revision.None? <==> step.out == Err(UndefinedRevision))
            && (revision.Some? ==>
                  var r := revision.value;
                  step.out == Ok([Revive(mark.count, reviver(r, inputIndex, mark.count),
                                         Some(ChangeAtomId(Some(detach.revision.GetOr(r)), detach.localId)),
                                         Some(detach.revision.GetOr(r)), None,
                                         InvertNodeChange(mark.changes, inputIndex, invertChild), None, false)]))
  {
  }

  /**
   * A move destination whose source was conflicted moved nothing: its inverse is a
   * skip over the cells a filled return spans, and nothing otherwise.
   */
  lemma InvertSourceConflictedDestination<C, N>(mark: Mark<C, N>, inputIndex: int, revision: Option<RevisionTag>,
                                                reviver: NodeReviver<N>, invertChild: NodeChangeInverter<C>,
                                                entries: seq<Entry<C>>)
    requires (mark.MoveIn? || mark.ReturnTo?) && mark.isSrcConflicted
    ensures var step := InvertMark(mark, inputIndex, revision, reviver, invertChild, entries);
            step.registered.None?
            && step.out == Ok(if mark.ReturnTo? && mark.cellId.None? then [NoOp(mark.count)] else [])
  {
  }

  /**
   * A return that attached nothing, because its nodes were already attached or
   * could not be attached, is undone by a skip over the filled cells, or by nothing.
   */
  lemma InvertInactiveReturn<C, N>(mark: Mark<C, N>, inputIndex: int, revision: Option<RevisionTag>,
                                   reviver: NodeReviver<N>, invertChild: NodeChangeInverter<C>,
                                   entries: seq<Entry<C>>)
    requires mark.ReturnTo? && !mark.isSrcConflicted && (mark.cellId.None? || mark.reattachConflicted)
    ensures var step := InvertMark(mark, inputIndex, revision, reviver, invertChild, entries);
            step.registered.None? && step.out == Ok(if mark.cellId.None? then [NoOp(mark.count)] else [])
  {
  }

  /**
   * The inverse of an active move destination is a return from the same cells,
   * cut into pieces each of which carries the change stored for its cells.
   */
  lemma {:induction false} InvertMoveDestination<C, N>(mark: Mark<C, N>, inputIndex: int, revision: Option<RevisionTag>,
                                                       reviver: NodeReviver<N>, invertChild: NodeChangeInverter<C>,
                                                       entries: seq<Entry<C>>)
    requires mark.MoveIn? || (mark.ReturnTo? && mark.cellId.Some? && !mark.reattachConflicted)
    requires !mark.isSrcConflicted
    ensures var step := InvertMark(mark, inputIndex, revision, reviver, invertChild, entries);
            step.registered.None? && step.out.Ok? && Tiles(step.out.value, mark.id, mark.count)
            && forall p :: p in step.out.value ==>
                 p.ReturnFrom? && p.revision.None? && p.cellId.None? && !p.isDstConflicted
                 && CarriesStoredChange(p, None, revision, entries)
  {
    var source: Mark<C, N> := ReturnFrom(mark.count, mark.id, None, None, None, false);
    ApplyMovedChangesPieces(source, revision, entries);
    assert InvertMark(mark, inputIndex, revision, reviver, invertChild, entries).out
           == Ok(ApplyMovedChanges(source, revision, entries));
  }

  /* ---------------------------------------------------------------------------
   * invertMarkList / invert
   * ------------------------------------------------------------------------- */

  /** Number of input cells a list of marks consumes. */
  function InputLength<C, N>(marks: seq<Mark<C, N>>): nat
    decreases |marks|
  {
    if marks == [] then 0
    else InputLength(marks[..|marks| - 1]) + GetInputLength(marks[|marks| - 1])
  }

  /** The manager's entries once a step's registration, if any, is stored. */
  function Register<C>(entries: seq<Entry<C>>, registered: Option<Entry<C>>): seq<Entry<C>> {
    match registered
    case None => entries
    case Some(e) => Overwrite(entries, e)
  }

  /** The inverse built so far (or the assertion that aborted) and the manager's entries. */
  datatype Pass<C, N> = Pass(out: Result<seq<Mark<C, N>>, InvertError>, entries: seq<Entry<C>>)

  /**
   * The main inversion pass over `marks`, mark by mark from the left: each mark is
   * inverted at the input index the marks before it consume, and the entries it
   * stores are visible to the marks after it. The pass stops at the first failure.
   */
  ghost function InvertPrefix<C, N>(marks: seq<Mark<C, N>>, revision: Option<RevisionTag>,
                                    reviver: NodeReviver<N>, invertChild: NodeChangeInverter<C>,
                                    entries: seq<Entry<C>>): Pass<C, N>
    decreases |marks|
  {
    if marks == [] then Pass(Ok([]), entries)
    else
      var prev := InvertPrefix(marks[..|marks| - 1], revision, reviver, invertChild, entries);
      if prev.out.Err? then prev
      else
        var step := InvertMark(marks[|marks| - 1], InputLength(marks[..|marks| - 1]), revision,
                               reviver, invertChild, prev.entries);
        var stored := Register(prev.entries, step.registered);
        match step.out
        case Err(e) => Pass(Err(e), stored)
        case Ok(inverse) => Pass(Ok(prev.out.value + inverse), stored)
  }

  /** Once the pass has failed, the marks after the failing one change nothing. */
  lemma {:induction false} InvertPrefixErrSticks<C, N>(marks: seq<Mark<C, N>>, i: nat, revision: Option<RevisionTag>,
                                                       reviver: NodeReviver<N>, invertChild: NodeChangeInverter<C>,
                                                       entries: seq<Entry<C>>)
    requires i <= |marks|
    requires InvertPrefix(marks[..i], revision, reviver, invertChild, entries).out.Err?
    ensures InvertPrefix(marks, revision, reviver, invertChild, entries)
            == InvertPrefix(marks[..i], revision, reviver, invertChild, entries)
    decreases |marks|
  {
    if i < |marks| {
      var init := marks[..|marks| - 1];
      assert init[..i] == marks[..i];
      InvertPrefixErrSticks(init, i, revision, reviver, invertChild, entries);
    } else {
      assert marks[..i] == marks;
    }
  }

  /** One more mark of a pass that has not failed: that mark's inversion, at the input the prefix consumes. */
  lemma InvertPrefixStep<C, N>(marks: seq<Mark<C, N>>, i: nat, revision: Option<RevisionTag>,
                               reviver: NodeReviver<N>, invertChild: NodeChangeInverter<C>, entries: seq<Entry<C>>)
    requires i < |marks|
    requires InvertPrefix(marks[..i], revision, reviver, invertChild, entries).out.Ok?
    ensures InputLength(marks[..i + 1]) == InputLength(marks[..i]) + GetInputLength(marks[i])
    ensures var prev := InvertPrefix(marks[..i], revision, reviver, invertChild, entries);
            var step := InvertMark(marks[i], InputLength(marks[..i]), revision, reviver, invertChild, prev.entries);
            InvertPrefix(marks[..i + 1], revision, reviver, invertChild, entries)
            == Pass(if step.out.Err? then Err(step.out.error) else Ok(prev.out.value + step.out.value),
                    Register(prev.entries, step.registered))
  {
    assert marks[..i + 1][..i] == marks[..i];
  }

  /** `invertMarkList`: the main pass, storing move-source changes in `manager`. */
  method InvertMarkList<C, N>(marks: Changeset<C, N>, revision: Option<RevisionTag>,
                              reviver: NodeReviver<N>, invertChild: NodeChangeInverter<C>,
                              manager: CrossFieldManager<C>)
      returns (r: Result<Changeset<C, N>, InvertError>)
    modifies manager
    ensures Pass(r, manager.entries) == InvertPrefix(marks, revision, reviver, invertChild, old(manager.entries))
  {
    var inverse: Changeset<C, N> := [];
    var inputIndex := 0;
    for i := 0 to |marks|
      invariant inputIndex == InputLength(marks[..i])
      invariant InvertPrefix(marks[..i], revision, reviver, invertChild, old(manager.entries))
                == Pass(Ok(inverse), manager.entries)
    {
      InvertPrefixStep(marks, i, revision, reviver, invertChild, old(manager.entries));
      var step := InvertMark(marks[i], inputIndex, revision, reviver, invertChild, manager.entries);
      if step.registered.Some? {
        var e := step.registered.value;
        manager.Set(e.target, e.revision, e.start, e.length, e.value);
      }
      if step.out.Err? {
        InvertPrefixErrSticks(marks, i + 1, revision, reviver, invertChild, old(manager.entries));
        return Err(step.out.error);
      }
      inverse := inverse + step.out.value;
      inputIndex := inputIndex + GetInputLength(marks[i]);
    }
    assert marks[..|marks|] == marks;
    return Ok(inverse);
  }

  /** `invert`: inverts a tagged changeset under its own revision. */
  method Invert<C, N>(change: TaggedChange<C, N>, invertChild: NodeChangeInverter<C>, reviver: NodeReviver<N>,
                      manager: CrossFieldManager<C>)
      returns (r: Result<Changeset<C, N>, InvertError>)
    modifies manager
    ensures Pass(r, manager.entries)
            == InvertPrefix(change.change, change.revision, reviver, invertChild, old(manager.entries))
  {
    r := InvertMarkList(change.change, change.revision, reviver, invertChild, manager);
  }

  /* ---------------------------------------------------------------------------
   * amendMarkList / amendInvert
   * ------------------------------------------------------------------------- */

  /** The amended form of one mark: move sources get their moved changes, others stay. */
  function AmendMark<C, N>(mark: Mark<C, N>, revision: Option<RevisionTag>, entries: seq<Entry<C>>): seq<Mark<C, N>> {
    if IsMoveSource(mark) then ApplyMovedChanges(mark, revision, entries) else [mark]
  }

  /** The amendment pass over `marks`, from the left. */
  function AmendMarks<C, N>(marks: seq<Mark<C, N>>, revision: Option<RevisionTag>,
                            entries: seq<Entry<C>>): seq<Mark<C, N>>
    decreases |marks|
  {
    if marks == [] then []
    else AmendMarks(marks[..|marks| - 1], revision, entries) + AmendMark(marks[|marks| - 1], revision, entries)
  }

  /** `amendMarkList`: the amendment pass, reading the entries of `manager`. */
  method AmendMarkList<C, N>(marks: Changeset<C, N>, revision: Option<RevisionTag>, manager: CrossFieldManager<C>)
      returns (r: Changeset<C, N>)
    ensures r == AmendMarks(marks, revision, manager.entries)
  {
    r := [];
    for i := 0 to |marks|
      invariant r == AmendMarks(marks[..i], revision, manager.entries)
    {
      assert marks[..i + 1][..i] == marks[..i];
      if IsMoveSource(marks[i]) {
        r := r + ApplyMovedChanges(marks[i], revision, manager.entries);
      } else {
        r := r + [marks[i]];
      }
    }
    assert marks[..|marks|] == marks;
  }

  /** `amendInvert`: amends an inverse once every mark has been inverted. */
  method AmendInvert<C, N>(inverted: Changeset<C, N>, originalRevision: Option<RevisionTag>,
                           manager: CrossFieldManager<C>)
      returns (r: Changeset<C, N>)
    ensures r == AmendMarks(inverted, originalRevision, manager.entries)
  {
    r := AmendMarkList(inverted, originalRevision, manager);
  }

  /* ---------------------------------------------------------------------------
   * Properties of the amendment pass
   * ------------------------------------------------------------------------- */

  /** One step of the amendment pass: the last mark's pieces follow the amended rest. */
  lemma AmendMarksSnoc<C, N>(init: seq<Mark<C, N>>, last: Mark<C, N>, revision: Option<RevisionTag>,
                             entries: seq<Entry<C>>)
    ensures AmendMarks(init + [last], revision, entries)
            == AmendMarks(init, revision, entries) + AmendMark(last, revision, entries)
  {
    assert (init + [last])[..|init|] == init;
  }

  /** The step of `AmendMarksAppend`: appending one mark to both sides keeps them equal. */
  lemma AmendMarksAppendStep<C, N>(a: seq<Mark<C, N>>, b: seq<Mark<C, N>>, last: Mark<C, N>,
                                   revision: Option<RevisionTag>, entries: seq<Entry<C>>)
    requires AmendMarks(a + b, revision, entries) == AmendMarks(a, revision, entries) + AmendMarks(b, revision, entries)
    ensures AmendMarks(a + (b + [last]), revision, entries)
            == AmendMarks(a, revision, entries) + AmendMarks(b + [last], revision, entries)
  {
    ConcatAssoc(a, b, [last]);
    AmendMarksSnoc(a + b, last, revision, entries);
    AmendMarksSnoc(b, last, revision, entries);
    ConcatAssoc(AmendMarks(a, revision, entries), AmendMarks(b, revision, entries), AmendMark(last, revision, entries));
  }

  lemma ConcatAssoc<T>(x: seq<T>, y: seq<T>, z: seq<T>)
    ensures (x + y) + z == x + (y + z)
  {
  }

  lemma {:induction false} AmendMarksAppend<C, N>(a: seq<Mark<C, N>>, b: seq<Mark<C, N>>,
                                                  revision: Option<RevisionTag>, entries: seq<Entry<C>>)
    ensures AmendMarks(a + b, revision, entries) == AmendMarks(a, revision, entries) + AmendMarks(b, revision, entries)
    decreases |b|
  {
    if b == [] {
      assert a + b == a;
    } else {
      var b' := b[..|b| - 1];
      AmendMarksAppend(a, b', revision, entries);
      AmendMarksAppendStep(a, b', b[|b| - 1], revision, entries);
      assert b' + [b[|b| - 1]] == b;
    }
  }

  /** Marks that amending leaves alone form a list that amending leaves alone. */
  lemma {:induction false} AmendMarksFixed<C, N>(marks: seq<Mark<C, N>>, revision: Option<RevisionTag>,
                                                 entries: seq<Entry<C>>)
    requires forall i :: 0 <= i < |marks| ==> AmendMark(marks[i], revision, entries) == [marks[i]]
    ensures AmendMarks(marks, revision, entries) == marks
    decreases |marks|
  {
    if marks != [] {
      var init := marks[..|marks| - 1];
      var last := marks[|marks| - 1];
      assert AmendMark(last, revision, entries) == [last];
      AmendMarksFixed(init, revision, entries);
      assert init + [last] == marks;
    }
  }

  /** Amending a changeset without move sources changes nothing. */
  lemma AmendMarksWithoutMoves<C, N>(marks: seq<Mark<C, N>>, revision: Option<RevisionTag>, entries: seq<Entry<C>>)
    requires forall m :: m in marks ==> !IsMoveSource(m)
    ensures AmendMarks(marks, revision, entries) == marks
  {
    assert forall i :: 0 <= i < |marks| ==> marks[i] in marks;
    AmendMarksFixed(marks, revision, entries);
  }

  /** With no destination entry for its key overlapping its range, a move source is left whole. */
  lemma ApplyMovedChangesNothingStored<C, N>(mark: Mark<C, N>, revision: Option<RevisionTag>, entries: seq<Entry<C>>)
    requires IsMoveSource(mark)
    requires Lookup(entries, Destination, MoveKey(mark, revision), mark.id, mark.count).None?
    ensures ApplyMovedChanges(mark, revision, entries) == [mark]
  {
  }

  /** The pieces one mark is amended into are each left alone by amending again. */
  lemma AmendMarkFixedPieces<C, N>(mark: Mark<C, N>, revision: Option<RevisionTag>, entries: seq<Entry<C>>)
    ensures var pieces := AmendMark(mark, revision, entries);
            forall i :: 0 <= i < |pieces| ==> AmendMark(pieces[i], revision, entries) == [pieces[i]]
  {
    var pieces := AmendMark(mark, revision, entries);
    forall i | 0 <= i < |pieces|
      ensures AmendMark(pieces[i], revision, entries) == [pieces[i]]
    {
      if IsMoveSource(mark) {
        ApplyMovedChangesStable(mark, revision, entries, pieces[i]);
      }
    }
  }

  /** Amending an amended changeset changes nothing more: the pass is idempotent. */
  lemma {:induction false} AmendMarksIdempotent<C, N>(marks: seq<Mark<C, N>>, revision: Option<RevisionTag>,
                                                      entries: seq<Entry<C>>)
    ensures AmendMarks(AmendMarks(marks, revision, entries), revision, entries) == AmendMarks(marks, revision, entries)
    decreases |marks|
  {
    if marks != [] {
      var init := marks[..|marks| - 1];
      var last := marks[|marks| - 1];
      var pieces := AmendMark(last, revision, entries);
      AmendMarksIdempotent(init, revision, entries);
      AmendMarksAppend(AmendMarks(init, revision, entries), pieces, revision, entries);
      AmendMarkFixedPieces(last, revision, entries);
      AmendMarksFixed(pieces, revision, entries);
    }
  }

  lemma {:induction false} InputLengthAppend<C, N>(a: seq<Mark<C, N>>, b: seq<Mark<C, N>>)
    ensures InputLength(a + b) == InputLength(a) + InputLength(b)
    decreases |b|
  {
    if b == [] {
      assert a + b == a;
    } else {
      var b' := b[..|b| - 1];
      assert (a + b)[..|a + b| - 1] == a + b';
      assert (a + b)[|a + b| - 1] == b[|b| - 1];
      InputLengthAppend(a, b');
    }
  }

  /** The pieces of a move source consume as many input cells as the mark did. */
  lemma {:induction false} PiecesInputLength<C, N>(pieces: seq<Mark<C, N>>, id: int, count: int, mark: Mark<C, N>)
    requires IsMoveSource(mark)
    requires Tiles(pieces, id, count)
    requires forall p :: p in pieces ==> PieceOf(p, mark)
    ensures InputLength(pieces) == if mark.cellId.Some? then 0 else count
    decreases |pieces|
  {
    if pieces != [] {
      var rest := pieces[1..];
      assert forall p :: p in rest ==> p in pieces;
      PiecesInputLength(rest, id + pieces[0].count, count - pieces[0].count, mark);
      assert [pieces[0]] + rest == pieces;
      InputLengthAppend([pieces[0]], rest);
      assert [pieces[0]][..0] == [];
      assert pieces[0] in pieces && PieceOf(pieces[0], mark);
      assert InputLength([pieces[0]]) == GetInputLength(pieces[0]);
    }
  }

  /** The marks one mark is amended to consume as many input cells as the mark. */
  lemma AmendMarkInputLength<C, N>(mark: Mark<C, N>, revision: Option<RevisionTag>, entries: seq<Entry<C>>)
    ensures InputLength(AmendMark(mark, revision, entries)) == GetInputLength(mark)
  {
    if IsMoveSource(mark) {
      ApplyMovedChangesPieces(mark, revision, entries);
      PiecesInputLength(ApplyMovedChanges(mark, revision, entries), mark.id, mark.count, mark);
    } else {
      assert [mark][..0] == [];
    }
  }

  /** Amending does not change how many input cells the changeset consumes. */
  lemma {:induction false} AmendMarksInputLength<C, N>(marks: seq<Mark<C, N>>, revision: Option<RevisionTag>,
                                                       entries: seq<Entry<C>>)
    ensures InputLength(AmendMarks(marks, revision, entries)) == InputLength(marks)
    decreases |marks|
  {
    if marks != [] {
      var init := marks[..|marks| - 1];
      var last := marks[|marks| - 1];
      AmendMarksInputLength(init, revision, entries);
      InputLengthAppend(AmendMarks(init, revision, entries), AmendMark(last, revision, entries));
      AmendMarkInputLength(last, revision, entries);
    }
  }
}
