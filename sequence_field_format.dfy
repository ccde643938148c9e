/**
 * The mark model of a sequence field changeset, and the small mark utilities that
 * the inversion relies on (mark length, input length, conflict tests, splitting,
 * attaching a node change).
 *
 * `C` is the (abstract) nested node-level change carried by a mark and `N` the
 * (abstract) node content that inserts and revives attach.
 */
module SequenceFieldFormat {
  import opened Wrappers

  type RevisionTag = string
  type LocalId = int

  /** `x ?? y` on two optional revisions. */
  function OrElse(x: Option<RevisionTag>, y: Option<RevisionTag>): Option<RevisionTag> {
    if x.Some? then x else y
  }

  /** Handle of a single detach or attach event: the identity of an empty cell. */
  datatype ChangeAtomId = ChangeAtomId(revision: Option<RevisionTag>, localId: LocalId)

  /**
   * One edit primitive of a changeset. A mark whose `cellId` is set targets cells
   * that are empty in the input context. `reattachConflicted` stands for what
   * `isReattachConflicted` reports of a reattach (Revive or ReturnTo).
   */
  datatype Mark<C, N> =
    | NoOp(count: nat)
    | Insert(content: seq<N>, id: LocalId, revision: Option<RevisionTag>,
             changes: Option<C>, transientDetach: Option<ChangeAtomId>)
    | Delete(count: nat, id: LocalId, revision: Option<RevisionTag>,
             changes: Option<C>, cellId: Option<ChangeAtomId>)
    | Revive(count: nat, content: seq<N>, cellId: Option<ChangeAtomId>,
             inverseOf: Option<RevisionTag>, revision: Option<RevisionTag>,
             changes: Option<C>, transientDetach: Option<ChangeAtomId>,
             reattachConflicted: bool)
    | Modify(change: C, cellId: Option<ChangeAtomId>)
    | MoveOut(count: nat, id: LocalId, revision: Option<RevisionTag>,
              changes: Option<C>, cellId: Option<ChangeAtomId>)
    | ReturnFrom(count: nat, id: LocalId, revision: Option<RevisionTag>,
                 changes: Option<C>, cellId: Option<ChangeAtomId>, isDstConflicted: bool)
    | MoveIn(count: nat, id: LocalId, revision: Option<RevisionTag>, isSrcConflicted: bool)
    | ReturnTo(count: nat, id: LocalId, revision: Option<RevisionTag>,
               cellId: Option<ChangeAtomId>, isSrcConflicted: bool, reattachConflicted: bool)

  /** Changesets are ordered lists of marks. */
  type Changeset<C, N> = seq<Mark<C, N>>

  /** A changeset together with the revision it was made in. */
  datatype TaggedChange<C, N> = TaggedChange(change: Changeset<C, N>, revision: Option<RevisionTag>)

  /** The source of a move: the marks `applyMovedChanges` works on. */
  predicate IsMoveSource<C, N>(m: Mark<C, N>) {
    m.MoveOut? || m.ReturnFrom?
  }

  /** Number of cells a mark spans. */
  function MarkCount<C, N>(m: Mark<C, N>): nat {
    match m
    case Insert(content, _, _, _, _) => |content|
    case Modify(_, _) => 1
    case NoOp(count) => count
    case Delete(count, _, _, _, _) => count
    case Revive(count, _, _, _, _, _, _, _) => count
    case MoveOut(count, _, _, _, _) => count
    case ReturnFrom(count, _, _, _, _, _) => count
    case MoveIn(count, _, _, _) => count
    case ReturnTo(count, _, _, _, _, _) => count
  }

  /** Whether the cells a mark targets are empty in the input context. */
  predicate AreInputCellsEmpty<C, N>(m: Mark<C, N>) {
    match m
    case NoOp(_) => false
    case Insert(_, _, _, _, _) => true
    case MoveIn(_, _, _, _) => true
    case Delete(_, _, _, _, cellId) => cellId.Some?
    case Revive(_, _, cellId, _, _, _, _, _) => cellId.Some?
    case Modify(_, cellId) => cellId.Some?
    case MoveOut(_, _, _, _, cellId) => cellId.Some?
    case ReturnFrom(_, _, _, _, cellId, _) => cellId.Some?
    case ReturnTo(_, _, _, cellId, _, _) => cellId.Some?
  }

  /** Number of input cells a mark consumes: none when its input cells are empty. */
  function GetInputLength<C, N>(m: Mark<C, N>): (n: nat)
    ensures n <= MarkCount(m)
    ensures n == 0 <==> AreInputCellsEmpty(m) || MarkCount(m) == 0
  {
    if AreInputCellsEmpty(m) then 0 else MarkCount(m)
  }

  /** `isConflictedReattach`: the mark is a reattach whose reattach is conflicted. */
  predicate IsConflictedReattach<C, N>(m: Mark<C, N>) {
    (m.Revive? || m.ReturnTo?) && m.reattachConflicted
  }

  /** Shifts the local id of an optional cell identity by `offset`. */
  function OffsetCell(cell: Option<ChangeAtomId>, offset: int): Option<ChangeAtomId> {
    match cell
    case None => None
    case Some(c) => Some(c.(localId := c.localId + offset))
  }

  /**
   * The part of a move-source mark that starts `offset` cells into it and spans
   * `length` cells: ids and cell ids advance by one per cell.
   */
  function Restrict<C, N>(m: Mark<C, N>, offset: int, length: nat): (r: Mark<C, N>)
    requires IsMoveSource(m)
    ensures IsMoveSource(r) && r.MoveOut? == m.MoveOut?
    ensures r.id == m.id + offset && r.count == length
    ensures r.revision == m.revision && r.changes == m.changes
  {
    match m
    case MoveOut(_, id, revision, changes, cellId) =>
      MoveOut(length, id + offset, revision, changes, OffsetCell(cellId, offset))
    case ReturnFrom(_, id, revision, changes, cellId, isDstConflicted) =>
      ReturnFrom(length, id + offset, revision, changes, OffsetCell(cellId, offset), isDstConflicted)
  }

  lemma RestrictTwice<C, N>(m: Mark<C, N>, a: int, la: nat, b: int, lb: nat)
    requires IsMoveSource(m)
    ensures Restrict(Restrict(m, a, la), b, lb) == Restrict(m, a + b, lb)
  {
    match m.cellId
    case None =>
    case Some(c) =>
      assert OffsetCell(OffsetCell(m.cellId, a), b) == OffsetCell(m.cellId, a + b);
  }

  /**
   * `splitMark(mark, length)`: the first `length` cells of a move-source mark and
   * the rest. The source rejects a split point outside (0, count).
   */
  function SplitMark<C, N>(m: Mark<C, N>, length: int): (r: (Mark<C, N>, Mark<C, N>))
    requires IsMoveSource(m) && 0 < length < m.count
    ensures r.0 == Restrict(m, 0, length) && r.1 == Restrict(m, length, m.count - length)
    ensures r.0.count == length && r.1.count == m.count - length
    ensures r.0.id == m.id && r.1.id == m.id + length
  {
    (Restrict(m, 0, length), Restrict(m, length, m.count - length))
  }

  /** `withNodeChange(mark, change)`: the mark with its node change replaced. */
  function WithNodeChange<C, N>(m: Mark<C, N>, change: Option<C>): (r: Mark<C, N>)
    requires m.Insert? || m.Delete? || m.Revive? || IsMoveSource(m)
    ensures r.Insert? == m.Insert? && r.Delete? == m.Delete? && r.Revive? == m.Revive?
    ensures r.MoveOut? == m.MoveOut? && r.ReturnFrom? == m.ReturnFrom?
    ensures r.changes == change
    ensures r.(changes := m.changes) == m
  {
    m.(changes := change)
  }
}
