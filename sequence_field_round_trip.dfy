/**
 * What an inverse means for the content of a field: applying a changeset and
 * then its inverse restores the field. The content semantics below is a reference
 * definition for the marks that attach and detach nodes in place (skips, inserts,
 * deletes of filled cells, revives of emptied cells, modifies of filled cells);
 * nested node changes are not applied, only the sequence of nodes is.
 */
module SequenceFieldRoundTrip {
  import opened Wrappers
  import opened SequenceFieldFormat
  import opened CrossField
  import opened SequenceFieldInvert

  /** The marks the content semantics covers. */
  predicate Simple<C, N>(m: Mark<C, N>) {
    match m
    case NoOp(_) => true
    case Insert(_, _, _, _, transientDetach) => transientDetach.None?
    case Delete(_, _, _, _, cellId) => cellId.None?
    case Revive(count, content, cellId, _, _, _, transientDetach, conflicted) =>
      cellId.Some? && transientDetach.None? && !conflicted && |content| == count
    case Modify(_, cellId) => cellId.None?
    case MoveOut(_, _, _, _, _) => false
    case ReturnFrom(_, _, _, _, _, _) => false
    case MoveIn(_, _, _, _) => false
    case ReturnTo(_, _, _, _, _, _) => false
  }

  /** The nodes a simple mark leaves in place of the input nodes `taken` it consumes. */
  function Effect<C, N>(m: Mark<C, N>, taken: seq<N>): seq<N>
    requires Simple(m)
  {
    match m
    case NoOp(_) => taken
    case Insert(content, _, _, _, _) => content
    case Delete(_, _, _, _, _) => []
    case Revive(_, content, _, _, _, _, _, _) => content
    case Modify(_, _) => taken
  }

  /**
   * The field after `marks` is applied to the nodes `doc`, or None when a mark
   * needs more nodes than are left. Nodes after the last mark are kept.
   */
  function Apply<C, N>(marks: seq<Mark<C, N>>, doc: seq<N>): Option<seq<N>>
    decreases |marks|
  {
    if marks == [] then Some(doc)
    else
      var m := marks[0];
      if !Simple(m) || GetInputLength(m) > |doc| then None
      else
        match Apply(marks[1..], doc[GetInputLength(m)..])
        case None => None
        case Some(rest) => Some(Effect(m, doc[..GetInputLength(m)]) + rest)
  }

  /**
   * The reviver hands back, for every delete of `marks` applied to `doc`, the
   * nodes that delete removed, at the delete's input index (counted from `base`).
   */
  ghost predicate RevivesDeleted<C, N>(marks: seq<Mark<C, N>>, doc: seq<N>, base: int, revision: RevisionTag,
                                       reviver: NodeReviver<N>)
    decreases |marks|
  {
    marks != [] && GetInputLength(marks[0]) <= |doc| ==>
      (marks[0].Delete? && marks[0].count <= |doc| ==> reviver(revision, base, marks[0].count) == doc[..marks[0].count])
      && RevivesDeleted(marks[1..], doc[GetInputLength(marks[0])..], base + GetInputLength(marks[0]),
                        revision, reviver)
  }

  /** The inverse of a simple mark found at input index `index`. */
  function InvertSimple<C, N>(m: Mark<C, N>, index: int, revision: RevisionTag, reviver: NodeReviver<N>,
                              invertChild: NodeChangeInverter<C>): Mark<C, N>
    requires Simple(m)
  {
    match m
    case NoOp(count) => NoOp(count)
    case Insert(content, id, _, changes, _) =>
      Delete(|content|, id, None, InvertNodeChange(changes, index, invertChild), None)
    case Delete(count, id, rev, changes, _) =>
      Revive(count, reviver(revision, index, count), Some(ChangeAtomId(Some(rev.GetOr(revision)), id)),
             Some(rev.GetOr(revision)), None, InvertNodeChange(changes, index, invertChild), None, false)
    case Revive(count, _, cellId, _, _, changes, _, _) =>
      Delete(count, cellId.value.localId, None, InvertNodeChange(changes, index, invertChild), None)
    case Modify(change, _) => Modify(invertChild(change, index), None)
  }

  /** The inverse of a list of simple marks, the first found at input index `base`. */
  function InvertFrom<C, N>(marks: seq<Mark<C, N>>, base: int, revision: RevisionTag, reviver: NodeReviver<N>,
                            invertChild: NodeChangeInverter<C>): seq<Mark<C, N>>
    requires forall i :: 0 <= i < |marks| ==> Simple(marks[i])
    decreases |marks|
  {
    if marks == [] then []
    else
      [InvertSimple(marks[0], base, revision, reviver, invertChild)]
      + InvertFrom(marks[1..], base + GetInputLength(marks[0]), revision, reviver, invertChild)
  }

  /** `invertMark` inverts a simple mark to its simple inverse, storing nothing. */
  lemma InvertMarkSimple<C, N>(m: Mark<C, N>, index: int, revision: RevisionTag, reviver: NodeReviver<N>,
                               invertChild: NodeChangeInverter<C>, entries: seq<Entry<C>>)
    requires Simple(m)
    ensures InvertMark(m, index, Some(revision), reviver, invertChild, entries)
            == Step(Ok([InvertSimple(m, index, revision, reviver, invertChild)]), None)
  {
  }

  /** The input length of a non-empty list: its head's, then the rest's. */
  lemma InputLengthFirst<C, N>(marks: seq<Mark<C, N>>)
    requires marks != []
    ensures InputLength(marks) == GetInputLength(marks[0]) + InputLength(marks[1..])
  {
    InputLengthAppend([marks[0]], marks[1..]);
    assert [marks[0]] + marks[1..] == marks;
    assert [marks[0]][..0] == [];
  }

  /** Inverting one more mark appends its inverse, found after the input the list consumes. */
  lemma {:induction false} InvertFromAppend<C, N>(marks: seq<Mark<C, N>>, m: Mark<C, N>, base: int,
                                                  revision: RevisionTag, reviver: NodeReviver<N>,
                                                  invertChild: NodeChangeInverter<C>)
    requires forall i :: 0 <= i < |marks| ==> Simple(marks[i])
    requires Simple(m)
    ensures forall i :: 0 <= i < |marks + [m]| ==> Simple((marks + [m])[i])
    ensures InvertFrom(marks + [m], base, revision, reviver, invertChild)
            == InvertFrom(marks, base, revision, reviver, invertChild)
               + [InvertSimple(m, base + InputLength(marks), revision, reviver, invertChild)]
    decreases |marks|
  {
    var all := marks + [m];
    assert forall i :: 0 <= i < |all| ==> Simple(all[i]);
    if marks == [] {
      assert all == [m];
    } else {
      var k := GetInputLength(marks[0]);
      var head := InvertSimple(marks[0], base, revision, reviver, invertChild);
      var last := InvertSimple(m, base + InputLength(marks), revision, reviver, invertChild);
      assert all[0] == marks[0] && all[1..] == marks[1..] + [m];
      InvertFromFirst(all, base, revision, reviver, invertChild);
      InvertFromFirst(marks, base, revision, reviver, invertChild);
      InputLengthFirst(marks);
      InvertFromAppend(marks[1..], m, base + k, revision, reviver, invertChild);
      var rest := InvertFrom(marks[1..], base + k, revision, reviver, invertChild);
      assert [head] + (rest + [last]) == ([head] + rest) + [last];
    }
  }

  /**
   * On simple marks, the main inversion pass succeeds, stores nothing, and yields
   * the reference inverse.
   */
  lemma {:induction false} InvertPrefixSimple<C, N>(marks: seq<Mark<C, N>>, revision: RevisionTag,
                                                    reviver: NodeReviver<N>, invertChild: NodeChangeInverter<C>,
                                                    entries: seq<Entry<C>>)
    requires forall i :: 0 <= i < |marks| ==> Simple(marks[i])
    ensures InvertPrefix(marks, Some(revision), reviver, invertChild, entries)
            == Pass(Ok(InvertFrom(marks, 0, revision, reviver, invertChild)), entries)
    decreases |marks|
  {
    if marks != [] {
      var init := marks[..|marks| - 1];
      var last := marks[|marks| - 1];
      InvertPrefixSimple(init, revision, reviver, invertChild, entries);
      InvertMarkSimple(last, InputLength(init), revision, reviver, invertChild, entries);
      InvertFromAppend(init, last, 0, revision, reviver, invertChild);
      assert init + [last] == marks;
    }
  }

  /** A simple mark's inverse consumes what the mark left and leaves what the mark consumed. */
  lemma EffectInverse<C, N>(m: Mark<C, N>, taken: seq<N>, index: int, revision: RevisionTag,
                            reviver: NodeReviver<N>, invertChild: NodeChangeInverter<C>)
    requires Simple(m) && |taken| == GetInputLength(m)
    requires m.Delete? ==> reviver(revision, index, m.count) == taken
    ensures var inverse := InvertSimple(m, index, revision, reviver, invertChild);
            Simple(inverse) && GetInputLength(inverse) == |Effect(m, taken)|
            && Effect(inverse, Effect(m, taken)) == taken
  {
  }

  /** One step of `Apply` on a list whose head is known. */
  lemma ApplyCons<C, N>(h: Mark<C, N>, tail: seq<Mark<C, N>>, used: seq<N>, after: seq<N>)
    requires Simple(h) && GetInputLength(h) == |used|
    requires Apply(tail, after).Some?
    ensures Apply([h] + tail, used + after) == Some(Effect(h, used) + Apply(tail, after).value)
  {
    assert ([h] + tail)[1..] == tail;
    assert (used + after)[|used|..] == after;
    assert (used + after)[..|used|] == used;
  }

  /** `Apply` on a non-empty list that applies: the head's effect followed by the rest's result. */
  lemma ApplyFirst<C, N>(marks: seq<Mark<C, N>>, doc: seq<N>)
    requires marks != [] && Apply(marks, doc).Some?
    ensures Simple(marks[0]) && GetInputLength(marks[0]) <= |doc|
    ensures Apply(marks[1..], doc[GetInputLength(marks[0])..]).Some?
    ensures Apply(marks, doc)
            == Some(Effect(marks[0], doc[..GetInputLength(marks[0])])
                    + Apply(marks[1..], doc[GetInputLength(marks[0])..]).value)
  {
  }

  /** `InvertFrom` on a non-empty list: the head's inverse followed by the rest's. */
  lemma InvertFromFirst<C, N>(marks: seq<Mark<C, N>>, base: int, revision: RevisionTag, reviver: NodeReviver<N>,
                              invertChild: NodeChangeInverter<C>)
    requires marks != [] && forall i :: 0 <= i < |marks| ==> Simple(marks[i])
    ensures forall i :: 0 <= i < |marks[1..]| ==> Simple(marks[1..][i])
    ensures InvertFrom(marks, base, revision, reviver, invertChild)
            == [InvertSimple(marks[0], base, revision, reviver, invertChild)]
               + InvertFrom(marks[1..], base + GetInputLength(marks[0]), revision, reviver, invertChild)
  {
  }

  /** `RevivesDeleted` on a non-empty list: the head's delete and the rest, from the next input index. */
  lemma RevivesDeletedFirst<C, N>(marks: seq<Mark<C, N>>, doc: seq<N>, base: int, revision: RevisionTag,
                                  reviver: NodeReviver<N>)
    requires marks != [] && Simple(marks[0]) && GetInputLength(marks[0]) <= |doc|
    requires RevivesDeleted(marks, doc, base, revision, reviver)
    ensures marks[0].Delete? ==> reviver(revision, base, marks[0].count) == doc[..GetInputLength(marks[0])]
    ensures RevivesDeleted(marks[1..], doc[GetInputLength(marks[0])..], base + GetInputLength(marks[0]),
                           revision, reviver)
  {
  }

  /** One step of the round trip: the head's inverse restores its nodes in front of the rest's. */
  lemma RoundTripStep<C, N>(m: Mark<C, N>, doc: seq<N>, k: nat, after: seq<N>, tail: seq<Mark<C, N>>, base: int,
                            revision: RevisionTag, reviver: NodeReviver<N>, invertChild: NodeChangeInverter<C>)
    requires Simple(m) && k == GetInputLength(m) && k <= |doc|
    requires m.Delete? ==> reviver(revision, base, m.count) == doc[..k]
    requires Apply(tail, after) == Some(doc[k..])
    ensures Apply([InvertSimple(m, base, revision, reviver, invertChild)] + tail, Effect(m, doc[..k]) + after)
            == Some(doc)
  {
    EffectInverse(m, doc[..k], base, revision, reviver, invertChild);
    ApplyCons(InvertSimple(m, base, revision, reviver, invertChild), tail, Effect(m, doc[..k]), after);
    assert doc[..k] + doc[k..] == doc;
  }

  /** Applying the inverse of `marks` to the field `marks` produced from `doc` gives back `doc`. */
  lemma {:induction false} RoundTripFrom<C, N>(marks: seq<Mark<C, N>>, doc: seq<N>, base: int, revision: RevisionTag,
                                               reviver: NodeReviver<N>, invertChild: NodeChangeInverter<C>)
    requires forall i :: 0 <= i < |marks| ==> Simple(marks[i])
    requires Apply(marks, doc).Some?
    requires RevivesDeleted(marks, doc, base, revision, reviver)
    ensures Apply(InvertFrom(marks, base, revision, reviver, invertChild), Apply(marks, doc).value) == Some(doc)
    decreases |marks|
  {
    if marks != [] {
      var k := GetInputLength(marks[0]);
      ApplyFirst(marks, doc);
      InvertFromFirst(marks, base, revision, reviver, invertChild);
      RevivesDeletedFirst(marks, doc, base, revision, reviver);
      RoundTripFrom(marks[1..], doc[k..], base + k, revision, reviver, invertChild);
      RoundTripStep(marks[0], doc, k, Apply(marks[1..], doc[k..]).value,
                    InvertFrom(marks[1..], base + k, revision, reviver, invertChild),
                    base, revision, reviver, invertChild);
    }
  }

  /**
   * Inverting a changeset of simple marks under a revision, with a reviver that
   * hands back what each delete removed, yields a changeset that undoes it.
   */
  lemma RoundTrip<C, N>(marks: seq<Mark<C, N>>, doc: seq<N>, revision: RevisionTag, reviver: NodeReviver<N>,
                        invertChild: NodeChangeInverter<C>, entries: seq<Entry<C>>)
    requires forall i :: 0 <= i < |marks| ==> Simple(marks[i])
    requires Apply(marks, doc).Some?
    requires RevivesDeleted(marks, doc, 0, revision, reviver)
    ensures var pass := InvertPrefix(marks, Some(revision), reviver, invertChild, entries);
            pass.out.Ok? && pass.entries == entries
            && Apply(pass.out.value, Apply(marks, doc).value) == Some(doc)
  {
    InvertPrefixSimple(marks, revision, reviver, invertChild, entries);
    RoundTripFrom(marks, doc, 0, revision, reviver, invertChild);
  }
}
