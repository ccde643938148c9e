/**
 * The cross-field manager: a store that correlates the two ends of a move.
 * Entries are keyed by a target side and a revision and cover a range of ids
 * `[start, start + length)`; `get` answers the first entry that overlaps a queried
 * range and `set` (with overwrite) replaces whatever the same key stored for the
 * range it writes.
 */
module CrossField {
  import opened Wrappers
  import opened SequenceFieldFormat

  datatype CrossFieldTarget = Source | Destination

  datatype Entry<C> = Entry(target: CrossFieldTarget, revision: Option<RevisionTag>,
                            start: int, length: nat, value: C)
  {
    function End(): int { start + length }
  }

  predicate HasKey<C>(e: Entry<C>, target: CrossFieldTarget, revision: Option<RevisionTag>) {
    e.target == target && e.revision == revision
  }

  /** The entry's range and `[id, id + count)` share at least one id. */
  predicate Overlaps<C>(e: Entry<C>, id: int, count: nat) {
    e.start < id + count && id < e.start + e.length
  }

  /**
   * The entry a `get` answers: among the entries with the key that overlap
   * `[id, id + count)`, one with the least start (the earliest stored one on a tie).
   */
  function Lookup<C>(entries: seq<Entry<C>>, target: CrossFieldTarget, revision: Option<RevisionTag>,
                     id: int, count: nat): (r: Option<Entry<C>>)
    ensures r.Some? ==> r.value in entries && HasKey(r.value, target, revision) && Overlaps(r.value, id, count)
    ensures r.Some? ==> forall e :: e in entries && HasKey(e, target, revision) && Overlaps(e, id, count) ==>
                                      r.value.start <= e.start
    ensures r.None? <==> forall e :: e in entries ==> !(HasKey(e, target, revision) && Overlaps(e, id, count))
    decreases |entries|
  {
    if entries == [] then None
    else
      var rest := Lookup(entries[1..], target, revision, id, count);
      var e := entries[0];
      if HasKey(e, target, revision) && Overlaps(e, id, count) && (rest.None? || e.start <= rest.value.start)
      then Some(e)
      else rest
  }

  /**
   * The entry found for a range is also the one found for any part of that range
   * it still overlaps.
   */
  lemma {:induction false} LookupNarrow<C>(entries: seq<Entry<C>>, target: CrossFieldTarget,
                                           revision: Option<RevisionTag>, id: int, count: nat,
                                           id2: int, count2: nat)
    requires Lookup(entries, target, revision, id, count).Some?
    requires id <= id2 && id2 + count2 <= id + count
    requires Overlaps(Lookup(entries, target, revision, id, count).value, id2, count2)
    ensures Lookup(entries, target, revision, id2, count2) == Lookup(entries, target, revision, id, count)
    decreases |entries|
  {
    var e0 := entries[0];
    var restQ := Lookup(entries[1..], target, revision, id, count);
    var restR := Lookup(entries[1..], target, revision, id2, count2);
    var found := Lookup(entries, target, revision, id, count).value;
    if found == e0 && HasKey(e0, target, revision) && Overlaps(e0, id, count)
       && (restQ.None? || e0.start <= restQ.value.start) {
      if restR.Some? {
        assert restR.value in entries[1..] && Overlaps(restR.value, id, count);
      }
    } else {
      LookupNarrow(entries[1..], target, revision, id, count, id2, count2);
      if HasKey(e0, target, revision) && Overlaps(e0, id2, count2) {
        assert Overlaps(e0, id, count);
      }
    }
  }

  /**
   * The entries left once the range of `n` is overwritten: entries with the key
   * of `n` keep only their parts outside that range.
   */
  function Trim<C>(entries: seq<Entry<C>>, n: Entry<C>): (r: seq<Entry<C>>)
    ensures forall e :: e in r && HasKey(e, n.target, n.revision) ==> !Overlaps(e, n.start, n.length)
    ensures forall e :: e in entries && !HasKey(e, n.target, n.revision) ==> e in r
  {
    if entries == [] then []
    else
      var e := entries[0];
      var kept :=
        if HasKey(e, n.target, n.revision) && Overlaps(e, n.start, n.length) then
          (if e.start < n.start then [e.(length := n.start - e.start)] else [])
          + (if n.End() < e.End() then [e.(start := n.End(), length := e.End() - n.End())] else [])
        else [e];
      kept + Trim(entries[1..], n)
  }

  /** The store after `set(target, revision, start, length, value, true)`. */
  function Overwrite<C>(entries: seq<Entry<C>>, n: Entry<C>): seq<Entry<C>> {
    Trim(entries, n) + [n]
  }

  /** A `get` of exactly the range just written answers the written entry. */
  lemma OverwriteThenLookup<C>(entries: seq<Entry<C>>, n: Entry<C>)
    requires n.length > 0
    ensures Lookup(Overwrite(entries, n), n.target, n.revision, n.start, n.length) == Some(n)
  {
    var r := Lookup(Overwrite(entries, n), n.target, n.revision, n.start, n.length);
    assert n in Overwrite(entries, n);
  }

  class CrossFieldManager<C> {
    /** The stored entries, oldest first. */
    var entries: seq<Entry<C>>

    constructor ()
      ensures entries == []
    {
      entries := [];
    }

    /** `get(target, revision, id, count)`: an entry with the key overlapping the range, if any. */
    function Get(target: CrossFieldTarget, revision: Option<RevisionTag>, id: int, count: nat): (r: Option<Entry<C>>)
      reads this
      ensures r.Some? ==> r.value in entries && HasKey(r.value, target, revision) && Overlaps(r.value, id, count)
      ensures r.Some? ==> forall e :: e in entries && HasKey(e, target, revision) && Overlaps(e, id, count) ==>
                                        r.value.start <= e.start
      ensures r.None? <==> forall e :: e in entries ==> !(HasKey(e, target, revision) && Overlaps(e, id, count))
      ensures r == Lookup(entries, target, revision, id, count)
    {
      Lookup(entries, target, revision, id, count)
    }

    /** `set(target, revision, id, count, value, true)`. */
    method Set(target: CrossFieldTarget, revision: Option<RevisionTag>, id: int, count: nat, value: C)
      modifies this
      ensures entries == Overwrite(old(entries), Entry(target, revision, id, count, value))
      ensures count > 0 ==> Get(target, revision, id, count) == Some(Entry(target, revision, id, count, value))
    {
      entries := Overwrite(entries, Entry(target, revision, id, count, value));
      if count > 0 {
        OverwriteThenLookup(old(entries), Entry(target, revision, id, count, value));
      }
    }
  }
}
