/**
 * Paths of summary nodes: escaped path segments joined by "/", the full path of a
 * node and of its children, and the choice of the ".channels" subtree that holds
 * a node's children in newer snapshots.
 */
module SummarizerNodeUtils {
  import opened Wrappers

  /* ---------------------------------------------------------------------------
   * encodeURIComponent
   * ------------------------------------------------------------------------- */

  /** The characters `encodeURIComponent` leaves as they are. */
  predicate IsUnreserved(c: char) {
    ('A' <= c <= 'Z') || ('a' <= c <= 'z') || ('0' <= c <= '9')
    || c == '-' || c == '_' || c == '.' || c == '!' || c == '~' || c == '*' || c == '\'' || c == '(' || c == ')'
  }

  /** Upper-case hexadecimal digit of `n`. */
  function HexDigit(n: nat): (c: char)
    requires n < 16
    ensures ('0' <= c <= '9') || ('A' <= c <= 'F')
  {
    if n < 10 then (('0' as int) + n) as char else (('A' as int) + n - 10) as char
  }

  /** The UTF-8 encoding of a Unicode scalar value. */
  function Utf8(c: char): (bytes: seq<nat>)
    ensures 1 <= |bytes| <= 4
    ensures forall i :: 0 <= i < |bytes| ==> bytes[i] < 256
    ensures (c as int < 0x80) == (|bytes| == 1)
  {
    var v := c as int;
    if v < 0x80 then [v]
    else if v < 0x800 then [0xC0 + v / 0x40, 0x80 + v % 0x40]
    else if v < 0x1_0000 then [0xE0 + v / 0x1000, 0x80 + (v / 0x40) % 0x40, 0x80 + v % 0x40]
    else [0xF0 + v / 0x4_0000, 0x80 + (v / 0x1000) % 0x40, 0x80 + (v / 0x40) % 0x40, 0x80 + v % 0x40]
  }

  /** `%XY` for every byte. */
  function PercentEncode(bytes: seq<nat>): (s: string)
    requires forall i :: 0 <= i < |bytes| ==> bytes[i] < 256
    ensures |s| == 3 * |bytes|
    ensures forall i :: 0 <= i < |s| ==> s[i] == '%' || ('0' <= s[i] <= '9') || ('A' <= s[i] <= 'F')
  {
    if bytes == [] then []
    else ['%', HexDigit(bytes[0] / 16), HexDigit(bytes[0] % 16)] + PercentEncode(bytes[1..])
  }

  function EscapeChar(c: char): string {
    if IsUnreserved(c) then [c] else PercentEncode(Utf8(c))
  }

  /**
   * `encodeURIComponent`: unreserved characters are kept, every other character is
   * written as the percent-encoded bytes of its UTF-8 form. The result never
   * contains "/", and a string of unreserved characters is its own escape.
   */
  function Escape(s: string): (r: string)
    ensures forall i :: 0 <= i < |r| ==> r[i] != '/'
    ensures (forall i :: 0 <= i < |s| ==> IsUnreserved(s[i])) ==> r == s
    ensures |r| >= |s|
  {
    if s == [] then [] else EscapeChar(s[0]) + Escape(s[1..])
  }

  /* ---------------------------------------------------------------------------
   * EscapedPath
   * ------------------------------------------------------------------------- */

  const Separator: char := '/'

  /** A path whose segments are escaped and joined by "/". */
  datatype EscapedPath = EscapedPath(path: string) {
    /** `concat`: this path, "/", then the other path. */
    function Concat(other: EscapedPath): EscapedPath {
      EscapedPath(path + [Separator] + other.path)
    }

    /** `toString` */
    function ToString(): string {
      path
    }
  }

  /** `EscapedPath.create`: a one-segment path holding the escaped `path`. */
  function Create(path: string): EscapedPath {
    EscapedPath(Escape(path))
  }

  /** A created path has exactly one segment, the escaped string. */
  lemma CreateSegments(path: string)
    ensures Split(Create(path).path) == [Escape(path)]
  {
    NoSeparatorSplit(Escape(path));
  }

  /** Index of the last "/" of `s`, or -1. */
  function LastSeparator(s: string): (i: int)
    ensures -1 <= i < |s|
    ensures i >= 0 ==> s[i] == Separator
    ensures forall j :: i < j < |s| ==> s[j] != Separator
  {
    if s == [] then -1
    else if s[|s| - 1] == Separator then |s| - 1
    else LastSeparator(s[..|s| - 1])
  }

  /** The segments of `s` between its separators ("" has one empty segment). */
  function Split(s: string): (parts: seq<string>)
    ensures |parts| >= 1
    decreases |s|
  {
    var i := LastSeparator(s);
    if i < 0 then [s] else Split(s[..i]) + [s[i + 1..]]
  }

  lemma NoSeparatorSplit(s: string)
    requires forall i :: 0 <= i < |s| ==> s[i] != Separator
    ensures Split(s) == [s]
  {
    assert LastSeparator(s) < 0;
  }

  /** When `s[k]` is a separator and none follows it, it is the last separator. */
  lemma {:induction false} LastSeparatorSkips(s: string, k: int)
    requires 0 <= k < |s| && s[k] == Separator
    requires forall j :: k < j < |s| ==> s[j] != Separator
    ensures LastSeparator(s) == k
    decreases |s|
  {
    if k < |s| - 1 {
      LastSeparatorSkips(s[..|s| - 1], k);
    }
  }

  /** Splitting at the last separator. */
  lemma SplitAtLast(s: string, k: int)
    requires 0 <= k < |s| && s[k] == Separator
    requires forall j :: k < j < |s| ==> s[j] != Separator
    ensures Split(s) == Split(s[..k]) + [s[k + 1..]]
  {
    LastSeparatorSkips(s, k);
  }

  /** Splitting a "/"-joined string gives the segments of both sides. */
  lemma {:induction false} SplitJoin(a: string, b: string)
    ensures Split(a + [Separator] + b) == Split(a) + Split(b)
    decreases |b|
  {
    var s := a + [Separator] + b;
    var j := LastSeparator(b);
    if j < 0 {
      SplitAtLast(s, |a|);
      assert s[..|a|] == a && s[|a| + 1..] == b;
      NoSeparatorSplit(b);
    } else {
      var k := |a| + 1 + j;
      SplitAtLast(s, k);
      assert s[..k] == a + [Separator] + b[..j];
      assert s[k + 1..] == b[j + 1..];
      SplitJoin(a, b[..j]);
      SplitAtLast(b, j);
    }
  }

  /** `a.concat(b)` has the segments of `a` followed by those of `b`. */
  lemma ConcatSegments(a: EscapedPath, b: EscapedPath)
    ensures Split(a.Concat(b).path) == Split(a.path) + Split(b.path)
  {
    SplitJoin(a.path, b.path);
  }

  /** The path `createAndConcat` builds: the first part, then each further part concatenated. */
  function JoinParts(parts: seq<string>): EscapedPath
    decreases |parts|
  {
    if |parts| <= 1 then Create(if parts == [] then "" else parts[0])
    else JoinParts(parts[..|parts| - 1]).Concat(Create(parts[|parts| - 1]))
  }

  /** Escapes every part. */
  function EscapeAll(parts: seq<string>): (r: seq<string>)
    ensures |r| == |parts| && forall i :: 0 <= i < |parts| ==> r[i] == Escape(parts[i])
  {
    if parts == [] then []
    else
      var init := parts[..|parts| - 1];
      assert forall i :: 0 <= i < |init| ==> init[i] == parts[i];
      EscapeAll(init) + [Escape(parts[|parts| - 1])]
  }

  /**
   * The segments of the joined path are exactly the escaped parts, in order;
   * no parts gives the single empty segment.
   */
  lemma {:induction false} JoinPartsSegments(parts: seq<string>)
    ensures Split(JoinParts(parts).path) == if parts == [] then [""] else EscapeAll(parts)
    decreases |parts|
  {
    if |parts| > 1 {
      var init := parts[..|parts| - 1];
      var last := parts[|parts| - 1];
      JoinPartsSegments(init);
      assert JoinParts(parts) == JoinParts(init).Concat(Create(last));
      ConcatSegments(JoinParts(init), Create(last));
      CreateSegments(last);
      assert EscapeAll(parts) == EscapeAll(init) + [Escape(last)];
    } else if |parts| == 1 {
      CreateSegments(parts[0]);
      assert EscapeAll(parts) == [Escape(parts[0])];
    } else {
      CreateSegments("");
    }
  }

  lemma JoinPartsStep(parts: seq<string>, i: nat)
    requires 1 <= i < |parts|
    ensures JoinParts(parts[..i + 1]) == JoinParts(parts[..i]).Concat(Create(parts[i]))
  {
    var prefix := parts[..i + 1];
    assert prefix[..|prefix| - 1] == parts[..i];
    assert prefix[|prefix| - 1] == parts[i];
  }

  /** `EscapedPath.createAndConcat` */
  method CreateAndConcat(pathParts: seq<string>) returns (ret: EscapedPath)
    ensures ret == JoinParts(pathParts)
    ensures Split(ret.path) == if pathParts == [] then [""] else EscapeAll(pathParts)
  {
    JoinPartsSegments(pathParts);
    // `pathParts[0] ?? ""`
    ret := Create(if pathParts == [] then "" else pathParts[0]);
    if pathParts == [] {
      return;
    }
    for i := 1 to |pathParts|
      invariant ret == JoinParts(pathParts[..i])
    {
      JoinPartsStep(pathParts, i);
      ret := ret.Concat(Create(pathParts[i]));
    }
    assert pathParts[..|pathParts|] == pathParts;
  }

  /* ---------------------------------------------------------------------------
   * SummaryNode
   * ------------------------------------------------------------------------- */

  /** Information about a summary relevant to one node of the summary tree. */
  class SummaryNode {
    /** Last sequence number seen when the summary was created. */
    const referenceSequenceNumber: int
    /** Full path to the parent node; None for the root. */
    const basePath: Option<EscapedPath>
    /** Path to this node from its parent. */
    const localPath: EscapedPath
    /** Path from this node to its innermost base summary. */
    var additionalPath: Option<EscapedPath>

    constructor (referenceSequenceNumber: int, basePath: Option<EscapedPath>, localPath: EscapedPath,
                 additionalPath: Option<EscapedPath>)
      ensures this.referenceSequenceNumber == referenceSequenceNumber
      ensures this.basePath == basePath && this.localPath == localPath
      ensures this.additionalPath == additionalPath
    {
      this.referenceSequenceNumber := referenceSequenceNumber;
      this.basePath := basePath;
      this.localPath := localPath;
      this.additionalPath := additionalPath;
    }

    /** `createForRoot`: the root's local path is the escaped empty string. */
    static method CreateForRoot(referenceSequenceNumber: int) returns (node: SummaryNode)
      ensures fresh(node)
      ensures node.referenceSequenceNumber == referenceSequenceNumber
      ensures node.basePath.None? && node.localPath == Create("") && node.additionalPath.None?
      ensures Split(node.FullPath().path) == [""]
    {
      node := new SummaryNode(referenceSequenceNumber, None, Create(""), None);
    }

    /** `fullPath`: the base path, then the local path. */
    function FullPath(): (r: EscapedPath)
      ensures Split(r.path) == (if basePath.Some? then Split(basePath.value.path) else []) + Split(localPath.path)
    {
      if basePath.Some? then
        ConcatSegments(basePath.value, localPath);
        basePath.value.Concat(localPath)
      else
        assert [] + Split(localPath.path) == Split(localPath.path);
        localPath
    }

    /** `fullPathForChildren`: the full path, then the additional path if any. */
    function FullPathForChildren(): (r: EscapedPath)
      reads this
      ensures Split(r.path) == Split(FullPath().path)
                               + (if additionalPath.Some? then Split(additionalPath.value.path) else [])
    {
      if additionalPath.Some? then
        ConcatSegments(FullPath(), additionalPath.value);
        FullPath().Concat(additionalPath.value)
      else
        assert Split(FullPath().path) + [] == Split(FullPath().path);
        FullPath()
    }

    /** The `additionalPath` setter: nothing else changes. */
    method SetAdditionalPath(additionalPath: Option<EscapedPath>)
      modifies this
      ensures this.additionalPath == additionalPath
    {
      this.additionalPath := additionalPath;
    }

    /**
     * `createForChild`: a node of the same summary whose path is this node's path
     * for children followed by one segment, the escaped `id`.
     */
    method CreateForChild(id: string) returns (child: SummaryNode)
      ensures fresh(child)
      ensures child.referenceSequenceNumber == referenceSequenceNumber
      ensures child.basePath == Some(FullPathForChildren()) && child.localPath == Create(id)
      ensures child.additionalPath.None?
      ensures Split(child.FullPath().path) == Split(FullPathForChildren().path) + [Escape(id)]
    {
      child := new SummaryNode(referenceSequenceNumber, Some(FullPathForChildren()), Create(id), None);
    }
  }

  /* ---------------------------------------------------------------------------
   * Subtrees
   * ------------------------------------------------------------------------- */

  /** Name of the subtree that holds a node's children in newer snapshots. */
  const ChannelsTreeName: string := ".channels"

  /** `ISnapshotTree`: blobs by name and subtrees by name. */
  datatype SnapshotTree = SnapshotTree(blobs: map<string, string>, trees: map<string, SnapshotTree>)

  /** `SummaryObject`: a tree of objects, a blob, a handle or an attachment. */
  datatype SummaryObject =
    | SummaryTree(tree: map<string, SummaryObject>)
    | SummaryBlob(content: string)
    | SummaryHandle(handle: string)
    | SummaryAttachment(id: string)

  /** `ISubtreeInfo`: where a node's children are, and the path part that leads there. */
  datatype SubtreeInfo<T> = SubtreeInfo(childrenTree: T, childrenPathPart: Option<string>)

  /** The snapshot tree reached from `t` by following an optional path part. */
  function FollowSnapshot(t: SnapshotTree, part: Option<string>): Option<SnapshotTree> {
    match part
    case None => Some(t)
    case Some(p) => if p in t.trees then Some(t.trees[p]) else None
  }

  /** The summary object reached from `t` by following an optional path part. */
  function FollowSummary(t: SummaryObject, part: Option<string>): Option<SummaryObject> {
    match part
    case None => Some(t)
    case Some(p) => if t.SummaryTree? && p in t.tree then Some(t.tree[p]) else None
  }

  /**
   * `parseSummaryForSubtrees`: the ".channels" subtree when there is one, else the
   * tree itself; the path part leads from the tree to the children tree.
   */
  function ParseSummaryForSubtrees(baseSummary: SnapshotTree): (r: SubtreeInfo<SnapshotTree>)
    ensures r.childrenPathPart.Some? <==> ChannelsTreeName in baseSummary.trees
    ensures r.childrenPathPart.Some? ==> r.childrenPathPart.value == ChannelsTreeName
    ensures FollowSnapshot(baseSummary, r.childrenPathPart) == Some(r.childrenTree)
  {
    if ChannelsTreeName in baseSummary.trees then
      SubtreeInfo(baseSummary.trees[ChannelsTreeName], Some(ChannelsTreeName))
    else
      SubtreeInfo(baseSummary, None)
  }

  /** `parseSummaryTreeForSubtrees`: the same choice over a summary tree. */
  function ParseSummaryTreeForSubtrees(summary: SummaryObject): (r: SubtreeInfo<SummaryObject>)
    requires summary.SummaryTree?
    ensures r.childrenPathPart.Some? <==> ChannelsTreeName in summary.tree
    ensures r.childrenPathPart.Some? ==> r.childrenPathPart.value == ChannelsTreeName
    ensures FollowSummary(summary, r.childrenPathPart) == Some(r.childrenTree)
  {
    if ChannelsTreeName in summary.tree then
      SubtreeInfo(summary.tree[ChannelsTreeName], Some(ChannelsTreeName))
    else
      SubtreeInfo(summary, None)
  }
}
