/** The input sources the manager registers and switches between, seen only
    through what the manager uses of them: a type tag, the built-in flag, the
    name and creation order the manager stamps, and the pause flag it sets. */
module Sources {

  /** The tag SourceType.fromClass derives from a source's concrete class. */
  datatype SourceType = IMAGE | CAMERA | VIDEO | UNKNOWN

  /** Camera and video sources are slow to open: the manager shows a
      cancellable "Opening source..." dialog while they open. */
  predicate OpensSlowly(kind: SourceType)
  {
    kind == CAMERA || kind == VIDEO
  }

  /** An OpenCV matrix, opaque except for its pixels and hence its emptiness. */
  datatype Mat = Mat(pixels: seq<int>) {
    predicate Empty()
    {
      |pixels| == 0
    }
  }

  /** The outcome of one call to a source's update(): a matrix, a null
      reference, or an exception. */
  datatype Pull = Frame(mat: Mat) | NoFrame | Threw

  /** A frame worth keeping: non-null and non-empty. */
  predicate IsFresh(p: Pull)
  {
    p.Frame? && !p.mat.Empty()
  }

  class InputSource {
    /** Stamped by the manager at registration. */
    var name: string
    /** The source's class, fixed at construction. */
    const kind: SourceType
    /** Built-in sources cannot be deleted and are never persisted. */
    const isDefault: bool
    /** Ordering key for display; -1 until the manager assigns one. */
    var createdOn: int
    /** Last value passed to setPaused. */
    var paused: bool

    constructor (kind: SourceType, isDefault: bool, createdOn: int)
      ensures this.kind == kind && this.isDefault == isDefault && this.createdOn == createdOn
      ensures name == "" && !paused
    {
      this.name := "";
      this.kind := kind;
      this.isDefault := isDefault;
      this.createdOn := createdOn;
      this.paused := false;
    }
  }

  /** Sorted for display: creation order ascending. */
  ghost predicate SortedByCreation(s: seq<InputSource>)
    reads s
  {
    forall i, j :: 0 <= i < j < |s| ==> s[i].createdOn <= s[j].createdOn
  }
}
