/** Where the one incomplete versionstamp of an encoding is, if there is one. */
module VersionstampOffsets {
  datatype VersionstampOffset =
    | NoStamp(size: nat)
    | OneIncomplete(offset: nat)
    | MultipleIncomplete
  {
    function AddSize(r: nat): VersionstampOffset {
      if NoStamp? then NoStamp(size + r) else this
    }

    /** The offset of two consecutive parts, this one first. */
    function Add(rhs: VersionstampOffset): VersionstampOffset {
      match this
      case NoStamp(size) =>
        if rhs.NoStamp? then NoStamp(size + rhs.size)
        else if rhs.OneIncomplete? then OneIncomplete(size + rhs.offset)
        else MultipleIncomplete
      case OneIncomplete(_) =>
        if rhs.NoStamp? then this else MultipleIncomplete
      case MultipleIncomplete =>
        MultipleIncomplete
    }
  }
}
