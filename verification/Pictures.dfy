// Picture buffers and the snapshot ("field view") of one that the ordering
// rules of the decoded picture buffer work on.
module Pictures {

  // i1_field_type
  const TOP_FIELD := 0
  const BOTTOM_FIELD := 1

  // i4_used_as_ref and reference_type
  const INVALID := -1
  const UNUSED_FOR_REF := 0
  const LONG_TERM_REF := 1
  const SHORT_TERM_REF := 2

  class PicBuf {
    var absPoc: int
    var usedAsRef: int
    var frameNum: int
    var longTermFrameIdx: int
    var fieldType: int
    var bufId: int

    constructor ()
    {
    }
  }

  // What the reference lists see of a picture: its identity and the fields the
  // list operations compare. usedAsRef and bufId are not part of the view.
  datatype Field = Field(pic: PicBuf, frameNum: int, poc: int, parity: int, longIdx: int)

  function View(p: PicBuf): Field
    reads p`frameNum, p`absPoc, p`fieldType, p`longTermFrameIdx
  {
    Field(p, p.frameNum, p.absPoc, p.fieldType, p.longTermFrameIdx)
  }
}
