/** The planner's records: a slot drawn on a page and a note to place in one. */
module LayoutTypes {
  import opened Wrappers

  /** A frame of the layout, in points, with the page it belongs to. */
  datatype Slot = Slot(
    pageName: string, pageIndex: int, slotId: string,
    x: real, y: real, width: real, height: real)

  /** A note: title and body character counts and the number of images it carries. */
  datatype Note = Note(
    pageHint: string, docxFile: Option<string>, noteIndex: int,
    title: string, bodyText: string, titleChars: int, bodyChars: int, imageCount: int)
  {
    predicate HasImage() {
      imageCount > 0
    }
  }

  /** Python's `max` on two integers. */
  function IntMax(a: int, b: int): int {
    if a >= b then a else b
  }
}
