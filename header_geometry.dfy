/**
 * The geometry the panel gives its header children for a header width:
 * the full-width "open members" region, the add-member button right-aligned
 * inside it, and the title wrap that fills the space to the button's left.
 * Positions are those of a left-to-right layout.
 */
module HeaderGeometry {
  import opened Domain

  /**
   * openMembers  the clickable region, in header coordinates
   * addMember    the add-member button's top-left corner, relative to the
   *              open-members region (the button is that region's child)
   * titleWrap    the title's container, in header coordinates
   * title        the title label, relative to the title wrap
   */
  datatype HeaderLayout = HeaderLayout(openMembers: Rect, addMember: Point, titleWrap: Rect, title: Rect)

  /** The layout for header width `newWidth`. */
  function HeaderControlsGeometry(st: Style, newWidth: int): (g: HeaderLayout)
    // the open-members region spans the whole width, between the top skip and the bottom padding
    ensures g.openMembers.left == 0 && g.openMembers.width == newWidth
    ensures g.openMembers.top == st.infoProfileSkip
    ensures g.openMembers.top + g.openMembers.height == st.membersHeader - st.membersHeaderPaddingBottom
    // the add-member button ends buttonPosition.x short of the right edge
    ensures g.openMembers.left + g.addMember.x + st.addMemberWidth + st.buttonPosition.x == newWidth
    ensures g.addMember.y == st.buttonPosition.y
    // the title wrap starts at the block header position and ends where the button starts
    ensures g.titleWrap.left == st.blockHeaderPosition.x && g.titleWrap.top == st.blockHeaderPosition.y
    ensures g.titleWrap.left + g.titleWrap.width == g.openMembers.left + g.addMember.x
    ensures g.titleWrap.height == st.titleHeight
    // the title fills its wrap's width from the wrap's corner
    ensures g.title.left == 0 && g.title.top == 0 && g.title.width == g.titleWrap.width
  {
    var openMembers := Rect(0, st.infoProfileSkip, newWidth,
      st.membersHeader - st.infoProfileSkip - st.membersHeaderPaddingBottom);
    var availableWidth := newWidth - st.buttonPosition.x;
    var addMember := Point(availableWidth - st.addMemberWidth, st.buttonPosition.y);
    var titleWrapWidth := availableWidth - st.addMemberWidth - st.blockHeaderPosition.x;
    var titleWrap := Rect(st.blockHeaderPosition.x, st.blockHeaderPosition.y, titleWrapWidth, st.titleHeight);
    HeaderLayout(openMembers, addMember, titleWrap, Rect(0, 0, titleWrap.width, st.titleHeight))
  }

  /**
   * Widening the header by d moves the add-member button right by d and
   * widens the open-members region and the title by d; nothing else moves.
   */
  lemma ReflowOnWidth(st: Style, w: int, d: int)
    ensures var g, h := HeaderControlsGeometry(st, w), HeaderControlsGeometry(st, w + d);
      && h.openMembers == g.openMembers.(width := g.openMembers.width + d)
      && h.addMember == g.addMember.(x := g.addMember.x + d)
      && h.titleWrap == g.titleWrap.(width := g.titleWrap.width + d)
      && h.title == g.title.(width := g.title.width + d)
  {
  }

  /** A wider add-member button takes its extra width from the title. */
  lemma ReflowOnButtonWidth(st: Style, w: int, d: int)
    ensures var g, h := HeaderControlsGeometry(st, w), HeaderControlsGeometry(st.(addMemberWidth := st.addMemberWidth + d), w);
      && h.titleWrap.width == g.titleWrap.width - d
      && h.addMember.x == g.addMember.x - d
      && h.openMembers == g.openMembers
  {
  }

  /** Header 400 wide, button 40 wide: the title gets what the button, its inset and the left inset leave. */
  lemma TitleWidthExample(st: Style)
    requires st.addMemberWidth == 40
    ensures HeaderControlsGeometry(st, 400).titleWrap.width == 400 - 40 - st.buttonPosition.x - st.blockHeaderPosition.x
    ensures HeaderControlsGeometry(st, 400).titleWrap.left == st.blockHeaderPosition.x
  {
  }
}
