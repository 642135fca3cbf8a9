/**
 * Values the members panel reads but does not own: the peer it shows (a
 * basic group, a channel or anything else), the section it is embedded in,
 * the style constants of the info layer and plain geometry values.
 */
module Domain {

  datatype Option<+T> = None | Some(value: T)

  type PeerId = int
  type UserId = int

  /** Extra data a channel carries once it is known to be a megagroup. */
  datatype MegagroupInfo = MegagroupInfo(lastParticipants: seq<UserId>)

  /**
   * The peer whose members are listed, as the domain store holds it at the
   * moment of the call: `asChat()` succeeds for `Chat`, `asChannel()` for
   * `Channel`, and neither for any other peer.
   */
  datatype Peer =
    | Chat(id: PeerId, count: int, amCreator: bool)
    | Channel(id: PeerId, membersCount: int, mgInfo: Option<MegagroupInfo>)
    | OtherPeer(id: PeerId)

  /** The type of the info section hosting the panel; only `MembersSection` matters. */
  datatype SectionType = MembersSection | OtherSection

  datatype Point = Point(x: int, y: int)

  /** A widget geometry: left edge, top edge, width, height. */
  datatype Rect = Rect(left: int, top: int, width: int, height: int)

  /**
   * The style constants the panel's arithmetic uses.
   *   infoProfileSkip             st::infoProfileSkip
   *   membersHeader               st::infoMembersHeader, the header's fixed height
   *   membersHeaderPaddingBottom  st::infoMembersHeaderPaddingBottom
   *   buttonPosition              st::infoMembersButtonPosition
   *   blockHeaderPosition         st::infoBlockHeaderPosition
   *   addMemberWidth              the width of the st::infoMembersAddMember icon button
   *   titleHeight                 the height of the title label
   *   itemHeight                  st::infoMembersList.item.height
   *   membersMarginBottom         st::membersMarginBottom
   */
  datatype Style = Style(
    infoProfileSkip: int,
    membersHeader: int,
    membersHeaderPaddingBottom: int,
    buttonPosition: Point,
    blockHeaderPosition: Point,
    addMemberWidth: int,
    titleHeight: int,
    itemHeight: int,
    membersMarginBottom: int)
  {
    /** Every constant is a positive number of pixels. */
    predicate Valid() {
      && infoProfileSkip > 0
      && membersHeader > 0
      && membersHeaderPaddingBottom > 0
      && buttonPosition.x > 0 && buttonPosition.y > 0
      && blockHeaderPosition.x > 0 && blockHeaderPosition.y > 0
      && addMemberWidth > 0
      && titleHeight > 0
      && itemHeight > 0
      && membersMarginBottom > 0
    }
  }
}
