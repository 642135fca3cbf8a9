/**
 * The pure decisions of the members panel: whether it has a header, how a
 * scroll request of the inner list is shifted past that header, how tall
 * the panel is for a given list height, when search is enabled by content,
 * what restoring a saved state does to that flag, and what the add-member
 * button does for each kind of peer.
 */
module MembersRules {
  import opened Domain

  /** Search is offered once this many rows are materialised. */
  const EnableSearchMembersAfterCount := 20

  function Max(a: int, b: int): int { if a < b then b else a }

  // ---------------------------------------------------------------------
  // Header presence

  /** The header is built unless the panel already sits in a members section. */
  predicate HasHeader(section: SectionType) {
    section != MembersSection
  }

  /** The header the panel builds in `section`: present with its fixed height, or absent. */
  function HeaderFor(section: SectionType, st: Style): (header: Option<int>)
    ensures header.Some? <==> section != MembersSection
    ensures header.Some? ==> header.value == st.membersHeader
  {
    if HasHeader(section) then Some(st.membersHeader) else None
  }

  /** What clicking the header's open-members region asks the window to show. */
  datatype SectionRequest = ShowSection(peer: PeerId, section: SectionType)

  /** The click opens the members section of the same peer, where the panel has no header. */
  function OpenMembersTarget(peer: PeerId): (r: SectionRequest)
    ensures r.peer == peer && r.section == MembersSection
    ensures !HasHeader(r.section)
  {
    ShowSection(peer, MembersSection)
  }

  /** How far down the list sits: the header's height, or 0 without a header. */
  function TopSkip(header: Option<int>): int {
    if header.Some? then header.value else 0
  }

  // ---------------------------------------------------------------------
  // Scroll requests

  /** A range the embedding scroll area should bring into view; -1 means "the top". */
  datatype ScrollRequest = ScrollRequest(ymin: int, ymax: int)

  const ScrollToTop := ScrollRequest(-1, -1)

  function ShiftCoordinate(y: int, header: Option<int>): int {
    if y < 0 || header.None? then y else y + header.value
  }

  /**
   * The request the panel re-emits for a request of its inner list: each
   * non-negative coordinate moves down by the header height, while negative
   * coordinates, and every coordinate when there is no header, pass through.
   */
  function TranslateScroll(request: ScrollRequest, header: Option<int>): (r: ScrollRequest)
    ensures header.None? ==> r == request
    ensures request.ymin < 0 ==> r.ymin == request.ymin
    ensures request.ymax < 0 ==> r.ymax == request.ymax
    ensures header.Some? && request.ymin >= 0 ==> r.ymin == request.ymin + header.value
    ensures header.Some? && request.ymax >= 0 ==> r.ymax == request.ymax + header.value
  {
    ScrollRequest(ShiftCoordinate(request.ymin, header), ShiftCoordinate(request.ymax, header))
  }

  /** "Scroll to top" from the inner list stays "scroll to top". */
  lemma ScrollToTopPassesThrough(header: Option<int>)
    ensures TranslateScroll(ScrollToTop, header) == ScrollToTop
  {
  }

  /** A well-ordered request stays well-ordered once shifted. */
  lemma TranslatePreservesOrder(request: ScrollRequest, header: Option<int>)
    requires header.Some? ==> header.value >= 0
    requires request.ymin <= request.ymax
    ensures TranslateScroll(request, header).ymin <= TranslateScroll(request, header).ymax
  {
  }

  /**
   * A forwarded coordinate is "the top" exactly when the inner one was, and
   * otherwise never falls inside the header band [0, header height).
   */
  lemma ForwardedTargetsSkipHeader(request: ScrollRequest, h: int)
    requires h >= 0
    ensures var r := TranslateScroll(request, Some(h));
      && (r.ymin < 0 <==> request.ymin < 0) && (r.ymin < 0 || r.ymin >= h)
      && (r.ymax < 0 <==> request.ymax < 0) && (r.ymax < 0 || r.ymax >= h)
  {
  }

  function UnshiftCoordinate(y: int, header: Option<int>): int {
    if y < 0 || header.None? then y else y - header.value
  }

  /** Maps a forwarded request back to the inner list's coordinates. */
  function UntranslateScroll(request: ScrollRequest, header: Option<int>): ScrollRequest {
    ScrollRequest(UnshiftCoordinate(request.ymin, header), UnshiftCoordinate(request.ymax, header))
  }

  /** Forwarding loses nothing: the inner request is recovered from the outer one. */
  lemma UntranslateTranslate(request: ScrollRequest, header: Option<int>)
    requires header.Some? ==> header.value >= 0
    ensures UntranslateScroll(TranslateScroll(request, header), header) == request
  {
  }

  /** The outer request stream for an inner one: each request translated in turn. */
  function ForwardAll(requests: seq<ScrollRequest>, header: Option<int>): (r: seq<ScrollRequest>)
    ensures |r| == |requests|
    ensures forall k :: 0 <= k < |requests| ==> r[k] == TranslateScroll(requests[k], header)
  {
    if requests == [] then []
    else ForwardAll(requests[..|requests| - 1], header) + [TranslateScroll(requests[|requests| - 1], header)]
  }

  function UntranslateAll(requests: seq<ScrollRequest>, header: Option<int>): seq<ScrollRequest> {
    if requests == [] then []
    else UntranslateAll(requests[..|requests| - 1], header) + [UntranslateScroll(requests[|requests| - 1], header)]
  }

  /** The whole inner stream is recovered from the whole outer stream. */
  lemma {:induction false} RecoverInnerRequests(requests: seq<ScrollRequest>, header: Option<int>)
    requires header.Some? ==> header.value >= 0
    ensures UntranslateAll(ForwardAll(requests, header), header) == requests
  {
    if requests != [] {
      var n := |requests| - 1;
      var front := ForwardAll(requests[..n], header);
      var last := TranslateScroll(requests[n], header);
      assert ForwardAll(requests, header) == front + [last];
      assert (front + [last])[..n] == front;
      RecoverInnerRequests(requests[..n], header);
      UntranslateTranslate(requests[n], header);
      assert UntranslateAll(front + [last], header) == requests[..n] + [requests[n]];
      assert requests == requests[..n] + [requests[n]];
    }
  }

  // ---------------------------------------------------------------------
  // Panel height

  /**
   * The panel height for a list height: the list plus the header above it
   * plus the bottom margin, collapsing to 0 when the list is no taller than
   * that margin.
   */
  function PanelHeight(topSkip: int, listHeight: int, marginBottom: int): (r: int)
    requires topSkip >= 0 && marginBottom >= 0
    ensures r == 0 <==> listHeight <= marginBottom
    ensures r != 0 ==> r - topSkip - marginBottom == listHeight
    ensures r != 0 ==> r > topSkip + 2 * marginBottom
  {
    if listHeight > marginBottom then topSkip + listHeight + marginBottom else 0
  }

  /** A taller list never gives a shorter panel. */
  lemma PanelHeightMonotone(topSkip: int, lower: int, higher: int, marginBottom: int)
    requires topSkip >= 0 && marginBottom >= 0
    requires lower <= higher
    ensures PanelHeight(topSkip, lower, marginBottom) <= PanelHeight(topSkip, higher, marginBottom)
  {
  }

  // ---------------------------------------------------------------------
  // Member count (the desired height is Members.DesiredHeight)

  /** The member count the domain reports: a chat's count, a channel's, else 0. */
  function MemberCount(peer: Peer): int {
    match peer
    case Chat(_, count, _) => count
    case Channel(_, membersCount, _) => membersCount
    case OtherPeer(_) => 0
  }

  // ---------------------------------------------------------------------
  // Search enabled by content

  /** Whether the content is large enough to offer search. */
  predicate SearchEnabledByContent(fullRowsCount: int) {
    fullRowsCount >= EnableSearchMembersAfterCount
  }

  /** The flag switches exactly between 19 and 20 rows. */
  lemma SearchThresholdIsTwenty(n: int)
    ensures SearchEnabledByContent(n) && !SearchEnabledByContent(n - 1) <==> n == 20
  {
  }

  /** More rows never switch search off. */
  lemma SearchEnabledMonotone(n: int, m: int)
    requires n <= m
    ensures SearchEnabledByContent(n) ==> SearchEnabledByContent(m)
  {
  }

  /** The list controller's saved state; the model keeps only how many rows it held. */
  datatype ListSnapshot = ListSnapshot(fullRowsCount: nat)

  /** The panel's saved state (the search text is not saved in this version). */
  datatype MembersState = MembersState(list: ListSnapshot)

  /** The search flag after restoring `state` when it was `flag` before. */
  function RestoredFlag(flag: bool, state: Option<MembersState>): (r: bool)
    ensures state.None? ==> r == flag
    ensures state.Some? ==> (r <==> state.value.list.fullRowsCount >= EnableSearchMembersAfterCount)
  {
    if state.None? then flag else SearchEnabledByContent(state.value.list.fullRowsCount)
  }

  /** The search flag after a series of restores, applied first to last. */
  function FlagAfterRestores(flag: bool, states: seq<Option<MembersState>>): bool {
    if states == [] then flag
    else RestoredFlag(FlagAfterRestores(flag, states[..|states| - 1]), states[|states| - 1])
  }

  /** The last non-null state of a series of restores, if any. */
  function LastRestored(states: seq<Option<MembersState>>): (r: Option<MembersState>)
    ensures r.Some? ==> Some(r.value) in states
  {
    if states == [] then None
    else if states[|states| - 1].Some? then states[|states| - 1]
    else LastRestored(states[..|states| - 1])
  }

  /**
   * Null restores change nothing and every other restore re-establishes the
   * flag: after any series, the flag is the threshold test of the last
   * non-null state, or the initial flag if there was none.
   */
  lemma {:induction false} FlagFollowsLastRestore(flag: bool, states: seq<Option<MembersState>>)
    ensures FlagAfterRestores(flag, states) ==
      match LastRestored(states)
      case None => flag
      case Some(s) => s.list.fullRowsCount >= EnableSearchMembersAfterCount
  {
    if states != [] {
      FlagFollowsLastRestore(flag, states[..|states| - 1]);
    }
  }

  // ---------------------------------------------------------------------
  // Add member

  /** What pressing the add-member button opens. */
  datatype AddMemberAction =
    | ConvertToSupergroup(chat: PeerId)
    | AddChatParticipants(chat: PeerId)
    | AddChannelParticipants(channel: PeerId, alreadyIn: seq<UserId>)
    | NoAction

  /**
   * A basic group at or over the size limit whose creator presses the button
   * is offered the upgrade to a supergroup; any other basic group gets the
   * participant picker; a megagroup-style channel gets the picker seeded with
   * its last participants; anything else does nothing.
   */
  function AddMember(peer: Peer, chatSizeMax: int): (a: AddMemberAction)
    ensures a.ConvertToSupergroup? <==> peer.Chat? && peer.count >= chatSizeMax && peer.amCreator
    ensures a.AddChatParticipants? <==> peer.Chat? && !(peer.count >= chatSizeMax && peer.amCreator)
    ensures a.AddChannelParticipants? <==> peer.Channel? && peer.mgInfo.Some?
    ensures a.NoAction? <==> peer.OtherPeer? || (peer.Channel? && peer.mgInfo.None?)
    ensures a.ConvertToSupergroup? ==> a.chat == peer.id
    ensures a.AddChatParticipants? ==> a.chat == peer.id
    ensures a.AddChannelParticipants? ==>
      a.channel == peer.id && a.alreadyIn == peer.mgInfo.value.lastParticipants
  {
    match peer
    case Chat(id, count, amCreator) =>
      if count >= chatSizeMax && amCreator then ConvertToSupergroup(id) else AddChatParticipants(id)
    case Channel(id, _, mgInfo) =>
      if mgInfo.Some? then AddChannelParticipants(id, mgInfo.value.lastParticipants) else NoAction
    case OtherPeer(_) => NoAction
  }

  /** The limit is inclusive: one member short of it still opens the picker, even for the creator. */
  lemma AddMemberAtLimit(id: PeerId)
    ensures AddMember(Chat(id, 199, true), 200) == AddChatParticipants(id)
    ensures AddMember(Chat(id, 200, true), 200) == ConvertToSupergroup(id)
    ensures AddMember(Chat(id, 50, true), 200) == AddChatParticipants(id)
    ensures AddMember(Chat(id, 200, false), 200) == AddChatParticipants(id)
  {
  }

  /** Once a creator's group qualifies for the upgrade, a bigger one does too. */
  lemma ConvertMonotoneInCount(id: PeerId, count: int, more: int, chatSizeMax: int)
    requires count <= more
    requires AddMember(Chat(id, count, true), chatSizeMax).ConvertToSupergroup?
    ensures AddMember(Chat(id, more, true), chatSizeMax).ConvertToSupergroup?
  {
  }
}
