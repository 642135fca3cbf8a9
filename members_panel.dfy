/**
 * The members panel as an object: the state it keeps between events and
 * one method per subscription or delegate callback that changes it. The
 * reactive streams themselves are not modelled; each subscription's body
 * is a method the embedding code calls when the stream would fire.
 */
module MembersPanel {
  import opened Domain
  import opened MembersRules
  import opened HeaderGeometry

  /** How a delegate callback ends: normally, or by aborting the program. */
  datatype DelegateOutcome = Done | Unexpected(message: string)

  class Members {
    /** Style constants of the info layer. */
    const st: Style
    /** The header's height when the panel has a header; fixed at construction. */
    const header: Option<int>
    /** The list's vertical offset inside the panel. */
    const listTop: int

    var width: int
    var height: int
    /** The width last given to the inner list. */
    var listWidth: int
    /** The geometry last assigned to the header's children; None without a header. */
    var layout: Option<HeaderLayout>
    /** How many rows the inner list has materialised. */
    var fullRowsCount: nat
    /** The hosting controller's "search enabled by content" flag, as this panel sets it. */
    var searchEnabledByContent: bool
    /** The query last handed to the inner list. */
    var searchQuery: string
    /** Every scroll request emitted to subscribers so far, oldest first. */
    var scrollToRequests: seq<ScrollRequest>

    ghost predicate Valid()
      reads this
    {
      && st.Valid()
      && (header.Some? ==> header.value == st.membersHeader)
      && listTop == TopSkip(header)
      && (layout.Some? <==> header.Some?)
      // the panel is either collapsed or taller than header, margin and a list taller than the margin
      && (height == 0 || height > listTop + 2 * st.membersMarginBottom)
    }

    /**
     * Builds the panel for `section` at the widget's current width
     * `initialWidth`. Every subscription fires once as it is made: the
     * query's scroll-to-top reaches no subscriber, since none can exist yet;
     * with a header, the add-member visibility stream lays the header out for
     * `initialWidth`; the width stream gives the list that width; and the
     * list's first height `listHeight` sizes the panel. `rows` and
     * `searchEnabled` are what the list controller and the hosting
     * controller hold at that moment.
     */
    constructor (section: SectionType, st: Style, initialWidth: int, listHeight: int,
                 query: string, rows: nat, searchEnabled: bool)
      requires st.Valid()
      ensures Valid()
      ensures this.st == st && header == HeaderFor(section, st)
      ensures width == initialWidth && listWidth == initialWidth
      ensures height == PanelHeight(listTop, listHeight, st.membersMarginBottom)
      ensures layout == if header.Some? then Some(HeaderControlsGeometry(st, initialWidth)) else None
      ensures fullRowsCount == rows && searchEnabledByContent == searchEnabled
      ensures searchQuery == query && scrollToRequests == []
    {
      this.st := st;
      var h := HeaderFor(section, st);
      header := h;
      listTop := TopSkip(h);
      width, listWidth := initialWidth, initialWidth;
      height := PanelHeight(TopSkip(h), listHeight, st.membersMarginBottom);
      layout := if h.Some? then Some(HeaderControlsGeometry(st, initialWidth)) else None;
      fullRowsCount := rows;
      searchEnabledByContent := searchEnabled;
      searchQuery := query;
      scrollToRequests := [];
    }

    /**
     * The height the panel would like: at least its current height, and at
     * least the header plus one item per member (by the domain's count or
     * the rows materialised, whichever is larger).
     */
    function DesiredHeight(peer: Peer): (r: int)
      reads this
      ensures var content := TopSkip(header) + Max(MemberCount(peer), fullRowsCount) * st.itemHeight;
        r >= height && r >= content && (r == height || r == content)
    {
      var desired := TopSkip(header) + Max(MemberCount(peer), fullRowsCount) * st.itemHeight;
      Max(height, desired)
    }

    /** The inner list asked for a range to be shown: re-emit it shifted past the header. */
    method OnListScrollToRequest(request: ScrollRequest)
      modifies this`scrollToRequests
      ensures scrollToRequests == old(scrollToRequests) + [TranslateScroll(request, header)]
    {
      scrollToRequests := scrollToRequests + [TranslateScroll(request, header)];
    }

    /** The panel's width changed: the list is resized to it. */
    method OnWidthChanged(newWidth: int)
      modifies this`width, this`listWidth
      ensures width == newWidth && listWidth == newWidth
    {
      width := newWidth;
      listWidth := newWidth;
    }

    /** The inner list changed height: the panel takes the height that list needs. */
    method OnListHeightChanged(listHeight: int)
      requires Valid()
      modifies this`height
      ensures Valid()
      ensures height == PanelHeight(listTop, listHeight, st.membersMarginBottom)
    {
      height := PanelHeight(listTop, listHeight, st.membersMarginBottom);
    }

    /** The search field's query changed: scroll to the top and hand the query to the list. */
    method OnSearchQueryChanged(query: string)
      modifies this`scrollToRequests, this`searchQuery
      ensures scrollToRequests == old(scrollToRequests) + [ScrollToTop]
      ensures searchQuery == query
    {
      PeerListScrollToTop();
      searchQuery := query;
    }

    /** Whether adding members is allowed changed: lay the header out again. */
    method OnAddMemberShownChanged()
      requires Valid()
      modifies this`layout
      ensures Valid()
      ensures layout == if header.Some? then Some(HeaderControlsGeometry(st, width)) else old(layout)
    {
      if header.Some? {
        UpdateHeaderControlsGeometry(width);
      }
    }

    /** Relays the header out for the new width, when there is a header; the height stays. */
    method ResizeGetHeight(newWidth: int) returns (h: int)
      requires Valid()
      modifies this`layout
      ensures Valid()
      ensures h == height
      ensures layout == if header.Some? then Some(HeaderControlsGeometry(st, newWidth)) else old(layout)
    {
      if header.Some? {
        UpdateHeaderControlsGeometry(newWidth);
      }
      h := height;
    }

    /** Assigns the header's children their geometry for `newWidth`. */
    method UpdateHeaderControlsGeometry(newWidth: int)
      requires Valid() && header.Some?
      modifies this`layout
      ensures Valid()
      ensures layout == Some(HeaderControlsGeometry(st, newWidth))
    {
      layout := Some(HeaderControlsGeometry(st, newWidth));
    }

    /** Sets the hosting controller's flag from the number of materialised rows. */
    method UpdateSearchEnabledByContent()
      modifies this`searchEnabledByContent
      ensures searchEnabledByContent <==> fullRowsCount >= EnableSearchMembersAfterCount
    {
      searchEnabledByContent := SearchEnabledByContent(fullRowsCount);
    }

    /** Snapshots the list controller's state. */
    method SaveState() returns (state: MembersState)
      ensures state.list.fullRowsCount == fullRowsCount
    {
      state := MembersState(ListSnapshot(fullRowsCount));
    }

    /**
     * Restores a snapshot: a null one changes nothing; any other restores the
     * list's rows and recomputes the search flag from them.
     */
    method RestoreState(state: Option<MembersState>)
      requires Valid()
      modifies this`fullRowsCount, this`searchEnabledByContent
      ensures Valid()
      ensures state.None? ==> fullRowsCount == old(fullRowsCount)
      ensures state.Some? ==> fullRowsCount == state.value.list.fullRowsCount
      ensures searchEnabledByContent == RestoredFlag(old(searchEnabledByContent), state)
    {
      if state.None? {
        return;
      }
      fullRowsCount := state.value.list.fullRowsCount;
      UpdateSearchEnabledByContent();
    }

    // -------------------------------------------------------------------
    // The list delegate: selection is never used by this panel.

    /** Accepted and ignored: the header shows the title. */
    method PeerListSetTitle(title: string)
      ensures unchanged(this)
    {
    }

    /** Accepted and ignored. */
    method PeerListSetAdditionalTitle(title: string)
      ensures unchanged(this)
    {
    }

    /** No row is ever selected. */
    method PeerListIsRowSelected(peer: PeerId) returns (selected: bool)
      ensures !selected
    {
      selected := false;
    }

    /** Nothing is ever selected. */
    method PeerListSelectedRowsCount() returns (count: int)
      ensures count == 0
    {
      count := 0;
    }

    /** The selection is always empty. */
    method PeerListCollectSelectedRows() returns (rows: seq<PeerId>)
      ensures rows == []
    {
      rows := [];
    }

    /** Emits exactly one "scroll to top" request and changes nothing else. */
    method PeerListScrollToTop()
      modifies this`scrollToRequests
      ensures scrollToRequests == old(scrollToRequests) + [ScrollToTop]
    {
      scrollToRequests := scrollToRequests + [ScrollToTop];
    }

    /** Selecting a row is a programming error here: the call aborts. */
    method PeerListAddSelectedRowInBunch(peer: PeerId) returns (outcome: DelegateOutcome)
      ensures outcome.Unexpected?
    {
      outcome := Unexpected("Item selection in Info::Profile::Members.");
    }

    /** Nothing to finish. */
    method PeerListFinishSelectedRowsBunch()
      ensures unchanged(this)
    {
    }

    /** The description widget is discarded; the panel never shows one. */
    method PeerListSetDescription(description: string)
      ensures unchanged(this)
    {
    }
  }

  /**
   * Saving one panel's state and restoring it into another (as when a
   * section is recreated on navigating back) reproduces the row count and
   * the search flag that row count implies.
   */
  method SaveRestoreRoundTrip(source: Members, target: Members) returns (state: MembersState)
    requires source.Valid() && target.Valid()
    modifies target`fullRowsCount, target`searchEnabledByContent
    ensures target.Valid()
    ensures target.fullRowsCount == old(source.fullRowsCount)
    ensures target.searchEnabledByContent <==> old(source.fullRowsCount) >= EnableSearchMembersAfterCount
  {
    state := source.SaveState();
    target.RestoreState(Some(state));
  }

  /**
   * Feeding the inner list's requests one by one through the forwarding
   * subscription appends exactly their translation, in order.
   */
  method ForwardInnerStream(panel: Members, inner: seq<ScrollRequest>)
    modifies panel`scrollToRequests
    ensures panel.scrollToRequests == old(panel.scrollToRequests) + ForwardAll(inner, panel.header)
  {
    var i := 0;
    while i < |inner|
      invariant 0 <= i <= |inner|
      invariant panel.scrollToRequests == old(panel.scrollToRequests) + ForwardAll(inner[..i], panel.header)
    {
      panel.OnListScrollToRequest(inner[i]);
      assert inner[..i + 1][..i] == inner[..i];
      i := i + 1;
    }
    assert inner[..|inner|] == inner;
  }
}
