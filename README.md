# Members panel of the profile info section

A model of `Info::Profile::Members`, the block of a group's or channel's
profile that lists its members. The panel optionally shows a header (title,
a clickable "open members" region and an add-member button), embeds a list
widget driven by a members list controller, forwards the list's scroll
requests to the surrounding scroll area shifted past the header, sizes
itself after the list, tells the hosting controller whether the content is
large enough to offer search, decides what the add-member button opens, and
acts as the list's delegate with selection switched off.

The project has four modules:

- `Domain` (`domain.dfy`): the peer (basic group, channel or other peer),
  the section type, the style constants (positive integers) and geometry values.
- `MembersRules` (`members_rules.dfy`): the pure decisions: header presence,
  scroll-request translation and its inverse, panel height, the search
  threshold, the effect of restoring a saved state, and the add-member dispatch.
- `HeaderGeometry` (`header_geometry.dfy`): the geometry of the header's children.
- `MembersPanel` (`members_panel.dfy`): the class `Members`, whose fields are
  the panel's state (width, height, the list's width, header layout, row
  count, search flag, query, emitted scroll requests) and whose methods are
  the bodies of the panel's subscriptions and delegate callbacks.

Each stream subscription of the source is a method that the embedding code
calls when the stream would fire. The scroll requests emitted so far are
the field `scrollToRequests`; `ForwardAll` describes that stream for a whole
inner stream at once. The peer's counts, the chat size limit and the
current query are parameters read at call time.

Three details of the code that the model keeps as written:

- A basic group with 199 members and a limit of 200 gets the participant
  picker, not the upgrade offer, because the code compares with `>=`
  (`AddMemberAtLimit`).
- The title wrap's width also loses the button inset `buttonPosition.x`,
  not only the button's width and the left inset (`TitleWidthExample`).
- Search-enabled-by-content is recomputed on a non-null restore only. The
  file itself has no other place where row changes reach it.

## Model

| member | source | states |
|---|---|---|
| MembersRules.HeaderFor | Telegram/SourceFiles/info/profile/info_profile_members.cpp:121-127 | a header exists exactly when the section is not the members section, and its height is the fixed header height |
| MembersRules.OpenMembersTarget | Telegram/SourceFiles/info/profile/info_profile_members.cpp:183-187 | clicking the open-members region shows the members section of the same peer, where the panel has no header |
| MembersRules.TranslateScroll | Telegram/SourceFiles/info/profile/info_profile_members.cpp:226-237 | each non-negative coordinate of a forwarded request moves down by the header height; negative coordinates, and all of them without a header, pass through |
| MembersRules.ScrollToTopPassesThrough | Telegram/SourceFiles/info/profile/info_profile_members.cpp:228-233 | the inner list's `{-1, -1}` is forwarded unchanged |
| MembersRules.TranslatePreservesOrder | Telegram/SourceFiles/info/profile/info_profile_members.cpp:228-236 | a request with ymin <= ymax keeps that order once forwarded |
| MembersRules.ForwardedTargetsSkipHeader | Telegram/SourceFiles/info/profile/info_profile_members.cpp:228-236 | a forwarded coordinate is negative exactly when the inner one was, and otherwise lies at or below the header's bottom |
| MembersRules.UntranslateTranslate | Telegram/SourceFiles/info/profile/info_profile_members.cpp:226-237 | the inner request is recovered from the forwarded one: forwarding loses nothing |
| MembersRules.ForwardAll | Telegram/SourceFiles/info/profile/info_profile_members.cpp:226-237 | the outer stream has one request per inner request, each the translation of the inner one at the same position |
| MembersRules.RecoverInnerRequests | Telegram/SourceFiles/info/profile/info_profile_members.cpp:226-237 | the whole inner stream is recovered from the whole outer stream |
| MembersRules.PanelHeight | Telegram/SourceFiles/info/profile/info_profile_members.cpp:242-250 | the panel collapses to 0 exactly when the list is no taller than the bottom margin; otherwise it is header + list + margin, so the list height is recoverable and the panel is taller than header plus twice the margin |
| MembersRules.PanelHeightMonotone | Telegram/SourceFiles/info/profile/info_profile_members.cpp:244-248 | a taller list never gives a shorter panel |
| MembersRules.SearchThresholdIsTwenty | Telegram/SourceFiles/info/profile/info_profile_members.cpp:261-264 | search becomes enabled exactly when the row count goes from 19 to 20 |
| MembersRules.SearchEnabledMonotone | Telegram/SourceFiles/info/profile/info_profile_members.cpp:261-264 | more rows never disable search |
| MembersRules.RestoredFlag | Telegram/SourceFiles/info/profile/info_profile_members.cpp:106-111 | a null state leaves the flag as it was; any other state sets it to "restored rows >= 20" |
| MembersRules.FlagFollowsLastRestore | Telegram/SourceFiles/info/profile/info_profile_members.cpp:106-111 | after any series of restores the flag is the threshold test of the last non-null state, or the initial flag if every state was null |
| MembersRules.AddMember | Telegram/SourceFiles/info/profile/info_profile_members.cpp:324-337 | upgrade offer iff a basic group at or over the limit and the user is its creator; picker for every other basic group; picker seeded with the last participants iff a channel with megagroup info; nothing otherwise; the action targets the peer itself |
| MembersRules.AddMemberAtLimit | Telegram/SourceFiles/info/profile/info_profile_members.cpp:326-330 | 199 of 200 gives the picker even for the creator; 200 of 200 gives the upgrade to the creator and the picker to anyone else |
| MembersRules.ConvertMonotoneInCount | Telegram/SourceFiles/info/profile/info_profile_members.cpp:326-327 | if a creator's group gets the upgrade offer, a bigger one does too |
| HeaderGeometry.HeaderControlsGeometry | Telegram/SourceFiles/info/profile/info_profile_members.cpp:266-322 | the open-members region spans the width between the top skip and the bottom padding; the add-member button ends `buttonPosition.x` short of the right edge at `buttonPosition.y`; the title wrap starts at the block header position and ends where the button starts; the title fills the wrap's width from its corner |
| HeaderGeometry.ReflowOnWidth | Telegram/SourceFiles/info/profile/info_profile_members.cpp:266-322 | widening the header by d moves the button right by d and widens the region and the title by d; nothing else moves |
| HeaderGeometry.ReflowOnButtonWidth | Telegram/SourceFiles/info/profile/info_profile_members.cpp:292-312 | a button wider by d takes d from the title's width and moves left by d |
| HeaderGeometry.TitleWidthExample | Telegram/SourceFiles/info/profile/info_profile_members.cpp:310-316 | at width 400 with a 40-pixel button, the title wrap is 400 - 40 - buttonPosition.x - blockHeaderPosition.x wide and starts at blockHeaderPosition.x |
| MembersPanel.Members.constructor | Telegram/SourceFiles/info/profile/info_profile_members.cpp:54-72 | the header exists per the section and the list sits below it; the immediately firing subscriptions give the list the widget's current width, lay the header out for that width and size the panel from the list's first height; no scroll request has reached a subscriber |
| MembersPanel.Members.DesiredHeight | Telegram/SourceFiles/info/profile/info_profile_members.cpp:74-87 | the desired height is the larger of the current height and header + max(member count, rows) * item height |
| MembersPanel.Members.OnListScrollToRequest | Telegram/SourceFiles/info/profile/info_profile_members.cpp:226-237 | exactly the translated request is appended to the emitted requests; nothing else changes |
| MembersPanel.Members.OnWidthChanged | Telegram/SourceFiles/info/profile/info_profile_members.cpp:238-241 | the list is given the panel's new width; nothing else changes |
| MembersPanel.Members.OnListHeightChanged | Telegram/SourceFiles/info/profile/info_profile_members.cpp:242-250 | the panel height becomes `PanelHeight` of the list height; width and all else unchanged; the no-sliver invariant holds |
| MembersPanel.Members.OnSearchQueryChanged | Telegram/SourceFiles/info/profile/info_profile_members.cpp:67-71 | a new query emits exactly one scroll-to-top request and reaches the list |
| MembersPanel.Members.OnAddMemberShownChanged | Telegram/SourceFiles/info/profile/info_profile_members.cpp:214-217 | the header is laid out again for the current width |
| MembersPanel.Members.ResizeGetHeight | Telegram/SourceFiles/info/profile/info_profile_members.cpp:254-259 | the header is laid out for the new width only when it exists; the height returned is the current one |
| MembersPanel.Members.UpdateHeaderControlsGeometry | Telegram/SourceFiles/info/profile/info_profile_members.cpp:266-322 | the header children get `HeaderControlsGeometry` for the width; nothing else changes |
| MembersPanel.Members.UpdateSearchEnabledByContent | Telegram/SourceFiles/info/profile/info_profile_members.cpp:261-264 | the flag becomes exactly "rows >= 20" |
| MembersPanel.Members.SaveState | Telegram/SourceFiles/info/profile/info_profile_members.cpp:97-104 | the snapshot records the list's rows |
| MembersPanel.Members.RestoreState | Telegram/SourceFiles/info/profile/info_profile_members.cpp:106-111 | a null state changes nothing; any other restores the rows and re-establishes the flag |
| MembersPanel.SaveRestoreRoundTrip | Telegram/SourceFiles/info/profile/info_profile_members.cpp:97-111 | saving one panel and restoring into another reproduces its row count and the flag that count implies; nothing else of the target changes |
| MembersPanel.ForwardInnerStream | Telegram/SourceFiles/info/profile/info_profile_members.cpp:226-237 | passing the inner list's requests one by one through the forwarding subscription appends exactly `ForwardAll` of them, in order |
| MembersPanel.Members.PeerListSetTitle | Telegram/SourceFiles/info/profile/info_profile_members.cpp:402-403 | accepted and ignored: no state changes |
| MembersPanel.Members.PeerListSetAdditionalTitle | Telegram/SourceFiles/info/profile/info_profile_members.cpp:405-407 | accepted and ignored: no state changes |
| MembersPanel.Members.PeerListIsRowSelected | Telegram/SourceFiles/info/profile/info_profile_members.cpp:409-411 | no row is selected, in every state |
| MembersPanel.Members.PeerListSelectedRowsCount | Telegram/SourceFiles/info/profile/info_profile_members.cpp:413-415 | zero rows are selected, in every state |
| MembersPanel.Members.PeerListCollectSelectedRows | Telegram/SourceFiles/info/profile/info_profile_members.cpp:417-419 | the selection is empty, in every state |
| MembersPanel.Members.PeerListScrollToTop | Telegram/SourceFiles/info/profile/info_profile_members.cpp:421-423 | exactly `{-1, -1}` is appended to the emitted requests and nothing else changes |
| MembersPanel.Members.PeerListAddSelectedRowInBunch | Telegram/SourceFiles/info/profile/info_profile_members.cpp:425-427 | the call always ends in the fatal `Unexpected` outcome |
| MembersPanel.Members.PeerListFinishSelectedRowsBunch | Telegram/SourceFiles/info/profile/info_profile_members.cpp:429-430 | no state changes |
| MembersPanel.Members.PeerListSetDescription | Telegram/SourceFiles/info/profile/info_profile_members.cpp:432-435 | the description is discarded: no state changes |

## Left out

- Telegram/SourceFiles/intro/intro_start.cpp is not part of this model: it is the login flow's first step, reads a file from disk and installs proxy settings.
- The reactive machinery (`start_with_next`, `start_spawning`, `duplicate`, lifetimes): each subscription's body is a method, and the order in which streams fire is up to the caller.
- `onlineCountValue` and the `scrollToRequests()` accessor only hand out streams; the emitted requests are the field `scrollToRequests`.
- `visibleTopBottomUpdated` only forwards the visible range to the list widget.
- Qt widget behaviour: right-to-left mirroring in `moveToLeft` (positions are those of a left-to-right layout), Qt's clamping of negative sizes to zero, `setAttribute`, `setContent`, and the header widget's own resize to the panel width.
- The list widget's internals: how its height follows from its width and rows is not modelled; its heights arrive through `OnListHeightChanged`.
- The title's text (localised and uppercased member count) and its wrapping: the title height is a style constant.
- The dialogs opened by the add-member button and the section shown by the open-members click: both are returned as action values.
- The commented-out search toggle, its animation and cancel logic, and saving the search text: that code does not run.
- MembersPanel.Members.RestoreState: the saved list state is opaque in the source; the model keeps only its row count and assumes the list controller restores exactly that many rows.
- MembersPanel.Members.DesiredHeight: the source computes in 32-bit `int`; the model's integers are unbounded, so overflow of very large member counts is not modelled. The same holds for the scroll shift (`MembersRules.TranslateScroll`), the panel height sum (`MembersRules.PanelHeight`) and the header geometry subtractions (`HeaderGeometry.HeaderControlsGeometry`).
- MembersPanel.Members.PeerListAddSelectedRowInBunch: the source aborts the program; the model returns an `Unexpected` outcome instead, so the call stays expressible.
- MembersRules.AddMember: the last participants are passed as a range to a collection whose type is not part of this model; the model keeps them as a sequence, so only which users are passed is meaningful, not their order or repetitions.
- The add-member button's visibility (`showOn` of the can-add-member stream): `OnAddMemberShownChanged` only relays the header out and does not record whether the button is shown. The layout subtracts the button's width whether or not it is shown, as the source does.
- Row changes made by the list controller outside a restore are not modelled; `fullRowsCount` changes only on restore.
