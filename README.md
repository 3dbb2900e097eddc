# Off-plan property app: screen logic in Dafny

This project models the state and arithmetic behind eight screens of a
React Native (Expo) app for buyers of off-plan Dubai property, and proves
properties of that model:

- **Payment details** (`app/form2.tsx`): an editable table of payment
  installments. Rows can be added, removed and edited one field at a time.
  The screen shows a running percentage total and a progress graph with one
  node per row. At most one dropdown is open at a time: a row's type menu or
  the month picker.
- **Payment timelines** (`app/dashboard1.tsx`, `app/dashboard3.tsx`,
  `app/timeline.tsx`): a twelve-entry payment timeline drawn as a track of
  dots. The 70/30 card is meant to select the dot under the finger, and
  the two project dashboards are meant to drag the selection relative to
  the current dot. As written, the pan handlers never see a measured track,
  so the selection never moves (see "## Findings"). The model's handlers
  read the current state and so state the intended behaviour. The
  dashboards also have a strategy carousel and info tooltips.
- **Completion slider** (`app/dashboard.tsx`): a 0..100 value that a pan
  gesture moves by a third of its travel. It is shown as a percentage and
  as a share of AED 1,225,600.
- **Rating card** (`app/form4.tsx`): thirteen categories, each scored 1..5
  with a five-dot slider. The scores are kept in a record keyed by
  category id.
- **Home** (`app/home.tsx`): six properties with favourite hearts, a
  "Recent" tab showing the first two and an "All" tab. Only one card
  opens a dashboard.
- **Home router** (`app/homeRouter.tsx`): the in-memory project store.
  The router sends the user to `/home` when the store has projects and to
  `/home2` otherwise.

State that a screen updates in place is a Dafny `class`, with one method
per handler. Derived values are functions, and the properties are lemmas
about those functions. JavaScript numbers are exact `real`s or `int`s.
`Math.round(x)` is `floor(x + 1/2)`, which rounds halves towards +infinity
as JavaScript does. Pixel widths, finger positions and gesture travel are
parameters of the handlers.

Modules:

- `Wrappers` and `Numeric` (`numeric.dfy`): the optional value, rounding and clamping.
- `TimelineMath` (`timeline_math.dfy`): the timeline arithmetic the three timeline screens share.
- `TapTimeline` (`tap_timeline.dfy`): `app/dashboard1.tsx`.
- `DragTimeline` (`drag_timeline.dfy`): `app/dashboard3.tsx` and `app/timeline.tsx`.
- `PercentSlider` (`percent_slider.dfy`): `app/dashboard.tsx`.
- `Installments` (`installments.dfy`): `app/form2.tsx`.
- `RatingCard` (`rating_card.dfy`): `app/form4.tsx`.
- `Home` (`home.dfy`): `app/home.tsx`.
- `HomeRouter` (`home_router.dfy`): `app/homeRouter.tsx`.

## Model

| member | source | states |
|---|---|---|
| Numeric.Round | app/dashboard.tsx:30 | `Math.round(x)` is the integer within half a unit of `x`, halves going up |
| Numeric.Clamp | app/dashboard1.tsx:52 | `Math.max(lo, Math.min(v, hi))` lies in `lo..hi`, is `v` inside the range and the nearer bound outside it |
| Numeric.ClampReal | app/dashboard.tsx:29 | the same clamp on reals: in range, identity inside, the bound outside |
| Numeric.RoundInt | app/dashboard.tsx:35 | rounding a whole number gives it back |
| Numeric.RoundMonotone | app/dashboard1.tsx:51 | rounding never reverses the order of two values |
| Numeric.ClampMonotone | app/dashboard1.tsx:52 | clamping never reverses the order of two values |
| TimelineMath.Step | app/dashboard1.tsx:50 | eleven steps span the track exactly, and a step is positive on a measured track |
| TimelineMath.Position | app/dashboard1.tsx:75-79 | the indicator of entry 0, and every indicator on an unmeasured track, sits at 0; the last entry's sits at the full width (PositionBounds, PositionMonotone and PositionIsSteps give the rest) |
| TimelineMath.IndexAt | app/dashboard1.tsx:50-52 | the dot nearest a pixel position is always a valid timeline index (0..11) |
| TimelineMath.PositionIsSteps | app/dashboard1.tsx:75-79 | on a measured track, dot `i` is drawn exactly `i` steps of `width/11` from the start |
| TimelineMath.PositionBounds | app/dashboard1.tsx:75-79 | every dot is drawn on the track; the first at 0, the last at the full width |
| TimelineMath.PositionMonotone | app/timeline.tsx:200-204 | later dots are drawn further right |
| TimelineMath.IndexAtEnds | app/dashboard1.tsx:48-54 | a touch at or left of the start selects the first entry; at or right of the end, the last |
| TimelineMath.IndexAtMonotone | app/dashboard1.tsx:50-52 | moving the finger right never moves the selection left |
| TimelineMath.IndexPositionRoundTrip | app/dashboard1.tsx:48-54 | touching where dot `i` is drawn selects entry `i` (position then index is the identity) |
| TimelineMath.PositionIndexSnap | app/dashboard1.tsx:48-54 | for any touch on the track, the selected dot is drawn at most half a step from the finger |
| TimelineMath.MoveIndex | app/dashboard3.tsx:158-165 | a pan move always yields a valid timeline index |
| TimelineMath.GrantStart | app/dashboard3.tsx:151-156 | on a measured track the drag origin is exactly where the current dot is drawn; otherwise the old origin is kept |
| TimelineMath.GrantThenStill | app/dashboard3.tsx:151-165 | a move with no travel after a grant keeps the current entry |
| TimelineMath.GrantThenSteps | app/timeline.tsx:177-192 | dragging `k` whole steps after a grant moves the selection by `k` entries, stopping at either end |
| TimelineMath.UnmeasuredPosition | app/timeline.tsx:201 | on an unmeasured track every indicator sits at 0 |
| TimelineMath.DotAt | app/timeline.tsx:444-445 | a dot is active exactly at the current entry and filled exactly before it |
| TimelineMath.Dots | app/dashboard1.tsx:138-142 | the dot row has one style per entry (DotsPointwise gives each entry's style) |
| TimelineMath.DotsPointwise | app/timeline.tsx:439-448 | dot `i` of the row is active exactly at the current entry and filled exactly before it |
| TimelineMath.DotCounts | app/timeline.tsx:439-448 | among the first `n` dots, `min(n, index)` are filled, and one is active when the index is below `n` |
| TimelineMath.FullRowCounts | app/dashboard1.tsx:138-142 | the full row has exactly `timelineIndex` filled dots and exactly one active dot |
| TapTimeline.SpecialDot | app/dashboard1.tsx:139 | a dot is a milestone dot exactly for the start, flip-ready and handover entries (0, 5, 11) |
| TapTimeline.UpdatedIndex | app/dashboard1.tsx:48-54 | the new index is a valid entry; an unmeasured track keeps the old index |
| TapTimeline.TapTimelineCard.constructor | app/dashboard1.tsx:45-46 | the card starts on entry 2 with an unmeasured track |
| TapTimeline.TapTimelineCard.Layout | app/dashboard1.tsx:118 | layout records the track width and keeps the selection |
| TapTimeline.TapTimelineCard.UpdateTimelineIndex | app/dashboard1.tsx:48-54 | a touch or move sets the index to the nearest entry, keeps it while unmeasured, and keeps it in range |
| TapTimeline.TapTimelineCard.CurrentPosition | app/dashboard1.tsx:75-79 | the yellow line and triangle end on the track, at 0 while unmeasured |
| TapTimeline.TapTimelineCard.DotRow | app/dashboard1.tsx:138-142 | twelve dots, dot `i` styled by `i` against `timelineIndex`: the one at `timelineIndex` active, those before it filled; so exactly `timelineIndex` filled and exactly one active |
| TapTimeline.LabelsPerEntry | app/dashboard1.tsx:27-40 | the timeline has one label per entry |
| TapTimeline.AsWrittenTouch | app/dashboard1.tsx:56-69 | the pan handlers as written, seeing the first render's width of 0, never change the selection |
| TapTimeline.AsWrittenTouchIgnoresFinger | app/dashboard1.tsx:48-54 | on a 110-pixel track a touch at the right end should select entry 11, but the handlers as written keep entry 2 |
| TapTimeline.TouchAtIndicator | app/dashboard1.tsx:62-67 | touching a drawn indicator selects that entry |
| TapTimeline.TouchOrder | app/dashboard1.tsx:48-54 | touches are ordered like their positions; touches left of or right of the track select the ends |
| DragTimeline.KeyDot | app/dashboard3.tsx:182 | the key dots are exactly entries 0, 5 and 11 |
| DragTimeline.KeyRowDotAt | app/dashboard3.tsx:188-216 | key dots are exactly 0, 5 and 11; only key dot 0 is drawn filled; a small dot is passed exactly when at or before the index |
| DragTimeline.ShownTooltips | app/dashboard3.tsx:227-228 | a tooltip shows exactly when it is the active one, so at most one shows |
| DragTimeline.PageAt | app/dashboard3.tsx:130-133 | the carousel page of a non-negative offset is non-negative |
| DragTimeline.PageAtWhole | app/dashboard3.tsx:130-136 | scrolling exactly `k` slide widths shows page `k`, with no clamp to the strategy count |
| DragTimeline.DragDashboard.KeyDotDashboard | app/dashboard3.tsx:140-144 | the key-dot dashboard starts on entry 2, page 0, no tooltip, unmeasured |
| DragTimeline.DragDashboard.PlainTimeline | app/timeline.tsx:164-166 | the timeline screen starts on entry 0, page 0, no tooltip, unmeasured |
| DragTimeline.DragDashboard.Layout | app/timeline.tsx:429 | layout records the track width |
| DragTimeline.DragDashboard.Grant | app/dashboard3.tsx:151-156 | a grant remembers the current dot's offset on a measured track and keeps the old origin otherwise |
| DragTimeline.DragDashboard.Move | app/dashboard3.tsx:158-165 | a move selects the entry nearest the drag origin plus the travel, kept in range |
| DragTimeline.DragDashboard.TrianglePosition | app/dashboard3.tsx:171-175 | the triangle lies on the track, at 0 while unmeasured and at the full width on the last entry |
| DragTimeline.DragDashboard.DotRow | app/timeline.tsx:439-448 | twelve dots, the one at `timelineIndex` active and those before it filled; exactly `timelineIndex` filled and one active |
| DragTimeline.DragDashboard.OnScroll | app/timeline.tsx:153-160 | after a scroll the active page is the rounded page under the viewport |
| DragTimeline.DragDashboard.OpenTooltip | app/dashboard3.tsx:361 | pressing an info box shows exactly that tooltip |
| DragTimeline.DragDashboard.CloseTooltip | app/dashboard3.tsx:236 | the close button hides every tooltip |
| DragTimeline.UnmeasuredDragIsInert | app/timeline.tsx:177-192 | before layout neither a grant nor a move changes anything |
| DragTimeline.AsWrittenDrag | app/dashboard3.tsx:146-167 | a grant and a move as the handlers run them, against the first render's width of 0, never change the selection |
| DragTimeline.AsWrittenDragIgnoresTravel | app/timeline.tsx:169-194 | on a 110-pixel track a one-step drag from entry 2 should select entry 3, but the handlers as written keep entry 2 |
| PercentSlider.Released | app/dashboard.tsx:29-30 | the committed value is always within 0..100 |
| PercentSlider.ReleaseAtRest | app/dashboard.tsx:26-33 | releasing without travel keeps the value |
| PercentSlider.ReleaseSaturates | app/dashboard.tsx:26-33 | 300 pixels of travel right reach 100 and 300 pixels left reach 0, from any value |
| PercentSlider.ReleaseMonotone | app/dashboard.tsx:26-33 | more travel to the right never gives a smaller value |
| PercentSlider.Percentage | app/dashboard.tsx:35 | the shown percentage equals the stored whole value |
| PercentSlider.AedValue | app/dashboard.tsx:36 | the AED amount is exactly 12,256 per percent: 0 at 0%, 1,225,600 at 100%, within that range between them |
| PercentSlider.AedValueMonotone | app/dashboard.tsx:36 | a larger percentage never shows a smaller amount |
| PercentSlider.CompletionSlider.constructor | app/dashboard.tsx:18-19 | the slider starts at 35 with the thumb at rest |
| PercentSlider.CompletionSlider.Drag | app/dashboard.tsx:21-24 | while dragging, the thumb offset follows the gesture |
| PercentSlider.CompletionSlider.HandleStateChange | app/dashboard.tsx:26-33 | only the end state commits the released value and resets the thumb; other states change nothing; the value stays in 0..100 |
| PercentSlider.CompletionSlider.Shown | app/dashboard.tsx:35-36 | the figures are the stored value and an amount within 0..1,225,600 |
| RatingCard.Seed | app/form4.tsx:178-181 | the seeded record has exactly the categories' ids as keys |
| RatingCard.SeedLookup | app/form4.tsx:178-181 | with distinct ids, each category's id maps to its own initial score |
| RatingCard.SeedInRange | app/form4.tsx:178-181 | when every initial score is in 1..5, so is every seeded score |
| RatingCard.CategoriesDistinct | app/form4.tsx:36-50 | the thirteen category ids are pairwise distinct |
| RatingCard.IndexOf | app/form4.tsx:36-50 | every id has a category, with initial score 2 for the payment plan, 4 for service charges and 3 otherwise |
| RatingCard.InitialScores | app/form4.tsx:178-181 | the initial record holds all thirteen ids: payment 2, service 4, every other 3 |
| RatingCard.InitialInRange | app/form4.tsx:178-181 | every initial score is within 1..5 |
| RatingCard.ScoreChanged | app/form4.tsx:183-185 | a score change sets that id, keeps every other entry, and keeps the key set when the id was present |
| RatingCard.ChangesKeepRange | app/form4.tsx:229-234 | any sequence of slider presses keeps the key set and every score in 1..5 |
| RatingCard.SelectedDots | app/form4.tsx:125-126 | exactly one dot is selected for a score in 1..5, none otherwise |
| RatingCard.RatingCardScreen.constructor | app/form4.tsx:178-181 | the screen starts with the seeded record, which holds every id with a score in 1..5 |
| RatingCard.RatingCardScreen.HandleScoreChange | app/form4.tsx:183-185 | the record becomes the previous record with one key set |
| RatingCard.RatingCardScreen.PressDot | app/form4.tsx:131 | pressing a dot sets that category's score to the dot's step and keeps every id present and every score in 1..5 |
| Installments.DecimalString | app/form2.tsx:82 | `String(n)` is a non-empty string of decimal digits without a leading zero, one digit exactly when `n < 10` |
| Installments.DecimalRoundTrip | app/form2.tsx:82 | the digits of `String(n)` denote `n` |
| Installments.Contribution | app/form2.tsx:74 | `Number(curr.percent) \|\| 0`: a NaN percentage contributes 0, a number contributes itself |
| Installments.TotalPercent | app/form2.tsx:73-75 | the total of an empty table is 0 and is non-negative when every contribution is (TotalPercentConcat and TotalPercentReplace give the rest) |
| Installments.TotalPercentConcat | app/form2.tsx:73-75 | the total of two tables put together is the sum of their totals |
| Installments.TotalPercentReplace | app/form2.tsx:73-75 | replacing one row changes the total by the difference of the two rows' contributions, with NaN counting 0 |
| Installments.MaxId | app/form2.tsx:81 | `Math.max` of the ids is at least every id and is one of them |
| Installments.NewId | app/form2.tsx:81 | the new id exceeds every existing id, and is positive when they all are |
| Installments.NewInstallment | app/form2.tsx:83-90 | the new row's id exceeds every existing id, it contributes 0% and it is not a down payment (NewInstallmentFields gives each field) |
| Installments.AddProperties | app/form2.tsx:80-91 | adding appends one row at the end, keeps every old row, keeps ids distinct and positive, and keeps the total |
| Installments.NewInstallmentFields | app/form2.tsx:82-90 | the new row is `String(length + 1)`, Dec 2025, 0%, during construction, with id 1 on an empty table |
| Installments.Removed | app/form2.tsx:94-96 | removal keeps exactly the rows whose id differs and never lengthens the table |
| Installments.RemoveAbsent | app/form2.tsx:94-96 | removing an id no row carries changes nothing |
| Installments.RemovePresent | app/form2.tsx:94-96 | with distinct ids, removing row `k`'s id deletes exactly row `k` and keeps the others in order |
| Installments.RemoveKeepsIds | app/form2.tsx:94-96 | removal keeps ids distinct and positive |
| Installments.RemovePresentTotal | app/form2.tsx:94-96 | removing a present row shortens the table by one and takes its share off the total |
| Installments.Apply | app/form2.tsx:100 | an edit changes only its own field of a row; id and year are kept |
| Installments.Updated | app/form2.tsx:98-101 | an update keeps length, order and ids, edits the rows with the id and leaves every other row unchanged |
| Installments.UpdateKeepsIds | app/form2.tsx:98-101 | an update keeps ids distinct and positive |
| Installments.UpdateUnique | app/form2.tsx:98-101 | with distinct ids, an update rewrites only the one row carrying the id |
| Installments.UpdateKeepsTotal | app/form2.tsx:98-101 | editing anything but the percentage leaves the total unchanged |
| Installments.UpdatePercentTotal | app/form2.tsx:99-101 | setting row `k`'s percentage moves the total by the new minus the old contribution |
| Installments.DropdownAfterEdit | app/form2.tsx:102-104 | a type or month edit closes the dropdown; other edits leave it as it was |
| Installments.PositionPercent | app/form2.tsx:241 | the first node, and every node of a table with at most one row, sits at 0%; the last node at 100% |
| Installments.PositionPercentProperties | app/form2.tsx:241 | graph nodes lie in 0..100% in row order, the first at 0 and the last at 100 (all at 0 for one row) |
| Installments.TypeLabelPressed | app/form2.tsx:312-314 | a down-payment row never opens a menu; any other row toggles its own type menu |
| Installments.TypeMenuOpen | app/form2.tsx:265 | a row's type menu is open exactly when the open dropdown is that row's type menu, and the overlay then shows |
| Installments.AtMostOneTypeMenu | app/form2.tsx:265 | with distinct ids, at most one row shows its type menu |
| Installments.OverlayVisible | app/form2.tsx:131 | the click-away overlay shows exactly while a type menu is open, never for the month picker |
| Installments.Find | app/form2.tsx:398 | `find` returns nothing exactly when no row has the id, and otherwise a row that has it |
| Installments.ChosenMonthIsSelected | app/form2.tsx:397-409 | after picking a month for a row, the picker marks that month as the row's |
| Installments.InitialInstallments | app/form2.tsx:62-67 | the screen starts with four rows with distinct positive ids totalling 90% |
| Installments.PaymentDetails.constructor | app/form2.tsx:62-70 | the screen starts with the four rows and no dropdown open |
| Installments.PaymentDetails.AddInstallment | app/form2.tsx:80-92 | adding appends the new row, keeps the total and the dropdown, and keeps ids distinct and positive |
| Installments.PaymentDetails.RemoveInstallment | app/form2.tsx:94-96 | removing filters out the id, keeps the dropdown and keeps ids distinct and positive |
| Installments.PaymentDetails.UpdateInstallment | app/form2.tsx:98-105 | updating edits the matching rows and closes the dropdown after a type or month pick |
| Installments.PaymentDetails.PressTypeLabel | app/form2.tsx:311-315 | pressing a type label follows the down-payment and toggle rule and keeps the rows |
| Installments.PaymentDetails.OpenMonthPicker | app/form2.tsx:285 | pressing a row's month opens the picker for that row |
| Installments.PaymentDetails.CloseDropdown | app/form2.tsx:132 | the overlay closes whatever is open and keeps the rows |
| Installments.PaymentDetails.PickMonth | app/form2.tsx:405-409 | picking a month edits the picker's row and closes the picker; a zero row id is ignored |
| Home.FavOf | app/home.tsx:25 | the initial flag of a property is true exactly when the flag is present and true |
| Home.InitialFavs | app/home.tsx:24-26 | one initial flag per property, true exactly for those marked favourite |
| Home.InitialFavsValue | app/home.tsx:12-19 | the initial flags are six, with only the first two true |
| Home.Toggled | app/home.tsx:28-32 | a toggle negates entry `i`, keeps every other entry and keeps the length |
| Home.ToggleTwice | app/home.tsx:29-31 | toggling the same heart twice restores the flags |
| Home.TogglesCommute | app/home.tsx:28-32 | toggles of two hearts give the same flags in either order |
| Home.RecentProperties | app/home.tsx:34 | the recent list is the first two properties |
| Home.Visible | app/home.tsx:115 | the recent tab shows two properties; the all tab shows every property |
| Home.VisibleIsPrefix | app/home.tsx:47-51 | a row index names the same property in either tab and always falls within the flags |
| Home.CardPressRoute | app/home.tsx:39-43 | pressing a card goes to `/dashboard` exactly when its name is "The Weave", and nowhere otherwise |
| Home.OnlyFirstCardNavigates | app/home.tsx:39-43 | of the six properties, only the first card navigates |
| Home.HomeScreen.constructor | app/home.tsx:23-26 | the screen starts on the recent tab with the initial flags |
| Home.HomeScreen.SelectTab | app/home.tsx:84 | a tab button selects that tab |
| Home.HomeScreen.ToggleFav | app/home.tsx:28-32 | copying, flipping one entry of the copy and storing it gives the toggled flags, with the length kept |
| Home.HomeScreen.Shown | app/home.tsx:115 | the shown list is a prefix of all properties |
| HomeRouter.ProjectStore.constructor | app/homeRouter.tsx:7 | the store starts as the bundled project list |
| HomeRouter.ProjectStore.SetUserProjects | app/homeRouter.tsx:10-12 | a set replaces the whole list |
| HomeRouter.ProjectStore.GetUserProjects | app/homeRouter.tsx:14-16 | a get returns the stored list and changes nothing |
| HomeRouter.ProjectStore.HasUserProjects | app/homeRouter.tsx:18-20 | `hasUserProjects` is true exactly when the list is non-empty, and changes nothing |
| HomeRouter.ProjectStore.RouteChoice | app/homeRouter.tsx:25-35 | the router targets `/home` exactly when there are projects, `/home2` otherwise |
| HomeRouter.RouteFor | app/homeRouter.tsx:30-34 | the route is `/home` exactly when there are projects and `/home2` exactly when there are none |
| HomeRouter.SetThenGet | app/homeRouter.tsx:10-16 | a get after a set returns what was set, and the router follows it |
| HomeRouter.SetTwice | app/homeRouter.tsx:10-12 | two consecutive sets leave only the second list |
| HomeRouter.ReadsLeaveStore | app/homeRouter.tsx:14-20 | reading the list and asking whether it is empty agree, and neither changes the store |

## Findings

| source | as written | input that shows it | evidently intended | confidence | as-written member | corrected member |
|---|---|---|---|---|---|---|
| app/dashboard1.tsx:56-69 | the pan responder is created once inside `useRef`, so `updateTimelineIndex` always sees the first render's `sliderWidth` of 0 and returns at line 49 | after layout at width 110, a touch at `locationX` 110 keeps entry 2 | the touched entry is selected (entry 11 here) | high, not executed | TapTimeline.AsWrittenTouchIgnoresFinger | TapTimeline.TouchAtIndicator |
| app/dashboard3.tsx:146-167 | the grant and move handlers see the first render's `sliderWidth` of 0: the grant skips line 152 and the move returns at line 159 | after layout at width 110, a drag with `dx` 10 from entry 2 keeps entry 2 | the selection moves by whole steps (entry 3 here) | high, not executed | DragTimeline.AsWrittenDragIgnoresTravel | TimelineMath.GrantThenSteps |
| app/timeline.tsx:169-194 | the same handlers with the same captured width: the grant skips line 178 and the move returns at line 186 | after layout at width 110, a drag with `dx` 10 from entry 0 keeps entry 0 | the selection moves by whole steps (entry 1 here) | high, not executed | DragTimeline.AsWrittenDrag | TimelineMath.GrantThenSteps |

## Left out

- Rendering, styles, colours, sizes, icons and the `Animated.loop` pulse of the rating card's selection ring: presentation only.
- Navigation side effects (`router.push`, `router.back`, `router.replace`): only the chosen route is modelled (`Home.CardPressRoute`, `HomeRouter.RouteFor`).
- Gesture plumbing (`PanResponder`, `PanGestureHandler`, `Animated.event`) and `onLayout` measurement: finger positions, travel and track widths are handler parameters.
- Stale closures: the pan handlers of the three timeline screens are created once, inside `useRef`, and keep the first render's `sliderWidth` (0) and `timelineIndex`. As written, every touch, grant and move therefore returns early and the selection never moves. The class methods run the handlers against the current state, which is the intended behaviour; `TapTimeline.AsWrittenTouch` and `DragTimeline.AsWrittenDrag` model the handlers as written.
- HomeRouter.ProjectStore.SetUserProjects and HomeRouter.ProjectStore.GetUserProjects: the store keeps and hands out list values. In the source, `setUserProjects` stores the caller's array itself and `getUserProjects` returns the live array, so a caller that mutates either array changes what `hasUserProjects` and the router see without a set. That sharing is not modelled.
- IEEE-754 doubles: all arithmetic is exact; float rounding error in the AED amount and in pixel positions is not modelled, and neither are `Infinity` or `NaN` from a zero divisor.
- DragTimeline.DragDashboard.OnScroll: requires a positive slide width. With a zero width the page is not a finite number in JavaScript, and that case is not modelled.
- `Number(text)` parsing of the percentage field: a percentage edit carries its parsed value, a number or NaN (`Installments.Percent`).
- The `month-<id>` string encoding of the open month picker: modelled as the `MonthMenu(id)` constructor; `parseInt` gives back the row id.
- Installments.Updated: an installment's `year` is never edited by the screen, so no edit sets it.
- `totalCount` of the payment screen is the length of the table and has no member of its own.
- The hardcoded "90%" label of the payment screen is not computed from the total, so it is not modelled.
- `toLocaleString` formatting of the AED amount.
- The dates, percentages and values of the timeline entries, the strategy slides and the tooltip texts: only the entry count (12), the milestone labels and the tooltip keys are modelled.
- RatingCard: category ids are the thirteen fixed id strings, modelled as an enumeration; the score record is keyed by them, so an update can only name one of those ids.
- Home.HomeScreen.ToggleFav: requires an index within the flags; every row the screen renders passes one (`Home.VisibleIsPrefix`), and the out-of-range write JavaScript would allow is not modelled.
- The contents of the bundled `data/projects.json`: the initial store is an arbitrary sequence.
- The other screens of the app (sign-up, login, onboarding, the other forms, the empty-state home, the profile and the layout) are not part of this model: they hold form text and selection flags without computation.
