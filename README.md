# Portfolio site: navigation, contact form and project listing

This project models the few pieces of behaviour in a single-page portfolio site that
are more than presentation, and proves what they promise:

- **App** (`app.dfy`): the page shell's scroll handler. It probes `scrollY + 100`
  against the eight sections in a fixed order. The first section whose half-open
  interval `[offsetTop, offsetTop + offsetHeight)` holds the probe becomes
  `activeSection`. Missing elements are skipped. With no match, the old value stays.
  `AppState` is the component's state and `HandleScroll` is the handler's loop, with
  its early `break`. It is proved equal to the pure `Select` over `FirstMatch`.
- **ContactSection** (`contact_section.dfy`): the contact form's state machine.
  `ContactForm` holds `formData`, `isLoading`, `statusMessage`, `typedText` and
  `isTyping`. The methods are the input-change handler, the two halves of the submit
  handler (before and after the relay call settles) and the typing timer. The
  relay's answer is a boolean. The status readout, the colour choice and the
  template parameters are pure functions.
- **Sidebar** (`sidebar.dfy`): the navigation items and the mobile-menu state
  machine (`SidebarState`): nav click, hamburger, backdrop and the body-scroll lock.
  It also holds the active and hovered highlight rules.
- **ProjectsSection** (`projects_section.dfy`): splitting the project list into
  featured and other projects, and the technology tags a card shows with its
  "+N more" badge.
- **Wrappers** (`wrappers.dfy`): `Option`.

Nothing in the model performs I/O. The document's elements are given to the scroll
handler as a map from id to `(offsetTop, offsetHeight)`. The email relay is the
`sent` argument of `FinishSubmit`. A timer firing is a call to `Tick`.

## Model

| member | source | states |
|---|---|---|
| App.Layout | src/App.tsx:24-27 | The sections examined are the listed ids in order; a section has an element exactly when the document has that id, and then it is that element's geometry |
| App.Contains | src/App.tsx:28 | A containing box has positive height; its interval is half-open: it holds its top (when non-empty) and never its end |
| App.Matches | src/App.tsx:26-28 | A section whose element is missing never matches; a matching element has positive height |
| App.FirstMatch | src/App.tsx:24-31 | The index found holds a present section whose `[offsetTop, offsetTop+offsetHeight)` contains the probe and no earlier section does; no index iff no present section contains it |
| App.Select | src/App.tsx:24-33 | With no containing section the previous choice stays; otherwise the result is the id of the earliest containing section |
| App.SelectSkipsHead | src/App.tsx:24-33 | A first section that does not contain the probe does not affect the choice |
| App.MissingSectionsSkipped | src/App.tsx:25-26 | Dropping the sections whose element is missing never changes the chosen section |
| App.LaterSectionsIgnored | src/App.tsx:28-31 | Once a section contains the probe, sections after it are not examined: appending any sections leaves the choice unchanged |
| App.ThreeSectionExample | src/App.tsx:22-33 | With intervals [0,100), [100,250), [250,500): scrollY 0 (probe 100, the top of the page) selects the second, scrollY 150 the third, scrollY -100 the first, and a probe past the end keeps the previous choice |
| App.AppState.constructor | src/App.tsx:17 | Before any scroll event the active section is "home" |
| App.AppState.HandleScroll | src/App.tsx:20-34 | The probe is `scrollY + 100`; the new active section is `Select` of the laid-out sections from the old one, and it is always one of the eight ids |
| ContactSection.FormData.With | src/components/sections/ContactSection.tsx:62-69 | The named field takes the new value and the other three fields keep theirs |
| ContactSection.ParamsOf | src/components/sections/ContactSection.tsx:77-83 | The outgoing parameters carry name, email, subject and message unchanged (the form is recoverable from them) and the fixed recipient |
| ContactSection.IncludedCharsOccur | src/components/sections/ContactSection.tsx:427 | Every character of a string that `includes` finds occurs in the searched string |
| ContactSection.Includes | src/components/sections/ContactSection.tsx:427 | `includes` finds a string only if it is no longer than the searched one, and always finds the empty string |
| ContactSection.StatusLineOf | src/components/sections/ContactSection.tsx:427-428 | The readout shows "Waiting for message..." when the status is empty and the status itself otherwise, and is green exactly when the status contains "successfully" |
| ContactSection.SuccessShownGreen | src/components/sections/ContactSection.tsx:91 | The success status is shown as it is, in green |
| ContactSection.FailureShownCyan | src/components/sections/ContactSection.tsx:101 | The failure status is shown as it is, not in green |
| ContactSection.TypeTick | src/components/sections/ContactSection.tsx:43-54 | A tick while typing and incomplete adds exactly one character; the text stays a prefix of the full text; typing stops only on the complete text; once stopped nothing changes |
| ContactSection.RunExtends | src/components/sections/ContactSection.tsx:43-54 | Any number of ticks keeps the text a prefix of the full text and only extends it |
| ContactSection.RunCompletes | src/components/sections/ContactSection.tsx:43-54 | From any consistent state, one tick per missing character plus one completes the text and stops typing |
| ContactSection.HeadlineTypesOut | src/components/sections/ContactSection.tsx:30-33 | From the initial empty text, `length + 1` ticks reach the full headline with typing stopped |
| ContactSection.ContactForm.constructor | src/components/sections/ContactSection.tsx:21-31 | Initially all four fields and the status are empty, nothing is loading, the headline is empty and typing |
| ContactSection.ContactForm.SubmitDisabled | src/components/sections/ContactSection.tsx:372 | The submit button is disabled exactly when its label is "sending..." |
| ContactSection.ContactForm.ButtonLabel | src/components/sections/ContactSection.tsx:403-405 | The label is "sending..." exactly while loading, "sendMessage()" otherwise |
| ContactSection.ContactForm.HandleInputChange | src/components/sections/ContactSection.tsx:62-69 | Only the named field changes; loading, status and headline are untouched |
| ContactSection.ContactForm.BeginSubmit | src/components/sections/ContactSection.tsx:71-89 | Loading starts, the status is cleared, the fields are not checked or changed, and the request sent carries the service id, template id and `ParamsOf` the current fields |
| ContactSection.ContactForm.FinishSubmit | src/components/sections/ContactSection.tsx:91-104 | Loading ends either way; on success the status is the success string and all fields are empty; on failure the status is the failure string and the fields are unchanged |
| ContactSection.ContactForm.Tick | src/components/sections/ContactSection.tsx:43-54 | The headline state moves by one `TypeTick` and stays consistent; the form is untouched |
| Sidebar.Ids | src/components/Sidebar.tsx:10-19 | The ids of the navigation items, in order |
| Sidebar.NavigationMatchesSections | src/components/Sidebar.tsx:10-19 | The navigation items are the eight sections the scroll handler examines, in the same order |
| Sidebar.NavigationIdsDistinct | src/components/Sidebar.tsx:10-19 | No two navigation items share an id |
| Sidebar.CountId | src/components/Sidebar.tsx:76 | The number of items with a given id is at most the number of items, and zero iff no item has it |
| Sidebar.DistinctIdsCountAtMostOne | src/components/Sidebar.tsx:76-77 | With distinct ids, at most one item carries any id |
| Sidebar.IsActive | src/components/Sidebar.tsx:76 | When an item is active, no item with another id is |
| Sidebar.IsHovered | src/components/Sidebar.tsx:77 | Nothing is hovered while `hoveredItem` is null, and when an item is hovered no item with another id is |
| Sidebar.OneActiveItem | src/components/Sidebar.tsx:76 | At most one item carries the active section's id and is highlighted, and exactly one for any of the eight section ids |
| Sidebar.OneHoveredItem | src/components/Sidebar.tsx:77 | At most one item is drawn hovered, and none when nothing is hovered |
| Sidebar.StyleOf | src/components/Sidebar.tsx:91-117 | An item is 140 wide with 20 padding and shows its label exactly when hovered, 56 wide with no padding otherwise, and is highlighted exactly when active |
| Sidebar.OverflowFor | src/components/Sidebar.tsx:32-38 | The body overflow is "hidden" exactly when the menu is open, and `''` when it is closed |
| Sidebar.SidebarState.constructor | src/components/Sidebar.tsx:22-23 | Initially the menu is closed, nothing is hovered, the body scrolls, nothing was navigated to |
| Sidebar.SidebarState.LockBodyScroll | src/components/Sidebar.tsx:32-38 | After the effect the body overflow matches the menu state |
| Sidebar.SidebarState.HandleClick | src/components/Sidebar.tsx:26-29 | The item's id goes to `onSectionClick` and the menu is closed (scroll unlocked), from either list |
| Sidebar.SidebarState.ToggleMenu | src/components/Sidebar.tsx:45 | The hamburger negates the menu state and the lock follows it |
| Sidebar.SidebarState.BackdropClick | src/components/Sidebar.tsx:133-139 | The backdrop closes the menu whatever its state and unlocks scrolling |
| Sidebar.SidebarState.MouseEnter | src/components/Sidebar.tsx:83 | The entered item becomes the hovered one; the menu is untouched |
| Sidebar.SidebarState.MouseLeave | src/components/Sidebar.tsx:84 | Nothing is hovered afterwards; the menu is untouched |
| ProjectsSection.FeaturedProjects | src/components/sections/ProjectsSection.tsx:63 | The featured list is no longer than the project list and holds only featured projects taken from it |
| ProjectsSection.OtherProjects | src/components/sections/ProjectsSection.tsx:64 | The other list is no longer than the project list and holds only non-featured projects taken from it |
| ProjectsSection.FilterMembersAll | src/components/sections/ProjectsSection.tsx:63-64 | Every project a filter keeps comes from the project list |
| ProjectsSection.FilterFeatured | src/components/sections/ProjectsSection.tsx:63-64 | The filtered list is no longer than the input and holds only projects with the requested flag |
| ProjectsSection.PartitionKeepsOrder | src/components/sections/ProjectsSection.tsx:63-64 | The project list is an interleaving of the featured and the other list: each keeps the original relative order and each project goes to exactly one |
| ProjectsSection.PartitionIsPermutation | src/components/sections/ProjectsSection.tsx:63-64 | Together the two lists hold exactly the projects, with their multiplicities |
| ProjectsSection.FilterMembers | src/components/sections/ProjectsSection.tsx:63-64 | A project is in a filtered list iff it is listed and has the requested flag |
| ProjectsSection.ExactlyOneList | src/components/sections/ProjectsSection.tsx:63-64 | A listed project is in the featured list iff it is featured and in the other list iff it is not |
| ProjectsSection.SecondaryCardTags | src/components/sections/ProjectsSection.tsx:196 | A secondary card shows a prefix of the technologies of length `min(3, n)` |
| ProjectsSection.MoreBadge | src/components/sections/ProjectsSection.tsx:204-207 | The "+k more" badge appears iff there are more than three technologies |
| ProjectsSection.CardTags | src/components/sections/ProjectsSection.tsx:116 | A card shows a prefix of its technologies; all of them iff it is featured or has at most three; at most three on a secondary card |
| ProjectsSection.TagsAccountForAll | src/components/sections/ProjectsSection.tsx:196-207 | The shown tags plus the badge's k equal the number of technologies, and the shown tags followed by the hidden ones are the whole list |
| ProjectsSection.FilterConcat | src/components/sections/ProjectsSection.tsx:63-64 | Filtering a concatenation is concatenating the filtered parts |
| ProjectsSection.FilterUniform | src/components/sections/ProjectsSection.tsx:63-64 | A list whose projects all share one flag is kept whole by that filter and emptied by the other |
| ProjectsSection.SiteListing | src/components/sections/ProjectsSection.tsx:6-64 | On the site's own list the first two projects are featured and the other four are secondary |
| ProjectsSection.SiteSecondaryCards | src/components/sections/ProjectsSection.tsx:196-207 | On the site's own list every secondary card shows three tags and a "+1 more" badge |

## Left out

- I/O: `emailjs.init` and the network call of `emailjs.send` are not modelled. Only the call's arguments (`BeginSubmit`'s result) and its outcome (`FinishSubmit`'s `sent`) are. The `console.error` logging on failure is left out too.
- The browser's `required` constraint check and the `type="email"` format check on the email input (src/components/sections/ContactSection.tsx:288) run before the submit handler. They are not modelled, because the handler itself validates nothing. `BeginSubmit` accepts any form, including empty fields.
- The `/500` counter under the message field is display only and enforces nothing. The model imposes no length limit.
- Timing: the 50 ms and 1000 ms timeouts are abstract ticks. Arming a timer and firing it are one `Tick`. Cancelling a pending tick when the effect re-runs is not modelled, because the next tick always reads the current state.
- React's render cycle: each handler's state update is applied at once. The body-scroll effect runs at the end of every handler that changes the menu state, not after the next render.
- `scrollToSection` / `scrollIntoView` (the `onSectionClick` target) is a DOM side effect. `SidebarState.navigated` records the ids passed to it and nothing more.
- ContactSection.ContactForm.HandleInputChange: the event's `target.name` is one of the four `Field` values, because only four inputs exist. A computed key naming some other property would add that property to `formData`; the model has no such case.
- App.AppState.HandleScroll: `window.scrollY` is modelled as an integer, though a browser may report fractional pixels. `offsetTop` and `offsetHeight` are integers in the browser too.
- JavaScript strings are UTF-16 and the model's strings are sequences of code points. This only changes the length of the rocket emoji in the success message, and no length of that string is used.
- Presentation: framer-motion animations, icons, colours other than the status readout's green or cyan, and the mouse-position and hover-card state of the contact section.
- Left out as decorative: the lanyard physics and rendering (`Lanyard.tsx`, `LanyardCard.tsx`), the random colour grid (`ChromaGrid.tsx`), the static content sections, the Tailwind configuration and the type declarations.
