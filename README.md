# Career portal listing and profile rules, in Dafny

This project models the rules of a small hackathon career portal that have
logic in them. The portal is a Next.js application. Most of it is database
and cloud-storage plumbing and React markup; the modelled part is:

- **The mock dashboard API** (`GET /api/dashboardApi`): it reads `search`,
  `page` and `itemsPerPage` from the query string, falling back to `""`, 1
  and 8. It keeps the twelve built-in users whose name contains the term,
  ignoring case, and answers with one page of them, the page count, the
  echoed page number and the number of matches (`dashboard_api.dfy`).
- **The sponsors' attendee list**. Applications are searched by the
  applicant's name and shown eight to a page. The bar under the list has
  previous and next controls around numbered links: the first page, the last
  page and the neighbours of the current page. An ellipsis stands two pages
  away from the current page (`sponsors.dfy`).
- **The student dashboard**. Career profiles are searched by the owner's name
  and shown eight to a page. A strip of "move to page" buttons shows pages
  2 to 8, plus a last-page button after an ellipsis when there are more than
  eight pages (`user_dashboard.dfy`).
- **The profile editor**. This covers the validation schema for the form and
  the picture upload, and the lookup that decides between editing and
  creating. It also covers the skills text, which is joined with `", "` for
  display and split on `,` and trimmed on submit, and the record and HTTP
  method of the save request (`edit_profile_form.dfy`).
- **The profile card**: the photo or a placeholder icon, the skills, the
  project links, the resume links and the website link. The resume's
  displayed name loses its numeric upload prefix (`^[0-9]+-`). The resume
  and the website each have a fallback text (`profile_card.dfy`).

The three listings share one rule, in `listing.dfy`: a case-insensitive name
filter followed by `slice((page - 1) * n, page * n)` and `ceil(count / n)`
pages. The JavaScript string operations they use are in `text.dfy`:
`toLowerCase`, `includes`, `trim`, `split` and `join`. `wrappers.dfy` holds
`Option`.

The pages' React state is modelled as classes:

- `Sponsors.SponsorsPage` holds `searchTerm`, `page`, `applications` and
  `loading`.
- `UserDashboard.UserDashboardPage` holds `searchTerm`, `currentPage` and
  `users`.

Their methods are the state updates the event handlers make. Each method
keeps the invariant `Listing.InRange`: the page is 1, or a page that exists.
The form's submit handler is an async sequence of requests. Its decisions
(which uploads happen, when it stops, which method and body it sends) are
modelled as the pure function `EditProfileForm.Submit` over the answers of
the upload routes.

Notes on the rules:

- The user dashboard's strip never offers a button for page 1
  (`UserDashboard.NoButtonForPageOne`). After moving to another page, the
  only way back to page 1 is a new search.
- When an existing profile without a website is edited, the website field is
  filled with `""`. The URL validator rejects `""`, so such a form does not
  validate until a URL is typed (`EditProfileForm.PrefilledWithoutWebsiteRejected`).
- The dashboard API does not guard its page parameters. A page past the last
  one simply gives an empty list (`Listing.PageEmptyIff`). Page numbers and
  sizes below 1 are outside the model; see "Left out".

## Model

| member | source | states |
|---|---|---|
| Text.Lower | src/app/api/dashboardApi/route.ts:112 | `toLowerCase` on ASCII: the length is kept, no upper-case letter is left, upper-case letters move by 32 and every other character is unchanged |
| Text.LowerIdempotent | src/app/api/dashboardApi/route.ts:112 | lower-casing twice is lower-casing once |
| Text.IncludesIffOccurs | src/app/api/dashboardApi/route.ts:112 | `s.includes(t)` holds iff `t` occurs in `s` at some index, in both directions |
| Text.IncludesEmpty | src/app/api/dashboardApi/route.ts:106-112 | every string includes `""`, the default term |
| Text.Includes | src/app/api/dashboardApi/route.ts:112 | `s.includes(t)`, a prefix test on `s` and its suffixes; IncludesIffOccurs ties it to the positional definition in both directions |
| Text.TrimStart | src/components/EditProfileForm.tsx:147 | the result is a suffix, the dropped part is whitespace, and the result does not start with whitespace |
| Text.TrimEnd | src/components/EditProfileForm.tsx:147 | the result is a prefix, the dropped part is whitespace, and the result does not end with whitespace |
| Text.Trim | src/components/EditProfileForm.tsx:147 | the result has no whitespace at either end and is no longer than the input |
| Text.TrimUnpads | src/components/EditProfileForm.tsx:147 | `trim` of a trimmed string padded with whitespace gives back exactly that string |
| Text.TrimAll | src/components/EditProfileForm.tsx:147 | `map(trim)` keeps the number of pieces and trims each one |
| Text.Split | src/components/EditProfileForm.tsx:147 | `split(",")` gives one piece per separator plus one, and no piece contains the separator |
| Text.JoinSplit | src/components/EditProfileForm.tsx:147 | joining the pieces of a split with the same separator gives back the original text |
| Text.SplitJoin | src/components/EditProfileForm.tsx:147 | splitting a join of a non-empty list of separator-free pieces gives back the pieces |
| Text.Join | src/components/EditProfileForm.tsx:86 | `xs.join(sep)`; JoinSplit and SplitJoin make it the inverse of `split` on separator-free pieces |
| Text.SplitTrimJoin | src/components/EditProfileForm.tsx:147 | splitting on `,` and trimming a `", "`-join of trimmed, comma-free pieces gives back the pieces (the join of line 86 is undone by line 147) |
| Listing.FilterByName | src/app/api/dashboardApi/route.ts:111-113 | no more items than the input; every kept item is an input item that matches; every matching input item is kept |
| Listing.NameMatches | src/app/api/dashboardApi/route.ts:112 | `name.toLowerCase().includes(term.toLowerCase())`; FilterIgnoresTermCase shows the term's case never matters |
| Listing.FilterConcat | src/app/api/dashboardApi/route.ts:111-113 | filtering distributes over concatenation, so the original relative order is kept |
| Listing.FilterAllMatch | src/app/api/dashboardApi/route.ts:111-113 | when every item matches, the list comes back unchanged |
| Listing.FilterNoneMatch | src/app/api/dashboardApi/route.ts:111-113 | when no item matches, the result is empty |
| Listing.FilterEmptyTerm | src/app/api/dashboardApi/route.ts:106-113 | the empty term keeps every item, in order |
| Listing.FilterIgnoresTermCase | src/app/api/dashboardApi/route.ts:111-113 | lower-casing the term first gives the same result |
| Listing.FilterIdempotent | src/app/api/dashboardApi/route.ts:111-113 | filtering twice by one term is filtering once |
| Listing.CeilDiv | src/app/api/dashboardApi/route.ts:121 | `Math.ceil(c / n)` is the least page count whose pages hold all `c` items |
| Listing.TotalPages | src/app/api/dashboardApi/route.ts:121 | the reported page count, `CeilDiv` of the count; PagesPartition and PageEmptyIff show it is exactly the number of non-empty pages |
| Listing.JsSlice | src/app/api/dashboardApi/route.ts:118 | `slice(start, end)` is `xs[start..min(end, len)]` when the start is inside the list, and empty otherwise |
| Listing.Page | src/app/api/dashboardApi/route.ts:116-118 | a page holds at most `n` items, all from the list |
| Listing.PageIsWindow | src/app/api/dashboardApi/route.ts:116-118 | a page that starts inside the list is `xs[(page-1)*n .. min(page*n, len)]` |
| Listing.PageEmptyIff | src/app/api/dashboardApi/route.ts:116-121 | a page is empty iff its number is greater than the page count |
| Listing.PageFullBeforeLast | src/app/api/dashboardApi/route.ts:116-121 | every page before the last holds exactly `n` items |
| Listing.ConcatPagesPrefix | src/app/api/dashboardApi/route.ts:116-118 | pages 1..k laid end to end are the first `min(k*n, len)` items |
| Listing.PagesPartition | src/app/api/dashboardApi/route.ts:116-121 | pages 1..totalPages laid end to end give back the whole list |
| Listing.ItemOnPage | src/app/api/dashboardApi/route.ts:116-121 | item `i` is on page `i / n + 1`, at position `i % n`, and that page exists |
| DashboardApi.Handle | src/app/api/dashboardApi/route.ts:103-130 | the page is echoed; at most `itemsPerPage` users, each a matching table user; `totalPages` is the least count that holds `totalUsers`; the list is empty iff the page is past the last |
| DashboardApi.SearchTerm | src/app/api/dashboardApi/route.ts:106 | the `search` parameter, `""` when absent; NoSearchKeepsAll shows that the absent term keeps every user |
| DashboardApi.RequestedPage | src/app/api/dashboardApi/route.ts:107 | the `page` parameter, 1 when absent; Handle echoes it and TwelveUsersDefaultPages uses the default |
| DashboardApi.ItemsPerPage | src/app/api/dashboardApi/route.ts:108 | the `itemsPerPage` parameter, 8 when absent; Handle and Get bound the page size by it |
| DashboardApi.Get | src/app/api/dashboardApi/route.ts:103-130 | the route over the built-in table: at most twelve users match, all twelve without a `search` parameter, and at most `itemsPerPage` are returned |
| DashboardApi.HandleIsPageOfMatches | src/app/api/dashboardApi/route.ts:111-128 | the users are the requested page of the matches, and `totalUsers` is the number of matches |
| DashboardApi.HandleWindow | src/app/api/dashboardApi/route.ts:116-118 | a page that starts inside the matches is `matches[(page-1)*n .. min(page*n, count)]` |
| DashboardApi.NoSearchKeepsAll | src/app/api/dashboardApi/route.ts:106-113 | without a `search` parameter every user matches, in table order |
| DashboardApi.ResponsePagesAreConcatPages | src/app/api/dashboardApi/route.ts:116-121 | the users of the answers for pages 1..k, laid end to end, are pages 1..k of the matches |
| DashboardApi.ResponsesPartitionMatches | src/app/api/dashboardApi/route.ts:116-121 | requesting pages 1..totalPages in turn returns every match exactly once, in order |
| DashboardApi.TwelveUsersDefaultPages | src/app/api/dashboardApi/route.ts:106-129 | for any twelve users and the defaults: page 1 is the first eight of two pages, page 2 the last four, page 3 empty |
| DashboardApi.MockDefaultPages | src/app/api/dashboardApi/route.ts:4-129 | the same three answers for the built-in table |
| DashboardApi.TwelveMatchesSecondPage | src/app/api/dashboardApi/route.ts:111-121 | twelve matching users at eight per page: page 2 holds the last four, and there are two pages and twelve users |
| Sponsors.FilteredApplicationsIsFilter | src/app/sponsors/page.tsx:49-55 | the empty-term shortcut agrees with the name filter, so the listing is always the name filter |
| Sponsors.FilteredApplications | src/app/sponsors/page.tsx:49-55 | no more applications than loaded; every kept one is loaded and matches; every loaded one that matches is kept |
| Sponsors.PageCount | src/app/sponsors/page.tsx:57 | `Math.ceil(filtered / 8)` through Listing.TotalPages; BarShownIff shows the bar appears iff it is above 1 |
| Sponsors.PaginatedApplications | src/app/sponsors/page.tsx:57-61 | at most eight applications, each in the list and matching the term |
| Sponsors.Slot | src/app/sponsors/page.tsx:200-234 | what the map renders for one page number: an ellipsis first, else nothing when not shown, else a link; LinkShownIff and EllipsisShownIff state which |
| Sponsors.Navigation | src/app/sponsors/page.tsx:186-248 | the bar: previous control, the items for pages 1..totalPages, next control, only with more than one page; BarShownIff states when it shows and which controls are disabled |
| Sponsors.ShowPage | src/app/sponsors/page.tsx:204-207 | page 1, the last page and the pages next to the current one are candidates for a link; LinkShownIff and FirstAndLastAreLinks use it |
| Sponsors.EllipsisBefore | src/app/sponsors/page.tsx:210 | the slot of `page-2` holds an ellipsis when `page > 3`; EllipsisShownIff uses it |
| Sponsors.EllipsisAfter | src/app/sponsors/page.tsx:211-212 | the slot of `page+2` holds an ellipsis when `page < totalPages - 2`; EllipsisShownIff uses it |
| Sponsors.Items | src/app/sponsors/page.tsx:200-235 | the rendered items are in strictly increasing page order within 1..k; each is what its slot renders; every slot that renders something is present |
| Sponsors.LinkShownIff | src/app/sponsors/page.tsx:204-233 | a link for `p` is shown iff `p` is a page, no ellipsis takes its slot, and `p` is first, last or next to the current page; it is active iff `p` is the current page |
| Sponsors.EllipsisShownIff | src/app/sponsors/page.tsx:209-222 | an ellipsis stands at `p` iff `p` is a page and is `page-2` with `page > 3` or `page+2` with `page < totalPages-2`; no link is then shown for `p` |
| Sponsors.CurrentPageIsOnlyActive | src/app/sponsors/page.tsx:224-229 | the current page is shown as an active link, and no other link is active |
| Sponsors.FirstAndLastAreLinks | src/app/sponsors/page.tsx:204-207 | the first and the last page are always links |
| Sponsors.BarShownIff | src/app/sponsors/page.tsx:186-248 | the bar appears iff there is more than one page; previous is disabled iff on page 1, next iff on the last page |
| Sponsors.ReachableStateShowsCurrentPage | src/app/sponsors/page.tsx:186-235 | in a reachable state with several pages, the bar shows the current page as an active link |
| Sponsors.SponsorsPage.Shown | src/app/sponsors/page.tsx:58-61 | at most eight applications are on screen |
| Sponsors.SponsorsPage.constructor | src/app/sponsors/page.tsx:28-31 | the state starts with an empty term, page 1, no applications and loading |
| Sponsors.SponsorsPage.FinishLoading | src/app/sponsors/page.tsx:33-47 | the fetched list is stored and loading ends; term and page are kept; the invariant holds |
| Sponsors.SponsorsPage.HandleSearch | src/app/sponsors/page.tsx:63-66 | the term is set and the page goes back to 1; nothing else changes; the invariant holds |
| Sponsors.SponsorsPage.HandlePageChange | src/app/sponsors/page.tsx:68-71 | moving to a page in range sets the page and keeps the invariant |
| Sponsors.SponsorsPage.Previous | src/app/sponsors/page.tsx:191 | from a page after the first, one page back; otherwise no change; the invariant holds |
| Sponsors.SponsorsPage.Next | src/app/sponsors/page.tsx:239-241 | from a page before the last, one page on; otherwise no change; the invariant holds |
| Sponsors.SponsorsPage.SelectPage | src/app/sponsors/page.tsx:226-228 | clicking any link of the bar moves to its page and keeps the invariant |
| UserDashboard.FilteredUsersIsFilter | src/app/user-dashboard/page.tsx:68-74 | before the profiles arrive the listing is empty; afterwards it is the name filter, whatever the term |
| UserDashboard.FilteredUsers | src/app/user-dashboard/page.tsx:68-74 | empty while the profiles are `null`; once loaded, no more profiles than loaded, every kept one matches, and every matching one is kept |
| UserDashboard.PageCount | src/app/user-dashboard/page.tsx:77 | `Math.ceil(filtered / 8)` through Listing.TotalPages; StripShownIff shows the strip appears iff it is above 1 |
| UserDashboard.StartIndex | src/app/user-dashboard/page.tsx:78 | `(currentPage - 1) * 8`; CurrentUsersIsPage makes the slice from it the current page |
| UserDashboard.EndIndex | src/app/user-dashboard/page.tsx:79 | `startIndex + 8`; CurrentUsersIsPage bounds what is on screen by it |
| UserDashboard.CurrentUsersIsPage | src/app/user-dashboard/page.tsx:77-80 | the profiles on screen are the current page of the listing: at most eight, the window from `(currentPage-1)*8` clipped to the list |
| UserDashboard.CurrentUsers | src/app/user-dashboard/page.tsx:77-80 | at most eight profiles on screen, each from the filtered list |
| UserDashboard.StripFromConsecutive | src/app/user-dashboard/page.tsx:160-174 | the buttons from array index `index` on are consecutive pages starting at `index + 2`, cut at the last page |
| UserDashboard.NumberedButtons | src/app/user-dashboard/page.tsx:160-174 | the `Math.min(7, totalPages)` numbered buttons that survive the `pageNum > totalPages` test; NumberedButtonsAre states which pages they are |
| UserDashboard.NumberedButtonsAre | src/app/user-dashboard/page.tsx:160-174 | the numbered buttons are pages 2..min(8, totalPages), in increasing order, each highlighted iff it is the current page |
| UserDashboard.NoButtonForPageOne | src/app/user-dashboard/page.tsx:160-186 | no button leads to page 1 |
| UserDashboard.LastPageButton | src/app/user-dashboard/page.tsx:175-186 | the extra button for the last page, only with more than eight pages; StripShownIff and HighlightIffCurrent state when it shows and when it is highlighted |
| UserDashboard.PaginationStrip | src/app/user-dashboard/page.tsx:154-190 | the strip: the current page label, the numbered buttons and the last-page button, only with more than one page; StripShownIff and NumberedButtonsAre state its contents |
| UserDashboard.StripShownIff | src/app/user-dashboard/page.tsx:154-186 | the strip appears iff there is more than one page; the last-page button appears iff there are more than eight, and it is after every numbered button |
| UserDashboard.HasButtonForIff | src/app/user-dashboard/page.tsx:160-186 | page `p` has a button iff `2 <= p <= min(8, totalPages)`, or `p` is the last page and there are more than eight pages |
| UserDashboard.HighlightIffCurrent | src/app/user-dashboard/page.tsx:167-182 | a button is highlighted iff its number is the current page |
| UserDashboard.UserDashboardPage.Shown | src/app/user-dashboard/page.tsx:80 | at most eight profiles are on screen |
| UserDashboard.UserDashboardPage.constructor | src/app/user-dashboard/page.tsx:25-27 | the state starts with an empty term, page 1 and no profiles |
| UserDashboard.UserDashboardPage.FinishLoading | src/app/user-dashboard/page.tsx:29-64 | the fetched profiles are stored; the term is kept and the view is on page 1 |
| UserDashboard.UserDashboardPage.HandleSearchChange | src/app/user-dashboard/page.tsx:83-86 | the term is set and the page goes back to 1; the profiles are kept; the invariant holds |
| UserDashboard.UserDashboardPage.SelectPage | src/app/user-dashboard/page.tsx:160-186 | clicking any button of the strip moves to its page and keeps the invariant |
| EditProfileForm.ImageUploadAcceptedIff | src/components/EditProfileForm.tsx:9-22 | a picture is accepted iff it is exactly one file of at most 5 242 880 bytes whose type is jpeg, jpg, png or webp |
| EditProfileForm.ValidImageUpload | src/components/EditProfileForm.tsx:12-22 | the three refinements of `imageUploadSchema`; ImageUploadAcceptedIff states exactly which uploads pass |
| EditProfileForm.ValidForm | src/components/EditProfileForm.tsx:24-44 | `formSchema` with the e-mail and URL validators as parameters; ValidFormBounds, EmptyPictureListRejected and EmptySkillsRejected state what it demands |
| EditProfileForm.TenMegabyteImageRejected | src/components/EditProfileForm.tsx:9-43 | a 10 MiB image is rejected whatever its type, and so is every form carrying it |
| EditProfileForm.ValidFormBounds | src/components/EditProfileForm.tsx:24-44 | a valid form has the name, college, graduation and user-id lengths in their bounds, non-empty skills, one PDF resume, and a picture of at most 5 MiB if any |
| EditProfileForm.EmptyPictureListRejected | src/components/EditProfileForm.tsx:12-43 | an empty file list for the picture fails the form; only an absent value skips the picture checks |
| EditProfileForm.SkillsArray | src/components/EditProfileForm.tsx:147 | the split has one entry per comma plus one, each trimmed |
| EditProfileForm.SkillsArrayPieces | src/components/EditProfileForm.tsx:147 | the entries are the comma-separated pieces of the text, in order, each trimmed |
| EditProfileForm.SkillsRoundTrip | src/components/EditProfileForm.tsx:147 | a non-empty stored list of trimmed, comma-free skills, joined for display (line 86) and split on submit, comes back unchanged |
| EditProfileForm.SkillsText | src/components/EditProfileForm.tsx:86 | a stored skill list joined with `", "`, `""` when absent; SkillsRoundTrip makes the submit-time split its inverse, EmptySkillsRejected shows the empty list fails the schema |
| EditProfileForm.EmptySkillsRejected | src/components/EditProfileForm.tsx:30 | a stored empty skill list shows as `""` (line 86), which the schema rejects |
| EditProfileForm.EditingIffFound | src/components/EditProfileForm.tsx:70-106 | starting from "creating", editing is on iff a user id was given and its record was found; a 404 turns editing off |
| EditProfileForm.Lookup | src/components/EditProfileForm.tsx:70-106 | editing ends up on iff the record was found, or it was on and the lookup did not run or failed otherwise; the form is filled iff found, and only the user id is filled iff 404 |
| EditProfileForm.PrefillValues | src/components/EditProfileForm.tsx:81-88 | the user-id field is never empty when an id was asked for; a missing website becomes `""`; missing projects become one empty project |
| EditProfileForm.PrefilledWithoutWebsiteRejected | src/components/EditProfileForm.tsx:81-88 | a record without a website prefills `""`, so the form fails the URL check |
| EditProfileForm.PrefilledSkillsRoundTrip | src/components/EditProfileForm.tsx:81-88 | loaded skills that are trimmed, comma-free and not empty are submitted as the stored list |
| EditProfileForm.WebsiteEntry | src/components/EditProfileForm.tsx:160 | the website key is present iff the website is non-empty, and then it carries the website |
| EditProfileForm.BuildProfile | src/components/EditProfileForm.tsx:150-161 | the record carries one trimmed skill per comma plus one, the two file references as given, and a website iff the form's website is non-empty |
| EditProfileForm.RequestMethod | src/components/EditProfileForm.tsx:164 | PUT when editing, POST otherwise; SubmitSends states the sent method is PUT iff editing |
| EditProfileForm.Submit | src/components/EditProfileForm.tsx:108-169 | the record is sent iff every needed upload succeeded; otherwise one of the three alerts is shown |
| EditProfileForm.SubmitSends | src/components/EditProfileForm.tsx:108-169 | when the needed uploads succeed, the record is sent to `/api/dashboard/{userid}` with PUT iff editing, and carries the skills split and trimmed |
| EditProfileForm.PictureFailureStops | src/components/EditProfileForm.tsx:114-124 | a picture upload with a non-OK status stops the submission with its alert |
| EditProfileForm.ResumeFailureStops | src/components/EditProfileForm.tsx:138-141 | once the picture step is through, a resume upload with a non-OK status stops the submission with "Failed to upload resume" |
| EditProfileForm.UploadThrowStops | src/components/EditProfileForm.tsx:111-188 | an upload that throws, of either chosen file, ends in "An error occurred while saving the profile" and nothing is sent |
| EditProfileForm.NoPictureEmptyPath | src/components/EditProfileForm.tsx:113-127 | with no picture chosen and the resume step through, the record is sent with picture path `""` |
| EditProfileForm.NoResumeEmptyPath | src/components/EditProfileForm.tsx:129-144 | with the picture step through and no resume chosen, the record is sent with resume path `""` |
| EditProfileForm.WebsiteKeyIffNonEmpty | src/components/EditProfileForm.tsx:150-161 | the sent record has a website iff the form's website is non-empty, and then it is the form's website |
| EditProfileForm.ValidFormSendsUploadedResume | src/components/EditProfileForm.tsx:129-144 | a valid form always uploads its resume, and the record carries the uploaded name |
| ProfileCard.LeadingDigits | src/components/ProfileCard.tsx:132 | the length of the digit run at the start of the name: all digits before it, a non-digit at it |
| ProfileCard.StripUploadPrefix | src/components/ProfileCard.tsx:132 | the displayed name is a suffix of the decoded stored name |
| ProfileCard.PrefixMatchUnique | src/components/ProfileCard.tsx:132 | at most one prefix matches `^[0-9]+-` |
| ProfileCard.StripRemovesMatch | src/components/ProfileCard.tsx:132 | when the name starts with digits and a dash, exactly that run and the dash are removed |
| ProfileCard.StripUnchangedIff | src/components/ProfileCard.tsx:132 | the name is unchanged iff it does not start with one or more digits followed by a dash |
| ProfileCard.StripExamples | src/components/ProfileCard.tsx:132 | `123-456-a.pdf` shows as `456-a.pdf`; `-a.pdf` and `2024cv.pdf` are unchanged |
| ProfileCard.Render | src/components/ProfileCard.tsx:25-186 | the card shown for the props; PictureShownIff, ResumeSectionIff, WebsiteSectionIff and RenderKeepsListOrder state each of its parts |
| ProfileCard.ResumeView | src/components/ProfileCard.tsx:122-154 | the preview and download links for a non-empty resume, else the fallback text; ResumeSectionIff states both directions |
| ProfileCard.WebsiteView | src/components/ProfileCard.tsx:160-178 | the `https://` link for a truthy website, else the fallback text; WebsiteSectionIff states both directions |
| ProfileCard.PictureShownIff | src/components/ProfileCard.tsx:36-48 | the photo is shown iff a non-empty picture URL is passed, and from that URL |
| ProfileCard.ResumeSectionIff | src/components/ProfileCard.tsx:122-154 | "No resume uploaded" shows iff the resume is empty; otherwise the caption is a suffix of the decoded name and the download goes to `/api/resume-download/` plus the encoded name |
| ProfileCard.WebsiteSectionIff | src/components/ProfileCard.tsx:160-178 | "No website provided" shows iff the website is absent or empty; otherwise the link is `https://` plus the website |
| ProfileCard.RenderKeepsListOrder | src/components/ProfileCard.tsx:78-113 | the skills and the projects are shown as given, in order |

## Left out

- `parseInt` of the query string is not modelled. `DashboardApi.Query` holds the parsed numbers; an absent or empty parameter is `None`. `NaN` from a non-numeric parameter is outside the model.
- DashboardApi.Handle: requires a page and a page size of at least 1 (`Servable`). The handler does not guard them: a page of 0 or below gives a JavaScript slice with a negative start, and a page size of 0 gives an `Infinity` or `NaN` page count. Neither is modelled.
- `Math.ceil` over floating-point division is modelled as integer ceiling division (`Listing.CeilDiv`). The two agree for the non-negative counts and positive sizes modelled.
- `toLowerCase` is modelled for ASCII letters only. Full Unicode case mapping, including mappings that change the length, is not modelled.
- String lengths in the schema (`min`/`max`) are counted in Dafny characters (Unicode scalar values), not in UTF-16 code units.
- zod's e-mail and URL validators are parameters (`isEmail`, `isUrl`). So are `decodeURIComponent` and `encodeURIComponent` (`decode`, `encode`). Their behaviour belongs to libraries that are not part of this model.
- The `instanceof File` check in the picture schema is taken to hold: a chosen file is always a `File`.
- react-hook-form is not modelled: how it registers the inputs and applies `setValue`, and its default of one empty project.
- `fetch`, `localStorage`, `alert` after the save request, `window.location`, `window.scrollTo` and `console` are not modelled. The page fetches on startup are modelled only by their result, passed to the `FinishLoading` methods.
- The user dashboard's per-profile signed-picture fetches are not modelled.
- The form's `isLoading` flag, and what the editor renders while loading, are not modelled.
- The rendering of the sponsors page while `loading` is true (the "Loading applications..." screen) is not modelled.
- The empty-list messages of the sponsors page are not modelled.
- Markup and styling are not modelled. Only what is shown, its order and its links are: the page items, the buttons, and the profile card's sections.
- The Prisma routes, the cloud-storage routes, the upload routes and the bulk zip routes are not modelled. Each of these is a call into a database, a storage service or an archive library that is not part of this model.
- EditProfileForm.Submit: stops at the save request. Upload answers with a non-OK status and uploads that throw are modelled; what happens at and after the save request (its answer, alerts, storage, redirect, and the generic alert when that request throws) is I/O and is not modelled. `result.publicUrl` and `result.fileName` are taken to be present in a successful upload's answer.
- Sponsors.SponsorsPage.SelectPage and UserDashboard.UserDashboardPage.SelectPage: model only clicks on controls the page actually renders, taken from the bar or strip of the current state.
