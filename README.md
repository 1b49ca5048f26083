# Portfolio admin system — a Dafny model

This project models the logic of a design studio's portfolio system: a Go
backend (Fiber over MongoDB and GridFS) that stores categories, projects
with their uploaded media, service steps and admin users; an admin
dashboard (Next.js) that edits them; and two public sites (a Vite/React
portfolio and a Next.js site with its own mock admin area) that present
them.

What is modelled:

- **Backend state** (`store.dfy`): the five collections and the GridFS
  bucket as maps in one class `Store.Db`, with an invariant `Valid()`
  (keys equal ids, category names distinct and normalised, every
  reference resolves, every file has its contents). ObjectIDs are
  24-digit lower-case hex strings (`object_ids.dfy`).
- **Backend handlers** as methods on `Db` that change only the maps they
  name: categories (`categories.dfy`, name normalisation in
  `category_names.dfy`), projects and file uploads (`projects.dfy`),
  service steps (`service_steps.dfy`), registration, login and password
  reset (`auth.dfy`), and the user model's email pattern and password
  digest (`users.dfy`). Each handler's outcome is a `Result` carrying
  the HTTP status and message it answers with.
- **Admin dashboard**: YouTube link recognition (`youtube.dfy`), project
  cards, the view modal, the pager and the projects table
  (`admin_projects.dfy`), dashboard statistics (`dashboard.dfy`), the
  service-step edit dialog (`service_step_dialog.dfy`), the categories
  page (`categories_page.dfy`), and the route guard with its token cache
  and the login page (`logins.dfy`).
- **Public sites**: portfolio item mapping, tiles and modal
  (`portfolio_items.dfy`), the four portfolio pages' loading and paging
  (`portfolio_pages.dfy`), the portfolio section's pager
  (`portfolio_section.dfy`), the contacts page and the project gallery
  (`contacts_gallery.dfy`), the static catalogue queries and the toast
  list (`catalog_toasts.dfy`; the user application and the public site
  each carry a `lib/data.ts` whose query functions are the same while
  their type names and catalogue entries differ; the queries are cited
  once, from the user application, and take the catalogue as a
  parameter), and the
  public site's guard and mock login (`logins.dfy`).
- Shared pieces: `base.dfy` (Option, Result, HTTP failures), `seqs.dfy`
  (order-preserving filter, de-duplication, flattening, counting) and
  `text.dfy` (ASCII case mapping, substring search, JavaScript `trim`,
  Go `strings.Split`, decimal rendering, JavaScript truthiness).

React state updates are modelled as functions from the old page state to
the new one; loops that update variables or objects in place are methods
with loop invariants, proved against the functions that specify them.

## Model

| member | source | states |
|---|---|---|
| ObjectIds.FromHex | backend/controllers/category_controller.go:179-185 | `primitive.ObjectIDFromHex`: accepts exactly 24 hexadecimal digits, in either case, and yields the lower-case id |
| ObjectIds.HexRoundTrip | backend/controllers/project_controller.go:117 | the text form of an id (`Hex()`, lower case) parses back to the same id |
| ObjectIds.FromHexIgnoresCase | backend/controllers/category_controller.go:179 | an id written in upper case parses to the same id |
| Store.Db.constructor | backend/controllers/project_controller.go:104 | the six collections start empty and the store invariant holds |
| Store.FindCategoryByName | backend/controllers/category_controller.go:63 | `FindOne({nameCategory})`: finds the stored category with exactly that name, which is unique, or reports that there is none |
| Store.CategoryNamedUnique | backend/controllers/category_controller.go:62-70 | with distinct names, the category holding a name is the one the lookup finds |
| Store.CategoryOf | backend/controllers/project_controller.go:192-213 | the category a path segment names: its normalised name must be non-empty and stored, else 400 |
| Store.CategoryOfIgnoresCase | backend/controllers/project_controller.go:192 | path segments that differ only in letter case resolve alike |
| Store.ResolveCategory | backend/controllers/project_controller.go:192-213 | the lookup the handlers perform computes that resolution |
| CategoryNames.Title | backend/controllers/category_controller.go:56 | `strings.Title`: exactly the letters that start a word are upper-cased, the rest of the string is kept |
| CategoryNames.Norm | backend/controllers/category_controller.go:56 | normalisation keeps the length: it never trims |
| CategoryNames.NormIsTitleCased | backend/controllers/category_controller.go:56 | the normalised name is title-cased and has the same letters, ignoring case, as the raw name |
| CategoryNames.NormUnique | backend/controllers/category_controller.go:56 | the title-cased string with a name's letters is exactly its normal form |
| CategoryNames.NormIdempotent | backend/controllers/category_controller.go:56 | normalising twice equals normalising once |
| CategoryNames.NormIgnoresCase | backend/controllers/category_controller.go:56 | two names normalise alike exactly when they differ only in letter case |
| CategoryNames.NormOfUpper | backend/controllers/category_controller.go:56 | upper-casing first does not change the normal form |
| Categories.AddCheck | backend/controllers/category_controller.go:21-70 | passes exactly with claims, a non-empty name and no category already holding its normal form; an empty name gives 400 "NameCategory is required" |
| Categories.AddCategory | backend/controllers/category_controller.go:21-89 | a refused add changes nothing; an accepted one adds exactly one category, holding the normalised name |
| Categories.AddTwiceConflicts | backend/controllers/category_controller.go:62-70 | adding a name, then the same name in another letter case, gives 400 "Category already exists" |
| Categories.AddKeepsNamesDistinct | backend/controllers/category_controller.go:62-83 | an accepted add keeps category names pairwise distinct |
| Categories.GetCategories | backend/controllers/category_controller.go:91-129 | every stored category, once, with the count |
| Categories.UpdateCheck | backend/controllers/category_controller.go:131-213 | passes exactly with claims, an id, a name, a hex id naming a stored category and no other category holding the new name; an unknown id gives 404 |
| Categories.UpdateCategory | backend/controllers/category_controller.go:131-245 | a refused update changes nothing; an accepted one changes only that category's name and update time |
| Categories.RenameKeepsNamesDistinct | backend/controllers/category_controller.go:199-215 | a rename that passed the duplicate check keeps names distinct |
| Categories.RenameToOwnNameAllowed | backend/controllers/category_controller.go:199 | renaming a category to its own name is accepted |
| Categories.RenameToOtherNameRefused | backend/controllers/category_controller.go:199-206 | renaming to another category's name gives 400 "Category name already exists" |
| Categories.DeleteCheck | backend/controllers/category_controller.go:247-323 | passes exactly with claims, a hex id naming a stored category, and no project or service step referring to it; a non-hex id gives 400 |
| Categories.DeleteCategory | backend/controllers/category_controller.go:247-345 | a refused delete changes nothing; an accepted one removes only that category |
| Categories.UnusedRemovalKeepsReferences | backend/controllers/category_controller.go:296-326 | removing an unreferenced category leaves every project and step reference resolvable |
| Categories.DeleteRefusedWhileReferenced | backend/controllers/category_controller.go:296-309 | a category some project refers to cannot be deleted, whatever case its id is written in |
| Projects.AdmissionByKind | backend/controllers/project_controller.go:40-65 | a "video" upload is admitted exactly when it is at most 50 MiB and typed video/mp4 or video/webm; any other kind exactly when at most 10 MiB and typed image/jpeg or image/png; no upload is admissible as both a video and an image |
| Projects.IsAllowedType | backend/controllers/project_controller.go:55-61 | the `isValidType` loop reports true exactly when the content type is in the allow-list |
| Projects.FileUrlRoundTrip | backend/controllers/project_controller.go:117 | the URL built from a stored file's id parses back, by the `deleteGridFSFile` rules, to that same id |
| Projects.FileIdOf | backend/controllers/project_controller.go:547-556 | a URL with fewer than five `/`-separated parts names no file; with five or more, the file is exactly what its last part parses to as a hex id |
| Projects.FewSlashesNoFile | backend/controllers/project_controller.go:547-551 | a URL with fewer than five `/`-separated parts names no file, so nothing is deleted |
| Projects.YouTubeLinksNoFile | backend/controllers/project_controller.go:547-557 | `youtu.be/<v>` and `youtube.com/watch?v=<v>` links never name a stored file |
| Projects.Extension | backend/controllers/project_controller.go:331 | `filepath.Ext`: empty, or a suffix of the name that starts with its only dot and holds no slash |
| Projects.ContentTypeOfKnownExtension | backend/controllers/project_controller.go:330-343 | .jpg/.jpeg serve image/jpeg, .png image/png, .mp4 video/mp4 and .webm video/webm, in any letter case; every served type other than application/octet-stream is one that uploads admit |
| Projects.ContentTypeFor | backend/controllers/project_controller.go:329-346 | a download is served as application/octet-stream exactly when its lower-cased extension is none of .jpg, .jpeg, .png, .mp4, .webm; otherwise with one of the four media types |
| Projects.ContentTypeWithoutExtension | backend/controllers/project_controller.go:330-343 | a file name without a dot is served as application/octet-stream |
| Projects.GetFile | backend/controllers/project_controller.go:285-360 | an empty id gives 400 "File ID is required", a non-hex id 400 "Invalid file ID", an unknown id 404; otherwise the stored bytes with the content type of the stored name |
| Projects.UploadToGridFs | backend/controllers/project_controller.go:36-120 | succeeds exactly for admissible uploads; the size check comes first, then the type check, and a rejected upload stores nothing; a success stores one blob and one metadata record under the same id and answers that file's URL |
| Projects.UploadFile | backend/controllers/project_controller.go:122-173 | no claims gives 401; a missing file part gives 400; a kind other than image or video gives 400; otherwise the outcome of the upload |
| Projects.AddProject | backend/controllers/project_controller.go:175-283 | claims, then category, then upload kind are checked in that order; a file part wins and lands in ImageUrl for "image" and in VideoUrl for "video"; otherwise the form's videoUrl is kept verbatim; with neither the answer is 400 and nothing is inserted; a success inserts exactly one project |
| Projects.ScopedProjectSound | backend/controllers/project_controller.go:362-447 | a project found for update or delete is the stored project with the requested id whose category has the normalised requested name |
| Projects.ScopedProjectExactly | backend/controllers/project_controller.go:425-447 | with distinct category names, a project is in scope exactly when the request names its id and its category's normalised name |
| Projects.FindScopedProject | backend/controllers/project_controller.go:362-432 | the shared checks compute the scoped lookup: claims, id, category, hex id and the (id, category) match |
| Projects.UpdateProject | backend/controllers/project_controller.go:362-464 | out of scope the store is unchanged and the error is returned; in scope both URLs are overwritten (even with "") and updatedAt set, and no other project changes |
| Projects.DeleteStoredFile | backend/controllers/project_controller.go:542-576 | a URL naming no file deletes nothing and succeeds; a named file missing from GridFS is a 500 that changes nothing; otherwise exactly that blob and its metadata are removed |
| Projects.DeleteMedia | backend/controllers/project_controller.go:578-588 | the image's file goes first, then the video's, and the first failure stops the deletions |
| Projects.DeleteProject | backend/controllers/project_controller.go:466-618 | out of scope the store is unchanged; otherwise the media files (metadata and bytes) and then the project are removed, unless a referenced file is missing, which gives 500 and keeps the files already removed |
| Projects.MediaTypeOfUpload | backend/controllers/project_controller.go:674-720 | a project whose media URL is an uploaded file is listed with the kind that file was stored as |
| Projects.MediaTypeOf | backend/controllers/project_controller.go:674-720 | the listed media type is empty, "youtube", or the stored kind of some file; a project with neither URL gets the empty type |
| Projects.MediaTypeOfYouTube | backend/controllers/project_controller.go:679-682 | a video URL mentioning youtube.com or youtu.be is listed as "youtube" |
| Projects.BuildListing | backend/controllers/project_controller.go:652-727 | the loop's output is the listing of the cursor: the entries of the projects with non-zero ids, in cursor order |
| Projects.InOrderExactly | backend/controllers/project_controller.go:750 | the sorted cursor lists every stored project exactly once, newest first |
| Projects.GetAllProjects | backend/controllers/project_controller.go:744-773 | every project, each once, newest first |
| Projects.GetProjectsByCategory | backend/controllers/project_controller.go:620-742 | an unresolved category returns its error; otherwise the listing of the category's cursor |
| Projects.CategoryCursorExactly | backend/controllers/project_controller.go:643 | the category cursor holds exactly the projects of that category, newest first |
| Projects.ListingShape | backend/controllers/project_controller.go:652-727 | the listing holds no zero id, stays newest first, and keeps every project with a real id |
| ServiceSteps.Cleaned | backend/controllers/service_step_controller.go:115-121 | a kept subtitle keeps its text and loses only its empty headings, order preserved and untrimmed |
| ServiceSteps.CleanedIdempotent | backend/controllers/service_step_controller.go:115-121 | cleaning a second time changes nothing, and does not change whether the subtitle has content |
| ServiceSteps.Kept | backend/controllers/service_step_controller.go:114 | the intended filter (Findings row 1): never longer than the input; every kept subtitle has text or a non-empty heading, no empty heading, and is the cleaned form of an input subtitle |
| ServiceSteps.KeptConcat | backend/controllers/service_step_controller.go:114 | the intended filter works subtitle by subtitle, so it keeps the input order |
| ServiceSteps.KeptKeepsContent | backend/controllers/service_step_controller.go:114 | under the intended filter every subtitle with text or a non-empty heading is kept, cleaned |
| ServiceSteps.KeptIdempotent | backend/controllers/service_step_controller.go:114 | the intended filter, applied to its own output, changes nothing (the written one does not have this, see EmptySubtitleStoredAsWritten) |
| ServiceSteps.ContentIffKept | backend/controllers/service_step_controller.go:114 | with the intended test, some subtitle has content exactly when the intended filter keeps something |
| ServiceSteps.HasContent | backend/controllers/service_step_controller.go:73-79 | the `hasContent` loop (also 210-215) is true exactly when some subtitle has text or any heading, empty or not |
| ServiceSteps.FilterSubtitles | backend/controllers/service_step_controller.go:111-127 | the nested loops (also 266-279) return the handlers' filter: subtitles with text or any heading, in order, each without its empty headings |
| ServiceSteps.KeptAsWritten | backend/controllers/service_step_controller.go:111-127 | the handlers' filter never lengthens the list, and no stored subtitle carries an empty heading |
| ServiceSteps.KeptAsWrittenExactly | backend/controllers/service_step_controller.go:111-127 | the handlers' filter is exactly: keep the subtitles with text or any heading, in order, and drop each one's empty headings |
| ServiceSteps.KeptAsWrittenConcat | backend/controllers/service_step_controller.go:111-127 | the handlers' filter works subtitle by subtitle, so it keeps the input order |
| ServiceSteps.ContentIffKeptAsWritten | backend/controllers/service_step_controller.go:73-127 | the handlers' `hasContent` check passes exactly when their filter stores something |
| ServiceSteps.EmptySubtitleStoredAsWritten | backend/controllers/service_step_controller.go:111-127 | as written, a subtitle with no text and one empty heading passes the check and is stored as an empty subtitle that a second pass of the same filter drops |
| ServiceSteps.AsWrittenDiffersOnlyOnEmptyHeadings | backend/controllers/service_step_controller.go:111-127 | the written test and the intended one differ only on subtitles with no text whose headings are all empty |
| ServiceSteps.BodyCheck | backend/controllers/service_step_controller.go:61-109 | a body passes exactly with a category id, a title and a subtitle with text or any heading, and when the id is hex, stored and names the path's category; every refusal is 400 |
| ServiceSteps.CheckBody | backend/controllers/service_step_controller.go:61-109 | the sequence of checks computes that verdict |
| ServiceSteps.BodyMatchesPath | backend/controllers/service_step_controller.go:95-109 | with distinct names, an accepted body names the very category the path resolves to |
| ServiceSteps.PathCheck | backend/controllers/service_step_controller.go:28-46 | claims and a non-empty path category are required, and the name is normalised |
| ServiceSteps.AddServiceStep | backend/controllers/service_step_controller.go:23-150 | a refused add changes nothing; an accepted add stores exactly one step, whose subtitles are the handlers' filter of the body's |
| ServiceSteps.ScopedStep | backend/controllers/service_step_controller.go:257 | a step is found only when its hex id is stored and it belongs to the given category |
| ServiceSteps.UpdateServiceStep | backend/controllers/service_step_controller.go:152-321 | a refused update changes nothing; an accepted one overwrites only title, subtitles (the handlers' filter of the body's), category and update time of that step |
| ServiceSteps.PathScopedStepSound | backend/controllers/service_step_controller.go:362-378 | a step found by delete or get is the stored step with that id, in the category the path names |
| ServiceSteps.FindPathScopedStep | backend/controllers/service_step_controller.go:323-378 | the checks of delete and get compute the scoped lookup |
| ServiceSteps.DeleteServiceStep | backend/controllers/service_step_controller.go:323-397 | out of scope nothing changes; otherwise exactly that step is removed |
| ServiceSteps.GetServiceStep | backend/controllers/service_step_controller.go:462-531 | returns the scoped step, a stored step of the path's category |
| ServiceSteps.GetServiceSteps | backend/controllers/service_step_controller.go:399-460 | no claims gives 401; a category that does not resolve gives that resolution's error; otherwise exactly the steps of the category, each once |
| ServiceSteps.InOrderOnce | backend/controllers/service_step_controller.go:438-448 | steps stored under their own ids, read in an order that names no key twice, come out once each, as the cursor returns each document once |
| Auth.RegisterCheck | backend/controllers/auth_controller.go:31-58 | passes exactly with both fields, an unused email and a successful hash; the stored digest differs from the password; missing fields give 400 and a used email 409 |
| Auth.Register | backend/controllers/auth_controller.go:15-80 | a refused registration changes nothing; an accepted one adds exactly that user and answers only the email |
| Auth.RegisterThenLogin | backend/controllers/auth_controller.go:65-112 | after registering, the new user can log in with exactly that password, and every other user's logins are as before |
| Auth.RegisterTwiceConflicts | backend/controllers/auth_controller.go:43-48 | registering an email a second time gives 409 |
| Auth.Login | backend/controllers/auth_controller.go:82-138 | succeeds exactly for a stored email with the matching password, with claims {email, exp = now + 86400}; an unknown email and a wrong password give the same 401 |
| Auth.ResetCheck | backend/controllers/auth_controller.go:147-206 | passes exactly when the token's email is the body's email, both fields are present, the user exists and hashing succeeds; a different email gives 403 |
| Auth.ResetPassword | backend/controllers/auth_controller.go:140-236 | a refused reset changes nothing; an accepted one replaces only that user's digest and sets its update time |
| Auth.ResetThenLogin | backend/controllers/auth_controller.go:210-217 | after a reset the user logs in with exactly the new password, and nobody else's logins change |
| Passwords.Hash | backend/models/user_model.go:22 | the stored digest never equals the password |
| Passwords.HashThenMatch | backend/models/user_model.go:30-33 | a digest matches exactly the password it was made from |
| Passwords.SaltsDiffer | backend/models/user_model.go:22 | two salts give different digests of one password, and both match it |
| Users.ValidFromParts | backend/models/user_model.go:17 | local part, "@", domain, ".", and a top-level part of two or more letters make a valid address |
| Users.PartsOfValid | backend/models/user_model.go:17 | every valid address splits into such parts |
| Users.ValidHasOneAt | backend/models/user_model.go:17 | a valid address contains exactly one '@' |
| Users.AcceptedExample | backend/models/user_model_test.go:10 | "john@example.com" is valid |
| Users.AcceptedDottedExample | backend/models/user_model_test.go:13 | "user@domain.co.th" is valid |
| Users.RejectedExamples | backend/models/user_model_test.go:11-12 | "invalid@" and "" are not valid |
| Users.User.constructor | backend/models/user_model.go:10-14 | a user holds the email and password given |
| Users.User.SetPassword | backend/models/user_model.go:21-28 | a hashing failure leaves the password unchanged; otherwise it becomes the digest of the raw password |
| Users.SetThenCheck | backend/models/user_model_test.go:26-42 | after setting p, the stored password differs from p, p checks and any other password does not |
| YouTubeLinks.StrictId | admin/src/components/project/ProjectCard.tsx:40-44 | the id the anchored pattern captures is exactly eleven letters, digits, `_` or `-` |
| YouTubeLinks.StrictEmbedUrl | admin/src/components/project/ProjectCard.tsx:40-44 | an embed URL exists exactly when the anchored pattern matches, and it is the embed base followed by the captured id |
| YouTubeLinks.StrictComplete | admin/src/components/project/ProjectCard.tsx:41 | every link of the form optional scheme, optional `www.`, `youtube.com/watch?v=` or `youtu.be/`, eleven id characters is recognised and yields that id |
| YouTubeLinks.StrictSound | admin/src/components/project/ProjectCard.tsx:41 | every recognised link has that form, with the captured id in place |
| YouTubeLinks.RunLength | user/src/components/ui/PortfolioSection/MediaItem.tsx:35 | the `[^&\n?#]+` run stops exactly at the first `&`, newline, `?` or `#` |
| YouTubeLinks.FirstMatch | user/src/components/ui/PortfolioSection/MediaItem.tsx:35-36 | the unanchored search finds the leftmost position where a key is followed by a non-empty run, and no earlier one |
| YouTubeLinks.LooseId | user/src/components/ui/PortfolioSection/MediaItem.tsx:34-41 | an id is captured exactly when the search matches; it is non-empty and holds no stop character |
| YouTubeLinks.Thumbnail | user/src/components/ui/PortfolioSection/MediaItem.tsx:34-41 | the thumbnail URL is empty exactly when no id is captured |
| YouTubeLinks.LooseEmbedUrl | user/src/components/ui/PortfolioSection/ModalContent.tsx:53-61 | a link without a match is returned unchanged; otherwise the result is an embed URL |
| YouTubeLinks.LooseIdOfEmbed | user/src/components/ui/PortfolioSection/ModalContent.tsx:53-61 | an embed URL built from an id captures that same id again |
| YouTubeLinks.LooseEmbedIdempotent | user/src/components/ui/PortfolioSection/ModalContent.tsx:53-61 | converting an already converted link changes nothing |
| YouTubeLinks.StrictImpliesLoose | user/src/components/ui/PortfolioSection/ModalContent.tsx:55 | every link the admin pattern accepts is also accepted by the public site's pattern, whose id starts with the admin id |
| YouTubeLinks.LooseMeansYouTube | user/src/components/ui/PortfolioSection/MediaItem.tsx:26-36 | a link whose id is captured contains `youtube.com` or `youtu.be`, so it is also detected as a YouTube item |
| ProjectCard.HeaderLabel | admin/src/components/project/ProjectCard.tsx:58 | the label is "Image" exactly when there is an image URL, and "No Media" exactly when neither URL is set |
| ProjectCard.PreviewOf | admin/src/components/project/ProjectCard.tsx:143-168 | the image wins; else a recognised YouTube link gives its embed; else a video URL is played directly; else "No Media" |
| ProjectCard.HeaderAgreesWithPreview | admin/src/components/project/ProjectCard.tsx:58 | the header label and the preview always name the same kind of media |
| ProjectViewModal.PreviewOf | admin/src/components/project/ProjectViewModal.tsx:67-94 | the modal previews the selected project exactly as its card does, and shows "No Media" with nothing selected |
| ProjectViewModal.CategoryLabel | admin/src/components/project/ProjectViewModal.tsx:101 | the category line is never empty: the name when it is non-empty, else "Unknown" |
| PaginationControls.Summary | admin/src/components/project/PaginationControls.tsx:23 | the summary starts with "Showing", the one-based index of the first project, and "to" |
| PaginationControls.Buttons | admin/src/components/project/PaginationControls.tsx:35-49 | there is one page button per page, numbered 1 to totalPages in order |
| PaginationControls.ControlsStayInRange | admin/src/components/project/PaginationControls.tsx:26-58 | on a valid page every enabled control requests a page in range, and exactly the current page's button is highlighted |
| ProjectsPage.Filtered | admin/src/app/dashboard/projects/page.tsx:113-119 | a project is listed exactly when its title or description contains the query, ignoring case, and its status passes the filter |
| ProjectsPage.EmptySearchShowsAll | admin/src/app/dashboard/projects/page.tsx:113-119 | an empty query with "All" selected lists every project in order |
| ProjectsPage.LongerQueryNarrows | admin/src/app/dashboard/projects/page.tsx:114-115 | extending the query never lists a project the shorter query hid |
| ProjectsPage.DeleteChosen | admin/src/app/dashboard/projects/page.tsx:122-133 | without a chosen project nothing changes and no toast is raised; otherwise every project with that id goes, the rest stay in order, the "Project deleted" toast is raised and the choice is cleared |
| ProjectsPage.DeleteUnknownKeepsTable | admin/src/app/dashboard/projects/page.tsx:122-133 | deleting an id no project carries keeps the table as it was, though the "Project deleted" toast is still raised |
| ProjectsPage.ShortDescription | admin/src/app/dashboard/projects/page.tsx:242-244 | a description of at most 60 characters is shown whole; a longer one as its first 60 characters and "..." |
| ProjectsPage.ShortDescriptionIdempotent | admin/src/app/dashboard/projects/page.tsx:242-244 | shortening a shortened description changes nothing |
| ProjectsPage.StatusColor | admin/src/app/dashboard/projects/page.tsx:146-161 | each of the five statuses has its own badge colour: complete green, in progress blue, planning amber, on hold gray, cancelled red |
| PortfolioItems.KnownMediaType | user/src/pages/logo.tsx:32-39 | a type is kept exactly when it is "video", "image" or "youtube"; anything else, or none, becomes undefined |
| PortfolioItems.FallbackId | user/src/pages/logo.tsx:69 | the fallback id is never empty: it is "fallback-" followed by at least one digit |
| PortfolioItems.DetectMediaType | user/src/components/ui/PortfolioSection/MediaItem.tsx:19-31 | an explicit type wins; otherwise the result is one of the three types, "youtube" exactly when the shown link mentions YouTube, and "image" only when there is no video URL |
| PortfolioItems.ThumbnailImpliesYouTube | user/src/components/ui/PortfolioSection/MediaItem.tsx:19-41 | an untyped item whose link yields a thumbnail id is always detected as YouTube, so a thumbnail is never computed for an item shown as image or video |
| PortfolioItems.FirstContaining | user/src/pages/logo.tsx:114-115 | the result is the first subtitle containing the word, or "" exactly when none does |
| PortfolioItems.ServiceOf | user/src/pages/logo.tsx:108-116 | a service card always has a title; its description and features are the subtitles and headings (empty when absent); the timeline and revisions lines, when set, are subtitles containing their marker words |
| MediaItem.TileOf | user/src/components/ui/PortfolioSection/MediaItem.tsx:148-195 | the tile is a placeholder exactly when there is no link; an image tile shows the link; a YouTube tile shows the thumbnail; a blank tile happens only for an explicit type outside the three |
| MediaItem.UntypedNeverBlank | user/src/components/ui/PortfolioSection/MediaItem.tsx:148-195 | an untyped item is never rendered blank, and it is square only when it has no video URL |
| ModalContent.ViewOf | user/src/components/ui/PortfolioSection/ModalContent.tsx:98-150 | the modal shows "unavailable" exactly when there is no link, and a YouTube view plays the converted embed URL |
| ModalContent.FindMarker | user/src/components/ui/PortfolioSection/ModalContent.tsx:72 | the search finds the leftmost case-insensitive occurrence of "logo project", or reports that there is none |
| ModalContent.CleanTitle | user/src/components/ui/PortfolioSection/ModalContent.tsx:71-72 | the shown title is never empty and never starts or ends with whitespace; it is the title with its first case-insensitive "logo project" cut out (if any), trimmed, or "Untitled" when only whitespace is left |
| ModalContent.LeadingMarkerDropped | user/src/components/ui/PortfolioSection/ModalContent.tsx:71-72 | a title "logo project" followed by some text shows that text, trimmed |
| ModalContent.MarkerOnlyIsUntitled | user/src/components/ui/PortfolioSection/ModalContent.tsx:72 | a title that is only "logo project", in any case, is shown as "Untitled" |
| PortfolioPaging.Window | user/src/pages/advertisement.tsx:55-58 | the answer to `limit`/`offset` holds at most `limit` items, exactly `limit` when the list reaches that far, each the item at its offset |
| PortfolioPaging.WindowExtends | user/src/pages/advertisement.tsx:103-108 | the loaded prefix followed by the next window is the longer prefix |
| PortfolioPaging.ErrorText | user/src/pages/advertisement.tsx:113 | the error text is empty only when both the message and the default are |
| PortfolioPaging.Feed.constructor | user/src/pages/advertisement.tsx:46-52 | nothing is loaded, loading is on, the offset starts at 4 and more is assumed |
| PortfolioPaging.Feed.Load | user/src/pages/advertisement.tsx:121-157 | a rejected items or services fetch leaves items and cards as they were and sets the error text; once both answer, the items are installed even when the services answer has a failure status, which sets the error from its status text; a good answer installs the cards; loading ends either way; a first window installed starts the feed tracking the list |
| PortfolioPaging.ServicesOf | user/src/pages/advertisement.tsx:141-151 | the cards of an answer are its steps mapped one by one, in order; a missing `data` gives no cards |
| PortfolioPaging.Feed.FetchMore | user/src/pages/advertisement.tsx:100-118 | a success appends the page and moves the offset on by 8, and more remains only after a full page; a failure sets the error and keeps the list; fetching the window at the offset keeps the loaded items the list's prefix up to the offset |
| LogoPage.MapProject | user/src/pages/logo.tsx:67-80 | the item has a non-empty id (the server's, else the fallback), a title, the "logo" category, every link set (to "" when absent) and only a known media type |
| LogoPage.MapAnswer | user/src/pages/logo.tsx:67-87 | one item per project, in order; the id filter removes nothing |
| LogoPage.NextPageParam | user/src/pages/logo.tsx:142-145 | no next page after a short page; otherwise the next offset is the number of items the pages hold |
| LogoPage.PagesAsWritten | user/src/pages/logo.tsx:139-147 | the pages the infinite query fetches with the offset as written |
| LogoPage.ImagesAsWritten | user/src/pages/logo.tsx:149-153 | the shown images start with the first four items of the list, followed by the pages fetched with the offset as written |
| LogoPage.OverlappingPages | user/src/pages/logo.tsx:142-152 | with sixteen items, one more fetch shows twenty images, item 8 twice |
| LogoPage.NextPageParamFixed | user/src/pages/logo.tsx:142-145 | the corrected offset counts the four initial items as well |
| LogoPage.Pages | user/src/pages/logo.tsx:139-147 | the pages fetched with the corrected offset |
| LogoPage.Images | user/src/pages/logo.tsx:149-153 | with the corrected offset the shown images also start with the first four items of the list |
| LogoPage.NextWindow | user/src/pages/logo.tsx:142-145 | after a full page the next window follows the pages already fetched |
| LogoPage.FirstPageWindow | user/src/pages/logo.tsx:140-147 | the first page holds the items after the first four |
| LogoPage.PagesStep | user/src/pages/logo.tsx:142-145 | one more fetch adds a page only after a full page |
| LogoPage.WindowedGrows | user/src/pages/logo.tsx:142-145 | adding the next window keeps the pages consecutive |
| LogoPage.PagesAreWindows | user/src/pages/logo.tsx:139-147 | every page is the window at its offset, and together they are the list after its first four items |
| LogoPage.ImagesArePrefix | user/src/pages/logo.tsx:149-153 | with the corrected offset the shown images are a prefix of the list, and the whole list once no next page remains |
| AdvertisementPage.MapProject | user/src/pages/advertisement.tsx:71-85 | the item has a non-empty id from the first set id spelling, a title, the "advertisement" category, and each link is empty only when none of its spellings is set |
| VisualPage.MapProject | user/src/pages/visual.tsx:64-86 | the item has a non-empty id from `_id`, else `id`, else the fallback; its category defaults to "visual"; the media type is kept as sent |
| VisualPage.Blanked | user/src/pages/visual.tsx:107-111 | a blanked link is never truthy, and an absent one stays absent |
| VisualPage.Checked | user/src/pages/visual.tsx:89-113 | an item whose probed link answered, or is YouTube, is unchanged; otherwise its links and media type are cleared and nothing else changes |
| VisualPage.CheckItem | user/src/pages/visual.tsx:89-113 | the probe of one item (first link of url, video URL, video link; YouTube skipped) computes its checked form |
| VisualPage.CheckMedia | user/src/pages/visual.tsx:89-113 | every item of the answer is replaced, in place, by its checked form |
| VisualPage.CheckedItemShows | user/src/pages/visual.tsx:89-113 | a failing item is shown as a placeholder; a YouTube item is never touched; checking twice is checking once |
| WebsiteDevelopPage.MapProject | user/src/pages/websitedevelop.tsx:68-83 | the item has a non-empty id, a title, the "website-develop" category, the same links as the advertisement mapping, and the media type as sent |
| WebsiteDevelopPage.CheckField | user/src/pages/websitedevelop.tsx:96-152 | a link is blanked exactly when it was probed and did not answer; otherwise it is kept |
| WebsiteDevelopPage.Checked | user/src/pages/websitedevelop.tsx:96-152 | each of the three links is checked on its own; the other fields are unchanged |
| WebsiteDevelopPage.CheckItem | user/src/pages/websitedevelop.tsx:96-152 | the three probes of one item, each link on its own and YouTube video links skipped, compute its checked form |
| WebsiteDevelopPage.CheckMedia | user/src/pages/websitedevelop.tsx:96-152 | every item of the answer is replaced, in place, by its checked form |
| WebsiteDevelopPage.CheckedFields | user/src/pages/websitedevelop.tsx:96-152 | an unreachable image link is blanked even on YouTube, a YouTube video link is never touched, and checking twice is checking once |
| PortfolioSection.TotalPages | user/src/components/ui/PortfolioSection.tsx:61 | the page count is the least number of 8-item pages that holds every item |
| PortfolioSection.Slice | user/src/components/ui/PortfolioSection.tsx:62-63 | a page shows at most 8 items, consecutive from its start, and is non-empty whenever its start is inside the list |
| PortfolioSection.PagesArePrefix | user/src/components/ui/PortfolioSection.tsx:61-63 | the first k pages together are the first 8k items, or all of them |
| PortfolioSection.AllPagesAreTheList | user/src/components/ui/PortfolioSection.tsx:61-63 | paging through every page shows every item exactly once, in order |
| PortfolioSection.NavigationStaysInRange | user/src/components/ui/PortfolioSection.tsx:73-79 | on a valid page both buttons keep the page in range, wrapping at the ends, and each undoes the other |
| PortfolioSection.ShowControlsExactly | user/src/components/ui/PortfolioSection.tsx:168 | the pager is shown exactly when there are more than 8 items |
| PortfolioSection.FetchMore | user/src/components/ui/PortfolioSection.tsx:81-84 | after "see more" is pressed the button never shows again, and the page and selection are kept |
| PortfolioSection.Open | user/src/components/ui/PortfolioSection.tsx:65-67 | opening selects the item and keeps the page |
| PortfolioSection.Close | user/src/components/ui/PortfolioSection.tsx:69-71 | closing clears the selection and keeps the page |
| DashboardData.FindCategory | admin/src/components/dashboard/dashboard-stats.tsx:40 | the category found is the first with the project's id, and none is found exactly when no category has it |
| DashboardData.ResolvedName | admin/src/components/dashboard/dashboard-stats.tsx:40-41 | a project's category name is a listed category's name or "Uncategorized", and "Uncategorized" whenever no category has its id |
| DashboardData.ProjectsIn | admin/src/components/dashboard/project-categories.tsx:43 | the count is at most the number of projects, and positive exactly when some project carries the id |
| CategoryStats.Entries | admin/src/components/dashboard/categorystats-card.tsx:29-32 | one entry per key, in order, holding the number of projects labelled with it |
| CategoryStats.Tally | admin/src/components/dashboard/categorystats-card.tsx:22-32 | the counting loop yields one entry per distinct category name, in first-seen order, with that name's count |
| CategoryStats.TallyAccountsForEveryProject | admin/src/components/dashboard/categorystats-card.tsx:22-32 | the counts add up to the number of projects, each is at least 1, and every label has an entry |
| DashboardStats.Top | admin/src/components/dashboard/dashboard-stats.tsx:47-50 | the top entry has the largest count, is the first entry with that count, and is "None" with 0 when no count is positive |
| DashboardStats.TopOfTally | admin/src/components/dashboard/dashboard-stats.tsx:36-50 | with at least one project the top category carries at least one project, is a real label, and no label has more projects |
| DashboardStats.RecentCount | admin/src/components/dashboard/dashboard-stats.tsx:52-59 | the count of the last 30 days is at most the list's length, equal to it exactly when every date is recent, and 0 when no date is set |
| DashboardStats.Compute | admin/src/components/dashboard/dashboard-stats.tsx:34-74 | the totals are the list lengths, the top category is the top of the tally, and the recent and new figures are the 30-day counts |
| ProjectCategories.Rows | admin/src/components/dashboard/project-categories.tsx:40-45 | one row per category, in order, with its id, its name, its project count and the "Projects under … category" line |
| ProjectCategories.Badge | admin/src/components/dashboard/project-categories.tsx:86-87 | the badge starts with the count and " Project", and ends in "s" exactly when the count is not 1 |
| ProjectChart.ColorOf | admin/src/components/dashboard/project-chart.tsx:78-80 | every bar gets a colour of the palette, the palette's own entry for the first bars |
| ProjectChart.UncategorizedCount | admin/src/components/dashboard/project-chart.tsx:39-41 | the uncategorized count is at most the number of projects |
| ProjectChart.Bars | admin/src/components/dashboard/project-chart.tsx:27-44 | one bar per category with its count, then an "Uncategorized" bar exactly when some project matches no category; no bars exactly when there are no categories and no projects |
| ProjectChart.BarsAccountForEveryProject | admin/src/components/dashboard/project-chart.tsx:27-44 | with distinct category ids the bars add up to the number of projects |
| ProjectStats.EmptyRow | admin/src/components/dashboard/projectstats-card.tsx:26-33 | a month row starts with a 0 for every category name and "Uncategorized" |
| ProjectStats.Table | admin/src/components/dashboard/projectstats-card.tsx:25-47 | six rows, Jan to Jun, each with the same columns, each cell the number of that month's projects resolved to that column |
| ProjectStats.MonthLabelsColumns | admin/src/components/dashboard/projectstats-card.tsx:39-44 | every project of a month lands in one of the row's columns |
| ProjectStats.RowAccountsForMonth | admin/src/components/dashboard/projectstats-card.tsx:35-47 | a month row adds up to the number of projects created that month |
| ProjectStats.TableAccountsForEarlyProjects | admin/src/components/dashboard/projectstats-card.tsx:35-47 | the six rows together count every project created from January to June once |
| ServiceStepDialog.Loaded | admin/src/components/serviceStep/EditServiceStepDialog.tsx:53-59 | the loaded list is never empty: the step's list, or one empty entry |
| ServiceStepDialog.ReplaceAt | admin/src/components/serviceStep/EditServiceStepDialog.tsx:95-101 | editing an entry replaces that entry only; an index outside the list changes nothing |
| ServiceStepDialog.ReplaceAtUndo | admin/src/components/serviceStep/EditServiceStepDialog.tsx:95-101 | writing the old value back restores the list |
| ServiceStepDialog.AddEntry | admin/src/components/serviceStep/EditServiceStepDialog.tsx:103-105 | adding appends one empty entry and keeps the rest |
| ServiceStepDialog.RemoveAt | admin/src/components/serviceStep/EditServiceStepDialog.tsx:107-109 | removing drops exactly the entry at the index; an index outside the list changes nothing |
| ServiceStepDialog.AddThenRemove | admin/src/components/serviceStep/EditServiceStepDialog.tsx:103-109 | removing the entry just added restores the list |
| ServiceStepDialog.RemoveKeepsListNonEmpty | admin/src/components/serviceStep/EditServiceStepDialog.tsx:224 | since the remove button shows only with two or more entries, removing never empties the list |
| ServiceStepDialog.FindCategoryId | admin/src/components/serviceStep/EditServiceStepDialog.tsx:74-76 | the id is that of the first category whose name equals the page's, ignoring case; none when no name does |
| ServiceStepDialog.FindCategoryIdIgnoresCase | admin/src/components/serviceStep/EditServiceStepDialog.tsx:75 | upper-casing the page's category name finds the same category |
| ServiceStepDialog.CategoryIdFor | admin/src/components/serviceStep/EditServiceStepDialog.tsx:61-93 | without a token the lookup fails with "please sign in"; it succeeds exactly when the list loaded and holds the name, ignoring case, with the first such category's id; a failure status shows "cannot load categories", a thrown error its own message (else that text), a missing name "category not found" |
| ServiceStepDialog.CheckForm | admin/src/components/serviceStep/EditServiceStepDialog.tsx:124-150 | the form is ready exactly when the title and some subtitle or heading have text; a blank title is refused first, then a form whose entries are all blank; a ready payload holds the trimmed title and only the non-blank entries |
| ServiceStepDialog.PayloadPassesAgain | admin/src/components/serviceStep/EditServiceStepDialog.tsx:145-150 | a payload the form produced passes the same checks unchanged |
| ServiceStepDialog.FailureText | admin/src/components/serviceStep/EditServiceStepDialog.tsx:152-181 | the error toast is never empty: "please sign in" without a token, else the server's error when it gave one |
| ServiceStepDialog.Dialog.constructor | admin/src/components/serviceStep/EditServiceStepDialog.tsx:47-59 | the form opens with the step's title and its lists, each holding at least one entry |
| ServiceStepDialog.Sent | admin/src/components/serviceStep/EditServiceStepDialog.tsx:146-167 | a payload goes out exactly when the form passed its checks and a token is present, and it is the checked payload |
| ServiceStepDialog.Outcome | admin/src/components/serviceStep/EditServiceStepDialog.tsx:124-181 | the single toast of a submit: success exactly when the payload went out and was saved; a refused form shows the check's own message; any other failure shows the failure text |
| ServiceStepDialog.Dialog.Submit | admin/src/components/serviceStep/EditServiceStepDialog.tsx:119-185 | without a step nothing changes; otherwise the payload sent is the one `Sent` gives for the checked form and token, exactly one toast (`Outcome`) is appended, the dialog closes only on a saved send, the form fields are kept, and loading ends |
| LoginRedirects.Target | admin/src/app/login/page.tsx:41-52 | a non-empty redirect on the whitelist is followed; anything else falls back; the target is always the fallback or a listed page |
| LoginRedirects.TargetIsListed | admin/src/app/login/page.tsx:41-52 | when the fallback is listed, a sign-in never navigates off the whitelist |
| AdminMiddleware.SubPageCovered | admin/src/middleware.ts:4-12 | every path a `/dashboard/<page>/:path*` matcher covers is also covered by `/dashboard/:path*` |
| AdminMiddleware.GuardedIsDashboard | admin/src/middleware.ts:4-12 | the middleware runs on a path exactly when it is `/dashboard` or lies under `/dashboard/` |
| AdminMiddleware.Cached | admin/src/middleware.ts:19-22 | a cached verdict is used exactly when the token has an entry that has not yet expired, and it is that entry's verdict |
| AdminMiddleware.Verdict | admin/src/middleware.ts:17-42 | a live cache entry decides; otherwise the backend's answer does; a network error accepts a token only through a cached valid entry |
| AdminMiddleware.TokenCache.constructor | admin/src/middleware.ts:15 | the cache starts empty |
| AdminMiddleware.TokenCache.Verify | admin/src/middleware.ts:17-42 | the backend is asked exactly on a cache miss; the result is the verdict; a miss stores the answer for five minutes from the answer's time, a hit changes nothing |
| AdminMiddleware.StoredVerdictServed | admin/src/middleware.ts:19-22 | a stored verdict is served again until its five minutes are up |
| AdminMiddleware.StoredVerdictExpires | admin/src/middleware.ts:19-22 | from the expiry on, the stored verdict is no longer served |
| AdminMiddleware.RejectedHeadersAsWritten | admin/src/middleware.ts:61-65 | with `headers.set` as written, the rejected response carries exactly the redirect cookie and no expiry for `auth_token` |
| AdminMiddleware.RejectedHeaders | admin/src/middleware.ts:58-67 | the corrected rejection carries both the `auth_token` expiry and the redirect cookie, and nothing else |
| AdminMiddleware.Handle | admin/src/middleware.ts:44-71 | without a token: to the login page with the path as redirect, cache untouched; with one: the request passes exactly when the token's verdict is valid, a rejection sets the redirect cookie and, as written, does not expire the token, a cache hit leaves the cache as it was, and a miss stores the verdict for five minutes from the answer |
| AdminLogin.Submit | admin/src/app/login/page.tsx:25-68 | the cookie is set exactly when the server accepted, and holds its token; navigation happens exactly then, to a whitelisted page; a refusal shows the server's error or the default; an unreachable server shows its own message; loading always ends |
| AdminLogin.CategoriesPageNotRestored | admin/src/app/login/page.tsx:41-51 | a redirect to `/dashboard/categories` is not on the whitelist, so the user lands on `/dashboard` |
| AdminLogin.RejectedTokenReturnsHome | admin/src/app/login/page.tsx:41-52 | signing in without a `redirect` parameter, as after a rejected token, lands on `/dashboard` |
| SiteMiddleware.ProtectedIsDashboardPrefix | frontend/src/middleware.ts:4-18 | a path is protected exactly when it starts with `/admin/dashboard` |
| SiteMiddleware.Handle | frontend/src/middleware.ts:11-30 | the login page always passes; a request is sent to the login page exactly when it is protected and carries no token, with its own path as the redirect |
| SiteMiddleware.AnyTokenPasses | frontend/src/middleware.ts:11-30 | any non-empty token opens every page, since the token is never checked |
| MockLogin.Submit | frontend/src/app/admin/login/page.tsx:51-89 | the mock cookie is set exactly for the demo credentials; navigation happens exactly then, to the whitelisted redirect or `/admin/dashboard`; other credentials get the error notice |
| MockLogin.DemoPasswordLongEnough | frontend/src/app/admin/login/page.tsx:30-35 | the demo password passes the form's six-character minimum |
| AdminMiddleware.SetHeader | admin/src/middleware.ts:62-65 | `headers.set` leaves only the header it sets, whatever was there before |
| CategoriesPage.Filtered | admin/src/app/dashboard/categories/page.tsx:77-79 | a category is listed exactly when its name contains the query, ignoring case |
| CategoriesPage.EmptyQueryShowsAll | admin/src/app/dashboard/categories/page.tsx:77-79 | an empty search box lists every category, in order |
| CategoriesPage.LongerQueryNarrows | admin/src/app/dashboard/categories/page.tsx:77-79 | extending the query never lists a category the shorter query hid |
| CategoriesPage.ReplaceById | admin/src/app/dashboard/categories/page.tsx:89-91 | every entry with the edited id becomes the saved record; every other entry is kept, in place |
| CategoriesPage.ReplaceByIdOnce | admin/src/app/dashboard/categories/page.tsx:89-91 | with distinct ids an edit replaces exactly the edited entry |
| CategoriesPage.ReplaceUnknownId | admin/src/app/dashboard/categories/page.tsx:89-91 | an id the list does not hold changes nothing |
| CategoriesPage.MessageOr | admin/src/app/dashboard/categories/page.tsx:111 | the error's own message when it has one, else the fallback |
| CategoriesPage.Save | admin/src/app/dashboard/categories/page.tsx:82-115 | a failure only adds an error toast; a success replaces the edited entry or appends the new one, adds the matching toast, and closes and clears the form |
| CategoriesPage.CreatedShowsWhenMatching | admin/src/app/dashboard/categories/page.tsx:77-99 | a created category joins the search results at the end exactly when its name matches |
| CategoriesPage.Delete | admin/src/app/dashboard/categories/page.tsx:118-137 | nothing happens without a chosen category; otherwise the choice is cleared, a success removes every entry with the id and adds the deleted toast, a failure keeps the list and adds an error toast |
| CategoriesPage.DeleteRemovesOnlyThatId | admin/src/app/dashboard/categories/page.tsx:122-124 | after a successful delete exactly the entries without that id remain |
| ContactsPage.Filtered | frontend/src/app/admin/dashboard/contacts/page.tsx:105-114 | a contact is listed exactly when its name, email or message contains the query, ignoring case, and its status passes the filter |
| ContactsPage.NoFilterShowsAll | frontend/src/app/admin/dashboard/contacts/page.tsx:105-114 | an empty query with "all" selected lists every contact, in order |
| ContactsPage.LongerQueryNarrows | frontend/src/app/admin/dashboard/contacts/page.tsx:105-114 | extending the query never lists a contact the shorter query hid |
| ContactsPage.StatusesPartitionSearch | frontend/src/app/admin/dashboard/contacts/page.tsx:105-114 | for any query, the four status filters together list exactly as many contacts as "all" |
| ContactsPage.UpdateStatus | frontend/src/app/admin/dashboard/contacts/page.tsx:117-128 | every contact with the id takes the new status, nothing else about any contact changes, a toast names the status, and the dialog closes |
| ContactsPage.UpdateStatusIdempotent | frontend/src/app/admin/dashboard/contacts/page.tsx:117-128 | setting the same status twice leaves the contacts as setting it once |
| ContactsPage.StatusColor | frontend/src/app/admin/dashboard/contacts/page.tsx:143-156 | new is blue, replied green, pending amber, and exactly closed is gray |
| ContactsPage.StatusIcon | frontend/src/app/admin/dashboard/contacts/page.tsx:159-172 | new and pending show the clock, replied the check, closed the cross |
| ContactsPage.BadgeDistinguishesStatuses | frontend/src/app/admin/dashboard/contacts/page.tsx:143-172 | two statuses with the same colour and icon are the same status |
| ContactsPage.Initials | frontend/src/app/admin/dashboard/contacts/page.tsx:238 | the avatar holds the first two characters of the name (fewer for a shorter name), upper-cased |
| ProjectGallery.Previous | frontend/src/components/user/projects/project-gallery.tsx:17-21 | from the first image to the last, else one back |
| ProjectGallery.Next | frontend/src/components/user/projects/project-gallery.tsx:23-27 | from the last image to the first, else one on |
| ProjectGallery.ArrowsStayInRange | frontend/src/components/user/projects/project-gallery.tsx:17-31 | with at least one image the arrows and the dots keep the index on an image, and the two arrows undo each other |
| ProjectGallery.ForwardWraps | frontend/src/components/user/projects/project-gallery.tsx:23-27 | up to a full turn, k presses of the next arrow move k images on, wrapping past the last image once |
| ProjectGallery.FullTurn | frontend/src/components/user/projects/project-gallery.tsx:23-27 | pressing next once per image returns to the image shown |
| ProjectGallery.NoImagesPreviousOutOfRange | frontend/src/components/user/projects/project-gallery.tsx:17-21 | with no images the previous arrow sets the index to -1 |
| ProjectCatalog.Featured | user/src/lib/data.ts:127-129 | exactly the featured projects, in catalogue order |
| ProjectCatalog.BySlug | user/src/lib/data.ts:137-139 | the first project with the slug, and none exactly when no project has it |
| ProjectCatalog.Categories | user/src/lib/data.ts:142-145 | every category of some project, each once, and no other |
| ProjectCatalog.CategoriesInCatalogueOrder | user/src/lib/data.ts:142-145 | the categories come in the order their first project appears |
| ProjectCatalog.ByCategory | user/src/lib/data.ts:148-150 | exactly the projects of the category, in catalogue order |
| ProjectCatalog.ByCategorySize | user/src/lib/data.ts:148-150 | a category page lists as many projects as carry the category |
| ProjectCatalog.PageSizesAreCounts | user/src/lib/data.ts:142-150 | the category pages of a list of categories together hold as many projects as the categories count in the catalogue |
| ProjectCatalog.CategoryPagesPartitionCatalogue | user/src/lib/data.ts:142-150 | the category pages of all listed categories together hold every project exactly once |
| ProjectCatalog.Tags | user/src/lib/data.ts:153-156 | every tag of every project, each once, and no other |
| Toasts.Show | user/src/hooks/use-toast.ts:18-30 | one toast is appended with the new id and the given fields, the variant defaulting to "default" and the duration to 5000 ms only when absent |
| Toasts.Dismiss | user/src/hooks/use-toast.ts:33-35 | every toast with the id goes; the others stay |
| Toasts.DismissUnknown | user/src/hooks/use-toast.ts:33-35 | dismissing an id no toast carries changes nothing |
| Toasts.ShowThenDismiss | user/src/hooks/use-toast.ts:18-35 | dismissing a toast shown with a fresh id restores the list |
| Toasts.DismissIdempotent | user/src/hooks/use-toast.ts:33-35 | dismissing twice is dismissing once |

## Left out

- HTTP plumbing (Fiber request parsing, JSON envelopes, logging, context timeouts) is not modelled; handlers take their parsed inputs and return a `Result` with the status and message.
- The MongoDB driver and GridFS streams are not modelled: collections and the bucket are maps, file contents a byte sequence, and new ObjectIDs and timestamps are parameters.
- bcrypt is a stand-in (prefix, salt, password) that keeps the promises the handlers rely on; the random salt is a parameter and a hashing failure is an input.
- JWT signing and verification (HS256) are not modelled; login returns the claims it would sign, and the reset handler takes the claims the middleware extracted.
- Configuration, routing, CORS, `main.go` and `admin/services/api.ts` are not part of this model.
- `backend/controllers/auth_controller_test.go` is an older copy of the handlers and is not modelled.
- `backend/controllers/auth_controller.go:105` does not compile as written; the model answers a wrong password with the same generic 401 as an unknown email.
- Registration never calls `IsEmailValid`, so the model's `Register` accepts any non-empty email, as the handler does.
- `project_model.go` declares subtitles as string lists; the model uses the structured subtitles the service-step handlers read and write.
- `DeleteProjectHandler` also deletes service steps by `project_id`; stored steps carry no such field, so that call removes nothing and the model leaves the steps unchanged.
- `AddProjectHandler` indexes the first `uploadType` without a guard; the model requires one whenever a file is uploaded.
- Listing order comes from MongoDB's sort; the model takes the listing order as an input that is sorted newest first. The service-step cursor's order is likewise an input that names every stored step once.
- Non-ASCII letters keep their case in name normalisation and in the search filters; Go's and JavaScript's full Unicode case mappings are not modelled.
- Regular expressions are modelled by hand-written recognisers for the specific patterns, not by a regex engine.
- Dates are integers (milliseconds for the dashboard, seconds for token expiry); `new Date(...)` parsing, time zones and `toLocaleDateString` are not modelled, and a project's month index is an input.
- CategoryStats.Tally: lists names in order of first appearance; JavaScript's `Object.entries` lists keys that are array indices (such as a category named "2024") first, in ascending numeric order, and that ordering is not modelled.
- DashboardStats.Top: a tie goes to the first entry in first-appearance order; when a tied name is an array index, JavaScript's key order, and so the winner of the tie, can differ.
- The dashboard's per-month table keys rows by category name in a JavaScript object; the order of its keys and a category literally named "name" overwriting the month label are not modelled.
- `projectstats-card.tsx:68` renders `<ProjectChart data={getProjectStats()} categories={categories} />` without the `projects` property that `ProjectChart` (`project-chart.tsx:20-25`) requires. `projects.filter` then runs on `undefined`: at line 34 of `project-chart.tsx`, or at lines 39-40 when there are no categories. As written the card therefore throws on every render, or fails type-checking, and the month table it computes is never displayed. `ProjectStats.Table` models that table as `getProjectStats` computes it, and `ProjectChart.Bars` models the chart in isolation, given the projects it expects; the broken call itself is not modelled.
- The HEAD probes of the visual and website pages, every `fetch` outcome, the backend's token verification answer and `Date.now()` are parameters of the operations that use them.
- The visual and website pages cast `mediaType` without checking it, so an unknown type reaches the tile, which then renders nothing (`MediaItem.TileOf`'s blank tile).
- The visual page probes `url` before `videoUrl`, while tiles show `videoUrl` before `url`; both orders are modelled as written.
- PortfolioPaging.Feed.Load: a services answer whose JSON cannot be parsed is not modelled; and when both first fetches reject, which message is shown depends on which rejects first, while the model shows the items fetch's.
- The portfolio pages assume the server honours `limit` and `offset`; the backend's category listing ignores them. `PortfolioPaging.Window` models the paging the pages expect.
- The admin dialog sends subtitles as a list of strings while the backend reads structured subtitles; the two are modelled separately, each as its own code reads them.
- The categories page's delete toast says the category's projects and steps were deleted too; the backend instead refuses to delete a category that is still referenced. Only the page's list update is modelled.
- `PaginationControls.Summary` states only how the summary starts ("Showing", the first index, "to"); the rest of the sentence is left to its body.
- With zero pages the pager's Next button stays enabled (the page is 1, not 0); `PaginationControls.ControlsStayInRange` covers valid pages only.
- With no images the gallery's arrows are still rendered, and Previous moves to index -1 (`ProjectGallery.NoImagesPreviousOutOfRange`).
- The admin middleware's matcher list is modelled as data; Next.js's general path-pattern syntax is not.
- A rejected token's redirect is written to a cookie that the login page never reads, so the user returns to `/dashboard` (`AdminLogin.RejectedTokenReturnsHome`).
- `/dashboard/categories` is guarded but missing from the login whitelist (`AdminLogin.CategoriesPageNotRestored`).
- The login pages' form schemas are not modelled beyond the mock page's password length; whether an email is well formed is an input there.
- A reply whose JSON cannot be parsed is treated like an unreachable server on the admin login page.
- The mock login's 1.5-second `setTimeout` is not modelled.
- ServiceStepDialog.Dialog.Submit: the loading flag is set while the request is in flight; the model has no in-flight state, so only the flag's final value (off) is stated.
- `encodeURIComponent` is not modelled: neither of the category name in the dialog's request path nor of the path in the admin middleware's `redirect` cookie, which `AdminMiddleware.RedirectCookie` holds unencoded.
- `use-toast`: the random id is a parameter, `toast` does not return it, nothing dismisses a toast after its `duration`, and extra properties spread into a toast are not modelled.
- The catalogue's static project list is not modelled; the queries take the list as a parameter, and `getAllProjects` is the list itself.
- Choosing "Delete" on a project card only stores the card's id as the pending deletion; that setter is not modelled beyond `ProjectsPage.DeleteChosen`.
- Rendering, animation, cookies as browser state, routing and toasts' appearance are not modelled; outcomes are returned as data (a notice, a navigation target, a cookie value).

## Findings

| source | as written | input that shows it | evidently intended | confidence | as-written member | corrected member |
|---|---|---|---|---|---|---|
| backend/controllers/service_step_controller.go:114 | a subtitle is kept when its text is non-empty or its headings list, before the empty headings are dropped, is non-empty | a subtitle with text "" and headings [""] is stored as text "" with no headings, which a second pass would drop | keep a subtitle only if it has text or a non-empty heading, so filtering is idempotent | high, not executed | ServiceSteps.KeptAsWritten | ServiceSteps.Kept |
| user/src/pages/logo.tsx:142-146 | the next offset is the number of items in the fetched pages, ignoring the four loaded first | sixteen items: the second page starts at offset 8 instead of 12, so items 8 to 11 are shown twice | offset = 4 + items in the fetched pages | high, not executed | LogoPage.NextPageParam | LogoPage.NextPageParamFixed |
| admin/src/middleware.ts:61-65 | `response.headers.set("set-cookie", ...)` replaces the `Set-Cookie` header that `cookies.delete("auth_token")` wrote | any request with a token the backend rejects: the response keeps the rejected cookie | expire `auth_token` and set the redirect cookie, both | medium, not executed | AdminMiddleware.RejectedHeadersAsWritten | AdminMiddleware.RejectedHeaders |
