# A medical practice's website and admin backend: a Dafny model of its logic

This project models the parts of a medical practice's marketing website and admin backend that make decisions: the serverless
backend's account manager (create user, list users, log in), its two content tables (blog
posts and services) with their image uploads, and the admin console's state handlers:
filtering and editing the user list, the blog and service editors, the route guard and menu,
and two small widgets of the public site (the testimonial carousel and the FAQ accordion).

Each backend handler is a method of a class that holds its table as a map. Its `ensures`
ties the reply and the new table to a specification function, and lemmas state what the
handler promises about those functions. Each client handler is a method of a class that
holds the page's state. Entries that the page edits in place are objects. bcrypt is a pair
of functions given to the account manager. Random numbers, UUIDs, clock readings, the
confirmation dialogs' answers and the outcome of each HTTP request are parameters.

Modules: `Wrappers` (Option), `SeqUtil` (JavaScript `filter` and index removal), `Text`
(`trim`, `startsWith`, `includes`, ASCII case mapping), `Json` (request bodies and stored
items), `Types` (the shared shapes), `Accounts`, `Content`, `Blogs`, `Services`, `Uploads`,
`UserAdmin`, `Toggle`, `Testimonials`, `ServiceDetail`, `BlogEditor`, `ServiceEditor`,
`AdminLayout`.

Three behaviours of the code that the model keeps as written:
- the image upload handlers answer 200 (blogController.ts:141, serviceController.ts:116), while the add handlers answer 201;
- `role` is only checked for being non-empty (userController.ts:13), so a string naming none of the three roles is stored;
- the add-category duplicate test compares the untrimmed input with the trimmed entries (blogs/add/page.tsx:71-72).

## Model

| member | source | states |
|---|---|---|
| Types.RoleNamesRoundTrip | packages/core/src/types.ts:1 | the role names are exactly ADMIN, EDITOR and DOCTOR: each reads back as its role, and a string reads as a role only if it is that role's name |
| Types.StatusNamesRoundTrip | packages/core/src/types.ts:9 | the same for the statuses ACTIVE and INACTIVE |
| Accounts.StripForgetsOnlyPassword | packages/functions/src/controllers/userController.ts:61 | two items strip to the same safe user exactly when they differ at most in `password` |
| Accounts.SummaryIsProjection | packages/functions/src/controllers/userController.ts:93-100 | a listing entry is `id = userId`, name, email, role, status and lastLogin of the item, and does not depend on the hash |
| Accounts.TempPasswordShape | packages/functions/src/controllers/userController.ts:34 | the temporary password is the last 8 characters of the first rendering followed by the upper-cased last 4 of the second (12 characters when both are long enough), and never empty |
| Accounts.Lookup | packages/functions/src/controllers/authController.ts:21-22 | the first item of the email query: none exactly when no item has the email, otherwise one of the matching keys |
| Accounts.CreateRequiresAllFields | packages/functions/src/controllers/userController.ts:10-15 | a missing or empty name, email or role gives 400 "Missing required fields" whatever the table holds, and writes nothing |
| Accounts.CreateAcceptsAnyRole | packages/functions/src/controllers/userController.ts:13 | a non-empty role that names none of the three roles is accepted and stored as sent |
| Accounts.CreateRefusesTakenEmail | packages/functions/src/controllers/userController.ts:27-31 | an email the index already holds gives 409 "User with this email already exists" and writes nothing |
| Accounts.CreateAddsOneItem | packages/functions/src/controllers/userController.ts:39-58 | with a fresh userId a successful create adds exactly one item under it and changes no other item |
| Accounts.CreatedItem | packages/functions/src/controllers/userController.ts:34-68 | the stored item has the given fields, status ACTIVE, no last login, createdAt == updatedAt == now and the hash of the temporary password; the reply is that item without the hash, plus the temporary password |
| Accounts.CreateKeepsConsistent | packages/functions/src/controllers/userController.ts:27-58 | a create keeps every item under its own userId and keeps emails unique |
| Accounts.SecondCreateWithSameEmailRefused | packages/functions/src/controllers/userController.ts:27-31 | after one create, a second create with the same email gives 409, writes nothing, and the table holds exactly one item with that email |
| Accounts.LoginRequiresBothFields | packages/functions/src/controllers/authController.ts:9-11 | a missing or empty email or password gives 400 before any lookup, whatever the table holds, and writes nothing |
| Accounts.LoginUnknownEmailOrWrongPassword | packages/functions/src/controllers/authController.ts:22-33 | an unknown email and a wrong password both give 401 "Invalid credentials" and write nothing |
| Accounts.LoginChecksPasswordBeforeStatus | packages/functions/src/controllers/authController.ts:29-37 | on an inactive account a wrong password gives 401 and the right one 403; neither writes |
| Accounts.LoginRefusalWritesNothing | packages/functions/src/controllers/authController.ts:24-40 | every refusal, 403 included, leaves the table unchanged |
| Accounts.LoginSucceedsIff | packages/functions/src/controllers/authController.ts:21-54 | login succeeds exactly when both fields are given and the account with that email matches the password and is ACTIVE; then only that item's lastLogin becomes now and the reply is the item as read before the update, without the hash |
| Accounts.LoginKeepsConsistent | packages/functions/src/controllers/authController.ts:40-45 | a login keeps every item under its own userId and keeps emails unique |
| Accounts.LoginWithTempPasswordAfterCreate | packages/functions/src/controllers/authController.ts:29 | when a password matches its own hash, logging in right after a create with that email and the returned temporary password succeeds, and shows no last login yet |
| Accounts.WrongPasswordAfterCreate | packages/functions/src/controllers/authController.ts:29-33 | with a collision-free hash, right after a create any other password gives 401 |
| Accounts.RunKeepsConsistent | packages/functions/src/controllers/userController.ts:27-58 | any sequence of creates and logins, handled one at a time, keeps emails unique and every item under its own key |
| Accounts.AccountManager.constructor | packages/functions/src/controllers/userController.ts:1 | the account manager starts with an empty Users table and the given hash functions |
| Accounts.AccountManager.CreateUser | packages/functions/src/controllers/userController.ts:8-74 | `createUser`: the reply and new table are those of the create specification, and the table invariant is kept |
| Accounts.AccountManager.Login | packages/functions/src/controllers/authController.ts:5-60 | `login`: the reply and new table are those of the login specification, and the table invariant is kept |
| Accounts.AccountManager.GetAllUsers | packages/functions/src/controllers/userController.ts:76-107 | `getAllUsers`: one entry per stored item, each item exactly once, each entry the item's projection |
| Content.GetSpec | packages/functions/src/controllers/blogController.ts:53-62 | get answers 200 with the stored item exactly when the key is present, otherwise 404 with the table's message; the property it serves is `Content.GetAfterAdd`, and `GetBlogById`/`GetServiceById` are tied to it |
| Content.AddForcesEnabledAndCreatedAt | packages/functions/src/controllers/blogController.ts:21-27 | an added item has enabled true and the server's createdAt whatever the body says; every other body attribute is stored as sent; the services controller does the same, with `serviceId` and no extraFields |
| Content.AddKeyComesFromBody | packages/functions/src/controllers/blogController.ts:21-23 | a key attribute in the body overrides the generated id; the generated id is used only when the body has none; the services controller does the same, with `serviceId` and no extraFields |
| Content.AddRefusesBadKey | packages/functions/src/controllers/blogController.ts:29-37 | a key that is not a non-empty string makes the put fail: 500, nothing written |
| Content.AddInsertsOneItem | packages/functions/src/controllers/blogController.ts:12-34 | with no key in the body and a fresh id, add inserts exactly one item under that id, replies 201 with it, and changes no other item |
| Content.AddKeepsKeyed | packages/functions/src/controllers/blogController.ts:29-32 | add keeps every item stored under its own key attribute |
| Content.GetAfterAdd | packages/functions/src/controllers/blogController.ts:34 | the item that add reports is what get then returns for its key |
| Content.UpdateReplacesItem | packages/functions/src/controllers/blogController.ts:79-88 | update replaces the whole item with the body (plus extraFields) and the path id as key; the item has no other attribute and no other item changes; the services controller does the same, with `serviceId` and no extraFields |
| Content.UpdateDropsEnabled | packages/functions/src/controllers/blogController.ts:79-83 | an update body that does not resend enabled leaves the item without it |
| Content.UpdateKeepsKeyed | packages/functions/src/controllers/blogController.ts:85-88 | update keeps every item stored under its own key attribute |
| Content.ToggleSetsOnlyEnabled | packages/functions/src/controllers/blogController.ts:101-108 | toggle sets only the enabled attribute of item id to the body's value; other attributes and items are unchanged; an absent item comes into being holding only its key and enabled; with no enabled in the body, 500 and nothing written; the services controller does the same, with `serviceId` and no extraFields |
| Content.ToggleIdempotent | packages/functions/src/controllers/blogController.ts:103-108 | setting the same value twice is the same as setting it once |
| Content.ToggleKeepsKeyed | packages/functions/src/controllers/blogController.ts:103-108 | toggle keeps every item stored under its own key attribute |
| Blogs.ExtraFields | packages/functions/src/controllers/blogController.ts:16-25 | the stored extraFields is always truthy |
| Blogs.ExtraFieldsCases | packages/functions/src/controllers/blogController.ts:16-25 | a string that parses is replaced by its value; a non-empty string that does not parse is kept; a truthy non-string is kept; anything absent or falsy becomes `[]` |
| Blogs.ExtraFieldsFromFormText | packages/functions/src/controllers/blogController.ts:16-19 | a form post sending the sections as JSON text stores the parsed array |
| Blogs.BlogTable.constructor | packages/functions/src/controllers/blogController.ts:1 | the Blogs table starts empty |
| Blogs.BlogTable.AddBlog | packages/functions/src/controllers/blogController.ts:10-39 | `addBlog`: the reply and new table are those of add with `extraFields` placed after the body |
| Blogs.BlogTable.GetBlogById | packages/functions/src/controllers/blogController.ts:53-66 | `getBlogById`: the reply is that of get, 404 "Blog not found" when absent |
| Blogs.BlogTable.UpdateBlog | packages/functions/src/controllers/blogController.ts:69-95 | `updateBlog`: the new table is that of update with `extraFields` before the forced `blogId` |
| Blogs.BlogTable.ToggleBlogStatus | packages/functions/src/controllers/blogController.ts:98-114 | `toggleBlogStatus`: the reply and new table are those of toggle |
| Blogs.BlogTable.UploadBlogImage | packages/functions/src/controllers/blogController.ts:117-150 | `uploadBlogImage`: no file gives 400 and stores nothing; otherwise the file is stored under `blogs/<uuid>.<extension>` and the reply is its public URL |
| Services.ServiceBodyStoredVerbatim | packages/functions/src/controllers/serviceController.ts:15-25 | a service body's extraFields string is stored as the string, unparsed |
| Services.ServiceTable.constructor | packages/functions/src/controllers/serviceController.ts:1 | the Services table starts empty |
| Services.ServiceTable.AddService | packages/functions/src/controllers/serviceController.ts:10-32 | `addService`: the reply and new table are those of add with nothing after the body |
| Services.ServiceTable.GetServiceById | packages/functions/src/controllers/serviceController.ts:45-57 | `getServiceById`: the reply is that of get, 404 "Service not found" when absent |
| Services.ServiceTable.UpdateService | packages/functions/src/controllers/serviceController.ts:60-75 | `updateService`: the new table is that of update with the forced `serviceId` |
| Services.ServiceTable.ToggleServiceStatus | packages/functions/src/controllers/serviceController.ts:78-92 | `toggleServiceStatus`: the reply and new table are those of toggle |
| Services.ServiceTable.UploadServiceImage | packages/functions/src/controllers/serviceController.ts:94-125 | `uploadServiceImage`: no file gives 400; otherwise the file is stored under `services/<uuid>.<extension>` and the reply is its public URL |
| Uploads.Split | packages/functions/src/controllers/blogController.ts:124 | `split('.')` always yields at least one piece |
| Uploads.SplitJoin | packages/functions/src/controllers/blogController.ts:124 | joining the pieces of a split gives the name back, and no piece contains the separator |
| Uploads.SplitAppend | packages/functions/src/controllers/blogController.ts:124 | splitting `x + "." + t` gives the pieces of x followed by those of t |
| Uploads.SplitNoSeparator | packages/functions/src/controllers/blogController.ts:124 | a string without the separator splits into itself |
| Uploads.ExtensionSpec | packages/functions/src/controllers/blogController.ts:124 | the extension is the dot-free tail of the name: the whole name when it has no dot, otherwise what follows the last dot |
| Uploads.ObjectKeyKeepsExtension | packages/functions/src/controllers/blogController.ts:125 | the object key ends in the file's extension: reading the extension of the key gives the file's |
| Uploads.PublicUrlEndsWithKey | packages/functions/src/controllers/blogController.ts:139 | the URL is `https://<bucket>.s3.<region>.amazonaws.com/` followed by the key |
| Uploads.Bucket.constructor | packages/functions/src/controllers/blogController.ts:7 | the bucket starts empty |
| Uploads.Bucket.PutImage | packages/functions/src/controllers/serviceController.ts:96-114 | no file gives 400 and stores nothing; otherwise the file's bytes and type are stored under the folder's key and the reply is the public URL |
| UserAdmin.FilteredUsersSpec | packages/client-web/src/app/admin/users/page.tsx:67-75 | a user is listed exactly when its lower-cased name or email contains the lower-cased query and the role filter is ALL or its role; the listing keeps the order and multiplicity of `users` |
| UserAdmin.ContainsEmpty | packages/client-web/src/app/admin/users/page.tsx:69 | every string includes the empty string |
| UserAdmin.EmptySearchListsEveryone | packages/client-web/src/app/admin/users/page.tsx:68-72 | an empty query with role filter ALL lists every user, in order |
| UserAdmin.Mapped | packages/client-web/src/app/admin/users/page.tsx:96 | the appended row's id is the reply's userId, or its id when userId is empty; the other attributes are the reply's; `UserManagementPage.HandleAddUser` uses it to state the append |
| UserAdmin.WithoutIdSpec | packages/client-web/src/app/admin/users/page.tsx:124 | the delete keeps exactly the rows with another id, in order and with their multiplicity |
| UserAdmin.UserManagementPage.constructor | packages/client-web/src/app/admin/users/page.tsx:23-37 | the page starts with no users, an empty query, role filter ALL, an empty EDITOR form and no menu open |
| UserAdmin.UserManagementPage.HandleAddUser | packages/client-web/src/app/admin/users/page.tsx:95-104 | after a successful create the mapped user is appended after the earlier rows, the modal closes, the new email and temporary password are shown and the form resets to name "", email "", role EDITOR; a failure changes nothing |
| UserAdmin.UserManagementPage.HandleDeleteUser | packages/client-web/src/app/admin/users/page.tsx:115-126 | the handler alone: only a confirmed, successful delete removes the rows with that id, and only then does the handler close the menu; the dialog and the request outcome are inputs |
| UserAdmin.UserManagementPage.ClickOutside | packages/client-web/src/app/admin/users/page.tsx:140-144 | any click that reaches the window closes the action menu and changes nothing else |
| UserAdmin.UserManagementPage.DeleteClicked | packages/client-web/src/app/admin/users/page.tsx:271 | the Delete button does not stop propagation, so the window listener runs as well: the menu always ends closed, even when the dialog is cancelled or the request fails, and the rows change only on a confirmed, successful delete |
| UserAdmin.UserManagementPage.ToggleActionMenu | packages/client-web/src/app/admin/users/page.tsx:250-254 | the action menu state toggles between that row's id and null; it stops propagation, so the window listener does not run |
| Toggle.Toggled | packages/client-web/src/app/admin/users/page.tsx:253 | clicking the open item closes it; clicking any other opens exactly it; the promises built on it are `Toggle.ToggledTwice` and `ServiceDetail.AtMostOneExpanded` |
| Toggle.ToggledTwice | packages/client-web/src/components/services/ServiceDetail.tsx:100-102 | two clicks on one item restore a closed state or that item open, and close any other item |
| Testimonials.NextIndexInRange | packages/client-web/src/components/home/Testimonials.tsx:39-45 | on a non-empty list the next index is always in range |
| Testimonials.NextIndexWraps | packages/client-web/src/components/home/Testimonials.tsx:42-43 | back from the first slide goes to the last, on from the last goes to the first |
| Testimonials.NextIndexIsCyclic | packages/client-web/src/components/home/Testimonials.tsx:39-43 | for a step of one either way from a slide in range the index is `(cur + dir) mod len` |
| Testimonials.NextThenPrevious | packages/client-web/src/components/home/Testimonials.tsx:37-46 | next then previous, and previous then next, return to the starting slide |
| Testimonials.Carousel.constructor | packages/client-web/src/components/home/Testimonials.tsx:33-34 | the carousel starts at slide 0 with direction 0 |
| Testimonials.Carousel.Paginate | packages/client-web/src/components/home/Testimonials.tsx:37-46 | `paginate` records its argument as the direction, moves to the wrapped next index and keeps the index in range |
| Testimonials.Carousel.GoToDot | packages/client-web/src/components/home/Testimonials.tsx:179-182 | a dot click goes to that slide, with direction 1 if it is after the current one and -1 otherwise |
| ServiceDetail.AtMostOneExpanded | packages/client-web/src/components/services/ServiceDetail.tsx:98-102 | at most one answer is expanded: none when the state is null, otherwise just the open one |
| ServiceDetail.FaqAccordion.constructor | packages/client-web/src/components/services/ServiceDetail.tsx:98 | the first FAQ starts open |
| ServiceDetail.FaqAccordion.ToggleFaq | packages/client-web/src/components/services/ServiceDetail.tsx:100-102 | toggling the open FAQ closes all; toggling another opens exactly it |
| Text.TrimSpec | packages/client-web/src/app/admin/blogs/add/page.tsx:71-72 | `trim` cuts white space off both ends only, leaves no white space at either end, is idempotent, and is empty exactly for all-white-space input |
| BlogEditor.AddCategoryKeepsTrimmed | packages/client-web/src/app/admin/blogs/add/page.tsx:70-75 | addCategory appends at most one entry, the trimmed input, clearing the box; lists it builds hold only trimmed non-empty entries, and an already-trimmed input is never added twice |
| BlogEditor.AddCategoryTrimmedDuplicate | packages/client-web/src/app/admin/blogs/add/page.tsx:71-72 | with "news" listed, the input " news" appends "news" a second time |
| BlogEditor.AddTagDuplicates | packages/client-web/src/app/admin/blogs/add/page.tsx:77-82 | the same tag can be added twice |
| BlogEditor.RemoveCategorySpec | packages/client-web/src/app/admin/blogs/add/page.tsx:331 | removing a category removes every copy and keeps the others in order |
| BlogEditor.RemoveTagSpec | packages/client-web/src/app/admin/blogs/add/page.tsx:354 | removing a tag removes every tag with that name and keeps the others in order |
| BlogEditor.ExtraFieldEntry.constructor | packages/client-web/src/app/admin/blogs/add/page.tsx:85 | a new section has an empty heading and description |
| BlogEditor.AddBlogForm.constructor | packages/client-web/src/app/admin/blogs/add/page.tsx:11-26 | the form starts with no image, categories, tags or sections and empty input boxes |
| BlogEditor.AddBlogForm.AddCategoryClicked | packages/client-web/src/app/admin/blogs/add/page.tsx:70-75 | `addCategory` updates the list and the box as the category rule says and changes nothing else |
| BlogEditor.AddBlogForm.AddTagClicked | packages/client-web/src/app/admin/blogs/add/page.tsx:77-82 | `addTag` appends `{name: trimmed}` when the trimmed input is non-empty and clears the box |
| BlogEditor.AddBlogForm.RemoveCategoryClicked | packages/client-web/src/app/admin/blogs/add/page.tsx:331 | the category remove button filters the list and changes nothing else |
| BlogEditor.AddBlogForm.RemoveTagClicked | packages/client-web/src/app/admin/blogs/add/page.tsx:354 | the tag remove button filters the tags by name and changes nothing else |
| BlogEditor.AddBlogForm.AddExtraField | packages/client-web/src/app/admin/blogs/add/page.tsx:84-86 | one new empty section object is appended after the others |
| BlogEditor.AddBlogForm.UpdateExtraField | packages/client-web/src/app/admin/blogs/add/page.tsx:88-93 | only the chosen attribute of section `index` changes; the list and every other section stay the same |
| BlogEditor.AddBlogForm.RemoveExtraField | packages/client-web/src/app/admin/blogs/add/page.tsx:95-100 | a confirmed removal takes out exactly section `index`; an unconfirmed one changes nothing |
| BlogEditor.AddBlogForm.ImageUploaded | packages/client-web/src/app/admin/blogs/add/page.tsx:56-59 | a successful upload sets the featured image to the returned URL |
| BlogEditor.AddBlogForm.HandleSubmit | packages/client-web/src/app/admin/blogs/add/page.tsx:102-115 | nothing is sent while the featured image is empty; otherwise the form is sent as it stands |
| SeqUtil.DropIndexSlices | packages/client-web/src/app/admin/blogs/add/page.tsx:97 | `filter((_, i) => i !== idx)` removes exactly entry idx when it is in range and nothing otherwise |
| SeqUtil.DropIndexDistinct | packages/client-web/src/app/admin/services/add/page.tsx:158 | removing one entry keeps the entries distinct and adds none |
| SeqUtil.FilterMembers | packages/client-web/src/app/admin/users/page.tsx:67 | `filter` keeps exactly the elements that pass the test |
| SeqUtil.FilterCounts | packages/client-web/src/app/admin/users/page.tsx:67 | `filter` keeps each passing element as often as it occurs |
| SeqUtil.FilterIsSubsequence | packages/client-web/src/app/admin/users/page.tsx:67 | `filter` keeps the original order |
| SeqUtil.FilterKeepsAll | packages/client-web/src/app/admin/users/page.tsx:67 | when every element passes, `filter` returns the list itself |
| ServiceEditor.AddItemSpec | packages/client-web/src/app/admin/services/add/page.tsx:12-17 | a blank input adds nothing; otherwise exactly the trimmed input is appended, so lists built this way hold only trimmed non-empty items |
| ServiceEditor.RemoveItemSpec | packages/client-web/src/app/admin/services/add/page.tsx:25 | removal takes out exactly item idx and keeps the rest in order; removing an item just added gives the list back |
| ServiceEditor.ArrayInput.constructor | packages/client-web/src/app/admin/services/add/page.tsx:11 | the input box starts empty |
| ServiceEditor.ArrayInput.HandleAdd | packages/client-web/src/app/admin/services/add/page.tsx:12-17 | `handleAdd` passes the list with the trimmed input appended to `onChange` and clears the box, or does neither when the input is blank |
| ServiceEditor.ConditionEntry.constructor | packages/client-web/src/app/admin/services/add/page.tsx:212 | a new condition is `{title: "", description: "", symptoms: [], image: ""}` |
| ServiceEditor.WithConditionTextSetsOne | packages/client-web/src/app/admin/services/add/page.tsx:232-246 | editing one text attribute of a condition sets it and leaves the others and the symptoms as they were |
| ServiceEditor.TreatmentEntry.constructor | packages/client-web/src/app/admin/services/add/page.tsx:260-264 | a new treatment has empty texts and lists and empty candidate and evaluation sections |
| ServiceEditor.WithTextSetsOne | packages/client-web/src/app/admin/services/add/page.tsx:282-339 | editing one text input of a treatment sets it and leaves every other input and every list as it was |
| ServiceEditor.WithListSetsOne | packages/client-web/src/app/admin/services/add/page.tsx:295-334 | replacing one list of a treatment sets it and leaves every other list and every input as it was |
| ServiceEditor.BacklinkBlock.constructor | packages/client-web/src/app/admin/services/add/page.tsx:153 | a new block has an empty headline and exactly one empty link |
| ServiceEditor.AddServiceForm.constructor | packages/client-web/src/app/admin/services/add/page.tsx:107-131 | the form starts with no conditions, treatments or backlink blocks |
| ServiceEditor.AddServiceForm.AddCondition | packages/client-web/src/app/admin/services/add/page.tsx:212 | one new empty condition object is appended after the others |
| ServiceEditor.AddServiceForm.RemoveCondition | packages/client-web/src/app/admin/services/add/page.tsx:224 | exactly condition idx is removed |
| ServiceEditor.AddServiceForm.EditConditionText | packages/client-web/src/app/admin/services/add/page.tsx:232-246 | only the chosen attribute of condition idx changes, in place |
| ServiceEditor.AddServiceForm.SetSymptoms | packages/client-web/src/app/admin/services/add/page.tsx:247-249 | only the symptoms of condition idx change, in place |
| ServiceEditor.AddServiceForm.AddTreatment | packages/client-web/src/app/admin/services/add/page.tsx:260-264 | one new default-shaped treatment object is appended after the others |
| ServiceEditor.AddServiceForm.RemoveTreatment | packages/client-web/src/app/admin/services/add/page.tsx:276 | exactly treatment idx is removed |
| ServiceEditor.AddServiceForm.EditTreatmentText | packages/client-web/src/app/admin/services/add/page.tsx:282-339 | only the chosen text input of treatment idx changes, in place |
| ServiceEditor.AddServiceForm.EditTreatmentList | packages/client-web/src/app/admin/services/add/page.tsx:295-334 | only the chosen list of treatment idx changes, in place |
| ServiceEditor.AddServiceForm.AddBacklinkSchemaBlock | packages/client-web/src/app/admin/services/add/page.tsx:150-155 | one new block with headline "" and one empty link is appended |
| ServiceEditor.AddServiceForm.RemoveBacklinkSchemaBlock | packages/client-web/src/app/admin/services/add/page.tsx:157-160 | exactly block index is removed |
| ServiceEditor.AddServiceForm.UpdateBacklinkHeadline | packages/client-web/src/app/admin/services/add/page.tsx:162-166 | only the headline of block index changes |
| ServiceEditor.AddServiceForm.AddBacklinkLink | packages/client-web/src/app/admin/services/add/page.tsx:168-172 | only block blockIndex grows, by one empty link at its end |
| ServiceEditor.AddServiceForm.RemoveBacklinkLink | packages/client-web/src/app/admin/services/add/page.tsx:174-178 | only link linkIndex of block blockIndex is removed |
| ServiceEditor.AddServiceForm.UpdateBacklinkLink | packages/client-web/src/app/admin/services/add/page.tsx:180-184 | only the chosen attribute of that link of that block changes |
| AdminLayout.SessionDecisionSpec | packages/client-web/src/app/admin/layout.tsx:25-38 | the login path is always authorized; any other path is authorized exactly when a non-empty adminUser entry is stored, and is otherwise redirected to the login page |
| AdminLayout.Render | packages/client-web/src/app/admin/layout.tsx:45-49 | nothing is rendered while unauthorized; the login page is rendered without the sidebar |
| AdminLayout.AtMostOneActive | packages/client-web/src/app/admin/layout.tsx:51-58 | no path highlights two menu items; `/admin/services/add` highlights the services item |
| AdminLayout.LoggedOutIsRedirected | packages/client-web/src/app/admin/layout.tsx:40-43 | once the entry is removed, every path but the login page is redirected |
| AdminLayout.AdminShell.constructor | packages/client-web/src/app/admin/layout.tsx:21 | the layout starts unauthorized |
| AdminLayout.AdminShell.SessionEffect | packages/client-web/src/app/admin/layout.tsx:25-38 | the effect authorizes or navigates to the login page as decided, and never clears an earlier authorization |
| AdminLayout.AdminShell.HandleLogout | packages/client-web/src/app/admin/layout.tsx:40-43 | logout removes the adminUser entry and navigates to the login page |

## Left out

- The HTTP layer is not modelled. That covers the Express routing, the multer size limit and the success message texts of the replies.
- Store failures (the 500 catch blocks) are not modelled, with two exceptions: a key the document store refuses, and a toggle without `enabled`.
- The check-then-insert race on email uniqueness only arises under concurrent requests. The model handles requests one at a time.
- bcrypt internals (salt generation, cost factor 10) are not modelled. Only "a password matches its own hash" is assumed. `CollisionFree` is assumed only where a lemma says so.
- `Math.random`, `uuidv4` and `new Date().toISOString()` are parameters. A UUID is assumed fresh where a lemma needs it.
- Accounts.AccountManager.GetAllUsers: the table is a map and every item is listed. The source runs a single scan and never follows `LastEvaluatedKey` (userController.ts:79-90), so a table over one 1 MB page is listed only in part.
- The scans of `getAllBlogs` and `getAllServices` are not modelled. They return the table's items unchanged.
- `JSON.parse` is an abstract partial function. JSON numbers are integers here.
- Case mapping is ASCII only. JavaScript's `toLowerCase` and `toUpperCase` cover all of Unicode.
- Accounts.AccountManager.CreateUser: the request fields are strings or absent. A non-string field is not modelled.
- Accounts.AccountManager.CreateUser: the stored status is one of the two statuses of `types.ts`. The model does not cover other strings in the table.
- UserAdmin.Mapped: an absent `userId` or `id` is the empty string. An `id` of `undefined` is not distinguished from "".
- Client effects are not modelled: `fetch`, `alert`, clipboard, the image preview and the loading flags. The confirmation dialogs and request outcomes are boolean inputs.
- The scalar text inputs of the two editors are not modelled: title, author, SEO fields and the rest. BlogEditor.AddBlogForm.HandleSubmit sends only the modelled fields.
- The benefits and FAQ repeaters of the service editor (services/add/page.tsx:345-410) are not modelled. They follow the same copy-then-edit pattern as the condition repeater.
- The image uploaders of the service editor and the rich-text editors are not modelled.
- ServiceEditor: a backlink link and a treatment's candidate and evaluation sections are values of their entry, not separate objects. Each is reachable only through its entry, so the difference cannot be observed.
- AdminLayout.AdminShell.SessionEffect: the mobile menu flag is not modelled. The login page and its use of storage are not modelled either.
- Testimonials: the testimonial texts and animation variants are not modelled. Only the count of three matters.
