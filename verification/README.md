# Portfolio site content manager — a Dafny model

This project models the logic of a small portfolio web site: a content-management back end, an admin panel, two public pages and a one-off migration script. The database, the image host, the browser DOM and the clock are abstracted away. What remains is stated as contracts and proved.

- **Records** (`GalleryModel`, `SiteContentModel`). These are the gallery document and the single site-content document, with their schema defaults, validation and public projections (`toFrontendJSON`). They also include the gallery listing order and the `getContent` accessor, which gets the content document or creates it.
- **API handlers** (`Server` for galleries and images, `ServerContent` for testimonials, hero images and logo slots). Each handler is a method over an in-memory collection: `GalleryCollection` holds the galleries and `ContentStore` holds at most one content document.
  - Each handler's contract gives the HTTP outcome and the exact new state.
  - Where the source calls the image host's destroy, the contract also gives the ids it asks the host to delete.
  - Generated ids come from a `now` parameter that stands for `Date.now()`.
- **Upload validation** (`Cloudinary`):
  - the file-type filter;
  - the `public_id` extension stripping;
  - the guards in the two delete helpers.
- **Admin panel** (`Admin`):
  - the request bodies built from form values (gallery creation with its folder slug, testimonial saving);
  - the newline escape pair for the contact text;
  - the panel's local copy of the content and galleries (`AdminState`), which each handler updates after a successful response. The response is a parameter.
- **Public gallery page** (`GalleryPage`):
  - the lightbox position and JavaScript's `%`, including NaN for an empty page;
  - the keyboard, wheel and swipe mapping;
  - the counter text;
  - the mobile menu and the body scroll lock (`GalleryState`).
- **Home page** (`HomePage`):
  - the hero carousel with its two-digit counters and the invariant that exactly one slide is active;
  - the menu;
  - the featured-project and active-testimonial selections;
  - the favicon fallback;
  - the hero image list (`HomeState`).
- **Migration** (`Migration`):
  - the per-path upload cache;
  - hero and gallery image migration, which keeps ids and order and counts successes and failures;
  - cover-image matching with a fallback to the first image;
  - the gallery field defaults;
  - the stable sort of galleries by `order`;
  - the overall success verdict.

  The file system and the image host are a `Host` value: which files exist, the unique suffix of the n-th upload, and what the n-th upload returns (`None` when it throws). Every upload the script makes is also defined on values: `UploadStep` for one path, `UploadRun` for a loop over paths, `LogoUploads` for the logo and `ContentUploads` for the whole content file. Each migration method's result and new upload state equal those functions, so every success and failure follows from the `Host`.

Shared helpers live in `Base` and `Text`. `Base` has the optional value, `findIndex`, `filter` and one-element `splice`. `Text` has the string helpers: substring test, ASCII lowering, the slug, `formatPath`, backslash normalisation and decimal rendering.

## Model

| member | source | states |
|---|---|---|
| Server.GalleryId | server.js:173 | A generated gallery id is `gallery-` followed by the time. |
| Server.FolderFor | server.js:174 | A non-empty `folder` from the body wins. Without one, the folder is the name's slug when that slug is non-empty, and the generated id otherwise. The result is never empty, and a slug result holds only `[a-z0-9_-]`. |
| Server.CreatedGallery | server.js:176-182 | The created document always has the server's folder, an empty `images` list and `createdAt = now`. A body `id` overrides the generated one. Name, category and description come from the body or are empty; the cover and its public id come from the body. Schema defaults apply to `isActive`, `isFeatured` and `order`. The document passes validation exactly when the name is non-empty and any body id is non-empty. |
| Server.CreateGallery | server.js:171-190 | The new gallery is appended exactly when it validates and its id is not taken. Otherwise the handler answers 500 and the collection is unchanged. |
| Server.UpdateGallery | server.js:193-207 | An unknown id gives 404 and no change. Otherwise the body's fields are assigned over the stored gallery. The save succeeds exactly when the result validates and keeps its id unique. Only that gallery changes, and its `updatedAt` is bumped. |
| GalleryModel.Assign | server.js:200 | Each of the ten body fields, from `id` to `coverImagePublicId`, overrides the stored value when present and keeps it when missing. `_id`, `__v`, `images`, `createdAt` and `updatedAt` are never touched. |
| GalleryModel.AssignIdempotent | server.js:200 | Assigning the same body twice is the same as assigning it once. |
| GalleryModel.AssignNothing | server.js:200 | Assigning an empty body leaves the document unchanged. |
| Server.ImagePublicIds | server.js:218-220 | The result holds exactly the non-empty image public ids. |
| Server.CascadeIds | server.js:218-224 | The ids a delete cascades to are exactly the non-empty image public ids plus a set cover public id. None of them is empty. |
| Server.DeleteGallery | server.js:210-236 | An unknown id gives 404, no host call and no change. Otherwise the host is asked to delete `CascadeIds`, which means a remote call exactly when that list is non-empty. Then that one gallery is removed: the galleries left are exactly the old ones without that id. |
| Server.Reordered | server.js:243-245 | A listed gallery gets, as `order`, the position of the last listing of its id; a gallery listed exactly once gets that position. An unlisted gallery is unchanged. Nothing but `order` and `updatedAt` changes. |
| Server.ReorderedStep | server.js:243-245 | One more loop round sets `order = i` for the gallery listed at `i` and changes no other gallery. |
| Server.ReorderGalleries | server.js:239-252 | A missing `order` fails before any update. Otherwise every gallery becomes `Reordered` and none is added or lost. |
| Server.NewImages | server.js:277-285 | One document per uploaded file, in order. Each carries the given id, the host path, the host public id (multer's `filename`), the original name as both `filename` and `originalName`, the file size, and the upload time. |
| Server.UploadGalleryImages | server.js:259-303 | An unknown gallery gives 404. A refused upload gives 400 with the middleware's message. Otherwise the new images are appended after the existing ones. If the save fails inside the upload callback, the request is never answered. |
| Server.AppendSavable | server.js:287-288 | Appending images keeps a valid gallery valid exactly when each new image has a non-empty id and path. |
| Server.FindImage | server.js:313 | Returns the first image with the id, or -1 exactly when no image has it. |
| Server.DeleteGalleryImage | server.js:306-332 | An unknown gallery or image gives 404 and no change. Otherwise the first matching image's public id, if set, goes to the host. Every image with that id leaves the gallery; the others keep their order. |
| Server.DeleteImageRemovesOnlyThatId | server.js:324 | What is kept is exactly the images without the id. Everything dropped carries the id. |
| Server.ReorderImages | server.js:344-346 | The result is at most as long as `order`. Every element is an existing image whose id is listed. |
| Server.FoundIds | server.js:345-346 | The listed ids that name an existing image, in list order. |
| Server.FoundIdsFilter | server.js:345-346 | An id is found exactly when it is listed and some image carries it. |
| Server.ReorderFollowsFoundIds | server.js:344-346 | For any `order`, unknown ids included, the result has one image per found id, in list order. Each is the first image carrying that id. |
| Server.ReorderKnownIds | server.js:344-348 | When every listed id exists, the result lists exactly those ids in the given order. |
| Server.ReorderPermutes | server.js:344-348 | When ids are distinct and `order` lists each exactly once, the result holds the same images, none lost and none added. |
| Server.ReorderGalleryImages | server.js:335-355 | An unknown gallery gives 404. A missing `order` fails. Otherwise `images` becomes `ReorderImages` and nothing else in the collection changes. |
| ServerContent.TestimonialId | server.js:378 | A generated testimonial id is `testimonial-` followed by the time. |
| ServerContent.TestimonialsSavable | models/SiteContent.js:62-63 | Replacing the testimonials keeps the document valid exactly when every testimonial id is non-empty. |
| ServerContent.AddTestimonial | server.js:373-390 | The content is loaded, or created when absent. The new entry `{id, ...body, createdAt}` is appended exactly when its id is non-empty; otherwise the handler answers 500. |
| ServerContent.UpdateTestimonial | server.js:393-409 | When no entry has the id, the handler answers 404. Otherwise the body is merged over the first matching entry. The other entries are unchanged. |
| ServerContent.DeleteTestimonial | server.js:412-428 | When no entry has the id, the handler answers 404. Otherwise exactly the first matching entry is removed. |
| ServerContent.AddThenDeleteTestimonial | server.js:377-421 | Deleting by the id just added gives back the original list when no earlier entry shares that id. |
| SiteContentModel.NewTestimonial | server.js:377-381 | A body `id` overrides the generated one. `createdAt` is the time. `isActive` is false only when the body says so. Each of the five text fields is the body's value, or empty when the body has none. |
| SiteContentModel.NewIsMergeOverDefaults | server.js:377-402 | A new entry is the body merged over an empty, active entry with the generated id and the time. |
| SiteContentModel.MergeTestimonial | server.js:402 | Each of the seven body fields, from `id` to `isActive`, overrides the entry's value when present and keeps it when missing. `createdAt` is always kept. |
| SiteContentModel.MergeNothing | server.js:402 | Merging an empty body gives back the entry. |
| SiteContentModel.MergeIdempotent | server.js:402 | Merging the same body twice is the same as merging it once. |
| ServerContent.HeroImagesSavable | models/SiteContent.js:9-15 | Replacing the hero images keeps the document valid exactly when each image has a non-empty id and path. |
| ServerContent.DeleteHeroImage | server.js:476-499 | An unknown id gives 404. Otherwise the image's public id goes to the host when set, and exactly that one image is removed at the first match. |
| ServerContent.HeroId | server.js:446 | A generated hero image id is `hero-` followed by the time. |
| ServerContent.UploadHeroImage | server.js:435-473 | A refused upload gives 400 before the content is loaded. A request without a file fails after loading it. Otherwise the new image is appended, and the save succeeds exactly when the host path is non-empty. |
| ServerContent.LogoType | server.js:515 | The logo type is the body's non-empty `type`, else `main`. |
| ServerContent.PublicIdFieldInSchema | server.js:522 | `typePublicId` is a schema field exactly for `main`, `light` and `favicon`. |
| ServerContent.UploadLogoSlots | server.js:522-531 | For the three slots, the upload sets the slot and its public id and keeps every other field. For a type outside the schema, the saved logo is unchanged. |
| ServerContent.UploadLogo | server.js:506-539 | A refused upload gives 400. Otherwise the slot's old public id goes to the host when set. Then, with a file, both fields are set and saved. Without a file the handler answers 500 after that delete. |
| ServerContent.DeleteLogo | server.js:542-567 | An unset or empty slot gives 404. Otherwise the slot's public id goes to the host when set, and both fields are cleared. |
| ServerContent.UploadThenDeleteLogo | server.js:528-559 | Uploading to a slot and then deleting it gives the old logo without that slot. |
| SiteContentModel.StoreLogo | models/SiteContent.js:18-25 | A saved logo keeps exactly its six schema fields, with their values. |
| SiteContentModel.DefaultContent | models/SiteContent.js:109-122 | The created document has empty logo, hero title, hero images, about stats, quotes, testimonials and featured projects. Its subtitle, about image, contact text and seo title are empty strings, and it has no about public id. |
| SiteContentModel.DefaultSavable | models/SiteContent.js:109-122 | The default document passes validation. |
| SiteContentModel.Current | models/SiteContent.js:125-131 | The content a handler works on is the stored document when there is one, else the default document. |
| SiteContentModel.Stored | models/SiteContent.js:109-122 | Saving bumps `updatedAt` and cuts the logo to its schema fields. It keeps validity and changes nothing else when the logo is already in schema. |
| SiteContentModel.ContentStore.GetContent | models/SiteContent.js:125-131 | Returns the existing document unchanged when there is one. Otherwise it creates and stores the default. Afterwards exactly one document exists, so a repeated call creates nothing. |
| SiteContentModel.ContentStore.Save | models/SiteContent.js:119-122 | The document is stored exactly when it validates. |
| SiteContentModel.ToFrontendJSON | models/SiteContent.js:134-158 | Drops ids, timestamps, the three logo public ids and `about.imagePublicId`: the logo keeps exactly its other keys with their values. Hero subtitle, title, description and CTA text and about label, title, lead, text, more text, image and stats pass through. Hero images become `{id, path}` with the same length and order. Quotes, testimonials, contact, footer, seo and projects pass through unchanged. |
| SiteContentModel.ProjectionKeepsLogoImages | models/SiteContent.js:142-146 | `main`, `light` and `favicon` survive the projection with their values. |
| SiteContentModel.ProjectionHidesPrivateFields | models/SiteContent.js:134-158 | Documents differing only in private fields project to the same value. |
| GalleryModel.NewGallery | models/Gallery.js:20-36 | The id, name, folder, cover and cover public id come from the fields, with empty strings for a missing id or name. Schema defaults: `category` and `description` are empty, `isActive` is true, `isFeatured` is false and `order` is 0. The images are the given list, `__v` is 0 and both timestamps are `now`. A valid document has both `id` and `name`. |
| GalleryModel.ToFrontendJSON | models/Gallery.js:43-63 | Keeps the id, name, category, description, folder, order, `createdAt`, cover and flags. Each image is projected to its six public fields, with the same length and order. |
| GalleryModel.ProjectionHidesPrivateFields | models/Gallery.js:43-60 | Galleries differing only in `_id`, `__v`, `updatedAt`, `coverImagePublicId` and image `publicId`s project to the same value. |
| GalleryModel.Insert | models/Gallery.js:67 | Inserting into a sorted list keeps it sorted, adds exactly the element and loses nothing. |
| GalleryModel.SortGalleries | models/Gallery.js:67 | The result is sorted by `order`, then `createdAt`, and is a permutation of the input. |
| GalleryModel.GetAllForFrontend | models/Gallery.js:66-69 | The result is a rearrangement of the projected galleries, so each gallery appears exactly once. It is ordered by `order`, then `createdAt`. |
| GalleryModel.ProjectAllPermutes | models/Gallery.js:66-69 | Projecting two rearrangements of one list gives two rearrangements of one projected list. |
| GalleryModel.GalleryCollection.Find | server.js:195 | Returns the position of the gallery with the id, or -1 exactly when there is none. |
| GalleryModel.GalleryCollection.Insert | models/Gallery.js:21-22 | Saving a new document succeeds exactly when it validates and its id is not taken. Ids stay unique. |
| GalleryModel.GalleryCollection.Replace | server.js:201 | Saving a loaded document succeeds exactly when it validates and no other gallery has its id. Only that position changes, and its `updatedAt` is bumped. |
| GalleryModel.GalleryCollection.DeleteAll | scripts/migrate-to-cloud.js:401 | The collection is emptied. |
| GalleryModel.GalleryCollection.Remove | server.js:230 | Exactly that one document is removed and the rest keep their order. |
| GalleryModel.GalleryCollection.SetOrder | server.js:244 | Only a gallery with the id gets the new `order`. |
| Cloudinary.LastSegment | config/cloudinary.js:50 | The result is the text after the last `.` and holds no `.`. |
| Cloudinary.FileFilter | config/cloudinary.js:48-57 | A file is accepted exactly when both the lowered extension and the mimetype contain an allowed type name. A rejection carries the fixed message. |
| Cloudinary.LastSegmentAfterDot | config/cloudinary.js:50 | The segment after a final `.ext` is `ext`. |
| Cloudinary.ExtensionHoldingTypeAccepted | config/cloudinary.js:49-51 | Because the test is unanchored, any extension that merely contains a type name is accepted. |
| Text.ContainsIff | config/cloudinary.js:49 | The regex test agrees with the existence of an occurrence at some index. |
| Cloudinary.StripExtension | config/cloudinary.js:32 | Strips only a final `.ext` that is non-empty and free of `/` and `.`. Otherwise the name is unchanged. |
| Cloudinary.NoDotUnchanged | config/cloudinary.js:32 | A name without a dot is unchanged. |
| Cloudinary.PublicIdFor | config/cloudinary.js:30-34 | The public id is the stripped name, a dash, then the suffix. |
| Cloudinary.DeleteImage | config/cloudinary.js:66-74 | A falsy id gives null without a host call. A host error also gives null. |
| Cloudinary.DeleteImages | config/cloudinary.js:81-89 | A missing or empty list gives null without a host call. A host error also gives null. |
| Text.FormatPath | admin/admin.js:152-160 | An empty or missing path gives `''`. An http(s) URL and a path already starting with `/` are unchanged. Any other path gets `/` put in front. |
| Text.FormatPathIdempotent | admin/admin.js:152-160 | Formatting twice is formatting once. |
| Text.Slug | admin/admin.js:547 | The slug holds only `[a-z0-9_-]` and is no longer than the name. |
| Text.SlugIdempotent | admin/admin.js:547 | Slugging a slug changes nothing. |
| Admin.EncodeVisualText | admin/admin.js:951 | The saved text holds no newline. |
| Admin.DecodeVisualText | admin/admin.js:936 | The rendered text is no longer than the saved text. |
| Admin.VisualTextRoundTrip | admin/admin.js:936-951 | Rendering what was saved gives back any text without a literal backslash-`n`. |
| Admin.VisualTextRoundTripBack | admin/admin.js:936-951 | Saving what was rendered gives back any stored text without a raw newline. |
| Admin.CreateGalleryRequest | admin/admin.js:532-548 | An empty name sends nothing. Otherwise the request carries the name, the category and description as typed, the flags and the name's slug as `folder`. It sends no id, order or cover. |
| Admin.CreatedFolderIsSlugOrId | admin/admin.js:547 | A gallery created from the panel ends up in the slug folder, or under the generated id when the slug is empty. |
| Admin.SaveTestimonialRequest | admin/admin.js:852-886 | An empty author sends nothing. Otherwise the request carries the text and short text as typed, the author name, its first character as initial, the default role when the role is empty, and `isActive = true`, and no id field. It is a PUT to the edited id exactly when an id is being edited. |
| Admin.SavedTestimonialIsActive | admin/admin.js:863-870 | A testimonial created from the panel is stored active, under the generated id, with a non-empty role. |
| Admin.AdminState.constructor | admin/admin.js:12-16 | The panel starts with the loaded content and galleries and no gallery being edited. |
| Admin.AdminState.UploadLogo | admin/admin.js:220-250 | On success the slot shows the returned path. Nothing else changes. |
| Admin.AdminState.DeleteLogo | admin/admin.js:252-265 | On success the slot is removed. Nothing else changes. |
| Admin.AdminState.UploadHeroImages | admin/admin.js:343-374 | The successful responses are appended in file order after the existing hero images. |
| Admin.Successes | admin/admin.js:359-364 | At most one image arrives per request. |
| Admin.AllSucceed | admin/admin.js:349-365 | When every request succeeds, all uploaded images arrive, in file order. |
| Admin.AdminState.DeleteHeroImage | admin/admin.js:376-390 | On success exactly the images with the id leave, and the rest keep their order. |
| Admin.AdminState.CreateGallery | admin/admin.js:532-565 | An empty name sends nothing and changes nothing. A created gallery is appended. |
| Admin.AdminState.UploadGalleryImages | admin/admin.js:669-701 | With a truthy gallery id being edited, at least one file, a listed gallery and a successful response, the response's images are appended after that gallery's existing images. Otherwise, an empty id (`Some("")`) included, nothing changes. |
| Admin.AdminState.DeleteGalleryImage | admin/admin.js:734-753 | On success, images with the id leave the first gallery with the given id. Nothing else changes. |
| Admin.AdminState.DeleteGallery | admin/admin.js:755-770 | On success every gallery with the id leaves the list, and the edit panel is closed. On failure nothing changes. The content is never touched. |
| Admin.AdminState.EditGallery | admin/admin.js:572-577 | A listed id becomes the gallery being edited. An unknown id changes nothing. |
| Admin.AdminState.CloseGalleryEdit | admin/admin.js:628-631 | No gallery is being edited afterwards. Nothing else changes. |
| Admin.AdminState.SaveGalleryDetails | admin/admin.js:633-667 | An empty form id sends nothing. Otherwise a PUT carries exactly the name, category, description and both flags. On success the first gallery with that id takes those five values, and nothing else changes. |
| Admin.EditThenUpload | admin/admin.js:572-701 | Editing a listed gallery and then uploading appends the response's images to that gallery. |
| GalleryPage.JsRem | public/js/gallery.js:262-267 | JavaScript `%` by the image count is NaN exactly for zero images. A non-negative operand lands in `[0, n)`. |
| GalleryPage.StepsWrapAround | public/js/gallery.js:261-269 | Next is `(i+1) mod n` and previous is `(i-1+n) mod n`, both wrapping at the ends. |
| GalleryPage.StepsLandInRange | public/js/gallery.js:261-269 | For `n > 0`, one step from any non-negative index lands in `[0, n)`. |
| GalleryPage.NextPrevInverse | public/js/gallery.js:261-269 | Next then previous, and previous then next, return to the original index. |
| GalleryPage.EmptyPageIsNaN | public/js/gallery.js:261-269 | With no images every step gives NaN, and NaN stays NaN. |
| GalleryPage.CounterReadsBack | public/js/gallery.js:255-258 | The counter reads `{i+1} / {n}`, and both numbers read back. |
| GalleryPage.ImageItems | public/js/gallery.js:135-148 | The click handlers open the page positions of the items that hold an image, in increasing order. |
| GalleryPage.ImageSources | public/js/gallery.js:135-138 | The pushed sources are those of the items that hold an image, in page order. |
| GalleryPage.AllItemsHaveImages | public/js/gallery.js:135-148 | When every item holds an image, the j-th image opens position j. |
| GalleryPage.GalleryState.constructor | public/js/gallery.js:32-40 | The page starts with no images, index 0 and everything closed. |
| GalleryPage.GalleryState.InitGallery | public/js/gallery.js:129-172 | The images are appended in page order, and the registered handlers open `ImageItems`. Nothing else changes. |
| GalleryPage.GalleryState.OpenLightbox | public/js/gallery.js:212-226 | Sets the index, opens the lightbox, locks scrolling and updates the counter. |
| GalleryPage.GalleryState.CloseLightbox | public/js/gallery.js:228-238 | Closes the lightbox and unlocks scrolling. The index is kept. |
| GalleryPage.GalleryState.ShowNext | public/js/gallery.js:266-269 | The index becomes `NextIndex` and the counter follows. |
| GalleryPage.GalleryState.ShowPrevious | public/js/gallery.js:261-264 | The index becomes `PrevIndex` and the counter follows. |
| GalleryPage.GalleryState.HandleKeydown | public/js/gallery.js:271-285 | Nothing happens while closed. When open, ArrowLeft goes next, ArrowRight goes previous and Escape closes; after a move the counter reads the new position. Other keys change nothing. |
| GalleryPage.GalleryState.HandleWheel | public/js/gallery.js:287-297 | Nothing happens while closed. When open, `deltaY > 0` goes next and anything else goes previous, and the counter reads the new position. |
| GalleryPage.GalleryState.HandleTouchStart | public/js/gallery.js:299-301 | Records the start position only. |
| GalleryPage.GalleryState.HandleTouchEnd | public/js/gallery.js:303-314 | Moves only when the swipe exceeds 50. A positive difference goes next and a negative one goes previous, and after a move the counter reads the new position. |
| GalleryPage.GalleryState.ToggleMenu | public/js/gallery.js:90-107 | Flips the menu, and scrolling is locked exactly while the menu is open. |
| GalleryPage.GalleryState.CloseMenu | public/js/gallery.js:109-124 | The menu is closed, and scrolling stays locked exactly when the lightbox is open. |
| GalleryPage.GalleryState.HandleMenuEscape | public/js/gallery.js:83-87 | Escape closes only an open menu. |
| HomePage.Featured | public/js/script.js:702 | The featured projects are exactly the galleries that are both featured and active. |
| HomePage.FeaturedKeepsOrder | public/js/script.js:702 | The selection keeps the original order. |
| HomePage.GridShowsFeatured | public/js/script.js:695-731 | The grid is untouched when no gallery is featured or there is no grid. Otherwise it holds one card per featured gallery, in order: card `i` links to `/gallery/{id}`, shows the formatted cover, the category, the name and the image count, and has reveal delay `i % 4 + 1`, between 1 and 4. |
| HomePage.ActiveTestimonials | public/js/script.js:618 | The rendered testimonials are exactly the active ones. |
| HomePage.TrackShowsActive | public/js/script.js:615-636 | With testimonials and a track, the track shows the active testimonials in order, each with its short text or else its full text. Otherwise the track is unchanged. |
| HomePage.NoActiveEmptiesTrack | public/js/script.js:615-636 | When testimonials exist but none is active, the track is emptied. |
| HomePage.FaviconSource | public/js/script.js:520-531 | The favicon comes from the favicon logo when set, else from the main logo, else it is left alone. |
| HomePage.SlideCounter | public/js/script.js:158 | The slide counter is at least two characters. |
| HomePage.SlideCounterReadsBack | public/js/script.js:139 | A padded counter is all digits and reads back as its number. |
| Text.PaddedDecimalRoundTrip | public/js/script.js:158 | `padStart(2, '0')` of a number's digits is at least two digits and reads back as the number. |
| Text.FormatLocal | public/js/script.js:552-563 | Hero paths are made site-absolute unless already absolute or a URL. The original path is kept as a suffix. |
| HomePage.HomeState.constructor | public/js/script.js:13-19 | The page starts with the four built-in hero images. |
| HomePage.HomeState.UpdateHeroImages | public/js/script.js:552-563 | A non-empty list from the content replaces the configured paths, formatted. An empty list keeps them. |
| HomePage.HomeState.InitHeroCarousel | public/js/script.js:90-147 | One slide is created per image. With no images it stops before rotating. Otherwise the first slide is active, the counters read `01` and `/ ` plus the padded total, and rotation starts. |
| HomePage.HomeState.NextHeroSlide | public/js/script.js:149-160 | The slide becomes `(cur+1) mod n` and stays in range. The old slide is deactivated and the new one activated, which preserves exactly-one-active. The counter shows the padded position. |
| HomePage.RunCarousel | public/js/script.js:143-146 | From a fresh page, any number of rotations keeps exactly one active slide. |
| HomePage.HomeState.ToggleMenu | public/js/script.js:216-233 | Negates the menu flag, and scrolling is locked exactly while the menu is open. |
| HomePage.HomeState.CloseMenu | public/js/script.js:235-250 | Forces the menu closed and unlocks scrolling. |
| HomePage.HomeState.HandleEscape | public/js/script.js:209-213 | Escape closes only an open menu. |
| Migration.Migrator.constructor | scripts/migrate-to-cloud.js:41-51 | The run starts with zero tallies and an empty cache. |
| Migration.NewAttemptFaithful | scripts/migrate-to-cloud.js:63-96 | A new upload of an uncached path, with only a success cached, keeps the cache faithful: each entry is the host's answer for its path, and no path is sent again after a success. |
| Migration.Migrator.UploadImage | scripts/migrate-to-cloud.js:59-105 | A cached path is answered from the cache without a host call. A missing file gives `None` and no call. Otherwise exactly one call is made with folder `leah-budik/…` and a sanitised id, its answer is the result, and only a success is cached. No cached entry ever changes. The result and new state are `UploadStep` of the old state. |
| Migration.Migrator.UploadTwice | scripts/migrate-to-cloud.js:63-67 | A second upload of a path whose first upload succeeded returns the cached result without another call. |
| Migration.UploadStep | scripts/migrate-to-cloud.js:59-105 | On values: a cached path is answered from the cache with the state unchanged; a success is cached; a failure leaves the cache unchanged. The state only grows and at most one host call is logged. |
| Migration.UploadStepFailure | scripts/migrate-to-cloud.js:70-104 | An upload that yields nothing is explained: the path was not cached, and if its file exists the host was called for it and that call failed. |
| Migration.UploadRun | scripts/migrate-to-cloud.js:162-179 | Uploading the first `n` paths in order gives one outcome per path, and the state only grows. |
| Migration.UploadRunOutcomes | scripts/migrate-to-cloud.js:162-179 | After a run, each success is what the final cache holds for its path, and each failure is explained by a failed host call made during the run. |
| Migration.UploadRunOutcomeAt | scripts/migrate-to-cloud.js:162-179 | The same for one position, by induction on the run. |
| Migration.KeptHeroes | scripts/migrate-to-cloud.js:168-175 | The kept hero images are at most one per outcome, and none when every upload failed. |
| Migration.KeptHeroesAllSucceed | scripts/migrate-to-cloud.js:168-175 | When every upload succeeds, hero image `j` is built from source `j` and its upload, so ids keep their order. |
| Migration.KeptImages | scripts/migrate-to-cloud.js:304-320 | The kept gallery images are at most one per outcome, and none when every upload failed. |
| Migration.KeptImagesAllSucceed | scripts/migrate-to-cloud.js:304-320 | When every upload succeeds, gallery image `j` is built from source `j` and its upload. |
| Migration.HeroUploads | scripts/migrate-to-cloud.js:234-238 | An absent or empty hero list uploads nothing and changes nothing; otherwise at most one image per source, and the state only grows. |
| Migration.LogoSlot | scripts/migrate-to-cloud.js:115-149 | One logo key on values: an unset path changes nothing; no other key changes; the key ends `SlotDone`. |
| Migration.LogoUploads | scripts/migrate-to-cloud.js:110-152 | The main, light and favicon keys in that order; the state only grows. |
| Migration.LogoUploadsKeys | scripts/migrate-to-cloud.js:110-152 | The migrated logo holds only the six schema keys. |
| Migration.LogoUploadsSlots | scripts/migrate-to-cloud.js:110-152 | Each of main, light and favicon is absent when unset, holds the cached URL and public id when uploaded, and is an explained failure otherwise. |
| Migration.ContentUploads | scripts/migrate-to-cloud.js:228-244 | Logo, hero images and about image uploaded in that order; an absent logo gives an empty map, an absent or empty hero list no images, an unset about image empty fields; the state only grows. |
| Migration.Sanitize | scripts/migrate-to-cloud.js:80 | Each character outside `[a-zA-Z0-9-_]` becomes `_`. Nothing else changes and the length, counted in characters, is the same. |
| Migration.SanitizeOnlyIdChars | scripts/migrate-to-cloud.js:80 | A sanitised id holds only allowed characters, and sanitising is idempotent. |
| Migration.BaseName | scripts/migrate-to-cloud.js:78 | The base name is the suffix after the last `/`. |
| Migration.Stem | scripts/migrate-to-cloud.js:78 | The stem is a prefix of the base name, holds no `/`, and is either the whole base name or cut just before a dot. |
| Migration.RequestedId | scripts/migrate-to-cloud.js:77-80 | The requested public id holds only `[a-zA-Z0-9-_]`. |
| Migration.Migrator.Count | scripts/migrate-to-cloud.js:174-177 | Exactly one of the two counters goes up by one. |
| Migration.Migrator.MigrateHeroImages | scripts/migrate-to-cloud.js:157-182 | The outcomes and final upload state are exactly `UploadRun` of the hero paths into `hero`, and the migrated list is `KeptHeroes` of those outcomes. The kept positions are exactly the successes, in input order; each kept image keeps its id and takes that upload's URL and public id, which the cache holds for its path; each failure is explained by the host (`FailureExplained`). Uploaded plus failed equals the input length. |
| Migration.Migrator.HeroStep | scripts/migrate-to-cloud.js:163-178 | One round is one `UploadStep` of the next hero path: its outcome is recorded, a success adds the image built from it, and it is counted once. The loop state `HeroProgress` is kept. |
| Migration.Migrator.ImageStep | scripts/migrate-to-cloud.js:304-320 | One round is one `UploadStep` of the next gallery image path: its outcome is recorded, a success adds the image built from it, and it is counted once. The loop state `ImageProgress` is kept. |
| Migration.KeptStep | scripts/migrate-to-cloud.js:162-179 | Recording one more outcome keeps the kept positions ascending and exactly the successful ones. |
| Migration.Migrator.MigrateAboutImage | scripts/migrate-to-cloud.js:187-207 | No image gives empty fields, no count and no upload. Otherwise the result and new state are `UploadStep` into `about`: a success gives its URL and public id and one success count; a failure gives empty fields and one failure count. |
| Migration.Migrator.MigrateLogoEntry | scripts/migrate-to-cloud.js:115-125 | A set path is uploaded into `logo` as `UploadStep` states and counted once; an unset one is neither uploaded nor counted. A success fills the key with the URL and its `PublicId` key with the public id. The new map and state are `LogoSlot`. |
| Migration.Migrator.MigrateLogo | scripts/migrate-to-cloud.js:110-152 | Only the six logo fields are produced. One logo count per set slot. With no failures every set slot is filled. The map and state are `LogoUploads`, so each of main, light and favicon is absent when unset, holds the cached URL and public id when uploaded, and is an explained failure otherwise. |
| Migration.Migrator.MigrateContent | scripts/migrate-to-cloud.js:212-285 | Without a file, content counts as saved and nothing is uploaded. Otherwise content success is the save outcome, and the media and new upload state are `ContentUploads` of the file: logo, then hero images, then about image, each only when present. The logo: only the six fields, one count per set slot, and every set slot filled when none failed. The hero images: one count each. The about image: no count and empty fields when unset; otherwise one count, and non-empty fields mean a success. |
| Migration.Migrator.MigrateHeroPart | scripts/migrate-to-cloud.js:234-238 | Only a non-empty hero list is migrated. The list and new state are `HeroUploads`. Each image is counted once, successes and failures add up, and the migrated ids are among the source ids. |
| Migration.Migrator.MigrateLogoPart | scripts/migrate-to-cloud.js:229-232 | Only a logo present in the file is migrated: an absent one gives an empty map and no count. The map and new state are `LogoUploads`, tallied as `MigrateLogo` states. |
| Migration.Migrator.MigrateMedia | scripts/migrate-to-cloud.js:228-244 | The upload part of `migrateContent`: only the logo, hero and about tallies change; the media and new state are `ContentUploads`, with the logo, hero and about facts of `MigrateContent`. |
| Text.NormalizeSlashes | scripts/migrate-to-cloud.js:333 | Every backslash becomes `/` and nothing else changes. |
| Migration.SelectCover | scripts/migrate-to-cloud.js:325-356 | The cover is the first migrated image matching the cover path after slash normalisation. Otherwise it is the first migrated image, and `None` exactly when none migrated. |
| Migration.MigratedFollowsSchema | scripts/migrate-to-cloud.js:358-372 | The id and name are kept. `isActive` is `!== false` and `isFeatured` defaults to false, as in the schema. `order` differs from the schema default exactly when it is missing or 0 and the index is not 0. There is a cover exactly when some image migrated. |
| Migration.MigratedDocKeys | scripts/migrate-to-cloud.js:359-367 | The document keeps the source id and name, and `order` is `order || index`. |
| Migration.Migrator.MigrateGallery | scripts/migrate-to-cloud.js:290-375 | The outcomes and final upload state are exactly `UploadRun` of the image paths into `galleries/{id}` (`ImagesDone`). The kept positions are exactly the successes, in order; each kept image is the source's id and file name with that upload's URL and public id, which the cache holds; each failure is explained by the host. Failures are counted. The document is `MigratedDoc` of `KeptImages`. |
| Migration.Migrator.MigrateImages | scripts/migrate-to-cloud.js:300-322 | The image loop: `ImagesDone`, that is, the outcomes and final state are `UploadRun` of the paths, the kept images are `KeptImages` built from the successes, each success is cached and each failure explained. The two tallies add up to the input length. |
| Migration.InsertByOrder | scripts/migrate-to-cloud.js:405 | Inserting into a list sorted by `order \|\| 0` keeps it sorted and adds exactly the element. |
| Migration.SortByOrder | scripts/migrate-to-cloud.js:405 | The result is sorted by `order \|\| 0` and is a permutation of the input. |
| Migration.InsertKeepsTies | scripts/migrate-to-cloud.js:405 | Insertion puts the element after all of its equal-key predecessors. |
| Migration.SortKeepsTies | scripts/migrate-to-cloud.js:405 | The sort is stable: galleries with equal order keep their file order. |
| Migration.Migrator.CreateGallery | scripts/migrate-to-cloud.js:411-420 | The gallery is migrated and created with its source id, name and `order || index`. A refused document counts as a failed gallery and leaves the collection unchanged. The content tallies are untouched. |
| Migration.Migrator.SaveGallery | scripts/migrate-to-cloud.js:413-419 | `Gallery.create` succeeds exactly when the document validates and its id is new; the document is then appended, and the gallery tally counts the outcome. The upload cache is untouched. |
| Migration.Migrator.CreateStep | scripts/migrate-to-cloud.js:411-420 | One round either stores the gallery, recording its sorted position and counting a success, or counts a failure. The stored positions stay ascending and traceable. |
| Migration.Migrator.CreateAll | scripts/migrate-to-cloud.js:408-421 | Each stored document came from an increasing position of the sorted list. Migrated plus failed equals the number of galleries. |
| Migration.Migrator.MigrateGalleries | scripts/migrate-to-cloud.js:380-422 | Without a file or galleries nothing changes. Otherwise the collection is emptied, the galleries go in `SortByOrder` order, and each stored document traces back to its sorted position. |
| Migration.AllSuccessIgnoresImages | scripts/migrate-to-cloud.js:566-569 | Overall success requires content success and zero gallery, logo and hero failures. About-image and gallery-image failures do not matter. |

## Left out

- HTTP plumbing is not modelled: Express routing, sessions, `requireAuth`, response bodies and the GET handlers. A handler's outcome is the `Status` datatype.
- The whole-content and per-section PUT handlers are not modelled. They replace a section wholesale and state nothing beyond assignment.
- MongoDB is replaced by in-memory sequences. Save failures other than schema validation are not modelled. Concurrent requests are not modelled.
- The image host (upload, destroy, `delete_resources`), multer and the 10 MB limit are outside the model. Handlers return the ids they send to the host. A host error is an input.
- The clock and the random source are inputs: `now` and the given ids and suffixes. Generated ids are assumed distinct.
- The testimonial update `{ ...subdoc, ...body }` is modelled as a field merge. The spread of a database sub-document object is not modelled.
- A body-supplied `createdAt` or `_id` is ignored.
- Logo types outside the six schema fields are dropped on save, following the strict schema. Types that name prototype properties are not modelled.
- `toLowerCase` is modelled for ASCII letters only.
- Admin.SaveTestimonialRequest: `charAt(0)` is modelled as the name's first character, that is, its first Unicode code point. JavaScript takes the first UTF-16 code unit. The two differ when the name starts with a character outside the Basic Multilingual Plane: JavaScript then sends a lone high surrogate as the initial.
- DOM work is not modelled: templates, `escapeHtml`, ARIA, focus and toasts. `confirm()` is taken as confirmed. Timers and animation are not modelled: `setTimeout`, the rotation interval, throttling and fades.
- Wheel `deltaY` and touch `clientX` are reals. Gestures are assumed to arrive at the lightbox.
- GalleryPage.GalleryState.ToggleMenu: closing the menu unlocks scrolling even when the lightbox is open, as the source does. The model keeps that behaviour and does not claim the lock follows the lightbox.
- GalleryPage.GalleryState.InitGallery: when an item has no image, the item index and the image index differ. The model keeps the item index, as the source does. `AllItemsHaveImages` covers the case where every item has an image.
- HomePage.HomeState.InitHeroCarousel: does not reset `currentHeroSlide`, which matches the source. Exactly one active slide is proved only from a fresh page.
- Migration.FullPath is plain concatenation. `path.join` normalisation and trailing slashes of `basename` are not modelled, nor `extname` of names that are only dots.
- Migration.Migrator.MigrateContent: the copying of the text fields with `|| ''` defaults is not modelled. Nor are the content document's delete and re-create. The save outcome is an input.
- Admin.AdminState.SaveGalleryDetails: the gallery id is the edit form's hidden field, which is an input. `editGallery` fills it and `closeGalleryEdit` does not clear it, so the model does not tie it to `currentGalleryId`.
- GalleryModel.Assign: a body `images` field is not modelled, because `GalleryFields` has no `images` field. `Object.assign` would copy one.
- Migration.Migrator.MigrateGalleries: each stored document is tied to its source gallery by id, name, order and database id. The full document is stated one gallery at a time by `MigrateGallery`.
- Migration.Migrator.CreateGallery: the returned document is stated by id, name, order and database id only; its images, cover and folder are stated by `MigrateGallery`, which it calls.
- Migration.Migrator.CreateStep: the stored document is tied to its sorted position by id, name, order and database id, as for `MigrateGalleries`.
- Migration.Migrator.CreateAll: the stored documents are tied to their sorted positions by id, name, order and database id, as for `MigrateGalleries`.
- Migration.Sanitize: characters are modelled as Unicode code points. The regular expression at scripts/migrate-to-cloud.js:80 has no `u` flag, so JavaScript replaces each UTF-16 code unit; a character outside the Basic Multilingual Plane becomes `__` there and `_` in the model.
- SiteContentModel.Stored: every save sets `updatedAt`. Mongoose timestamps set it only when the document is new or has a modified path, so a save without changes keeps the old stamp in the source.
- GalleryModel.GalleryCollection.Replace: every save sets `updatedAt`, while Mongoose timestamps leave it alone when no path of the loaded document was modified.
- Error lists, console output and `printSummary` are not modelled. Reading the JSON files is not modelled; a missing file is `None`.
- A whole run uses a single `now`.
- config/database.js is not part of this model.
