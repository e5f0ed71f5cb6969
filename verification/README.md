# INARA TECH site: the client-side store, in Dafny

The INARA TECH marketing site is a React single-page application. This project
models the part of it that holds and changes data in the browser. It leaves out
the rendering.

- **Testimonials.** They are kept as one list under the `localStorage` key
  `inaratech_testimonials`. The admin manager adds, edits and deletes records.
  The public form validates a submission and appends it as not featured. The
  public widget falls back to six built-in examples when nothing is stored,
  refreshes on a storage notification and shows the first three.
  `src/App.jsx` routes no `/admin` path, and none of the modelled pages renders
  `TestimonialForm`. The admin manager and the public form are modelled as their
  components define them, and the scenarios about them say what happens once
  they are mounted.
- **Contact form.** Its validator fills an error map; typing clears a field's
  message. The submission settles as delivered or not. A successful submission
  opens a success screen with a 15-second countdown meant to enable "Send
  Another Message". A five-second timeout closes that screen first, so the
  button is never clickable (see "## Findings").
- **Blog.** Three built-in posts get a slug and are sorted newest first. They can
  be looked up by slug, filtered by tag and have their tags collected. Visit
  counters are kept under `blog_views_<slug>`, and both blog pages show
  reading time and views.
- **Site footer.** It has the visit counter `site_total_views` with its reset
  button.
- **Admin page.** A password gate remembered under `admin_authenticated`.
- **Theme provider.** It keeps `theme` in storage and mirrors it with the `dark`
  class on the root element.

`localStorage` is the class `LocalStorage.Store`, whose one field is a map from
keys to structured values: text, a counter, or a list of testimonials. Each
React component whose handlers update its state is a class. Its fields are the
component's state, and its methods are the handlers and effects, with
`modifies` frames. The logic those handlers use is written as functions on
values, with lemmas proving what the site relies on. Timers, confirmation
dialogs, `Date.now()`, the network outcome and `generateSlug` are all explicit
inputs:

- every timer callback is a method of its own;
- `window.confirm` is a boolean;
- `Date.now()` is an `int`;
- the network outcome is a boolean;
- `generateSlug` is a function parameter.

Modules, one per file: `Wrappers`, `JsBuiltins` (string trimming, `split`,
`slice`, `Math.ceil` and string length as the browser computes them),
`TestimonialStore`, `LocalStorage`, `FormErrors`, `TestimonialFormUI`,
`TestimonialsAdminUI`, `TestimonialsUI`, `ContactPage`, `BlogUtils`, `BlogPage`,
`BlogPostPage`, `SiteFooter`, `AdminPage`, `Theme`.

## Model

| member | source | states |
|---|---|---|
| JsBuiltins.TrimStartDropsSpace | src/components/TestimonialForm.jsx:42-46 | `trim()` at the front removes exactly a prefix of white space and leaves a string that starts with a non-space |
| JsBuiltins.TrimEndDropsSpace | src/components/TestimonialForm.jsx:42-46 | `trim()` at the back removes exactly a suffix of white space and leaves a string that ends with a non-space |
| JsBuiltins.BlankIffAllSpace | src/pages/Contact.jsx:79-93 | `!s.trim()` holds exactly when every character of `s` is white space |
| JsBuiltins.Utf16Length | src/pages/Contact.jsx:95 | `length` counts UTF-16 units: between one and two per character |
| JsBuiltins.SliceTo | src/components/Testimonials.jsx:105 | `slice(0, end)` is a prefix of the array, never longer than it |
| JsBuiltins.CeilDiv | src/pages/Blog.jsx:215 | `Math.ceil(a / b)` is the least `q` with `a <= q * b` |
| JsBuiltins.SplitOnSpace | src/pages/Blog.jsx:215 | `split(' ')` gives at least one piece, and no piece holds a space |
| JsBuiltins.SplitThenJoin | src/pages/Blog.jsx:215 | joining the pieces of `split(' ')` with single spaces gives back the string |
| JsBuiltins.SplitCount | src/pages/Blog.jsx:215 | `split(' ')` gives one more piece than the string has spaces |
| TestimonialStore.Removed | src/components/TestimonialsAdmin.jsx:73 | the filter keeps exactly the records whose id differs |
| TestimonialStore.RemovedConcat | src/components/TestimonialsAdmin.jsx:73 | filtering a concatenation filters each part, so the relative order of the survivors is kept |
| TestimonialStore.RemovedAbsent | src/components/TestimonialsAdmin.jsx:71-75 | deleting an id that no record has changes nothing |
| TestimonialStore.RemovedIdempotent | src/components/TestimonialsAdmin.jsx:71-75 | deleting the same id twice is deleting it once |
| TestimonialStore.RemovedUnique | src/components/TestimonialsAdmin.jsx:71-75 | deleting keeps ids unique |
| TestimonialStore.RemovedWellFormed | src/components/TestimonialsAdmin.jsx:71-75 | deleting keeps every rating in 1..5 and every avatar among the options |
| LocalStorage.Store.constructor | src/components/TestimonialsAdmin.jsx:24 | storage starts with the given entries |
| LocalStorage.Store.GetItem | src/components/TestimonialsAdmin.jsx:24 | `getItem` finds a value exactly when the key is present |
| LocalStorage.Store.SetItem | src/components/TestimonialsAdmin.jsx:32 | `setItem` writes one key and leaves every other key alone |
| LocalStorage.Store.RemoveItem | src/components/Footer.jsx:313 | `removeItem` deletes one key and leaves every other key alone |
| LocalStorage.CountIn | src/utils/blogUtils.js:327 | a counter reads as 0 when its key is absent and as the stored number otherwise |
| LocalStorage.RecordsIn | src/components/TestimonialForm.jsx:61 | the stored list is found exactly when the key holds a list |
| LocalStorage.CountAfterWrite | src/utils/blogUtils.js:327-328 | after a counter is written, that counter reads back the written value and every other counter reads as before |
| FormErrors.ClearError | src/pages/Contact.jsx:182-184 | a field that shows a message gets `''`; no key is added or removed, and every other message stays |
| FormErrors.ClearErrorHidesOnlyThatField | src/components/TestimonialForm.jsx:31-36 | after typing in a field, the fields showing a message are the ones before minus that field |
| TestimonialFormUI.Validate | src/components/TestimonialForm.jsx:39-50 | name, company and role are flagged exactly when blank after trimming; content is flagged exactly when its trimmed length is under 20, always with the "at least 20 characters" message; the map is empty exactly when the submission is acceptable |
| TestimonialFormUI.BlankContentIsTooShort | src/components/TestimonialForm.jsx:45-46 | blank content shows "Please write at least 20 characters", never "required" |
| TestimonialFormUI.NewSubmission | src/components/TestimonialForm.jsx:64-68 | the new record has id `now`, the form's fields and `featured` false |
| LocalStorage.RecordsOrEmpty | src/components/TestimonialForm.jsx:61 | an absent key reads as the empty list, a stored list as itself; the admin manager's load at src/components/TestimonialsAdmin.jsx:23-28 reads the same |
| TestimonialFormUI.TestimonialForm.constructor | src/components/TestimonialForm.jsx:9-19 | empty fields, rating 5, the default avatar, no errors, nothing submitted |
| TestimonialFormUI.TestimonialForm.HandleInputChange | src/components/TestimonialForm.jsx:23-37 | the field takes the value and only that field's message is blanked |
| TestimonialFormUI.TestimonialForm.PickAvatar | src/components/TestimonialForm.jsx:214-218 | the avatar becomes the chosen option |
| TestimonialFormUI.TestimonialForm.PickRating | src/components/TestimonialForm.jsx:255-259 | the rating becomes the chosen star count, in 1..5 |
| TestimonialFormUI.TestimonialForm.ValidateForm | src/components/TestimonialForm.jsx:39-50 | the shown errors are `Validate` of the form, and the answer is whether the form is acceptable |
| TestimonialFormUI.TestimonialForm.HandleSubmit | src/components/TestimonialForm.jsx:52-104 | invalid: storage, form and callback untouched. Valid: storage holds the previous list (or `[]`) plus one non-featured record, the callback gets that same list, the form is reset and the success message shows |
| TestimonialFormUI.TestimonialForm.HideSuccess | src/components/TestimonialForm.jsx:95-97 | the success message goes away |
| TestimonialFormUI.SubmissionKeepsWellFormed | src/components/TestimonialForm.jsx:71 | appending a submission made with the star and avatar buttons keeps every stored rating in 1..5 and avatar among the options |
| TestimonialsAdminUI.DraftOf | src/components/TestimonialsAdmin.jsx:65-66 | the form filled from a well-formed record is well formed |
| TestimonialsAdminUI.Merge | src/components/TestimonialsAdmin.jsx:50 | `{...testimonial, ...formData}`: a well-formed form gives a well-formed record, and a form without its own id keeps the record's id |
| TestimonialsAdminUI.NewRecord | src/components/TestimonialsAdmin.jsx:55-58 | `{id: Date.now(), ...formData}`: the id is `now` unless the form carries one |
| TestimonialsAdminUI.MergeOwnDraft | src/components/TestimonialsAdmin.jsx:48-52 | merging a record with the form copied from it gives the record back |
| TestimonialsAdminUI.Updated | src/components/TestimonialsAdmin.jsx:48-52 | same length; each record with the edited id is merged with the form and every other record is untouched |
| TestimonialsAdminUI.EditUnchangedIsIdentity | src/components/TestimonialsAdmin.jsx:46-52 | editing a listed record and saving without changes leaves the list identical |
| TestimonialsAdminUI.UpdatedMissing | src/components/TestimonialsAdmin.jsx:48-52 | editing an id that no record has changes nothing and reports nothing |
| TestimonialsAdminUI.DeleteThenUpdate | src/components/TestimonialsAdmin.jsx:48-52 | an edit saved after its record was deleted changes nothing |
| TestimonialsAdminUI.UpdatedUnique | src/components/TestimonialsAdmin.jsx:48-52 | an edit keeps ids unique when the form carries no other id |
| TestimonialsAdminUI.AppendUnique | src/components/TestimonialsAdmin.jsx:59 | appending a record with a fresh id keeps ids unique |
| TestimonialsAdminUI.TestimonialsAdmin.constructor | src/components/TestimonialsAdmin.jsx:23-33 | the list is the stored one, or `[]` when absent, and the save effect writes it back at once |
| TestimonialsAdminUI.TestimonialsAdmin.OpenForm | src/components/TestimonialsAdmin.jsx:101 | the form opens |
| TestimonialsAdminUI.TestimonialsAdmin.SetText | src/components/TestimonialsAdmin.jsx:35-41 | one text field takes the value; the list and storage stay in step |
| TestimonialsAdminUI.TestimonialsAdmin.SetFeatured | src/components/TestimonialsAdmin.jsx:35-41 | the checkbox sets `featured` |
| TestimonialsAdminUI.TestimonialsAdmin.PickAvatar | src/components/TestimonialsAdmin.jsx:154-158 | the avatar becomes the chosen option |
| TestimonialsAdminUI.TestimonialsAdmin.PickRating | src/components/TestimonialsAdmin.jsx:188-192 | the rating becomes the chosen star count |
| TestimonialsAdminUI.TestimonialsAdmin.ResetForm | src/components/TestimonialsAdmin.jsx:77-89 | defaults (rating 5, the default avatar, not featured), no id being edited, form closed |
| TestimonialsAdminUI.TestimonialsAdmin.HandleSubmit | src/components/TestimonialsAdmin.jsx:43-63 | with a truthy `editingId` the list is `Updated`, otherwise it grows by one new record at the end; storage holds the new list; the form is reset; unique ids and well-formed records are kept |
| TestimonialsAdminUI.TestimonialsAdmin.HandleEdit | src/components/TestimonialsAdmin.jsx:65-69 | the form is the whole record, `editingId` its id, the form open |
| TestimonialsAdminUI.TestimonialsAdmin.HandleDelete | src/components/TestimonialsAdmin.jsx:71-75 | confirmed: the records with that id are removed and the admin's list is written, whatever storage held before; declined: nothing changes |
| TestimonialsAdminUI.EditThenSubmitUnchanged | src/components/TestimonialsAdmin.jsx:43-69 | Edit followed by Save leaves list and storage as they were |
| TestimonialsAdminUI.StaleTabOverwrites | src/components/TestimonialsAdmin.jsx:71-75 | two admin tabs on one storage: after the second deletes `a` and the out-of-step first deletes `b`, storage holds the first tab's list without `b`, so the last write wins |
| TestimonialsAdminUI.AdminVisitHidesExamples | src/components/TestimonialsAdmin.jsx:23-33 | on a fresh browser the widget shows the six examples; after the admin page has been opened it shows none |
| TestimonialsUI.SeedRecord | src/components/Testimonials.jsx:25-88 | each built-in example has rating 5, an avatar from the options, id `k + 1`, and is featured exactly for the first three |
| TestimonialsUI.SeedTestimonials | src/components/Testimonials.jsx:25-88 | six examples with ids 1 to 6, unique and well formed |
| TestimonialsUI.Loaded | src/components/Testimonials.jsx:19-90 | the stored list when there is one, the six examples when the key is absent |
| TestimonialsUI.Displayed | src/components/Testimonials.jsx:105 | a prefix of the list: all of it with `showAll`, else its first `maxItems` |
| TestimonialsUI.DefaultShowsAtMostThree | src/components/Testimonials.jsx:5 | with default props at most three records show, the first three |
| TestimonialsUI.Testimonials.constructor | src/components/Testimonials.jsx:19-90 | mounting loads `Loaded(storage)` and only reads storage |
| TestimonialsUI.Testimonials.HandleStorageChange | src/components/Testimonials.jsx:93-98 | a storage notification replaces the list with the stored one, or keeps it when the key is absent |
| TestimonialsUI.Testimonials.DisplayTestimonials | src/components/Testimonials.jsx:105 | what the widget shows is `Displayed` of its state |
| ContactPage.OwnAddressLooksLikeEmail | src/pages/Contact.jsx:85 | the site's own address passes `/\S+@\S+\.\S+/` |
| ContactPage.SimpleAddressLooksLikeEmail | src/pages/Contact.jsx:85 | every `user@domain.tld` whose three parts are non-empty and free of white space passes `/\S+@\S+\.\S+/` |
| ContactPage.NoAtSign | src/pages/Contact.jsx:85 | nothing without an `@` passes |
| ContactPage.MatchSurvivesContext | src/pages/Contact.jsx:85 | the pattern is unanchored: text around a passing address keeps it passing |
| ContactPage.EmailMatchIsNotBlank | src/pages/Contact.jsx:83-87 | a passing address is never blank, so "required" and "invalid" never compete |
| ContactPage.Validate | src/pages/Contact.jsx:76-101 | each field is flagged exactly when its check fails, with the "required" message before the "invalid" or "too short" one; the phone is never flagged; the map is empty exactly when the form is acceptable |
| ContactPage.PaddedMessageIsLongEnough | src/pages/Contact.jsx:95 | the 10-character minimum is measured before trimming |
| ContactPage.CountdownEnablesResetAfterFifteen | src/pages/Contact.jsx:24-42 | after `n < 15` ticks, `15 - n` seconds are left and reset is disabled; from the 15th tick on, reset is enabled at 0 and the interval has stopped |
| ContactPage.CountdownFrom | src/pages/Contact.jsx:29-38 | counting down from `t` takes exactly `t` ticks |
| ContactPage.StoppedStaysStopped | src/pages/Contact.jsx:29-40 | once cleared, the interval changes nothing more |
| ContactPage.ScreenAt | src/pages/Contact.jsx:24-42 | `t` seconds after delivery the success screen is up exactly while `t` is before the close, with the countdown after `t` ticks; the close comes before the tick due in its own second, and once closed the interval is cleared |
| ContactPage.ResetClickableAt | src/pages/Contact.jsx:294 | the reset button is rendered and enabled exactly from second 15 on, and only while the screen has not closed |
| ContactPage.ResetReachableIff | src/pages/Contact.jsx:24-42 | some moment has the button clickable exactly when the screen closes later than second 15 |
| ContactPage.ResetNeverClickableAsWritten | src/pages/Contact.jsx:157 | with the five-second close, the button is clickable at no moment |
| ContactPage.ResetClickableWithoutAutoHide | src/pages/Contact.jsx:425-436 | without the early close, the button is clickable exactly from second 15 on |
| ContactPage.DeliveredThenClosed | src/pages/Contact.jsx:145-162 | delivery, four ticks, then the close, which comes due before the fifth tick: the screen is gone with reset still disabled and the interval cleared (the hidden `timeLeft` is 11) |
| ContactPage.Contact.constructor | src/pages/Contact.jsx:10-21 | empty form, no errors, nothing sent, 15 seconds, reset disabled |
| ContactPage.Contact.HandleChange | src/pages/Contact.jsx:177-185 | the field takes the value and only that field's message is blanked |
| ContactPage.Contact.ValidateForm | src/pages/Contact.jsx:76-101 | the shown errors are `Validate` of the form, and the answer is whether it is acceptable |
| ContactPage.Contact.HandleSubmit | src/pages/Contact.jsx:103-114 | an invalid form only shows its errors; a valid one starts sending |
| ContactPage.Contact.Settle | src/pages/Contact.jsx:145-162 | delivered: form and errors cleared, success screen shown, countdown started at 15; failed: only the sending mark is dropped |
| ContactPage.Contact.OnTick | src/pages/Contact.jsx:29-38 | one interval callback is one `Tick` of the countdown, and the countdown invariant is kept |
| ContactPage.Contact.AutoHide | src/pages/Contact.jsx:157 | the success screen closes and the interval stops |
| ContactPage.Contact.ResetForm | src/pages/Contact.jsx:425-431 | possible only on the success screen once reset is enabled, which the five-second close prevents (see "## Findings"): a fresh form, no errors, 15 seconds, reset disabled |
| BlogUtils.ViewsOrZero | src/utils/blogUtils.js:281 | a missing view count reads as 0 |
| BlogUtils.ToPost | src/utils/blogUtils.js:269-288 | the entry carries the generated slug and the sample's fields, with views defaulting to 0 |
| BlogUtils.InsertByDateAdds | src/utils/blogUtils.js:291 | inserting adds exactly that post |
| BlogUtils.InsertByDateKeepsOrder | src/utils/blogUtils.js:291 | inserting into a newest-first list keeps it newest first |
| BlogUtils.InsertByDateBounded | src/utils/blogUtils.js:291 | inserting no newer post keeps every date at or before a bound |
| BlogUtils.SortNewestFirstSorts | src/utils/blogUtils.js:291 | the sort puts the posts newest first and is a permutation |
| BlogUtils.ToPosts | src/utils/blogUtils.js:269 | one entry per sample, in order |
| BlogUtils.AllBlogPosts | src/utils/blogUtils.js:268-292 | `getAllBlogPosts()` is newest first and a permutation of the mapped samples |
| BlogUtils.SamplePost | src/utils/blogUtils.js:5-266 | the built-in posts' dates and view counts: 15 Dec 2024 with 1250, 10 Dec 2024 with 2100, 20 Dec 2024 with 0 |
| BlogUtils.SamplePosts | src/utils/blogUtils.js:5-266 | three samples, in source order |
| BlogUtils.SampleDates | src/utils/blogUtils.js:8-234 | the three samples' dates |
| BlogUtils.ThreeByDate | src/utils/blogUtils.js:291 | three posts on three different days are listed by day, newest first |
| BlogUtils.SampleCatalogueOrder | src/utils/blogUtils.js:268-292 | the catalogue lists the third sample, then the first, then the second, whatever the slugs |
| BlogUtils.FindBySlug | src/utils/blogUtils.js:296 | `find` gives nothing exactly when no post has the slug, else a post with it |
| BlogUtils.FindBySlugIsFirst | src/utils/blogUtils.js:296 | `find` gives the first post with the slug |
| BlogUtils.BlogPostBySlug | src/utils/blogUtils.js:294-297 | a found post has the slug and is in the catalogue |
| BlogUtils.BlogPostBySlugFound | src/utils/blogUtils.js:294-297 | a slug resolves exactly when some sample's title generates it |
| BlogUtils.WithTag | src/utils/blogUtils.js:301-303 | the filter keeps exactly the posts carrying the tag |
| BlogUtils.WithTagIsSubsequence | src/utils/blogUtils.js:301-303 | the filter keeps the posts' relative order |
| BlogUtils.SubsequenceKeepsOrder | src/utils/blogUtils.js:299-304 | a subsequence of a newest-first list is newest first |
| BlogUtils.BlogPostsByTag | src/utils/blogUtils.js:299-304 | `getBlogPostsByTag` is newest first and holds exactly the catalogue's posts with the tag |
| BlogUtils.StrLessIrreflexive | src/utils/blogUtils.js:316 | the default string order is strict |
| BlogUtils.StrLessTransitive | src/utils/blogUtils.js:316 | the default string order is transitive |
| BlogUtils.StrLessTotal | src/utils/blogUtils.js:316 | any two different strings are ordered |
| BlogUtils.InsertString | src/utils/blogUtils.js:316 | inserting adds exactly that string |
| BlogUtils.InsertStringSorts | src/utils/blogUtils.js:316 | inserting a new string into an ascending list keeps it ascending |
| BlogUtils.SortStrings | src/utils/blogUtils.js:316 | `sort()` of distinct strings is ascending and a permutation |
| BlogUtils.AllTags | src/utils/blogUtils.js:306-317 | `getAllTags` is strictly ascending and holds exactly the tags some post carries |
| BlogUtils.ViewKey | src/utils/blogUtils.js:326 | the counter key is `blog_views_` followed by the slug |
| BlogUtils.ViewKeyInjective | src/utils/blogUtils.js:326 | different slugs have different counters |
| BlogUtils.BlogViewCount | src/utils/blogUtils.js:333-336 | a post never visited counts 0 |
| BlogUtils.TrackBlogView | src/utils/blogUtils.js:320-331 | the counter goes up by exactly one (absent counts as 0), the new value is returned, and every other post's count is unchanged |
| BlogUtils.IncrementBlogView | src/utils/blogUtils.js:338-341 | the same as `TrackBlogView` |
| BlogPage.FilteredPosts | src/pages/Blog.jsx:15-17 | `'all'` shows every post; another tag shows exactly the posts carrying it |
| BlogPage.ReadingMinutes | src/pages/Blog.jsx:215 | reading time is `ceil(pieces / 200)` and is always at least one minute |
| BlogPage.ShortReadIsOneMinute | src/pages/Blog.jsx:215 | content with fewer than 200 spaces reads in one minute |
| BlogPage.ViewsShown | src/pages/Blog.jsx:219 | a post never visited shows its base views |
| BlogPage.ViewsShownAfterVisit | src/pages/Blog.jsx:219 | a recorded visit adds one to that post's shown views and to no other post's |
| BlogPage.VisibleTags | src/pages/Blog.jsx:236 | a card shows the first three tags in order, or all of them when there are fewer |
| BlogPage.CardOf | src/pages/Blog.jsx:163-255 | a card shows its post, at least one minute and at most three of its tags |
| BlogPage.Render | src/pages/Blog.jsx:152-258 | "No posts found" exactly when the filtered list is empty, else one card per filtered post, in order |
| BlogPage.PageListsCatalogue | src/pages/Blog.jsx:11-17 | with the tag fixed at `'all'` the page lists the whole catalogue newest first, and is empty only without samples |
| BlogPostPage.PageFor | src/pages/BlogPost.jsx:12-13 | "Post not found" exactly when the slug does not resolve; otherwise the post with its reading time and views |
| BlogPostPage.UnknownSlugNotFound | src/pages/BlogPost.jsx:82-94 | a slug no title generates shows "Post not found" |
| BlogPostPage.RevisitShowsOneMore | src/pages/BlogPost.jsx:186 | opening a post again shows one view more |
| BlogPostPage.AfterRender | src/pages/BlogPost.jsx:16-20 | after one render, the counter of a found post with a non-empty slug is one higher, and nothing else changes; otherwise storage is untouched |
| BlogPostPage.RendersCountEach | src/pages/BlogPost.jsx:13-20 | `n` renders of a found post add `n` views, since every render builds a new `post` and re-runs the effect |
| BlogPostPage.Mount | src/pages/BlogPost.jsx:12-20 | one render (the first or a re-render) shows the count from before it; the storage becomes `AfterRender`: one more view for a found post and a non-empty slug, nothing else touched |
| SiteFooter.AfterVisit | src/components/Footer.jsx:24-38 | a page load adds one to `site_total_views` (absent counts as 0) and touches no other key |
| SiteFooter.AfterReset | src/components/Footer.jsx:311-314 | reset removes `site_total_views` and touches no other key |
| SiteFooter.VisitsAddUp | src/components/Footer.jsx:24-38 | `n` page loads add exactly `n` |
| SiteFooter.ResetStartsAfresh | src/components/Footer.jsx:29-34 | after a reset the `n`-th page load shows `n` |
| SiteFooter.Footer.constructor | src/components/Footer.jsx:24-38 | mounting stores the counter one higher and shows the stored value |
| SiteFooter.Footer.Reset | src/components/Footer.jsx:300-302 | either reset button removes the key and shows 0 |
| SiteFooter.ResetThenReload | src/components/Footer.jsx:311-314 | reset followed by a page load shows 1 |
| AdminPage.AfterCheck | src/pages/Admin.jsx:17-22 | the flag is stored exactly for `'inara2025'`; any other password leaves storage unchanged |
| AdminPage.AfterLogout | src/pages/Admin.jsx:35-38 | logout removes the flag and no other key, so the mount check fails |
| AdminPage.LogoutThenLogin | src/pages/Admin.jsx:17-38 | logging out and back in leaves storage as logging in did |
| AdminPage.Admin.constructor | src/pages/Admin.jsx:6-8 | on mount the user is authenticated exactly when the stored flag is `'true'` |
| AdminPage.Admin.SetPassword | src/pages/Admin.jsx:58 | typing changes only the password field |
| AdminPage.Admin.HandleLogin | src/pages/Admin.jsx:11-14 | submitting (button enabled, field filled, not yet authenticated) starts loading and captures the password |
| AdminPage.Admin.CheckFires | src/pages/Admin.jsx:16-24 | the delayed check authenticates and stores the flag exactly for the right password, and stops loading either way |
| AdminPage.Admin.HandleLogout | src/pages/Admin.jsx:35-38 | logout de-authenticates and removes the flag |
| AdminPage.LoginLogoutReload | src/pages/Admin.jsx:17-38 | after a correct login a new visit is let in; after logout it is not |
| Theme.SavedIsDark | src/context/ThemeContext.jsx:14-21 | the initial theme is dark exactly when the stored `theme` is `'dark'` |
| Theme.Persist | src/context/ThemeContext.jsx:25 | the write stores a truthy `theme` that reads back as the current theme, and touches no other key |
| Theme.WithDarkClass | src/context/ThemeContext.jsx:28-33 | the root has `dark` exactly when dark, and its other classes are kept |
| Theme.MirroredIsFixed | src/context/ThemeContext.jsx:23-39 | running the effect again for the same theme changes nothing |
| Theme.ToggleTwiceRestores | src/context/ThemeContext.jsx:41-43 | toggling twice puts storage and root classes back |
| Theme.UseTheme | src/context/ThemeContext.jsx:5-11 | `useTheme` fails with its message exactly outside a provider, and otherwise returns the context |
| Theme.ThemeProvider.constructor | src/context/ThemeContext.jsx:13-39 | the initial theme comes from storage and the first effect run mirrors it |
| Theme.ThemeProvider.ApplyTheme | src/context/ThemeContext.jsx:23-39 | the effect writes the theme, mirrors it in the `dark` class, and its force-light branch never fires |
| Theme.ThemeProvider.ToggleTheme | src/context/ThemeContext.jsx:41-43 | the theme flips, and storage and root class follow |

## Left out

- Rendering, animation, layout, resize listeners and `console.log` calls are not modelled.
- JSON encoding is not modelled. Storage holds structured values, and a counter is always a number: `parseInt` of text that is not a number (NaN) and values of the wrong shape are not modelled.
- The `try`/`catch` paths with `alert` are left out: a storage write never fails here.
- The Formspree `fetch` is not modelled. Its outcome is the `delivered` input to `ContactPage.Contact.Settle`, and the request payload is not modelled.
- Timers are not timed. Each timer callback is a method that may be called at any point:
  - the one-second login check;
  - the five-second auto-hides;
  - the countdown interval.

  The order of Contact's timers is stated separately, on whole seconds, by `ContactPage.ScreenAt` and the lemmas about it.
- Cross-tab `storage` events are the method `TestimonialsUI.Testimonials.HandleStorageChange`, called explicitly.
- `window.confirm` is the `confirmed` input, `Date.now()` is the `now` input and `alert` is dropped.
- `generateSlug` (src/lib/utils) is not part of this model. It is the parameter `slugOf`, and no property of it is assumed. `formatDate` and `truncateText` only format text for display and are left out.
- The article excerpts and bodies are inputs, not literals. The built-in posts' titles, dates, authors, thumbnails, tags and view counts are in the model.
- Blog dates are calendar days rather than date strings parsed to milliseconds. Two posts on the same day are not ordered, and nothing is stated about whether the sort is stable.
- BlogUtils.SortStrings: compares characters by code point, where JavaScript's default sort compares UTF-16 code units. The two agree on the built-in tags, but differ between characters beyond the Basic Multilingual Plane and characters in U+E000–U+FFFF.
- A post without tags is modelled as a post with an empty tag list, which the code treats the same way.
- `Blog.jsx` calls `getAllTags()` and never uses the result. The page model does not repeat that call; `BlogUtils.AllTags` models it.
- The tag selector of the blog page has no handler, so only the value `'all'` is reachable. `BlogPage.Render` is still stated for any tag.
- The admin page shows the testimonials manager once authenticated. That composition is not a separate member: the manager is modelled in `TestimonialsAdminUI`.
- The development-only reset button in the footer (`process.env.NODE_ENV`) does the same as the other one. `SiteFooter.Footer.Reset` models both.
- Form fields are strings; HTML `required` on the login field is modelled as the precondition of `AdminPage.Admin.HandleLogin`, and the other forms' native browser validation is not modelled.
- BlogPostPage.Mount: models one render with its effect. When React re-renders the page (on route changes, for instance) is not modelled: each re-render is another `Mount`, and `BlogPostPage.RendersCountEach` states that each one counts a view.
- TestimonialsAdminUI.TestimonialsAdmin.HandleSubmit: an edited record whose id is 0 is treated, as in the code, as a new record. Unique ids after an add are stated only when `now` differs from every stored id.

## Findings

| source | as written | input that shows it | evidently intended | confidence | as-written member | corrected member |
|---|---|---|---|---|---|---|
| src/pages/Contact.jsx:157 | a delivered submission closes the success screen after 5 seconds, and the close clears the 15-second countdown interval; the reset button is rendered only on that screen and enabled only when the countdown ends | any delivered submission: the close comes due before the fifth tick; the screen is gone with reset disabled and the interval cleared | the success screen stays up until the countdown enables "Send Another Message" | not executed | ContactPage.ResetNeverClickableAsWritten | ContactPage.ResetClickableWithoutAutoHide |
