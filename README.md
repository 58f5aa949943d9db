# POSTD client logic in Dafny

POSTD is a campus social-feed client built from React components. Users sign up or log
in, browse a post feed filtered by tag, compose posts with tags, and look at campus
events grouped by city on a heatmap. Nearly all of the client is rendering. This project
models the logic that sits in its event handlers and derived values, and proves what
that logic guarantees:

- **`PostFeed`** (`src/components/PostFeed.tsx`) covers the feed's tag filter:
  - the filter-bar options: the sentinel `"All"`, then each post tag once, in order of
    first appearance;
  - the posts shown for the selected tag;
  - the selection, which a click overwrites.
- **`CreatePost`** (`src/components/CreatePost.tsx`) covers the post composer:
  - the draft's tag list, where `addTag` is a duplicate-free append and `removeTag` is a
    filter;
  - the popular-tag suggestions;
  - JavaScript's `trim`, with ECMAScript's whitespace set;
  - the class `Composer`, which holds the dialog's state (`isOpen`, the draft, the
    custom-tag input) and its handlers.
- **`AuthForm`** (`src/components/AuthForm.tsx`) covers the login/signup form:
  - the two validation predicates;
  - the two user records the form builds;
  - the class `AuthFormState`, with the mode switch, field input and submission.
- **`Index`** (`src/pages/Index.tsx`) covers the application root, the class `App`:
  - the session fields and the active tab;
  - a `map` that stands in for the browser's local storage under the key `"postd_user"`;
  - the start-up restore, login, logout, and the choice between the auth screen and the
    main screen.
- **`UKHeatmap`** (`src/components/UKHeatmap.tsx`) covers the heatmap:
  - the intensity-to-colour and intensity-to-size lookups;
  - the marker glyph chosen by attendee count;
  - the marker position formula;
  - the `cityEvents` reduce, an in-place grouping of events by city;
  - the two-event preview on each city card.
- **`Seqs`**, **`Tags`** and **`Wrappers`** are shared helpers:
  - `Seqs.Filter` models JavaScript's `filter`, and `Seqs.FilterCount` states how many
    copies of each element it keeps;
  - `Seqs.Distinct` models `new Set(...)`, keeping first appearances in order;
  - `Seqs.IsSubseq` is the order-preserving sub-list relation;
  - `Tags.Tag` is the tag type shared by the feed and the composer;
  - `Wrappers.Option` is an option type.

JavaScript string truthiness is modelled as non-emptiness. `AuthForm` tests its fields
that way and does not trim them, so a name made of one space passes. `CreatePost`
trims before it tests, and the model follows each file.

Three points about the code that a reader might expect to be otherwise:
- An event's `intensity` is a stored label. Nothing derives it from `attendees`. Unknown
  labels get the default colour and the `"low"` size.
- The like button has no handler, so nothing is modelled for it.
- `removeTag` filters the list, so the remaining tags keep their order. `TagsWithout` is
  that filter.

## Model

| member | source | states |
|---|---|---|
| PostFeed.TagsOf | src/components/PostFeed.tsx:84 | a tag is in the flattened list exactly when some post carries it |
| PostFeed.FilterOptions | src/components/PostFeed.tsx:84 | the options start with "All"; the rest are exactly the tags of the posts, each once, ordered by first appearance |
| PostFeed.WithTag | src/components/PostFeed.tsx:88 | a post is kept exactly when it is in the feed and carries the tag, as many times as it occurs in the feed; the result keeps feed order |
| PostFeed.FilteredPosts | src/components/PostFeed.tsx:86-88 | for "All" the result is the whole feed; otherwise it holds exactly the posts carrying the tag, each as many times as in the feed; in both cases it is an order-preserving sub-list that is never longer |
| PostFeed.Initial | src/components/PostFeed.tsx:11 | the selection starts at "All", so the visible feed is the whole list |
| PostFeed.SelectTag | src/components/PostFeed.tsx:119 | a click sets the selection to the clicked tag and leaves the posts alone |
| PostFeed.BadgeClickKeepsPost | src/components/PostFeed.tsx:181 | after a click on a tag badge of post p, the selection is that tag and p is still visible |
| PostFeed.OptionNeverEmpty | src/components/PostFeed.tsx:84-88 | over a non-empty feed, every filter option shows at least one post |
| CreatePost.LeadingBlanks | src/components/CreatePost.tsx:52 | counts the whitespace prefix: it is all whitespace and is followed by a non-whitespace character or the end |
| CreatePost.TrailingBlanks | src/components/CreatePost.tsx:52 | counts the whitespace suffix: it is all whitespace and is preceded by a non-whitespace character or the start |
| CreatePost.Trim | src/components/CreatePost.tsx:52 | the result is empty exactly when the input is all whitespace; otherwise it is a slice of the input with whitespace only around it and non-whitespace at both ends |
| CreatePost.TagsWith | src/components/CreatePost.tsx:35-42 | union with the tag: no change if present, else appended at the end; the old list is a prefix; no duplicates are introduced |
| CreatePost.TagsWithout | src/components/CreatePost.tsx:44-49 | holds exactly the other tags, in order, each as many times as before; unchanged when the tag is absent; no duplicates are introduced |
| CreatePost.TagsWithoutLength | src/components/CreatePost.tsx:44-49 | removing a tag that occurs once shortens a duplicate-free list by exactly one |
| CreatePost.RemoveThenAdd | src/components/CreatePost.tsx:35-49 | removing a present tag and adding it back gives the same tags, the same length and no duplicates, with the tag now last |
| CreatePost.AddThenRemove | src/components/CreatePost.tsx:35-49 | adding an absent tag and then removing it restores the list exactly |
| CreatePost.AddAllNoDuplicates | src/components/CreatePost.tsx:15-17 | from the empty initial list, or any duplicate-free list, a run of `addTag` calls never creates a duplicate and keeps every tag added |
| CreatePost.Suggestions | src/components/CreatePost.tsx:195-196 | the suggestions are exactly the popular tags not on the draft, in the fixed popular order |
| CreatePost.Composer.constructor | src/components/CreatePost.tsx:14-24 | the dialog starts closed, with the empty draft and an empty tag input |
| CreatePost.Composer.SetOpen | src/components/CreatePost.tsx:95 | only `isOpen` changes |
| CreatePost.Composer.InputChange | src/components/CreatePost.tsx:28-33 | only the named text field of the draft changes; the draft's tags stay duplicate-free |
| CreatePost.Composer.SetIsEvent | src/components/CreatePost.tsx:129 | only the draft's event flag changes |
| CreatePost.Composer.SetNewTag | src/components/CreatePost.tsx:214 | only the custom-tag input changes |
| CreatePost.Composer.AddTag | src/components/CreatePost.tsx:35-42 | the draft's tags become their union with the tag; every other draft field and the dialog state are unchanged; tags stay duplicate-free |
| CreatePost.Composer.RemoveTag | src/components/CreatePost.tsx:44-49 | the draft's tags lose the tag; every other field is unchanged; tags stay duplicate-free |
| CreatePost.Composer.AddCustomTag | src/components/CreatePost.tsx:51-56 | the trimmed input is appended and the input cleared exactly when it is not blank and not already a tag; otherwise nothing changes |
| CreatePost.Composer.Submit | src/components/CreatePost.tsx:58-92 | blank content gives "Content required" and changes nothing; otherwise the draft is handed on with the author and time stamp, the draft is reset to the empty draft, and the dialog closes |
| AuthForm.AuthFormState.constructor | src/components/AuthForm.tsx:13-21 | login mode, every field empty, host rating 5.0 |
| AuthForm.AuthFormState.InputChange | src/components/AuthForm.tsx:23-28 | the named field takes the value and every other field is unchanged |
| AuthForm.AuthFormState.SwitchTab | src/components/AuthForm.tsx:78 | login mode exactly when the tab value is "login"; the fields are unchanged |
| AuthForm.AuthFormState.HandleSubmit | src/components/AuthForm.tsx:30-68 | `onLogin` gets a record exactly when the mode's required fields are non-empty (login: email and name; signup: name, email, age and university). The record copies the form and the given id and time. A signup record has rating 5.0 and zero ratings. A failed login raises no notice; a failed signup raises "Missing information" |
| Index.App.constructor | src/pages/Index.tsx:18-20 | signed out, no user, the feed tab, and storage as it was |
| Index.App.RestoreSession | src/pages/Index.tsx:22-29 | a stored user becomes the session user and the session is authenticated; with nothing stored it stays signed out; the invariant holds afterwards |
| Index.App.HandleLogin | src/pages/Index.tsx:31-35 | the user is set, the session is authenticated, and storage maps "postd_user" to the user; the invariant holds |
| Index.App.HandleLogout | src/pages/Index.tsx:37-41 | no user, signed out, the storage key removed, and the active tab kept; the invariant holds |
| Index.App.SetActiveTab | src/pages/Index.tsx:80 | only the active tab changes; it is one of the two tabs by type |
| Index.App.CurrentScreen | src/pages/Index.tsx:43-55 | the auth screen is shown exactly when the session is not authenticated; otherwise the main screen on the active tab |
| Index.SignupThenRestart | src/pages/Index.tsx:22-35 | a complete signup, then a restart over the same storage, restores the signed-up user with rating 5.0 and zero ratings, on the main screen's feed tab |
| UKHeatmap.IntensityColor | src/components/UKHeatmap.tsx:92-99 | the grey default exactly for labels other than "high", "medium" and "low" |
| UKHeatmap.IntensitySize | src/components/UKHeatmap.tsx:101-108 | the largest size exactly for "high", the middle size exactly for "medium", and the small size for every other label |
| UKHeatmap.FirstWord | src/components/UKHeatmap.tsx:297 | the result is the prefix of the string before its first space, or the whole string when it has none |
| UKHeatmap.DotColors | src/components/UKHeatmap.tsx:297 | the city-card dot is the red, orange or yellow class for the three known labels, and the grey class exactly for the others |
| UKHeatmap.MarkerGlyph | src/components/UKHeatmap.tsx:198 | fire above 100 attendees, sparkles from 51 to 100, a dot at 50 or fewer |
| UKHeatmap.MarkerTop | src/components/UKHeatmap.tsx:192 | the top offset lies in [20, 80) |
| UKHeatmap.MarkerLeft | src/components/UKHeatmap.tsx:193 | the left offset lies in [25, 75) |
| UKHeatmap.MarkerPeriods | src/components/UKHeatmap.tsx:192-193 | top offsets repeat every 4 markers and left offsets every 5 |
| UKHeatmap.EventsIn | src/components/UKHeatmap.tsx:127-133 | a city's group holds exactly the events of that city, in their original relative order |
| UKHeatmap.EventsInCount | src/components/UKHeatmap.tsx:127-133 | a city's group holds each of its events as many times as the event list does, and no other event |
| UKHeatmap.PushKeepsGrouping | src/components/UKHeatmap.tsx:128-131 | one reduce step (create the group if it is missing, then push) keeps every group equal to its city's events, with keys in insertion order |
| UKHeatmap.GroupByCity | src/components/UKHeatmap.tsx:127-133 | the keys are the cities in order of first appearance, and each key's group is exactly that city's events, in order |
| UKHeatmap.GroupOfEvent | src/components/UKHeatmap.tsx:127-133 | every event's city is a key, and an event is in a city's group exactly when that city is its own |
| UKHeatmap.GroupSizesSnoc | src/components/UKHeatmap.tsx:127-133 | one more event adds exactly one to the total size of the groups, whether or not its city is new |
| UKHeatmap.GroupSizesTotal | src/components/UKHeatmap.tsx:127-133 | the group sizes add up to the number of events |
| UKHeatmap.Preview | src/components/UKHeatmap.tsx:303 | a card previews the first two events of its group, or all of them if there are fewer |

## Left out

- Rendering, styling classes other than the intensity lookups, icons, and the dialog and
  tab widgets: these are presentation only.
- Toasts and `console.log` are not modelled as side effects. A toast becomes a returned
  `Notice` value, and the logged post becomes the returned `SharedPost`.
- `Date.now()` and `new Date().toISOString()` are not called. The ids and time stamps
  they produce are parameters.
- The JSON encoding of the stored user is not modelled. Storage is a map from key to user
  record. A JSON-encoded object is never the empty string, so "something is stored"
  becomes "the key is present".
- Index.App: `Valid()` holds for one browser tab whose storage never fails and that no
  other tab writes. Three cases of the real setting are outside that:
  - Local storage is shared by every open tab of the site, and the root does not listen
    for storage events. A logout in another tab removes "postd_user"
    (src/pages/Index.tsx:40) while this tab stays signed in. A login as someone else in
    another tab leaves storage holding a different user.
  - `setItem` at src/pages/Index.tsx:34 can throw, for example when the quota is exceeded
    or storage is disabled. The user and the authenticated flag are already set by then
    (lines 32-33), so the session is signed in with nothing stored.
  - `JSON.parse` at src/pages/Index.tsx:26 throws on a corrupt stored entry.
- `handleInputChange` is modelled for the inputs the forms actually render. A `name`
  attribute outside those fields, which would add a new key to the form object, is not
  modelled.
- AuthForm.AuthFormState.HandleSubmit: models the handler on any form state. The rendered
  form also has browser constraint validation, which runs before the handler:
  - `required` on the login inputs (src/components/AuthForm.tsx:99, 115) and the signup
    inputs (133, 150, 170, 186);
  - `type="email"` (94, 145);
  - `type="number"` with `min="16"` and `max="100"` on the age (163-168);
  - `type="url"` on the picture (196).

  None of these is modelled. A rendered form therefore never reaches the handler with an
  empty required field or a malformed email. The silent failed login and the "Missing
  information" branch are reachable only by calling the handler directly.
- PostFeed.SelectTag: the selection lasts only while the feed tab is shown. The feed sits
  inside the feed tab's content (src/pages/Index.tsx:98-100), which is rendered only while
  that tab is active. Choosing the map tab unmounts the feed and discards its state.
  Coming back mounts a new feed, which starts from `PostFeed.Initial` with the selection
  at "All" and its posts loaded again. The model's `FeedState` does not capture that
  reset.
- CreatePost.Composer: a logout discards the composer. The root then renders only the
  auth screen (src/pages/Index.tsx:43-55), which unmounts the composer
  (src/pages/Index.tsx:72) with its draft, tag input and open flag. The next login starts
  from `CreatePost.Composer.constructor`. The model does not tie a composer's lifetime to
  the session.
- The `maxLength` of 280 on the post text is a browser input constraint. The handlers
  never check it.
- The like button has no handler, so the like count never changes.
- The heatmap's `selectedEvent` is not modelled. It only chooses which event the detail
  card shows (src/components/UKHeatmap.tsx:195, 211, 307).
- The heatmap's `selectedCity` is declared (src/components/UKHeatmap.tsx:11) and never
  read or set anywhere else, so there is nothing to model.
- The events' map coordinates are not modelled, because nothing reads them.
- The mock posts and events are seed data, not logic. The model takes any posts and
  events.
- `src/pages/Index.tsx:103` mounts the `EventMap` component on the map tab, not
  `UKHeatmap`. `EventMap` is not part of this model. `UKHeatmap` is modelled as a
  component on its own.
- The user-profile component and the mobile packaging configuration are not part of this
  model.
- UKHeatmap.GroupByCity: the object's key order is modelled as insertion order. JavaScript
  lists integer-like keys (a city named "42") first, in numeric order, and that is not
  modelled.
- UKHeatmap.GroupByCity: a city whose name is an inherited object property, such as
  "toString", finds a truthy value already in place. `push` on it then fails. This is
  not modelled: every city starts without a group.
- UKHeatmap.MarkerTop: only the range is stated. The percent string built from the number
  is not modelled.
- PostFeed.FilterOptions: a post tagged "All" makes "All" appear twice in the options. The
  model keeps that behaviour, so only the options after the first are stated to be
  distinct.
