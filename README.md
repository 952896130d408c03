# Blog and portfolio logic of a React site, in Dafny

The site is a personal portfolio written in React. Most of it is presentation; five pieces of it
are logic, and this project models those and proves what they promise.

- **The blog detail page** (`BlogDetailPage.tsx`):
  - `getPlainText` reads the text off a React node tree (module `PlainText`).
  - `createSlugger` is a closure over a `Map` of collision counts. It turns heading texts into
    ids with `baseSlug`, a chain of six string normalisations (module `Slugging`, class `Slugger`).
  - `extractToc` is one pass over the lines of a markdown text. It keeps a "inside a ``` fence"
    flag, recognises ATX headings, keeps the levels asked for, cleans the text and numbers the ids
    (module `Toc`). The loop is a `method` proved against the functional `Step`/`Run` model of
    one line and of all lines.
  - The sidebar's indentation class is modelled too.
  - The active-heading tracking is modelled as a state machine over events (module
    `ScrollSpy`, class `Tracker`). A table-of-contents click raises a flag that mutes the
    intersection observer for one 1000 ms timeout. The observer picks the intersecting heading
    highest on the page. The first entry is activated once per post.
- **The blog list page** (`BlogPage.tsx`), module `BlogList` with class `BlogPage`: the `cx`
  class-name helper, the tag chips and their counts, the tag filter, the reveal of the list
  ten posts at a time with its `loadMore` guard, and the rotation of the featured post.
- **The mock posts** (`postingDatas.ts`), module `Posts`: two hand-written posts, then fifty
  generated from their number `n = 3..52`.
- **The activity carousel** (`activity.tsx`), module `Carousel` with class `ActivitySection`:
  next/prev with JavaScript's `%`, jumps that pause autoplay for 3 seconds, the autoplay
  interval, and the arrow keys.
- **The Fibonacci worker** (`fibWorker.ts`), module `FibWorker`: the naive recursion and
  the message filter.

## How the model is built

- Each component's React state becomes a `class` whose fields are that state. Each handler
  or timer callback becomes a method whose postcondition is
  `Snapshot() == Step(old(Snapshot()), event)`.
  - The properties are proved as lemmas about the pure `Step`/`Run` functions over event
    sequences.
  - Timers and observers are events.
  - The DOM is the data those events carry: whether an element was found, its position, and
    the observer's `(id, isIntersecting, offsetTop)` entries.
- `extractToc` and the tag counting of `allTagsWithCount` are loops in the source. They are
  `while` loops here, with invariants tying the loop state to the functional definition.
- `Step` of `Toc` takes the slugger's base-slug function as a parameter. Its structural
  lemmas (fences, levels, order, numbering) therefore hold for any base function; the page
  uses `SlugBase`.

## Where the code and its documented behaviour differ

The model follows the code in all four cases.

- **Unique ids.** The documented behaviour promises pairwise distinct ids within one
  extraction. The code counts collisions per base slug only, so the headings `a`, `a`, `a-1`
  get the ids `a`, `a-1`, `a-1`. `Slugging.CollisionAcrossBases` proves exactly that, and
  no uniqueness lemma is stated.
- **The end of a programmatic scroll.** The documented behaviour describes detecting when
  the scroll has settled, with a tolerance and a maximum wait. The code lowers the flag
  after a fixed 1000 ms timeout (`BlogDetailPage.tsx:195-197`). That timeout is the
  `ReleaseTimer` event.
- **Which heading is active.** The documented rule picks the last heading whose top is at or
  above a reference line below the header, and falls back to the first heading: headings at
  0, 500 and 1200 with the line at 600 give the second. The code activates, among the
  headings the observer reports as intersecting, the one with the least `offsetTop`, and
  keeps the old id when none intersects (`BlogDetailPage.tsx:212-226`).
  `ScrollSpy.FirstVisible` and `ScrollSpy.ObserverPicksFirstVisible` state that rule.
- **Reset on a new document.** The documented behaviour resets all tracker state before
  the new document's headings are tracked. On a slug change the code resets only
  `initializedRef` (`BlogDetailPage.tsx:155-158`). `activeId`, the scrolling flag and any
  pending timeouts carry over; the `SlugChanged` case of `ScrollSpy.Step` does the same.

## Model

| member | source | states |
|---|---|---|
| Strings.TrimStart | src/component/Body/Blog/BlogDetailPage.tsx:55 | `trimStart` drops exactly a leading run of white space: the result is a suffix of the input, what it dropped is all white space, and it does not start with white space |
| Strings.TrimEnd | src/component/Body/Blog/BlogDetailPage.tsx:52 | `trimEnd` drops exactly a trailing run of white space: the result is a prefix, what it dropped is all white space, and it does not end with white space |
| Strings.Trim | src/component/Body/Blog/BlogDetailPage.tsx:29 | `trim` leaves no white space at either end |
| Strings.TrimIsInfix | src/component/Body/Blog/BlogDetailPage.tsx:70 | the trimmed text is a contiguous piece of the original, and what is cut off before and after it is all white space |
| Strings.TrimStartOfSpaces | src/component/Body/Blog/BlogDetailPage.tsx:61 | white space followed by a text that starts with non-space trims to that text |
| Strings.Split | src/component/Body/Blog/BlogDetailPage.tsx:46 | `split("\n")` always yields at least one piece |
| Strings.SplitHasNoSeparator | src/component/Body/Blog/BlogDetailPage.tsx:46 | no piece of a split holds the separator |
| Strings.JoinSplit | src/component/Body/Blog/BlogDetailPage.tsx:46 | joining the pieces with the separator gives the original text back: the lines the loop visits are the whole markdown |
| Strings.SplitJoin | src/component/Body/Blog/BlogPage.tsx:16 | splitting a join of separator-free pieces gives the pieces back |
| Strings.NatToString | src/component/Body/Blog/data/postingDatas.ts:68-70 | a number prints as at least one decimal digit, with no leading zero |
| Strings.DigitsValueOfNatToString | src/component/Body/Blog/data/postingDatas.ts:68-70 | the printed digits read back as the number |
| Strings.NatToStringInjective | src/component/Body/Blog/data/postingDatas.ts:68-69 | different numbers print differently |
| Strings.IntToString | src/component/Body/Blog/BlogDetailPage.tsx:15 | `String(n)` of an integer starts with `-` exactly for a negative one, and the rest is exactly `NatToString` of the number's magnitude: decimal digits, no leading zero, whose value is the magnitude |
| PlainText.PlainTextIsLeaves | src/component/Body/Blog/BlogDetailPage.tsx:13-22 | the text of any node tree is the texts of its string and number leaves, in document order, joined with nothing between them (null, booleans and prop-less objects add nothing; an element shows its children) |
| PlainText.ListAppend | src/component/Body/Blog/BlogDetailPage.tsx:16 | an array's text is its two halves' texts one after the other (the `join("")` of mapped children) |
| PlainText.ListOfOne | src/component/Body/Blog/BlogDetailPage.tsx:16 | a one-element array shows what its element shows; an empty array shows `""` |
| PlainText.NestingIsTransparent | src/component/Body/Blog/BlogDetailPage.tsx:16-20 | wrapping an array in another array or in elements does not change its text |
| PlainText.FlattenAppend | src/component/Body/Blog/BlogDetailPage.tsx:16 | concatenating lists of texts distributes over a split of the list |
| PlainText.FlattenFlatten | src/component/Body/Blog/BlogDetailPage.tsx:16 | flattening twice equals flattening each part and then the results |
| Slugging.Lower | src/component/Body/Blog/BlogDetailPage.tsx:30 | `toLowerCase` keeps the length |
| Slugging.LowerHasNoUpper | src/component/Body/Blog/BlogDetailPage.tsx:30 | after `toLowerCase` no upper-case letter is left |
| Slugging.KeptAreSlugCharsOrSpace | src/component/Body/Blog/BlogDetailPage.tsx:31 | after lower-casing and the deleting `replace`, only slug characters and white space remain |
| Slugging.DashSpacesGivesSlugChars | src/component/Body/Blog/BlogDetailPage.tsx:32 | turning white-space runs into `-` leaves slug characters only |
| Slugging.DropDashes | src/component/Body/Blog/BlogDetailPage.tsx:33 | dropping a run of `-` leaves a suffix that does not start with `-` |
| Slugging.CollapseDashes | src/component/Body/Blog/BlogDetailPage.tsx:33 | collapsing keeps the first character of a non-empty text |
| Slugging.CollapseGivesNoDoubleDash | src/component/Body/Blog/BlogDetailPage.tsx:33 | after `replace(/-+/g, "-")` there is no `--`, and slug characters stay slug characters |
| Slugging.StripGivesSlugShape | src/component/Body/Blog/BlogDetailPage.tsx:34 | stripping one leading and one trailing `-` from a collapsed text leaves no `-` at either end |
| Slugging.BaseSlugIsChain | src/component/Body/Blog/BlogDetailPage.tsx:27-34 | `baseSlug` is the six normalisations applied in the source's order |
| Slugging.BaseSlugShape | src/component/Body/Blog/BlogDetailPage.tsx:27-34 | every base slug holds only letters, digits and `-`, has no `--`, and no `-` at either end |
| Slugging.BaseSlugIdempotent | src/component/Body/Blog/BlogDetailPage.tsx:27-34 | applying `baseSlug` to a base slug changes nothing |
| Slugging.PassesFixSlug | src/component/Body/Blog/BlogDetailPage.tsx:28-34 | every normalisation of the chain leaves a slug-shaped text as it is |
| Slugging.BaseSlugOfSlug | src/component/Body/Blog/BlogDetailPage.tsx:27-34 | a slug-shaped text is its own base slug |
| Slugging.SlugBaseOfSlug | src/component/Body/Blog/BlogDetailPage.tsx:37 | a non-empty slug-shaped text is the key the slugger counts it under |
| Slugging.SlugBase | src/component/Body/Blog/BlogDetailPage.tsx:37 | the `baseSlug(text) \|\| "section"` key is never empty |
| Slugging.SlugBaseShape | src/component/Body/Blog/BlogDetailPage.tsx:37 | that key always has slug shape, `"section"` included |
| Slugging.SuffixedShape | src/component/Body/Blog/BlogDetailPage.tsx:40 | every returned id, `base` or `base-n`, is a non-empty slug |
| Slugging.Slugger.constructor | src/component/Body/Blog/BlogDetailPage.tsx:25 | a fresh slugger has no counts |
| Slugging.Slugger.Slug | src/component/Body/Blog/BlogDetailPage.tsx:36-41 | one call raises the count of its base by exactly one and changes no other count; it returns the bare base the first time and `base-n` when the base was handed out `n` times before |
| Slugging.CountsAreOccurrences | src/component/Body/Blog/BlogDetailPage.tsx:38-39 | after a sequence of calls, each base's count is its number of occurrences |
| Slugging.IdsNumbering | src/component/Body/Blog/BlogDetailPage.tsx:36-41 | the `j`-th call returns its base suffixed with the number of earlier calls with the same base |
| Slugging.IdsLength | src/component/Body/Blog/BlogDetailPage.tsx:36-41 | one id per call |
| Slugging.IdAt | src/component/Body/Blog/BlogDetailPage.tsx:36-41 | the numbering of one call, at a given position |
| Slugging.BareIffFirst | src/component/Body/Blog/BlogDetailPage.tsx:40 | a call returns the bare base exactly when no earlier call had that base |
| Slugging.BaseOfPlainHeading | src/component/Body/Blog/BlogDetailPage.tsx:27-37 | the heading `a` is counted under `a` |
| Slugging.BaseOfSuffixedHeading | src/component/Body/Blog/BlogDetailPage.tsx:27-37 | the heading `a-1` is counted under `a-1` |
| Slugging.CollisionAcrossBases | src/component/Body/Blog/BlogDetailPage.tsx:37-40 | the headings `a`, `a`, `a-1` get the ids `a`, `a-1`, `a-1`: ids are not unique across bases |
| Toc.Hashes | src/component/Body/Blog/BlogDetailPage.tsx:61 | `k` hash characters |
| Toc.IsFenceIsTrimmedTicks | src/component/Body/Blog/BlogDetailPage.tsx:55 | a fence line is exactly one whose `trimStart()` starts with three backticks |
| Toc.LeadingHashes | src/component/Body/Blog/BlogDetailPage.tsx:61 | the count is a run of `#` at the start, not followed by another `#` |
| Toc.ParseHeading | src/component/Body/Blog/BlogDetailPage.tsx:61-64 | a recognised heading has level 1 to 6 |
| Toc.ParseHeadingSound | src/component/Body/Blog/BlogDetailPage.tsx:52-64 | a recognised line is `level` hashes, a non-empty run of white space, then a non-empty text that starts with non-space and holds no line terminator |
| Toc.HeadingStartsAtColumnZero | src/component/Body/Blog/BlogDetailPage.tsx:61 | a line with leading white space, or starting with seven `#`, is never a heading |
| Toc.ParseHeadingComplete | src/component/Body/Blog/BlogDetailPage.tsx:61-64 | every line of that shape is recognised, with that level and that text |
| Toc.FindFrom | src/component/Body/Blog/BlogDetailPage.tsx:68 | a found position holds the character searched for, at or after the start |
| Toc.FindFromFirst | src/component/Body/Blog/BlogDetailPage.tsx:68 | the search finds the first occurrence |
| Toc.LinkAt | src/component/Body/Blog/BlogDetailPage.tsx:68 | a link match is non-empty and lies within the text |
| Toc.LinkCollapses | src/component/Body/Blog/BlogDetailPage.tsx:68 | `[caption](url)` becomes `caption`, and the rest is processed further |
| Toc.CollapseLinksPlainPrefix | src/component/Body/Blog/BlogDetailPage.tsx:68 | text before the first `[` is kept as it is and the links after it collapse (`Intro to [React](u)` gives `Intro to React`) |
| Toc.FindFromSkipsNone | src/component/Body/Blog/BlogDetailPage.tsx:68 | the search for `]` or `)` stops at the first occurrence, as `[^\]]+` and `[^)]+` do |
| Toc.LinkAtSound | src/component/Body/Blog/BlogDetailPage.tsx:68 | a link match is `[caption](url)` with a non-empty caption free of `]` and a non-empty url free of `)`, and nothing else |
| Toc.NonLinkBracketKept | src/component/Body/Blog/BlogDetailPage.tsx:68 | a `[` that starts no link is kept and the scan goes on after it (`[WIP] [React](u)` gives `[WIP] React`); with `LinkCollapses` and `CollapseLinksPlainPrefix` every position of the text is covered |
| Toc.NoBracketUnchanged | src/component/Body/Blog/BlogDetailPage.tsx:68 | text without `[` holds no link and is left as it is |
| Toc.RemoveMarksRemovesAll | src/component/Body/Blog/BlogDetailPage.tsx:69 | no `*`, `_` or backtick is left |
| Toc.RemoveMarksAppend | src/component/Body/Blog/BlogDetailPage.tsx:69 | mark removal works piece by piece: the removal on two texts joined is the two removals joined |
| Toc.RemoveMarksOne | src/component/Body/Blog/BlogDetailPage.tsx:69 | one character is dropped exactly when it is a mark; with `RemoveMarksAppend`, every other character stays, in order |
| Toc.RemoveMarksNoMarks | src/component/Body/Blog/BlogDetailPage.tsx:69 | a text without marks is left as it is |
| Toc.TrimKeepsNoMarks | src/component/Body/Blog/BlogDetailPage.tsx:69-70 | the final `trim` does not bring marks back |
| Toc.CleanTextShape | src/component/Body/Blog/BlogDetailPage.tsx:67-70 | entry text holds no mark and no white space at either end |
| Toc.CleanTextOfPlain | src/component/Body/Blog/BlogDetailPage.tsx:67-70 | a heading text with no link, no mark and no white space at its ends is its own entry text (`## Intro` gives "Intro") |
| Toc.Classify | src/component/Body/Blog/BlogDetailPage.tsx:52-64 | a heading line's level is 1 to 6 |
| Toc.Kinds | src/component/Body/Blog/BlogDetailPage.tsx:51 | one kind per line |
| Toc.ExtractToc | src/component/Body/Blog/BlogDetailPage.tsx:44-76 | the loop with a fresh slugger returns exactly `ExtractTocSpec`, the run of `Step` over the lines' kinds |
| Toc.ScanLine | src/component/Body/Blog/BlogDetailPage.tsx:51-74 | one iteration of the loop body, with the slugger's counts, is one `Step` on the line's kind |
| Toc.ApplyKind | src/component/Body/Blog/BlogDetailPage.tsx:55-74 | a fence flips the flag, a line in a fence or out of range changes nothing, a heading in range goes through the slugger and is pushed, all as `Step` says |
| Toc.PushHeading | src/component/Body/Blog/BlogDetailPage.tsx:72-73 | `slug(text)` and `out.push` are the heading case of `Step` |
| Toc.HeadingApplied | src/component/Body/Blog/BlogDetailPage.tsx:72-73 | the slugger's new counts and the pushed entry are the state `Step` gives |
| Toc.StepOfHeading | src/component/Body/Blog/BlogDetailPage.tsx:65-73 | a heading in range raises its base's count and appends an entry with the suffixed id, its text and its level |
| Toc.RunOfOneMore | src/component/Body/Blog/BlogDetailPage.tsx:51 | one more line is one more step |
| Toc.StepEffect | src/component/Body/Blog/BlogDetailPage.tsx:55-73 | a line adds at most one entry, only as a heading in range outside a fence, with that level and text; a fence line only flips the flag; a skipped heading leaves the counts alone |
| Toc.InCodeIsOddFences | src/component/Body/Blog/BlogDetailPage.tsx:55-59 | the scan is inside a fence exactly after an odd number of fence lines |
| Toc.EarlierLinesComeFirst | src/component/Body/Blog/BlogDetailPage.tsx:51-73 | entries come in document order: the entries of a first part of the text are a prefix of all entries |
| Toc.LevelsInRange | src/component/Body/Blog/BlogDetailPage.tsx:64-65 | every entry's level lies in `[minLevel, maxLevel]` and in `[1, 6]` |
| Toc.ExtractTocLevels | src/component/Body/Blog/BlogDetailPage.tsx:44-76 | the same, for any markdown text |
| Toc.Bases | src/component/Body/Blog/BlogDetailPage.tsx:37 | one base per entry |
| Toc.Ids | src/component/Body/Blog/BlogDetailPage.tsx:72 | one id per entry |
| Toc.BasesAndIdsSnoc | src/component/Body/Blog/BlogDetailPage.tsx:72-73 | one more entry adds its base and its id at the end |
| Toc.RunIsSluggerRun | src/component/Body/Blog/BlogDetailPage.tsx:65-72 | the counts and ids after the pass are those of a fresh slugger called on the entries' texts only: skipped levels, fences and other lines do not advance any count |
| Toc.StepKeepsSlugger | src/component/Body/Blog/BlogDetailPage.tsx:65-73 | every line keeps the scan in line with that slugger run |
| Toc.SluggerStep | src/component/Body/Blog/BlogDetailPage.tsx:72-73 | one more heading keeps the scan in line with the slugger run |
| Toc.EntryNumbering | src/component/Body/Blog/BlogDetailPage.tsx:36-41 | an entry's id is its base with the number of earlier entries of the same base |
| Toc.ExtractTocNumbering | src/component/Body/Blog/BlogDetailPage.tsx:44-76 | the collision numbering of `extractToc` for any markdown text |
| Toc.ExtractTocEmpty | src/component/Body/Blog/BlogDetailPage.tsx:44-76 | empty markdown yields no entries |
| Toc.IndentShowsLevel | src/component/Body/Blog/BlogDetailPage.tsx:93-94 | with the page's levels 1 to 3, two entries share an indentation class exactly when they share a level |
| Toc.IndentInjective | src/component/Body/Blog/BlogDetailPage.tsx:93-94 | `pl-0`, `pl-3`, `pl-6` are three different classes |
| ScrollSpy.FirstVisible | src/component/Body/Blog/BlogDetailPage.tsx:216-224 | the chosen entry exists and intersects |
| ScrollSpy.FirstVisibleNone | src/component/Body/Blog/BlogDetailPage.tsx:216-224 | nothing is chosen exactly when no entry intersects |
| ScrollSpy.FirstVisibleLeast | src/component/Body/Blog/BlogDetailPage.tsx:216-224 | the chosen entry has the least `offsetTop` of the intersecting ones, and is the first such (the sort is stable) |
| ScrollSpy.ClickScroll | src/component/Body/Blog/BlogDetailPage.tsx:184-192 | a click scrolls exactly when the element exists, to its position minus 104 |
| ScrollSpy.ClickWithoutElement | src/component/Body/Blog/BlogDetailPage.tsx:171-172 | a click on an id with no element changes nothing |
| ScrollSpy.ClickWithElement | src/component/Body/Blog/BlogDetailPage.tsx:175-197 | otherwise the id becomes active at once, the flag goes up, one release is scheduled, and nothing else changes |
| ScrollSpy.MutedWhileScrolling | src/component/Body/Blog/BlogDetailPage.tsx:214 | while the flag is up, observer callbacks change nothing |
| ScrollSpy.FlagHeldUntilRelease | src/component/Body/Blog/BlogDetailPage.tsx:195-197 | the flag stays up until a release timeout fires |
| ScrollSpy.ObserverPicksFirstVisible | src/component/Body/Blog/BlogDetailPage.tsx:212-226 | with the flag down, a callback activates the first visible heading and leaves the active id alone when none intersects |
| ScrollSpy.StepValid | src/component/Body/Blog/BlogDetailPage.tsx:175-197 | every event keeps "flag up implies a release pending" |
| ScrollSpy.RunValid | src/component/Body/Blog/BlogDetailPage.tsx:175-197 | so the flag always comes down |
| ScrollSpy.ActivatedOncePerSlug | src/component/Body/Blog/BlogDetailPage.tsx:155-168 | between two post changes, the first entry is scheduled for activation at most once, and not at all once a TOC was seen |
| ScrollSpy.TocSchedulesFirstEntry | src/component/Body/Blog/BlogDetailPage.tsx:161-209 | a new non-empty TOC schedules its first entry's id and installs the observer exactly when some heading element exists |
| ScrollSpy.Tracker.constructor | src/component/Body/Blog/BlogDetailPage.tsx:150-152 | no active id, flag down, not initialised, no observer, nothing pending |
| ScrollSpy.Tracker.OnSlugChange | src/component/Body/Blog/BlogDetailPage.tsx:155-158 | the effect on `[slug]` is the `SlugChanged` step |
| ScrollSpy.Tracker.OnTocBuilt | src/component/Body/Blog/BlogDetailPage.tsx:161-237 | the two effects on `[toc]` are the `TocBuilt` step |
| ScrollSpy.Tracker.OnActivationTimer | src/component/Body/Blog/BlogDetailPage.tsx:164-166 | the 100 ms timeout is the `ActivationTimer` step |
| ScrollSpy.Tracker.HandleTocClick | src/component/Body/Blog/BlogDetailPage.tsx:170-198 | `handleTocClick` is the `Click` step and scrolls to `ClickScroll` of the position |
| ScrollSpy.Tracker.OnReleaseTimer | src/component/Body/Blog/BlogDetailPage.tsx:195-197 | the 1000 ms timeout is the `ReleaseTimer` step |
| ScrollSpy.Tracker.OnIntersect | src/component/Body/Blog/BlogDetailPage.tsx:212-226 | the observer callback is the `Intersect` step |
| BlogList.Truthy | src/component/Body/Blog/BlogPage.tsx:16 | `filter(Boolean)` keeps no empty string |
| BlogList.TruthyAppend | src/component/Body/Blog/BlogPage.tsx:16 | `filter(Boolean)` of two argument lists is the filter of the first followed by the filter of the second: argument order is kept |
| BlogList.TruthyOne | src/component/Body/Blog/BlogPage.tsx:16 | one argument is kept, as itself, exactly when it is a non-empty string; with `TruthyAppend` this fixes the kept names, order and repeats included |
| BlogList.TruthyMembers | src/component/Body/Blog/BlogPage.tsx:15-17 | the class names `cx` keeps are exactly its non-empty string arguments |
| BlogList.TruthyIgnoresFalsy | src/component/Body/Blog/BlogPage.tsx:15-17 | a falsy argument, at either end, changes nothing |
| BlogList.CxSplit | src/component/Body/Blog/BlogPage.tsx:15-17 | splitting `cx`'s result at spaces gives back the kept class names, in order, joined by single spaces |
| BlogList.CxNone | src/component/Body/Blog/BlogPage.tsx:15-17 | with no truthy argument `cx` gives `""` |
| BlogList.DistinctMembers | src/component/Body/Blog/BlogPage.tsx:31-36 | the `Map`'s keys are the tags of the posts, each once |
| BlogList.CountPositive | src/component/Body/Blog/BlogPage.tsx:33 | a tag occurs exactly when its count is positive |
| BlogList.Insert | src/component/Body/Blog/BlogPage.tsx:37 | insertion adds one entry |
| BlogList.SortByCount | src/component/Body/Blog/BlogPage.tsx:37 | the sort keeps the number of entries |
| BlogList.DescendingIsSorted | src/component/Body/Blog/BlogPage.tsx:37 | each entry counted at least as often as the next means sorted most frequent first |
| BlogList.InsertMembers | src/component/Body/Blog/BlogPage.tsx:37 | insertion adds exactly the inserted entry |
| BlogList.InsertPermutes | src/component/Body/Blog/BlogPage.tsx:37 | insertion is a permutation of the old entries plus the new one |
| BlogList.InsertDescending | src/component/Body/Blog/BlogPage.tsx:37 | insertion keeps the order by count |
| BlogList.SortByCountSorts | src/component/Body/Blog/BlogPage.tsx:37 | the sort is a permutation, most frequent first |
| BlogList.SortByCountPermutes | src/component/Body/Blog/BlogPage.tsx:37 | the sort is a permutation |
| BlogList.SortByCountDescending | src/component/Body/Blog/BlogPage.tsx:37 | the sort orders by count, most frequent first |
| BlogList.NoTagTwiceIsDistinct | src/component/Body/Blog/BlogPage.tsx:36-37 | the head-first form of "no tag twice" gives pairwise distinct tags |
| BlogList.SortByCountNoTagTwice | src/component/Body/Blog/BlogPage.tsx:36-37 | sorting entries with distinct tags keeps them distinct |
| BlogList.AllTagsWithCount | src/component/Body/Blog/BlogPage.tsx:30-39 | the nested loops, the sort and the cut give exactly `TopTags` |
| BlogList.TagTallyCounts | src/component/Body/Blog/BlogPage.tsx:31-34 | the `Map` holds exactly the tags of all posts, each with its total number of occurrences |
| BlogList.MapSetStep | src/component/Body/Blog/BlogPage.tsx:33 | one more `map.set` adds the tag as a new last key only when it is new, and raises its count by one |
| BlogList.CountTags | src/component/Body/Blog/BlogPage.tsx:31-34 | the outer loop leaves the `Map`'s key order and counts of all the tags of all posts |
| BlogList.CountPostTags | src/component/Body/Blog/BlogPage.tsx:33 | the inner loop extends them by one post's tags |
| BlogList.TopTagsShape | src/component/Body/Blog/BlogPage.tsx:30-39 | at most 12 chips (all tags when fewer), sorted by count non-increasingly, each a tag of some post with its total occurrences |
| BlogList.TopTagsDistinct | src/component/Body/Blog/BlogPage.tsx:30-39 | no tag has two chips |
| BlogList.TopTagsAreTop | src/component/Body/Blog/BlogPage.tsx:36-38 | a tag left without a chip occurs no more often than any tag that has one |
| BlogList.CutKeepsTop | src/component/Body/Blog/BlogPage.tsx:38 | an entry past the cut counts no more than any entry before it |
| BlogList.EntryOf | src/component/Body/Blog/BlogPage.tsx:36 | every tag of a post has its entry, with its count |
| BlogList.WithTagMembers | src/component/Body/Blog/BlogPage.tsx:78 | the filter keeps a post exactly when it carries the tag |
| BlogList.WithTagAppend | src/component/Body/Blog/BlogPage.tsx:78 | the filter keeps the original order |
| BlogList.FilteredPostsSpec | src/component/Body/Blog/BlogPage.tsx:76-79 | `"ALL"` gives the whole list; another tag exactly the posts carrying it |
| BlogList.VisibleIsPrefix | src/component/Body/Blog/BlogPage.tsx:90-94 | the visible posts are the prefix of length `min(visibleCount, length)`, and there are more exactly when some post is not shown |
| BlogList.SelectTagResets | src/component/Body/Blog/BlogPage.tsx:96-100 | `selectTag(t)` activates `t`, shows one page and lowers the loading flag, and nothing else |
| BlogList.LoadMoreGuard | src/component/Body/Blog/BlogPage.tsx:103 | `loadMore` does nothing while a load runs or when everything is shown |
| BlogList.LoadMoreGrows | src/component/Body/Blog/BlogPage.tsx:102-111 | a load that goes ahead sets the count to `min(c + 10, length)`: it strictly grows, never passes the list, and the flag ends down |
| BlogList.StepCalm | src/component/Body/Blog/BlogPage.tsx:96-111 | every event except a tag change during a load keeps every pending load's captured length current |
| BlogList.StepFresh | src/component/Body/Blog/BlogPage.tsx:96-111 | every event that keeps the list's length, a tag change during a load included, keeps every captured length current and the count within the list or at the first page |
| BlogList.LoadDoneStaysInList | src/component/Body/Blog/BlogPage.tsx:109 | a load with a current captured length stays within the list |
| BlogList.RunStaysInList | src/component/Body/Blog/BlogPage.tsx:96-111 | over any events that keep the list's length, the count is within the list or at the first page |
| BlogList.PageAsWrittenStaysInList | src/component/Body/Blog/BlogPage.tsx:96-111 | from the initial state, with `selectTag("ALL")` the only tag change (lines 232 and 247), the count never passes the list except at the first page |
| BlogList.StaleLoadOverruns | src/component/Body/Blog/BlogPage.tsx:96-111 | a `selectTag` during the 450 ms wait lets the old list's length apply to the new list: the count can pass its end; this needs a change to a shorter list, which no button of the page as written makes (both call `selectTag("ALL")`) and the corrected chips do |
| BlogList.AllCarry | src/component/Body/Blog/BlogPage.tsx:78 | a list of posts that all carry the tag is kept whole |
| BlogList.NoneCarry | src/component/Body/Blog/BlogPage.tsx:78 | a list of posts none of which carries the tag is filtered to nothing |
| BlogList.RunFeaturedInRange | src/component/Body/Blog/BlogPage.tsx:55-69 | `(prev + 1) % length` keeps the featured index within the featured posts, and nothing rotates with one featured post or none |
| BlogList.FeaturedIsPrefix | src/component/Body/Blog/BlogPage.tsx:46-50 | the featured posts are the first `min(3, n)` posts |
| BlogList.ChipsAsWrittenNeverFilter | src/component/Body/Blog/BlogPage.tsx:243-257 | as written, clicking a tag chip shows the whole list and never highlights that chip |
| BlogList.ChipSelectsItsTag | src/component/Body/Blog/BlogPage.tsx:243-257 | with the chip selecting its own tag, a click highlights it and lists exactly the posts carrying the tag, from the first page |
| BlogList.BlogPage.constructor | src/component/Body/Blog/BlogPage.tsx:41-88 | `"ALL"`, one page, not loading, featured index 0, not fading, nothing pending |
| BlogList.BlogPage.SelectTag | src/component/Body/Blog/BlogPage.tsx:96-100 | `selectTag` is the `SelectTag` step |
| BlogList.BlogPage.LoadMore | src/component/Body/Blog/BlogPage.tsx:102-107 | the start of `loadMore`, with the list's length captured, is the `LoadMore` step |
| BlogList.BlogPage.OnLoadDone | src/component/Body/Blog/BlogPage.tsx:107-110 | the end of the wait is the `LoadDone` step |
| BlogList.BlogPage.OnRotateTick | src/component/Body/Blog/BlogPage.tsx:56-67 | the rotation interval is the `RotateTick` step |
| BlogList.BlogPage.OnAdvanceTimer | src/component/Body/Blog/BlogPage.tsx:60-64 | the 260 ms timeout is the `AdvanceTimer` step |
| BlogList.BlogPage.OnUnfadeTimer | src/component/Body/Blog/BlogPage.tsx:63 | the 20 ms timeout is the `UnfadeTimer` step |
| Posts.GeneratedTags | src/component/Body/Blog/data/postingDatas.ts:63-66 | a generated post has two tags |
| Posts.MockShape | src/component/Body/Blog/data/postingDatas.ts:17-50 | 52 posts: the two written by hand, then post `n` at position `n - 1` for `n = 3..52` |
| Posts.MockPostAt | src/component/Body/Blog/data/postingDatas.ts:17-83 | the post at each position |
| Posts.TagPoolDistinct | src/component/Body/Blog/data/postingDatas.ts:51-62 | the ten pool entries are pairwise distinct |
| Posts.GeneratedTagsDistinct | src/component/Body/Blog/data/postingDatas.ts:63-66 | a generated post's two tags are two different pool entries |
| Posts.GeneratedFields | src/component/Body/Blog/data/postingDatas.ts:75-81 | likes in `[0, 120)`, comments in `[0, 12)`, a cover exactly when `n % 3 == 0`, category `"frontend"` when a tag is `"frontend"` and `"etc"` otherwise, and no content |
| Posts.FrontendTag | src/component/Body/Blog/data/postingDatas.ts:63-81 | a generated post is tagged `"frontend"` exactly when `n` ends in 0 or 7 |
| Posts.PoolFrontend | src/component/Body/Blog/data/postingDatas.ts:51-52 | `"frontend"` is the first pool entry and no other |
| Posts.OnlyHandWrittenHaveContent | src/component/Body/Blog/data/postingDatas.ts:31-82 | only the two hand-written posts carry content |
| Posts.GeneratedIdsDistinct | src/component/Body/Blog/data/postingDatas.ts:68-69 | different numbers give different ids and different slugs |
| Posts.GeneratedNotHandWritten | src/component/Body/Blog/data/postingDatas.ts:19-69 | no generated id is `p1` or `p2`, and no generated slug is `web-basic` or `js-basic` |
| Posts.IdAndSlugAt | src/component/Body/Blog/data/postingDatas.ts:19-69 | the id and slug of the post at each position |
| Posts.IdAtInjective | src/component/Body/Blog/data/postingDatas.ts:19-69 | two positions have different ids and different slugs |
| Posts.IdsAndSlugsDistinct | src/component/Body/Blog/data/postingDatas.ts:17-84 | all 52 ids are pairwise distinct, and so are all 52 slugs |
| Carousel.JsRem | src/component/Body/activity/activity.tsx:49-54 | JavaScript's `%`: `NaN` by zero, with the sign of the dividend and less than the divisor in size |
| Carousel.NextInRange | src/component/Body/activity/activity.tsx:48-50 | from an index in range, next is the following index, wrapping to 0, and in range |
| Carousel.PrevInRange | src/component/Body/activity/activity.tsx:53-55 | from an index in range, prev is the preceding index, wrapping to the last, and in range |
| Carousel.PrevNextInverse | src/component/Body/activity/activity.tsx:48-55 | prev undoes next and next undoes prev |
| Carousel.NextTimesIsShift | src/component/Body/activity/activity.tsx:49 | `k <= total` steps forward land on `i + k`, wrapped once |
| Carousel.FullCycle | src/component/Body/activity/activity.tsx:49 | `total` steps forward return to the start |
| Carousel.EmptyCarousel | src/component/Body/activity/activity.tsx:33-54 | with no activity, next and prev give `NaN` |
| Carousel.RunValid | src/component/Body/activity/activity.tsx:65-83 | after any events an interval runs exactly when autoplay is on and the pointer is away |
| Carousel.RunInRange | src/component/Body/activity/activity.tsx:48-97 | with jumps only to existing dots, the index stays in range |
| Carousel.GoToPauses | src/component/Body/activity/activity.tsx:58-62 | `goToIndex(k)` sets the index to exactly `k`, pauses autoplay, stops the interval and schedules one resume |
| Carousel.ResumeAfterGoTo | src/component/Body/activity/activity.tsx:61-83 | that resume turns autoplay on again, and the interval unless the pointer is over |
| Carousel.TickOnlyWhenPlaying | src/component/Body/activity/activity.tsx:65-76 | a tick moves the index only while autoplay is on and the pointer is away |
| Carousel.ArrowKeys | src/component/Body/activity/activity.tsx:86-93 | the left arrow goes back, the right arrow forward, any other key changes nothing; a key never touches anything but the index |
| Carousel.ActivitySection.constructor | src/component/Body/activity/activity.tsx:25-31 | index 0, autoplay on, pointer away, interval running |
| Carousel.ActivitySection.SyncAutoPlay | src/component/Body/activity/activity.tsx:65-83 | the effect clears the interval when autoplay is off or the pointer is over, installs one otherwise |
| Carousel.ActivitySection.GoToNext | src/component/Body/activity/activity.tsx:48-50 | the index becomes `Next` of the old index; nothing else changes |
| Carousel.ActivitySection.GoToPrev | src/component/Body/activity/activity.tsx:53-55 | the index becomes `Prev` of the old index; nothing else changes |
| Carousel.ActivitySection.OnTick | src/component/Body/activity/activity.tsx:74-76 | the interval callback is the `Tick` step |
| Carousel.ActivitySection.GoToIndex | src/component/Body/activity/activity.tsx:58-62 | `goToIndex` is the `GoTo` step |
| Carousel.ActivitySection.OnResume | src/component/Body/activity/activity.tsx:61 | the 3000 ms timeout is the `Resume` step |
| Carousel.ActivitySection.HandleKeyDown | src/component/Body/activity/activity.tsx:87-93 | the key handler is the `KeyDown` step |
| Carousel.ActivitySection.OnMouseEnter | src/component/Body/activity/activity.tsx:114 | the pointer entering is the `MouseEnter` step |
| Carousel.ActivitySection.OnMouseLeave | src/component/Body/activity/activity.tsx:115 | the pointer leaving is the `MouseLeave` step |
| FibWorker.Fib | src/component/Body/labs/worker/fibWorker.ts:16-19 | `fib(n) = n` for every `n <= 1`, negative numbers included, and `fib(n) >= 0` for `n >= 0` |
| FibWorker.FibIsFibPair | src/component/Body/labs/worker/fibWorker.ts:16-19 | the naive recursion computes the same numbers as a single walk up from `(0, 1)` |
| FibWorker.FibRecurrence | src/component/Body/labs/worker/fibWorker.ts:18 | `fib(n) = fib(n-1) + fib(n-2)` for `n >= 2` |
| FibWorker.FibMonotone | src/component/Body/labs/worker/fibWorker.ts:16-19 | from 1 on, the numbers never decrease |
| FibWorker.FibBelowPow2 | src/component/Body/labs/worker/fibWorker.ts:16-19 | `fib(n) < 2^n`, so up to `n = 53` the result is an integer a JavaScript number holds exactly |
| FibWorker.OnMessage | src/component/Body/labs/worker/fibWorker.ts:21-36 | no reply exactly when the type is not `CALCULATE_FIBONACCI`; otherwise the result is `fib(number)`, the reference walk's value for `number >= 0` |
| FibWorker.FibIsFibPairOf | src/component/Body/labs/worker/fibWorker.ts:26 | `fib` agrees with the reference walk on every non-negative integer |
| FibWorker.ReplyIsFib | src/component/Body/labs/worker/fibWorker.ts:22-35 | a request is answered with `fib` of its number, whatever the number |

## Left out

- Unicode: `\p{L}` is ASCII letters and Hangul (syllables, jamo, compatibility jamo), `\p{N}` is ASCII digits, and `toLowerCase` changes only `A`-`Z`. Headings in other scripts are outside the model.
- White space: `\s` and the `trim` family use the WhiteSpace and LineTerminator code points of ECMAScript (sections 12.2 and 12.3), with the Unicode `Zs` category written out in `Strings.IsSpace`. A later Unicode version could add to that category; the model would not follow.
- The heading pattern is modelled on lines already cut by `trimEnd`, the only lines `extractToc` passes to it. On such a line, `(.+?)\s*$` captures the whole rest after the white space.
- `Toc.ScanLine` classifies a line before it looks at the fence flag; the source tests the flag before the heading pattern. Classification has no effect, so the two orders give the same result.
- ReactMarkdown rendering and the heading ids it assigns with the per-render `renderSlug` (`BlogDetailPage.tsx:138`) are not modelled; those ids come from the rendered children, not from `extractToc`.
- No lemma claims that ids are unique: the code does not make them so (`Slugging.CollisionAcrossBases`).
- DOM calls and browser scheduling are not modelled: `history.replaceState`, `window.scrollTo`, `getBoundingClientRect`, `getElementById`, the observers' geometry and `rootMargin`, and real time. Their results are event parameters. Timers and observer callbacks are events. An element's position (`getBoundingClientRect().top + window.pageYOffset`, `BlogDetailPage.tsx:187`) is a floating-point number in the source and an integer here; the model only subtracts 104 from it, so fractional positions behave the same.
- Effect cleanup on unmount is not modelled (`clearInterval`, `io.disconnect`). No unmount event exists.
- Timeouts the source never cancels stay pending in the model, as they do in the browser: the 100 ms activation timeouts, a `goToIndex` resume, and a `loadMore` wait.
- `BlogList.Step`: the `loadMore` guard reads the current state. A sentinel callback from an older render, which would still see `loadingMore` false, is not modelled.
- `BlogList.Step`: with no featured post, `AdvanceTimer` does nothing. In the source no advance is ever pending then, because no interval is installed.
- Routing (`useParams`, `navigate`), the scroll to the top on entry, `isMobile` and the responsive layout, JSX and styling are not modelled.
- `getPlainText` numbers: integers only; floating-point numbers, `NaN` and `Infinity` are not modelled.
- `fib` and the worker: `number` and `result` are unbounded integers. Non-integer numbers, the cost of the doubly recursive evaluation and the stack depth are not modelled. `FibWorker.FibBelowPow2` bounds where a JavaScript number stays exact.
- The worker's `time` field (`performance.now`) and the `postMessage` transport are not modelled; the reply is a value.
- The markdown of the two hand-written posts comes from `import.meta.glob` (`postingDatas.ts:4-11`). It is a parameter of `Posts.MockAllPosts`, or `None` when the file is missing.
- The activities list comes from `import.meta.glob` too (`activity.tsx:10-15`); its length is the carousel's `total`.
- `BlogList.SortByCount`: the sort is proved a permutation ordered by count, and `BlogList.TopTagsAreTop` proves the cut keeps the most frequent tags. Stability among equal counts is how `Insert` is written, but no lemma states it.

## Findings

| source | as written | input that shows it | evidently intended | confidence | as-written member | corrected member |
|---|---|---|---|---|---|---|
| src/component/Body/Blog/BlogPage.tsx:247 | every tag chip's `onClick` calls `selectTag("ALL")` | clicking the chip "React": the list stays unfiltered and the chip is never highlighted, since `activeTag === "React"` never holds | `selectTag(t)`, as the highlight test at line 250 expects | not executed | BlogList.ChipsAsWrittenNeverFilter | BlogList.ChipSelectsItsTag |
