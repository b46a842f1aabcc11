# Portfolio site: verified model of its interactive logic

The site is a personal portfolio built with React and Next.js. Most of it is
markup and canvas drawing, but a few components carry real sequential logic,
and this project models those in Dafny and proves what they promise.

- **Constellation discovery** (`ConstellationHero`, `BlackHoleHero`). A canvas
  holds constellation stars taken from a fixed table, plus background stars.
  Passing the cursor within a radius (70 px and 60 px) lights a constellation
  star. Lighting the last unlit star of a constellation completes it: the time
  is stamped and a label with the constellation's name is added at the mean of
  its stars' positions. Three seconds after completion the constellation goes
  dark again. Labels are swept away 2.5 seconds after they appear.
  - `ConstellationHero` also keeps a glow intensity per star and counts
    discoveries.
  - `BlackHoleHero` keeps its background stars out of a box around the black
    hole. A click (and the hover hint) is tested against one and a half
    black-hole radii.
- **Typewriter.** Types each string of a list one character per tick, pauses,
  deletes it one character per tick, and moves on to the next string, forever.
- **GPAIChat.** A terminal-style chat.
  - Input is trimmed and lower-cased.
  - A command is resolved by its exact key, then by a loose match, then to a
    "not recognized" message that names the command.
  - The answer is revealed five characters per tick.
  - Answers are shown through a small markdown-like renderer: a line
    classifier, plus a splitter for `**bold**`.
- **Blog index.** Posts are filtered by category and by a case-insensitive
  search of title and excerpt, then split into featured and regular posts.
- **Home page.** A three-state view machine: home, then warping, then
  portfolio, then home again.

## Modelling choices

- **Positions.** Canvas positions are integers in hundredths of a CSS pixel.
  Table positions are integers in hundredths of the canvas size, so a table
  star lands exactly on its place.
- **Distance tests.** The test `sqrt(dx² + dy²) < r` is compared squared.
  This is exact for integers.
- **Glow.** Glow is in thousandths: +0.2 up to 1, −0.015 down to 0.4, and
  −0.03 down to 0.
- **State and time.** Each component's state is a Dafny `class` whose methods
  are the event handlers and the animation frame. The cursor position and the
  time `now` are arguments.
- **Star lists.** A star list is a `seq` that those methods reassign. One frame
  is two methods: a reset phase and an update loop. Each is proved against a
  specification function on the sequence (`ResetGroups`, `Frame`/`Touch`,
  `Emitted`, `Stamp`, `Announce`).
- **Randomly drawn positions.** These are inputs: `background` for
  ConstellationHero, and one sequence of candidate draws per star for
  BlackHoleHero.
- **Chat answers.** The six long answer texts are a parameter of the chat:
  one non-empty text per command key, in table order. The keys, the
  suggestion cards and the fixed messages are constants.
- **Modules.**
  - Shared helpers live in `Seqs` (filter), `JsString` (the JavaScript string
    operations used) and `Wrappers` (`Option`).
  - What both hero canvases share (star record, completeness test, discovery
    step, labels) lives in `Sky`, and the star layout in `SkyLayout`.

## Model

| member | source | states |
|---|---|---|
| Sky.Place | src/components/ConstellationHero.tsx:199-201 | a table entry in hundredths of the canvas is placed at (x·width, y·height) |
| Sky.Near | src/components/ConstellationHero.tsx:284-292 | the cursor is within the radius of a star: the squared distance is below the squared radius, the square root left out |
| Sky.AwayIsFar | src/components/ConstellationHero.tsx:497-500 | the parked cursor at (−1000, −1000) px is not within the radius of any point on the canvas, so it lights nothing |
| Sky.AllActivated | src/components/ConstellationHero.tsx:243 | `every(s => s.activated)` holds iff every star in the group is lit |
| Sky.Members | src/components/ConstellationHero.tsx:240-242 | the stars kept for group `c` are exactly the constellation stars of the list with index `c` |
| Sky.CheckConstellationComplete | src/components/ConstellationHero.tsx:239-244 | a group is complete iff every constellation star with that index is lit (vacuously for a group with no star) |
| Sky.CheckSameFlags | src/components/ConstellationHero.tsx:239-244 | completeness depends only on group membership and the lit flags, not on glow |
| Sky.Activates | src/components/ConstellationHero.tsx:292-298 | a star is lit by this visit iff it is a constellation star, not yet lit, within the radius |
| Sky.Progress | src/components/BlackHoleHero.tsx:232-257 | after visiting the first `k` stars, exactly those are updated by the discovery rule, and the rest are untouched |
| Sky.TouchOnlyLights | src/components/BlackHoleHero.tsx:237-243 | a frame never clears a flag: a star is lit afterwards iff it was lit before or it is a constellation star within the radius; background stars do not change |
| Sky.Touch | src/components/ConstellationHero.tsx:283-338 | the stars after a whole frame: every star has gone through the discovery rule |
| Sky.Emits | src/components/ConstellationHero.tsx:297-301 | visiting star `i` announces its group iff this visit lights it and, with it lit, every member of the group is lit |
| Sky.Emitted | src/components/ConstellationHero.tsx:283-318 | the groups announced in the first `k` visits, in order; there are at most `k` of them |
| Sky.EmittedMembers | src/components/ConstellationHero.tsx:297-318 | a group is announced in the first `k` steps iff one of those steps lights a star of it whose lighting completes it |
| Sky.LastUnlit | src/components/ConstellationHero.tsx:239-244 | an incomplete group has a last unlit member, and every later member is lit |
| Sky.EmittedWasCompleted | src/components/ConstellationHero.tsx:297-318 | an announced group was incomplete before the frame and is complete after it |
| Sky.CompletedIsEmitted | src/components/ConstellationHero.tsx:297-318 | a group that turns complete during a frame is announced in it |
| Sky.EmittedExactlyCompleted | src/components/ConstellationHero.tsx:297-318 | a frame announces a group iff the group was incomplete before it and is complete after it |
| Sky.CompleteAfterFrame | src/components/ConstellationHero.tsx:283-338 | after a frame a group is complete iff it was complete before or it was announced in the frame |
| Sky.EmittedFromStars | src/components/ConstellationHero.tsx:301-310 | every announced group is the group of some star on the canvas |
| Sky.EmittedStayComplete | src/components/ConstellationHero.tsx:297-318 | every group announced so far is still complete at each later point of the frame |
| Sky.EmittedDistinct | src/components/ConstellationHero.tsx:297-318 | a frame announces each group at most once, because the check sits inside the branch for a star that is not yet lit |
| Sky.Indexed | src/components/ConstellationHero.tsx:303-305 | the stars averaged for the label are exactly the stars of the list with that constellation index |
| Sky.Centroid | src/components/ConstellationHero.tsx:303-307 | the label centre of a group is the mean of the abscissas and the mean of the ordinates of its stars |
| Sky.SumXBounds | src/components/ConstellationHero.tsx:306 | a sum of abscissas that all lie in [lo, hi] lies in [n·lo, n·hi] |
| Sky.SumYBounds | src/components/ConstellationHero.tsx:307 | the same for ordinates |
| Sky.MeanWithin | src/components/ConstellationHero.tsx:306-307 | the mean of `n` values whose sum lies in [n·lo, n·hi] lies in [lo, hi] |
| Sky.CentroidWithin | src/components/ConstellationHero.tsx:303-307 | a label sits inside every box that holds all the stars of its constellation |
| Sky.IndexedSamePlaces | src/components/ConstellationHero.tsx:303-307 | lists with the same positions and indices give the same count and sums for every constellation |
| Sky.CentroidIgnoresFlags | src/components/ConstellationHero.tsx:303-307 | lighting stars does not move a label: the centre depends on positions only |
| Sky.Expired | src/components/ConstellationHero.tsx:276-280 | the constellations reset at time `now` are exactly those with a timestamp more than the delay old |
| Sky.ExpireLabels | src/components/ConstellationHero.tsx:531-538 | the sweep keeps exactly the labels younger than 2.5 s, in their original order and as many times as they occur; every older label goes |
| Sky.ExpireLater | src/components/BlackHoleHero.tsx:568-572 | sweeping at `t1` and then at a later `t2` equals one sweep at `t2`, so the sweeps are monotone |
| Sky.LinkStyle | src/components/ConstellationHero.tsx:352-390 | a connection is skipped when an end does not exist, drawn bright when both ends are lit, dashed when one is, and not drawn otherwise |
| Sky.CompleteGroupAllBright | src/components/ConstellationHero.tsx:356-359 | in a complete group every connection whose two ends exist is drawn bright |
| Sky.DarkGroupNoLinks | src/components/ConstellationHero.tsx:356-396 | a group with no lit star draws neither a bright nor a dashed connection |
| Sky.EmittedValid | src/components/ConstellationHero.tsx:301-307 | an announced constellation is a row of the table and has stars on the canvas, so its name and centre exist |
| Sky.LabelFor | src/components/ConstellationHero.tsx:301-317 | the label of a completed constellation carries its table name, its centre and the time `now` |
| Sky.Announce | src/components/ConstellationHero.tsx:312-317 | one label per announced constellation, in announcement order: its name, its centre, and the time `now` |
| Sky.AnnounceSnoc | src/components/ConstellationHero.tsx:312-317 | announcing one more constellation appends exactly its label |
| Sky.Stamp | src/components/ConstellationHero.tsx:310 | after stamping, the timestamps cover the old keys plus the announced ones; announced constellations carry `now` and the others keep their time |
| Sky.StampSnoc | src/components/ConstellationHero.tsx:310 | stamping one more constellation is a single map update |
| Sky.RecordStep | src/components/ConstellationHero.tsx:297-318 | one step of the loop adds at most one announcement, and the stamp and label lists grow by exactly that |
| Sky.LightStar | src/components/ConstellationHero.tsx:297-318 | the discovery step: a constellation star within the radius that is not yet lit becomes lit; if that completes its constellation, the time is stamped and its label is appended; nothing else changes |
| SkyLayout.GroupStars | src/components/ConstellationHero.tsx:197-214 | constellation `c` contributes one star per table entry, in table order, placed on the canvas, unlit, tagged with its group and member index |
| SkyLayout.Layout | src/components/ConstellationHero.tsx:197-214 | the constellation part of the star list has as many stars as the table entries of the constellations laid out |
| SkyLayout.Backdrop | src/components/ConstellationHero.tsx:217-232 | one unlit background star, indexed −1, per drawn point, in order |
| SkyLayout.LayoutAt | src/components/ConstellationHero.tsx:197-214 | member `s` of constellation `c` sits at the position of the entries before it |
| SkyLayout.LayoutMembers | src/components/ConstellationHero.tsx:197-214 | every star in the constellation part is an unlit constellation star, with no glow, of a group laid out; its member index is in range for that group and the star is that member, placed on the canvas |
| SkyLayout.PlaceConstellations | src/components/BlackHoleHero.tsx:132-147 | the nested push loop builds exactly the layout of the whole table |
| SkyLayout.PlaceBackground | src/components/ConstellationHero.tsx:217-232 | the background loop appends exactly one background star per drawn point |
| SkyLayout.LayoutValid | src/components/ConstellationHero.tsx:193-236 | in a fresh star list every constellation has a member and none is complete |
| ConstellationHero.TableShape | src/components/ConstellationHero.tsx:8-151 | the table has twelve constellations, none empty |
| ConstellationHero.InitStars | src/components/ConstellationHero.tsx:176-236 | `initStars` gives the constellation stars in table order, then exactly `BACKGROUND_STAR_COUNT` (80) background stars, none of them a constellation star |
| ConstellationHero.Initial | src/components/ConstellationHero.tsx:193-236 | a fresh star list: the constellation stars laid out from the table, then the background stars |
| ConstellationHero.InitialValid | src/components/ConstellationHero.tsx:193-236 | a fresh list is well formed (glow in [0, 1], valid indices, inert background) and, with the empty timestamp map, the map names exactly the complete constellations (none) |
| ConstellationHero.ResetGroups | src/components/ConstellationHero.tsx:247-256 | stars of a reset group become unlit with zero glow; every other star is unchanged |
| ConstellationHero.ResetKeepsMatch | src/components/ConstellationHero.tsx:276-280 | after the reset phase the list is still well formed, and a constellation is complete iff it was stamped and not reset |
| ConstellationHero.ResetConstellation | src/components/ConstellationHero.tsx:247-256 | the loop over the stars clears exactly group `c` |
| ConstellationHero.ResetPhase | src/components/ConstellationHero.tsx:276-280 | every constellation stamped more than 3000 ms ago is reset and removed from the map; the others keep their stamp |
| ConstellationHero.Updated | src/components/ConstellationHero.tsx:292-337 | one star in one frame: within the radius a constellation star is lit and its glow rises by 0.2 up to 1; away from it a lit star fades by 0.015 down to 0.4 and an unlit one by 0.03 down to 0; background stars keep their glow |
| ConstellationHero.UpdatedSpec | src/components/ConstellationHero.tsx:292-337 | one star in one frame: place and group kept; lights exactly as the discovery rule says; glow stays in [0, 1]; a lit star away from the cursor keeps at least 0.4; an unlit star does not brighten; a background star is unchanged |
| ConstellationHero.FullGlowAfterFiveFrames | src/components/ConstellationHero.tsx:321 | a constellation star kept under the cursor reaches full glow within five frames |
| ConstellationHero.Partial | src/components/ConstellationHero.tsx:283-338 | after visiting `k` stars, exactly the first `k` are updated |
| ConstellationHero.PartialFlags | src/components/ConstellationHero.tsx:283-338 | glow aside, the update loop lights stars exactly as the shared discovery rule does, and moves none |
| ConstellationHero.PartialStep | src/components/ConstellationHero.tsx:283-338 | visiting star `i` changes that star only |
| ConstellationHero.Frame | src/components/ConstellationHero.tsx:283-338 | the stars after the update phase: every star has been through `Updated` |
| ConstellationHero.EmitsWhenLastLit | src/components/ConstellationHero.tsx:297-301 | the completeness check inside the loop, run on the partly updated list, agrees with the shared announcement rule |
| ConstellationHero.LitLabel | src/components/ConstellationHero.tsx:303-307 | the label computed mid-loop has the same centre as one computed on the list at the start of the update phase |
| ConstellationHero.Visit | src/components/ConstellationHero.tsx:284-337 | one iteration updates star `i` and records the announcement of its constellation, if any, in the timestamps and the new labels |
| ConstellationHero.UpdatePhase | src/components/ConstellationHero.tsx:283-338 | the update loop yields the specified frame, stamps exactly the announced constellations with `now`, and collects their labels in order |
| ConstellationHero.FrameKeepsMatch | src/components/ConstellationHero.tsx:283-338 | after the update phase the list is still well formed, and the timestamps still name exactly the complete constellations |
| ConstellationHero.StarField.constructor | src/components/ConstellationHero.tsx:183-185 | mounting: fresh stars, no timestamps or labels, zero discovered, the cursor parked away |
| ConstellationHero.StarField.Resize | src/components/ConstellationHero.tsx:483-488 | new size, fresh stars, and timestamps and labels cleared; the counter and the cursor are kept |
| ConstellationHero.StarField.PointerMove | src/components/ConstellationHero.tsx:490-495 | the cursor moves to `p`; nothing else changes |
| ConstellationHero.StarField.PointerLeave | src/components/ConstellationHero.tsx:497-500 | the cursor is parked at (−1000, −1000) px; nothing else changes |
| ConstellationHero.StarField.Animate | src/components/ConstellationHero.tsx:276-344 | a frame: reset, then update; labels gain exactly the announcements in order; `totalDiscovered` grows by exactly their number; the invariant that the timestamps name exactly the complete constellations is kept |
| ConstellationHero.StarField.CleanLabels | src/components/ConstellationHero.tsx:531-538 | the labels become `ExpireLabels` of the old labels: the ones younger than 2.5 s, in order and with their multiplicities; nothing else changes |
| BlackHoleHero.TableShape | src/components/BlackHoleHero.tsx:7-54 | the table has four constellations, none empty |
| BlackHoleHero.InExclusion | src/components/BlackHoleHero.tsx:155-158 | a point lies in the box around the black hole, within a quarter of the width and a fifth of the height of the centre, where no background star may go |
| BlackHoleHero.FirstOutside | src/components/BlackHoleHero.tsx:152-158 | the do-while stops at the first draw outside the exclusion box, and every earlier draw is inside it |
| BlackHoleHero.SampleBackground | src/components/BlackHoleHero.tsx:150-158 | the rejection loop returns the first drawn point outside the box |
| BlackHoleHero.Chosen | src/components/BlackHoleHero.tsx:150-158 | the accepted point is one of the draws and lies outside the box |
| BlackHoleHero.Accepted | src/components/BlackHoleHero.tsx:150-172 | each background star is placed at the point its own draws settle on |
| BlackHoleHero.InitStars | src/components/BlackHoleHero.tsx:128-176 | `initStars` gives the constellation stars in table order, then one background star per draw sequence, `STAR_COUNT` (120) of them |
| BlackHoleHero.BackgroundClear | src/components/BlackHoleHero.tsx:150-158 | every background star lies outside the box `abs(x − w/2) < 0.25w ∧ abs(y − h/2) < 0.2h` |
| BlackHoleHero.Initial | src/components/BlackHoleHero.tsx:128-176 | a fresh star list: the constellation stars laid out from the table, then the accepted background stars |
| BlackHoleHero.InitialValid | src/components/BlackHoleHero.tsx:128-176 | a fresh list is well formed, and with the empty map no constellation is complete |
| BlackHoleHero.ResetGroups | src/components/BlackHoleHero.tsx:187-195 | stars of a reset group become unlit; every other star is unchanged |
| BlackHoleHero.ResetKeepsMatch | src/components/BlackHoleHero.tsx:221-226 | after the reset phase a constellation is complete iff it was stamped and not reset |
| BlackHoleHero.ResetConstellation | src/components/BlackHoleHero.tsx:187-195 | the loop over the stars clears exactly group `c` |
| BlackHoleHero.ResetPhase | src/components/BlackHoleHero.tsx:221-226 | every constellation stamped more than 3000 ms ago is reset and removed from the map |
| BlackHoleHero.ProgressStep | src/components/BlackHoleHero.tsx:232-257 | visiting star `i` changes that star only |
| BlackHoleHero.LitLabel | src/components/BlackHoleHero.tsx:247-251 | the label computed mid-loop has the same centre as one computed at the start of the update phase |
| BlackHoleHero.Visit | src/components/BlackHoleHero.tsx:237-256 | one iteration lights star `i` if the rule says so, and records its constellation's announcement, if any |
| BlackHoleHero.UpdatePhase | src/components/BlackHoleHero.tsx:228-257 | the loop yields the specified frame, stamps exactly the announced constellations, and collects their labels in order |
| BlackHoleHero.FrameKeepsMatch | src/components/BlackHoleHero.tsx:228-257 | after the update phase the timestamps still name exactly the complete constellations |
| BlackHoleHero.LinkDrawn | src/components/BlackHoleHero.tsx:285-297 | a connection is drawn iff both ends exist and both are lit |
| BlackHoleHero.CompleteGroupAllDrawn | src/components/BlackHoleHero.tsx:280-298 | once a constellation is complete, every connection whose two ends exist is drawn |
| BlackHoleHero.DarkGroupNothingDrawn | src/components/BlackHoleHero.tsx:285-297 | while no star of a constellation is lit, none of its connections is drawn |
| BlackHoleHero.BlackHoleField.constructor | src/components/BlackHoleHero.tsx:100-102 | mounting: fresh stars, the cursor parked, no hover, and a recorded disc of radius 0 |
| BlackHoleHero.BlackHoleField.Resize | src/components/BlackHoleHero.tsx:508-514 | new size, fresh stars, and timestamps and labels cleared; the cursor, hover flag and disc are kept |
| BlackHoleHero.BlackHoleField.PointerMove | src/components/BlackHoleHero.tsx:516-528 | the cursor moves to `p`, and the hover flag is set iff `p` is within 1.5 radii of the recorded centre |
| BlackHoleHero.BlackHoleField.PointerLeave | src/components/BlackHoleHero.tsx:530-534 | the cursor is parked at (−1000, −1000) px and the hover flag is cleared |
| BlackHoleHero.BlackHoleField.Click | src/components/BlackHoleHero.tsx:536-547 | the callback fires iff one is supplied and the click is strictly within 1.5 radii of the recorded centre |
| BlackHoleHero.BlackHoleField.Animate | src/components/BlackHoleHero.tsx:207-303 | a frame records the disc (centre, 0.08 of the smaller side), resets, updates, and appends exactly the announcements in order, keeping the timestamp invariant |
| BlackHoleHero.BlackHoleField.CleanLabels | src/components/BlackHoleHero.tsx:568-572 | the labels become `ExpireLabels` of the old labels: the ones younger than 2.5 s, in order and with their multiplicities |
| BlackHoleHero.FrameDisc | src/components/BlackHoleHero.tsx:207-214 | the disc a frame records: the canvas centre and a radius of 8% of the smaller side |
| BlackHoleHero.OnBlackHole | src/components/BlackHoleHero.tsx:524-527 | the pointer is over the black hole iff its distance to the centre is below 1.5 times the radius, compared without the square root |
| BlackHoleHero.NothingHitBeforeFirstFrame | src/components/BlackHoleHero.tsx:102 | before the first frame records the disc, its radius is 0 and no click hits it |
| BlackHoleHero.ParkedPointerInert | src/components/BlackHoleHero.tsx:530-534 | the parked cursor is never on the black hole, for any canvas size, and lights no star on the canvas |
| Typewriter.Next | src/components/Typewriter.tsx:24-44 | one tick keeps the typed text a prefix of the current string; while typing it grows by one character or switches to deleting once full; while deleting it shrinks by one character or moves to the next string (modulo the count) on an empty line |
| Typewriter.TickDelay | src/components/Typewriter.tsx:44 | the delay before the next step is the delete speed while deleting and the typing speed otherwise |
| Typewriter.Run | src/components/Typewriter.tsx:23-47 | any number of ticks keeps the index in range and the text a prefix of its string |
| Typewriter.RunAdd | src/components/Typewriter.tsx:23-47 | running `a + b` ticks is running `a` ticks, then `b` |
| Typewriter.TypeOut | src/components/Typewriter.tsx:27-30 | typing from any prefix reaches the whole string, still in typing mode |
| Typewriter.DeleteOut | src/components/Typewriter.tsx:36-38 | deleting from a prefix of length `j` empties the line in `j` ticks |
| Typewriter.CycleToNext | src/components/Typewriter.tsx:24-44 | from an empty line, `2n + 2` ticks type string `i`, pause, delete it, and leave the machine typing the next string (wrapping to the first) |
| Typewriter.Machine.constructor | src/components/Typewriter.tsx:13-21 | with every prop given, the timings are the ones passed; index 0, empty text, typing |
| Typewriter.Machine.WithDefaults | src/components/Typewriter.tsx:13-21 | with the timing props left out, typing takes 100 ms, deleting 50 ms and the pause 2000 ms; index 0, empty text, typing |
| Typewriter.Machine.Tick | src/components/Typewriter.tsx:24-44 | one timer firing performs exactly the specified step; the delay is `deleteSpeed` while deleting and `speed` otherwise, plus the pause when the whole string is typed |
| JsString.Trim | src/components/GPAIChat.tsx:302 | `trim()` removes white space only, and only from the ends |
| JsString.TrimEmptyIff | src/components/GPAIChat.tsx:300 | `!input.trim()` holds iff the input is all white space |
| JsString.ToLower | src/components/GPAIChat.tsx:302 | the same length, each character lower-cased, and no capital left |
| JsString.IndexOf | src/components/GPAIChat.tsx:312 | the first occurrence of the needle, or none when it occurs nowhere |
| Seqs.FirstIndex | src/components/GPAIChat.tsx:21 | the end of the first piece of `split(c)` and the entry an own-key lookup reads: no match before the position, and a match at it unless it is the end |
| JsString.Lines | src/components/GPAIChat.tsx:21 | `split('\n')` yields at least one piece, and no piece holds a line feed |
| JsString.LinesJoin | src/components/GPAIChat.tsx:21 | splitting on line feeds loses nothing: joining the pieces with `\n` gives the text back |
| JsString.FirstWord | src/components/GPAIChat.tsx:312 | `key.split(' ')[0]` is the longest space-free prefix of the key |
| JsString.Words | src/components/GPAIChat.tsx:74 | `split(/\s+/)` yields at least one piece, and no piece holds white space |
| GPAIChat.RuleFor | src/components/GPAIChat.tsx:24-95 | the first rule of `renderContent` whose test the line passes, tried in source order |
| GPAIChat.KindOf | src/components/GPAIChat.tsx:24-95 | the rule that produced a block |
| GPAIChat.StripStars | src/components/GPAIChat.tsx:53-54 | `replace(/\*\*/g, '')` leaves no pair of stars, never lengthens, and keeps a first character that is not a star |
| GPAIChat.StripStarsKeeps | src/components/GPAIChat.tsx:53-54 | only stars are removed: the characters other than stars are exactly those of the input, in order |
| GPAIChat.StripStarsEven | src/components/GPAIChat.tsx:53-54 | stars are removed two at a time: the length drops by an even number |
| GPAIChat.StripStarsFixed | src/components/GPAIChat.tsx:53-54 | a text with no two adjacent stars is left unchanged |
| GPAIChat.SplitLabel | src/components/GPAIChat.tsx:52-54 | the caption is the text before the first `:**`; the value follows that separator, holds no `:**`, and runs to the end of the line or to the next `:**` |
| GPAIChat.MarkerRules | src/components/GPAIChat.tsx:28-71 | a line is a heading, a bullet, a label line or a tag iff it starts with that rule's marker; the markers exclude each other |
| GPAIChat.UnmarkedRules | src/components/GPAIChat.tsx:72-95 | an unmarked line is a skill bar iff it holds `████`, blank iff it is all white space, and a paragraph otherwise |
| GPAIChat.ClassifyLine | src/components/GPAIChat.tsx:24-95 | each line gets the block of the first matching rule; headings and bullets drop exactly their marker; a label block is caption and value of `SplitLabel` with `StripStars` applied; a tag is `TagText` of the line, shorter than the line; a skill bar is `SkillBarOf` of the line, whose skill is the first word; paragraphs keep the line |
| GPAIChat.TagText | src/components/GPAIChat.tsx:67 | the tag text is the line's characters other than backticks, in order: a subsequence of the line with no backtick, one character shorter per backtick |
| GPAIChat.LabelOf | src/components/GPAIChat.tsx:51-54 | a label line's caption and value are the `SplitLabel` pieces with double stars removed, and neither holds a pair of stars |
| GPAIChat.SkillBarOf | src/components/GPAIChat.tsx:73-76 | a skill-bar line gives a skill bar whose skill name is the line's first white-space-separated word: it holds no white space, the line starts with it, and white space or the end of the line follows it |
| GPAIChat.AfterMarker | src/components/GPAIChat.tsx:28-46 | the text of a heading or bullet is the line with exactly its marker removed |
| GPAIChat.BlockPerLine | src/components/GPAIChat.tsx:21-24 | the renderer emits exactly one element per line: one more than the number of line feeds |
| GPAIChat.RenderContent | src/components/GPAIChat.tsx:20-99 | `renderContent`: one block per line of the content split at line feeds, each classified on its own |
| GPAIChat.MatchEnd | src/components/GPAIChat.tsx:104 | a match of `\*\*[^*]+\*\*` starts at `i` iff one is found there |
| GPAIChat.NextBold | src/components/GPAIChat.tsx:104 | the search finds the leftmost position at which a match starts |
| GPAIChat.SplitBold | src/components/GPAIChat.tsx:104 | `split` with a capturing group always yields an odd number of pieces |
| GPAIChat.SplitBoldShape | src/components/GPAIChat.tsx:104 | the pieces alternate: the odd-numbered ones are matches, and the even-numbered ones contain no match |
| GPAIChat.SplitBoldJoin | src/components/GPAIChat.tsx:104 | the split loses nothing: the pieces joined give the text |
| GPAIChat.InlineStyles | src/components/GPAIChat.tsx:102-111 | the intended rendering: the odd pieces of the split are the bold matches, shown without their stars; the others are plain |
| GPAIChat.InlineStylesAsWritten | src/components/GPAIChat.tsx:102-111 | the rendering as written: every piece that starts and ends with two stars is shown bold, with its four stars dropped |
| GPAIChat.InlineStylesRoundTrip | src/components/GPAIChat.tsx:102-111 | corrected renderer: putting the stars back around the bold segments gives the input text |
| GPAIChat.AsWrittenOnMatches | src/components/GPAIChat.tsx:105-110 | the renderer as written agrees with the corrected one on every match; they can differ only on the pieces in between |
| GPAIChat.LoneStarsVanish | src/components/GPAIChat.tsx:106-107 | as written, a piece `**` that is not a match is shown as an empty bold span, so the text disappears; the corrected renderer shows `**` |
| GPAIChat.Command | src/components/GPAIChat.tsx:302 | the command typed input stands for: trimmed, then lower-cased |
| GPAIChat.CommandNormal | src/components/GPAIChat.tsx:302 | a command has no white space at its ends and no capital letter, and normalising it again changes nothing |
| GPAIChat.NormalInputKept | src/components/GPAIChat.tsx:302 | input that is already trimmed and lower case is its own command |
| GPAIChat.Lookup | src/components/GPAIChat.tsx:309 | an own key yields its text; any other command yields nothing |
| GPAIChat.FirstLoose | src/components/GPAIChat.tsx:311-313 | `find` returns the first key in declaration order that contains the command, or whose first word the command contains |
| GPAIChat.LooseMatch | src/components/GPAIChat.tsx:311-312 | a key matches loosely iff it contains the command or the command contains the key's first space-separated word |
| GPAIChat.LooseReply | src/components/GPAIChat.tsx:311-315 | the text of the first loosely matching key, or the "not recognized" answer naming the command |
| GPAIChat.NotRecognized | src/components/GPAIChat.tsx:315 | the answer naming an unmatched command and listing the six suggestions |
| GPAIChat.Resolve | src/components/GPAIChat.tsx:309-316 | `handleSubmit`'s answer: the text of the own key equal to the command when that text is not empty, otherwise the loose fallback |
| GPAIChat.ResolveRange | src/components/GPAIChat.tsx:309-316 | every answer is one of the texts or the "not recognized" message for that command |
| GPAIChat.ResolveExact | src/components/GPAIChat.tsx:309-310 | an exact key with a non-empty text wins over any earlier loose match |
| GPAIChat.ResolveFallback | src/components/GPAIChat.tsx:310-316 | for a command that is not a key: the first loosely matching key's text, or "not recognized" when none matches |
| GPAIChat.TableShape | src/components/GPAIChat.tsx:113-120 | six distinct non-empty keys, one suggestion card per key, in the same order |
| GPAIChat.PromptReply | src/components/GPAIChat.tsx:291 | a suggestion card's answer: the text of its key when there is a non-empty one, otherwise "Command not found. Try another prompt." |
| GPAIChat.PromptsAnswered | src/components/GPAIChat.tsx:284-291 | every suggestion card is answered with its own command's text, so "Command not found" never shows |
| GPAIChat.ReadProperty | src/components/GPAIChat.tsx:309 | reading `RESPONSES[command]` yields an inherited member iff the command is not an own key but is an `Object.prototype` member |
| GPAIChat.ResolveAsWritten | src/components/GPAIChat.tsx:309-316 | `handleSubmit`'s answer as written: an own key or an inherited member of a plain object is taken when truthy, and the loose fallback runs otherwise |
| GPAIChat.AsWrittenAgrees | src/components/GPAIChat.tsx:309-316 | away from the inherited names, the lookup as written and the own-key lookup agree |
| GPAIChat.CapitalNames | src/components/GPAIChat.tsx:302 | every inherited name except `constructor` and `__proto__` holds a capital letter |
| GPAIChat.ReachableInherited | src/components/GPAIChat.tsx:302-309 | after lower-casing, the only inherited names a command can hit are `constructor` and `__proto__` |
| GPAIChat.NoLooseMatch | src/components/GPAIChat.tsx:312 | a key does not loosely match a command when a character of the command occurs too early in the key, and a character of the key's first word is missing from the command |
| GPAIChat.WhoamiMissesConstructor | src/components/GPAIChat.tsx:312 | `whoami` does not loosely match `constructor` |
| GPAIChat.ExperienceMissesConstructor | src/components/GPAIChat.tsx:312 | `cat experience.md` does not loosely match `constructor` |
| GPAIChat.ProjectsMissesConstructor | src/components/GPAIChat.tsx:312 | `ls ~/projects` does not loosely match `constructor` |
| GPAIChat.SkillsMissesConstructor | src/components/GPAIChat.tsx:312 | `grep -r "skills"` does not loosely match `constructor` |
| GPAIChat.EducationMissesConstructor | src/components/GPAIChat.tsx:312 | `cat education.txt` does not loosely match `constructor` |
| GPAIChat.ContactMissesConstructor | src/components/GPAIChat.tsx:312 | `curl contact.json` does not loosely match `constructor` |
| GPAIChat.ConstructorNotKey | src/components/GPAIChat.tsx:309 | `constructor` is not an own key |
| GPAIChat.ConstructorUnknown | src/components/GPAIChat.tsx:311-313 | no key loosely matches `constructor` |
| GPAIChat.ConstructorIsNotAString | src/components/GPAIChat.tsx:309-310 | as written, typing `constructor` in any case and with any surrounding space reads the inherited constructor, which is not a string, and passes it on as the answer |
| GPAIChat.ConstructorNotRecognized | src/components/GPAIChat.tsx:309-316 | corrected lookup: the same input is answered with "not recognized" naming the command |
| GPAIChat.Revealed | src/components/GPAIChat.tsx:263 | `response.slice(0, k)` is the prefix of length `min(k, n)` |
| GPAIChat.RevealedGrows | src/components/GPAIChat.tsx:256-266 | more ticks never show less: each shown text is a prefix of every later one |
| GPAIChat.TypingTicks | src/components/GPAIChat.tsx:256-281 | the interval fires at least once and stops at the first tick whose count `5t` reaches the length |
| GPAIChat.Chat.constructor | src/components/GPAIChat.tsx:235-237 | no messages, an empty field, not typing |
| GPAIChat.Chat.Edit | src/components/GPAIChat.tsx:236 | the field takes the typed value; nothing else changes |
| GPAIChat.Chat.Submit | src/components/GPAIChat.tsx:298-316 | blank input or input while typing is ignored; otherwise the field is cleared, `$ command` is appended as the user's message, and the answer is `Resolve` of the command: the own-key lookup, which differs from the source's lookup for `constructor` and `__proto__` (see Findings) |
| GPAIChat.Chat.PromptClick | src/components/GPAIChat.tsx:284-291 | ignored while typing; otherwise `$ command` is appended and the card's answer is returned |
| GPAIChat.Chat.TypeResponse | src/components/GPAIChat.tsx:248-282 | exactly one assistant message with the full response is appended, typing is off, the input is unchanged, and the loop has run `TypingTicks(n)` times; that the last message shows the first `5k` characters while typing after `k` ticks is the loop's invariant, not part of the contract |
| GPAIChat.TicksAt | src/components/GPAIChat.tsx:268 | the first tick whose count reaches the length is the tick count |
| Blog.MatchesCategory | src/app/blog/page.tsx:92 | a post matches when "All" is selected or its category is the selected one |
| Blog.MatchesSearch | src/app/blog/page.tsx:93-94 | a post matches when its lower-cased title or excerpt contains the lower-cased query |
| Blog.Shown | src/app/blog/page.tsx:91-96 | a post is listed iff it matches both the category and the query |
| Blog.ClickCategory | src/app/blog/page.tsx:142-145 | a category button selects its own category, one of the five, and keeps the query; afterwards a post matches the category iff the button is "All" or the post has that category |
| Blog.TypeQuery | src/app/blog/page.tsx:134-135 | typing sets the query and keeps the category |
| Blog.Replay | src/app/blog/page.tsx:88-145 | the selection after a run of button clicks and search edits from the initial one; its query is the last one typed |
| Blog.ReachableCategory | src/app/blog/page.tsx:142-145 | every selection the page can reach has one of the five button categories selected |
| Blog.ClickedCategoryListed | src/app/blog/page.tsx:91-96 | after a click on a button, a post is listed iff it matches the query and, unless the button is "All", has the button's category |
| Blog.FilteredPosts | src/app/blog/page.tsx:91-96 | a post is listed iff its category matches ('All' matches every post) and its lower-cased title or excerpt contains the lower-cased query; the list keeps the original order |
| Blog.FeaturedPosts | src/app/blog/page.tsx:98 | the featured posts are exactly the listed posts marked featured |
| Blog.RegularPosts | src/app/blog/page.tsx:99 | the regular posts are exactly the listed posts not marked featured |
| Blog.EmptyQueryMatches | src/app/blog/page.tsx:93-94 | an empty query matches every post |
| Blog.InitialShowsAll | src/app/blog/page.tsx:88-96 | with 'All' selected and an empty query, every post is listed, in order |
| Blog.FeaturedRegularPartition | src/app/blog/page.tsx:98-99 | the featured and regular posts are disjoint, together are exactly the listed posts (as a multiset), and each keeps the listed order |
| Blog.NoArticlesIff | src/app/blog/page.tsx:280 | "No articles found" shows iff no post matches both the category and the query |
| Blog.ShowsFeaturedSection | src/app/blog/page.tsx:159 | the featured section is drawn when the featured list is not empty |
| Blog.ShowsFeaturedSectionIff | src/app/blog/page.tsx:159 | the featured section is drawn iff some post is listed and featured |
| Blog.ShowsNoArticles | src/app/blog/page.tsx:280 | the "No articles found" message is drawn when the filtered list is empty |
| Home.Target | src/app/page.tsx:14-24 | the view each handler sets: warping on the black-hole click, portfolio when the warp completes, home on the back button |
| Home.Render | src/app/page.tsx:29-48 | each view renders exactly one screen: BlackHoleHero for home, WarpTransition for warping, Portfolio for portfolio; the click callback is wired only at home |
| Home.Advance | src/app/page.tsx:14-48 | the view after the drawn screen calls its callback; it always differs from the current view |
| Home.AdvanceCycles | src/app/page.tsx:14-24 | following each screen's callback from home cycles home, warping, portfolio, home, and so on |
| Home.Page.constructor | src/app/page.tsx:12 | the initial view is home |
| Home.Page.HandleEnterClick | src/app/page.tsx:14-16 | the view becomes warping |
| Home.Page.HandleWarpComplete | src/app/page.tsx:18-20 | the view becomes portfolio |
| Home.Page.HandleBackToHome | src/app/page.tsx:22-24 | the view becomes home |
| Home.Page.Callback | src/app/page.tsx:29-48 | firing the rendered screen's callback moves the view one step along the cycle |

## Left out

- **Canvas drawing.** All drawing is left out: opacity, twinkle, star sizes,
  gradients, the accretion disk and its particles, lensing, the dashed and
  bright line styling, the label overlay and the custom cursor (`cursorPos`).
  None of it feeds back into the modelled state.
- **Connection drawing.** This is stated as which connections are drawn
  (`LinkStyle`, `LinkDrawn`), not how they are drawn.
- **Randomness.** Background positions, sizes and phases come from
  `Math.random`. Positions are inputs (`background`, `draws`). The other draws
  are not modelled.
- **BlackHoleHero.SampleBackground.** This requires the supplied draws to
  reach a point outside the exclusion box. The source's do-while retries
  without bound, so a run of draws that never leaves the box (probability
  zero) is not modelled.
- **Time and scheduling.**
  - `Date.now` is the `now` argument.
  - `requestAnimationFrame`, `setInterval` and `setTimeout` are left out;
    each firing is one method call.
  - Listener registration and removal are left out.
  - React's deferred state updates are applied at once.
- **Floating point.**
  - Positions are hundredths of a pixel, exact for the table stars. The
    background draws are taken as given points.
  - The label centre is the exact rational mean.
  - Glow is exact in thousandths.
  - The black-hole radius `0.08 · min(w, h)` is exact in hundredths of a
    pixel for whole-pixel canvas sizes.
- **Touch.** `handleTouchMove` is the same update as `PointerMove`, and
  `touchend` the same as `PointerLeave`.
- **Typewriter.Machine.Tick.** The source switches to deleting in a nested
  `setTimeout(pauseDuration)` that its cleanup does not cancel. The model makes
  the switch part of the tick and returns the pause as `pause`.
- **Typewriter.Machine.constructor.** This requires a non-empty list. With an
  empty list the source reads the length of `undefined` and throws.
- **The chat's six answer texts.** These are a parameter (`texts`), assumed
  non-empty and in key order. The prose is not part of this model.
- **The blog posts' contents** (`BLOG_POSTS`). These are a parameter of
  every blog member.
- **The chat's 400 ms pause before typing.** This is not modelled.
  - `Submit` and `PromptClick` return the answer.
  - `TypeResponse` types it.
  - Because the typing flag is only raised inside `typeResponse`, a second
    submit during the pause is accepted in the source. Interleavings of that
    kind are the caller's and are not modelled.
- **The 8 ms typing interval.** It is one loop iteration per tick.
  Scrolling and `onExit` are left out.
- **GPAIChat.Command.** `toLowerCase` is modelled on ASCII `A`–`Z` only.
  Other cased letters are left as they are.
- **JsString.ToLower.** This is the ASCII-only `toLowerCase` used by both
  `GPAIChat.Command` and the blog search; non-ASCII capitals are kept.
- **Blog.FilteredPosts.** The case-insensitive search lower-cases with
  `JsString.ToLower`, so it ignores case for ASCII letters only.
- **GPAIChat.Chat.Submit.** It answers with the corrected own-key lookup
  (`Resolve`), not the source's lookup through `Object.prototype`. For
  `constructor` and `__proto__` it gives the "not recognized" reply where the
  source hands an inherited value on. The lookup as written is
  `GPAIChat.ResolveAsWritten`; the first Findings row states the difference.
- **JsString.** Strings are sequences of Unicode scalar values, not UTF-16
  code units. `slice` and `length` therefore differ from the source for
  characters outside the Basic Multilingual Plane.
- **GPAIChat.SkillBarOf.** The lines are split by `JsString.Words`. The
  contract pins the skill name to the line's first word, but it does not
  state how the bar text is rebuilt from the remaining words.
- **GPAIChat.ClassifyLine.** For a skill-bar line the contract states that the
  block is `SkillBarOf(line)`. It therefore shares that member's gap: the bar
  text is not stated.

## Findings

| source | as written | input that shows it | evidently intended | confidence | as-written member | corrected member |
|---|---|---|---|---|---|---|
| src/components/GPAIChat.tsx:309-310 | `RESPONSES[command]` on a plain object also reads members inherited from `Object.prototype`; these are truthy, so the fallback is skipped | typing `constructor` (or `Constructor`, or ` constructor `) hands the `Object` function to `typeResponse` instead of a string | commands that are not own keys get the loose match and then "not recognized" | not executed | GPAIChat.ConstructorIsNotAString | GPAIChat.ConstructorNotRecognized |
| src/components/GPAIChat.tsx:104-108 | every piece that starts and ends with `**` is shown bold, including pieces that are not matches of the bold pattern | the text `**` splits into the single piece `**`, which is shown as an empty bold span, so both stars vanish | only matches of `\*\*[^*]+\*\*` are shown bold; other text is shown as written | not executed | GPAIChat.LoneStarsVanish | GPAIChat.InlineStylesRoundTrip |
