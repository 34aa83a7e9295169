# Portfolio site core, modelled in Dafny

The site is a single-page React portfolio. Its behavioural core is:

- two constant data tables with lookup queries: projects (`getProjectById`, `getFeaturedProjects`, `getProjectsByCategory`) and services (`getServiceById`);
- a screenshot carousel (`PhoneGallery`) with a cyclic active index;
- an eased custom cursor sprite (`CustomCursor`), driven by mouse events and a per-frame animation loop that goes idle once everything has settled;
- scroll-driven animation hooks and components (`useScrollAnimation`, `useParallax`, `useScrollProgress`, `AnimatedText`, `StaggerItem`, `ScrollReveal`, `AnimatedCounter`);
- the page-wide cinematic scroll effects (`initRevealAnimations`, parallax, scale-on-scroll, horizontal scroll, text reveal, progress indicator, and the `ticking` frame throttle they share), started once by `useCinematicScroll`.

The model has one Dafny module per source file. The data modules are pure functions over the tables. The components and hooks that keep state are classes:

- each class has the source's fields;
- each method states its whole new state: the frame and timer handlers through a pure step function (`Frame`, `Observe`, `ThrottleStep`, `HookStep`, `CounterEffect`, `CounterFrame`, `NextIndex`/`PrevIndex`); the cursor's event handlers, `Gallery.SelectDot` and the `RevealObserver` methods field by field, with the invariant they keep;
- lemmas about runs of those step functions prove what the component promises over time.

Helper modules:

- `Wrappers` holds `Option`.
- `Sequences` holds JavaScript's `find` and `filter`.
- `Text` holds `split(' ')`, `split('')`, `join(' ')` and decimal rendering of indices.
- `JsNumber` holds JavaScript numbers as finite reals, the two infinities and NaN, with division by zero and the NaN-propagating `Math.min`/`Math.max`.

Files: `wrappers.dfy`, `sequences.dfy`, `text.dfy`, `js_number.dfy`, `projects.dfy`, `services.dfy`, `phone_gallery.dfy`, `custom_cursor.dfy`, `scroll_animation.dfy`, `cinematic_scroll.dfy`.

## Model

| member | source | states |
|---|---|---|
| Sequences.Find | src/data/projects.js:110 | `find`: `None` exactly when no element satisfies the predicate; otherwise the first element that does |
| Sequences.Filter | src/data/projects.js:114 | `filter`: every kept element passes, and the result is never longer than the input |
| Sequences.FilterCounts | src/data/projects.js:114 | `filter` keeps exactly the passing elements, each as often as it occurs in the input |
| Sequences.FilterIsSubsequence | src/data/projects.js:114 | `filter` keeps the original order (its result is a subsequence of the input) |
| Sequences.FilterAllPass | src/data/projects.js:119 | filtering a list whose every element passes returns the list unchanged |
| Sequences.FilterNonePass | src/data/projects.js:119 | filtering a list whose no element passes returns the empty list |
| Sequences.FilterIdempotent | src/data/projects.js:119 | filtering twice by the same predicate equals filtering once |
| Projects.FindById | src/data/projects.js:109-111 | lookup by id: `None` iff no project has that id; a found project has the id and is the first with it |
| Projects.Featured | src/data/projects.js:113-115 | featured projects: only featured ones, each featured project with its multiplicity, in table order |
| Projects.ByCategory | src/data/projects.js:117-120 | a falsy or `'all'` category returns the whole table; any other category returns exactly that category's projects, in table order |
| Projects.IdsDistinct | src/data/projects.js:2-107 | the three project ids are pairwise distinct |
| Projects.LookupUnambiguous | src/data/projects.js:109-111 | every listed project is found by its own id |
| Projects.ByCategoryIdempotent | src/data/projects.js:117-120 | filtering a category result again by that category changes nothing |
| Projects.AllMobile | src/data/projects.js:2-107 | every project in the table has category `'mobile'` |
| Projects.NoWebProjects | src/data/projects.js:117-120 | the `'web'` category yields no projects |
| Projects.NoAiProjects | src/data/projects.js:117-120 | the `'ai'` category yields no projects |
| Projects.MobileIsEverything | src/data/projects.js:117-120 | the `'mobile'` category yields the whole table |
| Services.FindById | src/data/services.js:47-49 | lookup by id: `None` iff no service has that id; a found service has the id and is the first with it |
| Services.TableShape | src/data/services.js:2-45 | six services with pairwise distinct ids |
| Services.LookupListed | src/data/services.js:47-49 | every listed service is found by its own id |
| Services.AiMlLookup | src/data/services.js:47-49 | `'ai-ml'` finds the third service |
| PhoneGallery.NextIndex | src/components/PhoneGallery.jsx:13-15 | next: stays in range and equals `(i + 1) % n` (the last index wraps to 0) |
| PhoneGallery.PrevIndex | src/components/PhoneGallery.jsx:9-11 | previous: stays in range and equals `(i + n - 1) % n` (0 wraps to the last index) |
| PhoneGallery.PrevNextInverse | src/components/PhoneGallery.jsx:9-15 | previous then next, and next then previous, return to the same index |
| PhoneGallery.NextTimes | src/components/PhoneGallery.jsx:13-15 | any number of next presses keeps the index in range |
| PhoneGallery.NextTimesIsModular | src/components/PhoneGallery.jsx:13-15 | `k` next presses move the index to `(i + k) % n` |
| PhoneGallery.FullTurn | src/components/PhoneGallery.jsx:13-15 | `n` next presses bring the index back to where it started |
| PhoneGallery.BackgroundIndices | src/components/PhoneGallery.jsx:24-33 | `min(3, n)` background devices; device `i` shows the screenshot `i + 1` presses of next ahead |
| PhoneGallery.Gallery.constructor | src/components/PhoneGallery.jsx:5-7 | a mounted gallery has a non-empty list and starts at index 0 |
| PhoneGallery.Gallery.HandlePrev | src/components/PhoneGallery.jsx:9-11 | the previous button applies `PrevIndex` and keeps the index valid |
| PhoneGallery.Gallery.HandleNext | src/components/PhoneGallery.jsx:13-15 | the next button applies `NextIndex` and keeps the index valid |
| PhoneGallery.Gallery.SelectDot | src/components/PhoneGallery.jsx:119-124 | a dot (one per screenshot) sets the index to its own position |
| PhoneGallery.Gallery.Shown | src/components/PhoneGallery.jsx:57-60 | the main device shows one of the gallery's screenshots |
| PhoneGallery.Gallery.Background | src/components/PhoneGallery.jsx:23-35 | the background devices show the next screenshots cyclically after the active one |
| PhoneGallery.Mount | src/components/PhoneGallery.jsx:4-7 | nothing is rendered iff the list is absent or empty; otherwise a valid gallery at index 0 |
| Text.Split | src/hooks/useScrollAnimation.jsx:107 | `split(' ')`: at least one piece, and no piece contains the separator |
| Text.SplitCount | src/hooks/useScrollAnimation.jsx:107 | a split has exactly one more piece than the text has separators |
| Text.JoinSplit | src/utils/cinematicScroll.js:153-156 | joining the pieces of a split with the same separator gives the text back |
| Text.SplitJoin | src/utils/cinematicScroll.js:153-156 | splitting a join of separator-free pieces gives the pieces back |
| Text.Chars | src/hooks/useScrollAnimation.jsx:107 | `split('')`: one single-character piece per character, in order |
| Text.ConcatChars | src/hooks/useScrollAnimation.jsx:144 | concatenating the characters gives the text back |
| Text.Decimal | src/utils/cinematicScroll.js:155 | a word index renders as decimal digits with no leading zero |
| Text.DecimalRoundTrip | src/utils/cinematicScroll.js:155 | the rendered index reads back as the same number |
| JsNumber.Div | src/utils/cinematicScroll.js:131 | division: finite for a non-zero divisor; `±Infinity` or NaN (for `0/0`) for a zero divisor |
| JsNumber.Max | src/utils/cinematicScroll.js:131 | `Math.max`: NaN iff either argument is NaN, otherwise the larger argument |
| JsNumber.Min | src/utils/cinematicScroll.js:131 | `Math.min`: NaN iff either argument is NaN, otherwise the smaller argument |
| JsNumber.Clamp01 | src/hooks/useScrollAnimation.jsx:82 | `min(max(x, 0), 1)`: NaN stays NaN, otherwise a finite value in `[0, 1]`; in-range values are kept, infinities clamp to an end |
| JsNumber.ClampOrder | src/utils/cinematicScroll.js:131 | `max(0, min(1, x))` equals `min(max(x, 0), 1)` for every number, NaN and infinities included |
| JsNumber.Affine | src/utils/cinematicScroll.js:99-100 | `c + x * k`: exact for finite `x`; NaN for NaN, and for an infinity times 0 |
| CustomCursor.Lerp | src/components/CustomCursor.jsx:115-121 | one easing step leaves the remaining gap scaled by `1 - f` |
| CustomCursor.LerpApproaches | src/components/CustomCursor.jsx:115-121 | an easing step keeps the gap's sign, never widens it, and strictly shrinks a non-zero gap |
| CustomCursor.Frame | src/components/CustomCursor.jsx:80-129 | one animation frame: mouse position, visibility and targets untouched; unsettled values eased at 0.25/0.15; settled and awake snaps exactly onto the targets and goes idle; idle and settled changes nothing; keeps "idle implies at rest" |
| CustomCursor.IdleFramesIdempotent | src/components/CustomCursor.jsx:95-111 | once idle, any number of frames leaves the state unchanged |
| CustomCursor.FrameShrinks | src/components/CustomCursor.jsx:114-121 | a frame never widens any gap, and removes at least a fixed step from a gap not yet within its epsilon |
| CustomCursor.FramesConsistent | src/components/CustomCursor.jsx:80-129 | any number of quiet frames keeps "idle implies at rest" |
| CustomCursor.GapsDecay | src/components/CustomCursor.jsx:114-121 | after `k` frames each gap is within its epsilon, or smaller by at least `k` fixed steps |
| CustomCursor.SettledAfter | src/components/CustomCursor.jsx:92-93 | after enough frames each gap is within its epsilon |
| CustomCursor.EventuallyIdle | src/components/CustomCursor.jsx:90-111 | with no further events the cursor reaches the idle state exactly on its targets after finitely many frames |
| CustomCursor.WritesStop | src/components/CustomCursor.jsx:95-111 | with no further events the loop stops writing the transform after finitely many frames, for good |
| CustomCursor.Cursor.constructor | src/components/CustomCursor.jsx:5-27 | mounting starts with the touch flag set, off-screen positions, neutral scale and rotation, hidden and awake |
| CustomCursor.Cursor.CheckTouch | src/components/CustomCursor.jsx:8-16 | the touch check sets the flag to the device's touch capability and changes nothing else |
| CustomCursor.Cursor.OnMouseMove | src/components/CustomCursor.jsx:32-39 | a move records the mouse position, wakes the cursor and shows it; on a touch device nothing changes |
| CustomCursor.Cursor.OnMouseDown | src/components/CustomCursor.jsx:41-45 | a press targets scale 0.8 and rotation -12 and wakes the cursor |
| CustomCursor.Cursor.OnMouseUp | src/components/CustomCursor.jsx:47-51 | a release targets scale 1 and rotation 0 and wakes the cursor |
| CustomCursor.Cursor.OnMouseLeave | src/components/CustomCursor.jsx:53-56 | leaving the page hides the sprite and changes nothing else |
| CustomCursor.Cursor.OnMouseEnter | src/components/CustomCursor.jsx:58-61 | entering the page shows the sprite and changes nothing else |
| CustomCursor.Cursor.Animate | src/components/CustomCursor.jsx:80-129 | the imperative frame computes `Frame`, and writes the transform exactly when not settled-and-idle |
| ScrollAnimation.Observe | src/hooks/useScrollAnimation.jsx:19-37 | an intersecting entry schedules one reveal (and with `once` stops observing); a leaving entry hides only without `once`; a due timer shows; with `once` a visible element stays visible |
| ScrollAnimation.OnceNeverReverts | src/hooks/useScrollAnimation.jsx:25-27 | with `once`, visibility never reverts whatever entries, timers and cleanups follow |
| ScrollAnimation.OnceSchedulesAtMostOne | src/hooks/useScrollAnimation.jsx:25-27 | with `once`, at most one reveal timer is ever scheduled |
| ScrollAnimation.StaleRevealAfterExit | src/hooks/useScrollAnimation.jsx:25-30 | without `once`, a reveal timer set before the element left still fires and leaves it visible while out of view |
| ScrollAnimation.ScrollAnimationHook.constructor | src/hooks/useScrollAnimation.jsx:7-17 | the hook starts hidden, observing, with nothing scheduled |
| ScrollAnimation.ScrollAnimationHook.OnEntry | src/hooks/useScrollAnimation.jsx:24-31 | the observer callback follows `Observe` for an entry |
| ScrollAnimation.ScrollAnimationHook.OnRevealTimer | src/hooks/useScrollAnimation.jsx:26 | a scheduled reveal follows `Observe` for a timer |
| ScrollAnimation.ScrollAnimationHook.OnDisconnect | src/hooks/useScrollAnimation.jsx:36 | the cleanup stops observation |
| ScrollAnimation.ParallaxOffset | src/hooks/useScrollAnimation.jsx:52-54 | the offset is 0 when the element's top is at the viewport bottom and non-negative once it has entered (for a non-negative speed) |
| ScrollAnimation.ParallaxTracksScroll | src/hooks/useScrollAnimation.jsx:52-54 | scrolling by `d` pixels moves the offset by `d * speed` |
| ScrollAnimation.ScrollProgress | src/hooks/useScrollAnimation.jsx:75-82 | the progress is NaN exactly for `0/0` and otherwise finite in `[0, 1]`; 0 before the element enters and 1 once it has left at the top |
| ScrollAnimation.ScrollProgressMonotone | src/hooks/useScrollAnimation.jsx:79-82 | the progress never decreases as the element moves up |
| ScrollAnimation.TextItems | src/hooks/useScrollAnimation.jsx:107 | words: one more item than spaces, re-joined with spaces they give the text; characters: one item per character, concatenated they give the text |
| ScrollAnimation.RenderedWords | src/hooks/useScrollAnimation.jsx:139-146 | the rendered words read as the text followed by one space |
| ScrollAnimation.RenderedChars | src/hooks/useScrollAnimation.jsx:139-146 | the rendered characters read as the text |
| ScrollAnimation.StaggerDelay | src/hooks/useScrollAnimation.jsx:110 | the first item has no delay and no delay is negative for a non-negative step |
| ScrollAnimation.StaggerOrdered | src/hooks/useScrollAnimation.jsx:181 | a later item never starts earlier |
| ScrollAnimation.TextItemStyle | src/hooks/useScrollAnimation.jsx:109-135 | opacity is 1 exactly when visible; the delay is the item's stagger; hidden items take their animation's transform (unknown names as `fadeUp`), never the visible one |
| ScrollAnimation.StaggerItemStyle | src/hooks/useScrollAnimation.jsx:179-206 | a stagger item: opacity 1 exactly when visible, delay `index * delay`, hidden transform from the stagger table (with `rotate` and 40px distances, `fadeUp` as fallback) and never the visible one |
| ScrollAnimation.RevealClassName | src/hooks/useScrollAnimation.jsx:240-244 | the class list starts with the base classes and has the `is-visible` suffix exactly when visible |
| ScrollAnimation.ScrollRevealOptions | src/hooks/useScrollAnimation.jsx:238 | `ScrollReveal` leaves `once` on and passes a delay that is its own in seconds, in milliseconds, non-negative for a non-negative delay |
| ScrollAnimation.ScrollRevealStaysVisible | src/hooks/useScrollAnimation.jsx:231-244 | a revealed `ScrollReveal` stays revealed over any later entries, timers and disconnects |
| ScrollAnimation.ScrollRevealSchedulesAtMostOne | src/hooks/useScrollAnimation.jsx:231-244 | a mounted `ScrollReveal` schedules at most one reveal timer over any sequence of signals |
| ScrollAnimation.EaseOut | src/hooks/useScrollAnimation.jsx:279 | the ease-out curve maps `[0, 1]` into `[0, 1]` with 0 at the start and 1 at the end |
| ScrollAnimation.EaseOutMonotone | src/hooks/useScrollAnimation.jsx:279 | the ease-out curve never goes back |
| ScrollAnimation.CounterProgress | src/hooks/useScrollAnimation.jsx:276 | progress is at most 1, non-negative for non-negative elapsed time, and 1 exactly once the duration has passed |
| ScrollAnimation.CounterValue | src/hooks/useScrollAnimation.jsx:274-281 | the shown value lies in `[0, end]`, is 0 at the start and `end` once the duration has passed |
| ScrollAnimation.CounterMonotone | src/hooks/useScrollAnimation.jsx:274-281 | for a non-negative target the shown value never decreases over time |
| ScrollAnimation.CounterEffect | src/hooks/useScrollAnimation.jsx:268-290 | the effect starts the animation only when visible and not yet animated, and otherwise changes nothing |
| ScrollAnimation.CounterFrame | src/hooks/useScrollAnimation.jsx:274-287 | a frame shows `CounterValue` for the elapsed time and requests another frame exactly while the duration has not passed |
| ScrollAnimation.CounterStartsOnce | src/hooks/useScrollAnimation.jsx:266-270 | however often the effect re-runs, the count-up starts at most once |
| ScrollAnimation.CounterFinishes | src/hooks/useScrollAnimation.jsx:284-286 | a frame at or after the full duration shows `end` and requests no more frames |
| ScrollAnimation.AnimatedCounter.constructor | src/hooks/useScrollAnimation.jsx:263-266 | the counter starts at 0, not animated, with no frame requested |
| ScrollAnimation.AnimatedCounter.RunEffect | src/hooks/useScrollAnimation.jsx:268-291 | the effect follows `CounterEffect` |
| ScrollAnimation.AnimatedCounter.Animate | src/hooks/useScrollAnimation.jsx:274-287 | the frame callback follows `CounterFrame` |
| CinematicScroll.RevealDelayMs | src/utils/cinematicScroll.js:31-37 | a missing delay is 0; a given one is converted from seconds to milliseconds |
| CinematicScroll.RevealDirection | src/utils/cinematicScroll.js:32 | the direction is the attribute when non-empty, `'up'` otherwise; never empty |
| CinematicScroll.Scheduled | src/utils/cinematicScroll.js:28-40 | every intersecting entry of a batch schedules its reveal, no leaving entry does, and each reveal carries its element's own delay and direction |
| CinematicScroll.ScheduledInEntryOrder | src/utils/cinematicScroll.js:28-37 | the schedule is exactly the intersecting entries, in entry order, each mapped to its reveal: one reveal per intersecting entry and no other |
| CinematicScroll.RevealObserver.constructor | src/utils/cinematicScroll.js:46 | every `[data-reveal]` element starts observed, with nothing scheduled or revealed |
| CinematicScroll.RevealObserver.OnEntries | src/utils/cinematicScroll.js:27-41 | a batch unobserves exactly its intersecting targets and schedules their reveals in entry order; the invariant (reveals only for unobserved elements, with their own delay and direction) is kept |
| CinematicScroll.RevealObserver.FireTimer | src/utils/cinematicScroll.js:34-37 | a due timer marks its element revealed with its direction and removes only that timer |
| CinematicScroll.RevealIdempotent | src/utils/cinematicScroll.js:35-36 | revealing an already revealed element again changes nothing |
| CinematicScroll.ThrottleStep | src/utils/cinematicScroll.js:68-76 | a scroll sets `ticking` and requests a frame only if none is pending; a frame runs one update and clears `ticking` |
| CinematicScroll.ThrottleKeepsCoalescing | src/utils/cinematicScroll.js:71-76 | over any interleaving, `ticking` holds exactly while one frame is pending, never more than one frame is pending, and updates plus pending frames never exceed the scroll events plus the direct set-up update |
| CinematicScroll.ScrollLeavesFrame | src/utils/cinematicScroll.js:71-76 | after any scroll event a frame is pending, so no scroll goes without a later update |
| CinematicScroll.FrameThrottle.constructor | src/utils/cinematicScroll.js:55-78 | set-up starts not ticking, counting the one direct update the parallax, scale and hook handlers run |
| CinematicScroll.FrameThrottle.OnScroll | src/utils/cinematicScroll.js:71-76 | the scroll listener follows `ThrottleStep` |
| CinematicScroll.FrameThrottle.OnFrame | src/utils/cinematicScroll.js:57-69 | the frame callback follows `ThrottleStep` |
| CinematicScroll.ParallaxSpeed | src/utils/cinematicScroll.js:60 | a NaN or zero parsed speed falls back to 0.5; any other parsed speed is kept |
| CinematicScroll.CentreOffset | src/utils/cinematicScroll.js:253-256 | the offset is 0 for an element whose top is at the viewport centre, and negative exactly above it (positive speed) |
| CinematicScroll.CentreOffsetTracksScroll | src/utils/cinematicScroll.js:255 | scrolling by `d` pixels moves the offset by `d * speed` |
| CinematicScroll.ParallaxShift | src/utils/cinematicScroll.js:57-67 | a transform is written iff the element overlaps the viewport, and it is the centre offset for the element's speed |
| CinematicScroll.Nearness | src/utils/cinematicScroll.js:91-99 | closeness is in `[0, 1]`, is 1 exactly when the element is centred and 0 at half a viewport or more away |
| CinematicScroll.Ramp | src/utils/cinematicScroll.js:99-100 | `c + n * k` maps closeness `[0, 1]` onto `[c, c + k]`, reaching the top only at closeness 1 |
| CinematicScroll.ScaleOnScroll | src/utils/cinematicScroll.js:89-104 | scale in `[0.9, 1]` and opacity in `[0.5, 1]`, both maximal exactly when centred and minimal from half a viewport away; for a zero-height viewport, NaN at the centre and minimal elsewhere |
| CinematicScroll.HorizontalProgress | src/utils/cinematicScroll.js:129-131 | equals the clamped quotient, is NaN only for `0/0`, 0 before the section reaches the top and 1 once scrolled through |
| CinematicScroll.HorizontalShift | src/utils/cinematicScroll.js:132-134 | the content shift lies in `[-maxScroll, 0]`, is 0 at progress 0 and `-maxScroll` at progress 1 |
| CinematicScroll.HorizontalProgressMonotone | src/utils/cinematicScroll.js:131 | scrolling further down never lowers the progress |
| CinematicScroll.HorizontalShiftMonotone | src/utils/cinematicScroll.js:128-134 | scrolling further down never moves the content back |
| CinematicScroll.ProgressPercent | src/utils/cinematicScroll.js:181-184 | within the scrollable range the percentage is in `[0, 100]`, 0 at the top and 100 at the bottom; a page that cannot scroll gives NaN at 0 and `Infinity` beyond |
| CinematicScroll.WrapWord | src/utils/cinematicScroll.js:154-155 | a word's markup starts with its numbered opening tag and adds only the two tags to the word |
| CinematicScroll.WrapAll | src/utils/cinematicScroll.js:154-156 | one span per word, the `i`-th numbered `i` |
| CinematicScroll.UnwrapWrap | src/utils/cinematicScroll.js:155 | stripping a word's tags gives the word back |
| CinematicScroll.TextRevealRoundTrip | src/utils/cinematicScroll.js:151-157 | the markup has one span per space-separated word, and stripping the spans and re-joining with spaces gives the text back |
| CinematicScroll.WordIndexReadsBack | src/utils/cinematicScroll.js:155 | the number inside a word's opening tag reads back as its position |
| CinematicScroll.HookStep | src/utils/cinematicScroll.js:197-211 | the effect schedules set-up only while not initialised; cleanup cancels the timer; the timer sets up once and marks initialised; an initialised hook never changes |
| CinematicScroll.InitializesAtMostOnce | src/utils/cinematicScroll.js:200-206 | however the effect and its cleanup repeat, a mounted hook sets up the effects at most once |
| CinematicScroll.CinematicScrollHook.constructor | src/utils/cinematicScroll.js:198 | the hook starts not initialised, with no timer |
| CinematicScroll.CinematicScrollHook.RunEffect | src/utils/cinematicScroll.js:200-209 | the effect follows `HookStep` |
| CinematicScroll.CinematicScrollHook.RunCleanup | src/utils/cinematicScroll.js:208 | the cleanup follows `HookStep` |
| CinematicScroll.CinematicScrollHook.OnTimer | src/utils/cinematicScroll.js:203-206 | the timer follows `HookStep` |

## Left out

- Pages, routing, navbar, footer, `StarfieldBackground` and the contact form are not part of this model.
- DOM effects are outside the model: style writes, class-list changes, style injection, listener registration and removal, and `cancelAnimationFrame`. Each handler's effect is its new state or its returned value.
- Observer thresholds and root margins are not modelled: intersection entries arrive as inputs. Timer and frame scheduling is an interleaving of signals, with no clock.
- Numbers are exact reals with the two infinities and NaN. IEEE rounding, signed zero and number-to-string formatting in CSS values are not modelled.
- `CustomCursor.Cursor.CheckTouch`: the touch capability arrives as a parameter, not read from `window` and `navigator`.
- `ScrollAnimation.CounterValue`: requires a positive duration. A zero duration is not modelled: a first frame at elapsed 0 computes `0 / 0`, shows NaN and stops (`NaN < 1` is false), and a later first frame shows the end value and stops. `end` is the already-parsed integer; a `parseInt` NaN is not modelled.
- `CinematicScroll.RevealDelayMs`: takes the delay attribute as an already-parsed number. A non-numeric attribute (NaN, which `setTimeout` treats as 0) is not modelled.
- `useRevealOnScroll` (src/utils/cinematicScroll.js:214-242) follows the same one-shot pattern as `RevealObserver` for a single element. It is not modelled separately.
- The text-reveal observer (src/utils/cinematicScroll.js:159-171) adds a class once and unobserves, with no delay. It is not modelled separately.
- `StaggerContainer` gives each array child `StaggerItemStyle` with its index and renders a non-array child as is. Only the item style is modelled.
- `ScrollProgressIndicator` (src/hooks/useScrollAnimation.jsx:306-310) uses the same formula as `CinematicScroll.ProgressPercent`.
- The `scrollProgress` value returned by `useScrollAnimation` is never updated in the source (it stays 0), so it is not modelled.
- `PhoneGallery`: the laptop-versus-phone frame choice and the floating devices' animation delays are presentation only. The screenshot list is fixed for the lifetime of a mounted gallery.
- `CinematicScroll.HookStep`: one pending set-up timer at most. React runs an effect's cleanup before running the effect again, so a second effect run without a cleanup in between is not modelled; such a run would leave two timers, and the timer callback does not re-check `initialized`.
- `CinematicScroll.RevealMarkup`: the markup is a string. How the browser parses it is not modelled: a word containing `<` or `&` becomes markup rather than text, so `CinematicScroll.TextRevealRoundTrip` speaks for text free of those characters only.
- `Text.Chars`: a Dafny `char` is a Unicode scalar value, while `split('')` splits UTF-16 code units. A character outside the Basic Multilingual Plane, such as an emoji, is one item here and two in the browser.
- `CinematicScroll.InitializesAtMostOnce`: holds per mounted hook. The `initialized` ref is per component instance, so a remounted component sets the effects up again.
- Each cinematic update runs its per-element formula over every matching element. The model states the formula for one element.
