# Verified models of the web front end

A Dafny model of the parts of the bundled front-end code that carry algorithms
and long-lived state, with proofs of what they promise. Numbers are exact reals
or integers, and the document is a tree of records. Code that changes objects in
place is modelled by classes with the same fields, whose methods are proved
against functions of the old state; the lemmas are about those functions.

| module | what it models |
|---|---|
| `Spline` | the natural cubic spline behind spline series: in-place elimination, back substitution, interval search, sampling |
| `Axis` | the axis scaler: data extremes, tick interval, tick positions, several axes in step, translation to pixels |
| `Stacks` | stacked series, plain and in percent |
| `Tooltip` | segments between null values, and the table from pixels to nearest points |
| `TreeWalk` | walks through a slide's subtree in and against document order, plain and filtered |
| `Slidy` | the slide show as a state machine over those walks |
| `WrapSlides` | the rewriting of a flat document into slides |
| `Scheduler` | the animation scheduler with its shared interval and its callbacks that start further animations |
| `HiddenBy` | the count of expanders hiding an element, kept as a string in an attribute |
| `Fit` | fitting an image into the viewport while keeping its ratio |
| `Canvas` | the transformation state of the emulated canvas with its cached line scale |
| `Wrappers`, `Reals` | optional values, and real arithmetic shared by the numeric modules |

Where the model starts:

- A position in the show is a slide number and a number of revealed items.
  `Showing` says that exactly that slide is displayed, that exactly its first
  items are visible, and that the remembered item is the last of them. While all
  slides are shown, the state is the current slide and which slides are displayed.
- The scheduler's invariant allows, while a callback runs, a set of properties
  not yet started and a set of timers finished but not yet spliced out; between
  ticks both sets are empty.
- An animation's callback is the list of animations it starts, to any depth; an
  animation of no properties never calls it. `Accounted` says that what has been
  started, and is yet to be started by callbacks of what runs, has grown by exactly
  the animations named, each with all that follows from it and counted as often as
  it occurs. The clock is a function from the number of readings taken so far to a
  time; `starts` and `ends` note the readings that started and ended a property.
- A spline equation, tick, segment, piece of a stack, token list and matrix
  product each have one definition, which both the loop and the lemmas refer to.

Some results are about where the code does less than one would expect. Each has
its exact condition and a member that reaches the case from a concrete start:

- `interpolate` left of the first knot yields a number if and only if the number of
  intervals is a power of two (`Spline.SplineHelper.Interpolate`,
  `Spline.FailsLeftOfData`). Sampling never asks for such a point
  (`Spline.SampleInRange`).
- `nextSlide(false)` on the fully revealed last slide forgets the item revealed
  last, and the state then belongs to no position (`Slidy.Presentation.NextSlide`,
  `Slidy.StrandingHappens`).
- `firstSlide` on slide 0 leaves revealed items visible, though its comment
  promises the state at the start of the presentation; the code is followed
  (`Slidy.Presentation.FirstSlide`, `Slidy.FirstSlideKeepsItems`).
- Leaving the view of all slides does not set the end-of-slide indicator, which is
  right afterwards if and only if it said "nothing left" before
  (`Slidy.Presentation.ToggleView`, `Slidy.IndicatorGoesStale`).
- `gotoSlide` while all slides are shown hides the slide that was current, unless
  that is the one asked for (`Slidy.Presentation.GotoSlide`,
  `Slidy.GotoHidesInOverview`).
- The backward direction of an axis's `translate` ignores both the reversed flag
  and the canvas flag, so a pixel of a reversed axis is read back as the wrong value
  except in the middle (`Axis.Axis.TranslateBack`, `Axis.TranslateBackFails`).
- Bringing axes in step multiplies the factor of an axis with a single tick by 0, so
  that all its values are drawn in one place (`Axis.Axis.FlatWhen`, `Axis.FlatAxis`).
- A hide call by an expander that is clear of an element can overwrite the own
  style of an element that was never hidden: the element is in the expander in
  focus, or in none while none is in focus (`HiddenBy.UpdateRefines` for one call,
  `HiddenBy.RunRepresents` for whole runs, `HiddenBy.ClobberingHappens`).
- `justify` may enlarge a height when resizing, and cuts a height without regard
  for borders and panels (`Fit.Dimension.EnlargesWhen`, `Fit.Dimension.ResizedSettles`,
  `Fit.ResizingEnlarges`).
- Panels are measured after the image was placed, and `correctRatio` places it again
  only if sizes change, so an image with room can end outside the viewport
  (`Fit.Expander.CorrectRatio`, `Fit.PanelPushesOut`).

## Model

| member | source | states |
|---|---|---|
| `Spline.StepInRange` | experiments/repl/src/main/webapp/highcharts/highcharts.src.js:4232-4234 | for positive gaps and a previous coefficient in (-1, 0], the share lies in (0, 1), the pivot exceeds 1 and the new coefficient is again in (-1, 0]: no division by zero at any step |
| `Spline.EliminateStep` | experiments/repl/src/main/webapp/highcharts/highcharts.src.js:4232-4237 | one elimination step is an equivalence: given the previous reduced equation, the knot's spline equation holds if and only if the new reduced equation does |
| `Spline.PassComputed` | experiments/repl/src/main/webapp/highcharts/highcharts.src.js:4228-4237 | the five values one pass computes extend the eliminated system by one row and keep the coefficient in (-1, 0] |
| `Spline.SplineHelper.Eliminate` | experiments/repl/src/main/webapp/highcharts/highcharts.src.js:4222-4238 | after the forward loop `y2` holds the coefficients and `delta` the right-hand sides of a system equivalent to the natural-spline equations, with the last entry still 0 |
| `Spline.SplineHelper.EliminateAt` | experiments/repl/src/main/webapp/highcharts/highcharts.src.js:4227-4238 | one pass of the forward loop on the two arrays, later entries untouched |
| `Spline.SplineHelper.BackSubstitute` | experiments/repl/src/main/webapp/highcharts/highcharts.src.js:4240-4243 | running backward over the same array turns the coefficients into second derivatives that solve the system, first entry 0 included |
| `Spline.BackSubstituted` | experiments/repl/src/main/webapp/highcharts/highcharts.src.js:4226-4243 | any vector with last entry 0 that meets the reduced equations meets every spline equation and is 0 at both ends |
| `Spline.UniqueNaturalSpline` | experiments/repl/src/main/webapp/highcharts/highcharts.src.js:4221-4243 | at most one vector is 0 at both ends and meets all n-2 equations, so the constructor computes the natural spline |
| `Spline.SplineHelper.constructor` | experiments/repl/src/main/webapp/highcharts/highcharts.src.js:4206-4244 | for two or more points with increasing x the object holds the points and the natural-spline solution |
| `Spline.PieceTaylor` | experiments/repl/src/main/webapp/highcharts/highcharts.src.js:4288-4291 | the cubic the code evaluates has exactly the slope, curvature and third derivative named in the smoothness lemmas: its Taylor expansion is exact for every shift |
| `Spline.PieceEnds` | experiments/repl/src/main/webapp/highcharts/highcharts.src.js:4288-4291 | value, curvature and slope of a piece at its two ends |
| `Spline.PassesThroughKnots` | experiments/repl/src/main/webapp/highcharts/highcharts.src.js:4267-4292 | the interpolated value at a knot is that knot's y, for every index |
| `Spline.SmoothAtKnot` | experiments/repl/src/main/webapp/highcharts/highcharts.src.js:4227-4237 | the two pieces at an interior knot agree in value and curvature, and in slope if and only if that knot's spline equation holds |
| `Spline.CollinearIsLine` | experiments/repl/src/main/webapp/highcharts/highcharts.src.js:4206-4292 | if all points lie on a line, the interpolated curve is that line at every x |
| `Spline.IntervalIs` | experiments/repl/src/main/webapp/highcharts/highcharts.src.js:4271-4279 | the linear scan's interval is the only one bracketing the point |
| `Spline.HalvedToOne` | experiments/repl/src/main/webapp/highcharts/highcharts.src.js:4272-4278 | halving n-1 lands on width exactly 1 if and only if n-1 is a power of two; this decides what the search does left of the data |
| `Spline.SplineHelper.Search` | experiments/repl/src/main/webapp/highcharts/highcharts.src.js:4268-4279 | the halving search with fractional bounds terminates, and its floored bounds are the interval the linear scan finds; left of the data the upper one equals the lower unless n-1 is a power of two |
| `Spline.SplineHelper.Interpolate` | experiments/repl/src/main/webapp/highcharts/highcharts.src.js:4267-4292 | the value of the reference scan; a number if and only if the point is not left of the data or n-1 is a power of two (otherwise both floored bounds are 0 and the code divides by 0) |
| `Spline.SplineHelper.Get` | experiments/repl/src/main/webapp/highcharts/highcharts.src.js:4247-4264 | the sampled points: count (50 when 0 is asked for), evenly spaced x, spline values, first and last knot met exactly |
| `Spline.SampleInRange` | experiments/repl/src/main/webapp/highcharts/highcharts.src.js:4250-4259 | the sample positions never leave the data's range on the left and end on the last knot, so every call to the interpolation yields a number |
| `Spline.FailsLeftOfData` | experiments/repl/src/main/webapp/highcharts/highcharts.src.js:4267-4292 | with four knots, a point left of them gets no number |
| `TreeWalk.PreorderComplete` | experiments/repl/src/main/webapp/slidy/slidy.js:1635-1658 | the preorder list holds exactly the proper descendants of the root |
| `TreeWalk.PreorderSorted` | experiments/repl/src/main/webapp/slidy/slidy.js:1634 | the list is in document order, hence without repetition |
| `TreeWalk.ClimbFromTop` | experiments/repl/src/main/webapp/slidy/slidy.js:1646-1657 | where the climbing loop ends, seen from the top of the tree instead of from the node |
| `TreeWalk.NextInPreorder` | experiments/repl/src/main/webapp/slidy/slidy.js:1635-1658 | the successor rule (first child, next sibling, climb) takes entry k of the preorder list to entry k+1, and the last entry to null |
| `TreeWalk.NextNode` | experiments/repl/src/main/webapp/slidy/slidy.js:1635-1658 | the walk from null or entry k returns entry k+1, or null after the last; the climbing loop terminates |
| `TreeWalk.LastInPreorder` | experiments/repl/src/main/webapp/slidy/slidy.js:1663-1674 | descending through last children ends at the last entry of the preorder list |
| `TreeWalk.PrevInPreorder` | experiments/repl/src/main/webapp/slidy/slidy.js:1676-1689 | the predecessor rule takes entry k to entry k-1, and entry 0 to the root |
| `TreeWalk.Deepest` | experiments/repl/src/main/webapp/slidy/slidy.js:1669-1670 | the descending loop ends at the last node below its start |
| `TreeWalk.PreviousNode` | experiments/repl/src/main/webapp/slidy/slidy.js:1661-1690 | from null the last entry, from entry k entry k-1, from the first entry null: the mirror image of the forward walk |
| `TreeWalk.ItemsComplete` | experiments/repl/src/main/webapp/slidy/slidy.js:1733-1745 | the filtered list holds exactly the incremental items below the slide |
| `TreeWalk.ItemsSorted` | experiments/repl/src/main/webapp/slidy/slidy.js:1722-1749 | the filtered list is in document order without repetition |
| `TreeWalk.ItemKinds` | experiments/repl/src/main/webapp/slidy/slidy.js:1733-1745 | which nodes are items: elements of the listed kinds that are incremental and children of incremental containers that do not opt out; never text or line breaks |
| `TreeWalk.IncrementalKinds` | experiments/repl/src/main/webapp/slidy/slidy.js:1697-1720 | the listed kinds of element |
| `TreeWalk.ItemPosition` | experiments/repl/src/main/webapp/slidy/slidy.js:1722-1778 | every item has a place in the full preorder list that splits the filtered list at the item |
| `TreeWalk.NextItemStep` | experiments/repl/src/main/webapp/slidy/slidy.js:1726-1746 | one round of the filtering loop: either the walk has ended and so have the items, or the node is the next item, or the search goes on behind it |
| `TreeWalk.NextIncrementalItem` | experiments/repl/src/main/webapp/slidy/slidy.js:1722-1749 | item j goes to item j+1 of the filtered list, null to the first, the last to null |
| `TreeWalk.PreviousIncrementalItem` | experiments/repl/src/main/webapp/slidy/slidy.js:1751-1778 | item j goes to item j-1, null to the last, the first to null: the inverse of the forward search |
| `Slidy.Presentation.ShowSlide` | experiments/repl/src/main/webapp/slidy/slidy.js:1205-1211 | the slide is displayed, no other changes |
| `Slidy.Presentation.HideSlide` | experiments/repl/src/main/webapp/slidy/slidy.js:1213-1217 | the slide is hidden, no other changes |
| `Slidy.Presentation.SetVisibilityAllIncremental` | experiments/repl/src/main/webapp/slidy/slidy.js:1782-1791 | all items of the current slide become visible, or all hidden; other slides keep theirs |
| `Slidy.Presentation.RevealNextItem` | experiments/repl/src/main/webapp/slidy/slidy.js:1795-1803 | with exactly the first k items visible, item k becomes visible and is returned; null, and nothing changed, when all are |
| `Slidy.Presentation.HidePreviousItem` | experiments/repl/src/main/webapp/slidy/slidy.js:1806-1813 | undoes the reveal: item k-1 is hidden and the item before it returned |
| `Slidy.Presentation.SetEosStatus` | experiments/repl/src/main/webapp/slidy/slidy.js:1118 | the end-of-slide indicator says whether an item is left behind those revealed |
| `Slidy.Presentation.EnterHidden` | experiments/repl/src/main/webapp/slidy/slidy.js:1101-1108 | the current slide is hidden, the asked-for one displayed with nothing revealed, no other slide touched; in single-slide view it alone is displayed then |
| `Slidy.Presentation.EnterRevealed` | experiments/repl/src/main/webapp/slidy/slidy.js:1072-1080 | moving to a slide with all revealed: it alone is displayed, all its items visible, the last one remembered |
| `Slidy.Presentation.SingleSlideView` | experiments/repl/src/main/webapp/slidy/slidy.js:1300-1331 | whatever was displayed before, exactly the current slide is, fully revealed |
| `Slidy.Presentation.NextSlide` | experiments/repl/src/main/webapp/slidy/slidy.js:1090-1123 | from a state showing a position, shows the next position and sets the end-of-slide indicator by whether items remain, except on a fully revealed last slide advanced non-incrementally, where the remembered item is lost |
| `Slidy.Presentation.LostShowsNoPosition` | experiments/repl/src/main/webapp/slidy/slidy.js:1096-1114 | that exceptional state shows no position at all, so the exception is exact |
| `Slidy.Presentation.PreviousSlide` | experiments/repl/src/main/webapp/slidy/slidy.js:1059-1088 | shows the previous position; at the very start nothing moves |
| `Slidy.Presentation.FirstSlide` | experiments/repl/src/main/webapp/slidy/slidy.js:1127-1148 | slide 0 is displayed, with nothing revealed when coming from another slide; on slide 0 the revealed items stay, against the comment in the source |
| `Slidy.Presentation.LastSlide` | experiments/repl/src/main/webapp/slidy/slidy.js:1153-1181 | the last slide with everything revealed |
| `Slidy.Presentation.GotoSlide` | experiments/repl/src/main/webapp/slidy/slidy.js:1184-1197 | the asked-for slide with nothing revealed and the indicator to match; from the overview with all slides displayed, all stay displayed if and only if the slide was current already |
| `Slidy.Presentation.ShowAllSlides` | experiments/repl/src/main/webapp/slidy/slidy.js:1258-1297 | every slide is displayed, and the items of the current slide visible |
| `Slidy.Presentation.ToggleView` | experiments/repl/src/main/webapp/slidy/slidy.js:1241-1255 | all slides at once, or back to exactly the current slide fully revealed; the end-of-slide indicator is right after coming back if and only if it said so before |
| `Slidy.Presentation.Perform` | experiments/repl/src/main/webapp/slidy/slidy.js:1059-1255 | one command, in either view, leads to the view the transition function says |
| `Slidy.Presentation.Replay` | experiments/repl/src/main/webapp/slidy/slidy.js:1059-1255 | over any run of allowed commands, changes of view included, the invariant holds and the final view is the one computed from the commands alone |
| `Slidy.Session` | experiments/repl/src/main/webapp/slidy/slidy.js:1059-1331 | the same from loading the page on: after single-slide view is set up, any run of commands |
| `Slidy.StrandingHappens` | experiments/repl/src/main/webapp/slidy/slidy.js:1096-1114 | a loaded one-slide show that a whole-slide step forward brings into a state of no position |
| `Slidy.FirstSlideKeepsItems` | experiments/repl/src/main/webapp/slidy/slidy.js:1125-1148 | a loaded show in which going to the first slide leaves its item revealed |
| `Slidy.IndicatorGoesStale` | experiments/repl/src/main/webapp/slidy/slidy.js:1241-1255 | a loaded show in which a look at the overview ends with everything revealed and the indicator saying otherwise |
| `Slidy.GotoHidesInOverview` | experiments/repl/src/main/webapp/slidy/slidy.js:1184-1197 | a loaded two-slide show in which going to the second slide while both are shown hides the first |
| `Slidy.RankInjective` | experiments/repl/src/main/webapp/slidy/slidy.js:1795-1803 | the rank (items+1 over earlier slides, plus revealed items) tells all positions apart |
| `Slidy.RankBounded` | experiments/repl/src/main/webapp/slidy/slidy.js:1153-1181 | the fully revealed last slide has the greatest rank, and it alone |
| `Slidy.IncrementalSteps` | experiments/repl/src/main/webapp/slidy/slidy.js:1059-1123 | an incremental step forward raises the rank by exactly 1 until the end, one back lowers it by exactly 1 until the start, and both stand still there |
| `Slidy.WholeSteps` | experiments/repl/src/main/webapp/slidy/slidy.js:1059-1123 | whole-slide steps go to the start of the next slide and to the end of the one before, with the ranks to match; on the last and first slide they go item by item |
| `Slidy.CommandsLead` | experiments/repl/src/main/webapp/slidy/slidy.js:1059-1255 | where each command leads, from a single slide and from the overview |
| `Slidy.StepsInverse` | experiments/repl/src/main/webapp/slidy/slidy.js:1059-1123 | away from the ends forward and back undo each other |
| `Slidy.Tour` | experiments/repl/src/main/webapp/slidy/slidy.js:1090-1123 | n steps from the start reach rank n, or the end if that comes first |
| `Slidy.TourReaches` | experiments/repl/src/main/webapp/slidy/slidy.js:1090-1123 | every position is reached from the start in exactly its rank many steps: nothing is skipped |
| `WrapSlides.WrappedConserves` | experiments/repl/src/main/webapp/slidy/slidy.js:1426-1463 | flattening the added wrappers gives back the original children in order |
| `WrapSlides.WrappedIsWellWrapped` | experiments/repl/src/main/webapp/slidy/slidy.js:1423-1463 | no heading stays a direct child of body, and each wrapper is one heading followed by the whole run up to the next heading or div |
| `WrapSlides.WellWrappedNames` | experiments/repl/src/main/webapp/slidy/slidy.js:1438-1455 | what well wrapped means by element name: no h1 left, each wrapper a div of one h1 and no further h1 or div, followed by one of these |
| `WrapSlides.WrappingUnique` | experiments/repl/src/main/webapp/slidy/slidy.js:1423-1463 | no other document has both properties: well wrapped and conserved determine the result |
| `WrapSlides.WrappedIdempotent` | experiments/repl/src/main/webapp/slidy/slidy.js:1426-1463 | wrapping again changes nothing |
| `WrapSlides.Locate` | experiments/repl/src/main/webapp/slidy/slidy.js:1434-1439 | the i-th entry of the live list of headings lies in the child found by counting headings |
| `WrapSlides.NestedPassed` | experiments/repl/src/main/webapp/slidy/slidy.js:1438-1439 | skipping a heading that is not a child of body leaves no direct heading behind |
| `WrapSlides.AllDone` | experiments/repl/src/main/webapp/slidy/slidy.js:1434-1462 | when the loop has passed every heading, the body is its own wrapping |
| `WrapSlides.WrapStepResult` | experiments/repl/src/main/webapp/slidy/slidy.js:1441-1461 | one round of the loop does not change the final result |
| `WrapSlides.WrapStepHeadings` | experiments/repl/src/main/webapp/slidy/slidy.js:1445-1446 | moving a heading into a div leaves the live list of headings the same length |
| `WrapSlides.WrapStepDone` | experiments/repl/src/main/webapp/slidy/slidy.js:1434-1462 | after one round no direct heading is left among the headings passed so far, although the child list has shrunk meanwhile |
| `WrapSlides.Document.WrapImplicitSlides` | experiments/repl/src/main/webapp/slidy/slidy.js:1426-1463 | the in-place loop over the live list ends with the wrapped document |
| `WrapSlides.Document.WrapAt` | experiments/repl/src/main/webapp/slidy/slidy.js:1441-1461 | one round: same final result, same headings, one more passed |
| `WrapSlides.Document.Gather` | experiments/repl/src/main/webapp/slidy/slidy.js:1441-1461 | the inner loop moves exactly the run of siblings before the next heading or div into the new div |
| `Scheduler.FinishRight` | experiments/repl/src/main/webapp/highslide/highslide-full.js:1040-1049 | finishing one property fires the callback if and only if it was the last, and uses up potential that pays for the animations started in it |
| `Scheduler.FinishKeepsInv` | experiments/repl/src/main/webapp/highslide/highslide-full.js:1034-1050 | finishing a property keeps the scheduler's invariant, its timer becoming stale until it is removed |
| `Scheduler.StartAccounts` | experiments/repl/src/main/webapp/highslide/highslide-full.js:285-293 | a new animation owes itself and what its callback will start |
| `Scheduler.FinishAccounts` | experiments/repl/src/main/webapp/highslide/highslide-full.js:1040-1049 | a property reaching its end leaves the account even only if the callback starts exactly its animations when it was the last, and nothing is started otherwise |
| `Scheduler.FinishTimed` | experiments/repl/src/main/webapp/highslide/highslide-full.js:1034-1040 | a property finished when due has its duration between the readings that started and ended it |
| `Scheduler.NothingOwed` | experiments/repl/src/main/webapp/highslide/highslide-full.js:1042-1049 | when everything is complete, each animation has run as often as it was owed |
| `Scheduler.StartsOfConcat` | experiments/repl/src/main/webapp/highslide/highslide-full.js:271-295 | what callers start in two runs one after the other is started in the joined run |
| `Scheduler.NestedStarts` | experiments/repl/src/main/webapp/highslide/highslide-full.js:1047-1049 | starting an animation with properties counts its own start and all its callback starts, to any depth |
| `Scheduler.QuietMeansComplete` | experiments/repl/src/main/webapp/highslide/highslide-full.js:1042-1049 | when no timer is left, every animation has reached all its end values and, if it has properties, its callback fired exactly once |
| `Scheduler.StartKeepsInv` | experiments/repl/src/main/webapp/highslide/highslide-full.js:285-287 | starting an animation keeps the invariant, all its properties being still to be started |
| `Scheduler.PushKeepsInv` | experiments/repl/src/main/webapp/highslide/highslide-full.js:1019 | pushing a timer keeps the invariant: one timer for each unfinished property, none twice |
| `Scheduler.RemoveKeepsInv` | experiments/repl/src/main/webapp/highslide/highslide-full.js:1023-1025 | splicing out a stale timer keeps the invariant |
| `Scheduler.Scheduler.Animate` | experiments/repl/src/main/webapp/highslide/highslide-full.js:271-295 | every property gets started; earlier animations and timers are untouched, and what has been started is exactly the animation and, through nested callbacks, all that follows from it, each as often as it should |
| `Scheduler.Scheduler.Custom` | experiments/repl/src/main/webapp/highslide/highslide-full.js:1004-1032 | the timer carries the first clock reading; if the second is less than the duration later the timer is listed and nothing else changes, otherwise the property is over, callback included; the interval runs if and only if timers remain |
| `Scheduler.Scheduler.FirstStep` | experiments/repl/src/main/webapp/highslide/highslide-full.js:1019 | the same for a timer just set |
| `Scheduler.Scheduler.Step` | experiments/repl/src/main/webapp/highslide/highslide-full.js:1033-1059 | returns false exactly when the reading it takes is the duration or more past the start; only then anything changes: the property finishes, and if it was the last, exactly what the callback starts has been started, in order |
| `Scheduler.Scheduler.Expire` | experiments/repl/src/main/webapp/highslide/highslide-full.js:1035-1050 | the branch of a property that is over |
| `Scheduler.Scheduler.CallBack` | experiments/repl/src/main/webapp/highslide/highslide-full.js:1047-1049 | the callback starts its animations one after the other in order, each once with all that follows from it, without touching earlier ones |
| `Scheduler.Scheduler.Tick` | experiments/repl/src/main/webapp/highslide/highslide-full.js:1020-1030 | one tick steps each timer present or pushed meanwhile exactly once, keeps exactly the unfinished ones in order despite the splicing, ends every property whose duration was over when it began if the clock does not run backward and none before its duration, stops the interval if and only if none is left, either changes nothing or uses up potential, and starts exactly what the callbacks falling due start |
| `Scheduler.Scheduler.Visit` | experiments/repl/src/main/webapp/highslide/highslide-full.js:1023-1025 | one round of the tick's loop with the timer kept or spliced out |
| `Scheduler.Scheduler.VisitNext` | experiments/repl/src/main/webapp/highslide/highslide-full.js:1023-1025 | one round of the loop keeps everything the tick promises so far, and brings it nearer to its end |
| `Scheduler.ProgressStep` | experiments/repl/src/main/webapp/highslide/highslide-full.js:1023-1025 | the loop's bookkeeping survives a step whose callback pushes timers |
| `Scheduler.FlagsStep` | experiments/repl/src/main/webapp/highslide/highslide-full.js:1023-1025 | the timers already visited keep their verdict through later callbacks |
| `Scheduler.DueStep` | experiments/repl/src/main/webapp/highslide/highslide-full.js:1034-1035 | a timer due at the start of the tick is found due when its turn comes |
| `Scheduler.DueIsDone` | experiments/repl/src/main/webapp/highslide/highslide-full.js:1023-1035 | a property whose duration was over when the tick began is over after it |
| `Scheduler.AdvancedStep` | experiments/repl/src/main/webapp/highslide/highslide-full.js:1023-1025 | a tick that finishes no timer leaves animations and timers as they were; one that does uses up potential |
| `Scheduler.DueEventually` | experiments/repl/src/main/webapp/highslide/highslide-full.js:1035 | with a clock that passes every time, some reading finds all timers due |
| `Scheduler.Scheduler.Happen` | experiments/repl/src/main/webapp/highslide/highslide-full.js:271-295 | one start by a caller or one firing of the interval, with everything it starts accounted for |
| `Scheduler.Scheduler.Replay` | experiments/repl/src/main/webapp/highslide/highslide-full.js:271-295 | any sequence of starts and ticks keeps the scheduler idle in between, loses no animation, undoes no progress, and starts exactly the animations of the callers and of the callbacks called so far |
| `Scheduler.Scheduler.RunToQuiet` | experiments/repl/src/main/webapp/highslide/highslide-full.js:1019-1050 | with a clock that passes every time, finitely many ticks empty the list; every animation is then at its end values with its callback called exactly once, and each has run exactly as often as it was owed before |
| `Scheduler.Session` | experiments/repl/src/main/webapp/highslide/highslide-full.js:271-295 | from an empty scheduler through any starts and ticks to rest: each animation has run, and completed, exactly as often as callers and, directly or indirectly, callbacks were to start it, and no property was ended by a reading less than its duration after the one that started it |
| `Scheduler.Scheduler.constructor` | experiments/repl/src/main/webapp/highslide/highslide-full.js:1004-1020 | the scheduler starts idle, with no animation and no interval |
| `HiddenBy.TokenAtStart` | experiments/repl/src/main/webapp/highslide/highslide-full.js:2443 | a bracketed key starts a token string if and only if it is the first key: no key is mistaken for a prefix of another |
| `HiddenBy.SearchFindsKeys` | experiments/repl/src/main/webapp/highslide/highslide-full.js:2464 | the substring search on the attribute answers membership in the list of hiding expanders |
| `HiddenBy.WithoutRemoves` | experiments/repl/src/main/webapp/highslide/highslide-full.js:2443-2444 | cutting the first occurrence of the token out of the string removes the key from the list |
| `HiddenBy.EncodeAppend` | experiments/repl/src/main/webapp/highslide/highslide-full.js:2465 | appending the token to the string appends the key to the list |
| `HiddenBy.ShowHide` | experiments/repl/src/main/webapp/highslide/highslide-full.js:2441-2475 | the branches of the loop body on the strings; for every list the element represents, the result represents the list after the call unless the call clobbers a style |
| `HiddenBy.UpdateRefines` | experiments/repl/src/main/webapp/highslide/highslide-full.js:2441-2475 | one call on the strings does what the list says (hidden if and only if the list is not empty, original style saved) if and only if the call does not write over a style that was never saved |
| `HiddenBy.UpdateKeepsStyle` | experiments/repl/src/main/webapp/highslide/highslide-full.js:2441-2475 | a call keeps the element's own style or leaves it with none, and the style is saved by the first call that hides |
| `HiddenBy.AfterLists` | experiments/repl/src/main/webapp/highslide/highslide-full.js:2441-2473 | after a call an expander is listed if and only if the call hid the element for it, or it was listed and the call does not take it off |
| `HiddenBy.ListedKeys` | experiments/repl/src/main/webapp/highslide/highslide-full.js:2458-2473 | over any run the list has no duplicates and only keys of calls that hid the element and whose expander has not made its visible call since |
| `HiddenBy.ListedExactly` | experiments/repl/src/main/webapp/highslide/highslide-full.js:2441-2473 | over any run exactly the expanders are listed that hid the element and have not been taken off since, by a visible call or a hide call clear of the element of their own, or by a focused move |
| `HiddenBy.HidingAppends` | experiments/repl/src/main/webapp/highslide/highslide-full.js:2460-2465 | a new token goes to the end of the string |
| `HiddenBy.RunInvariant` | experiments/repl/src/main/webapp/highslide/highslide-full.js:2434-2478 | throughout any run the element represents the list of its expanders, with its own style until that is lost and none from then on |
| `HiddenBy.RunRepresents` | experiments/repl/src/main/webapp/highslide/highslide-full.js:2434-2478 | over any interleaving of calls by different expanders, the element is styled hidden while its list of expanders is not empty and has its own style otherwise, if and only if it has no style of its own or is hidden before any focused move |
| `HiddenBy.AllVisibleRestores` | experiments/repl/src/main/webapp/highslide/highslide-full.js:2442-2445 | once every expander's last call is the visible one, the string is empty, and the original style is back under exactly the same condition |
| `HiddenBy.ClobberingHappens` | experiments/repl/src/main/webapp/highslide/highslide-full.js:2448-2470 | an element in no expander, never hidden, that loses its own style when an expander clear of it opens while none is in focus |
| `HiddenBy.Page.ShowHideElements` | experiments/repl/src/main/webapp/highslide/highslide-full.js:2434-2478 | one pass updates every element by the call computed from where it lies |
| `HiddenBy.CallsCoherent` | experiments/repl/src/main/webapp/highslide/highslide-full.js:2457-2468 | the calls one element meets in passes over the page agree on who owns it |
| `HiddenBy.HidesBehind` | experiments/repl/src/main/webapp/highslide/highslide-full.js:2446-2458 | a hide call hides an element if and only if the element is not the caller's and shares a point with its image, or everything is dimmed |
| `HiddenBy.CallReads` | experiments/repl/src/main/webapp/highslide/highslide-full.js:2457-2468 | what else a call takes from the page: key, visibility, ownership and focus |
| `HiddenBy.Page.Replay` | experiments/repl/src/main/webapp/highslide/highslide-full.js:2434-2478 | any sequence of passes over a page: for every element the statement about runs holds, with the same exact condition |
| `Axis.Exponent` | experiments/repl/src/main/webapp/highcharts/highcharts.src.js:1864 | the power of ten at or below the interval |
| `Axis.ExponentUnique` | experiments/repl/src/main/webapp/highcharts/highcharts.src.js:1864 | no other exponent fits |
| `Axis.NearestByMidpoints` | experiments/repl/src/main/webapp/highcharts/highcharts.src.js:1871-1876 | comparing with midpoints of neighbours finds a multiple of least distance among all |
| `Axis.NearestUnique` | experiments/repl/src/main/webapp/highcharts/highcharts.src.js:1871-1876 | the nearest multiple, ties going down, is unique |
| `Axis.ToNearest` | experiments/repl/src/main/webapp/highcharts/highcharts.src.js:1870-1876 | the loop with early exit returns a nearest multiple of any ascending list |
| `Axis.Thresholds` | experiments/repl/src/main/webapp/highcharts/highcharts.src.js:1868-1876 | the default multiples 1, 2, 2.5, 5, 10 give way to each other at 1.5, 2.25, 3.75 and 7.5 |
| `Axis.NormalizedIdempotent` | experiments/repl/src/main/webapp/highcharts/highcharts.src.js:1860-1881 | normalizing a normalized interval changes nothing |
| `Axis.Leading` | experiments/repl/src/main/webapp/highcharts/highcharts.src.js:1864-1865 | mantissa and exponent of a number are determined by it |
| `Axis.Axis.NormalizeTickInterval` | experiments/repl/src/main/webapp/highcharts/highcharts.src.js:1860-1881 | default list: the nearest multiple times the power of ten; given list: a nearest entry, magnitude 1 |
| `Axis.Snap` | experiments/repl/src/main/webapp/highcharts/highcharts.src.js:2044-2045 | floor and ceiling to the interval enclose a value tightly |
| `Axis.RoundOffIdentity` | experiments/repl/src/main/webapp/highcharts/highcharts.src.js:2047-2050 | in exact arithmetic rounding a tick by the inverse magnitude changes nothing, for every multiple of every nice interval, 2.5 included |
| `Axis.Axis.SetLinearTickPositions` | experiments/repl/src/main/webapp/highcharts/highcharts.src.js:2032-2063 | the ticks are all multiples of the interval from the last one at or below min to the first at or above max, one more than the range in intervals |
| `Axis.Axis.PushTicks` | experiments/repl/src/main/webapp/highcharts/highcharts.src.js:2047-2050 | the loop pushes exactly those ticks and terminates |
| `Axis.Axis.GetSeriesExtremes` | experiments/repl/src/main/webapp/highcharts/highcharts.src.js:1664-1749 | for series that are neither stacked nor in percent: the greatest and the least value, the latter with 0 among the values exactly when the first series that has points is a column, area or bar series on a y axis |
| `Axis.Axis.TakeSeries` | experiments/repl/src/main/webapp/highcharts/highcharts.src.js:1705-1746 | the same after each such series |
| `Axis.Axis.TakePoint` | experiments/repl/src/main/webapp/highcharts/highcharts.src.js:1709-1738 | the same after each such point |
| `Axis.ValuesAre` | experiments/repl/src/main/webapp/highcharts/highcharts.src.js:1707-1738 | the values are those of all points of all series, zero for null |
| `Axis.ZeroBasedIs` | experiments/repl/src/main/webapp/highcharts/highcharts.src.js:1715-1720 | an axis starts from zero if and only if the first series that has points is a column, area or bar series |
| `Axis.ExtremesEnclose` | experiments/repl/src/main/webapp/highcharts/highcharts.src.js:1709-1738 | the least and greatest value are among the values and enclose them all |
| `Axis.DataEnds` | experiments/repl/src/main/webapp/highcharts/highcharts.src.js:1709-1738 | the extremes of the data: the greatest value, and the least or zero |
| `Axis.Axis.PadRange` | experiments/repl/src/main/webapp/highcharts/highcharts.src.js:2088-2098 | the range before snapping: present ends if there are, else bounds, else data, with padding at automatic ends only |
| `Axis.SeriesEnds` | experiments/repl/src/main/webapp/highcharts/highcharts.src.js:2084-2098 | an explicit bound is the end of the range; an automatic end lies beyond the data by exactly its padding times the range, and not at all on category axes and at the zero line |
| `Axis.SeriesCovered` | experiments/repl/src/main/webapp/highcharts/highcharts.src.js:2088-2098 | with paddings that are not negative, no value within the explicit bounds is cut off, categories or not |
| `Axis.Axis.RawInterval` | experiments/repl/src/main/webapp/highcharts/highcharts.src.js:2101-2105 | the interval before normalizing: 1 for categories or a single value, the option when given, and otherwise range times pixel interval over length |
| `Axis.Axis.SetScale` | experiments/repl/src/main/webapp/highcharts/highcharts.src.js:2083-2128 | the tick interval is the nice one next to what the padded range asks for; the ticks enclose that range with less than an interval to spare at either end, the range runs from tick to tick (half a unit more for categories) and is spread over the axis length, and the shared tick count is raised to at least this axis's |
| `Axis.Axis.SetTranslation` | experiments/repl/src/main/webapp/highcharts/highcharts.src.js:2118-2120 | the factor maps the range of a linear or category axis to the axis length; with a single tick it is the length |
| `Axis.Axis.AdjustTickAmount` | experiments/repl/src/main/webapp/highcharts/highcharts.src.js:2069-2080 | non-category axes end with the shared tick count, their ticks still evenly spaced over the whole length |
| `Axis.Respread` | experiments/repl/src/main/webapp/highcharts/highcharts.src.js:2075-2077 | adding ticks and shrinking the factor together keep the length covered |
| `Axis.Axis.Load` | experiments/repl/src/main/webapp/highcharts/highcharts.src.js:2083-2128 | from data to scale for any axis with data or both bounds whose range has its ends in order, categories included: ticks and interval are those of exactly the range that options and series determine |
| `Axis.Axis.CoversSeries` | experiments/repl/src/main/webapp/highcharts/highcharts.src.js:2083-2128 | every value within the explicit bounds lies in the range of such an axis |
| `Axis.Axis.TranslateIs` | experiments/repl/src/main/webapp/highcharts/highcharts.src.js:1754-1768 | the four cases of reversed and canvas coordinates as one offset, mirrored exactly when the two differ |
| `Axis.Axis.TranslateBack` | experiments/repl/src/main/webapp/highcharts/highcharts.src.js:1754-1768 | translating back undoes translating if and only if the reversed and canvas flags agree or the value lies in the middle of the axis: the backward direction ignores both flags |
| `Axis.LowerEndNotBack` | experiments/repl/src/main/webapp/highcharts/highcharts.src.js:1754-1768 | every axis drawn against its direction has a value, its lower end, that does not come back |
| `Axis.TranslateBackFails` | experiments/repl/src/main/webapp/highcharts/highcharts.src.js:1754-1768 | a constructed reversed axis from 0 to 10 whose lower end is drawn at pixel 100 and read back as another value |
| `Axis.Axis.InsidePlot` | experiments/repl/src/main/webapp/highcharts/highcharts.src.js:1754-1768 | a value in the range of a linear or category axis is drawn within the plot, for both values of both flags |
| `Axis.Axis.TickOffset` | experiments/repl/src/main/webapp/highcharts/highcharts.src.js:2069-2080 | tick k of an axis of N ticks lies at k/(N-1) of its length |
| `Axis.Axis.CategoryCentred` | experiments/repl/src/main/webapp/highcharts/highcharts.src.js:2053-2056 | category k of n is drawn in the middle of the k-th of n equal parts |
| `Axis.EndsWell` | experiments/repl/src/main/webapp/highcharts/highcharts.src.js:2083-2128 | an explicit bound lies less than an interval inside the end of the axis, and categories are drawn in the middle of equal parts |
| `Axis.Axis.FlatWhen` | experiments/repl/src/main/webapp/highcharts/highcharts.src.js:2069-2080 | the factor is 0, everything drawn in one place, if and only if a linear axis with a single tick of its own was given more |
| `Axis.FlatAxis` | experiments/repl/src/main/webapp/highcharts/highcharts.src.js:1438-1441 | a constructed pair of value axes of which the one with a single value ends flat |
| `Axis.NewAxis` | experiments/repl/src/main/webapp/highcharts/highcharts.src.js:1435 | a constructed axis covers its series and raises only its own dimension's shared tick count, and only as far as needed |
| `Axis.AddAxis` | experiments/repl/src/main/webapp/highcharts/highcharts.src.js:1434-1436 | one more axis keeps the shared counts the greatest own counts |
| `Axis.Construct` | experiments/repl/src/main/webapp/highcharts/highcharts.src.js:1433-1436 | constructing the axes one after the other: each covers its series, and the shared tick count of each dimension is the greatest own count |
| `Axis.AdjustAll` | experiments/repl/src/main/webapp/highcharts/highcharts.src.js:1438-1441 | afterwards all linear axes of one dimension have the shared tick count, evenly spaced over their lengths; nothing but ticks and factors changes |
| `Axis.GetAxes` | experiments/repl/src/main/webapp/highcharts/highcharts.src.js:1413-1444 | for any mix of linear and category axes, with or without explicit bounds: N, the shared count of a dimension, is the greatest own tick count in it; each linear axis has N ticks of its nice interval and, if two are its own, tick k at k/(N-1) of its length; categories are centred; explicit bounds lie less than an interval inside the ends; data within the bounds stays in range |
| `Tooltip.Segment` | experiments/repl/src/main/webapp/highcharts/highcharts.src.js:3368-3380 | the segments are the maximal stretches without null, in order; every point that is not null is in one, and together they are all points but the nulls |
| `Tooltip.CutAtNull` | experiments/repl/src/main/webapp/highcharts/highcharts.src.js:3372-3375 | a null closes the open stretch, if any |
| `Tooltip.CutAtPoint` | experiments/repl/src/main/webapp/highcharts/highcharts.src.js:3376-3378 | the last point closes the last stretch |
| `Tooltip.Reverse` | experiments/repl/src/main/webapp/highcharts/highcharts.src.js:680-685 | the array read from the other end |
| `Tooltip.LineSeries.Concatenate` | experiments/repl/src/main/webapp/highcharts/highcharts.src.js:3465-3468 | the segments joined in order |
| `Tooltip.LineSeries.DataIs` | experiments/repl/src/main/webapp/highcharts/highcharts.src.js:3465-3472 | the points of the segments in order, from the other end on a reversed axis |
| `Tooltip.StretchIsNearest` | experiments/repl/src/main/webapp/highcharts/highcharts.src.js:3485-3489 | the pixels from a point's low to its high are those between the middles to its neighbours, the upper middle included, and none is nearer to another point |
| `Tooltip.HighsGrow` | experiments/repl/src/main/webapp/highcharts/highcharts.src.js:3486-3489 | a point's stretch never ends before its predecessor's |
| `Tooltip.LineSeries.FillStretch` | experiments/repl/src/main/webapp/highcharts/highcharts.src.js:3491-3493 | the loop assigns exactly the pixels of the stretch, earlier ones keep their point |
| `Tooltip.LineSeries.FillTable` | experiments/repl/src/main/webapp/highcharts/highcharts.src.js:3473-3494 | the loop over the points leaves no pixel of the plot without its point |
| `Tooltip.LineSeries.SetTooltipPoints` | experiments/repl/src/main/webapp/highcharts/highcharts.src.js:3454-3496 | every pixel of the plot has the point whose middles to its neighbours enclose it, and none is nearer; an inverted chart counts the pixels from the other end |
| `Stacks.SofarAndRest` | experiments/repl/src/main/webapp/highcharts/highcharts.src.js:1731-1742 | what has been stacked and what is to come make up the total |
| `Stacks.StackedAxis.Gather` | experiments/repl/src/main/webapp/highcharts/highcharts.src.js:1731-1742 | after all series each x holds its total as total and as running sum |
| `Stacks.StackedAxis.GatherSeries` | experiments/repl/src/main/webapp/highcharts/highcharts.src.js:1697-1744 | one series added to every running sum |
| `Stacks.StackedAxis.GatherPoints` | experiments/repl/src/main/webapp/highcharts/highcharts.src.js:1731-1742 | the loop over one series' points |
| `Stacks.StackedAxis.TranslateSeries` | experiments/repl/src/main/webapp/highcharts/highcharts.src.js:3421-3430 | each point cuts its y off its stack and no other stack changes |
| `Stacks.StackedAxis.TranslateOne` | experiments/repl/src/main/webapp/highcharts/highcharts.src.js:3421-3430 | the k-th series' pieces, from what the series before left over |
| `Stacks.StackedAxis.TranslateAll` | experiments/repl/src/main/webapp/highcharts/highcharts.src.js:3421-3430 | gathering and translating all series gives every point its piece of the stack |
| `Stacks.PiecesTile` | experiments/repl/src/main/webapp/highcharts/highcharts.src.js:3425-3430 | the pieces at one x tile the stack: the first top is the total, or 100 in percent mode, each bottom is the next top, the last bottom 0, series too short for that x left out |
| `Stacks.PieceHeight` | experiments/repl/src/main/webapp/highcharts/highcharts.src.js:3425-3431 | a piece is as high as its y, or in percent mode as its share of the total, and carries that share |
| `Stacks.SharesSum` | experiments/repl/src/main/webapp/highcharts/highcharts.src.js:3427-3431 | in percent mode the shares at one x add up to 100 whenever the total is not 0, and to 0 otherwise |
| `Stacks.ShownAdds` | experiments/repl/src/main/webapp/highcharts/highcharts.src.js:3427-3431 | a piece's percentage is the difference of its shown ends |
| `Canvas.ProductEntry` | experiments/repl/src/main/webapp/highcharts/excanvas.compiled.js:17-18 | each entry of the product is the row by column sum |
| `Canvas.Multiply` | experiments/repl/src/main/webapp/highcharts/excanvas.compiled.js:17-18 | the triple loop filling the matrix computes the product |
| `Canvas.ProductAffine` | experiments/repl/src/main/webapp/highcharts/excanvas.compiled.js:17-18 | the third column stays 0, 0, 1 |
| `Canvas.IdentityLeft` | experiments/repl/src/main/webapp/highcharts/excanvas.compiled.js:32 | saving multiplies by the identity, which leaves the matrix as it was |
| `Canvas.DetProduct` | experiments/repl/src/main/webapp/highcharts/excanvas.compiled.js:17-18 | the determinants of the 2x2 parts multiply |
| `Canvas.CoordsCompose` | experiments/repl/src/main/webapp/highcharts/excanvas.compiled.js:32 | mapping by a product is mapping by one matrix after the other |
| `Canvas.IdentityPoint` | experiments/repl/src/main/webapp/highcharts/excanvas.compiled.js:32 | without transformation a point (p, q) is put at (10p - 5, 10q - 5) |
| `Canvas.TranslatedPoint` | experiments/repl/src/main/webapp/highcharts/excanvas.compiled.js:33 | after translate(x, y) a point is drawn where (p + x, q + y) was before |
| `Canvas.RotatedPoint` | experiments/repl/src/main/webapp/highcharts/excanvas.compiled.js:33 | after rotate a point is drawn where it was before turned from the x axis towards the y axis |
| `Canvas.ScaledPoint` | experiments/repl/src/main/webapp/highcharts/excanvas.compiled.js:33-34 | after scale(x, y) a point is drawn where (xp, yq) was before |
| `Canvas.TransformedPoint` | experiments/repl/src/main/webapp/highcharts/excanvas.compiled.js:34 | transform puts the new mapping before the old one, setTransform puts it in its place |
| `Canvas.AttributesKept` | experiments/repl/src/main/webapp/highcharts/excanvas.compiled.js:33-34 | transformations leave stacks and style alone; only scale multiplies the arc factors, each with its own; translate and rotate keep the cached line scale |
| `Canvas.StacksStep` | experiments/repl/src/main/webapp/highcharts/excanvas.compiled.js:32-33 | save pushes matrix and attributes and changes neither, restore pops both |
| `Canvas.TranslationKeepsScale` | experiments/repl/src/main/webapp/highcharts/excanvas.compiled.js:33 | a translation keeps the determinant, so the cached line scale stays right without being recomputed |
| `Canvas.RotationKeepsScale` | experiments/repl/src/main/webapp/highcharts/excanvas.compiled.js:33 | so does a rotation |
| `Canvas.Step` | experiments/repl/src/main/webapp/highcharts/excanvas.compiled.js:32-34 | every operation keeps the state good: third column 0, 0, 1 on the matrix and all saved ones, every line scale the root of its matrix's absolute determinant |
| `Canvas.BalancedKeepsStacks` | experiments/repl/src/main/webapp/highcharts/excanvas.compiled.js:32-33 | a run whose restores are matched leaves the stacks as they were, down to the saved depth |
| `Canvas.SaveRestoreInverse` | experiments/repl/src/main/webapp/highcharts/excanvas.compiled.js:32-33 | save, any balanced run, restore: the whole state is back |
| `Canvas.OppositesUndo` | experiments/repl/src/main/webapp/highcharts/excanvas.compiled.js:33 | opposite translations and rotations undo each other on the whole state |
| `Canvas.Context.constructor` | experiments/repl/src/main/webapp/highcharts/excanvas.compiled.js:17 | a new context is good, with the identity and scale 1 |
| `Canvas.Context.DoSave` | experiments/repl/src/main/webapp/highcharts/excanvas.compiled.js:32 | the fields after save |
| `Canvas.Context.DoRestore` | experiments/repl/src/main/webapp/highcharts/excanvas.compiled.js:32-33 | the fields after restore; it fails on an empty stack |
| `Canvas.Context.DoTranslate` | experiments/repl/src/main/webapp/highcharts/excanvas.compiled.js:33 | the fields after translate |
| `Canvas.Context.DoRotate` | experiments/repl/src/main/webapp/highcharts/excanvas.compiled.js:33 | the fields after rotate |
| `Canvas.Context.DoScale` | experiments/repl/src/main/webapp/highcharts/excanvas.compiled.js:33-34 | the fields after scale, arc scales included |
| `Canvas.Context.DoTransform` | experiments/repl/src/main/webapp/highcharts/excanvas.compiled.js:34 | the fields after transform |
| `Canvas.Context.DoSetTransform` | experiments/repl/src/main/webapp/highcharts/excanvas.compiled.js:34 | the fields after setTransform |
| `Fit.Dimension.Justify` | experiments/repl/src/main/webapp/highslide/highslide-full.js:1815-1873 | the exact place and size in every case: target, automatic and centered alignment when only moving and when resizing, far-end alignment, none |
| `Fit.Dimension.Fitted` | experiments/repl/src/main/webapp/highslide/highslide-full.js:1825-1855 | the automatic and centered branch: ideal place, minimum size, the cut to the room there is, and whether a last reduction is allowed |
| `Fit.Dimension.IdealCentres` | experiments/repl/src/main/webapp/highslide/highslide-full.js:1828-1831 | the ideal place is the whole pixel that centres the dimension on the room, or on the thumbnail |
| `Fit.Dimension.ResizedSettles` | experiments/repl/src/main/webapp/highslide/highslide-full.js:1825-1855 | where resizing ends: never below the minimum or before the first margin; a width sticks out exactly if its least admissible size has no room, a height with borders or panels exactly if it was too large before |
| `Fit.Dimension.ResizedFills` | experiments/repl/src/main/webapp/highslide/highslide-full.js:1825-1855 | resizing keeps a dimension with room and places it as near to the ideal place as the margins allow; a width that is too large fills the room exactly, unless its minimum is more, a height is cut to the room there is |
| `Fit.Dimension.EnlargesWhen` | experiments/repl/src/main/webapp/highslide/highslide-full.js:1840-1847 | resizing enlarges exactly a height that is smaller than the room, too large with borders and panels, and overflows at the far end only |
| `Fit.ResizingEnlarges` | experiments/repl/src/main/webapp/highslide/highslide-full.js:1840-1847 | a height of 90 that justify makes 100 |
| `Fit.Dimension.PlacedFits` | experiments/repl/src/main/webapp/highslide/highslide-full.js:1828-1847 | a dimension smaller than its room is placed within the margins as near to the ideal place as they allow, a larger one at the first margin |
| `Fit.Dimension.PlaceAgain` | experiments/repl/src/main/webapp/highslide/highslide-full.js:1912-1914 | size kept and the place reckoned from the thumbnail: at the target, against the far end, at the thumbnail, or as near to the ideal place as the margins allow; a dimension with room and no target ends within the viewport |
| `Fit.Expander.RestoreRatio` | experiments/repl/src/main/webapp/highslide/highslide-full.js:1877-1895 | the shorter side decides: it stays and the other follows, unless that takes the width below its minimum, which then decides; neither side exceeds full size |
| `Fit.Expander.RestoredUnique` | experiments/repl/src/main/webapp/highslide/highslide-full.js:1884-1895 | that determines the size |
| `Fit.QuotientAgainst` | experiments/repl/src/main/webapp/highslide/highslide-full.js:1884-1892 | comparing the quotient with the ratio is comparing the side with the scaled other side |
| `Fit.Expander.FitOverlayBox` | experiments/repl/src/main/webapp/highslide/highslide-full.js:1923-1934 | the shrinking loop terminates after k rounds, the height ten pixels less for each and the ratio kept: with the panels measured in each round there was too little room before every round, and after the last there is room, or a minimum is met that was not met ten pixels earlier |
| `Fit.Expander.CorrectSizes` | experiments/repl/src/main/webapp/highslide/highslide-full.js:1876-1908 | the restored height less ten pixels a round, with exactly as many rounds as the panels take; changed if and only if the sizes were out of ratio or the panels left too little room |
| `Fit.Expander.CorrectRatio` | experiments/repl/src/main/webapp/highslide/highslide-full.js:1876-1922 | the image ends with exactly that size, in its ratio; it is placed again, by whichever alignment it has, if and only if something changed, and a dimension with room and no target ends within the viewport if and only if that was so or it stood within it already |
| `Fit.PanelPushesOut` | experiments/repl/src/main/webapp/highslide/highslide-full.js:1595-1606 | an image with room that a panel measured after placing pushes over the margin, where it stays |

## Left out

- Axis.Axis.GetSeriesExtremes: the branches for stacked and percent series are left out; how stacks add up is in `Stacks`.
- Axis.Axis.TakeSeries: leaves out stacked and percent series likewise.
- Axis.Axis.TakePoint: leaves out stacked and percent points likewise.
- Axis.Axis.PadRange: leaves out percent axes, which are not padded.
- Axis.Axis.SetScale: leaves out percent and datetime axes, and ranges whose ends are out of order, of which the source takes the logarithm of a negative interval.
- Axis.Axis.Load: needs a range with its ends in order, and data or both bounds; without either the source computes with undefined numbers.
- Axis.NewAxis: needs the same.
- Axis.AddAxis: needs the same of the axis it adds.
- Axis.Construct: needs the same of every axis.
- Axis.GetAxes: needs the same of every axis; that data stays in range is stated for paddings that are not negative.
- Scheduler.Scheduler.Step: leaves out the jump to the end on request, and the values between start and end.
- Spline.SplineHelper.constructor: needs two or more points with increasing x; a single-point helper, equal x and decreasing x (where the source divides by zero or searches in the wrong direction) are not modelled.
- Floating-point rounding: all arithmetic is over exact reals, the logarithm is its floor, and a square root is given by what it squares to.
- Results of foreign calls (cosine and sine, the clock, panel heights, class tests, layout boxes, wrapper keys) are parameters or fields.
- Drawing, styles other than visibility, event wiring, tooltips and legends, Ajax, iframes and Flash.
- Datetime axes; matching series to axes by index, which is an input.
- Resetting the stacks between two scalings, points with null y in a stack, and several series types stacked on one axis at once.
- Cropping of spline data to the plot, and the number of samples computed from pixels.
- Zooming and `setExtremes`.
- In the slide show: clicked anchors, the table of contents, location and toolbar, backgrounds and notes. Slides are disjoint subtrees, and a node is a path from its slide.
- In the document rewrite: the case in which an XHTML document has its headings under a lower-case name only; both names count as headings here.
- In the scheduler: easing and values between start and end, callbacks on every step, one options object shared by several calls, and jumping to the end.
- In hiding: the second pass over all elements for their overflow, which shares the attribute.
- In fitting: what runs before and after `correctRatio` when an image is shown (its preconditions are stated on the sizes it finds), boxes and padding to a minimum width, content other than images, offsets in target strings (a target is the position it resolves to).
- In the canvas: paths, gradients, and the test that a matrix is finite, which holds of all reals.
- The Scala engine, the Ruby files, and minified copies of the sources modelled here.
