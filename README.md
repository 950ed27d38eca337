# Doping in professional bicycle racing: a Dafny model of its scatter plot

The script `src/index.js` draws a D3 scatter plot of the fastest ascent
times up Alpe d'Huez. Each record of the fetched JSON array is one circle.
Its horizontal position is the rider's time behind the first record of
the array. Its vertical position is the rider's place. Its colour is red
when the record carries a doping allegation and green otherwise. A text
label with the rider's name sits beside each new circle. The x axis shows
`mm:ss` ticks produced by `formatMinutes`.

This project models the script's own logic:

- `Format`: `formatMinutes`, including JavaScript's decimal printing of a
  non-negative integer below 10^21 that JavaScript holds exactly. `ReadClock` reads an `m…m:ss` label back into a
  number of seconds (minutes digits times 60 plus the two seconds
  digits). It is not part of the script. It is the independent reader
  through which `ReadFormatMinutes` and `ReadFormatMinutesPadded` state
  what a label shows.
- `Scales`: the margins, the plot width and height, and the two linear
  scales with their fixed domains and ranges. They are modelled as exact
  real maps that extrapolate beyond the domain, as d3's `scaleLinear`
  does by default.
- `Marks`: a cyclist record and the per-datum attribute lambdas of
  `update`: the fill, radius and position of a circle, and the fill,
  position and text of a label.
- `Join`: `update` as an imperative method on a `Chart` object. The object
  holds the rendered circles as a map from key (`Place`) to element and
  the rider labels that the label chain appends as a sequence. `Update` runs the keyed join, removes
  the exit circles, and then runs the circle chain and the label chain in
  data order. Each chain is a loop proved against a recursive
  specification function.

The label chain at src/index.js:157-164 appends text only for entering
records. It then merges those texts with the update selection of
*circles*. So on a re-render the updated circles get the label attributes
(`fill`, `x`, `dy`, text) written onto them, and the existing text
elements are neither moved nor removed. The model reproduces this: the
`labelAttrs` field of a circle holds what the label chain wrote on it.

An empty data array is accepted. `data[0].Seconds` is only evaluated
inside the attribute lambdas, and with no records none of them runs, so
`update([])` simply removes every circle and reads nothing.

## Model

| member | source | states |
|---|---|---|
| Format.FormatMinutes | src/index.js:5-11 | formatMinutes(d) for a non-negative integer d; its meaning is stated by FormatMinutesFields (shape and field values), ReadFormatMinutes (what it reads back as) and FormatMinutesSameLabel (exactly when two counts collide) |
| Format.PadLeft | src/index.js:6-8 | the minutes field `mm`, left-padded with "0" below ten; also the seconds field of the corrected formatter; PadLeftValue states it reads as its count with at least two digits |
| Format.SecondsField | src/index.js:7-9 | the seconds field `ss` as written; SecondsFieldValue states it has two digits and reads as ten times the seconds below 10 |
| Format.NatToString | src/index.js:8-9 | for an integer below 10^21 held exactly, the text of `${n}` is a non-empty digit string with no leading zero (unless n is 0), one digit exactly below 10, two exactly in 10..99, and it reads back as n |
| Format.ValueOfLeadingZero | src/index.js:8 | prepending "0" (the minutes padding) does not change the value a digit string reads as |
| Format.ValueOfTrailingZero | src/index.js:9 | appending "0" (the seconds "padding") multiplies the value a digit string reads as by ten |
| Format.NatToStringTimesTen | src/index.js:9 | the text of 10·n is the text of n with "0" appended, so `${s}0` prints the same as `${10*s}` |
| Format.PadLeftValue | src/index.js:6-8 | the left-padded field (the minutes) has at least two digits, reads as its count, and has exactly two digits below 100 |
| Format.SecondsFieldValue | src/index.js:7-9 | the seconds field always has two digits and reads as the seconds when 10 or more, as ten times the seconds below 10 |
| Format.FormatMinutesFields | src/index.js:5-11 | every label is minutes digits, ':' and two seconds digits; the minutes read as floor(d/60), the seconds as the shown seconds of d mod 60; it has length 5 with ':' at index 2 exactly when d < 6000 |
| Format.ReadFormatMinutes | src/index.js:5-11 | a label reads back as its minute count times 60 plus its shown seconds, and gives back d itself exactly when d mod 60 is 0 or at least 10 |
| Format.FormatMinutesSameLabel | src/index.js:5-11 | two counts get the same label if and only if they have the same minute and the same shown seconds |
| Format.SameLabelSameFields | src/index.js:5-11 | equal labels mean equal minutes and equal shown seconds |
| Format.SameFieldsSameLabel | src/index.js:5-11 | equal minutes and equal shown seconds mean equal labels |
| Format.SplitLabel | src/index.js:10 | a label whose seconds field has two characters splits at its colon in only one way |
| Format.FormatMinutesCollides | src/index.js:9 | formatMinutes(5) and formatMinutes(50) are both "00:50", and formatMinutes(125) is "02:50", so the formatter is not injective |
| Format.ReadFormatMinutesPadded | src/index.js:9 | with the zero prepended, every label reads back as exactly d, and below 6000 it has length 5 with ':' at index 2 |
| Format.FormatMinutesPaddedInjective | src/index.js:9 | with the zero prepended, no two counts share a label |
| Format.FormatMinutesAgreeOnTens | src/index.js:9 | on every multiple of ten seconds the formatter as written gives the same label as the corrected one |
| Scales.PlotArea | src/index.js:35-36 | the plot area is 575 wide and 500 high |
| Scales.XScale | src/index.js:53-54 | xScale with domain [210, 0] (line 121) and range [0, width]; XScaleEndpointsAndOrder, ScalesUnclamped and ScalesInvert state its endpoints, strict decrease, extrapolation and inverse |
| Scales.YScale | src/index.js:53-54 | yScale with domain [1, 36] (line 120) and range [0, height]; YScaleEndpointsAndOrder, ScalesUnclamped and ScalesInvert state its endpoints, strict increase, extrapolation and inverse |
| Scales.Linear | src/index.js:53-54 | a linear scale sends the first domain end to the first range end and the second to the second |
| Scales.LinearSlope | src/index.js:53-54 | a linear scale changes its output by the input change times (r1 - r0) / (d1 - d0) |
| Scales.LinearInverse | src/index.js:53-54 | swapping domain and range gives the inverse scale |
| Scales.XScaleEndpointsAndOrder | src/index.js:120-121 | xScale(210) = 0 and xScale(0) = 575, and xScale is strictly decreasing: s < s' exactly when xScale(s) > xScale(s') |
| Scales.YScaleEndpointsAndOrder | src/index.js:120-121 | yScale(1) = 0 and yScale(36) = 500, and yScale is strictly increasing |
| Scales.ScalesUnclamped | src/index.js:53-54 | outside the domains the scales extrapolate instead of clamping |
| Scales.ScalesInvert | src/index.js:53-54 | each scale and its inverse undo one another, both ways round |
| Marks.FillOf | src/index.js:152 | the fill is "red" exactly when the Doping text is non-empty and "green" exactly when it is empty |
| Marks.MarkerOf | src/index.js:152-155 | the fill, r, cx and cy a circle is given; MarkerPlacement, MarkerOrder and FirstRecordAtRightEdge state its meaning |
| Marks.LabelOf | src/index.js:161-164 | the fill, x, dy and text a label is given; LabelBesideMarker ties it to MarkerOf |
| Marks.MarkerPlacement | src/index.js:152-155 | every circle has r = 5 and the allegation colour, and inverting the scales on cx and cy gives back Seconds − data[0].Seconds and Place |
| Marks.MarkerOrder | src/index.js:154-155 | a slower record's circle is further left and a higher-numbered place's circle further down, each as an if-and-only-if |
| Marks.LabelBesideMarker | src/index.js:161-164 | a label has its circle's fill, x = cx + 10, dy = cy + 5 and the rider's name as text |
| Marks.FirstRecordAtRightEdge | src/index.js:154 | the first record's circle has cx = width whatever its Seconds, and a record is drawn beyond the right edge exactly when it is faster than the first |
| Marks.TwoRecordScenario | src/index.js:152-155 | a clean leader at place 1 is a green circle at (575, 0); a suspended rider 40 s behind at place 2 is red at xScale(40), yScale(2) |
| Join.PlacesOf | src/index.js:135 | every record's Place is a key of the data array |
| Join.PlacesOfOnly | src/index.js:135 | every key of the data array is some record's Place |
| Join.PlacesOfNot | src/index.js:135 | a value that is no record's Place is not a key |
| Join.FreshPlace | src/index.js:135 | with unique places, a record's key is not among the keys of the records before it |
| Join.UniquePlacesCount | src/index.js:135 | with unique places there are exactly as many keys as records (so Update leaves one circle per record) |
| Join.Anchor | src/index.js:154 | the `data[0].Seconds` that every x position is measured from; FirstRecordAtRightEdge states that the first record therefore sits at cx = width |
| Join.EnteringLabels | src/index.js:157-164 | the rider labels the label chain appends; OneLabelPerEnteringKey, EnteringRecordLabelled, LabelOfEnteringRecord and NoLabelsForRendered state that they are exactly one label per entering record |
| Join.CircleChain | src/index.js:144-155 | the circle map after the circle chain; CircleChainKeys, CircleChainAt and CircleChainResult state which circles it creates and rewrites |
| Join.LabelChain | src/index.js:157-164 | the circle map after the label chain writes onto the update circles; LabelChainFrame, LabelChainAt and LabelChainResult state which circles it changes |
| Join.JoinOf | src/index.js:134-151 | enter, update and exit are pairwise disjoint; enter with update is the new key set; update with exit is the old key set |
| Join.RerenderGroups | src/index.js:135-151 | joining the keys already drawn for some data with that same data gives an empty enter and exit group, and every key updates |
| Join.JoinExample | src/index.js:135-151 | rendered {1, 2, 3} joined with places [2, 3, 4] enters {4}, updates {2, 3} and exits {1} |
| Join.EnteringKeysStep | src/index.js:157-159 | the entering keys of data are those of its prefix, plus the last record's key when that key was not rendered |
| Join.OneLabelPerEnteringKey | src/index.js:157-159 | exactly one text element is appended per entering key |
| Join.EnteringRecordLabelled | src/index.js:157-164 | every entering record's label is among the appended text elements |
| Join.LabelOfEnteringRecord | src/index.js:157-164 | every appended text element is the label of an entering record |
| Join.NoLabelsForRendered | src/index.js:157-159 | when every key is already rendered, no text element is appended |
| Join.CircleChainFrame | src/index.js:144-155 | the circle chain leaves every key outside the data as it was |
| Join.CircleChainKeys | src/index.js:144-146 | the circle chain adds exactly the data's keys to the circle map |
| Join.CircleChainAt | src/index.js:144-155 | after the circle chain, each record's key holds that record's freshly drawn circle, and other keys are untouched |
| Join.CircleChainResult | src/index.js:144-155 | from circles whose keys are all in the data, the circle chain gives exactly the data's keys, each holding its own record's drawn circle |
| Join.LabelChainFrame | src/index.js:157-164 | the label chain adds or removes no circle and leaves circles outside the data unchanged |
| Join.LabelChainAt | src/index.js:160-164 | the label chain writes the label attributes onto the circle of each rendered key of the data and on no other |
| Join.LabelChainResult | src/index.js:160-164 | over the whole data the label chain rewrites exactly the updated circles' label attributes |
| Join.UpdateResult | src/index.js:138-164 | after exit, the circle chain and the label chain, the circle keys are the data's keys, each circle is filed under its own Place, and each holds its record's marker, with label attributes exactly when the key was rendered before |
| Join.Chart.constructor | src/index.js:38-44 | the plot group starts with no circles and no rider labels |
| Join.Chart.Update | src/index.js:119-164 | update(data) returns nothing; the model's Update also returns the groups of the keyed bind at src/index.js:135, the join of the old keys with the data; afterwards the circle keys are exactly the data's keys, there is one circle per record, every record's circle is its rendered circle, and the text list is the old one with one label per entering record appended |
| Join.Chart.RemoveExit | src/index.js:137-141 | exit().remove() deletes exactly the exit keys and leaves every other circle as it was |
| Join.Chart.DrawCircles | src/index.js:143-155 | the enter/append and merged attribute loop yields the circle chain of the data over the old circles |
| Join.Chart.DrawLabels | src/index.js:157-164 | the text loop yields the label chain on the circles, and appends the entering records' labels to the text list |
| Join.RenderTwice | src/index.js:119-164 | calling update twice with the same data: the second join enters and exits nothing, the circle keys stay the data's keys with one circle per record, and the second call appends no rider label |

## Left out

- SVG and DOM construction: the svg element, the group transforms, the title, the axis labels and the legend rows (src/index.js:38-112). They are presentation only. The chart's constructor stands for the plot group before the first update, with no circles and no rider labels.
- The other elements of the plot group: the title and the two axis-label texts (src/index.js:57-83), the legend's rects and texts (src/index.js:94-112) and the two axis groups (src/index.js:46-51). `Chart.labels` holds only the rider labels the label chain appends. The join selects only `circle` elements, so these other elements never take part in it.
- The data fetch and the logging with `d3.json` and `console.log` (src/index.js:114-117). They are network I/O and promise handling; the data array is a parameter of `Update`.
- The d3-tip tooltip: its configuration, the HTML template, `g.call(tip)` and the mouse handlers (src/index.js:23-33, 132, 148-149). They belong to a foreign library's overlay.
- Axis tick generation: `d3.axisLeft`, `d3.axisBottom` and `.ticks(3)` (src/index.js:123-130). This library code is not part of this model; only the formatter it calls is modelled.
- The ordinal colour scale for the legend (src/index.js:55), which only the legend uses.
- The `class` attributes "exit" and "enter" (src/index.js:140, 147). They are never read by the script; the stylesheet it imports (src/index.js:1) is not part of this model.
- The order of elements in the DOM. The circles are a map by key, and only the text elements keep their append order.
- Floating point. The scales are exact reals, whereas d3 computes in IEEE doubles.
- Format.NatToString: exact printing of an unbounded natural. JavaScript numbers are IEEE doubles: `${n}` switches to exponent notation from 10^21 on (`${1e21}` is "1e+21"), and above 2^53 `Math.floor(d / 60)` and `d % 60` (src/index.js:6-7) are no longer exact. Neither is modelled; the chart's ticks are at most 210.
- Format.FormatMinutes: modelled on non-negative integer seconds only. JavaScript's `%` and `Math.floor` on fractional or negative ticks are not modelled.
- Join.Chart.Update: requires unique `Place` values. d3's handling of duplicate keys (later duplicates go to enter, and duplicate elements go to exit) is not modelled.
- The stylesheet import (src/index.js:1).

## Findings

| source | as written | input that shows it | evidently intended | confidence | as-written member | corrected member |
|---|---|---|---|---|---|---|
| src/index.js:9 | a seconds value below 10 gets a "0" appended (`${secs}0`) | d = 5 and d = 50 both give "00:50"; d = 125 gives "02:50" instead of "02:05". The chart's own ticks (0, 50, ..., 200 s) are multiples of ten, where both formatters agree (Format.FormatMinutesAgreeOnTens), so the drawn axis does not show it | prepend the zero (`0${secs}`), as the minutes field does on line 8 | high (proved; not executed) | Format.FormatMinutesCollides, Format.FormatMinutesSameLabel | Format.FormatMinutesPadded, with Format.ReadFormatMinutesPadded and Format.FormatMinutesPaddedInjective |
