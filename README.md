# Operating-room dashboard: specialty filter and case-volume chart

This project is a Dafny model of the two pieces of logic in the operating-room
analytics dashboard whose behaviour can be stated as properties. Everything
else in the dashboard is layout and static display.

- **The specialty multi-select dropdown** (`FilterDropdown` module,
  `filter_dropdown.dfy`). The dropdown works out which options it shows and
  which selection it shows. An empty option list falls back to the 8-entry
  specialty catalogue, and an empty selection is shown as "everything
  selected". A click on an option toggles it. A click on "Select all" clears a
  full selection, or else selects a copy of every option. The button text and
  the checkbox states are worked out from the same data. The page that owns
  the selection stores whatever the dropdown hands to `onSelectionChange`.
  - Each handler is a function that returns what it hands to the callback.
    It returns `None` when no callback was given.
  - The handlers read a `View`: the option list shown and the selection shown.
    The same handlers therefore work with the defaulting as written
    (`ViewOf`) and with the corrected defaulting (`ViewOfFixed`, see Findings).
- **The "Case Volume & Efficiency Overtime" chart data** (`DualLineChart`
  module, `dual_line_chart.dfy`).
  - A fixed 24-point hourly table.
  - The weekly generator: a loop over the seven days that appends two points
    per day. It is modelled as a method. The random draws
    `Math.floor(Math.random() * N)` become the parameter `draws`: whole
    numbers in `[0, N)`, one record of four draws per day, in the order the
    loop draws them.
  - The choice between the hourly and the weekly data.
  - The x-axis tick labels.
  - The left and right y-axis domains.
- `Decimal` (`decimal.dfy`) renders counts and hours as decimal text.
  `Wrappers` (`wrappers.dfy`) holds `Option`.

## Model

| member | source | states |
|---|---|---|
| FilterDropdown.ActualOptions | src/components/ui/FilterDropdown.tsx:30-42 | The option list shown is never empty. It is the caller's list when there is one, and otherwise the 8-specialty catalogue in its listed order. |
| FilterDropdown.ViewOf | src/components/ui/FilterDropdown.tsx:24-43 | The selection shown is never empty. It is the stored selection when that is non-empty, and otherwise a copy of every option shown. |
| FilterDropdown.RemoveAll | src/components/ui/FilterDropdown.tsx:49 | The filter leaves no occurrence of the option. It keeps every other element with its multiplicity, so the length drops by the option's number of occurrences. |
| FilterDropdown.RemoveAllConcat | src/components/ui/FilterDropdown.tsx:49 | Filtering distributes over concatenation, so the elements that are kept stay in their original relative order. |
| FilterDropdown.RemoveAllAbsent | src/components/ui/FilterDropdown.tsx:49 | Filtering out an option that does not occur returns the selection unchanged. |
| FilterDropdown.Toggle | src/components/ui/FilterDropdown.tsx:48-50 | After a click the option is selected exactly when it was not selected before. Membership of every other option is unchanged. |
| FilterDropdown.ToggleAbsentAppends | src/components/ui/FilterDropdown.tsx:48-50 | Toggling an absent option appends it at the end. Earlier elements are unchanged and the length grows by exactly one. |
| FilterDropdown.TogglePresentRemovesAll | src/components/ui/FilterDropdown.tsx:48-49 | Toggling a present option removes every occurrence of it and only those. |
| FilterDropdown.ToggleTwice | src/components/ui/FilterDropdown.tsx:48-50 | Round trip: toggling an absent option twice gives back the original selection. |
| FilterDropdown.OnSelect | src/components/ui/FilterDropdown.tsx:45-53 | A click on an option emits nothing exactly when there is no callback. Otherwise it emits the toggled shown selection. |
| FilterDropdown.OnSelectAll | src/components/ui/FilterDropdown.tsx:55-63 | A click on "Select all" emits nothing exactly when there is no callback. Otherwise it emits `[]` exactly when the shown selection's length equals the option count, and a copy of all options, in option order, in every other case. |
| FilterDropdown.ButtonLabelCases | src/components/ui/FilterDropdown.tsx:76-80 | The button reads "Select all" exactly when the select-all box is checked (same length test). Otherwise it reads "<n> selected". The caller's label is unreachable. |
| FilterDropdown.ButtonLabel | src/components/ui/FilterDropdown.tsx:76-80 | The button shows the caller's label when the selection shown is empty. It shows "Select all" when the select-all box is checked. Otherwise it shows the decimal count, with no leading zero, followed by " selected". |
| FilterDropdown.SelectAllChecked | src/components/ui/FilterDropdown.tsx:94 | The select-all box is checked when the selection shown is exactly the option list. Being checked only guarantees equal lengths; `FullByLengthNotBySet` shows that it does not guarantee equal contents. |
| FilterDropdown.OptionChecked | src/components/ui/FilterDropdown.tsx:104 | An option's box is checked exactly when the option occurs at least once in the selection shown. `ClickFlipsOneCheckbox` proves how a click changes these boxes. |
| FilterDropdown.FullByLengthNotBySet | src/components/ui/FilterDropdown.tsx:93-104 | Fullness is a length test. A selection with a duplicate checks "Select all" while another option stays unchecked. |
| FilterDropdown.InitialStateShowsAll | src/pages/EfficiencyMetrics.tsx:26-27 | The page starts with every specialty selected: all boxes are checked and the button reads "Select all". |
| FilterDropdown.Store | src/pages/EfficiencyMetrics.tsx:30-33 | The page's selection becomes what the dropdown emits. It is unchanged when nothing is emitted. |
| FilterDropdown.NoCallbackIsNoOp | src/components/ui/FilterDropdown.tsx:45-63 | Without a callback, neither an option click nor a "Select all" click changes the stored selection. |
| FilterDropdown.ClickTwiceRestores | src/components/ui/FilterDropdown.tsx:45-53 | Clicking an unselected option twice, with the page storing each emission, restores the stored selection. |
| FilterDropdown.ClickFlipsOneCheckbox | src/components/ui/FilterDropdown.tsx:101-106 | A click flips the clicked option's checkbox and no other one, as long as the new selection is not empty. |
| FilterDropdown.ClearIsShownAsFull | src/components/ui/FilterDropdown.tsx:43-63 | As written: "Select all" on a full selection emits `[]`. That `[]` is shown as full again, and the next click emits `[]` again. Meanwhile `DelayFactorsPieChart` (src/components/charts/DelayFactorsPieChart.tsx:83-88) receives the stored `[]` and shows "Please select at least one specialty to view data". |
| FilterDropdown.UncheckLastChecksAll | src/components/ui/FilterDropdown.tsx:43-53 | As written: unchecking the only selected option emits `[]`, and every option is then shown as checked. |
| FilterDropdown.ViewOfFixed | src/components/ui/FilterDropdown.tsx:43 | Corrected defaulting: only an absent `selectedOptions` means "all". A stored selection, empty or not, is shown as it is. |
| FilterDropdown.SelectAllTogglesWhenFixed | src/components/ui/FilterDropdown.tsx:55-80 | With the corrected defaulting, "Select all" on a full selection visibly clears it: the label shows and nothing is checked. A second click restores the full list. |
| Decimal.DecimalString | src/components/ui/FilterDropdown.tsx:80 | The count in "<n> selected" is a non-empty string of decimal digits. |
| Decimal.DecimalRoundTrip | src/components/ui/FilterDropdown.tsx:80 | Reading the rendered count back gives the count. |
| DualLineChart.HourLabelDenotesHour | src/components/charts/DualLineChart.tsx:23-46 | An hour label is five characters: two decimal digits denoting the hour, then ":00". |
| DualLineChart.HourlyTableShape | src/components/charts/DualLineChart.tsx:22-47 | The hourly table `HourlyData` has exactly 24 points. Point `h` is labelled with hour `h`. |
| DualLineChart.HourlyValuesInRange | src/components/charts/DualLineChart.tsx:22-47 | In `HourlyData`, every case count is at least 1. Every hourly efficiency lies in [58, 92]. |
| DualLineChart.WeeklyLabel | src/components/charts/DualLineChart.tsx:50-71 | Weekly label `i` is nine characters: the three-letter day `i / 2` (Mon..Sun), then " 12 AM" at even `i` and " 12 PM" at odd `i`. |
| DualLineChart.WeeklyLabelsDistinct | src/components/charts/DualLineChart.tsx:50-73 | No two of the fourteen weekly points share a time label. |
| DualLineChart.WeeklyPointInRange | src/components/charts/DualLineChart.tsx:55-73 | Weekly point `i` (`WeeklyPoint`) carries label `i`. Its case count is 45 plus its half-day's cases draw, so it lies in [45, 70]. Its efficiency is 60 plus the matching efficiency draw, so it lies in [60, 90]. |
| DualLineChart.WeeklyDay | src/components/charts/DualLineChart.tsx:53-73 | Day `d` contributes two points: "<day> 12 AM" from the first cases and first efficiency draw, then "<day> 12 PM" from the second of each. |
| DualLineChart.GenerateWeeklyData | src/components/charts/DualLineChart.tsx:50-77 | The loop's output is exactly the series that the day-by-day construction prescribes from the draws. |
| DualLineChart.WeeklySeriesShape | src/components/charts/DualLineChart.tsx:51-74 | The weekly series has 14 points. Point `i` is "<day> 12 AM" at even `i` and "<day> 12 PM" at odd `i`, Mon..Sun. Cases lie in [45, 70] and efficiencies in [60, 90]. |
| DualLineChart.CurrentData | src/components/charts/DualLineChart.tsx:84 | The daily view plots the hourly table. The weekly view plots the weekly series. |
| DualLineChart.PrefixBefore | src/components/charts/DualLineChart.tsx:115 | The first piece of a split on ":" is the longest prefix without ":". It is followed by ":" unless it is the whole text. |
| DualLineChart.TickLabel | src/components/charts/DualLineChart.tsx:113-118 | In the weekly view the tick is the label unchanged. In the daily view it is the text before the first ":" followed by "h". |
| DualLineChart.HourlyTicks | src/components/charts/DualLineChart.tsx:113-118 | Daily ticks of the hourly table are the two-digit hour followed by "h" (for example "09:00" becomes "09h"). |
| DualLineChart.MaxCases | src/components/charts/DualLineChart.tsx:123 | The `dataMax` of the left axis is a case count of the data and bounds every case count. |
| DualLineChart.LeftDomain | src/components/charts/DualLineChart.tsx:123 | The left axis runs from 0 to the largest hourly case count plus 5 in the daily view, and from 40 to 75 in the weekly view. In the daily view the upper bound is reached by some hour and bounds every hour. |
| DualLineChart.PlottedValuesFitDomains | src/components/charts/DualLineChart.tsx:121-133 | Every plotted case count lies in the left-axis domain (`LeftDomain`) of its view. Daily that is [0, dataMax + 5]; weekly it is [40, 75]. Every efficiency, hourly or weekly, lies in the right-axis domain `RightDomain`, which is [0, 100]. |

## Findings

| source | as written | input that shows it | evidently intended | confidence | as-written member | corrected member |
|---|---|---|---|---|---|---|
| src/components/ui/FilterDropdown.tsx:43 | An empty `selectedOptions` is shown as every option selected. This also applies to the `[]` that "Select all" and the last uncheck emit. Clearing therefore can never be seen, and the label branch at line 77 is dead. | Options are the 8 specialties and the stored selection is all 8. Clicking "Select all" emits `[]` and the page stores it. The dropdown still reads "Select all" with every box checked, and the next click emits `[]` again. Meanwhile `DelayFactorsPieChart` (src/components/charts/DelayFactorsPieChart.tsx:83-88) receives the stored `[]` and shows "Please select at least one specialty to view data". | Only an absent `selectedOptions` prop means "all". A stored `[]` is shown as empty: the placeholder label, nothing checked. The next "Select all" click then selects everything. | medium, not executed | FilterDropdown.ClearIsShownAsFull | FilterDropdown.SelectAllTogglesWhenFixed |

`ViewOf` is the defaulting as written. `ViewOfFixed` is the corrected
defaulting. The handlers, the label and the checkbox predicates take either
view unchanged. Every dropdown property above is stated over `ViewOf`, except
`ViewOfFixed` and `SelectAllTogglesWhenFixed`, which are about the corrected
view. Because `ViewOf` shows an empty selection as full, `ClickTwiceRestores`
needs a non-empty stored selection. `ClickFlipsOneCheckbox` likewise needs the
click to leave a non-empty selection.

## Left out

- Floating-point `Math.random` is replaced by whole-number draws in the range its `Math.floor(... * N)` produces. The generator runs once, when the chart file is loaded. The model takes that one series as a parameter.
- React state and rendering are not modelled: the dropdown's `isOpen`, the chart's `viewType` state (the view is a parameter), JSX, and the recharts and Radix components.
- The x-axis tick `interval` (3 daily, 1 weekly) and the tooltip formatter are not modelled. They are presentation settings with no logic to state.
- The daily left-axis upper bound: recharts evaluates the daily upper bound `'dataMax + 5'`. It is modelled as the largest hourly case count plus 5.
- The `console.log` in the page's selection handler is output only and is not modelled.
- Other pages and components are not part of this model: the other charts, the sidebar, metric cards, the schedule grid and the date-range picker. They hold static tables or foreign calls (`Date`, date-fns `format`) and no filtering logic.
- What the charts do with the page's selection is not modelled. `DelayFactorsPieChart` (src/components/charts/DelayFactorsPieChart.tsx:83-92) tests it only for emptiness and then shows a "Please select at least one specialty" prompt instead of its data. `LineChart` (src/components/charts/LineChart.tsx:41), `PieChart` (src/components/charts/PieChart.tsx:28) and `DualLineChart` (src/components/charts/DualLineChart.tsx:81) declare no props, so they ignore it.
