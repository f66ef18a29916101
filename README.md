# Lead dashboard aggregation, in Dafny

This project models the client-side aggregation layer of a real-estate
call-agent dashboard. The page fetches rows of the `Retell_Leads` table.
Each row is one lead, called by an automated agent. The layer turns that
list into the numbers and labels the page shows:

- **Heatmaps** (`TimeAnalysis`): answered calls and answer rates in 24 hour
  buckets and 7 weekday buckets, plus the colour class of a rate.
- **Trends** (`Dashboard`): calls per day and cost per day over a 7-day
  window ending today, and the first ten rows of the recent-leads table
  with their status and meeting pills.
- **Funnel** (`ConversionFunnel`): calls made, answered and booked.
- **Cards** (`MetricsCards`): totals, rates, means, and the "h m" split of
  the total duration.
- **Lead panel** (`LeadDetails`): the sentiment colour and icon, the
  `m:ss` duration, and the fallbacks for empty fields.

The shared modules are:

- `Leads`: the row, its predicates and counts, and the zero-guarded
  percentage.
- `Tally`: counting leads by a key read off their call time.
- `NumberText`: the JavaScript number semantics the screens rely on.
  These are `Math.floor`, the truncating `%`, `toString`, `padStart` and
  `parseInt`.
- `Wrappers`: `Option`.

## How the code is modelled

The heatmap and trend builders work in place:

- They allocate an array of buckets.
- They bump buckets in a `forEach` over the leads.
- The heatmaps then fill in the rates in a second pass.

Here they are methods over Dafny arrays with loop invariants. Each method
is proved against a specification function. The specification functions
are counts such as `Tally.CountAt` and `Tally.AnsweredAt`, or cost sums
such as `Dashboard.CostOn`. Lemmas prove what those functions promise:

- **Conservation:** the buckets add up to the number of timed leads.
- **No double counting:** distinct keys never count one lead twice.
- **Bounds:** answered is at most total, and rates lie in 0..100.

The other components are pure expressions, and they are modelled as
functions.

Inputs and conventions:

- **Call time.** A call timestamp reaches the model already read by the
  browser's date functions. It is a `CallTime` carrying its non-empty text, the local hour, the
  local day of week and the calendar-date key. The key is the number of
  days since 1970-01-01 of the UTC ISO date.
- **Today.** "Today" is a parameter of the trend builders. It is the day
  key of the current instant.
- **Missing timestamps.** A text column counts as present only when it is
  non-null and non-empty, as JavaScript truthiness has it. A missing or
  empty timestamp is `None`.
- **Rates and money.** Rates, costs and averages are exact reals.
  Durations are integers.

The trend window's day labels are the pt-BR short weekday names of the
window's day keys (1970-01-01 was a Thursday).

The "Duração Total" card shows `Math.floor(d / 60)` followed by "h" and
`d % 60` followed by "m". Durations are stored in seconds, so the two
numbers are minutes and seconds, not hours and minutes.
`MetricsCards.DurationCardText` models the text as written, and
`MetricsCards.DurationCardReadsBack` proves what the two numbers really
are.

Timestamps the browser cannot parse are not skipped by the code:

- `new Date(text).getHours()` is `NaN`, and `hours[NaN].total++` throws.
- `toISOString()` of an invalid date throws too.

So the model has only absent or already-parsed timestamps.

## Model

| member | source | states |
|---|---|---|
| Leads.CountAnswered | src/components/dashboard/MetricsCards.tsx:30 | The number of answered leads is at most the number of leads. It is 0 exactly when no lead has `atendido? === 'sim'`. |
| Leads.CountBooked | src/components/dashboard/MetricsCards.tsx:31 | The number of booked meetings is at most the number of leads. It is 0 exactly when no lead has `Reuniao_marcada? === 'sim'`. |
| Leads.CountTimed | src/components/dashboard/TimeAnalysis.tsx:27 | The number of leads with a call timestamp is at most the number of leads. It is 0 exactly when none has one. |
| Leads.DisplayOr | src/components/dashboard/LeadDetailsPanel.tsx:78-113 | `value \|\| fallback` shows the value when it is non-empty. Otherwise it shows the fallback, so a non-empty fallback never yields an empty cell. |
| Leads.StatusBadge | src/pages/Dashboard.tsx:232-236 | The pill reads "Atendido" exactly when the call was answered. It is green exactly then, and it is the red "Não Atendido" otherwise. |
| Leads.MeetingBadge | src/pages/Dashboard.tsx:239-243 | The pill reads "Marcada" exactly when a meeting was booked. It is blue exactly then, and it is the gray "Não Marcada" otherwise. |
| Leads.Percent | src/components/dashboard/TimeAnalysis.tsx:36-38 | The guarded share is 0 when the whole is 0, never negative, and at most 100 when part ≤ whole. |
| Leads.PercentProperties | src/components/dashboard/TimeAnalysis.tsx:36-38 | The guarded share is 0 when the whole is 0. Otherwise the share times the whole is 100 times the part. It lies in 0..100 when part ≤ whole. It is 0 exactly when the part or the whole is 0 and 100 exactly when part = whole. |
| NumberText.FloorDiv | src/components/dashboard/MetricsCards.tsx:72 | `Math.floor(a / b)` is the q with q·b ≤ a < q·b + b. |
| NumberText.Rem | src/components/dashboard/MetricsCards.tsx:72 | JavaScript `%` takes the sign of the dividend. It lies in 0..b-1 for a ≥ 0 and in -(b-1)..0 for a < 0, and it completes the floor division of \|a\|. |
| NumberText.NatToString | src/components/dashboard/LeadDetailsPanel.tsx:122 | `toString` of a natural number gives non-empty decimal digits without a leading zero. It has one digit below 10 and two digits from 10 to 99. |
| NumberText.PadStart | src/components/dashboard/LeadDetailsPanel.tsx:122 | `padStart(width, fill)` gives length max(\|s\|, width). `s` is its suffix and the fill makes up the rest. |
| NumberText.TrimStartSpec | src/components/dashboard/MetricsCards.tsx:35 | `parseInt` skips leading white space and stops at the first character that is not white space. |
| NumberText.NoDigitsParsesAsNaN | src/components/dashboard/MetricsCards.tsx:35 | Text with no decimal digit parses as NaN. |
| NumberText.ParseInt | src/components/dashboard/MetricsCards.tsx:35 | `parseInt` yields a number exactly when, after leading white space and one sign, the text starts with a decimal digit, or with 0x or 0X followed by a hexadecimal digit. |
| NumberText.ParseIntOfIntToString | src/components/dashboard/MetricsCards.tsx:35 | `parseInt` reads back the integer that `toString` wrote, whatever follows it, unless the following text continues the number. That happens when a digit follows, or when an x or X follows the text "0" and makes it hexadecimal. |
| NumberText.ParseIntOfDigits | src/components/dashboard/MetricsCards.tsx:35 | A run of decimal digits, leading zeros included, parses as its decimal value when no digit follows it. An x or X may follow it too, except after a lone "0". |
| NumberText.ParseIntSkipsWhitespace | src/components/dashboard/MetricsCards.tsx:35 | Leading white space does not change what `parseInt` returns. |
| Tally.KeyOf | src/components/dashboard/TimeAnalysis.tsx:27-28 | A lead has a bucket key exactly when it has a call timestamp. Hour keys lie in 0..23 and weekday keys in 0..6. |
| Tally.CountAt | src/components/dashboard/TimeAnalysis.tsx:26-34 | The count under one key is at most the number of timed leads. |
| Tally.AnsweredAt | src/components/dashboard/TimeAnalysis.tsx:30-32 | The answered count under a key is at most the total under that key. |
| Tally.CountWithin | src/pages/Dashboard.tsx:286-292 | The leads keyed in a set of keys are at most the timed leads. |
| Tally.CountStep | src/components/dashboard/TimeAnalysis.tsx:29 | Counting one more lead raises the count of its own key by one and leaves every other key unchanged. |
| Tally.AnsweredStep | src/components/dashboard/TimeAnalysis.tsx:30-32 | Counting one more lead raises its key's answered count exactly when that lead was answered. |
| Tally.SumAtIsCountWithin | src/components/dashboard/TimeAnalysis.tsx:26-34 | Over distinct keys, the per-key counts add up to the number of leads keyed in them, so no lead is counted twice. |
| Tally.CountWithinAll | src/components/dashboard/TimeAnalysis.tsx:26-34 | When every possible key is listed, every timed lead is counted. |
| Tally.HourAndWeekdaySlotsCountEveryTimedLead | src/components/dashboard/TimeAnalysis.tsx:26-63 | The 24 hour counts add up to the number of leads with a timestamp, and so do the 7 weekday counts. |
| TimeAnalysis.HourHeatmap | src/components/dashboard/TimeAnalysis.tsx:18-41 | `getHourHeatmap` returns exactly 24 buckets, bucket h for hour h. Each holds the count and answered count of its hour and their guarded rate, and the totals add up to the number of timed leads. |
| TimeAnalysis.CountByHour | src/components/dashboard/TimeAnalysis.tsx:19-34 | The counting pass starts from 24 zero buckets. Each timed lead bumps its hour's total, and the answered count too when the lead was answered. |
| TimeAnalysis.HourCountedStep | src/components/dashboard/TimeAnalysis.tsx:26-34 | One lead changes exactly the bucket of its hour: total + 1, and answered + 1 when answered. |
| TimeAnalysis.SetHourRates | src/components/dashboard/TimeAnalysis.tsx:36-38 | The rate pass sets every bucket's rate to its guarded share and changes nothing else. |
| TimeAnalysis.HourBucketTotals | src/components/dashboard/TimeAnalysis.tsx:26-34 | The hour buckets' totals add up to the number of leads with a timestamp. |
| TimeAnalysis.HourSlotInvariants | src/components/dashboard/TimeAnalysis.tsx:36-38 | In every hour bucket, answered ≤ total. The rate is the guarded share: 0 for an empty bucket, and within 0..100. |
| TimeAnalysis.WeekdayHeatmap | src/components/dashboard/TimeAnalysis.tsx:44-70 | `getWeekdayHeatmap` returns exactly 7 buckets, Domingo..Sábado, each with its weekday's counts and rate. The totals add up to the number of timed leads. |
| TimeAnalysis.CountByWeekday | src/components/dashboard/TimeAnalysis.tsx:45-63 | The weekday counting pass starts from 7 named zero buckets and bumps each timed lead's weekday. |
| TimeAnalysis.DayCountedStep | src/components/dashboard/TimeAnalysis.tsx:55-63 | One lead changes exactly the bucket of its weekday. |
| TimeAnalysis.SetDayRates | src/components/dashboard/TimeAnalysis.tsx:65-67 | The weekday rate pass sets every rate to its guarded share and changes nothing else. |
| TimeAnalysis.DayBucketTotals | src/components/dashboard/TimeAnalysis.tsx:55-63 | The weekday buckets' totals add up to the number of leads with a timestamp. |
| TimeAnalysis.DaySlotInvariants | src/components/dashboard/TimeAnalysis.tsx:44-67 | Weekday bucket d is named after weekday d and has answered ≤ total. Its rate is the guarded share in 0..100. |
| TimeAnalysis.HeatmapColor | src/components/dashboard/TimeAnalysis.tsx:75-81 | Every rate gets one of the five colour classes. |
| TimeAnalysis.HeatmapColorMonotone | src/components/dashboard/TimeAnalysis.tsx:75-81 | For rates ≥ 0, a higher rate never gets a cooler colour. |
| TimeAnalysis.BucketColor | src/components/dashboard/TimeAnalysis.tsx:75-81 | The colour in terms of a bucket's counts: gray exactly when nothing was answered. Then red below a quarter answered, yellow below a half, blue below three quarters, and green from three quarters up. |
| ConversionFunnel.FunnelData | src/components/dashboard/ConversionFunnel.tsx:19-42 | Exactly three stages, in the order Realizadas, Atendidas, Marcadas. Stage 1 counts every lead at a literal 100, even for no leads. Stages 2 and 3 count answered and booked leads, each at most the total. |
| ConversionFunnel.FunnelPercentages | src/components/dashboard/ConversionFunnel.tsx:33-39 | The percentage of stages 2 and 3 is 0 with no leads. Otherwise it is its count's share of all calls, not of the answered ones, and it lies in 0..100. |
| ConversionFunnel.BookedMayExceedAnswered | src/components/dashboard/ConversionFunnel.tsx:37-39 | Some list has more booked meetings than answered calls: the meeting stage is not nested in the answered one. |
| MetricsCards.ComputeMetrics | src/components/dashboard/MetricsCards.tsx:29-76 | The card values: the call count is the list length. The answered and booked counts are the leads' answered and booked counts, each at most it. The total cost, total duration and average attempts are those of the leads. With no calls, every rate and mean is 0. With no answered call, the conversion rate is 0. |
| MetricsCards.AnswerRateIsPercentage | src/components/dashboard/MetricsCards.tsx:52 | The answer rate times the call count is 100 times the answered count, and it lies in 0..100. |
| MetricsCards.ConversionRateIsRelativeToAnswered | src/components/dashboard/MetricsCards.tsx:60 | Once a call is answered, the conversion rate times the answered count is 100 times the meetings. It is never below the funnel's meeting share of all calls, and it exceeds 100 exactly when more meetings than answered calls are booked. |
| MetricsCards.CostPerCallIsMean | src/components/dashboard/MetricsCards.tsx:68 | The cost per call times the call count is the total cost. |
| MetricsCards.AvgDurationIsFloorMean | src/components/dashboard/MetricsCards.tsx:76 | The average duration a satisfies a·n ≤ total < (a+1)·n: the mean rounded down. |
| MetricsCards.DurationSplit | src/components/dashboard/MetricsCards.tsx:72 | The two numbers of the duration card are the quotient and remainder of the total by 60. For a total ≥ 0, 60·q + r = total and 0 ≤ r < 60. |
| MetricsCards.DurationCardText | src/components/dashboard/MetricsCards.tsx:72 | For every total, negative included, the card text parses back to `Math.floor(d / 60)`, and it ends in "m". |
| MetricsCards.DurationCardReadsBack | src/components/dashboard/MetricsCards.tsx:72 | For d ≥ 0 the card text parses back to d / 60 before the "h" and to d % 60 after it. |
| MetricsCards.TotalCostAppend | src/components/dashboard/MetricsCards.tsx:32 | The total cost of two lists together is the sum of their total costs. |
| MetricsCards.TotalCost | src/components/dashboard/MetricsCards.tsx:32 | With no negative cost present, and missing costs counting as 0, the total cost is ≥ 0. |
| MetricsCards.TotalDuration | src/components/dashboard/MetricsCards.tsx:33 | With no negative duration present, and missing durations counting as 0, the total duration is ≥ 0. |
| MetricsCards.NullAttemptsReadAsNaN | src/components/dashboard/MetricsCards.tsx:35 | A null attempts column reaches `parseInt` as "null", which is NaN and counts 0 like a missing value. |
| MetricsCards.AttemptsOf | src/components/dashboard/MetricsCards.tsx:35 | A missing attempt count, or one `parseInt` reads as NaN, adds 0. A run of decimal digits adds its decimal value. |
| MetricsCards.AvgAttempts | src/components/dashboard/MetricsCards.tsx:34-36 | The average attempts is 0 for no leads, and it is ≥ 0 when the parsed attempt counts sum to ≥ 0. |
| MetricsCards.AvgAttemptsIsMean | src/components/dashboard/MetricsCards.tsx:34-36 | The average attempts is 0 for no leads. Otherwise, times the lead count, it is the sum of the parsed attempt counts. |
| MetricsCards.AttemptsSumBounds | src/components/dashboard/MetricsCards.tsx:35 | If every attempt count lies in 0..hi, their sum lies in 0..n·hi. |
| MetricsCards.AvgAttemptsBounds | src/components/dashboard/MetricsCards.tsx:34-36 | If every attempt count lies in 0..hi, the average does too. |
| Dashboard.WindowIsLastSevenDays | src/pages/Dashboard.tsx:276-284 | The window has 7 day keys, today-6 up to today. Each key is one more than the previous, and no day appears twice. |
| Dashboard.WindowWeekdaysDistinct | src/pages/Dashboard.tsx:280 | The seven window days fall on seven different weekdays. |
| Dashboard.WindowLabelsDistinct | src/pages/Dashboard.tsx:280 | The seven window days carry seven different short weekday names. |
| Dashboard.DayLabel | src/pages/Dashboard.tsx:280 | A day's label is a four-character short name ending in a dot. It is "dom." exactly when the day is a Sunday. |
| Dashboard.Find | src/pages/Dashboard.tsx:289 | `find` returns the first index whose entry matches, or nothing exactly when no entry matches. |
| Dashboard.WeeklyData | src/pages/Dashboard.tsx:275-295 | `getWeeklyData` returns 7 points, oldest first. Point k carries day key today-(6-k), its label, and the number of leads called that day. |
| Dashboard.WeeklyCallsCountTheWindow | src/pages/Dashboard.tsx:286-292 | The chart's calls add up to the number of leads called during the window, which is at most the number of timed leads. |
| Dashboard.CostData | src/pages/Dashboard.tsx:297-317 | `getCostData` returns 7 points, oldest first. Point k carries the sum of the non-zero costs of that day's calls. |
| Dashboard.CostOn | src/pages/Dashboard.tsx:308-313 | A day on which no lead was called costs 0. With no negative cost, a day's cost is ≥ 0. |
| Dashboard.CostOnIsDayCost | src/pages/Dashboard.tsx:308-313 | Skipping zero and missing costs changes nothing: a day's cost is the plain sum of its calls' costs, with missing as 0. |
| Dashboard.CostSumIsCostWithin | src/pages/Dashboard.tsx:308-313 | Over distinct days, the day costs add up to the cost of the leads called on those days. |
| Dashboard.CostWithinAtMostTotal | src/pages/Dashboard.tsx:308-313 | With no negative cost, the cost of the leads on any set of days is at most the total cost. |
| Dashboard.WeeklyCostsCountTheWindow | src/pages/Dashboard.tsx:308-313 | The chart's costs add up to the cost of the window's calls. With no negative cost this lies between 0 and the total cost card. |
| Dashboard.Trends | src/pages/Dashboard.tsx:275-317 | For the same today, both charts have the same days and labels in the same order. Calls total the window's timed leads and costs total the window's cost. |
| Dashboard.RecentRows | src/pages/Dashboard.tsx:226-245 | The table has min(10, n) rows. Row k is lead k, in fetched order. |
| Dashboard.RecentRowsIgnoreTheRest | src/pages/Dashboard.tsx:226 | Leads after the tenth never change the table. |
| Dashboard.RowOf | src/pages/Dashboard.tsx:227-245 | A row keeps its lead's id and shows its cost, missing as 0. No text cell is empty. The pills read Atendido/Marcada exactly when the lead is answered or booked. |
| LeadDetails.ToLower | src/components/dashboard/LeadDetailsPanel.tsx:33 | Lowering keeps the length and lowers each ASCII capital in place. |
| LeadDetails.ToLowerIdempotent | src/components/dashboard/LeadDetailsPanel.tsx:33 | Lowering twice is lowering once. |
| LeadDetails.Classify | src/components/dashboard/LeadDetailsPanel.tsx:32-56 | The class of a sentiment: Positive, Negative or Neutral exactly when its lowered text is positivo, negativo or neutro. Any other text, or a missing one, is Other. |
| LeadDetails.SentimentColor | src/components/dashboard/LeadDetailsPanel.tsx:32-43 | The class is green, red or yellow exactly when the lowered sentiment is positivo, negativo or neutro. It is always one of those three or gray. |
| LeadDetails.SentimentIcon | src/components/dashboard/LeadDetailsPanel.tsx:45-56 | The icon is 😊, 😞 or 😐 exactly when the lowered sentiment is positivo, negativo or neutro. It is always one of those three or ❓. |
| LeadDetails.ColorAndIconAgree | src/components/dashboard/LeadDetailsPanel.tsx:32-56 | Both switches make the same four-way split: green with 😊, red with 😞, yellow with 😐, and gray with ❓ for everything else. |
| LeadDetails.SentimentIgnoresCase | src/components/dashboard/LeadDetailsPanel.tsx:33-46 | Texts that differ only in letter case get the same colour and icon. A missing or empty sentiment gets the gray default. |
| LeadDetails.PaddedSeconds | src/components/dashboard/LeadDetailsPanel.tsx:122 | Seconds 0..59 padded to two places are two decimal digits worth the seconds. |
| LeadDetails.MinutesColonSeconds | src/components/dashboard/LeadDetailsPanel.tsx:122 | `${m}:${ss}` has one colon after the minute digits and parses back to m before the colon and to ss after it. |
| LeadDetails.DurationText | src/components/dashboard/LeadDetailsPanel.tsx:122 | The tile reads "0:00" exactly when the duration is missing or 0. |
| LeadDetails.DurationTextReadsBack | src/components/dashboard/LeadDetailsPanel.tsx:122 | For a positive duration d the tile reads minutes, a colon, then exactly two digits. They parse back to d / 60 and d % 60, with 60·minutes + seconds = d. |
| LeadDetails.Render | src/components/dashboard/LeadDetailsPanel.tsx:30 | With no lead selected the panel renders nothing, and it renders something exactly when a lead is selected. |
| LeadDetails.DetailsOf | src/components/dashboard/LeadDetailsPanel.tsx:78-220 | No text cell of the panel is empty. The sentiment is green with 😊 exactly when it classifies as positive, and gray with ❓ exactly when it is none of the three keywords. |
| LeadDetails.DetailsFallbacks | src/components/dashboard/LeadDetailsPanel.tsx:78-220 | Fallbacks: empty or missing name, email, phone and closer show N/A, attempts show '0', and a falsy duration shows 0:00. A missing cost is 0, a missing sentiment reads "Não informado", and missing dates show N/A. The summary appears only when non-empty. |
| LeadDetails.PanelBadgesMatchLabels | src/components/dashboard/LeadDetailsPanel.tsx:144-164 | The panel's pills read Atendido/Marcada exactly when the lead is answered or booked, like the table's. |

## Left out

- **Fetching and live updates.** The Supabase fetch, the realtime
  subscription, the loading state and the error logging are I/O on a
  foreign client.
- **Filtering and ordering.** The date-range and e-mail filters run on the
  server, and so does the `created_at` descending order. The model takes
  the fetched list as given. "Recent" therefore means "first in the
  fetched order".
- **Date parsing, time zones and locale formatting.** `new Date`,
  `getHours`, `getDay`, `toISOString`, `toLocaleDateString` and
  `toLocaleString` are outside the model:
  - Timestamps arrive pre-parsed.
  - Panel dates are an abstract `LocaleString`.
- **Unparsable timestamps.** The code throws on them, and the model has
  none.
- **The local-versus-UTC mismatch.** The window's keys are UTC dates,
  while the page labels them with local weekdays. The model labels each
  key with its own weekday.
- **Floating point.** Rates, costs and means are exact reals, and NaN
  costs or durations are not modelled. `toFixed` rounding is not
  modelled, and neither is the case where `parseInt` gets a number too
  large for a double.
- **Fractional durations.** Durations are integers. `Math.floor` and `%`
  on fractional seconds are not modelled.
- LeadDetails.ToLower: lowers only ASCII letters. JavaScript's
  `toLowerCase` handles all of Unicode, but the three keywords are ASCII.
  The only non-ASCII characters that lower to ASCII are the Kelvin sign
  (to k) and the dotted capital I (to i plus a combining dot). Neither can
  produce one of the keywords, so the classification is the same.
- LeadDetails.DurationTextReadsBack: proved for positive durations only.
  A negative duration shows JavaScript's signed remainder, for example
  "-1:-1" for -1, which the model computes but does not characterise.
- **Markup.** All JSX, charts, CSS and the `capitalize` styling of the
  sentiment text are left out. Only the class names the code chooses are
  kept.
- **The landing page.** `src/pages/Index.tsx` is a static page and is not
  part of this model.
- **Generated types.** The generated Supabase type helpers in
  `src/integrations/supabase/types.ts` are not part of this model. Only
  the `Retell_Leads` row shape (lines 75-92) shapes `Leads.Lead`.
