# LED-wall panels: the arithmetic, proved

This project models the arithmetic of eight programs of the FlaschenTaschen LED-wall repository and
proves what those programs claim about it. Numbers that the programs hold in floating point are Dafny
`real`s here, so every statement is about exact arithmetic; a missing sample (`NaN`, `None`) is an
`Option`. Colours, glyphs, random draws, clocks and the video decoder are opaque values or parameters.

| files | program | what is modelled |
|---|---|---|
| `BikesEstimate`, `BikesEstimateLaws`, `BikesDays` | `demos/bikes.py` | the live trip estimator and its coverage map |
| `BikesVerdict`, `BikesVerdictLaws` | `demos/bikes.py` | the verdict against history |
| `BikesHistory`, `BikesChart`, `BikesGaps` | `demos/bikes.py` | smoothing, percentiles, calibration, scale, the two drawings, and what a missed slot does to the line |
| `BikesArchive` | `demos/bikes.py` | the archive replay and the merge of months |
| `BgpRates`, `BgpCounts`, `BgpScale`, `BgpChart`, `BgpColumns`, `BgpTicker` | `demos/bgp.py` | resampler, axis ladder, stacked chart, scrolling ticker |
| `AdsbTrails`, `AdsbReplay` | `demos/adsb.py` | frames to trail points, and the replay |
| `CaisoMix`, `CaisoStack` | `demos/caiso.py` | fuel groups and the stacked area |
| `Chladni`, `ChladniField` | `demos/chladni.py` | the sand step, the deposit, the slopes and the timeline |
| `AnsiReveal`, `AnsiSchedule` | `demos/ansi.py` | the page bake, the two-slice reveal, the schedule |
| `ConsoleTyping`, `ConsoleLexer` | `demos/console.py` | the typing schedule, its binary search, the scroll, the lexer |
| `VideoPacing` | `client/send-video.cc` | the decode and pace loop against any decoder and clock |

`RealSeq`, `Interpolation`, `Percentiles`, `FlatGrid`, `MapSums` and `Options` hold what those share:
sums, `np.interp`, `np.percentile`, flat pixel indices, sums over maps.

Code that updates arrays, counters or fields in place is a method with loops here (numpy's masked and
sliced assignments are Dafny's parallel assignments), each proved to compute a specification function;
the lemmas then say what that function means.

`dafny verify dfyconfig.toml` checks everything.

## Where the code and its own words differ

- `demos/bgp.py:421-424,443-445` promises that no column loses all of its withdrawals. One can:
  the outline overwrites the only lit row of a bar between one and two rows tall. `BgpChart.WithdrawalsShownIff`
  gives the exact condition, `BgpChart.WithdrawalsCanVanish` an input.
- `demos/ansi.py:385` means a pause to come once a row is complete. The index is one early: the pause falls
  before the row's last cell. `AnsiSchedule.PauseFallsBeforeTheLastCell` shows that it is so for every page and
  every pause, and that a row's last cell is on time exactly when no pause was asked for;
  `AnsiSchedule.APauseInsideItsRow` is a small page it happens on.
- `demos/bikes.py:637-641` relies on intervals that tile. Each interval is taken to end with its slot, so
  passes that are not on the slot grid overlap, and then the drawn rate is no longer worth the booked trips.
  `BikesEstimateLaws.IntegralIsBookedIff` gives the exact condition on the pass times,
  `BikesEstimateLaws.OverlapLosesTrips` a day of two passes that fails it.
- `demos/bikes.py:857-859` promises that a gap in coverage is a gap in the line, and that no column is drawn from a
  measurement nobody made. On a narrow panel a missed slot may hold no column's centre and then leaves no gap:
  `BikesGaps.GapShowsIff` and `BikesGaps.OneMissedShowsIff` give the exact condition, `BikesGaps.AMissedPassLeavesNoGap`
  a missed slot on 64 columns, `BikesGaps.WidePanelsShowEveryGap` the widths at which it cannot happen. And a drawn
  column beside a gap is pulled towards nothing: `BikesGaps.DrawnFromMeasurementsIff` says which columns are not.
- `client/send-video.cc:45` tests `>`, so a deadline on a whole second leaves a full second in the nanosecond
  field, and a sleep computed from it on a whole clock second is one `nanosleep` refuses.
  `VideoPacing.SleepIsRefusedIff` says exactly when, `VideoPacing.ASleepIsRefused` gives one.
- `demos/caiso.py:644,648` starts the lowest band's lower boundary at the last row and excludes it, so the
  fill stops one row short of the chart's last row. `CaisoStack.BandsTile`, and `CaisoStack.TheFloorRowIsBare` for a
  stack of one band.

## Model

| member | source | states |
|---|---|---|
| BikesEstimate.EstimateDay | demos/bikes.py:610-645 | one in-place pass over the readings leaves, in each slot, the rate of the last interval touching it, the capped sum of interval parts, and the trips booked there |
| BikesEstimate.AddReading | demos/bikes.py:616-642 | one reading moves all three accounts from the first `i` slots of the record to the first `i + 1` |
| BikesEstimate.Record.SpanOfReading | demos/bikes.py:623-628 | an interval runs from inside its first slot to the end of its own slot, is never empty, and the guard on an empty span never fires |
| BikesEstimate.Record.PartOfSlot | demos/bikes.py:635-636 | an interval spends time in exactly the slots it touches, never more than a bucket, and its parts telescope |
| BikesDays.EstAtMiddle | demos/bikes.py:629-630 | every measurement is multiplied by the factor of the hour its interval's middle falls in, intervals across several hours included |
| BikesDays.OneReadingDay | demos/bikes.py:613-645 | a day of one reading, slot by slot from its seconds: where it is booked and for how much, the rate it paints and where, the seconds it covers |
| BikesDays.DayAddsUp | demos/bikes.py:631-643 | any day's trips and covered seconds are the sums over its readings taken alone, the seconds up to a full slot |
| BikesDays.LastRatePaints | demos/bikes.py:632-633 | a slot's rate is that of the last reading that would have painted it alone |
| BikesEstimateLaws.CoverageConserved | demos/bikes.py:613-643 | before the cap, the coverage array holds exactly the sum of the midnight-clipped lengths |
| BikesEstimateLaws.WatchedIsUnion | demos/bikes.py:623-636 | a moment of a slot lies in some interval exactly when it is in the slot's last `Watched` seconds, so `Watched` is the length of the union there |
| BikesEstimateLaws.CoverageMap | demos/bikes.py:643-645 | after the cap a slot holds at most a bucket and at least its part of the union, exactly that when intervals tile, and is seen exactly when its rate is defined |
| BikesEstimateLaws.BookedOnce | demos/bikes.py:637-642 | whatever the intervals, booked trips total each measurement exactly once |
| BikesEstimateLaws.IntegralIsBooked | demos/bikes.py:610-645 | with tiling intervals of a second or more, the painted rate over covered seconds integrates to exactly the booked trips |
| BikesEstimateLaws.IntegralIsBookedIff | demos/bikes.py:610-645 | for given pass times that identity holds for all movements if and only if the intervals tile and each spans a second |
| BikesEstimateLaws.OverlapLosesTrips | demos/bikes.py:631-642 | two overlapping passes whose drawn curve is worth less than their booked trips |
| BikesEstimateLaws.OneMoveDisagrees | demos/bikes.py:631-642 | a lone movement that no earlier interval reaches into, and that is overpainted later or measured in under a second, is drawn for less than was booked |
| BikesEstimateLaws.OneMoveOverdrawn | demos/bikes.py:631-642 | a lone movement that no later interval overlaps, beginning part way through a slot an earlier one also watched, is drawn for more |
| BikesEstimateLaws.HourOfInterval | demos/bikes.py:629-630 | an interval within one hour is multiplied by that hour's factor |
| BikesEstimateLaws.UniformFactor | demos/bikes.py:617-642 | with one factor all day the total is that factor times half of all movement, however passes were spaced |
| BikesVerdict.CoverageFraction | demos/bikes.py:648-661 | the fraction starts at the first seen slot, is the plain quotient of seconds watched over seconds elapsed, and is one exactly when every slot since was watched throughout |
| BikesVerdict.VerdictMonotone | demos/bikes.py:664-696 | more trips today never makes the verdict quieter |
| BikesVerdict.VerdictScaleInvariant | demos/bikes.py:677-696 | scaling today and every past day by one positive factor changes nothing |
| BikesVerdict.VerdictSilent | demos/bikes.py:672-695 | within ten per cent of the historical median over the covered slots the verdict is the usual one or too early to say |
| BikesVerdict.MineIsTotalUpToNow | demos/bikes.py:677-682 | the total compared is exactly what was booked in slots up to now |
| BikesVerdict.VerdictComparesTheHeadline | demos/bikes.py:664-696 | with no measurement later than now it is the total the headline prints at line 1091 |
| BikesVerdictLaws.TheirsInSeconds | demos/bikes.py:672-687 | a past day counts for what it had in each slot up to now, times the part of the slot that was watched today |
| BikesVerdictLaws.WordForEachTotal | demos/bikes.py:672-695 | which totals are given which word: too early, or busier or quieter by more than the band around the median |
| BikesVerdictLaws.ProportionalDayIsUsual | demos/bikes.py:682-695 | a day that booked the watched share of what every past day had is never busier or quieter |
| BikesVerdictLaws.CoverageEnds | demos/bikes.py:648-661 | the slots named are the first and the last watched up to now, and none exactly when none was |
| BikesHistory.SmoothRow | demos/bikes.py:466-473 | convolving the lengthened row with a flat kernel leaves in each slot the mean of its window, the date's ends held |
| BikesHistory.FlatKernelIsMean | demos/bikes.py:466-473 | the products of the kernel laid over the lengthened row are that mean, slot by slot, for every accepted width |
| BikesHistory.SmoothMonotone | demos/bikes.py:466-473 | smoothing preserves order between dates |
| BikesHistory.SmoothBounds | demos/bikes.py:466-473 | smoothing never leaves the range of the date |
| BikesHistory.SmoothIsCentred | demos/bikes.py:454-474 | smoothing commutes with reading the day backwards |
| BikesHistory.WeekdayProfile | demos/bikes.py:477-493 | smoothing every date and then going slot by slot gives the three percentiles of the smoothed dates, in trips an hour |
| BikesHistory.SmoothedOfThree | demos/bikes.py:454-474 | a smoothed slot is the mean of itself and its two neighbours, an end slot standing in for the one it lacks |
| BikesHistory.ProfileIs | demos/bikes.py:489-493 | one slot of a profile, written out: the dates' means in order, the percentile between two of them, 3600 over the bucket |
| Percentiles.PercentileIs | demos/bikes.py:490-490 | a percentile is that many hundredths of the way along the data in order, in between by the part of the way |
| BikesHistory.ProfileOrder | demos/bikes.py:477-493 | a higher percentile of a weekday is nowhere below a lower one |
| BikesHistory.ProfileMonotone | demos/bikes.py:477-493 | a history at least as busy on every date has a profile at least as high |
| BikesHistory.ProfileBounds | demos/bikes.py:477-493 | no percentile of a weekday leaves the range its dates had, at whatever hourly scale |
| BikesHistory.HoursPartitionTheDays | demos/bikes.py:510-515 | the twenty-four hourly pools split the pooled days without loss |
| BikesHistory.HourAddsDate | demos/bikes.py:510-515 | one more date adds to an hour's pool exactly its slots that begin within that hour |
| BikesHistory.ArchiveIsReproduced | demos/bikes.py:510-516 | with movement in every hour that had trips, the calibrated archive estimates exactly the trips it counted |
| BikesHistory.CalibrationReproducesTrips | demos/bikes.py:516 | an hour's factor times its own movement gives back its trips if and only if it had movement or no trips, and is one without movement |
| BikesHistory.SpreadNonNegative | demos/bikes.py:518-522 | the calibration's spread can only widen the threshold |
| BikesHistory.SpreadIs | demos/bikes.py:520-522 | the spread times the median is half of what lies between the tenth and the ninetieth |
| BikesHistory.FullScaleIsLeast | demos/bikes.py:972-985 | the fitted scale is the least multiple of 250, from 500, that nothing on the chart exceeds |
| BikesChart.SkylineOrder | demos/bikes.py:766-776 | interpolation to columns and rounding to rows preserve order and stay in the chart |
| BikesChart.SlotToColExact | demos/bikes.py:766-770 | on a panel of one column a slot the series is drawn as it is |
| BikesChart.RowOfEnds | demos/bikes.py:773-776 | zero is the chart floor and full scale its top row |
| BikesChart.RowIsNearest | demos/bikes.py:773-776 | a value is drawn in the row nearest to its share of full scale |
| BikesGaps.ColumnIs | demos/bikes.py:766-770 | a column of any panel is drawn part way between the two slots whose middles its centre lies between |
| BikesChart.FillBetween | demos/bikes.py:779-788 | paints exactly the masked rows between the two boundaries, inside the chart |
| BikesChart.BakeTypicalDay | demos/bikes.py:828-845 | every pixel of the frame after the silhouette and the crust |
| BikesChart.ProfileRowsOrdered | demos/bikes.py:828-845 | in every column the 90th row is at or above the median row, that at or above the 10th, all in the chart |
| BikesChart.TypicalIsOneRun | demos/bikes.py:843-844 | silhouette and crust paint one unbroken run from the 90th row to the floor, crust on top, nothing else |
| BikesChart.BakeToday | demos/bikes.py:848-875 | every pixel of the frame after halo and core, the comet's flat indices and the head column |
| BikesGaps.ColumnSeenIff | demos/bikes.py:861-862 | a column is drawn exactly when the slots that hold its centre were all measured |
| BikesGaps.LineIsUnbroken | demos/bikes.py:857-872 | a column is left dark exactly where a slot holding its centre was missed, and neighbouring drawn columns share a core row |
| BikesGaps.LineAndHalo | demos/bikes.py:863-872 | gold is exactly the rows from this column's to the last one's, if both are drawn, and the halo exactly the rows next to them |
| BikesGaps.GapShowsIff | demos/bikes.py:857-862 | some column is dark if and only if a missed slot holds some column's centre |
| BikesGaps.OneMissedShowsIff | demos/bikes.py:857-862 | of one missed slot alone: it breaks the line if and only if it holds a column's centre |
| BikesGaps.HoldsExactly | demos/bikes.py:766-770 | whether a slot holds a column's centre, in whole numbers |
| BikesGaps.WidePanelsShowEveryGap | demos/bikes.py:857-862 | on 143 columns or more every missed slot breaks the line |
| BikesGaps.AMissedPassLeavesNoGap | demos/bikes.py:857-862 | on 64 columns a day whose third slot alone was missed is drawn without a gap |
| BikesGaps.DrawnFromMeasurementsIff | demos/bikes.py:857-861 | no guess at the missing rates would change a column if and only if every slot with its middle within a slot of the centre was measured |
| BikesChart.CometOnTheLine | demos/bikes.py:873-875 | every comet index is a pixel of the frame on the line's core |
| BikesArchive.ReadMonth | demos/bikes.py:1311-1331 | the streaming pass computes the replay of its rows |
| BikesArchive.BoxIsAround | demos/bikes.py:1247-1247 | the box counted in is seven and nine hundredths of a degree around the city |
| BikesArchive.ReplayTallies | demos/bikes.py:1311-1331 | every counter, keys included, read off the rows: starts per slot, arrivals less departures per dock and slot |
| BikesArchive.NetIsConserved | demos/bikes.py:1318-1330 | all net dock changes sum to docked in-box arrivals less departures |
| BikesArchive.MovesAreBounded | demos/bikes.py:1311-1331 | the absolute changes total at most the docked ends |
| BikesArchive.MovesOfSlot | demos/bikes.py:1380-1383 | slot by slot the estimator reports every docked end less two for each pair that cancelled |
| BikesArchive.ReplayMerges | demos/bikes.py:1345-1353 | counters read apart and merged equal one pass over both |
| BikesArchive.ReadMonths | demos/bikes.py:1345-1353 | the merge loop yields the counters of one pass over all months |
| BikesArchive.BakeWeekday | demos/bikes.py:1374-1385 | each cell of the two matrices is the counted trips and half the absolute dock changes of its date and slot |
| BgpRates.DifferenceIsOverlap | demos/bgp.py:346-350 | differencing the interpolated prefix sum counts every bin by its overlap with the gap |
| BgpRates.ColumnCountsItsBins | demos/bgp.py:345-350 | for any bin count and width, a column's rate over its width is the overlap-weighted sum of the bins under it |
| BgpCounts.CountInParts | demos/bgp.py:345-350 | a column's count from whole numbers: each bin under it by the parts they share, of bins cut into columns' parts and columns into bins' |
| BgpCounts.RateInParts | demos/bgp.py:345-350 | its rate is that over the seconds all the bins span, or over the floor on them |
| BgpRates.NothingIsLost | demos/bgp.py:334-350 | rate times column width sums to the total count |
| BgpRates.RatesNonNegative | demos/bgp.py:345-350 | non-negative bins give non-negative rates |
| BgpScale.LogBrackets | demos/bgp.py:371 | the decade found brackets the peak |
| BgpScale.NiceScaleIsLeast | demos/bgp.py:353-375 | the full scale is the least ladder value not below the peak and under five thirds of it |
| BgpScale.LadderIs | demos/bgp.py:353-375 | the ladder is 1, 1.5, 2, 3, 5 and 7 times every power of ten |
| BgpScale.NiceScaleFixed | demos/bgp.py:353-375 | rounding a rounded scale again changes nothing |
| BgpChart.DrawChart | demos/bgp.py:427-460 | every pixel of the region after both fills and the outline |
| BgpColumns.BarReaches | demos/bgp.py:378-401 | a bar fills a row exactly when the value over full scale is at least the squared row over the squared rows |
| BgpColumns.ColumnIs | demos/bgp.py:441-460 | the colour of every row of a column by products alone: its top, its withdrawals, its announcements |
| BgpChart.ColumnIsOneRun | demos/bgp.py:441-460 | the lit rows are one run on the floor, at least one if anything was counted, the outline in the top row only |
| BgpChart.WithdrawalsBelow | demos/bgp.py:449-460 | withdrawals lie below announcements |
| BgpChart.WithdrawalsShownIff | demos/bgp.py:443-460 | a column with withdrawals shows one if and only if the bar is all withdrawals, at most one row, or at least two |
| BgpChart.WithdrawalsCanVanish | demos/bgp.py:443-460 | a column whose withdrawals are overwritten by the outline |
| BgpChart.FittedScale | demos/bgp.py:353-401 | on the fitted scale no bar is clipped and the tallest passes three fifths of the squared height |
| BgpTicker.BakeTicker | demos/bgp.py:584-603 | the padded strip is the endless ring of lines, row for row, and is absent only without lines |
| BgpTicker.Window | demos/bgp.py:726-728 | any window stays in the strip and shows the ring from the unwrapped scroll position on |
| BgpTicker.RingShowsEveryRow | demos/bgp.py:592-602 | the ring shows every row of every line in order, each pass |
| BgpTicker.WindowFits | demos/bgp.py:587-591 | the slack past the wrap point is enough for every offset |
| BgpTicker.RepsLeast | demos/bgp.py:587-589 | the strip repeats the lines no more often than a window needs |
| BgpTicker.Dedup | demos/bgp.py:238-246 | the loop computes the collapsed path |
| BgpTicker.SetIsItsFirst | demos/bgp.py:239-243 | a set counts as its first member, and an absent element or an empty set leaves no trace |
| BgpTicker.CollapsedMeans | demos/bgp.py:230-246 | one number stands for each run of the path's networks, in the path's order, none lost and none added |
| BgpTicker.NoNetworkFollowsItself | demos/bgp.py:230-246 | a sequence of runs never says a network twice running |
| BgpTicker.PrependingIsInvisible | demos/bgp.py:233-236 | repeating a network in place changes nothing drawn |
| AdsbTrails.CellOfCorners | demos/adsb.py:292-303 | the map is linear from its north-west origin to its south-east corner |
| AdsbTrails.Columns | demos/adsb.py:632-637 | one column an address, in order of first appearance, with its index |
| AdsbTrails.OrderMeans | demos/adsb.py:632-637 | the columns are exactly the non-empty addresses heard, each once |
| AdsbTrails.FillGrid | demos/adsb.py:641-655 | the grid holds each aircraft's last fix of each frame, and nothing where it was not heard |
| AdsbTrails.FixIs | demos/adsb.py:641-655 | a fix is the last row its frame has for the aircraft, position and altitude, and there is none without a row |
| AdsbTrails.TagsMean | demos/adsb.py:660-673 | a trail point exists exactly for the aircraft heard in both frames of a gap, at each sample |
| AdsbTrails.TagsOnce | demos/adsb.py:660-673 | each such point is produced once |
| AdsbTrails.TagsCount | demos/adsb.py:668-673 | there are exactly `samples` points to a pair before clipping |
| AdsbTrails.TagsInOrder | demos/adsb.py:660-673 | the points come gap by gap, sample by sample, column by column |
| AdsbTrails.PointOnSegment | demos/adsb.py:665-673 | a point lies at its own fraction of the segment between two fixes of one address, at the altitude of the earlier |
| AdsbReplay.LayOut | demos/adsb.py:631-688 | from the kept frames to the clipped trail, absent exactly when nobody was heard |
| AdsbReplay.ClippedMeans | demos/adsb.py:679-683 | the dots are exactly the on-map points and every flat index is on the map |
| AdsbReplay.DrawnInside | demos/adsb.py:679-683 | a point half a pixel inside the map is drawn, and none further than that outside |
| AdsbReplay.ClippedJoins | demos/adsb.py:679-683 | clipping takes each point by itself and keeps their order |
| AdsbReplay.DotsNeverBridgeAGap | demos/adsb.py:656-683 | every dot comes from one aircraft heard in two consecutive frames, is drawn on the pixel nearest to the point between them, at the earlier altitude, and falls due before the last |
| AdsbReplay.ShownIff | demos/adsb.py:753-761 | when a dot is on the panel: once the pass has run the part of its seconds that the dot's time is of the hour's gaps |
| AdsbReplay.RevealGrows | demos/adsb.py:753-761 | within a pass nothing shown is taken back |
| AdsbReplay.RevealCompletes | demos/adsb.py:753-761 | from the moment the last sample falls due every dot is shown, to the end of the pass and through any hold or none |
| AdsbReplay.PassCompletes | demos/adsb.py:753-758 | every pass, however many went before, has that moment before its seconds are up, whatever the hold |
| AdsbReplay.DrawTrail | demos/adsb.py:759-772 | a pixel is lit exactly when a shown dot is on it, in the shade of the last one |
| AdsbReplay.HeadIsOnTheTrail | demos/adsb.py:776-785 | at the instant a trail point falls due its aircraft's head is on it |
| AdsbReplay.HeadIs | demos/adsb.py:776-785 | between two frames the head is between the two fixes, held at the earlier if the aircraft then falls silent, and absent without it |
| AdsbReplay.HeadAtTheEnd | demos/adsb.py:776-785 | through the hold it stays at the last frame's fix |
| AdsbReplay.HeadOfOneFrame | demos/adsb.py:776-785 | with one frame only it is that frame's fix |
| AdsbReplay.AltIndexMonotone | demos/adsb.py:497-500 | the ramp index rises with altitude and uses both ends |
| CaisoMix.ReadGroups | demos/caiso.py:334-349 | each group is the clamped sum of those of its members that arrived |
| CaisoMix.EveryFuelOnce | demos/caiso.py:199-207 | the groups take every published column once |
| CaisoMix.RawOfOne | demos/caiso.py:335-342 | a column counts for what it reads, and for nothing where it is absent or has no sample |
| CaisoMix.StackIsPublished | demos/caiso.py:334-349 | the stack's total is at least what was published, and equal exactly when nothing was clamped |
| CaisoMix.CleanShareIsAShare | demos/caiso.py:381-395 | the carbon-free part of all supply, between nothing and one, one only with no other supply, and unknown only with none |
| CaisoStack.Mix.CumIsResampledTotal | demos/caiso.py:636-650 | resampling the bands and accumulating equals resampling their total |
| CaisoStack.ReadStack | demos/caiso.py:334-349 | the groups read from a record are the bands stacked, aligned and never negative |
| CaisoStack.DrawnTotalIsPublished | demos/caiso.py:636-650 | at a sample's time the top of the stack is the sum of the published columns, and above it exactly when a group was clamped |
| CaisoStack.DrawStack | demos/caiso.py:636-658 | every pixel of the frame after the bands and the silhouette |
| CaisoStack.BandsTile | demos/caiso.py:643-650 | the bands are disjoint, without gaps, and cover exactly the rows from the total down to but not including the last |
| CaisoStack.InBandExactly | demos/caiso.py:643-650 | which rows a band has, by products: those above the bands under it and not above its own total |
| CaisoStack.EdgeIsNearest | demos/caiso.py:655-658 | the silhouette is in the row nearest to the total |
| CaisoStack.TheFloorRowIsBare | demos/caiso.py:643-650 | a stack of one band that leaves the chart's last row unpainted |
| CaisoStack.BandsInOrder | demos/caiso.py:645-650 | they stand on one another in group order |
| CaisoStack.FilledIsBand | demos/caiso.py:648-649 | a row shows a band exactly when it lies in it |
| CaisoStack.FittedStackFits | demos/caiso.py:528-544 | on the fitted scale no column's total is clipped |
| CaisoStack.FullScaleIsLeast | demos/caiso.py:528-544 | the fitted scale is the least whole number of five gigawatts, from twenty, that clears the day's total and its forecast |
| Chladni.CellIndexInRange | demos/chladni.py:307-312 | wherever a grain has got to, its cell index is on the plate |
| Chladni.CellIs | demos/chladni.py:307-312 | a grain on the plate is in the cell its position truncates to, row and column |
| Chladni.MoveIs | demos/chladni.py:325-357 | a frame moves a grain against the slope by a step, by its draw times the shaken motion and creep, and off the edges |
| Chladni.ReflectReturns | demos/chladni.py:350-357 | reflection returns a grain exactly when its move ended within three plate widths of the origin |
| Chladni.CountsSum | demos/chladni.py:318 | counting grains by cell loses none |
| Chladni.CountOfOneMore | demos/chladni.py:318 | each grain counts in its own cell and in no other |
| Chladni.RunMass | demos/chladni.py:317-319 | after k frames of any run the deposit totals n (1 - decay^k) |
| Chladni.RunBounds | demos/chladni.py:269-279 | no cell ever exceeds the number of grains |
| Chladni.SteadyCell | demos/chladni.py:269-274 | after any run, a cell with the same number of grains on it every frame closes in on that number by the decay each frame |
| Chladni.OneSteadyValue | demos/chladni.py:269-274 | that number is the only value it can rest at |
| Chladni.Plate.Step | demos/chladni.py:303-357 | one frame deposits where the clipped grains stood, moves and reflects each, and keeps the mass law; nothing else of the sand changes |
| Chladni.Plate.Warm | demos/chladni.py:369-370 | the warm-up is that many frames on one figure's fields and keeps the law, however the sand is thrown |
| ChladniField.Derive | demos/chladni.py:198-229 | both slope fields over the steepest slope found, which some point attains unless the field is flat |
| ChladniField.SlopeAlongRow | demos/chladni.py:213-217 | on a parabola the slopes are the parabola's own inside and the last step's at the ends |
| ChladniField.SlopeDownColumn | demos/chladni.py:218-222 | the same down a column |
| ChladniField.NormalisedSlope | demos/chladni.py:226-229 | a normalised slope is at most one, and one exactly where steepest |
| ChladniField.GrainNeverLeaves | demos/chladni.py:321-357 | a step and a throw within two plate widths never take a grain off the plate |
| ChladniField.Run | demos/chladni.py:303-357 | over any run on tame fields, with draws within two plate widths, the sand is where stepping on each in turn puts it, and every grain stands on the plate after each frame |
| ChladniField.RunShots | demos/chladni.py:303-410 | the same over any figures, held or swept, on the fields derived from each |
| ChladniField.DriveOn | demos/chladni.py:198-229 | the fields derived from a figure that stays within one have slopes and amplitudes within one, and each cell of the drive is the slope along the row, the slope down the column and the motion there |
| ChladniField.QuietGrainRollsDown | demos/chladni.py:325-329 | without noise a grain moves against the slope, and rests exactly where the field is flat |
| ChladniField.TimelineCovers | demos/chladni.py:386-390 | every moment of a cycle is in exactly one mode's period, so the guard never fires |
| ChladniField.SmoothStepEases | demos/chladni.py:406-407 | the blend rises from nothing to one |
| ChladniField.SmoothStepIsGentle | demos/chladni.py:406-407 | the blend starts and stops without a jolt, the one end mirroring the other |
| ChladniField.SweepJoinsFigures | demos/chladni.py:406-410 | a sweep begins on the held figure, ends on the next, and at every point stays between the two |
| AnsiReveal.Bake | demos/ansi.py:347-370 | the art and the sent cells of a page, refused exactly when a row's attributes miscount |
| AnsiReveal.Screen.ArtIs | demos/ansi.py:355-370 | each pixel of a page from its cell: the character's own in its own colour |
| AnsiReveal.Screen.CellsMean | demos/ansi.py:351-363 | exactly the cells up to each line's last ink are sent, in reading order |
| AnsiReveal.Screen.TwoSlicesSuffice | demos/ansi.py:409-417 | for every count of cells the two slices show exactly those cells, trailing blanks included |
| AnsiReveal.Screen.RevealIsWhatArrived | demos/ansi.py:408-417 | at every moment, for every pixel, the two slices show exactly the cells whose arrival time has passed |
| AnsiReveal.Screen.CursorIsAhead | demos/ansi.py:421-430 | the cursor never covers an arrived cell |
| AnsiReveal.Screen.CursorIsNext | demos/ansi.py:421-430 | the cursor is the very next place in reading order |
| AnsiReveal.Render | demos/ansi.py:407-431 | every pixel of the frame, so far into a page: the cursor, else its cell if that has arrived by then |
| AnsiReveal.ArrivedGrows | demos/ansi.py:408 | nothing that has arrived is taken back |
| AnsiSchedule.FindLast | demos/ansi.py:386-387 | the search for a row's cells ends at its last one sent, and finds none for a row of blanks |
| AnsiSchedule.FillGaps | demos/ansi.py:383-388 | the gaps hold, at each step, what the pauses charged there add up to |
| AnsiSchedule.Schedule | demos/ansi.py:383-392 | arrivals are the closed form: one tick a cell and every pause charged so far |
| AnsiSchedule.PauseFallsBeforeTheLastCell | demos/ansi.py:384-391 | each row's last cell, and no other, is late, by all that was asked for after its row, and on time exactly if nothing was |
| AnsiSchedule.APauseInsideItsRow | demos/ansi.py:384-391 | a page whose pause delays the last cell of its own row and not the next |
| AnsiSchedule.ArrivalsInOrder | demos/ansi.py:389-391 | cells arrive at least a tick apart |
| AnsiSchedule.BuildPage | demos/ansi.py:383-392 | whatever a page sends and however it pauses, its schedule is in order and done with its last cell |
| AnsiSchedule.MakePage | demos/ansi.py:371-392 | a page ready to show: its art, its cells, their arrivals |
| AnsiSchedule.PageIsShowing | demos/ansi.py:394-405 | at any moment of a cycle the page found is showing and no other is |
| AnsiSchedule.CompleteForItsHold | demos/ansi.py:392-408 | a page is complete exactly from its last arrival, for exactly its hold, before the next begins |
| AnsiSchedule.RenderAt | demos/ansi.py:400-431 | at any time the panel shows, of the one page then showing, exactly the cells whose arrival has passed |
| ConsoleTyping.BuildSchedule | demos/console.py:143-153 | the schedule's entries: one a typed place, each at the clock of the waits before it |
| ConsoleTyping.ClockRises | demos/console.py:149-153 | entries fall due at least five milliseconds apart |
| ConsoleTyping.WaitIs | demos/console.py:143-153 | each wait in plain arithmetic: the pace, the draw's pull, the beat after punctuation, the floor, the line's pause |
| ConsoleTyping.StateAt | demos/console.py:183-194 | binary search finds the last entry at or before the time |
| ConsoleTyping.TypedIsPrefix | demos/console.py:146-148 | the text typed at entry e is exactly the first e characters of the whole |
| ConsoleTyping.RevealedIsWhatArrived | demos/console.py:183-226 | the revealed text is exactly the characters whose arrival has passed |
| ConsoleTyping.TextOnlyGrows | demos/console.py:183-194 | within a cycle what was typed earlier begins what is typed later |
| ConsoleTyping.Show | demos/console.py:143-198 | from the lines to the panel at any moment: the text is the whole up to exactly the characters that have arrived in this cycle |
| ConsoleTyping.ScrollNeverGoesBack | demos/console.py:198-203 | of two moments of a cycle the later never scrolls the page back |
| ConsoleTyping.VisibleRows | demos/console.py:203-220 | the panel shows whole lines down to the current one, which is always in the window unless the panel is lower than a line |
| ConsoleTyping.TopIs | demos/console.py:203-203 | the page is scrolled no further than the current line needs |
| ConsoleTyping.VisibleIs | demos/console.py:137-137 | the window is as many lines as fit, one at the least |
| ConsoleLexer.Colourise | demos/console.py:101-120 | the runs are the scan's, and concatenate back to exactly the line |
| ConsoleLexer.NoCharacterLost | demos/console.py:101-120 | tokenising from any point loses no character |
| ConsoleLexer.TokenIsMaximal | demos/console.py:65 | each token is the maximal one of its class |
| ConsoleLexer.EveryTokenIsMaximal | demos/console.py:65-106 | the scan never starts inside a word, so that holds of every run of a line |
| ConsoleLexer.InkFollowsKind | demos/console.py:107-119 | which tokens take each colour: strings, comments, all-numeral tokens, of the rest exactly the keywords, then words and white space as text |
| ConsoleLexer.CommentLineIs | demos/console.py:101-106 | a line is one comment run exactly when its first ink begins a comment, and its tokens' runs otherwise |
| VideoPacing.Timespec.AddNanos | client/send-video.cc:43-49 | adds exactly the nanoseconds asked for and leaves the field the carry loop leaves |
| VideoPacing.CarryIsNormalIff | client/send-video.cc:45-48 | that field is normal unless the sum is a whole number of seconds, at least one |
| VideoPacing.SleepIsTheTimeLeft | client/send-video.cc:350-358 | a frame sleeps exactly when its deadline is ahead, for exactly the time left, with non-negative fields |
| VideoPacing.Player.SendOne | client/send-video.cc:334-360 | one frame moves the deadline by one frame time and records its exact sleep |
| VideoPacing.Player.Receive | client/send-video.cc:332-361 | exactly the frames offered, up to those in flight, are sent |
| VideoPacing.Player.Iterate | client/send-video.cc:308-361 | one turn: what is accepted, what is sent and at which clock readings, when it counts as drained |
| VideoPacing.Player.Play | client/send-video.cc:301-362 | against any answers: what was accepted and sent by the turns used, why the run stopped there and nowhere sooner, and that a drained exit has sent one frame per accepted packet |
| VideoPacing.EveryFrameIsSent | client/send-video.cc:308-345 | a run whose frames are all offered by the end of input stops there, drained, with every one sent |
| VideoPacing.FrameForEachPacket | client/send-video.cc:325-345 | a decoder that offers a frame whenever it takes a packet is never left owing |
| VideoPacing.NoDrift | client/send-video.cc:336-359 | a frame ahead of its deadline ends its sleep on the start plus whole frame times, whatever came before |
| VideoPacing.SleepIsRefusedIff | client/send-video.cc:350-359 | the nanosecond field of a sleep is out of range exactly when a whole-second deadline meets a whole-second clock |
| VideoPacing.ASleepIsRefused | client/send-video.cc:43-49 | a second one-second frame whose sleep is asked for as a billion nanoseconds |

## Left out

- Floating-point rounding, and the frame-time budgets the programs talk about.
- Sockets, the wire protocol, mDNS, option parsing, process control and printing; `client/send-image.cc`,
  `client/send-text.cc`, `client/ft-detect.cc`, `test-checkerboard.cc`, `demos/boing.py`, `demos/cycle.py`.
- Reading caches, archives and csv files: a record, a frame or a row is taken as parsed. `read_today`'s
  refusal of bad intervals is the requirement that a reading's interval is positive.
- Fonts, palettes, captions and header text, the grid furniture, the battery lane, the status strips, the
  fading of old trails, the plate's dim glow and the dither.
- The panel layouts: a chart region is a parameter that has at least two rows.
- Square roots: `demos/bgp.py`'s bar heights and `demos/adsb.py`'s altitude ramp are compared by squares.
- The cosine mode fields and the half-life behind the decay constant of `demos/chladni.py`: a field is any
  array and the decay any number from nothing to one.
- Random numbers: any draws.
- `demos/ansi.py:279`: a negative `--ring`, which would put a page's arrivals out of order; pauses and holds are
  at least zero here. Likewise a negative line pause in `demos/console.py`.
- Which character is a digit, a word character or white space: parameters with the containments the lexer
  relies on; likewise the keyword list.
- The first-draw reveals and wipes of the chart panels, and the pulses and blinking marks.
- `demos/bikes.py:1357-1371`: choosing the dates of each weekday; the matrices are proved for any dates.
- `demos/adsb.py:628`: dropping frames without positions happens before the model starts.
- `client/send-video.cc:300,363-370`: repeating the file; each pass starts a fresh clock and is what is modelled.
- Machine widths: the nanosecond field and the counters are unbounded integers here.
- Whether a decoder ever drains: the pacing results hold of every finite stretch of answers.
