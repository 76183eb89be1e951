# pyfrscan sweep core in Dafny

pyfrscan is a pair of RTL-SDR scanner scripts:

- `frqscan8.py` sweeps every band whose scan flag is set and labels each active signal with a service name.
- `analyze6.py` sweeps a single 450–470 MHz range and gives no labels.

Both scripts plan centre frequencies, turn accepted peaks into records, sort the records by frequency and compute `min_distance`; only frqscan8 also labels each record with `get_service`. This project models these steps over integer Hz and proves what they guarantee:

- **Service classification.** `get_service` is a first-match lookup in three tiers: exact channel tables with a strict 1 kHz tolerance, then the inclusive band table, then `"Unknown"`. It is modelled by module `Classifier` over the tables in `Bands` and `Classifier`.
- **Centre-frequency plans.** Module `Plan` covers both variants:
  - frqscan8 walks each scanned band with `np.arange(start + sr/2, end, sr)`, then applies `sorted(set(...))`;
  - analyze6 places `ceil(width / sr)` centres at half-window offsets.
- **One sweep.** Module `Sweep` covers:
  - peak acceptance: the peak is inside the scanned range(s), inclusive, and strictly more than 10 kHz from the tuned centre;
  - building the records;
  - the stable sort by frequency, modelled generically in `StableSort`.

  Both scripts share one sweep function, parameterised by `Scope`: `MultiBand(bands)` for frqscan8 and `SingleRange(start, end)` for analyze6.
- **Minimum peak spacing.** `min_distance = int(signal_bandwidth / bin_width)` is modelled in `Config`. It truncates.

Frequencies are `int` Hz. Every constant of both scripts is a whole number of Hz, and FFT bins are 500 Hz wide. Powers are `real` and are only carried through. `Hz` holds the shared arithmetic:

- `Abs`;
- `CeilDiv`, which is `np.ceil` of a quotient;
- `Trunc`, which is Python's `int()` on a float and truncates toward zero.

`Util` holds an `Option` type, the filter-map predicate `FilterMapAt` with its cons lemma, and small sequence facts.

Two behaviours of the code are easy to misread:

- `min_distance` is truncated, not rounded: both scripts call `int()`. `Config.MinDistanceTruncates` shows this on a 25.5-bin bandwidth, which gives 25.
- frqscan8's walk can leave part of a scanned band uncovered, because `np.arange` stops once a centre reaches the band's end. `Plan.MultiBandPlanLeavesGap` proves that 143.5 MHz, inside the scanned 137–144 MHz band, is more than half a window from every planned centre. analyze6's plan does cover its whole range (`Plan.SingleRangeCovers`).

## Model

| member | source | states |
|---|---|---|
| Hz.CeilDiv | analyze6.py:28 | the result is the least integer r with a <= r*b, i.e. `ceil(a / b)` |
| Hz.Trunc | frqscan8.py:39 | `int()` of a float: rounds toward zero for both signs, so it is the floor for non-negative values |
| Config.BinWidth | frqscan8.py:38 | the bin width is positive and `fft_size` bins span exactly the sample rate |
| Config.MinDistance | analyze6.py:15-16 | the result is the number of whole bins that fit in the signal bandwidth: r bins fit, r+1 do not |
| Config.WholeBins | frqscan8.py:38-39 | `int(x / w)` whole bins of width w fit in x and one more does not |
| Config.ConfiguredMinDistance | frqscan8.py:33-39 | with 2.048 MHz and 4096 points the bins are 500 Hz and `min_distance` is 25 |
| Config.MinDistanceTruncates | frqscan8.py:39 | 25.5 bins give 25, not the rounded 26 |
| Bands.ScannedBands | frqscan8.py:90 | a band is kept iff it is in the table and its flag equals 1; no more bands come out than went in |
| Bands.ScannedBandsAppend | frqscan8.py:90 | the list comprehension keeps table order: filtering a concatenation gives the filtered first part followed by the filtered second part |
| Bands.ScannedHolds | frqscan8.py:90 | some band of the filtered list holds f iff some band of the whole table with scan flag 1 holds f |
| Bands.TableContiguous | frqscan8.py:8-30 | every band is non-empty and starts where the previous one ends |
| Bands.ContiguousCover | frqscan8.py:76-78 | in a contiguous table some band holds f iff f lies between the first start and the last end |
| Bands.TableCover | frqscan8.py:8-30 | some band of the table holds f iff 100 MHz <= f <= 1000 MHz |
| Classifier.FirstTable | frqscan8.py:62-74 | None iff no channel table matches; otherwise the first matching table, with no earlier table matching |
| Classifier.FirstBand | frqscan8.py:76-78 | None iff no band holds f; otherwise the first band holding f, inclusive at both ends |
| Classifier.Classify | frqscan8.py:60-79 | the answer is a table name, a band service or "Unknown"; the first matching channel table's label wins; only when no table matches, the first band holding f; with neither, "Unknown" |
| Classifier.ChannelTableBeatsBand | frqscan8.py:60-74 | 462.55 MHz lies in the "Land Mobile" band yet is labelled "GMRS Primary" |
| Classifier.ToleranceInside | frqscan8.py:61-65 | 999 Hz either side of a channel still matches it |
| Classifier.FarFromEveryChannel | frqscan8.py:42-57 | exactly 1 kHz from the nearest channel, no channel table matches |
| Classifier.ToleranceBoundaryFallsThrough | frqscan8.py:61-78 | exactly 1 kHz from the nearest channel, so no channel is strictly within 1 kHz, the lookup falls through to the band table ("Land Mobile") |
| Classifier.ChannelsApart | frqscan8.py:42-57 | channels of different tables are at least 2 kHz apart, so a frequency never matches two tables |
| Classifier.RasterIndex | frqscan8.py:42-57 | each channel table is a run of at most eight channels 25 kHz apart from its lowest entry |
| Classifier.NearChannelGetsTableName | frqscan8.py:60-74 | anything strictly within 1 kHz of a channel gets its table's label, whatever the table's position |
| Classifier.SharedBoundaryGoesToEarlierBand | frqscan8.py:76-78 | the shared 108 MHz boundary goes to the earlier band "FM Broadcasting"; 100 MHz and 1000 MHz are inside the table |
| Classifier.ChannelsInUhf | frqscan8.py:42-57 | no channel matches outside 462-468 MHz |
| Classifier.UnscannedBandStillLabels | frqscan8.py:76-78 | the unscanned TV band still labels (174, 216] MHz as "TV Broadcasting" |
| Classifier.ClassifyUnknownIff | frqscan8.py:60-79 | when no table or band is itself labelled "Unknown", the lookup says "Unknown" iff no channel table and no band matches |
| Classifier.Service | frqscan8.py:60-79 | `get_service` answers one of the script's channel-table names or band services, or "Unknown"; "Unknown" iff f < 100 MHz or f > 1000 MHz |
| Plan.Arange | frqscan8.py:97 | `np.arange`: `ceil((stop-start)/step)` values `start + i*step`, all below stop, and the next one would reach stop |
| Plan.BandCentres | frqscan8.py:97 | centre i of a band is `start + sr/2 + i*sr` and below the band's end; every later window is centred at or past the end |
| Plan.BandCentreIff | frqscan8.py:97 | c is in a band's walk iff c = `start + sr/2 + k*sr` for some k >= 0 and c < end |
| Plan.ConcatCentres | frqscan8.py:93-98 | the extended list holds exactly the centres of the given bands' walks |
| Plan.InsertUnique | frqscan8.py:99 | adding to an ascending duplicate-free list keeps it so, and its elements are the old ones plus x |
| Plan.SortedUnique | frqscan8.py:99 | `sorted(set(xs))` is strictly ascending and has exactly the elements of xs |
| Plan.AscendingUnique | frqscan8.py:99 | two strictly ascending lists with the same elements are equal, so `sorted(set(...))` is determined |
| Plan.MultiBandPlan | frqscan8.py:90-99 | the plan is strictly ascending and holds exactly the window centres of the scanned bands that lie below their band's end |
| Plan.NoScannedBandNoPlan | frqscan8.py:90 | with no scanned band the plan is empty |
| Plan.CentreInPlan | frqscan8.py:94-99 | every window of a scanned band centred below its end is in the plan |
| Plan.PlanCoversAllButTail | frqscan8.py:94-99 | every frequency of a scanned band below `end - sr/2` is within sr/2 of a planned centre |
| Plan.NumSteps | analyze6.py:28 | `num_steps` windows of width sr span the range and one window fewer would not |
| Plan.SingleRangePlan | analyze6.py:27-29 | no centres for an empty range; otherwise the fewest windows that span the range, the first centred half a window above start, each sr above the previous |
| Plan.ConfiguredRangePlan | analyze6.py:8-29 | 450-470 MHz takes 10 windows, centred from 451.024 to 469.456 MHz |
| Plan.SingleRangeCovers | analyze6.py:26-29 | every frequency of [start, end] is within sr/2 of some centre |
| Plan.BandWalkIsPrefixOfRangePlan | frqscan8.py:97 | one band's walk is a prefix of analyze6's plan for the same range, and at most one window shorter |
| Plan.MilitaryBandCentres | frqscan8.py:11 | the scanned 137-144 MHz band gets centres 138.024, 140.072 and 142.12 MHz |
| Plan.PagingBandHasNoCentre | frqscan8.py:26 | the scanned 901-902 MHz band gets no centre at all |
| Plan.MultiBandPlanLeavesGap | frqscan8.py:90-99 | every planned centre is more than half a window from 143.5 MHz, a scanned frequency |
| Plan.ConfiguredRangeWalkAgrees | analyze6.py:27-29 | on 450-470 MHz frqscan8's walk and analyze6's plan are the same ten centres |
| Plan.MilitaryRangePlansDiffer | analyze6.py:28-29 | on 137-144 MHz analyze6 plans four windows where frqscan8 walks three |
| StableSort.Insert | frqscan8.py:144 | inserting into a sorted list keeps it sorted and adds exactly one element |
| StableSort.InsertRuns | frqscan8.py:144 | the inserted element goes ahead of its equal-key run; every other run is unchanged |
| StableSort.SortBy | frqscan8.py:144 | `list.sort(key=...)`: ascending by key, a permutation, and each run of equal keys keeps its original order |
| StableSort.StableSortUnique | frqscan8.py:144 | a sorted list with the same equal-key runs as another sorted list is that list, so the stable sort has one result |
| Sweep.InScope | frqscan8.py:137 | frqscan8's range test holds iff some band of the table with scan flag 1 holds f, both edges included |
| Sweep.ClearOfDc | frqscan8.py:137 | `abs(freq - center_freq) > 10e3` holds iff f is below centre - 10 kHz or above centre + 10 kHz |
| Sweep.Accepts | frqscan8.py:137 | a frqscan8 peak is kept iff a band with scan flag 1 holds it, edges included, and it is more than 10 kHz either side of the centre; an analyze6 peak iff start <= f <= end and the same DC test |
| Sweep.Label | frqscan8.py:140 | frqscan8 records get a label and analyze6 records none; a label is a table name, a band service or "Unknown", is "Unknown" when nothing matches, and is `get_service(freq)` with the script's table |
| Sweep.Record | frqscan8.py:138-141 | the record copies the peak's frequency and power and the sweep's timestamp; it has a service iff the scanner is frqscan8, and that service is `get_service(freq)` |
| Sweep.CollectPeaks | frqscan8.py:134-141 | the records of one centre are its peaks filtered by acceptance and mapped to records, in peak order: an ascending list of kept positions witnesses that nothing is dropped, added or moved |
| Sweep.Collect | frqscan8.py:105-141 | the collected records are exactly the records of accepted peaks over all centres |
| Sweep.CollectAppend | frqscan8.py:105-141 | collection keeps centre order: collecting two runs of centres gives the first run's records followed by the second's |
| Sweep.CollectNextCentre | frqscan8.py:105-141 | each further centre appends exactly that centre's records, in peak order, behind those collected so far |
| Sweep.Report | frqscan8.py:134-144 | the report holds exactly the accepted peaks' records, ascending by frequency, as a permutation of the collection with equal frequencies in collection order |
| Sweep.ReportIsTheStableSort | analyze6.py:72 | any ascending ordering that keeps equal frequencies in collection order equals the report |
| Sweep.SinglePeakReport | frqscan8.py:134-144 | a single peak at a single centre is reported, alone, iff it is accepted |
| Sweep.MultiBandRecordsLabelled | frqscan8.py:137-141 | every frqscan8 record carries the lookup label of its own frequency (`get_service` for the script's table), lies in a scanned band, and copies the frequency and power of a peak found at some visited centre that it is more than 10 kHz from |
| Sweep.SingleRangeIsOneScannedBand | analyze6.py:65 | analyze6 accepts a peak iff frqscan8 would with the single scanned band [start, end] |
| Sweep.DcZoneIsClosed | frqscan8.py:137 | a peak exactly 10 kHz from its centre gives no record; 1 Hz further out it gives one |
| Sweep.OutsideScannedBandsDropped | frqscan8.py:137 | a peak that only unscanned bands hold gives no record |
| Sweep.UnscannedBandPeakDropped | frqscan8.py:14 | 190 MHz, inside the unscanned TV band, is never reported |
| Sweep.SortedCollectionUnchanged | analyze6.py:72 | when the collected records are already ascending by frequency, the sort leaves them exactly as collected |
| Sweep.SingleRangeSweepExample | analyze6.py:63-72 | two neighbouring centres, each listing its peaks in ascending frequency: the DC spike is dropped and, as the two windows do not overlap, the report is the collection unchanged |
| Sweep.ExampleCollected | analyze6.py:63-69 | collection keeps centre order, then peak order, and drops the DC spike 6 kHz from its centre |
| Sweep.OverlapRecord | frqscan8.py:134-141 | a peak strictly above the start of scanned band i of the script's table, inside it, away from the channel tables and clear of the DC zone, is accepted and its record is labelled with band i's name |
| Sweep.CollectTwoByTwo | frqscan8.py:108-141 | two captures of two accepted peaks each give four records, in capture order and then peak order |
| Sweep.CrossedPeaksSwap | frqscan8.py:134-144 | when one capture's second accepted peak lies above the next capture's first, the two are collected in capture order and reported the other way round |
| Sweep.OverlapSweepExample | frqscan8.py:134-144 | the 147.072 MHz and 149.024 MHz windows overlap on 148.0-148.096 MHz: peaks at 148.09 MHz (first window) and 148.02 MHz (second window) are collected in that order and reported swapped; 147.5 MHz is labelled "Amateur Radio (2m)" and the three peaks above 148 MHz "Land Mobile" |
| StableSort.SwapKeepsRuns | frqscan8.py:144 | swapping two neighbours with different keys keeps every run of equal keys, so a stable sort may reorder them |
| Classifier.FirstBandAboveStart | frqscan8.py:76-78 | in a contiguous table, a frequency strictly above band i's start and within band i is matched first by band i, since every earlier band ends at or below that start |

## Left out

- Radio I/O (frqscan8.py:82-87, 109-113, 161; analyze6.py:19-24, 38-42, 87): device setup, tuning, sample reads and closing are hardware calls. The sweep takes one `Capture` per visited centre instead.
- FFT, power averaging, `fftshift`/`fftfreq`, dB conversion, the 5th-percentile noise floor and the squelch level (frqscan8.py:116-128; analyze6.py:45-57): these are float numerics done by numpy.
- `scipy.signal.find_peaks` (frqscan8.py:131; analyze6.py:60): a library call whose plateau and tie rules are not visible here. Each capture's peak list is an input, already resolved to (frequency, power).
- Float representation: frequencies are exact integers. This assumes `fftfreq` bins and `np.arange` steps land on whole Hz, which holds for these constants up to float rounding that the model does not track.
- Plan: the integer model requires an even sample rate (`ValidRate`) so that `sr / 2` is whole Hz. Both scripts use 2 048 000.
- Sweep.Report: one timestamp string is used for the whole sweep, whereas the scripts read the clock once per record. The clock is not modelled, so the stamp is an opaque parameter.
- Console clearing and printing (frqscan8.py:101, 147-154; analyze6.py:73-80).
- The endless `while True` loop and the `KeyboardInterrupt`/`Exception` handlers. One sweep is modelled.
