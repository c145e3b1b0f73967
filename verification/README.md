# libsolgem: digitization, clustering and decoding

A Dafny model of the algorithms of libsolgem, the simulation of GEM trackers and
calorimeters. Simulated hits become strip signals: avalanches are spread over a grid,
integrated per strip and packed into hits; strip planes accumulate the hits; the event
builder numbers clusters and writes strips; the decoder turns strips into hardware addresses,
finds them again, and looks up the truth. Beside this run the calorimeter clustering, the peak
and valley splitter of the older cluster finder, and the track fit.

Code that works in place is modelled as classes, arrays and loops, each proved against a
function on values; the properties of whole runs are proved of those functions. Every random
draw (Poisson, Gauss, uniform), every pulse shape and every square root is an input, so what
is proved holds for all their outcomes. `dafny verify dfyconfig.toml` checks everything.

Where the code and its comments disagree the model follows the code:

* The splitter's comment says that the shared strip's amplitude goes to both clusters evenly.
  The left cluster's sum stops before that strip, so half of its amplitude is lost, and charge is
  conserved exactly when no run of the raw hits is split (`TotalCharge`, `ChargeConservedIff`,
  `ValleyedLosesCharge`).
* The strip count's rounding guard has no absolute value, so it rounds to nearest left of the
  origin and cuts off right of it. The two errors make up for each other, which is why the
  assertion in `GetStrip` holds "by construction" (`OppositeCorners`, `GetStrip`).
* Strips and grid of the avalanche are laid out from two opposite corners of the region, although
  it may lie oblique to the strips. They reach the other two corners exactly when cosine times
  sine of the strip angle is zero (`AllCornersIff`, `ObliqueCornersMissed`).
* `StripToROCD` multiplies the module count of the previous plane by the plane number. That
  tells planes apart exactly when the resulting blocks are disjoint (`KeysDistinctIff`), which
  nondecreasing counts guarantee and 4, 3, 3 does not.

Properties that hold only under a condition are stated with that condition, both ways:
`CaloResults.SeedOrderFreeIff`, `CaloResults.ComponentOrderFreeIff`,
`CaloResults.ECalEventOrderFreeIff`, `CaloResults.HCalEventOrderFreeIff`,
`PlaneHistory.IndexExactIff`, `SimAuxi.ConversionRightIff`, `Avalanche.AllCornersIff`,
`SolClusterResults.ChargeConservedIff`, `Readout.KeysDistinctIff`, `MCTruth.TruthRightIff`,
`Digitizer.RunLinkedIff`, and the assertion `ny > 0` in `Avalanche.AvaPlane`.

## Files

| files | content |
|---|---|
| Numeric, RealAlgebra, Sums, Rows | casts and rounding, products of reals, sums over sequences, row-major storage |
| CaloGrowth, CaloReconstruction, CaloResults | calorimeter clustering |
| CaloExact | the same in coordinates: who is joined, what two hits are reported as, exchange of x and y |
| GEMPlane | strip geometry |
| AvalancheGrid, AvalancheHit, Avalanche | avalanche model of one readout plane |
| AvaModel, AvaExact | from a track to the arrays of a chamber's two planes, and the coordinates on the way |
| SimAuxi, GEMHit | analog-to-digital conversion, the hit's arrays |
| StripPlane, PlaneHistory, StripRecords, DigitizedPlane | strip planes: as values, over whole runs, in arrays |
| Digitizer, ClusterRecords, TreeStrips, GEMDigitization | event building, its records field by field |
| DBManager, Readout | module numbering, hardware addresses |
| MCTruth, TruthExact, HitBits, TrackFit, TrackMatrix | truth lookup, bit count, track fit |
| SolClusters, SolClusterResults, SolClusterExact | peak and valley cluster splitter |

## Model

| member | source | states |
|---|---|---|
| `CaloGrowth.GrowSweep` | src/TSBSGeant4File.cxx:1623-1643 | the inner loop, whose index is moved by an erase while it runs, indexes validly, moves only blocks within reach of the cluster, loses none, and moves nothing exactly when the block it started from is out of reach of every member |
| `CaloGrowth.GrowPass` | src/TSBSGeant4File.cxx:1620-1644 | a pass adds nothing exactly when no block left over is within reach of a member, although passes that add skip pairs |
| `CaloGrowth.Grow` | src/TSBSGeant4File.cxx:1615-1648 | the fixpoint loop terminates, keeps the three vectors in step, moves each block at most once, every addition within reach of an earlier member, and ends with nothing left within reach; closed input is left alone, vectors out of step too |
| `CaloGrowth.MoveOne` | src/TSBSGeant4File.cxx:1625-1633 | moving a near block from the pool to the cluster loses and duplicates nothing |
| `CaloGrowth.MemberLinked` | src/TSBSGeant4File.cxx:1619-1647 | every member is joined to the seed by steps shorter than the reach |
| `CaloGrowth.WalkStays` | src/TSBSGeant4File.cxx:1619-1647 | no walk of such steps leads out of the finished cluster |
| `CaloGrowth.ClusterIsComponent` | src/TSBSGeant4File.cxx:1615-1648 | the cluster is exactly the set of accepted hits reachable from the seed, each with its multiplicity |
| `CaloGrowth.GrowthOrderFree` | src/TSBSGeant4File.cxx:1615-1648 | two growths from the same seed over the same blocks in any order give the same cluster |
| `CaloReconstruction.AddHit` | src/TSBSGeant4File.cxx:1574-1604 | one accepted hit: seed and the rest stay a split of all hits seen, the seed being the first of largest energy |
| `CaloReconstruction.ScanHits` | src/TSBSGeant4File.cxx:1554-1606 | the seed scan loses and duplicates no accepted hit, keeps the vectors in step, leaves the first hit of largest energy as seed and totals the energy |
| `CaloReconstruction.ScanSlats` | src/TSBSGeant4File.cxx:1690-1761 | one loop scans both CDet planes as if each plane were scanned alone |
| `CaloReconstruction.GrownFromSeed` | src/TSBSGeant4File.cxx:1615-1648 | scan and growth together give the component of the seed |
| `CaloReconstruction.Centroid` | src/TSBSGeant4File.cxx:1650-1657 | the sums behind energy and centroid |
| `CaloReconstruction.Geant4File.ReconstructECal` | src/TSBSGeant4File.cxx:1554-1664 | the ECal part: energy cut on all accepted hits, cluster of the seed's component, threshold on its energy |
| `CaloReconstruction.Geant4File.GetGEpECalCluster` | src/TSBSGeant4File.cxx:1545-1869 | the event's ECal cluster and both CDet clusters, or none below the calorimeter threshold |
| `CaloReconstruction.Geant4File.CDetCluster` | src/TSBSGeant4File.cxx:1762-1809 | a CDet cluster is the component of its plane's seed, reported with its weighted mean |
| `CaloReconstruction.Geant4File.GetHCalCluster` | src/TSBSGeant4File.cxx:1923-2048 | the HCal cluster, axes exchanged, above the energy cut |
| `CaloReconstruction.GrowNested` | src/TSBSGeant4File.cxx:1993-2030 | the growth loop inside two loops over the vectors it changes ends where one growth ends, and the outer loops terminate though their bound grows |
| `CaloReconstruction.SizesAddUp` | src/TSBSGeant4File.cxx:1993-2030 | blocks left and cluster together keep their number, which bounds the outer loops |
| `CaloResults.AcceptedOrderFree` | src/TSBSGeant4File.cxx:1554-1570 | which hits are accepted does not depend on their order |
| `CaloResults.OnPlaneOrderFree` | src/TSBSGeant4File.cxx:1690-1760 | nor does which slats belong to a plane |
| `CaloResults.SeedOrderFreeIff` | src/TSBSGeant4File.cxx:1574-1604 | the seed is the same for all orders of the hits exactly when only one block carries the largest energy |
| `CaloResults.MetFirst` | src/TSBSGeant4File.cxx:1554-1604 | every block of largest energy is the seed in some order of the hits |
| `CaloResults.ComponentOrderFreeIff` | src/TSBSGeant4File.cxx:1574-1648 | which blocks the cluster holds is the same for all orders exactly when all blocks of largest energy are linked |
| `CaloResults.ComponentOrderFree` | src/TSBSGeant4File.cxx:1615-1657 | with all blocks of largest energy linked, cluster, energy and moments are the same for all orders |
| `CaloResults.ECalEventOrderFreeIff` | src/TSBSGeant4File.cxx:1545-1664 | an event that reports an ECal cluster reports the same for all orders of its hits exactly when only one block carries the largest energy: the cluster names its seed's place |
| `CaloResults.ECalEventOrderFree` | src/TSBSGeant4File.cxx:1545-1869 | shuffling the hits changes nothing that is reported when one block carries the largest ECal energy and each CDet plane's largest are linked |
| `CaloResults.HCalEventOrderFreeIff` | src/TSBSGeant4File.cxx:1923-2048 | an HCal event reports the same for all orders exactly when the components around all its blocks of largest energy would be reported alike |
| `CaloResults.HCalEventOrderFree` | src/TSBSGeant4File.cxx:1923-2048 | an HCal event whose blocks of largest energy are linked reports the same for all orders |
| `CaloResults.EnergyBracket` | src/TSBSGeant4File.cxx:1650-1651 | seed energy <= reconstructed energy <= all accepted energy |
| `CaloResults.CentroidInBox` | src/TSBSGeant4File.cxx:1650-1659 | the centroid lies in every box that holds the cluster's blocks |
| `CaloResults.EmptyPlaneHasNoPosition` | src/TSBSGeant4File.cxx:1805-1809 | a CDet cluster divides by zero energy exactly when its plane has no accepted hit |
| `CaloExact.PairGrows` | src/TSBSGeant4File.cxx:1615-1648 | grown from a block at (x, y) with one at (x + dx, y + dy) left over, the cluster takes it in exactly when dx*dx + dy*dy is below the squared reach |
| `CaloExact.AloneStaysAlone` | src/TSBSGeant4File.cxx:1615-1648 | a block whose y, or whose x, is the reach or more away from that of every other accepted block is in no cluster but its own, and alone in that |
| `CaloExact.AcceptedAre` | src/TSBSGeant4File.cxx:1554-1572 | the accepted blocks are the hits of three photoelectrons or more, in order, at their places, with their photoelectrons over the scale as energy |
| `CaloExact.ECalTwoHits` | src/TSBSGeant4File.cxx:1554-1664 | two ECal hits are joined exactly when closer than 0.0462; energy, mean position, place of the larger hit and the cut, in photoelectrons over 538 |
| `CaloExact.HCalTwoHits` | src/TSBSGeant4File.cxx:1923-2048 | two HCal hits: reach 0.228, photoelectrons over 5000, the 0.01 cut on their total, X minus the mean y and Y the mean x |
| `CaloExact.CDetTwoSlats` | src/TSBSGeant4File.cxx:1690-1809 | two slats of a CDet plane: reach 0.0055, photoelectrons over 5634, each slat 0.255 beside its cell on the side its column tells |
| `CaloExact.ComponentExchanged` | src/TSBSGeant4File.cxx:1615-1648 | exchanging x and y of all blocks exchanges them in the cluster |
| `CaloExact.ECalExchanged` | src/TSBSGeant4File.cxx:1554-1664 | and in what the ECal reports |
| `GEMPlane.RotationRoundTrip` | src/TSBSGEMPlane.h:136-144 | the two frame changes undo each other |
| `GEMPlane.FramesAre` | src/TSBSGEMPlane.h:136-144 | which way the frames are turned, in coordinates, and that the box holds the points within half its size in x and in y |
| `GEMPlane.CornerStrip` | src/TSBSGEMPlane.cxx:157-162 | truncation with the rounding guard: how far the strip number of a corner can be off on either side of the origin |
| `GEMPlane.OppositeCorners` | src/TSBSGEMPlane.cxx:157-166 | the count from two opposite corners exceeds their distance in pitches, by less than one strip and twice the guard |
| `GEMPlane.CornersSpan` | src/TSBSGEMPlane.cxx:147-156 | no corner is farther out than the projected half width, and two corners are just there |
| `GEMPlane.CountStrips` | src/TSBSGEMPlane.cxx:147-166 | the corner loop's range of strip numbers is that of the extreme corners, despite the odd start values |
| `GEMPlane.CountSuffices` | src/TSBSGEMPlane.cxx:147-169 | the strips are together wider than the box |
| `GEMPlane.GEMPlane.ReadGeometry` | src/TSBSGEMPlane.cxx:145-169 | sets the strip count above the full projected width in pitches, and centres the strips |
| `GEMPlane.GEMPlane.GetStripUnchecked` | src/TSBSGEMPlane.cxx:283-290 | which strip a coordinate falls on, also left of the first strip, where the cast rounds the other way |
| `GEMPlane.GEMPlane.GetStripInRange` | src/TSBSGEMPlane.cxx:292-302 | the nearest legal strip of any coordinate |
| `GEMPlane.GEMPlane.GetStrip` | src/TSBSGEMPlane.cxx:304-322 | every point within half the box's size in x and in y of the plane's frame gets the legal strip it lies on, any other -1: the assertion never fails |
| `GEMPlane.InsideStrips` | src/TSBSGEMPlane.cxx:304-322 | a point of the box lies between the first and the last strip edge, for every angle, box and pitch |
| `AvalancheGrid.OutsideWindowIsFar` | src/TSBSSimGEMDigitization.cxx:828-860 | a cell outside the window is farther from the ion than the avalanche reaches, also for an ion left of the grid |
| `AvalancheGrid.OutsideWindowIsEmpty` | src/TSBSSimGEMDigitization.cxx:828-893 | so it would have received nothing |
| `AvalancheGrid.FillColumn` | src/TSBSSimGEMDigitization.cxx:868-893 | one column of the window, the running y centre staying on the cell centres |
| `AvalancheGrid.FillWindow` | src/TSBSSimGEMDigitization.cxx:855-895 | the double loop over the window adds each cell's deposit once and indexes validly |
| `AvalancheGrid.FillIon` | src/TSBSSimGEMDigitization.cxx:826-895 | what the window loop leaves is what a scan of the whole grid would leave |
| `AvalancheGrid.FillGrid` | src/TSBSSimGEMDigitization.cxx:804-896 | all ions over a zeroed grid |
| `AvalancheGrid.GridIsFullScan` | src/TSBSSimGEMDigitization.cxx:804-896 | every cell holds the sum over all ions of the circle test and deposit, with no window |
| `AvalancheHit.StripsShareTheGrid` | src/TSBSSimGEMDigitization.cxx:922-935 | the strip charges add up to cell area times the sum over the grid: each cell counts once |
| `AvalancheHit.IntegrateStrip` | src/TSBSSimGEMDigitization.cxx:925-935 | the step and row loops with their running cell index sum the cells below the strip |
| `AvalancheHit.PackedShape` | src/TSBSSimGEMDigitization.cxx:963-971 | packed strips are in increasing order and in range, each with its own charge and samples and a positive total |
| `AvalancheHit.PackedComplete` | src/TSBSSimGEMDigitization.cxx:963-971 | no strip with a signal is left out |
| `AvalancheHit.SamplesInRange` | src/TSBSSimGEMDigitization.cxx:946-961 | samples are readings of at most adcbits bits |
| `AvalancheHit.PackedWeights` | src/TSBSSimGEMDigitization.cxx:99-128 | the weights recorded for a nonempty packed hit add up to one |
| `AvalancheHit.Store` | src/TSBSSimGEMDigitization.cxx:963-970 | writing an entry keeps the earlier entries and the running total |
| `AvalancheHit.Pack` | src/TSBSSimGEMDigitization.cxx:905-990 | the strip loop fills the hit within its allocation with exactly the packed signals, and its total is the sum of its samples |
| `Avalanche.AvaRegion` | src/TSBSSimGEMDigitization.cxx:648-700 | the region is the part of the band around the track that lies within the chamber's limits; out of sector exactly when there is none |
| `Avalanche.TouchedStrips` | src/TSBSSimGEMDigitization.cxx:727-756 | nothing is touched exactly when both corners are outside the box; otherwise the strips nearest to the two corners, in order |
| `Avalanche.StepsAcross` | src/TSBSSimGEMDigitization.cxx:769-787 | the y range in whole steps covers the region tightly; it is empty exactly when both corners have the same y, a multiple of the step |
| `Avalanche.ColumnBelowStrip` | src/TSBSSimGEMDigitization.cxx:785-796 | every column of the grid lies below the strip it is summed for |
| `Avalanche.MakeGrid` | src/TSBSSimGEMDigitization.cxx:763-797 | the grid covers the touched strips and, along them, reaches from the one corner to the other; when the assertion on its size fails |
| `Avalanche.OtherCornersAlong` | src/TSBSSimGEMDigitization.cxx:716-756 | the region's other two corners lie between the two corners used, along the strip numbers, exactly when cosine times sine is not positive |
| `Avalanche.OtherCornersAcross` | src/TSBSSimGEMDigitization.cxx:716-787 | and along the strips exactly when it is not negative |
| `Avalanche.AllCornersIff` | src/TSBSSimGEMDigitization.cxx:716-787 | so strips and grid are laid out around all four corners of a region exactly when the strips run along its edges |
| `Avalanche.BetweenIsTouched` | src/TSBSSimGEMDigitization.cxx:727-756 | a point between the two corners has its strip among those touched |
| `Avalanche.ObliqueCornersMissed` | src/TSBSSimGEMDigitization.cxx:716-756 | for cosine 0.6, sine 0.8 and the region from (0, 0) to (4, 3), on a plane of strips at most 2.4 wide that reaches beyond all corners, the only touched strip leaves out the strips of both other corners |
| `Avalanche.NoStepsAcross` | src/TSBSSimGEMDigitization.cxx:769-794 | for cosine 0.6, sine -0.8 the corners (0, 0) and (3, 4) meet the condition under which the size assertion fails, for every step |
| `Avalanche.SignalsFit` | src/TSBSSimGEMDigitization.cxx:102-111 | a packed hit satisfies what Cumulate asserts: legal strips, non-negative samples |
| `Avalanche.AvaPlane` | src/TSBSSimGEMDigitization.cxx:704-991 | one plane from corners and ions to hit: when there is none, when the size assertion fails, and otherwise that strips, grid, fully scanned cells, charges and packed hit fit together |
| `AvaModel.ChamberLimits` | src/TSBSSimGEMDigitization.cxx:678-684 | the limits are the middles of the outermost strips, x from the one plane and y from the other, and are in order |
| `AvaModel.ModelPlanes` | src/TSBSSimGEMDigitization.cxx:704-995 | no signal exactly when the first plane is missed, or passes its assertion and the second is missed; two hits exactly when both planes are hit and pass |
| `AvaModel.ModelHit` | src/TSBSSimGEMDigitization.cxx:635-995 | the region of a hit and, when it strikes both planes and no assertion fails, a hit on each digitized from that region |
| `AvaModel.PackedFits` | src/TSBSSimGEMDigitization.cxx:102-111 | what the avalanche model packs satisfies all that Cumulate asserts |
| `AvaModel.AddSignals` | src/TSBSSimGEMDigitization.cxx:455-475 | both hits are cumulated, each on its plane's arrays, and the chamber becomes the one the event builder computes |
| `AvaModel.DigitizeHit` | src/TSBSSimGEMDigitization.cxx:393-475 | from track to arrays: unless an assertion fails, exactly when it does, the chamber's arrays become the chamber struck by the hit, with a signal exactly when both planes are struck |
| `AvaExact.RegionIs` | src/TSBSSimGEMDigitization.cxx:650-699 | the sides of a hit's region: its smaller end less the margin or the middle of the first strip, its larger end plus the margin or the middle of the last one; none exactly when these leave nothing |
| `AvaExact.TrackIsTurned` | src/TSBSSimGEMDigitization.cxx:709-824 | the track a plane digitizes has as many ions as came in, each turned by the strip angle with its reach, amplitude and width as they were, and the region's corners turned alike |
| `AvaExact.TrackTurnsBack` | src/TSBSSimGEMDigitization.cxx:709-824 | turned back, ions and corners are where they came in |
| `AvaExact.StrikesIff` | src/TSBSSimGEMDigitization.cxx:704-745 | a hit gives a signal exactly when each plane's box holds the lower left or the upper right corner of its region |
| `AvaExact.DepositIs` | src/TSBSSimGEMDigitization.cxx:844-888 | what an ion leaves in a cell: amplitude over squared distance to the cell's middle plus squared width, up to its reach, else nothing |
| `SimAuxi.ADCConvert` | src/TSBSSimAuxi.cxx:10-32 | a reading is never negative |
| `SimAuxi.ConvertsWhenItFits` | src/TSBSSimAuxi.cxx:16-30 | floor and clamp come out right when the scaled value fits the 16-bit cast |
| `SimAuxi.ConversionRightIff` | src/TSBSSimAuxi.cxx:10-32 | for a positive gain, and a cast that wraps around, the conversion is right on all pulses exactly when the offset is at most 32768 gains |
| `SimAuxi.ReadsIn` | src/TSBSSimAuxi.cxx:10-32 | for offsets up to 32768 gains a reading counts the gains a pulse is above the offset, negative pulses counting as 0, from 0 up to the largest number of the given bits |
| `GEMHit.GEMHit.AddSampleAt` | src/TSBSGEMHit.h:37 | stores one sample in its row and column, no other changes, and adds it to the total |
| `GEMHit.GEMHit.GetADC` | src/TSBSGEMHit.h:44 | reads a sample of an entry |
| `PlaneHistory.IndexExactIff` | src/TSBSSimGEMDigitization.cxx:72-194 | in every reachable state the index is duplicate-free and lists only strips over threshold, and it lists all of them exactly unless the plane was cleared under a negative threshold since the last rebuild |
| `PlaneHistory.IndexAgreesWithRebuild` | src/TSBSSimGEMDigitization.cxx:121-125 | with thresholds never negative the incremental index lists the strips a rebuild would list |
| `PlaneHistory.Pigeonhole` | src/TSBSSimGEMDigitization.cxx:122 | a distinct list of strips that lacks one is shorter than the plane: the assertion fNOT < fNStrips |
| `PlaneHistory.PutKeeps` | src/TSBSSimGEMDigitization.cxx:106-125 | one deposit keeps the index sound, complete if it was, and has room for a new entry |
| `PlaneHistory.CumulatedKeepsIndex` | src/TSBSSimGEMDigitization.cxx:92-171 | so does a whole hit, with or without cross talk |
| `PlaneHistory.ClearedExactIff` | src/TSBSSimGEMDigitization.cxx:72-90 | clearing leaves a complete index exactly for a threshold that is not negative |
| `PlaneHistory.RethresholdedIsExact` | src/TSBSSimGEMDigitization.cxx:174-194 | rebuilding lists exactly the strips over the new threshold |
| `PlaneHistory.LedgerBalances` | src/TSBSSimGEMDigitization.cxx:72-171 | in every reachable state a sample is the sum of its recorded contributions and the truncated induced ones, the strip total is the sum of the samples, and the strip's lists are equally long |
| `PlaneHistory.InducedIsTruncated` | src/TSBSSimGEMDigitization.cxx:155-163 | the induced samples are those of the signals a step away, each times the factor and truncated on its own |
| `PlaneHistory.CumulateOrderFree` | src/TSBSSimGEMDigitization.cxx:92-171 | the order of two hits shows neither in the amplitudes nor in the listed strips, at any later time |
| `StripRecords.RecordsAreComplete` | src/TSBSSimGEMDigitization.cxx:99-152 | in every reachable state a strip lists the clusters that hit it since the last clearing, in order, with their weights; its type is exactly their kinds, with bit 2 if and only if a hit since then had cross talk of positive factor and a signal the drawn step away; without cross talk its time is their earliest and its charge their sum |
| `StripRecords.ChargeIsComplete` | src/TSBSSimGEMDigitization.cxx:99-163 | in every reachable state a strip's charge is the sum of what hits brought it since the last clearing, directly and by cross talk |
| `StripRecords.TimeIsSomeHits` | src/TSBSSimGEMDigitization.cxx:99-163 | in every reachable state a strip has no time or that of a hit since the last clearing, also where cross talk has overwritten it |
| `StripRecords.TimeIsComplete` | src/TSBSSimGEMDigitization.cxx:99-154 | in every reachable state a strip shows exactly the time its own and its induced signals give it, the induced ones in place of what was there, when no hit induces a signal on the strip of a later one of its own |
| `StripRecords.ChainedTime` | src/TSBSSimGEMDigitization.cxx:151-154 | where a hit does, the strip two steps on shows the time of the strip two steps back, not that of its source |
| `DigitizedPlane.DigitizedPlane.constructor` | src/TSBSSimGEMDigitization.cxx:43-61 | a new plane is empty and its index right as far as the threshold allows |
| `DigitizedPlane.DigitizedPlane.Clear` | src/TSBSSimGEMDigitization.cxx:72-90 | the arrays of a cleared plane |
| `DigitizedPlane.DigitizedPlane.Threshold` | src/TSBSSimGEMDigitization.cxx:174-194 | rebuilding the index in place, and its size |
| `DigitizedPlane.DigitizedPlane.AddSamples` | src/TSBSSimGEMDigitization.cxx:107-120 | the sample loop adds to one row of the flat sample array and to one total, skipping zeros |
| `DigitizedPlane.DigitizedPlane.DepositDirect` | src/TSBSSimGEMDigitization.cxx:100-128 | what a direct signal changes on its strip, and nowhere else |
| `DigitizedPlane.DigitizedPlane.DepositInduced` | src/TSBSSimGEMDigitization.cxx:149-163 | what an induced signal changes; the time is overwritten |
| `DigitizedPlane.DigitizedPlane.Notice` | src/TSBSSimGEMDigitization.cxx:121-125 | appending to the index when a strip comes over threshold; the assertion holds |
| `DigitizedPlane.DigitizedPlane.Cumulate` | src/TSBSSimGEMDigitization.cxx:92-171 | a whole hit, in arrays, is the operation on the plane's value that the run properties are about |
| `Digitizer.CumulatedGrows` | src/TSBSSimGEMDigitization.cxx:92-171 | a hit puts no cluster number on a strip but its own |
| `Digitizer.HitAddedReferenced` | src/TSBSSimGEMDigitization.cxx:388-464 | one hit keeps numbering and references right |
| `Digitizer.RunReferenced` | src/TSBSSimGEMDigitization.cxx:354-479 | over any run, clusters are numbered by position exactly while at most 32767 hits were taken since the last Digitize, and then every number on a strip names a cluster of that strip's plane and module |
| `Digitizer.HitsOnRecordIs` | src/TSBSSimGEMDigitization.cxx:354-479 | the number of records is the number of hits taken since the last Digitize |
| `Digitizer.OverflowDangles` | src/TSBSSimGEMDigitization.cxx:388-464 | the 32768th hit taken, if it shows a signal, leaves on a strip a number that names no cluster |
| `Digitizer.RunLinkedIff` | src/TSBSSimGEMDigitization.cxx:354-479 | when every hit taken shows a signal, the references of a run hold exactly while at most 32767 hits were taken since the last Digitize |
| `AvaModel.ModelledRunReferenced` | src/TSBSSimGEMDigitization.cxx:354-479 | a run whose hits all come from the avalanche model needs no other condition: planes and hits fit, and the references hold under that bound |
| `Digitizer.OneClusterPerHit` | src/TSBSSimGEMDigitization.cxx:388-464 | one record per hit taken, in order, with its plane, module and particle; signal hits counted |
| `ClusterRecords.TakenIff` | src/TSBSSimGEMDigitization.cxx:396-412 | the hits taken are those of existing chambers whose entrance and exit are at most 50 apart in x and in y |
| `ClusterRecords.RunRecords` | src/TSBSSimGEMDigitization.cxx:1172-1282 | over any run the records are those of the hits taken since the last Digitize, in order: source, particle, track, energy, time and projections the hit's, twice the position its entrance plus its exit, and for each readout plane the number of its strips and the first of them, -1 if none, 0 and 0 if the hit gave no signal |
| `ClusterRecords.RecordMatchesStrips` | src/TSBSSimGEMDigitization.cxx:455-470 | when the strips of a hit are distinct, on each plane of its chamber exactly as many strips get its number as the record tells, the start among them, with type bit 0 for a primary particle and bit 1 for any other |
| `TreeStrips.EmittedAt` | src/TSBSSimGEMDigitization.cxx:1284-1348 | everything written is a strip of a chamber's plane |
| `TreeStrips.EmittedIs` | src/TSBSSimGEMDigitization.cxx:1297-1348 | and written as the plane holds it: type, charge, time, clusters, weights and at most ten samples, each plus its noise, truncated, and never above 4000 |
| `TreeStrips.EmittedComplete` | src/TSBSSimGEMDigitization.cxx:1284-1348 | every strip is written |
| `TreeStrips.EmittedOnce` | src/TSBSSimGEMDigitization.cxx:1284-1348 | no channel is written twice |
| `TreeStrips.LoadedNumbers` | src/TSBSSimGEMDigitization.cxx:1300-1301 | chambers labelled from the database are numbered by it |
| `TreeStrips.EveryStripFindsItselfIff` | src/TSBSSimDecoder.cxx:573-606 | every strip of an event is found again through its hardware address exactly when slots have channels enough and the planes' blocks are disjoint |
| `TreeStrips.DecoderAssertionsHold` | src/TSBSSimDecoder.cxx:414-445 | the decoder's assertions on cluster references hold for every written strip |
| `GEMDigitization.GEMDigitization.Initialize` | src/TSBSSimGEMDigitization.cxx:232-270 | empty planes, nothing to write |
| `GEMDigitization.GEMDigitization.Digitize` | src/TSBSSimGEMDigitization.cxx:353-370 | clears everything, then adds the hits |
| `GEMDigitization.GEMDigitization.AdditiveDigitize` | src/TSBSSimGEMDigitization.cxx:372-479 | adds all hits; the written strips count as out of date unless there was no hit |
| `GEMDigitization.GEMDigitization.AddHit` | src/TSBSSimGEMDigitization.cxx:393-475 | one hit: skipped, recorded only, or recorded and cumulated on both planes |
| `GEMDigitization.GEMDigitization.SetTreeHit` | src/TSBSSimGEMDigitization.cxx:1172-1282 | appends the record, with midpoint, energy, time, track and the size and start of the signal on each plane, and returns its number |
| `GEMDigitization.GEMDigitization.SetTreeStrips` | src/TSBSSimGEMDigitization.cxx:1284-1391 | writes the strips of all planes, for any noise drawn: chamber by chamber, samples with their noise and cut off at 4000 |
| `GEMDigitization.GEMDigitization.FillTree` | src/TSBSSimGEMDigitization.cxx:1395-1399 | what is stored is up to date, or there was nothing to write |
| `GEMDigitization.StoredReferencesHold` | src/TSBSSimDecoder.cxx:414-445 | the references of the strips an event is stored with hold |
| `DBManager.DBManager.LoadGeneralInfo` | src/TSBSDBManager.cxx:131-149 | fills the maps between plane and module and number, over whatever an earlier load left, or reports inconsistent counts and changes nothing |
| `DBManager.NumberingIsBijective` | src/TSBSDBManager.cxx:136-149 | plane and module to number is a bijection onto 0 up to the total |
| `DBManager.NumberOrder` | src/TSBSDBManager.cxx:136-149 | numbers follow the order of planes and modules |
| `DBManager.NumberOnto` | src/TSBSDBManager.cxx:136-149 | no number is left out |
| `Readout.KeyIs` | src/TSBSSimDecoder.cxx:309-336 | splitting into crate and slot and putting the key together again gives slot number times channels per slot plus channel |
| `Readout.AddressIs` | src/TSBSSimDecoder.cxx:309-327 | slots are numbered through all crates, two for each module, the even one for x and the odd one for y; the channel is the remainder in the slot |
| `Readout.KeysEqual` | src/TSBSSimDecoder.cxx:309-336 | two channels share a key exactly when they share slot number and channel in the slot |
| `Readout.KeysDistinctIff` | src/TSBSSimDecoder.cxx:309-336 | the keys tell all strips apart exactly when no readout has more strips than a slot has channels and no two planes' blocks overlap |
| `Readout.NondecreasingPlanesApart` | src/TSBSSimDecoder.cxx:319 | module counts that do not decrease keep the blocks apart |
| `Readout.DecreasingPlanesMayCollide` | src/TSBSSimDecoder.cxx:319 | 4, 3 and 3 modules collide |
| `Readout.BuildStripMap` | src/TSBSSimDecoder.cxx:573-606 | each key is mapped to the first strip that has it; the assertion after the insert holds throughout exactly when all keys differ |
| `Readout.RoundTripIff` | src/TSBSSimDecoder.cxx:338-353 | each strip's address returns that strip exactly when all keys differ |
| `Readout.UnknownAddress` | src/TSBSSimDecoder.cxx:338-353 | -1 is the answer exactly for an address no strip has |
| `MCTruth.SignalID` | src/TSBSSimDecoder.cxx:446-453 | the last matching signal description |
| `MCTruth.AddCluster` | src/TSBSSimDecoder.cxx:446-478 | one cluster of the lookup loop |
| `MCTruth.GetSBSMCHitInfo` | src/TSBSSimDecoder.cxx:375-491 | the lookup: induced strips apart, every cluster of the strip listed with its source, time, position, charge, weight and samples, and the final division |
| `MCTruth.EmittedReadable` | src/TSBSSimGEMDigitization.cxx:1299-1345 | every written strip carries a weight and six samples for each of its clusters, which the lookup reads |
| `MCTruth.AccumulatedIs` | src/TSBSSimDecoder.cxx:414-478 | for every interleaving the running sums are those of the signal clusters if there are any, else of the background |
| `MCTruth.MeansAreRight` | src/TSBSSimDecoder.cxx:414-491 | so position and time are the means of the signal clusters, or the mean background position and the strip's time |
| `TruthExact.SignalIff` | src/TSBSSimDecoder.cxx:446-457 | a cluster counts as signal exactly when it is from the signal file, of type 1, and of a particle that is described; the last description gives the track |
| `TruthExact.PositionIsAverage` | src/TSBSSimDecoder.cxx:457-491 | on an x strip the position is the mean of the clusters' x projections plus the offset, on a y strip the mean of their y projections: of the signal clusters if there are any, else of the background |
| `TruthExact.TimeIsAverage` | src/TSBSSimDecoder.cxx:457-491 | the time is the mean of the signal clusters' times, else the strip's, and the track that of the first signal cluster |
| `TruthExact.OtherCoordinateUnseen` | src/TSBSSimDecoder.cxx:457-491 | no change of the y projections shows on an x strip, and no change of the x projections or of the offset on a y strip |
| `MCTruth.TruthRightIff` | src/TSBSSimDecoder.cxx:457-491 | this holds for all cluster lists exactly when every track id that can be assigned is positive |
| `MCTruth.AssertionHoldsIff` | src/TSBSSimDecoder.cxx:480 | the assertion after the loop holds for all cluster lists under the same condition |
| `HitBits.NumberOfSetBits` | src/TSBSSimDecoder.cxx:496-505 | the parallel bit count is the bit by bit count, for every 32-bit word |
| `HitBits.CountIsSize` | src/TSBSSimDecoder.cxx:496-505 | which is the number of bits set |
| `HitBits.PrimaryHits` | src/TSBSSimDecoder.cxx:655-756 | illegal planes are fatal; three bit patterns mark the planes a primary signal cluster crossed and those where it left no strip in x or in y, fNHits is twice the number crossed, and the best primary is the first one closest to plane 0 |
| `HitBits.PatternsAre` | src/TSBSSimDecoder.cxx:655-710 | the three patterns in terms of the records: type 1 and source 0, with no strip in x, or with none in y |
| `HitBits.NothingMissed` | src/TSBSSimDecoder.cxx:707-756 | with at most 32 planes every plane is counted |
| `TrackFit.DetSign` | src/TSBSSimDecoder.cxx:1819-1841 | with positive weights a block of the matrix is nonsingular exactly when two points differ in z |
| `TrackFit.SolutionMinimises` | src/TSBSSimDecoder.cxx:1808-1853 | a solution minimises the weighted chi square over all lines |
| `TrackFit.MinimisesIffSolves` | src/TSBSSimDecoder.cxx:1808-1853 | and only solutions do |
| `TrackFit.ExactLineRecovered` | src/TSBSSimDecoder.cxx:1808-1853 | points on a line give back that line |
| `TrackMatrix.NormalEquations` | src/TSBSSimDecoder.cxx:1800-1844 | the accumulation loop builds the sums of both projections and no coupling |
| `TrackMatrix.SystemSplits` | src/TSBSSimDecoder.cxx:1819-1846 | the system is the two blocks, independent of each other |
| `TrackMatrix.Fit_3D_Track` | src/TSBSSimDecoder.cxx:1796-1853 | no result below two points, a singular matrix exactly when all points have the same z, otherwise the best line in both projections |
| `TrackMatrix.OneSolutionIff` | src/TSBSSimDecoder.cxx:1846 | the system has one solution exactly when two points differ in z |
| `SolClusters.Scan` | src/oldSolRelated/TSolClusters.cxx:64-133 | the three-state scan terminates, its assertions hold, and its verdict is the first drop, first rise after it and lowest point between |
| `SolClusters.SolClusters.RunEnd` | src/oldSolRelated/TSolClusters.cxx:51-63 | the maximal run of consecutive strips |
| `SolClusters.SolClusters.MakeCluster` | src/oldSolRelated/TSolClusters.cxx:51-184 | one cluster cut off, at the end of the run or at the valley, halving the shared strip |
| `SolClusters.SolClusters.MakeClusters` | src/oldSolRelated/TSolClusters.cxx:11-199 | terminates although it steps back, cuts the plane into clusters at increasing bounds, halves exactly the shared strips; a negative count above five hits |
| `SolClusters.CutNext` | src/oldSolRelated/TSolClusters.cxx:49-191 | cutting one more cluster keeps all earlier cuts as they were |
| `SolClusterResults.SpanIsFinal` | src/oldSolRelated/TSolClusters.cxx:135-184 | a cluster's charge and position are those of the final amplitudes of its span |
| `SolClusterExact.PositionIsMean` | src/oldSolRelated/TSolClusters.cxx:135-184 | position times charge is the start of the plane times the charge plus the pitch times the sum of strip number times amplitude |
| `SolClusterResults.TotalCharge` | src/oldSolRelated/TSolClusters.cxx:119-145 | total charge is the total amplitude less half of every shared strip |
| `SolClusterResults.ChargeConservedIff` | src/oldSolRelated/TSolClusters.cxx:51-145 | no charge is lost exactly when no run of adjacent raw strips is longer than a cluster may be and falls below a peak and rises again |
| `SolClusterResults.ValleyedLosesCharge` | src/oldSolRelated/TSolClusters.cxx:51-145 | nine adjacent strips 10, 10, 10, 10, 1, 10, 10, 10, 10 lose charge |
| `SolClusterExact.OnePeakIff` | src/oldSolRelated/TSolClusters.cxx:64-133 | a run shows one peak exactly when no strip is below 90% of an earlier one |
| `SolClusterExact.DoublePeakIff` | src/oldSolRelated/TSolClusters.cxx:51-133 | a raw run is split exactly when it is longer than seven and has a strip below 90% of an earlier one and then one above 110% of that |
| `SolClusterResults.SizesAddUp` | src/oldSolRelated/TSolClusters.cxx:130-132 | sizes count every strip once and every shared strip twice |
| `SolClusterResults.CentroidInSpan` | src/oldSolRelated/TSolClusters.cxx:137-177 | a centroid lies within its span |
| `SolClusterResults.PositionsIncrease` | src/oldSolRelated/TSolClusters.cxx:187-190 | clusters come out in strictly increasing position |
| `SolClusterResults.VerdictUnique` | src/oldSolRelated/TSolClusters.cxx:64-133 | the verdict on a run is determined |
| `SolClusterResults.CuttingUnique` | src/oldSolRelated/TSolClusters.cxx:11-199 | so is the whole result |

## Left out

Arithmetic and input

- `double` and `float` are exact reals; rounding, overflow and NaN are not modelled, except for the position of an empty cluster, which is a division by zero.
- Integers are unbounded. Modelled where it matters: the 16-bit cast of a reading and of a cluster number, the 32-bit word of plane bits, casts that truncate toward zero. Not modelled: 16-bit strip and channel numbers (planes with more than 32767 strips), 32-bit sums of samples.
- Square roots, pi, `exp` and trigonometric functions are inputs: reaches are compared as squares, a strip angle is a cosine and sine with squares adding to one, an ion's amplitude and width are given.
- Random draws and pulse shapes are inputs: photoelectron numbers per hit, cross talk direction and factor per call, one pulse per strip. The pulses are an arbitrary table by strip rather than a function of the strip charge.
- Millimetres and metres are one unit of length.
- Bit patterns of signal types are sets of bit numbers.

Parts of the program

- ROOT and EVIO input and output, the tree, the text database and printing.
- The ion model, pulse shapes, optics, elastic kinematics, shower profiles, the physics tracks of `DoLoadEvent` and the back track beyond the choice of its cluster.
- A record's momentum, vertex and position in the laboratory; the track's ions, arrival time and charge, which the ion model makes.
- `GetPedNoise`, which nothing calls; the noise added to each written sample is an input.
- The points a decoded primary leaves beside its bit patterns (src/TSBSSimDecoder.cxx:673-684, 713-748).
- `NoDigitize`, which writes the planes of the event before.
- `AddRawHit` and `ClusterPlane` of the cluster splitter; its raw hits are taken as sorted by strip, as the map that holds them keeps them, and as positive and below 1e9.
- The other files of src/oldSolRelated, `StripToROC`, frame changes other than between plane and strip, plain getters.
- `loadData` into the crate map, whose failure ends the strip loop of `DoLoadEvent` early.

Form

- DigitizedPlane.DigitizedPlane.Cumulate: a hit is read out before the first write; it shares no array with the plane, so the order does not show.
- DigitizedPlane.DigitizedPlane.Clear: the per-sample cluster lists are kept strip by strip, not sample by sample as in the source.
- GEMDigitization.GEMDigitization.AdditiveDigitize: the planes of the chambers are held as values and the avalanche signals come with the hits; `AvaModel.DigitizeHit` ties both to the avalanche model and to the planes' arrays, for one hit in one chamber.
- StripRecords.TimeIsComplete: where a hit induces a signal on the strip of a later one of its own, the time depends on the order of its signals; `ChainedTime` says how for one such pair, `TimeIsSomeHits` what holds always.
- SimAuxi.ConversionRightIff: a cast of a value outside 16 bits is undefined in C++; that it wraps around is this model's choice. `ConvertsWhenItFits` does not depend on it.
- AvaModel.DigitizeHit: what the hits hold is stated for some strip charges; `AvaModel.ModelHit` says which.
- CaloGrowth.Grow: the three parallel vectors are sequences passed in and out, so aliasing is not modelled.
- SolClusters.SolClusters.MakeClusters: the map of raw hits is a sequence in key order, an iterator a position in it.
- TrackMatrix.Fit_3D_Track: the matrix inversion is Cramer's rule for the two blocks; `OneSolutionIff` says that any other correct solver gives the same.
- AvalancheGrid.FillGrid: the reach of an ion is positive and its squared width is positive, as the ion model makes them.
- GEMPlane.GEMPlane.ReadGeometry: requires a positive pitch.
- TrackFit.DetSign: requires positive weights, which the source does not check.
