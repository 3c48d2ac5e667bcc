# logger-rs: a verified model

`logger-rs` measures an HPC job. One logger per node samples the job's counters, folds the
samples into a summary, checkpoints that summary against a kill, and publishes a final
document; afterwards the per-node documents are merged into one view of the job. This
project models that pipeline and the text handling it depends on, and proves what the
program's code and documentation promise of them.

Check everything with `dafny verify dfyconfig.toml` (add `--resource-limit 2000000
--verification-time-limit 0`).

## What is modelled

**One logger** is described twice. `NodeProtocol` is a step machine: memory, the hidden
temporary file and the published file, with every file-system call, a kill and a power loss
as separate steps. `Logger.TelemetryLogger` is the object of `src/logger.rs` with its fields
and its loop, driven by an arbitrary script of turns: which reads fail, how long a tick takes,
which writes fail, when the status file appears. Its ghost field `actions` records the steps
it takes, and every method proves that the object's state is the state those steps lead to
(`Follows`). So everything proved of the step machine in `NodeSafety`, `Schedule` and `World`
holds of the object, between any two of its file-system calls. `Script` states, as functions
of the turns alone, which samples, lines and counts a run must produce.

**One job** (`World`) is any number of those machines interleaved with the head node, which
clears the exit-status file, records a status once (an empty file is visible first) and
removes the file again. `Merge`, `MergeLaws` and `JobBounds` model the merge loop and what a
merge at any moment of such a run may report. Laws about merges speak of every result that
`Merge.IsMergeOf` allows, which `Merge.MergeSummaries` shows to exist for every non-empty list.
`Peaks` relates the merged peaks to the true simultaneous ones. `Directory` models which files the
merge reads, and `Reading` proves that they hold what the nodes have published.

**Totals**, **Process**, **Cpu** and **Summary** give the accumulators their meaning: least
upper bounds, conserved counter growth, and a tree walk that counts each reachable process once.
`Figures` says of the remaining figures which samples they come from, `Averages` what the derived
fields of a document are shares of, and `MergeMeaning` what a merge's figures say about its nodes.

**Text and selection**: durations, byte counts under IEEE 754 rounding (`Binary64`, section
4.3.1 of IEEE 754-2019, round to nearest even), cpuset lists, quoted CSV rows (section 2 of
RFC 4180), output templates and the manifest, cgroup scoping (`Cgroup`) and candidate ranking (`Ranking`),
what exit codes are called (`ExitReason`), and the GPU sampler with its latest-value cell.

Accumulators are computed over real numbers; unsigned integers are natural numbers with the
64-bit limit written out wherever the code saturates or parses. Reads, clocks, directory
contents and the answers of vendor tools are inputs.

## Where the code differs from what is said about it

- **Memory is not always a lower bound.** A checkpoint's totals are documented as lower
  bounds (`src/types.rs:622-627`). For memory, `effective_peak_mem_bytes` switches from the
  process figure to the cgroup figure when the first cgroup report arrives, which may bring it
  down. `Totals.MemoryBoundIsExact` proves exactly when the bound holds, for every continuation
  of a run: when a cgroup figure is already there, or the process figure is zero.
- **The bracket around the true peak** (`src/types.rs:591-598`) holds for CPU as stated. For memory it
  has exact conditions. The upper figure holds exactly when the true peak fits in a u64, if every
  switch of source was harmless; `Peaks.HarmlessIsExact` says when one is, and
  `Peaks.SourceSwitchBreaksUpperFigure` is a node that was seen using memory and reports none. The
  lower figure holds exactly when no high-water mark of the kernel exceeds everything the samples saw
  (`Peaks.MemoryPeakIsBracketed`); with process figures alone it always holds. Harmless switches or
  not, the upper figure holds on every clock exactly when it covers the sum of the nodes' greatest
  loads (`Peaks.UpperFigureHoldsOnEveryClock`).
- **The lag can be a whole period.** Between turns fewer than a period's samples are missing
  from the published file; between accepting a period's last sample and renaming its
  checkpoint the whole period is (`Schedule.PeriodIsReached`, an if-and-only-if).
- **Byte counts** read back exactly when they have at most 53 significant bits, and in the one
  further case of 2^64 - 1, where rounding up and saturation cancel (`Booking.BookingRoundTrips`).
- **Base names commute with expansion** exactly when the expanded last component is an
  ordinary file name or the template has no separator (`Naming.BaseNameCommutes`). A job id of `.`
  and a host and user of `.` are inputs where they do not (`Naming.DottedJobIdDoesNotCommute`,
  `Naming.TwoDotsDoNotCommute`).
- **Braces outside placeholders.** Three sequential replacements equal one simultaneous substitution
  exactly when filling in the host adds no `{jobid}`, and filling in host and job id adds no
  `{user}`, to those the template has itself (`Braces.ExpandIsOnePassExactly`, for every text). In
  `{jo{host}}` the host `bid` adds one (`Braces.StrayBraceIsNotSimultaneous`).
- **The wrapper's rewritten template** puts `{host}` before the last dot, which may be in a
  directory name. The names listed for two nodes then coincide, exactly when a separator follows the
  output's last dot (`Manifest.WrapperNamesAreDistinct`); `/data.d/log` is such an output
  (`Manifest.SharedName`).
- **An output named `psutil_<job id>`** gives a node summary the name of the merged result. The
  directory scan then skips it (`Directory.ScanFindsLoggerUnless`, an if-and-only-if). The manifest
  does list it, so the merge writes over it and reads its own result back the next time: merging
  again finds the same files exactly when no trusted manifest lists that name
  (`Directory.MergedResultIsNotFound`, `Directory.MergeOverwritesNode`). The output
  `out/psutil_{jobid}` is such a case (`Directory.OutputNamedAfterJob`).
- **A failure beats an unknown outcome.** `src/types.rs` says of the merged exit status that it
  is none when any node's outcome is unknown; the code reports a recorded failure even then.
  The model follows the code (`MergeLaws.MergedStatusIsWorst`, `MergeLaws.FailureBeatsUnknown`).

## Model

| member | source | states |
|---|---|---|
| NodeSafety.StepKeepsInv | src/logger.rs:377-394 | every step of a logger, each single file-system call, a kill and a power loss included, keeps the protocol's invariant |
| NodeSafety.PublishedIsAlwaysSound | src/logger.rs:827-858 | after any steps the published summary is absent, a whole document marked partial equal to the fold of a prefix of the accepted samples, or the whole run's document marked complete |
| NodeSafety.StepGrowsPublished | src/output.rs:35-61 | a published document is only ever replaced by one at least as far along in every figure, and a final one is never replaced |
| NodeSafety.CheckpointsDoNotDisturb | src/logger.rs:761-834 | for every run, checkpoint schedule and mix of failed checkpoint writes, the same run without checkpoints is possible and publishes the very same final summary |
| NodeProtocol.RecomputeForgets | src/logger.rs:768-809 | deriving fields again forgets every earlier derivation, even those that a zero duration leaves untouched |
| NodeProtocol.ReadingDecides | src/logger.rs:735-759 | no reading of the status file, failed or not, leaves the placeholder reason that a later reading may overwrite |
| NodeSafety.FirstReadingIsPublished | src/logger.rs:735-759 | on every run a published final summary carries the code the status file held when the logger first looked, described as that code, and no code if none could be read |
| ExitReason.ReasonTellsTheCode | src/logger.rs:938-948 | different exit codes, negative ones included, are described differently |
| ExitReason.ReasonIsNotUnknown | src/logger.rs:938-948 | no description of a code can be taken for the placeholder |
| Schedule.OnlyAcceptWidensLag | src/logger.rs:373-394 | accepting a sample widens the gap between memory and the published file by one; no other step widens it at all |
| Schedule.TurnKeepsSchedule | src/logger.rs:373-394 | a turn whose checkpoint succeeds leaves the file at the last multiple of the period, and at no step in between is more than one period missing |
| Schedule.PeriodIsReached | src/logger.rs:373-394 | a whole period is missing exactly after accepting the last sample of a period |
| Logger.TelemetryLogger.constructor | src/logger.rs:243-284 | a new logger has taken the launch step, carries the primed baselines, and has at least one tick per flush and per enabled checkpoint |
| Logger.TicksAreNearest | src/logger.rs:251-257 | a number is the tick count of a duration exactly when that many ticks come nearest to it, halves counting upwards, or it is one and the duration is under half a tick |
| Logger.TelemetryLogger.ScanUntil | src/logger.rs:437-449 | the scanning loop keeps the element-wise maximum up to the first scan past the deadline |
| Logger.TelemetryLogger.SampleTick | src/logger.rs:430-551 | a failed CPU reading leaves both baselines alone; a good one measures from them, whatever failed in between, and replaces them |
| Logger.TelemetryLogger.UpdateSummary | src/logger.rs:553-650 | a sample changes the accumulators and nothing else, by one step of the fold whose every figure the rows of Totals and Figures describe over the samples alone |
| Logger.TelemetryLogger.MemoryUpdated | src/logger.rs:570-578 | the cgroup peak takes the live figure and the kernel's own high-water mark |
| Logger.TelemetryLogger.GpuUpdated | src/logger.rs:615-629 | GPU peaks, availability, indices and scope after a sample |
| Logger.TelemetryLogger.RecomputeDerivedFields | src/logger.rs:768-809 | the derived fields become those of a document, which Averages.DocumentsMean describes as shares of the core-seconds, the elapsed time and the bookings |
| Logger.TelemetryLogger.WriteJsonAtomic | src/output.rs:35-61 | the published name changes only when all four calls succeed, and then holds the whole document, synced |
| Logger.TelemetryLogger.WriteCheckpointSummary | src/logger.rs:827-834 | a checkpoint publishes the partial document of the samples so far, or leaves the file alone; after the final write it does nothing |
| Logger.TelemetryLogger.EmitJobEnd | src/logger.rs:689-720 | the outcome is settled from the status file, and the closing line carries the count and core-seconds of the accepted samples |
| Logger.TelemetryLogger.WriteFinalSummary | src/logger.rs:836-858 | the final write publishes the whole run's document unmarked, reads the status late only if nothing settled it, and happens once |
| Logger.TelemetryLogger.Drop | src/logger.rs:951-963 | dropping tries once more exactly when nothing final was written, even out of the middle of a run |
| Logger.TelemetryLogger.AcceptSample | src/logger.rs:371-394 | a kept sample is accumulated and counted, and a checkpoint is published exactly when the count is a multiple of the period and its calls succeed |
| Logger.TelemetryLogger.Turn | src/logger.rs:320-416 | one turn of the loop: when it stops, what it keeps, which line it writes and how the three counters move |
| Logger.TelemetryLogger.SampleUntilStopped | src/logger.rs:320-417 | the loop stops at the first turn that calls for it, with exactly the samples and lines of the good turns before it |
| Logger.TelemetryLogger.Run | src/logger.rs:302-428 | a whole run: its stop, its samples, its stream of lines, its final document, and with successful checkpoints at most one period missing at every single step |
| Logger.TelemetryLogger.Live | src/logger.rs:302-428 | run followed by drop publishes the whole run's document exactly when one of the two final attempts succeeds |
| Script.TurnCounts | src/logger.rs:331-370 | the loop's counters say exactly what the history of failures says, so it gives up at the twentieth failure in a row and polls every flush period |
| Script.StopsWithinFlushPeriod | src/logger.rs:320-337 | once the status file exists and stays, the loop stops within one flush period of turns, whatever fails |
| Script.PeakOfScansIsBound | src/logger.rs:433-449 | a tick's process figures are the least upper bound of its scans |
| Script.WindowsAreContiguous | src/logger.rs:464-474 | each sample's window starts where the one before ended, failed turns in between or not |
| Script.WindowsAreLong | src/logger.rs:437-467 | every sample's window is at least one interval long, however many turns failed before it |
| Script.RunConservesCpuTime | src/logger.rs:453-474 | over a run with a primed baseline and a counter that never falls, core-seconds are the last good reading minus the baseline, without exception |
| Script.RunConservesOnAnyClock | src/logger.rs:453-474 | on any clock, even a stopped one, that holds exactly when no window without length saw growth |
| Script.RunBoundsCpuShares | src/logger.rs:639-649 | resets or not, each CPU's core-seconds are at most the growth its counter showed; at most the elapsed time on a clock that does not run backwards; and without resets at most the counter's own growth |
| Script.RunTelescopesTraffic | src/logger.rs:863-880 | network totals of a run without resets are the last good reading minus the first |
| Script.CountsAgree | src/logger.rs:344-395 | sample lines written plus lines lost equal the closing line's count, which is the final summary's |
| Script.CleanRunCounts | src/logger.rs:689-720 | in a clean run the stream is the opening line, one line per sample in order and the closing line, and its three counts are equal |
| Totals.PeaksAreLeastUpperBounds | src/logger.rs:558-593 | process peaks are exactly the least upper bound of the samples |
| Totals.CpuPeakIsReached | src/logger.rs:556-557 | the CPU peak is reached by a sample, or zero, and exceeded by none |
| Totals.CpuPeaksAreReached | src/logger.rs:631-634 | likewise for every CPU, however many CPUs samples report |
| Totals.MemoryPeakAppears | src/logger.rs:570-578 | the cgroup peak exists exactly when some sample reported one, and the displayed gigabytes follow the peaks |
| Totals.MemoryPeakCoversReports | src/logger.rs:570-575 | it covers every reported figure, the kernel's high-water mark included |
| Totals.PowerAvailableIfEverMeasured | src/logger.rs:620-625 | a GPU's power counts as available exactly when some sample measured it |
| Figures.IoIsTheLatestReport | src/logger.rs:594-608 | the cgroup I/O figure is that of the last sample that reported one, and there is none exactly when no sample did |
| Figures.SwapPeakIsReached | src/logger.rs:579-581 | the swap peak is reached by a sample and exceeded by none, and exists exactly when some sample reported swap |
| Figures.EfficiencyPeakIsReached | src/logger.rs:557 | the efficiency peak is reached by a sample, or zero, and exceeded by none |
| Figures.GpuPeaksAreReached | src/logger.rs:615-619 | entry k of each of the five GPU vectors is the maximum of that same vector's entries k over the samples, and each is as long as the longest reported |
| Figures.GpuLabelsAreTheLatest | src/logger.rs:626-629 | the GPU indices are the last non-empty ones and the scope is the last sample's |
| Averages.DocumentsMean | src/logger.rs:768-809 | in every document hours times 3600 are the core-seconds and the booking efficiencies are shares of the bookings; once time has passed the averages, in total and per CPU, times the elapsed time are 100 times the core-seconds, and efficiency times cores times elapsed time is too |
| Averages.AverageIsCounterGrowth | src/logger.rs:779-782 | over a run on a real clock the published average times the elapsed time is 100 times the growth of the kernel's counter in seconds, from the baseline to the last good reading |
| Totals.PrefixIsLowerBound | src/types.rs:622-629 | the accumulators of any prefix of a run are a lower bound for those of the run |
| Totals.MemoryBoundIsExact | src/types.rs:519-521 | a prefix's memory figure bounds every continuation exactly when its source is the cgroup already or it is zero |
| Totals.MemoryPrefixIsLowerBound | src/types.rs:519-521 | with its source fixed over the run, memory is a lower bound too |
| Totals.CpuTimeIsCounterGrowth | src/logger.rs:635-644 | with any resets and tick lengths, core-seconds are the non-negative counter growth of the windows that had length |
| Totals.CpuTimeIsConserved | src/logger.rs:464-474 | over contiguous windows of a counter that never falls nothing is lost or counted twice, exactly when no window without length saw growth |
| Totals.CpuShareIsCappedGrowth | src/logger.rs:645-649 | a CPU's core-seconds are its growth with each window capped at its length |
| Totals.CpuShareIsBounded | src/cpu.rs:14-37 | so they do not exceed the elapsed time |
| Totals.CpuGrowthTelescopes | src/cpu.rs:14-37 | and without resets the growth of all windows is the counter's own |
| Totals.TrafficTelescopes | src/logger.rs:863-880 | failed readings neither lose nor invent traffic |
| Summary.MaxIntoReals | src/types.rs:708-715 | element-wise maximum into a vector that grows, its tail kept |
| Summary.MaxIntoNats | src/types.rs:718-725 | the same for integers |
| Summary.AddScaledInto | src/types.rs:728-735 | element-wise scaled addition into a vector that grows |
| Summary.OrInto | src/logger.rs:620-625 | element-wise disjunction into a vector that grows |
| Cpu.PercpuBusyPct | src/cpu.rs:14-37 | one entry for every CPU in either reading, each that CPU's own busy share, missing counters reading as zero |
| Cpu.TotalSeconds | src/cpu.rs:47-60 | percentage times window is the counter's growth in seconds whenever the window has length |
| Cpu.BusySeconds | src/cpu.rs:14-37 | percentage times window is one CPU's growth capped at the window |
| World.EveryPublishedSummaryIsSound | src/logger.rs:827-858 | for any number of loggers in any interleaving with the head node, every published file is a sound checkpoint or final document |
| World.StatusIsNeverInvented | logger-rs.sh:549-553 | a published status is unknown or the one the head node recorded, whatever lay about before the job; a checkpoint's is always unknown |
| World.PublishedOnlyGrows | src/output.rs:35-61 | as a run goes on every node's published document stays, only grows, and is fixed once final |
| Merge.MergeExitStatus | src/merge.rs:339-378 | the first non-zero status, else unknown if any node's is, else success, with the reason that names the unknown hosts |
| Merge.UnknownHostsAreListed | src/merge.rs:353-357 | the reason lists exactly the named hosts whose outcome is unknown |
| Merge.CombinedIsAggregates | src/merge.rs:211-228 | accumulating all figures side by side gives each figure's own sum, saturated sum or maximum |
| Merge.StampsAreUnique | src/merge.rs:230-237 | the earliest and latest stamps are determined by the set of stamps |
| Merge.MissingHosts | src/merge.rs:260-264 | the expected hosts without a report, in order |
| Merge.PartialHosts | src/merge.rs:266-272 | the named hosts whose document was a checkpoint, in order |
| Merge.MergeSummaries | src/merge.rs:164-331 | the merge loop yields a result of the relation that the rows of MergeLaws and MergeMeaning describe: totals, peaks, stamps, table, lists and efficiencies, with no answer exactly when there is no document |
| MergeLaws.MergeIgnoresOrder | src/merge.rs:200-287 | permuting the documents changes no total, peak, duration, efficiency, stamp or missing host, no row, no order of rows when ranks and names are distinct, and not whether the job succeeded, failed or is unknown |
| MergeLaws.TableIsStablySorted | src/merge.rs:254-258 | the table is sorted by rank and host, ties keeping their order |
| MergeLaws.MergeIsCompositional | src/merge.rs:211-237 | merging a concatenation is combining the merges of the parts, saturating sums being the smaller of the true sum and the limit |
| MergeLaws.EfficiencyIsAtMostAll | src/merge.rs:274-279 | efficiency is at most 100 when every node stayed within its CPUs times its duration |
| MergeMeaning.OneNodeTotals | src/merge.rs:211-228 | merging one document gives back that document's sixteen totals and peaks, capped where sums are |
| MergeMeaning.OneNodeEfficiencies | src/merge.rs:274-285 | and that document's own efficiencies and hours |
| MergeMeaning.EfficiencyIsAShare | src/merge.rs:274-279 | merged efficiency times all CPUs times the longest duration is 100 times the summed core-seconds, and zero without CPUs or duration |
| MergeMeaning.FullEfficiencyMeansAllBusy | src/merge.rs:274-279 | it is 100 exactly when every node kept all its CPUs busy for the whole longest duration |
| MergeMeaning.WalltimeIsAShare | src/merge.rs:281-285 | walltime efficiency times the first node's booking is 100 times the longest duration, and zero without a booking |
| MergeMeaning.TableAddsUp | src/merge.rs:239-258 | the columns of the sorted table add up to the totals above it and reach its maxima |
| MergeLaws.ReportedAndMissingAddUp | src/merge.rs:260-264 | reported and missing hosts are disjoint, cover the expected hosts, and count up to the allocation |
| MergeLaws.PartialHostsAreCheckpoints | src/types.rs:622-629 | a host is listed as partial exactly when its document was a checkpoint |
| MergeLaws.MergedStatusIsWorst | src/merge.rs:339-378 | success exactly when every node read success, failure exactly when some node read one, unknown exactly when none failed and some is unknown |
| MergeLaws.FailureBeatsUnknown | src/merge.rs:339-378 | one unknown and one failed node merge to the failure |
| JobBounds.EarlierMergeIsLowerBound | src/types.rs:622-629 | merging at one moment of any job is at most merging at any later one in every total, peak and duration, and in memory where no node's source changed |
| JobBounds.MergedStatusIsNeverInvented | src/merge.rs:339-378 | whenever the merge runs and in whatever order it reads, the job's status is unknown or the recorded one, and success only if all reporting nodes read success |
| Peaks.CpuPeakIsBracketed | src/types.rs:591-598 | the true simultaneous CPU peak, on any common clock, lies between the two reported figures |
| Peaks.MemoryPeakIsBracketed | src/merge.rs:221-226 | the true memory peak is within the upper figure exactly when it fits in a u64, and at least the lower one exactly when no kernel high-water mark exceeds it, wherever switches of source were harmless |
| Peaks.ProcessPeakIsBracketed | src/merge.rs:221-226 | with memory figures from processes alone the lower figure always holds |
| Peaks.MemPeakIsLeastBound | src/types.rs:519-521 | a node's memory figure is the least bound of what its samples measured and of the kernel's marks |
| Peaks.HarmlessIsExact | src/types.rs:519-521 | a node's figure covers everything its samples measured exactly when no process figure taken without a cgroup report exceeds the cgroup peak |
| Peaks.SourceSwitchBreaksUpperFigure | src/types.rs:519-521 | after a switch of source the upper figure can be zero although memory was seen in use |
| Peaks.UpperFigureHoldsOnEveryClock | src/merge.rs:223-224 | whatever the switches, the upper figure holds on every clock exactly when it covers the sum of the nodes' greatest loads |
| Peaks.EveryClockIsWithin | src/types.rs:591-598 | on some clock all nodes reach their greatest loads at once, so a figure bounds every clock exactly when it bounds that |
| Peaks.RunIsFolded | src/logger.rs:827-858 | what any run publishes is folded from prefixes of its nodes' samples |
| Peaks.RunCpuPeakIsBracketed | src/types.rs:591-598 | so at any moment of any run the merged CPU figures bracket the true peak of the published samples |
| Reading.MergeReadsWhatIsPublished | src/merge.rs:23-48 | with the job's manifest and distinct names, finding and loading gives exactly the documents the nodes have published, each once |
| Reading.EarlierReadingIsLowerBound | src/merge.rs:129-158 | so of two merges through the directory at two moments of any run the earlier is a lower bound for the later, memory included where no source changed |
| Reading.LoadingIgnoresOrder | src/merge.rs:129-158 | names in another order load the same documents |
| Reading.ReadStatusIsNeverInvented | src/merge.rs:339-378 | the same of what a merge reads through the directory |
| Reading.MissingMeansUnpublished | src/merge.rs:260-264 | at any moment of any run a merge through the directory lists a host as missing exactly when its logger has published nothing |
| Directory.FindNodeSummaries | src/merge.rs:23-82 | exactly the wanted files are found, each once and in order, and finding fails only if there is neither a trusted manifest nor a directory to list |
| Directory.LoadNodeSummaries | src/merge.rs:129-158 | every readable summary of the job is loaded and every other file is reported, none lost |
| Directory.FindingIsDetermined | src/merge.rs:79-81 | the result does not depend on the order of the listing |
| Directory.ScanLoadsExactlyTheJob | src/merge.rs:49-82 | without a manifest exactly the readable summaries of this very job are loaded, except one under the merge's own name |
| Directory.FoundNamesStayInside | src/merge.rs:32-41 | nothing found is a path out of the merge directory |
| Directory.ScanFindsLoggerUnless | src/merge.rs:59-64 | the scan finds what a logger wrote exactly when its output's base name is not the job's stem |
| Directory.ManifestFindsTheLoggers | src/merge.rs:24-48 | with the job's manifest the merge reads exactly what the loggers of its hosts have published |
| Directory.MergedResultIsNotFound | src/merge.rs:112-122 | merging again finds just what is there without the merged result, if and only if no trusted manifest lists a node's summary under its name |
| Directory.MergeOverwritesNode | src/main.rs:148-151 | where one does, the merge writes over that node's summary and finds, but cannot load, its own result the next time |
| Directory.OutputNamedAfterJob | src/manifest.rs:45-61 | the output out/psutil_{jobid} is such a case on every host |
| Process.MaxWithIsLeastUpperBound | src/process.rs:64-76 | the high-water mark of two scans is their least upper bound |
| Process.AccumulatePid | src/process.rs:137-179 | one live process adds its own figures, each to its own total and under the two options; one that has exited adds nothing |
| Process.TotalsAreSums | src/process.rs:137-179 | resident pages times the page size, one per process, tasks, descriptors less one, both fault counts, four I/O figures and swap are each summed over the live processes, the last five only when asked for |
| Process.StatsForPids | src/process.rs:115-123 | each of the eleven totals of a list of processes is the sum of that figure over its live processes |
| Process.SumOfPermutation | src/process.rs:115-123 | in whatever order they are listed |
| Process.TreeStatsFrom | src/process.rs:184-208 | the walk ends on every child relation, cycles included, and for every list of the reachable processes, each once, each of its eleven totals is the sum of that figure over the live ones |
| Gpu.FilterToVisible | src/gpu.rs:124-171 | all eight vectors are narrowed to the same rows |
| Gpu.MatchingRowsAreTheVisibleOnes | src/gpu.rs:124-171 | those rows are exactly the ones a token names, once each and in order |
| Gpu.NarrowingKeepsGpusWhole | src/gpu.rs:138-168 | narrowing yields exactly the named GPUs, once each and in order, each with its own eight entries |
| Gpu.NumberNamesOneGpu | src/gpu.rs:142-148 | a numeric token names the GPU with that number and no other, however it is padded |
| Gpu.AbbreviationNamesByUuid | src/gpu.rs:149-152 | a token that begins as a UUID does names the GPUs whose UUID it abbreviates |
| Gpu.FilteringIsIdempotent | src/gpu.rs:124-171 | a filtered reading is already filtered |
| Gpu.FilteredIsAligned | src/gpu.rs:124-171 | narrowing leaves eight vectors of one length, even when the tool's were not |
| Gpu.GpuSampler.Sample | src/gpu.rs:275-329 | a call polls, returns the cache or stays disabled as specified, and updates every field accordingly |
| Gpu.CellHoldsLatestReading | src/gpu.rs:199-240 | on every run of the worker the cell holds what the tools answered at the latest poll, narrowed and truthfully labelled, and polls are at least the interval apart |
| Gpu.DisabledIsForEver | src/gpu.rs:263-281 | once disabled no later turn runs a tool or changes what ticks read |
| Gpu.VendorIsSettledOnce | src/gpu.rs:297-310 | AMD's tool is asked only when NVIDIA's reports no GPU; a vendor is settled on exactly when its tool reports some, and the answer is always that tool's |
| Gpu.VendorIsForEver | src/gpu.rs:297-310 | once settled on, the vendor stays the same in every continuation |
| Gpu.TurnPollsWhenDue | src/gpu.rs:275-329 | a turn of a running worker polls exactly when none was made or the interval has passed, changes nothing otherwise, and disables the sampler exactly when the job is left without GPUs |
| Csv.ParseCsvRow | src/gpu.rs:498-519 | the character loop computes the reading of the row from its start |
| Csv.CommasCountCells | src/gpu.rs:503-513 | every line has one cell more than commas outside quotes |
| Csv.CommaEndsCellOutsideQuotes | src/gpu.rs:503-513 | at every comma of every line: outside quotes a cell ends there and reading starts afresh behind it; inside quotes the comma joins the unfinished cell |
| Csv.LastCellIsUnfinished | src/gpu.rs:516-518 | what a text leaves unfinished, trimmed, is the last cell of its row |
| Csv.RowRoundTrips | src/gpu.rs:498-519 | parsing undoes printing for every non-empty list of trimmed cells and every permitted choice of quoting |
| Cgroup.ScopedIsPrefix | src/cgroup.rs:576-585 | on normalised paths the string test is the component-wise prefix test |
| Cgroup.ScopedIsPartialOrder | src/cgroup.rs:576-585 | it is a partial order below the root, which is never scoped |
| Cgroup.SlurmJobRoot | src/cgroup.rs:602-615 | the shortest prefix ending in exactly the job's component, or nothing exactly when there is none or the id has no number |
| Cgroup.DescendantsResolveToRoot | src/cgroup.rs:576-615 | every descendant of the root resolves back to it and counts as scoped to it, and nothing above it does |
| Ranking.RankCandidates | src/cgroup.rs:529-559 | the result lists every candidate once; by representative paths alone, roots come last, paths naming the job precede those that do not, more components come first within a kind, and ties keep the input order |
| Ranking.RankingIsStable | src/cgroup.rs:552-556 | the scored order behind it is a sorted permutation in which ties keep their order |
| Ranking.RootsComeLast | src/cgroup.rs:529-559 | a root cgroup never precedes one that is not |
| Ranking.JudgedByCpuacctFirst | src/cgroup.rs:562-567 | on a printed cgroup file with several entries the representative path is that of the first cpuacct entry, else of the first cpu entry, else of the v2 entry, else empty |
| Cgroup.KeyIsTheNumber | src/cgroup.rs:591-598 | a job id that starts with digits has exactly those digits as its key, and one that does not has itself, trimmed |
| Cpuset.ParseCpusetList | src/cgroup.rs:882-911 | a list is read exactly when no part is malformed and some CPU is written, as the strictly increasing union of the written ranges |
| Cpuset.CpusetRoundTrips | src/cgroup.rs:882-911 | whatever reading that allows, for the canonical text of a non-empty set of u32 ids it is the set itself |
| Naming.SanitisedIsSafe | src/host.rs:63-81 | a sanitised name is a non-empty fragment without separators that sanitising leaves alone |
| Naming.SanitisedText | src/host.rs:63-81 | character by character: ASCII letters, digits, hyphens and underscores stay, a dot stays unless it pairs with a neighbour, anything else becomes an underscore |
| Naming.ExpandIsSimultaneous | src/cli.rs:449-456 | for templates whose braces occur only in placeholders, sequential replacement is simultaneous substitution |
| Braces.ExpandIsOnePassExactly | src/cli.rs:449-456 | for every text, sequential replacement is simultaneous substitution exactly when the fills add no later placeholder |
| Braces.OnePassOfTemplate | src/cli.rs:449-456 | on templates whose braces occur only in placeholders, one pass over the text is the substitution of the pieces |
| Braces.ReplaceFillsHoles | src/cli.rs:449-456 | a replacement finds at least the placeholders of the template, and when no more than those fills exactly them |
| Braces.StrayBraceIsNotSimultaneous | src/cli.rs:449-456 | in one template a host completes a placeholder: sequential and simultaneous results differ |
| Naming.ExpandKeepsSeparators | src/cli.rs:449-456 | no placeholder survives and the number of separators is unchanged |
| Naming.BaseNameIsLastSegment | src/manifest.rs:79-84 | the base name is the text after the last separator exactly when that is an ordinary component or there is no separator |
| Naming.BaseNameCommutes | src/manifest.rs:45-61 | base name and expansion commute exactly when the expanded last component is ordinary or there is no separator |
| Naming.DottedJobIdDoesNotCommute | src/manifest.rs:79-84 | they do not for a job id of one dot as the last component |
| Naming.TwoDotsDoNotCommute | src/manifest.rs:79-84 | nor for a host and a user of one dot each |
| Naming.HostsGetDifferentNames | src/cli.rs:449-456 | hosts that differ after sanitising get different base names when the last component names the host |
| Manifest.SummaryBaseName | src/cli.rs:459-463 | the summary's base name is the log's with the suffix |
| Manifest.ManifestAgreesWithLoggers | src/manifest.rs:45-61 | every entry names exactly the files the logger on that host writes, if and only if its output path ends in a file name |
| Manifest.ManifestNamesComeFromLastComponent | src/cli.rs:296-308 | when the expanded last component is ordinary both names come from it alone |
| Manifest.ManifestNamesAreDistinct | src/manifest.rs:45-61 | two nodes whose names differ are told different files if and only if the template's last component names the host |
| Manifest.WrapperRewrites | logger-rs.sh:366-373 | every output template without a host, with or without a dot, is rewritten to one with it, in the last component exactly when no separator follows the last dot |
| Manifest.WrapperEditsTemplate | logger-rs.sh:367-372 | the wrapper's edit of a text with a dot is an edit of the template |
| Manifest.WrapperExtendsTemplate | logger-rs.sh:368-370 | a text without a dot is extended at its end |
| Manifest.WrapperTemplateVaries | logger-rs.sh:366-373 | where the edited template then names the host |
| Manifest.WrapperNamesAreDistinct | logger-rs.sh:366-373 | the names listed for two nodes of such a job differ exactly when no separator follows the output's last dot |
| Manifest.SharedName | logger-rs.sh:366-373 | with the output /data.d/log every node is told the same file |
| Durations.SlurmTimeRoundTrips | src/scheduler.rs:125-158 | printing any of the six Slurm shapes and parsing it gives the intended seconds whenever they fit in a u64 |
| Durations.WalltimeRoundTrips | src/scheduler.rs:209-216 | a rendered walltime reads back exactly by both parsers for every u64 number of seconds |
| Durations.HmsShapesRead | src/cli.rs:475-493 | printed fields are read to base sixty when there are at most three and the total fits in a u64, and as zero when there are more |
| Durations.SlurmBookingReachesTheLogger | src/scheduler.rs:164-176 | in every environment the booked seconds survive the trip through text, an unreadable limit giving way to the timestamps |
| Durations.TimestampsBookTheirDifference | src/scheduler.rs:171-173 | two printed timestamps book their difference exactly when the first is set and the second is later |
| Durations.PrintedLimitIsBooked | src/scheduler.rs:164-176 | a limit in any of the six shapes is the one booked |
| Binary64.RoundOfInteger | src/cli.rs:496-520 | rounding an integer to binary64 gives one of at most 53 significant bits, and changes it exactly when it had more |
| Booking.BookingRoundTrips | src/logger.rs:924-935 | a rendered byte count reads back exactly when it has at most 53 significant bits or is the largest u64 |
| Booking.BookingRoundTripsToPow53 | src/cli.rs:496-520 | hence for every count up to 2^53, and not for the next one |
| Booking.BookedTextAgrees | src/logger.rs:894-920 | the cgroup's limit is booked when it means one, else the option; the displayed text reads back as the recorded bytes, and only the cgroup's is per node |
| Booking.PrintedLimitIsRead | src/cgroup.rs:652-671 | a printed limit is taken as it stands, except zero and anything from 1 PiB on |
| Booking.WrittenQuantityIsRead | src/cli.rs:496-520 | a count of any of the five units, each 1024 of the next, is read as that many bytes exactly when those have at most 53 significant bits |
| Booking.SlurmMemoryReachesTheLogger | src/scheduler.rs:187-207 | in every environment the megabytes Slurm exports, per node or per CPU times either CPU count, reach the logger's byte count exactly when they have at most 53 significant bits as bytes, and nothing is booked exactly when they come to zero |
| Booking.PerNodeIsBooked | src/scheduler.rs:187-207 | printed megabytes per node are exported as they stand |
| Booking.PerCpuIsMultiplied | src/scheduler.rs:187-207 | without them printed megabytes per CPU are exported once per CPU, saturating, the node's count preferred to the job's, and nothing when either is zero |

## Left out

- Reading and line-scanning /proc, /sys, cgroup and network files: their contents are inputs; the counter parsers are easy members.
- A process table that changes during one scan: a scan sees one fixed table.
- Rounding in the accumulators: they are computed over real numbers.
- Unchecked u64 additions in process sums and network totals: natural numbers, so their overflow is not modelled.
- Durations.SlurmTimeRoundTrips: asks that the total fit in a u64, so the unchecked `days * 86_400` cannot overflow; what an overflowing text does is not modelled.
- Durations.HmsShapesRead: likewise says nothing of totals that do not fit in a u64.
- Booking.BookingRoundTrips: letters are lower-cased as ASCII; other Unicode case mappings in a memory option are not modelled.
- Peaks.MemoryPeakIsBracketed: loads are what the samples measured; a spike between samples that only the kernel's mark shows has no place on the clock.
- Booking.SlurmMemoryReachesTheLogger: bookings of more bytes than a u64 can count are not characterised.
- Manifest.ManifestAgreesWithLoggers: paths are compared by base name, up to the spelling of separators inside a path; an explicit summary option is not covered, since the manifest does not know it.
- Logger.TelemetryLogger.Run: buffering and flushing of the stream are not modelled; a line is written or it is not. The stub mode without a cgroup is left out.
- Logger.TelemetryLogger.Drop: a panic between turns is covered; one in the middle of accumulating a sample is not.
- World.EveryPublishedSummaryIsSound: a rename is one atomic step and survives power loss once the file was synced; two loggers sharing one output path are left out.
- Cpu.PercpuBusyPct: windows are lengths of real time, never not-a-number.
- Script.RunConservesCpuTime: needs a clock on which scans end past their deadline and counters are read after them; Script.RunConservesOnAnyClock says what holds without one.
- Reading.MissingMeansUnpublished: asks that every logger reports the host name the manifest lists for it; how a host finds its short name is an input.
- Schedule.OnlyAcceptWidensLag: the lag counts samples; wall-clock bounds on the loss are not stated.
- The head node's launching, signalling and waiting: only the order of its writes to the status file is kept. The pause before merging and the shell's traps are left out.
- Identity fields copied from the environment, the contents of `job_start`, message texts, JSON encoding, file permissions, directory creation and the sibling temporary file's name.
- Column layouts of `nvidia-smi` and `amd-smi` output and the separate `rocm-smi` power query: a tool's answer is an input.
- The background GPU worker's thread and lock: its turns interleave with reads of the cell as atomic steps.
- Discovering cgroup mounts, the affinity fallbacks, preflight reporting, argument validation and the scheduler's identity variables.
- Looking for streams when a merge finds no summaries: it only feeds a message.
