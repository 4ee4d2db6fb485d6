# Exposure: the job server, its workers and the histogram matching

Exposure evens out the brightness of time-lapse frames. A server hands out one analysis job
per image file to workers on the network, collects a lightness histogram for each file, plans
for every file a table that maps its lightness values onto those of the file before it in name
order, hands out one equalisation job per file, and writes the TIFF files that come back.
Workers join at any time, leave, fall silent and are dismissed, and may still answer after
they were dismissed.

This project models the server, the workers, the image arithmetic and the wire format, and
proves what they promise. `dafny verify dfyconfig.toml` checks all of it.

| file | models |
|---|---|
| `Config.dfy`, `Commands.dfy` | constants, jobs, results, commands and their `operator==` family |
| `Codec.dfy` | encoding and decoding of commands, TIFF chunking |
| `Matching.dfy` | the two-index walk of `get_equalisation_parameters` |
| `Interpolation.dfy` | `linear_map`, `lerp` and the identity table |
| `Lightness.dfy` | `compute_lightness_histogram`, and what matching means for images |
| `Equalisation.dfy` | the pixel loop of `image_equalise`, and the distribution of the equalised image |
| `Names.dfy` | the order in which `std::map<std::string, ...>` is iterated |
| `Dispatch.dfy`, `Server.dfy` | what each server handler makes of the state; the `Server` class that does it in place |
| `Handlers.dfy` | what that means for the queue, the lists and the results, position by position |
| `Cluster.dfy` | the server, the workers and the network as one system of interleaved steps |
| `Messages.dfy` | what the server sends in every step, and that this is what its workers then have under way |
| `Accounting.dfy`, `Invariants.dfy`, `Preservation.dfy` | where every job is, and that every step keeps it so |
| `Guarantees.dfy`, `Progress.dfy`, `Losses.dfy`, `Heartbeats.dfy`, `Recovery.dfy` | the theorems about all runs |
| `Scenarios.dfy` | runs in which a dismissal strands a job and a result is made from an overwritten file |
| `Locks.dfy` | the two recursive mutexes of the server |
| `ThreadPool.dfy`, `Connections.dfy` | the worker's thread pool and its list of servers |

The main results, hardest first:

* **The cluster computes what one process would.** In every run, whatever the interleaving,
  losses, departures, dismissals and late answers, the server that finishes has written one
  result for every file and nothing else. Each has the bytes a sequential pass over the
  directory in name order produces; for a file that is itself the path of another one's result
  it is that file's original or the other result, equalised
  (`Guarantees.RunMatchesSequentialProgram`).
* **When the end can still be reached.** At any point of any run, after whatever losses and
  departures, the server can be brought to its end without a BYE and without a further loss if
  and only if no assigned job has been lost in the first phase (`Recovery.FinishableExactly`).
* **Exactly-once accounting.** Every job of the current phase is queued, or in one registered
  worker's list, or done, and only once (`Guarantees.EachJobInOnePlace`); results of registered
  workers always find their job, so the two `erase(find_if(...))` calls are safe
  (`Guarantees.ResultsAlwaysMatch`); late results change no accounting
  (`Guarantees.LateResultsAreHarmless`).
* **Matching is right.** The walk leaves every row where the two cumulative distributions cross
  (`Matching.Sandwich`), which for two images bounds the difference of the darker shares
  (`Lightness.MatchedImagesAgree`), before and after the pixels are mapped: equalised, the
  current image has as much below each level of the table as the previous image, up to the
  fullest bins (`Equalisation.EqualisedImagesAgree`); the walk equals a linear search under a
  condition that is exact (`Matching.SearchedExactly`); tables and the pixel map keep order
  (`Interpolation.EqualisationKeepsOrder`).
* **Completion.** A run has at most six deliveries, computations and receipts for each file and
  96 for each worker that leaves (`Progress.WorkIsBounded`), and a stretch without departures
  can hold only so many (`Progress.UneventfulWorkEnds`), whatever else happens in it. Where
  registered workers can move nothing, the phase is complete if and only if no assigned job is
  lost and no job is queued beside idle workers (`Progress.CompleteExactly`);
  an unfinished phase is stuck exactly when every assigned job is lost
  (`Progress.StuckExactlyWhenLost`).
* **Concurrency.** The server's threads cannot deadlock although two functions lock in opposite
  orders (`Locks.NoDeadlock`); the worker's pool loses no wake-up, finishes its jobs when
  nobody feeds it any more, and frees every thread on shutdown (`ThreadPool.NoLostWakeUp`,
  `ThreadPool.UnfedPoolFinishesItsJobs`, `ThreadPool.ShutdownFreesEveryThread`), with an exact
  condition for leaving jobs behind (`ThreadPool.ShutdownAbandonsExactly`), and in every execution
  takes jobs in stack order (`ThreadPool.LastScheduledRunsFirst`); the connection
  semaphore agrees with the server list (`Connections.SemaphoreAgrees`).
* **Handlers and messages.** Each handler is described without the functions that compute it: a
  worker is filled with the front of the queue until it is full or the queue empty
  (`Handlers.TransmitExactly`, if and only if), the serving loop deals the queue out in the
  order of the names (`Handlers.ServeDealsOut`), a heartbeat pass is given in closed form, state
  and messages (`Handlers.PassExactly`, `Messages.PassSendsExactly`). In every step the jobs sent
  are the front of the queue, go to the end of the list of the worker they are sent to and are
  then under way to it (`Messages.JobsSentAreUnderWay`), and besides jobs exactly the EHLOs,
  requests and BYEs are sent that the protocol asks for (`Messages.ToldExactly`).
* **Heartbeats.** A pass dismisses a worker exactly when it is silent
  (`Heartbeats.DismissedExactlyWhenSilent`), and while passes are made, which is only in the
  second phase, a worker that falls silent is gone within a fixed time
  (`Heartbeats.SilentWorkerIsDismissed`).
* **Codec.** Decoding undoes encoding for every command and TIFF data of any length
  (`Codec.DecodeEncode`); the other direction has an exact condition (`Codec.EncodeDecode`), and
  so has every way in which decoding fails (`Codec.DecodesExactly`).

## Where the code falls short of what one would expect

Each is modelled as the code has it, with a concrete instance or an exact condition.

* The last table entry is `previousHistogramBin * QuantumRange` without the division by the
  number of bins (`src/algorithm.cpp:147`). It lies far above the quantum range
  (`Interpolation.TableFitsRange`), and so do some pixels (`Interpolation.PixelFitsRange` says
  which). An image matched with its equal is left as the identity leaves it only up to the last
  but one table position (`Interpolation.SelfMatchedImage`).
* A bin of the current histogram that is empty can make the walk overshoot the bin a search
  would find (`Matching.EmptyBinOvershoots`); `Matching.SearchedExactly` says when.
* Results are written to the file's name plus `.tiff`, beside the served files. A served file
  whose name is another one's plus `.tiff`, as in a directory served for the second time, is
  written over while workers may still have to read it (`Guarantees.InputsOverwritten`, if and
  only if). Its own result is then made from the original or from what was written over it,
  whichever its worker reads (`Guarantees.RunMatchesSequentialProgram`); a run with the second
  outcome is `Scenarios.OverwritingShowsInTheOutput`, with visibly different bytes in
  `Scenarios.OverwritingSpoilsAResult`.
* `dismiss_worker` puts jobs back without handing them out. If every other worker is idle they
  stay queued until a new worker joins (`Scenarios.DismissalCanStrandAJob`,
  `Guarantees.OnlyJoiningHelps`, exact condition in `Guarantees.DepartureAndSaturation`).
* A job or result message lost between the server and a worker that keeps answering heartbeats
  is never sent again: the job stays in that worker's list and the phase cannot be completed
  until the worker leaves or is dismissed (`Losses.LostJobWaitsForDeparture`,
  `Losses.AMessageCanBeLost`).
* `receive_histograms` never calls `send_heartbeats`, so in the first phase nobody is dismissed:
  one lost message or one dead worker holding a job blocks the server for good
  (`Losses.FirstPhaseNeverRecovers`); `Recovery.FinishableExactly` shows that nothing else does.
* `pop_connection` erases the first server of the map, which need not be the one just worked
  for: a server announced meanwhile under an earlier name is dropped unserved
  (`Connections.EarlierNameIsDropped`, exact condition in `Connections.PopRemovesServed`).
* A worker thread woken by the shutdown leaves jobs that are still queued
  (`ThreadPool.ShutdownMayAbandonJobs`, exact condition in `ThreadPool.ShutdownAbandonsExactly`).
* Decoding an equalisation job drops the tail of a mapping list that is too long, and decoding
  a TIFF result forgets the chunk borders (`Codec.EncodeDecode`).

## Assumptions

* Every connection uses a fresh identity (five random characters in the code) and says HELO
  once for it.
* The network may lose messages, in either direction and at any time, but neither duplicates
  nor invents them; it may reorder them. A worker answers only jobs it received, once each.
* BYE reaches the server only from a registered worker. For an unregistered one `visit_bye`
  erases the end iterator, which is undefined; no worker of this program sends BYE.
* The directory has at least one regular file (`std::next` of the first histogram is undefined
  otherwise) and lists a name once.
* Lines 85-96 of `src/server.cpp` push to the queue without a lock while the communication
  thread is running. The phase switch is one step here.
* Every critical section is one step; what may interleave inside them is the subject of
  `Locks.dfy`. The clock does not go back; `send_heartbeats` reads it for every worker, and
  again for a new request, at any times during the pass.
* Names and identities are strings of bytes; a character stands for the byte's unsigned value.
* `float` and `double` are real numbers, so the branch "Floating comparison failed" cannot be
  reached. `Quantum` is the floating-point type of a high-dynamic-range ImageMagick build.
  Lightness values lie between 0 and the quantum range.
* Histograms, equalised images and TIFF data are functions of the bytes a file has when it is
  read and of the mapping. Reading and writing a file are each one step.

## Model

| member | source | states |
|---|---|---|
| Commands.ComparisonsAgree | src/protocol.cpp:166-172 | no comparison of a job with a job or a result throws; job-with-result and result-with-job agree; equality means same kind and same file name; two jobs are equal exactly when the same results match them |
| Codec.JoinSplit | src/protocol.cpp:413-422 | concatenating the chunks gives the data back; all chunks but the last are full, the last is not empty, and empty data has no chunk |
| Codec.SplitJoin | src/protocol.cpp:381-411 | a chunk list in the encoder's form is recovered by splitting what it concatenates to |
| Codec.ChunkAt | src/protocol.cpp:23-30 | chunk i starts inside the data at i times the limit, so the size subtraction cannot wrap; it has at least one and at most `limit` bytes and is that slice of the data |
| Codec.SplitLength | src/protocol.cpp:418-419 | the quotient-plus-remainder chunk count is the number of chunks |
| Codec.SplitEqualisationTiff | src/protocol.cpp:21-31 | fills the list builder with the first chunks of the data, as many as it has room for |
| Codec.EncodeTiff | src/protocol.cpp:413-422 | the list built is the whole split: its concatenation is the data and its chunks have the promised sizes |
| Codec.DecodeTiff | src/protocol.cpp:383-411 | for any chunk list the resized and copied buffer is the concatenation of the chunks |
| Codec.DecodeEncode | src/protocol.cpp:44-101 | decoding the encoding of any command gives that command; no tag assertion fails |
| Codec.EncodeDecode | src/protocol.cpp:222-233 | a message that decodes is encoded back to itself if and only if its mapping list has the exact length and its chunks the encoder's sizes |
| Codec.DecodesExactly | src/protocol.cpp:78-100 | a message is decoded if and only if its payload is known, outer and inner tags are the ones of its kind, a mapping has at least 1024 entries and a histogram exactly 1024; an unknown payload yields no command, a short mapping is read past its end, all else fails an assertion |
| Codec.EncodedIsDecodable | src/protocol.cpp:44-59 | every encoded command carries the tags and list lengths the decoder asks for |
| Codec.PayloadIsRead | src/protocol.cpp:103-463 | numbers, names and histograms are read as they stand, of a mapping that is too long the first 1024 entries, and of a TIFF result the chunks one after another, wherever they were cut |
| Lightness.Bucket | src/algorithm.cpp:51-53 | the rounded bucket of any lightness value is an index of the histogram |
| Lightness.BucketIsNearest | src/algorithm.cpp:51-53 | a pixel's bucket is the one nearest to its share of the scale times the number of bins less one; half-way between two it is the upper one |
| Lightness.CountPixels | src/algorithm.cpp:47-55 | the row-by-row loops count for every bucket the pixels that fall into it, each pixel once |
| Lightness.Proportions | src/algorithm.cpp:57-65 | every counter is divided by the pixel count |
| Lightness.ComputeLightnessHistogram | src/algorithm.cpp:43-66 | for every non-empty image each bin is the share of the pixels in its bucket |
| Lightness.CumulativeIsFraction | src/algorithm.cpp:43-66 | the sum of the first b bins is exactly the share of pixels in a bucket below b |
| Lightness.LightnessHistogramIsDistribution | src/algorithm.cpp:57-65 | bins are non-negative and sum to one |
| Lightness.MatchedImagesAgree | src/algorithm.cpp:104-149 | for any two images the share of the current one below bin i and of the previous one below the matched bin differ by at most the fullest previous bin |
| Equalisation.EqualiseRow | src/algorithm.cpp:202-205 | the inner loop maps the lightness of one more row of pixels and nothing else |
| Equalisation.EqualisePixels | src/algorithm.cpp:199-206 | in place, every third entry of the buffer becomes its image under `linear_map` and the other two channels stay |
| Equalisation.PixelBelow | src/algorithm.cpp:156-182 | a pixel is mapped below the level of a row where the table rises if and only if its table position is before that row |
| Equalisation.CurrentShare | src/algorithm.cpp:184-206 | the equalised image has below that level what the image had below the row, and at most one bin more |
| Equalisation.PreviousShare | src/algorithm.cpp:43-66 | the share of an image below a bin's level is that below the bin and at most one bin more, for the lower half of the scale, or at most one bin less, for the upper |
| Equalisation.MatchedFractions | src/algorithm.cpp:104-149 | below the matched bin the previous image has as much as the current one below the row, or at most one bin more; a little less is possible only at the last bin |
| Equalisation.EqualisedImagesAgree | src/algorithm.cpp:104-182 | for any two images and every row below the last, with p and c the fullest bins of the previous and the current image, the share of the equalised image below the row's level exceeds the previous image's by between -2p and c for levels in the lower half of the scale and between -p and p + c in the upper; at the last bin p takes the place of c |
| Matching.Advance | src/algorithm.cpp:116-144 | the five-way branch makes the walk's move and keeps both running sums equal to the sums of the bins passed |
| Matching.GetEqualisationParameters | src/algorithm.cpp:104-150 | the loop ends and writes every entry of the table: the level of the matched bin, and for the last entry the unscaled product |
| Matching.MatchedBinIsLastVisited | src/algorithm.cpp:112-114 | m(i) is visited and is the largest previous bin ever paired with row i, so it is what the row's entry is left with |
| Matching.MatchedBinsAscend | src/algorithm.cpp:112-145 | matched bins never decrease from row to row |
| Matching.LastRowReachesEnd | src/algorithm.cpp:147 | the walk ends with the last previous bin, the factor of the last entry |
| Matching.IterationBounds | src/algorithm.cpp:112-145 | from any cell, and so from the start, the iterations left are at least the distance of either index to its end and at most the sum of both distances |
| Matching.Sandwich | src/algorithm.cpp:112-145 | for non-negative bins, in every row but the last the previous distribution has reached the current one at m(i), unless m(i) is the last bin, and was not above it one bin earlier |
| Matching.MatchedFractionsAreClose | src/algorithm.cpp:112-145 | with equal total mass the two cumulative sums differ by at most the largest previous bin |
| Matching.RowIsSearched | src/algorithm.cpp:112-145 | a row entered over a bin that is not empty is left at the first previous bin whose sum reaches the row's |
| Matching.WalkRefinesSearch | src/algorithm.cpp:112-145 | without empty current bins, a bin is the result of a linear search for the row's sum if and only if it is m(i) |
| Matching.SearchedExactly | src/algorithm.cpp:132-141 | with empty bins allowed, m(i) is the searched bin if and only if i is 0, or the bin before row i is not empty, or the search ends at the last bin, or ends strictly above its target |
| Matching.EmptyBinOvershoots | src/algorithm.cpp:132-141 | for every number of bins from three on, two histograms of mass one for which row 1 is given bin 1 where the search finds bin 0 |
| Matching.VisitsTransposed | src/algorithm.cpp:116-141 | with the histograms swapped the walk visits exactly the transposed pairs |
| Matching.ReverseMapCovers | src/algorithm.cpp:116-141 | mapping a row forward and back again gives at least that row |
| Matching.SelfMatch | src/algorithm.cpp:132-141 | a histogram, even with negative bins, is matched with itself bin by bin |
| Interpolation.RoundingIsInterpolation | src/algorithm.cpp:159-181 | rounding to the nearest entry and leaning towards a neighbour gives piecewise-linear interpolation between the two entries around the position, for any table |
| Interpolation.LinearMapInterpolates | src/algorithm.cpp:156-182 | the same for every quantum value, whose position is always within the table |
| Interpolation.LinearMapKeepsOrder | src/algorithm.cpp:156-182 | for an ascending table the map is non-decreasing across rounding boundaries, stays between first and last entry, and the assertion of line 167 holds |
| Interpolation.ParametersAscend | src/algorithm.cpp:104-150 | every table the walk produces is ascending, unscaled last entry included, for any two histograms |
| Interpolation.EqualisationKeepsOrder | src/algorithm.cpp:156-182 | hence with any such table the order of pixel values is kept and the assertion never fires |
| Interpolation.TableFitsRange | src/algorithm.cpp:147 | all entries below the last lie in the quantum range; the whole table does if and only if there are two bins |
| Interpolation.PixelFitsRange | src/algorithm.cpp:156-182 | a pixel is mapped into the quantum range if and only if its table position is at most N-2 plus the part of the last stretch that lies within the range |
| Interpolation.IdentityEqualisationMapping | src/algorithm.cpp:93-102 | the generated table holds the level of every bin |
| Interpolation.IdentityMapsCloseTo | src/algorithm.cpp:93-102 | under the identity table a value v becomes v(N-1)/N, at most one bin width below v |
| Interpolation.SelfMatchTable | src/algorithm.cpp:104-150 | matching a histogram with itself gives the identity table's entry if and only if the entry is not the last |
| Interpolation.SelfMatchedImage | src/algorithm.cpp:147-149 | matched with its equal, a pixel is mapped as by the identity table if and only if its table position is at most N-2 |
| Names.BeforeIsLexicographic | src/server.cpp:78-94 | one name comes before another if and only if, where they first differ, it ends or has the smaller character: the order of `std::string` |
| Names.InOrderElements | src/server.hpp:51 | the iteration order of a map enumerates every key once |
| Names.OrderIsUnique | src/server.hpp:51 | an enumeration of the keys that ascends in this order is the iteration order |
| Names.Sorted | src/server.cpp:193 | taking least keys one after another enumerates them in iteration order |
| Dispatch.OverdueMeans | src/server.cpp:284-290 | more than 5 whole seconds, truncated, means at least 6 000 000 000 ns |
| Dispatch.FindMatch | src/server.cpp:369-371 | the index of the first matching job, or the length of the list if none matches |
| Dispatch.PlanAt | src/server.cpp:85-96 | the k-th planned job is for the k-th file in name order, with the identity mapping for the first and the match with its predecessor for the others |
| ServerProcess.FindIf | src/server.cpp:369-371 | the scan returns the first matching job |
| ServerProcess.Server.constructor | src/server.cpp:53-59 | one histogram job per file in listing order, no workers, nothing sent |
| ServerProcess.Server.TransmitWork | src/server.cpp:137-155 | moves jobs from the front of the queue to the end of the worker's list until it is full or the queue empty, and sends exactly one JOB message for each, in order |
| ServerProcess.Server.VisitHelo | src/server.cpp:426-438 | registers an unknown worker with the lesser of its threads and 32 (`Handlers.HeloFills`), sends EHLO and a heartbeat request, then fills the worker (`Messages.HeloSends`) |
| ServerProcess.Server.EraseMatch | src/server.cpp:369-371 | erases the first matching job of the list; there must be one |
| ServerProcess.Server.VisitHistogramResult | src/server.cpp:359-379 | a registered worker's histogram is recorded unless the file has one, its job erased and the worker filled again; for another worker nothing changes and nothing is sent |
| ServerProcess.Server.VisitEqualisationResult | src/server.cpp:396-420 | the file named after the source plus `.tiff` is written in any case; for a registered worker the counter grows, the job is erased and the worker filled again |
| ServerProcess.Server.VisitBye | src/server.cpp:332-352 | the worker's jobs return to the queue last first and the worker is gone |
| ServerProcess.Server.DismissWorker | src/server.cpp:248-265 | a registered worker's jobs return to the queue first to last and it is gone; BYE is sent either way |
| ServerProcess.Server.DismissWorkers | src/server.cpp:267-277 | BYE to every worker in map order (`Messages.FarewellSends`), then no workers; nothing else changes |
| ServerProcess.Server.CheckWorker | src/server.cpp:284-296 | at least 6 s after the last request: an answered worker is sent a new request, stamped with the later reading, and has its flag cleared; an unanswered one is reported expired and left alone; before that nothing happens |
| ServerProcess.Server.CheckWorkers | src/server.cpp:283-297 | the loop does this for every worker at its own readings of the clock and collects the expired ones in map order |
| ServerProcess.Server.DismissExpired | src/server.cpp:299-301 | dismisses the collected workers one after another |
| ServerProcess.Server.SendHeartbeats | src/server.cpp:279-302 | refreshes all overdue answered workers, dismisses exactly the expired ones, and sends just these requests and BYEs (`Handlers.PassExactly`, `Messages.PassSendsExactly`) |
| ServerProcess.Server.VisitHeartbeat | src/server.cpp:456-487 | a request is answered; a reply sets the flag of a registered worker and is otherwise ignored |
| ServerProcess.Server.PushPlan | src/server.cpp:78-96 | the loop over neighbouring map entries appends one equalisation job per file |
| ServerProcess.Server.PlanEqualisation | src/server.cpp:78-96 | the whole switch: the plan is appended to the queue and the result counter starts at zero |
| ServerProcess.Server.ServeExistingWorkers | src/server.cpp:189-200 | fills the workers in map order and stops once the queue is empty, with the JOB messages this takes |
| ServerProcess.FedIsPartOfTransmit | src/server.cpp:145-154 | the loop guard of `transmit_work` holds exactly until everything that fits has been handed out |
| Handlers.TransmitExactly | src/server.cpp:137-155 | filling a worker means, if and only if: the front of the queue moves to the end of its list, until the queue is empty or the list full and no further, and nothing else changes |
| Handlers.HeloFills | src/server.cpp:426-438 | a new worker is registered with the lesser of its threads and 32 and with the time, unanswered, and given the first jobs of the queue: as many as the least of its threads, 32 and the queue's length; a known one is only filled up |
| Handlers.ServeDealsOut | src/server.cpp:193-199 | the serving loop deals the queue out front to back in the order of the names: each worker's share has the size of its room, as far as the queue goes, and follows the share before it |
| Handlers.HistogramResultSettles | src/server.cpp:364-375 | for a registered worker: the file's first histogram stays, the first job the result fits leaves the list, the others keep their order, and the worker is filled |
| Handlers.EqualisationResultSettles | src/server.cpp:400-416 | the image is written to the name plus `.tiff` over what is there, the counter grows by one, and the job is settled in the same way |
| Handlers.StrangersResult | src/server.cpp:376-378 | an unregistered worker's histogram changes nothing, its image only the file it is written to |
| Handlers.ByeReturnsLastFirst | src/server.cpp:341-351 | behind the queued jobs lie the worker's, the last one first; the worker is gone and nothing else changes |
| Handlers.DismissReturnsFirstToLast | src/server.cpp:254-262 | behind the queued jobs lie the worker's, the first one first; for an unknown worker nothing changes |
| Handlers.PassExactly | src/server.cpp:279-302 | the workers without a reply to a request at least 6 s old are gone, their jobs lie behind the queued ones in the order of their names, the answered ones as old as that carry the time of the new request, and nothing else changes |
| Messages.JobMessagesAt | src/server.cpp:147-152 | one JOB message to the worker on the work socket for each job, in order |
| Messages.HeloSends | src/server.cpp:433-437 | a new worker is sent EHLO, a heartbeat request and one JOB for each job it is given, in this order |
| Messages.RequestsExactly | src/server.cpp:290-295 | among some workers a heartbeat request goes to one if and only if its reply was received and its last request is at least 6 s old when it is looked at; nothing else is sent |
| Messages.PassSendsExactly | src/server.cpp:279-302 | a pass sends one request to each of these workers and then one BYE to each silent one, in the order of the names, and nothing else |
| Messages.FarewellSends | src/server.cpp:271-273 | at the end BYE goes to every worker once, in the order of the names |
| Messages.JobsSentAreUnderWay | src/server.cpp:137-155 | in every step the jobs sent are the front of the queue in order, each goes to the end of the list of the worker it is sent to, and just these come under way to it |
| Messages.ToldExactly | src/server.cpp:248-302 | besides jobs a step sends EHLO if and only if the worker joins, a heartbeat request if and only if it joins or is due in a pass, BYE if and only if it is dismissed, and nothing else |
| Messages.RequestsAreSent | src/server.cpp:290-295 | in every run the steps the heartbeat theorems call requests are those that put one on the wire |
| Cluster.ReceiveFollowsVisitors | src/server.cpp:163-180 | the system's step for a received result changes the server as the visitor of the running phase does, and not at all for a result of the other kind |
| Cluster.ServeFollowsLoop | src/server.cpp:193-199 | the system's serving step changes the server as the loop does |
| Cluster.StepsFollowServer | src/server.cpp:49-110 | every step of the composed system changes the server exactly as the server operation it stands for |
| Accounting.TransmitConserves | src/server.cpp:137-155 | handing out work keeps the multiset of queued and assigned jobs |
| Accounting.RegisterConserves | src/server.cpp:429-432 | so does registering a worker |
| Accounting.RetireAccounts | src/server.cpp:369-371 | erasing a match takes exactly that job out of it |
| Accounting.RemoveConserves | src/server.cpp:254-262 | removing a worker keeps it if the worker's jobs are returned in any order |
| Accounting.ReverseKeepsJobs | src/server.cpp:344-348 | popping from the back returns the same jobs |
| Accounting.HeartbeatPassConserves | src/server.cpp:279-302 | so does a heartbeat pass |
| Accounting.FindsTheJob | src/server.cpp:369-371 | in a list with one job per file, a result that answers an assigned job finds that job and no other |
| Invariants.HistogramJobsOnePerFile | src/server.cpp:53-61 | the first phase has exactly one histogram job per file |
| Invariants.EqualisationJobsOnePerFile | src/server.cpp:85-100 | the second phase has exactly one equalisation job per file (the assertion of line 100) |
| Invariants.TransmitSaturates | src/server.cpp:144-154 | after filling the only worker with room, the queue is empty or every worker full |
| Invariants.JoinKeeps | src/server.cpp:426-438 | a worker joining keeps the invariant |
| Invariants.AnsweredIsOutstanding | src/server.cpp:364-371 | under the invariant a registered worker's answer is to an assigned job of the phase that is not yet done, of the kind the phase expects |
| Invariants.AnswerFindsJob | src/server.cpp:364-371 | and a result for it finds exactly it |
| Invariants.SettleKeepsCore | src/server.cpp:366-371 | accounting for a result keeps every job in one place and every list covering what is under way |
| Invariants.ResultKeeps | src/server.cpp:364-375 | a registered worker's result keeps the invariant |
| Invariants.LateResultKeeps | src/server.cpp:376-378 | so does the result of a worker that is no longer registered |
| Invariants.WriteKeepsDelivered | src/server.cpp:400-404 | writing a result the job can yield keeps every written result one its job can yield |
| Preservation.AliveKeeps | src/server.cpp:470-484 | a heartbeat reply keeps the invariant |
| Preservation.CheckHeartbeatsKeeps | src/server.cpp:279-302 | so does a heartbeat pass with its dismissals |
| Preservation.LeaveKeeps | src/server.cpp:332-352 | so does BYE |
| Preservation.DeliverKeeps | src/worker.cpp:404-416 | so does a worker receiving a job |
| Preservation.ComputeKeeps | src/worker.cpp:461-487 | so does a worker finishing a job |
| Preservation.ContentYields | src/worker.cpp:475-487 | equalising the bytes a file has at the moment, whatever was written over it, is something its job can yield |
| Preservation.ComputedIsProper | src/worker.cpp:461-487 | a histogram computed in the first phase is the true one, and an equalisation is one the job can yield |
| Preservation.LoseKeeps | src/server.cpp:231-235 | so does the loss of any messages and jobs of any worker |
| Preservation.SwitchKeeps | src/server.cpp:74-100 | so does the switch between the phases |
| Preservation.ServeKeeps | src/server.cpp:189-200 | so does the serving loop, after which the invariant again says, if nobody left so far, that no worker has room while jobs are queued |
| Preservation.FinishKeeps | src/server.cpp:105-107 | so does the final dismissal |
| Preservation.PhaseIsOver | src/server.cpp:160-183 | once as many results as files are accounted for, nothing is queued, every worker is idle and nothing is under way for any of them |
| Preservation.AnalysisIsComplete | src/server.cpp:74-76 | when the first loop ends, every file has its true histogram and the assertion of line 76 holds |
| Preservation.StepKeeps | src/server.cpp:49-110 | every step of the composed system keeps the invariant, and that whatever workers computed is a proper answer |
| Preservation.RunKeeps | src/server.cpp:49-110 | every state of every run has it |
| Guarantees.EachJobInOnePlace | src/server.cpp:137-155 | in every state of every run each job of the phase is in exactly one of queue, one worker's list, and done, and occurs there once |
| Guarantees.CountersAreExact | src/server.cpp:160-202 | the number of histograms, later the result counter, equals the number of jobs done; it reaches the number of files exactly when all jobs are done |
| Guarantees.LoopsEndExactly | src/server.cpp:160-202 | in every run a receiving loop goes on if and only if a job of its phase is missing, and what follows it can happen if and only if none is |
| Guarantees.FinishDismissesEveryone | src/server.cpp:105-107 | in every run the end leaves no worker and no queued job, and the results, counter and files as they were |
| Guarantees.ResultsAlwaysMatch | src/server.cpp:364-378 | in every run a result of a registered worker is of the kind the loop expects, finds its job and no other and is counted once: the precondition of the visitors holds |
| Guarantees.WorkListCoversWhatIsUnderWay | src/server.cpp:137-155 | in every run whatever is sent to, held by or answered by a registered worker is in its list, and without losses nothing else is |
| Guarantees.LateResultsAreHarmless | src/server.cpp:396-420 | in every run a result of an unregistered worker changes no accounting, and no content already written unless its source is itself written over |
| Guarantees.PhaseSwitchIsClean | src/server.cpp:74-100 | in every run, at the switch nothing is queued or assigned and the histograms are the true ones; afterwards the queue is the plan, one equalisation job per file in name order, the counter is zero and the workers are the same |
| Guarantees.PlannedOutput | src/server.cpp:78-96 | the k-th planned job yields what a sequential pass in name order writes for the k-th file |
| Guarantees.IntactYieldsOne | src/server.cpp:400-404 | a file that is no other one's output path yields one result only: its original equalised |
| Guarantees.RunMatchesSequentialProgram | src/server.cpp:49-110 | in every run that finishes, the paths written are exactly the served names plus `.tiff`; each result is one its job can yield, and unless its source is such a path it has the bytes of the sequential pass; queue and lists are empty |
| Guarantees.InputsOverwritten | src/server.cpp:400-404 | a served file is written over only if its name is another served name plus `.tiff`, and in a run that finishes if and only if |
| Guarantees.QueuesStayBounded | src/server.cpp:144-146 | in every run a worker's list never exceeds its concurrency, nor that 32 |
| Guarantees.JoiningWorkerIsFilled | src/server.cpp:426-438 | in every run a joining worker was unknown, is registered with the lesser of its threads and 32, and gets that many jobs from the front of the queue, or all there are |
| Guarantees.UndisturbedRunsDoNotStall | src/server.cpp:373-375 | in runs without departures no worker has room while jobs are queued, and while results are missing and some worker can work, some worker has a job |
| Guarantees.DepartureAndSaturation | src/server.cpp:254-262 | a dismissal, and just as well a BYE, leaves no worker with room beside queued jobs if and only if no job is queued or returned, or all other workers are full |
| Guarantees.OnlyJoiningHelps | src/server.cpp:186-226 | once jobs are queued and no registered worker has any, every step but a new worker's HELO leaves it so and completes nothing |
| Scenarios.DismissalCanStrandAJob | src/server.cpp:279-302 | for any content and any image library, a run whose last step is a heartbeat pass that dismisses a silent worker and leaves its job queued beside an idle worker with room |
| Scenarios.OverwritingShowsInTheOutput | src/server.cpp:396-404 | for any contents of "a" and "a.tiff" and any image library, a finished run in which the result for the second is the result for the first, equalised again |
| Scenarios.OverwritingSpoilsAResult | src/server.cpp:396-404 | contents and a library for which that differs from the sequential pass |
| Progress.WorkStepLightens | src/server.cpp:157-226 | every delivery, computation and receipt lowers a natural-number measure of the work left |
| Progress.StepCosts | src/server.cpp:49-110 | every other step raises the measure at most by three for each job it puts into the queue |
| Progress.WorkIsPaidFor | src/server.cpp:49-110 | between any two states of any run, these steps and the measure at the end come out of the measure at the start and the jobs queued meanwhile |
| Progress.QueuedIsBounded | src/server.cpp:85-96 | the switch puts one job per file into the queue, once, and each departure at most 32 |
| Progress.WorkIsBounded | src/server.cpp:49-110 | a run has at most six of these steps for each file and 96 for each worker that leaves or is dismissed |
| Progress.UneventfulWorkEnds | src/server.cpp:157-226 | in a stretch of a run without BYE, dismissal and phase switch, whatever ticks, joins, losses and quiet passes it has, these steps lower the measure and nothing raises it |
| Progress.StuckExactlyWhenLost | src/server.cpp:157-226 | in an unfinished phase, after anything, registered workers have no delivery, computation or receipt left if and only if every assigned job is lost |
| Progress.StuckExactlyWhenStranded | src/server.cpp:157-226 | with no assigned job lost, if and only if jobs are queued and nobody has any |
| Progress.CompleteExactly | src/server.cpp:157-226 | at every state of every run where registered workers have none left, the phase's jobs are all done if and only if no assigned job is lost and no job is queued beside idle workers |
| Progress.QuietPhasesComplete | src/server.cpp:157-226 | so they are all done if nothing was lost, nobody left and some worker can work |
| Losses.LostStays | src/server.cpp:231-235 | a job assigned to a registered worker whose message is gone stays so in every step that keeps the worker registered |
| Losses.LostJobWaitsForDeparture | src/server.cpp:231-235 | in every run, while the worker of such a job stays registered, the job stays lost and not all jobs of the phase are done |
| Losses.FirstPhaseNeverRecovers | src/server.cpp:157-184 | in every run, once a job is lost in the first phase and its worker sends no BYE, the phase is never left and the job stays lost |
| Losses.AMessageCanBeLost | src/server.cpp:231-235 | for every directory a run exists in which a joining worker's first job is lost that way |
| Recovery.LosslessFinishes | src/server.cpp:49-110 | as long as nothing has been lost, steps without BYE and loss lead to the end |
| Recovery.EqualisingFinishes | src/server.cpp:279-302 | in the second phase they do after any losses: two passes dismiss everybody and return what was lost |
| Recovery.FinishableExactly | src/server.cpp:49-110 | every run can be continued to its end without a BYE or a further loss if and only if it has not lost an assigned job in the first phase |
| Recovery.EveryDirectoryCanBeServed | src/server.cpp:49-110 | every directory has runs that finish |
| Heartbeats.PassQueues | src/server.cpp:283-301 | a pass removes exactly the expired workers and refreshes the others |
| Heartbeats.LastRequest | src/server.cpp:287-295 | in every timed run a registered worker's timestamp is the time stamped on the last request to it, and its flag says whether a reply was handled since |
| Heartbeats.DismissedExactlyWhenSilent | src/server.cpp:287-289 | in every run a pass dismisses a worker if and only if, when it is looked at, its last request is at least 6 s old and no reply was handled since |
| Heartbeats.SilentWorkerIsDismissed | src/server.cpp:279-302 | if a worker's replies stop and every stretch of length `gap` contains a whole pass, the worker is gone after 2(6 s + gap) |
| Heartbeats.RunIsTimed | src/server.cpp:279-302 | every run of the composed system meets the timing rules the lemmas above use |
| Locks.ProgramDisciplined | src/server.cpp:119-213 | on every call path of every thread `work_mutex` is taken only under `worker_mutex`, and all is released at the end |
| Locks.SectionsLock | src/server.cpp:112-302 | the sequence of lock operations of every critical section without a loop |
| Locks.LoopsLock | src/server.cpp:193-199 | each pass of the serving loop adds the operations of `transmit_work`, each dismissal those of `dismiss_worker` |
| Locks.ExecutionSafe | src/server.hpp:49-52 | in every execution of any number of threads this discipline lasts and each mutex has at most one owner |
| Locks.NoDeadlock | src/server.cpp:137-139 | in every execution who holds `work_mutex` holds `worker_mutex`, and while any thread has something left to do, some thread can go on |
| Locks.BareOrdersDeadlock | src/server.cpp:248-250 | without the outer lock, `transmit_work` and `dismiss_worker` reach a circular wait |
| ThreadPool.ExecutionKeeps | src/worker.cpp:157-166 | in every execution each scheduled job is queued, running or done exactly once; until Dying the tokens and awake threads cover the queued jobs; after the notification the tokens cover the threads that still have to acquire one |
| ThreadPool.NoLostWakeUp | src/worker.cpp:157-166 | while the connection lives and no `schedule_job` is half-way, a queued job means some thread can go on; no job is lost or run twice |
| ThreadPool.LifecycleIsOneWay | src/worker.cpp:242-257 | Dying is final and a connection never becomes unconnected again |
| ThreadPool.PushThenPop | src/worker.cpp:223-287 | the job pushed last is the one popped next, and the jobs are then as before |
| ThreadPool.LastScheduledRunsFirst | src/worker.cpp:223-287 | in every execution, when the stack is back to its height before a job was scheduled, that job has just been taken by a thread, and what lay below is untouched |
| ThreadPool.TokensForEveryExit | src/worker.cpp:293-296 | once `notify_dying` is through, there are at least as many tokens as threads that still have to acquire one |
| ThreadPool.ShutdownFreesEveryThread | src/worker.cpp:452-456 | after `notify_dying` began, the remaining steps are bounded by a measure, and when none is left every thread has exited |
| ThreadPool.ShutdownAbandonsExactly | src/worker.cpp:157-166 | from any reachable Dying state that drains until every thread has exited, all scheduled jobs are done if and only if none was queued or some thread was still popping or running one |
| ThreadPool.ShutdownMayAbandonJobs | src/worker.cpp:158-164 | an execution in which the only thread is woken to exit and leaves a scheduled job queued |
| ThreadPool.UnfedPoolFinishesItsJobs | src/worker.cpp:157-166 | from any reachable state of a live connection that nobody feeds any more, the steps are bounded by a measure, and where none is left every scheduled job is done |
| ThreadPool.ServerConnection.constructor | src/worker.cpp:71-77 | no jobs, no tokens, unconnected: the pool's first state |
| ThreadPool.ServerConnection.PopJob | src/worker.cpp:223-233 | takes the last job of the list off it, or reports that there is none |
| ThreadPool.ServerConnection.NotifyJob | src/worker.cpp:289-291 | one token more |
| ThreadPool.ServerConnection.ScheduleJob | src/worker.cpp:281-287 | one job more at the end of the list and one token more |
| ThreadPool.ServerConnection.NotifyDying | src/worker.cpp:293-296 | one token more per thread |
| ThreadPool.ServerConnection.TransitionState | src/worker.cpp:235-240 | returns the old state; the new one is the requested one, but Dying stays and a connected one does not become unconnected |
| ThreadPool.ScheduleThenPop | src/worker.cpp:223-287 | a job popped right after one was scheduled is that job, and the others are left as they were |
| ThreadPool.StepsFollowConnection | src/worker.cpp:223-296 | the steps of the interleaving model, taken one after the other, change the shared state as these methods do |
| Connections.SemaphoreAgrees | src/worker.cpp:316-374 | in every interleaving the map holds one server per token, plus one being added, plus one being served; so both assertions that it is not empty hold |
| Connections.ServedIsListed | src/worker.cpp:348-357 | the server being worked for stays in the map until the pop |
| Connections.PopRemovesServed | src/worker.cpp:359-365 | the pop removes the server just worked for if and only if no server with an earlier name is listed |
| Connections.EarlierNamesAreNew | src/worker.cpp:348-365 | every earlier name listed at the pop was announced after the main loop had connected to the server it then worked for |
| Connections.EarlierNameIsDropped | src/worker.cpp:359-365 | a concrete run in which a server is dropped unserved |
| Connections.Worker.AddServer | src/worker.cpp:316-331 | a known name changes nothing; a new one is listed and worth one token |
| Connections.Worker.NextConnection | src/worker.cpp:348-357 | takes a token and returns the entry with the least name |
| Connections.Worker.PopConnection | src/worker.cpp:359-365 | erases the entry with the least name |
| Connections.StepsFollowWorker | src/worker.cpp:316-374 | in every execution the steps change the shared state as these methods do, and where the main loop reads or pops the map is not empty |

## Left out

- Cluster.ReceiveFollowsVisitors: the loops of `receive_histograms` and `receive_equalised` block on a socket, so they are guarded steps of the system rather than methods; their guards are kept.
- ServerProcess.Server.PlanEqualisation: a HELO handled between two unlocked pushes is not modelled, because the pushes race with the queue accesses of the communication thread and C++ gives that no meaning.
- ServerProcess.Server.VisitEqualisationResult: failures of the file system are not modelled, and nobody reads a file while it is half written.
- Heartbeats.SilentWorkerIsDismissed: supposes that passes are made at all, which holds in the second phase only, and how often is a parameter, since the loop waits on the socket's receive timeout.
- ThreadPool.ServerConnection.ScheduleJob: the method is one critical section; the gap between its push and its release is modelled by the steps of the pool.
- Connections.Worker.NextConnection: waiting for a token is a precondition here and a blocking step in the interleaving model.
- Codec.DecodeEncode: Cap'n Proto bytes, its read limits, the `memcpy` into words and the rounding of mapping entries to `Float32` are not modelled; a message is the structured value it carries.
- Equalisation.EqualisePixels: covers the pixel loop only; colour-space conversion, pixel synchronisation and the TIFF blob are ImageMagick's.
- Rounding of `float` and `double`, and the 64-bit counters of `compute_lightness_histogram`.
- ZeroMQ sockets, endpoints and timeouts; exceptions rethrown for malformed messages end the program and are not modelled.
- `finishedSemaphore`, `connect`, `disconnect`, `run` and the receiving loops of the worker; `background_task` is the program counter of the pool's threads.
- Random identities, logging, handlers that only ignore a message, and the unused `remove_server`, `EqualisationBand` and `ServerDetails` comparisons.
- `src/network.cpp` and `src/main.cpp`: service discovery and process start.
