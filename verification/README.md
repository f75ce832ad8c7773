# Verified models of the systems-programming homeworks

A Dafny project that models the concurrent protocols and the algorithms of the homeworks, and proves what
they promise for every input, every run and every interleaving. `dafny verify dfyconfig.toml` checks all
of it.

- **Determinant (Midterm).** `MatrixMath` has the program's loops on mutable buffers: the cofactor filled
  with two running indices, the recursive expansion, the test against zero. They are proved against the
  functional expansion in `Laplace`, which is shown to be linear in each row and alternating. `Invertibility`
  proves that the test against zero decides linear dependence of the rows (by elimination) and the existence
  of an inverse up to a factor (by the adjugate). `MachineInts` says what 32-bit wrap-around does to the answer.
- **Wholesaler, pushers, chefs (Hw3).** `DessertProtocol` is one step relation for the eleven processes, at
  the grain of a semaphore operation, a flag operation, a read or a buffer cell, over an arbitrary input file.
  The named and the unnamed version are the same protocol. `DessertInvariant` has the invariant and
  `DessertTheorems` what follows for whole runs.
- **Sharded query server (Final).** `CStrings`, `FolderSort`, `ServantStart`: how servants get their slices.
  `TransactionCount`, `ShardedQuery`: counting, routing and fan-out against the centralised count.
  `RequestParser`: the request line. `RequestQueue`: the linked list on the heap. `WorkerPool`: mutex,
  condition variable and queue as a state machine, with spurious wakeups.
- **Two-phase matrix product and transform (Hw5).** `Transform` has one thread's loops, `ParallelTransform` all
  threads and the barrier, for any ranges of rows. `Doubles` is rounding to double precision, and `RowRanges` the
  ranges the program computes with it. `MergedAnswer` has the merge, and when its result is right;
  `SpuriousWakeups` what spurious wakeups do to the barrier. Matrix cells are reals, `cos` and `sin` are
  arbitrary functions.
- **Y and Z pools (Midterm).** `ServerPools` is the step relation of both servers with the one-slot hand-over,
  `ServerPoolsInvariant` the invariant, `ServerPoolsTheorems` what follows. Which pool takes a request is a free
  choice, because in the program it depends on signals.
- **Supplier and consumers (Hw4).** `SupplierConsumer`: two posts a delivery, one atomic operation a consumption.
- **Replacement (Hw1).** `ReplaceAll`: the scan into a caller's buffer against leftmost replacement.
- **Covariance (Hw2).** `Covariance`: the nine cells, positive semidefinite and translation invariant.
- `Common`, `Sums` and `Tallies` hold what several models share: options, grids, sums over ranges and over the members of a pool.

State machines are datatypes with a `Step` function, `None` where a process cannot move; `Run` is the state after
a schedule of moves, and theorems about runs quantify over all schedules.

Where code and intention differ, the code is modelled and the difference is stated, with the exact condition and
with an input the program takes on which the intention fails:

| intention | holds exactly when | an input on which it fails |
|---|---|---|
| the determinant test decides invertibility | `WordAnswerIsRight` | `WordAnswerCanBeWrong` |
| the printed dessert total is right | `PrintedIsRight` | `PrintsZeroFor256` |
| the dessert protocol ends | `EndsIffWellFormed` | `TwiceTheSameHangs` |
| the barrier of Hw5 survives spurious wakeups | `BarrierHoldsIffAlone` | `ReadsWrongValue`, and `BarrierNeverHolds` for all of them |
| the ranges hold all rows, and the result is right | `RangesTileIff`, `AlwaysRightIff` | `NinetyEightIsTheFirst` |
| a servant loads its folders whole | `LoadsWholeIffUniform` | `UnequalFoldersLoseFiles` |
| the whole word is replaced | `WholeWordIffAlphanumeric` | `DifferentText` |
| the replacement ends | `ScanEndsIff` | `DashNeverEnds` |
| a query gets the centralised count | `ReplyIsCentral` | `OutsideGetsMinusOne` |

## Model

| member | source | states |
|---|---|---|
| MatrixMath.FindCoFactor | Midterm/src/matrix_math.h:3-18 | the index-filling loops leave in the buffer exactly the matrix without row p and column q |
| MatrixMath.GetDeterminant | Midterm/src/matrix_math.h:21-45 | the recursion over a reused buffer returns the determinant of the top left n x n matrix, and 0 for n = 0 |
| MatrixMath.IsMatrixInvertible | Midterm/src/matrix_math.h:47-55 | 1 exactly when n > 0 and an inverse up to a non-zero factor exists, 0 exactly when n = 0 or the rows are dependent |
| MatrixMath.IsMatrixInvert | Midterm/src/matrix_math.h:57-71 | the same for a row-major buffer |
| Laplace.DetRowLinear | Midterm/src/matrix_math.h:21-45 | the expansion along the first row is linear in every row |
| Laplace.DoubleExpansion | Midterm/src/matrix_math.h:3-45 | it equals the expansion along the first two rows at once |
| Laplace.DetSwap | Midterm/src/matrix_math.h:3-45 | exchanging any two rows changes its sign |
| Laplace.DetEqualRows | Midterm/src/matrix_math.h:3-45 | two equal rows give 0 |
| Laplace.DetAddMultiple | Midterm/src/matrix_math.h:3-45 | adding a multiple of one row to another changes nothing |
| Laplace.TriangularDet | Midterm/src/matrix_math.h:21-45 | a triangular matrix gives the product of its diagonal |
| Laplace.IdentityDet | Midterm/src/matrix_math.h:21-45 | the identity gives 1, for every size |
| Laplace.TwoByTwo | Midterm/src/matrix_math.h:21-45 | two rows a b and c d give a d - b c |
| Invertibility.DependentHasZeroDet | Midterm/src/matrix_math.h:21-55 | linearly dependent rows give 0 |
| Invertibility.ZeroDetIsDependent | Midterm/src/matrix_math.h:21-55 | a determinant of 0 means that some non-zero integer combination of the rows vanishes |
| Invertibility.ZeroDetIffDependent | Midterm/src/matrix_math.h:47-55 | both directions together |
| Invertibility.TooManyRows | Midterm/src/matrix_math.h:21-55 | more rows than columns are always dependent |
| Invertibility.AdjugateInverts | Midterm/src/matrix_math.h:3-45 | the matrix times its adjugate is the determinant times the identity |
| Invertibility.InverseForbidsDependence | Midterm/src/matrix_math.h:47-55 | with an inverse up to a factor, only the zero combination of the rows vanishes |
| Invertibility.NonZeroDetIffInvertible | Midterm/src/matrix_math.h:47-55 | the test against zero decides whether an inverse up to a factor exists |
| MachineInts.WordDetIsWrapped | Midterm/src/matrix_math.h:21-45 | with every operation wrapped to 32 bits the result is the determinant, wrapped |
| MachineInts.WordAnswerIsRight | Midterm/src/matrix_math.h:47-55 | so the answer is right exactly when the determinant is 0 or no multiple of 2^32 |
| MachineInts.WordAnswerCanBeWrong | Midterm/src/matrix_math.h:47-55 | a 2 x 2 matrix on which it is wrong |
| MachineInts.DetWithin | Midterm/src/matrix_math.h:21-45 | with entries of magnitude at most b the determinant is at most n! b^n |
| MachineInts.ExpandWithin | Midterm/src/matrix_math.h:33-37 | and so is every partial sum of the expansion |
| MachineInts.SmallEntriesNeverOverflow | Midterm/src/matrix_math.h:21-45 | if n! b^n is below 2^31 no value at any depth of the recursion leaves the 32-bit range |
| MachineInts.SmallEntriesExact | Midterm/src/matrix_math.h:21-55 | and the 32-bit answer decides invertibility |
| MachineInts.WrapIs | Midterm/src/matrix_math.h:21-45 | wrapping gives the number of 32 bits that differs by a multiple of 2^32 |
| MachineInts.SmallSizes | Midterm/src/matrix_math.h:47-55 | so the answer is right for 3 x 3 with entries up to 709 and 4 x 4 up to 97 |
| DessertInvariant.LacksIsInjective | Hw3/src/named/wholesaler.c:112-142 | no two chefs wait for the same two ingredients |
| DessertInvariant.PusherTables | Hw3/src/named/wholesaler.c:144-165 | a pusher that finds a flag raised wakes the chef without the two ingredients |
| DessertInvariant.WakesForThePair | Hw3/src/named/pusher.c:93-111 | during a round it can only wake the chef of the pair delivered |
| DessertInvariant.WholesalerKeepsInvariant | Hw3/src/named/wholesaler.c:198-273 | every step of the wholesaler keeps the invariant |
| DessertInvariant.PusherKeepsInvariant | Hw3/src/unnamed/pusher.c:76-95 | every step of a pusher does |
| DessertInvariant.ChefKeepsInvariant | Hw3/src/unnamed/chef.c:119-144 | every step of a chef does |
| DessertInvariant.StepKeepsInvariant | Hw3/src/unnamed/hw3unnamed.c:72-103 | so does every step of the eleven processes |
| DessertTheorems.RunKeepsInvariant | Hw3/src/unnamed/hw3unnamed.c:72-103 | it holds after every schedule from the initial semaphores and flags |
| DessertTheorems.AtMostOneFlag | Hw3/src/named/pusher.c:98-109 | at most one flag is up, and none when a round may start |
| DessertTheorems.OneChefAtATime | Hw3/src/named/chef.c:135-161 | while a chef is woken or works, nobody else has the baton, and it is the chef of the pair just read |
| DessertTheorems.WokenByItsLetters | Hw3/src/named/wholesaler.c:112-165 | a chef is woken or at work only when the chunk just read begins with the initials of its two ingredients |
| DessertTheorems.ServesItsLetters | Hw3/src/named/wholesaler.c:112-265 | in every reachable state each letter taken is one of the chef that took it, and each count is of the chunks with the letters of that chef |
| DessertTheorems.BufferIsExclusive | Hw3/src/named/wholesaler.c:209-251 | the wholesaler never touches the buffer while a chef may, and reads back the second byte it stored |
| DessertTheorems.StepDecreasesWork | Hw3/src/named/wholesaler.c:198-273 | every step of any process leaves less to do |
| DessertTheorems.RunsAreBounded | Hw3/src/named/wholesaler.c:198-273 | so no schedule is longer than a fixed number of steps a chunk |
| DessertTheorems.StuckIsEndOrDoomed | Hw3/src/named/wholesaler.c:198-273 | a state without a move is the end of the file or the result of a malformed chunk |
| DessertTheorems.NoDeadlock | Hw3/src/named/wholesaler.c:226-227 | on a file of pairs of different ingredients every schedule that gets stuck has reached the end |
| DessertTheorems.RunToTheEnd | Hw3/src/named/wholesaler.c:198-273 | every run goes on to a state without a move |
| DessertTheorems.EndsIffWellFormed | Hw3/src/named/wholesaler.c:226-265 | the end of the file can be reached exactly when every chunk is such a pair |
| DessertTheorems.ChefsServeEveryChunk | Hw3/src/named/chef.c:150-151 | the six counts of pairs add up to the number of chunks |
| DessertTheorems.EndMeansEverythingServed | Hw3/src/named/wholesaler.c:282-295 | at the end every chef has served exactly its pairs, in the order of the file, and the counts add up |
| DessertTheorems.EndCountsLetters | Hw3/src/named/wholesaler.c:112-295 | at the end each chef has counted all the chunks with its letters, and every chunk is of some chef |
| DessertTheorems.TwiceTheSameHangs | Hw3/src/named/wholesaler.c:226-265 | on the file of the one chunk FF some run gets stuck and none reaches the end |
| DessertTheorems.EqualPairsPrintRemainder | Hw3/src/named/wholesaler.c:282-295 | after n equal pairs the printed total is n modulo 256 |
| DessertTheorems.PrintsZeroFor256 | Hw3/src/named/wholesaler.c:282-295 | a file of 256 chunks for which the total printed is 0 |
| DessertTheorems.PrintedIsRight | Hw3/src/named/wholesaler.c:282-295 | the printed total, of exit statuses modulo 256, is right exactly when every chef served fewer than 256 |
| CStrings.TotalOrder | Final/src/structs.c:104 | string comparison is a total order |
| CStrings.NegativeIffBefore | Final/src/structs.c:104 | negative exactly if the first string is a proper prefix of the second or less at their first difference |
| FolderSort.SwapFile | Final/src/structs.c:89-96 | exchanges two names and nothing else |
| FolderSort.SortFolders | Final/src/structs.c:99-110 | sorts in place: each name is equal to or lexicographically before those behind it, and a permutation |
| FolderSort.SortIsCanonical | Final/src/structs.c:99-110 | two listings of the same folders sort to the same sequence |
| TransactionCount.InBetweenIsInterval | Final/src/lib.c:129-147 | the date test is membership in the interval under the order by year, month, day |
| TransactionCount.InBetweenByNumber | Final/src/lib.c:129-147 | on dates that exist, the order of the numbers yyyymmdd |
| TransactionCount.CalculateInDateFile | Final/src/lib.c:159-171 | counts the transactions of the wanted kind in a file |
| TransactionCount.CalculateInCity | Final/src/lib.c:173-186 | adds up the files within the dates |
| TransactionCount.CalculateTransaction | Final/src/lib.c:188-201 | the count is the number of matching transactions |
| TransactionCount.TotalCountsHits | Final/src/lib.c:159-201 | every matching transaction counts exactly once, by its place in city, file and position |
| ServantStart.GetSubFolders | Final/src/servant.c:168-192 | of the numbers of files only that of the last folder is kept |
| ServantStart.LoadCity | Final/src/servant.c:257-273 | a folder's first so many files with their dates and transactions; without any, not even the name |
| ServantStart.FileIsOfItsDay | Final/src/servant.c:261-269 | a file named dd-mm-yyyy is of that day and has its transactions |
| ServantStart.GetDataFromDataset | Final/src/servant.c:249-276 | so for every folder kept |
| ServantStart.LoadsWholeIffUniform | Final/src/servant.c:187 | the folders are loaded whole exactly when they all have the same number of files, not 0 |
| ServantStart.UnequalFoldersLoseFiles | Final/src/servant.c:187 | two folders, of two files and of one: the second file of the first is not loaded |
| ServantStart.StartServant | Final/src/servant.c:88-112 | sorts its listing, keeps and loads the slice, registers the names of its first and last city |
| ServantStart.FirstIsAdana | Final/src/servant.c:88-112 | of the folders BOLU and ADANA, listed like that, the borders 1-1 mean ADANA |
| ServantStart.DatasetAscends | Final/src/servant.c:88-92 | sorted distinct folders make a dataset with ascending names |
| ServantStart.StartedIsLoaded | Final/src/servant.c:86-112 | servants that listed the folders in different orders hold slices of one and the same dataset |
| ServantStart.StartedRepliesAreCentral | Final/src/servant.c:86-119 | servants started on listings of their own, with tiling borders, answer every query as the whole dataset would |
| ServantStart.OutsideGetsMinusOne | Final/src/server.c:221-226 | a servant started on a folder of one file, and a query that gets -1 where the count is 0 |
| ShardedQuery.SetFolderBoundaries | Final/src/servant.c:155-163 | the slice between the borders, both included |
| ShardedQuery.Server.CreateServantConnection | Final/src/server.c:177-196 | appends the servant to the table |
| ShardedQuery.Server.GetServantWithNames | Final/src/server.c:363-373 | the first servant whose range of names holds the city, or none |
| ShardedQuery.InServantIff | Final/src/server.c:363-373 | the range holds the names that are neither before its first nor behind its last |
| ShardedQuery.Server.ResponseWithMultiCity | Final/src/server.c:261-306 | the sum of all servants' answers |
| ShardedQuery.Server.HandleClient | Final/src/server.c:199-258 | what is sent back, the additional -1 without servants included |
| ShardedQuery.FanOutCountsHolders | Final/src/server.c:277-293 | the sum counts each city as often as servants hold it, in any order of registration |
| ShardedQuery.FanOutIsCentral | Final/src/server.c:261-306 | borders that tile the dataset give the centralised count |
| ShardedQuery.TilingIsNecessary | Final/src/server.c:261-306 | with any city held by none or by several the sum is wrong for a transaction in it |
| ShardedQuery.RouteFindsHolder | Final/src/server.c:363-373 | a city of the dataset is routed to a servant that holds it |
| ShardedQuery.ReplyIsCentral | Final/src/server.c:199-306 | every reply is the centralised count, or -1, exactly when the city is outside all ranges of names |
| RequestParser.SplitStr | Final/src/lib.c:90-122 | the loop fills the buffers with the words between runs of the delimiter and counts the runs |
| RequestParser.SplitShown | Final/src/lib.c:90-122 | the fields of a printed request are its words, whatever the runs of spaces |
| RequestParser.DateRoundTrip | Final/src/structs.c:18-40 | reading a printed date gives it back |
| RequestParser.DateLayout | Final/src/structs.c:18-40 | the day is in the first two characters, the month in the fourth and fifth, the year in the four from the seventh on |
| RequestParser.AtoiForms | Final/src/structs.c:36-38 | numbers are read as atoi reads them: blanks skipped, a sign counts, anything else ends them |
| RequestParser.ParseRequest | Final/src/client.c:173-198 | fills the request from the words; without a fifth word the city is "all" |
| RequestParser.LineLayout | Final/src/client.c:173-198 | the words are order, estate, first day, last day and city |
| RequestParser.RequestRoundTrip | Final/src/client.c:173-198 | parsing a printed request gives it back, with "all" for a city left out |
| RequestQueue.Queue.Enqueue | Final/src/queue.c:7-24 | the tail walk links one new node behind the old ones and appends the value |
| RequestQueue.Queue.Dequeue | Final/src/queue.c:27-40 | takes the first node off, or reports that there is none |
| RequestQueue.Make | Final/src/queue.c:7-40 | a call on the list leaves and takes out what the sequence functions say |
| RequestQueue.Play | Final/src/queue.c:7-40 | so does any history of calls on the list |
| RequestQueue.FirstInFirstOut | Final/src/queue.c:7-40 | by these functions, what came out followed by what is left is what was there followed by what went in |
| WorkerPool.RunKeepsInvariant | Final/src/server.c:126-155 | mutual exclusion, no lost wakeup and conservation hold after every run |
| WorkerPool.FirstInFirstOut | Final/src/server.c:113-138 | what has been dequeued is a prefix of what has been enqueued |
| WorkerPool.NeverAllAsleep | Final/src/server.c:115-138 | while anyone sleeps, woken workers and a signal still to be sent cover the queue, so no request lies there while all sleep |
| WorkerPool.SleepsOnceATurn | Final/src/server.c:115-138 | a worker that has been woken does not sleep again, not even on an empty queue, before it starts a new turn |
| WorkerPool.QuietMeansDone | Final/src/server.c:126-155 | when nothing can move the queue is empty and every descriptor has been handled exactly once |
| WorkerPool.StepDecreasesWork | Final/src/server.c:126-155 | every step leaves less to do, but for what a connection or a spurious wakeup adds |
| WorkerPool.RunsAreBounded | Final/src/server.c:126-155 | so between these only boundedly many steps can happen |
| WorkerPool.HandlesAll | Final/src/server.c:126-155 | every run goes on, without a further connection, to a point where all enqueued descriptors are handled once |
| Transform.PlaceTheMatrix | Hw5/src/structs.h:85-92 | the bytes of the input file, row by row |
| Transform.MultiplyRowColumn | Hw5/src/main.c:156-164 | a cell of the product |
| Transform.MultiplyMatrix | Hw5/src/main.c:191-208 | fills the thread's rows of the product and no other |
| Transform.ProductOfImpulses | Hw5/src/main.c:191-208 | a 1 in (p, q) times a 1 in (r, s) is a 1 in (p, s) if q is r, and else nothing |
| Transform.ProductLinear | Hw5/src/main.c:191-208 | the product is linear in each factor |
| Transform.IterOverMatrix | Hw5/src/main.c:166-188 | one cell of the transform, real and imaginary part |
| Transform.ImpulseResponse | Hw5/src/main.c:166-188 | a single 1 in (p, q) gives, at (row, col), the cosine and minus the sine of 2 PI (row p / n + col q / n) |
| Transform.TransformLinear | Hw5/src/main.c:166-188 | the transform of a combination of two matrices is the combination of their transforms |
| Transform.ConjugateSymmetric | Hw5/src/main.c:166-188 | opposite frequencies of a real matrix have equal real and opposite imaginary parts |
| Transform.DiscreteTransform | Hw5/src/main.c:210-224 | the thread's rows of the transform, in buffers that start at row 0 |
| Doubles.DoubleOrder | Hw5/src/main.c:418-419 | rounding to double precision keeps the order |
| Doubles.DoubleOfDouble | Hw5/src/main.c:418-419 | it commutes with doubling |
| Doubles.DoubleIsClose | Hw5/src/main.c:418-419 | and is off by at most one part in 2^53 |
| Doubles.DoubleIff | Hw5/src/main.c:418-419 | from 1 to 2 the result is the nearest multiple of 2^-52, in a tie the even one |
| RowRanges.StartBounds | Hw5/src/main.c:418-419 | a range begins at the exact quotient rounded down, or, where that is exact, perhaps one row earlier |
| RowRanges.WholeIs | Hw5/src/main.c:418-419 | m times the rounded m-th part of 1 is 1, or the double before 1, by a condition on the remainder of a power of two modulo m |
| RowRanges.RangesTileIff | Hw5/src/main.c:416-428 | in doubles the m ranges hold exactly the 2^n rows if and only if m does not satisfy that condition, for every n |
| RowRanges.OnlyLastIsLost | Hw5/src/main.c:418-419 | if it does, the last row and no other is in no range |
| RowRanges.PowersOfTwoTile | Hw5/src/main.c:418-419 | a power of two does not satisfy it |
| RowRanges.NinetyEightIsTheFirst | Hw5/src/main.c:330-333 | 98 is the least number of threads the program takes with which it leaves out the last row, for every size |
| ParallelTransform.StepKeepsInvariant | Hw5/src/main.c:228-294 | every step of every thread keeps the invariant of barrier, product and responses |
| ParallelTransform.RunKeepsInvariant | Hw5/src/main.c:416-428 | it holds after every schedule, with any ranges that tile the rows |
| ParallelTransform.RunKeepsBarrier | Hw5/src/main.c:260-272 | whatever the ranges, the mutex and the counter stay in order and no range changes |
| ParallelTransform.NoEarlyRead | Hw5/src/main.c:260-294 | a thread in its transform finds every cell of the product complete |
| ParallelTransform.StuckMeansFinished | Hw5/src/main.c:260-272 | no thread is left at the barrier |
| SpuriousWakeups.SpuriousWakeupWouldPass | Hw5/src/main.c:262-268 | a spurious wakeup takes any waiting thread into its transform beside one that has not arrived |
| SpuriousWakeups.FirstIsEarly | Hw5/src/main.c:260-272 | with several threads some run has the first in its transform before any other has moved |
| SpuriousWakeups.BarrierHoldsIffAlone | Hw5/src/main.c:260-272 | on no run is a thread in its transform before all have arrived, exactly when there is only one thread |
| SpuriousWakeups.BarrierNeverHolds | Hw5/src/main.c:330-333 | so it never does with a number of threads the program takes |
| SpuriousWakeups.ReadsTooEarly | Hw5/src/main.c:260-294 | in any matrices, some run has the first of several threads about to read a cell of the product behind its own rows that nobody has written |
| SpuriousWakeups.ReadsWrongValue | Hw5/src/main.c:260-294 | on matrices of ones with two rows or more for each thread, that cell is still 0 and should be 2^n |
| ParallelTransform.StepDecreasesWork | Hw5/src/main.c:228-294 | every step leaves less to do |
| ParallelTransform.RunsAreBounded | Hw5/src/main.c:228-294 | so every schedule ends |
| MergedAnswer.EveryRunIsSequential | Hw5/src/main.c:458-468 | after every complete run each cell of the sequential answer is in the response of the one owner of its row |
| MergedAnswer.FinishedStays | Hw5/src/main.c:294-300 | no later step changes the response of a thread that has finished |
| MergedAnswer.Merge | Hw5/src/main.c:458-472 | copying the responses puts every thread's rows in their places and leaves rows in no range alone |
| MergedAnswer.JoinAndMerge | Hw5/src/main.c:457-472 | merging each response as its thread is joined, whatever the others do then, gives the sequential answer if the ranges tile the rows |
| MergedAnswer.CanJoin | Hw5/src/main.c:457-462 | from every start, whatever the ranges, some run has all threads finished |
| MergedAnswer.UntiledIsWrong | Hw5/src/main.c:457-472 | with a row in no range, every run on two unit matrices merges into a wrong result |
| MergedAnswer.TiledIff | Hw5/src/main.c:416-428 | the ranges of the threads that main starts tile the rows exactly when m does not satisfy the condition |
| MergedAnswer.AlwaysRightIff | Hw5/src/main.c:416-472 | and exactly then the merged result is the sequential answer, for all matrices, interleavings and moments of joining |
| ServerPools.IsInvertable | Midterm/src/matrix_math.h:73-75 | the matrix routine on a request's array answers whether the determinant of its matrix is not 0 |
| ServerPoolsInvariant.HandshakeStep | Midterm/src/backup_server.c:318-340 | semaphores, copying workers and parent outside the handshake add up to one, step by step |
| ServerPoolsInvariant.CopyNextKeeps | Midterm/src/backup_server.c:86-92 | each turn of the copying loops stays inside the buffers and keeps the copy right so far |
| ServerPoolsInvariant.CopyIsWhole | Midterm/src/backup_server.c:84-95 | a finished copy is the request in the slot |
| ServerPoolsInvariant.StepTotal | Midterm/src/server.c:389-451 | every step moves requests between places without losing or doubling any; a dispatch adds its own |
| ServerPoolsInvariant.CountersStep | Midterm/src/backup_server.c:121-128 | busy and result counters agree with workers and replies, step by step |
| ServerPoolsInvariant.StepKeepsInvariant | Midterm/src/backup_server.c:80-173 | every step of both servers and all workers keeps the invariant |
| ServerPoolsInvariant.RunKeepsInvariant | Midterm/src/server.c:345-451 | it holds after every run, whichever pools are chosen |
| ServerPoolsTheorems.SlotIsExclusive | Midterm/src/backup_server.c:80-95 | no request is overwritten before it is copied and no two workers copy |
| ServerPoolsTheorems.CopyIsFaithful | Midterm/src/backup_server.c:84-95 | a worker that gives the slot back has the whole request |
| ServerPoolsTheorems.BusyWithinPool | Midterm/src/backup_server.c:97-172 | the busy counters stay within the sizes of the pools |
| ServerPoolsTheorems.AnswersAreRight | Midterm/src/server.c:132-137 | every answer is about a request received, goes to its client and is 1 exactly when its matrix is invertible |
| ServerPoolsTheorems.AtMostOnce | Midterm/src/server.c:389-451 | no request is answered more often than it was received |
| ServerPoolsTheorems.QuietMeansAnswered | Midterm/src/server.c:389-451 | when nothing is left to do all are answered once, the shared counters add up to them and those of Z to the forwarded ones |
| ServerPoolsTheorems.StepDecreasesWork | Midterm/src/server.c:389-451 | every step but an arrival leaves less to do |
| ServerPoolsTheorems.RunsAreBounded | Midterm/src/server.c:389-451 | a run takes at most a fixed number of steps for each request |
| ServerPoolsTheorems.AnswersAll | Midterm/src/backup_server.c:318-340 | every run goes on, without a new arrival, to a point where each request received has been answered once |
| SupplierConsumer.RunKeepsInvariant | Hw4/src/main.c:134-198 | each semaphore is twice what is delivered and not consumed, and the half-delivered unit |
| SupplierConsumer.NeverMoreThanDelivered | Hw4/src/main.c:247-253 | consumption never uses a half-delivered unit |
| SupplierConsumer.FinalTotal | Hw4/src/main.c:229-253 | every complete run consumes the minimum of N C and the two supplies, however it interleaves |
| SupplierConsumer.AllFinishIffEnough | Hw4/src/main.c:229-253 | all consumers finish exactly when the line holds N C of each |
| SupplierConsumer.UnknownCharacterExits | Hw4/src/main.c:148-150 | a complete run ends by exit exactly when the supplies end in an unknown character |
| SupplierConsumer.RunsAreBounded | Hw4/src/main.c:98-253 | the state tells the number of steps taken, so every run ends |
| ReplaceAll.MyStrlen | Hw1/src/string_manipulation.c:13-30 | counts the letters and digits |
| ReplaceAll.AlphanumericIff | Hw1/src/string_manipulation.c:25 | the characters counted are the 62 letters and digits |
| ReplaceAll.CountMatches | Hw1/src/string_manipulation.c:65-146 | the inner loop finds all characters equal exactly at an occurrence |
| ReplaceAll.FindsSite | Hw1/src/string_manipulation.c:65-167 | the test of the scan holds exactly where the rule applies |
| ReplaceAll.MatchesExactly | Hw1/src/string_manipulation.c:37-39 | with regard to case, the word occurs where the text has it |
| ReplaceAll.MatchesButCase | Hw1/src/string_manipulation.c:33-39 | without, where each character is equal or the capital or small form of the same letter |
| ReplaceAll.ScanOne | Hw1/src/string_manipulation.c:57-176 | one turn writes the new word at a site and else one character |
| ReplaceAll.Replace | Hw1/src/string_manipulation.c:42-182 | if the scan ends, the buffer holds the replaced text, within its bounds, and a terminator |
| ReplaceAll.ScanEndsIff | Hw1/src/string_manipulation.c:57-176 | the scan ends exactly if the word has a letter or a digit, or the text is empty, or the rule is for ends of lines and no line ends |
| ReplaceAll.DashNeverEnds | Hw1/src/string_manipulation.c:166-170 | with "-" for the word it stays at the first character of any text for ever |
| ReplaceAll.SitesAreLeftmost | Hw1/src/string_manipulation.c:57-176 | the places found are in order, do not overlap, and every other occurrence begins in one of them |
| ReplaceAll.LeftmostIsUnique | Hw1/src/string_manipulation.c:57-176 | there is only one such choice of places |
| ReplaceAll.ReplacesLeftmost | Hw1/src/string_manipulation.c:57-182 | the result is the text with the new word spliced in at them |
| ReplaceAll.ReplacedLength | Hw1/src/string_manipulation.c:167-175 | its exact length |
| ReplaceAll.LengthBound | Hw1/src/string_manipulation.c:167-181 | and the room it needs at most |
| ReplaceAll.WholeWordIffAlphanumeric | Hw1/src/string_manipulation.c:13-30 | the program replaces the whole word on all texts exactly when its characters are letters or digits |
| Covariance.Means | Hw2/src/child.c:180-188 | the three means |
| Covariance.Variances | Hw2/src/child.c:190-198 | the three variances |
| Covariance.Covariances | Hw2/src/child.c:200-208 | the three covariances |
| Covariance.CalculateCovariance | Hw2/src/child.c:172-227 | cell 3 a + b is the covariance of axes a and b |
| Covariance.DeviationsCancel | Hw2/src/child.c:180-208 | the deviations are from the mean: they add up to 0 |
| Covariance.CovIsMeanOfProducts | Hw2/src/child.c:180-208 | the covariance is the mean of the products less the product of the means |
| Covariance.CovOfTwoPoints | Hw2/src/child.c:180-208 | of two points, the product of their distances divided by 4 |
| Covariance.PositiveSemidefinite | Hw2/src/child.c:190-210 | the quadratic form is the mean square of the deviations in its direction, so never negative |
| Covariance.CauchySchwarz | Hw2/src/child.c:190-208 | no covariance exceeds what the two variances allow |
| Covariance.TranslationInvariant | Hw2/src/child.c:180-208 | moving all points alike changes nothing |

## Left out

- AnswersAreRight: invertibility over the integers; what 32-bit overflow does to the determinant is stated in `MachineInts`.
- GetDeterminant: the table of 20 row pointers (Midterm/src/matrix_math.h:26) limits the program to 20 rows; there is no such limit here.
- CalculateCovariance: reals instead of doubles, and any number of points instead of 10; the cells as numbers, not as text.
- RangesTileIff: doubles without a largest or smallest exponent, and integers as exact doubles; the sizes and the numbers of threads, which are ints, stay far from both limits.
- AlwaysRightIff: the transform itself is over reals; one thread at least (with 0, which the program also takes, there is neither a range nor a result).
- DiscreteTransform: reals instead of doubles; of the values of sine and cosine only the cosine of 0 is ever used, in `AlwaysRightIff`.
- ConjugateSymmetric: takes the program's constant for PI as exactly half a turn of the two functions.
- StuckMeansFinished: without spurious wakeups, see `BarrierHoldsIffAlone`.
- GetDataFromDataset: no folder may have fewer files than the number looked for; of those the program would read array cells it never set, of which C says nothing.
- LoadCity: likewise.
- LoadsWholeIffUniform: likewise.
- StartServant: the last folder of the slice has the fewest files, for the same reason.
- ReplyIsCentral: no city may be called "all"; the text of the query is compared with that word first.
- HandleClient: a call of a servant is one step that returns its count; sockets and their errors are not modelled.
- CreateServantConnection: the type field of a registration counts as 0, as intended; the servant never sets it.
- MyStrlen: words without '['; behind one the program may read past the end of the word.
- CountMatches: words without '[', '*' and '^', which it treats in a way of its own that has no clean specification.
- ScanOne: the same words as `CountMatches`.
- Replace: the same words, and no rule for the beginning of a line.
- FindsSite: the same words as `CountMatches`.
- RunsAreBounded: liveness is stated without shutdown; the interrupt handlers of all programs are not modelled.
- FinalTotal: setting the operation and performing it is one step, although the program keeps it in a variable shared by all threads; the removal of the semaphores while the supplier still runs and the system's limit on a semaphore's value are not modelled.
- StepTotal: a message on a pipe or named pipe is one unit; partial reads are not modelled.
- Sockets, pipes, processes, shared memory set-up, directory and file reading, logging, timing and file locks: input and output around the modelled logic.
- Log lines that read the Z slot after it has been given back.
- Fixed sizes of text buffers, except the result of the replacement: preconditions or unbounded sequences.
- `closest_Matrices` of Hw2 and the printing helpers: nothing to prove that their bodies do not show.
