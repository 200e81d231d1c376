# cnet, modelled and proved in Dafny

cnet is a C++ network library in the reactor style, with example servers. This project models its
hardest parts and proves what they are for. `dafny verify dfyconfig.toml` checks all of it.

| files | part of cnet |
|---|---|
| DancingLinks, Assembly, ExactCover, SudokuRules, Encoding, SudokuSolver | the dancing-links Sudoku solver |
| EventLoop | the hand-off of functors to the loop thread |
| TimerQueue | timers, their alarm, and cancelling from callbacks |
| TcpConnection | the life cycle of a connection and its output path |
| Truncation, Calendar, TimeZone | Julian day numbers, UTC and local time |
| Buffer, Text | the byte buffer that connections and parsers share, and string searching |
| Http | printing requests and parsing them incrementally |
| MemcacheItem, MemcacheServer, MemcacheSession, MemcacheProtocol, MemcacheService | the memcached server, one session, what its lines and replies mean, and many sessions |
| AsyncLogging | the double-buffered logger |
| LogStream | integers as text, and log lines |
| SudokuStat | the sliding window of the Sudoku server's statistics |

Objects that cnet changes in place are classes here, and each method is tied to a function of the
old state. Protocols with several threads or with callbacks are step systems: a state, the steps
that can happen in it, and an invariant that every step keeps; their classes have one method per
atomic section. The environment is nondeterministic: what a read or a write did, what poll reports
and how time passes are parameters of the steps. What is promised is then proved about the
functions, the steps and whole runs.

## What the proofs found

- handleClose asserts that the connection is up, and some runs call it again.
  `TcpConnection.AssertFiresExactly` says, for every run, exactly when an assert fires. No orderly run
  makes one fire (`TcpConnection.OrderlyLife`), and after any step that is not orderly one can fire
  without anything more being called (`TcpConnection.DisorderExposes`). What orderly excludes:
  - a forced close while the channel waits for nothing: disableAll then puts it back into the epoll
    set, and epoll reports hang-ups whatever the interest (`TcpConnection.ClosedWhileNotReading`);
  - stopping to read after the close, which does the same (`TcpConnection.StoppedAfterClose`), or
    between poll and the handling of a closing report while nothing waits to be written; and starting
    to read after the close (`TcpConnection.ReadingAfterClose`);
  - a delayed close between poll and the handling of the connection's own end of file
    (`TcpConnection.DelayedCloseMeetsEof`);
  - a hang-up with urgent data and nothing readable (`TcpConnection.HangUpWithUrgentData`);
  - connectDestroyed while shutting down (`TcpConnection.DestroyedWhileDisconnecting`);
  - connectDestroyed run at once, as the destructor of the server does in the loop thread, in a callback of
    another channel while a poll is handled that reported the connection, before or after its turn
    (`TcpConnection.DestroyedBeforeTurn`, `TcpConnection.DestroyedAfterTurn`).
- The loop can block in poll with a functor pending that nobody announces. `EventLoop.BlocksIff` gives the
  exact condition for every poll: the loop thread queued it while the flag was down. That is so before
  loop() (`EventLoop.FirstPollMayBlock`, `EventLoop.FirstPollBlocksIff`) and when the functors of a batch
  are destroyed, after the flag has fallen (`EventLoop.LaterPollMayBlock`); the destructor of TcpClient
  queues, and runs there if a functor holds the last reference.
- Deleting a timer destroys its callback, and the destructor of what that holds may cancel or add timers.
  - While reset deletes a timer of the batch, the cancel of a repeating one later in the batch is lost
    (`TimerQueue.CancelLost`); `TimerQueue.CancelFailsIff` says that no other cancel fails.
  - While cancelInLoop deletes a timer, between its two erases, any add or cancel meets an assert on the
    sizes of the sets (`TimerQueue.AssertsHold`, `TimerQueue.SizesAgree`). In a build without asserts that
    does no harm, but if the timer itself is cancelled again, it is deleted twice
    (`TimerQueue.DeletedTwice`), and only then (`TimerQueue.DeletedForGood`).
- A printed HTTP request with a NUL in its path does not come back: the path is printed as a C
  string (`Http.NulInPath`). `Http.RoundTripsIff` gives the exact condition.
- A header line without a colon ends the headers, whatever it says, which differs from section 3 of
  RFC 7230 (`Http.HeadersEnd`, `Http.NotOnlyEmptyLines`). The query that the parser keeps includes
  its question mark (`Http.QueryKept`).
- A memcached get that meets a key that is too long after one that it found leaves the found text in
  its output buffer, where the next get sends it (`MemcacheSession.LeftBehind`).
- The memcached replies "EXISTS" and, except for cas, "NOT_FOUND" to a refused update lack their CRLF
  (`MemcacheSession.RepliesTerminated` with `MemcacheSession.ExistsWithoutEnd` and
  `MemcacheSession.NotFoundWithoutEnd`). What a get finds is handed to the connection even when that is
  shutting down, while other replies are not (`MemcacheSession.HandedWhileClosing`,
  `MemcacheSession.GetHandedAfterQuit`). It is written only if output was still waiting at the quit, which
  otherwise shuts down the write side at once (`TcpConnection.TakenAfterShutdown`,
  `TcpConnection.NothingAfterHalfClose`).
- The weekday of a day number below -1 is mostly negative (`Calendar.WeekDayInRange`).
- Where comments and code differ, the model follows the code.

## Model

| member | source | states |
|---|---|---|
| `SudokuSolver.SolveSudoku` | examples/sudoku/sudoku.cc:263-291 | For every 81-character puzzle: the result is "NoSolution" exactly when the characters are not all digits or no full grid extends the clues (contradictory clues included), and otherwise it is such a grid |
| `SudokuSolver.Solver.Solve` | examples/sudoku/sudoku.cc:95-133 | From any well-formed matrix of any size: false only if no set of rows is an exact cover, and then nodes, stack and board are as they were; true only with an exact cover on the stack, written to the board; it terminates because every call sees fewer headers |
| `SudokuSolver.Solver.constructor` | examples/sudoku/sudoku.cc:33-93 | The matrix built for a board within the 3241 nodes is well linked and encodes it: a column for every unmet need, four nodes for every candidate, size fields that count |
| `SudokuSolver.Solver.Cover` | examples/sudoku/sudoku.cc:218-229 | The loops over the heap do what covering the column does to the specification state, for any well-formed matrix |
| `SudokuSolver.Solver.Uncover` | examples/sudoku/sudoku.cc:231-242 | Run on the covered matrix, it restores every link and size field of the matrix before |
| `SudokuSolver.Solver.GetMinColumn` | examples/sudoku/sudoku.cc:201-216 | The column returned is in the header list and is the first of least size, or one of size at most 1 at which the scan stops |
| `SudokuSolver.Solver.CoverRow` | examples/sudoku/sudoku.cc:120-122 | Covers the columns of the other nodes of a row, left to right |
| `SudokuSolver.Solver.UncoverRow` | examples/sudoku/sudoku.cc:127-129 | Walking the row the other way restores the whole matrix |
| `SudokuSolver.Solver.ReadPick` | examples/sudoku/sudoku.cc:98-108 | The walk around a row of the covered matrix stops, and finds the cell and the digit that the row stands for |
| `SudokuSolver.Solver.WriteSolution` | examples/sudoku/sudoku.cc:97-113 | The board gets the picks of all rows on the stack and keeps its other cells |
| `SudokuSolver.Solver.BuildMatrix` | examples/sudoku/sudoku.cc:39-92 | From zeroed nodes and no columns to a matrix that encodes the board; no node index passes the last node |
| `SudokuSolver.Solver.MarkClues` | examples/sudoku/sudoku.cc:43-55 | The marks say exactly which digits the clues put in each row, column and box |
| `SudokuSolver.Solver.AppendCellColumns` | examples/sudoku/sudoku.cc:57-61 | Columns exist for exactly the empty cells |
| `SudokuSolver.Solver.AppendUnitColumns` | examples/sudoku/sudoku.cc:63-72 | Columns exist for exactly the needs of the board: empty cells, and digits missing in a unit |
| `SudokuSolver.Solver.AppendPicks` | examples/sudoku/sudoku.cc:74-92 | The rows are, without repetition, exactly the candidates: empty cells with digits that no clue of their units has |
| `SudokuSolver.Solver.AddPick` | examples/sudoku/sudoku.cc:82-88 | One candidate adds four nodes and keeps all lists linked and coded |
| `SudokuSolver.Solver.AppendColumn` | examples/sudoku/sudoku.cc:158-165 | One column adds a header and keeps all lists linked |
| `SudokuSolver.Solver.NewRow` | examples/sudoku/sudoku.cc:167-184 | One node is made at the foot of its column |
| `SudokuSolver.StackSolves` | examples/sudoku/sudoku.cc:95-114 | Rows that cover the encoded matrix exactly fill the board to a grid that solves it |
| `SudokuSolver.NoCoverNoSolution` | examples/sudoku/sudoku.cc:95-133 | A board whose matrix has no exact cover has no solution |
| `SudokuSolver.FilledSolves` | examples/sudoku/sudoku.cc:98-112 | Writing a pick cover over the clues gives a solution |
| `DancingLinks.RelinkUnlink` | examples/sudoku/sudoku.cc:224-237 | Putting a node back between the neighbours it still names restores the matrix, at any linked node |
| `DancingLinks.RelinkUnlinkHeader` | examples/sudoku/sudoku.cc:220-241 | The same for a header |
| `DancingLinks.UnlinkKeeps` | examples/sudoku/sudoku.cc:222-228 | Taking one node out keeps every list linked and every size right, removes only that node, and is undone by putting it back |
| `DancingLinks.UnlinkAllKeeps` | examples/sudoku/sudoku.cc:222-239 | Taking any distinct nodes out keeps all lists, and putting them back in reverse order restores the matrix |
| `DancingLinks.UnlinkHeaderKeeps` | examples/sudoku/sudoku.cc:220-221 | Taking a header out of the header ring keeps all lists and is undone exactly |
| `DancingLinks.VictimsMembers` | examples/sudoku/sudoku.cc:222-223 | The nested loops visit each other node of each row of the column once |
| `ExactCover.Cover` | examples/sudoku/sudoku.cc:218-229 | Covering keeps the matrix well formed, removes one header and leaves alive exactly the rows that do not hit the column |
| `ExactCover.UncoverCover` | examples/sudoku/sudoku.cc:218-242 | Uncovering a covered column gives the matrix before, whatever its size |
| `ExactCover.CoverKeeps` | examples/sudoku/sudoku.cc:218-229 | The matrix after the writes of cover is good for the smaller header list and the surviving rows |
| `ExactCover.CoverAll` | examples/sudoku/sudoku.cc:120-122 | Covering the columns of a row leaves the headers and the live rows that the row does not meet |
| `ExactCover.ChooseIs` | examples/sudoku/sudoku.cc:117-122 | Choosing a row leaves exactly the columns it does not hit and the rows that share no column with it, and strictly fewer headers |
| `ExactCover.SomeBranch` | examples/sudoku/sudoku.cc:116-118 | Every exact cover has a row in the column chosen: branching over that column loses no solution |
| `ExactCover.BranchDown` | examples/sudoku/sudoku.cc:118-125 | An exact cover with the chosen row is, without it, an exact cover of the smaller matrix |
| `ExactCover.BranchUp` | examples/sudoku/sudoku.cc:118-125 | An exact cover of the smaller matrix and the chosen row is one of the whole matrix |
| `ExactCover.PartialNext` | examples/sudoku/sudoku.cc:222-239 | Between any two steps of the nested loops, cover takes out and uncover puts back the same node |
| `Assembly.HeaderJoins` | examples/sudoku/sudoku.cc:158-165 | A new header joins at the end of the header ring and disturbs no list |
| `Assembly.NodeJoins` | examples/sudoku/sudoku.cc:252-260 | A new node joins at the foot of its column and disturbs no list |
| `Assembly.RowAdded` | examples/sudoku/sudoku.cc:82-88 | Four loose nodes that put_left ties together form a row; all other lists stay |
| `SudokuRules.NameDecodes` | examples/sudoku/sudoku.cc:186-199 | Different needs have different column names, and the digit is the last decimal of the name |
| `SudokuRules.GridHasAll` | examples/sudoku/sudoku.cc:47-72 | A grid is valid, nine different digits per unit, exactly when every unit has every digit |
| `SudokuRules.UnitsAre` | examples/sudoku/sudoku.cc:43-55 | Two cells share a unit exactly if they are in one row, one column or one three by three box |
| `SudokuRules.CoverSolves` | examples/sudoku/sudoku.cc:74-92 | Picks that meet every need once, laid over the clues, form a solution, contradictory clues included |
| `SudokuRules.SolutionCovers` | examples/sudoku/sudoku.cc:74-92 | The picks of a solution meet every need once |
| `Encoding.ColumnAppended` | examples/sudoku/sudoku.cc:158-165 | Appending a header keeps the matrix built |
| `Encoding.PickAdded` | examples/sudoku/sudoku.cc:82-88 | Adding the four nodes of a pick keeps the matrix built, with one more row |
| `Encoding.CoverToPicks` | examples/sudoku/sudoku.cc:33-93 | An exact cover of the matrix gives picks that meet every need once |
| `Encoding.PicksToCover` | examples/sudoku/sudoku.cc:33-93 | Picks that meet every need once give an exact cover of the matrix |
| `SudokuSolver.ReadBoard` | examples/sudoku/sudoku.cc:269-275 | The board holds the digits of the puzzle; valid exactly when all are digits |
| `SudokuSolver.WriteDigits` | examples/sudoku/sudoku.cc:280-288 | The text of a solved board reads back as the board |
| `Calendar.DateOfJulianDay` | cnet/base/Date.cc:11-33 | From -4800-03-01 on, the date of the day number of a date is that date |
| `Calendar.JulianDayOfDate` | cnet/base/Date.cc:11-33 | From -32044 on, every day number is that of its date, and the date is a real one |
| `Calendar.TomorrowIsNext` | cnet/base/Date.cc:11-18 | The day after a date, by the leap year rules, has the next day number |
| `Calendar.WeekDayInRange` | cnet/base/Date.h:77-80 | The weekday is 0 to 6 exactly from day -1 on or on multiples of 7, because the remainder truncates; consecutive days have consecutive weekdays |
| `Calendar.WeekDayCounts` | cnet/base/Date.h:77-80 | From day -1 on the weekdays count on from 1 January 1970, which was a Thursday |
| `TimeZone.FillHMS` | cnet/base/TimeZone.cc:69-76 | The hours, minutes and seconds add up to the seconds, minutes and seconds are below 60, and the other fields are kept |
| `TimeZone.HmsOnly` | cnet/base/TimeZone.cc:69-76 | No other hours, minutes and seconds do |
| `TimeZone.EpochIsZero` | cnet/base/Date.cc:35-35 | The day constant is the Julian day of 1970-01-01, and its midnight is second 0 |
| `TimeZone.ToUtcTime` | cnet/base/TimeZone.cc:305-330 | The truncating division with its correction is the floor division into day and second, on every time whose date arithmetic fits an int |
| `TimeZone.NoOverflow` | cnet/base/Date.cc:20-33 | In that range no intermediate value of the date arithmetic leaves the 32-bit int |
| `TimeZone.FromToUtc` | cnet/base/TimeZone.cc:305-345 | Every time, negative or not, comes back from its broken-down form, whose time and date fields are in bounds |
| `TimeZone.ToFromUtc` | cnet/base/TimeZone.cc:305-345 | Every broken-down time with fields in bounds comes back from its seconds |
| `TimeZone.DayOfYear` | cnet/base/TimeZone.cc:324-328 | The day of the year is 0 to 365 |
| `TimeZone.DaysCounted` | cnet/base/TimeZone.cc:305-330 | The day of the year is the number of days of the months before, leap years included, and of those before in the month; from day -1 on the weekday counts on from the Thursday of the epoch |
| `TimeZone.EpochFields` | cnet/base/TimeZone.cc:305-330 | Second 0 is midnight on Thursday, 1 January 1970, with the year counted from 1900 and the month from 0 |
| `TimeZone.FindsLast` | cnet/base/TimeZone.cc:212-243 | The lookup finds the type of the last transition at or before the key, or the first type |
| `TimeZone.LocalLookup` | cnet/base/TimeZone.cc:285-303 | By local time the lookup finds the same transition as by UTC, except in the last hour of daylight saving time, where it finds the next one |
| `TimeZone.LocalClock` | cnet/base/TimeZone.cc:263-283 | Local time is the clock that is ahead of UTC by the offset of the last transition at or before the time, with the flag and the offset of that transition |
| `TimeZone.LocalRoundTrip` | cnet/base/TimeZone.cc:263-303 | In a zone that starts with standard time and alternates with daylight saving time an hour ahead, every instant comes back from local time, both passes of the repeated hour included |
| `TimeZone.RepeatedHour` | cnet/base/TimeZone.cc:263-303 | The two passes of the repeated hour differ only in the daylight saving flag and offset |
| `TimerQueue.NextKeeps` | cnet/net/TimerQueue.cc:115-282 | Every step, in any order, from callbacks and from the destructors of callbacks too, keeps the invariant: each timer is waiting, queued under its expiration, in the batch or being deleted, the second set has the queued ones and those that cancelInLoop is deleting, a cancelled one is noted, the alarm is set |
| `TimerQueue.ExecKeeps` | cnet/net/TimerQueue.cc:115-282 | So does every run, and the history only grows |
| `TimerQueue.ExpiredExactly` | cnet/net/TimerQueue.cc:198-224 | getExpired splits the timers into those with expiration at most now, in order, and those after |
| `TimerQueue.ResetOutcome` | cnet/net/TimerQueue.cc:226-255 | In every run, whatever the destructors do in between: when reset is through with a timer of the batch, it has put it back for the time of the round plus its interval if it repeats and was not cancelled in a callback, and has deleted it otherwise |
| `TimerQueue.QuietOutcome` | cnet/net/TimerQueue.cc:226-255 | With destructors that do nothing: after reset each timer of the batch is there with the time of the round plus its interval if it repeats and was not cancelled, and gone otherwise |
| `TimerQueue.ResetOthers` | cnet/net/TimerQueue.cc:226-255 | No timer outside the batch is touched by reset itself |
| `TimerQueue.EndIsRun` | cnet/net/TimerQueue.cc:193-255 | handleRead after its last callback, with destructors that do nothing, is a run of the steps |
| `TimerQueue.CancelledRunsNoLater` | cnet/net/TimerQueue.cc:155-196 | After a cancel of an added timer that is not lost its callback runs in no later round, in every run; at most in the batch being called |
| `TimerQueue.CancelFailsIff` | cnet/net/TimerQueue.cc:155-255 | In any state that a run can reach, some run after a cancel calls the timer in a later round if and only if the cancel is lost: it comes from a destructor that reset runs, for a repeating timer of the batch that reset has yet to put back and no callback has cancelled |
| `TimerQueue.CancelLost` | cnet/net/TimerQueue.cc:226-255 | One run to such a state: two timers expire together, reset deletes the first, and the destructor of its callback cancels the second, which repeats |
| `TimerQueue.DeletedForGood` | cnet/net/TimerQueue.cc:155-255 | In a run, nothing happens to a timer after its deletion has begun, that is, it is not run, inserted or deleted again, if and only if no timer is cancelled while cancelInLoop is deleting it |
| `TimerQueue.DeletedTwice` | cnet/net/TimerQueue.cc:163-167 | One run in which it is: the destructor of a cancelled timer cancels it again and finds it |
| `TimerQueue.AssertsHold` | cnet/net/TimerQueue.cc:155-282 | In a run, the asserts on the sizes hold if and only if nothing is added or cancelled in the destructor of a timer that cancelInLoop deletes; and while they hold no timer is deleted twice |
| `TimerQueue.SizesAgree` | cnet/net/TimerQueue.cc:144-255 | In every run the second set is larger by the timers that cancelInLoop is deleting, so that the sizes agree if and only if it is deleting none; and between handleReads, while a timer remains, the alarm is armed in time or has fired |
| `TimerQueue.EachRunsOnce` | cnet/net/TimerQueue.cc:176-196 | In one handleRead, whatever callbacks and destructors add and cancel, the callbacks called are those of the timers expired at its time, each once and in the order of expiration, and no other; reset begins when all have been called |
| `TimerQueue.AlarmOnEveryRun` | cnet/net/TimerQueue.cc:30-49 | On every run an armed alarm is at least 100 microseconds ahead of when it was armed, and is for exactly the time of some timer that was queued, or 100 microseconds ahead because that time was nearer or past |
| `TimerQueue.QueuedAsAsked` | cnet/net/TimerQueue.cc:115-153 | On every run a timer enters the queue under its number for just the time, the interval and the repeating with which the addTimer of that number asked for it |
| `TimerQueue.Queue.AddTimer` | cnet/net/TimerQueue.cc:115-123 | A new timer waits for the loop |
| `TimerQueue.Queue.InsertTimer` | cnet/net/TimerQueue.cc:257-282 | The timer is in both sets; true exactly when it is now the earliest |
| `TimerQueue.Queue.AddTimerInLoop` | cnet/net/TimerQueue.cc:144-153 | The step Add, with the alarm set when the earliest changed |
| `TimerQueue.Queue.CancelUpToDelete` | cnet/net/TimerQueue.cc:155-173 | cancelInLoop up to the destructor: out of the first set, noted while callbacks run, or nothing; a timer that is being deleted is found again |
| `TimerQueue.Queue.CancelAfterDelete` | cnet/net/TimerQueue.cc:167-173 | The timer is gone from the second set as well |
| `TimerQueue.Queue.CancelInLoop` | cnet/net/TimerQueue.cc:155-174 | All of cancelInLoop, with a destructor that does nothing |
| `TimerQueue.Queue.GetExpired` | cnet/net/TimerQueue.cc:198-224 | Returns and removes the first timers up to now from both sets |
| `TimerQueue.Queue.ResetTimerfd` | cnet/net/TimerQueue.cc:30-49 | The alarm is armed for the expiration, at least 100 microseconds ahead |
| `TimerQueue.Queue.HandleReadBegin` | cnet/net/TimerQueue.cc:176-185 | The step Begin: the expired timers become the batch |
| `TimerQueue.Queue.RunCallback` | cnet/net/TimerQueue.cc:187-191 | The step Run: the next timer of the batch is alive and is called |
| `TimerQueue.Queue.ResetFirst` | cnet/net/TimerQueue.cc:230-244 | One turn of the loop of reset, up to the destructor |
| `TimerQueue.Queue.Reset` | cnet/net/TimerQueue.cc:226-255 | With destructors that do nothing, the loop over the batch deals with every timer of it and arms the alarm for the earliest |
| `TimerQueue.Queue.HandleReadEnd` | cnet/net/TimerQueue.cc:193-196 | The flag falls, and then reset, with destructors that do nothing |
| `EventLoop.NextKeeps` | cnet/net/EventLoop.cc:90-302 | Every step of the loop or of a producer keeps the invariant; what was pushed and what was started only grow |
| `EventLoop.RunsInPushOrder` | cnet/net/EventLoop.cc:149-160 | In every interleaving, the functors started, the rest of the batch and the pending ones, in this order, are the pushed ones: none lost, none twice, first in first out |
| `EventLoop.BlocksIff` | cnet/net/EventLoop.cc:90-302 | In every interleaving, at every poll: it blocks with functors pending, a count of zero and no producer about to wake it if and only if the loop thread has queued a functor since the last swap while callingPendingFunctors_ was down, no wakeup is unread, and no other thread has queued or quit without waking the loop since |
| `EventLoop.LaterPollMayBlock` | cnet/net/EventLoop.cc:287-302 | One such interleaving that comes to the second poll: the destructor of a functor that was called queues another one while the local vector of functors is destroyed |
| `EventLoop.FirstPollBlocksIff` | cnet/net/EventLoop.cc:90-160 | In every interleaving that comes to the first poll: it polls with functors pending, a count of zero and no producer about to wake it if and only if the loop thread queued a functor before and no other thread queued one or called quit |
| `EventLoop.FirstPollMayBlock` | cnet/net/EventLoop.cc:90-102 | One such interleaving: a functor queued by the loop thread before loop() |
| `EventLoop.BatchIsDrained` | cnet/net/EventLoop.cc:287-302 | What is pending at a swap has been started when the loop polls again |
| `EventLoop.QuitOnEveryRun` | cnet/net/EventLoop.cc:90-135 | In every interleaving the flag is set exactly if some thread called quit, the loop is left only if so, and a poll with the flag set finds a count or a thread about to wake it, so that it does not block |
| `EventLoop.QuitEnds` | cnet/net/EventLoop.cc:99-135 | After a quit no poll returns but one that is under way, and the next test of the flag leaves the loop |
| `EventLoop.Loop.PushBack` | cnet/net/EventLoop.cc:149-158 | The push step, and when the caller has to wake the loop |
| `EventLoop.Loop.Wakeup` | cnet/net/EventLoop.cc:267-275 | The wake step of a producer or of the loop itself |
| `EventLoop.Loop.QuitFromThread` | cnet/net/EventLoop.cc:125-135 | The quit step of another thread |
| `EventLoop.Loop.QuitInLoopThread` | cnet/net/EventLoop.cc:125-135 | The quit step of the loop thread, which wakes nobody |
| `EventLoop.Loop.HandleRead` | cnet/net/EventLoop.cc:277-285 | Reading takes the whole count of the eventfd |
| `EventLoop.Loop.StartPendingFunctors` | cnet/net/EventLoop.cc:287-290 | The flag is up before the swap |
| `EventLoop.Loop.SwapPending` | cnet/net/EventLoop.cc:292-295 | The swap step under the mutex |
| `EventLoop.Loop.CallNext` | cnet/net/EventLoop.cc:297-300 | The next functor of the batch is called, and stays in the vector |
| `EventLoop.Loop.EndPendingFunctors` | cnet/net/EventLoop.cc:301-301 | The flag is down when the batch is done |
| `EventLoop.Loop.TestLoop` | cnet/net/EventLoop.cc:302-302 | The functors have been destroyed, and the loop goes on unless it was quit |
| `EventLoop.Loop.EnterMainLoop` | cnet/net/EventLoop.cc:90-99 | Entering the loop |
| `EventLoop.Loop.PollReturned` | cnet/net/EventLoop.cc:99-117 | The poll returns, with the wake channel active only if the count is positive |
| `AsyncLogging.NextKeeps` | cnet/base/AsyncLogging.cc:27-122 | Every step of a producer or of the logging thread keeps order, conservation and the supply of spare buffers |
| `AsyncLogging.NothingLostOrReordered` | cnet/base/AsyncLogging.cc:27-122 | In every interleaving in which no batch that threadFunc looks at has more than 25 buffers, the bytes written, the batch, the full buffers and the current one are all lines in order |
| `AsyncLogging.DroppedIff` | cnet/base/AsyncLogging.cc:84-93 | On every run something has been dropped if and only if some batch that threadFunc looked at had more than 25 buffers |
| `AsyncLogging.OnlyDropsAreLost` | cnet/base/AsyncLogging.cc:27-122 | In every interleaving, with any number of drops, the file is, in order, all text appended but the dropped parts, with the notes where the drops were; the rest of the text is in the batch, the full buffers and the current one |
| `AsyncLogging.DropLosesTail` | cnet/base/AsyncLogging.cc:84-93 | A drop loses exactly the buffers of its batch from the third on; the first two follow the note, and what was appended since is untouched |
| `AsyncLogging.SealedIff` | cnet/base/AsyncLogging.cc:27-48 | A line joins the current buffer if it leaves one of its 4000000 bytes free; otherwise the buffer is handed on as full and the line begins the next one |
| `AsyncLogging.TakesAll` | cnet/base/AsyncLogging.cc:67-80 | With a full buffer, or after waiting, the thread takes all text appended so far: it is in the batch or accounted for before; with none it waits first |
| `AsyncLogging.RunsUntilStopped` | cnet/base/AsyncLogging.cc:61-61 | The logger runs until it is stopped, and the thread ends only then |
| `AsyncLogging.SparesSuffice` | cnet/base/AsyncLogging.cc:61-118 | In every interleaving the asserts on spare buffers and batches hold, at most two written buffers are kept, and a missing next buffer means that a full one waits |
| `AsyncLogging.Logger.AppendLogLine` | cnet/base/AsyncLogging.cc:27-48 | The append step: the line goes to the current buffer or to a new one |
| `AsyncLogging.Logger.TryTake` | cnet/base/AsyncLogging.cc:67-80 | The locked section: it waits, or takes all buffers and hands over spares |
| `AsyncLogging.Logger.DropIfTooMany` | cnet/base/AsyncLogging.cc:84-93 | More than 25 buffers are cut to two |
| `AsyncLogging.Logger.WriteNext` | cnet/base/AsyncLogging.cc:95-98 | The next buffer is written |
| `AsyncLogging.Logger.RefillSpares` | cnet/base/AsyncLogging.cc:100-120 | Both spares are there again and empty |
| `Buffer.FindCRLF` | cnet/net/Buffer.h:67-71 | The first position of CR LF in the readable bytes, or none |
| `Buffer.DecodeEncode` | cnet/net/Buffer.h:199-290 | Bytes in network order read back as the number |
| `Buffer.DecodeEncodeInt` | cnet/net/Buffer.h:199-290 | The same for signed integers in two's complement, of any width |
| `Buffer.EncodeOrder` | cnet/net/Buffer.h:199-325 | The bytes of a number have the most significant first: those of a smaller number of the same width come first in the order of the dictionary |
| `Buffer.SignedModulo` | cnet/net/Buffer.h:199-325 | A signed integer has the bytes of its remainder modulo 256 to the power of its width |
| `Buffer.Buffer.constructor` | cnet/net/Buffer.h:27-35 | Empty, with the asked room and eight bytes in front |
| `Buffer.Buffer.Swap` | cnet/net/Buffer.h:37-42 | Both buffers change places |
| `Buffer.Buffer.Retrieve` | cnet/net/Buffer.h:93-104 | The readable bytes lose their first len |
| `Buffer.Buffer.RetrieveAll` | cnet/net/Buffer.h:106-110 | Nothing is readable |
| `Buffer.Buffer.RetrieveAsString` | cnet/net/Buffer.h:144-150 | The result and the rest make up the readable bytes |
| `Buffer.Buffer.Append` | cnet/net/Buffer.h:157-187 | The readable bytes gain s at the end, whether the buffer had room, grew or was compacted |
| `Buffer.Buffer.EnsureWritableBytes` | cnet/net/Buffer.h:174-181 | There is room for len, and the readable bytes are the same |
| `Buffer.Buffer.MakeSpace` | cnet/net/Buffer.h:353-376 | Growing or compacting gives room and keeps the readable bytes; the assert in the compacting branch holds |
| `Buffer.Buffer.Unwrite` | cnet/net/Buffer.h:189-193 | The readable bytes lose their last len |
| `Buffer.Buffer.Prepend` | cnet/net/Buffer.h:292-298 | The readable bytes gain s in front |
| `Buffer.Buffer.Shrink` | cnet/net/Buffer.h:327-333 | The same readable bytes, with at least the reserve of room |
| `Buffer.Buffer.ReadFd` | cnet/net/Buffer.cc:14-45 | Whatever one readv delivers into the two blocks is appended in order |
| `Buffer.Buffer.AppendInt` | cnet/net/Buffer.h:199-220 | Appends the integer in network order |
| `Buffer.Buffer.PrependInt` | cnet/net/Buffer.h:304-325 | Puts the integer in front in network order |
| `Buffer.Buffer.ReadInt` | cnet/net/Buffer.h:227-253 | Reads the first bytes as an integer and retrieves them |
| `Buffer.AppendThenRead` | cnet/net/Buffer.h:199-253 | An integer appended to an empty buffer is the one read back |
| `Buffer.PrependThenRead` | cnet/net/Buffer.h:227-325 | An integer put in front of any buffer is the one read next, and the rest is as before |
| `TcpConnection.EveryRunLife` | cnet/net/TcpConnection.cc:188-383 | On every run, orderly or not: the state has only moved forward at every step, the connection callback ran once up and at most once down, exactly when the state says so, and the close callback at most once |
| `TcpConnection.NextCounted` | cnet/net/TcpConnection.cc:188-383 | Every step keeps the counts of the callbacks and the place of the channel in the poller, never moves the state back, and fails exactly under the guard of an assert |
| `TcpConnection.NextStream` | cnet/net/TcpConnection.cc:132-369 | While the connection is not down, bytes written and buffered are the bytes accepted, in order, and the channel waits to write exactly when something is buffered; orderly or not |
| `TcpConnection.StreamOnEveryRun` | cnet/net/TcpConnection.cc:132-369 | So on every run, orderly or not; what was written and what was accepted only grow |
| `TcpConnection.HalfCloseAfterDraining` | cnet/net/TcpConnection.cc:197-204 | While the connection is not down, its write side is shut down only when everything accepted was written |
| `TcpConnection.NothingAfterHalfClose` | cnet/net/TcpConnection.cc:132-204 | On every run nothing is written once the write side is shut down |
| `TcpConnection.HalfCloseFollows` | cnet/net/TcpConnection.cc:188-204 | On every run with a shutdown() of a connection: once shutdownInLoop has run and everything is written, the write side has been shut down, unless the connection is down |
| `TcpConnection.HalfCloseOnlyAsked` | cnet/net/TcpConnection.cc:188-235 | On every run the write side is shut down only after a step that stopped the connection: a shutdown, a close, or a close asked for |
| `TcpConnection.DownIff` | cnet/net/TcpConnection.cc:188-383 | On every run the connection is down if and only if some step closed it while it was up or destroyed it while it was connected, has called back on its close if and only if the former, and is shutting down or down if and only if some step stopped it |
| `TcpConnection.RequestsPending` | cnet/net/TcpConnection.cc:188-235 | On every run the half-closes, the closes and the delayed closes still to come are those asked for without those that have been done |
| `TcpConnection.ReadingOnEveryRun` | cnet/net/TcpConnection.cc:264-287 | On every run an up connection waits to read unless the last of startRead and stopRead was a stopRead |
| `TcpConnection.WritesOnEveryRun` | cnet/net/TcpConnection.cc:132-369 | On every run the bytes written are as many as the socket took in all writes, and are the first of those accepted |
| `TcpConnection.TakenAfterShutdown` | cnet/net/TcpConnection.cc:132-204 | A message handed over right after shutdown() in the loop thread is taken if and only if output was waiting to be written |
| `TcpConnection.TakesAllOrNothing` | cnet/net/TcpConnection.cc:132-186 | A message is taken whole, or not at all when the connection is down or a direct write finds it broken |
| `TcpConnection.OrderlyLife` | cnet/net/TcpConnection.cc:188-383 | On every orderly run no assert fires, and a connection that is down is not in the epoll set |
| `TcpConnection.NextCalm` | cnet/net/TcpConnection.cc:188-383 | Every orderly step keeps the invariant behind this: an up connection is in the epoll set exactly while it waits for something, and a closing report is handled only while it is up |
| `TcpConnection.DisorderExposes` | cnet/net/TcpConnection.cc:188-383 | Orderly excludes no more than it must: after any disorderly step from a state with that invariant, reports, queued closes and the end of the object alone can make an assert fire |
| `TcpConnection.DisorderlyRunExposed` | cnet/net/TcpConnection.cc:188-383 | So every run that is not orderly comes to a point, which the lemma returns, from where such steps alone make an assert fire |
| `TcpConnection.AssertFiresExactly` | cnet/net/TcpConnection.cc:371-383 | On every run an assert has fired if and only if some step of it handled a close of a connection that was not up, removed a channel that still waited for something or that was among the channels of a round of events at the turn of another one, or let go of a connection that was up or whose channel the poller still knew |
| `TcpConnection.ClosedWhileNotReading` | cnet/net/poller/EPollPoller.cc:100-142 | A forced close of a connection that has stopped reading puts its channel back into the epoll set without interest; a hang-up is reported all the same and fires the assert of handleClose |
| `TcpConnection.StoppedAfterClose` | cnet/net/TcpConnection.cc:279-287 | Stopping to read after a close does the same |
| `TcpConnection.DelayedCloseMeetsEof` | cnet/net/TcpConnection.cc:215-235 | A delayed close that runs between poll and the handling of an end of file makes the assert of handleClose fire |
| `TcpConnection.DestroyedWhileDisconnecting` | cnet/net/TcpConnection.cc:300-312 | Destroying a connection that is shutting down removes a channel that still reads |
| `TcpConnection.DestroyedBeforeTurn` | cnet/net/TcpServer.cc:36-51 | Destroying a connection at once, because the server is destroyed in a callback of another channel, removes a channel whose events of the same poll are still to be handled |
| `TcpConnection.DestroyedAfterTurn` | cnet/net/EventLoop.cc:241-251 | The same when they have been handled already |
| `TcpConnection.HangUpWithUrgentData` | cnet/net/Channel.cc:74-102 | A hang-up with urgent data and nothing readable closes twice |
| `TcpConnection.ReadingAfterClose` | cnet/net/TcpConnection.cc:264-272 | Reading started after the close meets the end of file when down |
| `TcpConnection.Connection.ConnectEstablished` | cnet/net/TcpConnection.cc:289-298 | The step Establish |
| `TcpConnection.Connection.ConnectDestroyed` | cnet/net/TcpConnection.cc:300-312 | The step Destroy, with the asserts on the way |
| `TcpConnection.Connection.Dispose` | cnet/net/TcpConnection.cc:62-67 | The destructor, with its assert and those of the channel |
| `TcpConnection.Channel.Update` | cnet/net/poller/EPollPoller.cc:100-142 | A channel in the epoll set that waits for nothing is taken out; one that is not in the set is added, even when it waits for nothing |
| `TcpConnection.Channel.DisableAll` | cnet/net/Channel.h:65-65 | No interest is left, and the poller is told, whether the channel was in the set or not |
| `TcpConnection.Channel.Remove` | cnet/net/poller/EPollPoller.cc:169-188 | The poller forgets the channel, or an assert fires because it waits for something, is not known, or is in a round of events at the turn of another channel |
| `TcpConnection.Connection.SendInLoop` | cnet/net/TcpConnection.cc:132-186 | The step Send: a direct write if nothing is queued, the rest buffered, nothing kept on EPIPE or ECONNRESET |
| `TcpConnection.Connection.ShutdownInLoop` | cnet/net/TcpConnection.cc:197-204 | The write side is shut down unless the channel is writing |
| `TcpConnection.Connection.ShutdownConnection` | cnet/net/TcpConnection.cc:188-195 | The step Shutdown when connected, nothing otherwise |
| `TcpConnection.Connection.ForceCloseConnection` | cnet/net/TcpConnection.cc:206-213 | The step ForceClose when up, nothing otherwise |
| `TcpConnection.Connection.ForceCloseWithDelay` | cnet/net/TcpConnection.cc:215-226 | The step ForceCloseLater when up, nothing otherwise |
| `TcpConnection.Connection.ForceCloseInLoop` | cnet/net/TcpConnection.cc:228-235 | Closes when still up |
| `TcpConnection.Connection.StartReadInLoop` | cnet/net/TcpConnection.cc:264-272 | The channel waits to read |
| `TcpConnection.Connection.StopReadInLoop` | cnet/net/TcpConnection.cc:279-287 | The channel does not wait to read; the update puts it into the epoll set if it was not there |
| `TcpConnection.Connection.HandleRead` | cnet/net/TcpConnection.cc:314-333 | A read of nothing closes |
| `TcpConnection.Connection.HandleWrite` | cnet/net/TcpConnection.cc:335-369 | What the socket took leaves the buffer; an empty buffer stops writing and completes a shutdown |
| `TcpConnection.Connection.HandleClose` | cnet/net/TcpConnection.cc:371-383 | Down, no interest left, the poller told, both callbacks; or the assert |
| `TcpConnection.Connection.HandleEventWithGuard` | cnet/net/Channel.cc:74-102 | The close, read and write parts in this order |
| `LogStream.DecimalReadsBack` | cnet/base/LogStream.cc:38-55 | The text of any integer is canonical and means that integer |
| `LogStream.DecimalOnly` | cnet/base/LogStream.cc:38-55 | No other canonical text means it |
| `LogStream.DecimalFits` | cnet/base/LogStream.cc:38-55 | Every signed or unsigned 64-bit value takes at most 20 characters |
| `LogStream.NaturalIs` | cnet/base/LogStream.cc:57-71 | The same for naturals, decimal and hexadecimal |
| `LogStream.NaturalOnly` | cnet/base/LogStream.cc:57-71 | Only one numeral without a superfluous zero has a given value |
| `LogStream.HexFits` | cnet/base/LogStream.cc:57-71 | A pointer takes at most 16 hexadecimal digits |
| `LogStream.RenderedMeans` | cnet/base/LogStream.cc:38-71 | A piece shows as its text, as a canonical decimal that means the integer, or as 0x and a hexadecimal numeral that means the address |
| `LogStream.PutIff` | cnet/base/LogStream.cc:103-111 | A piece is taken whole if it is text that leaves one of the 4000 bytes free, or a number when 32 bytes are left, and not at all otherwise |
| `LogStream.Convert` | cnet/base/LogStream.cc:38-55 | Through the digit table and truncating division, the most negative value included, it writes the canonical numeral and a NUL, and nothing else |
| `LogStream.ConvertHex` | cnet/base/LogStream.cc:57-71 | The same in hexadecimal |
| `LogStream.FixedBuffer.Append` | cnet/base/LogStream.h:41-50 | Appends the text, or nothing when it would not leave a byte |
| `LogStream.FixedBuffer.Add` | cnet/base/LogStream.h:58 | What was written after the contents becomes part of them |
| `LogStream.Stream.WriteInteger` | cnet/base/LogStream.cc:103-111 | The numeral is appended when 32 bytes are left |
| `LogStream.Stream.WritePointer` | cnet/base/LogStream.cc:155-166 | 0x and the hexadecimal numeral, under the same condition |
| `LogStream.Stream.WriteText` | cnet/base/LogStream.h:115-150 | Text is appended when it leaves a byte free |
| `LogStream.Stream.WriteBool` | cnet/base/LogStream.h:85-88 | 0 or 1 |
| `LogStream.ByteStaysFree` | cnet/base/LogStream.h:85-156 | Whatever is put into a line in whatever order, one of its 4000 bytes stays free |
| `LogStream.ShortLinesComplete` | cnet/base/LogStream.h:41-60 | A line whose pieces leave 32 bytes is all of them in order |
| `SudokuStat.SudokuStat.RecordResponse` | examples/sudoku/stat.h:85-160 | After any response, forward, jumping, backward or too late, each place of both rings is the count and latency sum of everything recorded for its second since the last reset; the window moves as stated and its first second never goes back |
| `SudokuStat.SudokuStat.Advance` | examples/sudoku/stat.h:110-143 | Moving to a later second, by a step, a loop or a clear, keeps that |
| `SudokuStat.SudokuStat.Reset` | examples/sudoku/stat.h:68-83 | Everything starts anew but the dropped requests |
| `SudokuStat.SudokuStat.RequestsInWindow` | examples/sudoku/stat.h:40-48 | The sum over the ring is the number of responses recorded for the seconds of the window |
| `SudokuStat.PushMatches` | examples/sudoku/stat.h:118-133 | A place pushed for the next second, overwriting the oldest when full, keeps the rings right |
| `SudokuStat.AddMatches` | examples/sudoku/stat.h:104-152 | Counting a response in the place of its second keeps the rings right |
| `SudokuStat.DiscardMatches` | examples/sudoku/stat.h:153-158 | A response before the window leaves the rings right without it |
| `SudokuStat.WindowIs` | examples/sudoku/stat.h:101-158 | After any responses the window ends at the latest second recorded and goes back to the second with which recording began, or began again 60 seconds or more after all before, but covers at most 60 seconds |
| `Http.AnyFragmentation` | cnet/net/http/HttpContext.cc:51-106 | Bytes in any fragments, a split between CR and LF included, lead to the state, request and left-over bytes that they lead to at once, up to the first error or the end of the headers |
| `Http.ParseInTwo` | cnet/net/http/HttpContext.cc:51-106 | Parsing a then b is parsing a + b, from any state |
| `Http.PrintThenParse` | cnet/net/http/HttpRequest.cc:61-74 | Parsing a printed request that is printable gives it back whole: method, path, headers, version 1.1, nothing left over (request line and header field forms of sections 3.1.1 and 3.2 of RFC 7230) |
| `Http.RoundTripsIff` | cnet/net/http/HttpRequest.cc:61-74 | It gives back method, path and headers if and only if the method is valid, the path has no space, question mark, NUL or CRLF, the line has at most 255 characters, names have no colon or CRLF and values are trimmed without CRLF |
| `Http.NulInPath` | cnet/net/http/HttpRequest.cc:61-65 | A NUL in the path is one case that fails, because the path is printed as a C string |
| `Http.HeadersEnd` | cnet/net/http/HttpContext.cc:80-99 | The headers are complete if and only if some line in them has no colon, whatever else it says |
| `Http.NotOnlyEmptyLines` | cnet/net/http/HttpContext.cc:85-92 | A line that is not empty ends them, for example |
| `Http.QueryKept` | cnet/net/http/HttpContext.cc:7-48 | A target is cut at its first question mark, which stays at the head of the query |
| `Http.LineBack` | cnet/net/http/HttpContext.cc:7-48 | A request line of a method, a good path and HTTP/1.1 is taken apart into them |
| `Http.LineGoodIff` | cnet/net/http/HttpContext.cc:7-48 | A request line is good if and only if it is GET, POST, HEAD, PUT or DELETE, a space, a target without space, a space, and HTTP/1.0 or HTTP/1.1 |
| `Http.LineMeans` | cnet/net/http/HttpContext.cc:7-48 | The method and the version of a good line are those that it names, and the path followed by the query is its target, the query beginning with the first question mark |
| `Http.FailsIff` | cnet/net/http/HttpContext.cc:51-78 | Parsing a new request fails if and only if there is a first line and it is not good; it then consumes nothing |
| `Http.HeadersNeverFail` | cnet/net/http/HttpContext.cc:80-103 | Nothing in the headers makes parsing fail |
| `Http.HeaderBack` | cnet/net/http/HttpRequest.h:227-241 | A header line gives back its name and trimmed value |
| `Http.HeaderMeans` | cnet/net/http/HttpRequest.h:227-241 | The name is what is before the first colon of the line, and the value the rest without the white space on either side of it |
| `Text.SpacesAre` | cnet/net/http/HttpRequest.h:227-241 | White space are the characters 9 to 13 and 32 |
| `Http.CutIs` | cnet/net/http/HttpRequest.cc:61-66 | The printed request line is cut after 255 characters |
| `Http.PrintedExample` | cnet/net/http/HttpRequest.cc:61-74 | A request with two headers as it is printed: its query is not, and the version printed is always 1.1 |
| `Http.BeforeIs` | cnet/net/http/HttpRequest.cc:67-73 | Headers are printed in the order of the dictionary |
| `Http.ParsedGood` | cnet/net/http/HttpContext.cc:7-106 | Whatever is parsed completely has a valid method, a path without space, question mark and CRLF, names without colon and trimmed values |
| `Http.PrintedLineParsed` | cnet/net/http/HttpRequest.cc:63-66 | A printed request line is good only if nothing was cut off, and then its path is what a C string shows of the path |
| `Http.HttpRequest.SetMethod` | cnet/net/http/HttpRequest.h:83-101 | The method of the name; true exactly for the five valid ones |
| `Http.HttpRequest.AddHeader` | cnet/net/http/HttpRequest.h:227-241 | The two loops leave the value without white space around it |
| `Http.HttpRequest.AppendToBuffer` | cnet/net/http/HttpRequest.cc:61-74 | Appends the printed request with the headers sorted by name, each once |
| `Http.HttpRequest.Swap` | cnet/net/http/HttpRequest.h:262-270 | Both requests change places |
| `Http.HttpContext.ProcessRequestLine` | cnet/net/http/HttpContext.cc:7-48 | Sets method, path, query and version as far as the line is good, and says whether it is |
| `Http.HttpContext.ParseRequest` | cnet/net/http/HttpContext.cc:51-106 | Each call from a state it can parse in terminates, comes to what the specification says, and can be followed by another unless it failed or got all |
| `Http.HttpContext.Reset` | cnet/net/http/HttpContext.h:35-40 | A fresh request and the first state |
| `MemcacheItem.Item.constructor` | examples/memcached/server/Item.cc:14-27 | The key is in place and the value is still to come |
| `MemcacheItem.Item.Append` | examples/memcached/server/Item.cc:29-35 | The value gains the bytes, the key stays |
| `MemcacheItem.Item.ResetKey` | examples/memcached/server/Item.cc:52-58 | The item is one for another key, with that key's hash |
| `MemcacheItem.Output` | examples/memcached/server/Item.cc:37-50 | Appends the VALUE line, with the cas value if asked, and the value |
| `MemcacheItem.PutNumbers` | examples/memcached/server/Item.cc:41-47 | The numbers of the line always fit the log stream |
| `MemcacheServer.MemcacheServer.StoreItem` | examples/memcached/server/MemcacheServer.cc:48-138 | Over the shards, every policy does to the map what its rule says: who is accepted, joined values, a new cas value for an accepted item, no change otherwise |
| `MemcacheServer.MemcacheServer.GetItem` | examples/memcached/server/MemcacheServer.cc:140-148 | Finds the entry of the key in the shard of its hash, exactly when there is one |
| `MemcacheServer.MemcacheServer.DeleteItem` | examples/memcached/server/MemcacheServer.cc:150-157 | Removes the entry of the key and no other |
| `MemcacheServer.MemcacheServer.Join` | examples/memcached/server/MemcacheServer.cc:85-107 | The item made for append and prepend is complete and ends in CRLF, as the asserts say |
| `MemcacheServer.ChangesKeep` | examples/memcached/server/MemcacheServer.cc:48-157 | After any updates and deletions by whatever sessions every value ends in CRLF and the cas values are distinct and at most the counter |
| `MemcacheServer.ChangeKeeps` | examples/memcached/server/MemcacheServer.cc:48-157 | A change gives no cas value that was given before |
| `MemcacheServer.CasDetectsChange` | examples/memcached/server/MemcacheServer.cc:120-133 | After any changes, an update with the cas value of a version is accepted exactly while that version is still the current one of its key |
| `MemcacheServer.VersionsFresh` | examples/memcached/server/MemcacheServer.cc:48-157 | What a key has after any changes is what it had, or has a cas value above all those before |
| `MemcacheServer.UpdateMeans` | examples/memcached/server/MemcacheServer.cc:48-138 | set is accepted always, add for a new key, replace, append and prepend for a key that is there, cas for its current version; an accepted update gives its key, and no other, a new version one above the last, with its own value and flags but for append and prepend; a refused one changes nothing |
| `MemcacheServer.DeleteMeans` | examples/memcached/server/MemcacheServer.cc:150-157 | A deletion removes its key and nothing else |
| `MemcacheServer.JoinsInOrder` | examples/memcached/server/MemcacheServer.cc:92-117 | After any appends and prepends to a key, mixed with any changes to others, its value is what was prepended, the last first, then the original, then what was appended in order; its flags are the original ones |
| `MemcacheSession.AnyFragmentation` | examples/memcached/server/Session.cc:75-130 | However a stream whose command lines are short enough is cut into pieces, the store and what is handed to the connection are those of its commands run one after the other on one map |
| `MemcacheSession.ConsumeRuns` | examples/memcached/server/Session.cc:75-130 | The same for a stream that arrives at once |
| `MemcacheSession.ConsumeInTwo` | examples/memcached/server/Session.cc:75-130 | Bytes in two pieces lead to the state they lead to at once, from any state: within a line, a value or bytes to be skipped |
| `MemcacheService.AnyInterleaving` | examples/memcached/server/Session.cc:75-130 | However the bytes of many clients are cut and mixed, and in whatever order their sessions take turns, a get looking up one key at a turn: the store and what each connection is handed are those of the parts of all commands done one at a time on one map, in an order that has each client's parts in the order of its stream, and all of them once its session waits for more |
| `MemcacheService.PartsDoCommands` | examples/memcached/server/Session.cc:247-275 | The parts of commands, with nothing in between, do what the commands do |
| `MemcacheService.AloneIsRound` | examples/memcached/server/Session.cc:75-130 | A session that takes its turns alone does a round of its loop |
| `MemcacheService.OrdersOfStream` | examples/memcached/server/Session.cc:75-130 | At any moment the parts done for a client, followed by those in hand and those of the commands still in its buffer, are those of its stream, from any state of the session |
| `MemcacheService.OrdersKeepGood` | examples/memcached/server/Session.cc:304-375 | Many clients together keep every value terminated and the versions apart |
| `MemcacheSession.RunKeepsGood` | examples/memcached/server/Session.cc:304-375 | Whatever commands a client sends, the store stays good |
| `MemcacheSession.LeftBehind` | examples/memcached/server/Session.cc:251-287 | Text of found items stays unsent for the next get if and only if a key that is too long comes after a found one, or some was left before |
| `MemcacheSession.RepliesTerminated` | examples/memcached/server/Session.cc:313-357 | On every run of commands, every reply is empty or ends in CRLF if and only if no command of the run is, when it comes, an update with a well-ended value that is refused and answered, other than a cas of a missing key |
| `MemcacheSession.ReplyTerminated` | examples/memcached/server/Session.cc:313-357 | The same of one reply |
| `MemcacheProtocol.RepliesTell` | examples/memcached/server/Session.cc:314-348 | STORED is the answer exactly when the update was accepted and is the current version of its key; NOT_FOUND or, for a cas with a version that is not current, EXISTS says that nothing was changed, as does CLIENT_ERROR for a value that is not ended by CRLF |
| `MemcacheProtocol.DeletionsTell` | examples/memcached/server/Session.cc:394-404 | DELETED or NOT_FOUND tells whether the key was there; afterwards it is not, and all else is as before; a value that is too large removes its key too |
| `MemcacheProtocol.Silent` | examples/memcached/server/Session.cc:351-357 | With noreply, or while the connection is shutting down, updates, deletions and refused lines do the same to the map and answer nothing |
| `MemcacheProtocol.GetShows` | examples/memcached/server/Session.cc:246-274 | A get of keys of at most 250 characters hands on what was left before, the items that are there in the order of the keys, and END |
| `MemcacheProtocol.GetRefused` | examples/memcached/server/Session.cc:246-256 | A key of more than 250 characters ends a get: it is answered as badly formed, and the items found before stay for the next get |
| `MemcacheProtocol.ItemShown` | examples/memcached/server/Item.cc:37-50 | An item shows as a line of VALUE, key, flags, size without the CRLF and, if asked, version, followed by the value |
| `MemcacheProtocol.SetThenGet` | examples/memcached/server/Session.cc:207-348 | What was set with a set is what a get of the key then shows: its flags, its size and its bytes |
| `MemcacheProtocol.LongLineClosed` | examples/memcached/server/Session.cc:106-113 | Bytes without a CRLF are left in the buffer, and more than 1024 of them shut the connection down |
| `MemcacheSession.NotFoundWithoutEnd` | examples/memcached/server/Session.cc:336-339 | A replace of a missing key is one such update |
| `MemcacheSession.ExistsWithoutEnd` | examples/memcached/server/Session.cc:325-335 | A cas with a value that no version has is another |
| `MemcacheSession.HandedWhileClosing` | examples/memcached/server/Session.cc:247-275 | While the connection is shutting down, a run of commands hands it something if and only if it has a get whose keys are all short enough |
| `MemcacheSession.GetHandedAfterQuit` | examples/memcached/server/Session.cc:247-300 | A get behind a quit does, for example |
| `MemcacheSession.ReadsBack` | examples/memcached/server/Session.cc:53-69 | A number as the server prints it is read as that number |
| `MemcacheSession.SetLineUnderstood` | examples/memcached/server/Session.cc:141-205 | A set line as clients print it is understood as that key, those flags and that many bytes |
| `MemcacheProtocol.UpdateUnderstood` | examples/memcached/server/Session.cc:141-205 | Each of set, add, replace, append, prepend and cas, with a key of fewer than 250 characters and its numbers, is understood as that update: with the key, the flags and the version that it names, and two bytes more than its size still to come, or to be skipped beyond 1048576; flags and size are cut to 32 bits first, and a size that is then negative or overflows is not defined |
| `MemcacheProtocol.UpdateRefusedIff` | examples/memcached/server/Session.cc:158-189 | An update with a key is answered as badly formed if and only if the key has 250 characters or more, or one of its numbers is missing or none |
| `MemcacheProtocol.GetUnderstood` | examples/memcached/server/Session.cc:216-274 | get and gets are understood with all keys they name, in order; only gets asks for versions; noreply counts at the end only |
| `MemcacheProtocol.DeleteUnderstood` | examples/memcached/server/Session.cc:377-405 | delete is understood with its key, or refused if the key has more than 250 characters |
| `MemcacheProtocol.DeleteWithMore` | examples/memcached/server/Session.cc:377-405 | With more words the second must be 0, or delete is answered with its usage |
| `MemcacheProtocol.VersionUnderstood` | examples/memcached/server/Session.cc:279-286 | version is answered with the version |
| `MemcacheProtocol.QuitUnderstood` | examples/memcached/server/Session.cc:287-295 | quit and shutdown shut the connection down |
| `MemcacheProtocol.UnknownWord` | examples/memcached/server/Session.cc:296-300 | Any other first word is answered with ERROR |
| `MemcacheProtocol.NumbersRead` | examples/memcached/server/Session.cc:53-69 | Digits are read as their number, at most the greatest 64-bit one; a plus sign changes nothing, and a minus sign negates modulo 2 to the power 64 |
| `MemcacheProtocol.NumberIff` | examples/memcached/server/Session.cc:53-68 | A word is read as a number if and only if it is white space or none, a sign or none, and decimal digits |
| `MemcacheProtocol.CommandOfLine` | examples/memcached/server/Session.cc:95-105 | A line that is a whole command is the first command of its stream |
| `MemcacheProtocol.CommandOfUpdate` | examples/memcached/server/Session.cc:304-375 | A line that wants a value and exactly as many bytes behind it are one command with those bytes as its value, or without them if they are skipped |
| `MemcacheSession.ParseLine` | examples/memcached/server/Session.cc:207-302 | A line is a command without a value, or asks for a value or for bytes to skip, two bytes longer than stated |
| `MemcacheSession.Session.constructor` | examples/memcached/server/Session.h:26-38 | A new session is idle |
| `MemcacheSession.Session.OnMessage` | examples/memcached/server/Session.cc:75-130 | The loop consumes the bytes just as the specification says, in every state |
| `MemcacheSession.Session.ProcessRequest` | examples/memcached/server/Session.cc:207-302 | A command line does what its parse says to the server, the connection and the session |
| `MemcacheSession.Session.DoUpdate` | examples/memcached/server/Session.cc:141-205 | The numbers read one by one decide between an error, a value to receive and bytes to discard |
| `MemcacheSession.Session.DoGet` | examples/memcached/server/Session.cc:247-287 | The loop over the keys finds what the map has and hands it on, or stops at a key that is too long |
| `MemcacheSession.Session.DoDelete` | examples/memcached/server/Session.cc:377-405 | Deletes and replies as the map says, or reports the error |
| `MemcacheSession.Session.TakeValue` | examples/memcached/server/Session.cc:304-349 | Takes what has arrived of the value, up to its end |
| `MemcacheSession.Session.FinishValue` | examples/memcached/server/Session.cc:313-348 | A complete value is stored and answered, a badly ended one refused, and the session is idle |
| `MemcacheSession.Session.SkipValue` | examples/memcached/server/Session.cc:359-375 | Skips what has arrived, up to the end |
| `MemcacheSession.Session.Reply` | examples/memcached/server/Session.cc:351-357 | Hands the reply on unless none is wanted or the connection is closing |
| `MemcacheSession.Session.ResetRequest` | examples/memcached/server/Session.cc:132-139 | Nothing is left of the request |
| `MemcacheSession.Session.ReadNumbers` | examples/memcached/server/Session.cc:164-184 | The words are numbers as strtoull reads them, with the casts to the widths of the fields |

## Left out

- Sockets, epoll, poll, eventfd, timerfd, files, clocks and signals: their answers are parameters of the steps. Writing to the eventfd is taken to succeed.
- The pollers but for which channels are in the epoll set: EPollPoller keeps a channel without interest out of the set until its next update, and PollPoller is not part of this model. The thread pools, the blocking queues, the latch, the connector, the client and the acceptor.
- `callingPendingFunctors_` starts as false in the model; the constructor leaves it unset. The memory order of fields read without the mutex is not modelled: steps are interleaved.
- EventLoop.Loop.PollReturned: which channels other than the wake channel are active does not matter to the hand-off and is not modelled.
- TimerQueue.Queue.ResetTimerfd: one clock, and timerfd_settime succeeds; intervals are whole microseconds.
- The destructor of the timer queue, which deletes what remains.
- TimerQueue.DeletedForGood: what happens after a timer was deleted twice, which is undefined in C++. The steps go on after an assert that would fail, as in the default build, which has none; `TimerQueue.AssertsHold` is about those that fail.
- TimerQueue.Queue.CancelInLoop: with a destructor that does nothing, as TimerQueue.Queue.Reset and TimerQueue.Queue.HandleReadEnd; runs of the step system have any other.
- TimerQueue.Queue.Reset: with destructors that do nothing.
- TimerQueue.Queue.HandleReadEnd: with destructors that do nothing.
- TcpConnection.EveryRunLife: shutdown, forceClose and forceCloseWithDelay are called in the loop thread, so that the test and the setting of state_ are one step. Called from another thread, handleClose could fall between the two. A failed assert ends the run, as in a build with asserts.
- `TcpConnection::send`: the stream starts at sendInLoop, and messages are sent after connectEstablished. High-water and write-complete callbacks, the input buffer and getTcpInfo.
- TcpConnection.Connection.HandleRead: the message callback is not part of it; what it calls are steps of their own, before the write part of the same report.
- TcpConnection.Connection.HandleEventWithGuard: for user callbacks that do nothing; runs of the step system have any other.
- TimeZone.LocalRoundTrip: gmtime_r and timegm are replaced by the repository's own toUtcTime and fromUtcTime, as its comments propose, and only for zones that alternate as stated; reading of TZif files and zone abbreviations.
- TimeZone.ToUtcTime: only for times whose date arithmetic fits an int, as in the C++ it is undefined beyond.
- The Date classes' text form, and Timestamp.
- Http.HttpRequest.Swap: the receive time and the server address are not modelled.
- Http.HttpContext.ParseRequest: the state for a request body, in which the source's loop would not end; pipelining in the server; parseURL.
- Buffer.Buffer.ReadFd: a failing readv, which changes nothing; vector capacity.
- Allocation failure, and the widths of sizes, counters and sums that only grow: they are unbounded here, so that neither an item's length nor g_cas wraps around.
- MemcacheServer.MemcacheServer.StoreItem: stored items are values. Their sharing between shards and readers by reference counting is not modelled; the source states that an item does not change once it is stored. The mutexes are not modelled: each call is one step. The hash is any function of the key.
- MemcacheSession.AnyFragmentation: only streams whose command lines come within 1024 bytes; beyond, the shutdown depends on the fragmentation.
- MemcacheService.AnyInterleaving: reading a command, and each look-up, update or deletion, is one step; the text of a reply is handed on in the step of its update, which no other session can tell.
- MemcacheSession.Session.ProcessRequest: an update or a delete without a key, a negative byte count, and a count whose sum with 2 overflows make an assert fail or are undefined; the session is then broken and does nothing more.
- Expiry, statistics, the binary protocol, stopping the server, and the size of the connection's output buffer.
- AsyncLogging.OnlyDropsAreLost: order and conservation only; the last buffer may never be written. A line has fewer than 4,000,000 bytes.
- LogStream.Stream.WriteText: doubles, Fmt, and the null C string, which is the text (null).
- SudokuStat.SudokuStat.RecordResponse: responses are sent a second or more after the epoch; the report's text and percentiles.
- The servers around these parts, the inspector, plotting, process information, benchmarks and tests.
