# auto_click: the Tower of Saviors drag solver and its device helpers, in Dafny

This project models the runestone solver of auto_click (`scripts/tos.py`) and proves properties of the model. It also models four small pieces of the click automation around it.

The solver works on a 5 x 6 board of stones of six types. A drag picks up one stone and slides it cell by cell, and each slide exchanges it with a neighbour. After the drag, every run of three equal stones in a row or a column is cleared. The solver has four parts:

- `TosBoard` holds the grid, the dragged cell (`currentPosition`) and the cell it came from (`previousPosition`).
- `getSuccessorList` lists the legal slides in the order UP, DOWN, LEFT, RIGHT.
- `evaluate` counts the marked stones, the marked corners and the combos. A combo is a same-type 4-connected group of marked stones. It also reports whether the dragged stone is itself cleared (`end`).
- `analyze` is the planner:
  - It first searches every start cell with drags of up to 5 slides.
  - It then extends the best drag in five phases of up to 10 slides each.
  - Both stages use a priority queue that is drained completely.

The device helpers are:

- the button-centre arithmetic and the calibration of a found button (`src/auto_click/cores/compare.py`);
- the host/serial validator of the device settings (`src/utils/config.py`);
- the two ADB device managers, which skip emulator serials and select the one device running the target game (`src/utils/get_serial.py` and `src/auto_click/cores/manager.py`).

The model keeps the source's form:

- `TosBoard` is a class whose methods update its fields.
- `evaluate` fills an `array2` "removed" grid. It then counts combos by a queue-driven flood fill that clears that grid in place.
- The planner drains a queue held in a `seq`.
- The device manager appends to its `runningApps` field.

Each method is proved against specification functions on values:

- `Slides`: the slide rule, replaying a move list, and search-tree paths.
- `Matching`: the runs of three, the corner count, and combos as connected components.
- `SearchSpec`: path costs and optimality over every path of the search tree, which the planner (`Planner`) is proved against.

### Integer scaling

The costs in `analyze` are floats only because of the term `len(moveList) * 0.001`. Every cost is multiplied by 1000, so costs are exact integers:

| source value | scaled value |
|---|---|
| `len(moveList) * 0.001` | `len(moveList)` |
| penalty 100 | 100000 |
| start value 10e9 | 10^13 (`SearchSpec.Sentinel`) |

The colour classifier's weights 1.0 and 1.7 are multiplied by 10.

### Source behaviour the model keeps

- **`setCurrentPosition`**: it sets both `currentPosition` and `previousPosition` to the given cell (scripts/tos.py:216-217). So after it, all four neighbours are legal first slides.
- **Stage A minimum**: one running minimum is shared by all start cells (scripts/tos.py:304, 312-313). So the chosen start is the first cell in row-major order whose tree reaches the global minimum.
- **Board size**: the grid is fixed at 5 x 6 (scripts/tos.py:157-158, 190).
- **Empty cells**: a new board's cells are empty (`None`), and `initFromFile` leaves a cell empty for an unknown token. So cells are `Option<StoneType>`. The operations that read `.status` or `.type` of a cell require the cells they touch to be filled, because the source fails on an empty cell there.

## Model

| member | source | states |
|---|---|---|
| Runestones.Step | scripts/tos.py:14-18 | a move goes to a cell that shares a side with the current one (component-wise sum of the move's delta) |
| Runestones.Swapped | scripts/tos.py:172-175 | the two named cells exchange their contents and every other cell is kept |
| Runestones.SwappedAsWrites | scripts/tos.py:172-175 | the exchange is the two single-cell writes `_swap` performs through its temporary |
| Runestones.SwapConservesTypes | scripts/tos.py:172-175 | a swap conserves the multiset of stone types on the grid |
| TosBoards.TosBoard.constructor | scripts/tos.py:156-161 | a new board has every cell empty and the finger and previous cell at [0, 0] |
| TosBoards.TosBoard.Swap | scripts/tos.py:172-175 | the grid becomes the swapped grid; the positions are unchanged |
| TosBoards.TosBoard.InitFromFile | scripts/tos.py:186-206 | each six-token line with index below 5 replaces its row, token by token; other lines are skipped but counted; the first six-token line at index 5 or later is reported as the index error, with the earlier rows written |
| BoardFile.Tokens | scripts/tos.py:189 | `strip().split()`: every token is non-empty and whitespace-free, and there are none exactly when the line is all whitespace |
| BoardFile.TokensLead | scripts/tos.py:189 | read from the left, leading whitespace is skipped and a word ended by whitespace or by the end of the line is the next token, the rest of the line giving the tokens after it; with `Tokens` of an all-whitespace line being empty, this fixes the tokens of every line |
| BoardFile.TokenStone | scripts/tos.py:193-205 | a token names a stone exactly when it is one of D, L, W, F, E, H |
| BoardFile.LetterRoundTrip | scripts/tos.py:193-205 | each stone's letter reads back as that stone |
| BoardFile.Overflow | scripts/tos.py:188-206 | the reported line is the first at index 5 or later with six tokens, and there is none exactly when no such line exists |
| BoardFile.LoadRender | scripts/tos.py:186-206 | loading a board written one row per line, letters separated by spaces, fills every cell with its stone and raises nothing |
| TosBoards.TosBoard.SetCurrentPosition | scripts/tos.py:214-218 | finger and previous cell both become the given cell; the stones are unchanged |
| TosBoards.TosBoard.GetSuccessorList | scripts/tos.py:220-233 | one new board per legal move, in move order: its finger is the parent's finger plus the move, its previous cell the parent's finger, its grid the parent's grid with the two cells exchanged; the parent is not changed; as values the list is `Successors` |
| Slides.Slide | scripts/tos.py:222-232 | a slide exists exactly when the target is in the grid and is not the previous cell |
| Slides.SlideSwapsTwoCells | scripts/tos.py:227-231 | a successor exchanges exactly the old and the new finger cell, keeps every other cell, never returns to the parent's previous cell and conserves the stone types |
| Slides.LegalMovesMember | scripts/tos.py:222-226 | a move is kept by getSuccessorList's filter iff it is tried and its target is neither the previous cell nor off the grid |
| Slides.SlidesOverMoves | scripts/tos.py:220-233 | the moves of the successor boards are exactly the filter's kept moves, in order |
| Slides.SuccessorsExact | scripts/tos.py:220-233 | a pair is in the successor list exactly when the slide rule produces it, and the moves appear in the order UP, DOWN, LEFT, RIGHT |
| Slides.StartBoardSuccessors | scripts/tos.py:214-226 | after setCurrentPosition every in-grid neighbour is a successor |
| Slides.MovedBoardHasAtMostThree | scripts/tos.py:224-226 | a board produced by a slide has at most 3 successors |
| Slides.ReplayConcat | scripts/tos.py:359 | replaying concatenated move lists replays the second from where the first ends |
| Slides.StartHasMove | scripts/tos.py:222-232 | every start cell has a legal first slide |
| Scan.MarkRuns | scripts/tos.py:237-253 | the removed grid holds, for each cell, its own type if it lies in a horizontal or vertical window of three equal stones, and None otherwise |
| Scan.CountMarked | scripts/tos.py:259-265 | the count is the number of marked cells |
| Scan.CountCorners | scripts/tos.py:268-276 | the count is the number of marked corners |
| Scan.Visit | scripts/tos.py:287-296 | one pop of the fill enqueues, after the old queue, only on-board neighbours of the popped cell whose entry is the fill's type, and every such neighbour |
| Scan.FloodFill | scripts/tos.py:284-296 | the fill clears exactly the same-type 4-connected group of marked cells containing the start, which was not cleared before, and nothing else |
| Scan.CountCombos | scripts/tos.py:277-296 | the scan counts the same-type 4-connected groups of marked cells, and three times that count is at most the number of marked cells |
| Matching.BoundaryCorners | scripts/tos.py:268-276 | the corner count is one for each of the four corner cells that is marked |
| Matching.BoundaryBounds | scripts/tos.py:268-276 | the corner count is at most 4 and at most the number of marked cells |
| Matching.ComboZeroIffNoStones | scripts/tos.py:277-296 | there are no combos exactly when no cell is marked, and never more combos than marked cells |
| Matching.ComponentHasThree | scripts/tos.py:277-296 | every combo has at least three cells |
| Matching.FirstMarked | scripts/tos.py:279-282 | every marked cell's group has a first cell in row-major order, where the scan starts its flood fill |
| TosBoards.TosBoard.Evaluate | scripts/tos.py:235-298 | the result is the marked-cell count, marked-corner count, combo count and "finger cell marked" flag of the board, with 3·combo ≤ stones, boundary ≤ 4, boundary ≤ stones, and combo = 0 iff stones = 0; the board is not changed |
| Planner.MinIndex | scripts/tos.py:311 | the entry taken from the queue, here and at line 339, is a least one by (cost, insertion count) |
| Planner.Expand | scripts/tos.py:344-356 | (and its stage-A twin, lines 316-324) at most four new entries, each one move deeper than the parent, with the board its moves reach and the cost the phase's scoring of that board at the parent's depth; every legal slide of the parent gets an entry, and the counter numbers them consecutively |
| Planner.Drain | scripts/tos.py:308-356 | after the queue is drained, no path of the tree up to the depth cap costs less than the result; if it is below the incoming minimum it is the cost of the returned path, which replays to the returned board; otherwise the moves are empty and the board is the root |
| SearchSpec.CostBelowSentinel | scripts/tos.py:349-353 | every scored board, here and at lines 321-322, costs less than the start value 10e9 of line 304 |
| SearchSpec.RescoreIsNextPhaseCost | scripts/tos.py:349-359 | the rescored best board of phase it costs what it would as a root-level node of phase it + 1 |
| Planner.SearchCell | scripts/tos.py:307-324 | one start cell searched: the running minimum covers it, and its best cell changes only on a strictly lower cost |
| Planner.StartEnd | scripts/tos.py:304-325 | after all cells, the minimum is reached by a path from the best cell, no cell's tree goes below it, and every cell before the best one stays strictly above it |
| Planner.ChooseStart | scripts/tos.py:303-327 | stage A: the chosen start is the first cell in row-major order whose 5-move tree reaches the least cost over all cells, and the board is left with its finger there and its stones unchanged |
| Planner.RunPhase | scripts/tos.py:336-359 | one phase: its moves are empty when no node of the 10-move tree beats the seed cost, and otherwise a cheapest node of that tree; the next seed is the rescored result |
| Planner.PhaseChainReplay | scripts/tos.py:359-369 | the concatenated phase move lists replay from the first board to the last, at most 10 moves per phase |
| Planner.RunPhases | scripts/tos.py:330-369 | stage B: five chained phases, each seeded with the previous phase's best board and rescored cost, the final move list their concatenation |
| Planner.Analyze | scripts/tos.py:301-369 | the returned moves, at most 50, replay from the chosen start cell to the returned board through legal slides, and every phase and the start choice are optimal as above |
| Classifier.Classify | scripts/tos.py:469-505 | a cell's colour gets the first type, in table order, with the least weighted Manhattan distance, and none only when every distance reaches the start value |
| Classifier.PixelClassified | scripts/tos.py:469-505 | every 8-bit colour is nearer than the start value to every type, so it gets a type |
| Classifier.ReferenceIsNearest | scripts/tos.py:469-484 | each reference colour is classified as its own type |
| Compare.FoundPosition.constructor | src/auto_click/cores/compare.py:17-52 | a position holds the given coordinates and names |
| Compare.FoundPosition.Calibrate | src/auto_click/cores/compare.py:54-63 | the coordinates become `Shifted` of the old ones; the names, which are frozen, never change |
| Compare.ShiftedMovesBoth | src/auto_click/cores/compare.py:61-63 | with both coordinates set and non-zero, each moves by exactly its shift |
| Compare.ShiftedKeepsFalsy | src/auto_click/cores/compare.py:61 | with either coordinate None or 0, neither moves |
| Compare.CentreInside | src/auto_click/cores/compare.py:133-140 | the reported pixel lies inside the matched template, in its middle to within half a pixel |
| Compare.Find | src/auto_click/cores/compare.py:99-148 | a score strictly above the confidence gives the template's centre and the image's file stem and configured name; any other score gives a position with all four fields None |
| Compare.Name | src/auto_click/cores/compare.py:145 | the final path component: the longest suffix of the path without '/', so it is the whole path or starts right after a '/' |
| Compare.StemSuffix | src/auto_click/cores/compare.py:145 | the stem and the suffix make up the final component; the suffix is empty, or a dot and a dot-free tail after a non-empty stem; the stem is the name up to its last dot when that dot neither leads nor ends the name, and the whole name otherwise |
| Compare.SuffixAtLastDot | src/auto_click/cores/compare.py:145 | the suffix is non-empty exactly when the name's last dot neither leads nor ends it, and then it runs from that dot to the end |
| DeviceConfig.Setup | src/utils/config.py:64-70 | a model is accepted iff host and serial are both empty or both non-empty; a host without a serial and a serial without a host are refused with their own messages; an accepted model is returned unchanged |
| Devices.NonEmulator | src/utils/get_serial.py:29-32 | a serial is kept iff it is in the list and does not start with "emulator" |
| Devices.NonEmulatorConcat | src/utils/get_serial.py:29-32 | the filter works entry by entry, keeping list order |
| Devices.Matches | src/utils/get_serial.py:47-49 | an app is selected iff it is in the list and its package is the target |
| Devices.MatchesConcat | src/utils/get_serial.py:47-49 | the selection distributes over concatenation, so it keeps list order and every matching entry, repeats included |
| Devices.MatchesOne | src/utils/get_serial.py:47-49 | a single app is selected exactly when its package is the target |
| Devices.SingleMatch | src/utils/get_serial.py:47-51 | one match is every app running the target, and no match means no app runs it |
| GetSerial.Serials | src/utils/get_serial.py:22-33 | the loop yields the non-emulator serials in device-list order |
| GetSerial.RunningApps | src/utils/get_serial.py:35-44 | one AppInfo per serial, in order, with the package that device reports |
| GetSerial.GetCorrectSerial | src/utils/get_serial.py:46-52 | succeeds iff exactly one app runs the target, returning that app, which is in the list with the target package; zero or several matches raise "Multiple or no devices found" |
| GetSerial.EmulatorsIgnored | src/utils/get_serial.py:22-52 | adding emulator entries to the device list does not change the answer |
| Manager.AdbDeviceManager.constructor | src/auto_click/cores/manager.py:13-16 | a manager holds the given settings and running apps |
| Manager.AdbDeviceManager.SetupDevice | src/auto_click/cores/manager.py:18-32 | one AppInfo per non-emulator device, in list order, is appended to the running apps |
| Manager.Select | src/auto_click/cores/manager.py:34-40 | the one app running the target when there is exactly one; "No devices…" iff none runs it; "Multiple devices…" iff several do |
| Manager.AdbDeviceManager.GetCorrectSerial | src/auto_click/cores/manager.py:34-40 | the same selection on the manager's running apps, which it does not change |
| Manager.OtherPackagesKeepChoice | src/auto_click/cores/manager.py:34-40 | apps of other packages appended to the list do not change the selection |

## Left out

- Randomness: `randomInitialized` is not modelled.
- Drawing: `drawBoard`, `visualizePath`, `__repr__` and the ANSI rendering of stones are not modelled.
- Status markers: the `status` markers that `setCurrentPosition` and `evaluate` write are cosmetic and are not modelled. So `Evaluate` changes nothing.
- Logging and output: the `sys.stderr` logging, the evaluations that are only printed, and the script's output file are not modelled.
- File and image I/O:
  - `initFromFile` takes the file's lines as a sequence of strings. Opening the file and splitting it into lines are not modelled.
  - `initFromScreenshot` and the cropping, resizing and averaging in `screenshotToTypes` are not modelled. `Classify` takes the averaged colour of a cell as input.
- TosBoards.TosBoard.SetCurrentPosition: it requires a cell inside the grid, because the planner only passes grid cells. The source raises IndexError for a too-large index and wraps a negative index the Python way. Neither is modelled.
- Empty cells:
  - TosBoards.TosBoard.SetCurrentPosition requires the old and the new finger cells to hold stones.
  - TosBoards.TosBoard.Evaluate requires every cell to hold a stone.
  - In both places the source fails on an empty cell with AttributeError. That failure is not modelled.
- Planner.Drain: it does not pin down which of several equally cheap paths it returns. It says only that the returned path costs the minimum. The source's choice depends on the queue's order of entries with equal cost.
- Planner.Drain: it does not model Python's comparison of move lists and boards when two queue entries tie on both cost and counter. Counters never tie within one search, so this comparison is never reached.
- Float rounding: the scaled integer costs assume the source's float costs compare as the exact values they stand for. Rounding in `len(moveList) * 0.001` is not modelled.
- Combo counts on concrete boards: no lemma evaluates the combo count of a particular board, such as two disjoint same-type runs (2 combos) or a crossing row run and column run (1 combo). `Scan.CountCombos` proves the general characterisation instead: the combo count is the number of same-type 4-connected groups.
- `Path.stem`: `Compare.Name` takes the text after the last '/'. It does not model pathlib's normalisation (trailing slashes, `.` components, Windows separators).
- Matcher: OpenCV's `matchTemplate` and `minMaxLoc`, the image loading and colour conversion, and `record_position` (CSV I/O) are not modelled. `Find` takes the matcher's outputs as inputs.
- Confidence: the confidence and the matcher score are real numbers in the model. NaN is not modelled.
- ADB: `adb.connect`, `adb.device_list()` and `app_current()` are not modelled.
  - The device list is a sequence of serials.
  - The foreground package is a function of the serial.
  - The connection address `host:port` is not built. `GetSerial.AvailableDevices` holds the two MuMu player ports it would use.
- Pydantic: the validator chain of `ADBDeviceManager(...)` is not composed. Running `DeviceConfig.Setup` before `SetupDevice` is left to the caller. Pydantic's field validation is not modelled.
