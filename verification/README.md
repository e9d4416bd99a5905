# The Xiaomi vacuum map pipeline, in Dafny

This project models the two hard parts of the Home Assistant integration `xiaomi_vac` and proves
properties of them.

**Room outlines.** The integration receives a labelled occupancy grid and turns the cells of each
room into directed boundary loops along grid lines, drops the vertices inside straight walls,
sorts outer boundaries from holes by winding, and ships the outer rings as a room's chain together
with a run-length raster that the dashboard card paints. `Grid` and `TraceMask` model the walk over
an unbounded set of cells with an arbitrary choice of start edges. `Winding`, `LoopSides`,
`AreaByCells`, `Nesting` and `SolidFill` say what the loops mean: winding numbers, the two kinds of
loop, area by counted cells, which loop contains which; `Pieces` says how many there are. `Corners`,
`Rings` and `Chains` follow the loops to the rings shipped; `RunLength`, `RoomGrids`, `JsonGrid` and
`DreameFrame` tie the three grid formats, the raster and the card's decoder to them.

**The map cycle.** The coordinator fetches two cloud slots, either of which may be unreadable,
decides which physical map the data belongs to, files the render in a persistent cache, prunes,
and serves a result that shares the cache's own dictionaries; live frames stamp positions into it
at any time, also while a cycle waits for its fetch or for the cache file to be written. `MapStore`
is the cache and its file, `ActiveMap` the order of trust, `MapProtocol` the state machine by value,
with one step from each wait of a cycle to the next. `CycleSteps` and `ServedPages` say what its
steps do by their inputs alone, `CycleHistory`, `MapRuns` and `NewestPosition` what holds over all
its interleaved runs, and `MapCoordinator` has the same steps on heap objects, proved to do to the
shared dictionaries exactly what the state machine says. `LiveRender`, `FastPush`, `Debounce`,
`UploadThrottle`, `OnDemand` and `PostClean` model the pieces of timing around it, each as
interleaved tasks or timers and as an object.

`Options` and `Sums` are helpers.

## Where the code and its own words differ

- The docstring at `custom_components/xiaomi_vac/map_vector.py:76-82` and the comments at 98-100
  promise that touching loops are separated at a pinch, and the one at 172-173 counts one ring for
  each disconnected piece. In the y-down grid the preferred turn (`cross < 0`) leads on to the
  diagonally opposite cell, so a walk passes through the pinch unless that way was walked before
  (`TraceMask.PinchPassesThrough`, `TraceMask.TouchingCellsExample`), and a loop that started there
  closes on its first return. Two cells that touch at a corner can come out as one ring or as two
  (`Pieces.RingCountVaries`). Each piece gets at least one outer ring (`Pieces.OuterOfPiece`), and no
  more than one, whatever the start edges, if
  and only if no pinch has one empty region on both sides (`Pieces.OneRingPerPiece`); a given trace
  has only one for each exactly when no such pinch is shared between two loops
  (`Pieces.OneRingIffPinchesKept`), and starting a loop at one splits it (`Pieces.StartAtPinchSplits`).
  All other theorems here hold for every mask and all choices.
- The comment above `ROOM_MIN` (`custom_components/xiaomi_vac/map_vector.py:47-55`) and the card
  (`custom_components/xiaomi_vac/www/xiaomi-vac-card.js:841`) speak of an even-odd fill, but the
  path element at 856 has no fill rule, so the browser fills by non-zero winding. `Chains.Draws`
  follows the element; holes are filled in, as the docstring at 189-194 wants.
- The comment at `custom_components/xiaomi_vac/map_vector.py:172-173` takes for granted that the
  largest loop is an outer one. That is true, always: `Nesting.LargestIsOuter`.
- The live position is meant to be the freshest known. A frame that comes while the upsert at
  `custom_components/xiaomi_vac/map_coordinator.py:828` saves the cache file is discarded at 836,
  and the older header position is served (`NewestPosition.LostFrameExample`).
  `NewestPosition.NewestUnlessDuringSave` says exactly when a cycle serves the newest position, and
  `NewestPosition.NewestPositionWins` carries that over to all runs.
- A decode whose hash is already cached does not bring its header position into the payload: the
  stamped vector of the cached entry stays. `NewestPosition.EqualHashKeepsOldPosition` says exactly when.
- Full live renders are meant to be 8 s apart. Their recorded stamps are. Their actual starts are
  bound to be only if the earlier frame did not wait for the lock, because the check under the lock
  uses the time noted before waiting (`LiveRender.ApartIffNoWait`, `LiveRender.StaleStampRun`).
- Position-only pushes are meant to be 1 s apart. The stamp is written only after the render
  (327-343), so overlapping ones beat the limit whenever one may start at all
  (`FastPush.TwoAtOnce`); without overlap it holds (`FastPush.ApartOneByOne`), and
  `FastPush.ApartIffCovered` says exactly when the next push keeps its distance.
- A readable blob whose embedded id the map list omits is filed and pruned in the same cycle,
  which then fails; `MapRuns.ServesKnownMap` has this as part of its condition.
- An unreadable cache file is meant to count as empty (`custom_components/xiaomi_vac/map_cache.py:103-109`).
  One of the current version whose `maps` is no object raises at 118, outside the `try`, and every
  cycle fails until the file changes (`MapStore.MapCache.AsyncLoad`, `MapCoordinator.Coordinator.EnsureCache`).

## Model

| member | source | states |
|---|---|---|
| Grid.BoundaryBalanced | custom_components/xiaomi_vac/map_vector.py:84-95 | For every finite mask and every vertex, boundary edges leave the vertex as often as they enter it. |
| TraceMask.CollectEdges | custom_components/xiaomi_vac/map_vector.py:84-95 | The edge set is exactly the sides between a mask cell and an empty one, and the index lists each of them once, under its start. |
| TraceMask.BestTurn | custom_components/xiaomi_vac/map_vector.py:97-110 | The chosen end is one of those offered and none offered has a smaller rank. |
| TraceMask.RankZeroIsLeftTurn | custom_components/xiaomi_vac/map_vector.py:101-109 | Rank 0 is the turn away from the mask, which at a pinch goes on to the diagonal cell, and no rank is smaller. |
| TraceMask.Junction | custom_components/xiaomi_vac/map_vector.py:97-110 | Two successive boundary edges never reverse; their right cells are 8-connected in the mask; their left cells are 4-connected in the empty part unless a rank-0 turn was passed up. |
| TraceMask.NeverStuck | custom_components/xiaomi_vac/map_vector.py:117-122 | Balance everywhere but at the ends of the open walk means a walk not back at its start can go on: the early exit is dead code. |
| TraceMask.PinchPassesThrough | custom_components/xiaomi_vac/map_vector.py:97-110 | One turn at a pinch: the walk turns away from the other cell if and only if that cell's outgoing edge was already walked; otherwise it goes on along the other cell. |
| TraceMask.TouchingCellsExample | custom_components/xiaomi_vac/map_vector.py:97-110 | For the two cells (0,0) and (1,1) a walk down the right side of the first goes on along the second, in whatever order the candidates come. |
| TraceMask.LoopLength | custom_components/xiaomi_vac/map_vector.py:127-130 | A closed loop of boundary edges has an even number of them, at least four, so the length filter drops nothing. |
| TraceMask.StepKeepsCutsJoined | custom_components/xiaomi_vac/map_vector.py:118-126 | Along a walk, every pinch already used on one of its two passes has its two empty cells connected, the walk's own start apart. |
| TraceMask.ClosingJoinsCuts | custom_components/xiaomi_vac/map_vector.py:118-128 | When a walk closes, also at the pinch it started from, all used pinches have their two empty cells connected. |
| TraceMask.WalkLoop | custom_components/xiaomi_vac/map_vector.py:113-128 | From any start edge the walk closes, takes each of its edges out of the remaining ones once, and has one empty region on its left and one mask region on its right, and comes back to its start only at the end. |
| TraceMask.Trace | custom_components/xiaomi_vac/map_vector.py:70-131 | For every mask and every choice of start edges: each boundary edge is in exactly one loop exactly once, each loop has at least four edges and is one-sided as above. |
| Winding.BalanceLaw | custom_components/xiaomi_vac/map_vector.py:84-95 | An antisymmetric edge weight summed over a mask's boundary is its sum over the four sides of every mask cell. |
| Winding.TracingIsExact | custom_components/xiaomi_vac/map_vector.py:70-131 | The loops of a trace wind once, in sum, around each mask cell and zero times around every other cell. |
| Winding.TraceDeterminesMask | custom_components/xiaomi_vac/map_vector.py:70-131 | Two masks with a common trace are equal. |
| Winding.AreaIsConserved | custom_components/xiaomi_vac/map_vector.py:149-157 | The signed areas (twice the polygon area) of a trace's loops add up to twice the number of mask cells. |
| LoopSides.Jump | custom_components/xiaomi_vac/map_vector.py:112-131 | Crossing a unit edge changes a loop's winding number by how often the loop runs along it, less how often against it. |
| LoopSides.LoopsShareNoEdge | custom_components/xiaomi_vac/map_vector.py:112-131 | Different loops of one trace share no edge in either direction. |
| LoopSides.WindOverRegion | custom_components/xiaomi_vac/map_vector.py:112-131 | A loop winds equally around all cells of a connected empty region. |
| LoopSides.TwoKinds | custom_components/xiaomi_vac/map_vector.py:172-174 | On the empty side of a loop its winding number is 0 (outer boundary) or -1 (rim of a hole), nothing else. |
| LoopSides.WindOfKind | custom_components/xiaomi_vac/map_vector.py:172-174 | An outer loop winds 0 or 1 times around every cell, a hole's rim -1 or 0 times: no loop covers a cell twice. |
| AreaByCells.AreaCountsCells | custom_components/xiaomi_vac/map_vector.py:149-157 | The shoelace sum of a closed grid loop is twice the signed number of cells it winds around. |
| Nesting.AreaTellsKind | custom_components/xiaomi_vac/map_vector.py:172-178 | Outer loops have positive signed area, holes negative; no loop has area zero. |
| Nesting.HoleInsideOuter | custom_components/xiaomi_vac/map_vector.py:172-174 | The inside of a hole lies inside the outer loop around its rim. |
| Nesting.LargerOuter | custom_components/xiaomi_vac/map_vector.py:172-174 | Every hole has an outer loop that contains it and has strictly larger absolute area. |
| Nesting.LargestIsOuter | custom_components/xiaomi_vac/map_vector.py:172-174 | For every mask and trace the loop of largest absolute area is an outer one: the premise of the ring selection holds without condition. |
| SolidFill.EnclosedByHole | custom_components/xiaomi_vac/map_vector.py:189-194 | Every empty cell enclosed by the mask lies inside the rim of some hole of the trace. |
| SolidFill.OuterLoopsFillSolid | custom_components/xiaomi_vac/map_vector.py:189-194 | A cell is inside some outer loop if and only if it cannot escape to infinity through 4-connected empty cells. |
| SolidFill.HolesAreEnclosures | custom_components/xiaomi_vac/map_vector.py:189-194 | A trace has a hole if and only if the mask encloses an empty cell. |
| Pieces.OneRingPerPiece | custom_components/xiaomi_vac/map_vector.py:76-82 | In no trace of a mask, whatever the start edges, are there two outer loops around one 8-connected piece (one there always is): if and only if no pinch of the mask has one empty region on both sides. |
| Pieces.OneRingIffPinchesKept | custom_components/xiaomi_vac/map_vector.py:172-174 | A trace has no two outer loops around one 8-connected piece (one there always is) if and only if no pinch with one empty region on both sides is shared between two of its loops. |
| Pieces.StartAtPinchSplits | custom_components/xiaomi_vac/map_vector.py:112-128 | A loop that starts at such a pinch closes there on its first return, and the trace then has two outer loops around one piece. |
| Pieces.OuterOfPiece | custom_components/xiaomi_vac/map_vector.py:172-174 | In every trace of any mask each cell has an outer loop that winds around it once and runs along its own piece. |
| Pieces.RingCountVaries | custom_components/xiaomi_vac/map_vector.py:70-131 | Two cells that touch at a corner have a trace of one loop and a trace of two, though they are one piece. |
| Pieces.OneRimPerRegion | custom_components/xiaomi_vac/map_vector.py:172-174 | In every trace of any mask an enclosed empty region has at most one rim. |
| Pieces.OuterOfRim | custom_components/xiaomi_vac/map_vector.py:172-174 | Around the rim of a hole runs an outer loop of the rim's own piece. |
| Pieces.NotAroundEachOther | custom_components/xiaomi_vac/map_vector.py:112-131 | No two boundary loops each wind around the other. |
| Corners.DropCollinear | custom_components/xiaomi_vac/map_vector.py:134-146 | The loop keeps the vertices where it turns, in order, or all of them when it never turns. |
| Corners.CompressedSum | custom_components/xiaomi_vac/map_vector.py:134-146 | On closed unit-step loops, dropping the straight vertices keeps every weight that adds up along straight lines. |
| Corners.CompressedMeasures | custom_components/xiaomi_vac/map_vector.py:134-146 | In particular it keeps the signed area and the winding number around every cell. |
| Rings.CompressionIsLossless | custom_components/xiaomi_vac/map_vector.py:134-146 | Expanding the sides of the compressed ring into unit steps gives the loop back, rotated to start at a corner. |
| Rings.CompressedIsRectRing | custom_components/xiaomi_vac/map_vector.py:134-146 | The compressed ring has an even number of corners, at least four, and its sides alternate between level and upright, also where it closes. |
| Rings.CompressionIsIdempotent | custom_components/xiaomi_vac/map_vector.py:134-146 | Compressing a compressed ring changes nothing. |
| Chains.SignedArea | custom_components/xiaomi_vac/map_vector.py:149-157 | The loop computes the shoelace sum. |
| Chains.Largest | custom_components/xiaomi_vac/map_vector.py:174 | The loop chosen has maximal absolute area and is the first such. |
| Chains.SelectRings | custom_components/xiaomi_vac/map_vector.py:174-179 | The rings kept are the compressed outer loops, in the order of the trace. |
| Chains.OuterRingsArea | custom_components/xiaomi_vac/map_vector.py:174-179 | The kept rings have at least the area of all loops together, and exactly that if and only if no loop was a hole. |
| Chains.OuterRingsDraw | custom_components/xiaomi_vac/map_vector.py:160-182 | For any trace of a non-empty mask the kept rings are rectilinear, each winds 0 or 1 times around every cell, filled by winding they cover exactly the mask and what it encloses, and their area is at least twice the cell count, with equality if and only if nothing is enclosed. |
| Chains.ChainsFromMasks | custom_components/xiaomi_vac/map_vector.py:160-183 | One chain for each non-empty mask and no other, in ascending order of id, each with rings that draw its mask in the sense above. |
| RunLength.Rle | custom_components/xiaomi_vac/map_vector.py:19-36 | The encoding stands for exactly the grid; counts are positive and at most 0xFFFFFFFF, and neighbouring runs have equal values only where the first is full. |
| RunLength.CanonicalIsUnique | custom_components/xiaomi_vac/map_vector.py:19-36 | Two canonical encodings of one grid are the same list. |
| RunLength.CardDecode | custom_components/xiaomi_vac/www/xiaomi-vac-card.js:778-784 | For any list of numbers: the decoder fills the array with the cells the list stands for, values taken modulo 256 and counts clipped at both ends as by the typed array's fill, and zero where no run reaches. |
| RunLength.TrailingValueIgnored | custom_components/xiaomi_vac/www/xiaomi-vac-card.js:780 | A value without a count at the end of the list stands for no cell. |
| RunLength.RoundTrip | custom_components/xiaomi_vac/www/xiaomi-vac-card.js:778-784 | Decoding the encoding of a grid at the grid's own size returns the grid. |
| RoomGrids.CollectMasks | custom_components/xiaomi_vac/map_vector.py:196-201 | The masks hold exactly the labelled cells of the grid, each under its own label, and none is empty. |
| RoomGrids.MasksPartitionCells | custom_components/xiaomi_vac/map_vector.py:196-201 | Masks of different labels are disjoint and together cover every cell that has a label. |
| RoomGrids.MasksAreUnique | custom_components/xiaomi_vac/map_vector.py:196-201 | A grid and a labelling determine the masks. |
| RoomGrids.LabelOf | custom_components/xiaomi_vac/map_vector.py:61-67 | A cell names room 10..59 by its own value or by that plus 50, and nothing else names a room. |
| RoomGrids.CardLabel | custom_components/xiaomi_vac/www/xiaomi-vac-card.js:792-797 | The card reads the same rooms from the same values. |
| RoomGrids.CellOfRow | custom_components/xiaomi_vac/map_vector.py:197-199 | Of a grid that is its rows one after the other, a cell is found in its row, at its column. |
| RoomGrids.TraceRoomChains | custom_components/xiaomi_vac/map_vector.py:186-202 | A grid shorter than w*h is an index error and nothing else is; otherwise the chains are those of the masks of the 10..59 and 60..109 cells. |
| RoomGrids.SameLabels | custom_components/xiaomi_vac/map_vector.py:61-67 | Relabelling cells so that each keeps its label leaves the masks as they are. |
| RoomGrids.ExtractGrid | custom_components/xiaomi_vac/map_vector.py:205-245 | A short grid is an index error and nothing else is; the list shipped stands for the grid; with a labelled cell the chains are those of the masks the card paints from that list, and without one they are the firmware's own, those with points, in order. |
| RoomGrids.OutlinesAgree | custom_components/xiaomi_vac/map_vector.py:220-237 | Decoding the shipped run-length list as the card does and labelling its cells as the card does gives exactly the masks the traced chains draw. |
| RoomGrids.PolygonPerRoom | custom_components/xiaomi_vac/map_vector.py:221-225 | The firmware's polygons are sent in order, one chain of one ring for each room that has points, under its id. |
| JsonGrid.JsonRoomMap | custom_components/xiaomi_vac/map_vector.py:373-391 | The table holds the last room id of each well-formed entry, or is empty when it is not a list or two grid ids share a room. |
| JsonGrid.TableByEntries | custom_components/xiaomi_vac/map_vector.py:373-391 | A grid id is in the table exactly when some entry is the last one for it and no two grid ids are last given one room; it then has that entry's room. |
| JsonGrid.LabelByEntries | custom_components/xiaomi_vac/map_vector.py:335-339 | A cell value 3..63 names the room that its entry tells, or itself for want of one; no other value names a room. |
| JsonGrid.ValueCount | custom_components/xiaomi_vac/map_vector.py:387 | Comparing the number of distinct values with the number of keys tells exactly whether the table is one-to-one. |
| JsonGrid.Normalise | custom_components/xiaomi_vac/map_vector.py:359-367 | Cell by cell: empty, floor and new area stay, room cells become their room id, all others the wall value 255. |
| JsonGrid.Raster | custom_components/xiaomi_vac/map_vector.py:359-369 | Decoded and labelled by the card, the relabelled raster has exactly the traced masks. |
| JsonGrid.ExtractJsonGrid | custom_components/xiaomi_vac/map_vector.py:282-370 | The result is empty exactly when the payload is unreadable, has no room cell, or has bad geometry; otherwise its bounds start at the origin and span the map, its chains draw the masks of the cells that name a room by their entries, and a raster is shipped if and only if all labels are in 10..59, in which case it holds every cell relabelled and agrees with the chains. |
| JsonGrid.NoMasks | custom_components/xiaomi_vac/map_vector.py:340-342 | No mask is collected exactly when no cell has a value in 3..63. |
| DreameFrame.I16RoundTrip | custom_components/xiaomi_vac/map.py:674-675 | A number in -32768..32767 comes back from its two little-endian bytes. |
| DreameFrame.LittleEndian | custom_components/xiaomi_vac/map_vector.py:424-425 | Two bytes are read low byte first, as a signed 16-bit number. |
| DreameFrame.WithVacuumPosition | custom_components/xiaomi_vac/map.py:665-676 | The patch fails exactly when a number does not fit 16 bits; otherwise bytes 5..10 decode to the position and all other bytes are unchanged (on shorter frames the slice assignments extend the copy, as in the source). |
| DreameFrame.RoundDivIsNearest | custom_components/xiaomi_vac/map_vector.py:433-434 | The rounded quotient is a nearest integer, and the even one when two are equally near. |
| DreameFrame.LookAtFrame | custom_components/xiaomi_vac/map_vector.py:398-434 | Of a frame laid out by the format the extractor reads exactly its pixel size, width, height and cells, and the integers nearest to left and top in pixels; whatever follows the cells is ignored. |
| DreameFrame.LookFails | custom_components/xiaomi_vac/map_vector.py:421-432 | It reads nothing exactly where pixel size, width or height is not positive or there are fewer cells than these promise. |
| DreameFrame.EveryFrame | custom_components/xiaomi_vac/map_vector.py:421-422 | Every frame of 27 bytes or more is laid out so, and a shorter one is not read. |
| DreameFrame.ExtractDreameChains | custom_components/xiaomi_vac/map_vector.py:394-458 | A result exists exactly for a frame that can be read and has a cell of a valid segment; its bounds are left, top, width and height in metres, and its chains draw for each valid segment exactly the cells whose value without the two low bits it is. |
| DreameFrame.PatchKeepsView | custom_components/xiaomi_vac/map_coordinator.py:298-302 | On every frame of at least 27 bytes the extractor sees the same header and grid before and after the position is patched. |
| DreameFrame.PatchesCompose | custom_components/xiaomi_vac/map.py:665-676 | The later of two patches wins, and patching the old position back restores the frame. |
| MapStore.LoadOfRecords | custom_components/xiaomi_vac/map_cache.py:116-121 | Loading any mix of records of a keyed map and malformed ones yields exactly the entries whose record is there. |
| MapStore.LastRecordWins | custom_components/xiaomi_vac/map_cache.py:66-79 | A list of records yields for each map the entry of the last record that describes one, field by field, and nothing else. |
| MapStore.LoadByVersion | custom_components/xiaomi_vac/map_cache.py:111-125 | Only a file of version 5 counts and any other is empty; reading raises exactly on one whose maps are no object. |
| MapStore.SavedFileDescribes | custom_components/xiaomi_vac/map_cache.py:55-63 | A saved file is of version 5 and describes each entry, field by field, and no other. |
| MapStore.LoadAfterSave | custom_components/xiaomi_vac/map_cache.py:103-125 | Loading what was saved restores the same entries. |
| MapStore.CacheIsLastWriteMap | custom_components/xiaomi_vac/map_cache.py:134-177 | After any sequence of loads, upserts and prunes each key is its entry's id and its hash is the one upserted for it last. |
| MapStore.MapCache.constructor | custom_components/xiaomi_vac/map_cache.py:92-97 | A new cache is empty and not loaded, and does not touch its file. |
| MapStore.MapCache.AsyncLoad | custom_components/xiaomi_vac/map_cache.py:103-125 | The cache holds what its file holds, or nothing if that is unreadable or of another version; it raises exactly on a file of this version whose maps are no object, and is then empty and not loaded. |
| MapStore.MapCache.AsyncUpsert | custom_components/xiaomi_vac/map_cache.py:134-161 | The entry is replaced, its dictionaries adopted and the file rewritten exactly when the hash is new. |
| MapStore.MapCache.AsyncPrune | custom_components/xiaomi_vac/map_cache.py:163-177 | Exactly the kept ids remain, with the same objects, and the file is rewritten exactly when one was dropped. |
| MapStore.MapCache.AsyncSave | custom_components/xiaomi_vac/map_cache.py:179-183 | The file holds one record for each entry and no other. |
| ActiveMap.BlobIdIsFirst | custom_components/xiaomi_vac/map_diagnostics.py:78-80 | The blob id is that of the first decode that carries one, and none exactly when none does. |
| ActiveMap.OrderOfTrust | custom_components/xiaomi_vac/map_diagnostics.py:78-95 | By index and input alone: the id of the first blob that carries one; else that of the first entry flagged as current, if it converts; else with a map list the signalled id; else without one, and with none read, map 0; else none. Each with the step that settled it. |
| ActiveMap.MqttOnlyWithMapList | custom_components/xiaomi_vac/map_diagnostics.py:81-95 | The signalled id never counts on a profile without a map list, a map-list profile is never taken for a single-map one, and nothing is resolved exactly under the stated condition. |
| MapProtocol.NextReady | custom_components/xiaomi_vac/map_coordinator.py:737-889 | Every event, in every phase of a cycle, keeps a linked payload's map cached and the phase consistent, so that the state machine is total over runs. |
| CycleSteps.TwoSlots | custom_components/xiaomi_vac/map_coordinator.py:653-681 | Both slots are tried in order; the first that is not reached or crashes decides; the session counts as expired exactly when both had no url; otherwise each slot yields its render exactly when it was rendered. |
| CycleSteps.FetchEnds | custom_components/xiaomi_vac/map_coordinator.py:778-799 | The fetch yields exactly the renders of the first tries, or of the second ones after a renewal; otherwise the outcome is an authentication failure exactly when both slots had no url and renewal was refused, and the fetcher goes exactly on a crash. |
| CycleSteps.FetchStep | custom_components/xiaomi_vac/map_coordinator.py:778-799 | The step that fetches files something exactly when renders were fetched, and otherwise ends the cycle so and changes nothing but the fetcher. |
| CycleSteps.NothingToServeYet | custom_components/xiaomi_vac/map_coordinator.py:786-799 | A second fetch without a url, right after a renewal, ends in an update failure with everything kept. |
| CycleSteps.AuthOnlyIfRefused | custom_components/xiaomi_vac/map_coordinator.py:737-889 | A whole cycle, whatever comes in between, ends in an authentication failure if and only if both slots had no url and renewal was refused. |
| CycleSteps.BeginStep | custom_components/xiaomi_vac/map_coordinator.py:754-776 | A cycle begins exactly with a fetcher there or built and a cache read or readable, which it reads the first time; otherwise it fails without a fetcher. |
| CycleSteps.ActiveIsTrusted | custom_components/xiaomi_vac/map_coordinator.py:801-806 | Slot 0's embedded id, else slot 1's, else the list's current id, else the signalled id where there is a map list, else map 0 where no list was read. |
| CycleSteps.FilingStep | custom_components/xiaomi_vac/map_coordinator.py:812-836 | The filed render is slot 0's, or slot 1's unless its map was filed from slot 0 during this clean; a new hash makes exactly that entry anew, field by field and with the cycle's time, marks the map if the render is slot 0's and the vacuum is not docked or idle, and waits for the file. |
| CycleSteps.RefilingStep | custom_components/xiaomi_vac/map_coordinator.py:825-836 | A render whose hash is cached writes no file and leaves every entry as it was up to its stamped position; the pending position is discarded all the same. |
| ServedPages.EndsServingCached | custom_components/xiaomi_vac/map_coordinator.py:700-735 | Whichever step ends a cycle well, the payload is a cached map as cached at that moment, image, attributes, vector and hash, with the pending position in it and one page for each cached map: tagged with id, name by the last entry of the list, and active flag, all fields of the active map and all but the five live ones of any other. |
| ServedPages.ServeStep | custom_components/xiaomi_vac/map_coordinator.py:700-735 | A cycle that comes to serve succeeds exactly if its map is cached, serves it from the cache it found, and otherwise loses the fetcher. |
| ServedPages.StampStep | custom_components/xiaomi_vac/map_coordinator.py:350-373 | A stamp writes the pending position, in metres, into the vector and the active page and nowhere else, and does nothing without a fetcher, a position or a payload. |
| ServedPages.PushStep | custom_components/xiaomi_vac/map_coordinator.py:375-397 | A push replaces the payload's image and position attribute, and in the cache only the dictionaries of the entry it shares, and stamps the pending position. |
| MapRuns.PayloadAlwaysOk | custom_components/xiaomi_vac/map_coordinator.py:700-735 | In every reachable state, also while a cycle waits for its fetch or for the cache file, the cache is keyed by id; the served payload has exactly one active page and its id is the payload's; no inactive page has a live-only key; the active page and the single vector have the same `vacuum`; a linked payload equals its cache entry. |
| MapRuns.PushesTouchOnlyPosition | custom_components/xiaomi_vac/map_coordinator.py:327-397 | Any number of frames, pushes and signals between the parts of cycles changes in the cache only `vacuum` and `vacuum_position` of the one entry the payload shares: image, hash, time and all other keys stay. |
| MapRuns.SlotZeroSticks | custom_components/xiaomi_vac/map_coordinator.py:816-836 | While a map is marked as filed from slot 0, no run without a docked or idle cycle and without a new slot-0 render of it replaces it, however the parts of cycles and live events mix. |
| MapRuns.SlotZeroIsCached | custom_components/xiaomi_vac/map_coordinator.py:816-836 | In every reachable state a map marked as served from slot 0 is not cached or cached with the hash of the last slot-0 render filed for it. |
| CycleHistory.MarkedIffFiledInClean | custom_components/xiaomi_vac/map_coordinator.py:816-824 | After any run a map is marked if and only if some filing step filed a slot-0 render under it and no filing step from that one on had the status absent, docked or idle. |
| CycleHistory.SlotZeroRenderStays | custom_components/xiaomi_vac/map_coordinator.py:812-836 | After a cycle that files a slot-0 render of k during a clean, for the rest of that clean and until slot 0 renders k again, the cache has k with that render's hash, unless a map list drops it. |
| CycleHistory.WordsAreTheLast | custom_components/xiaomi_vac/map_coordinator.py:269-274 | After any run the signalled id is the last that converted, the known map list the last non-empty one that a cycle which began read, and the time of the last render that of the last filing. |
| MapRuns.KnownStep | custom_components/xiaomi_vac/map_coordinator.py:825-850 | A map is cached after an event exactly when the event does not drop it and it was cached or is filed now. |
| MapRuns.KnownMapStays | custom_components/xiaomi_vac/map_coordinator.py:838-850 | A cached map stays cached through any run of failed cycles, frames and other maps until a list that omits it is read, or on a single-map profile another id is active. |
| MapRuns.ServesKnownMap | custom_components/xiaomi_vac/map_coordinator.py:798-873 | A cycle that resolves to k, whatever happens while it waits, succeeds if and only if all listed ids convert, k was cached or is filed now, and the list does not omit k; then it serves k. Unreadable slots alone never prevent it. |
| MapRuns.SingleMapKeepsOne | custom_components/xiaomi_vac/map_coordinator.py:844-850 | On a profile without a map list at most the active map is cached once a cycle that reads no list is over, whatever happened while it waited. |
| NewestPosition.NewestUnlessDuringSave | custom_components/xiaomi_vac/map_coordinator.py:825-852 | A cycle that files a new hash and serves shows the newest position if and only if no frame came while the upsert was saved, or one came while the pruning was saved, or the last of the former is where the header has it. |
| NewestPosition.LostFrameExample | custom_components/xiaomi_vac/map_coordinator.py:828-836 | A run from a fresh start in which the only frame comes during the save and the payload then shows the header's position. |
| NewestPosition.NewsStaysUpToDate | custom_components/xiaomi_vac/map_coordinator.py:303 | Along every run in which each filed render has a new hash, the code works with the newest news, except after a frame that came during an upsert's save: then with the header filed last. |
| NewestPosition.NewestPositionWins | custom_components/xiaomi_vac/map_coordinator.py:350-373 | On such a run a payload just refreshed shows, in its vector and on its active page, the later of the last frame's position (x and y in metres, the angle as it came) and the last filed header position of its map; after a frame lost to a save, that map's payload shows the frame's position if and only if the header has the same. |
| NewestPosition.EqualHashKeepsOldPosition | custom_components/xiaomi_vac/map_coordinator.py:825-852 | A cycle that files a render and, without a frame in between, serves it shows that render's header position if and only if its hash was new or the cached vector already had that position. |
| NewestPosition.EqualHashExample | custom_components/xiaomi_vac/map_cache.py:149-151 | A run from a fresh start in which the position shown is not the decoded one: the same render comes twice, stamped over in between. |
| MapCoordinator.MapResult.StampPayload | custom_components/xiaomi_vac/map_coordinator.py:370-373 | The pose is written into the vector and into exactly the active pages. |
| MapCoordinator.StampResult | custom_components/xiaomi_vac/map_coordinator.py:350-373 | Stamping a payload changes the cache entry that shares its vector and no other. |
| MapCoordinator.PutFrame | custom_components/xiaomi_vac/map_coordinator.py:344-345 | Image and position attribute are replaced; the cache entry that shares the attributes gets the new attribute but not the image. |
| MapCoordinator.BuildPages | custom_components/xiaomi_vac/map_coordinator.py:723-731 | One fresh page for each cached map, with the values the state machine gives. |
| MapCoordinator.BuildResult | custom_components/xiaomi_vac/map_coordinator.py:713-731 | The result holds the active entry's own dictionaries and shares nothing else with the cache. |
| MapCoordinator.FileRender | custom_components/xiaomi_vac/map_coordinator.py:825-836 | The cache becomes the upserted one; a payload of that id loses its link exactly when the hash was new, which is when the file is written. |
| MapCoordinator.DropUnlisted | custom_components/xiaomi_vac/map_coordinator.py:838-850 | The cache becomes the pruned one; a payload of a dropped map loses its link and keeps its contents; the file is written exactly when a map was dropped. |
| MapCoordinator.Coordinator.constructor | custom_components/xiaomi_vac/map_coordinator.py:98-166 | A new coordinator has no fetcher, nothing served, and a cache whose file it has not read. |
| MapCoordinator.Coordinator.StampLiveVacuum | custom_components/xiaomi_vac/map_coordinator.py:350-373 | On the heap: with a fetcher, a payload and a pending position, the vector and every active page get a pose with x and y times the units and the angle of that position, and the other pages nothing; otherwise nothing changes; and all is the state machine's stamp. |
| MapCoordinator.Coordinator.PushLive | custom_components/xiaomi_vac/map_coordinator.py:375-397 | On the heap: exactly the state machine's push, cache entry included. |
| MapCoordinator.Coordinator.OnFrame | custom_components/xiaomi_vac/map_coordinator.py:298-303 | Only the pending position changes. |
| MapCoordinator.Coordinator.OnSignal | custom_components/xiaomi_vac/map_coordinator.py:264-283 | Only the signalled map id changes, and only when the value converts; a refresh with an upload is asked for either way. |
| MapCoordinator.Coordinator.ServeMap | custom_components/xiaomi_vac/map_coordinator.py:700-735 | The cached map is served and stamped, or nothing changes when it is not cached. |
| MapCoordinator.Coordinator.RequestBeforeCycle | custom_components/xiaomi_vac/map_coordinator.py:737-753 | While active an upload of the map known to be current is asked for under the throttle, and the cycle takes the record of the last request with it exactly once. |
| MapCoordinator.Coordinator.EnsureCache | custom_components/xiaomi_vac/map_coordinator.py:646-651 | The cache file is read until that once succeeds, and never after. |
| MapCoordinator.Coordinator.StartCycle | custom_components/xiaomi_vac/map_coordinator.py:754-776 | On the heap, up to the fetch: fetcher, cache and map list as the state machine has them, with each way to fail. |
| MapCoordinator.Coordinator.SettleCycle | custom_components/xiaomi_vac/map_coordinator.py:836-880 | On the heap, after filing: the position is discarded if a render was filed, unlisted maps are dropped, and the map is served unless the file is to be written first. |
| MapCoordinator.Coordinator.ResumeCycle | custom_components/xiaomi_vac/map_coordinator.py:778-889 | On the heap, from each await to the next: exactly the state machine's step, in every phase. |
| MapCoordinator.Coordinator.AsyncUpdateData | custom_components/xiaomi_vac/map_coordinator.py:737-889 | On the heap, one whole cycle with nothing in between is the state machine's cycle, with renewal and every failure path. |
| LiveRender.StepKeepsInv | custom_components/xiaomi_vac/map_coordinator.py:304-317 | Every step keeps: the lock holder alone is rendering, and successive recorded stamps are 8 s apart. |
| LiveRender.RendersNeverOverlap | custom_components/xiaomi_vac/map_coordinator.py:304-317 | For every interleaving of frames and every order of lock grants, no two frames are under the lock at once and any two recorded start stamps are at least 8 s apart. |
| LiveRender.StartsApartUnlessWaited | custom_components/xiaomi_vac/map_coordinator.py:306-317 | The renders themselves start at least 8 s apart less the time the earlier frame waited for the lock. |
| LiveRender.ApartIffNoWait | custom_components/xiaomi_vac/map_coordinator.py:304-317 | After a full render has started, every possible continuation keeps the next one at least 8 s away if and only if its frame did not wait for the lock. |
| LiveRender.StaleStampRun | custom_components/xiaomi_vac/map_coordinator.py:313-316 | A run in which two full renders start one second apart, because the check under the lock uses the time noted before waiting. |
| LiveRender.LiveRenderer.Begin | custom_components/xiaomi_vac/map_coordinator.py:306-311 | A frame inside the window is done at once, any other waits for the lock. |
| LiveRender.LiveRenderer.Enter | custom_components/xiaomi_vac/map_coordinator.py:312-317 | Under the lock a full render starts, and is stamped, exactly when the window has passed. |
| FastPush.ApartIffCovered | custom_components/xiaomi_vac/map_coordinator.py:327-343 | The next position-only push is sure to start a second after all earlier ones if and only if the stamp is not older than any of them that is younger than a second; one still being rendered, or an older one that ended last, breaks it. |
| FastPush.StampIsLastSent | custom_components/xiaomi_vac/map_coordinator.py:337-343 | After any run the stamp is the starting time of the push that ended well last; failed ones leave none. |
| FastPush.ApartOneByOne | custom_components/xiaomi_vac/map_coordinator.py:327-343 | On every run in which no two such renders overlap, any two pushes start at least a second apart, and the later is sent at least a second after the earlier started. |
| FastPush.TwoAtOnce | custom_components/xiaomi_vac/map_coordinator.py:327-343 | Whenever a push may start, two may start at the same moment and both be sent. |
| FastPush.FastPusher.Begin | custom_components/xiaomi_vac/map_coordinator.py:327-336 | A push starts exactly when there is something to show and the stamp is a second old. |
| FastPush.FastPusher.Finish | custom_components/xiaomi_vac/map_coordinator.py:337-347 | A rendered push writes the time it started as its stamp, even over a later one; a failed one leaves no trace. |
| Debounce.StepAccountsForMessages | custom_components/xiaomi_vac/map_coordinator.py:477-496 | A message adds itself, a firing adds nothing, to the messages accounted for by firings and pending ones. |
| Debounce.DebounceLosesNothing | custom_components/xiaomi_vac/map_coordinator.py:477-496 | Along every run the messages accounted for are, in order, exactly those that came. |
| Debounce.EveryMessageIsAnswered | custom_components/xiaomi_vac/map_coordinator.py:477-496 | From the start, each message is answered by exactly one firing or still pending; each firing comes at least 2 s after the last message of its burst and asks for an upload exactly when one of them did; at most one task is inside its delay, and one is exactly while a message waits. |
| Debounce.PendingWillFire | custom_components/xiaomi_vac/map_coordinator.py:486-496 | Two seconds after the last message the pending task can fire, and then nothing is left waiting. |
| Debounce.Debouncer.ScheduleRefresh | custom_components/xiaomi_vac/map_coordinator.py:477-484 | The pending task is cancelled, a fresh one takes its place, and a wanted upload stays wanted. |
| Debounce.Debouncer.Resume | custom_components/xiaomi_vac/map_coordinator.py:486-496 | A cancelled task does nothing; one that slept its delay out clears the flag and refreshes with what the burst wanted. |
| UploadThrottle.KnownActiveMapId | custom_components/xiaomi_vac/map_coordinator.py:498-509 | The target is the signalled id, else that of the first current entry that has an id, none if that does not convert, else the map shown. |
| UploadThrottle.ThrottledByRequest | custom_components/xiaomi_vac/map_coordinator.py:520-523 | The stamp answers for all earlier requests: a wish is throttled exactly when one for its map went out within 30 s. |
| UploadThrottle.UploadsAreSpaced | custom_components/xiaomi_vac/map_coordinator.py:511-543 | On every run two requests for one map are at least 30 s apart, and the next wish goes out exactly when it has a target for which none went out within 30 s. |
| UploadThrottle.UploadRequester.RequestMapUpload | custom_components/xiaomi_vac/map_coordinator.py:511-543 | The stamp is set before sending whatever the reply; the cloud's acceptance is recorded as such, and else the vacuum's own reply as a local request; a throttled or targetless wish leaves no trace and is false. |
| OnDemand.ViewersAreThrottled | custom_components/xiaomi_vac/map_coordinator.py:226-262 | On every run at most one kicked refresh is in flight, two kicks are at least 30 s apart, none happens while active, and one made with a map on show means the switch was on and the last fetch at least 30 s old. |
| OnDemand.KicksExactly | custom_components/xiaomi_vac/map_coordinator.py:226-262 | On every run a look kicks off a refresh if and only if the vacuum is idle, no map is on show or the switch is on and the last fetch 30 s old, no kicked refresh is in flight, and the last kick is 30 s old. |
| OnDemand.NeededRefreshComes | custom_components/xiaomi_vac/map_coordinator.py:242-262 | A refresh that is needed is withheld exactly when an earlier kick is in flight or was made within 30 s. |
| OnDemand.Refresher.EnsureFresh | custom_components/xiaomi_vac/map_coordinator.py:226-262 | The object's step is the state machine's. |
| PostClean.OneTimerPerClean | custom_components/xiaomi_vac/map_coordinator.py:195-219 | On every run the timers are one for one, in order and in time, those of the active-to-idle edges; at most the last is armed, none while the last seen activity was active, and none elapses sooner than 60 s after its edge. |
| PostClean.ArmedUnlessDisturbed | custom_components/xiaomi_vac/map_coordinator.py:202-214 | An armed timer is lost only to renewed activity or unloading: until then it is armed or has elapsed. |
| PostClean.IntervalFollows | custom_components/xiaomi_vac/map_coordinator.py:187-200 | On every run the poll interval is the fast one if the activity last seen was active, and otherwise the idle interval last set. |
| PostClean.PostCleanFetch.OnControlUpdate | custom_components/xiaomi_vac/map_coordinator.py:195-209 | The interval is tuned and the pending poll rescheduled exactly when it changed; activity disarms, the edge to idle re-arms, and an idle update arms nothing. |
| PostClean.PostCleanFetch.SetIdleSafetyNetSeconds | custom_components/xiaomi_vac/map_coordinator.py:221-224 | The idle interval is replaced, and then all is as on an update. |

## Left out

- MapCoordinator.Coordinator.StartCycle: building the fetcher, reading the cache file and reading the map list are one step, since nothing that may come in between reads or writes what they set.
- MapCoordinator.Coordinator.ResumeCycle: one cycle runs at a time; a refresh called directly while another is under way is not modelled.
- MapCoordinator.Coordinator.OnFrame: whether a frame is heard and decodes is not modelled, so positions may come in at any time, and the theorems hold for more runs than there are.
- MapCoordinator.Coordinator.PushLive: the part of a push after its image is rendered, which runs without a wait.
- PostClean.OneTimerPerClean: a timer and the coroutine it starts are one step.
- MapStore.MapCache.AsyncSave: the file is a set of records by value, so stamping a cached dictionary after the save does not reach the file until the next write, as in the source, and base64 is taken to be an injective pair.
- MapRuns.PayloadAlwaysOk: dictionaries are maps from string keys, so the order of the pages and of JSON keys is not modelled.
- DreameFrame.ExtractDreameChains: bounds and resolution are real numbers, where the source rounds binary fractions.
- JsonGrid.ExtractJsonGrid: bounds and resolution are real numbers, and JSON parsing, base64 and zlib are an option of cells handed in.
- Map ids are wrapped in a datatype, so conversions of an id from text happen before the model; an id that does not convert is a case of its own.
- Decryption, protobuf, image rendering and the third-party parsers: their results are inputs of a cycle.
- HTTP, login, MQTT transport and reconnection: each is an outcome handed to the cycle.
- The refresh that moves the vacuum to provoke an upload (399-475 of map_coordinator.py): waits and retries over the steps modelled here.
- Entities, config flow, device profiles, room and zone commands, diagnostics records: plumbing and tables.
- The rest of the card (carousel, zoom, SVG, styling): user interface.
