# batchflow research engine and image windows, in Dafny

This project models two parts of batchflow.

The first is the research engine in `batchflow/research/research.py`:

- `DynamicQueue` draws tasks from a domain of configurations. Each task is a group of `n_branches` configurations. `Scheduling.Batches` states which groups a call draws, and the class methods are proved to enqueue exactly those groups, numbered from `withdrawn_tasks`.
- `Research.get_devices` spreads device ids over a grid of workers by branches. So does the start of `Research.run`, which fixes the worker and branch fan-out. The padded device list is described position by position. Two results are proved about it: the list is partitioned when the slot count divides its length, and devices are shared when it does not.
- `ResearchMonitor` is a queue of signal dictionaries. A listener turns the signals into rows of `monitor.csv` until it meets the `None` sentinel.
- `ResearchResults` keeps results and configs by experiment id. Two of its operations are modelled: filtering ids by partial configs, aliases or a domain, and choosing which checkpoint files to read back.

The second is the image geometry and pixel edits of `ImagesBatch` in `dataset/batch_image.py`:

- Geometry: `_calc_origin`, `_crop_`, `_put_on_background_` and `_preserve_shape`. These work on `array2` images. Numpy slicing is modelled exactly: a negative bound counts from the end, and both bounds are clamped. So is assignment broadcasting, which raises `ValueError` when it cannot broadcast.
- Pixel edits: `_flip_all`, `_invert_` and `_threshold_`. These change `array3` batches and images in place.

Modules:

- `Wrappers`: `Option`, `Result`, `Outcome`, and the Python exceptions the modelled code raises.
- `Configs`: a configuration with its full and alias forms.
- `Scheduling`: the domain and `DynamicQueue`.
- `Research`: `get_devices` and the normalisation in `run`.
- `Monitor`: `ResearchMonitor`.
- `Results`: `ResearchResults`.
- `ImageGeometry` and `ImageEdits`.

The following are parameters of the model:

- The current time. It is passed to `send` as a string.
- The domain's `update` callback. It is a function from the domain and the finished count to an optional new domain.
- The files that already exist. `monitor.csv` is `Option<rows>`. The checkpoint directory is a map from file number to that file's contents.

Where the documented design and the code differ, the model follows the code:

- Devices are shared, not partitioned, when the number of devices is not a multiple of the number of slots (`Research.FlatShares`). Such a count raises no error. Only a zero slot count raises, with `ZeroDivisionError`.
- `join` adds 1 to `finished_tasks` for each drain of the queue, however many tasks were drained. So `finished_tasks` can exceed `withdrawn_tasks` (`Scheduling.JoinCountsWaves`).
- In domain mode, `filter_ids_by_configs` ignores the extra keyword filters (`Results.DomainIgnoresKwargs`). It concatenates the matches of each domain configuration without removing duplicates (`Results.DomainDuplicates`). It does not form a union.
- `_put_on_background_` can raise `ValueError` for an origin below or right of the background. The image is first cropped to `background - origin`, which there is negative, and numpy keeps all but the last `|background - origin|` rows or columns. When 2 or more of them are kept, they cannot be broadcast into the empty window, and the assignment raises (`ImageGeometry.PasteBelowFails`). An empty window accepts only an extent of 0 or 1.

## Model

| member | source | states |
|---|---|---|
| Scheduling.Batches | batchflow/research/research.py:303-315 | at most `n_tasks` groups are drawn; none are drawn only when `n_tasks` is 0 or the domain is already exhausted |
| Scheduling.BatchesInOrder | batchflow/research/research.py:306-315 | the drawn configurations are a prefix of the remaining domain, in domain order |
| Scheduling.BatchesBound | batchflow/research/research.py:306-315 | at most `n_tasks * n_branches` configurations are drawn |
| Scheduling.BatchesShape | batchflow/research/research.py:306-315 | every group but the last has exactly `n_branches` configurations; the last is non-empty and at most that size; a short last group, or fewer groups than asked, means the domain is exhausted |
| Scheduling.BatchesSplit | batchflow/research/research.py:303-315 | for any `m` and `n`, drawing `m + n` tasks equals drawing `m` tasks and then `n` more from what the first draw left, also when the domain runs out during the first draw |
| Scheduling.DrawAllCount | batchflow/research/research.py:303-318 | when `n_tasks * n_branches` covers the remaining domain, the task count is the remaining size divided by `n_branches`, rounded up |
| Scheduling.Enqueued | batchflow/research/research.py:316-317 | the i-th queued item is the task with id `withdrawn_tasks + i` holding the i-th group |
| Scheduling.Sentinels | batchflow/research/research.py:322-325 | `n_workers` items, each the `None` stop signal |
| Scheduling.DynamicQueue.constructor | batchflow/research/research.py:281-288 | empty queue, both counters 0, the given domain and branch count |
| Scheduling.DynamicQueue.Total | batchflow/research/research.py:290-295 | `ZeroDivisionError` exactly when there are no branches; otherwise total times `n_branches` is the domain size |
| Scheduling.DynamicQueue.UpdateDomain | batchflow/research/research.py:297-301 | the domain is replaced by the update's result when there is one, and kept otherwise |
| Scheduling.DynamicQueue.Put | batchflow/research/research.py:334-336 | the item is appended to the queue |
| Scheduling.DynamicQueue.Get | batchflow/research/research.py:334-336 | the oldest item is removed and returned; an empty queue yields nothing and stays empty |
| Scheduling.DynamicQueue.Empty | batchflow/research/research.py:334-336 | true exactly when the queue holds no item |
| Scheduling.DynamicQueue.DrawGroup | batchflow/research/research.py:308-310 | the group is the next `n_branches` configurations, or all that remain; the cursor advances past it |
| Scheduling.DynamicQueue.DrawNext | batchflow/research/research.py:306-315 | one loop step: when the draw stops, the groups drawn are those `Batches` specifies; otherwise they and the batches still to draw make up that specification |
| Scheduling.DynamicQueue.DrawBatches | batchflow/research/research.py:305-315 | the groups drawn are exactly `Batches` of the remaining domain, and the cursor advances by their total size |
| Scheduling.DynamicQueue.NextTasks | batchflow/research/research.py:303-320 | returns the number of groups drawn; each is queued as a task numbered from `withdrawn_tasks`, which grows by that number; the domain advances past them |
| Scheduling.DynamicQueue.StopWorkers | batchflow/research/research.py:322-325 | one `None` is appended per worker |
| Scheduling.DynamicQueue.Join | batchflow/research/research.py:327-329 | the queue is drained and `finished_tasks` grows by exactly 1 |
| Scheduling.DynamicQueue.InProgress | batchflow/research/research.py:331-332 | true exactly when `withdrawn_tasks` and `finished_tasks` differ; `Scheduling.JoinCountsWaves` shows it after joins |
| Research.IntToStringRoundTrip | batchflow/research/research.py:163 | an integer device becomes a string that reads back as the same integer |
| Research.RepeatEachAt | batchflow/research/research.py:142-144 | in the repeated list, position `q*m + t` holds device `m` |
| Research.PadLength | batchflow/research/research.py:141-147 | the padded list has the slot count times the per-slot count entries, where the per-slot count is the length divided by the slot count, rounded up |
| Research.PadExact | batchflow/research/research.py:146-147 | a list whose length is a multiple of the slot count is left unchanged |
| Research.PadHolds | batchflow/research/research.py:141-147 | every supplied device occurs in the padded list |
| Research.PadRepeatsFirst | batchflow/research/research.py:141-147 | when the slot count does not divide the length, the first device starts the padded list and occurs again past the first slot's block |
| Research.SpreadIsIdentity | batchflow/research/research.py:148-150 | after padding, the repeat step of lines 148-150 changes nothing |
| Research.GridAt | batchflow/research/research.py:151-160 | slot (i, j), position k of the grid holds list entry `per*(n_branches*i + j) + k` |
| Research.FlatLayoutIsGrid | batchflow/research/research.py:140-160 | the flat path is the padded list cut into the worker-major grid |
| Research.Pad | batchflow/research/research.py:141-147 | the padded device list; its length, exactness and contents are stated by `PadLength`, `PadExact`, `PadHolds` and `PadRepeatsFirst` |
| Research.Spread | batchflow/research/research.py:148-150 | the repeat step after padding; `SpreadIsIdentity` shows it changes nothing |
| Research.Grid | batchflow/research/research.py:151-160 | the worker-major grid of the padded list; `GridAt` states each position |
| Research.FlatLayout | batchflow/research/research.py:140-160 | `ZeroDivisionError` without slots, otherwise the grid of the padded list (`FlatLayoutIsGrid`) |
| Research.Reshape | batchflow/research/research.py:133-160 | the layout chosen by the kind of device argument; `SuppliedPath`, `NoDevicesLayout` and `FlatGrid` state its cases |
| Research.TransformItemAsWritten | batchflow/research/research.py:162-164 | `_transform_item` as written, over branch entries that are device lists or `None`: `TypeError` exactly on a `None` entry, otherwise the corrected result |
| Research.TransformItem | batchflow/research/research.py:162-164 | corrected `_transform_item`: a `None` branch entry becomes `[]`; a list keeps its length, a `None` device stays `None`, and every other device becomes `Some` of its rendering (an integer becomes its decimal string) |
| Research.SuppliedPath | batchflow/research/research.py:138-140 | a bare device and a non-empty flat list both take the flat path |
| Research.TransformLift | batchflow/research/research.py:161-166 | the transformation keeps the grid's shape and renders each device |
| Research.GetDevicesFails | batchflow/research/research.py:131-167 | fails exactly when no devices are given and there are no workers, when an empty list is given, or when devices are given and there are no slots; the last raises `ZeroDivisionError` and the others raise `IndexError` |
| Research.NoDevicesLayout | batchflow/research/research.py:136-166 | without devices, every branch of every worker gets `[None]` |
| Research.FlatSlot | batchflow/research/research.py:138-167 | branch j of worker i gets the per-slot count of entries; entry k is the rendered padded-list entry `per*(n_branches*i + j) + k` |
| Research.GridSlot | batchflow/research/research.py:151-166 | the same position law, for a grid of any list of the right length |
| Research.FlatGrid | batchflow/research/research.py:138-166 | `get_devices` on a flat list is the transformed grid of the padded list |
| Research.FlatShape | batchflow/research/research.py:138-167 | one row per worker and one device list per branch, each holding the per-slot count of devices, at the positions `FlatSlot` states |
| Research.FlatCovers | batchflow/research/research.py:138-167 | every supplied device reaches some branch |
| Research.FlatShares | batchflow/research/research.py:141-160 | when the slot count does not divide the list, the first device goes to branch 0 of worker 0 and to another branch as well |
| Research.FlatPartitions | batchflow/research/research.py:141-160 | when the slot count divides the list, consecutive slots get consecutive disjoint blocks of the supplied list |
| Research.NestedLayout | batchflow/research/research.py:161-166 | an explicit nested layout keeps its shape; `None` branch entries become `[]`; within a list, `None` stays `None` and every other device is rendered as a string |
| Research.NoneEntryRaisesAsWritten | batchflow/research/research.py:162-164 | the code as written raises `TypeError` on a `None` branch entry, where the corrected one returns `[]` |
| Research.AsWrittenAgrees | batchflow/research/research.py:131-167 | without `None` branch entries, the as-written and corrected versions agree |
| Research.GetDevices | batchflow/research/research.py:131-167 | a failure is `ZeroDivisionError` when a non-empty device list meets no slots and `IndexError` otherwise; its layouts are stated by the `Flat*` and `NestedLayout` lemmas |
| Research.GetDevicesAsWritten | batchflow/research/research.py:131-167 | a success equals the corrected result; a failure is `TypeError` or the corrected failure |
| Research.Sequential | batchflow/research/research.py:223-227 | a non-parallel run keeps one worker (`Count(1)` or the first config), and an empty config list raises `IndexError`; a parallel run is unchanged |
| Research.Expand | batchflow/research/research.py:245-248 | a count becomes that many empty configs; a list is kept |
| Research.PrepareShape | batchflow/research/research.py:223-248 | a non-parallel run has one worker; there is one device row per worker and one device list per branch unless a nested layout was given |
| Research.Prepare | batchflow/research/research.py:223-248 | the normalised workers, branches and devices of `run`, with devices from `get_devices` as written (line 233); `PrepareShape` states their shape and `PrepareNoneEntry` the `TypeError` |
| Research.PrepareNoneEntry | batchflow/research/research.py:223-248 | a nested layout with a `None` branch entry makes `run` raise `TypeError`, since line 233 calls `get_devices` as written |
| Monitor.SignalFields | batchflow/research/research.py:344-358 | the signal's keys are `time`, the keyword arguments, and the experiment and worker keys; a keyword value is kept unless the experiment (`id`, `pid`) or worker (`worker`, `worker_pid`) layer overrides that key, and each overriding value comes from its layer |
| Monitor.MakeSignal | batchflow/research/research.py:344-358 | the layered signal dictionary; `SignalFields` states its keys and values |
| Monitor.Lifecycle | batchflow/research/research.py:361-371 | the keyword arguments of a lifecycle signal; `LifecycleRow` states the resulting row |
| Monitor.ToRow | batchflow/research/research.py:380 | one cell per column of `COLUMNS` |
| Monitor.RowRoundTrip | batchflow/research/research.py:380 | reading a row back gives the signal restricted to the columns, without empty values |
| Monitor.LifecycleRow | batchflow/research/research.py:361-371 | the CSV row of a lifecycle signal, column by column; `task_idx` is never filled, and the worker columns are empty without a worker |
| Monitor.Pending | batchflow/research/research.py:373-381 | the signals before the first sentinel, in queue order |
| Monitor.Consumed | batchflow/research/research.py:373-381 | the listener takes at most the whole queue: the pending signals and the sentinel when one is queued, the sentinel being the last item taken; the whole queue otherwise |
| Monitor.Rows | batchflow/research/research.py:380 | one row per signal, in order |
| Monitor.ResearchMonitor.constructor | batchflow/research/research.py:340-342 | empty queue, no dumping, and the log file as found |
| Monitor.ResearchMonitor.Send | batchflow/research/research.py:344-359 | the built signal is appended to the queue |
| Monitor.ResearchMonitor.StartExecution | batchflow/research/research.py:361-362 | sends `status='start'` with the experiment and no worker |
| Monitor.ResearchMonitor.FinishExecution | batchflow/research/research.py:364-365 | sends `status='success'` with the experiment and its worker |
| Monitor.ResearchMonitor.FailExecution | batchflow/research/research.py:367-368 | sends `status='error'` and the exception |
| Monitor.ResearchMonitor.StopIteration | batchflow/research/research.py:370-371 | sends `status='stop_iteration'` |
| Monitor.ResearchMonitor.Listener | batchflow/research/research.py:373-381 | consumes the queue up to and including the sentinel; when dumping, appends one row per signal before it, in order |
| Monitor.ResearchMonitor.Start | batchflow/research/research.py:383-392 | records `dump`; the header is written only when dumping and the file is absent |
| Monitor.ResearchMonitor.Stop | batchflow/research/research.py:394-395 | appends the sentinel |
| Monitor.SentinelStops | batchflow/research/research.py:373-381 | with signals, a sentinel and later items queued, the listener logs exactly the signals before the sentinel and leaves the later items |
| Monitor.TwoThenStop | batchflow/research/research.py:373-381 | two signals, the sentinel and a late signal: the log gains the two rows, and the late signal stays queued |
| Monitor.MonitorRun | batchflow/research/research.py:344-395 | start with dumping, two sends, stop, a late send, listen: the file is the header and the two rows |
| Monitor.RestartKeepsLog | batchflow/research/research.py:383-392 | restarting with an existing file keeps its contents |
| Results.Select | batchflow/research/research.py:531-539 | an id is kept exactly when it is stored and its config (or alias) contains the pattern; kept ids stay in stored order |
| Configs.Contains | batchflow/research/research.py:534 | every pattern item occurs in the config, with values compared as Python's `==` compares them |
| Configs.ContainsLikePython | batchflow/research/research.py:534 | `1` matches `True`, `2` does not, and every config contains itself |
| Results.ResearchResults.constructor | batchflow/research/research.py:398-402 | an empty store |
| Results.ResearchResults.Put | batchflow/research/research.py:404-406 | stores the results and config under the id; a new id joins the end of the order, and a known id keeps its place |
| Results.ResearchResults.DomainMatches | batchflow/research/research.py:515-518 | an id is listed exactly when its full config contains some configuration of the domain |
| Results.ResearchResults.FilterIdsByConfigs | batchflow/research/research.py:493-540 | `ValueError` exactly when more than one of config, alias and domain is given; the domain, no-filter, config and alias cases each give the ids stated |
| Results.NoFilterListsAll | batchflow/research/research.py:528-529 | with no filter, every stored id is listed |
| Results.FilterExact | batchflow/research/research.py:520-540 | filtered ids are distinct, in stored order, and exactly those whose config contains the pattern |
| Results.DomainConcat | batchflow/research/research.py:515-518 | filtering by a concatenated domain concatenates the matches |
| Results.DomainIgnoresKwargs | batchflow/research/research.py:515-518 | in domain mode, keyword filters change nothing |
| Results.DomainDuplicates | batchflow/research/research.py:515-518 | an id matched by two domain configurations is listed twice |
| Results.PutThenFilter | batchflow/research/research.py:404-406 | after `put`, the id is listed with no filter, and is matched by a pattern exactly when its config contains it |
| Results.PutTwice | batchflow/research/research.py:404-406 | putting the same result twice leaves the store as putting it once |
| Results.SortedKeys | batchflow/research/research.py:436 | the checkpoint numbers, sorted increasingly |
| Results.FirstAtLeast | batchflow/research/research.py:439 | `IndexError` exactly when no dumped checkpoint reaches the iteration; otherwise the least dumped checkpoint at or above it |
| Results.Least | batchflow/research/research.py:439 | the least element of a non-empty set |
| Results.Selected | batchflow/research/research.py:433-440 | only existing checkpoint files are chosen |
| Results.Choose | batchflow/research/research.py:436-440 | `IndexError` exactly when some requested iteration is past every checkpoint; otherwise exactly the first checkpoint at or above each requested iteration |
| Results.MergeLatestWins | batchflow/research/research.py:441-448 | an iteration is loaded exactly when some file holds it and it is requested; its value comes from the last such file |
| Results.LoadAll | batchflow/research/research.py:433-449 | without requested iterations, every iteration of every file is loaded, from the last file that holds it |
| Results.LoadRequestedFails | batchflow/research/research.py:436-440 | `IndexError` exactly when some requested iteration is past every checkpoint |
| Results.LoadOnlyRequested | batchflow/research/research.py:446-448 | only requested iterations are loaded |
| Results.LoadPicksLeast | batchflow/research/research.py:438-440 | each requested iteration selects the least checkpoint at or above it |
| Results.Keep | batchflow/research/research.py:446-447 | the values of the requested iterations, or all of them; `MergeLatestWins` and `LoadOnlyRequested` state it |
| Results.Merge | batchflow/research/research.py:441-448 | the files merged in checkpoint order, a later file overriding; `MergeLatestWins` states it |
| Results.LoadIterationFiles | batchflow/research/research.py:431-449 | the chosen checkpoint files merged; `LoadAll`, `LoadRequestedFails`, `LoadOnlyRequested` and `LoadPicksLeast` state it |
| ImageGeometry.CalcOrigin | dataset/batch_image.py:352-360 | `(0, 0)` for `top_left`; the centring offset for `center`; a given position unchanged; any other string raises `IndexError` when it reads as a Python integer literal (the `int` array reaches `origin[0]`) and `ValueError` otherwise |
| ImageGeometry.DigitOrigin | dataset/batch_image.py:352-360 | the origin `' -12'` raises `IndexError` |
| ImageGeometry.WordOrigin | dataset/batch_image.py:352-360 | the origin `'left'` raises `ValueError` |
| ImageGeometry.SliceBound | dataset/batch_image.py:441-442 | numpy's slice bound: a negative bound counts from the end, then it is clamped to the axis |
| ImageGeometry.Slice | dataset/batch_image.py:441-442 | the slice lies inside the axis; an in-range start gives the window from start up to the clamped stop |
| ImageGeometry.SliceSelects | dataset/batch_image.py:441-442 | an index is selected exactly when it lies in the axis between the two normalised bounds |
| ImageGeometry.CropWindow | dataset/batch_image.py:436-443 | fails exactly for an unknown origin, with the error `CalcOrigin` gives; the window lies inside the image; `top_left` starts at the corner |
| ImageGeometry.CropExtent | dataset/batch_image.py:436-443 | at an origin inside the image, the window is the requested shape clipped to the image |
| ImageGeometry.CropCenter | dataset/batch_image.py:436-443 | a centred crop no larger than the image has the requested shape and centred margins |
| ImageGeometry.Crop | dataset/batch_image.py:436-443 | a fresh copy of exactly the window's pixels, or the error `CalcOrigin` gives for an unknown origin |
| ImageGeometry.PastePlan | dataset/batch_image.py:463-473 | an unknown origin raises the error `CalcOrigin` gives (`IndexError` for an integer string, `ValueError` otherwise); every other failure is the broadcasting `ValueError` |
| ImageGeometry.FitDims | dataset/batch_image.py:466 | the image is cropped, never enlarged |
| ImageGeometry.PlanAt | dataset/batch_image.py:466-472 | a successful paste writes inside the background, from a source no larger than the image, with broadcastable extents |
| ImageGeometry.PasteInside | dataset/batch_image.py:463-473 | an origin inside the background never fails; the window is the image clipped to the background |
| ImageGeometry.PasteKnownModes | dataset/batch_image.py:463-473 | `top_left` and `center` never fail; a centred image has margins differing by at most one pixel |
| ImageGeometry.PasteBelowFails | dataset/batch_image.py:463-473 | an origin below a small background raises `ValueError` |
| ImageGeometry.ShowsThroughCrop | dataset/batch_image.py:466-472 | pasting a crop shows the original image's pixels, read from the crop's offset |
| ImageGeometry.WriteWindow | dataset/batch_image.py:472 | the window shows the source; every other pixel is unchanged |
| ImageGeometry.Paint | dataset/batch_image.py:471-472 | a fresh copy of the background with the image shown in the window and the background kept outside it |
| ImageGeometry.PutOnBackground | dataset/batch_image.py:463-473 | fails exactly when the paste plan fails; otherwise a fresh image showing the input in the window and the background elsewhere; the background itself is not changed |
| ImageGeometry.CropToFit | dataset/batch_image.py:466 | the image cut from its corner to the part of the background from the origin on |
| ImageGeometry.PasteAt | dataset/batch_image.py:463-473 | `PutOnBackground` for an origin already computed |
| ImageGeometry.FitWindow | dataset/batch_image.py:497-499 | the window cut from the transformed image lies inside it |
| ImageGeometry.CutToFit | dataset/batch_image.py:497-499 | the transformed image cropped to the original's shape, centred for `center` and from the corner otherwise |
| ImageGeometry.PreserveShape | dataset/batch_image.py:497-501 | the result has the original's shape, shows the cut-out transformed pixels in the window, and is 0 everywhere else |
| ImageGeometry.ZeroMargin | dataset/batch_image.py:500 | pasting on the zero image leaves zeros outside the window |
| ImageGeometry.FitCenter | dataset/batch_image.py:497-501 | centred fitting, axis by axis: a larger transformed image is cut to its centred part, which fills the result; a smaller one is kept whole and centred |
| ImageGeometry.PasteThenCrop | dataset/batch_image.py:463-473 | cropping a pasted image at the same origin and shape gives the image back, when it fits |
| ImageEdits.SelectionMembers | dataset/batch_image.py:607 | an image is selected exactly when its index or its negative alias is listed |
| ImageEdits.SelectAll | dataset/batch_image.py:659 | the positions `0..c-1` select every channel |
| ImageEdits.FlipColumns | dataset/batch_image.py:607 | image n is mirrored left-right; the others are unchanged |
| ImageEdits.FlipRows | dataset/batch_image.py:609 | image n is mirrored upside-down; the others are unchanged |
| ImageEdits.FlipAll | dataset/batch_image.py:606-610 | `IndexError` with nothing written when an index is outside the batch; otherwise exactly the selected images are mirrored in the chosen direction; an unknown mode changes nothing |
| ImageEdits.FlipTwice | dataset/batch_image.py:606-610 | flipping the same selection twice restores the batch |
| ImageEdits.ApplyChannels | dataset/batch_image.py:661 | the selected channels are mapped, and the rest are unchanged |
| ImageEdits.ApplyToChannel | dataset/batch_image.py:661 | one channel is mapped, and the rest are unchanged |
| ImageEdits.ChannelSet | dataset/batch_image.py:658-659 | the selected channels lie inside the image |
| ImageEdits.Invert | dataset/batch_image.py:658-662 | `IndexError` with nothing written for a channel outside the image; otherwise each selected channel becomes `255 - v`, and the rest are unchanged |
| ImageEdits.InvertTwice | dataset/batch_image.py:658-662 | inverting twice restores the image |
| ImageEdits.ClampRange | dataset/batch_image.py:735-751 | with `low <= high`, the result lies in the range and values already inside are kept; with `high < low` the result is `high` |
| ImageEdits.RaiseTo | dataset/batch_image.py:735-742 | without a bound the value is kept; otherwise the result is at least the bound and the value, and is one of them |
| ImageEdits.LowerTo | dataset/batch_image.py:743-751 | without a bound the value is kept; otherwise the result is at most the bound and the value, and is one of them |
| ImageEdits.AsUint8 | dataset/batch_image.py:752 | a fresh array of the same shape holding each value mod 256, in `0..255` |
| ImageEdits.Threshold | dataset/batch_image.py:735-752 | a per-channel `low` of the wrong length raises `RuntimeError` before any write; a wrong `high` raises after `low` was applied; otherwise values are raised to `low`, lowered to `high`, and returned as `uint8` |
| ImageEdits.ThresholdInRange | dataset/batch_image.py:735-752 | with scalar bounds `0 <= low <= high <= 255`, every result value lies between them, and the `uint8` cast changes no value |

## Left out

- Processes and I/O are not modelled. This covers the multiprocessing queues and processes, `Distributor`, `Executor` and `Experiment`, folders, logging, `glob`, `dill` files and `pandas`. `to_df`, `load` and `configs_to_df` are not part of this model. The queue is a sequence used by one process at a time. `join` drains it rather than waiting for `task_done`.
- Monitor.ResearchMonitor.Listener: where Python would block on an empty queue, the listener stops.
- Monitor.SignalFields: values are taken as the strings `str` gives. `datetime.now()` is the parameter `now`.
- Scheduling.DynamicQueue.Total: a domain of unknown size (total `None`) is not modelled.
- Scheduling.JoinCountsWaves carries no contract. It only exhibits `finished_tasks` passing `withdrawn_tasks`.
- ImageGeometry.CalcOrigin: the `'random'` origin uses numpy's random generator and is not modelled. `Named` stands for the other strings, and `Named("random")` does not match the source.
- ImageGeometry.CalcOrigin: a string that reads as an integer is recognised over ASCII only: whitespace, an optional sign, and digits with single underscores between them. Python's `int` also accepts non-ASCII digits and whitespace, which the model sends to `ValueError`.
- ImageGeometry.PastePlan: the same ASCII-only reading of integer strings applies to its origin.
- `_salt_` and the rest of `dataset/batch_image.py` are not part of this model.
- ImageGeometry.PreserveShape: the zero background is `uint8`, so numpy casts pasted values mod 256. The model keeps the integer values.
- ImageEdits.Invert: only integer images are modelled (multiplier 255). Float images (multiplier 1.0) are left out. Pixel values are unbounded integers, and `255 - v` is exact. Numpy computes it in the image's dtype, so a value above 255 in a wider unsigned image wraps (300 in `uint16` gives 65491). That wrap is not modelled.
- ImageEdits.Threshold: only integer pixels and the `uint8` target dtype are modelled. The float default bounds `0.` and `1.` are left out. Bounds are written into the image as unbounded integers. Numpy converts them to the image's dtype on assignment, so a bound outside that dtype is stored wrapped (`low=300` in a `uint8` image stores 44), or raises `OverflowError` in newer numpy. The model stores the bound itself, and only the final `uint8` cast wraps.
- ImageEdits.FlipAll: `indices=None` is not modelled. In numpy it adds an axis.
- Dictionary key order is kept for the stored ids: `Put` keeps insertion order. Signals and merged iterations are maps, so their key order is not modelled.
- Results.LoadIterationFiles: returns a map. The `OrderedDict` it builds has an observable key order (checkpoint order, then file order, an overridden key keeping its first place), and the model does not keep it. Merge order is kept, so the value of each key is the one Python keeps.
- Research.GetDevices: the device argument is limited to `None`, a bare device, a flat list of devices, and a nested layout whose branch entries are device lists or `None`. Python accepts more, and the model does not cover it. A nested branch entry that is a bare string is split into its characters (`[['cuda:0']]` gives `[['c', 'u', 'd', 'a', ':', '0']]`). A nested branch entry that is a bare int raises `TypeError`, as a `None` entry does in the as-written code. A flat list whose first item is `None`, such as `[None, 1]`, matches neither test at lines 140 and 161 and is returned unchanged. A bool device is an `int` to Python and is rendered as `"True"` or `"False"`; the model has no bool device.
- Research.TransformItemAsWritten: the same narrowed entry type applies, so its "`TypeError` exactly on a `None` entry" covers only entries that are device lists or `None`.
- Scheduling.DynamicQueue.Get: on an empty queue it returns nothing, where `queue.get()` blocks until an item arrives.
- Configs.Contains: Python's `==` between integers and booleans is modelled (`1 == True`). Floats (`1 == 1.0`) and container values are not modelled.

## Findings

| source | as written | input that shows it | evidently intended | confidence | as-written member | corrected member |
|---|---|---|---|---|---|---|
| batchflow/research/research.py:162-164 | `_transform_item` builds the list comprehension over `x` before it tests `x is not None` | a nested device layout with a `None` branch entry, such as `[[None]]`, raises `TypeError` | a `None` branch entry becomes `[]` | not executed | Research.NoneEntryRaisesAsWritten | Research.NestedLayout |
