# Change detection and fan-out of the VLC web remote

This project models the server-side core of a small web remote for the VLC
media player (`vlc_my_web_interface.py`). Two background loops poll the
outside world and push changes to browsers over server-sent events:

- the **status loop** fetches the player status. At every cycle it compares the
  status with the last one it broadcast and broadcasts at most once, for the first
  reason that applies, in this order:
  - a significant field changed;
  - the playback position jumped by more than 2 hundredths since the previous cycle;
  - only noisy fields (`time`, `position`, `stats`) changed, and no noisy-only
    broadcast has been made for more than 60 seconds.
- the **volume loop** reads the master volume from the mixer's text report.
  It broadcasts a reading that differs from the stored volume. A route sets the
  volume (0 to 100) and broadcasts it.

Each broadcast appends the payload to the queue of every registered
subscriber. It removes the subscribers whose delivery fails.

Modules:

- `Wrappers` (wrappers.dfy): `Option`.
- `Snapshots` (snapshots.dfy): status values, normalisation of nested fields,
  changed keys, and the noisy/immediate split.
- `AmixerOutput` (amixer.dfy): `str.splitlines`, Python's `int()` and its
  inverse `str()`, and the extraction of the front-left volume. It also holds
  `FetchSystemVolume`, the line loop with its early return.
- `Broadcasting` (hub.dfy): the subscriber registry `Hub` (a class whose
  queue map the methods update in place) and the fan-out loop.
- `StatusPolling` (status_poller.dfy): the classifier and one cycle as
  functions (`Classify`, `Poll`), runs of many cycles (`Run`), and the loop's
  state as the class `StatusMonitor`, whose `Step` is proved against `Poll`.
- `SystemVolume` (system_volume.dfy): the volume poll step and the
  volume-setting route, as functions and as methods of `VolumeMonitor`.

Inputs from the outside world are parameters:

- the fetched status (or its failure);
- the position, already rounded to hundredths;
- the clock, in whole seconds;
- the mixer's report (or the failure of the mixer call);
- whether the mixer's set call succeeds;
- the set of subscribers whose queue `put` fails.

Behaviour of the code that a reader might not expect:

- An unchanged status can be broadcast again. The position is compared with the
  previous cycle's, not with the cached status (`StatusPolling.SameStatusOnlyJumps`).
- A key that the cache lacks is not reported as changed when its new value is `None`.
  The comparison uses `dict.get`, which also gives `None` for a missing key.
- A position that does not parse raises. It does not default to 0.
- A new subscriber is not sent the cached status.
- Unsubscribing a removed subscriber raises KeyError. It is not a no-op
  (`Broadcasting.Hub.Unsubscribe`).
- A front-left line without `[` raises IndexError, which nothing catches. The
  volume thread ends (`SystemVolume.VolumeMonitor.PollStep`).

## Model

| member | source | states |
|---|---|---|
| `Snapshots.NormalizeValue` | vlc_my_web_interface.py:83 | a nested mapping becomes the text of its canonical form; every other value is kept; no nested mapping comes out |
| `Snapshots.Normalize` | vlc_my_web_interface.py:82-85 | the key set is unchanged, only mapping-valued entries are replaced (by their canonical string), and the result holds no nested mapping |
| `Snapshots.NormalizeIdempotent` | vlc_my_web_interface.py:82-83 | normalising twice equals normalising once |
| `Snapshots.NormalizeFixedPoint` | vlc_my_web_interface.py:82-83 | a snapshot is left unchanged by normalisation exactly when it holds no nested mapping |
| `Snapshots.NormalizedCache` | vlc_my_web_interface.py:86 | a missing cache compares as the empty mapping; otherwise the keys are the cache's and each value is the cache's value normalised |
| `Snapshots.Get` | vlc_my_web_interface.py:91 | `dict.get`: the stored value for a present key, None for a missing one |
| `Snapshots.ChangedKeys` | vlc_my_web_interface.py:89-92 | only keys of the new status are reported; a key both have is reported iff the normalised values differ; a key the cache lacks is reported iff its new value is not None |
| `Snapshots.SameFieldNotChanged` | vlc_my_web_interface.py:89-92 | a field equal in the status and in the cache is never reported, whatever the canonicaliser |
| `Snapshots.NothingChangedSinceBroadcast` | vlc_my_web_interface.py:85-92 | comparing the cached status with itself reports no key |
| `Snapshots.Partition` | vlc_my_web_interface.py:95-96 | the ignored and immediate parts are disjoint, together are the changed keys, the ignored part lies within {time, position, stats} and the immediate part avoids it |
| `AmixerOutput.FirstIndex` | vlc_my_web_interface.py:167 | the index found holds the sought character and none before it does, or no character does |
| `AmixerOutput.SplitLines` | vlc_my_web_interface.py:165 | no line contains a line break; there are no lines exactly when the text is empty |
| `AmixerOutput.SplitTerminated` | vlc_my_web_interface.py:165 | splitting newline-terminated break-free lines gives back exactly those lines |
| `AmixerOutput.SplitUnterminated` | vlc_my_web_interface.py:165 | a non-empty last line without a final newline is split off as a line of its own |
| `AmixerOutput.TrimStart` | vlc_my_web_interface.py:168 | the result is a suffix, what was dropped is all white space as `int()` strips it (ASCII `\t` to `\r`, space, and the non-ASCII white space; not U+001C to U+001F), and the result does not start with white space |
| `AmixerOutput.TrimEnd` | vlc_my_web_interface.py:168 | the result is a prefix, what was dropped is all white space, and the result does not end with white space |
| `AmixerOutput.Strip` | vlc_my_web_interface.py:168 | the result is the contiguous slice left after the leading white space, and it neither starts nor ends with white space |
| `AmixerOutput.StripDropsSpace` | vlc_my_web_interface.py:168 | every character `int()` strips, before or after the kept slice, is white space |
| `AmixerOutput.ParseInt` | vlc_my_web_interface.py:168 | text is accepted iff, once stripped, it is an optional sign followed by one to 4300 digits; the value is the digits' decimal value, negated after `-` |
| `AmixerOutput.NatText` | vlc_my_web_interface.py:168 | the decimal text of a natural number is a non-empty digit string whose value is that number, without a leading zero unless it is 0 |
| `AmixerOutput.SeparatorRejected` | vlc_my_web_interface.py:168 | text led by the separator U+001C is rejected by `int()` rather than stripped |
| `AmixerOutput.ParseIntText` | vlc_my_web_interface.py:168 | `int(str(n)) == n` for every integer whose `str()` does not raise (at most 4300 digits) |
| `AmixerOutput.SmallPrintable` | vlc_my_web_interface.py:168 | every integer of magnitude below 4300, hence every volume, has a `str()` within the digit limit |
| `AmixerOutput.ParseNatText` | vlc_my_web_interface.py:168 | `int(str(n)) == n` for every natural number of at most 4300 digits |
| `AmixerOutput.ParseNegatedText` | vlc_my_web_interface.py:168 | `int(str(n)) == n` for every negative number of at most 4300 digits: the minus sign negates the digits' value |
| `AmixerOutput.AfterFirst` | vlc_my_web_interface.py:167 | the result is the text after the first occurrence of the character, which does not occur before it |
| `AmixerOutput.VolumeText` | vlc_my_web_interface.py:167 | there is no text exactly when the line has no `[`; otherwise it is the longest prefix of what follows the first `[` that stops at the next `[` or `%` |
| `AmixerOutput.Marked` | vlc_my_web_interface.py:166 | a line is marked iff `Front Left:` occurs in it at some position |
| `AmixerOutput.LineVolume` | vlc_my_web_interface.py:166-168 | IndexError is raised exactly when the line has no `[`; otherwise there is a reading iff the volume text passes `int()`, and the reading is its value |
| `AmixerOutput.LineVolumeOf` | vlc_my_web_interface.py:166-168 | a line `<prefix>[<v>%<rest>` whose prefix has no `[` reads as `v`, for any `v` that `str()` can write |
| `AmixerOutput.ReadVolume` | vlc_my_web_interface.py:165-170 | a report with no marked line gives no reading |
| `AmixerOutput.FirstMarkedLineDecides` | vlc_my_web_interface.py:165-168 | the first line containing `Front Left:` alone decides the reading |
| `AmixerOutput.LaterLinesIgnored` | vlc_my_web_interface.py:165-168 | lines appended after a marked line never change the reading |
| `AmixerOutput.FetchSystemVolume` | vlc_my_web_interface.py:150-174 | a failed mixer call gives no reading; otherwise the loop with early return yields the reading of the first marked line of the split report |
| `Broadcasting.Delivered` | vlc_my_web_interface.py:144-148 | failed subscribers are removed, no subscriber is added, and each other queue gets exactly the payload appended |
| `Broadcasting.DeliveredInOrder` | vlc_my_web_interface.py:224-228 | a subscriber surviving two broadcasts receives both payloads in call order |
| `Broadcasting.DroppedStaysDropped` | vlc_my_web_interface.py:224-228 | a subscriber removed by one broadcast is absent after the next |
| `Broadcasting.Hub.constructor` | vlc_my_web_interface.py:29 | the registry starts empty |
| `Broadcasting.Hub.Subscribe` | vlc_my_web_interface.py:250 | a new, distinct subscriber with an empty queue is added and nothing else changes |
| `Broadcasting.Hub.Unsubscribe` | vlc_my_web_interface.py:257 | the subscriber is removed; removing one that is not registered raises and changes nothing |
| `Broadcasting.Hub.Broadcast` | vlc_my_web_interface.py:144-148 | the loop over a copy of the registry leaves it equal to `Delivered` of the old registry |
| `StatusPolling.PositionMoved` | vlc_my_web_interface.py:102-105 | the position moved iff there is a previous position and the new one is more than 2 hundredths above or below it |
| `StatusPolling.Classify` | vlc_my_web_interface.py:89-131 | the decision is immediate iff a non-noisy key changed; else a jump iff the position moved; else delayed-noisy iff noisy keys changed and more than 60 s passed; else suppress; with the keys and positions each carries |
| `StatusPolling.SignificantChangeIsImmediate` | vlc_my_web_interface.py:109-118 | a changed significant field forces an immediate broadcast whatever the position and clock |
| `StatusPolling.NoisyChangeWaits` | vlc_my_web_interface.py:108-131 | noisy-only changes without a jump are suppressed within 60 s of the last noisy broadcast |
| `StatusPolling.SameStatusOnlyJumps` | vlc_my_web_interface.py:102-125 | re-reading the cached status broadcasts only by a position jump, never for a changed field |
| `StatusPolling.Skipped` | vlc_my_web_interface.py:74 | a cycle is skipped iff the fetch failed or returned an empty status |
| `StatusPolling.Poll` | vlc_my_web_interface.py:72-134 | a failed or empty fetch changes nothing; otherwise the position is stored every cycle; a broadcast happens iff the decision is not suppress, and then the cache holds the broadcast status; only the delayed-noisy branch moves the noisy clock, to now |
| `StatusPolling.Run` | vlc_my_web_interface.py:71-136 | at most one broadcast per cycle; every status broadcast is non-empty and was fetched in one of the cycles |
| `StatusPolling.CacheIsLastBroadcast` | vlc_my_web_interface.py:115-131 | after any run the cache is the last status broadcast, or unchanged if none was |
| `StatusPolling.CreepingPositionUnnoticed` | vlc_my_web_interface.py:102-134 | a position moving 2 hundredths per cycle is not broadcast within the noisy window although it drifts by 4 |
| `StatusPolling.StatusMonitor.constructor` | vlc_my_web_interface.py:66-68 | no cache, noisy clock at 0, no previous position |
| `StatusPolling.StatusMonitor.Step` | vlc_my_web_interface.py:72-134 | the new state is `Poll`'s, and the registry receives the status iff `Poll` broadcasts it |
| `SystemVolume.PollVolume` | vlc_my_web_interface.py:184-189 | a volume is broadcast iff one was read and it differs from the stored one; after a successful read the stored volume is the one read |
| `SystemVolume.RepeatedReadingSilent` | vlc_my_web_interface.py:186-187 | reading the same volume twice broadcasts it at most once |
| `SystemVolume.Returned` | vlc_my_web_interface.py:168-174 | the function returns a number exactly for a parsed reading |
| `SystemVolume.RequestedVolume` | vlc_my_web_interface.py:196 | a missing argument means 0; otherwise the argument goes through `int()` |
| `SystemVolume.SetVolumeReply` | vlc_my_web_interface.py:196-218 | success iff the argument parses to a value in 0..100 and the mixer call succeeds; an out-of-range value gets no reply |
| `SystemVolume.SetInRange` | vlc_my_web_interface.py:196-212 | every volume from 0 to 100 given as its decimal text is set when the mixer succeeds |
| `SystemVolume.MissingArgumentMutes` | vlc_my_web_interface.py:196 | a request without argument sets the volume to 0 |
| `SystemVolume.NoEchoAfterSet` | vlc_my_web_interface.py:186-210 | after a successful set, the next poll that reads back the volume in the reply broadcasts nothing |
| `SystemVolume.VolumeMonitor.constructor` | vlc_my_web_interface.py:177 | the stored volume is the first reading and the poll thread runs |
| `SystemVolume.VolumeMonitor.PollStep` | vlc_my_web_interface.py:181-190 | a raising read stops the thread; otherwise the stored volume and the broadcast are `PollVolume`'s |
| `SystemVolume.VolumeMonitor.SetVolume` | vlc_my_web_interface.py:192-218 | the reply is `SetVolumeReply`'s, and only a success stores and broadcasts the volume |

## Left out

- HTTP and Flask: routes, templates, response building and status codes. `NoReply` stands for the route returning nothing.
- Foreign libraries: the `requests` calls to VLC, `xmltodict`, `subprocess.run` of amixer and `config.json`. The model takes a fetch result or its failure. A failed mixer call is a missing report. A missing `amixer` binary raises an uncaught OSError; that is not modelled. `fetch_vlc_status` catches only request errors (line 39): a malformed XML body (ExpatError) or one without `root` (KeyError, line 37) escapes at line 72 and ends the status thread. The model treats every fetch failure as a skipped cycle.
- The canonical JSON form of a nested mapping is a caller-supplied function (`Canonicaliser`). Broadcast status payloads are the snapshots themselves, not their JSON text.
- Concurrency: the two daemon threads, the sleep between cycles, the blocking `queue.get`, and the server-sent-event generators. The lock the shared registries would need is also left out. Registration and removal are plain `Hub` operations.
- Floating point: parsing and rounding the `position` field. The rounded hundredths are an input. A non-numeric position raises, which would end the status thread; that is not modelled.
- StatusPolling.Poll: the clock is in whole seconds. `time.time()` is a float, so `now - last > 60` with a fractional difference is not modelled.
- Snapshots.ChangedKeys: the changed keys are a set. The source's list order only affects log messages.
- SystemVolume.VolumeMonitor.constructor: the first read runs at import time (line 177). If it raises IndexError the program never starts. The constructor takes only a returned value.
- StatusPolling.Run: the contract says every broadcast status was fetched in some cycle. It does not say that broadcasts come in cycle order.
- ParseInt: `int()` also accepts underscores between digits and non-ASCII decimal digits. The model rejects both. The 4300-digit limit of `int()` and `str()` is Python's default since 3.11 (and the 3.7.14, 3.8.14, 3.9.14 and 3.10.7 releases); a changed `sys.set_int_max_str_digits` or an older Python is not modelled.
- Logging (`print`), including the volume registry's size in the status broadcast log line.
- The routes that only relay or read: `vlc_command`, `get_current_volume`, `index`. The front-end scripts under `static/` are DOM and event handling. Their only arithmetic is floating point.
