# EOCV-Sim input-source manager, modelled in Dafny

EOCV-Sim's `InputSourceManager` keeps a registry of named input sources: camera feeds, video files and still images. At most one of them feeds the vision pipeline at a time; none does before the first successful switch. The manager:

- registers and deletes sources;
- switches the active source with a fallback when opening fails;
- copies each tick's frame into a stable buffer, keeping the last good frame over a blank one;
- asks the pipeline to pause after one pass over a still image.

The model is imperative where the Java is. `InputSourceManager` is a Dafny class with the same three pieces of state:

- `sources`, a map from names to sources;
- `currentInputSource`, the active source;
- `lastMatFromSource`, the frame buffer.

`InputSource` is a class too, because the manager stamps `name` and `createdOn` on the source objects in place. The manager's collaborators are recorded as sequences of the calls made on them:

- `sourceCalls`: `reset()`, `init()` and `update()` on sources;
- `loaderCalls`: save, delete and flush on the persistence loader;
- `uiEvents`: the visualizer's dialogs, list refresh and selection;
- `swingQueue`: tasks handed to Swing's event queue;
- `mainQueue`: the main loop's "do once" tasks.

The state-changing methods state their new state through pure functions of the old state: `Register`, `Unregister`, `ApplyAll`, `AfterPull`, `SwitchCalls`, `SwitchDialogs` and `PauseIfImageTasks`. (The start-up methods `Init` and `AddLoadedSources` leave the loader, dialog and Swing calls of their registrations unstated, and `Init` also leaves the loaded objects' fields unstated; see "## Left out".) Lemmas then prove what the code guarantees about those functions over any sequence of calls:

- built-in sources are never deleted;
- registration never overwrites an entry;
- a failed switch touches only its target;
- the frame buffer always holds the latest non-empty frame;
- the pause check queues a pause only while an image is active, and that pause reaches the pipeline one tick after the check.

Modules:

- `Sources` (sources.dfy): source type tags, frames, pull outcomes and the `InputSource` class.
- `Frames` (frames.dfy): the stale-over-blank buffer policy.
- `Registry` (registry.dfy): the name-to-source map as a value.
- `MainLoop` (main_loop.dfy): the "do once" tasks and what a main-loop tick does with them.
- `Manager` (input_source_manager.dfy): the `InputSourceManager` class.

Three behaviours of the code are stated as written:

- Switching to the source that is already active resets it, opens it, and then resets it again, as "the previous source". The source that stays active was therefore last told to reset (`ReselectEndsWithReset`).
- Switching to an unknown name is not a deactivation: `getSourceType` dereferences a null source. `SetInputSource`, `ShowApwdIfNeeded` and `GetSourceType` therefore require the name to be registered.
- The pause that `pauseIfImage` queues does not check the source type again when it runs. Suppose an image is selected and then another source, both with `pauseOnImages` set, before the main loop ticks. `SetInputSource` leaves the image's pause in the queue, and the next tick pauses the pipeline with the other source active (`StalePauseReachesAnySource`).

## Model

| member | source | states |
|---|---|---|
| Frames.AfterPull | EOCV-Sim/src/main/java/com/github/serivesmejia/eocvsim/input/InputSourceManager.java:98-103 | the buffer becomes the pulled frame exactly when the pull produced a non-null, non-empty frame; a null, empty or throwing pull keeps it, so a non-empty buffer never turns blank |
| Frames.AfterPullsIsLatestFresh | EOCV-Sim/src/main/java/com/github/serivesmejia/eocvsim/input/InputSourceManager.java:94-104 | after any run of ticks the buffer holds the most recent non-empty frame pulled, or its initial contents if no tick produced one |
| Frames.NeverBlanked | EOCV-Sim/src/main/java/com/github/serivesmejia/eocvsim/input/InputSourceManager.java:100 | once the buffer holds a non-empty frame, no sequence of ticks makes it empty |
| Registry.Register | EOCV-Sim/src/main/java/com/github/serivesmejia/eocvsim/input/InputSourceManager.java:106-115 | a null source or a name on use leaves the map as it was; otherwise exactly the new name is added, bound to the given source, and every existing entry keeps its source |
| Registry.Unregister | EOCV-Sim/src/main/java/com/github/serivesmejia/eocvsim/input/InputSourceManager.java:144-150 | nothing is added or rebound; a missing name or a built-in source leaves the map as it was; otherwise exactly that name is removed |
| Registry.BuiltinsSurvive | EOCV-Sim/src/main/java/com/github/serivesmejia/eocvsim/input/InputSourceManager.java:106-150 | over any sequence of registrations and deletions, every built-in entry stays registered under its name, bound to the same object |
| Registry.AddsNeverOverwrite | EOCV-Sim/src/main/java/com/github/serivesmejia/eocvsim/input/InputSourceManager.java:106-115 | over any sequence of registrations, existing entries keep their sources, and the registered names grow by exactly the names added with a non-null source |
| Registry.AdditionsRegister | EOCV-Sim/src/main/java/com/github/serivesmejia/eocvsim/input/InputSourceManager.java:68-72 | registering the loaded sources in order keeps every existing entry, registers exactly the loaded names, and binds each new name to a source loaded under that name |
| Registry.EntriesHaveOrigin | EOCV-Sim/src/main/java/com/github/serivesmejia/eocvsim/input/InputSourceManager.java:106-150 | after any sequence of registrations and deletions, each entry is either an original entry or a source that a registration in the sequence added under that very name |
| MainLoop.PauseIfImageTasks | EOCV-Sim/src/main/java/com/github/serivesmejia/eocvsim/input/InputSourceManager.java:207-218 | the pause check queues at most one task, a pause with reason IMAGE_ONE_ANALYSIS, and queues it exactly when the active source is an image |
| MainLoop.RunTask | EOCV-Sim/src/main/java/com/github/serivesmejia/eocvsim/input/InputSourceManager.java:134-223 | what each queued task does on its tick: the settle task of java:134-137 is the only one that resumes the pipeline (`requestSetPaused(false)`) and it defers the pause check; the pause lambda of java:211-216 is the only one that pauses; the deferred `pauseIfImage` of java:223 queues a pause exactly when the active source is an image |
| MainLoop.PausesOnlyForImages | EOCV-Sim/src/main/java/com/github/serivesmejia/eocvsim/input/InputSourceManager.java:207-224 | if no image pause is pending and the active source is not an image, a tick neither pauses the pipeline nor queues a pause |
| MainLoop.StalePauseReachesAnySource | EOCV-Sim/src/main/java/com/github/serivesmejia/eocvsim/input/InputSourceManager.java:210-216 | once an image's pause check has queued its pause, a later switch to a source of any type does not withdraw it; the next tick pauses the pipeline |
| MainLoop.TwoFrameDelay | EOCV-Sim/src/main/java/com/github/serivesmejia/eocvsim/input/InputSourceManager.java:220-224 | the task that pauseIfImageTwoFrames queues requests nothing on its own tick; the image pause reaches the pipeline on the next tick, and only for images |
| MainLoop.SettleThenPause | EOCV-Sim/src/main/java/com/github/serivesmejia/eocvsim/input/InputSourceManager.java:134-137 | the task left by a registration resumes the pipeline first; an image source is paused again two ticks later and no other source is |
| Manager.SwitchCalls | EOCV-Sim/src/main/java/com/github/serivesmejia/eocvsim/input/InputSourceManager.java:157-191 | the target is reset and then opened; a failed open calls nothing on any other source; a successful one ends by resetting the previously active source |
| Manager.ReselectEndsWithReset | EOCV-Sim/src/main/java/com/github/serivesmejia/eocvsim/input/InputSourceManager.java:157-191 | switching to the active source again opens it and then resets it as the previous source |
| Manager.SwitchDialogs | EOCV-Sim/src/main/java/com/github/serivesmejia/eocvsim/input/InputSourceManager.java:165-185 | a wait dialog appears exactly for camera and video targets and is always destroyed; an error dialog appears exactly when init failed, after the wait dialog is gone |
| Manager.InputSourceManager.constructor | EOCV-Sim/src/main/java/com/github/serivesmejia/eocvsim/input/InputSourceManager.java:46-55 | no sources, no active source, an empty frame buffer and no collaborator calls |
| Manager.InputSourceManager.Update | EOCV-Sim/src/main/java/com/github/serivesmejia/eocvsim/input/InputSourceManager.java:94-104 | with no active source nothing changes and nothing is called; otherwise the source receives the pause flag and is pulled once (logged as an update call), the active source stays the same, and the buffer follows AfterPull, a throwing pull included |
| Manager.InputSourceManager.AddInputSource | EOCV-Sim/src/main/java/com/github/serivesmejia/eocvsim/input/InputSourceManager.java:106-142 | the map follows Register. A rejected add changes no log and no source. An accepted add stamps the name and sets createdOn to the clock only if it was -1. It saves and flushes exactly for a non-built-in source. It refreshes the list and queues the selection exactly when the selector panel exists. Every registered source keeps a creation order. If every registered source carried its own name and the added object was not already registered under another name, every registered source still does |
| Manager.InputSourceManager.SelectAddedSource | EOCV-Sim/src/main/java/com/github/serivesmejia/eocvsim/input/InputSourceManager.java:128-138 | the queued Swing task selects the new entry and puts the resume-then-pause-check task on the main loop |
| Manager.InputSourceManager.CreateDefaultImgInputSource | EOCV-Sim/src/main/java/com/github/serivesmejia/eocvsim/input/InputSourceManager.java:77-92 | a fresh built-in image source, ranked by the number of sources before it, goes through Register under the name. It is named when added. Nothing is persisted. The list refresh and the selection are queued exactly when the name was new and the selector panel exists |
| Manager.InputSourceManager.Init | EOCV-Sim/src/main/java/com/github/serivesmejia/eocvsim/input/InputSourceManager.java:56-75 | existing entries are kept. The names on use become exactly the old names, the three default names and the loaded names. A new default name is bound to a built-in image that carries the name and is fresh: allocated by the call, it is none of the loaded objects, which exist before it. A new name that is not a default is bound to a source loaded under it. On an empty registry the three built-in images are ranked 0, 1 and 2. If the loaded objects are distinct and none was registered before, every new name is stamped on its source, and stamped names stay stamped |
| Manager.InputSourceManager.CreateDefaultSources | EOCV-Sim/src/main/java/com/github/serivesmejia/eocvsim/input/InputSourceManager.java:63-66 | existing entries are kept and the names on use grow by exactly the three default names. Each new one is bound to a fresh built-in image source carrying its name, and nothing is persisted. When the selector panel exists, each default name not yet on use gets one list refresh and one queued selection, in order. On an empty registry the images are ranked 0, 1 and 2 |
| Manager.InputSourceManager.CreateImageSources | EOCV-Sim/src/main/java/com/github/serivesmejia/eocvsim/input/InputSourceManager.java:63-66 | the three registrations of fresh built-in images under three distinct names, in order: the map follows Register three times, and the selector logs grow by the names not yet on use |
| Manager.InputSourceManager.AddLoadedSources | EOCV-Sim/src/main/java/com/github/serivesmejia/eocvsim/input/InputSourceManager.java:68-72 | the map becomes ApplyAll of one registration per loaded entry, in order; entries already present keep their source and rank; every loaded name ends up on use. Each loaded object keeps its pause flag, and its creation time is unchanged or went from -1 to the clock; a registered one went from -1 to the clock if it was -1. If the loaded objects are distinct and none was registered before, every new name is stamped on its source, and stamped names stay stamped |
| Manager.InputSourceManager.RegisterLoaded | EOCV-Sim/src/main/java/com/github/serivesmejia/eocvsim/input/InputSourceManager.java:70-72 | the registration loop: after each entry the map is ApplyAll of the registrations so far, and the loaded objects' pause flags, creation times and name stamps obey the same rules as AddLoadedSources |
| Registry.NextNotRegistered | EOCV-Sim/src/main/java/com/github/serivesmejia/eocvsim/input/InputSourceManager.java:70-72 | while distinct, unregistered objects are registered in list order, the next one is not yet bound to any name, so stamping its name disturbs no entry |
| Manager.NamesNotOnUseMembers | EOCV-Sim/src/main/java/com/github/serivesmejia/eocvsim/input/InputSourceManager.java:63-66 | the default names offered to the selector panel at start-up are exactly the default names not already on use |
| Manager.InputSourceManager.DeleteInputSource | EOCV-Sim/src/main/java/com/github/serivesmejia/eocvsim/input/InputSourceManager.java:144-154 | the map follows Unregister; delete and flush go to the loader exactly when an entry was removed |
| Manager.InputSourceManager.SetInputSource | EOCV-Sim/src/main/java/com/github/serivesmejia/eocvsim/input/InputSourceManager.java:156-201 | it returns the init outcome; source calls follow SwitchCalls and dialogs follow SwitchDialogs. The active source becomes the target on success and is the very same object as before on failure. The image pause is queued only on success with pauseOnImages set. The registry is untouched |
| Manager.InputSourceManager.IsNameOnUse | EOCV-Sim/src/main/java/com/github/serivesmejia/eocvsim/input/InputSourceManager.java:203-205 | true exactly when the name is registered |
| Manager.InputSourceManager.PauseIfImage | EOCV-Sim/src/main/java/com/github/serivesmejia/eocvsim/input/InputSourceManager.java:207-218 | appends PauseIfImageTasks of the active source's type to the main-loop queue and nothing else |
| Manager.InputSourceManager.PauseIfImageTwoFrames | EOCV-Sim/src/main/java/com/github/serivesmejia/eocvsim/input/InputSourceManager.java:220-224 | appends one task that will itself run the image check, a tick later |
| Manager.InputSourceManager.ShowApwdIfNeeded | EOCV-Sim/src/main/java/com/github/serivesmejia/eocvsim/input/InputSourceManager.java:230-243 | a wait dialog is shown, and reported, exactly for a camera or video source |
| Manager.InputSourceManager.GetSourceType | EOCV-Sim/src/main/java/com/github/serivesmejia/eocvsim/input/InputSourceManager.java:245-248 | the type tag of the source registered under the name |
| Manager.InputSourceManager.GetSortedInputSources | EOCV-Sim/src/main/java/com/github/serivesmejia/eocvsim/input/InputSourceManager.java:250-255 | every registered source appears once per name it is registered under, in ascending creation order, and the manager is unchanged |
| Manager.SortByCreation | EOCV-Sim/src/main/java/com/github/serivesmejia/eocvsim/input/InputSourceManager.java:252 | the result is a permutation of its input, ordered by the sources' creation order |
| Manager.SiftDown | EOCV-Sim/src/main/java/com/github/serivesmejia/eocvsim/input/InputSourceManager.java:252 | one insertion step: a permutation that extends the sorted prefix by one element |

## Left out

- Resource copying to temporary files, `InputSourceLoader` file reading and writing, and the JSON workspace configuration are I/O. The loader appears only as the log of save, delete and flush calls. The sources read back from the file are a parameter of `Init`.
- Manager.InputSourceManager.CreateDefaultImgInputSource: the `IOException` path of the resource copy is not modelled; the copy is taken to succeed.
- Manager.InputSourceManager.Init: does not state the loader, dialog and Swing calls made by the registrations it performs. `AddInputSource` states those call by call. For a loaded name listed twice, it does not say which of the two sources is kept; `AddLoadedSources` pins that down through `ApplyAll`.
- Manager.InputSourceManager.Init: does not restate what happens to the loaded objects' pause flags and creation times. `AddLoadedSources`, which `Init` calls after creating the defaults, states it.
- Manager.InputSourceManager.RegisterLoaded: does not state the loader calls (save and flush per non-built-in source), the list refreshes or the queued selections of its registrations; `AddInputSource` states them call by call.
- Manager.InputSourceManager.AddLoadedSources: does not state the loader, dialog and Swing calls of its registrations, for the same reason. It names each new entry only when the loaded objects are distinct and were not registered before: an object loaded under two names carries the last new one.
- `lastMatFromSource` is null before `init()`. The model starts it as an empty frame, so it does not capture a pull before initialisation being swallowed as a null-pointer exception.
- OpenCV `Mat` contents and `copyTo` are a foreign library. A frame is a value with an emptiness test, and a copy is an assignment.
- `InputSource.init()`, `update()` and `reset()` are not part of this model. Their outcomes are parameters: the init result of `SetInputSource` and the pull of `Update`. Each call to them is recorded in `sourceCalls`; `setPaused` is the `paused` field.
- `isDefault` is fixed when a source is constructed. The Java sets it once, right after construction and before registration.
- `src.eocvSim = eocvSim` (line 161) binds a back-pointer to the simulator and is not modelled.
- `requestSetInputSource` (lines 226-228) only queues `setInputSource` for the main loop. It is not modelled, because running that task would need the init outcome the queue does not carry.
- The cancel action of the wait dialog terminates the process (`eocvSim.destroy()`). It is not modelled.
- Logging, `System.currentTimeMillis()` (a parameter `now`, taken to be non-negative), Swing threading and `volatile` visibility are not modelled. The model is one sequential thread.
- `InputSource.compareTo` is not part of this model. The sorted view orders by `createdOn` ascending; the relative order of sources with equal `createdOn` is not stated.
- Manager.InputSourceManager.GetSortedInputSources: sorts the names the values were copied from, then reads their sources. The result is the same sequence of sources as sorting the copied values.
- The main loop's "do once" handler is not part of this model. `MainLoop.RunOnceAppend` is a property of the model's stand-in for it, with no line of its own to cite. `MainLoop.RunOnce` assumes that it runs the tasks queued before a tick in order and defers tasks queued during the tick to the next one. `RunTicks` keeps the active source's type fixed across the ticks it runs.
- `pauseIfImage` with no active source dereferences null. It is a precondition of `PauseIfImage`.
