/** InputSourceManager: the registry of named input sources, the switch of the
    active source, the per-tick pull into the last-frame buffer, and the
    image-pause decisions. The collaborators it calls (sources' reset and
    init, the persistence loader, the visualizer's dialogs and selector, the
    Swing event queue and the main-update "do once" queue) are recorded as
    logs of the calls made on them. */
module Manager {
  import opened Sources
  import opened Frames
  import opened Registry
  import opened MainLoop

  /** A call the manager makes on a source. */
  datatype SourceCall = ResetCall(src: InputSource) | InitCall(src: InputSource) | UpdateCall(src: InputSource)

  /** A call the manager makes on the InputSourceLoader. */
  datatype LoaderCall = Save(name: string, src: InputSource) | Forget(name: string) | Flush

  /** What the manager asks of the visualizer. */
  datatype UiEvent =
    | SourcesListUpdated
    | SourceSelected(name: string)
    | WaitDialogShown
    | WaitDialogDestroyed
    | ErrorDialogShown

  /** The built-in image sources created at start-up, in creation order. */
  const DefaultImageNames: seq<string> :=
    ["Ultimate Goal 4 Ring", "Ultimate Goal 1 Ring", "Ultimate Goal 0 Ring"]

  /** The built-in images are registered, ranked 0, 1 and 2 in creation order. */
  ghost predicate DefaultsRanked(m: SourceMap)
    reads m.Values
  {
    forall i :: 0 <= i < |DefaultImageNames| ==>
      && DefaultImageNames[i] in m
      && m[DefaultImageNames[i]].isDefault
      && m[DefaultImageNames[i]].kind == IMAGE
      && m[DefaultImageNames[i]].createdOn == i
  }

  lemma RankedDefaults(m: SourceMap, a: InputSource, b: InputSource, c: InputSource)
    requires var d := DefaultImageNames;
             d[0] in m && m[d[0]] == a && d[1] in m && m[d[1]] == b && d[2] in m && m[d[2]] == c
    requires a.isDefault && a.kind == IMAGE && a.createdOn == 0
    requires b.isDefault && b.kind == IMAGE && b.createdOn == 1
    requires c.isDefault && c.kind == IMAGE && c.createdOn == 2
    ensures DefaultsRanked(m)
  {
  }

  function DefaultNameSet(): (names: set<string>)
    ensures |names| == 3
    ensures forall i :: 0 <= i < |DefaultImageNames| ==> DefaultImageNames[i] in names
  {
    var d := DefaultImageNames;
    assert d[0] != d[1] && d[0] != d[2] && d[1] != d[2];
    {DefaultImageNames[0], DefaultImageNames[1], DefaultImageNames[2]}
  }

  /** The map after three registrations of new sources under three distinct
      names: the names on use grow by those names, nothing registered is
      rebound, and each new name is bound to its own source. */
  lemma ThreeRegistrations(before: SourceMap, n0: string, n1: string, n2: string,
                           a: InputSource, b: InputSource, c: InputSource)
    requires n0 != n1 && n0 != n2 && n1 != n2
    ensures var m1 := Register(before, n0, a);
            var m2 := Register(m1, n1, b);
            var r := Register(m2, n2, c);
            && r.Keys == before.Keys + {n0, n1, n2}
            && (forall k :: k in before ==> r[k] == before[k])
            && (n0 !in before ==> r[n0] == a)
            && (n1 !in before ==> r[n1] == b)
            && (n2 !in before ==> r[n2] == c)
            && (before == map[] ==> |m1| == 1 && |m2| == 2)
  {
  }

  /** The names of a list that are not yet on use, in list order. */
  function NamesNotOnUse(names: seq<string>, m: SourceMap): seq<string>
    decreases |names|
  {
    if names == [] then []
    else (if names[0] in m then [] else [names[0]]) + NamesNotOnUse(names[1..], m)
  }

  /** Exactly the listed names that are not on use survive the filter. */
  lemma {:induction false} NamesNotOnUseMembers(names: seq<string>, m: SourceMap)
    ensures forall n :: n in NamesNotOnUse(names, m) <==> n in names && n !in m
    decreases |names|
  {
    if names != [] {
      NamesNotOnUseMembers(names[1..], m);
      assert names == [names[0]] + names[1..];
    }
  }

  lemma {:induction false} NamesNotOnUseSnoc(names: seq<string>, n: string, m: SourceMap)
    ensures NamesNotOnUse(names + [n], m) == NamesNotOnUse(names, m) + (if n in m then [] else [n])
    decreases |names|
  {
    if names == [] {
      assert names + [n] == [n];
    } else {
      assert (names + [n])[1..] == names[1..] + [n];
      NamesNotOnUseSnoc(names[1..], n, m);
    }
  }

  /** One more built-in registration extends the selector-panel logs by one
      entry exactly when its name was not yet on use. */
  lemma SelectorLogStep(names: seq<string>, i: nat, before: SourceMap, inUse: bool, attached: bool,
                        q0: seq<string>, q: seq<string>, q': seq<string>,
                        e0: seq<UiEvent>, e: seq<UiEvent>, e': seq<UiEvent>)
    requires i < |names|
    requires inUse <==> names[i] in before
    requires i == 0 ==> q == q0 && e == e0
    requires i > 0 ==> q == q0 + (if attached then NamesNotOnUse(names[..i], before) else [])
    requires i > 0 ==> e == e0 + (if attached then ListUpdates(|NamesNotOnUse(names[..i], before)|) else [])
    requires q' == q + (if attached && !inUse then [names[i]] else [])
    requires e' == e + (if attached && !inUse then [SourcesListUpdated] else [])
    ensures q' == q0 + (if attached then NamesNotOnUse(names[..i + 1], before) else [])
    ensures e' == e0 + (if attached then ListUpdates(|NamesNotOnUse(names[..i + 1], before)|) else [])
    ensures i + 1 == |names| ==> names[..i + 1] == names
  {
    var prefix, n := names[..i], names[i];
    assert names[..i + 1] == prefix + [n];
    if i == 0 {
      assert q == q0 + [] && e == e0 + [];
    }
    NamesNotOnUseSnoc(prefix, n, before);
    var u := NamesNotOnUse(prefix, before);
    if attached {
      var step := if inUse then [] else [n];
      assert q' == q0 + (u + step);
      ListUpdatesAdd(|u|, |step|);
      assert ListUpdates(|step|) == if inUse then [] else [SourcesListUpdated];
      assert e' == e0 + (ListUpdates(|u|) + ListUpdates(|step|));
    } else {
      assert q' == q0 + [];
      assert e' == e0 + [];
    }
  }

  /** n list refreshes of the selector panel. */
  function ListUpdates(n: nat): (events: seq<UiEvent>)
    ensures |events| == n
    ensures forall i :: 0 <= i < n ==> events[i] == SourcesListUpdated
  {
    seq(n, _ => SourcesListUpdated)
  }

  lemma ListUpdatesAdd(a: nat, b: nat)
    ensures ListUpdates(a + b) == ListUpdates(a) + ListUpdates(b)
  {
  }

  /** The calls setInputSource makes on sources: the target is reset and then
      initialised; only when init succeeded is the previously active source reset. */
  function SwitchCalls(target: InputSource, previous: InputSource?, initOk: bool): (calls: seq<SourceCall>)
    ensures |calls| >= 2 && calls[0] == ResetCall(target) && calls[1] == InitCall(target)
    ensures !initOk ==> forall i :: 0 <= i < |calls| ==> calls[i].src == target
    ensures initOk && previous != null ==> calls[|calls| - 1] == ResetCall(previous)
    ensures !initOk && previous != null && previous != target ==> ResetCall(previous) !in calls
  {
    [ResetCall(target), InitCall(target)] + (if initOk && previous != null then [ResetCall(previous)] else [])
  }

  /** Re-selecting the active source ends with a reset of that source after
      it was initialised: the source that stays active was last told to reset. */
  lemma ReselectEndsWithReset(src: InputSource)
    ensures var calls := SwitchCalls(src, src, true);
            |calls| == 3 && calls[1] == InitCall(src) && calls[2] == ResetCall(src)
  {
  }

  /** The dialogs setInputSource raises for a target of type kind: a wait
      dialog exactly for slow-opening sources, always destroyed again, and an
      error dialog exactly when the open failed, after the wait dialog is gone. */
  function SwitchDialogs(kind: SourceType, initOk: bool): (events: seq<UiEvent>)
    ensures WaitDialogShown in events <==> OpensSlowly(kind)
    ensures ErrorDialogShown in events <==> !initOk
    ensures multiset(events)[WaitDialogShown] == multiset(events)[WaitDialogDestroyed] <= 1
    ensures !initOk ==> events[|events| - 1] == ErrorDialogShown
  {
    (if OpensSlowly(kind) then [WaitDialogShown, WaitDialogDestroyed] else []) +
    (if initOk then [] else [ErrorDialogShown])
  }

  /** A loaded object after start-up: its pause flag is as it was, and its
      creation time is as it was or, where it had none (-1), is `now`. */
  twostate predicate LoadedTouched(x: InputSource, now: int)
    reads x
  {
    && x.paused == old(x.paused)
    && (x.createdOn == old(x.createdOn) || (old(x.createdOn) == -1 && x.createdOn == now))
  }

  /** A newly registered object: a missing creation time (-1) became `now`,
      any other was kept. */
  twostate predicate Stamped(x: InputSource, now: int)
    reads x
  {
    x.createdOn == if old(x.createdOn) == -1 then now else old(x.createdOn)
  }

  class InputSourceManager {
    var lastMatFromSource: Mat
    var currentInputSource: InputSource?
    var sources: SourceMap
    /** Whether the visualizer's source selector panel exists. */
    var selectorAttached: bool

    var sourceCalls: seq<SourceCall>
    var loaderCalls: seq<LoaderCall>
    var uiEvents: seq<UiEvent>
    /** Names whose selection is waiting on the Swing event queue. */
    var swingQueue: seq<string>
    /** Tasks waiting on the main-update "do once" queue. */
    var mainQueue: seq<Task>

    /** Every registered source has been given a creation order. */
    ghost predicate Valid()
      reads this, sources.Values
    {
      forall k :: k in sources ==> sources[k].createdOn != -1
    }

    /** Every registered source carries the name it is registered under. */
    ghost predicate NamesStamped()
      reads this, sources.Values
    {
      forall k :: k in sources ==> sources[k].name == k
    }

    constructor (selectorAttached: bool)
      ensures Valid() && NamesStamped()
      ensures sources == map[] && currentInputSource == null && lastMatFromSource.Empty()
      ensures this.selectorAttached == selectorAttached
      ensures sourceCalls == [] && loaderCalls == [] && uiEvents == []
      ensures swingQueue == [] && mainQueue == []
    {
      lastMatFromSource := Mat([]);
      currentInputSource := null;
      sources := map[];
      this.selectorAttached := selectorAttached;
      sourceCalls, loaderCalls, uiEvents := [], [], [];
      swingQueue, mainQueue := [], [];
    }

    /** One tick: pass the pause flag to the active source, pull from it, and
        keep what it produced only if it is a non-empty frame; a throwing pull
        is swallowed. */
    method Update(isPaused: bool, pulled: Pull)
      requires Valid()
      modifies this`lastMatFromSource, this`sourceCalls, currentInputSource
      ensures Valid()
      ensures currentInputSource == old(currentInputSource)
      ensures old(currentInputSource) == null ==>
                lastMatFromSource == old(lastMatFromSource) && sourceCalls == old(sourceCalls)
      ensures currentInputSource != null ==>
                && currentInputSource.paused == isPaused
                && currentInputSource.name == old(currentInputSource.name)
                && currentInputSource.createdOn == old(currentInputSource.createdOn)
                && sourceCalls == old(sourceCalls) + [UpdateCall(currentInputSource)]
                && lastMatFromSource == AfterPull(old(lastMatFromSource), pulled)
    {
      if currentInputSource == null {
        return;
      }
      currentInputSource.paused := isPaused;
      sourceCalls := sourceCalls + [UpdateCall(currentInputSource)];
      match pulled
      case Frame(m) =>
        if !m.Empty() {
          lastMatFromSource := m;
        }
      case NoFrame =>
      case Threw =>
    }

    /** Registration: a null source or a name on use changes nothing;
        otherwise the source is stamped with its name, dated if undated,
        persisted unless built in, and offered to the selector panel. */
    method AddInputSource(name: string, inputSource: InputSource?, now: int)
      requires Valid()
      requires now >= 0  // a wall-clock reading in milliseconds
      modifies this`sources, this`loaderCalls, this`uiEvents, this`swingQueue, inputSource
      ensures Valid()
      ensures sources == Register(old(sources), name, inputSource)
      ensures IsNameOnUse(name) <==> old(IsNameOnUse(name)) || inputSource != null
      ensures inputSource == null || name in old(sources) ==>
                && loaderCalls == old(loaderCalls) && uiEvents == old(uiEvents)
                && swingQueue == old(swingQueue)
                && (inputSource != null ==> unchanged(inputSource))
      ensures inputSource != null && name !in old(sources) ==>
                && inputSource.name == name
                && inputSource.createdOn ==
                     (if old(inputSource.createdOn) == -1 then now else old(inputSource.createdOn))
                && inputSource.paused == old(inputSource.paused)
                && loaderCalls == old(loaderCalls) +
                     (if inputSource.isDefault then [] else [Save(name, inputSource), Flush])
                && uiEvents == old(uiEvents) + (if selectorAttached then [SourcesListUpdated] else [])
                && swingQueue == old(swingQueue) + (if selectorAttached then [name] else [])
      ensures old(NamesStamped()) && inputSource !in old(sources).Values ==> NamesStamped()
    {
      if inputSource == null {
        return;
      }
      if name in sources {
        return;
      }
      inputSource.name := name;
      sources := sources[name := inputSource];
      if inputSource.createdOn == -1 {
        inputSource.createdOn := now;
      }
      if !inputSource.isDefault {
        loaderCalls := loaderCalls + [Save(name, inputSource), Flush];
      }
      if selectorAttached {
        uiEvents := uiEvents + [SourcesListUpdated];
        swingQueue := swingQueue + [name];
      }
    }

    /** The Swing task a registration leaves: select the new entry, then have
        the main loop resume the pipeline and re-check for an image. */
    method SelectAddedSource()
      requires swingQueue != []
      modifies this`swingQueue, this`uiEvents, this`mainQueue
      ensures swingQueue == old(swingQueue)[1..]
      ensures uiEvents == old(uiEvents) + [SourceSelected(old(swingQueue)[0])]
      ensures mainQueue == old(mainQueue) + [ResumeThenPauseTwoFrames]
    {
      var name := swingQueue[0];
      swingQueue := swingQueue[1..];
      uiEvents := uiEvents + [SourceSelected(name)];
      mainQueue := mainQueue + [ResumeThenPauseTwoFrames];
    }

    /** A built-in image source, ranked by how many sources exist before it. */
    method CreateDefaultImgInputSource(sourceName: string, now: int) returns (src: InputSource)
      requires Valid()
      requires now >= 0
      modifies this`sources, this`loaderCalls, this`uiEvents, this`swingQueue
      ensures Valid()
      ensures fresh(src) && src.kind == IMAGE && src.isDefault && src.createdOn == |old(sources)|
      ensures sources == Register(old(sources), sourceName, src)
      ensures sourceName !in old(sources) ==> src.name == sourceName
      ensures loaderCalls == old(loaderCalls)
      ensures swingQueue == old(swingQueue) +
                (if selectorAttached && sourceName !in old(sources) then [sourceName] else [])
      ensures uiEvents == old(uiEvents) +
                (if selectorAttached && sourceName !in old(sources) then [SourcesListUpdated] else [])
    {
      src := new InputSource(IMAGE, true, |sources|);
      AddInputSource(sourceName, src, now);
    }

    /** Start-up: the three built-in images, then every source the loader
        read back. The names on use grow by exactly those names; a new
        built-in name is bound to a fresh built-in image carrying it; a loaded
        name that was neither registered nor built in is bound to a source the
        loader read back under that name. When the loaded objects are distinct
        and none was registered before, every new name is stamped on its
        source. */
    method Init(loaded: seq<(string, InputSource)>, now: int)
      requires Valid()
      requires now >= 0
      modifies this`sources, this`loaderCalls, this`uiEvents, this`swingQueue
      modifies set i | 0 <= i < |loaded| :: loaded[i].1
      ensures Valid()
      ensures forall k :: k in old(sources) ==> k in sources && sources[k] == old(sources)[k]
      ensures sources.Keys == old(sources).Keys + DefaultNameSet() + Names(loaded)
      ensures forall k :: k in sources && k !in old(sources) && k in DefaultNameSet() ==>
                && fresh(sources[k]) && sources[k].isDefault && sources[k].kind == IMAGE
                && sources[k].name == k
      ensures forall k :: k in sources && k !in old(sources) && k !in DefaultNameSet() ==>
                exists i :: 0 <= i < |loaded| && loaded[i] == (k, sources[k])
      ensures old(sources) == map[] ==> DefaultsRanked(sources)
      ensures DistinctUnregistered(loaded, old(sources)) ==>
                forall k :: k in sources && k !in old(sources) ==> sources[k].name == k
      ensures old(NamesStamped()) && DistinctUnregistered(loaded, old(sources)) ==> NamesStamped()
    {
      ghost var before := sources;
      CreateDefaultSources(now);
      ghost var defaults := sources;
      if DistinctUnregistered(loaded, before) {
        assert DistinctUnregistered(loaded, defaults);
      }
      AddLoadedSources(loaded, now);
      AdditionsRegister(defaults, loaded);
    }

    /** The three built-in images, each ranked by the number of sources
        registered before it; a name already on use is skipped. Each new one
        is offered to the selector panel, and none is persisted. */
    method CreateDefaultSources(now: int)
      requires Valid()
      requires now >= 0
      modifies this`sources, this`loaderCalls, this`uiEvents, this`swingQueue
      ensures Valid()
      ensures loaderCalls == old(loaderCalls)
      ensures forall k :: k in old(sources) ==> k in sources && sources[k] == old(sources)[k]
      ensures sources.Keys == old(sources).Keys + DefaultNameSet()
      ensures forall k :: k in sources && k !in old(sources) ==>
                && fresh(sources[k]) && sources[k].isDefault && sources[k].kind == IMAGE
                && sources[k].name == k
      ensures swingQueue == old(swingQueue) +
                (if selectorAttached then NamesNotOnUse(DefaultImageNames, old(sources)) else [])
      ensures uiEvents == old(uiEvents) +
                (if selectorAttached then ListUpdates(|NamesNotOnUse(DefaultImageNames, old(sources))|) else [])
      ensures old(sources) == map[] ==> DefaultsRanked(sources)
    {
      ghost var before := sources;
      var names := DefaultImageNames;
      assert names[0] != names[1] && names[0] != names[2] && names[1] != names[2];
      var a, b, c := CreateImageSources(names, now);
      ThreeRegistrations(before, names[0], names[1], names[2], a, b, c);
      assert DefaultNameSet() == {names[0], names[1], names[2]};
      forall k | k in sources && k !in before
        ensures && fresh(sources[k]) && sources[k].isDefault && sources[k].kind == IMAGE
                && sources[k].name == k
      {
        if k == names[0] {
          assert sources[k] == a;
        } else if k == names[1] {
          assert sources[k] == b;
        } else {
          assert sources[k] == c;
        }
      }
      if before == map[] {
        assert sources[names[0]] == a && sources[names[1]] == b && sources[names[2]] == c;
        RankedDefaults(sources, a, b, c);
      }
    }

    /** The built-in registrations of CreateDefaultSources, for any three
        distinct names; a, b and c are the sources created for them. */
    method CreateImageSources(names: seq<string>, now: int) returns (a: InputSource, b: InputSource, c: InputSource)
      requires Valid()
      requires now >= 0
      requires |names| == 3 && names[0] != names[1] && names[0] != names[2] && names[1] != names[2]
      modifies this`sources, this`loaderCalls, this`uiEvents, this`swingQueue
      ensures Valid()
      ensures loaderCalls == old(loaderCalls)
      ensures sources == Register(Register(Register(old(sources), names[0], a), names[1], b), names[2], c)
      ensures fresh(a) && fresh(b) && fresh(c)
      ensures a.isDefault && a.kind == IMAGE && (names[0] !in old(sources) ==> a.name == names[0])
      ensures b.isDefault && b.kind == IMAGE && (names[1] !in old(sources) ==> b.name == names[1])
      ensures c.isDefault && c.kind == IMAGE && (names[2] !in old(sources) ==> c.name == names[2])
      ensures old(sources) == map[] ==> a.createdOn == 0 && b.createdOn == 1 && c.createdOn == 2
      ensures swingQueue == old(swingQueue) +
                (if selectorAttached then NamesNotOnUse(names, old(sources)) else [])
      ensures uiEvents == old(uiEvents) +
                (if selectorAttached then ListUpdates(|NamesNotOnUse(names, old(sources))|) else [])
    {
      ghost var before := sources;
      ghost var q0, e0 := swingQueue, uiEvents;
      a := CreateDefaultImgInputSource(names[0], now);
      SelectorLogStep(names, 0, before, names[0] in before, selectorAttached,
                      q0, q0, swingQueue, e0, e0, uiEvents);
      ghost var s0 := sources;
      ghost var q1, e1 := swingQueue, uiEvents;
      b := CreateDefaultImgInputSource(names[1], now);
      SelectorLogStep(names, 1, before, names[1] in s0, selectorAttached,
                      q0, q1, swingQueue, e0, e1, uiEvents);
      ghost var s1 := sources;
      ghost var q2, e2 := swingQueue, uiEvents;
      c := CreateDefaultImgInputSource(names[2], now);
      SelectorLogStep(names, 2, before, names[2] in s1, selectorAttached,
                      q0, q2, swingQueue, e0, e2, uiEvents);
      if before == map[] {
        assert |s0| == 1 && |s1| == 2;
      }
    }

    /** Every source the loader read back, registered in the order given:
        the map becomes the map those registrations produce, entries already
        registered keep their source and its rank, and every loaded object
        keeps its pause flag and gets a creation time once registered. When
        the loaded objects are distinct and none was registered before, each
        new name is stamped on its source. */
    method AddLoadedSources(loaded: seq<(string, InputSource)>, now: int)
      requires Valid()
      requires now >= 0
      modifies this`sources, this`loaderCalls, this`uiEvents, this`swingQueue
      modifies set i | 0 <= i < |loaded| :: loaded[i].1
      ensures Valid()
      ensures sources == ApplyAll(old(sources), Additions(loaded))
      ensures forall k :: k in old(sources) ==>
                k in sources && sources[k] == old(sources)[k] &&
                sources[k].createdOn == old(sources[k].createdOn)
      ensures forall i :: 0 <= i < |loaded| ==> loaded[i].0 in sources
      ensures forall i :: 0 <= i < |loaded| ==> LoadedTouched(loaded[i].1, now)
      ensures forall i :: 0 <= i < |loaded| && loaded[i].1 in sources.Values ==> Stamped(loaded[i].1, now)
      ensures DistinctUnregistered(loaded, old(sources)) ==>
                forall k :: k in sources && k !in old(sources) ==> sources[k].name == k
      ensures old(NamesStamped()) && DistinctUnregistered(loaded, old(sources)) ==> NamesStamped()
    {
      RegisterLoaded(loaded, now);
      AdditionsRegister(old(sources), loaded);
    }

    /** The registration loop of `AddLoadedSources`. */
    method RegisterLoaded(loaded: seq<(string, InputSource)>, now: int)
      requires Valid()
      requires now >= 0
      modifies this`sources, this`loaderCalls, this`uiEvents, this`swingQueue
      modifies set i | 0 <= i < |loaded| :: loaded[i].1
      ensures Valid()
      ensures sources == ApplyAll(old(sources), Additions(loaded))
      ensures forall j :: 0 <= j < |loaded| ==> LoadedTouched(loaded[j].1, now)
      ensures DistinctUnregistered(loaded, old(sources)) ==>
                forall k :: k in sources && k !in old(sources) ==> sources[k].name == k
      ensures old(NamesStamped()) && DistinctUnregistered(loaded, old(sources)) ==> NamesStamped()
    {
      var i := 0;
      while i < |loaded|
        invariant 0 <= i <= |loaded|
        invariant Valid()
        invariant sources == ApplyAll(old(sources), Additions(loaded[..i]))
        invariant forall j :: 0 <= j < |loaded| ==> LoadedTouched(loaded[j].1, now)
        invariant DistinctUnregistered(loaded, old(sources)) ==>
                    forall k :: k in sources && k !in old(sources) ==> sources[k].name == k
        invariant old(NamesStamped()) && DistinctUnregistered(loaded, old(sources)) ==> NamesStamped()
      {
        AdditionsStep(old(sources), loaded, i);
        if DistinctUnregistered(loaded, old(sources)) {
          NextNotRegistered(old(sources), loaded, i);
        }
        AddInputSource(loaded[i].0, loaded[i].1, now);
        i := i + 1;
      }
      assert loaded[..i] == loaded;
    }

    /** Deletion: a missing name or a built-in source changes nothing;
        otherwise exactly that entry goes and the loader forgets it. */
    method DeleteInputSource(sourceName: string)
      requires Valid()
      modifies this`sources, this`loaderCalls
      ensures Valid()
      ensures sources == Unregister(old(sources), sourceName)
      ensures loaderCalls == old(loaderCalls) +
                (if sourceName in old(sources) && !old(sources)[sourceName].isDefault
                 then [Forget(sourceName), Flush] else [])
    {
      if sourceName !in sources {
        return;
      }
      var src := sources[sourceName];
      if src.isDefault {
        return;
      }
      sources := sources - {sourceName};
      loaderCalls := loaderCalls + [Forget(sourceName), Flush];
    }

    /** The switch: reset and open the target; on failure report it and keep
        the previous source active and untouched; on success reset the
        previous source, make the target active and, when pauseOnImages is
        set, queue the image pause. */
    method SetInputSource(sourceName: string, initOk: bool, pauseOnImages: bool) returns (ok: bool)
      requires Valid()
      requires sourceName in sources
      modifies this`currentInputSource, this`sourceCalls, this`uiEvents, this`mainQueue
      ensures Valid()
      ensures ok == initOk
      ensures sourceCalls == old(sourceCalls) + SwitchCalls(sources[sourceName], old(currentInputSource), initOk)
      ensures uiEvents == old(uiEvents) + SwitchDialogs(sources[sourceName].kind, initOk)
      ensures currentInputSource == if initOk then sources[sourceName] else old(currentInputSource)
      ensures mainQueue == old(mainQueue) +
                (if initOk && pauseOnImages then PauseIfImageTasks(sources[sourceName].kind) else [])
    {
      var src := sources[sourceName];
      ghost var calls0, events0 := sourceCalls, uiEvents;
      sourceCalls := sourceCalls + [ResetCall(src)];
      var waiting := ShowApwdIfNeeded(sourceName);
      sourceCalls := sourceCalls + [InitCall(src)];
      ghost var wait := if waiting then [WaitDialogShown, WaitDialogDestroyed] else [];
      if !initOk {
        if waiting {
          uiEvents := uiEvents + [WaitDialogDestroyed];
        }
        uiEvents := uiEvents + [ErrorDialogShown];
        assert uiEvents == events0 + (wait + [ErrorDialogShown]);
        assert sourceCalls == calls0 + ([ResetCall(src), InitCall(src)] + []);
        return false;
      }
      if waiting {
        uiEvents := uiEvents + [WaitDialogDestroyed];
      }
      assert uiEvents == events0 + (wait + []);
      if currentInputSource != null {
        sourceCalls := sourceCalls + [ResetCall(currentInputSource)];
        assert sourceCalls == calls0 + ([ResetCall(src), InitCall(src)] + [ResetCall(old(currentInputSource))]);
      } else {
        assert sourceCalls == calls0 + ([ResetCall(src), InitCall(src)] + []);
      }
      currentInputSource := src;
      if pauseOnImages {
        PauseIfImage();
      }
      return true;
    }

    function IsNameOnUse(name: string): (onUse: bool)
      reads this
      ensures onUse <==> name in sources
    {
      name in sources
    }

    /** Queue a single-shot-analysis pause when the active source is an image. */
    method PauseIfImage()
      requires currentInputSource != null
      modifies this`mainQueue
      ensures mainQueue == old(mainQueue) + PauseIfImageTasks(currentInputSource.kind)
    {
      if currentInputSource.kind == IMAGE {
        mainQueue := mainQueue + [PauseForImage];
      }
    }

    /** Queue the image check itself, so that it runs one main-loop tick later. */
    method PauseIfImageTwoFrames()
      modifies this`mainQueue
      ensures mainQueue == old(mainQueue) + [CallPauseIfImage]
    {
      mainQueue := mainQueue + [CallPauseIfImage];
    }

    /** Show the cancellable "Opening source..." dialog when the source is a
        camera or a video. */
    method ShowApwdIfNeeded(sourceName: string) returns (shown: bool)
      requires sourceName in sources
      modifies this`uiEvents
      ensures shown <==> OpensSlowly(sources[sourceName].kind)
      ensures uiEvents == old(uiEvents) + (if shown then [WaitDialogShown] else [])
    {
      shown := false;
      if GetSourceType(sourceName) == CAMERA || GetSourceType(sourceName) == VIDEO {
        shown := true;
        uiEvents := uiEvents + [WaitDialogShown];
      }
    }

    function GetSourceType(sourceName: string): (kind: SourceType)
      reads this
      requires sourceName in sources
      ensures kind == sources[sourceName].kind
    {
      sources[sourceName].kind
    }

    /** The registered sources in creation order: every registered name
        contributes its source exactly once, and nothing in the manager
        changes. The copy is sorted through the names it was read from,
        comparing their sources' creation order. */
    method GetSortedInputSources() returns (sorted: seq<InputSource>, ghost names: seq<string>)
      ensures Listing(sorted, names, sources)
      ensures SortedByCreation(sorted)
    {
      var keys: seq<string> := [];
      var rest := sources.Keys;
      while rest != {}
        invariant rest <= sources.Keys
        invariant |keys| + |rest| == |sources|
        invariant forall i :: 0 <= i < |keys| ==> keys[i] in sources && keys[i] !in rest
        invariant forall i, j :: 0 <= i < j < |keys| ==> keys[i] != keys[j]
        invariant forall k :: k in sources ==> k in rest || k in keys
        decreases rest
      {
        var k :| k in rest;
        keys := keys + [k];
        rest := rest - {k};
      }
      ghost var unsorted := keys;
      keys := SortByCreation(keys, sources);
      DistinctPermutation(keys, unsorted);
      forall k | k in sources ensures k in keys {
        assert k in multiset(unsorted);
      }
      var m := sources;
      sorted := seq(|keys|, i requires 0 <= i < |keys| => m[keys[i]]);
      names := keys;
    }
  }

  /** list holds the source of every name of m exactly once, in the order of
      the distinct names in names. */
  ghost predicate Listing(list: seq<InputSource>, names: seq<string>, m: SourceMap)
  {
    && |list| == |names| == |m|
    && (forall i :: 0 <= i < |names| ==> names[i] in m && list[i] == m[names[i]])
    && (forall i, j :: 0 <= i < j < |names| ==> names[i] != names[j])
    && (forall k :: k in m ==> k in names)
  }

  /** Collections.sort on the copy: insertion sort by creation order; the
      names are reordered, never lost, duplicated or invented. */
  method SortByCreation(names0: seq<string>, m: SourceMap) returns (names: seq<string>)
    requires forall t :: 0 <= t < |names0| ==> names0[t] in m
    ensures |names| == |names0| && multiset(names) == multiset(names0)
    ensures forall t :: 0 <= t < |names| ==> names[t] in m
    ensures forall a, b :: 0 <= a < b < |names| ==> m[names[a]].createdOn <= m[names[b]].createdOn
  {
    names := names0;
    var i := 1;
    while i < |names|
      invariant |names| == |names0| && multiset(names) == multiset(names0)
      invariant forall t :: 0 <= t < |names| ==> names[t] in m
      invariant forall a, b :: 0 <= a < b < i && b < |names| ==> m[names[a]].createdOn <= m[names[b]].createdOn
    {
      names := SiftDown(names, m, i);
      i := i + 1;
    }
  }

  /** One insertion step: move names[i] down into the sorted prefix names[..i]. */
  method SiftDown(names0: seq<string>, m: SourceMap, i: nat) returns (names: seq<string>)
    requires i < |names0|
    requires forall t :: 0 <= t < |names0| ==> names0[t] in m
    requires forall a, b :: 0 <= a < b < i ==> m[names0[a]].createdOn <= m[names0[b]].createdOn
    ensures |names| == |names0| && multiset(names) == multiset(names0)
    ensures forall t :: 0 <= t < |names| ==> names[t] in m
    ensures forall a, b :: 0 <= a < b <= i ==> m[names[a]].createdOn <= m[names[b]].createdOn
  {
    names := names0;
    var j := i;
    while j > 0 && m[names[j - 1]].createdOn > m[names[j]].createdOn
      invariant 0 <= j <= i
      invariant |names| == |names0| && multiset(names) == multiset(names0)
      invariant forall t :: 0 <= t < |names| ==> names[t] in m
      invariant forall a, b :: 0 <= a < b <= i && a != j && b != j ==> m[names[a]].createdOn <= m[names[b]].createdOn
      invariant forall b :: j < b <= i ==> m[names[j]].createdOn <= m[names[b]].createdOn
      invariant 0 < j < i ==> m[names[j - 1]].createdOn <= m[names[j + 1]].createdOn
    {
      SiftStep(names, m, i, j);
      names := names[j - 1 := names[j]][j := names[j - 1]];
      j := j - 1;
    }
  }

  /** Swapping the out-of-order pair at j - 1 and j moves the hole of the
      sorted prefix one place down and keeps the same names. */
  lemma SiftStep(names: seq<string>, m: SourceMap, i: nat, j: nat)
    requires 0 < j <= i < |names|
    requires forall t :: 0 <= t < |names| ==> names[t] in m
    requires m[names[j - 1]].createdOn > m[names[j]].createdOn
    requires forall a, b :: 0 <= a < b <= i && a != j && b != j ==> m[names[a]].createdOn <= m[names[b]].createdOn
    requires forall b :: j < b <= i ==> m[names[j]].createdOn <= m[names[b]].createdOn
    requires j < i ==> m[names[j - 1]].createdOn <= m[names[j + 1]].createdOn
    ensures var s := names[j - 1 := names[j]][j := names[j - 1]];
            && |s| == |names| && multiset(s) == multiset(names)
            && (forall t :: 0 <= t < |s| ==> s[t] in m)
            && (forall a, b :: 0 <= a < b <= i && a != j - 1 && b != j - 1 ==> m[s[a]].createdOn <= m[s[b]].createdOn)
            && (forall b :: j - 1 < b <= i ==> m[s[j - 1]].createdOn <= m[s[b]].createdOn)
            && (0 < j - 1 ==> m[s[j - 2]].createdOn <= m[s[j]].createdOn)
  {
  }

  /** Reordering distinct names keeps them distinct. */
  lemma DistinctPermutation(a: seq<string>, b: seq<string>)
    requires multiset(a) == multiset(b)
    requires forall i, j :: 0 <= i < j < |b| ==> b[i] != b[j]
    ensures forall i, j :: 0 <= i < j < |a| ==> a[i] != a[j]
  {
    DistinctCountsOne(b);
    forall i, j | 0 <= i < j < |a| ensures a[i] != a[j] {
      RepeatCountsTwo(a, i, j);
    }
  }

  lemma RepeatCountsTwo(a: seq<string>, i: nat, j: nat)
    requires i < j < |a|
    ensures a[i] == a[j] ==> multiset(a)[a[i]] >= 2
  {
    assert a == a[..j] + a[j..];
    assert a[i] in multiset(a[..j]) && a[j] in multiset(a[j..]);
  }

  lemma {:induction false} DistinctCountsOne(b: seq<string>)
    requires forall i, j :: 0 <= i < j < |b| ==> b[i] != b[j]
    ensures forall x :: multiset(b)[x] <= 1
    decreases |b|
  {
    if b != [] {
      var front := b[..|b| - 1];
      DistinctCountsOne(front);
      assert b == front + [b[|b| - 1]];
      assert b[|b| - 1] !in front;
    }
  }
}
