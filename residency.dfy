/**
 * What holds over a whole residency of the module: between PVRCore_Init
 * and PVRCore_Cleanup the kernel and DRM deliver any sequence of callbacks
 * (the DRM load/unload hooks calling PVRSRVSystemInit/DeInit, PCI probe and
 * remove, file open and release). These lemmas quantify over every such
 * sequence.
 */
module Residency {
  import opened Collaborators
  import opened Lifecycle

  /** One callback into the module, with the results of the external calls it makes. */
  datatype Callback =
    | SystemInitCall(dev: DeviceId, servicesResult: int)
    | SystemDeInitCall(dev: DeviceId)
    | ProbeCall(p: ProbeOutcome)
    | RemoveCall(dev: DeviceId)
    | OpenCall(file: FileId, gotModule: bool, openResult: int)
    | ReleaseCall(file: FileId)

  /**
   * The effect of one callback. DRM releases only files whose open
   * succeeded, so a release of any other file is never delivered and has
   * no effect here.
   */
  function Step(s: State, cfg: Build, c: Callback): State
  {
    match c
    case SystemInitCall(dev, res) => SystemInit(s, dev, res).st
    case SystemDeInitCall(dev) => SystemDeInit(s, dev)
    case ProbeCall(p) => Probe(s, cfg, p).st
    case RemoveCall(dev) => Remove(s, cfg, dev)
    case OpenCall(file, got, res) => Open(s, file, got, res).st
    case ReleaseCall(file) => if file in s.sessions then Release(s, file) else s
  }

  /** The effect of a sequence of callbacks, in order. */
  function Run(s: State, cfg: Build, cs: seq<Callback>): State
    decreases cs
  {
    if cs == [] then s else Run(Step(s, cfg, cs[0]), cfg, cs[1..])
  }

  /**
   * A callback calls PVRSRVInit only when it is PVRSRVSystemInit and the
   * guard is still clear; afterwards the guard is set, and no callback ever
   * clears it.
   */
  lemma StepInitCalls(s: State, cfg: Build, c: Callback)
    ensures InitCalls(Step(s, cfg, c).log) ==
      InitCalls(s.log) + (if c.SystemInitCall? && !s.calledSysInit then 1 else 0)
    ensures s.calledSysInit ==> Step(s, cfg, c).calledSysInit
    ensures c.SystemInitCall? ==> Step(s, cfg, c).calledSysInit
  {
    match c {
      case SystemInitCall(dev, res) =>
        if !s.calledSysInit {
          InitCallsAppend(s.log, [ServicesInit(Some(dev))]);
          assert [ServicesInit(Some(dev))][..0] == [];
        }
      case SystemDeInitCall(dev) =>
        AppendNoInit(s.log, [ServicesDeInit(dev)]);
      case ProbeCall(p) =>
        AppendNoInit(s.log, if cfg.drmExt then [] else [DrmGetPciDev(p.dev)]);
      case RemoveCall(dev) =>
        AppendNoInit(s.log, if cfg.drmExt then [ServicesDeInit(dev)] else [DrmPutDev(dev)]);
      case OpenCall(file, got, res) =>
        var added := if !got then [TryModuleGet]
          else [TryModuleGet, CommonOpen(file)] + (if res != 0 then [ModulePut] else []);
        assert Step(s, cfg, c).log == s.log + added;
        AppendNoInit(s.log, added);
      case ReleaseCall(file) =>
        if file in s.sessions {
          AppendNoInit(s.log, [CommonRelease(file), ModulePut]);
        }
    }
  }

  /** Appending calls none of which is PVRSRVInit leaves the count unchanged. */
  lemma AppendNoInit(log: seq<Event>, added: seq<Event>)
    requires forall e :: e in added ==> !e.ServicesInit?
    ensures InitCalls(log + added) == InitCalls(log)
  {
    InitCallsAppend(log, added);
    NoInitCalls(added);
  }

  /** A log without a PVRSRVInit event counts none. */
  lemma {:induction false} NoInitCalls(log: seq<Event>)
    requires forall e :: e in log ==> !e.ServicesInit?
    ensures InitCalls(log) == 0
  {
    if log != [] {
      assert forall e :: e in log[..|log| - 1] ==> e in log;
      NoInitCalls(log[..|log| - 1]);
    }
  }

  /**
   * Whatever callbacks arrive, PVRSRVSystemInit reaches PVRSRVInit at most
   * once, and not at all once bCalledSysInit is set.
   */
  lemma {:induction false} AtMostOneGlobalInit(s: State, cfg: Build, cs: seq<Callback>)
    ensures InitCalls(Run(s, cfg, cs).log) <= InitCalls(s.log) + (if s.calledSysInit then 0 else 1)
    ensures s.calledSysInit ==> Run(s, cfg, cs).calledSysInit
    decreases cs
  {
    if cs != [] {
      StepInitCalls(s, cfg, cs[0]);
      AtMostOneGlobalInit(Step(s, cfg, cs[0]), cfg, cs[1..]);
    }
  }

  /**
   * Every callback keeps the module count minus the number of open sessions
   * fixed: open pins exactly for a session it opened, release unpins
   * exactly the session it closes.
   */
  lemma {:induction false} SessionBalance(s: State, cfg: Build, cs: seq<Callback>)
    ensures Run(s, cfg, cs).refCount - |Run(s, cfg, cs).sessions| == s.refCount - |s.sessions|
    decreases cs
  {
    if cs != [] {
      StepBalance(s, cfg, cs[0]);
      SessionBalance(Step(s, cfg, cs[0]), cfg, cs[1..]);
    }
  }

  /** One callback keeps the module count minus the number of open sessions fixed. */
  lemma StepBalance(s: State, cfg: Build, c: Callback)
    ensures Step(s, cfg, c).refCount - |Step(s, cfg, c).sessions| == s.refCount - |s.sessions|
  {
    match c {
      case OpenCall(file, got, res) =>
        var r := Open(s, file, got, res);
        assert r.st.refCount - |r.st.sessions| == s.refCount - |s.sessions|;
      case ReleaseCall(file) =>
        if file in s.sessions {
          var t := Release(s, file);
          assert t.refCount - |t.sessions| == s.refCount - |s.sessions|;
        }
      case _ =>
    }
  }

  /**
   * Starting with no reference held beyond the open sessions, no sequence of
   * callbacks drives the module count below the number of open sessions,
   * so it never goes negative and stays positive while a session is open.
   */
  lemma RefCountCoversSessions(s: State, cfg: Build, cs: seq<Callback>)
    requires s.refCount >= |s.sessions|
    ensures Run(s, cfg, cs).refCount >= |Run(s, cfg, cs).sessions| >= 0
    ensures Run(s, cfg, cs).sessions != multiset{} ==> Run(s, cfg, cs).refCount > 0
  {
    SessionBalance(s, cfg, cs);
  }

  /** Two opens and one release leave one session open and the module pinned once more. */
  lemma TwoOpensOneRelease(s: State, cfg: Build, f1: FileId, f2: FileId)
    ensures var t := Run(s, cfg, [OpenCall(f1, true, 0), OpenCall(f2, true, 0), ReleaseCall(f1)]);
      t.refCount == s.refCount + 1 && t.sessions == s.sessions + multiset{f2}
  {
    var cs := [OpenCall(f1, true, 0), OpenCall(f2, true, 0), ReleaseCall(f1)];
    var s1 := Step(s, cfg, cs[0]);
    var s2 := Step(s1, cfg, cs[1]);
    var s3 := Step(s2, cfg, cs[2]);
    assert cs[1..][1..] == [ReleaseCall(f1)] && cs[1..][1..][1..] == [];
    assert Run(s, cfg, cs) == Run(s1, cfg, cs[1..]) == Run(s2, cfg, cs[1..][1..]) == Run(s3, cfg, []);
    assert s2.sessions - multiset{f1} == s.sessions + multiset{f2};
  }

  /**
   * PVRCore_Init calls PVRSRVInit only in the SUPPORT_DRM_EXT build, at most
   * once, and not at all when a probe already set the probe flag.
   */
  lemma LoadInitCalls(s: State, cfg: Build, o: LoadOracle)
    ensures InitCalls(CoreInit(s, cfg, o).st.log) <=
      InitCalls(s.log) + (if cfg.drmExt && !s.probeSucceeded then 1 else 0)
  {
    var added := Appended(s, CoreInit(s, cfg, o).st);
    assert CoreInit(s, cfg, o).st.log == s.log + added;
    InitCallsAppend(s.log, added);
    if (cfg.pdump && o.dbgDrvInit != 0) || o.driverInit != 0 {
      InitCallsOfFailedPrelude(s, cfg, o);
    } else {
      InitCallsAfterPrelude(s, cfg, o);
    }
  }

  /** A load that fails in its prelude makes no PVRSRVInit call. */
  lemma InitCallsOfFailedPrelude(s: State, cfg: Build, o: LoadOracle)
    requires (cfg.pdump && o.dbgDrvInit != 0) || o.driverInit != 0
    ensures InitCalls(Appended(s, CoreInit(s, cfg, o).st)) == 0
  {
    PreludeFailureStopsLoad(s, cfg, o);
    NoInitCalls(Appended(s, CoreInit(s, cfg, o).st));
  }

  /**
   * Past the prelude, the only PVRSRVInit PVRCore_Init can make is the
   * SUPPORT_DRM_EXT one, made only while the probe flag is clear.
   */
  lemma InitCallsAfterPrelude(s: State, cfg: Build, o: LoadOracle)
    requires !(cfg.pdump && o.dbgDrvInit != 0) && o.driverInit == 0
    ensures InitCalls(Appended(s, CoreInit(s, cfg, o).st)) <=
      (if cfg.drmExt && !s.probeSucceeded then 1 else 0)
  {
    var s2 := s.(log := s.log + Prelude(cfg));
    var a := Attach(s2, cfg, o);
    var mid := Appended(s2, a.st);
    var last := if a.ret == 0 && a.st.probeSucceeded then [DeviceInit] else [];
    LoadLogAfterPrelude(s, cfg, o);
    NoInitCalls(Prelude(cfg));
    NoInitCalls(last);
    InitCallsAppend(Prelude(cfg), mid);
    InitCallsAppend(Prelude(cfg) + mid, last);
    if !cfg.drmExt {
      NoInitCalls(mid);
    } else if s.probeSucceeded {
      assert mid == [];
    } else if mid != [] {
      assert mid[..0] == [];
    }
  }

  /** PVRCore_Cleanup makes no PVRSRVInit call. */
  lemma CleanupInitCalls(s: State, cfg: Build)
    ensures InitCalls(CoreCleanup(s, cfg).log) == InitCalls(s.log)
  {
    InitCallsAppend(s.log, Teardown(cfg));
    NoInitCalls(Teardown(cfg));
  }

  /**
   * From a clear guard, a sequence of callbacks reaches PVRSRVInit through
   * PVRSRVSystemInit at most once, and only if it leaves the guard set.
   */
  lemma {:induction false} InitCallsFromClearGuard(s: State, cfg: Build, cs: seq<Callback>)
    requires !s.calledSysInit
    ensures InitCalls(Run(s, cfg, cs).log) <=
      InitCalls(s.log) + (if Run(s, cfg, cs).calledSysInit then 1 else 0)
    decreases cs
  {
    if cs != [] {
      var s1 := Step(s, cfg, cs[0]);
      StepInitCalls(s, cfg, cs[0]);
      if s1.calledSysInit {
        AtMostOneGlobalInit(s1, cfg, cs[1..]);
      } else {
        InitCallsFromClearGuard(s1, cfg, cs[1..]);
      }
    }
  }

  /**
   * In the SUPPORT_DRM_EXT build every probe returns 0 and so sets the probe
   * flag, and no callback clears it.
   */
  lemma StepKeepsExtProbeFlag(s: State, cfg: Build, c: Callback)
    requires cfg.drmExt && (s.probeSucceeded || c.ProbeCall?)
    ensures Step(s, cfg, c).probeSucceeded
  {
  }

  /** In the SUPPORT_DRM_EXT build, once any probe has arrived the probe flag stays set. */
  lemma {:induction false} ExtProbeFlagSticks(s: State, cfg: Build, cs: seq<Callback>)
    requires cfg.drmExt && (s.probeSucceeded || exists c :: c in cs && c.ProbeCall?)
    ensures Run(s, cfg, cs).probeSucceeded
    decreases cs
  {
    if cs != [] {
      if s.probeSucceeded || cs[0].ProbeCall? {
        StepKeepsExtProbeFlag(s, cfg, cs[0]);
      } else {
        var c :| c in cs && c.ProbeCall?;
        assert c in cs[1..];
      }
      ExtProbeFlagSticks(Step(s, cfg, cs[0]), cfg, cs[1..]);
    }
  }

  /**
   * Over one whole residency -- callbacks before the load, PVRCore_Init,
   * callbacks after it, PVRCore_Cleanup -- PVRSRVInit is called at most
   * once through PVRSRVSystemInit, plus at most once by PVRCore_Init itself
   * in the SUPPORT_DRM_EXT build.
   */
  lemma OneGlobalInitPerResidency(cfg: Build, o: LoadOracle, pre: seq<Callback>, post: seq<Callback>)
    ensures var loaded := CoreInit(Run(Loaded(), cfg, pre), cfg, o).st;
      InitCalls(CoreCleanup(Run(loaded, cfg, post), cfg).log) <= (if cfg.drmExt then 2 else 1)
  {
    var before := Run(Loaded(), cfg, pre);
    var loaded := CoreInit(before, cfg, o).st;
    InitCallsFromClearGuard(Loaded(), cfg, pre);
    LoadInitCalls(before, cfg, o);
    AtMostOneGlobalInit(loaded, cfg, post);
    CleanupInitCalls(Run(loaded, cfg, post), cfg);
  }

  /**
   * In the SUPPORT_DRM_EXT build, a probe that arrives before PVRCore_Init
   * sets the probe flag, so the load skips its own PVRSRVInit and the whole
   * residency calls PVRSRVInit at most once.
   */
  lemma ProbeBeforeExtLoadInitsOnce(cfg: Build, o: LoadOracle, pre: seq<Callback>, post: seq<Callback>)
    requires cfg.drmExt && exists c :: c in pre && c.ProbeCall?
    ensures var loaded := CoreInit(Run(Loaded(), cfg, pre), cfg, o).st;
      InitCalls(CoreCleanup(Run(loaded, cfg, post), cfg).log) <= 1
  {
    var before := Run(Loaded(), cfg, pre);
    var loaded := CoreInit(before, cfg, o).st;
    ExtProbeFlagSticks(Loaded(), cfg, pre);
    InitCallsFromClearGuard(Loaded(), cfg, pre);
    LoadInitCalls(before, cfg, o);
    AtMostOneGlobalInit(loaded, cfg, post);
    CleanupInitCalls(Run(loaded, cfg, post), cfg);
  }

  /**
   * The bound of two is reached: in the SUPPORT_DRM_EXT build a load with no
   * earlier probe calls PVRSRVInit on a NULL device, and since that call
   * leaves bCalledSysInit clear, a later PVRSRVSystemInit calls it again.
   */
  lemma ExtBuildInitsTwice(dev: DeviceId)
    ensures var cfg := Build(false, true);
      var load := CoreInit(Loaded(), cfg, LoadOracle(0, 0, [], 0, 0, 0));
      var loaded := load.st;
      load.ret == 0 &&
      ServicesInit(None) in loaded.log && !loaded.calledSysInit &&
      SystemInit(loaded, dev, PVRSRV_OK).ret == 0 &&
      InitCalls(CoreCleanup(Run(loaded, cfg, [SystemInitCall(dev, PVRSRV_OK)]), cfg).log) == 2
  {
    var cfg := Build(false, true);
    ExtLoadWithoutProbe();
    var loaded := CoreInit(Loaded(), cfg, LoadOracle(0, 0, [], 0, 0, 0)).st;
    var cs := [SystemInitCall(dev, PVRSRV_OK)];
    var after := Run(loaded, cfg, cs);
    assert cs[1..] == [];
    assert after == Run(Step(loaded, cfg, cs[0]), cfg, cs[1..]);
    assert after.log == loaded.log + [ServicesInit(Some(dev))];
    InitCallsAppend(loaded.log, [ServicesInit(Some(dev))]);
    assert [ServicesInit(Some(dev))][..0] == [];
    CleanupInitCalls(after, cfg);
    assert InitCalls(loaded.log) == 1 by {
      assert loaded.log == [DriverInit, ServicesInit(None)] + [DeviceInit];
      InitCallsAppend([DriverInit, ServicesInit(None)], [DeviceInit]);
      InitCallsAppend([DriverInit], [ServicesInit(None)]);
      NoInitCalls([DeviceInit]);
      NoInitCalls([DriverInit]);
      assert [ServicesInit(None)][..0] == [];
    }
  }

  /**
   * With SUPPORT_DRM_EXT and no earlier callback, a load whose every call
   * succeeds calls PVRSRVDriverInit, PVRSRVInit on a NULL device and
   * PVRSRVDeviceInit, sets the probe flag and leaves bCalledSysInit clear.
   */
  lemma ExtLoadWithoutProbe()
    ensures CoreInit(Loaded(), Build(false, true), LoadOracle(0, 0, [], 0, 0, 0)) ==
      Outcome(State(false, true, None, 0, multiset{}, [DriverInit, ServicesInit(None), DeviceInit]), 0)
  {
    var cfg := Build(false, true);
    var o := LoadOracle(0, 0, [], 0, 0, 0);
    var s2 := Loaded().(log := Loaded().log + Prelude(cfg));
    assert s2 == State(false, false, None, 0, multiset{}, [DriverInit]);
    var a := Attach(s2, cfg, o);
    assert a == Outcome(State(false, true, None, 0, multiset{}, [DriverInit, ServicesInit(None)]), 0);
    assert CoreInit(Loaded(), cfg, o) == Finish(a, o);
  }

  /**
   * With SUPPORT_DRM_EXT and the probe flag already set, a load whose
   * prelude succeeds makes no PVRSRVInit call: it calls the prelude and then
   * PVRSRVDeviceInit, whose result it returns.
   */
  lemma ExtLoadWithFlagSetSkipsInit(s: State, cfg: Build, o: LoadOracle)
    requires cfg.drmExt && s.probeSucceeded
    requires (!cfg.pdump || o.dbgDrvInit == 0) && o.driverInit == 0
    ensures Appended(s, CoreInit(s, cfg, o).st) == Prelude(cfg) + [DeviceInit]
    ensures CoreInit(s, cfg, o).ret == o.deviceInit
  {
    var s2 := s.(log := s.log + Prelude(cfg));
    assert Attach(s2, cfg, o) == Outcome(s2, 0);
    LoadLogAfterPrelude(s, cfg, o);
    assert Appended(s2, s2) == [];
  }

  /**
   * With SUPPORT_DRM_EXT, PVRCore_Cleanup leaves bDriverProbeSucceeded set,
   * so a second PVRCore_Init on the same static state calls PVRSRVDriverInit
   * and then PVRSRVDeviceInit without calling PVRSRVInit again.
   */
  lemma ExtReloadSkipsInit()
    ensures var cfg := Build(false, true);
      var o := LoadOracle(0, 0, [], 0, 0, 0);
      var cleaned := CoreCleanup(CoreInit(Loaded(), cfg, o).st, cfg);
      cleaned.probeSucceeded && !cleaned.calledSysInit &&
      Appended(cleaned, CoreInit(cleaned, cfg, o).st) == [DriverInit, DeviceInit] &&
      CoreInit(cleaned, cfg, o).ret == 0
  {
    var cfg := Build(false, true);
    var o := LoadOracle(0, 0, [], 0, 0, 0);
    ExtLoadWithoutProbe();
    var cleaned := CoreCleanup(CoreInit(Loaded(), cfg, o).st, cfg);
    ExtLoadWithFlagSetSkipsInit(cleaned, cfg, o);
  }
}
