/**
 * The module-level state of drm_pci_module.c as a value, and one pure
 * function per function of that file giving the state and the return value
 * it produces. These functions are the specification the class in
 * DrmPciModule is proved against; the lemmas here state what the source
 * promises about each of them.
 */
module Lifecycle {
  import opened Collaborators

  /**
   * calledSysInit   -- bCalledSysInit
   * probeSucceeded  -- bDriverProbeSucceeded
   * ldmDev          -- gpsPVRLDMDev (NULL is None)
   * refCount        -- the reference count of THIS_MODULE
   * sessions        -- the DRM files whose open succeeded and that are not yet released
   * log             -- every external call made so far, in order
   */
  datatype State = State(
    calledSysInit: bool,
    probeSucceeded: bool,
    ldmDev: Option<DeviceId>,
    refCount: int,
    sessions: multiset<FileId>,
    log: seq<Event>)

  /** A new state together with the C return value of the call that produced it. */
  datatype Outcome = Outcome(st: State, ret: int)

  /** One probe callback delivered by the PCI core: the device and what drm_get_pci_dev returns for it. */
  datatype ProbeOutcome = ProbeOutcome(dev: DeviceId, bindResult: int)

  /**
   * The results of the external calls PVRCore_Init makes: dbgdrv_init,
   * PVRSRVDriverInit, the probes drm_pci_init triggers and its own result,
   * PVRSRVInit (SUPPORT_DRM_EXT build) and PVRSRVDeviceInit.
   */
  datatype LoadOracle = LoadOracle(
    dbgDrvInit: int,
    driverInit: int,
    probes: seq<ProbeOutcome>,
    pciInit: int,
    servicesInit: int,
    deviceInit: int)

  /** The state right after the module is loaded: both flags clear, no device, no reference, no call. */
  function Loaded(): State
  {
    State(false, false, None, 0, multiset{}, [])
  }

  /** The events a call appended to the log. */
  function Appended(before: State, after: State): seq<Event>
    requires before.log <= after.log
  {
    after.log[|before.log|..]
  }

  /**
   * PVRSRVSystemInit: the first call records the device, sets the flag and
   * then calls PVRSRVInit; every later call does nothing and returns 0, even
   * when the first PVRSRVInit failed.
   */
  function SystemInit(s: State, dev: DeviceId, servicesResult: int): (r: Outcome)
    ensures r.st.calledSysInit
    ensures r.ret == 0 || r.ret == -ENODEV
    ensures s.calledSysInit ==> r == Outcome(s, 0)
    ensures !s.calledSysInit ==>
      r.st.ldmDev == Some(dev) && r.st.log == s.log + [ServicesInit(Some(dev))]
    ensures !s.calledSysInit ==> (r.ret == 0 <==> servicesResult == PVRSRV_OK)
    ensures r.st == s.(calledSysInit := true, ldmDev := r.st.ldmDev, log := r.st.log)
  {
    if s.calledSysInit then Outcome(s, 0)
    else
      var s' := s.(ldmDev := Some(dev), calledSysInit := true);
      var s'' := s'.(log := s'.log + [ServicesInit(Some(dev))]);
      Outcome(s'', if servicesResult != PVRSRV_OK then -ENODEV else 0)
  }

  /**
   * PVRSRVSystemDeInit: always calls PVRSRVDeInit and forgets the device;
   * it leaves bCalledSysInit as it is.
   */
  function SystemDeInit(s: State, dev: DeviceId): (r: State)
    ensures r.ldmDev == None
    ensures r.log == s.log + [ServicesDeInit(dev)]
    ensures r == s.(ldmDev := None, log := r.log)
  {
    s.(log := s.log + [ServicesDeInit(dev)], ldmDev := None)
  }

  /**
   * PVRSRVDriverProbe: the result is what drm_get_pci_dev returns (0 in the
   * SUPPORT_DRM_EXT build, where nothing is bound) and the probe flag becomes
   * exactly "that result is 0", whatever it was before.
   */
  function Probe(s: State, cfg: Build, p: ProbeOutcome): (r: Outcome)
    ensures r.ret == (if cfg.drmExt then 0 else p.bindResult)
    ensures r.st.probeSucceeded <==> r.ret == 0
    ensures r.st.log == s.log + (if cfg.drmExt then [] else [DrmGetPciDev(p.dev)])
    ensures r.st == s.(probeSucceeded := r.st.probeSucceeded, log := r.st.log)
  {
    var result := if cfg.drmExt then 0 else p.bindResult;
    var log := if cfg.drmExt then s.log else s.log + [DrmGetPciDev(p.dev)];
    Outcome(s.(probeSucceeded := result == 0, log := log), result)
  }

  /**
   * PVRSRVDriverRemove: hands the device back to DRM, or in the
   * SUPPORT_DRM_EXT build tears the services layer down for it.
   */
  function Remove(s: State, cfg: Build, dev: DeviceId): (r: State)
    ensures !cfg.drmExt ==> r == s.(log := s.log + [DrmPutDev(dev)])
    ensures cfg.drmExt ==> r.ldmDev == None && r.log == s.log + [ServicesDeInit(dev)]
    ensures r == s.(ldmDev := r.ldmDev, log := r.log)
  {
    if cfg.drmExt then SystemDeInit(s, dev) else s.(log := s.log + [DrmPutDev(dev)])
  }

  /**
   * PVRSRVOpen: pins the module, then opens the services session; a failed
   * pin returns -ENOENT without opening, a failed open drops the pin again.
   * The module count goes up by one exactly when the open returns 0.
   */
  function Open(s: State, file: FileId, gotModule: bool, openResult: int): (r: Outcome)
    ensures !gotModule ==> r.ret == -ENOENT && r.st == s.(log := s.log + [TryModuleGet])
    ensures gotModule ==> r.ret == openResult
    ensures gotModule ==> (r.st.log ==
      s.log + [TryModuleGet, CommonOpen(file)] + (if openResult != 0 then [ModulePut] else []))
    ensures r.st.refCount == s.refCount + (if r.ret == 0 then 1 else 0)
    ensures r.st.sessions == s.sessions + (if r.ret == 0 then multiset{file} else multiset{})
    ensures r.st == s.(refCount := r.st.refCount, sessions := r.st.sessions, log := r.st.log)
  {
    var tried := s.(log := s.log + [TryModuleGet]);
    if !gotModule then Outcome(tried, -ENOENT)
    else
      var pinned := tried.(refCount := tried.refCount + 1, log := tried.log + [CommonOpen(file)]);
      if openResult != 0 then
        Outcome(pinned.(refCount := pinned.refCount - 1, log := pinned.log + [ModulePut]), openResult)
      else
        Outcome(pinned.(sessions := pinned.sessions + multiset{file}), 0)
  }

  /**
   * PVRSRVRelease: closes the services session and drops exactly one module
   * reference; it has no failure path. DRM only releases a file whose open
   * succeeded.
   */
  function Release(s: State, file: FileId): (r: State)
    requires file in s.sessions
    ensures r.refCount == s.refCount - 1
    ensures r.sessions == s.sessions - multiset{file} && |r.sessions| == |s.sessions| - 1
    ensures r.log == s.log + [CommonRelease(file), ModulePut]
    ensures r == s.(refCount := r.refCount, sessions := r.sessions, log := r.log)
  {
    s.(sessions := s.sessions - multiset{file},
       refCount := s.refCount - 1,
       log := s.log + [CommonRelease(file), ModulePut])
  }

  /** The calls drm_get_pci_dev makes for a run of probes. */
  function ProbeEvents(cfg: Build, ps: seq<ProbeOutcome>): (r: seq<Event>)
    ensures |r| == (if cfg.drmExt then 0 else |ps|)
    ensures forall e :: e in r ==> e.DrmGetPciDev?
  {
    if cfg.drmExt then [] else seq(|ps|, i requires 0 <= i < |ps| => DrmGetPciDev(ps[i].dev))
  }

  /** The probes drm_pci_init triggers, applied one after another through Probe. */
  function ProbeAll(s: State, cfg: Build, ps: seq<ProbeOutcome>): (r: State)
    ensures r.log == s.log + ProbeEvents(cfg, ps)
    ensures r == s.(probeSucceeded := r.probeSucceeded, log := r.log)
  {
    if ps == [] then s
    else
      var prev := ProbeAll(s, cfg, ps[..|ps| - 1]);
      assert ProbeEvents(cfg, ps) == ProbeEvents(cfg, ps[..|ps| - 1]) + ProbeEvents(cfg, [ps[|ps| - 1]]);
      Probe(prev, cfg, ps[|ps| - 1]).st
  }

  /** The calls PVRCore_Init makes before it registers with the PCI core. */
  function Prelude(cfg: Build): seq<Event>
  {
    (if cfg.pdump then [DbgDrvInit] else []) + [DriverInit]
  }

  /** Every step of PVRCore_Init before the probe-flag check returned 0. */
  predicate PreludeOk(cfg: Build, o: LoadOracle)
  {
    (!cfg.pdump || o.dbgDrvInit == 0) && o.driverInit == 0 && (cfg.drmExt || o.pciInit == 0)
  }

  /**
   * The middle of PVRCore_Init: drm_pci_init with the probes it triggers,
   * or, in the SUPPORT_DRM_EXT build and only when no probe succeeded,
   * PVRSRVInit on the recorded device followed by setting the probe flag.
   * The result is the value of `error` afterwards.
   */
  function Attach(s: State, cfg: Build, o: LoadOracle): (r: Outcome)
    ensures s.log <= r.st.log && r.st.log == s.log + Appended(s, r.st)
    ensures DeviceInit !in Appended(s, r.st)
    ensures r.st == s.(probeSucceeded := r.st.probeSucceeded, log := r.st.log)
    ensures !cfg.drmExt ==>
      r.ret == o.pciInit && Appended(s, r.st) == [DrmPciInit] + ProbeEvents(cfg, o.probes)
    ensures cfg.drmExt ==> (r.ret == 0 <==> r.st.probeSucceeded)
    ensures cfg.drmExt && s.probeSucceeded ==> r == Outcome(s, 0)
    ensures cfg.drmExt && !s.probeSucceeded ==>
      Appended(s, r.st) == [ServicesInit(s.ldmDev)] && r.ret == o.servicesInit
  {
    if !cfg.drmExt then
      var r := ProbeAll(s.(log := s.log + [DrmPciInit]), cfg, o.probes);
      var added := [DrmPciInit] + ProbeEvents(cfg, o.probes);
      assert r.log == s.log + added;
      AppendedIs(s, r, added);
      Outcome(r, o.pciInit)
    else if !s.probeSucceeded then
      var s' := s.(log := s.log + [ServicesInit(s.ldmDev)]);
      AppendedIs(s, s', [ServicesInit(s.ldmDev)]);
      AppendedIs(s, s'.(probeSucceeded := true), [ServicesInit(s.ldmDev)]);
      if o.servicesInit != 0 then Outcome(s', o.servicesInit)
      else Outcome(s'.(probeSucceeded := true), 0)
    else
      AppendedIs(s, s, []);
      Outcome(s, 0)
  }

  /**
   * PVRCore_Init: dbgdrv_init (PDUMP), PVRSRVDriverInit, then Attach; the
   * first nonzero result is returned and nothing after it runs.
   * PVRSRVDeviceInit runs only when the probe flag is set; otherwise the
   * current error is returned.
   */
  function CoreInit(s: State, cfg: Build, o: LoadOracle): (r: Outcome)
    ensures s.log <= r.st.log
    ensures r.st == s.(probeSucceeded := r.st.probeSucceeded, log := r.st.log)
  {
    if cfg.pdump && o.dbgDrvInit != 0 then Outcome(s.(log := s.log + [DbgDrvInit]), o.dbgDrvInit)
    else if o.driverInit != 0 then Outcome(s.(log := s.log + Prelude(cfg)), o.driverInit)
    else Finish(Attach(s.(log := s.log + Prelude(cfg)), cfg, o), o)
  }

  /**
   * The end of PVRCore_Init: a nonzero `error` from Attach is returned;
   * otherwise PVRSRVDeviceInit runs only when the probe flag is set, and
   * when it is not, `error` (0) is returned.
   */
  function Finish(a: Outcome, o: LoadOracle): (r: Outcome)
    ensures r.st.log == a.st.log + (if a.ret == 0 && a.st.probeSucceeded then [DeviceInit] else [])
    ensures a.ret == 0 && a.st.probeSucceeded ==> r.ret == o.deviceInit
    ensures !(a.ret == 0 && a.st.probeSucceeded) ==> r == a
    ensures r.st == a.st.(log := r.st.log)
  {
    if a.ret != 0 || !a.st.probeSucceeded then a
    else Outcome(a.st.(log := a.st.log + [DeviceInit]), o.deviceInit)
  }

  /** The events appended by a call are exactly what was concatenated to the log. */
  lemma AppendedIs(before: State, after: State, added: seq<Event>)
    requires after.log == before.log + added
    ensures before.log <= after.log && Appended(before, after) == added
  {
  }

  /** The calls PVRCore_Cleanup makes, in order. */
  function Teardown(cfg: Build): seq<Event>
  {
    [DeviceDeinit, if cfg.drmExt then PciUnregisterDriver else DrmPciExit, DriverDeinit]
      + (if cfg.pdump then [DbgDrvCleanup] else [])
  }

  /**
   * PVRCore_Cleanup: every teardown call is made, in a fixed order, and
   * nothing else changes.
   */
  function CoreCleanup(s: State, cfg: Build): (r: State)
    ensures r == s.(log := r.log)
    ensures |r.log| == |s.log| + (if cfg.pdump then 4 else 3)
    ensures r.log[|s.log|] == DeviceDeinit && r.log[|s.log| + 2] == DriverDeinit
    ensures r.log[|s.log| + 1] == (if cfg.drmExt then PciUnregisterDriver else DrmPciExit)
    ensures cfg.pdump ==> r.log[|s.log| + 3] == DbgDrvCleanup
  {
    s.(log := s.log + Teardown(cfg))
  }

  // ---------------------------------------------------------------------
  // Properties of single operations and of short call sequences.
  // ---------------------------------------------------------------------

  /**
   * A first PVRSRVSystemInit whose PVRSRVInit fails returns -ENODEV but
   * leaves the flag set and the device recorded, so the next call returns 0
   * without calling PVRSRVInit again.
   */
  lemma FailedFirstInitIsNotRetried(s: State, dev: DeviceId, res: int, dev2: DeviceId, res2: int)
    requires !s.calledSysInit && res != PVRSRV_OK
    ensures SystemInit(s, dev, res).ret == -ENODEV
    ensures SystemInit(s, dev, res).st.ldmDev == Some(dev)
    ensures SystemInit(SystemInit(s, dev, res).st, dev2, res2) == Outcome(SystemInit(s, dev, res).st, 0)
    ensures InitCalls(SystemInit(SystemInit(s, dev, res).st, dev2, res2).st.log) == InitCalls(s.log) + 1
  {
    InitCallsAppend(s.log, [ServicesInit(Some(dev))]);
    assert [ServicesInit(Some(dev))][..0] == [];
  }

  /**
   * PVRSRVSystemDeInit does not re-arm the guard: a PVRSRVSystemInit after
   * it returns 0, calls nothing and leaves gpsPVRLDMDev NULL.
   */
  lemma DeInitDoesNotRearmInit(s: State, dev: DeviceId, res: int, dev2: DeviceId, res2: int)
    ensures var after := SystemDeInit(SystemInit(s, dev, res).st, dev2);
      after.calledSysInit &&
      SystemInit(after, dev, res2) == Outcome(after, 0) &&
      after.ldmDev == None
  {
  }

  /**
   * The probe flag reflects the last probe only: a probe that fails after
   * one that succeeded clears it.
   */
  lemma ProbeFlagIsLastProbe(s: State, cfg: Build, ps: seq<ProbeOutcome>)
    ensures ps == [] ==> ProbeAll(s, cfg, ps).probeSucceeded == s.probeSucceeded
    ensures ps != [] ==>
      ProbeAll(s, cfg, ps).probeSucceeded == (cfg.drmExt || ps[|ps| - 1].bindResult == 0)
  {
  }

  /** A scenario: bind succeeds on one device, then fails on another, which leaves the flag clear. */
  lemma FailingProbeClearsFlag(s: State, d1: DeviceId, d2: DeviceId, err: int)
    requires err != 0
    ensures ProbeAll(s, Build(false, false), [ProbeOutcome(d1, 0)]).probeSucceeded
    ensures !ProbeAll(s, Build(false, false), [ProbeOutcome(d1, 0), ProbeOutcome(d2, err)]).probeSucceeded
  {
    ProbeFlagIsLastProbe(s, Build(false, false), [ProbeOutcome(d1, 0)]);
    ProbeFlagIsLastProbe(s, Build(false, false), [ProbeOutcome(d1, 0), ProbeOutcome(d2, err)]);
  }

  /** Open followed by Release of the same file restores the module count and the open sessions. */
  lemma OpenReleaseBalance(s: State, file: FileId)
    ensures var afterOpen := Open(s, file, true, 0);
      afterOpen.ret == 0 && file in afterOpen.st.sessions &&
      Release(afterOpen.st, file).refCount == s.refCount &&
      Release(afterOpen.st, file).sessions == s.sessions
  {
    var afterOpen := Open(s, file, true, 0);
    assert afterOpen.st.sessions - multiset{file} == s.sessions;
  }

  /**
   * PVRCore_Init stops at the first failing step: its error is returned
   * and no later call is made.
   */
  lemma LoadStopsAtFirstFailure(s: State, cfg: Build, o: LoadOracle)
    ensures cfg.pdump && o.dbgDrvInit != 0 ==>
      CoreInit(s, cfg, o) == Outcome(s.(log := s.log + [DbgDrvInit]), o.dbgDrvInit)
    ensures (!cfg.pdump || o.dbgDrvInit == 0) && o.driverInit != 0 ==>
      CoreInit(s, cfg, o) == Outcome(s.(log := s.log + Prelude(cfg)), o.driverInit)
    ensures (!cfg.pdump || o.dbgDrvInit == 0) && o.driverInit == 0 && !cfg.drmExt && o.pciInit != 0 ==>
      CoreInit(s, cfg, o).ret == o.pciInit &&
      Appended(s, CoreInit(s, cfg, o).st) == Prelude(cfg) + [DrmPciInit] + ProbeEvents(cfg, o.probes)
    ensures ((!cfg.pdump || o.dbgDrvInit == 0) && o.driverInit == 0 && cfg.drmExt &&
      !s.probeSucceeded && o.servicesInit != 0) ==>
      CoreInit(s, cfg, o).ret == o.servicesInit &&
      Appended(s, CoreInit(s, cfg, o).st) == Prelude(cfg) + [ServicesInit(s.ldmDev)]
  {
    if (!cfg.pdump || o.dbgDrvInit == 0) && o.driverInit == 0 {
      AttachFailureEndsLoad(s, cfg, o);
    }
  }

  /** Past the prelude, a nonzero result from Attach is the result of the load, and nothing follows it. */
  lemma AttachFailureEndsLoad(s: State, cfg: Build, o: LoadOracle)
    requires (!cfg.pdump || o.dbgDrvInit == 0) && o.driverInit == 0
    ensures var a := Attach(s.(log := s.log + Prelude(cfg)), cfg, o);
      a.ret != 0 ==>
        CoreInit(s, cfg, o).ret == a.ret &&
        Appended(s, CoreInit(s, cfg, o).st) == Prelude(cfg) + Appended(s.(log := s.log + Prelude(cfg)), a.st)
  {
    LoadLogAfterPrelude(s, cfg, o);
  }

  /**
   * PVRSRVDeviceInit is called exactly when every earlier step succeeded and
   * the probe flag is set; when it is called, its result is the result of
   * the load and it is the last call made.
   */
  lemma DeviceInitIffProbeSucceeded(s: State, cfg: Build, o: LoadOracle)
    ensures var r := CoreInit(s, cfg, o);
      (DeviceInit in Appended(s, r.st)) <==> PreludeOk(cfg, o) && r.st.probeSucceeded
    ensures var r := CoreInit(s, cfg, o);
      DeviceInit in Appended(s, r.st) ==>
        r.ret == o.deviceInit && r.st.log[|r.st.log| - 1] == DeviceInit
  {
    if (cfg.pdump && o.dbgDrvInit != 0) || o.driverInit != 0 {
      PreludeFailureStopsLoad(s, cfg, o);
    } else {
      DeviceInitAfterAttach(s, cfg, o);
    }
  }

  /** When dbgdrv_init or PVRSRVDriverInit fails, the load ends there. */
  lemma PreludeFailureStopsLoad(s: State, cfg: Build, o: LoadOracle)
    requires (cfg.pdump && o.dbgDrvInit != 0) || o.driverInit != 0
    ensures !PreludeOk(cfg, o)
    ensures forall e :: e in Appended(s, CoreInit(s, cfg, o).st) ==> e in Prelude(cfg)
    ensures DeviceInit !in Appended(s, CoreInit(s, cfg, o).st)
  {
    var r := CoreInit(s, cfg, o);
    if cfg.pdump && o.dbgDrvInit != 0 {
      assert Appended(s, r.st) == [DbgDrvInit];
    } else {
      assert Appended(s, r.st) == Prelude(cfg);
    }
  }

  /** Once the prelude succeeded, PVRSRVDeviceInit follows Attach exactly when Attach left the flag set and returned 0. */
  lemma DeviceInitAfterAttach(s: State, cfg: Build, o: LoadOracle)
    requires !(cfg.pdump && o.dbgDrvInit != 0) && o.driverInit == 0
    ensures var r := CoreInit(s, cfg, o);
      (DeviceInit in Appended(s, r.st)) <==> PreludeOk(cfg, o) && r.st.probeSucceeded
    ensures var r := CoreInit(s, cfg, o);
      DeviceInit in Appended(s, r.st) ==>
        r.ret == o.deviceInit && r.st.log[|r.st.log| - 1] == DeviceInit
  {
    var s2 := s.(log := s.log + Prelude(cfg));
    var a := Attach(s2, cfg, o);
    var r := CoreInit(s, cfg, o);
    assert r == Finish(a, o);
    LoadLogAfterPrelude(s, cfg, o);
    assert DeviceInit !in Prelude(cfg) + Appended(s2, a.st);
    if a.ret == 0 && a.st.probeSucceeded {
      assert PreludeOk(cfg, o);
    } else {
      assert !(PreludeOk(cfg, o) && a.st.probeSucceeded);
    }
  }

  /**
   * Once the prelude succeeded, the load's calls are the prelude, the calls
   * Attach made, and PVRSRVDeviceInit exactly when Attach returned 0 with
   * the probe flag set.
   */
  lemma LoadLogAfterPrelude(s: State, cfg: Build, o: LoadOracle)
    requires !(cfg.pdump && o.dbgDrvInit != 0) && o.driverInit == 0
    ensures var s2 := s.(log := s.log + Prelude(cfg));
      var a := Attach(s2, cfg, o);
      Appended(s, CoreInit(s, cfg, o).st) ==
        Prelude(cfg) + Appended(s2, a.st) + (if a.ret == 0 && a.st.probeSucceeded then [DeviceInit] else [])
  {
    var s2 := s.(log := s.log + Prelude(cfg));
    var a := Attach(s2, cfg, o);
    var mid := Appended(s2, a.st);
    var last := if a.ret == 0 && a.st.probeSucceeded then [DeviceInit] else [];
    var r := Finish(a, o);
    assert CoreInit(s, cfg, o) == r;
    assert r.st.log == (s.log + Prelude(cfg)) + mid + last;
    ConcatAssoc(s.log, Prelude(cfg), mid, last);
    AppendedIs(s, r.st, Prelude(cfg) + mid + last);
  }

  /** Regrouping a log made of four parts. */
  lemma ConcatAssoc(a: seq<Event>, b: seq<Event>, c: seq<Event>, d: seq<Event>)
    ensures (a + b) + c + d == a + (b + c + d)
  {
  }

  /**
   * Without SUPPORT_DRM_EXT a load in which no probe succeeded still returns
   * 0 once registration succeeded: the module stays loaded and idle.
   */
  lemma LoadWithoutDeviceSucceeds(s: State, cfg: Build, o: LoadOracle)
    requires !cfg.drmExt && PreludeOk(cfg, o)
    requires o.probes == [] ==> !s.probeSucceeded
    requires o.probes != [] ==> o.probes[|o.probes| - 1].bindResult != 0
    ensures CoreInit(s, cfg, o).ret == 0
    ensures !CoreInit(s, cfg, o).st.probeSucceeded
    ensures DeviceInit !in Appended(s, CoreInit(s, cfg, o).st)
  {
    var s2 := s.(log := s.log + Prelude(cfg));
    ProbeFlagIsLastProbe(s2.(log := s2.log + [DrmPciInit]), cfg, o.probes);
    DeviceInitIffProbeSucceeded(s, cfg, o);
  }
}
