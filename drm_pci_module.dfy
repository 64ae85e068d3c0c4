/**
 * drm_pci_module.c as it runs: the module's static state is the state of one
 * object, and each function of the file is a method that updates it in
 * place. Results of the external calls are parameters; every external call
 * appends its event to the ghost call log. Each method is proved to do what
 * the matching function of Lifecycle specifies.
 */
module DrmPciModule {
  import opened Collaborators
  import opened Lifecycle

  class PvrModule {
    /** The build switches PDUMP and SUPPORT_DRM_EXT, fixed for the life of the module. */
    const pdump: bool
    const drmExt: bool

    /** bCalledSysInit */
    var calledSysInit: bool
    /** bDriverProbeSucceeded */
    var driverProbeSucceeded: bool
    /** gpsPVRLDMDev; None is NULL */
    var ldmDev: Option<DeviceId>
    /** The reference count of THIS_MODULE, moved by try_module_get and module_put. */
    var refCount: int

    /** The files whose open succeeded and that are not released yet. */
    ghost var sessions: multiset<FileId>
    /** Every external call made so far, in order. */
    ghost var log: seq<Event>

    /** Every open session holds one module reference. */
    ghost predicate Valid()
      reads this
    {
      refCount >= |sessions|
    }

    /** The object's state as a Lifecycle value. */
    ghost function Abs(): State
      reads this
    {
      State(calledSysInit, driverProbeSucceeded, ldmDev, refCount, sessions, log)
    }

    function Cfg(): Build
    {
      Build(pdump, drmExt)
    }

    /** The module right after it is loaded: the static flags are zero-initialised. */
    constructor (pdump: bool, drmExt: bool)
      ensures Valid() && Abs() == Loaded() && Cfg() == Build(pdump, drmExt)
    {
      this.pdump := pdump;
      this.drmExt := drmExt;
      calledSysInit := false;
      driverProbeSucceeded := false;
      ldmDev := None;
      refCount := 0;
      sessions := multiset{};
      log := [];
    }

    /** PVRSRVSystemInit (lines 129-148). */
    method SystemInit(dev: DeviceId, servicesResult: int) returns (err: int)
      requires Valid()
      modifies this
      ensures Valid()
      ensures Abs() == Lifecycle.SystemInit(old(Abs()), dev, servicesResult).st
      ensures err == Lifecycle.SystemInit(old(Abs()), dev, servicesResult).ret
      ensures calledSysInit && (old(calledSysInit) ==> err == 0 && log == old(log))
    {
      if !calledSysInit {
        ldmDev := Some(dev);
        calledSysInit := true;
        log := log + [ServicesInit(Some(dev))];
        if servicesResult != PVRSRV_OK {
          return -ENODEV;
        }
      }
      return 0;
    }

    /** PVRSRVSystemDeInit (lines 163-170). */
    method SystemDeInit(dev: DeviceId)
      requires Valid()
      modifies this
      ensures Valid()
      ensures Abs() == Lifecycle.SystemDeInit(old(Abs()), dev)
      ensures ldmDev == None && calledSysInit == old(calledSysInit)
    {
      log := log + [ServicesDeInit(dev)];
      ldmDev := None;
    }

    /** PVRSRVDriverProbe (lines 186-198), with drm_get_pci_dev's result given. */
    method DriverProbe(p: ProbeOutcome) returns (result: int)
      requires Valid()
      modifies this
      ensures Valid()
      ensures Abs() == Lifecycle.Probe(old(Abs()), Cfg(), p).st
      ensures result == Lifecycle.Probe(old(Abs()), Cfg(), p).ret
      ensures driverProbeSucceeded <==> result == 0
    {
      result := 0;
      if !drmExt {
        log := log + [DrmGetPciDev(p.dev)];
        result := p.bindResult;
      }
      driverProbeSucceeded := result == 0;
    }

    /** PVRSRVDriverRemove (lines 216-225). */
    method DriverRemove(dev: DeviceId)
      requires Valid()
      modifies this
      ensures Valid()
      ensures Abs() == Lifecycle.Remove(old(Abs()), Cfg(), dev)
    {
      if !drmExt {
        log := log + [DrmPutDev(dev)];
      } else {
        SystemDeInit(dev);
      }
    }

    /** try_module_get(THIS_MODULE), whose outcome is given. */
    method TryModuleGet(succeeds: bool) returns (got: bool)
      modifies this
      ensures got == succeeds
      ensures refCount == old(refCount) + (if got then 1 else 0)
      ensures log == old(log) + [Event.TryModuleGet]
      ensures calledSysInit == old(calledSysInit) && driverProbeSucceeded == old(driverProbeSucceeded)
      ensures ldmDev == old(ldmDev) && sessions == old(sessions)
    {
      log := log + [Event.TryModuleGet];
      got := succeeds;
      if got {
        refCount := refCount + 1;
      }
    }

    /** module_put(THIS_MODULE). */
    method ModulePut()
      modifies this
      ensures refCount == old(refCount) - 1
      ensures log == old(log) + [Event.ModulePut]
      ensures calledSysInit == old(calledSysInit) && driverProbeSucceeded == old(driverProbeSucceeded)
      ensures ldmDev == old(ldmDev) && sessions == old(sessions)
    {
      log := log + [Event.ModulePut];
      refCount := refCount - 1;
    }

    /** PVRSRVOpen (lines 244-262), with the results of try_module_get and PVRSRVCommonOpen given. */
    method Open(file: FileId, gotModule: bool, openResult: int) returns (err: int)
      requires Valid()
      modifies this
      ensures Valid()
      ensures Abs() == Lifecycle.Open(old(Abs()), file, gotModule, openResult).st
      ensures err == Lifecycle.Open(old(Abs()), file, gotModule, openResult).ret
      ensures refCount == old(refCount) + (if err == 0 then 1 else 0)
    {
      var got := TryModuleGet(gotModule);
      if !got {
        return -ENOENT;
      }
      log := log + [CommonOpen(file)];
      err := openResult;
      if err != 0 {
        ModulePut();
      } else {
        sessions := sessions + multiset{file};
      }
    }

    /** PVRSRVRelease (lines 282-289), for a file whose open succeeded. */
    method Release(file: FileId)
      requires Valid() && file in sessions
      modifies this
      ensures Valid()
      ensures Abs() == Lifecycle.Release(old(Abs()), file)
      ensures refCount == old(refCount) - 1 >= 0
    {
      log := log + [CommonRelease(file)];
      sessions := sessions - multiset{file};
      ModulePut();
    }

    /**
     * drm_pci_init (line 336): registers the PCI driver, delivers the probes
     * in `probes` one by one through DriverProbe, then returns `result`.
     */
    method PciInit(probes: seq<ProbeOutcome>, result: int) returns (error: int)
      requires Valid() && !drmExt
      modifies this
      ensures Valid()
      ensures Abs() == ProbeAll(old(Abs()).(log := old(log) + [DrmPciInit]), Cfg(), probes)
      ensures error == result
    {
      log := log + [DrmPciInit];
      ghost var registered := Abs();
      var i := 0;
      while i < |probes|
        invariant 0 <= i <= |probes|
        invariant Valid()
        invariant Abs() == ProbeAll(registered, Cfg(), probes[..i])
      {
        ghost var before := Abs();
        assert probes[..i + 1][..i] == probes[..i];
        assert ProbeAll(registered, Cfg(), probes[..i + 1]) == Probe(before, Cfg(), probes[i]).st;
        var _ := DriverProbe(probes[i]);
        i := i + 1;
      }
      assert probes[..i] == probes;
      error := result;
    }

    /**
     * Lines 335-353 of PVRCore_Init: drm_pci_init, which delivers the probes
     * in o.probes, each through DriverProbe, before it returns o.pciInit; or,
     * with SUPPORT_DRM_EXT, PVRSRVInit when no probe has succeeded.
     */
    method Attach(o: LoadOracle) returns (error: int)
      requires Valid()
      modifies this
      ensures Valid()
      ensures Abs() == Lifecycle.Attach(old(Abs()), Cfg(), o).st
      ensures error == Lifecycle.Attach(old(Abs()), Cfg(), o).ret
    {
      if !drmExt {
        error := PciInit(o.probes, o.pciInit);
      } else if !driverProbeSucceeded {
        log := log + [ServicesInit(ldmDev)];
        error := o.servicesInit;
        if error == 0 {
          driverProbeSucceeded := true;
        }
      } else {
        error := 0;
      }
    }

    /** PVRCore_Init (lines 313-362): stops at the first failing step. */
    method CoreInit(o: LoadOracle) returns (error: int)
      requires Valid()
      modifies this
      ensures Valid()
      ensures Abs() == Lifecycle.CoreInit(old(Abs()), Cfg(), o).st
      ensures error == Lifecycle.CoreInit(old(Abs()), Cfg(), o).ret
    {
      if pdump {
        log := log + [DbgDrvInit];
        error := o.dbgDrvInit;
        if error != 0 {
          return;
        }
      }
      log := log + [DriverInit];
      error := o.driverInit;
      if error != 0 {
        return;
      }
      assert Abs() == old(Abs()).(log := old(log) + Prelude(Cfg()));
      error := Attach(o);
      if error != 0 {
        return;
      }
      if !driverProbeSucceeded {
        return;
      }
      log := log + [DeviceInit];
      error := o.deviceInit;
    }

    /** PVRCore_Cleanup (lines 386-407): every step, in order, whatever happened before. */
    method CoreCleanup()
      requires Valid()
      modifies this
      ensures Valid()
      ensures Abs() == Lifecycle.CoreCleanup(old(Abs()), Cfg())
    {
      ghost var steps := Teardown(Cfg());
      log := log + [DeviceDeinit];
      assert log == old(log) + steps[..1];
      if !drmExt {
        log := log + [DrmPciExit];
      } else {
        log := log + [PciUnregisterDriver];
      }
      assert log == old(log) + steps[..2];
      log := log + [DriverDeinit];
      assert log == old(log) + steps[..3];
      if pdump {
        log := log + [DbgDrvCleanup];
      }
      assert log == old(log) + steps;
    }
  }
}
