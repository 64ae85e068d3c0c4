/**
 * The world around the PowerVR module-lifecycle glue: identities of the
 * objects it is handed, the error codes it returns, the two build switches,
 * and one event per external call it makes (kernel, DRM framework, vendor
 * services layer). The bodies of those calls are not modelled; their results
 * are parameters of the operations that make them.
 */
module Collaborators {

  /** A PCI device (`struct pci_dev *`), by identity only. */
  type DeviceId = nat

  /** An open DRM file (`struct drm_file *`), by identity only. */
  type FileId = nat

  /** A pointer that may be NULL. */
  datatype Option<T> = None | Some(value: T)

  /** The vendor layer's success code. */
  const PVRSRV_OK: int := 0

  /** Linux errno values the module returns negated. */
  const ENOENT: int := 2
  const ENODEV: int := 19

  /**
   * The two compile-time switches: `PDUMP` (the debug driver is brought up
   * and torn down with the module) and `SUPPORT_DRM_EXT` (the DRM device is
   * owned by an external DRM driver, so the PCI probe does not bind one).
   */
  datatype Build = Build(pdump: bool, drmExt: bool)

  /** One external call made by the module. */
  datatype Event =
    | DbgDrvInit                        // dbgdrv_init
    | DbgDrvCleanup                     // dbgdrv_cleanup
    | DriverInit                        // PVRSRVDriverInit
    | DriverDeinit                      // PVRSRVDriverDeinit
    | DrmPciInit                        // drm_pci_init
    | DrmPciExit                        // drm_pci_exit
    | PciUnregisterDriver               // pci_unregister_driver
    | DrmGetPciDev(dev: DeviceId)       // drm_get_pci_dev
    | DrmPutDev(dev: DeviceId)          // drm_put_dev(pci_get_drvdata(dev))
    | ServicesInit(arg: Option<DeviceId>) // PVRSRVInit
    | ServicesDeInit(dev: DeviceId)     // PVRSRVDeInit
    | DeviceInit                        // PVRSRVDeviceInit
    | DeviceDeinit                      // PVRSRVDeviceDeinit
    | TryModuleGet                      // try_module_get(THIS_MODULE)
    | ModulePut                         // module_put(THIS_MODULE)
    | CommonOpen(file: FileId)          // PVRSRVCommonOpen
    | CommonRelease(file: FileId)       // PVRSRVCommonRelease

  /** Number of calls to `PVRSRVInit` in a call log. */
  function InitCalls(log: seq<Event>): nat
  {
    if log == [] then 0
    else InitCalls(log[..|log| - 1]) + (if log[|log| - 1].ServicesInit? then 1 else 0)
  }

  /** Counting `PVRSRVInit` calls distributes over concatenated logs. */
  lemma {:induction false} InitCallsAppend(a: seq<Event>, b: seq<Event>)
    ensures InitCalls(a + b) == InitCalls(a) + InitCalls(b)
  {
    if b != [] {
      assert (a + b)[..|a + b| - 1] == a + b[..|b| - 1];
      assert (a + b)[|a + b| - 1] == b[|b| - 1];
      InitCallsAppend(a, b[..|b| - 1]);
    } else {
      assert a + b == a;
    }
  }
}
