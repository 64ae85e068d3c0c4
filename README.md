# PowerVR Rogue module lifecycle (drm_pci_module.c)

This project models the module-lifecycle glue of the PowerVR Rogue GPU
driver for PCI systems: `drivers/staging/imgtec/rogue/drm_pci_module.c`.
The file connects the Linux PCI and DRM frameworks to the vendor services
layer. Its own logic is small. It has two static flags, `bCalledSysInit`
and `bDriverProbeSucceeded`. It records the device in `gpsPVRLDMDev`. It
pins the module while DRM files are open. It also fixes the order of the
calls made at load and at unload.

The project has four modules:

- `Collaborators` holds the identities of devices and files, the error
  codes, and the two build switches `PDUMP` and `SUPPORT_DRM_EXT` as a
  `Build` value. It also defines one `Event` per external call the file
  makes: kernel, DRM framework and services layer. `InitCalls` counts the
  `PVRSRVInit` calls in a call log.
- `Lifecycle` models the module's static state as a `State` value. The state
  holds both flags, the recorded device, the module reference count, the
  open sessions and the call log. There is one pure function per function
  of the file. Each returns the new state and the C return value, and each
  takes the results of the external calls as parameters. These functions
  are the specification. The lemmas beside them state what the file
  promises about each function and about short call sequences.
- `Residency` covers any sequence of callbacks: the DRM load/unload hooks
  calling `PVRSRVSystemInit` and `PVRSRVSystemDeInit`, PCI probe and remove,
  and file open and release. It proves the at-most-once global-init
  guarantee and the reference-count balance over all such sequences. It
  also proves a bound over a whole residency: callbacks, then
  `PVRCore_Init`, then more callbacks, then `PVRCore_Cleanup`. Callbacks
  can arrive before `PVRCore_Init` because, with `SUPPORT_DRM_EXT`, that
  function has external linkage (it loses `static` and `__init`, lines
  312-316) and is called from outside this file.
- `DrmPciModule.PvrModule` is the file as it runs. The static variables are
  fields of one object. Each function of the file is a method that updates
  them in place and appends to a ghost call log. Every method that models a
  function of the file is proved to leave exactly the state its `Lifecycle`
  function computes. `TryModuleGet` and `ModulePut` stand for the kernel's
  `try_module_get` and `module_put`; they only move the count.
  `drm_pci_init` delivers probe callbacks for the matching devices before
  it returns. `PciInit` models this as a loop that applies `DriverProbe` to
  each probe outcome in turn.

## Model

All source paths are under `drivers/staging/imgtec/rogue/`.

| member | source | states |
|---|---|---|
| Lifecycle.SystemInit | drivers/staging/imgtec/rogue/drm_pci_module.c:129-148 | afterwards the guard is always set and the result is 0 or -ENODEV; with the guard already set, nothing changes and 0 is returned; otherwise the device is recorded, exactly one PVRSRVInit(dev) is logged, and the result is 0 iff PVRSRVInit returned PVRSRV_OK; nothing else changes |
| Lifecycle.SystemDeInit | drivers/staging/imgtec/rogue/drm_pci_module.c:163-170 | PVRSRVDeInit(dev) is always called and gpsPVRLDMDev becomes NULL; the guard and everything else are unchanged |
| Lifecycle.Probe | drivers/staging/imgtec/rogue/drm_pci_module.c:186-198 | the result is drm_get_pci_dev's result unchanged (0 with SUPPORT_DRM_EXT, where nothing is bound or logged); the probe flag becomes exactly "result is 0"; nothing else changes |
| Lifecycle.Remove | drivers/staging/imgtec/rogue/drm_pci_module.c:216-225 | without SUPPORT_DRM_EXT only drm_put_dev is called; with it, the effect is PVRSRVSystemDeInit's (PVRSRVDeInit logged, device forgotten); flags and reference count unchanged |
| Lifecycle.Open | drivers/staging/imgtec/rogue/drm_pci_module.c:244-262 | a failed try_module_get returns -ENOENT and calls nothing else; otherwise PVRSRVCommonOpen's result is returned and a failure is followed by exactly one module_put; the reference count rises by 1, and the file joins the open sessions, iff the result is 0 |
| Lifecycle.Release | drivers/staging/imgtec/rogue/drm_pci_module.c:282-289 | for an open session, PVRSRVCommonRelease then module_put are called, the reference count drops by exactly 1 and exactly that file's session closes; nothing else changes |
| Lifecycle.ProbeAll | drivers/staging/imgtec/rogue/drm_pci_module.c:186-198 | a run of probes logs one drm_get_pci_dev per probe (none with SUPPORT_DRM_EXT) and changes only the probe flag and the log |
| Lifecycle.Attach | drivers/staging/imgtec/rogue/drm_pci_module.c:335-353 | without SUPPORT_DRM_EXT: drm_pci_init then one bind per probe and nothing else, drm_pci_init's result returned; with it: PVRSRVInit(gpsPVRLDMDev) exactly when the probe flag is clear, its error returned, and the flag set iff the result is 0; never PVRSRVDeviceInit |
| Lifecycle.Finish | drivers/staging/imgtec/rogue/drm_pci_module.c:355-361 | PVRSRVDeviceInit is called, and its result returned, exactly when the error so far is 0 and the probe flag is set; otherwise the current error is returned and nothing is called |
| Lifecycle.CoreInit | drivers/staging/imgtec/rogue/drm_pci_module.c:313-362 | a load only appends to the call log and changes no state except the probe flag |
| Lifecycle.CoreCleanup | drivers/staging/imgtec/rogue/drm_pci_module.c:386-407 | the log gains exactly PVRSRVDeviceDeinit, drm_pci_exit (or pci_unregister_driver with SUPPORT_DRM_EXT), PVRSRVDriverDeinit, and dbgdrv_cleanup with PDUMP, in that order, with no early exit; nothing else changes |
| Lifecycle.FailedFirstInitIsNotRetried | drivers/staging/imgtec/rogue/drm_pci_module.c:136-147 | a first PVRSRVInit failure returns -ENODEV and keeps the device recorded; a second PVRSRVSystemInit returns 0, changes nothing, and PVRSRVInit has been called exactly once |
| Lifecycle.DeInitDoesNotRearmInit | drivers/staging/imgtec/rogue/drm_pci_module.c:135-170 | after PVRSRVSystemInit then PVRSRVSystemDeInit, the guard is still set, the device is NULL, and a further PVRSRVSystemInit returns 0 and changes nothing |
| Lifecycle.ProbeFlagIsLastProbe | drivers/staging/imgtec/rogue/drm_pci_module.c:196 | after a run of probes, the flag is the last probe's outcome (unchanged after none) |
| Lifecycle.FailingProbeClearsFlag | drivers/staging/imgtec/rogue/drm_pci_module.c:193-196 | scenario: a failing bind after a successful one clears the probe flag |
| Lifecycle.OpenReleaseBalance | drivers/staging/imgtec/rogue/drm_pci_module.c:250-288 | a successful open followed by the release of that file restores the reference count and the set of open sessions |
| Lifecycle.LoadStopsAtFirstFailure | drivers/staging/imgtec/rogue/drm_pci_module.c:322-353 | the first failing step among dbgdrv_init, PVRSRVDriverInit, drm_pci_init and PVRSRVInit (SUPPORT_DRM_EXT) gives the load's result, and the log shows no call after it |
| Lifecycle.AttachFailureEndsLoad | drivers/staging/imgtec/rogue/drm_pci_module.c:335-353 | once the prelude succeeded, a nonzero error from the attach step is the load's result and the load's calls are the prelude's followed by the attach step's |
| Lifecycle.DeviceInitIffProbeSucceeded | drivers/staging/imgtec/rogue/drm_pci_module.c:317-362 | PVRSRVDeviceInit is called iff every earlier step succeeded and the probe flag is set; then its result is the load's result and it is the last call |
| Lifecycle.PreludeFailureStopsLoad | drivers/staging/imgtec/rogue/drm_pci_module.c:322-333 | when dbgdrv_init or PVRSRVDriverInit fails, the load calls nothing but those two, and never PVRSRVDeviceInit |
| Lifecycle.DeviceInitAfterAttach | drivers/staging/imgtec/rogue/drm_pci_module.c:335-361 | past the prelude, PVRSRVDeviceInit is called iff registration succeeded and the flag is set; then it is the last call and its result is returned |
| Lifecycle.LoadLogAfterPrelude | drivers/staging/imgtec/rogue/drm_pci_module.c:330-361 | past the prelude, the load's calls are the prelude, then the attach step's calls, then PVRSRVDeviceInit exactly when the attach step returned 0 with the flag set |
| Lifecycle.LoadWithoutDeviceSucceeds | drivers/staging/imgtec/rogue/drm_pci_module.c:335-359 | without SUPPORT_DRM_EXT, a load whose registration succeeded but whose last probe failed (or with no probe) returns 0 with the flag clear and no PVRSRVDeviceInit call |
| Residency.StepInitCalls | drivers/staging/imgtec/rogue/drm_pci_module.c:129-289 | of all callbacks, only PVRSRVSystemInit with the guard clear calls PVRSRVInit, once; no callback clears the guard |
| Residency.AtMostOneGlobalInit | drivers/staging/imgtec/rogue/drm_pci_module.c:135-147 | over any sequence of callbacks PVRSRVInit is reached through PVRSRVSystemInit at most once, and never once the guard is set |
| Residency.SessionBalance | drivers/staging/imgtec/rogue/drm_pci_module.c:244-289 | over any sequence of callbacks, the reference count minus the number of open sessions is unchanged |
| Residency.StepBalance | drivers/staging/imgtec/rogue/drm_pci_module.c:244-289 | each single callback keeps the reference count minus the number of open sessions unchanged |
| Residency.RefCountCoversSessions | drivers/staging/imgtec/rogue/drm_pci_module.c:250-288 | starting with the count covering the sessions, no sequence of callbacks brings the count below the number of open sessions, so the module stays pinned while a session is open |
| Residency.TwoOpensOneRelease | drivers/staging/imgtec/rogue/drm_pci_module.c:244-289 | two successful opens and one release leave the module pinned once more, with the other file's session open |
| Residency.LoadInitCalls | drivers/staging/imgtec/rogue/drm_pci_module.c:313-362 | PVRCore_Init's own body calls PVRSRVInit only with SUPPORT_DRM_EXT, at most once, and not at all when the probe flag is already set (the DRM load hook's PVRSRVSystemInit is a separate callback) |
| Residency.InitCallsOfFailedPrelude | drivers/staging/imgtec/rogue/drm_pci_module.c:322-333 | a load that fails in dbgdrv_init or PVRSRVDriverInit calls no PVRSRVInit |
| Residency.InitCallsAfterPrelude | drivers/staging/imgtec/rogue/drm_pci_module.c:335-361 | past the prelude, a load calls PVRSRVInit at most once, only with SUPPORT_DRM_EXT and only while the probe flag is clear |
| Residency.CleanupInitCalls | drivers/staging/imgtec/rogue/drm_pci_module.c:390-407 | PVRCore_Cleanup calls no PVRSRVInit |
| Residency.InitCallsFromClearGuard | drivers/staging/imgtec/rogue/drm_pci_module.c:135-147 | from a clear guard, any callback sequence reaches PVRSRVInit at most once, and only if it leaves the guard set |
| Residency.StepKeepsExtProbeFlag | drivers/staging/imgtec/rogue/drm_pci_module.c:186-225 | with SUPPORT_DRM_EXT a probe always sets the probe flag and no callback clears it |
| Residency.ExtProbeFlagSticks | drivers/staging/imgtec/rogue/drm_pci_module.c:186-225 | with SUPPORT_DRM_EXT, once a probe has arrived the probe flag stays set through any callback sequence |
| Residency.OneGlobalInitPerResidency | drivers/staging/imgtec/rogue/drm_pci_module.c:112-407 | from a fresh module, through any callbacks before the load, PVRCore_Init, any callbacks after it and PVRCore_Cleanup, PVRSRVInit is called at most once without SUPPORT_DRM_EXT and at most twice with it (once by PVRCore_Init, once by PVRSRVSystemInit) |
| Residency.ProbeBeforeExtLoadInitsOnce | drivers/staging/imgtec/rogue/drm_pci_module.c:343-352 | with SUPPORT_DRM_EXT and a probe before the load, the load skips its own PVRSRVInit and the whole residency calls PVRSRVInit at most once |
| Residency.ExtLoadWithoutProbe | drivers/staging/imgtec/rogue/drm_pci_module.c:313-362 | with SUPPORT_DRM_EXT and no earlier callback, a fully successful load calls PVRSRVDriverInit, PVRSRVInit(NULL) and PVRSRVDeviceInit in that order, returns 0, sets the probe flag and leaves bCalledSysInit clear |
| Residency.ExtBuildInitsTwice | drivers/staging/imgtec/rogue/drm_pci_module.c:343-352 | the bound of two is reached: with SUPPORT_DRM_EXT a successful load with no earlier probe calls PVRSRVInit on a NULL device and leaves bCalledSysInit clear, so a later successful PVRSRVSystemInit calls PVRSRVInit a second time |
| Residency.ExtLoadWithFlagSetSkipsInit | drivers/staging/imgtec/rogue/drm_pci_module.c:343-361 | with SUPPORT_DRM_EXT and the probe flag already set, a load whose prelude succeeds calls exactly the prelude and then PVRSRVDeviceInit, and returns its result |
| Residency.ExtReloadSkipsInit | drivers/staging/imgtec/rogue/drm_pci_module.c:313-407 | with SUPPORT_DRM_EXT, after a successful load and PVRCore_Cleanup the probe flag is still set, so a second PVRCore_Init on the same statics calls only PVRSRVDriverInit and PVRSRVDeviceInit and returns 0 |
| DrmPciModule.PvrModule.constructor | drivers/staging/imgtec/rogue/drm_pci_module.c:112-113 | a freshly loaded module has both flags clear, no device, no reference and no call made |
| DrmPciModule.PvrModule.SystemInit | drivers/staging/imgtec/rogue/drm_pci_module.c:129-148 | updates the fields to Lifecycle.SystemInit's state and returns its result; the guard is set afterwards |
| DrmPciModule.PvrModule.SystemDeInit | drivers/staging/imgtec/rogue/drm_pci_module.c:163-170 | updates the fields to Lifecycle.SystemDeInit's state; the guard is untouched |
| DrmPciModule.PvrModule.DriverProbe | drivers/staging/imgtec/rogue/drm_pci_module.c:186-198 | updates the fields to Lifecycle.Probe's state and returns its result; the flag is set iff the result is 0 |
| DrmPciModule.PvrModule.DriverRemove | drivers/staging/imgtec/rogue/drm_pci_module.c:216-225 | updates the fields to Lifecycle.Remove's state |
| DrmPciModule.PvrModule.TryModuleGet | drivers/staging/imgtec/rogue/drm_pci_module.c:250 | the count rises by one iff the pin succeeds; only the count and the log change |
| DrmPciModule.PvrModule.ModulePut | drivers/staging/imgtec/rogue/drm_pci_module.c:258 | the count drops by one; only the count and the log change |
| DrmPciModule.PvrModule.Open | drivers/staging/imgtec/rogue/drm_pci_module.c:244-262 | updates the fields to Lifecycle.Open's state and returns its result; the count rises by 1 iff the result is 0 |
| DrmPciModule.PvrModule.Release | drivers/staging/imgtec/rogue/drm_pci_module.c:282-289 | updates the fields to Lifecycle.Release's state; the count drops by exactly one and stays non-negative |
| DrmPciModule.PvrModule.PciInit | drivers/staging/imgtec/rogue/drm_pci_module.c:336 | logs drm_pci_init, then applies every probe it delivers through DriverProbe, leaving the fields at Lifecycle.ProbeAll's state, and returns drm_pci_init's result |
| DrmPciModule.PvrModule.Attach | drivers/staging/imgtec/rogue/drm_pci_module.c:335-353 | updates the fields to Lifecycle.Attach's state and returns its result, with each probe applied through DriverProbe |
| DrmPciModule.PvrModule.CoreInit | drivers/staging/imgtec/rogue/drm_pci_module.c:313-362 | updates the fields to Lifecycle.CoreInit's state and returns its result |
| DrmPciModule.PvrModule.CoreCleanup | drivers/staging/imgtec/rogue/drm_pci_module.c:386-407 | updates the fields to Lifecycle.CoreCleanup's state |

Every method that models a function of the file keeps `Valid()`: the
module reference count is at least the number of open sessions.

## Behaviour a reader might not expect

- A failed first `PVRSRVInit` leaves `bCalledSysInit` set, because the flag
  is set before the call (lines 138-143). A later `PVRSRVSystemInit`
  returns 0 and never retries (`FailedFirstInitIsNotRetried`).
- `bDriverProbeSucceeded` records only the last probe (line 196). It does
  not mean "some probe succeeded" (`ProbeFlagIsLastProbe`).
- Neither `PVRSRVSystemDeInit` nor `PVRCore_Cleanup` resets
  `bCalledSysInit` or `bDriverProbeSucceeded` (`DeInitDoesNotRearmInit`).
  Without `SUPPORT_DRM_EXT`, `PVRCore_Init` and `PVRCore_Cleanup` are the
  module's `module_init` and `module_exit` (lines 415-418), so the next load
  is a fresh module (`Loaded`).
- With `SUPPORT_DRM_EXT`, `PVRCore_Init` and `PVRCore_Cleanup` are plain
  functions called from outside this file (lines 312-316 and 385-389), and
  nothing in the file resets the statics between them. After a successful
  load, `PVRCore_Cleanup` leaves `bDriverProbeSucceeded` set. A second
  `PVRCore_Init` on the same statics then skips `PVRSRVInit` and calls
  `PVRSRVDeviceInit` right after `PVRSRVDriverInit`, although
  `PVRSRVDriverDeinit` already ran (`ExtLoadWithFlagSetSkipsInit`,
  `ExtReloadSkipsInit`).
- With `SUPPORT_DRM_EXT`, `PVRSRVInit` can run twice in one residency,
  although the comment at line 135 says it is designed to run once. If no
  probe arrived before the load, `PVRCore_Init` calls
  `PVRSRVInit(gpsPVRLDMDev)` itself (line 345). That call neither reads nor
  sets `bCalledSysInit`, so a later `PVRSRVSystemInit` calls `PVRSRVInit`
  again (lines 136-141). `ExtBuildInitsTwice` exhibits this, and
  `OneGlobalInitPerResidency` shows that two is the most.
- In that same case, `gpsPVRLDMDev` is still NULL when `PVRCore_Init`
  calls `PVRSRVInit`, because no other code in this file sets it (line
  138 is the only assignment of a device to it here).
  So the call is made on a NULL device (`ExtBuildInitsTwice`).
- With `SUPPORT_DRM_EXT`, `PVRCore_Init` returns `PVRSRVInit`'s
  `PVRSRV_ERROR` unchanged, and that value can be positive. It is not
  mapped to a negative errno (`LoadStopsAtFirstFailure`).
- Without `SUPPORT_DRM_EXT`, a load in which no probe succeeded returns 0,
  and the module stays loaded and idle (`LoadWithoutDeviceSucceeds`).

## Left out

- The bodies of the external calls (`PVRSRVInit`, `PVRSRVDeInit`,
  `PVRSRVDriverInit`, `PVRSRVDeviceInit`, `PVRSRVCommonOpen`,
  `PVRSRVCommonRelease`, `dbgdrv_init`, `drm_get_pci_dev`, `drm_put_dev`,
  `drm_pci_init`, `drm_pci_exit`, `pci_unregister_driver`,
  `try_module_get`) are not modelled. Their results are parameters, and
  each call appears as an event in the log.
- `PVRSRVSystemInit` is modelled as a callback of its own. It is reached
  through the DRM load hook in `pvr_drm.c`, which is not part of this
  model. So a probe's `drm_get_pci_dev` does not itself run
  `PVRSRVSystemInit` here; the caller delivers that callback separately.
  Without `SUPPORT_DRM_EXT`, the `PVRSRVSystemInit` a real load reaches runs
  inside `drm_pci_init`'s probes, but in `OneGlobalInitPerResidency` it can
  only be placed among the callbacks after `PVRCore_Init`. The bound is
  unaffected: the attach step of that build changes neither
  `bCalledSysInit` nor `gpsPVRLDMDev`, and `PVRSRVSystemInit` does not touch
  the probe flag (the frame clauses of `Attach` and `SystemInit`). So
  `LoadInitCalls`' "only with SUPPORT_DRM_EXT" counts the `PVRSRVInit` calls
  of `PVRCore_Init`'s own body, not those of the DRM load hook that its
  probes trigger.
- The remove callbacks that `drm_pci_exit` and `pci_unregister_driver`
  deliver during unload are not replayed inside `CoreCleanup`. A caller
  applies `DriverRemove` for them.
- With `SUPPORT_DRM_EXT`, how probes reach the module is outside this file.
  Probes are then delivered as `ProbeCall` callbacks.
- Suspend, resume and shutdown (`powervr_dev_pm_ops`, `.shutdown`, lines
  98-110) are pass-through registrations with no logic in this file.
- The PCI ID table and the module macros and annotations (lines 75-96 and
  415-418) are static data.
- `PVR_TRACE` and `PVR_DPF` logging is diagnostics only.
- Concurrency is not modelled: the kernel serialises the callbacks.
- The module reference count starts at 0, and references held by anyone
  other than this file are not modelled. The count is an unbounded integer.
- Error codes are unbounded integers. The width of `int` and the
  `PVRSRV_ERROR` enumeration are not modelled.
- Lifecycle.Release: requires an open session for the file, because DRM
  releases only files whose open succeeded. `Residency.Run` therefore
  ignores a release of a file with no open session rather than modelling
  one.
- Lifecycle.CoreInit: its own contract states only what a load may change.
  The ordering and failure promises are proved about it in the lemmas
  `LoadStopsAtFirstFailure`, `DeviceInitIffProbeSucceeded`,
  `LoadLogAfterPrelude` and `LoadWithoutDeviceSucceeds`.
