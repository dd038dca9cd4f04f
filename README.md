# Docker kernel manager, modelled in Dafny

jupyter_docker_kernels runs a Jupyter kernel inside a Docker container. Its
manager writes a connection file (transport, address, HMAC key and five fixed
ports) into a transient directory under the Jupyter runtime directory. It marks
that file and its parent with the sticky bit so that runtime-directory cleanup
leaves them alone. It starts the container with the directory mounted, reads
the container's bridge address, and returns the descriptor together with a
controller. The controller checks liveness, waits, delivers signals and tears
the kernel down.

The model has four modules, one per component of `manager.py`, and `Wrappers`:

- `StickyBit` (`sticky_bit.dfy`): `set_sticky_bit` as an imperative loop over
  the file and its parent. The filesystem is a value: `modes` maps each path
  `os.stat` can see to its 32-bit mode, and `chmodErrors` maps each path where
  `chmod` fails to its errno. The method returns the new modes, the
  RuntimeWarnings it would issue, and the path whose `stat` raised, if one did.
  It is proved equal to the fold `StickyOutcome`, and the properties are lemmas
  about that fold. `os.path.dirname` is modelled with its POSIX meaning.
- `ConnectionFile` (`connection_file.dfy`): `PORTS` and the descriptor
  dictionary built by `make_connection_file`, as a `map<string, Value>`. The
  dictionary update is a map union and the address overwrite is a map update.
- `KernelManager` (`kernel_manager.dfy`): class `DockerKernelManager`. Its
  fields are the container as the runtime knows it, the connection-file
  directory, and a log of every runtime call and the directory release. `Valid()` ties the container
  state to the log through `Replay`.
- `Launch` (`launch.dfy`): the address check and merge of `launch`, and the
  construction of the controller.
- `Wrappers` (`wrappers.dfy`): `Option`, `Result` and `Outcome`, which stand
  for the exceptions that are raised or propagated.

Inputs the program reads from the outside world are parameters:
- the random UUID key;
- whether the platform has `S_ISVTX`;
- the container state reported by the reload in `launch`;
- whether a `wait` finished before its timeout.

The container runtime is abstract:
- a call on a container the runtime no longer knows fails with `NotFound`;
- `stop` leaves the container exited;
- `remove` makes it unknown;
- a `wait` that returns before its timeout means the container has exited;
- nothing else changes the container.

Points where the code's behaviour is easy to misread; the model follows the code:

- A failed launch (no address) does not stop or remove the container it
  started. The code raises at once.
- `set_sticky_bit` warns about every chmod failure except EPERM on the parent
  directory. The owner of the path plays no part.
- An `os.stat` failure is not caught, so `set_sticky_bit` can raise.
- `cleanup` has no torn-down state. A second `cleanup` fails with `NotFound`
  from `stop`, and so does every later runtime call. `is_alive` reports false.
- `wait` swallows only a timeout. A `wait` on a container the runtime no
  longer knows fails with `NotFound`.

## Model

| member | source | states |
|---|---|---|
| `StickyBit.WithSticky` | jupyter_docker_kernels/manager.py:38-40 | the requested mode keeps every bit of the old mode and has S_ISVTX set; it differs from the old mode exactly when the sticky bit was clear |
| `StickyBit.WithStickyOnlySetsSticky` | jupyter_docker_kernels/manager.py:39 | no bit other than S_ISVTX changes, and asking for the sticky bit twice gives the mode that asking once gives |
| `StickyBit.Dirname` | jupyter_docker_kernels/manager.py:34-35 | the result is the parent: the part of the path before its last slash, with the trailing slashes of that part stripped unless it consists of slashes only; it is empty exactly when the path has no slash, and it equals the path exactly when the path consists of slashes only (the empty path included) |
| `StickyBit.TargetPaths` | jupyter_docker_kernels/manager.py:33-36 | the file is handled first; its parent comes second, and only when the file name has a slash (non-empty dirname) |
| `StickyBit.SetStickyBit` | jupyter_docker_kernels/manager.py:25-54 | the loop's result equals the specification `StickyOutcome`; when the platform lacks S_ISVTX nothing is touched and nothing is warned |
| `StickyBit.FailureIsFinal` | jupyter_docker_kernels/manager.py:37-38 | once `os.stat` raises on a path, no later path is looked at |
| `StickyBit.RunPathsModes` | jupyter_docker_kernels/manager.py:37-42 | the loop keeps the set of paths, loses no permission bit, and changes only modes of paths it visits |
| `StickyBit.RunPathsWarnings` | jupyter_docker_kernels/manager.py:43-54 | the loop only appends warnings, at most one per element of the path list (a path listed twice can be warned about twice); each names a visited path whose chmod failed, carries that errno, and is not an EPERM on the runtime directory |
| `StickyBit.AlreadyStickyIsSkipped` | jupyter_docker_kernels/manager.py:40-42 | a path whose sticky bit is already set keeps its mode and is never warned about |
| `StickyBit.StickyOutcomeStatFailure` | jupyter_docker_kernels/manager.py:30-38 | exactly which stat raises: none without S_ISVTX; the file's if it is missing; otherwise the parent's if the parent is handled and missing; otherwise none |
| `StickyBit.StickyOutcomeExact` | jupyter_docker_kernels/manager.py:33-54 | for a file name that is not made of slashes only, with both paths present, each path ends with the sticky bit unless it had it or its chmod failed, and it yields exactly one warning when its chmod failed without being excused |
| `StickyBit.ChmodFailurePolicy` | jupyter_docker_kernels/manager.py:43-54 | for a file name with a parent and not made of slashes only: EPERM on the parent is silent and leaves the parent alone; any failure on the file gives exactly one warning naming it, and the parent is still processed; a non-EPERM failure on the parent gives one warning naming it |
| `StickyBit.StickyOutcomeSafe` | jupyter_docker_kernels/manager.py:30-54 | for every input: no bit is lost; only the file and its parent can change; at most two warnings, each about a failed chmod of one of them; already-sticky paths are untouched and unwarned |
| `ConnectionFile.MakeConnectionInfo` | jupyter_docker_kernels/manager.py:59-65 | the descriptor has exactly the nine descriptor fields: transport tcp, ip 0.0.0.0, the given key, signature scheme hmac-sha256, and every port as in PORTS |
| `ConnectionFile.DescriptorHasNineFields` | jupyter_docker_kernels/manager.py:17-23 | the descriptor has nine entries |
| `ConnectionFile.PortsAreDisjointFromBase` | jupyter_docker_kernels/manager.py:59-65 | the update with PORTS adds the five port fields and overwrites none of the four base fields |
| `ConnectionFile.KeyDeterminesDescriptor` | jupyter_docker_kernels/manager.py:62 | two descriptors are equal exactly when their keys are, so distinct random keys give distinct descriptors |
| `ConnectionFile.WithIp` | jupyter_docker_kernels/manager.py:95 | overwriting the address sets `ip` and leaves every other field as it was |
| `Launch.LaunchDescriptor` | jupyter_docker_kernels/manager.py:90-95 | a missing container or an empty address is an error; otherwise the result is the built descriptor with only `ip` replaced by the bridge address |
| `Launch.LaunchedDescriptorFields` | jupyter_docker_kernels/manager.py:91-97 | a launched descriptor has nine fields, a non-empty address, and the key, transport, scheme and ports of the built one |
| `Launch.Launch` | jupyter_docker_kernels/manager.py:76-97 | an error exactly when the descriptor is an error, and then no controller; otherwise a fresh controller for the started container and directory, with an empty call log, beside the launched descriptor |
| `KernelManager.NeverResurrected` | jupyter_docker_kernels/manager.py:104-109 | a container the runtime no longer knows stays unknown whatever calls follow |
| `KernelManager.RemoveIsFinal` | jupyter_docker_kernels/manager.py:128-131 | once a remove has been issued, the container is gone for good |
| `KernelManager.NothingStartsTheContainer` | jupyter_docker_kernels/manager.py:111-131 | no controller call makes a container running; calls only move it to exited, and its address never changes |
| `KernelManager.RemovedStaysGone` | jupyter_docker_kernels/manager.py:128-131 | a valid controller whose log holds a remove manages a container the runtime no longer knows |
| `KernelManager.DockerKernelManager.constructor` | jupyter_docker_kernels/manager.py:100-102 | the controller owns the given container and directory, with the directory present and nothing logged |
| `KernelManager.DockerKernelManager.IsAlive` | jupyter_docker_kernels/manager.py:104-109 | one reload; false when the runtime does not find the container, otherwise true exactly when its status is running |
| `KernelManager.DockerKernelManager.Wait` | jupyter_docker_kernels/manager.py:111-116 | a timeout is not an error; the result is the liveness check made after the wait; only a missing container fails |
| `KernelManager.DockerKernelManager.Signal` | jupyter_docker_kernels/manager.py:125-126 | exactly one kill call with the given signal, which fails only on a missing container |
| `KernelManager.DockerKernelManager.Interrupt` | jupyter_docker_kernels/manager.py:118-119 | exactly one kill call, with SIGINT |
| `KernelManager.DockerKernelManager.Kill` | jupyter_docker_kernels/manager.py:121-123 | exactly one kill call, with SIGKILL |
| `KernelManager.DockerKernelManager.Cleanup` | jupyter_docker_kernels/manager.py:128-131 | stop, then remove, then directory release, and nothing else; afterwards the container is gone and the directory removed; on a missing container, the failing stop is the only call |
| `KernelManager.CleanupThenObserve` | jupyter_docker_kernels/manager.py:128-131 | after a cleanup the kernel is not alive and the directory is gone; a second cleanup fails with NotFound |

## Left out

- The Docker SDK itself is not modelled: `containers.run`, `reload`, `wait`, `kill`, `stop`, `remove` and the `attrs` lookup. Network calls become the abstract runtime described above.
- Runtime errors other than "not found" are not modelled, for example killing a container that has already stopped. A missing `bridge` entry in the attributes, which would raise `KeyError`, is not modelled either.
- Status changes a container makes on its own are not modelled, such as exiting after a signal or crashing. Only `stop` and a `wait` that returns change the modelled status.
- `DockerKernelManager.Wait`: the real blocking and timeout are not modelled. Whether the wait ended before the timeout is a parameter, and the timeout is a whole number of seconds.
- Filesystem effects are not modelled: `os.stat`, `os.chmod`, `TemporaryDirectory`, `ensure_dir_exists`, `jupyter_runtime_dir` and the write of `kernel.json`. They are the abstract mode map, the chmod outcomes and the `tmpdirPresent` flag.
- Different path strings that name the same file are not identified, so the model misses that kind of aliasing.
- The steps of `launch` before the container start are not sequenced in the `Launch` method: the directory set-up, its two `set_sticky_bit` calls, the temporary directory and the file write. `set_sticky_bit` is modelled on its own.
- `json.dumps` serialisation and its field order are not modelled. `uuid.uuid4()` is randomness, so the key is a parameter.
- The `print` calls and the `warnings` machinery are not modelled. Warnings are returned values.
- `StickyBit.StickyOutcomeExact`, `StickyBit.ChmodFailurePolicy`: both assume a file name not made of slashes only. For `"/"` `dirname` is the name itself, as `StickyBit.Dirname` states, and the same path is handled twice; the empty name has no parent and is handled once. `StickyBit.StickyOutcomeSafe` and the loop lemmas still cover these cases.
- `StickyBit.WithSticky`: the mode is a 32-bit `mode_t`, not Python's unbounded integer.
- `__main__.py` is a demo script outside the core. It starts a real kernel over the network and uses a `provider` module that is not part of this model.
