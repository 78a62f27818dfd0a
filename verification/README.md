# ttyopen in Dafny

`ttyopen TTYPATH CMD [ARG...]` is a small launcher derived from Busybox init. It:

1. attaches a console device to descriptors 0, 1 and 2, or, when no device path resolves, makes sure those descriptors are open to `/dev/null` (or `/`);
2. negotiates the `TERM` variable;
3. rewrites the terminal's line discipline to a sane baseline;
4. starts a new session;
5. replaces itself with `CMD` through `execve`.

This project models that program in `ttyopen.c`. The program runs in this order: `main` → `console_init` (path resolution, attach or `sanitize_stdio`, TERM) → `set_sane_term` → `setsid` → `execve`.

## Files

- `wrappers.dfy`: `Option`, which stands for a NULL-able C string or an unset variable.
- `termios.dfy` (module `Termios`): the line-discipline configuration and what `set_sane_term` does to it.
  - Uses glibc's Linux `struct termios`: 32 control-character slots, the `c_line` byte, four flag words as `bv32`, and the two speeds.
  - The `V*` indices and flag bits have their Linux values.
  - `Normalize` is the rewrite. `IsSane` is an independent description of the baseline. Lemmas prove that the baseline is exactly the set of fixpoints, that normalizing is idempotent, and that the result depends on nothing in the old configuration except the kept control-mode bits, the speeds and the control characters that have no baseline.
- `env.dfy` (module `Env`): the environment as a map.
  - Console path resolution, proved to be a priority list.
  - The TERM decision, with the VT capability query as an explicit input.
  - The view of the environment that `main`'s `envp` gives after `setenv` (see Findings).
- `fdtable.dfy` (module `FdTable`): the descriptor table as a value: a map from descriptor to open-file id.
  - `LowestFree` models the kernel's lowest-free-descriptor allocation. The limit is `RLIMIT_NOFILE`.
  - `DupUp`, `Sanitized` and `Attach` are the tables that `sanitize_stdio` and `console_init` leave behind.
- `process.dfy` (module `Ttyopen`): the class `Process`, which holds the state the program changes in place.
  - State: the descriptor table, the open files, the reachable paths (terminal devices carry their settings), the environment, `errno`, and whether `setsid` has been called.
  - Its methods are the system calls (`Open`, `Dup`, `Dup2`, `Close`, `Setsid`, `Setenv`) and the program's routines (`SanitizeStdio` and its dup loop, `Attach`, `NegotiateTerm`, `ConsoleInit`, `SetSaneTerm`, `BuildExecVector`, `Launch` for `main`).
  - Each routine's `ensures` gives its new state as a function from `FdTable`, `Env` or `Termios` of the old state.
  - `printerr(code, …)` becomes an `Exit(code)` status that is passed up to `Launch`, which returns `Exited(code)`.

Three behaviours of the code are easy to misread; the model follows the code in each:

- When a resolved device path fails to open, the code does not fall back to `sanitize_stdio` (`ttyopen.c:113-125`). Descriptors 0, 1 and 2 stay as inherited.
- `main` always passes `argv[1]`, which is never NULL, to `console_init`. The `$CONSOLE`/`$console` lookup and `sanitize_stdio` therefore only run when `console_init` is called with no argument. `ConsoleInit` models that case too.
- When `execve` fails, `main` returns its result, which is -1. It does not return `errno`.

## Model

| member | source | states |
|---|---|---|
| Termios.Normalize | ttyopen.c:53-92 | the result is sane; each of the eight control characters gets its canonical byte and every other `c_cc` slot is unchanged; the kept control-mode bits (speed, size, stop bits, parity, CRTSCTS) are carried over; CREAD, HUPCL and CLOCAL are on and no other control bit is; the input, output and local flags are the fixed sets; `c_line` is 0; the speeds are unchanged |
| Termios.SaneIsFixpoint | ttyopen.c:59-89 | normalizing leaves a configuration unchanged exactly when it already holds the baseline |
| Termios.NormalizeIdempotent | ttyopen.c:53-92 | normalizing twice equals normalizing once |
| Termios.NormalizeForgetsPrevious | ttyopen.c:60-89 | two configurations that agree on the kept control-mode bits, the speeds and the slots without a baseline normalize to the same result, whatever their other fields held |
| Env.Getenv | ttyopen.c:104-106 | a variable's value is present exactly when the variable is set, and it is the variable's value |
| Env.FirstPresent | ttyopen.c:101-112 | a result exists exactly when some candidate is present, and it is the candidate at some index before which every candidate is absent |
| Env.ConsolePath | ttyopen.c:101-112 | no path resolves exactly when there is no argument, neither `CONSOLE` nor `console` is set, and the platform is not FreeBSD |
| Env.ConsolePathIsFirstPresent | ttyopen.c:101-112 | the path is the first present of: the argument, `$CONSOLE`, `$console`, `/dev/console` on FreeBSD |
| Env.TermAfter | ttyopen.c:131-142 | TERM always ends up set; a value other than `linux` is never overwritten; an unset or `linux` TERM becomes `vt102` when the VT query fails and `linux` otherwise |
| Env.TermAfterIdempotent | ttyopen.c:131-142 | negotiating TERM a second time changes nothing |
| Env.WithTerm | ttyopen.c:131-142 | after negotiation only TERM may have changed, it is set, and it holds the negotiated value |
| Env.EnvpView | ttyopen.c:162 | through `envp` the program sees only variables that existed at start, each with its current value |
| Env.EnvpViewDropsNewTerm | ttyopen.c:141-162 | when TERM was unset at start, negotiation sets it, but the environment seen through `envp` has no TERM and equals the starting one |
| FdTable.LowestFrom | ttyopen.c:35-45 | the least unused number from `i` upward: it is unused, and every number from `i` up to it is in use |
| FdTable.LowestFree | ttyopen.c:35-45 | the descriptor the kernel allocates is free, and every descriptor below it is in use |
| FdTable.Dup2 | ttyopen.c:48-50 | `to` becomes an alias of `from` when it is within the limit; no other descriptor changes |
| FdTable.DupOntoStdio | ttyopen.c:48-50 | descriptors 0, 1 and 2, as far as the limit allows, become open aliases of `fd`; every descriptor above 2 keeps its file |
| FdTable.DupUp | ttyopen.c:44-45 | the dup loop ends on a descriptor of at least 2 that aliases the start, or on -1 when the table is full; existing descriptors keep their files and every new one aliases the start |
| FdTable.Sanitized | ttyopen.c:31-51 | afterwards 0, 1 and 2 are open (within the limit); descriptors above 2 keep their files; new descriptors refer to the opened file; 0, 1 and 2 all alias it unless the table filled up |
| FdTable.Attach | ttyopen.c:113-121 | with a limit above 2, descriptors 0, 1 and 2 all refer to the opened device and the original descriptor is gone if it was above 2; other descriptors are untouched |
| FdTable.AttachAsWritten | ttyopen.c:116-120 | as the code has it, the original descriptor is closed even when it is 0, 1 or 2 |
| FdTable.AttachAsWrittenClosesStdin | ttyopen.c:114-120 | with descriptor 0 free, the device opens as 0; the code as written leaves 0 closed, while the corrected attach puts it on 0, 1 and 2 |
| Ttyopen.AsUnsigned | ttyopen.c:44 | the `(unsigned)` cast keeps a non-negative descriptor and makes -1 large |
| Ttyopen.ExecVector | ttyopen.c:150-156 | the vector has argc-1 entries: `argv[2]` first, `argv[i]` at index i-2, and NULL last and only last |
| Ttyopen.Process.StdinPath | ttyopen.c:57 | the file descriptor 0 refers to, present exactly when 0 is open |
| Ttyopen.Process.Open | ttyopen.c:114 | EMFILE when no descriptor is free below the limit, ENOENT when the path is unreachable; otherwise the lowest free descriptor, on a new open file for the path |
| Ttyopen.Process.Dup | ttyopen.c:45 | EBADF for a descriptor that is not open, EMFILE when the table is full; otherwise the lowest free descriptor, as an alias |
| Ttyopen.Process.Dup2 | ttyopen.c:116-118 | returns `to` and makes it an alias of `from`; returns -1 with EBADF when `from` is not open or `to` is beyond the limit |
| Ttyopen.Process.Close | ttyopen.c:120 | removes an open descriptor; EBADF otherwise |
| Ttyopen.Process.Setsid | ttyopen.c:160 | records that a new session was started |
| Ttyopen.Process.Setenv | ttyopen.c:142 | sets the variable unless it is already set and overwriting is off |
| Ttyopen.Process.DupAbove2 | ttyopen.c:44-45 | the loop leaves exactly the table and descriptor `DupUp` describes |
| Ttyopen.Process.SanitizeStdio | ttyopen.c:31-51 | exits with `errno` exactly when neither `/dev/null` nor `/` opens; otherwise the table is `Sanitized` and a new session is started |
| Ttyopen.Process.Attach | ttyopen.c:113-121 | a failed open changes nothing and does not exit; a successful one leaves the `Attach` table and exits with EBADF only when dup2 onto 2 fails |
| Ttyopen.Process.NegotiateTerm | ttyopen.c:131-142 | the environment becomes `WithTerm` of the old one |
| Ttyopen.Process.ConsoleInit | ttyopen.c:94-143 | with a resolved path, the result of `Attach` (no fallback and no new session); with none, the result of `SanitizeStdio`, or an exit with EMFILE or ENOENT that leaves the table and session untouched; after any of these that does not exit, TERM is negotiated, and an exit leaves the environment unchanged |
| Ttyopen.Process.SetSaneTerm | ttyopen.c:53-92 | when descriptor 0 is a terminal its settings become `Normalize` of the old ones; otherwise nothing changes |
| Ttyopen.Process.BuildExecVector | ttyopen.c:150-156 | every write stays in bounds and the vector is `argv[2..argc-1]` followed by NULL |
| Ttyopen.Process.Launch | ttyopen.c:145-166 | with fewer than 3 arguments the result is exit status 1 and nothing has changed; otherwise, when `TTYPATH` opens, the table is the `Attach` table (0, 1 and 2 refer to the device, other descriptors untouched) and otherwise the table is unchanged; the program either exits with EBADF (dup2 onto 2 failed) with environment, devices and session untouched, or has started a new session, negotiated TERM, normalized the settings of a terminal on descriptor 0 (leaving every other device as it was) and is replaced by `argv[2]` with the NULL-terminated vector and the negotiated environment, or returns -1 when `execve` fails |

## Left out

- Ttyopen.Process.Attach: adopts the corrected close of Findings row 1, closing the opened descriptor only when it is above 2; the code closes it always, so when the device opens as 0, 1 or 2 the code leaves that slot closed and the model does not.
- Ttyopen.Process.ConsoleInit: inherits the corrected close from `Attach`.
- Ttyopen.Process.Launch: inherits the corrected close from `Attach`, so its claim that 0, 1 and 2 all refer to the device does not hold of the code when the device opened as 0, 1 or 2; it also passes the negotiated environment to `execve` (Findings row 2) where the code passes `envp`.
- Real system calls are abstract operations on `Process`. The open flags (`O_RDWR`, `O_NONBLOCK`, `O_NOCTTY`, `O_RDONLY`) and controlling-terminal acquisition have no effect in the model. An open file description is never freed.
- Ttyopen.Process.Open: the only failures modelled are EMFILE and ENOENT (for a path the model cannot reach). Permission errors and the other errno values the kernel can return are not modelled.
- Ttyopen.Process.Dup2: it fails only with EBADF. Kernel-side failures such as EINTR or EBUSY are not modelled.
- Ttyopen.Process.Setsid: records only that the call was made. Its EPERM failure for a process-group leader is ignored, as the program ignores its result.
- `printerr`'s message text and `vfprintf` formatting, the usage text, and the "exec error" message: only the exit status is kept.
- Ttyopen.Process.Launch: the failed `execve` result -1 is kept as returned. The parent sees it as status 255; that truncation is not modelled. Whether `execve` succeeds is decided by the `programs` set.
- Ttyopen.Process.SetSaneTerm: the unchecked results of `tcgetattr` and `tcsetattr` are not modelled. When descriptor 0 is not a terminal, both calls fail, the uninitialised structure is never applied, and the model leaves everything unchanged. `TCSANOW` timing is not modelled.
- Platform conditionals. The terminal constants are Linux's, and `c_line` is always reset. The FreeBSD default console is a boolean input to path resolution only.
- The VT capability query (`ioctl(VT_OPENQRY)`) is an explicit input. The `setenv` call in that branch passes two arguments; it is modelled as overwriting, as its comment intends.
- The commented-out `fcntl` block at the end of `console_init`.
- A NULL `argv[0]` with `argc == 0` only affects the usage message and is not modelled.

## Findings

| source | as written | input that shows it | evidently intended | confidence | as-written member | corrected member |
|---|---|---|---|---|---|---|
| ttyopen.c:114-120 | `close(fd)` runs even when the device opened as descriptor 0, 1 or 2 | process started with descriptor 0 closed and 1, 2 open: the device opens as 0, is duplicated onto 1 and 2, and then descriptor 0 is closed | close the original only when it is not one of 0, 1, 2, so all three refer to the device | medium, not executed | FdTable.AttachAsWrittenClosesStdin | FdTable.Attach, Ttyopen.Process.Attach, Ttyopen.Process.ConsoleInit, Ttyopen.Process.Launch |
| ttyopen.c:162 | `execve` is given `main`'s `envp`; `setenv` adds a new variable to a fresh array that `envp` does not see | started without TERM: `console_init` sets TERM=linux, but the command runs with no TERM | the command inherits the negotiated environment | high, not executed | Env.EnvpViewDropsNewTerm | Ttyopen.Process.Launch |
