/**
 * ttyopen: open a console, normalize its line discipline, start a new session
 * and replace the process image with a command. The process state the
 * program touches (descriptor table, open files, reachable devices,
 * environment, session) is a class whose methods are the system calls and
 * the program's own routines.
 */
module Ttyopen {
  import opened Wrappers
  import opened Termios
  import opened Env
  import FdTable

  // errno values.
  const ENOENT: int := 2
  const EBADF: int := 9
  const EMFILE: int := 24

  const DevNull: string := "/dev/null"
  const Root: string := "/"

  /** What a path opens: a terminal device with its current settings, or anything else. */
  datatype Node = Terminal(settings: Termios) | Plain

  /** How a routine ended: normally, or by printing an error and exiting with `code`. */
  datatype Status = Continue | Exit(code: int)

  /** How the program ends: with an exit status, or replaced by `program` run with `args` and `env`. */
  datatype Outcome =
    | Exited(code: int)
    | Replaced(program: string, args: seq<Option<string>>, env: Environment)

  /** The C conversion `(unsigned)x` of an `int`. */
  function AsUnsigned(x: int): (u: nat)
    requires -0x8000_0000 <= x < 0x8000_0000
    ensures 0 <= x ==> u == x
    ensures x < 0 ==> u >= 0x8000_0000
  {
    x % 0x1_0000_0000
  }

  /**
   * The argument vector handed to execve: argv[2..argc-1] followed by NULL. It
   * has argc-1 entries, the first is the command, entry i-2 is argv[i], and
   * only the last is NULL.
   */
  function ExecVector(argv: seq<string>): (v: seq<Option<string>>)
    requires |argv| >= 3
    ensures |v| == |argv| - 1
    ensures v[0] == Some(argv[2])
    ensures forall i :: 3 <= i < |argv| ==> v[i - 2] == Some(argv[i])
    ensures v[|argv| - 2] == None
    ensures forall j :: 0 <= j < |v| - 1 ==> v[j].Some?
  {
    seq(|argv| - 2, i requires 0 <= i < |argv| - 2 => Some(argv[i + 2])) + [None]
  }

  class Process {
    /** The descriptor table: descriptor -> open-file id. */
    var fds: FdTable.Table
    /** The open-file descriptions: id -> the path it was opened from. */
    var files: seq<string>
    /** The devices and files open can reach, by path. */
    var fs: map<string, Node>
    var env: Environment
    /** Whether setsid has been called. */
    var setsidCalled: bool
    var errno: int
    /** The descriptor limit (RLIMIT_NOFILE). */
    const maxFds: nat
    /** The paths execve can run. */
    const programs: set<string>

    ghost predicate Valid()
      reads this
    {
      && maxFds <= 0x8000_0000
      && FdTable.Bounded(fds, maxFds)
      && forall fd :: fd in fds ==> fds[fd] < |files|
    }

    /** The path of the file descriptor 0 refers to, if it is open. */
    function StdinPath(): (p: Option<string>)
      reads this
      requires Valid()
      ensures p.Some? <==> 0 in fds
      ensures p.Some? ==> p.value == files[fds[0]]
    {
      if 0 in fds then Some(files[fds[0]]) else None
    }

    constructor (fds0: FdTable.Table, files0: seq<string>, fs0: map<string, Node>,
                 env0: Environment, maxFds0: nat, programs0: set<string>)
      requires maxFds0 <= 0x8000_0000 && FdTable.Bounded(fds0, maxFds0)
      requires forall fd :: fd in fds0 ==> fds0[fd] < |files0|
      ensures Valid()
      ensures fds == fds0 && files == files0 && fs == fs0 && env == env0
      ensures maxFds == maxFds0 && programs == programs0
      ensures !setsidCalled && errno == 0
    {
      fds, files, fs, env := fds0, files0, fs0, env0;
      maxFds, programs := maxFds0, programs0;
      setsidCalled, errno := false, 0;
    }

    /** open(path): the lowest free descriptor on a new open file, or -1 with errno set. */
    method Open(path: string) returns (fd: int)
      requires Valid()
      modifies this`fds, this`files, this`errno
      ensures Valid()
      ensures var n := FdTable.LowestFree(old(fds));
              if n >= maxFds then
                fd == -1 && errno == EMFILE && fds == old(fds) && files == old(files)
              else if path !in fs then
                fd == -1 && errno == ENOENT && fds == old(fds) && files == old(files)
              else
                && fd == n
                && files == old(files) + [path]
                && fds == old(fds)[n := |old(files)|]
                && errno == old(errno)
    {
      var n := FdTable.LowestFree(fds);
      if n >= maxFds {
        errno := EMFILE;
        fd := -1;
      } else if path !in fs {
        errno := ENOENT;
        fd := -1;
      } else {
        fds := fds[n := |files|];
        files := files + [path];
        fd := n;
      }
    }

    /** dup(fd): the lowest free descriptor as a new alias of `fd`, or -1 with errno set. */
    method Dup(fd: int) returns (r: int)
      requires Valid()
      modifies this`fds, this`errno
      ensures Valid()
      ensures var n := FdTable.LowestFree(old(fds));
              if !(0 <= fd && fd in old(fds)) then
                r == -1 && errno == EBADF && fds == old(fds)
              else if n >= maxFds then
                r == -1 && errno == EMFILE && fds == old(fds)
              else
                r == n && fds == old(fds)[n := old(fds)[fd]] && errno == old(errno)
    {
      if !(0 <= fd && fd in fds) {
        errno := EBADF;
        r := -1;
        return;
      }
      var n := FdTable.LowestFree(fds);
      if n >= maxFds {
        errno := EMFILE;
        r := -1;
      } else {
        fds := fds[n := fds[fd]];
        r := n;
      }
    }

    /** dup2(from, to): `to` becomes an alias of `from` and is returned, or -1 with errno set. */
    method Dup2(from: int, to: int) returns (r: int)
      requires Valid()
      modifies this`fds, this`errno
      ensures Valid()
      ensures if 0 <= from && from in old(fds) && 0 <= to < maxFds then
                r == to && fds == FdTable.Dup2(old(fds), from, to, maxFds) && errno == old(errno)
              else
                r == -1 && errno == EBADF && fds == old(fds)
    {
      if 0 <= from && from in fds && 0 <= to < maxFds {
        fds := fds[to := fds[from]];
        r := to;
      } else {
        errno := EBADF;
        r := -1;
      }
    }

    /** close(fd): 0, or -1 with errno set when `fd` is not open. */
    method Close(fd: int) returns (r: int)
      requires Valid()
      modifies this`fds, this`errno
      ensures Valid()
      ensures if 0 <= fd && fd in old(fds) then
                r == 0 && fds == old(fds) - {fd} && errno == old(errno)
              else
                r == -1 && errno == EBADF && fds == old(fds)
    {
      if 0 <= fd && fd in fds {
        fds := fds - {fd};
        r := 0;
      } else {
        errno := EBADF;
        r := -1;
      }
    }

    /** setsid(): start a new session, detached from any controlling terminal. */
    method Setsid()
      modifies this`setsidCalled
      ensures setsidCalled
    {
      setsidCalled := true;
    }

    /** setenv(name, value, overwrite). */
    method Setenv(name: string, value: string, overwrite: bool)
      modifies this`env
      ensures env == if overwrite || name !in old(env) then old(env)[name := value] else old(env)
    {
      if overwrite || name !in env {
        env := env[name := value];
      }
    }

    /**
     * sanitize_stdio's loop `while ((unsigned)fd < 2) fd = dup(fd)`, from an
     * open descriptor below which every descriptor is in use.
     */
    method DupAbove2(fd0: int) returns (fd: int)
      requires Valid()
      requires 0 <= fd0 && fd0 in fds && forall k: nat :: k <= fd0 ==> k in fds
      modifies this`fds, this`errno
      ensures Valid()
      ensures (fds, fd) == FdTable.DupUp(old(fds), fd0, maxFds)
    {
      fd := fd0;
      while AsUnsigned(fd) < 2
        invariant Valid()
        invariant -1 <= fd < maxFds
        invariant fd >= 0 ==> fd in fds && forall k: nat :: k <= fd ==> k in fds
        invariant FdTable.DupUp(fds, fd, maxFds) == FdTable.DupUp(old(fds), fd0, maxFds)
        decreases if fd < 0 then 0 else 3 - fd
      {
        fd := Dup(fd);
      }
    }

    /**
     * sanitize_stdio: open /dev/null (or else /), dup it upward until the
     * descriptor is at least 2, start a new session and alias 0, 1 and 2 to
     * it. Exits with errno when neither path opens.
     */
    method SanitizeStdio() returns (st: Status)
      requires Valid()
      modifies this`fds, this`files, this`errno, this`setsidCalled
      ensures Valid()
      ensures var opens := FdTable.LowestFree(old(fds)) < maxFds && (DevNull in fs || Root in fs);
              if opens then
                && st == Continue
                && files == old(files) + [if DevNull in fs then DevNull else Root]
                && fds == FdTable.Sanitized(old(fds), |old(files)|, maxFds)
                && setsidCalled
              else
                && st == Exit(errno)
                && errno == (if FdTable.LowestFree(old(fds)) >= maxFds then EMFILE else ENOENT)
                && fds == old(fds) && files == old(files)
                && setsidCalled == old(setsidCalled)
    {
      var fd := Open(DevNull);
      if fd < 0 {
        fd := Open(Root);
        if fd < 0 {
          return Exit(errno);
        }
      }
      fd := DupAbove2(fd);
      Setsid();
      var _ := Dup2(fd, 0);
      var _ := Dup2(fd, 1);
      var _ := Dup2(fd, 2);
      st := Continue;
    }

    /**
     * console_init's branch for a resolved path: open the device and alias
     * 0, 1 and 2 to it. A failed open leaves everything as it was; a failed
     * dup2 onto 2 exits with errno.
     */
    method Attach(path: string) returns (st: Status)
      requires Valid()
      modifies this`fds, this`files, this`errno
      ensures Valid()
      ensures var n := FdTable.LowestFree(old(fds));
              if n < maxFds && path in fs then
                && files == old(files) + [path]
                && fds == FdTable.Attach(old(fds)[n := |old(files)|], n, maxFds)
                && st == (if maxFds > 2 then Continue else Exit(EBADF))
              else
                st == Continue && fds == old(fds) && files == old(files)
    {
      var fd := Open(path);
      if fd >= 0 {
        var _ := Dup2(fd, 0);
        var _ := Dup2(fd, 1);
        var r := Dup2(fd, 2);
        if r != 2 {
          return Exit(errno);
        }
        if fd > 2 {
          var _ := Close(fd);
        }
      }
      st := Continue;
    }

    /** console_init's TERM negotiation. */
    method NegotiateTerm(vt: VtQuery)
      modifies this`env
      ensures env == WithTerm(old(env), vt)
    {
      var s := Getenv(env, "TERM");
      if vt == VtQueryFails {
        if s.None? || s == Some(DefaultTerm) {
          Setenv("TERM", SerialTerm, true);
        }
      } else if s.None? {
        Setenv("TERM", DefaultTerm, true);
      }
      assert s.Some? ==> old(env)["TERM" := s.value] == old(env);
    }

    /**
     * console_init: attach the resolved console device, or sanitize the
     * standard descriptors when no path resolves; then negotiate TERM.
     */
    method ConsoleInit(tty: Option<string>, vt: VtQuery, freeBsd: bool) returns (st: Status)
      requires Valid()
      modifies this`fds, this`files, this`errno, this`setsidCalled, this`env
      ensures Valid()
      ensures var s := ConsolePath(tty, old(env), freeBsd);
              var n := FdTable.LowestFree(old(fds));
              if s.Some? then
                && setsidCalled == old(setsidCalled)
                && if n < maxFds && s.value in fs then
                     && files == old(files) + [s.value]
                     && fds == FdTable.Attach(old(fds)[n := |old(files)|], n, maxFds)
                     && st == (if maxFds > 2 then Continue else Exit(EBADF))
                   else
                     st == Continue && fds == old(fds) && files == old(files)
              else if n < maxFds && (DevNull in fs || Root in fs) then
                && st == Continue
                && files == old(files) + [if DevNull in fs then DevNull else Root]
                && fds == FdTable.Sanitized(old(fds), |old(files)|, maxFds)
                && setsidCalled
              else
                && st == Exit(errno)
                && errno == (if n >= maxFds then EMFILE else ENOENT)
                && fds == old(fds) && files == old(files)
                && setsidCalled == old(setsidCalled)
      ensures env == if st == Continue then WithTerm(old(env), vt) else old(env)
    {
      var s := ConsolePath(tty, env, freeBsd);
      if s.Some? {
        st := Attach(s.value);
      } else {
        st := SanitizeStdio();
      }
      if st.Exit? {
        return;
      }
      NegotiateTerm(vt);
    }

    /**
     * set_sane_term: when descriptor 0 is a terminal, its settings become the
     * normalized ones; otherwise tcgetattr and tcsetattr fail and nothing changes.
     */
    method SetSaneTerm()
      requires Valid()
      modifies this`fs
      ensures var p := StdinPath();
              if p.Some? && p.value in old(fs) && old(fs)[p.value].Terminal? then
                fs == old(fs)[p.value := Terminal(Normalize(old(fs)[p.value].settings))]
              else
                fs == old(fs)
    {
      if 0 in fds {
        var dev := files[fds[0]];
        if dev in fs && fs[dev].Terminal? {
          fs := fs[dev := Terminal(Normalize(fs[dev].settings))];
        }
      }
    }

    /** main's loop filling `cmdargsptr`: the command, its arguments, then NULL. */
    static method BuildExecVector(argv: seq<string>) returns (v: seq<Option<string>>)
      requires |argv| >= 3
      ensures |v| == |argv| - 1
      ensures v[0] == Some(argv[2])
      ensures forall i :: 3 <= i < |argv| ==> v[i - 2] == Some(argv[i])
      ensures v[|argv| - 2] == None
      ensures v == ExecVector(argv)
    {
      var argc := |argv|;
      var cmdargs := new Option<string>[argc - 1];
      cmdargs[0] := Some(argv[2]);
      if argc > 3 {
        for i := 3 to argc
          invariant cmdargs[0] == Some(argv[2])
          invariant forall j :: 3 <= j < i ==> cmdargs[j - 2] == Some(argv[j])
        {
          cmdargs[i - 2] := Some(argv[i]);
        }
      }
      cmdargs[argc - 2] := None;
      v := cmdargs[..];
    }

    /**
     * main: check the usage, build the exec vector, attach the console named
     * by argv[1], normalize the terminal, start a new session and execve
     * argv[2]. When execve fails, main returns its result, -1.
     */
    method Launch(argv: seq<string>, vt: VtQuery, freeBsd: bool) returns (o: Outcome)
      requires Valid()
      modifies this
      ensures Valid()
      ensures |argv| < 3 ==> o == Exited(1) && unchanged(this)
      ensures o.Replaced? ==>
                && |argv| >= 3
                && o.program == argv[2] && o.program in programs
                && o.args == ExecVector(argv)
                && o.env == env == WithTerm(old(env), vt)
                && setsidCalled
      ensures |argv| >= 3 ==>
                var n := FdTable.LowestFree(old(fds));
                var attached := n < maxFds && argv[1] in old(fs);
                && (if attached then
                      && files == old(files) + [argv[1]]
                      && fds == FdTable.Attach(old(fds)[n := |old(files)|], n, maxFds)
                      && (maxFds > 2 ==> 0 in fds && files[fds[0]] == argv[1] &&
                                          1 in fds && fds[1] == fds[0] && 2 in fds && fds[2] == fds[0])
                    else
                      fds == old(fds) && files == old(files))
                && if attached && maxFds <= 2 then
                     && o == Exited(EBADF)
                     && env == old(env) && fs == old(fs)
                     && setsidCalled == old(setsidCalled)
                   else
                     && setsidCalled
                     && env == WithTerm(old(env), vt)
                     && o == (if argv[2] in programs
                              then Replaced(argv[2], ExecVector(argv), WithTerm(old(env), vt))
                              else Exited(-1))
                     && var p := StdinPath();
                        if p.Some? && p.value in old(fs) && old(fs)[p.value].Terminal? then
                          fs == old(fs)[p.value := Terminal(Normalize(old(fs)[p.value].settings))]
                        else
                          fs == old(fs)
      ensures o.Replaced? ==>
                var p := StdinPath();
                p.Some? && p.value in fs && fs[p.value].Terminal? ==> IsSane(fs[p.value].settings)
    {
      if |argv| < 3 {
        return Exited(1);
      }
      var v := BuildExecVector(argv);
      ghost var n, fds0, files0 := FdTable.LowestFree(fds), fds, files;
      var st := ConsoleInit(Some(argv[1]), vt, freeBsd);
      if n < maxFds && argv[1] in fs && maxFds > 2 {
        assert fds == FdTable.Attach(fds0[n := |files0|], n, maxFds);
        assert 0 in fds && fds[0] == |files0| && files[|files0|] == argv[1];
      }
      if st.Exit? {
        return Exited(st.code);
      }
      SetSaneTerm();
      Setsid();
      if argv[2] in programs {
        o := Replaced(argv[2], v, env);
      } else {
        o := Exited(-1);
      }
    }
  }
}
