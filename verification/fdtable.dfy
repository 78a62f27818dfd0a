/**
 * A process's file-descriptor table as a value: each open descriptor maps to
 * the open-file description it refers to. The kernel hands out the lowest
 * free descriptor and refuses descriptors at or beyond the process's limit
 * (RLIMIT_NOFILE).
 */
module FdTable {

  /** descriptor -> open-file id */
  type Table = map<nat, nat>

  function LowestFrom(used: set<nat>, i: nat): (r: nat)
    ensures i <= r && r !in used
    ensures forall k :: i <= k < r ==> k in used
    decreases used
  {
    if i in used then LowestFrom(used - {i}, i + 1) else i
  }

  /** The descriptor open, dup and friends allocate: the lowest one not in use. */
  function LowestFree(t: Table): (n: nat)
    ensures n !in t
    ensures forall k: nat :: k < n ==> k in t
  {
    LowestFrom(t.Keys, 0)
  }

  /** Every descriptor in the table is below the limit. */
  ghost predicate Bounded(t: Table, limit: nat) {
    forall k :: k in t ==> k < limit
  }

  /** dup2(from, to) on an open `from`: `to` becomes an alias of `from`, unless `to` is beyond the limit. */
  function Dup2(t: Table, from: nat, to: nat, limit: nat): (r: Table)
    requires from in t
    ensures to < limit ==> to in r && r[to] == t[from]
    ensures r.Keys == if to < limit then t.Keys + {to} else t.Keys
    ensures forall k :: k in t && k != to ==> r[k] == t[k]
  {
    if to < limit then t[to := t[from]] else t
  }

  /** dup2(fd, 0), dup2(fd, 1), dup2(fd, 2): the standard descriptors within the limit become aliases of `fd`. */
  function DupOntoStdio(t: Table, fd: nat, limit: nat): (r: Table)
    requires fd in t && fd < limit
    ensures forall k: nat :: k in r <==> k in t || (k <= 2 && k < limit)
    ensures forall k :: k in r && k <= 2 && k < limit ==> r[k] == t[fd]
    ensures forall k :: k in t && k > 2 ==> r[k] == t[k]
  {
    Dup2(Dup2(Dup2(t, fd, 0, limit), fd, 1, limit), fd, 2, limit)
  }

  /**
   * sanitize_stdio's loop `while ((unsigned)fd < 2) fd = dup(fd)`, started on
   * an open `fd` below which every descriptor is in use. It yields the final
   * table and descriptor; a dup that finds the table full returns -1, which
   * the unsigned comparison treats as large and so ends the loop.
   */
  function DupUp(t: Table, fd: int, limit: nat): (r: (Table, int))
    requires fd >= 0 ==> fd in t && forall k: nat :: k <= fd ==> k in t
    requires Bounded(t, limit)
    ensures Bounded(r.0, limit)
    ensures fd < 0 || fd >= 2 ==> r == (t, fd)
    ensures 0 <= fd ==> r.1 == -1 || (2 <= r.1 && r.1 in r.0 && r.0[r.1] == t[fd])
    ensures 0 <= fd < 2 && r.1 == -1 ==> forall k: nat :: k < limit ==> k in r.0
    ensures forall k :: k in t ==> k in r.0 && r.0[k] == t[k]
    ensures 0 <= fd ==> forall k :: k in r.0 && k !in t ==> r.0[k] == t[fd]
    decreases 2 - fd
  {
    if 0 <= fd < 2 then
      var n := LowestFree(t);
      if n < limit then DupUp(t[n := t[fd]], n, limit) else (t, -1)
    else
      (t, fd)
  }

  /**
   * The table sanitize_stdio leaves when its open returned the lowest free
   * descriptor for the new open file `id`: the dup loop, then dup2 of its final
   * descriptor onto 0, 1 and 2.
   */
  function Sanitized(t: Table, id: nat, limit: nat): (r: Table)
    requires Bounded(t, limit) && LowestFree(t) < limit
    ensures Bounded(r, limit)
    ensures forall k: nat :: k <= 2 && k < limit ==> k in r
    ensures forall k :: k in t && k > 2 ==> k in r && r[k] == t[k]
    ensures forall k :: k in r && k !in t ==> r[k] == id
    ensures || (0 in r && 1 in r && 2 in r && r[0] == id && r[1] == id && r[2] == id)
            || (forall k: nat :: k < limit ==> k in r)
  {
    var n := LowestFree(t);
    var (t2, fd) := DupUp(t[n := id], n, limit);
    if fd >= 0 then DupOntoStdio(t2, fd, limit) else t2
  }

  /**
   * The table console_init leaves after opening the device as `fd`: dup2 onto
   * 0, 1 and 2 and, once the dup2 onto 2 has succeeded, close of `fd` when it
   * is not itself one of 0, 1, 2.
   */
  function Attach(t: Table, fd: nat, limit: nat): (r: Table)
    requires fd in t && fd < limit
    ensures limit > 2 ==> 0 in r && 1 in r && 2 in r && r[0] == t[fd] && r[1] == t[fd] && r[2] == t[fd]
    ensures limit > 2 && fd > 2 ==> fd !in r
    ensures forall k :: k > 2 && k != fd ==> (k in r <==> k in t)
    ensures forall k :: k in t && k > 2 && k != fd ==> r[k] == t[k]
  {
    var s := DupOntoStdio(t, fd, limit);
    if limit > 2 && fd > 2 then s - {fd} else s
  }

  /** console_init's attach as the code has it: `fd` is closed even when it is one of 0, 1, 2. */
  function AttachAsWritten(t: Table, fd: nat, limit: nat): (r: Table)
    requires fd in t && fd < limit
    ensures limit > 2 ==> fd !in r
  {
    var s := DupOntoStdio(t, fd, limit);
    if limit > 2 then s - {fd} else s
  }

  /**
   * With standard input closed when the process starts, the device opens as
   * descriptor 0; the code as written then closes descriptor 0 again, where
   * the corrected attach leaves 0, 1 and 2 all on the device.
   */
  lemma AttachAsWrittenClosesStdin()
    ensures var t: Table := map[1 := 7, 2 := 8];
            var fd := LowestFree(t);
            && fd == 0
            && 0 !in AttachAsWritten(t[fd := 9], fd, 1024)
            && var r := Attach(t[fd := 9], fd, 1024);
               0 in r && r[0] == 9 && r[1] == 9 && r[2] == 9
  {
    var t: Table := map[1 := 7, 2 := 8];
    assert 0 !in t;
  }
}
