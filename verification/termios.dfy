/**
 * The terminal's line-discipline configuration (glibc's `struct termios` on
 * Linux) and the rewrite `set_sane_term` applies to it.
 */
module Termios {
  import opened Wrappers

  /** Number of control-character slots in `c_cc`. */
  const NCCS: nat := 32

  type ControlChars = s: seq<bv8> | |s| == NCCS witness seq(32, _ => 0 as bv8)

  // Indices into c_cc.
  const VINTR: nat := 0
  const VQUIT: nat := 1
  const VERASE: nat := 2
  const VKILL: nat := 3
  const VEOF: nat := 4
  const VSTART: nat := 8
  const VSTOP: nat := 9
  const VSUSP: nat := 10

  // c_iflag bits.
  const ICRNL: bv32 := 0x100
  const IXON: bv32 := 0x400
  const IXOFF: bv32 := 0x1000

  // c_oflag bits.
  const OPOST: bv32 := 0x1
  const ONLCR: bv32 := 0x4

  // c_cflag bits.
  const CBAUD: bv32 := 0x100F
  const CBAUDEX: bv32 := 0x1000
  const CSIZE: bv32 := 0x30
  const CSTOPB: bv32 := 0x40
  const CREAD: bv32 := 0x80
  const PARENB: bv32 := 0x100
  const PARODD: bv32 := 0x200
  const HUPCL: bv32 := 0x400
  const CLOCAL: bv32 := 0x800
  const CRTSCTS: bv32 := 0x8000_0000

  // c_lflag bits.
  const ISIG: bv32 := 0x1
  const ICANON: bv32 := 0x2
  const ECHO: bv32 := 0x8
  const ECHOE: bv32 := 0x10
  const ECHOK: bv32 := 0x20
  const ECHOCTL: bv32 := 0x200
  const ECHOKE: bv32 := 0x800
  const IEXTEN: bv32 := 0x8000

  /** Control-mode bits carried over from the previous configuration: speed, character size, stop bits, parity, hardware flow control. */
  const KeptCflags: bv32 := CBAUD | CBAUDEX | CSIZE | CSTOPB | PARENB | PARODD | CRTSCTS
  /** Control-mode bits always switched on: enable receiver, hang up on close, ignore modem lines. */
  const ForcedCflags: bv32 := CREAD | HUPCL | CLOCAL
  const SaneIflags: bv32 := ICRNL | IXON | IXOFF
  const SaneOflags: bv32 := OPOST | ONLCR
  const SaneLflags: bv32 := ISIG | ICANON | ECHO | ECHOE | ECHOK | ECHOCTL | ECHOKE | IEXTEN

  datatype Termios = Termios(
    iflag: bv32,
    oflag: bv32,
    cflag: bv32,
    lflag: bv32,
    line: bv8,
    cc: ControlChars,
    ispeed: bv32,
    ospeed: bv32)

  /** The canonical byte of control-character slot `i`, for the eight slots that have one. */
  function CanonicalChar(i: nat): Option<bv8> {
    if i == VINTR then Some(3)          // ^C
    else if i == VQUIT then Some(28)    // ^\
    else if i == VERASE then Some(127)  // DEL
    else if i == VKILL then Some(21)    // ^U
    else if i == VEOF then Some(4)      // ^D
    else if i == VSTART then Some(17)   // ^Q
    else if i == VSTOP then Some(19)    // ^S
    else if i == VSUSP then Some(26)    // ^Z
    else None
  }

  /** The known-good baseline: every field the normalizer defines holds its baseline value. */
  ghost predicate IsSane(t: Termios) {
    && (forall i :: 0 <= i < NCCS && CanonicalChar(i).Some? ==> t.cc[i] == CanonicalChar(i).value)
    && t.line == 0
    && t.iflag == SaneIflags
    && t.oflag == SaneOflags
    && t.lflag == SaneLflags
    && t.cflag & ForcedCflags == ForcedCflags
    && t.cflag & !(KeptCflags | ForcedCflags) == 0
  }

  /** The configuration `set_sane_term` writes back, given the one it read. */
  function Normalize(t: Termios): (r: Termios)
    ensures IsSane(r)
    ensures forall i :: 0 <= i < NCCS ==> r.cc[i] == CanonicalChar(i).GetOr(t.cc[i])
    ensures r.cflag & KeptCflags == t.cflag & KeptCflags
    ensures r.ispeed == t.ispeed && r.ospeed == t.ospeed
  {
    var cc := t.cc[VINTR := 3][VQUIT := 28][VERASE := 127][VKILL := 21]
                  [VEOF := 4][VSTART := 17][VSTOP := 19][VSUSP := 26];
    t.(cc := cc,
       line := 0,
       cflag := (t.cflag & KeptCflags) | ForcedCflags,
       iflag := SaneIflags,
       oflag := SaneOflags,
       lflag := SaneLflags)
  }

  /** A configuration is left alone by the normalizer exactly when it is already sane. */
  lemma SaneIsFixpoint(t: Termios)
    ensures Normalize(t) == t <==> IsSane(t)
  {
    if IsSane(t) {
      var r := Normalize(t);
      forall i | 0 <= i < NCCS
        ensures r.cc[i] == t.cc[i]
      {
        if CanonicalChar(i).Some? {
          assert r.cc[i] == CanonicalChar(i).value;
        }
      }
      assert r.cc == t.cc;
      assert r.cflag == t.cflag;
    }
  }

  /** Normalizing an already-normalized configuration is a no-op. */
  lemma NormalizeIdempotent(t: Termios)
    ensures Normalize(Normalize(t)) == Normalize(t)
  {
    SaneIsFixpoint(Normalize(t));
  }

  /**
   * The result does not depend on the previous configuration beyond the kept
   * control-mode bits, the speeds and the control characters without a baseline.
   */
  lemma NormalizeForgetsPrevious(s: Termios, t: Termios)
    requires s.cflag & KeptCflags == t.cflag & KeptCflags
    requires s.ispeed == t.ispeed && s.ospeed == t.ospeed
    requires forall i :: 0 <= i < NCCS && CanonicalChar(i).None? ==> s.cc[i] == t.cc[i]
    ensures Normalize(s) == Normalize(t)
  {
    var a, b := Normalize(s), Normalize(t);
    forall i | 0 <= i < NCCS
      ensures a.cc[i] == b.cc[i]
    {
      if CanonicalChar(i).None? {
        assert s.cc[i] == t.cc[i];
      }
    }
    assert a.cc == b.cc;
  }
}
