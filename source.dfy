/** The stream source (src/source.rs): one interface over live UDP receipt and
    over replay of a capture file whose frames are read one fixed-size frame
    at a time, rewinding to the start of the file at end-of-file. */
module StreamSource {
  import opened Base

  /** Default `--frame-size`: bytes per frame in a capture file. */
  const DEFAULT_FRAME_SIZE: nat := 1400
  /** Receive-buffer size requested for the socket (1 << 20). */
  const RECV_BUFFER_SIZE: nat := 0x10_0000
  /** Read timeout set on the socket, in milliseconds. */
  const READ_TIMEOUT_MS: nat := 1000

  newtype u16 = x: int | 0 <= x < 0x1_0000

  datatype Ipv4 = Ipv4(a: byte, b: byte, c: byte, d: byte)

  /** The command-line options of the source. `file` is the path of a capture
      file; when it is absent the source listens on `ip`:`port`. */
  datatype SourceOpts = SourceOpts(ip: Ipv4, port: u16, file: Option<string>, frameSize: nat)

  /** A bound socket, with the options set on it at construction. */
  datatype Socket = Socket(ip: Ipv4, port: u16, recvBufferSize: nat, readTimeoutMs: nat)

  /** The two variants of the source: a capture file (its whole contents and
      the frame size) or a bound socket. */
  datatype Mode = File(bytes: seq<byte>, frameSize: nat) | Udp(socket: Socket)

  /** What the operating system answers to the three set-up calls of network
      mode, in the order they are made: bind, set the receive-buffer size, set
      the read timeout. */
  datatype NetSetup = NetSetup(bind: Option<IoError>, recvBuffer: Option<IoError>, readTimeout: Option<IoError>)

  /** Source construction. `openResult` is what opening the file named by
      `opts.file` yields (its contents, or the open error); it is consulted
      only in file mode. Network mode makes the three set-up calls of `net` in
      order and fails with the first error. */
  function Open(opts: SourceOpts, openResult: Result<seq<byte>, IoError>, net: NetSetup): (r: Result<Mode, IoError>)
    ensures (r.Ok? && r.value.File?) <==> (opts.file.Some? && openResult.Ok?)
    ensures r.Ok? && r.value.File? ==> r.value == File(openResult.value, opts.frameSize)
    ensures opts.file.Some? && openResult.Err? ==> r == Err(openResult.error)
    ensures opts.file.None? ==> (r.Ok? <==> net.bind.None? && net.recvBuffer.None? && net.readTimeout.None?)
    ensures r.Ok? && r.value.Udp? ==>
      opts.file.None? && r.value.socket == Socket(opts.ip, opts.port, RECV_BUFFER_SIZE, READ_TIMEOUT_MS)
    ensures opts.file.None? && r.Err? ==> Some(r.error) in [net.bind, net.recvBuffer, net.readTimeout]
    ensures opts.file.None? && net.bind.Some? ==> r == Err(net.bind.value)
    ensures opts.file.None? && net.bind.None? && net.recvBuffer.Some? ==> r == Err(net.recvBuffer.value)
  {
    match opts.file
    case Some(_) =>
      (match openResult
       case Ok(contents) => Ok(File(contents, opts.frameSize))
       case Err(e) => Err(e))
    case None =>
      if net.bind.Some? then Err(net.bind.value)
      else if net.recvBuffer.Some? then Err(net.recvBuffer.value)
      else if net.readTimeout.Some? then Err(net.readTimeout.value)
      else Ok(Udp(Socket(opts.ip, opts.port, RECV_BUFFER_SIZE, READ_TIMEOUT_MS)))
  }

  /** Whether a read of `n` bytes at cursor `c` finds them all in the file
      (otherwise it reaches end-of-file). */
  predicate Fits(bytes: seq<byte>, n: nat, c: nat)
  {
    c + n <= |bytes|
  }

  /** Where the frame that a fault-free `get` at cursor `c` returns starts:
      at the cursor if a whole frame remains, else at the start of the file. */
  function Served(bytes: seq<byte>, n: nat, c: nat): (start: nat)
    requires n <= |bytes|
    ensures start + n <= |bytes|
    ensures start == c || start == 0
  {
    if Fits(bytes, n, c) then c else 0
  }

  /** The `n` bytes a fault-free `get` at cursor `c` returns. */
  function FrameAt(bytes: seq<byte>, n: nat, c: nat): (frame: seq<byte>)
    requires n <= |bytes|
    ensures |frame| == n
  {
    bytes[Served(bytes, n, c)..Served(bytes, n, c) + n]
  }

  /** The result of one `get` and the cursor it leaves behind. */
  datatype Fetch = Fetch(result: Result<nat, IoError>, cursor: nat)

  /** One `get` on a file source with its retry loop unrolled. The file
      operations it issues are numbered: 0 is the first read, 1 the seek back
      to the start after end-of-file, 2 the read after that seek; `fault(k)`
      is the error the operating system raises on operation k, if any. A read
      that reaches end-of-file has consumed the rest of the file. Because the
      file holds at least one frame, the read after the seek never reaches
      end-of-file, so no more operations are issued. */
  function FileGet(bytes: seq<byte>, n: nat, c: nat, fault: nat -> Option<IoError>): (f: Fetch)
    requires c <= |bytes| && n <= |bytes|
    ensures f.cursor <= |bytes|
    ensures f.result.Ok? ==> f.result.value == n && f.cursor == Served(bytes, n, c) + n
    ensures f.result.Err? ==> Some(f.result.error) in [fault(0), fault(1), fault(2)]
    ensures fault(0).Some? ==> f == Fetch(Err(fault(0).value), c)
    ensures fault(0).None? && fault(1).None? && fault(2).None? ==> f.result == Ok(n)
    ensures fault(0).None? && Fits(bytes, n, c) ==> f == Fetch(Ok(n), c + n)
    ensures fault(0).None? && !Fits(bytes, n, c) && fault(1).Some? ==> f.result == Err(fault(1).value)
    ensures fault(0).None? && !Fits(bytes, n, c) && fault(1).None? && fault(2).Some? ==> f.result == Err(fault(2).value)
  {
    if fault(0).Some? then Fetch(Err(fault(0).value), c)
    else if Fits(bytes, n, c) then Fetch(Ok(n), c + n)
    else if fault(1).Some? then Fetch(Err(fault(1).value), |bytes|)
    else if fault(2).Some? then Fetch(Err(fault(2).value), 0)
    else Fetch(Ok(n), n)
  }

  /** The handle of a live source. In file mode `cursor` is the position of
      the buffered reader in the file; in network mode it is unused. */
  class Source {
    const mode: Mode
    var cursor: nat

    ghost predicate Valid()
      reads this
    {
      mode.File? ==> cursor <= |mode.bytes|
    }

    constructor (m: Mode)
      ensures mode == m && cursor == 0
      ensures Valid()
    {
      mode := m;
      cursor := 0;
    }

    /** Fill `buf` with the next frame and return its length. In file mode
        `fault` says which of the file operations fail (see FileGet); in
        network mode `datagram` is what the socket's receive call yields. */
    method Get(buf: array<byte>, fault: nat -> Option<IoError>, datagram: Result<seq<byte>, IoError>)
      returns (r: Result<nat, IoError>)
      requires Valid()
      requires mode.File? ==> mode.frameSize <= buf.Length && mode.frameSize <= |mode.bytes|
      modifies this, buf
      ensures Valid()
      ensures mode.File? ==> Fetch(r, cursor) == FileGet(mode.bytes, mode.frameSize, old(cursor), fault)
      ensures mode.File? && r.Ok? ==> buf[..mode.frameSize] == FrameAt(mode.bytes, mode.frameSize, old(cursor))
      ensures mode.File? ==> forall t :: mode.frameSize <= t < buf.Length ==> buf[t] == old(buf[t])
      ensures mode.Udp? ==> cursor == old(cursor)
      ensures mode.Udp? ==> r == match datagram
                                 case Ok(d) => Ok(Min(|d|, buf.Length))
                                 case Err(e) => Err(e)
      ensures mode.Udp? && r.Ok? ==> buf[..r.value] == datagram.value[..r.value]
      ensures mode.Udp? && r.Ok? ==> forall t :: r.value <= t < buf.Length ==> buf[t] == old(buf[t])
    {
      match mode
      case Udp(_) =>
        match datagram {
          case Err(e) =>
            r := Err(e);
          case Ok(d) =>
            var m := Min(|d|, buf.Length);
            Fill(buf, d[..m]);
            r := Ok(m);
        }
      case File(bytes, n) =>
        var ops := 0;
        var rewound := false;
        while true
          invariant cursor <= |bytes|
          invariant ops == if rewound then 2 else 0
          invariant !rewound ==> cursor == old(cursor)
          invariant rewound ==> cursor == 0 && fault(0).None? && fault(1).None? && !Fits(bytes, n, old(cursor))
          invariant forall t :: n <= t < buf.Length ==> buf[t] == old(buf[t])
          decreases if rewound then 0 else 1
        {
          if fault(ops).Some? {
            r := Err(fault(ops).value);
            return;
          }
          if Fits(bytes, n, cursor) {
            Fill(buf, bytes[cursor..cursor + n]);
            cursor := cursor + n;
            r := Ok(n);
            return;
          }
          // read_exact ran into end-of-file after taking the rest of the file
          Fill(buf, bytes[cursor..]);
          cursor := |bytes|;
          if fault(ops + 1).Some? {
            r := Err(fault(ops + 1).value);
            return;
          }
          cursor := 0;
          ops := ops + 2;
          rewound := true;
        }
    }
  }

  /** Copy `src` into the front of `buf`, as `read_exact` and `recv` do. */
  method Fill(buf: array<byte>, src: seq<byte>)
    requires |src| <= buf.Length
    modifies buf
    ensures buf[..|src|] == src
    ensures forall t :: |src| <= t < buf.Length ==> buf[t] == old(buf[t])
  {
    var j := 0;
    while j < |src|
      invariant 0 <= j <= |src|
      invariant forall t :: 0 <= t < j ==> buf[t] == src[t]
      invariant forall t :: j <= t < buf.Length ==> buf[t] == old(buf[t])
    {
      buf[j] := src[j];
      j := j + 1;
    }
  }

  /** If the file is shorter than one frame, every read of a frame reaches
      end-of-file, at any cursor and after every rewind: the retry loop never
      ends. */
  lemma ShortFileNeverFits(bytes: seq<byte>, n: nat, c: nat)
    requires |bytes| < n
    ensures !Fits(bytes, n, c) && !Fits(bytes, n, 0)
  {
  }

  /** The start offsets of the frames returned by `k` successive fault-free
      `get`s from cursor `c`. */
  function Replay(bytes: seq<byte>, n: nat, c: nat, k: nat): (starts: seq<nat>)
    requires n <= |bytes|
    ensures |starts| == k
    decreases k
  {
    if k == 0 then [] else [Served(bytes, n, c)] + Replay(bytes, n, Served(bytes, n, c) + n, k - 1)
  }

  /** A fault-free `get` is the step of Replay. */
  lemma FaultFreeGet(bytes: seq<byte>, n: nat, c: nat)
    requires c <= |bytes| && n <= |bytes|
    ensures FileGet(bytes, n, c, _ => None) == Fetch(Ok(n), Served(bytes, n, c) + n)
    ensures Replay(bytes, n, c, 1) == [Served(bytes, n, c)]
  {
  }

  lemma MulMonotone(a: int, b: int, n: nat)
    requires a <= b
    ensures a * n <= b * n
  {
    assert b * n == a * n + (b - a) * n;
  }

  /** Quotient and remainder are unique. */
  lemma DivModUnique(x: int, q: int, r: int, d: nat)
    requires d > 0 && x == q * d + r && 0 <= r < d
    ensures x / d == q && x % d == r
  {
    var q0, r0 := x / d, x % d;
    assert x == q0 * d + r0;
    assert (q - q0) * d == r0 - r;
    if q - q0 >= 1 {
      MulMonotone(1, q - q0, d);
    } else if q - q0 <= -1 {
      MulMonotone(q - q0, -1, d);
    }
  }

  lemma DivBounds(len: nat, n: nat)
    requires n > 0
    ensures (len / n) * n <= len < (len / n) * n + n
  {
  }

  lemma ModAddMod(a: nat, j: nat, count: nat)
    requires count > 0
    ensures (a % count + j) % count == (a + j) % count
  {
    var q, r := (a % count + j) / count, (a % count + j) % count;
    assert a % count + j == q * count + r;
    assert a == (a / count) * count + a % count;
    assert a + j == (a / count + q) * count + r;
    DivModUnique(a + j, a / count + q, r, count);
  }

  /** One fault-free `get` with the cursor on the boundary of whole frame `m`
      (m <= L / n): it serves frame `m mod (L / n)` and leaves the cursor
      just past it. */
  lemma ServeStep(bytes: seq<byte>, n: nat, m: nat, c: nat)
    requires 0 < n <= |bytes|
    requires m <= |bytes| / n && c == m * n
    ensures Served(bytes, n, c) == (m % (|bytes| / n)) * n
    ensures Served(bytes, n, c) + n == (m % (|bytes| / n) + 1) * n
  {
    var count := |bytes| / n;
    DivBounds(|bytes|, n);
    if m < count {
      MulMonotone(m + 1, count, n);
      assert c + n == (m + 1) * n;
      DivModUnique(m, 0, m, count);
    } else {
      assert c + n == count * n + n;
      DivModUnique(m, 1, 0, count);
    }
  }

  /** The frame `j` steps after frame `m` is `j - 1` steps after the one
      that follows it. */
  lemma NextFrameIndex(m: nat, j: nat, count: nat)
    requires count > 0 && j > 0
    ensures (m % count + 1 + (j - 1)) % count == (m + j) % count
  {
    ModAddMod(m, j, count);
  }

  /** With the cursor on the boundary of whole frame `m`, the `j`-th of the
      next `k` fault-free `get`s serves frame `m + j` modulo the number of
      whole frames. */
  lemma {:induction false} ReplayAt(bytes: seq<byte>, n: nat, m: nat, c: nat, k: nat, j: nat)
    requires 0 < n <= |bytes|
    requires m <= |bytes| / n && c == m * n && j < k
    ensures Replay(bytes, n, c, k)[j] == ((m + j) % (|bytes| / n)) * n
    decreases j
  {
    ServeStep(bytes, n, m, c);
    if j > 0 {
      var count := |bytes| / n;
      ReplayAt(bytes, n, m % count + 1, Served(bytes, n, c) + n, k - 1, j - 1);
      assert Replay(bytes, n, c, k)[j] == Replay(bytes, n, Served(bytes, n, c) + n, k - 1)[j - 1];
      NextFrameIndex(m, j, count);
    }
  }

  /** With the cursor on the boundary of whole frame `m`, the next `k`
      fault-free `get`s serve frames `m, m + 1, ...` modulo the number of whole
      frames. */
  lemma ReplayFrom(bytes: seq<byte>, n: nat, m: nat, c: nat, k: nat)
    requires 0 < n <= |bytes|
    requires m <= |bytes| / n && c == m * n
    ensures forall j :: 0 <= j < k ==> Replay(bytes, n, c, k)[j] == ((m + j) % (|bytes| / n)) * n
  {
    forall j | 0 <= j < k
      ensures Replay(bytes, n, c, k)[j] == ((m + j) % (|bytes| / n)) * n
    {
      ReplayAt(bytes, n, m, c, k, j);
    }
  }

  /** File replay is cyclic: from the start of the file, the `j`-th `get`
      returns whole frame number `j mod (L / n)`, where L is the file length;
      so after L / n reads the first frame comes back. */
  lemma Cyclic(bytes: seq<byte>, n: nat, k: nat)
    requires 0 < n <= |bytes|
    ensures forall j :: 0 <= j < k ==> Replay(bytes, n, 0, k)[j] == (j % (|bytes| / n)) * n
  {
    ReplayFrom(bytes, n, 0, 0, k);
  }

  /** The trailing `L mod n` bytes of the file are never returned: every frame
      replayed from the start lies within the first `(L / n) * n` bytes. */
  lemma NoPartialFrame(bytes: seq<byte>, n: nat, k: nat)
    requires 0 < n <= |bytes|
    ensures forall j :: 0 <= j < k ==> Replay(bytes, n, 0, k)[j] + n <= (|bytes| / n) * n
  {
    var count := |bytes| / n;
    DivBounds(|bytes|, n);
    Cyclic(bytes, n, k);
    forall j | 0 <= j < k
      ensures Replay(bytes, n, 0, k)[j] + n <= count * n
    {
      MulMonotone(j % count + 1, count, n);
      assert (j % count + 1) * n == (j % count) * n + n;
    }
  }

  /** Length of the buffer the acquisition loop reads frames into
      (src/bin/main.rs:47). */
  const CALLER_BUFFER_LENGTH: nat := 2048

  /** A capture file opened with the default frame size and holding at least
      one frame gives a source whose `Get` may be called with the acquisition
      loop's 2048-byte buffer: the frame fits the buffer and the file. */
  lemma DefaultFrameFits(opts: SourceOpts, contents: seq<byte>, net: NetSetup)
    requires opts.file.Some? && opts.frameSize == DEFAULT_FRAME_SIZE
    requires |contents| >= DEFAULT_FRAME_SIZE
    ensures var r := Open(opts, Ok(contents), net);
            r.Ok? && r.value.File? &&
            r.value.frameSize <= CALLER_BUFFER_LENGTH && r.value.frameSize <= |r.value.bytes|
  {
  }
}
